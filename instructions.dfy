/** Crane instructions and their parser (`impl FromStr for Instruction`,
    src/main.rs): a line `move N from A to B` is read by keeping the tokens at
    odd positions, parsing each as a `usize`, demanding exactly three of them
    and rejecting a source label equal to the destination label. */
module Instructions {
  import opened Results
  import opened Text

  /** Parse failures of the instruction parser and of the stack-configuration
      parser, which reads its labels with the same `ParseNumber`. */
  datatype ParseError =
    | NotANumber(token: string)        // a token that `usize::from_str` rejects
    | WrongFieldCount(count: nat)      // an instruction line without exactly three numbers
    | SameLabel(stackLabel: nat)       // an instruction whose source and destination coincide
    | MissingLabel                     // a stack line with no tokens at all
    | LabelOutOfRange(stackLabel: nat) // a stack label that names none of the stacks
    | DuplicateLabel(stackLabel: nat)  // two stack lines with the same label
    | NotAnItem(token: string)         // a stack item that is not a single character

  /** A numeric token: its `usize` value, or the token itself as the error. */
  function ParseNumber(t: string): (r: Result<nat, ParseError>)
    ensures r.Ok? <==> ParseUsize(t).Some?
    ensures r.Ok? ==> ParseUsize(t) == Some(r.value)
    ensures r.Err? ==> r.error == NotANumber(t)
  {
    match ParseUsize(t)
    case Some(v) => Ok(v)
    case None => Err(NotANumber(t))
  }

  /** Move `numToMove` crates from the stack labelled `fromStack` to the one
      labelled `toStack` (labels are 1-based). */
  datatype Instruction = Instruction(numToMove: nat, fromStack: nat, toStack: nat)

  /** The items at odd positions (1, 3, 5, ...), in order. */
  function OddPositions<T>(xs: seq<T>): (odd: seq<T>)
    ensures |odd| == |xs| / 2
    ensures forall k | 0 <= k < |odd| :: odd[k] == xs[2 * k + 1]
  {
    if |xs| < 2 then [] else [xs[1]] + OddPositions(xs[2..])
  }

  /** `Instruction::from_str`: the numbers at the odd token positions, exactly
      three of them, with distinct source and destination labels. */
  function ParseInstruction(line: string): (r: Result<Instruction, ParseError>)
    ensures r.Ok? ==> r.value.fromStack != r.value.toStack
  {
    var parts :- Collect(OddPositions(Words(line)), ParseNumber);
    if |parts| != 3 then Err(WrongFieldCount(|parts|))
    else if parts[1] == parts[2] then Err(SameLabel(parts[1]))
    else Ok(Instruction(parts[0], parts[1], parts[2]))
  }

  /** The keyword tokens at even positions are never looked at: a line is
      accepted exactly when it has six or seven tokens, the second, fourth and
      sixth of which are `usize`s and the fourth and sixth differ, and those
      three are the count, the source label and the destination label. */
  lemma ParseInstructionAccepts(line: string)
    ensures var ws := Words(line); var r := ParseInstruction(line);
      r.Ok? <==>
        && (|ws| == 6 || |ws| == 7)
        && ParseUsize(ws[1]).Some? && ParseUsize(ws[3]).Some? && ParseUsize(ws[5]).Some?
        && ParseUsize(ws[3]) != ParseUsize(ws[5])
    ensures var ws := Words(line); var r := ParseInstruction(line);
      r.Ok? ==>
        && Some(r.value.numToMove) == ParseUsize(ws[1])
        && Some(r.value.fromStack) == ParseUsize(ws[3])
        && Some(r.value.toStack) == ParseUsize(ws[5])
  {
    var ws := Words(line);
    var odd := OddPositions(ws);
    if |ws| == 6 || |ws| == 7 {
      assert odd == [ws[1], ws[3], ws[5]];
      CollectFieldsOfThree(ws[1], ws[3], ws[5]);
    } else {
      assert |odd| != 3;
    }
  }

  lemma CollectFieldsOfThree(a: string, b: string, c: string)
    ensures var r := Collect([a, b, c], ParseNumber);
      && (r.Ok? <==> ParseUsize(a).Some? && ParseUsize(b).Some? && ParseUsize(c).Some?)
      && (r.Ok? ==> r.value == [ParseUsize(a).value, ParseUsize(b).value, ParseUsize(c).value])
  {
    var r := Collect([a, b, c], ParseNumber);
    if r.Ok? {
      assert ParseNumber([a, b, c][0]) == Ok(r.value[0]);
      assert ParseNumber([a, b, c][1]) == Ok(r.value[1]);
      assert ParseNumber([a, b, c][2]) == Ok(r.value[2]);
    } else {
      assert exists i | 0 <= i < 3 :: ParseNumber([a, b, c][i]).Err?;
    }
  }

  /** The first rejection: the first odd-position token that is not a
      `usize` is reported, whatever follows it. */
  lemma ParseInstructionRejectsNonNumber(line: string, k: nat)
    requires var ws := Words(line);
      && k < |ws| / 2 && ParseUsize(ws[2 * k + 1]).None?
      && forall j | 0 <= j < k :: ParseUsize(ws[2 * j + 1]).Some?
    ensures ParseInstruction(line) == Err(NotANumber(Words(line)[2 * k + 1]))
  {
    var ws := Words(line);
    var odd := OddPositions(ws);
    var c := Collect(odd, ParseNumber);
    assert ParseNumber(odd[k]).Err?;
    assert forall j | 0 <= j < k :: ParseNumber(odd[j]).Ok?;
    var i :| 0 <= i < |odd| && ParseNumber(odd[i]) == Err(c.error)
      && forall j | 0 <= j < i :: ParseNumber(odd[j]).Ok?;
    assert i == k;
  }

  /** The second rejection: every odd-position token is a number, but there
      are not exactly three of them. */
  lemma ParseInstructionRejectsFieldCount(line: string)
    requires var ws := Words(line);
      && |ws| / 2 != 3
      && forall k | 0 <= k < |ws| / 2 :: ParseUsize(ws[2 * k + 1]).Some?
    ensures ParseInstruction(line) == Err(WrongFieldCount(|Words(line)| / 2))
  {
    var ws := Words(line);
    var odd := OddPositions(ws);
    forall k | 0 <= k < |odd| ensures ParseNumber(odd[k]).Ok? {
      assert ParseUsize(ws[2 * k + 1]).Some?;
    }
  }

  /** The third rejection: a well-formed line whose source label equals its
      destination label is refused rather than read as a no-op. */
  lemma ParseInstructionRejectsSelfMove(line: string, stack: nat)
    requires var ws := Words(line);
      && (|ws| == 6 || |ws| == 7)
      && ParseUsize(ws[1]).Some?
      && ParseUsize(ws[3]) == ParseUsize(ws[5]) == Some(stack)
    ensures ParseInstruction(line) == Err(SameLabel(stack))
  {
    var ws := Words(line);
    var odd := OddPositions(ws);
    assert odd == [ws[1], ws[3], ws[5]];
    CollectFieldsOfThree(ws[1], ws[3], ws[5]);
  }

  /** Only the tokens at odd positions matter: two lines that split into the
      same number of tokens and agree at every odd position parse alike,
      whatever their keyword tokens are. */
  lemma ParseIgnoresKeywords(a: string, b: string)
    requires |Words(a)| == |Words(b)|
    requires forall k | 0 <= k < |Words(a)| / 2 :: Words(a)[2 * k + 1] == Words(b)[2 * k + 1]
    ensures ParseInstruction(a) == ParseInstruction(b)
  {
    assert OddPositions(Words(a)) == OddPositions(Words(b));
  }

  /** The canonical text of an instruction, `move N from A to B`. */
  function Render(ins: Instruction): string {
    Unwords(["move", FormatNat(ins.numToMove), "from", FormatNat(ins.fromStack),
             "to", FormatNat(ins.toStack)])
  }

  /** Every instruction the parser can produce is read back from its text. */
  lemma ParseRender(ins: Instruction)
    requires ins.numToMove < UsizeLimit && ins.fromStack < UsizeLimit && ins.toStack < UsizeLimit
    requires ins.fromStack != ins.toStack
    ensures ParseInstruction(Render(ins)) == Ok(ins)
  {
    var n, a, b := FormatNat(ins.numToMove), FormatNat(ins.fromStack), FormatNat(ins.toStack);
    var ws := ["move", n, "from", a, "to", b];
    FormatNatIsWord(ins.numToMove);
    FormatNatIsWord(ins.fromStack);
    FormatNatIsWord(ins.toStack);
    assert IsWord("move") && IsWord("from") && IsWord("to");
    WordsUnwords(ws);
    assert Words(Render(ins)) == ws;
    ParseFormatNat(ins.numToMove);
    ParseFormatNat(ins.fromStack);
    ParseFormatNat(ins.toStack);
    ParseInstructionAccepts(Render(ins));
  }

  /** The lines of an instruction block, each parsed with `ParseInstruction`;
      the first line that fails decides the error. */
  function ParseInstructions(block: string): (r: Result<seq<Instruction>, ParseError>)
    ensures r.Ok? ==> |r.value| == |Lines(block)|
    ensures r.Ok? ==> forall i | 0 <= i < |r.value| ::
      ParseInstruction(Lines(block)[i]) == Ok(r.value[i]) && r.value[i].fromStack != r.value[i].toStack
    ensures r.Err? ==> exists i | 0 <= i < |Lines(block)| ::
      ParseInstruction(Lines(block)[i]) == Err(r.error)
      && forall j | 0 <= j < i :: ParseInstruction(Lines(block)[j]).Ok?
  {
    Collect(Lines(block), ParseInstruction)
  }

  /** An instruction block: one rendered instruction per line. */
  function RenderAll(ins: seq<Instruction>): string {
    Unlines(seq(|ins|, i requires 0 <= i < |ins| => Render(ins[i])))
  }

  /** A rendered instruction is one non-empty line. */
  lemma RenderIsOneLine(ins: Instruction)
    ensures Render(ins) != [] && '\n' !in Render(ins)
  {
    FormatNatIsWord(ins.numToMove);
    FormatNatIsWord(ins.fromStack);
    FormatNatIsWord(ins.toStack);
    assert IsWord("move") && IsWord("from") && IsWord("to");
    UnwordsHasNoLineFeed(["move", FormatNat(ins.numToMove), "from", FormatNat(ins.fromStack),
                          "to", FormatNat(ins.toStack)]);
  }

  /** A block of rendered instructions parses back to the same list. */
  lemma ParseRenderAll(ins: seq<Instruction>)
    requires forall i | 0 <= i < |ins| ::
      && ins[i].numToMove < UsizeLimit && ins[i].fromStack < UsizeLimit && ins[i].toStack < UsizeLimit
      && ins[i].fromStack != ins[i].toStack
    ensures ParseInstructions(RenderAll(ins)) == Ok(ins)
  {
    var ls := seq(|ins|, i requires 0 <= i < |ins| => Render(ins[i]));
    forall i | 0 <= i < |ins|
      ensures '\n' !in ls[i] && ls[i] != [] && ParseInstruction(ls[i]) == Ok(ins[i])
    {
      ParseRender(ins[i]);
      RenderIsOneLine(ins[i]);
    }
    LinesUnlines(ls);
    assert Lines(RenderAll(ins)) == ls;
    CollectAllOk(ls, ParseInstruction, ins);
  }
}
