/** The stack configuration parser, `impl FromStr for Stacks` (src/main.rs),
    whose body the source leaves unwritten: one line per stack, holding the
    stack's 1-based label and then its crates from bottom to top, separated by
    ASCII whitespace. Stacks without a line stay empty. */
module StackParsing {
  import opened Results
  import opened Text
  import opened Instructions
  import opened StackModel

  /** A crate token is a single character. */
  function ParseItem(t: string): (r: Result<char, ParseError>)
    ensures r.Ok? <==> |t| == 1
    ensures r.Ok? ==> t == [r.value]
    ensures r.Err? ==> r.error == NotAnItem(t)
  {
    if |t| == 1 then Ok(t[0]) else Err(NotAnItem(t))
  }

  /** One line: the 0-based index its label names and the stack's crates.
      A line without tokens, a label that is not a `usize` or names no stack,
      and a crate token longer than one character are rejected. */
  function ParseStackLine(line: string): (r: Result<(nat, Stack), ParseError>)
    ensures r.Ok? ==> r.value.0 < NumStacks
  {
    var ws := Words(line);
    if ws == [] then Err(MissingLabel)
    else
      var tag :- ParseNumber(ws[0]);
      if !(1 <= tag <= NumStacks) then Err(LabelOutOfRange(tag))
      else
        var items :- Collect(ws[1..], ParseItem);
        Ok((tag - 1, items))
  }

  /** A stack line is accepted exactly when it has a first token that is a
      `usize` from 1 to 9 and every later token is a single character; the
      index is then that label minus one and the crates are those characters,
      bottom to top. */
  lemma ParseStackLineAccepts(line: string)
    ensures var ws, r := Words(line), ParseStackLine(line);
      r.Ok? <==>
        && ws != []
        && ParseUsize(ws[0]).Some? && 1 <= ParseUsize(ws[0]).value <= NumStacks
        && forall k | 1 <= k < |ws| :: |ws[k]| == 1
    ensures var ws, r := Words(line), ParseStackLine(line);
      r.Ok? ==>
        && ParseUsize(ws[0]) == Some(r.value.0 + 1)
        && |r.value.1| == |ws| - 1
        && forall k | 1 <= k < |ws| :: ws[k] == [r.value.1[k - 1]]
  {
    var ws := Words(line);
    if ws != [] {
      var tail := ws[1..];
      assert forall k | 1 <= k < |ws| :: ws[k] == tail[k - 1];
      var c := Collect(tail, ParseItem);
      if c.Ok? {
        assert forall k | 0 <= k < |tail| :: tail[k] == [c.value[k]];
      }
    }
  }

  /** `Stacks::default()`: nine empty stacks. */
  function EmptyStacks(): (s: seq<Stack>)
    ensures |s| == NumStacks && forall i | 0 <= i < NumStacks :: s[i] == []
  {
    seq(NumStacks, _ => [])
  }

  /** The lines in order, each setting the stack its label names; `seen` holds
      the indices already set, and a second line for one of them is an error. */
  function FillStacks(lines: seq<string>, acc: seq<Stack>, seen: set<nat>): (r: Result<seq<Stack>, ParseError>)
    requires |acc| == NumStacks
    ensures r.Ok? ==> |r.value| == NumStacks
    decreases |lines|
  {
    if lines == [] then Ok(acc)
    else
      var entry :- ParseStackLine(lines[0]);
      if entry.0 in seen then Err(DuplicateLabel(entry.0 + 1))
      else FillStacks(lines[1..], acc[entry.0 := entry.1], seen + {entry.0})
  }

  /** `Stacks::from_str`. */
  function ParseStacks(text: string): (r: Result<seq<Stack>, ParseError>)
    ensures r.Ok? ==> |r.value| == NumStacks
  {
    FillStacks(Lines(text), EmptyStacks(), {})
  }

  /** Every line is well formed. */
  predicate AllLinesParse(lines: seq<string>) {
    forall k | 0 <= k < |lines| :: ParseStackLine(lines[k]).Ok?
  }

  /** The index a well-formed line's label names. */
  function IndexOf(line: string): nat
    requires ParseStackLine(line).Ok?
  {
    ParseStackLine(line).value.0
  }

  /** Filling succeeds exactly when every line is well formed and no two
      lines (nor a line and `seen`) name the same stack. */
  lemma {:induction false} FillStacksAccepts(lines: seq<string>, acc: seq<Stack>, seen: set<nat>)
    requires |acc| == NumStacks
    ensures FillStacks(lines, acc, seen).Ok? <==>
      && AllLinesParse(lines)
      && (forall k | 0 <= k < |lines| :: IndexOf(lines[k]) !in seen)
      && (forall j, k | 0 <= j < k < |lines| :: IndexOf(lines[j]) != IndexOf(lines[k]))
    decreases |lines|
  {
    if lines != [] {
      var e := ParseStackLine(lines[0]);
      var tail := lines[1..];
      assert forall k | 1 <= k < |lines| :: lines[k] == tail[k - 1];
      if e.Ok? && e.value.0 !in seen {
        FillStacksAccepts(tail, acc[e.value.0 := e.value.1], seen + {e.value.0});
        if AllLinesParse(lines) {
          assert AllLinesParse(tail);
        }
      } else if e.Ok? {
        assert IndexOf(lines[0]) in seen;
      }
    }
  }

  /** After a successful fill each named stack holds its line's crates and
      every other stack is as in `acc`. */
  lemma {:induction false} FillStacksContents(lines: seq<string>, acc: seq<Stack>, seen: set<nat>)
    requires |acc| == NumStacks && FillStacks(lines, acc, seen).Ok?
    ensures AllLinesParse(lines)
    ensures var r := FillStacks(lines, acc, seen).value;
      && (forall k | 0 <= k < |lines| :: r[IndexOf(lines[k])] == ParseStackLine(lines[k]).value.1)
      && (forall i | 0 <= i < NumStacks && (forall k | 0 <= k < |lines| :: IndexOf(lines[k]) != i) ::
            r[i] == acc[i])
    decreases |lines|
  {
    FillStacksAccepts(lines, acc, seen);
    if lines != [] {
      var e := ParseStackLine(lines[0]).value;
      var tail := lines[1..];
      assert forall k | 1 <= k < |lines| :: lines[k] == tail[k - 1];
      FillStacksAccepts(tail, acc[e.0 := e.1], seen + {e.0});
      FillStacksContents(tail, acc[e.0 := e.1], seen + {e.0});
    }
  }

  /** The configuration is read as described: each line's crates end up on the
      stack its label names, stacks without a line are empty, and the text is
      rejected exactly when a line is malformed or two lines share a label. */
  lemma ParseStacksContents(text: string)
    ensures var r, lines := ParseStacks(text), Lines(text);
      r.Ok? <==>
        && AllLinesParse(lines)
        && (forall j, k | 0 <= j < k < |lines| :: IndexOf(lines[j]) != IndexOf(lines[k]))
    ensures var r, lines := ParseStacks(text), Lines(text);
      r.Ok? ==>
        && (forall k | 0 <= k < |lines| :: r.value[IndexOf(lines[k])] == ParseStackLine(lines[k]).value.1)
        && (forall i | 0 <= i < NumStacks && (forall k | 0 <= k < |lines| :: IndexOf(lines[k]) != i) ::
              r.value[i] == [])
  {
    FillStacksAccepts(Lines(text), EmptyStacks(), {});
    if ParseStacks(text).Ok? {
      FillStacksContents(Lines(text), EmptyStacks(), {});
    }
  }

  /** The text of one stack: its label, then its crates bottom to top. */
  function StackLine(index: nat, st: Stack): string {
    Unwords([FormatNat(index + 1)] + CrateTokens(st))
  }

  /** One line per non-empty stack from `from` on, in index order. */
  function StackLines(s: seq<Stack>, from: nat): seq<string>
    decreases |s| - from
  {
    if from >= |s| then []
    else (if s[from] == [] then [] else [StackLine(from, s[from])]) + StackLines(s, from + 1)
  }

  /** A configuration text for `s`. */
  function Serialize(s: seq<Stack>): string {
    Unlines(StackLines(s, 0))
  }

  /** Crates the parser can read back: no whitespace character. */
  predicate PrintableCrates(s: seq<Stack>) {
    forall i, k | 0 <= i < |s| && 0 <= k < |s[i]| :: !IsAsciiWhitespace(s[i][k])
  }

  /** The crate tokens of a stack: one single-character word per crate. */
  function CrateTokens(st: Stack): (ts: seq<string>)
    ensures |ts| == |st| && forall k | 0 <= k < |st| :: ts[k] == [st[k]]
  {
    seq(|st|, k requires 0 <= k < |st| => [st[k]])
  }

  /** Crate tokens are words, and they read back as the stack. */
  lemma CrateTokensRoundTrip(st: Stack)
    requires forall k | 0 <= k < |st| :: !IsAsciiWhitespace(st[k])
    ensures forall k | 0 <= k < |st| :: IsWord(CrateTokens(st)[k])
    ensures Collect(CrateTokens(st), ParseItem) == Ok(st)
  {
    var items := CrateTokens(st);
    assert forall k | 0 <= k < |items| :: ParseItem(items[k]) == Ok(st[k]);
    CollectAllOk(items, ParseItem, st);
  }

  /** The words of a stack's line are its label and its crate tokens. */
  lemma StackLineWords(index: nat, st: Stack)
    requires forall k | 0 <= k < |st| :: !IsAsciiWhitespace(st[k])
    ensures StackLine(index, st) != [] && '\n' !in StackLine(index, st)
    ensures Words(StackLine(index, st)) == [FormatNat(index + 1)] + CrateTokens(st)
  {
    var items := CrateTokens(st);
    var ws := [FormatNat(index + 1)] + items;
    FormatNatIsWord(index + 1);
    CrateTokensRoundTrip(st);
    assert forall k | 1 <= k < |ws| :: ws[k] == items[k - 1];
    WordsUnwords(ws);
    UnwordsHasNoLineFeed(ws);
    assert Unwords(ws) != [] by {
      if |ws| > 1 {
        assert Unwords(ws) == ws[0] + " " + Unwords(ws[1..]);
      }
    }
  }

  /** A stack's line is one non-empty line that reads back as that stack. */
  lemma StackLineRoundTrip(index: nat, st: Stack)
    requires index < NumStacks
    requires forall k | 0 <= k < |st| :: !IsAsciiWhitespace(st[k])
    ensures StackLine(index, st) != [] && '\n' !in StackLine(index, st)
    ensures ParseStackLine(StackLine(index, st)) == Ok((index, st))
  {
    var ws := [FormatNat(index + 1)] + CrateTokens(st);
    StackLineWords(index, st);
    ParseFormatNat(index + 1);
    CrateTokensRoundTrip(st);
    assert ws[1..] == CrateTokens(st);
  }

  /** The lines for stacks `from` onwards: none holds a line feed, none is empty. */
  lemma {:induction false} StackLinesAreLines(s: seq<Stack>, from: nat)
    requires |s| == NumStacks && PrintableCrates(s)
    ensures forall k | 0 <= k < |StackLines(s, from)| ::
      StackLines(s, from)[k] != [] && '\n' !in StackLines(s, from)[k]
    decreases |s| - from
  {
    if from < |s| {
      StackLinesAreLines(s, from + 1);
      if s[from] != [] {
        StackLineRoundTrip(from, s[from]);
      }
    }
  }

  /** Filling with the lines for stacks `from` onwards completes any partial
      result that already agrees with `s` below `from` and is empty above it. */
  lemma {:induction false} FillStackLines(s: seq<Stack>, from: nat, acc: seq<Stack>, seen: set<nat>)
    requires |s| == NumStacks && |acc| == NumStacks && PrintableCrates(s)
    requires from <= NumStacks
    requires forall i | 0 <= i < from :: acc[i] == s[i]
    requires forall i | from <= i < NumStacks :: acc[i] == []
    requires forall i | i in seen :: i < from
    ensures FillStacks(StackLines(s, from), acc, seen) == Ok(s)
    decreases |s| - from
  {
    if from == |s| {
      assert acc == s;
    } else if s[from] == [] {
      assert StackLines(s, from) == StackLines(s, from + 1);
      FillStackLines(s, from + 1, acc, seen);
    } else {
      var lines := StackLines(s, from);
      assert lines == [StackLine(from, s[from])] + StackLines(s, from + 1);
      StackLineRoundTrip(from, s[from]);
      assert lines[1..] == StackLines(s, from + 1);
      FillStackLines(s, from + 1, acc[from := s[from]], seen + {from});
    }
  }

  /** Serializing and parsing back gives the same stacks. */
  lemma ParseSerialize(s: seq<Stack>)
    requires |s| == NumStacks && PrintableCrates(s)
    ensures ParseStacks(Serialize(s)) == Ok(s)
  {
    var lines := StackLines(s, 0);
    StackLinesAreLines(s, 0);
    LinesUnlines(lines);
    FillStackLines(s, 0, EmptyStacks(), {});
  }
}
