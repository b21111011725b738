/** Concrete runs: the unit test of the stack parser, the instruction line
    quoted in the parser's comment, and the four-move example with three
    stacks. */
module Scenarios {
  import opened Results
  import opened Text
  import opened Instructions
  import opened StackModel
  import opened StackParsing

  /** The three-stack arrangement of the unit test, padded to nine stacks. */
  function ExampleStacks(): (s: seq<Stack>)
    ensures |s| == NumStacks
  {
    [['Z', 'N'], ['M', 'C', 'D'], ['P'], [], [], [], [], [], []]
  }

  lemma ExampleStackLine1()
    ensures StackLine(0, ExampleStacks()[0]) == "1 Z N"
  {
    var st := ExampleStacks()[0];
    assert FormatNat(1) == "1";
    assert CrateTokens(st) == ["Z", "N"];
    assert [FormatNat(1)] + ["Z", "N"] == ["1", "Z", "N"];
    assert Unwords(["Z", "N"]) == "Z N" by {
      assert ["Z", "N"][1..] == ["N"];
    }
    assert ["1", "Z", "N"][1..] == ["Z", "N"];
  }

  lemma ExampleStackLine2()
    ensures StackLine(1, ExampleStacks()[1]) == "2 M C D"
  {
    var st := ExampleStacks()[1];
    assert FormatNat(2) == "2";
    assert CrateTokens(st) == ["M", "C", "D"];
    assert Unwords(["C", "D"]) == "C D" by {
      assert ["C", "D"][1..] == ["D"];
    }
    assert Unwords(["M", "C", "D"]) == "M C D" by {
      assert ["M", "C", "D"][1..] == ["C", "D"];
    }
    assert [FormatNat(2)] + ["M", "C", "D"] == ["2", "M", "C", "D"];
    assert ["2", "M", "C", "D"][1..] == ["M", "C", "D"];
  }

  lemma ExampleStackLine3()
    ensures StackLine(2, ExampleStacks()[2]) == "3 P"
  {
    var st := ExampleStacks()[2];
    assert FormatNat(3) == "3";
    assert CrateTokens(st) == ["P"];
    assert [FormatNat(3)] + ["P"] == ["3", "P"];
    assert ["3", "P"][1..] == ["P"];
  }

  /** The lines written for the example arrangement are those of the unit test. */
  lemma ExampleLines()
    ensures StackLines(ExampleStacks(), 0) == ["1 Z N", "2 M C D", "3 P"]
  {
    var s := ExampleStacks();
    ExampleStackLine1();
    ExampleStackLine2();
    ExampleStackLine3();
    assert StackLines(s, 3) == [];
    assert StackLines(s, 2) == ["3 P"];
    assert StackLines(s, 1) == ["2 M C D", "3 P"];
  }

  /** The example arrangement is written as the unit test's text. */
  lemma SerializeExample()
    ensures Serialize(ExampleStacks()) == "1 Z N\n2 M C D\n3 P"
  {
    var ls := ["1 Z N", "2 M C D", "3 P"];
    ExampleLines();
    assert ls[1..][1..] == ["3 P"];
    assert ls[1..] == ["2 M C D", "3 P"];
    assert Unlines(ls[1..]) == "2 M C D\n3 P";
  }

  /** The unit test `test_from_str`: each line is a label and that stack's
      crates, bottom to top. */
  lemma ParseStacksExample()
    ensures ParseStacks("1 Z N\n2 M C D\n3 P") == Ok(ExampleStacks())
  {
    var s := ExampleStacks();
    SerializeExample();
    assert PrintableCrates(s) by {
      forall i, k | 0 <= i < |s| && 0 <= k < |s[i]| ensures !IsAsciiWhitespace(s[i][k]) {
        assert i < 3;
        if i == 0 {
          assert s[i][k] in ['Z', 'N'];
        } else if i == 1 {
          assert s[i][k] in ['M', 'C', 'D'];
        } else {
          assert s[i][k] == 'P';
        }
      }
    }
    ParseSerialize(s);
  }

  /** The last four words of that line, joined by spaces. */
  lemma ExampleInstructionTail()
    ensures Unwords(["from", "8", "to", "7"]) == "from 8 to 7"
  {
    var ws := ["from", "8", "to", "7"];
    assert Unwords(ws[2..]) == "to 7" by {
      assert ws[2..][1..] == ["7"];
    }
    assert ws[1..][1..] == ws[2..];
  }

  /** The words of the instruction line quoted beside the parser, joined by spaces. */
  lemma ExampleInstructionWords()
    ensures Unwords(["move", "13", "from", "8", "to", "7"]) == "move 13 from 8 to 7"
  {
    var ws := ["move", "13", "from", "8", "to", "7"];
    ExampleInstructionTail();
    assert ws[1..][1..] == ["from", "8", "to", "7"];
    assert ws[1..] == ["13", "from", "8", "to", "7"];
  }

  /** That line is the text of its instruction. */
  lemma RenderExample()
    ensures Render(Instruction(13, 8, 7)) == "move 13 from 8 to 7"
  {
    assert FormatNat(13) == FormatNat(1) + [DigitChar(3)];
    ExampleInstructionWords();
  }

  /** The instruction line quoted beside the parser. */
  lemma ParseInstructionExample()
    ensures ParseInstruction("move 13 from 8 to 7") == Ok(Instruction(13, 8, 7))
  {
    RenderExample();
    ParseRender(Instruction(13, 8, 7));
  }

  /** A move whose outcome is given stack by stack. */
  lemma MoveGives(s: seq<Stack>, ins: Instruction, t: seq<Stack>)
    requires |s| == NumStacks && |t| == NumStacks && LabelsValid(ins)
    requires ins.numToMove <= |s[ins.fromStack - 1]|
    requires var src, dst := ins.fromStack - 1, ins.toStack - 1;
      && t[src] + TopBlock(s[src], ins.numToMove) == s[src]
      && t[dst] == s[dst] + TopBlock(s[src], ins.numToMove)
      && forall k | 0 <= k < NumStacks && k != src && k != dst :: t[k] == s[k]
    ensures Move(s, ins) == Ok(t)
  {
    var src := ins.fromStack - 1;
    assert t[src] == s[src][..|s[src]| - ins.numToMove];
    assert Move(s, ins).value == t;
  }

  function ExampleMoves(): seq<Instruction> {
    [Instruction(1, 2, 1), Instruction(3, 1, 3), Instruction(2, 2, 1), Instruction(1, 1, 2)]
  }

  /** The arrangement after each of the example moves. */
  function AfterMoves(k: nat): (s: seq<Stack>)
    requires 1 <= k <= 4
    ensures |s| == NumStacks
  {
    match k
    case 1 => [['Z', 'N', 'D'], ['M', 'C'], ['P'], [], [], [], [], [], []]
    case 2 => [[], ['M', 'C'], ['P', 'Z', 'N', 'D'], [], [], [], [], [], []]
    case 3 => [['M', 'C'], [], ['P', 'Z', 'N', 'D'], [], [], [], [], [], []]
    case 4 => [['M'], ['C'], ['P', 'Z', 'N', 'D'], [], [], [], [], [], []]
  }

  /** "move 1 from 2 to 1" takes D onto the first stack. */
  lemma ExampleMove1()
    ensures Move(ExampleStacks(), ExampleMoves()[0]) == Ok(AfterMoves(1))
  {
    MoveGives(ExampleStacks(), ExampleMoves()[0], AfterMoves(1));
  }

  /** "move 3 from 1 to 3" carries Z N D, in that order, onto the third stack. */
  lemma ExampleMove2()
    ensures Move(AfterMoves(1), ExampleMoves()[1]) == Ok(AfterMoves(2))
  {
    MoveGives(AfterMoves(1), ExampleMoves()[1], AfterMoves(2));
  }

  lemma ExampleMove3()
    ensures Move(AfterMoves(2), ExampleMoves()[2]) == Ok(AfterMoves(3))
  {
    MoveGives(AfterMoves(2), ExampleMoves()[2], AfterMoves(3));
  }

  lemma ExampleMove4()
    ensures Move(AfterMoves(3), ExampleMoves()[3]) == Ok(AfterMoves(4))
  {
    MoveGives(AfterMoves(3), ExampleMoves()[3], AfterMoves(4));
  }

  /** The four example moves on the example arrangement. Because each block
      keeps its order, the first three stacks end as M, C and P Z N D. */
  lemma ExampleRun()
    ensures ApplyAll(ExampleStacks(), ExampleMoves()) == Ok(AfterMoves(4))
  {
    var m := ExampleMoves();
    ExampleMove1();
    ExampleMove2();
    ExampleMove3();
    ExampleMove4();
    assert ApplyAll(AfterMoves(3), m[3..]) == Ok(AfterMoves(4)) by { assert m[3..][1..] == []; }
    assert ApplyAll(AfterMoves(2), m[2..]) == Ok(AfterMoves(4)) by { assert m[2..][1..] == m[3..]; }
    assert ApplyAll(AfterMoves(1), m[1..]) == Ok(AfterMoves(4)) by { assert m[1..][1..] == m[2..]; }
  }

  /** The tops of the first three stacks read "MCD"; the other six stacks are
      empty, so the summary of all nine fails on the fourth. */
  lemma ExampleTops()
    ensures Tops(AfterMoves(4)[..3]) == Ok("MCD")
    ensures Tops(AfterMoves(4)) == Err(EmptyStack(3))
  {
    var s := AfterMoves(4);
    assert s[..3] == [['M'], ['C'], ['P', 'Z', 'N', 'D']];
    assert Tops(s[..3]).value == "MCD";
    assert s[3] == [];
  }
}
