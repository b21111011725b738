/** The value-level meaning of the crane engine in src/main.rs: nine stacks of
    single-character crates (the last element of each is its top), one move,
    the left fold of moves over an instruction list, and the string of tops.
    The class in crane.dfy runs the same operations in place and is proved
    against these functions. */
module StackModel {
  import opened Results
  import opened Instructions

  /** `NUM_STACKS`: the fixed number of stacks. */
  const NumStacks: nat := 9

  /** A stack of crates, bottom first; the last element is the top. */
  type Stack = seq<char>

  /** What stops the engine. The first two are panics in the source (the
      subtraction `from_stack - 1` underflows for label 0, a label above
      `NUM_STACKS` indexes past the array, and `get_two_mut` asserts that its
      two indices differ); the model returns them as errors instead. */
  datatype CraneError =
    | BadStackLabel(stackLabel: nat)                 // label 0 or above NumStacks
    | SameStack(stackLabel: nat)                     // source and destination coincide
    | NotEnoughItems(requested: nat, available: nat) // more crates asked for than the source holds
    | EmptyStack(index: nat)                         // no top to report (0-based index)

  /** `get_two_mut`: split `xs` once at the larger index and take the element
      at the smaller index from the left part and the one at the larger index
      as the first of the right part; the pair comes back in argument order. */
  function GetTwo<T>(xs: seq<T>, i: nat, j: nat): (r: (T, T))
    requires i != j && i < |xs| && j < |xs|
    ensures r.0 == xs[i] && r.1 == xs[j]
  {
    if i < j then
      var left, right := xs[..j], xs[j..];
      (left[i], right[0])
    else
      var left, right := xs[..i], xs[i..];
      (right[0], left[j])
  }

  /** Both labels name a stack (1-based) and they differ. */
  predicate LabelsValid(ins: Instruction) {
    1 <= ins.fromStack <= NumStacks && 1 <= ins.toStack <= NumStacks && ins.fromStack != ins.toStack
  }

  /** The top `n` crates of a stack, bottom-most first. */
  function TopBlock(st: Stack, n: nat): Stack
    requires n <= |st|
  {
    st[|st| - n..]
  }

  /** `Stacks::apply`: with labels converted to indices `label - 1`, fail if
      the source holds fewer than `numToMove` crates; otherwise take the top
      `numToMove` crates off the source as one block and put them, in the
      same order, on top of the destination. */
  function Move(s: seq<Stack>, ins: Instruction): (r: Result<seq<Stack>, CraneError>)
    requires |s| == NumStacks
    ensures r.Ok? <==> LabelsValid(ins) && ins.numToMove <= |s[ins.fromStack - 1]|
    ensures r.Err? && r.error.NotEnoughItems? <==>
      LabelsValid(ins) && ins.numToMove > |s[ins.fromStack - 1]|
    ensures r.Ok? ==> |r.value| == NumStacks
  {
    if !(1 <= ins.fromStack <= NumStacks) then Err(BadStackLabel(ins.fromStack))
    else if !(1 <= ins.toStack <= NumStacks) then Err(BadStackLabel(ins.toStack))
    else if ins.fromStack == ins.toStack then Err(SameStack(ins.fromStack))
    else
      var src, dst := ins.fromStack - 1, ins.toStack - 1;
      if ins.numToMove > |s[src]| then Err(NotEnoughItems(ins.numToMove, |s[src]|))
      else
        var block := TopBlock(s[src], ins.numToMove);
        Ok(s[src := s[src][..|s[src]| - ins.numToMove]][dst := s[dst] + block])
  }

  /** What a successful move does: the source loses exactly its top block, the
      destination gains that block on top with its order kept (so the old top
      of the source is the new top of the destination), and every other stack
      is unchanged. */
  lemma MoveEffect(s: seq<Stack>, ins: Instruction)
    requires |s| == NumStacks && Move(s, ins).Ok?
    ensures var r, src, dst := Move(s, ins).value, ins.fromStack - 1, ins.toStack - 1;
      var block := TopBlock(s[src], ins.numToMove);
      && r[src] + block == s[src]
      && |r[src]| == |s[src]| - ins.numToMove
      && r[dst] == s[dst] + block
      && (ins.numToMove > 0 ==> r[dst][|r[dst]| - 1] == s[src][|s[src]| - 1])
      && forall k | 0 <= k < NumStacks && k != src && k != dst :: r[k] == s[k]
  {
    var r, src, dst := Move(s, ins).value, ins.fromStack - 1, ins.toStack - 1;
    assert r[src] + TopBlock(s[src], ins.numToMove) == s[src];
  }

  /** Moving everything off a stack empties it and leaves its old top on top
      of the destination (not its old bottom, as a crane that lifts one crate
      at a time would). */
  lemma MoveWholeStack(s: seq<Stack>, ins: Instruction)
    requires |s| == NumStacks && LabelsValid(ins)
    requires ins.numToMove == |s[ins.fromStack - 1]| > 0
    ensures Move(s, ins).Ok?
    ensures var r := Move(s, ins).value;
      && r[ins.fromStack - 1] == []
      && r[ins.toStack - 1] == s[ins.toStack - 1] + s[ins.fromStack - 1]
      && r[ins.toStack - 1][|r[ins.toStack - 1]| - 1] == s[ins.fromStack - 1][|s[ins.fromStack - 1]| - 1]
  {
  }

  /** A move is undone by moving the same number of crates back. This holds
      only because the block keeps its order. */
  lemma MoveUndo(s: seq<Stack>, ins: Instruction)
    requires |s| == NumStacks && Move(s, ins).Ok?
    ensures Move(Move(s, ins).value, Instruction(ins.numToMove, ins.toStack, ins.fromStack)) == Ok(s)
  {
    var r, src, dst := Move(s, ins).value, ins.fromStack - 1, ins.toStack - 1;
    var back := Instruction(ins.numToMove, ins.toStack, ins.fromStack);
    MoveEffect(s, ins);
    var block := TopBlock(s[src], ins.numToMove);
    assert TopBlock(r[dst], ins.numToMove) == block;
    assert r[dst][..|r[dst]| - ins.numToMove] == s[dst];
    var u := Move(r, back).value;
    assert u[dst] == s[dst] && u[src] == s[src];
    assert u == s;
  }

  /** All crates, stack by stack, bottom to top. */
  function Flatten(s: seq<Stack>): seq<char> {
    if s == [] then [] else s[0] + Flatten(s[1..])
  }

  /** Replacing one stack changes the crates in the collection by exactly the
      difference between the old and the new stack. */
  lemma {:induction false} FlattenUpdate(s: seq<Stack>, i: nat, x: Stack)
    requires i < |s|
    ensures multiset(Flatten(s[i := x])) + multiset(s[i]) == multiset(Flatten(s)) + multiset(x)
  {
    if i == 0 {
      assert s[i := x][1..] == s[1..];
    } else {
      var t := s[i := x];
      FlattenUpdate(s[1..], i - 1, x);
      assert t[1..] == s[1..][i - 1 := x];
      assert Flatten(t) == s[0] + Flatten(t[1..]);
      assert s[1..][i - 1] == s[i];
      var a, b := multiset(Flatten(t[1..])), multiset(Flatten(s[1..]));
      assert a + multiset(s[i]) == b + multiset(x);
      forall c ensures (multiset(Flatten(t)) + multiset(s[i]))[c] == (multiset(Flatten(s)) + multiset(x))[c] {
        assert (a + multiset(s[i]))[c] == (b + multiset(x))[c];
      }
    }
  }

  /** A move neither creates nor destroys crates: the multiset of all crates,
      and so their number, is the same before and after. */
  lemma MoveConservesCrates(s: seq<Stack>, ins: Instruction)
    requires |s| == NumStacks && Move(s, ins).Ok?
    ensures multiset(Flatten(Move(s, ins).value)) == multiset(Flatten(s))
    ensures |Flatten(Move(s, ins).value)| == |Flatten(s)|
  {
    var src, dst := ins.fromStack - 1, ins.toStack - 1;
    var keep := |s[src]| - ins.numToMove;
    var rest, block := s[src][..keep], TopBlock(s[src], ins.numToMove);
    var s1 := s[src := rest];
    var r := Move(s, ins).value;
    assert r == s1[dst := s[dst] + block];
    FlattenUpdate(s, src, rest);
    FlattenUpdate(s1, dst, s[dst] + block);
    assert rest + block == s[src];
    var mr, m1, ms := multiset(Flatten(r)), multiset(Flatten(s1)), multiset(Flatten(s));
    var mp, mb, md := multiset(rest), multiset(block), multiset(s[dst]);
    forall c ensures mr[c] == ms[c] {
      assert (m1 + multiset(s[src]))[c] == (ms + mp)[c];
      assert (mr + md)[c] == (m1 + multiset(s[dst] + block))[c];
    }
    assert |mr| == |Flatten(r)| && |ms| == |Flatten(s)|;
  }

  /** `instructions.into_iter().try_fold(stacks, Stacks::apply)`: the moves in
      list order, each on the result of the one before, stopping at the first
      that fails. */
  function ApplyAll(s: seq<Stack>, ins: seq<Instruction>): (r: Result<seq<Stack>, CraneError>)
    requires |s| == NumStacks
    ensures r.Ok? ==> |r.value| == NumStacks
    decreases |ins|
  {
    if ins == [] then Ok(s)
    else
      var t :- Move(s, ins[0]);
      ApplyAll(t, ins[1..])
  }

  /** Folding over two lists in turn is folding over their concatenation; in
      particular, once a prefix fails nothing after it is looked at. */
  lemma {:induction false} ApplyAllAppend(s: seq<Stack>, a: seq<Instruction>, b: seq<Instruction>)
    requires |s| == NumStacks
    ensures ApplyAll(s, a + b) ==
      match ApplyAll(s, a)
      case Ok(t) => ApplyAll(t, b)
      case Err(e) => Err(e)
    decreases |a|
  {
    if a == [] {
      assert a + b == b;
    } else {
      assert (a + b)[0] == a[0];
      assert (a + b)[1..] == a[1..] + b;
      match Move(s, a[0])
      case Err(e) =>
      case Ok(t) => ApplyAllAppend(t, a[1..], b);
    }
  }

  /** A failed run failed at some instruction `k`: every instruction before it
      succeeded, and `k` itself failed with the reported error. */
  lemma {:induction false} ApplyAllStopsAtFirstFailure(s: seq<Stack>, ins: seq<Instruction>)
    requires |s| == NumStacks && ApplyAll(s, ins).Err?
    ensures exists k | 0 <= k < |ins| ::
      && ApplyAll(s, ins[..k]).Ok?
      && Move(ApplyAll(s, ins[..k]).value, ins[k]) == Err(ApplyAll(s, ins).error)
    decreases |ins|
  {
    assert ins[..0] == [];
    match Move(s, ins[0])
    case Err(e) =>
    case Ok(t) =>
      ApplyAllStopsAtFirstFailure(t, ins[1..]);
      var k :| 0 <= k < |ins[1..]|
        && ApplyAll(t, ins[1..][..k]).Ok?
        && Move(ApplyAll(t, ins[1..][..k]).value, ins[1..][k]) == Err(ApplyAll(t, ins[1..]).error);
      assert ins[..k + 1] == [ins[0]] + ins[1..][..k];
      assert ins[..k + 1][0] == ins[0] && ins[..k + 1][1..] == ins[1..][..k];
      assert ins[1..][k] == ins[k + 1];
  }

  /** A successful run neither creates nor destroys crates. */
  lemma {:induction false} ApplyAllConservesCrates(s: seq<Stack>, ins: seq<Instruction>)
    requires |s| == NumStacks && ApplyAll(s, ins).Ok?
    ensures multiset(Flatten(ApplyAll(s, ins).value)) == multiset(Flatten(s))
    ensures |Flatten(ApplyAll(s, ins).value)| == |Flatten(s)|
    decreases |ins|
  {
    if ins != [] {
      var t := Move(s, ins[0]).value;
      MoveConservesCrates(s, ins[0]);
      ApplyAllConservesCrates(t, ins[1..]);
    }
  }

  /** `tops_string`: the top crate of every stack in index order, or, when a
      stack is empty, an error naming the first empty one. */
  function Tops(s: seq<Stack>): (r: Result<string, CraneError>)
    ensures r.Ok? <==> forall i | 0 <= i < |s| :: s[i] != []
    ensures r.Ok? ==> |r.value| == |s| && forall i | 0 <= i < |s| :: r.value[i] == s[i][|s[i]| - 1]
    ensures r.Err? ==>
      exists i | 0 <= i < |s| :: s[i] == [] && r.error == EmptyStack(i) && forall j | 0 <= j < i :: s[j] != []
  {
    if s == [] then Ok([])
    else
      var init := s[..|s| - 1];
      var last := s[|s| - 1];
      assert forall i | 0 <= i < |init| :: init[i] == s[i];
      var prefix :- Tops(init);
      if last == [] then Err(EmptyStack(|s| - 1)) else Ok(prefix + [last[|last| - 1]])
  }
}
