/** The `Stacks` struct of src/main.rs: a fixed array of `NUM_STACKS` stacks
    whose entries `apply` changes in place. Each method is proved against a
    value-level function of StackModel: `Apply` against `Move`,
    `ApplyInstructions` against `ApplyAll` and `TopsString` against `Tops`. */
module Crane {
  import opened Results
  import opened Instructions
  import opened StackModel

  class Stacks {
    /** `stacks: [Vec<char>; NUM_STACKS]`. */
    const stacks: array<Stack>

    ghost predicate Valid() {
      stacks.Length == NumStacks
    }

    /** The current arrangement, stack by stack. */
    function Contents(): (s: seq<Stack>)
      reads stacks
      ensures |s| == stacks.Length
    {
      stacks[..]
    }

    /** Stacks from a parsed configuration (`Stacks::default()` is `EmptyStacks()`). */
    constructor (initial: seq<Stack>)
      requires |initial| == NumStacks
      ensures Valid() && Contents() == initial && fresh(stacks)
    {
      stacks := new Stack[NumStacks](i requires 0 <= i < NumStacks => initial[i]);
    }

    /** `Stacks::apply`: both stacks are fetched through `get_two_mut`, the
        count is checked before anything changes, then the top block is
        drained off the source and extended onto the destination. On failure
        nothing has changed. */
    method Apply(ins: Instruction) returns (r: Outcome<CraneError>)
      requires Valid()
      modifies stacks
      ensures r.Pass? <==> Move(old(Contents()), ins).Ok?
      ensures r.Pass? ==> Contents() == Move(old(Contents()), ins).value
      ensures r.Fail? ==> r.error == Move(old(Contents()), ins).error && Contents() == old(Contents())
    {
      if !(1 <= ins.fromStack <= NumStacks) {
        return Fail(BadStackLabel(ins.fromStack));
      }
      if !(1 <= ins.toStack <= NumStacks) {
        return Fail(BadStackLabel(ins.toStack));
      }
      if ins.fromStack == ins.toStack {
        return Fail(SameStack(ins.fromStack));
      }
      var from, to := ins.fromStack - 1, ins.toStack - 1;
      var (source, destination) := GetTwo(stacks[..], from, to);
      if ins.numToMove > |source| {
        return Fail(NotEnoughItems(ins.numToMove, |source|));
      }
      var keep := |source| - ins.numToMove;
      var crates := source[keep..];
      stacks[from] := source[..keep];
      stacks[to] := destination + crates;
      return Pass;
    }

    /** `apply_instructions`: the instructions in order, stopping at the first
        that fails. The source consumes the stacks, so after a failure the
        arrangement is dropped; the model promises nothing about it. */
    method ApplyInstructions(ins: seq<Instruction>) returns (r: Outcome<CraneError>)
      requires Valid()
      modifies stacks
      ensures r.Pass? <==> ApplyAll(old(Contents()), ins).Ok?
      ensures r.Pass? ==> Contents() == ApplyAll(old(Contents()), ins).value
      ensures r.Fail? ==> r.error == ApplyAll(old(Contents()), ins).error
    {
      var i := 0;
      while i < |ins|
        invariant 0 <= i <= |ins|
        invariant ApplyAll(old(Contents()), ins) == ApplyAll(Contents(), ins[i..])
      {
        var step := Apply(ins[i]);
        assert ins[i..][0] == ins[i] && ins[i..][1..] == ins[i + 1..];
        if step.Fail? {
          return Fail(step.error);
        }
        i := i + 1;
      }
      return Pass;
    }

    /** `tops_string`: the top crate of each stack in index order, failing on
        the first empty stack. */
    method TopsString() returns (r: Result<string, CraneError>)
      requires Valid()
      ensures r == Tops(Contents())
    {
      var tops := "";
      for i := 0 to stacks.Length
        invariant |tops| == i
        invariant forall j | 0 <= j < i :: stacks[j] != [] && tops[j] == stacks[j][|stacks[j]| - 1]
      {
        var stack := stacks[i];
        if stack == [] {
          r := Err(EmptyStack(i));
          var s := Contents();
          assert s[i] == [];
          var k :| 0 <= k < |s| && s[k] == [] && Tops(s).error == EmptyStack(k)
            && forall j | 0 <= j < k :: s[j] != [];
          assert k == i;
          return;
        }
        tops := tops + [stack[|stack| - 1]];
      }
      r := Ok(tops);
      assert Tops(Contents()).value == tops;
    }
  }
}
