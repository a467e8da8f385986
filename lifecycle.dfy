/**
 * The reference-counting protocol of a secure memory block, on values.
 *
 * Every handle of one block shares one counter. Copying a handle (the copy
 * constructor, passing by value, the right-hand side of an assignment) runs
 * `Ref`; destroying a handle (the destructor, the left-hand side of an
 * assignment) runs `Unref`. The handle that takes the counter from 1 to 0
 * tears the block down. This module abstracts a block to its counter and the
 * number of teardowns it has seen, and proves that teardown happens exactly
 * once, at the end, however copies and destructions are interleaved.
 */
module Lifecycle {

  datatype Option<T> = None | Some(value: T)

  /** What a handle does to the shared counter. */
  datatype Op = Copy | Destroy

  /** A block seen through its shared counter. */
  datatype Block = Block(count: nat, teardowns: nat)

  /** The state right after construction: one owner, never torn down. */
  const Fresh := Block(1, 0)

  /**
   * One step. `None` stands for an operation on a block whose counter is
   * already gone (a use after free): no live handle can perform it.
   */
  function Apply(b: Block, op: Op): Option<Block>
  {
    if b.count == 0 then None
    else match op
      case Copy => Some(Block(b.count + 1, b.teardowns))
      case Destroy => Some(Block(b.count - 1, if b.count == 1 then b.teardowns + 1 else b.teardowns))
  }

  /** A sequence of steps, stopping at the first use after free. */
  function Run(b: Block, ops: seq<Op>): Option<Block>
    decreases |ops|
  {
    if ops == [] then Some(b)
    else match Apply(b, ops[0])
      case None => None
      case Some(next) => Run(next, ops[1..])
  }

  /** How many of `ops` are `op`. */
  function Occurrences(ops: seq<Op>, op: Op): nat
    decreases |ops|
  {
    if ops == [] then 0
    else (if ops[0] == op then 1 else 0) + Occurrences(ops[1..], op)
  }

  /** The count before step `i` of `ops`, read off the steps before it. */
  function CountBefore(b: Block, ops: seq<Op>, i: nat): int
    requires i <= |ops|
  {
    b.count + Occurrences(ops[..i], Copy) - Occurrences(ops[..i], Destroy)
  }

  lemma OccurrencesOfCons(x: Op, rest: seq<Op>, op: Op)
    ensures Occurrences([x] + rest, op) == (if x == op then 1 else 0) + Occurrences(rest, op)
  {
    assert ([x] + rest)[1..] == rest;
  }

  /**
   * The counter always equals its initial value plus the copies minus the
   * destructions, and the block is torn down once exactly when that count
   * has reached zero.
   */
  lemma {:induction false} RunCounts(b: Block, ops: seq<Op>)
    requires b.count >= 1
    requires Run(b, ops).Some?
    ensures Run(b, ops).value.count == b.count + Occurrences(ops, Copy) - Occurrences(ops, Destroy)
    ensures Run(b, ops).value.teardowns == b.teardowns + (if Run(b, ops).value.count == 0 then 1 else 0)
    decreases |ops|
  {
    if ops != [] {
      var next := Apply(b, ops[0]).value;
      if next.count >= 1 {
        RunCounts(next, ops[1..]);
      }
    }
  }

  /**
   * A sequence of operations is possible (no handle touches a freed counter)
   * exactly when the count before each step is still at least one: the
   * destructions so far never catch up with the initial owners plus the
   * copies so far.
   */
  lemma {:induction false} RunDefined(b: Block, ops: seq<Op>)
    ensures Run(b, ops).Some? <==> forall i :: 0 <= i < |ops| ==> CountBefore(b, ops, i) >= 1
    decreases |ops|
  {
    if ops == [] {
    } else if b.count == 0 {
      assert CountBefore(b, ops, 0) == 0 by { assert ops[..0] == []; }
    } else {
      var next := Apply(b, ops[0]).value;
      var rest := ops[1..];
      RunDefined(next, rest);
      assert CountBefore(b, ops, 0) == b.count by { assert ops[..0] == []; }
      forall j | 0 <= j < |rest|
        ensures CountBefore(b, ops, j + 1) == CountBefore(next, rest, j)
      {
        assert ops[..j + 1] == [ops[0]] + rest[..j];
        OccurrencesOfCons(ops[0], rest[..j], Copy);
        OccurrencesOfCons(ops[0], rest[..j], Destroy);
      }
      if forall i :: 0 <= i < |ops| ==> CountBefore(b, ops, i) >= 1 {
        forall j | 0 <= j < |rest| ensures CountBefore(next, rest, j) >= 1 {
          assert CountBefore(b, ops, j + 1) >= 1;
        }
      }
      if Run(b, ops).Some? {
        forall i | 0 <= i < |ops| ensures CountBefore(b, ops, i) >= 1 {
          if i > 0 {
            assert CountBefore(next, rest, i - 1) >= 1;
          }
        }
      }
    }
  }

  /** A freshly constructed block is torn down at most once, and exactly when its last handle is gone. */
  lemma ExactlyOnce(ops: seq<Op>)
    requires Run(Fresh, ops).Some?
    ensures Run(Fresh, ops).value.teardowns <= 1
    ensures Run(Fresh, ops).value.teardowns == 1 <==> Run(Fresh, ops).value.count == 0
  {
    RunCounts(Fresh, ops);
  }

  /** Running `xs` then `ys` is running `xs + ys`. */
  lemma {:induction false} RunAppend(b: Block, xs: seq<Op>, ys: seq<Op>)
    ensures Run(b, xs + ys) == (match Run(b, xs) case None => None case Some(mid) => Run(mid, ys))
    decreases |xs|
  {
    if xs == [] {
      assert xs + ys == ys;
    } else {
      assert (xs + ys)[0] == xs[0];
      assert (xs + ys)[1..] == xs[1..] + ys;
      match Apply(b, xs[0]) {
        case None =>
        case Some(next) => RunAppend(next, xs[1..], ys);
      }
    }
  }

  /** Copies in a row: `k` copies of a fresh block leave `k + 1` owners. */
  function Copies(k: nat): (ops: seq<Op>)
    ensures |ops| == k && forall i :: 0 <= i < k ==> ops[i] == Copy
  {
    seq(k, _ => Copy)
  }

  /** After making `k` copies of an original, the shared count equals the number of live handles, `k + 1`. */
  lemma {:induction false} CopiesCount(b: Block, k: nat)
    requires b.count >= 1
    ensures Run(b, Copies(k)) == Some(Block(b.count + k, b.teardowns))
    decreases k
  {
    if k > 0 {
      assert Copies(k) == Copies(k - 1) + [Copy];
      RunAppend(b, Copies(k - 1), [Copy]);
      CopiesCount(b, k - 1);
    }
  }

  /**
   * Operations that leave a block alive behave the same with one more owner
   * around: every count is one higher and no teardown happens.
   */
  lemma {:induction false} ExtraOwner(b: Block, ops: seq<Op>)
    requires b.count >= 1
    requires Run(b, ops).Some? && Run(b, ops).value.count >= 1
    ensures Run(Block(b.count + 1, b.teardowns), ops)
         == Some(Block(Run(b, ops).value.count + 1, Run(b, ops).value.teardowns))
    ensures Run(b, ops).value.teardowns == b.teardowns
    decreases |ops|
  {
    if ops != [] {
      var next := Apply(b, ops[0]).value;
      if next.count == 0 {
        assert false;
      } else {
        ExtraOwner(next, ops[1..]);
      }
    }
  }

  /**
   * `h = h` as written: `Unref` on the handle, then `Ref` through the counter
   * pointer it then holds. If `h` was the last owner, `Unref` has deleted the
   * counter and nulled the pointer, and the copy `refcount = m.refcount` from
   * the aliased right-hand side keeps the null, so `Ref` has no counter to
   * act on: `None`.
   */
  function SelfAssignAsWritten(b: Block): Option<Block>
  {
    Run(b, [Destroy, Copy])
  }

  /** The last owner assigning itself to itself tears the block down, and then `Ref` finds no counter. */
  lemma SelfAssignAsWrittenLastOwner()
    ensures Run(Fresh, [Destroy]) == Some(Block(0, 1))
    ensures SelfAssignAsWritten(Fresh) == None
  {
  }

  /** `h = h` with a self-assignment guard: nothing happens to the block. */
  function SelfAssign(b: Block): Option<Block>
  {
    if b.count == 0 then None else Some(b)
  }

  /**
   * The code as written survives self-assignment exactly when some other
   * handle still owns the block, and then it agrees with the guarded version.
   */
  lemma SelfAssignGuarded(b: Block)
    requires b.count >= 1
    ensures SelfAssignAsWritten(b).Some? <==> b.count >= 2
    ensures b.count >= 2 ==> SelfAssignAsWritten(b) == SelfAssign(b)
  {
  }
}
