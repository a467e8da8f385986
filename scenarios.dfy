/**
 * The usage the library's own test programs exercise, replayed on the model:
 * each method builds handles and arrays, uses them as the tests do, and
 * states in its postcondition the values the tests expect.
 */
module Scenarios {
  import opened Protection
  import opened SecureMemory
  import opened SecureArray

  /** A fresh read-write block of 1024 bytes: no error, the requested size, a non-null base. */
  method Reserve() returns (hasError: bool, size: nat, baseIsNull: bool)
    ensures !hasError && size == 1024 && !baseIsNull
  {
    var memory := new Memory(1024, RW, Ok);
    hasError := memory.HasError();
    size := memory.Size();
    baseIsNull := memory.Get().block == null;
  }

  /** Clearing and then filling a read-write block: every byte reads 0, then 1. */
  method ClearThenFill() returns (cleared: seq<Byte>, filled: seq<Byte>)
    ensures |cleared| == 1024 && forall i :: 0 <= i < |cleared| ==> cleared[i] == 0
    ensures |filled| == 1024 && forall i :: 0 <= i < |filled| ==> filled[i] == 1
  {
    var memory := new Memory(1024, RW, Ok);
    memory.Clear();
    cleared := memory.memory.bytes[..];
    memory.Fill(1);
    filled := memory.memory.bytes[..];
  }

  /**
   * The reference counts the tests read: one handle, a copy, and two calls
   * by value, each of which sees one more handle while it runs.
   */
  method CopiesAndCalls(map1: OsResult) returns (counts: seq<nat>)
    ensures counts == [1, 2, 2, 3, 3, 2, 2]
  {
    var memory := new Memory(1024, RW, map1);
    var c0 := memory.References();
    var memory1 := new Memory.Copy(memory);
    var c1, c2 := memory.References(), memory1.References();
    assert c1 == 2 && c2 == 2;
    var during := Memory.PassByValue(memory);
    var during1 := Memory.PassByValue(memory1);
    var c3, c4 := memory.References(), memory1.References();
    counts := [c0, c1, c2, during, during1, c3, c4];
  }

  /**
   * Assigning a copy over to a second block: the first block keeps one
   * handle, its bytes as they were, and the second block gains one handle.
   */
  method AssignOver(map1: OsResult, map2: OsResult) returns (counts: seq<nat>, kept: bool)
    ensures counts == [1, 1, 2, 2]
    ensures kept
  {
    var memory := new Memory(1024, RW, map1);
    var before := if memory.memory == null then [] else memory.memory.bytes[..];
    var memory1 := new Memory.Copy(memory);
    var memory2 := new Memory(1024, RW, map2);
    var c0 := memory2.References();
    // memory1's old block still has `memory`, so the teardown answers are never asked for.
    var _ := memory1.Assign(memory2, Ok, Ok, Ok);
    counts := [c0, memory.References(), memory1.References(), memory2.References()];
    kept := before == if memory.memory == null then [] else memory.memory.bytes[..];
  }

  /**
   * Assigning the only handle of a block over a handle of another block: the
   * old block is torn down on the way, so its bytes read zero, it is
   * inaccessible and unmapped, and the handle then shares the other block.
   */
  method AssignOverLast() returns (wiped: seq<Byte>, prot: Prot, unmapped: bool, counts: seq<nat>)
    ensures wiped == Repeat(0, 1024) && prot == NONE && unmapped
    ensures counts == [2, 2]
  {
    var memory1 := new Memory(1024, RW, Ok);
    var old1 := memory1.memory;
    var memory2 := new Memory(512, RW, Ok);
    var r := memory1.Assign(memory2, Ok, Ok, Ok);
    assert r == Unmapped;
    wiped, prot, unmapped := old1.bytes[..], old1.prot, old1.unmapped;
    counts := [memory1.References(), memory2.References()];
  }

  /**
   * `Array(Memory(size, RW))`: an array over a temporary handle, which is
   * destroyed once the array holds its own; the array is then the block's
   * only owner.
   */
  method ArrayOverTemporary(size: nat, width: Width, os: OsResult) returns (a: Array)
    requires size > 0
    ensures fresh(a) && fresh(a.memory) && fresh(a.memory.refcount) && a.Valid()
    ensures a.width == width && a.memory.refcount.owners == {a.memory} && a.Size() == size / width
    ensures a.memory.memory != null ==> fresh(a.memory.memory) && fresh(a.memory.memory.bytes)
  {
    var temporary := new Memory(size, RW, os);
    a := new Array(temporary, width);
    var _ := temporary.Unref(Ok, Ok, Ok);
  }

  /**
   * Arrays as the tests use them: an array over a 1024-byte block, a copy
   * of it, and the copy reassigned to an array over a 1000-byte block.
   * Returns the sizes read after each step.
   */
  method ArraySizes(width: Width, map1: OsResult, map2: OsResult) returns (sizes: seq<nat>)
    ensures sizes == [1024 / width, 1024 / width, 1000 / width]
  {
    var a := ArrayOverTemporary(1024, width, map1);
    var b := new Array.Copy(a);
    var s0, s1 := a.Size(), b.Size();
    var c := ArrayOverTemporary(1000, width, map2);
    assert b.memory.refcount.count == 2 && b.memory.refcount != c.memory.refcount;
    var r := b.Assign(c, Ok, Ok, Ok);
    assert r == Retained;
    sizes := [s0, s1, b.Size()];
  }
}
