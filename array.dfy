/**
 * A typed view of a secure memory block: an array of elements of a fixed
 * width, laid out back to back from the block's base address.
 *
 * The element type only matters through its size, so it becomes the
 * positive parameter `width`. An `Array` holds a `Memory` handle of its own,
 * so building or copying an array is copying a handle: the block's count
 * rises by one and nothing is allocated.
 */
module SecureArray {
  import opened Protection
  import opened SecureMemory

  /** The size in bytes of an element type; every type has a positive size. */
  type Width = w: nat | w > 0 witness 1

  /** How many whole elements of `width` bytes fit in `bytes` bytes: the division truncates. */
  function ElementCount(bytes: nat, width: Width): (n: nat)
    ensures n * width <= bytes < n * width + width
  {
    bytes / width
  }

  /** An element with an index below the element count lies wholly inside the block. */
  lemma ElementInside(bytes: nat, width: Width, i: nat)
    requires i < ElementCount(bytes, width)
    ensures i * width + width <= bytes
  {
    var n := ElementCount(bytes, width);
    assert (i + 1) * width <= n * width by {
      MultiplyMonotone(i + 1, n, width);
    }
  }

  lemma MultiplyMonotone(a: nat, b: nat, c: nat)
    requires a <= b
    ensures a * c <= b * c
  {
  }

  /** Elements with different indices do not overlap. */
  lemma ElementsDisjoint(width: Width, i: nat, j: nat)
    requires i < j
    ensures i * width + width <= j * width
  {
    MultiplyMonotone(i + 1, j, width);
  }

  class Array {
    /** The handle this array holds; assignment rebinds it, the object itself stays. */
    const memory: Memory
    const width: Width

    ghost predicate Valid()
      reads this, memory, memory.refcount, memory.memory
      reads if memory.refcount == null then {} else memory.refcount.owners
    {
      memory.Valid()
    }

    /** An array over the block of `m`: a new handle to it, so its count rises by one. */
    constructor (m: Memory, width: Width)
      requires m.Valid()
      modifies m.refcount
      ensures Valid() && m.Valid() && fresh(memory) && this.width == width
      ensures memory.refcount == m.refcount && memory.memory == m.memory && memory.size == m.size
      ensures memory.error == m.error
      ensures m.refcount.count == old(m.refcount.count) + 1
      ensures m.refcount.owners == old(m.refcount.owners) + {memory}
    {
      memory := new Memory.Copy(m);
      this.width := width;
    }

    /** A copy of array `o`: another handle to the same block and the same width. */
    constructor Copy(o: Array)
      requires o.Valid()
      modifies o.memory.refcount
      ensures Valid() && o.Valid() && fresh(memory) && width == o.width
      ensures memory.refcount == o.memory.refcount && memory.memory == o.memory.memory
      ensures memory.error == o.memory.error
      ensures Size() == o.Size()
      ensures memory.refcount.count == old(o.memory.refcount.count) + 1
      ensures memory.refcount.owners == old(o.memory.refcount.owners) + {memory}
    {
      memory := new Memory.Copy(o.memory);
      width := o.width;
    }

    /**
     * Assignment `this = a` for arrays of the same element type: the handle
     * this array holds is assigned `a`'s, so this array lets go of its block
     * and views `a`'s.
     */
    method Assign(a: Array, writeEnable: OsResult, noAccess: OsResult, unmap: OsResult) returns (r: Release)
      requires Valid() && a.Valid() && width == a.width
      modifies memory, memory.refcount, memory.memory
      modifies if memory.memory == null then {} else {memory.memory.bytes}, a.memory.refcount
      ensures memory == a.memory ==> r == Retained && unchanged(memory)
      ensures old(memory.refcount) == old(a.memory.refcount) ==> r == Retained
      ensures r.Retained? && old(memory.memory) != null ==> (
                unchanged(old(memory.memory)) && unchanged(old(memory.memory).bytes))
      ensures memory != a.memory && old(memory.refcount) != old(a.memory.refcount) ==> (
                old(memory.refcount).count == old(memory.refcount.count) - 1
                && (r.Retained? <==> old(memory.refcount.count) > 1))
      ensures r.WipeFault? <==> (memory != a.memory && old(memory.refcount.count) == 1
                                 && (old(memory.memory) == null
                                     || (writeEnable.Err? && !Allows(old(memory.memory.prot), WRITE))))
      ensures r.Unmapped? || r.UnmapFailed? ==> (
                old(memory.memory) != null
                && old(memory.memory).TornDown(old(memory.size), old(memory.memory.prot), old(memory.memory.log),
                                               writeEnable, noAccess, unmap))
      ensures r.UnmapFailed? <==> r != WipeFault && !r.Retained? && unmap.Err?
      ensures r.UnmapFailed? ==> r.code == unmap.code
      ensures r.Retained? || r.Unmapped? ==> (
                Valid() && a.Valid()
                && memory.refcount == old(a.memory.refcount) && memory.memory == old(a.memory.memory)
                && Size() == old(a.Size()) && memory.error == old(a.memory.error)
                && memory.refcount.owners == old(a.memory.refcount.owners) + {memory})
    {
      r := memory.Assign(a.memory, writeEnable, noAccess, unmap);
    }

    /** A new handle to the block this array views; its count rises by one. */
    method UnderlyingMemory() returns (m: Memory)
      requires Valid()
      modifies memory.refcount
      ensures fresh(m) && m.Valid() && Valid()
      ensures m.refcount == memory.refcount && m.memory == memory.memory && m.size == memory.size
      ensures m.error == memory.error
      ensures m.refcount.count == old(memory.refcount.count) + 1
      ensures m.refcount.owners == old(memory.refcount.owners) + {m}
    {
      m := new Memory.Copy(memory);
    }

    function Width(): Width
      reads this
    {
      width
    }

    /** The number of whole elements in the block. */
    function Size(): (n: nat)
      reads this, memory
      ensures n * width <= memory.Size() < n * width + width
    {
      ElementCount(memory.Size(), Width())
    }

    /** The address of element `i`: `i` elements of `width` bytes past the base. */
    function Get(i: nat): (p: Pointer)
      requires i < Size()
      reads this, memory
      ensures p.block == memory.Get().block
      ensures p.offset == memory.Get().offset + i * width
      ensures p.offset + width <= memory.Size()
    {
      ElementInside(memory.Size(), width, i);
      var base := memory.Get();
      Pointer(base.block, base.offset + i * width)
    }

    /** The bytes of element `i`, read through the address `Get(i)`. */
    function Element(i: nat): (e: seq<Byte>)
      requires i < Size() && memory.Mapped()
      reads this, memory, memory.memory, memory.memory.bytes
      ensures |e| == width
      ensures forall k :: 0 <= k < width ==> e[k] == Get(i).block.bytes[Get(i).offset + k]
    {
      var p := Get(i);
      p.block.bytes[p.offset .. p.offset + width]
    }

    /** Sets the protection of the whole block; the outcome is the handle's. */
    method Protect(protection: Prot, os: OsResult) returns (ok: bool)
      requires Valid()
      modifies memory`error, memory.memory
      ensures Valid()
      ensures ok <==> os.Ok?
      ensures memory.error == (if os.Ok? then 0 else os.code)
      ensures memory.HasError() <==> !ok
      ensures memory.memory != null ==> (
                memory.memory.prot == (if ok then protection else old(memory.memory.prot))
                && memory.memory.log == old(memory.memory.log) + [Protected(protection, ok)]
                && memory.memory.unmapped == old(memory.memory.unmapped)
                && memory.memory.owner == old(memory.memory.owner))
    {
      ok := memory.Protect(protection, os);
    }

    /** Zeroes the whole block, so every element is all zero bytes. */
    method Clear()
      requires Valid() && memory.Mapped() && Allows(memory.memory.prot, WRITE)
      modifies memory.memory, memory.memory.bytes
      ensures Valid() && memory.Mapped()
      ensures memory.memory.bytes[..] == Repeat(0, memory.size)
      ensures forall i :: 0 <= i < Size() ==> Element(i) == Repeat(0, width)
      ensures memory.memory.prot == old(memory.memory.prot) && memory.memory.owner == old(memory.memory.owner)
      ensures memory.memory.log == old(memory.memory.log) + [Filled(0)]
    {
      memory.Clear();
      forall i | 0 <= i < Size()
        ensures Element(i) == Repeat(0, width)
      {
        var e := Element(i);
        assert forall k :: 0 <= k < width ==> e[k] == 0;
      }
    }
  }
}
