/**
 * A reference-counted handle to a locked, anonymous memory mapping that is
 * wiped and made inaccessible before it is unmapped.
 *
 * The host's mmap, mprotect and munmap are not called: each call's outcome is
 * a parameter (`OsResult`). A mapping is a `Mapping` object holding its bytes,
 * its current protection and whether it has been unmapped; the shared atomic
 * counter is a `Counter` object; a handle is a `Memory` object whose four
 * fields are those of the C++ class.
 */
module SecureMemory {
  import opened Protection
  import Lifecycle

  type Byte = bv8

  /** A platform error code as errno reports it. */
  type Errno = e: int | e > 0 witness 1

  /** What the host reports for one mmap, mprotect or munmap call. */
  datatype OsResult = Ok | Err(code: Errno)

  /** An address: a mapping (null for the null pointer) and a byte offset into it. */
  datatype Pointer = Pointer(block: Mapping?, offset: nat)

  /** What happens to a mapping, in order. */
  datatype Event =
    | Protected(prot: Prot, ok: bool)   // mprotect, and whether the host accepted it
    | Filled(value: Byte)               // every byte overwritten with `value`
    | CounterDeleted                    // the shared counter is deleted
    | Unmap(ok: bool)                   // munmap, and whether the host accepted it

  /** How destroying (or assigning over) a handle ends. */
  datatype Release =
    | Retained              // other handles still own the block; nothing was torn down
    | Unmapped              // the last handle: wiped, made inaccessible, counter deleted, unmapped
    | WipeFault             // the last handle, but the wipe writes to memory it may not write
    | UnmapFailed(code: Errno)  // munmap failed: the destructor throws `code`

  /** `n` copies of `v`. */
  function Repeat(v: Byte, n: nat): (s: seq<Byte>)
    ensures |s| == n && forall i :: 0 <= i < n ==> s[i] == v
  {
    seq(n, _ => v)
  }

  /**
   * Overwrites the first `n` bytes at `memory` with `v`, one byte at a time,
   * and returns the address it was given. The volatile stores that keep the
   * compiler from eliding the writes have no counterpart here; only the bytes
   * they leave are modelled.
   */
  method SecureMemset(memory: array<Byte>, v: Byte, n: nat) returns (r: array<Byte>)
    requires n <= memory.Length
    modifies memory
    ensures r == memory
    ensures memory[..n] == Repeat(v, n)
    ensures memory[n..] == old(memory[n..])
  {
    var p := 0;
    var left := n;
    while left > 0
      invariant p + left == n
      invariant forall i :: 0 <= i < p ==> memory[i] == v
      invariant forall i :: n <= i < memory.Length ==> memory[i] == old(memory[i])
    {
      memory[p] := v;
      p := p + 1;
      left := left - 1;
    }
    r := memory;
  }

  /** One anonymous private mapping. */
  class Mapping {
    const bytes: array<Byte>
    var prot: Prot
    var unmapped: bool
    /** The protection changes, fills and teardown steps applied to this mapping. */
    ghost var log: seq<Event>
    /** The counter shared by the handles of this mapping. */
    ghost var owner: Counter?

    /** A fresh anonymous mapping: the host hands it out zero-filled. */
    constructor (size: nat, prot: Prot)
      ensures fresh(bytes) && bytes[..] == Repeat(0, size)
      ensures this.prot == prot && !unmapped && log == [] && owner == null
    {
      bytes := new Byte[size](_ => 0);
      this.prot := prot;
      unmapped := false;
      log := [];
      owner := null;
    }

    /**
     * This mapping has been through the teardown, having had protection
     * `prot0` and log `log0` before it, with the host answering `writeEnable`,
     * `noAccess` and `unmap`. All `size` bytes are zero. The protection is
     * whatever the last accepted mprotect set. The log grows by exactly the
     * five steps, in order. The mapping is gone if munmap succeeded.
     */
    ghost predicate TornDown(size: nat, prot0: Prot, log0: seq<Event>,
                             writeEnable: OsResult, noAccess: OsResult, unmap: OsResult)
      reads this, bytes
    {
      bytes[..] == Repeat(0, size)
      && prot == (if noAccess.Ok? then NONE else if writeEnable.Ok? then WRITE else prot0)
      && log == log0 + [Protected(WRITE, writeEnable.Ok?), Filled(0), Protected(NONE, noAccess.Ok?), CounterDeleted, Unmap(unmap.Ok?)]
      && unmapped == unmap.Ok?
    }
  }

  /** The shared reference counter of one block. */
  class Counter {
    var count: nat
    /** The live handles of the block. */
    ghost var owners: set<Memory>
    /** The mapping and byte size every owner holds. */
    ghost var block: Mapping?
    ghost var size: nat

    constructor (count: nat)
      ensures this.count == count && owners == {} && block == null && size == 0
    {
      this.count := count;
      owners := {};
      block := null;
      size := 0;
    }

    /** The count is the number of live handles, and they all hold this counter and the same block. */
    ghost predicate Consistent()
      reads this, owners
    {
      count == |owners| &&
      forall h :: h in owners ==> h.refcount == this && h.memory == block && h.size == size
    }
  }

  /**
   * The two member initialisers of `Memory`'s constructor that write the
   * error field: `error(0)`, and `memory(Map(size, protection, error))`, which
   * stores errno in it when mmap fails.
   */
  datatype Initialiser = ZeroError | MapBlock

  /** The error field after running `inits` on a field holding `error`, mmap reporting `os`. */
  function ErrorAfter(inits: seq<Initialiser>, os: OsResult, error: int): int
    decreases |inits|
  {
    if inits == [] then error
    else
      var next := match inits[0]
        case ZeroError => 0
        case MapBlock => if os.Err? then os.code else error;
      ErrorAfter(inits[1..], os, next)
  }

  /**
   * C++ runs member initialisers in the order the members are declared
   * (refcount, size, memory, error), whatever the order of the list.
   */
  const DeclarationOrder: seq<Initialiser> := [MapBlock, ZeroError]

  /** The order the initialiser list is written in, and evidently meant. */
  const WrittenOrder: seq<Initialiser> := [ZeroError, MapBlock]

  /**
   * In declaration order the mmap error is overwritten by `error(0)`: a
   * handle whose mapping failed reports no error.
   */
  lemma DeclarationOrderLosesMapError(os: OsResult, error: int)
    ensures ErrorAfter(DeclarationOrder, os, error) == 0
  {
  }

  /** In the written order the error field reports the mmap failure, and only it. */
  lemma WrittenOrderKeepsMapError(os: OsResult, error: int)
    ensures ErrorAfter(WrittenOrder, os, error) == (if os.Err? then os.code else 0)
    ensures ErrorAfter(WrittenOrder, os, error) != 0 <==> os.Err?
  {
  }

  /** A handle to a block of secure memory. Copies share the block through its counter. */
  class Memory {
    var refcount: Counter?
    var size: nat
    var memory: Mapping?
    var error: int

    /**
     * A live handle: it is one of its counter's owners, the counter agrees
     * with all of them, and its mapping, if the mapping succeeded, is still
     * mapped, is `size` bytes long and belongs to this counter.
     */
    ghost predicate Valid()
      reads this, refcount, memory, if refcount == null then {} else refcount.owners
    {
      refcount != null && this in refcount.owners && refcount.Consistent() &&
      size > 0 &&
      (memory != null ==> !memory.unmapped && memory.bytes.Length == size && memory.owner == refcount)
    }

    /** The mapping exists and may be accessed through this handle. */
    predicate Mapped()
      reads this, memory
    {
      memory != null && !memory.unmapped && memory.bytes.Length == size
    }

    /**
     * Requests an anonymous, private, locked mapping of `size` bytes. On
     * failure the result is null and `error` receives the host's code.
     */
    static method Map(size: nat, protection: Prot, os: OsResult, error: int) returns (memory: Mapping?, error': int)
      ensures os.Ok? ==> (memory != null && fresh(memory) && fresh(memory.bytes)
                          && memory.bytes[..] == Repeat(0, size) && memory.prot == protection
                          && !memory.unmapped && memory.log == [] && error' == error)
      ensures os.Err? ==> memory == null && error' == os.code
    {
      if os.Err? {
        return null, os.code;
      }
      memory := new Mapping(size, protection);
      error' := error;
    }

    /**
     * Allocates a block of `s` bytes with the given protection: the counter
     * starts at one and the host's mmap reports `os`. The initialisers run in
     * the order they are written, so a failed mapping leaves its error code.
     */
    constructor (s: nat, protection: Prot, os: OsResult)
      requires s > 0
      ensures Valid() && fresh(refcount) && refcount.owners == {this} && refcount.count == 1
      ensures size == s
      ensures error == ErrorAfter(WrittenOrder, os, 0)
      ensures memory != null <==> os.Ok?
      ensures os.Ok? ==> (fresh(memory) && fresh(memory.bytes) && memory.prot == protection
                          && memory.bytes[..] == Repeat(0, s) && memory.log == [] && !HasError())
      ensures os.Err? ==> HasError() && Error() == os.code
    {
      var zero := 0;
      error := zero;
      refcount := new Counter(1);
      size := s;
      var m, e := Map(s, protection, os, zero);
      memory := m;
      error := e;
      new;
      WrittenOrderKeepsMapError(os, 0);
      refcount.owners := {this};
      refcount.block := memory;
      refcount.size := size;
      if memory != null {
        memory.owner := refcount;
      }
    }

    /** Adds this handle to the owners of the counter it holds. */
    method Ref()
      requires refcount != null && this !in refcount.owners
      modifies refcount
      ensures refcount.count == old(refcount.count) + 1
      ensures refcount.owners == old(refcount.owners) + {this}
      ensures refcount.block == old(refcount.block) && refcount.size == old(refcount.size)
      ensures Lifecycle.Apply(Lifecycle.Block(old(refcount.count), 0), Lifecycle.Copy)
           == if old(refcount.count) == 0 then Lifecycle.None
              else Lifecycle.Some(Lifecycle.Block(refcount.count, 0))
    {
      refcount.count := refcount.count + 1;
      refcount.owners := refcount.owners + {this};
    }

    /** Copy construction: a second handle to the same block; the shared count rises by one. */
    constructor Copy(o: Memory)
      requires o.Valid()
      modifies o.refcount
      ensures Valid() && o.Valid()
      ensures refcount == o.refcount && memory == o.memory && size == o.size && error == o.error
      ensures refcount.count == old(o.refcount.count) + 1
      ensures refcount.owners == old(o.refcount.owners) + {this}
      ensures refcount.block == old(o.refcount.block) && refcount.size == old(o.refcount.size)
    {
      error := o.error;
      refcount := o.refcount;
      size := o.size;
      memory := o.memory;
      new;
      Ref();
    }

    /**
     * Destroys this handle (the destructor's body). The count drops by one;
     * the handle that takes it from one to zero is the only handle of the
     * block, and tears it down: write-enable, zero-fill, no-access, delete
     * the counter, unmap. `writeEnable`, `noAccess` and `unmap` are the
     * host's answers to those three calls.
     */
    method Unref(writeEnable: OsResult, noAccess: OsResult, unmap: OsResult) returns (r: Release)
      requires Valid()
      modifies this, refcount, memory, if memory == null then {} else {memory.bytes}
      ensures old(refcount).count == old(refcount.count) - 1
      ensures old(refcount).owners == old(refcount.owners) - {this}
      ensures old(refcount).block == old(refcount.block) && old(refcount).size == old(refcount.size)
      ensures old(refcount).Consistent()
      ensures Lifecycle.Apply(Lifecycle.Block(old(refcount.count), 0), Lifecycle.Destroy)
           == Lifecycle.Some(Lifecycle.Block(old(refcount).count, if r.Retained? then 0 else 1))
      ensures r.Retained? <==> old(refcount.count) > 1
      ensures r.Retained? ==> (refcount == old(refcount) && error == old(error)
                               && (old(memory) != null ==> unchanged(old(memory)) && unchanged(old(memory).bytes)))
      ensures !r.Retained? ==> old(refcount.owners) == {this}
      ensures memory == old(memory) && size == old(size)
      ensures r.WipeFault? <==> (old(refcount.count) == 1
                                 && (memory == null || (writeEnable.Err? && !Allows(old(memory.prot), WRITE))))
      ensures r.Unmapped? || r.UnmapFailed? ==> (
                refcount == null && memory != null
                && memory.TornDown(size, old(memory.prot), old(memory.log), writeEnable, noAccess, unmap)
                && error == (if noAccess.Ok? then 0 else noAccess.code))
      ensures r.UnmapFailed? <==> r != WipeFault && !r.Retained? && unmap.Err?
      ensures r.UnmapFailed? ==> r.code == unmap.code
    {
      var counter := refcount;
      counter.count := counter.count - 1;
      counter.owners := counter.owners - {this};
      if counter.count != 0 {
        return Retained;
      }
      SoleOwner(old(counter.owners), this);
      r := Teardown(writeEnable, noAccess, unmap);
    }

    /**
     * What the last handle does once the count has reached zero: make the
     * block writable, zero it, make it inaccessible, drop the counter and
     * unmap the block.
     */
    method Teardown(writeEnable: OsResult, noAccess: OsResult, unmap: OsResult) returns (r: Release)
      requires refcount != null && refcount.count == 0 && refcount.owners == {}
      requires memory != null ==> !memory.unmapped && memory.bytes.Length == size
      modifies this, memory, if memory == null then {} else {memory.bytes}
      ensures memory == old(memory) && size == old(size) && r != Retained
      ensures r.WipeFault? <==> (memory == null || (writeEnable.Err? && !Allows(old(memory.prot), WRITE)))
      ensures r.Unmapped? || r.UnmapFailed? ==> (
                refcount == null && memory != null
                && memory.TornDown(size, old(memory.prot), old(memory.log), writeEnable, noAccess, unmap)
                && error == (if noAccess.Ok? then 0 else noAccess.code))
      ensures r.UnmapFailed? <==> r != WipeFault && unmap.Err?
      ensures r.UnmapFailed? ==> r.code == unmap.code
    {
      var _ := Protect(WRITE, writeEnable);
      if !(Mapped() && Allows(memory.prot, WRITE)) {
        return WipeFault;
      }
      Clear();
      var _ := Protect(NONE, noAccess);
      refcount := null;
      memory.log := memory.log + [CounterDeleted];
      memory.log := memory.log + [Unmap(unmap.Ok?)];
      if unmap.Err? {
        return UnmapFailed(unmap.code);
      }
      memory.unmapped := true;
      r := Unmapped;
    }

    /**
     * Requests a new protection for the whole block. The error field is
     * reset and then reports the host's failure, if any; on failure the
     * block keeps the protection it had.
     */
    method Protect(protection: Prot, os: OsResult) returns (ok: bool)
      modifies this`error, memory
      ensures ok <==> os.Ok?
      ensures error == (if os.Ok? then 0 else os.code)
      ensures HasError() <==> !ok
      ensures memory != null ==> (
                memory.prot == (if ok then protection else old(memory.prot))
                && memory.log == old(memory.log) + [Protected(protection, ok)]
                && memory.unmapped == old(memory.unmapped) && memory.owner == old(memory.owner))
    {
      error := 0;
      if os.Err? {
        error := os.code;
        ok := false;
      } else {
        ok := true;
      }
      if memory != null {
        if ok {
          memory.prot := protection;
        }
        memory.log := memory.log + [Protected(protection, ok)];
      }
    }

    /** Overwrites every byte of the block with `value`; the block must be writable. */
    method Fill(value: Byte)
      requires Mapped() && Allows(memory.prot, WRITE)
      modifies memory, memory.bytes
      ensures memory.bytes[..] == Repeat(value, size)
      ensures memory.prot == old(memory.prot) && memory.unmapped == old(memory.unmapped)
      ensures memory.owner == old(memory.owner)
      ensures memory.log == old(memory.log) + [Filled(value)]
    {
      var _ := SecureMemset(memory.bytes, value, size);
      memory.log := memory.log + [Filled(value)];
    }

    /** Overwrites every byte of the block with zero. */
    method Clear()
      requires Mapped() && Allows(memory.prot, WRITE)
      modifies memory, memory.bytes
      ensures memory.bytes[..] == Repeat(0, size)
      ensures memory.prot == old(memory.prot) && memory.unmapped == old(memory.unmapped)
      ensures memory.owner == old(memory.owner)
      ensures memory.log == old(memory.log) + [Filled(0)]
    {
      Fill(0);
    }

    function Error(): int
      reads this
    {
      error
    }

    predicate HasError()
      reads this
    {
      Error() != 0
    }

    function Size(): nat
      reads this
    {
      size
    }

    /** The shared count, read through this handle: the number of live handles of the block. */
    function References(): (n: nat)
      requires Valid()
      reads this, refcount, memory, if refcount == null then {} else refcount.owners
      ensures n == |refcount.owners| && n >= 1
    {
      refcount.count
    }

    /** The base address of the block (null if the mapping failed). */
    function Get(): Pointer
      reads this
    {
      Pointer(memory, 0)
    }

    /** The address `byteOffset` bytes past the base; the offset must lie inside the block. */
    function GetAt(byteOffset: nat): (p: Pointer)
      requires byteOffset < Size()
      reads this
      ensures p.block == Get().block && p.offset == Get().offset + byteOffset
      ensures p.offset < Size()
    {
      Pointer(memory, byteOffset)
    }

    /**
     * Assignment `this = m`: this handle lets go of its block (tearing it
     * down if it was the last handle), then takes `m`'s counter, address,
     * size and error, and the shared count of `m`'s block rises by one.
     * Assigning a handle to itself does nothing. If the teardown of the old
     * block faults or throws, the assignment stops there.
     */
    method Assign(m: Memory, writeEnable: OsResult, noAccess: OsResult, unmap: OsResult) returns (r: Release)
      requires Valid() && m.Valid()
      modifies this, refcount, memory, if memory == null then {} else {memory.bytes}, m.refcount
      ensures this == m ==> r == Retained && unchanged(this) && unchanged(refcount)
      ensures old(refcount) == old(m.refcount) ==> r == Retained
      ensures r.Retained? && old(memory) != null ==> unchanged(old(memory)) && unchanged(old(memory).bytes)
      ensures old(refcount) != old(m.refcount) && r.Retained? ==> old(refcount).Consistent()
      ensures this != m && old(refcount) != old(m.refcount) ==> (
                old(refcount).count == old(refcount.count) - 1
                && old(refcount).owners == old(refcount.owners) - {this}
                && (r.Retained? <==> old(refcount.count) > 1)
                && (!r.Retained? ==> old(refcount.owners) == {this}))
      ensures r.WipeFault? <==> (this != m && old(refcount.count) == 1
                                 && (old(memory) == null || (writeEnable.Err? && !Allows(old(memory.prot), WRITE))))
      ensures r.Unmapped? || r.UnmapFailed? ==> (
                old(memory) != null
                && old(memory).TornDown(old(size), old(memory.prot), old(memory.log), writeEnable, noAccess, unmap))
      ensures r.UnmapFailed? <==> r != WipeFault && !r.Retained? && unmap.Err?
      ensures r.UnmapFailed? ==> r.code == unmap.code
      ensures r.Retained? || r.Unmapped? ==> (
                Valid() && m.Valid()
                && refcount == old(m.refcount) && memory == old(m.memory)
                && size == old(m.size) && error == old(m.error)
                && refcount.owners == old(m.refcount.owners) + {this}
                && refcount.count == old(m.refcount.count) + (if old(refcount) == old(m.refcount) then 0 else 1))
    {
      if this == m {
        return Retained;
      }
      if refcount == m.refcount {
        r := AssignShared(m, writeEnable, noAccess, unmap);
      } else {
        r := AssignOther(m, writeEnable, noAccess, unmap);
      }
    }

    /**
     * Assignment from another handle of the same block: letting go of the
     * block cannot be the last release, since `m` still holds it, so the
     * count drops and rises again and nothing is torn down.
     */
    method AssignShared(m: Memory, writeEnable: OsResult, noAccess: OsResult, unmap: OsResult) returns (r: Release)
      requires Valid() && m.Valid() && this != m && refcount == m.refcount
      modifies this, refcount, memory, if memory == null then {} else {memory.bytes}
      ensures r == Retained && Valid() && m.Valid() && old(refcount.count) >= 2
      ensures refcount == old(refcount) && memory == old(m.memory) && size == old(m.size) && error == old(m.error)
      ensures refcount.owners == old(refcount.owners) && refcount.count == old(refcount.count)
      ensures old(memory) != null ==> unchanged(old(memory)) && unchanged(old(memory).bytes)
    {
      ghost var owners := refcount.owners;
      TwoOwners(owners, this, m);
      r := Unref(writeEnable, noAccess, unmap);
      assert m.refcount.owners == owners - {this};
      Adopt(m);
    }

    /**
     * Assignment from a handle of another block: this handle's block loses an
     * owner, and is torn down if that was its last one; unless the teardown
     * faults or throws, this handle then joins `m`'s block.
     */
    method AssignOther(m: Memory, writeEnable: OsResult, noAccess: OsResult, unmap: OsResult) returns (r: Release)
      requires Valid() && m.Valid() && refcount != m.refcount
      modifies this, refcount, memory, if memory == null then {} else {memory.bytes}, m.refcount
      ensures old(refcount).count == old(refcount.count) - 1
      ensures old(refcount).owners == old(refcount.owners) - {this}
      ensures r.Retained? <==> old(refcount.count) > 1
      ensures !r.Retained? ==> old(refcount.owners) == {this}
      ensures r.Retained? ==> old(refcount).Consistent()
      ensures r.Retained? && old(memory) != null ==> unchanged(old(memory)) && unchanged(old(memory).bytes)
      ensures r.WipeFault? <==> (old(refcount.count) == 1
                                 && (old(memory) == null || (writeEnable.Err? && !Allows(old(memory.prot), WRITE))))
      ensures r.Unmapped? || r.UnmapFailed? ==> (
                old(memory) != null
                && old(memory).TornDown(old(size), old(memory.prot), old(memory.log), writeEnable, noAccess, unmap))
      ensures r.UnmapFailed? <==> r != WipeFault && !r.Retained? && unmap.Err?
      ensures r.UnmapFailed? ==> r.code == unmap.code
      ensures r.Retained? || r.Unmapped? ==> (
                Valid() && m.Valid()
                && refcount == old(m.refcount) && memory == old(m.memory)
                && size == old(m.size) && error == old(m.error)
                && refcount.owners == old(m.refcount.owners) + {this}
                && refcount.count == old(m.refcount.count) + 1)
    {
      r := UnrefBeside(m, writeEnable, noAccess, unmap);
      if r.WipeFault? || r.UnmapFailed? {
        return;
      }
      Adopt(m);
    }

    /** `Unref` on this handle leaves a handle `m` of another block as it was. */
    method UnrefBeside(m: Memory, writeEnable: OsResult, noAccess: OsResult, unmap: OsResult) returns (r: Release)
      requires Valid() && m.Valid() && refcount != m.refcount
      modifies this, refcount, memory, if memory == null then {} else {memory.bytes}
      ensures old(refcount).count == old(refcount.count) - 1
      ensures old(refcount).owners == old(refcount.owners) - {this}
      ensures r.Retained? <==> old(refcount.count) > 1
      ensures !r.Retained? ==> old(refcount.owners) == {this}
      ensures r.Retained? ==> old(refcount).Consistent()
      ensures r.Retained? && old(memory) != null ==> unchanged(old(memory)) && unchanged(old(memory).bytes)
      ensures r.WipeFault? <==> (old(refcount.count) == 1
                                 && (old(memory) == null || (writeEnable.Err? && !Allows(old(memory.prot), WRITE))))
      ensures r.Unmapped? || r.UnmapFailed? ==> (
                old(memory) != null
                && old(memory).TornDown(old(size), old(memory.prot), old(memory.log), writeEnable, noAccess, unmap))
      ensures r.UnmapFailed? <==> r != WipeFault && !r.Retained? && unmap.Err?
      ensures r.UnmapFailed? ==> r.code == unmap.code
      ensures m.Valid() && this !in m.refcount.owners
      ensures m.refcount == old(m.refcount) && m.memory == old(m.memory) && m.size == old(m.size) && m.error == old(m.error)
      ensures m.refcount.owners == old(m.refcount.owners) && m.refcount.count == old(m.refcount.count)
    {
      Unshared(this, m);
      r := Unref(writeEnable, noAccess, unmap);
    }

    /** The second half of assignment: take `m`'s counter, address, size and error, and join its owners. */
    method Adopt(m: Memory)
      requires m.Valid() && this !in m.refcount.owners
      modifies this, m.refcount
      ensures Valid() && m.Valid()
      ensures refcount == m.refcount && memory == m.memory && size == m.size && error == m.error
      ensures refcount.owners == old(m.refcount.owners) + {this}
      ensures refcount.count == old(m.refcount.count) + 1
    {
      refcount := m.refcount;
      memory := m.memory;
      size := m.size;
      error := m.error;
      Ref();
    }

    /**
     * A call taking a handle by value: the parameter is a copy of `m` while
     * the call runs and is destroyed when it returns. Returns the count the
     * callee observes.
     */
    static method PassByValue(m: Memory) returns (during: nat)
      requires m.Valid()
      modifies m.refcount, m.memory, if m.memory == null then {} else {m.memory.bytes}
      ensures m.Valid()
      ensures m.refcount.count == old(m.refcount.count) && m.refcount.owners == old(m.refcount.owners)
      ensures m.memory != null ==> unchanged(m.memory) && unchanged(m.memory.bytes)
      ensures during == old(m.refcount.count) + 1
    {
      var parameter := new Memory.Copy(m);
      assert parameter !in old(m.refcount.owners);
      during := parameter.References();
      // Two handles are alive here, so the destruction cannot tear anything
      // down and the host's answers are never asked for.
      var _ := parameter.Unref(Ok, Ok, Ok);
      assert m.refcount.owners == old(m.refcount.owners);
    }
  }

  /** A set of one element that holds `x` is `{x}`. */
  lemma SoleOwner(owners: set<Memory>, x: Memory)
    requires x in owners && |owners| == 1
    ensures owners == {x}
  {
    assert |owners - {x}| == 0;
  }

  /** Two different handles among the owners make the count at least two. */
  lemma TwoOwners(owners: set<Memory>, a: Memory, b: Memory)
    requires a in owners && b in owners && a != b
    ensures |owners| >= 2
  {
    assert b in owners - {a};
    assert |owners - {a}| >= 1;
  }

  /** Handles with different counters share no owner and no mapping. */
  lemma Unshared(a: Memory, b: Memory)
    requires a.Valid() && b.Valid() && a.refcount != b.refcount
    ensures a !in b.refcount.owners && b !in a.refcount.owners
    ensures a.memory != null ==> a.memory != b.memory
  {
  }

  /** The base address is the address at offset zero. */
  lemma GetIsGetAtZero(m: Memory)
    requires m.Size() > 0
    ensures m.Get() == m.GetAt(0)
  {
  }
}
