# secmem in Dafny

secmem is a small C++ header library that hands out *secure memory*. A block
is an anonymous, private, locked mapping of `size` bytes. It is reference
counted: every `Memory` handle of a block shares one atomic counter. The
handle that drops the count from one to zero tears the block down in a fixed
order:

1. make the block writable;
2. overwrite every byte with zero, using a memset the optimiser may not remove;
3. make the block inaccessible;
4. delete the counter;
5. unmap the block.

`Array<T>` is a typed view of such a block. Its elements of `sizeof(T)` bytes
lie back to back from the base address.

The model has five modules:

- `Protection` (protection.dfy): the page-protection flags as a `bv32` bit set, with the values of Linux's `<sys/mman.h>`.
- `Lifecycle` (lifecycle.dfy): the reference-counting protocol on values. A block is reduced to its count and the number of teardowns it has seen. Copies and destructions are steps, and the lemmas prove that teardown happens exactly once, when the last handle goes, however the steps are interleaved.
- `SecureMemory` (memory.dfy): the `Memory` class itself, imperative as in the source. It has three classes:
  - a `Mapping` object holds the block's bytes, its current protection, whether it is unmapped, and a ghost log of what was done to it;
  - a `Counter` object holds the shared count and, as ghost state, the set of live handles;
  - a `Memory` object has the four fields of the C++ class.

  Whatever mmap, mprotect and munmap report is a parameter (`OsResult`). Each operation states its effect on the handle, the counter and the mapping. `Ref` and `Unref` are tied to the value model's steps.
- `SecureArray` (array.dfy): `Array` as a class holding its own `Memory` handle. The element type is reduced to its positive byte width.
- `Scenarios` (scenarios.dfy): the library's own test programs replayed on the model. Each postcondition states the values the tests expect.

`Memory::operator=` is declared to return `Memory&` but has no `return`
statement. In C++, flowing off the end of a function that returns a value is
undefined behaviour on every call, whether or not the result is used. Every
assignment in the repository reaches it: `memory1 = memory2` in the memory
tests, and `Array::operator=`, which assigns its handle, in the array tests.
The model's `Assign` returns how the old block was released instead, and
models the evidently intended `return *this` as a plain assignment.

## Model

| member | source | states |
|---|---|---|
| Protection.NamedSettings | secmem/secmem/memory.hpp:24-32 | NONE grants no access; RW grants exactly reading and writing; RWX grants every access |
| Protection.AllowsUnion | secmem/secmem/memory.hpp:30-31 | a composite setting grants a single access exactly when one of its parts does |
| SecureMemory.SecureMemset | secmem/secmem/memory.hpp:36-48 | returns the address it was given; the first `n` bytes all become `v`; every byte past them is unchanged |
| SecureMemory.Mapping.constructor | secmem/secmem/memory.hpp:67-82 | a new anonymous mapping is zero-filled, has the requested protection and is mapped |
| SecureMemory.Memory.Map | secmem/secmem/memory.hpp:67-82 | on success, a fresh zero-filled mapping with the requested protection, the error untouched; on failure, null and the host's error code |
| SecureMemory.DeclarationOrderLosesMapError | secmem/secmem/memory.hpp:58-65 | when the initialisers run in declaration order, the error field ends at 0 whatever mmap reported |
| SecureMemory.WrittenOrderKeepsMapError | secmem/secmem/memory.hpp:117-125 | when the initialisers run in the written order, the error field is non-zero exactly when mmap failed, and then holds its code |
| SecureMemory.Memory.constructor | secmem/secmem/memory.hpp:117-125 | a new handle is the sole owner of a fresh counter at 1 and has the requested size; its mapping exists iff mmap succeeded; a mapping that exists is zero-filled with the requested protection and there is no error; otherwise the error is mmap's code |
| SecureMemory.Memory.Ref | secmem/secmem/memory.hpp:106-110 | the shared count rises by exactly one and the handle joins the owners; this is the value model's Copy step |
| SecureMemory.Memory.Copy | secmem/secmem/memory.hpp:127-134 | the copy holds the same counter, mapping, size and error; the count rises by one; both handles stay valid |
| SecureMemory.Memory.Unref | secmem/secmem/memory.hpp:84-104 | the count drops by exactly one (the value model's Destroy step); teardown runs iff the previous count was 1, and then this handle was the only owner; the block is left untouched while other owners remain; after a teardown the mapping is `TornDown`: its log grows by exactly protect WRITE, fill 0, protect NONE, delete counter, unmap, in that order, every byte is zero, and it is unmapped iff munmap succeeded; a null or unwritable block faults; a munmap failure is thrown with its code |
| SecureMemory.Memory.Teardown | secmem/secmem/memory.hpp:90-103 | the last handle's teardown, run only once the count is zero and no handle owns the counter: faults exactly on a null block or a block that stays unwritable; otherwise the mapping is `TornDown` (zeroed, the five steps logged in order, protection as the accepted mprotect calls left it, unmapped iff munmap succeeded), the counter pointer is null and the error is the no-access call's |
| SecureMemory.Memory.Protect | secmem/secmem/memory.hpp:169-179 | the error is reset and then holds the host's code on failure; the result is true iff mprotect succeeded; the protection changes only on success; the attempt is logged |
| SecureMemory.Memory.Fill | secmem/secmem/memory.hpp:184-186 | every one of the `size` bytes becomes `value`; protection, mapping state and ownership are unchanged |
| SecureMemory.Memory.Clear | secmem/secmem/memory.hpp:191-193 | every byte becomes zero, as `Fill(0)` |
| SecureMemory.Memory.References | secmem/secmem/memory.hpp:155-157 | the shared count equals the number of live handles of the block and is at least one |
| SecureMemory.Memory.GetAt | secmem/secmem/memory.hpp:207-211 | for an offset inside the block, the address is the base plus the offset, in the same mapping |
| SecureMemory.GetIsGetAtZero | secmem/secmem/memory.hpp:199-211 | the base address is the address at offset zero |
| SecureMemory.Memory.Assign | secmem/secmem/memory.hpp:227-236 | self-assignment changes nothing; otherwise the old block loses this owner and is torn down iff it was its last; whenever nothing is torn down (self-assignment, the same block, or an old block with other owners) the old mapping and its bytes are unchanged, and a surviving old counter stays consistent; a torn-down old block is `TornDown` (zeroed, the five steps logged in order, unmapped iff munmap succeeded), or the wipe faulted on a null or unwritable block, or munmap's code is thrown; unless the teardown fails, the handle takes `m`'s counter, mapping, size and error and joins `m`'s owners (the count rises by one, or is unchanged when the counter was already shared) |
| SecureMemory.Memory.AssignShared | secmem/secmem/memory.hpp:227-236 | assigning from another handle of the same block releases nothing; owners and count end where they started; the shared mapping and its bytes are unchanged; the handle takes `m`'s mapping, size and error |
| SecureMemory.Memory.AssignOther | secmem/secmem/memory.hpp:227-236 | assigning from a handle of another block drops the old count by one and tears the old block down iff this was its last owner, with the same teardown outcome as `Unref`; when it is retained, its mapping and bytes are unchanged; a successful assignment joins `m`'s owners with the count one higher |
| SecureMemory.Memory.UnrefBeside | secmem/secmem/memory.hpp:228 | letting go of this handle's block has `Unref`'s outcome for that block (count one lower; mapping and bytes unchanged while other owners remain; `TornDown` or a fault when it was the last owner) and leaves a handle of another block valid, with its fields, owners and count unchanged |
| SecureMemory.Memory.Adopt | secmem/secmem/memory.hpp:230-235 | the four fields are taken from `m` and the handle joins `m`'s owners, with the count one higher |
| SecureMemory.Memory.PassByValue | tests/memory/main.cpp:48-50 | a call taking a handle by value sees the count one higher; afterwards the count and the owners are what they were and the block is untouched |
| Lifecycle.RunCounts | secmem/secmem/memory.hpp:84-110 | after any sequence of copies and destructions, the count is the initial count plus the copies minus the destructions; a teardown happened iff the count is zero |
| Lifecycle.RunDefined | secmem/secmem/memory.hpp:84-110 | no step touches a freed counter iff, before every step, the destructions so far have not caught up with the initial owners plus the copies so far |
| Lifecycle.ExactlyOnce | secmem/secmem/memory.hpp:84-104 | a freshly constructed block is torn down at most once, and exactly when its count reaches zero |
| Lifecycle.RunAppend | secmem/secmem/memory.hpp:84-110 | running two sequences of steps one after the other is running their concatenation |
| Lifecycle.CopiesCount | secmem/secmem/memory.hpp:127-134 | `k` copies raise the count by exactly `k` and tear nothing down |
| Lifecycle.ExtraOwner | secmem/secmem/memory.hpp:84-110 | steps that leave a block alive tear nothing down, and run the same with one more owner around, every count one higher |
| Lifecycle.SelfAssignAsWrittenLastOwner | secmem/secmem/memory.hpp:227-236 | without a guard, the last owner assigning itself to itself tears the block down, and `Ref` then has no counter to act on |
| Lifecycle.SelfAssignGuarded | secmem/secmem/memory.hpp:227-236 | the unguarded self-assignment survives exactly when another handle still owns the block, and then agrees with the guarded one |
| SecureArray.ElementCount | secmem/secmem/array.hpp:56-58 | the element count is the byte size divided by the width, rounding down: count × width ≤ bytes < count × width + width |
| SecureArray.ElementInside | secmem/secmem/array.hpp:60-64 | an element whose index is below the count lies wholly inside the block |
| SecureArray.ElementsDisjoint | secmem/secmem/array.hpp:63 | elements with different indices do not overlap |
| SecureArray.Array.constructor | secmem/secmem/array.hpp:26-30 | an array over `m` holds a new handle to `m`'s block, with `m`'s size and error, and allocates nothing; the count rises by one |
| SecureArray.Array.Copy | secmem/secmem/array.hpp:32-36 | a copied array views the same block with the same width, size and error; the count rises by one |
| SecureArray.Array.Assign | secmem/secmem/array.hpp:38-42 | the array lets go of its block, whose count drops by one and which is torn down (`TornDown`, or a fault or munmap's code) iff this was its last owner, and otherwise keeps its mapping and bytes unchanged; it then views the other array's block, and its size and error become the other array's |
| SecureArray.Array.UnderlyingMemory | secmem/secmem/array.hpp:48-50 | the result is a new handle to the same block, mapping, size and error; the count rises by one |
| SecureArray.Array.Size | secmem/secmem/array.hpp:56-58 | the number of elements is the block's byte size divided by the width, rounding down |
| SecureArray.Array.Get | secmem/secmem/array.hpp:60-64 | for an index below the size, the address is `i` widths past the base, and the element lies inside the block |
| SecureArray.Array.Element | secmem/secmem/array.hpp:70-72 | element `i` is the `width` bytes read at `Get(i)` |
| SecureArray.Array.Protect | secmem/secmem/array.hpp:74-76 | returns what the handle's `Protect` returns; the error is reset and then holds the host's code; the protection changes only on success; the attempt is logged; the array stays valid |
| SecureArray.Array.Clear | secmem/secmem/array.hpp:78-80 | every byte of the block becomes zero, so every element is all zero bytes; the protection and ownership are unchanged, the fill is logged, and the array stays valid |
| Scenarios.Reserve | tests/memory/main.cpp:17-24 | a fresh 1024-byte read-write block has no error, size 1024 and a non-null base |
| Scenarios.ClearThenFill | tests/memory/main.cpp:26-42 | after `Clear` every byte reads 0; after `Fill(1)` every byte reads 1 |
| Scenarios.CopiesAndCalls | tests/memory/main.cpp:52-74 | the counts read are 1; then 2 and 2 after a copy; 3 inside each call by value; 2 and 2 afterwards |
| Scenarios.AssignOver | tests/memory/main.cpp:76-84 | after `memory1 = memory2`, the first block has 1 handle and its bytes as they were, and the second has 2 |
| Scenarios.AssignOverLast | secmem/secmem/memory.hpp:227-236 | assigning the only handle of a block over another block's handle wipes the old block to zeros, leaves it inaccessible and unmapped, and leaves two handles on the other block |
| Scenarios.ArrayOverTemporary | tests/array/main.cpp:9 | an array built over a temporary handle ends as its block's only owner, and its size is the byte size divided by the width |
| Scenarios.ArraySizes | tests/array/main.cpp:8-31 | the sizes read are 1024 / width for the array and its copy, then 1000 / width for the copy after it is assigned the other array |

## Left out

- mmap, mprotect, munmap, sysconf and errno are not called. Their outcomes are `OsResult` parameters, so whether a call succeeds, and its error code, are free inputs.
- `PageSize` is left out: its only use is as the offset passed to mmap, and the offset of an anonymous mapping does not affect the model.
- The atomic counter's memory orderings and the acquire fence are left out. The counter is a sequential shared count, and exactly-once teardown is proved for sequential interleavings only.
- The `volatile` stores and `#pragma optimize` in `SecureMemset` are left out. Only the bytes they leave behind are modelled.
- Hardware faults are not modelled as such. `Fill` and `Clear` require a writable, mapped block. Wiping a null or unwritable block during teardown is the `WipeFault` outcome, and nothing after it is modelled.
- A `munmap` failure makes the destructor throw, which terminates a C++ program. In the model it is the `UnmapFailed(code)` outcome, and nothing after it is modelled.
- On the assignment path a `munmap` failure does not terminate: the exception leaves `operator=` for the caller, with the handle's `refcount` already null, so the handle's later destructor fails its `refcount != NULL` assertion. `Assign` stops at `UnmapFailed(code)` there as well, and nothing after it is modelled.
- SecureMemory.Memory.constructor: it runs the initialisers in the order they are written, so after a failed mmap its error holds the host's code, while the source as written ends with 0. See Findings.
- SecureMemory.Memory.Ref: the counter is an unbounded `nat`, so the 32-bit wrap of `atomic<unsigned int>` after 2^32 copies is not modelled.
- `assert (refcount != NULL)` in `Unref` and `Ref`, and the size and counter asserts in the constructor, are preconditions (`Valid()`, `s > 0`), not checks.
- `Get()` and `operator()()` return the same base address, and `operator()(i)` is the same function as `Get(i)`. Each pair is one member (`Get`, `GetAt`, `Array.Get`), not two.
- `Error`, `HasError`, `Size` and `Width` are plain field reads with no contract of their own. Their values appear in the contracts of the members above.
- Typed access is left out: the pointer casts of `Array::Get` and `T`'s layout. An element is its `width` bytes. `Array.Element` reads them. Writes through the reference `operator[]` returns are not modelled.
- The self-assignment guard in `SecureMemory.Memory.Assign` corrects the source. See Findings.
- The missing `return *this` of `Memory::operator=` has no counterpart, and neither does the undefined behaviour of falling off its end. `Assign` returns the release outcome instead.
- SecureMemory.Memory.Protect: the host's answer is a free parameter even when the handle's mapping is null. The real `mprotect(NULL, size, …)` cannot succeed, because page 0 is never mapped. No proved property depends on this.
- Destroying a handle whose mapping failed writes through a null pointer in the source (`Unref` → `Clear` → `SecureMemset`). The model stops at the `WipeFault` outcome and does not propose a guarded teardown.
- The Catch test harness and the `SECMEM_TEST` switch around `References()` are left out. `References()` is always available.
- Passing a handle by value is proved for the imperative handle (`Memory.PassByValue`) but not as a lemma over the value model's step sequences.

## Findings

| source | as written | input that shows it | evidently intended | confidence | as-written member | corrected member |
|---|---|---|---|---|---|---|
| secmem/secmem/memory.hpp:117-125 | the initialiser list writes `error(0)` first, but C++ runs initialisers in declaration order (refcount, size, memory, error), so `error(0)` runs after `Map` has stored errno | mmap fails with ENOMEM (12): the handle ends with `memory == NULL` and `HasError() == false` | the error field reports the mmap failure, as `SecureMemory.Memory.constructor` does by running them in the written order | high (not executed) | SecureMemory.DeclarationOrderLosesMapError | SecureMemory.WrittenOrderKeepsMapError |
| secmem/secmem/memory.hpp:227-236 | `operator=` calls `Unref()` and then `Ref()` with no self-assignment check | `h = h` on the only handle of a block: `Unref` tears the block down, deletes the counter and sets `refcount` to null; `refcount = m.refcount` copies that null back through the alias; `Ref` then fails its `refcount != NULL` assertion, or dereferences null when assertions are off | assigning a handle to itself leaves it unchanged | high (not executed) | Lifecycle.SelfAssignAsWrittenLastOwner | SecureMemory.Memory.Assign |
