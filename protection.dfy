/**
 * Access permissions of a memory block: a bit set of the host's page
 * protection flags. The flag values are those of Linux's <sys/mman.h>
 * (PROT_NONE, PROT_READ, PROT_WRITE, PROT_EXEC); the composites are built
 * from them with bitwise or.
 */
module Protection {

  /** A protection setting, as the `int` the host's mmap and mprotect take. */
  type Prot = bv32

  const NONE: Prot := 0
  const READ: Prot := 1
  const WRITE: Prot := 2
  const EXECUTE: Prot := 4

  const RW: Prot := READ | WRITE
  const RWX: Prot := RW | EXECUTE

  /** Whether setting `p` grants every access in `flags`. */
  predicate Allows(p: Prot, flags: Prot)
  {
    p & flags == flags
  }

  /** The three single-access flags are distinct bits. */
  predicate IsFlag(f: Prot)
  {
    f == READ || f == WRITE || f == EXECUTE
  }

  /**
   * A composite grants a single access exactly when one of its parts does,
   * so `READ | WRITE` grants reading and writing and nothing else.
   */
  lemma AllowsUnion(p: Prot, q: Prot, f: Prot)
    requires IsFlag(f)
    ensures Allows(p | q, f) <==> Allows(p, f) || Allows(q, f)
  {
  }

  /** What the named settings grant: NONE nothing, RW reading and writing, RWX everything. */
  lemma NamedSettings(f: Prot)
    requires IsFlag(f)
    ensures !Allows(NONE, f)
    ensures Allows(RW, f) <==> f == READ || f == WRITE
    ensures Allows(RWX, f)
  {
  }
}
