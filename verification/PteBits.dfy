/** The 64-bit words behind the entry fields: what the kernel's masks write and test. */
module PteBits {
  const PRESENT: bv64 := 0x001
  const WRITABLE: bv64 := 0x002
  const USER: bv64 := 0x004
  const LARGE: bv64 := 0x080
  const NX: bv64 := 0x8000_0000_0000_0000
  const ADDRESS: bv64 := 0x000F_FFFF_FFFF_F000

  const VM_READ: bv64 := 1
  const VM_WRITE: bv64 := 2
  const VM_EXEC: bv64 := 4
  const VM_USER: bv64 := 8

  function FlagBits(flags: bv64): bv64 {
    PRESENT
    | (if flags & VM_WRITE != 0 then WRITABLE else 0)
    | (if flags & VM_USER != 0 then USER else 0)
    | (if flags & VM_EXEC == 0 then NX else 0)
  }

  function LeafWord(physical: bv64, flags: bv64): bv64 { (physical & ADDRESS) | FlagBits(flags) }

  function LinkWord(physical: bv64, user: bool): bv64 {
    physical | PRESENT | WRITABLE | (if user then USER else 0)
  }

  /** The flags a lookup reports for a word. */
  function ShownBits(word: bv64): bv64 {
    VM_READ
    | (if word & WRITABLE != 0 then VM_WRITE else 0)
    | (if word & NX != 0 then 0 else VM_EXEC)
    | (if word & USER != 0 then VM_USER else 0)
  }

  /** Writing a leaf and reading it back: the address and every field survive, bit 7 stays clear,
      and a lookup shows the mapping flags with READ added. */
  lemma LeafDecodes(physical: bv64, flags: bv64)
    requires physical & !ADDRESS == 0
    requires flags & !(VM_READ | VM_WRITE | VM_EXEC | VM_USER) == 0
    ensures
      var w := LeafWord(physical, flags);
      && w & PRESENT != 0 && w & LARGE == 0 && w & ADDRESS == physical
      && (w & WRITABLE != 0 <==> flags & VM_WRITE != 0)
      && (w & USER != 0 <==> flags & VM_USER != 0)
      && (w & NX != 0 <==> flags & VM_EXEC == 0)
      && ShownBits(w) == flags | VM_READ
  {
  }

  /** A link to a table keeps the table's address; its permission bits do not spill into it. */
  lemma LinkDecodes(physical: bv64, user: bool)
    requires physical & !ADDRESS == 0
    ensures
      var w := LinkWord(physical, user);
      && w & PRESENT != 0 && w & WRITABLE != 0 && w & LARGE == 0 && w & NX == 0
      && w & ADDRESS == physical && (w & USER != 0 <==> user)
  {
  }

  /** The mask test for write-and-execute asks for both bits, no more and no less. */
  lemma WriteXorExecuteMask(flags: bv64)
    ensures flags & (VM_WRITE | VM_EXEC) == VM_WRITE | VM_EXEC <==> flags & VM_WRITE != 0 && flags & VM_EXEC != 0
  {
  }
}
