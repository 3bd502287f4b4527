/** The bits of a leaf descriptor (section D8.3 of the Arm Architecture Reference Manual, DDI 0487 issue J):
    what arm64_mmu_map_pt writes and what arch_mmu_query reads back. */
module PteBits {
  import opened Options

  // ---- the flags of include/arch/mmu.h ----

  const CACHE_MASK: bv32 := 3
  const UNCACHED: bv32 := 1
  const UNCACHED_DEVICE: bv32 := 2
  const PERM_USER: bv32 := 4
  const PERM_RO: bv32 := 8
  const PERM_NO_EXECUTE: bv32 := 16
  const NS: bv32 := 32
  const ALL: bv32 := 63

  // ---- the descriptor of arch/arm64/include/arch/arm64/mmu.h ----

  const TYPE_MASK: bv64 := 3
  const BLOCK: bv64 := 1
  const PAGE: bv64 := 3
  const INDEX_MASK: bv64 := 0x1c
  const STRONGLY_ORDERED: bv64 := 0
  const DEVICE: bv64 := 0x4
  const NORMAL_MEMORY: bv64 := 0x8
  const NON_SECURE: bv64 := 0x20
  const AP_MASK: bv64 := 0xc0
  const AP_USER: bv64 := 0x40
  const AP_RO: bv64 := 0x80
  const INNER_SHAREABLE: bv64 := 0x300
  const ACCESS: bv64 := 0x400
  const ADDRESS_MASK: bv64 := 0x0000_ffff_ffff_f000
  const PXN: bv64 := 0x0020_0000_0000_0000
  const UXN: bv64 := 0x0040_0000_0000_0000

  // ERR_INVALID_ARGS, -8, as it is returned through the descriptor type.
  const INVALID_ARGS: bv64 := 0xffff_ffff_ffff_fff8

  function CacheBits(flags: bv32): (b: bv64)
    requires flags & CACHE_MASK != 3
  {
    if flags & CACHE_MASK == 0 then NORMAL_MEMORY | INNER_SHAREABLE
    else if flags & CACHE_MASK == UNCACHED then STRONGLY_ORDERED
    else DEVICE
  }

  function PermBits(flags: bv32): (b: bv64) {
    (if flags & PERM_USER != 0 then AP_USER else 0) | (if flags & PERM_RO != 0 then AP_RO else 0)
  }

  function ExecuteBits(flags: bv32): (b: bv64) {
    if flags & PERM_NO_EXECUTE != 0 then UXN | PXN
    else if flags & PERM_USER != 0 then PXN
    else UXN
  }

  // mmu_flags_to_pte_attr
  function Attr(flags: bv32): (a: bv64) {
    if flags & CACHE_MASK == 3 then INVALID_ARGS
    else ACCESS | CacheBits(flags) | PermBits(flags) | ExecuteBits(flags) | (if flags & NS != 0 then NON_SECURE else 0)
  }

  function Descriptor(pa: bv64, attr: bv64, block: bool): (pte: bv64) {
    pa | attr | (if block then BLOCK else PAGE)
  }

  // The leaf descriptor that maps pa.
  function Leaf(pa: bv64, flags: bv32, block: bool): (pte: bv64) {
    Descriptor(pa, Attr(flags), block)
  }

  // ---- reading it back ----

  // None where arch_mmu_query gives up on the memory type.
  function FlagsOf(pte: bv64): (r: Option<bv32>) {
    var ns: bv32 := if pte & NON_SECURE != 0 then NS else 0;
    var index := pte & INDEX_MASK;
    var ap := pte & AP_MASK;
    var perm: bv32 :=
      if ap == AP_USER then PERM_USER
      else if ap == AP_RO then PERM_RO
      else if ap == AP_MASK then PERM_USER | PERM_RO
      else 0;
    var nx: bv32 := if pte & (if perm & PERM_USER != 0 then UXN else PXN) != 0 then PERM_NO_EXECUTE else 0;
    if index == STRONGLY_ORDERED then Some(ns | UNCACHED | perm | nx)
    else if index == DEVICE then Some(ns | UNCACHED_DEVICE | perm | nx)
    else if index == NORMAL_MEMORY then Some(ns | perm | nx)
    else None
  }

  // The address, the kind of entry and the flags come back.
  lemma RoundTrip(pa: bv64, flags: bv32, block: bool)
    requires pa & ADDRESS_MASK == pa && flags & CACHE_MASK != 3
    ensures var pte := Leaf(pa, flags, block);
      && pte & ADDRESS_MASK == pa && pte & TYPE_MASK == (if block then BLOCK else PAGE)
      && FlagsOf(pte) == Some(flags & ALL)
  {
  }

  // The memory type 3 is turned into an error code that is then used as attribute bits, so the flags come back
  // exactly when the memory type is one of the three and no other bits are set.
  lemma RoundTripExactly(pa: bv64, flags: bv32, block: bool)
    requires pa & ADDRESS_MASK == pa
    ensures FlagsOf(Leaf(pa, flags, block)) == Some(flags) <==> flags & CACHE_MASK != 3 && flags & ALL == flags
  {
  }

  // With memory type 3 even the address is not the one asked for.
  lemma MemoryTypeThree(block: bool)
    ensures Leaf(0, 3, block) & ADDRESS_MASK != 0 && FlagsOf(Leaf(0, 3, block)) == None
  {
  }
}
