/** The region list of an address space and the searches over it, from kernel/vm/vmm.c. */
module Vmm {
  import opened Options
  import opened Lists
  import opened Rounding
  import Pmm

  datatype Region = Region(base: nat, size: nat, flags: nat, pages: seq<nat>)

  datatype Aspace = Aspace(base: nat, size: nat)

  predicate AspaceOk(a: Aspace) {
    0 < a.size < WORD && a.base + a.size <= WORD
  }

  // ---- ranges ----

  predicate Inside(a: Aspace, va: nat, size: nat) {
    a.base <= va && va + size <= a.base + a.size
  }

  // is_region_inside_aspace, on 64-bit words.
  predicate IsRegionInside(a: Aspace, va: nat, size: nat) {
    if !(va >= a.base && va <= (a.base + a.size - 1) % WORD) then false
    else if size == 0 then true
    else if (va + size - 1) % WORD < va then false
    else (va + size - 1) % WORD <= (a.base + a.size - 1) % WORD
  }

  // The overflow test makes the 64-bit comparison exact.
  lemma InsideIs(a: Aspace, va: nat, size: nat)
    requires AspaceOk(a) && va < WORD && 0 < size < WORD
    ensures IsRegionInside(a, va, size) <==> Inside(a, va, size)
  {
    assert va + size - 1 >= WORD ==> (va + size - 1) % WORD == va + size - 1 - WORD;
  }

  predicate Meets(r: Region, va: nat, size: nat) {
    va < r.base + r.size && r.base < va + size
  }

  predicate Clear(rs: seq<Region>, va: nat, size: nat) {
    forall i | 0 <= i < |rs| :: !Meets(rs[i], va, size)
  }

  predicate ListOk(a: Aspace, rs: seq<Region>) {
    && (forall i | 0 <= i < |rs| :: rs[i].size > 0 && Inside(a, rs[i].base, rs[i].size))
    && (forall i, j | 0 <= i < j < |rs| :: rs[i].base + rs[i].size <= rs[j].base)
  }

  // ---- insertion ----

  // The position before the first region that starts above base.
  function Spot(rs: seq<Region>, base: nat): (k: nat)
    ensures k <= |rs| && (k < |rs| ==> rs[k].base > base) && forall i | 0 <= i < k :: rs[i].base <= base
  {
    if rs == [] || rs[0].base > base then 0 else 1 + Spot(rs[1..], base)
  }

  function Insert(rs: seq<Region>, r: Region): (s: seq<Region>) {
    var k := Spot(rs, r.base);
    rs[..k] + [r] + rs[k..]
  }

  lemma Between(a: Aspace, lo: seq<Region>, r: Region, hi: seq<Region>)
    requires ListOk(a, lo) && ListOk(a, hi) && r.size > 0 && Inside(a, r.base, r.size)
    requires forall i | 0 <= i < |lo| :: lo[i].base + lo[i].size <= r.base
    requires forall i | 0 <= i < |hi| :: r.base + r.size <= hi[i].base
    ensures ListOk(a, lo + [r] + hi)
  {
  }

  // A region that is in range and meets no other keeps the list sorted, disjoint and inside.
  lemma InsertOk(a: Aspace, rs: seq<Region>, r: Region)
    requires ListOk(a, rs) && r.size > 0 && Inside(a, r.base, r.size) && Clear(rs, r.base, r.size)
    ensures ListOk(a, Insert(rs, r))
  {
    hide Spot;
    var k := Spot(rs, r.base);
    assert forall i | 0 <= i < k :: !Meets(rs[i], r.base, r.size) && rs[i].base + rs[i].size <= r.base;
    assert forall i | k <= i < |rs| :: !Meets(rs[i], r.base, r.size) && r.base + r.size <= rs[i].base;
    Between(a, rs[..k], r, rs[k..]);
  }

  // Insertion adds the region at one place and keeps the others and their order.
  lemma InsertIs(rs: seq<Region>, r: Region) returns (k: nat)
    ensures var s := Insert(rs, r);
      && k < |s| == |rs| + 1 && s[k] == r && s[..k] + s[k + 1..] == rs
      && (forall i | 0 <= i < k :: s[i].base <= r.base) && (k + 1 < |s| ==> s[k + 1].base > r.base)
  {
    k := Spot(rs, r.base);
    assert rs == rs[..k] + rs[k..];
  }

  // The walk stops at the only position that separates the regions below from those above.
  lemma SpotIs(a: Aspace, rs: seq<Region>, r: Region, k: nat)
    requires ListOk(a, rs) && r.size > 0 && k <= |rs|
    requires (k > 0 ==> rs[k - 1].base + rs[k - 1].size <= r.base) && (k < |rs| ==> r.base + r.size <= rs[k].base)
    ensures Clear(rs, r.base, r.size) && Spot(rs, r.base) == k
  {
    assert forall i | 0 <= i < k :: rs[i].base + rs[i].size <= r.base;
    assert forall i | k <= i < |rs| :: r.base + r.size <= rs[i].base;
  }

  lemma SpotSeparates(a: Aspace, rs: seq<Region>, r: Region)
    requires ListOk(a, rs) && r.size > 0 && Clear(rs, r.base, r.size)
    ensures var k := Spot(rs, r.base);
      (k > 0 ==> rs[k - 1].base + rs[k - 1].size <= r.base) && (k < |rs| ==> r.base + r.size <= rs[k].base)
  {
    var k := Spot(rs, r.base);
    assert k > 0 ==> !Meets(rs[k - 1], r.base, r.size);
    assert k < |rs| ==> !Meets(rs[k], r.base, r.size);
  }

  // ---- gaps ----

  function GapBeg(a: Aspace, rs: seq<Region>, k: nat): (b: nat)
    requires k <= |rs|
  {
    if k == 0 then a.base else rs[k - 1].base + rs[k - 1].size
  }

  // One past the last byte of the gap.
  function GapEnd(a: Aspace, rs: seq<Region>, k: nat): (e: nat)
    requires k <= |rs|
  {
    if k < |rs| then rs[k].base else a.base + a.size
  }

  predicate InGap(a: Aspace, rs: seq<Region>, k: nat, va: nat, size: nat)
    requires k <= |rs|
  {
    GapBeg(a, rs, k) <= va && va + size <= GapEnd(a, rs, k)
  }

  predicate OnBoundary(va: nat, shift: nat) {
    va % Pow2(shift) == 0
  }

  predicate Candidate(a: Aspace, rs: seq<Region>, va: nat, size: nat, shift: nat) {
    OnBoundary(va, shift) && Inside(a, va, size) && Clear(rs, va, size)
  }

  lemma GapBounds(a: Aspace, rs: seq<Region>, k: nat)
    requires ListOk(a, rs) && AspaceOk(a) && k <= |rs|
    ensures a.base <= GapBeg(a, rs, k) <= GapEnd(a, rs, k) <= a.base + a.size && (k < |rs| ==> GapEnd(a, rs, k) < WORD)
    ensures forall j: nat | k < j <= |rs| :: GapEnd(a, rs, k) <= GapBeg(a, rs, j)
  {
  }

  // A range is inside and free exactly when it lies in one gap.
  lemma GapOf(a: Aspace, rs: seq<Region>, va: nat, size: nat)
    requires ListOk(a, rs) && AspaceOk(a) && size > 0
    ensures Inside(a, va, size) && Clear(rs, va, size) ==>
      var k := Spot(rs, va); InGap(a, rs, k, va, size)
    ensures forall k: nat | k <= |rs| && InGap(a, rs, k, va, size) ::
      Inside(a, va, size) && Clear(rs, va, size) && k == Spot(rs, va)
  {
    var r := Region(va, size, 0, []);
    if Inside(a, va, size) && Clear(rs, va, size) { SpotSeparates(a, rs, r); }
    forall k: nat | k <= |rs| && InGap(a, rs, k, va, size)
      ensures Inside(a, va, size) && Clear(rs, va, size) && k == Spot(rs, va)
    {
      GapBounds(a, rs, k);
      SpotIs(a, rs, r, k);
    }
  }

  // ---- the searches ----

  datatype Status = Ok | OutOfRange | NoMemory | InvalidArgs | NotFound | MapFailed

  // add_region_to_aspace: a specific request succeeds exactly when it is in range and meets nothing.
  method AddRegionToAspace(a: Aspace, rs: seq<Region>, r: Region) returns (st: Status, s: seq<Region>)
    requires AspaceOk(a) && ListOk(a, rs) && r.base < WORD && r.size < WORD
    ensures st == OutOfRange <==> r.size == 0 || !Inside(a, r.base, r.size)
    ensures st == NoMemory <==> r.size > 0 && Inside(a, r.base, r.size) && !Clear(rs, r.base, r.size)
    ensures st == Ok <==> r.size > 0 && Inside(a, r.base, r.size) && Clear(rs, r.base, r.size)
    ensures s == if st == Ok then Insert(rs, r) else rs
  {
    hide Spot, Insert, Inside, Clear, ListOk, IsRegionInside, End;
    if r.size > 0 { InsideIs(a, r.base, r.size); }
    if r.size == 0 || !IsRegionInside(a, r.base, r.size) { return OutOfRange, rs; }
    EndIs(a, rs, r);
    var end := End(r);
    if rs == [] || end < rs[0].base {
      PlacedIs(a, rs, r, 0);
      return Ok, [r] + rs;
    }
    var i := 0;
    while i < |rs|
      invariant 0 <= i <= |rs|
      invariant forall k: nat | k <= i :: !Separates(rs, r, k)
    {
      if r.base > End(rs[i]) {
        if i + 1 == |rs| || end < rs[i + 1].base {
          PlacedIs(a, rs, r, i + 1);
          return Ok, rs[..i + 1] + [r] + rs[i + 1..];
        }
      }
      i := i + 1;
    }
    NowhereIs(a, rs, r);
    st, s := NoMemory, rs;
  }

  // The last byte, on 64-bit words.
  function End(r: Region): (e: int) {
    (r.base + r.size - 1) % WORD
  }

  predicate Separates(rs: seq<Region>, r: Region, k: nat) {
    && k <= |rs| && (k > 0 ==> rs[k - 1].base + rs[k - 1].size <= r.base)
    && (k < |rs| ==> r.base + r.size <= rs[k].base)
  }

  lemma EndIs(a: Aspace, rs: seq<Region>, r: Region)
    requires AspaceOk(a) && ListOk(a, rs) && r.size > 0 && Inside(a, r.base, r.size)
    ensures End(r) == r.base + r.size - 1
    ensures forall i | 0 <= i < |rs| :: End(rs[i]) == rs[i].base + rs[i].size - 1
  {
    assert forall i | 0 <= i < |rs| :: rs[i].size > 0 && Inside(a, rs[i].base, rs[i].size);
  }

  lemma PlacedIs(a: Aspace, rs: seq<Region>, r: Region, k: nat)
    requires ListOk(a, rs) && r.size > 0 && Separates(rs, r, k)
    ensures Clear(rs, r.base, r.size) && Insert(rs, r) == rs[..k] + [r] + rs[k..]
  {
    SpotIs(a, rs, r, k);
  }

  lemma NowhereIs(a: Aspace, rs: seq<Region>, r: Region)
    requires ListOk(a, rs) && r.size > 0 && forall k: nat | k <= |rs| :: !Separates(rs, r, k)
    ensures !Clear(rs, r.base, r.size)
  {
    hide Spot, Separates, Clear;
    ClearSeparates(a, rs, r);
    assert !Separates(rs, r, Spot(rs, r.base));
  }

  lemma ClearSeparates(a: Aspace, rs: seq<Region>, r: Region)
    requires ListOk(a, rs) && r.size > 0
    ensures Clear(rs, r.base, r.size) ==> Separates(rs, r, Spot(rs, r.base))
  {
    if Clear(rs, r.base, r.size) { SpotSeparates(a, rs, r); }
  }

  // ---- alloc_spot ----

  datatype Gap = Found(va: nat) | Next | Stop

  // check_gap, with the default arch_mmu_pick_spot.
  method CheckGap(a: Aspace, rs: seq<Region>, k: nat, size: nat, shift: nat) returns (g: Gap)
    requires AspaceOk(a) && ListOk(a, rs) && k <= |rs| && size > 1 && shift < 64
    ensures g.Found? ==> OnBoundary(g.va, shift) && InGap(a, rs, k, g.va, size) && forall va: nat |
      va < g.va && OnBoundary(va, shift) :: !InGap(a, rs, k, va, size)
    ensures g.Next? ==> forall va: nat | OnBoundary(va, shift) :: !InGap(a, rs, k, va, size)
    ensures g.Stop? ==> forall j: nat, va: nat | k <= j <= |rs| && OnBoundary(va, shift) :: !InGap(a, rs, j, va, size)
  {
    hide RoundUp64, ListOk, OnBoundary, Pow2;
    GapBounds(a, rs, k);
    var beg := GapBeg(a, rs, k) % WORD;
    var end: nat;
    if k < |rs| {
      if beg == rs[k].base { return Next; }
      end := rs[k].base - 1;
    } else {
      if beg == (a.base + a.size) % WORD { return Stop; }
      end := (a.base + a.size - 1) % WORD;
    }
    var va := RoundUp64(beg, Pow2(shift));
    if va < beg {
      forall j: nat, v: nat | k <= j <= |rs| && OnBoundary(v, shift)
        ensures !InGap(a, rs, j, v, size)
      {
        WrappedGap(a, rs, k, j, v, size, shift);
      }
      return Stop;
    }
    forall v: nat { PickedIs(beg, shift, v); }
    if va < end && end - va + 1 >= size { return Found(va); }
    g := Next;
  }

  // What the default arch_mmu_pick_spot gives when it does not wrap.
  lemma PickedIs(beg: nat, shift: nat, v: nat)
    requires beg < WORD && shift < 64 && beg <= RoundUp64(beg, Pow2(shift))
    ensures OnBoundary(RoundUp64(beg, Pow2(shift)), shift)
    ensures beg <= v && OnBoundary(v, shift) ==> v >= RoundUp64(beg, Pow2(shift))
  {
    hide Pow2, RoundUp64;
    RoundUp64Is(beg, shift);
    if beg <= v && OnBoundary(v, shift) { LeastAbove(beg, shift, v); }
  }

  lemma WrappedGap(a: Aspace, rs: seq<Region>, k: nat, j: nat, va: nat, size: nat, shift: nat)
    requires AspaceOk(a) && ListOk(a, rs) && k <= j <= |rs| && size > 0 && shift < 64
    requires GapBeg(a, rs, k) < WORD && RoundUp64(GapBeg(a, rs, k), Pow2(shift)) < GapBeg(a, rs, k)
    requires OnBoundary(va, shift)
    ensures !InGap(a, rs, j, va, size)
  {
    hide Pow2, RoundUp64, ListOk;
    GapBounds(a, rs, k);
    GapBounds(a, rs, j);
    if InGap(a, rs, j, va, size) { NothingAbove(GapBeg(a, rs, k), shift, va); }
  }

  ghost predicate Lowest(a: Aspace, rs: seq<Region>, va: nat, size: nat, shift: nat) {
    Candidate(a, rs, va, size, shift) && forall v: nat | v < va :: !Candidate(a, rs, v, size, shift)
  }

  ghost predicate NoGapFits(a: Aspace, rs: seq<Region>, size: nat, shift: nat, k: nat)
    requires k <= |rs|
  {
    forall va: nat | OnBoundary(va, shift) :: !InGap(a, rs, k, va, size)
  }

  lemma FoundIsLowest(a: Aspace, rs: seq<Region>, size: nat, shift: nat, k: nat, va: nat)
    requires AspaceOk(a) && ListOk(a, rs) && size > 0 && k <= |rs| && OnBoundary(va, shift) && InGap(a, rs, k, va, size)
    requires forall j: nat | j < k :: NoGapFits(a, rs, size, shift, j)
    requires forall v: nat | v < va && OnBoundary(v, shift) :: !InGap(a, rs, k, v, size)
    ensures Lowest(a, rs, va, size, shift) && Spot(rs, va) == k
  {
    hide OnBoundary, InGap, ListOk, Spot, Clear, Inside;
    GapOf(a, rs, va, size);
    forall v: nat | v < va
      ensures !Candidate(a, rs, v, size, shift)
    {
      GapOf(a, rs, v, size);
      var j := Spot(rs, v);
      assert j < k ==> NoGapFits(a, rs, size, shift, j);
      if InGap(a, rs, j, v, size) { GapsInOrder(a, rs, j, k, v, va, size); }
    }
  }

  // Later gaps hold higher addresses.
  lemma GapsInOrder(a: Aspace, rs: seq<Region>, j: nat, k: nat, v: nat, va: nat, size: nat)
    requires AspaceOk(a) && ListOk(a, rs) && size > 0 && j <= |rs| && k <= |rs| && v < va
    requires InGap(a, rs, j, v, size) && InGap(a, rs, k, va, size)
    ensures j <= k
  {
    GapBounds(a, rs, k);
  }

  lemma NoneIsNone(a: Aspace, rs: seq<Region>, size: nat, shift: nat, va: nat)
    requires AspaceOk(a) && ListOk(a, rs) && size > 0 && forall j: nat | j <= |rs| :: NoGapFits(a, rs, size, shift, j)
    ensures !Candidate(a, rs, va, size, shift)
  {
    hide OnBoundary, InGap, ListOk, Spot, Clear, Inside;
    GapOf(a, rs, va, size);
    assert NoGapFits(a, rs, size, shift, Spot(rs, va));
  }

  // alloc_spot: the lowest aligned address that fits, and none only when no gap fits.
  method AllocSpot(a: Aspace, rs: seq<Region>, size: nat, alignPow2: nat) returns (spot: Option<nat>, before: nat)
    requires AspaceOk(a) && ListOk(a, rs) && size > 0 && size % Pmm.PAGE_SIZE == 0 && alignPow2 < 64
    ensures spot.Some? ==> Lowest(a, rs, spot.value, size, Pmm.Shift(alignPow2)) && before == Spot(rs, spot.value)
    ensures spot.None? ==> forall va: nat :: !Candidate(a, rs, va, size, Pmm.Shift(alignPow2))
  {
    hide Pow2, ListOk, Candidate, Spot, InGap;
    var shift := Pmm.Shift(alignPow2);
    before := 0;
    while before <= |rs|
      invariant before <= |rs| + 1
      invariant forall j: nat | j < before :: NoGapFits(a, rs, size, shift, j)
    {
      var g := CheckGap(a, rs, before, size, shift);
      match g
      case Found(va) =>
        FoundIsLowest(a, rs, size, shift, before, va);
        return Some(va), before;
      case Stop =>
        break;
      case Next =>
        before := before + 1;
    }
    assert forall j: nat | j <= |rs| :: NoGapFits(a, rs, size, shift, j);
    forall va: nat { NoneIsNone(a, rs, size, shift, va); }
    spot := None;
  }

  // What alloc_region may answer: the address asked for, or the lowest that fits.
  ghost predicate Granted(a: Aspace, rs: seq<Region>, size: nat, specific: bool, vaddr: nat, shift: nat, base: nat) {
    if specific then base == vaddr && Inside(a, base, size) && Clear(rs, base, size)
    else Lowest(a, rs, base, size, shift)
  }

  method AllocRegion(a: Aspace, rs: seq<Region>, size: nat, vaddr: nat, alignPow2: nat, specific: bool, flags: nat,
                     node: bool)
    returns (r: Option<Region>, s: seq<Region>)
    requires AspaceOk(a) && ListOk(a, rs) && 0 < size < WORD && size % Pmm.PAGE_SIZE == 0 && vaddr < WORD
    requires alignPow2 < 64
    ensures r.None? ==> s == rs
    ensures r.Some? ==>
      node && r.value == Region(r.value.base, size, flags, []) && s == Insert(rs, r.value) && ListOk(a, s)
    ensures r.Some? ==> Granted(a, rs, size, specific, vaddr, Pmm.Shift(alignPow2), r.value.base)
    ensures r.None? && node ==> forall base: nat :: !Granted(a, rs, size, specific, vaddr, Pmm.Shift(alignPow2), base)
  {
    hide ListOk, Pow2, Spot, Inside, Clear;
    if !node { return None, rs; }
    if specific {
      var st, t := AddRegionToAspace(a, rs, Region(vaddr, size, flags, []));
      if st != Ok { return None, rs; }
      InsertOk(a, rs, Region(vaddr, size, flags, []));
      return Some(Region(vaddr, size, flags, [])), t;
    }
    var spot, before := AllocSpot(a, rs, size, alignPow2);
    if spot.None? { return None, rs; }
    var region := Region(spot.value, size, flags, []);
    InsertOk(a, rs, region);
    r, s := Some(region), rs[..before] + [region] + rs[before..];
  }
}
