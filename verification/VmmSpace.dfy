/** The allocation paths of kernel/vm/vmm.c: regions, the pages they hold and the page tables that map them. */
module VmmSpace {
  import opened Options
  import opened Lists
  import opened Rounding
  import opened Vmm
  import opened VmmTables
  import PageTable
  import MapRoom
  import Pmm

  // ---- pages and regions ----

  ghost predicate PagesOk(s: seq<Pmm.Arena>, rs: seq<Region>) {
    && (forall i | 0 <= i < |rs| :: PagesOut(s, rs[i].pages))
    && (forall i, j | 0 <= i < j < |rs| :: Disjoint(rs[i].pages, rs[j].pages))
  }

  // Distinct pages, all handed out.
  ghost predicate PagesOut(s: seq<Pmm.Arena>, l: seq<nat>) {
    Pmm.NoneFree(s, l) && forall p | p in l :: Pmm.Owned(s, p)
  }

  predicate Disjoint(l: seq<nat>, k: seq<nat>) {
    forall p | p in l :: p !in k
  }

  lemma JoinPages(s: seq<Pmm.Arena>, lo: seq<Region>, r: Region, hi: seq<Region>)
    requires PagesOk(s, lo) && PagesOk(s, hi) && PagesOut(s, r.pages)
    requires forall i, j | 0 <= i < |lo| && 0 <= j < |hi| :: Disjoint(lo[i].pages, hi[j].pages)
    requires forall i | 0 <= i < |lo| :: Disjoint(lo[i].pages, r.pages)
    requires forall i | 0 <= i < |hi| :: Disjoint(r.pages, hi[i].pages)
    ensures PagesOk(s, lo + [r] + hi)
  {
    hide PagesOut, Disjoint;
  }

  // Pages that a region keeps, out of the free lists, are not given to another.
  lemma InsertPages(s: seq<Pmm.Arena>, rs: seq<Region>, r: Region)
    requires Pmm.Inv(s) && PagesOk(s, rs) && Pmm.AllFree(s, r.pages)
    ensures PagesOk(Pmm.TakeAll(s, r.pages), Insert(rs, r))
  {
    hide Pmm.Inv, Spot, Pmm.IsFree, Pmm.TakeAll, Pmm.Owner;
    var t, k := Pmm.TakeAll(s, r.pages), Spot(rs, r.base);
    forall p | Pmm.Owned(s, p) ensures Pmm.Owned(t, p) { Pmm.SameOwner(s, t, p); }
    forall p | p in r.pages ensures Pmm.Owned(t, p) && !Pmm.IsFree(t, p) {
      Pmm.FreeIsOwned(s, p);
    }
    assert forall i | 0 <= i < |rs| ::
      PagesOut(s, rs[i].pages) && PagesOut(t, rs[i].pages) && Disjoint(rs[i].pages, r.pages);
    assert forall i | 0 <= i < |rs| :: Disjoint(r.pages, rs[i].pages);
    JoinPages(t, rs[..k], r, rs[k..]);
  }

  lemma CutPages(s: seq<Pmm.Arena>, rs: seq<Region>, i: nat)
    requires Pmm.Inv(s) && PagesOk(s, rs) && i < |rs|
    ensures PagesOk(Pmm.GiveAll(s, rs[i].pages), Cut(rs, i))
  {
    hide Pmm.Inv, Pmm.IsFree, Pmm.GiveAll, Pmm.Owner;
    var t := Pmm.GiveAll(s, rs[i].pages);
    forall p | Pmm.Owned(s, p) ensures Pmm.Owned(t, p) { Pmm.SameOwner(s, t, p); }
    forall j | 0 <= j < |rs| && j != i
      ensures PagesOut(t, rs[j].pages)
    {
      assert PagesOut(s, rs[j].pages) && Disjoint(rs[if i < j then i else j].pages, rs[if i < j then j else i].pages);
    }
  }

  lemma SamePages(s: seq<Pmm.Arena>, t: seq<Pmm.Arena>, rs: seq<Region>)
    requires PagesOk(s, rs) && Pmm.SameSpans(s, t) && forall p :: Pmm.IsFree(s, p) <==> Pmm.IsFree(t, p)
    ensures PagesOk(t, rs)
  {
    hide Pmm.IsFree, Pmm.Owner;
    forall p | Pmm.Owned(s, p) ensures Pmm.Owned(t, p) { Pmm.SameOwner(s, t, p); }
    assert forall i | 0 <= i < |rs| :: PagesOut(s, rs[i].pages) && PagesOut(t, rs[i].pages);
  }

  ghost predicate SameFree(s: seq<Pmm.Arena>, t: seq<Pmm.Arena>) {
    Pmm.SameSpans(s, t) && forall p :: Pmm.IsFree(s, p) <==> Pmm.IsFree(t, p)
  }

  // Two lists that together are what was taken put every free list back, up to order.
  lemma GivesBack(s: seq<Pmm.Arena>, l: seq<nat>, a: seq<nat>, b: seq<nat>)
    requires Pmm.Inv(s) && Pmm.AllFree(s, l) && NoDups(a) && NoDups(b) && Disjoint(a, b)
    requires forall p :: p in l <==> p in a || p in b
    ensures var t := Pmm.TakeAll(s, l);
      && Pmm.NoneFree(t, a) && Pmm.NoneFree(Pmm.GiveAll(t, a), b)
      && SameFree(s, Pmm.GiveAll(Pmm.GiveAll(t, a), b)) && Pmm.Inv(Pmm.GiveAll(Pmm.GiveAll(t, a), b))
  {
    hide Pmm.Inv, Pmm.IsFree, Pmm.TakeAll, Pmm.GiveAll, Pmm.Owner;
    var t := Pmm.TakeAll(s, l);
    assert Pmm.NoneFree(t, a);
    var u := Pmm.GiveAll(t, a);
    assert Pmm.NoneFree(u, b);
    forall p
      ensures Pmm.Owned(s, p) <==> Pmm.Owned(t, p)
      ensures Pmm.Owned(s, p) <==> Pmm.Owned(u, p)
    {
      Pmm.SameOwner(s, t, p);
      Pmm.SameOwner(s, u, p);
    }
    assert forall p | p in l :: Pmm.IsFree(s, p);
    forall p | p in l ensures Pmm.Owned(s, p) { Pmm.FreeIsOwned(s, p); }
  }

  // ---- regions and leaves ----

  predicate Holds(r: Region, e: PageTable.Extent) {
    r.base <= e.start && e.start + e.size <= r.base + r.size
  }

  predicate Held(rs: seq<Region>, e: PageTable.Extent) {
    exists i | 0 <= i < |rs| :: Holds(rs[i], e)
  }

  // Every leaf of the tables lies in one region.
  ghost predicate Covered(rs: seq<Region>, t: Tables)
    requires Good(t)
  {
    forall v: nat | LeafAt(t, v).Some? :: Held(rs, LeafAt(t, v).value)
  }

  // In a space whose leaves all lie in regions, the room given to a new region holds none.
  lemma RoomIsUnmapped(rs: seq<Region>, t: Tables, va: nat, size: nat)
    requires Good(t) && Covered(rs, t) && Clear(rs, va, size)
    ensures Vacant(t, va, size)
  {
    hide LeafAt, PageTable.Formed;
    forall v: nat | va <= v < va + size
      ensures LeafAt(t, v) == None
    {
      if LeafAt(t, v).Some? {
        LeafIs(t, v, v);
      }
    }
  }

  // Unmapping one of the regions cuts no leaf, so it removes exactly that region's translations.
  lemma RegionIsUncut(a: Aspace, rs: seq<Region>, t: Tables, i: nat)
    requires Good(t) && Covered(rs, t) && ListOk(a, rs) && i < |rs|
    ensures Uncut(t, rs[i].base, rs[i].size)
  {
    hide LeafAt, PageTable.Formed;
    forall v: nat | rs[i].base <= v < rs[i].base + rs[i].size && LeafAt(t, v).Some?
      ensures Holds(rs[i], LeafAt(t, v).value)
    {
      LeafIs(t, v, v);
      assert Held(rs, LeafAt(t, v).value);
      var j :| 0 <= j < |rs| && Holds(rs[j], LeafAt(t, v).value);
      assert i == j;
    }
  }

  lemma CutCovered(a: Aspace, rs: seq<Region>, t: Tables, i: nat)
    requires Good(t) && Covered(rs, t) && ListOk(a, rs) && i < |rs| && InSpan(t, rs[i].base, rs[i].size)
    requires IsPaged(rs[i].base)
    ensures var u := ArchUnmap(t, rs[i].base, rs[i].size); Good(u) && Covered(Cut(rs, i), u)
  {
    hide LeafAt, PageTable.Formed, ArchUnmap, InSpan, ListOk;
    var u := ArchUnmap(t, rs[i].base, rs[i].size);
    UnmapLeaf(t, rs[i].base, rs[i].size, 0);
    RegionIsUncut(a, rs, t, i);
    forall v: nat | LeafAt(u, v).Some?
      ensures Held(Cut(rs, i), LeafAt(u, v).value)
    {
      UnmapLeaf(t, rs[i].base, rs[i].size, v);
      TouchIs(t, rs[i].base, rs[i].size, v);
      LeafIs(t, v, v);
      assert Held(rs, LeafAt(t, v).value);
      var j :| 0 <= j < |rs| && Holds(rs[j], LeafAt(t, v).value);
      assert Cut(rs, i)[if j < i then j else j - 1] == rs[j];
    }
  }

  // ---- pages mapped in a row ----

  // x and x' are the leaves of address v before and after the pages l were mapped from va on.
  predicate Shown(s: seq<Pmm.Arena>, x: Option<PageTable.Extent>, x': Option<PageTable.Extent>, va: nat, l: seq<nat>,
                  flags: nat, v: nat) {
    if !(va <= v < va + |l| * PAGE_SIZE) then x' == x
    else
      && x == None && x'.Some? && va <= x'.value.start <= v < x'.value.start + x'.value.size <= va + |l| * PAGE_SIZE
      && x'.value.pa + (v - x'.value.start) == Pmm.AddressOf(s, l[(v - va) / PAGE_SIZE]) + (v - va) % PAGE_SIZE
      && x'.value.attrs == flags
  }

  // Byte k of the range translates to byte k % PAGE_SIZE of page k / PAGE_SIZE of l, and no other leaf changes.
  ghost predicate Backed(s: seq<Pmm.Arena>, t: Tables, u: Tables, va: nat, l: seq<nat>, flags: nat)
    requires Good(t) && Good(u)
  {
    forall v: nat :: Shown(s, LeafAt(t, v), LeafAt(u, v), va, l, flags, v)
  }

  // Pages in a row in physical memory.
  predicate Consecutive(s: seq<Pmm.Arena>, l: seq<nat>) {
    forall i | 0 <= i < |l| :: Pmm.AddressOf(s, l[i]) == Pmm.AddressOf(s, l[0]) + i * PAGE_SIZE
  }

  // One mapping of a run maps its pages.
  lemma RunBacked(s: seq<Pmm.Arena>, t: Tables, va: nat, l: seq<nat>, flags: nat, pages: nat)
    requires Good(t) && l != [] && Consecutive(s, l)
    ensures var r := ArchMap(t, va, Pmm.AddressOf(s, l[0]), |l| * PAGE_SIZE, flags, pages);
      && Good(r.t) && SameShape(t, r.t) && (r.ok ==> IsPaged(va))
      && (if r.ok then Backed(s, t, r.t, va, l, flags) else Backed(s, t, r.t, va, [], flags))
  {
    hide Pmm.AddressOf, LeafAt, PageTable.Formed, ArchMap;
    var r := ArchMap(t, va, Pmm.AddressOf(s, l[0]), |l| * PAGE_SIZE, flags, pages);
    MapLeaf(t, va, Pmm.AddressOf(s, l[0]), |l| * PAGE_SIZE, flags, pages, 0);
    forall v: nat
      ensures Shown(s, LeafAt(t, v), LeafAt(r.t, v), va, if r.ok then l else [], flags, v)
    {
      MapLeaf(t, va, Pmm.AddressOf(s, l[0]), |l| * PAGE_SIZE, flags, pages, v);
      if r.ok { RunShown(s, LeafAt(t, v), LeafAt(r.t, v), va, l, flags, v); }
    }
  }

  lemma RunShown(s: seq<Pmm.Arena>, x: Option<PageTable.Extent>, x': Option<PageTable.Extent>, va: nat, l: seq<nat>,
                 flags: nat, v: nat)
    requires l != [] && Consecutive(s, l) && Pmm.AddressOf(s, l[0]) >= 0
    requires PageTable.Laid(x, x', va, va + |l| * PAGE_SIZE, Pmm.AddressOf(s, l[0]), flags, v)
    ensures Shown(s, x, x', va, l, flags, v)
  {
    hide Pmm.AddressOf;
    var i := (v - va) / PAGE_SIZE;
    assert 0 <= i < |l| ==> Pmm.AddressOf(s, l[i]) == Pmm.AddressOf(s, l[0]) + i * PAGE_SIZE;
  }

  // The mapping loop of vmm_alloc.
  function MapEach(s: seq<Pmm.Arena>, t: Tables, va: nat, l: seq<nat>, flags: nat, pages: nat): (r: Attempt)
    requires PageTable.Sane(t.y)
    ensures PageTable.Sane(r.t.y)
    decreases |l|
  {
    if l == [] then Attempt(t, pages, true)
    else
      var n := |l| - 1;
      var r := MapEach(s, t, va, l[..n], flags, pages);
      if !r.ok then r else ArchMap(r.t, va + n * PAGE_SIZE, Pmm.AddressOf(s, l[n]), PAGE_SIZE, flags, r.pages)
  }

  lemma {:induction false} EachStops(s: seq<Pmm.Arena>, t: Tables, va: nat, l: seq<nat>, k: nat, flags: nat, pages: nat)
    requires PageTable.Sane(t.y) && k <= |l| && !MapEach(s, t, va, l[..k], flags, pages).ok
    ensures !MapEach(s, t, va, l, flags, pages).ok
    decreases |l|
  {
    hide ArchMap, Pmm.AddressOf;
    if k < |l| {
      assert l[..|l| - 1][..k] == l[..k];
      EachStops(s, t, va, l[..|l| - 1], k, flags, pages);
    } else {
      assert l[..k] == l;
    }
  }

  // One page more.
  lemma BackedNext(s: seq<Pmm.Arena>, t: Tables, u: Tables, va: nat, l: seq<nat>, k: nat, flags: nat, pages: nat)
    requires Good(t) && Good(u) && k < |l| && Backed(s, t, u, va, l[..k], flags)
    ensures var r := ArchMap(u, va + k * PAGE_SIZE, Pmm.AddressOf(s, l[k]), PAGE_SIZE, flags, pages);
      && Good(r.t) && SameShape(u, r.t) && (r.ok ==> IsPaged(va))
      && Backed(s, t, r.t, va, if r.ok then l[..k + 1] else l[..k], flags)
  {
    hide Pmm.AddressOf, LeafAt, PageTable.Formed, ArchMap, Shown;
    var at, pa := va + k * PAGE_SIZE, Pmm.AddressOf(s, l[k]);
    var r := ArchMap(u, at, pa, PAGE_SIZE, flags, pages);
    MapLeaf(u, at, pa, PAGE_SIZE, flags, pages, 0);
    forall v: nat
      ensures Shown(s, LeafAt(t, v), LeafAt(r.t, v), va, if r.ok then l[..k + 1] else l[..k], flags, v)
    {
      MapLeaf(u, at, pa, PAGE_SIZE, flags, pages, v);
      if r.ok { ShownNext(s, LeafAt(t, v), LeafAt(u, v), LeafAt(r.t, v), va, l, k, flags, v); }
    }
  }

  lemma ShownNext(s: seq<Pmm.Arena>, x: Option<PageTable.Extent>, x1: Option<PageTable.Extent>,
                  x2: Option<PageTable.Extent>,
                  va: nat, l: seq<nat>, k: nat, flags: nat, v: nat)
    requires k < |l| && Shown(s, x, x1, va, l[..k], flags, v) && Pmm.AddressOf(s, l[k]) >= 0
    requires PageTable.Laid(x1, x2, va + k * PAGE_SIZE, va + k * PAGE_SIZE + PAGE_SIZE,
      Pmm.AddressOf(s, l[k]), flags, v)
    ensures Shown(s, x, x2, va, l[..k + 1], flags, v)
  {
    hide Pmm.AddressOf;
    if va <= v < va + k * PAGE_SIZE { assert (v - va) / PAGE_SIZE < k; }
    if va + k * PAGE_SIZE <= v < va + k * PAGE_SIZE + PAGE_SIZE { assert (v - va) / PAGE_SIZE == k; }
  }

  // With a table to spare for each page and level, the loop maps all its pages exactly when none of the range is
  // mapped.
  lemma {:induction false} EachExactly(s: seq<Pmm.Arena>, t: Tables, va: nat, l: seq<nat>, flags: nat, pages: nat)
    requires Good(t) && IsPaged(va) && InSpan(t, va, |l| * PAGE_SIZE)
    requires forall p | p in l :: Pmm.AddressOf(s, p) >= 0 && IsPaged(Pmm.AddressOf(s, p))
    ensures var r := MapEach(s, t, va, l, flags, pages);
      && Good(r.t) && SameShape(t, r.t) && (r.ok ==> Vacant(t, va, |l| * PAGE_SIZE) && Backed(s, t, r.t, va, l, flags))
      && (Vacant(t, va, |l| * PAGE_SIZE) && pages >= |l| * t.top ==> r.ok && r.pages >= pages - |l| * t.top)
    decreases |l|
  {
    hide Pmm.AddressOf, LeafAt, PageTable.Formed, ArchMap, Shown, Limit;
    if l != [] {
      var n := |l| - 1;
      var q := MapEach(s, t, va, l[..n], flags, pages);
      EachExactly(s, t, va, l[..n], flags, pages);
      assert |l| * t.top == n * t.top + t.top;
      if q.ok {
        var at := va + n * PAGE_SIZE;
        BackedNext(s, t, q.t, va, l, n, flags, q.pages);
        assert l[..n + 1] == l;
        LimitKept(t, q.t);
        MapPageExactly(q.t, at, Pmm.AddressOf(s, l[n]), flags, q.pages);
        ShownAt(s, t, q.t, va, l[..n], flags, at);
        var r := MapEach(s, t, va, l, flags, pages);
        if r.ok { BackedVacant(s, t, r.t, va, l, flags); }
      }
    } else {
      BackedNone(s, t, va, flags);
    }
  }

  lemma ShownAt(s: seq<Pmm.Arena>, t: Tables, u: Tables, va: nat, l: seq<nat>, flags: nat, v: nat)
    requires Good(t) && Good(u) && Backed(s, t, u, va, l, flags) && v >= va + |l| * PAGE_SIZE
    ensures LeafAt(u, v) == LeafAt(t, v)
  {
    hide LeafAt;
    assert Shown(s, LeafAt(t, v), LeafAt(u, v), va, l, flags, v);
  }

  lemma BackedVacant(s: seq<Pmm.Arena>, t: Tables, u: Tables, va: nat, l: seq<nat>, flags: nat)
    requires Good(t) && Good(u) && Backed(s, t, u, va, l, flags)
    ensures Vacant(t, va, |l| * PAGE_SIZE)
  {
    hide LeafAt;
    forall v: nat | va <= v < va + |l| * PAGE_SIZE
      ensures LeafAt(t, v) == None
    {
      assert Shown(s, LeafAt(t, v), LeafAt(u, v), va, l, flags, v);
    }
  }

  lemma BackedNone(s: seq<Pmm.Arena>, t: Tables, va: nat, flags: nat)
    requires Good(t)
    ensures Backed(s, t, t, va, [], flags)
  {
  }

  lemma LimitKept(t: Tables, u: Tables)
    requires PageTable.Sane(t.y) && SameShape(t, u)
    ensures Limit(u) == Limit(t)
  {
  }

  // Unmapping the whole range undoes what was mapped in it and takes what was there before too.
  lemma UnmapBacked(s: seq<Pmm.Arena>, t: Tables, u: Tables, va: nat, size: nat, l: seq<nat>, flags: nat, v: nat)
    requires Good(t) && Good(u) && SameShape(t, u) && Backed(s, t, u, va, l, flags) && |l| * PAGE_SIZE <= size
    requires InSpan(t, va, size) && (l != [] ==> IsPaged(va))
    ensures var w := ArchUnmap(u, va, size);
      Good(w) && SameShape(t, w) && LeafAt(w, v) == LeafAt(ArchUnmap(t, va, size), v)
  {
    hide Pmm.AddressOf, LeafAt, PageTable.Formed, ArchUnmap, Limit;
    LimitKept(t, u);
    UnmapLeaf(t, va, size, v);
    UnmapLeaf(u, va, size, v);
    assert Shown(s, LeafAt(t, v), LeafAt(u, v), va, l, flags, v);
  }

  lemma InsertCovered(s: seq<Pmm.Arena>, rs: seq<Region>, t: Tables, u: Tables, r: Region, flags: nat)
    requires Good(t) && Good(u) && Covered(rs, t) && r.size == |r.pages| * PAGE_SIZE
    requires Backed(s, t, u, r.base, r.pages, flags)
    ensures Covered(Insert(rs, r), u)
  {
    hide Spot, LeafAt, PageTable.Formed, Pmm.AddressOf;
    var w, k := Insert(rs, r), Spot(rs, r.base);
    forall v: nat | LeafAt(u, v).Some?
      ensures Held(w, LeafAt(u, v).value)
    {
      assert Shown(s, LeafAt(t, v), LeafAt(u, v), r.base, r.pages, flags, v);
      if r.base <= v < r.base + r.size {
        assert w[k] == r;
      } else {
        assert Held(rs, LeafAt(t, v).value);
        var i :| 0 <= i < |rs| && Holds(rs[i], LeafAt(t, v).value);
        assert w[if i < k then i else i + 1] == rs[i];
      }
    }
  }

  // ---- the whole space ----

  predicate InRange(v: nat, va: nat, size: nat) {
    va <= v < va + size
  }

  predicate Covers(rs: seq<Region>, v: nat) {
    exists i | 0 <= i < |rs| :: InRange(v, rs[i].base, rs[i].size)
  }

  predicate OnPages(rs: seq<Region>) {
    forall i | 0 <= i < |rs| :: IsPaged(rs[i].base)
  }

  predicate Spans(s: seq<Pmm.Arena>) {
    forall k | 0 <= k < |s| :: Pmm.SpanOk(s[k])
  }

  ghost predicate SpaceOk(a: Aspace, rs: seq<Region>, s: seq<Pmm.Arena>, t: Tables) {
    && AspaceOk(a) && ListOk(a, rs) && OnPages(rs) && Pmm.Inv(s) && Spans(s) && PagesOk(s, rs)
    && Good(t) && InSpan(t, a.base, a.size)
  }

  lemma SpansKept(s: seq<Pmm.Arena>, t: seq<Pmm.Arena>)
    requires Spans(s) && Pmm.SameSpans(s, t)
    ensures Spans(t)
  {
    forall k | 0 <= k < |t| ensures Pmm.SpanOk(t[k]) { assert Pmm.SpanOk(s[k]) && Pmm.SameSpan(s[k], t[k]); }
  }

  lemma AddressPaged(s: seq<Pmm.Arena>, p: nat)
    requires Spans(s) && Pmm.Owned(s, p)
    ensures Pmm.AddressOf(s, p) >= 0 && IsPaged(Pmm.AddressOf(s, p))
  {
    var k := Pmm.Owner(s, p);
    assert Pmm.SpanOk(s[k]) && Pmm.Holds(s[k], p);
  }

  // The region found at its own base is that region, and deleting it undoes the insertion.
  lemma InsertCut(a: Aspace, rs: seq<Region>, r: Region, i: nat)
    requires ListOk(a, Insert(rs, r)) && i < |Insert(rs, r)|
    requires InRange(r.base, Insert(rs, r)[i].base, Insert(rs, r)[i].size)
    ensures Insert(rs, r)[i] == r && Cut(Insert(rs, r), i) == rs
  {
    hide Spot;
    var s, k := Insert(rs, r), Spot(rs, r.base);
    assert s[k] == r && i == k;
  }

  // The arguments vmm_alloc refuses.
  predicate BadArgs(bytes: nat, ptr: bool, specific: bool) {
    RoundUp64(bytes, PAGE_SIZE) == 0 || (specific && !ptr)
  }

  // pmm_alloc_pages takes its count as 32 bits.
  predicate Enough(s: seq<Pmm.Arena>, n: nat) {
    n < U32 && n <= |Pmm.FreePages(s)|
  }

  // There is a region structure, memory for n pages, and room for them.
  ghost predicate Possible(a: Aspace, rs: seq<Region>, s: seq<Pmm.Arena>, n: nat, specific: bool, vaddr: nat,
                             shift: nat, node: bool) {
    node && Enough(s, n) && Placeable(a, rs, n * PAGE_SIZE, specific, vaddr, shift)
  }

  ghost predicate RunPossible(a: Aspace, rs: seq<Region>, s: seq<Pmm.Arena>, n: nat, specific: bool, vaddr: nat,
                                shift: nat, node: bool) {
    node && HasRun(s, n, shift) && Placeable(a, rs, n * PAGE_SIZE, specific, vaddr, shift)
  }

  ghost predicate Placeable(a: Aspace, rs: seq<Region>, size: nat, specific: bool, vaddr: nat, shift: nat) {
    exists base: nat :: Granted(a, rs, size, specific, vaddr, shift, base)
  }

  // What a failing allocation leaves of the tables: those it found, or those less what unmapping its range takes.
  ghost predicate Undone(a: Aspace, rs: seq<Region>, t: Tables, u: Tables, size: nat, specific: bool, vaddr: nat,
                         shift: nat, tried: Option<nat>)
    requires Good(t)
  {
    match tried
    case None => u == t
    case Some(base) => Granted(a, rs, size, specific, vaddr, shift, base) && SameLeaves(ArchUnmap(t, base, size), u)
  }

  class Space {
    const a: Aspace
    const pmm: Pmm.Allocator
    var regions: seq<Region>
    var tables: Tables

    constructor (space: Aspace, pages: Pmm.Allocator, t: Tables)
      requires AspaceOk(space) && Pmm.Inv(pages.arenas) && Spans(pages.arenas)
      requires Good(t) && PageTable.Clear(t.kids) && InSpan(t, space.base, space.size)
      ensures Valid() && pmm == pages && a == space && regions == [] && tables == t && Covered(regions, tables)
    {
      a, pmm, regions, tables := space, pages, [], t;
      ClearLeaves(t);
    }

    ghost predicate Valid()
      reads this, pmm
    {
      SpaceOk(a, regions, pmm.arenas, tables)
    }

    method FindRegion(vaddr: nat) returns (i: nat)
      ensures i <= |regions| && (i < |regions| ==> InRange(vaddr, regions[i].base, regions[i].size))
      ensures forall j | 0 <= j < i :: !InRange(vaddr, regions[j].base, regions[j].size)
    {
      i := 0;
      while i < |regions| && !InRange(vaddr, regions[i].base, regions[i].size)
        invariant i <= |regions|
        invariant forall j | 0 <= j < i :: !InRange(vaddr, regions[j].base, regions[j].size)
      {
        i := i + 1;
      }
    }

    // vmm_remove_region_locked
    method RemoveRegionLocked(vaddr: nat) returns (r: Option<Region>, ghost i: nat)
      requires PageTable.Sane(tables.y)
      modifies this
      ensures r.None? ==> regions == old(regions) && tables == old(tables) && !Covers(old(regions), vaddr)
      ensures r.Some? ==> i < |old(regions)| && r.value == old(regions)[i] && InRange(vaddr, r.value.base, r.value.size)
      ensures r.Some? ==>
        regions == Cut(old(regions), i) && tables == ArchUnmap(old(tables), r.value.base, r.value.size)
    {
      var k := FindRegion(vaddr);
      i := k;
      if k == |regions| { return None, k; }
      r := Some(regions[k]);
      regions := Cut(regions, k);
      tables := ArchUnmap(tables, r.value.base, r.value.size);
    }

    // vmm_free_region takes out one region and returns its pages. Its unmap removes exactly the region's translations
    // when every leaf lies in a region.
    method FreeRegion(vaddr: nat) returns (st: Status, ghost i: nat)
      requires Valid()
      modifies this, pmm
      ensures Valid()
      ensures st == Ok <==> Covers(old(regions), vaddr)
      ensures st == Ok || st == NotFound
      ensures st == NotFound ==> regions == old(regions) && tables == old(tables) && pmm.arenas == old(pmm.arenas)
      ensures st == Ok ==> i < |old(regions)| && regions == Cut(old(regions), i)
      ensures st == Ok ==> var r := old(regions)[i];
        && InRange(vaddr, r.base, r.size) && tables == ArchUnmap(old(tables), r.base, r.size)
        && (forall p :: Pmm.IsFree(pmm.arenas, p) <==> Pmm.IsFree(old(pmm.arenas), p) || p in r.pages)
      ensures Covered(old(regions), old(tables)) ==> Covered(regions, tables)
      ensures st == Ok && Covered(old(regions), old(tables)) ==> forall v: nat ::
        At(tables, v) == if InRange(v, old(regions)[i].base, old(regions)[i].size) then None else At(old(tables), v)
    {
      hide Pmm.IsFree, Pmm.GiveAll, Pmm.NoneFree, Covered, SpaceOk, PageTable.Formed, ArchUnmap, LeafAt;
      ghost var rs, t, s := regions, tables, pmm.arenas;
      SpaceFacts(a, rs, s, t);
      var r: Option<Region>;
      r, i := RemoveRegionLocked(vaddr);
      if r.None? { return NotFound, i; }
      RegionFreed(a, s, rs, t, i);
      var n := pmm.Free(r.value.pages);
      st := Ok;
    }

    // The mapping loop of vmm_alloc; k pages are mapped.
    method MapAll(base: nat, l: seq<nat>, flags: nat, budget: nat) returns (k: nat)
      requires Good(tables)
      modifies `tables
      ensures k <= |l| && Good(tables) && SameShape(old(tables), tables)
      ensures Backed(pmm.arenas, old(tables), tables, base, l[..k], flags) && (k > 0 ==> IsPaged(base))
      ensures k == |l| <==> MapEach(pmm.arenas, old(tables), base, l, flags, budget).ok
    {
      hide MapEach, ArchMap, PageTable.Formed, LeafAt, Backed, Pmm.AddressOf;
      ghost var s, t := pmm.arenas, tables;
      k := 0;
      var va, left := base, budget;
      BackedNone(s, t, base, flags);
      EachNone(s, t, base, l, flags, budget);
      while k < |l|
        invariant k <= |l| && va == base + k * PAGE_SIZE && Good(tables) && SameShape(t, tables)
        invariant k > 0 ==> IsPaged(base)
        invariant Backed(s, t, tables, base, l[..k], flags)
        invariant MapEach(s, t, base, l[..k], flags, budget) == Attempt(tables, left, true)
      {
        BackedNext(s, t, tables, base, l, k, flags, left);
        EachNext(s, t, base, l, k, flags, budget);
        GoodFacts(tables);
        var r := ArchMap(tables, va, Pmm.AddressOf(pmm.arenas, l[k]), PAGE_SIZE, flags, left);
        tables := r.t;
        if !r.ok {
          EachStops(s, t, base, l, k + 1, flags, budget);
          return;
        }
        va, left, k := va + PAGE_SIZE, r.pages, k + 1;
      }
      assert l[..k] == l;
    }

    // vmm_alloc: all or nothing, and which. tried is where the region was when the mapping failed; budget is how many
    // page tables can be had.
    method Alloc(bytes: nat, ptr: bool, vaddr: nat, alignPow2: nat, specific: bool, flags: nat, node: bool, budget: nat)
      returns (st: Status, base: nat, ghost l: seq<nat>, ghost tried: Option<nat>)
      requires Valid() && bytes < WORD && vaddr < WORD && alignPow2 < 64
      modifies this, pmm
      ensures Valid()
      ensures st == InvalidArgs <==> BadArgs(bytes, ptr, specific)
      ensures st == NoMemory <==>
        && !BadArgs(bytes, ptr, specific)
        && !Possible(a, old(regions), old(pmm.arenas), PagesFor(bytes), specific, vaddr, Pmm.Shift(alignPow2), node)
      ensures st == Ok || st == MapFailed || st == NoMemory || st == InvalidArgs
      ensures st == Ok || st == MapFailed ==>
        Pmm.AllFree(old(pmm.arenas), l) && PagesFor(bytes) <= |Pmm.FreePages(old(pmm.arenas))| &&
          l == Pmm.FreePages(old(pmm.arenas))[..PagesFor(bytes)]
      ensures st == Ok ==> pmm.arenas == Pmm.TakeAll(old(pmm.arenas), l)
      ensures st == Ok ==> Granted(a, old(regions), |l| * PAGE_SIZE, specific, vaddr, Pmm.Shift(alignPow2), base)
      ensures st == Ok ==> regions == Insert(old(regions), Region(base, |l| * PAGE_SIZE, flags, l))
      ensures st == Ok ==> Backed(pmm.arenas, old(tables), tables, base, l, flags)
      ensures st == Ok ==> MapEach(Pmm.TakeAll(old(pmm.arenas), l), old(tables), base, l, flags, budget).ok
      ensures st != Ok ==> regions == old(regions) && SameFree(old(pmm.arenas), pmm.arenas)
      ensures st != Ok ==>
        var size, shift := PagesFor(bytes) * PAGE_SIZE, Pmm.Shift(alignPow2);
        Undone(a, old(regions), old(tables), tables, size, specific, vaddr, shift, tried)
      ensures tried.Some? <==> st == MapFailed
      ensures st == MapFailed ==>
        !MapEach(Pmm.TakeAll(old(pmm.arenas), l), old(tables), tried.value, l, flags, budget).ok
      ensures Covered(old(regions), old(tables)) ==> Covered(regions, tables)
      ensures st != Ok && Covered(old(regions), old(tables)) ==> SameLeaves(old(tables), tables)
      ensures st == MapFailed && Covered(old(regions), old(tables)) ==>
        (specific && !IsPaged(vaddr)) || budget < PagesFor(bytes) * old(tables).top
    {
      hide SpaceOk, Pmm.NoneFree, Pmm.AllFree, Pmm.IsFree, Pmm.GiveAll, Pmm.TakeAll, Pmm.FreePages, PagesOk;
      hide Covered, MapEach, Granted, Insert, SameFree, RoundUp64, Undone, Backed, PageTable.Formed, SameLeaves;
      hide Placeable;
      ghost var s := pmm.arenas;
      l, tried, base := [], None, 0;
      SpaceFacts(a, regions, s, tables);
      UndoneNone(a, regions, tables, PagesFor(bytes) * PAGE_SIZE, specific, vaddr, Pmm.Shift(alignPow2));
      SameFreeSelf(s);
      var size := RoundUp64(bytes, PAGE_SIZE);
      if size == 0 { return InvalidArgs, 0, l, tried; }
      if specific && !ptr { return InvalidArgs, 0, l, tried; }
      RoundUp64IsPages(bytes);
      var pages := pmm.AllocPages(size / PAGE_SIZE % U32);
      l := pages;
      TakenKeeps(a, s, pages, regions, tables);
      if |pages| < size / PAGE_SIZE {
        var n := pmm.Free(pages);
        return NoMemory, 0, l, tried;
      }
      assert Pmm.FreePages(s)[..|pages|] == pages;
      st, base, tried := AllocMapped(size, vaddr, alignPow2, specific, flags, node, budget, pages, s);
    }

    // vmm_alloc once it has its pages.
    method AllocMapped(size: nat, vaddr: nat, alignPow2: nat, specific: bool, flags: nat, node: bool, budget: nat,
                       pages: seq<nat>, ghost s: seq<Pmm.Arena>)
      returns (st: Status, base: nat, ghost tried: Option<nat>)
      requires SpaceOk(a, regions, s, tables) && Pmm.AllFree(s, pages) && pmm.arenas == Pmm.TakeAll(s, pages)
      requires size == |pages| * PAGE_SIZE && 0 < size < WORD && vaddr < WORD && alignPow2 < 64
      modifies this, pmm
      ensures Valid()
      ensures st == Ok || st == MapFailed || st == NoMemory
      ensures st == NoMemory <==> !(node && Placeable(a, old(regions), size, specific, vaddr, Pmm.Shift(alignPow2)))
      ensures st == Ok ==> pmm.arenas == old(pmm.arenas)
      ensures st == Ok ==> Granted(a, old(regions), size, specific, vaddr, Pmm.Shift(alignPow2), base)
      ensures st == Ok ==> regions == Insert(old(regions), Region(base, size, flags, pages))
      ensures st == Ok ==> Backed(pmm.arenas, old(tables), tables, base, pages, flags)
      ensures st == Ok ==> MapEach(old(pmm.arenas), old(tables), base, pages, flags, budget).ok
      ensures st != Ok ==> regions == old(regions) && SameFree(s, pmm.arenas)
      ensures st != Ok ==>
        Undone(a, old(regions), old(tables), tables, size, specific, vaddr, Pmm.Shift(alignPow2), tried)
      ensures tried.Some? <==> st == MapFailed
      ensures st == MapFailed ==> !MapEach(old(pmm.arenas), old(tables), tried.value, pages, flags, budget).ok
      ensures Covered(old(regions), old(tables)) ==> Covered(regions, tables)
      ensures st != Ok && Covered(old(regions), old(tables)) ==> SameLeaves(old(tables), tables)
      ensures st == MapFailed && Covered(old(regions), old(tables)) ==>
        (specific && !IsPaged(vaddr)) || budget < |pages| * old(tables).top
    {
      hide SpaceOk, Pmm.NoneFree, Pmm.AllFree, Pmm.IsFree, Pmm.GiveAll, Pmm.TakeAll, PagesOk;
      hide Covered, MapEach, Granted, Insert, SameFree, Undone, Backed, PageTable.Formed, ArchUnmap, SameLeaves;
      ghost var rs, t := regions, tables;
      base, tried := 0, None;
      SpaceFacts(a, rs, s, t);
      TakenKeeps(a, s, pages, rs, t);
      UndoneNone(a, rs, t, size, specific, vaddr, Pmm.Shift(alignPow2));
      var r;
      r, regions := AllocRegion(a, regions, size, vaddr, alignPow2, specific, flags, node);
      if r.None? {
        var n := pmm.Free(pages);
        return NoMemory, 0, tried;
      }
      base := r.value.base;
      CoveredMaps(a, s, rs, t, pages, flags, specific, vaddr, Pmm.Shift(alignPow2), base, budget);
      var k := MapAll(base, pages, flags, budget);
      if k == |pages| {
        assert pages[..k] == pages;
        AllocKeeps(a, s, rs, t, tables, r.value, pages, flags);
        KeepPages(base, pages, rs, r.value);
        return Ok, base, tried;
      }
      LateFailure(a, s, rs, t, tables, r.value, pages, k, flags, specific, vaddr, Pmm.Shift(alignPow2));
      tried := Some(base);
      var region, _ := RemoveRegionLocked(base);
      var n := pmm.Free(pages[..k]);
      n := pmm.Free(pages[k + 1..] + [pages[k]]);
      st := MapFailed;
    }

    // vmm_alloc_contiguous: all or nothing, with one mapping of the whole range.
    method AllocContiguous(bytes: nat, ptr: bool, vaddr: nat, alignPow2: nat, specific: bool, flags: nat, node: bool,
                           budget: nat)
      returns (st: Status, base: nat, ghost l: seq<nat>, ghost tried: Option<nat>)
      requires Valid() && bytes < WORD && vaddr < WORD && alignPow2 < 64
      requires PagesFor(bytes) < U32 && Pmm.FitsAll(pmm.arenas, PagesFor(bytes), Pmm.Shift(alignPow2))
      modifies this, pmm
      ensures Valid()
      ensures st == InvalidArgs <==> BadArgs(bytes, ptr, specific)
      ensures st == NoMemory <==>
        && !BadArgs(bytes, ptr, specific)
        && !RunPossible(a, old(regions), old(pmm.arenas), PagesFor(bytes), specific, vaddr, Pmm.Shift(alignPow2), node)
      ensures st == Ok || st == MapFailed || st == NoMemory || st == InvalidArgs
      ensures st == Ok || st == MapFailed ==>
        |l| == PagesFor(bytes) > 0 && Pmm.AllFree(old(pmm.arenas), l) && Consecutive(Pmm.TakeAll(old(pmm.arenas), l), l)
      ensures st == Ok ==> pmm.arenas == Pmm.TakeAll(old(pmm.arenas), l)
      ensures st == Ok ==> Granted(a, old(regions), |l| * PAGE_SIZE, specific, vaddr, Pmm.Shift(alignPow2), base)
      ensures st == Ok ==> regions == Insert(old(regions), Region(base, |l| * PAGE_SIZE, flags, l))
      ensures st == Ok ==> Backed(pmm.arenas, old(tables), tables, base, l, flags)
      ensures st == Ok ==> MapRunOk(Pmm.TakeAll(old(pmm.arenas), l), old(tables), base, l, flags, budget)
      ensures st != Ok ==> regions == old(regions) && SameFree(old(pmm.arenas), pmm.arenas)
      ensures st != Ok ==>
        var size, shift := PagesFor(bytes) * PAGE_SIZE, Pmm.Shift(alignPow2);
        Undone(a, old(regions), old(tables), tables, size, specific, vaddr, shift, tried)
      ensures tried.Some? <==> st == MapFailed
      ensures st == MapFailed ==> !MapRunOk(Pmm.TakeAll(old(pmm.arenas), l), old(tables), tried.value, l, flags, budget)
      ensures Covered(old(regions), old(tables)) ==> Covered(regions, tables)
      ensures st != Ok && Covered(old(regions), old(tables)) ==> SameLeaves(old(tables), tables)
    {
      hide SpaceOk, Pmm.NoneFree, Pmm.AllFree, Pmm.IsFree, Pmm.GiveAll, Pmm.TakeAll, PagesOk;
      hide Covered, Granted, Insert, SameFree, RoundUp64, Undone, Backed, PageTable.Formed, SameLeaves, Placeable;
      hide Pmm.RunAt, Pmm.FirstRun, Pmm.IsRun, Consecutive, Pmm.AddressOf, HasRun, MapRunOk;
      ghost var s := pmm.arenas;
      l, tried, base := [], None, 0;
      SpaceFacts(a, regions, s, tables);
      UndoneNone(a, regions, tables, PagesFor(bytes) * PAGE_SIZE, specific, vaddr, Pmm.Shift(alignPow2));
      SameFreeSelf(s);
      var size := RoundUp64(bytes, PAGE_SIZE);
      if size == 0 { return InvalidArgs, 0, l, tried; }
      if specific && !ptr { return InvalidArgs, 0, l, tried; }
      RoundUp64IsPages(bytes);
      var pages, pa := pmm.AllocContiguous(size / PAGE_SIZE, alignPow2);
      l := pages;
      TakenKeeps(a, s, pages, regions, tables);
      RunFound(s, size / PAGE_SIZE, Pmm.Shift(alignPow2), pages, pa);
      if pages == [] {
        TakenNone(s);
        return NoMemory, 0, l, tried;
      }
      st, base, tried := MapContiguous(size, vaddr, alignPow2, specific, flags, node, budget, pages, pa, s);
    }

    method MapContiguous(size: nat, vaddr: nat, alignPow2: nat, specific: bool, flags: nat, node: bool, budget: nat,
                         pages: seq<nat>, pa: nat, ghost s: seq<Pmm.Arena>)
      returns (st: Status, base: nat, ghost tried: Option<nat>)
      requires SpaceOk(a, regions, s, tables) && Pmm.AllFree(s, pages) && pmm.arenas == Pmm.TakeAll(s, pages)
      requires size == |pages| * PAGE_SIZE && 0 < size < WORD && vaddr < WORD && alignPow2 < 64
      requires Consecutive(pmm.arenas, pages) && pa == Pmm.AddressOf(pmm.arenas, pages[0])
      modifies this, pmm
      ensures Valid()
      ensures st == Ok || st == MapFailed || st == NoMemory
      ensures st == NoMemory <==> !(node && Placeable(a, old(regions), size, specific, vaddr, Pmm.Shift(alignPow2)))
      ensures st == Ok ==> pmm.arenas == old(pmm.arenas)
      ensures st == Ok ==> Granted(a, old(regions), size, specific, vaddr, Pmm.Shift(alignPow2), base)
      ensures st == Ok ==> regions == Insert(old(regions), Region(base, size, flags, pages))
      ensures st == Ok ==> Backed(pmm.arenas, old(tables), tables, base, pages, flags)
      ensures st == Ok ==> MapRunOk(old(pmm.arenas), old(tables), base, pages, flags, budget)
      ensures st != Ok ==> regions == old(regions) && SameFree(s, pmm.arenas)
      ensures st != Ok ==>
        Undone(a, old(regions), old(tables), tables, size, specific, vaddr, Pmm.Shift(alignPow2), tried)
      ensures tried.Some? <==> st == MapFailed
      ensures st == MapFailed ==> !MapRunOk(old(pmm.arenas), old(tables), tried.value, pages, flags, budget)
      ensures Covered(old(regions), old(tables)) ==> Covered(regions, tables)
      ensures st != Ok && Covered(old(regions), old(tables)) ==> SameLeaves(old(tables), tables)
    {
      hide SpaceOk, Pmm.NoneFree, Pmm.AllFree, Pmm.IsFree, Pmm.GiveAll, Pmm.TakeAll, PagesOk;
      hide Covered, Granted, Insert, SameFree, Undone, Backed, PageTable.Formed, ArchUnmap, ArchMap, SameLeaves;
      hide Consecutive, Pmm.AddressOf;
      ghost var rs, t := regions, tables;
      base, tried := 0, None;
      SpaceFacts(a, rs, s, t);
      TakenKeeps(a, s, pages, rs, t);
      UndoneNone(a, rs, t, size, specific, vaddr, Pmm.Shift(alignPow2));
      var r;
      r, regions := AllocRegion(a, regions, size, vaddr, alignPow2, specific, flags, node);
      if r.None? {
        var n := pmm.Free(pages);
        return NoMemory, 0, tried;
      }
      base := r.value.base;
      RunBacked(pmm.arenas, tables, base, pages, flags, budget);
      var m := ArchMap(tables, base, pa, size, flags, budget);
      tables := m.t;
      if m.ok {
        AllocKeeps(a, s, rs, t, tables, r.value, pages, flags);
        KeepPages(base, pages, rs, r.value);
        return Ok, base, tried;
      }
      assert pages[..0] == [];
      LateFailure(a, s, rs, t, tables, r.value, pages, 0, flags, specific, vaddr, Pmm.Shift(alignPow2));
      tried := Some(base);
      var region, _ := RemoveRegionLocked(base);
      var n := pmm.Free(pages);
      st := MapFailed;
    }

    // The pages of page_list move to the region that was put in the list at base.
    method KeepPages(base: nat, l: seq<nat>, ghost rs: seq<Region>, ghost r: Region)
      requires ListOk(a, regions) && regions == Insert(rs, r) && r.base == base && r.size > 0
      modifies `regions
      ensures regions == Insert(rs, r.(pages := l))
    {
      hide ListOk, Insert;
      InsertSet(a, rs, r, l);
      var i := FindRegion(base);
      regions := regions[i := regions[i].(pages := l)];
    }
  }

  function PagesFor(bytes: nat): (n: nat) {
    RoundUp64(bytes, PAGE_SIZE) / PAGE_SIZE
  }

  ghost predicate HasRun(s: seq<Pmm.Arena>, count: nat, shift: nat) {
    exists k: nat, start: nat | k < |s| :: s[k].kmap && Pmm.RunAt(s[k], start, count, shift)
  }

  predicate MapRunOk(s: seq<Pmm.Arena>, t: Tables, base: nat, l: seq<nat>, flags: nat, budget: nat)
    requires Good(t) && l != []
  {
    ArchMap(t, base, Pmm.AddressOf(s, l[0]), |l| * PAGE_SIZE, flags, budget).ok
  }

  lemma SpaceFacts(a: Aspace, rs: seq<Region>, s: seq<Pmm.Arena>, t: Tables)
    requires SpaceOk(a, rs, s, t)
    ensures AspaceOk(a) && ListOk(a, rs) && Pmm.Inv(s) && PagesOk(s, rs) && Good(t) && InSpan(t, a.base, a.size)
    ensures PageTable.Sane(t.y)
    ensures forall k | 0 <= k < |s| :: Pmm.SpanOk(s[k])
  {
  }

  lemma GoodFacts(t: Tables)
    requires Good(t)
    ensures PageTable.Sane(t.y)
  {
  }

  lemma EachNone(s: seq<Pmm.Arena>, t: Tables, va: nat, l: seq<nat>, flags: nat, pages: nat)
    requires PageTable.Sane(t.y)
    ensures MapEach(s, t, va, l[..0], flags, pages) == Attempt(t, pages, true)
  {
  }

  lemma EachNext(s: seq<Pmm.Arena>, t: Tables, va: nat, l: seq<nat>, k: nat, flags: nat, pages: nat)
    requires PageTable.Sane(t.y) && k < |l|
    ensures var q := MapEach(s, t, va, l[..k], flags, pages);
      MapEach(s, t, va, l[..k + 1], flags, pages) ==
        if q.ok then ArchMap(q.t, va + k * PAGE_SIZE, Pmm.AddressOf(s, l[k]), PAGE_SIZE, flags, q.pages) else q
  {
    hide ArchMap, Pmm.AddressOf;
    assert l[..k + 1][..k] == l[..k];
  }

  // A failing allocation leaves every translation as it was exactly when its region was refused, was not on a page
  // boundary, or was put where nothing was mapped.
  lemma UndoneExactly(a: Aspace, rs: seq<Region>, t: Tables, u: Tables, size: nat, specific: bool, vaddr: nat,
                      shift: nat, base: nat)
    requires Good(t) && InSpan(t, a.base, a.size) && Undone(a, rs, t, u, size, specific, vaddr, shift, Some(base))
    ensures SameLeaves(t, u) <==> !IsPaged(base) || Vacant(t, base, size)
  {
    hide PageTable.Formed, LeafAt, ArchUnmap, Limit, Vacant;
    GrantedIsInside(a, rs, size, specific, vaddr, shift, base);
    UnmapLeaf(t, base, size, base);
    if IsPaged(base) { UnmapNothing(t, base, size); } else { UnmapUnpaged(t, base, size); }
  }

  // In a covered space the mapping of a new region fails only for want of page tables.
  lemma CoveredMaps(a: Aspace, s: seq<Pmm.Arena>, rs: seq<Region>, t: Tables, l: seq<nat>, flags: nat,
                    specific: bool, vaddr: nat, shift: nat, base: nat, budget: nat)
    requires SpaceOk(a, rs, s, t) && Pmm.AllFree(s, l) && shift >= 12
    requires Granted(a, rs, |l| * PAGE_SIZE, specific, vaddr, shift, base)
    ensures Covered(rs, t) && (specific ==> IsPaged(vaddr)) && budget >= |l| * t.top ==>
      MapEach(Pmm.TakeAll(s, l), t, base, l, flags, budget).ok
  {
    hide Pmm.IsFree, Pmm.TakeAll, Covered, PageTable.Formed, ListOk, PagesOk, MapEach, Limit, Vacant;
    hide Pmm.AddressOf, Pow2, Pmm.Inv;
    var s' := Pmm.TakeAll(s, l);
    SpansKept(s, s');
    forall p | p in l
      ensures Pmm.AddressOf(s', p) >= 0 && IsPaged(Pmm.AddressOf(s', p))
    {
      Pmm.FreeIsOwned(s, p);
      Pmm.SameOwner(s, s', p);
      AddressPaged(s', p);
    }
    GrantedIsInside(a, rs, |l| * PAGE_SIZE, specific, vaddr, shift, base);
    if !specific { BoundaryPaged(base, shift); }
    if Covered(rs, t) && IsPaged(base) {
      RoomIsUnmapped(rs, t, base, |l| * PAGE_SIZE);
      EachExactly(s', t, base, l, flags, budget);
    }
  }

  lemma BoundaryPaged(v: nat, shift: nat)
    requires shift >= 12 && v % Pow2(shift) == 0
    ensures IsPaged(v)
  {
    hide Pow2;
    WordIs();
    Pow2Split(12, shift - 12);
    var q := v / Pow2(shift);
    assert v == Pow2(shift) * q == PAGE_SIZE * (Pow2(shift - 12) * q);
    MulMod(PAGE_SIZE, Pow2(shift - 12) * q);
  }

  lemma UnmapUnpaged(t: Tables, va: nat, size: nat)
    requires Good(t) && !IsPaged(va)
    ensures ArchUnmap(t, va, size) == t
  {
  }

  lemma UndoneNone(a: Aspace, rs: seq<Region>, t: Tables, size: nat, specific: bool, vaddr: nat, shift: nat)
    requires Good(t)
    ensures Undone(a, rs, t, t, size, specific, vaddr, shift, None) && SameLeaves(t, t)
  {
  }

  lemma RunFound(s: seq<Pmm.Arena>, count: nat, shift: nat, l: seq<nat>, pa: nat)
    requires Pmm.Inv(s) && Pmm.AllFree(s, l) && count > 0
    requires l == [] ==> forall k, t: nat | 0 <= k < |s| && s[k].kmap :: !Pmm.RunAt(s[k], t, count, shift)
    requires l != [] ==>
      exists k: nat, start: nat :: Pmm.FirstRun(s, k, start, count, shift) && Pmm.IsRun(s, k, start, count, l, pa)
    ensures HasRun(s, count, shift) <==> l != []
    ensures l != [] ==>
      |l| == count && Consecutive(Pmm.TakeAll(s, l), l) && pa == Pmm.AddressOf(Pmm.TakeAll(s, l), l[0])
  {
    hide Pmm.Inv, Pmm.AllFree, Pmm.TakeAll, Pmm.Owner, Pmm.RunAt;
    if l != [] {
      var k: nat, start: nat :| Pmm.FirstRun(s, k, start, count, shift) && Pmm.IsRun(s, k, start, count, l, pa);
      var t := Pmm.TakeAll(s, l);
      forall i | 0 <= i < |l|
        ensures Pmm.AddressOf(t, l[i]) == pa + i * PAGE_SIZE
      {
        RunHeld(s, k, start, count, shift, l, i);
        Pmm.OwnerIs(s, k, l[i]);
        Pmm.SameOwner(s, t, l[i]);
      }
    }
  }

  lemma RunHeld(s: seq<Pmm.Arena>, k: nat, start: nat, count: nat, shift: nat, l: seq<nat>, i: nat)
    requires k < |s| && Pmm.RunAt(s[k], start, count, shift) && l == Pmm.RunPages(s[k], start, count) && i < |l|
    ensures Pmm.Holds(s[k], l[i]) && l[i] == s[k].first + start + i
  {
  }

  lemma TakenNone(s: seq<Pmm.Arena>)
    requires Pmm.Inv(s) && Pmm.AllFree(s, [])
    ensures Pmm.TakeAll(s, []) == s
  {
  }

  lemma SameFreeSelf(s: seq<Pmm.Arena>)
    ensures SameFree(s, s)
  {
  }

  // The arenas may change as long as the same pages are free.
  lemma SameSpace(a: Aspace, rs: seq<Region>, s: seq<Pmm.Arena>, s': seq<Pmm.Arena>, t: Tables, u: Tables)
    requires SpaceOk(a, rs, s, t) && SameFree(s, s') && Pmm.Inv(s') && Good(u) && SameShape(t, u)
    ensures SpaceOk(a, rs, s', u)
  {
    hide Pmm.Inv, PagesOk, Pmm.IsFree, ListOk, PageTable.Formed, Limit;
    SpansKept(s, s');
    SamePages(s, s', rs);
    LimitKept(t, u);
  }

  // Pages taken and put straight back.
  lemma TakenKeeps(a: Aspace, s: seq<Pmm.Arena>, l: seq<nat>, rs: seq<Region>, t: Tables)
    requires SpaceOk(a, rs, s, t) && Pmm.AllFree(s, l)
    ensures Pmm.Inv(s)
    ensures var s' := Pmm.TakeAll(s, l);
      && Pmm.NoneFree(s', l) && SameFree(s, Pmm.GiveAll(s', l)) && SpaceOk(a, rs, Pmm.GiveAll(s', l), t)
  {
    hide Pmm.Inv, PagesOk, SameFree, Pmm.IsFree, ListOk, PageTable.Formed;
    GivesBack(s, l, l, []);
    SameSpace(a, rs, s, Pmm.GiveAll(Pmm.TakeAll(s, l), l), t, t);
  }

  lemma AllocKeeps(a: Aspace, s: seq<Pmm.Arena>, rs: seq<Region>, t: Tables, u: Tables, r: Region, l: seq<nat>,
                   flags: nat)
    requires SpaceOk(a, rs, s, t) && Pmm.AllFree(s, l) && ListOk(a, Insert(rs, r)) && r.size == |l| * PAGE_SIZE
    requires IsPaged(r.base)
    requires Good(u) && SameShape(t, u) && Backed(Pmm.TakeAll(s, l), t, u, r.base, l, flags)
    ensures SpaceOk(a, Insert(rs, r.(pages := l)), Pmm.TakeAll(s, l), u)
    ensures Covered(rs, t) ==> Covered(Insert(rs, r.(pages := l)), u)
  {
    hide Pmm.Inv, PagesOk, Spot, Pmm.AllFree, Covered, Backed, Pmm.TakeAll, PageTable.Formed, Limit;
    InsertPages(s, rs, r.(pages := l));
    SpansKept(s, Pmm.TakeAll(s, l));
    LimitKept(t, u);
    assert forall i | 0 <= i <= |rs| :: Insert(rs, r.(pages := l))[i].base == Insert(rs, r)[i].base;
    assert forall i | 0 <= i <= |rs| :: Insert(rs, r.(pages := l))[i].size == Insert(rs, r)[i].size;
    if Covered(rs, t) { InsertCovered(Pmm.TakeAll(s, l), rs, t, u, r.(pages := l), flags); }
  }

  lemma InsertSet(a: Aspace, rs: seq<Region>, r: Region, l: seq<nat>)
    requires ListOk(a, Insert(rs, r)) && r.size > 0
    ensures forall i | 0 <= i < |Insert(rs, r)| && InRange(r.base, Insert(rs, r)[i].base, Insert(rs, r)[i].size) ::
      Insert(rs, r)[i := Insert(rs, r)[i].(pages := l)] == Insert(rs, r.(pages := l))
    ensures Covers(Insert(rs, r), r.base)
  {
    hide Spot;
    var s, k := Insert(rs, r), Spot(rs, r.base);
    assert s[k] == r && InRange(r.base, s[k].base, s[k].size);
    forall i | 0 <= i < |s| && InRange(r.base, s[i].base, s[i].size)
      ensures s[i := s[i].(pages := l)] == Insert(rs, r.(pages := l))
    {
      assert i == k;
    }
  }

  // What the error path of vmm_alloc relies on and restores once a page could not be mapped.
  lemma LateFailure(a: Aspace, s: seq<Pmm.Arena>, rs: seq<Region>, t: Tables, u: Tables, r: Region, l: seq<nat>,
                    k: nat, flags: nat,
                    specific: bool, vaddr: nat, shift: nat)
    requires SpaceOk(a, rs, s, t) && Pmm.AllFree(s, l) && ListOk(a, Insert(rs, r)) && r.size == |l| * PAGE_SIZE
    requires k < |l|
    requires Granted(a, rs, r.size, specific, vaddr, shift, r.base)
    requires Good(u) && SameShape(t, u) && Backed(Pmm.TakeAll(s, l), t, u, r.base, l[..k], flags)
    requires k > 0 ==> IsPaged(r.base)
    ensures var s' := Pmm.TakeAll(s, l); var s1 := Pmm.GiveAll(s', l[..k]); var rest := l[k + 1..] + [l[k]];
      && Pmm.NoneFree(s', l[..k]) && Pmm.NoneFree(s1, rest) && SameFree(s, Pmm.GiveAll(s1, rest))
      && SpaceOk(a, rs, Pmm.GiveAll(s1, rest), ArchUnmap(u, r.base, r.size))
      && SpaceOk(a, rs, Pmm.GiveAll(s', l), ArchUnmap(u, r.base, r.size))
    ensures forall i | 0 <= i < |Insert(rs, r)| && InRange(r.base, Insert(rs, r)[i].base, Insert(rs, r)[i].size) ::
      Insert(rs, r)[i] == r && Cut(Insert(rs, r), i) == rs
    ensures Covers(Insert(rs, r), r.base) && PageTable.Sane(u.y)
    ensures Undone(a, rs, t, ArchUnmap(u, r.base, r.size), r.size, specific, vaddr, shift, Some(r.base))
    ensures Covered(rs, t) ==> Covered(rs, ArchUnmap(u, r.base, r.size)) && SameLeaves(t, ArchUnmap(u, r.base, r.size))
  {
    hide Pmm.TakeAll, Pmm.GiveAll, Pmm.NoneFree, ArchUnmap, Insert, Covered, SameFree, Granted, SameLeaves, Backed;
    hide SpaceOk, PageTable.Formed, Undone;
    SpaceFacts(a, rs, s, t);
    SplitPages(s, l, k);
    TakenKeeps(a, s, l, rs, t);
    var w := ArchUnmap(u, r.base, r.size);
    UndoneIs(a, s, rs, t, u, r, l, k, flags, specific, vaddr, shift);
    SameSpace(a, rs, s, Pmm.GiveAll(Pmm.GiveAll(Pmm.TakeAll(s, l), l[..k]), l[k + 1..] + [l[k]]), t, w);
    SameSpace(a, rs, s, Pmm.GiveAll(Pmm.TakeAll(s, l), l), t, w);
    forall i: nat | i < |Insert(rs, r)| && InRange(r.base, Insert(rs, r)[i].base, Insert(rs, r)[i].size) {
      InsertCut(a, rs, r, i);
    }
    InsertSet(a, rs, r, l);
  }

  lemma UndoneIs(a: Aspace, s: seq<Pmm.Arena>, rs: seq<Region>, t: Tables, u: Tables, r: Region, l: seq<nat>, k: nat,
                 flags: nat,
                 specific: bool, vaddr: nat, shift: nat)
    requires SpaceOk(a, rs, s, t) && Pmm.AllFree(s, l) && r.size == |l| * PAGE_SIZE && k < |l|
    requires Granted(a, rs, r.size, specific, vaddr, shift, r.base)
    requires Good(u) && SameShape(t, u) && Backed(Pmm.TakeAll(s, l), t, u, r.base, l[..k], flags)
    requires k > 0 ==> IsPaged(r.base)
    ensures var w := ArchUnmap(u, r.base, r.size);
      && Good(w) && SameShape(t, w) && Undone(a, rs, t, w, r.size, specific, vaddr, shift, Some(r.base))
      && (Covered(rs, t) ==> Covered(rs, w) && SameLeaves(t, w))
  {
    hide Pmm.TakeAll, ArchUnmap, Insert, Covered, Granted, Backed, PageTable.Formed, LeafAt, SpaceOk, Limit, Vacant;
    SpaceFacts(a, rs, s, t);
    GrantedIsInside(a, rs, r.size, specific, vaddr, shift, r.base);
    var w := ArchUnmap(u, r.base, r.size);
    UnmapLeaf(t, r.base, r.size, 0);
    forall v: nat
      ensures Good(w) && SameShape(t, w) && LeafAt(w, v) == LeafAt(ArchUnmap(t, r.base, r.size), v)
    {
      UnmapBacked(Pmm.TakeAll(s, l), t, u, r.base, r.size, l[..k], flags, v);
    }
    assert Good(w) && SameShape(t, w) by { UnmapBacked(Pmm.TakeAll(s, l), t, u, r.base, r.size, l[..k], flags, 0); }
    if Covered(rs, t) {
      RoomIsUnmapped(rs, t, r.base, r.size);
      UndoneExactly(a, rs, t, w, r.size, specific, vaddr, shift, r.base);
      SameCovered(rs, t, w);
    }
  }

  lemma SameCovered(rs: seq<Region>, t: Tables, u: Tables)
    requires Good(t) && Good(u) && SameLeaves(t, u) && Covered(rs, t)
    ensures Covered(rs, u)
  {
    hide LeafAt, PageTable.Formed;
  }

  lemma SplitPages(s: seq<Pmm.Arena>, l: seq<nat>, k: nat)
    requires Pmm.Inv(s) && Pmm.AllFree(s, l) && k < |l|
    ensures var t := Pmm.TakeAll(s, l); var u := Pmm.GiveAll(t, l[..k]); var rest := l[k + 1..] + [l[k]];
      Pmm.NoneFree(t, l[..k]) && Pmm.NoneFree(u, rest) && SameFree(s, Pmm.GiveAll(u, rest))
  {
    hide Pmm.Inv, Pmm.TakeAll, Pmm.GiveAll, SameFree, Pmm.IsFree;
    assert l == l[..k] + [l[k]] + l[k + 1..];
    GivesBack(s, l, l[..k], l[k + 1..] + [l[k]]);
  }

  lemma GrantedIsInside(a: Aspace, rs: seq<Region>, size: nat, specific: bool, vaddr: nat, shift: nat, base: nat)
    requires Granted(a, rs, size, specific, vaddr, shift, base)
    ensures Clear(rs, base, size) && Inside(a, base, size)
    ensures forall t: Tables | PageTable.Sane(t.y) && InSpan(t, a.base, a.size) :: InSpan(t, base, size)
  {
  }

  lemma RoundUp64IsPages(bytes: nat)
    requires bytes < WORD
    ensures RoundUp64(bytes, PAGE_SIZE) % PAGE_SIZE == 0 && RoundUp64(bytes, PAGE_SIZE) < WORD
    ensures RoundUp64(bytes, PAGE_SIZE) == PagesFor(bytes) * PAGE_SIZE
  {
    RoundDownIs((bytes + (PAGE_SIZE - 1)) % WORD, PAGE_SIZE);
  }

  lemma RegionFreed(a: Aspace, s: seq<Pmm.Arena>, rs: seq<Region>, t: Tables, i: nat)
    requires SpaceOk(a, rs, s, t) && i < |rs|
    ensures var r := rs[i]; var u := ArchUnmap(t, r.base, r.size);
      && Pmm.NoneFree(s, r.pages) && SpaceOk(a, Cut(rs, i), Pmm.GiveAll(s, r.pages), u)
      && (Covered(rs, t) ==>
         Covered(Cut(rs, i), u) && forall v: nat :: At(u, v) == if InRange(v, r.base, r.size) then None else At(t, v))
    ensures forall p :: Pmm.IsFree(Pmm.GiveAll(s, rs[i].pages), p) <==> Pmm.IsFree(s, p) || p in rs[i].pages
  {
    hide Pmm.IsFree, Pmm.GiveAll, Covered, PageTable.Formed, LeafAt, ArchUnmap, Limit, Pmm.Inv, Pmm.Owner;
    var r := rs[i];
    assert PagesOut(s, r.pages) && IsPaged(r.base) && Inside(a, r.base, r.size);
    CutPages(s, rs, i);
    SpansKept(s, Pmm.GiveAll(s, r.pages));
    UnmapLeaf(t, r.base, r.size, 0);
    LimitKept(t, ArchUnmap(t, r.base, r.size));
    if Covered(rs, t) {
      CutCovered(a, rs, t, i);
      RegionIsUncut(a, rs, t, i);
      UnmapExactly(t, r.base, r.size);
    }
  }

  // ---- an allocation that fails over a mapping that no region holds ----

  // The allocation of one page over such a leaf fails, and takes all the translations of the leaf with it.
  method LosesLeaf(sp: Space, va: nat, flags: nat, budget: nat) returns (st: Status)
    requires sp.Valid() && IsPaged(va) && va < WORD && Inside(sp.a, va, PAGE_SIZE) && Clear(sp.regions, va, PAGE_SIZE)
    requires Enough(sp.pmm.arenas, 1) && LeafAt(sp.tables, va).Some?
    modifies sp, sp.pmm
    ensures sp.Valid() && st == MapFailed && sp.regions == old(sp.regions)
    ensures var e := LeafAt(old(sp.tables), va).value; forall b: nat | e.start <= b < e.start + e.size ::
      At(old(sp.tables), b).Some? && At(sp.tables, b) == None
  {
    hide SpaceOk, PageTable.Formed, LeafAt, MapEach, Pmm.FreePages, Pmm.TakeAll, Pmm.AllFree, SameFree, Backed;
    hide ArchUnmap, Limit, Inside, Clear;
    ghost var t, s := sp.tables, sp.pmm.arenas;
    SpaceFacts(sp.a, sp.regions, s, t);
    assert RoundUp64(PAGE_SIZE, PAGE_SIZE) == PAGE_SIZE && PagesFor(PAGE_SIZE) == 1;
    assert Granted(sp.a, sp.regions, 1 * PAGE_SIZE, true, va, 12, va);
    var base;
    ghost var l, tried;
    st, base, l, tried := sp.Alloc(PAGE_SIZE, true, va, 12, true, flags, true, budget);
    OccupiedFails(Pmm.TakeAll(s, l), t, va, l, flags, budget);
    SpaceFacts(sp.a, sp.regions, sp.pmm.arenas, sp.tables);
    ghost var e := LeafAt(t, va).value;
    GrantedIsInside(sp.a, sp.regions, PAGE_SIZE, true, va, 12, va);
    forall b: nat | e.start <= b < e.start + e.size
      ensures At(t, b).Some? && At(sp.tables, b) == None
    {
      LeafIs(t, va, b);
      LeafIs(t, va, va);
      UnmapLeaf(t, va, PAGE_SIZE, b);
      assert LeafAt(sp.tables, b) == LeafAt(ArchUnmap(t, va, PAGE_SIZE), b);
    }
  }

  // A 2 MiB block mapped outside every region, and one page allocated in it.
  method LostMapping() returns (sp: Space, before: Tables, st: Status)
    ensures sp.Valid() && Good(before) && st == MapFailed && sp.regions == []
    ensures forall v: nat | v < 0x20_0000 ::
      At(before, v) == Some(PageTable.Translation(v, 7)) && At(sp.tables, v) == None
  {
    hide SpaceOk, PageTable.Formed, LeafAt, ArchMap, Limit, Pmm.Inv, Spans, Enough, Covered;
    var pmm := new Pmm.Allocator();
    pmm.AddArena(1, 0, true, 0);
    OneArena();
    var t := BlockTables();
    sp := new Space(Aspace(0, 0x4000_0000), pmm, t);
    var m := ArchMap(t, 0, 0, 0x20_0000, 7, 0);
    BlockMapped(4096);
    SpaceFacts(sp.a, sp.regions, pmm.arenas, t);
    SameSpace(sp.a, [], pmm.arenas, pmm.arenas, t, m.t);
    sp.tables := m.t;
    before := sp.tables;
    forall v: nat | v < 0x20_0000
      ensures At(before, v) == Some(PageTable.Translation(v, 7))
    {
      BlockMapped(v);
    }
    st := LosesLeaf(sp, 4096, 0, 9);
  }

  function BlockTables(): (t: Tables)
    ensures Good(t) && PageTable.Clear(t.kids) && InSpan(t, 0, 0x4000_0000)
  {
    var y := PageTable.Layout(4096, 512, 1);
    var t := Tables(y, 1, 0, PageTable.FreshTable(y));
    BlockSizes();
    t
  }

  lemma BlockSizes()
    ensures var y := PageTable.Layout(4096, 512, 1);
      PageTable.Block(y, 1) == 0x20_0000 && PageTable.Off(y, 1, 512) == 0x4000_0000 && PageTable.Off(y, 1, 0) == 0
  {
    var y := PageTable.Layout(4096, 512, 1);
    PageTable.OffIs(y, 0, 512);
    PageTable.OffIs(y, 1, 512);
  }

  lemma BlockMapped(v: nat)
    requires v < 0x20_0000
    ensures var t := BlockTables(); var m := ArchMap(t, 0, 0, 0x20_0000, 7, 0);
      m.ok && Good(m.t) && SameShape(t, m.t) && LeafAt(m.t, v) == Some(PageTable.Extent(0, 0x20_0000, 0, 7))
  {
    hide PageTable.Formed, LeafAt, ArchMap, PageTable.Off, PageTable.Block, PageTable.FreshTable;
    BlockSizes();
    MapBlock(BlockTables(), 0, 0, 7, 0, v);
    MapLeaf(BlockTables(), 0, 0, 0x20_0000, 7, 0, v);
  }

  lemma OneArena()
    ensures var s := Pmm.WithArena([], Pmm.Fresh(0, 1, 0, true, 0)); Pmm.Inv(s) && Spans(s) && Enough(s, 1)
  {
    hide Pmm.ArenaOk;
    var x := Pmm.Fresh(0, 1, 0, true, 0);
    Pmm.WithArenaInv([], x);
    assert Pmm.WithArena([], x) == [x];
    assert Pmm.FreePages([x]) == x.free + Pmm.FreePages([]);
  }

  lemma OccupiedFails(s: seq<Pmm.Arena>, t: Tables, va: nat, l: seq<nat>, flags: nat, budget: nat)
    requires Good(t) && |l| == 1 && LeafAt(t, va).Some?
    ensures !MapEach(s, t, va, l, flags, budget).ok
  {
    hide ArchMap, LeafAt, Pmm.AddressOf;
    assert l[..0] == [];
    MapLeaf(t, va, Pmm.AddressOf(s, l[0]), PAGE_SIZE, flags, budget, va);
  }
}
