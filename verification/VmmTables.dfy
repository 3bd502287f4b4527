/** The page tables of an address space as the region code uses them: what map and unmap do to the leaf of each
    address. */
module VmmTables {
  import opened Options
  import opened PageTable
  import MapRoom
  import Pmm

  const PAGE_SIZE: nat := Pmm.PAGE_SIZE

  // base is the address that the first entry translates.
  datatype Tables = Tables(y: Layout, top: nat, base: nat, kids: seq<Tree>)

  predicate Good(t: Tables) {
    && Sane(t.y) && t.y.pageSize == PAGE_SIZE && t.y.entries > 1 && t.base % PAGE_SIZE == 0
    && Formed(t.y, t.kids, t.top)
  }

  predicate SameShape(t: Tables, u: Tables) {
    u == t.(kids := u.kids) && |u.kids| == |t.kids|
  }

  // One past the last address the tables can translate.
  function Limit(t: Tables): (e: nat)
    requires Sane(t.y)
  {
    t.base + Off(t.y, t.top, |t.kids|)
  }

  function LeafAt(t: Tables, a: nat): (r: Option<Extent>)
    requires Sane(t.y)
  {
    Walk(t.y, t.kids, t.top, t.base, a)
  }

  // arch_mmu_query
  function At(t: Tables, a: nat): (r: Option<Translation>)
    requires Sane(t.y)
  {
    match LeafAt(t, a)
    case None => None
    case Some(e) => Some(Translation(e.pa + (a - e.start), e.attrs))
  }

  // A leaf covers the address it was found at, and is the leaf of all its addresses.
  lemma LeafIs(t: Tables, a: nat, b: nat)
    requires Good(t) && LeafAt(t, a).Some?
    ensures var e := LeafAt(t, a).value;
      e.start <= a < e.start + e.size && (e.start <= b < e.start + e.size ==> LeafAt(t, b) == LeafAt(t, a))
  {
    var e := LeafAt(t, a).value;
    WalkUniformTab(t.y, t.kids, t.top, t.base, a, e.start);
    if e.start <= b < e.start + e.size { WalkUniformTab(t.y, t.kids, t.top, t.base, a, b); }
  }

  lemma ClearLeaves(t: Tables)
    requires Good(t) && Clear(t.kids)
    ensures forall a: nat :: LeafAt(t, a) == None
  {
    forall a: nat ensures LeafAt(t, a) == None { assert Walk(t.y, t.kids, t.top, t.base, a) == None; }
  }

  // ---- arch_mmu_map and arch_mmu_unmap ----

  datatype Attempt = Attempt(t: Tables, pages: nat, ok: bool)

  // pages is how many tables can be allocated before one is refused.
  function ArchMap(t: Tables, va: nat, pa: int, size: nat, flags: nat, pages: nat): (r: Attempt)
    requires Sane(t.y)
  {
    if pa < 0 || va < t.base || Limit(t) < va + size then Attempt(t, pages, false)
    else
      var r := MapInto(t.y, t.kids, t.top, va - t.base, pa, size, flags, pages);
      Attempt(t.(kids := r.d.kids), r.pages, r.ok)
  }

  function ArchUnmap(t: Tables, va: nat, size: nat): (r: Tables)
    requires Sane(t.y)
  {
    if !IsPaged(va) || va < t.base || Limit(t) < va + size then t
    else t.(kids := UnmapTab(t.y, t.kids, t.top, va - t.base, size))
  }

  predicate IsPaged(x: nat) {
    x % PAGE_SIZE == 0
  }

  lemma PagedIs(y: Layout, x: nat)
    requires Sane(y) && y.pageSize == PAGE_SIZE
    ensures Paged(y, x) <==> IsPaged(x)
  {
    IndexIs(y, 0, x);
  }

  // The tables start on a page boundary.
  lemma RelativeIs(t: Tables, va: nat)
    requires Good(t) && t.base <= va
    ensures Paged(t.y, va - t.base) <==> IsPaged(va)
  {
    PagedIs(t.y, va - t.base);
  }

  // A map that succeeds gives each address of its range a leaf inside the range; one that fails changes no leaf.
  lemma MapLeaf(t: Tables, va: nat, pa: int, size: nat, flags: nat, pages: nat, a: nat)
    requires Good(t)
    ensures var r := ArchMap(t, va, pa, size, flags, pages);
      && Good(r.t) && SameShape(t, r.t) && (r.ok ==> 0 <= pa && (size > 0 ==> IsPaged(va)))
      && (if r.ok then Laid(LeafAt(t, a), LeafAt(r.t, a), va, va + size, pa, flags, a)
         else LeafAt(r.t, a) == LeafAt(t, a))
  {
    hide Formed, Walk, Off, Paged, MapRun, UnmapTab, IsPaged;
    if 0 <= pa && t.base <= va && va + size <= Limit(t) {
      var v := va - t.base;
      RelativeIs(t, va);
      MapIntoFormed(t.y, t.kids, t.top, v, pa, size, flags, pages);
      if Paged(t.y, v) && Paged(t.y, pa) && Paged(t.y, size) {
        MapIntoAt(t.y, t.kids, t.top, t.base, v, pa, size, flags, pages, a);
      }
    }
  }

  predicate InSpan(t: Tables, va: nat, size: nat)
    requires Sane(t.y)
  {
    t.base <= va && va + size <= Limit(t)
  }

  // An unmap takes away the leaves its range touches, whole.
  lemma UnmapLeaf(t: Tables, va: nat, size: nat, a: nat)
    requires Good(t) && InSpan(t, va, size)
    ensures var r := ArchUnmap(t, va, size);
      Good(r) && SameShape(t, r) &&
        LeafAt(r, a) == if IsPaged(va) then Cut(LeafAt(t, a), va, va + size) else LeafAt(t, a)
  {
    hide Formed, Walk, Off, UnmapTab;
    UnmapFormed(t.y, t.kids, t.top, va - t.base, size);
    UnmapAt(t.y, t.kids, t.top, t.base, va - t.base, size, a);
  }

  // No address of the range is translated.
  ghost predicate Vacant(t: Tables, va: nat, size: nat)
    requires Sane(t.y)
  {
    forall a: nat | va <= a < va + size :: LeafAt(t, a) == None
  }

  // No leaf lies partly in the range.
  ghost predicate Uncut(t: Tables, va: nat, size: nat)
    requires Sane(t.y)
  {
    forall a: nat | va <= a < va + size && LeafAt(t, a).Some? ::
      va <= LeafAt(t, a).value.start && LeafAt(t, a).value.start + LeafAt(t, a).value.size <= va + size
  }

  lemma TouchIs(t: Tables, va: nat, size: nat, a: nat)
    requires Good(t) && LeafAt(t, a).Some?
    ensures var e := LeafAt(t, a).value; var b := if e.start < va then va else e.start;
      Cut(LeafAt(t, a), va, va + size) == None <==> va <= b < va + size && LeafAt(t, b) == LeafAt(t, a)
    ensures Vacant(t, va, size) ==> Cut(LeafAt(t, a), va, va + size) == LeafAt(t, a)
    ensures Uncut(t, va, size) ==>
      Cut(LeafAt(t, a), va, va + size) == if va <= a < va + size then None else LeafAt(t, a)
  {
    hide LeafAt;
    var e := LeafAt(t, a).value;
    var b := if e.start < va then va else e.start;
    LeafIs(t, a, b);
    if LeafAt(t, b).Some? { LeafIs(t, b, b); }
  }

  // Unmap removes exactly its range if and only if no leaf lies partly in it.
  lemma UnmapExactly(t: Tables, va: nat, size: nat)
    requires Good(t) && InSpan(t, va, size) && IsPaged(va)
    ensures Uncut(t, va, size) <==>
      forall a: nat :: At(ArchUnmap(t, va, size), a) == if va <= a < va + size then None else At(t, a)
  {
    hide LeafAt, ArchUnmap, Formed, Limit;
    var u := ArchUnmap(t, va, size);
    UnmapLeaf(t, va, size, va);
    if Uncut(t, va, size) {
      forall a: nat
        ensures At(u, a) == if va <= a < va + size then None else At(t, a)
      {
        UnmapLeaf(t, va, size, a);
        if LeafAt(t, a).Some? { TouchIs(t, va, size, a); }
      }
    } else {
      var a: nat :| va <= a < va + size && LeafAt(t, a).Some? &&
        !(va <= LeafAt(t, a).value.start && LeafAt(t, a).value.start + LeafAt(t, a).value.size <= va + size);
      var e := LeafAt(t, a).value;
      var b := if e.start < va then e.start else e.start + e.size - 1;
      LeafIs(t, a, b);
      UnmapLeaf(t, va, size, b);
      assert At(u, b) == None && At(t, b).Some?;
    }
  }

  ghost predicate SameLeaves(t: Tables, u: Tables)
    requires Sane(t.y)
  {
    SameShape(t, u) && forall a: nat :: LeafAt(u, a) == LeafAt(t, a)
  }

  // Unmap changes nothing if and only if nothing is mapped in its range.
  lemma UnmapNothing(t: Tables, va: nat, size: nat)
    requires Good(t) && InSpan(t, va, size) && IsPaged(va)
    ensures SameLeaves(t, ArchUnmap(t, va, size)) <==> Vacant(t, va, size)
  {
    hide LeafAt, ArchUnmap, Formed, Limit;
    var u := ArchUnmap(t, va, size);
    UnmapLeaf(t, va, size, va);
    if Vacant(t, va, size) {
      forall a: nat
        ensures LeafAt(u, a) == LeafAt(t, a)
      {
        UnmapLeaf(t, va, size, a);
        if LeafAt(t, a).Some? { TouchIs(t, va, size, a); }
      }
    } else {
      var a: nat :| va <= a < va + size && LeafAt(t, a) != None;
      LeafIs(t, a, a);
      UnmapLeaf(t, va, size, a);
      assert LeafAt(u, a) != LeafAt(t, a);
    }
  }

  // arch_mmu_map succeeds exactly when the range is in the tables and on pages, no entry stands where a leaf has to go,
  // and the tables it adds can be had.
  lemma MapExactly(t: Tables, va: nat, pa: int, size: nat, flags: nat, pages: nat)
    requires Good(t)
    ensures ArchMap(t, va, pa, size, flags, pages).ok <==>
            && pa >= 0 && InSpan(t, va, size) && IsPaged(va) && IsPaged(pa) && IsPaged(size)
            && MapRoom.Room(t.y, t.kids, t.top, va - t.base, pa, size)
            && MapRoom.Cost(t.y, t.kids, t.top, va - t.base, pa, size) <= pages
  {
    hide Formed, MapRoom.Room, MapRoom.Cost, MapInto, Paged, Off, IsPaged;
    if pa >= 0 && InSpan(t, va, size) {
      RelativeIs(t, va);
      PagedIs(t.y, pa);
      PagedIs(t.y, size);
      MapRoom.MapExactly(t.y, t.kids, t.top, va - t.base, pa, size, flags, pages);
    }
  }

  function PageCost(t: Tables, va: nat, pa: nat): (c: nat)
    requires Sane(t.y) && InSpan(t, va, PAGE_SIZE)
  {
    MapRoom.Cost(t.y, t.kids, t.top, va - t.base, pa, PAGE_SIZE)
  }

  // One page can be mapped exactly where none is, given the tables it takes, which are at most one for each level.
  lemma MapPageExactly(t: Tables, va: nat, pa: nat, flags: nat, pages: nat)
    requires Good(t) && IsPaged(va) && IsPaged(pa) && InSpan(t, va, PAGE_SIZE)
    ensures var r, c := ArchMap(t, va, pa, PAGE_SIZE, flags, pages), PageCost(t, va, pa);
      (r.ok <==> LeafAt(t, va) == None && c <= pages) && (r.ok ==> r.pages == pages - c) && c <= t.top
  {
    hide Formed, Walk, Off, MapRoom.Room, MapRoom.Cost, MapInto, Paged;
    var v := va - t.base;
    RelativeIs(t, va);
    PagedIs(t.y, pa);
    PagedIs(t.y, PAGE_SIZE);
    MapRoom.PageRoom(t.y, t.kids, t.top, t.base, v, pa);
    MapRoom.MapExactly(t.y, t.kids, t.top, v, pa, PAGE_SIZE, flags, pages);
  }

  // An aligned block goes into an empty entry as one leaf.
  lemma MapBlock(t: Tables, i: nat, pa: nat, flags: nat, pages: nat, a: nat)
    requires Good(t) && i < |t.kids| && t.kids[i] == Invalid && t.top <= t.y.blockMax && Rem(t.y, t.top, pa) == 0
    requires IsPaged(pa)
    requires var o, b := Off(t.y, t.top, i), Block(t.y, t.top);
      o + b <= Off(t.y, t.top, |t.kids|) && t.base + o <= a < t.base + o + b
    ensures var o, b := Off(t.y, t.top, i), Block(t.y, t.top); var r := ArchMap(t, t.base + o, pa, b, flags, pages);
      r.ok && r.t == t.(kids := t.kids[i := Leaf(pa, flags)]) &&
        LeafAt(r.t, a) == Some(Extent(t.base + o, b, pa, flags))
  {
    hide Off, Index, Block;
    var y, l, o, b := t.y, t.top, Off(t.y, t.top, i), Block(t.y, t.top);
    IndexUnique(y, l, o, i);
    IndexUnique(y, l, a - t.base, i);
    OffPaged(y, l, i);
    BlockPaged(y, l);
    PagedIs(y, pa);
    assert Chunk(y, l, o, b) == b && Rem(y, l, o) == 0;
    MapRunStep(y, t.kids, l, o, pa, b, flags, pages);
    assert MapSlot(y, Invalid, l, 0, pa, b, flags, pages) == Placed(Leaf(pa, flags), pages, true);
    var k := t.kids[i := Leaf(pa, flags)];
    MapRunNone(y, k, l, o + b, pa + b, flags, pages);
    assert MapInto(y, t.kids, l, o, pa, b, flags, pages) == Placed(Node(k), pages, true);
    assert Walk(y, k, l, t.base, a) == WalkSlot(y, k[i], l, t.base + o, a);
  }
}
