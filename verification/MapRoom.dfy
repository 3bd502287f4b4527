/** Exactly when the mapper of arch/arm64/mmu.c succeeds: which entries stand in its way and how many tables it has to
    add. */
module MapRoom {
  import opened Options
  import opened PageTable

  // The level of the entry that ends the path to offset x, if that entry is invalid.
  function Depth(y: Layout, kids: seq<Tree>, l: nat, x: nat): (r: Option<nat>)
    requires Sane(y)
    ensures r.Some? ==> r.value <= l
    decreases l
  {
    var i := Index(y, l, x);
    if i >= |kids| then None
    else
      match kids[i]
      case Invalid => Some(l)
      case Leaf(_, _) => None
      case Node(k) => if l == 0 then None else Depth(y, k, l - 1, Rem(y, l, x))
  }

  predicate AsBlock(y: Layout, l: nat, rem: nat, pa: nat, chunk: nat)
    requires Sane(y)
  {
    rem == 0 && Rem(y, l, pa) == 0 && chunk == Block(y, l) && l <= y.blockMax
  }

  function Max(a: nat, b: nat): (m: nat) { if a < b then b else a }

  function Min(a: nat, b: nat): (m: nat) { if a < b then a else b }

  // The level of the leaf that mapping [v, v + size) to pa writes for offset x: the highest whose block around x lies
  // in the range, is aligned in physical memory too, and may be a block.
  function Level(y: Layout, l: nat, v: nat, pa: nat, size: nat, x: nat): (r: nat)
    requires Sane(y) && v <= x < v + size
    ensures r <= l
    decreases l
  {
    var o := Off(y, l, Index(y, l, x));
    var lo, hi := Max(v, o), Min(v + size, o + Block(y, l));
    if l == 0 || AsBlock(y, l, lo - o, pa + (lo - v), hi - lo) then l
    else Level(y, l - 1, lo - o, pa + (lo - v), hi - lo, x - o)
  }

  // The path to x is open down to where the leaf goes.
  predicate Open(y: Layout, kids: seq<Tree>, l: nat, v: nat, pa: nat, size: nat, x: nat)
    requires Sane(y) && v <= x < v + size
  {
    var d := Depth(y, kids, l, x);
    d.Some? && d.value >= Level(y, l, v, pa, size, x)
  }

  ghost predicate Room(y: Layout, kids: seq<Tree>, l: nat, v: nat, pa: nat, size: nat)
    requires Sane(y)
  {
    forall x: nat | v <= x < v + size :: Open(y, kids, l, v, pa, size, x)
  }

  // The number of tables that mapping [v, v + size) adds.
  function Cost(y: Layout, kids: seq<Tree>, l: nat, v: nat, pa: nat, size: nat): (c: nat)
    requires Sane(y) && v + size <= Off(y, l, |kids|)
    decreases l, 1, size
  {
    if size == 0 then 0
    else
      var chunk := Chunk(y, l, v, size);
      IndexLess(y, l, v, |kids|);
      SlotCost(y, kids[Index(y, l, v)], l, Rem(y, l, v), pa, chunk) +
      Cost(y, kids, l, v + chunk, pa + chunk, size - chunk)
  }

  function SlotCost(y: Layout, d: Tree, l: nat, rem: nat, pa: nat, chunk: nat): (c: nat)
    requires Sane(y) && rem + chunk <= Block(y, l)
    decreases l, 0, 0
  {
    if l == 0 || AsBlock(y, l, rem, pa, chunk) then 0
    else
      match d
      case Invalid => 1 + Cost(y, FreshTable(y), l - 1, rem, pa, chunk)
      case Leaf(_, _) => 0
      case Node(k) => if |k| != y.entries then 0 else Cost(y, k, l - 1, rem, pa, chunk)
  }

  // Only the entries from v on matter.
  lemma {:induction false} CostSame(y: Layout, kids: seq<Tree>, kids': seq<Tree>, l: nat, v: nat, pa: nat, size: nat)
    requires Sane(y) && v + size <= Off(y, l, |kids|) && |kids'| == |kids|
    requires forall j | Index(y, l, v) <= j < |kids| :: kids'[j] == kids[j]
    ensures Cost(y, kids', l, v, pa, size) == Cost(y, kids, l, v, pa, size)
    decreases size
  {
    hide SlotCost;
    if size > 0 {
      var chunk := Chunk(y, l, v, size);
      IndexLess(y, l, v, |kids|);
      if size > chunk { NextIndex(y, l, v, size); }
      if size > chunk { CostSame(y, kids, kids', l, v + chunk, pa + chunk, size - chunk); }
    }
  }

  // What is left of a request starts at the next entry.
  lemma {:induction false} NextIndex(y: Layout, l: nat, v: nat, size: nat)
    requires Sane(y) && size > Chunk(y, l, v, size)
    ensures var c := Chunk(y, l, v, size);
      Index(y, l, v + c) == Index(y, l, v) + 1 && Off(y, l, Index(y, l, v) + 1) == v + c
  {
    var i := Index(y, l, v);
    assert Off(y, l, i + 1) == Off(y, l, i) + Block(y, l);
    IndexUnique(y, l, Off(y, l, i + 1), i + 1);
  }

  lemma {:induction false} IndexOrder(y: Layout, l: nat, a: nat, b: nat)
    requires Sane(y) && a <= b
    ensures Index(y, l, a) <= Index(y, l, b)
  {
    if Index(y, l, b) < Index(y, l, a) { OffMono(y, l, Index(y, l, b), Index(y, l, a)); }
  }

  // Openness of an offset in the first chunk, and of one after it.
  lemma {:induction false} OpenHead(y: Layout, kids: seq<Tree>, l: nat, v: nat, pa: nat, size: nat, x: nat)
    requires Sane(y) && 0 < size && v <= x < v + Chunk(y, l, v, size) && Index(y, l, v) < |kids|
    ensures Index(y, l, x) == Index(y, l, v)
    ensures Open(y, kids, l, v, pa, size, x) <==>
      OpenSlot(y, kids[Index(y, l, v)], l, Rem(y, l, v), pa, Chunk(y, l, v, size), x - Off(y, l, Index(y, l, v)))
  {
    hide Index, Off, Block;
    IndexUnique(y, l, x, Index(y, l, v));
  }

  predicate OpenSlot(y: Layout, d: Tree, l: nat, rem: nat, pa: nat, chunk: nat, x: nat)
    requires Sane(y) && rem <= x < rem + chunk
  {
    if l == 0 || AsBlock(y, l, rem, pa, chunk) then d == Invalid
    else
      match d
      case Invalid => true
      case Leaf(_, _) => false
      case Node(k) => Open(y, k, l - 1, rem, pa, chunk, x)
  }

  lemma {:induction false} OpenTail(y: Layout, kids: seq<Tree>, kids': seq<Tree>, l: nat, v: nat, pa: nat, size: nat,
                                    x: nat)
    requires Sane(y) && |kids'| == |kids| && forall j | Index(y, l, v) < j < |kids| :: kids'[j] == kids[j]
    requires 0 < size && v + Chunk(y, l, v, size) <= x < v + size
    ensures var c := Chunk(y, l, v, size);
      Open(y, kids', l, v + c, pa + c, size - c, x) <==> Open(y, kids, l, v, pa, size, x)
  {
    hide Index, Off, Block;
    var c := Chunk(y, l, v, size);
    NextIndex(y, l, v, size);
    IndexOrder(y, l, v + c, x);
    var i, o := Index(y, l, v) + 1, Off(y, l, Index(y, l, x));
    if i < Index(y, l, x) { OffMono(y, l, i, Index(y, l, x)); }
    assert o >= v + c && Max(v, o) == o && Max(v + c, o) == o;
  }

  // The mapper succeeds exactly when every path is open and the tables to add are to be had.
  lemma {:induction false} RunExactly(y: Layout, kids: seq<Tree>, l: nat, v: nat, pa: nat, size: nat, attrs: nat,
                                      pages: nat)
    requires Sane(y) && v + size <= Off(y, l, |kids|) && Formed(y, kids, l)
    requires Paged(y, v) && Paged(y, pa) && Paged(y, size)
    ensures var r := MapRun(y, kids, l, v, pa, size, attrs, pages);
      && (r.left == 0 <==> Room(y, kids, l, v, pa, size) && Cost(y, kids, l, v, pa, size) <= pages)
      && (r.left == 0 ==> r.pages == pages - Cost(y, kids, l, v, pa, size))
    decreases l, 1, size
  {
    hide Open, Index, Off, Block, SlotCost, MapSlot, OpenSlot, FormedSlot, Paged, Rem, MapRun, Chunk;
    if size == 0 {
      MapRunNone(y, kids, l, v, pa, attrs, pages);
    } else {
      var i, rem, chunk := Index(y, l, v), Rem(y, l, v), Chunk(y, l, v, size);
      MapRunStep(y, kids, l, v, pa, size, attrs, pages);
      ChunkPaged(y, l, v, size, chunk);
      PagedSum(y, pa, chunk);
      var s := MapSlot(y, kids[i], l, rem, pa, chunk, attrs, pages);
      SlotExactly(y, kids[i], l, rem, pa, chunk, attrs, pages);
      SplitRoom(y, kids, kids[i := s.d], l, v, pa, size);
      if s.ok {
        RunExactly(y, kids[i := s.d], l, v + chunk, pa + chunk, size - chunk, attrs, s.pages);
        if size > chunk {
          NextIndex(y, l, v, size);
          CostSame(y, kids, kids[i := s.d], l, v + chunk, pa + chunk, size - chunk);
        }
      }
    }
  }

  ghost predicate SlotRoom(y: Layout, d: Tree, l: nat, rem: nat, pa: nat, chunk: nat)
    requires Sane(y)
  {
    forall x: nat | rem <= x < rem + chunk :: OpenSlot(y, d, l, rem, pa, chunk, x)
  }

  lemma {:induction false} SplitRoom(y: Layout, kids: seq<Tree>, kids': seq<Tree>, l: nat, v: nat, pa: nat, size: nat)
    requires Sane(y) && 0 < size && Index(y, l, v) < |kids| == |kids'|
    requires forall j | Index(y, l, v) < j < |kids| :: kids'[j] == kids[j]
    ensures var c := Chunk(y, l, v, size);
      Room(y, kids, l, v, pa, size) <==>
        SlotRoom(y, kids[Index(y, l, v)], l, Rem(y, l, v), pa, c) && Room(y, kids', l, v + c, pa + c, size - c)
  {
    hide Open, Index, Off, Block, OpenSlot;
    var c, i := Chunk(y, l, v, size), Index(y, l, v);
    var o, rem, v', pa', size' := Off(y, l, i), Rem(y, l, v), v + c, pa + c, size - c;
    forall x: nat | v <= x < v'
      ensures Open(y, kids, l, v, pa, size, x) <==> OpenSlot(y, kids[i], l, rem, pa, c, x - o)
    {
      OpenHead(y, kids, l, v, pa, size, x);
    }
    forall x: nat | v' <= x < v' + size'
      ensures Open(y, kids', l, v', pa', size', x) <==> Open(y, kids, l, v, pa, size, x)
    {
      OpenTail(y, kids, kids', l, v, pa, size, x);
    }
    if SlotRoom(y, kids[i], l, rem, pa, c) && Room(y, kids', l, v', pa', size') {
      forall x: nat | v <= x < v + size
        ensures Open(y, kids, l, v, pa, size, x)
      {
        if x < v' {
          assert OpenSlot(y, kids[i], l, rem, pa, c, x - o);
        } else {
          assert Open(y, kids', l, v', pa', size', x);
        }
      }
    }
    if Room(y, kids, l, v, pa, size) {
      forall x: nat | rem <= x < rem + c
        ensures OpenSlot(y, kids[i], l, rem, pa, c, x)
      {
        assert Open(y, kids, l, v, pa, size, x + o);
      }
      assert Room(y, kids', l, v', pa', size');
    }
  }

  lemma {:induction false} SlotExactly(y: Layout, d: Tree, l: nat, rem: nat, pa: nat, chunk: nat, attrs: nat,
                                       pages: nat)
    requires Sane(y) && FormedSlot(y, d, l) && 0 < chunk && rem + chunk <= Block(y, l)
    requires Paged(y, rem) && Paged(y, pa) && Paged(y, chunk) && (l == 0 ==> rem == 0 && chunk == Block(y, l))
    ensures var s := MapSlot(y, d, l, rem, pa, chunk, attrs, pages);
      && (s.ok <==> SlotRoom(y, d, l, rem, pa, chunk) && SlotCost(y, d, l, rem, pa, chunk) <= pages)
      && (s.ok ==> s.pages == pages - SlotCost(y, d, l, rem, pa, chunk))
    decreases l, 0, 0
  {
    hide Open, Index, Off, MapRun, Cost;
    assert SlotRoom(y, d, l, rem, pa, chunk) ==> OpenSlot(y, d, l, rem, pa, chunk, rem);
    if l > 0 && !AsBlock(y, l, rem, pa, chunk) {
      if d == Invalid {
        FreshRoom(y, l - 1, rem, pa, chunk);
        if pages > 0 { RunExactly(y, FreshTable(y), l - 1, rem, pa, chunk, attrs, pages - 1); }
      } else if d.Node? {
        assert Formed(y, d.kids, l - 1);
        var m := l - 1;
        RunExactly(y, d.kids, m, rem, pa, chunk, attrs, pages);
        if SlotRoom(y, d, l, rem, pa, chunk) {
          forall x: nat | rem <= x < rem + chunk
            ensures Open(y, d.kids, m, rem, pa, chunk, x)
          {
            assert OpenSlot(y, d, l, rem, pa, chunk, x);
          }
        }
      }
    }
  }

  lemma {:induction false} FreshRoom(y: Layout, l: nat, v: nat, pa: nat, size: nat)
    requires Sane(y) && v + size <= Off(y, l, y.entries)
    ensures Room(y, FreshTable(y), l, v, pa, size)
  {
    hide Off, Index;
    forall x: nat | v <= x < v + size
      ensures Open(y, FreshTable(y), l, v, pa, size, x)
    {
      IndexLess(y, l, x, y.entries);
    }
  }

  // arm64_mmu_map_pt returns success exactly when the arguments are page aligned, nothing stands where a leaf has to
  // go, and there is memory for the tables it adds.
  lemma {:induction false} MapExactly(y: Layout, kids: seq<Tree>, l: nat, v: nat, pa: nat, size: nat, attrs: nat,
                                      pages: nat)
    requires Sane(y) && v + size <= Off(y, l, |kids|) && Formed(y, kids, l)
    ensures var r := MapInto(y, kids, l, v, pa, size, attrs, pages);
      && (r.ok <==> && Paged(y, v) && Paged(y, pa) && Paged(y, size)
                    && Room(y, kids, l, v, pa, size) && Cost(y, kids, l, v, pa, size) <= pages)
      && (r.ok ==> r.pages == pages - Cost(y, kids, l, v, pa, size))
  {
    hide Room, Cost, MapRun, Paged;
    if Paged(y, v) && Paged(y, pa) && Paged(y, size) { RunExactly(y, kids, l, v, pa, size, attrs, pages); }
  }

  // ---- one page ----

  lemma {:induction false} BlockGrows(y: Layout, l: nat)
    requires Sane(y) && y.entries > 1
    ensures Block(y, l) >= y.pageSize && (l > 0 ==> Block(y, l) > y.pageSize)
    decreases l
  {
    if l > 0 {
      BlockGrows(y, l - 1);
      OffMono(y, l - 1, 1, y.entries);
    }
  }

  // A page lies in one entry at every level.
  lemma {:induction false} PageInSlot(y: Layout, l: nat, v: nat)
    requires Sane(y) && y.entries > 1 && Paged(y, v)
    ensures Rem(y, l, v) + y.pageSize <= Block(y, l) && Chunk(y, l, v, y.pageSize) == y.pageSize
    ensures Paged(y, Rem(y, l, v))
  {
    hide Index, Off;
    BlockPaged(y, 0);
    ChunkPaged(y, l, v, y.pageSize, Chunk(y, l, v, y.pageSize));
    var c := Chunk(y, l, v, y.pageSize);
    if c < y.pageSize { SmallPaged(y, c); }
  }

  lemma SmallPaged(y: Layout, c: nat)
    requires Sane(y) && 0 < c < y.pageSize
    ensures !Paged(y, c)
  {
  }

  // A page can be mapped where none is, and never takes more tables than there are levels below.
  lemma {:induction false} PageRoom(y: Layout, kids: seq<Tree>, l: nat, base: nat, v: nat, pa: nat)
    requires Sane(y) && y.entries > 1 && Formed(y, kids, l) && Paged(y, v) && Paged(y, pa)
    requires v + y.pageSize <= Off(y, l, |kids|)
    ensures Room(y, kids, l, v, pa, y.pageSize) <==> Walk(y, kids, l, base, base + v) == None
    ensures Cost(y, kids, l, v, pa, y.pageSize) <= l
    decreases l, 1
  {
    hide Index, Off, Block, Open, OpenSlot, SlotCost, Paged, WalkSlot, FormedSlot, SlotRoom;
    var i, c := Index(y, l, v), y.pageSize;
    PageInSlot(y, l, v);
    IndexLess(y, l, v, |kids|);
    SplitRoom(y, kids, kids, l, v, pa, c);
    SlotPageRoom(y, kids[i], l, base + Off(y, l, i), Rem(y, l, v), pa);
    assert Room(y, kids, l, v + c, pa + c, 0);
    assert Cost(y, kids, l, v + c, pa + c, 0) == 0;
  }

  lemma {:induction false} SlotPageRoom(y: Layout, d: Tree, l: nat, start: nat, rem: nat, pa: nat)
    requires Sane(y) && y.entries > 1 && FormedSlot(y, d, l) && Paged(y, rem) && Paged(y, pa)
    requires rem + y.pageSize <= Block(y, l)
    ensures SlotRoom(y, d, l, rem, pa, y.pageSize) <==> WalkSlot(y, d, l, start, start + rem) == None
    ensures SlotCost(y, d, l, rem, pa, y.pageSize) <= l
    decreases l, 0
  {
    hide Index, Off, Open, Walk, Cost, Paged;
    BlockGrows(y, l);
    assert SlotRoom(y, d, l, rem, pa, y.pageSize) ==> OpenSlot(y, d, l, rem, pa, y.pageSize, rem);
    if l > 0 && d.Node? {
      var m := l - 1;
      assert Formed(y, d.kids, m);
      PageRoom(y, d.kids, m, start, rem, pa);
      if SlotRoom(y, d, l, rem, pa, y.pageSize) {
        forall x: nat | rem <= x < rem + y.pageSize
          ensures Open(y, d.kids, m, rem, pa, y.pageSize, x)
        {
          assert OpenSlot(y, d, l, rem, pa, y.pageSize, x);
        }
      }
    } else if l > 0 && d == Invalid {
      PageRoom(y, FreshTable(y), l - 1, start, rem, pa);
    }
  }

  // A table that holds nothing, where a block would go, refuses a range with nothing mapped in it.
  lemma EmptyTableRefuses(y: Layout, kids: seq<Tree>, l: nat, i: nat, pa: nat, attrs: nat, pages: nat)
    requires Sane(y) && Formed(y, kids, l) && i < |kids| && kids[i] == Node(FreshTable(y)) && l <= y.blockMax
    requires Rem(y, l, pa) == 0
    requires Off(y, l, i) + Block(y, l) <= Off(y, l, |kids|)
    ensures forall a: nat | Off(y, l, i) <= a < Off(y, l, i) + Block(y, l) :: Walk(y, kids, l, 0, a) == None
    ensures !MapInto(y, kids, l, Off(y, l, i), pa, Block(y, l), attrs, pages).ok
  {
    hide Off, Index, Block, Cost, MapInto, FreshTable, Paged;
    var v := Off(y, l, i);
    forall a: nat | v <= a < v + Block(y, l)
      ensures Walk(y, kids, l, 0, a) == None
    {
      IndexUnique(y, l, a, i);
      assert Walk(y, kids, l, 0, a) == WalkSlot(y, kids[i], l, v, a);
      if l > 0 { assert Walk(y, FreshTable(y), l - 1, v, a) == None; }
    }
    IndexUnique(y, l, v, i);
    assert !Open(y, kids, l, v, pa, Block(y, l), v);
    MapExactly(y, kids, l, v, pa, Block(y, l), attrs, pages);
  }
}
