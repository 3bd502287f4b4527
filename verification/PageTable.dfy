/** The multi-level page tables of arch/arm64/mmu.c as trees: map with rollback, unmap, query, and the flat map they
    stand for. */
module PageTable {
  import opened Options
  import Rounding

  // A descriptor, with the table it points to in place of that table's address.
  datatype Tree = Invalid | Leaf(pa: nat, attrs: nat) | Node(kids: seq<Tree>)

  datatype Layout = Layout(pageSize: nat, entries: nat, blockMax: nat)

  datatype Extent = Extent(start: nat, size: nat, pa: nat, attrs: nat)

  predicate Sane(y: Layout) {
    y.pageSize > 0 && y.entries > 0
  }

  // ---- slot arithmetic ----

  // Bytes one entry of a level-l table covers.
  function Block(y: Layout, l: nat): (b: nat)
    requires Sane(y)
    ensures b > 0
    decreases l, 0, 0
  {
    if l == 0 then y.pageSize else Off(y, l - 1, y.entries)
  }

  // Offset of entry i inside a level-l table.
  function Off(y: Layout, l: nat, i: nat): (o: nat)
    requires Sane(y)
    ensures i > 0 ==> o > 0
    decreases l, 1, i
  {
    if i == 0 then 0 else Off(y, l, i - 1) + Block(y, l)
  }

  function Index(y: Layout, l: nat, x: nat): (i: nat)
    requires Sane(y)
    ensures Off(y, l, i) <= x < Off(y, l, i) + Block(y, l)
    decreases x
  {
    if x < Block(y, l) then 0 else Index(y, l, x - Block(y, l)) + 1
  }

  lemma {:induction false} OffMono(y: Layout, l: nat, i: nat, j: nat)
    requires Sane(y) && i < j
    ensures Off(y, l, i) + Block(y, l) <= Off(y, l, j)
    decreases j
  {
    if i + 1 < j { OffMono(y, l, i, j - 1); }
  }

  lemma {:induction false} IndexUnique(y: Layout, l: nat, x: nat, q: nat)
    requires Sane(y) && Off(y, l, q) <= x < Off(y, l, q) + Block(y, l)
    ensures Index(y, l, x) == q
  {
    var i := Index(y, l, x);
    if i < q { OffMono(y, l, i, q); } else if q < i { OffMono(y, l, q, i); }
  }

  lemma {:induction false} IndexLess(y: Layout, l: nat, x: nat, n: nat)
    requires Sane(y) && x < Off(y, l, n)
    ensures Index(y, l, x) < n
  {
    var i := Index(y, l, x);
    if n < i { OffMono(y, l, n, i); }
  }

  function Rem(y: Layout, l: nat, x: nat): (r: nat)
    requires Sane(y)
    ensures r < Block(y, l)
  {
    x - Off(y, l, Index(y, l, x))
  }

  // The part of a request at v that falls in v's own slot.
  function Chunk(y: Layout, l: nat, v: nat, size: nat): (c: nat)
    requires Sane(y)
    ensures c <= size && Rem(y, l, v) + c <= Block(y, l) && (size > 0 ==> c > 0)
  {
    if size < Block(y, l) - Rem(y, l, v) then size else Block(y, l) - Rem(y, l, v)
  }

  // ---- the same arithmetic as shifts ----

  // index_shift of a level-l table: the page shift, and page shift minus 3 more for each level up.
  function IndexShift(page: nat, step: nat, l: nat): (s: nat) {
    if l == 0 then page else IndexShift(page, step, l - 1) + step
  }

  lemma {:induction false} OffIs(y: Layout, l: nat, i: nat)
    requires Sane(y)
    ensures Off(y, l, i) == i * Block(y, l)
    decreases i
  {
    if i > 0 { OffIs(y, l, i - 1); }
  }

  lemma {:induction false} BlockIs(y: Layout, l: nat, page: nat, step: nat)
    requires y.pageSize == Rounding.Pow2(page) && y.entries == Rounding.Pow2(step)
    ensures Block(y, l) == Rounding.Pow2(IndexShift(page, step, l))
    decreases l
  {
    if l > 0 {
      BlockIs(y, l - 1, page, step);
      OffIs(y, l - 1, y.entries);
      Rounding.Pow2Split(IndexShift(page, step, l - 1), step);
    }
  }

  // vaddr >> index_shift and vaddr - (index << index_shift)
  lemma IndexIs(y: Layout, l: nat, x: nat)
    requires Sane(y)
    ensures Index(y, l, x) == x / Block(y, l) && Rem(y, l, x) == x % Block(y, l)
  {
    OffIs(y, l, Index(y, l, x));
    Rounding.DivIs(x, Block(y, l), Index(y, l, x), Rem(y, l, x));
  }

  // ---- the tree ----

  // Full-size tables, one level apart, and no block above the highest level that allows one.
  predicate Formed(y: Layout, kids: seq<Tree>, l: nat) {
    forall i | 0 <= i < |kids| :: FormedSlot(y, kids[i], l)
  }

  predicate FormedSlot(y: Layout, d: Tree, l: nat)
    decreases l, 0, d
  {
    match d
    case Invalid => true
    case Leaf(_, _) => l <= y.blockMax
    case Node(kids) => l > 0 && |kids| == y.entries && forall i | 0 <= i < |kids| :: FormedSlot(y, kids[i], l - 1)
  }

  // The leaf that covers address a in a level-l table based at `base`.
  function Walk(y: Layout, kids: seq<Tree>, l: nat, base: nat, a: nat): (r: Option<Extent>)
    requires Sane(y)
    ensures r.Some? ==> r.value.size > 0
    decreases l, 1
  {
    if a < base || Index(y, l, a - base) >= |kids| then None
    else
      var i := Index(y, l, a - base);
      WalkSlot(y, kids[i], l, base + Off(y, l, i), a)
  }

  function WalkSlot(y: Layout, d: Tree, l: nat, start: nat, a: nat): (r: Option<Extent>)
    requires Sane(y)
    ensures r.Some? ==> r.value.size > 0
    decreases l, 0
  {
    match d
    case Invalid => None
    case Leaf(pa, attrs) => Some(Extent(start, Block(y, l), pa, attrs))
    case Node(kids) => if l == 0 then None else Walk(y, kids, l - 1, start, a)
  }

  predicate Apart(base: nat, size: nat, lo: nat, hi: nat) {
    hi <= lo || base + size <= lo || hi <= base
  }

  // A leaf covers the address it was found at and stays inside its slot.
  lemma {:induction false} WalkWithin(y: Layout, d: Tree, l: nat, start: nat, a: nat)
    requires Sane(y) && FormedSlot(y, d, l) && start <= a < start + Block(y, l) && WalkSlot(y, d, l, start, a).Some?
    ensures var e := WalkSlot(y, d, l, start, a).value;
      start <= e.start <= a < e.start + e.size <= start + Block(y, l)
    decreases l
  {
    if d.Node? {
      var i := Index(y, l - 1, a - start);
      IndexLess(y, l - 1, a - start, y.entries);
      OffMono(y, l - 1, i, y.entries);
      WalkWithin(y, d.kids[i], l - 1, start + Off(y, l - 1, i), a);
    }
  }

  // Every address of a leaf finds that same leaf.
  lemma {:induction false} WalkUniform(y: Layout, d: Tree, l: nat, start: nat, a: nat, b: nat)
    requires Sane(y) && FormedSlot(y, d, l) && start <= a < start + Block(y, l) && WalkSlot(y, d, l, start, a).Some?
    requires var e := WalkSlot(y, d, l, start, a).value; e.start <= b < e.start + e.size
    ensures WalkSlot(y, d, l, start, b) == WalkSlot(y, d, l, start, a)
    decreases l
  {
    hide Index, Off;
    if d.Node? {
      var i := Index(y, l - 1, a - start);
      var st := start + Off(y, l - 1, i);
      IndexLess(y, l - 1, a - start, y.entries);
      assert WalkSlot(y, d, l, start, a) == WalkSlot(y, d.kids[i], l - 1, st, a);
      WalkWithin(y, d.kids[i], l - 1, st, a);
      IndexUnique(y, l - 1, b - start, i);
      assert WalkSlot(y, d, l, start, b) == WalkSlot(y, d.kids[i], l - 1, st, b);
      WalkUniform(y, d.kids[i], l - 1, st, a, b);
    }
  }

  // ---- unmap ----

  predicate Clear(kids: seq<Tree>) {
    forall i | 0 <= i < |kids| :: kids[i] == Invalid
  }

  function UnmapTab(y: Layout, kids: seq<Tree>, l: nat, v: nat, size: nat): (r: seq<Tree>)
    requires Sane(y) && v + size <= Off(y, l, |kids|)
    ensures |r| == |kids|
    decreases l, 1, size
  {
    if size == 0 then kids
    else
      var i := Index(y, l, v);
      var rem := Rem(y, l, v);
      var chunk := Chunk(y, l, v, size);
      IndexLess(y, l, v, |kids|);
      UnmapTab(y, kids[i := UnmapSlot(y, kids[i], l, rem, chunk)], l, v + chunk, size - chunk)
  }

  function UnmapSlot(y: Layout, d: Tree, l: nat, rem: nat, chunk: nat): (r: Tree)
    requires Sane(y) && rem + chunk <= Block(y, l)
    decreases l, 0, 0
  {
    match d
    case Node(kids) =>
      if l > 0 && |kids| == y.entries then
        var k := UnmapTab(y, kids, l - 1, rem, chunk);
        if chunk == Block(y, l) || Clear(k) then Invalid else Node(k)
      else d
    case _ => Invalid
  }

  function Cut(x: Option<Extent>, lo: nat, hi: nat): (r: Option<Extent>) {
    if x.Some? && !Apart(x.value.start, x.value.size, lo, hi) then None else x
  }

  lemma {:induction false} UnmapFormed(y: Layout, kids: seq<Tree>, l: nat, v: nat, size: nat)
    requires Sane(y) && v + size <= Off(y, l, |kids|) && Formed(y, kids, l)
    ensures Formed(y, UnmapTab(y, kids, l, v, size), l)
    decreases l, 1, size
  {
    if size > 0 {
      var i := Index(y, l, v);
      var rem := Rem(y, l, v);
      var chunk := Chunk(y, l, v, size);
      IndexLess(y, l, v, |kids|);
      var d := UnmapSlot(y, kids[i], l, rem, chunk);
      UnmapSlotFormed(y, kids[i], l, rem, chunk);
      UnmapFormed(y, kids[i := d], l, v + chunk, size - chunk);
    }
  }

  // Unmapping [lo, hi) removes exactly the leaves that range touches.
  lemma {:induction false} UnmapAt(y: Layout, kids: seq<Tree>, l: nat, base: nat, v: nat, size: nat, a: nat)
    requires Sane(y) && v + size <= Off(y, l, |kids|) && Formed(y, kids, l)
    ensures Walk(y, UnmapTab(y, kids, l, v, size), l, base, a) ==
      Cut(Walk(y, kids, l, base, a), base + v, base + v + size)
    decreases l, 2, size
  {
    hide Walk, WalkSlot, Index, Off, Block, FormedSlot, UnmapSlot;
    if size > 0 {
      var i := Index(y, l, v);
      var rem := Rem(y, l, v);
      var chunk := Chunk(y, l, v, size);
      IndexLess(y, l, v, |kids|);
      var k := kids[i := UnmapSlot(y, kids[i], l, rem, chunk)];
      UnmapSlotFormed(y, kids[i], l, rem, chunk);
      UnmapStepAt(y, kids, l, base, i, rem, chunk, a);
      UnmapAt(y, k, l, base, v + chunk, size - chunk, a);
      CutCut(Walk(y, kids, l, base, a), base + v, base + v + chunk, base + v + size);
    }
  }

  lemma CutCut(x: Option<Extent>, lo: nat, mid: nat, hi: nat)
    requires lo <= mid <= hi && (x.Some? ==> x.value.size > 0)
    ensures Cut(Cut(x, lo, mid), mid, hi) == Cut(x, lo, hi)
  {
  }

  lemma {:induction false} UnmapStepAt(y: Layout, kids: seq<Tree>, l: nat, base: nat, i: nat, rem: nat, chunk: nat,
                                       a: nat)
    requires Sane(y) && Formed(y, kids, l) && i < |kids| && 0 < chunk && rem + chunk <= Block(y, l)
    ensures var lo := base + Off(y, l, i) + rem;
      Walk(y, kids[i := UnmapSlot(y, kids[i], l, rem, chunk)], l, base, a) ==
        Cut(Walk(y, kids, l, base, a), lo, lo + chunk)
    decreases l, 1, 0
  {
    var d := UnmapSlot(y, kids[i], l, rem, chunk);
    var k := kids[i := d];
    if a >= base && Index(y, l, a - base) < |kids| {
      var j := Index(y, l, a - base);
      var s := base + Off(y, l, j);
      assert Walk(y, kids, l, base, a) == WalkSlot(y, kids[j], l, s, a);
      assert Walk(y, k, l, base, a) == WalkSlot(y, k[j], l, s, a);
      if j == i {
        UnmapSlotAt(y, kids[i], l, s, rem, chunk, a);
      } else if WalkSlot(y, kids[j], l, s, a).Some? {
        WalkWithin(y, kids[j], l, s, a);
        if j < i { OffMono(y, l, j, i); } else { OffMono(y, l, i, j); }
      }
    }
  }

  lemma {:induction false} UnmapSlotFormed(y: Layout, d: Tree, l: nat, rem: nat, chunk: nat)
    requires Sane(y) && rem + chunk <= Block(y, l) && FormedSlot(y, d, l)
    ensures FormedSlot(y, UnmapSlot(y, d, l, rem, chunk), l)
    decreases l, 0, 0
  {
    if d.Node? {
      assert Formed(y, d.kids, l - 1);
      UnmapFormed(y, d.kids, l - 1, rem, chunk);
    }
  }

  lemma {:induction false} UnmapSlotAt(y: Layout, d: Tree, l: nat, start: nat, rem: nat, chunk: nat, a: nat)
    requires Sane(y) && FormedSlot(y, d, l) && 0 < chunk && rem + chunk <= Block(y, l)
    requires start <= a < start + Block(y, l)
    ensures WalkSlot(y, UnmapSlot(y, d, l, rem, chunk), l, start, a) ==
      Cut(WalkSlot(y, d, l, start, a), start + rem, start + rem + chunk)
    decreases l, 0, 0
  {
    if d.Node? {
      var k := UnmapTab(y, d.kids, l - 1, rem, chunk);
      assert Formed(y, d.kids, l - 1);
      UnmapAt(y, d.kids, l - 1, start, rem, chunk, a);
      if WalkSlot(y, d, l, start, a).Some? { WalkWithin(y, d, l, start, a); }
      if Clear(k) { assert Walk(y, k, l - 1, start, a) == None; }
    }
  }

  // A table whose whole range was unmapped holds only invalid descriptors.
  lemma {:induction false} UnmapWhole(y: Layout, kids: seq<Tree>, l: nat, i: nat)
    requires Sane(y) && Formed(y, kids, l) && i <= |kids| && Clear(kids[..i])
    requires Off(y, l, i) <= Off(y, l, |kids|)
    ensures Clear(UnmapTab(y, kids, l, Off(y, l, i), Off(y, l, |kids|) - Off(y, l, i)))
    decreases |kids| - i
  {
    var v, size := Off(y, l, i), Off(y, l, |kids|) - Off(y, l, i);
    if i < |kids| {
      IndexUnique(y, l, v, i);
      OffMono(y, l, i, |kids|);
      var d := UnmapSlot(y, kids[i], l, 0, Block(y, l));
      UnmapSlotFormed(y, kids[i], l, 0, Block(y, l));
      assert d == Invalid;
      var k := kids[i := d];
      assert k[..i + 1] == kids[..i] + [Invalid];
      UnmapWhole(y, k, l, i + 1);
      assert v + Block(y, l) == Off(y, l, i + 1);
    } else {
      assert kids[..i] == kids;
    }
  }

  // ---- page alignment ----

  predicate Paged(y: Layout, x: nat)
    requires Sane(y)
  {
    Rem(y, 0, x) == 0
  }

  lemma {:induction false} OffAdd(y: Layout, i: nat, j: nat)
    requires Sane(y)
    ensures Off(y, 0, i) + Off(y, 0, j) == Off(y, 0, i + j)
  {
    if j > 0 { OffAdd(y, i, j - 1); }
  }

  lemma {:induction false} PagedSum(y: Layout, a: nat, b: nat)
    requires Sane(y) && Paged(y, a) && Paged(y, b)
    ensures Paged(y, a + b) && (a >= b ==> Paged(y, a - b))
  {
    var i, j := Index(y, 0, a), Index(y, 0, b);
    OffAdd(y, i, j);
    IndexUnique(y, 0, a + b, i + j);
    if a >= b {
      if i < j { OffMono(y, 0, i, j); }
      OffAdd(y, i - j, j);
      IndexUnique(y, 0, a - b, i - j);
    }
  }

  lemma {:induction false} BlockPaged(y: Layout, l: nat)
    requires Sane(y)
    ensures Paged(y, Block(y, l))
    decreases l, 0, 0
  {
    if l > 0 {
      OffPaged(y, l - 1, y.entries);
    } else {
      assert Off(y, 0, 1) == Block(y, 0);
      IndexUnique(y, 0, Block(y, 0), 1);
    }
  }

  lemma {:induction false} OffPaged(y: Layout, l: nat, i: nat)
    requires Sane(y)
    ensures Paged(y, Off(y, l, i))
    decreases l, 1, i
  {
    if i > 0 {
      OffPaged(y, l, i - 1);
      BlockPaged(y, l);
      PagedSum(y, Off(y, l, i - 1), Block(y, l));
    }
  }

  // The piece of a page-aligned request that falls in one slot is page aligned.
  lemma {:induction false} ChunkPaged(y: Layout, l: nat, v: nat, size: nat, chunk: nat)
    requires Sane(y) && Paged(y, v) && Paged(y, size) && 0 < size
    requires chunk == Chunk(y, l, v, size)
    ensures Paged(y, Rem(y, l, v)) && Paged(y, chunk) && Paged(y, v + chunk) && Paged(y, size - chunk)
    ensures l == 0 ==> Rem(y, l, v) == 0 && chunk == Block(y, l)
  {
    var i := Index(y, l, v);
    OffPaged(y, l, i);
    PagedSum(y, v, Off(y, l, i));
    BlockPaged(y, l);
    PagedSum(y, Block(y, l), Rem(y, l, v));
    PagedSum(y, v, chunk);
    PagedSum(y, size, chunk);
    if l == 0 { assert Index(y, 0, size) > 0; OffMono(y, 0, 0, Index(y, 0, size)); }
  }

  // ---- map ----

  datatype Mapping = Mapping(kids: seq<Tree>, pages: nat, left: nat)

  datatype Placed = Placed(d: Tree, pages: nat, ok: bool)

  function FreshTable(y: Layout): (k: seq<Tree>)
    ensures |k| == y.entries && Clear(k)
  {
    seq(y.entries, _ => Invalid)
  }

  // The loop of the mapper: stops at the first slot that cannot be filled.
  function MapRun(y: Layout, kids: seq<Tree>, l: nat, v: nat, pa: nat, size: nat, attrs: nat, pages: nat): (r: Mapping)
    requires Sane(y) && v + size <= Off(y, l, |kids|)
    ensures |r.kids| == |kids| && r.left <= size
    decreases l, 1, size
  {
    if size == 0 then Mapping(kids, pages, 0)
    else
      var i := Index(y, l, v);
      var rem := Rem(y, l, v);
      var chunk := Chunk(y, l, v, size);
      IndexLess(y, l, v, |kids|);
      var s := MapSlot(y, kids[i], l, rem, pa, chunk, attrs, pages);
      if s.ok then MapRun(y, kids[i := s.d], l, v + chunk, pa + chunk, size - chunk, attrs, s.pages)
      else Mapping(kids[i := s.d], s.pages, size)
  }

  function MapSlot(y: Layout, d: Tree, l: nat, rem: nat, pa: nat, chunk: nat, attrs: nat, pages: nat): (r: Placed)
    requires Sane(y) && rem + chunk <= Block(y, l)
    decreases l, 0, 0
  {
    if rem != 0 || Rem(y, l, pa) != 0 || chunk != Block(y, l) || l > y.blockMax then
      match d
      case Invalid =>
        if pages == 0 || l == 0 then Placed(d, pages, false)
        else MapInto(y, FreshTable(y), l - 1, rem, pa, chunk, attrs, pages - 1)
      case Leaf(_, _) => Placed(d, pages, false)
      case Node(kids) =>
        if l == 0 || |kids| != y.entries then Placed(d, pages, false)
        else MapInto(y, kids, l - 1, rem, pa, chunk, attrs, pages)
    else if d != Invalid then Placed(d, pages, false)
    else Placed(Leaf(pa, attrs), pages, true)
  }

  function MapInto(y: Layout, kids: seq<Tree>, l: nat, v: nat, pa: nat, size: nat, attrs: nat, pages: nat): (r: Placed)
    requires Sane(y) && v + size <= Off(y, l, |kids|)
    ensures r.d.Node? && |r.d.kids| == |kids|
    decreases l, 2, 0
  {
    if !Paged(y, v) || !Paged(y, pa) || !Paged(y, size) then Placed(Node(kids), pages, false)
    else
      var r := MapRun(y, kids, l, v, pa, size, attrs, pages);
      if r.left == 0 then Placed(Node(r.kids), r.pages, true)
      else Placed(Node(UnmapTab(y, r.kids, l, v, size - r.left)), r.pages, false)
  }

  lemma {:induction false} MapRunFormed(y: Layout, kids: seq<Tree>, l: nat, v: nat, pa: nat, size: nat, attrs: nat,
                                        pages: nat)
    requires Sane(y) && v + size <= Off(y, l, |kids|) && Formed(y, kids, l)
    ensures Formed(y, MapRun(y, kids, l, v, pa, size, attrs, pages).kids, l)
    decreases l, 1, size
  {
    if size > 0 {
      var i := Index(y, l, v);
      var rem := Rem(y, l, v);
      var chunk := Chunk(y, l, v, size);
      IndexLess(y, l, v, |kids|);
      var s := MapSlot(y, kids[i], l, rem, pa, chunk, attrs, pages);
      MapSlotFormed(y, kids[i], l, rem, pa, chunk, attrs, pages);
      if s.ok { MapRunFormed(y, kids[i := s.d], l, v + chunk, pa + chunk, size - chunk, attrs, s.pages); }
    }
  }

  lemma {:induction false} MapSlotFormed(y: Layout, d: Tree, l: nat, rem: nat, pa: nat, chunk: nat, attrs: nat,
                                         pages: nat)
    requires Sane(y) && rem + chunk <= Block(y, l) && FormedSlot(y, d, l)
    ensures FormedSlot(y, MapSlot(y, d, l, rem, pa, chunk, attrs, pages).d, l)
    decreases l, 0, 0
  {
    if l > 0 && d == Invalid && pages > 0 {
      MapIntoFormed(y, FreshTable(y), l - 1, rem, pa, chunk, attrs, pages - 1);
    } else if d.Node? {
      MapIntoFormed(y, d.kids, l - 1, rem, pa, chunk, attrs, pages);
    }
  }

  lemma {:induction false} MapIntoFormed(y: Layout, kids: seq<Tree>, l: nat, v: nat, pa: nat, size: nat, attrs: nat,
                                         pages: nat)
    requires Sane(y) && v + size <= Off(y, l, |kids|) && Formed(y, kids, l)
    ensures Formed(y, MapInto(y, kids, l, v, pa, size, attrs, pages).d.kids, l)
    decreases l, 2, 0
  {
    var r := MapRun(y, kids, l, v, pa, size, attrs, pages);
    MapRunFormed(y, kids, l, v, pa, size, attrs, pages);
    UnmapFormed(y, r.kids, l, v, size - r.left);
  }

  // x and x' are what address a found before and after mapping [lo, hi) to pa.
  predicate Laid(x: Option<Extent>, x': Option<Extent>, lo: nat, hi: nat, pa: nat, attrs: nat, a: nat) {
    match x'
    case None => x == None && !(lo <= a < hi)
    case Some(e) =>
      if lo <= a < hi then
        && x == None && lo <= e.start <= a < e.start + e.size <= hi
        && e.pa + (a - e.start) == pa + (a - lo) && e.attrs == attrs
      else x == x'
  }

  lemma LaidTrans(x: Option<Extent>, x1: Option<Extent>, x2: Option<Extent>, lo: nat, mid: nat, hi: nat, pa: nat,
                  attrs: nat, a: nat)
    requires lo <= mid <= hi && Laid(x, x1, lo, mid, pa, attrs, a) && Laid(x1, x2, mid, hi, pa + (mid - lo), attrs, a)
    ensures Laid(x, x2, lo, hi, pa, attrs, a)
  {
  }

  lemma LaidNone(x: Option<Extent>, lo: nat, pa: nat, attrs: nat, a: nat)
    ensures Laid(x, x, lo, lo, pa, attrs, a)
  {
  }

  lemma MapRunNone(y: Layout, kids: seq<Tree>, l: nat, v: nat, pa: nat, attrs: nat, pages: nat)
    requires Sane(y) && v <= Off(y, l, |kids|)
    ensures MapRun(y, kids, l, v, pa, 0, attrs, pages) == Mapping(kids, pages, 0)
  {
  }

  lemma {:induction false} MapRunAt(y: Layout, kids: seq<Tree>, l: nat, base: nat, v: nat, pa: nat, size: nat,
                                    attrs: nat, pages: nat, a: nat, r: Mapping)
    requires Sane(y) && v + size <= Off(y, l, |kids|) && Formed(y, kids, l)
    requires Paged(y, v) && Paged(y, pa) && Paged(y, size)
    requires r == MapRun(y, kids, l, v, pa, size, attrs, pages)
    ensures Laid(Walk(y, kids, l, base, a), Walk(y, r.kids, l, base, a), base + v,
      base + v + (size - r.left), pa, attrs, a)
    decreases l, 3, size
  {
    hide *;
    if size == 0 {
      MapRunNone(y, kids, l, v, pa, attrs, pages);
      LaidNone(Walk(y, kids, l, base, a), base + v, pa, attrs, a);
    } else {
      var k, n, ok := MapStepAt(y, kids, l, base, v, pa, size, attrs, pages, a);
      if ok {
        var chunk := Chunk(y, l, v, size);
        MapRunAt(y, k, l, base, v + chunk, pa + chunk, size - chunk, attrs, n, a, r);
        LaidTrans(Walk(y, kids, l, base, a), Walk(y, k, l, base, a), Walk(y, r.kids, l, base, a),
          base + v, base + v + chunk, base + v + (size - r.left), pa, attrs, a);
      }
    }
  }

  // One turn of the loop: what it leaves, and what the rest of the loop starts from.
  lemma {:induction false} MapStepAt(y: Layout, kids: seq<Tree>, l: nat, base: nat, v: nat, pa: nat, size: nat,
                                     attrs: nat, pages: nat, a: nat)
    returns (k: seq<Tree>, n: nat, ok: bool)
    requires Sane(y) && 0 < size && v + size <= Off(y, l, |kids|) && Formed(y, kids, l)
    requires Paged(y, v) && Paged(y, pa) && Paged(y, size)
    ensures |k| == |kids| && Formed(y, k, l)
    ensures var chunk := Chunk(y, l, v, size); Paged(y, v + chunk) && Paged(y, pa + chunk) && Paged(y, size - chunk)
    ensures var chunk := Chunk(y, l, v, size);
      MapRun(y, kids, l, v, pa, size, attrs, pages) ==
        if ok then MapRun(y, k, l, v + chunk, pa + chunk, size - chunk, attrs, n) else Mapping(k, n, size)
    ensures var lo := base + v; var hi := if ok then lo + Chunk(y, l, v, size) else lo;
      Laid(Walk(y, kids, l, base, a), Walk(y, k, l, base, a), lo, hi, pa, attrs, a)
    decreases l, 2, 0
  {
    hide Walk, MapSlot, MapRun, Laid, Formed, Paged, Index, Off, Block;
    var i, rem, chunk := Index(y, l, v), Rem(y, l, v), Chunk(y, l, v, size);
    MapRunStep(y, kids, l, v, pa, size, attrs, pages);
    ChunkPaged(y, l, v, size, chunk);
    PagedSum(y, pa, chunk);
    MapOneAt(y, kids, l, base, i, rem, pa, chunk, attrs, pages, a);
    var s := MapSlot(y, kids[i], l, rem, pa, chunk, attrs, pages);
    k, n, ok := kids[i := s.d], s.pages, s.ok;
  }

  lemma {:induction false} MapRunStep(y: Layout, kids: seq<Tree>, l: nat, v: nat, pa: nat, size: nat, attrs: nat,
                                      pages: nat)
    requires Sane(y) && 0 < size && v + size <= Off(y, l, |kids|) && Formed(y, kids, l)
    ensures Index(y, l, v) < |kids|
    ensures var i, chunk := Index(y, l, v), Chunk(y, l, v, size);
      var s := MapSlot(y, kids[i], l, Rem(y, l, v), pa, chunk, attrs, pages);
      && Formed(y, kids[i := s.d], l)
      && MapRun(y, kids, l, v, pa, size, attrs, pages) ==
        if s.ok then MapRun(y, kids[i := s.d], l, v + chunk, pa + chunk, size - chunk, attrs, s.pages)
        else Mapping(kids[i := s.d], s.pages, size)
  {
    IndexLess(y, l, v, |kids|);
    MapSlotFormed(y, kids[Index(y, l, v)], l, Rem(y, l, v), pa, Chunk(y, l, v, size), attrs, pages);
  }

  lemma {:induction false} MapOneAt(y: Layout, kids: seq<Tree>, l: nat, base: nat, i: nat, rem: nat, pa: nat,
                                    chunk: nat, attrs: nat, pages: nat, a: nat)
    requires Sane(y) && Formed(y, kids, l) && i < |kids| && 0 < chunk && rem + chunk <= Block(y, l)
    requires Paged(y, rem) && Paged(y, pa) && Paged(y, chunk) && (l == 0 ==> rem == 0 && chunk == Block(y, l))
    ensures var s := MapSlot(y, kids[i], l, rem, pa, chunk, attrs, pages);
      var lo := base + Off(y, l, i) + rem;
      var hi := if s.ok then lo + chunk else lo;
      Laid(Walk(y, kids, l, base, a), Walk(y, kids[i := s.d], l, base, a), lo, hi, pa, attrs, a)
    decreases l, 1, 0
  {
    hide MapSlot, Paged, Index, Off, FormedSlot;
    var s := MapSlot(y, kids[i], l, rem, pa, chunk, attrs, pages);
    var k := kids[i := s.d];
    if a >= base && Index(y, l, a - base) < |kids| {
      var j := Index(y, l, a - base);
      var st := base + Off(y, l, j);
      assert Walk(y, kids, l, base, a) == WalkSlot(y, kids[j], l, st, a);
      assert Walk(y, k, l, base, a) == WalkSlot(y, k[j], l, st, a);
      if j == i {
        MapSlotAt(y, kids[i], l, st, rem, pa, chunk, attrs, pages, a);
      } else {
        if j < i { OffMono(y, l, j, i); } else { OffMono(y, l, i, j); }
      }
    } else if a >= base {
      if Index(y, l, a - base) < i { } else { OffMono(y, l, i, Index(y, l, a - base)); }
    }
  }

  lemma {:induction false} MapSlotAt(y: Layout, d: Tree, l: nat, start: nat, rem: nat, pa: nat, chunk: nat,
                                     attrs: nat, pages: nat, a: nat)
    requires Sane(y) && FormedSlot(y, d, l) && 0 < chunk && rem + chunk <= Block(y, l)
    requires start <= a < start + Block(y, l)
    requires Paged(y, rem) && Paged(y, pa) && Paged(y, chunk) && (l == 0 ==> rem == 0 && chunk == Block(y, l))
    ensures var s := MapSlot(y, d, l, rem, pa, chunk, attrs, pages);
      var lo := start + rem; var hi := if s.ok then lo + chunk else lo;
      Laid(WalkSlot(y, d, l, start, a), WalkSlot(y, s.d, l, start, a), lo, hi, pa, attrs, a)
    decreases l, 0, 0
  {
    var s := MapSlot(y, d, l, rem, pa, chunk, attrs, pages);
    if rem != 0 || Rem(y, l, pa) != 0 || chunk != Block(y, l) || l > y.blockMax {
      if d == Invalid && pages > 0 {
        MapIntoAt(y, FreshTable(y), l - 1, start, rem, pa, chunk, attrs, pages - 1, a);
        assert Walk(y, FreshTable(y), l - 1, start, a) == None;
      } else if d.Node? {
        MapIntoAt(y, d.kids, l - 1, start, rem, pa, chunk, attrs, pages, a);
      }
    }
  }

  // A map that fails is undone: every address finds what it found before.
  lemma {:induction false} MapIntoAt(y: Layout, kids: seq<Tree>, l: nat, base: nat, v: nat, pa: nat, size: nat,
                                     attrs: nat, pages: nat, a: nat)
    requires Sane(y) && v + size <= Off(y, l, |kids|) && Formed(y, kids, l)
    requires Paged(y, v) && Paged(y, pa) && Paged(y, size)
    ensures var r := MapInto(y, kids, l, v, pa, size, attrs, pages);
      var lo := base + v; var hi := if r.ok then lo + size else lo;
      Laid(Walk(y, kids, l, base, a), Walk(y, r.d.kids, l, base, a), lo, hi, pa, attrs, a)
    decreases l, 5, 0
  {
    var r := MapRun(y, kids, l, v, pa, size, attrs, pages);
    if r.left == 0 {
      MapRunAt(y, kids, l, base, v, pa, size, attrs, pages, a, r);
    } else {
      MapUndoneAt(y, kids, l, base, v, pa, size, attrs, pages, a, r);
    }
  }

  lemma {:induction false} MapUndoneAt(y: Layout, kids: seq<Tree>, l: nat, base: nat, v: nat, pa: nat, size: nat,
                                       attrs: nat, pages: nat, a: nat, r: Mapping)
    requires Sane(y) && v + size <= Off(y, l, |kids|) && Formed(y, kids, l)
    requires Paged(y, v) && Paged(y, pa) && Paged(y, size)
    requires r == MapRun(y, kids, l, v, pa, size, attrs, pages)
    ensures Walk(y, UnmapTab(y, r.kids, l, v, size - r.left), l, base, a) == Walk(y, kids, l, base, a)
    decreases l, 4, 0
  {
    hide Walk, WalkSlot, Index, Off, Block, FormedSlot, UnmapTab, MapRun;
    MapRunFormed(y, kids, l, v, pa, size, attrs, pages);
    UnmapAt(y, r.kids, l, base, v, size - r.left, a);
    MapRunAt(y, kids, l, base, v, pa, size, attrs, pages, a, r);
    var x := Walk(y, r.kids, l, base, a);
    if x.Some? {
      var b := if x.value.start < base + v then base + v else x.value.start;
      MapRunAt(y, kids, l, base, v, pa, size, attrs, pages, b, r);
      RollbackAt(y, kids, r.kids, l, base, base + v, base + v + (size - r.left), pa, attrs, a, b);
    }
  }

  // Outside the range just filled, no leaf reaches into it.
  lemma {:induction false} RollbackAt(y: Layout, kids: seq<Tree>, kids': seq<Tree>, l: nat, base: nat, lo: nat,
                                      hi: nat, pa: nat, attrs: nat, a: nat, b: nat)
    requires Sane(y) && Formed(y, kids', l) && Walk(y, kids', l, base, a).Some?
    requires Laid(Walk(y, kids, l, base, a), Walk(y, kids', l, base, a), lo, hi, pa, attrs, a)
    requires Laid(Walk(y, kids, l, base, b), Walk(y, kids', l, base, b), lo, hi, pa, attrs, b)
    requires var e := Walk(y, kids', l, base, a).value; b == if e.start < lo then lo else e.start
    ensures Cut(Walk(y, kids', l, base, a), lo, hi) == if lo <= a < hi then None else Walk(y, kids', l, base, a)
  {
    var e := Walk(y, kids', l, base, a).value;
    WalkUniformTab(y, kids', l, base, a, e.start);
    if b < e.start + e.size { WalkUniformTab(y, kids', l, base, a, b); }
  }

  lemma {:induction false} WalkUniformTab(y: Layout, kids: seq<Tree>, l: nat, base: nat, a: nat, b: nat)
    requires Sane(y) && Formed(y, kids, l) && Walk(y, kids, l, base, a).Some?
    requires var e := Walk(y, kids, l, base, a).value; e.start <= b < e.start + e.size
    ensures Walk(y, kids, l, base, b) == Walk(y, kids, l, base, a)
    ensures var e := Walk(y, kids, l, base, a).value; e.start <= a < e.start + e.size
  {
    hide WalkSlot, Index, Off, Block, FormedSlot;
    var i := Index(y, l, a - base);
    var s := base + Off(y, l, i);
    WalkWithin(y, kids[i], l, s, a);
    IndexUnique(y, l, b - base, i);
    WalkUniform(y, kids[i], l, s, a, b);
  }

  // ---- the flat map that the tables stand for ----

  datatype Translation = Translation(pa: int, attrs: nat)

  function Query(y: Layout, kids: seq<Tree>, top: nat, a: nat): (r: Option<Translation>)
    requires Sane(y)
  {
    match Walk(y, kids, top, 0, a)
    case None => None
    case Some(e) => Some(Translation(e.pa + (a - e.start), e.attrs))
  }

  predicate InRange(y: Layout, kids: seq<Tree>, top: nat, v: nat, size: nat)
    requires Sane(y)
  {
    v + size <= Off(y, top, |kids|)
  }

  function MapTop(y: Layout, kids: seq<Tree>, top: nat, v: nat, pa: nat, size: nat, attrs: nat,
                  pages: nat): (r: (seq<Tree>, bool))
    requires Sane(y)
  {
    if !InRange(y, kids, top, v, size) then (kids, false)
    else var r := MapInto(y, kids, top, v, pa, size, attrs, pages); (r.d.kids, r.ok)
  }

  function UnmapTop(y: Layout, kids: seq<Tree>, top: nat, v: nat, size: nat): (r: seq<Tree>)
    requires Sane(y)
  {
    if !InRange(y, kids, top, v, size) then kids else UnmapTab(y, kids, top, v, size)
  }

  // A map that succeeds adds exactly its range; one that fails, for whatever reason, changes no translation.
  lemma {:induction false} MapFlat(y: Layout, kids: seq<Tree>, top: nat, v: nat, pa: nat, size: nat, attrs: nat,
                                   pages: nat, a: nat)
    requires Sane(y) && Formed(y, kids, top)
    ensures var (k, ok) := MapTop(y, kids, top, v, pa, size, attrs, pages);
      && Formed(y, k, top) && |k| == |kids|
      && (ok && v <= a < v + size ==> Query(y, kids, top, a) == None)
      && Query(y, k, top, a) == if ok &&
         v <= a < v + size then Some(Translation(pa + (a - v), attrs)) else Query(y, kids, top, a)
  {
    if InRange(y, kids, top, v, size) {
      MapIntoFormed(y, kids, top, v, pa, size, attrs, pages);
      if Paged(y, v) && Paged(y, pa) && Paged(y, size) {
        MapIntoAt(y, kids, top, 0, v, pa, size, attrs, pages, a);
      }
    }
  }

  // [v, v + size) takes every leaf it touches whole.
  ghost predicate Whole(y: Layout, kids: seq<Tree>, top: nat, v: nat, size: nat)
    requires Sane(y)
  {
    forall a: nat | v <= a < v + size && Walk(y, kids, top, 0, a).Some? ::
      var e := Walk(y, kids, top, 0, a).value; v <= e.start && e.start + e.size <= v + size
  }

  // Unmap removes exactly its range from the flat map if and only if the range cuts no block.
  lemma {:induction false} UnmapFlat(y: Layout, kids: seq<Tree>, top: nat, v: nat, size: nat)
    requires Sane(y) && Formed(y, kids, top) && InRange(y, kids, top, v, size)
    ensures Formed(y, UnmapTop(y, kids, top, v, size), top)
    ensures Whole(y, kids, top, v, size) <==>
      forall a: nat ::
        Query(y, UnmapTop(y, kids, top, v, size), top, a) == if v <= a < v + size then None else Query(y, kids, top, a)
  {
    var k := UnmapTop(y, kids, top, v, size);
    UnmapFormed(y, kids, top, v, size);
    if Whole(y, kids, top, v, size) {
      forall a: nat
        ensures Query(y, k, top, a) == if v <= a < v + size then None else Query(y, kids, top, a)
      {
        UnmapWholeAt(y, kids, top, v, size, a);
      }
    } else {
      var a: nat :| v <= a < v + size && Walk(y, kids, top, 0, a).Some? &&
        var e := Walk(y, kids, top, 0, a).value; !(v <= e.start && e.start + e.size <= v + size);
      var e := Walk(y, kids, top, 0, a).value;
      var b := if e.start < v then e.start else e.start + e.size - 1;
      WalkUniformTab(y, kids, top, 0, a, b);
      UnmapAt(y, kids, top, 0, v, size, b);
      assert Query(y, k, top, b) == None && Query(y, kids, top, b).Some? && !(v <= b < v + size);
    }
  }

  // A block of two pages is cut by the unmap of its first page, and the second page goes too.
  lemma UnmapCuts()
    ensures var y, kids := Layout(4096, 2, 1), [Leaf(0, 7)];
      && Formed(y, kids, 1) && InRange(y, kids, 1, 0, 4096) && !Whole(y, kids, 1, 0, 4096)
      && Query(y, kids, 1, 4096) == Some(Translation(4096, 7)) &&
         Query(y, UnmapTop(y, kids, 1, 0, 4096), 1, 4096) == None
  {
    hide Index, UnmapTab;
    var y, kids := Layout(4096, 2, 1), [Leaf(0, 7)];
    assert Off(y, 0, 2) == 8192 && Off(y, 1, 1) == 8192 && Off(y, 1, 0) == 0;
    IndexUnique(y, 1, 0, 0);
    IndexUnique(y, 1, 4096, 0);
    assert Walk(y, kids, 1, 0, 0) == Some(Extent(0, 8192, 0, 7)) == Walk(y, kids, 1, 0, 4096);
    UnmapAt(y, kids, 1, 0, 0, 4096, 4096);
  }

  lemma {:induction false} UnmapWholeAt(y: Layout, kids: seq<Tree>, top: nat, v: nat, size: nat, a: nat)
    requires Sane(y) && Formed(y, kids, top) && InRange(y, kids, top, v, size) && Whole(y, kids, top, v, size)
    ensures Query(y, UnmapTop(y, kids, top, v, size), top, a) ==
      if v <= a < v + size then None else Query(y, kids, top, a)
  {
    UnmapAt(y, kids, top, 0, v, size, a);
    var x := Walk(y, kids, top, 0, a);
    if x.Some? {
      WalkUniformTab(y, kids, top, 0, a, x.value.start);
      var b := if x.value.start < v then v else x.value.start;
      if x.value.start <= b < x.value.start + x.value.size { WalkUniformTab(y, kids, top, 0, a, b); }
    }
  }

  datatype Op = MapOp(v: nat, pa: nat, size: nat, attrs: nat, pages: nat) | UnmapOp(v: nat, size: nat)

  function Apply(y: Layout, kids: seq<Tree>, top: nat, op: Op): (k: seq<Tree>)
    requires Sane(y)
  {
    match op
    case MapOp(v, pa, size, attrs, pages) => MapTop(y, kids, top, v, pa, size, attrs, pages).0
    case UnmapOp(v, size) => UnmapTop(y, kids, top, v, size)
  }

  function Run(y: Layout, kids: seq<Tree>, top: nat, ops: seq<Op>): (k: seq<Tree>)
    requires Sane(y)
  {
    if ops == [] then kids else Apply(y, Run(y, kids, top, ops[..|ops| - 1]), top, ops[|ops| - 1])
  }

  // No unmap of the run cuts a block that is mapped when it is called.
  ghost predicate NeverCuts(y: Layout, kids: seq<Tree>, top: nat, ops: seq<Op>)
    requires Sane(y)
  {
    ops == [] ||
    (var k, op := Run(y, kids, top, ops[..|ops| - 1]), ops[|ops| - 1];
    && NeverCuts(y, kids, top, ops[..|ops| - 1])
    && (op.UnmapOp? && InRange(y, k, top, op.v, op.size) ==> Whole(y, k, top, op.v, op.size)))
  }

  // What the latest call that covered a left there.
  function Latest(y: Layout, kids: seq<Tree>, top: nat, ops: seq<Op>, a: nat): (r: Option<Translation>)
    requires Sane(y)
  {
    if ops == [] then None
    else
      var k, op := Run(y, kids, top, ops[..|ops| - 1]), ops[|ops| - 1];
      if op.v <= a < op.v + op.size && op.MapOp? && MapTop(y, k, top, op.v, op.pa, op.size, op.attrs, op.pages).1 then
        Some(Translation(op.pa + (a - op.v), op.attrs))
      else if op.v <= a < op.v + op.size && op.UnmapOp? && InRange(y, k, top, op.v, op.size) then None
      else Latest(y, kids, top, ops[..|ops| - 1], a)
  }

  // From empty tables, every query answers with the latest call that covered the address.
  lemma {:induction false} RunIsFlat(y: Layout, kids: seq<Tree>, top: nat, ops: seq<Op>, a: nat)
    requires Sane(y) && Clear(kids) && NeverCuts(y, kids, top, ops)
    ensures Formed(y, Run(y, kids, top, ops), top) && |Run(y, kids, top, ops)| == |kids|
    ensures Query(y, Run(y, kids, top, ops), top, a) == Latest(y, kids, top, ops, a)
  {
    if ops != [] {
      var k, op := Run(y, kids, top, ops[..|ops| - 1]), ops[|ops| - 1];
      RunIsFlat(y, kids, top, ops[..|ops| - 1], a);
      match op {
        case MapOp(v, pa, size, attrs, pages) => MapFlat(y, k, top, v, pa, size, attrs, pages, a);
        case UnmapOp(v, size) =>
          if InRange(y, k, top, v, size) {
            UnmapFormed(y, k, top, v, size);
            UnmapWholeAt(y, k, top, v, size, a);
          }
      }
    } else {
      assert Walk(y, kids, top, 0, a) == None;
    }
  }
}
