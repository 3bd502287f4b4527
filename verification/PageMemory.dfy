/** The same tables as pages of memory written in place, against the trees of PageTable. */
module PageMemory {
  import opened Options
  import opened PageTable

  datatype Desc = Empty | Table(addr: nat) | Page(pa: nat, attrs: nat)

  type Mem = map<nat, seq<Desc>>

  // The table pages under t, t included, and those under one descriptor.
  function Foot(mem: Mem, t: nat, l: nat): (f: set<nat>)
    decreases l, 1
  {
    if t !in mem then {}
    else {t} + (set i, u | 0 <= i < |mem[t]| && u in FootDesc(mem, mem[t][i], l) :: u)
  }

  function FootDesc(mem: Mem, d: Desc, l: nat): (f: set<nat>)
    decreases l, 0
  {
    if d.Table? && l > 0 then Foot(mem, d.addr, l - 1) else {}
  }

  // Nothing is shared: the tables hanging off different slots are disjoint and none of them is t.
  ghost predicate Sep(y: Layout, mem: Mem, t: nat, l: nat)
    decreases l, 1
  {
    && t in mem
    && (forall i | 0 <= i < |mem[t]| :: SepDesc(y, mem, mem[t][i], l) && t !in FootDesc(mem, mem[t][i], l))
    && (forall i, j | 0 <= i < j < |mem[t]| :: FootDesc(mem, mem[t][i], l) !! FootDesc(mem, mem[t][j], l))
  }

  ghost predicate SepDesc(y: Layout, mem: Mem, d: Desc, l: nat)
    decreases l, 0
  {
    d.Table? ==> l > 0 && Sep(y, mem, d.addr, l - 1) && |mem[d.addr]| == y.entries
  }

  // The tree that the pages under t spell out.
  function Abs(mem: Mem, t: nat, l: nat): (r: seq<Tree>)
    ensures t in mem ==> |r| == |mem[t]|
    decreases l, 1
  {
    if t !in mem then [] else seq(|mem[t]|, i requires 0 <= i < |mem[t]| => AbsDesc(mem, mem[t][i], l))
  }

  function AbsDesc(mem: Mem, d: Desc, l: nat): (r: Tree)
    decreases l, 0
  {
    match d
    case Empty => Invalid
    case Page(pa, attrs) => Leaf(pa, attrs)
    case Table(c) => if l == 0 then Invalid else Node(Abs(mem, c, l - 1))
  }

  ghost predicate Agree(mem: Mem, mem': Mem, f: set<nat>) {
    forall u | u in f :: u in mem && u in mem' && mem'[u] == mem[u]
  }

  lemma {:induction false} SameUnder(y: Layout, mem: Mem, mem': Mem, t: nat, l: nat)
    requires Sep(y, mem, t, l) && Agree(mem, mem', Foot(mem, t, l))
    ensures Sep(y, mem', t, l) && Foot(mem', t, l) == Foot(mem, t, l) && Abs(mem', t, l) == Abs(mem, t, l)
    decreases l, 1
  {
    assert t in Foot(mem, t, l);
    forall i | 0 <= i < |mem[t]|
      ensures SepDesc(y, mem', mem[t][i], l) && FootDesc(mem', mem[t][i], l) == FootDesc(mem, mem[t][i], l)
      ensures AbsDesc(mem', mem[t][i], l) == AbsDesc(mem, mem[t][i], l)
    {
      assert FootDesc(mem, mem[t][i], l) <= Foot(mem, t, l);
      SameDesc(y, mem, mem', mem[t][i], l);
    }
  }

  lemma {:induction false} SameDesc(y: Layout, mem: Mem, mem': Mem, d: Desc, l: nat)
    requires SepDesc(y, mem, d, l) && Agree(mem, mem', FootDesc(mem, d, l))
    ensures SepDesc(y, mem', d, l) && FootDesc(mem', d, l) == FootDesc(mem, d, l)
    ensures AbsDesc(mem', d, l) == AbsDesc(mem, d, l)
    decreases l, 0
  {
    if d.Table? {
      assert d.addr in Foot(mem, d.addr, l - 1);
      SameUnder(y, mem, mem', d.addr, l - 1);
    }
  }

  // What a call on table t may have done to memory: it owns the pages under t and nothing else.
  ghost predicate Local(y: Layout, mem: Mem, mem': Mem, t: nat, l: nat) {
    && Sep(y, mem', t, l)
    && t in mem && |mem'[t]| == |mem[t]|
    && (forall u | u in mem && u !in Foot(mem, t, l) :: u in mem' && mem'[u] == mem[u])
    && mem'.Keys == mem.Keys - Foot(mem, t, l) + Foot(mem', t, l)
    && Foot(mem', t, l) * mem.Keys <= Foot(mem, t, l)
  }

  lemma {:induction false} LocalTrans(y: Layout, mem: Mem, mem1: Mem, mem2: Mem, t: nat, l: nat)
    requires Local(y, mem, mem1, t, l) && Local(y, mem1, mem2, t, l)
    ensures Local(y, mem, mem2, t, l)
  {
  }

  lemma {:induction false} LocalRefl(y: Layout, mem: Mem, t: nat, l: nat)
    requires Sep(y, mem, t, l)
    ensures Local(y, mem, mem, t, l)
  {
    FootLive(y, mem, t, l);
  }

  lemma {:induction false} FootLive(y: Layout, mem: Mem, t: nat, l: nat)
    requires Sep(y, mem, t, l)
    ensures Foot(mem, t, l) <= mem.Keys
    decreases l
  {
    forall u | u in Foot(mem, t, l)
      ensures u in mem
    {
      if u != t {
        var i :| 0 <= i < |mem[t]| && u in FootDesc(mem, mem[t][i], l);
        assert SepDesc(y, mem, mem[t][i], l);
        FootLive(y, mem, mem[t][i].addr, l - 1);
      }
    }
  }

  // Only slot i of t, and pages under it, changed.
  ghost predicate SlotOnly(mem: Mem, mem': Mem, t: nat, l: nat, i: nat) {
    && t in mem && t in mem' && |mem'[t]| == |mem[t]| && 0 <= i < |mem[t]|
    && (forall j | 0 <= j < |mem[t]| && j != i :: mem'[t][j] == mem[t][j])
    && (forall u | u in mem && u != t && u !in FootDesc(mem, mem[t][i], l) :: u in mem' && mem'[u] == mem[u])
    && mem'.Keys == mem.Keys - FootDesc(mem, mem[t][i], l) + FootDesc(mem', mem'[t][i], l)
    && FootDesc(mem', mem'[t][i], l) * mem.Keys <= FootDesc(mem, mem[t][i], l)
  }

  lemma {:induction false} SlotSiblings(y: Layout, mem: Mem, mem': Mem, t: nat, l: nat, i: nat, j: nat)
    requires Sep(y, mem, t, l) && SlotOnly(mem, mem', t, l, i) && 0 <= j < |mem[t]| && j != i
    ensures SepDesc(y, mem', mem[t][j], l) && FootDesc(mem', mem[t][j], l) == FootDesc(mem, mem[t][j], l)
    ensures AbsDesc(mem', mem[t][j], l) == AbsDesc(mem, mem[t][j], l)
    ensures FootDesc(mem, mem[t][j], l) <= mem.Keys
  {
    FootLive(y, mem, t, l);
    assert FootDesc(mem, mem[t][j], l) <= Foot(mem, t, l);
    assert FootDesc(mem, mem[t][j], l) !! FootDesc(mem, mem[t][i], l);
    assert t !in FootDesc(mem, mem[t][j], l);
    SameDesc(y, mem, mem', mem[t][j], l);
  }

  // The pages under t are those that were there, less those behind slot i, plus those behind it now.
  lemma {:induction false} FootChange(y: Layout, mem: Mem, mem': Mem, t: nat, l: nat, i: nat)
    requires Sep(y, mem, t, l) && SlotOnly(mem, mem', t, l, i)
    requires forall j | 0 <= j < |mem[t]| && j != i :: FootDesc(mem', mem'[t][j], l) == FootDesc(mem, mem[t][j], l)
    ensures Foot(mem', t, l) == Foot(mem, t, l) - FootDesc(mem, mem[t][i], l) + FootDesc(mem', mem'[t][i], l)
  {
    hide FootDesc;
    var f, g := FootDesc(mem, mem[t][i], l), FootDesc(mem', mem'[t][i], l);
    forall u
      ensures u in Foot(mem', t, l) <==> u in Foot(mem, t, l) - f + g
    {
      if u in Foot(mem, t, l) && u != t && u !in f {
        var j :| 0 <= j < |mem[t]| && u in FootDesc(mem, mem[t][j], l);
        assert u in FootDesc(mem', mem'[t][j], l);
      }
      if u in Foot(mem', t, l) && u != t && u !in g {
        var j :| 0 <= j < |mem[t]| && u in FootDesc(mem', mem'[t][j], l);
        assert u in FootDesc(mem, mem[t][j], l);
      }
    }
  }

  lemma {:induction false} SlotChange(y: Layout, mem: Mem, mem': Mem, t: nat, l: nat, i: nat)
    requires Sep(y, mem, t, l) && SlotOnly(mem, mem', t, l, i) && SepDesc(y, mem', mem'[t][i], l)
    ensures Local(y, mem, mem', t, l)
    ensures Abs(mem', t, l) == Abs(mem, t, l)[i := AbsDesc(mem', mem'[t][i], l)]
  {
    hide FootDesc, SepDesc, AbsDesc;
    forall j | 0 <= j < |mem[t]| && j != i
      ensures SepDesc(y, mem', mem'[t][j], l) && FootDesc(mem', mem'[t][j], l) == FootDesc(mem, mem[t][j], l)
      ensures AbsDesc(mem', mem'[t][j], l) == AbsDesc(mem, mem[t][j], l)
      ensures t !in FootDesc(mem', mem'[t][j], l) && FootDesc(mem', mem'[t][j], l) !! FootDesc(mem', mem'[t][i], l)
    {
      SlotSiblings(y, mem, mem', t, l, i, j);
    }
    FootChange(y, mem, mem', t, l, i);
    FootLive(y, mem, t, l);
  }

  // Editing slot i of t to a descriptor with no table behind it, from one with none.
  lemma {:induction false} PlainChange(y: Layout, mem: Mem, t: nat, l: nat, i: nat, d: Desc)
    requires Sep(y, mem, t, l) && 0 <= i < |mem[t]| && !mem[t][i].Table? && !d.Table?
    ensures var mem' := mem[t := mem[t][i := d]];
      Local(y, mem, mem', t, l) && Abs(mem', t, l) == Abs(mem, t, l)[i := AbsDesc(mem', d, l)]
  {
    var mem' := mem[t := mem[t][i := d]];
    SlotChange(y, mem, mem', t, l, i);
  }

  // A call on the table behind slot i, seen from t.
  lemma {:induction false} ChildChange(y: Layout, mem: Mem, mem': Mem, t: nat, l: nat, i: nat, c: nat)
    requires Sep(y, mem, t, l) && 0 <= i < |mem[t]| && mem[t][i] == Table(c) && l > 0
    requires Local(y, mem, mem', c, l - 1)
    ensures t in mem' && mem'[t] == mem[t] && Local(y, mem, mem', t, l)
    ensures Abs(mem', t, l) == Abs(mem, t, l)[i := Node(Abs(mem', c, l - 1))]
  {
    assert SepDesc(y, mem, mem[t][i], l) && t !in FootDesc(mem, mem[t][i], l);
    SlotChange(y, mem, mem', t, l, i);
  }

  predicate AllEmpty(e: seq<Desc>) {
    forall j | 0 <= j < |e| :: e[j] == Empty
  }

  lemma {:induction false} ClearIsEmpty(y: Layout, mem: Mem, c: nat, l: nat)
    requires Sep(y, mem, c, l)
    ensures Clear(Abs(mem, c, l)) <==> AllEmpty(mem[c])
  {
    var k := Abs(mem, c, l);
    assert forall j | 0 <= j < |k| :: k[j] == AbsDesc(mem, mem[c][j], l);
    assert forall j | 0 <= j < |k| :: SepDesc(y, mem, mem[c][j], l);
    assert forall j | 0 <= j < |k| :: k[j] == Invalid <==> mem[c][j] == Empty;
  }

  // Unlinking an empty table from slot i.
  lemma {:induction false} DropChange(y: Layout, mem: Mem, t: nat, l: nat, i: nat, c: nat)
    requires Sep(y, mem, t, l) && 0 <= i < |mem[t]| && mem[t][i] == Table(c) && l > 0
    requires c in mem && AllEmpty(mem[c])
    ensures var mem' := mem[t := mem[t][i := Empty]] - {c};
      Local(y, mem, mem', t, l) && Abs(mem', t, l) == Abs(mem, t, l)[i := Invalid]
  {
    var mem' := mem[t := mem[t][i := Empty]] - {c};
    assert SepDesc(y, mem, mem[t][i], l) && t !in FootDesc(mem, mem[t][i], l);
    assert forall j | 0 <= j < |mem[c]| :: FootDesc(mem, mem[c][j], l - 1) == {};
    assert Foot(mem, c, l - 1) == {c};
    SlotChange(y, mem, mem', t, l, i);
  }

  lemma {:induction false} AbsAt(mem: Mem, t: nat, l: nat, i: nat)
    requires t in mem && i < |mem[t]|
    ensures |Abs(mem, t, l)| == |mem[t]| && Abs(mem, t, l)[i] == AbsDesc(mem, mem[t][i], l)
  {
  }

  // The table behind a slot is fit to be worked on.
  lemma {:induction false} Descend(y: Layout, mem: Mem, t: nat, l: nat, i: nat, c: nat)
    requires Sane(y) && Sep(y, mem, t, l) && Formed(y, Abs(mem, t, l), l) && i < |mem[t]| && mem[t][i] == Table(c)
    ensures l > 0 && Sep(y, mem, c, l - 1) && |mem[c]| == y.entries && Formed(y, Abs(mem, c, l - 1), l - 1)
    ensures Off(y, l - 1, |mem[c]|) == PageTable.Block(y, l)
    ensures Abs(mem, t, l)[i] == Node(Abs(mem, c, l - 1))
  {
    AbsAt(mem, t, l, i);
    assert SepDesc(y, mem, mem[t][i], l) && FormedSlot(y, Abs(mem, t, l)[i], l);
  }

  lemma {:induction false} SlotOutcome(y: Layout, kids: seq<Tree>, l: nat, rem: nat, chunk: nat, kids': seq<Tree>)
    requires Sane(y) && l > 0 && |kids| == y.entries && Formed(y, kids, l - 1) && rem + chunk <= PageTable.Block(y, l)
    requires kids' == UnmapTab(y, kids, l - 1, rem, chunk)
    ensures chunk == PageTable.Block(y, l) ==> Clear(kids')
    ensures UnmapSlot(y, Node(kids), l, rem, chunk) == if Clear(kids') then Invalid else Node(kids')
    ensures FormedSlot(y, Node(kids'), l)
  {
    UnmapFormed(y, kids, l - 1, rem, chunk);
    if chunk == PageTable.Block(y, l) { UnmapWhole(y, kids, l - 1, 0); }
  }

  lemma {:induction false} Emptied(y: Layout, kids: seq<Tree>, mem': Mem, l: nat, c: nat, rem: nat, chunk: nat)
    requires Sane(y) && l > 0 && |kids| == y.entries && Formed(y, kids, l - 1) && rem + chunk <= PageTable.Block(y, l)
    requires Sep(y, mem', c, l - 1) && Abs(mem', c, l - 1) == UnmapTab(y, kids, l - 1, rem, chunk)
    ensures chunk == PageTable.Block(y, l) ==> AllEmpty(mem'[c])
    ensures UnmapSlot(y, Node(kids), l, rem, chunk) == if AllEmpty(mem'[c]) then Invalid else Node(Abs(mem', c, l - 1))
    ensures FormedSlot(y, Node(Abs(mem', c, l - 1)), l)
  {
    ClearIsEmpty(y, mem', c, l - 1);
    SlotOutcome(y, kids, l, rem, chunk, Abs(mem', c, l - 1));
  }

  lemma {:induction false} Returned(y: Layout, mem: Mem, mem': Mem, t: nat, l: nat, i: nat, c: nat, rem: nat,
                                    chunk: nat)
    requires Sane(y) && Sep(y, mem, t, l) && Formed(y, Abs(mem, t, l), l) && i < |mem[t]| && mem[t][i] == Table(c)
    requires l > 0 && Local(y, mem, mem', c, l - 1) && rem + chunk <= PageTable.Block(y, l)
    requires |Abs(mem, c, l - 1)| == y.entries
    requires Abs(mem', c, l - 1) == UnmapTab(y, Abs(mem, c, l - 1), l - 1, rem, chunk)
    ensures t in mem' && mem'[t] == mem[t] && Local(y, mem, mem', t, l) && Formed(y, Abs(mem', t, l), l)
    ensures chunk == PageTable.Block(y, l) ==> AllEmpty(mem'[c])
    ensures var k := Abs(mem, t, l);
      k[i := UnmapSlot(y, k[i], l, rem, chunk)] ==
        if AllEmpty(mem'[c]) then Abs(mem', t, l)[i := Invalid] else Abs(mem', t, l)
  {
    Descend(y, mem, t, l, i, c);
    ChildChange(y, mem, mem', t, l, i, c);
    Emptied(y, Abs(mem, c, l - 1), mem', l, c, rem, chunk);
  }

  // Linking a fresh, zeroed table behind an empty slot.
  lemma {:induction false} LinkChange(y: Layout, mem: Mem, t: nat, l: nat, i: nat, c: nat)
    requires Sep(y, mem, t, l) && i < |mem[t]| && mem[t][i] == Empty && l > 0 && c !in mem
    ensures var mem' := mem[t := mem[t][i := Table(c)]][c := seq(y.entries, _ => Empty)];
      Local(y, mem, mem', t, l) && Abs(mem', t, l) == Abs(mem, t, l)[i := Node(FreshTable(y))]
  {
    var mem' := mem[t := mem[t][i := Table(c)]][c := seq(y.entries, _ => Empty)];
    assert forall j | 0 <= j < |mem'[c]| :: FootDesc(mem', mem'[c][j], l - 1) == {};
    assert Foot(mem', c, l - 1) == {c} && Abs(mem', c, l - 1) == FreshTable(y);
    assert forall j | 0 <= j < |mem'[c]| :: SepDesc(y, mem', mem'[c][j], l - 1);
    assert SepDesc(y, mem', mem'[t][i], l);
    SlotChange(y, mem, mem', t, l, i);
  }

  // Mapping below a slot, whether its table was there or has just been linked.
  lemma {:induction false} Through(y: Layout, mem: Mem, n: nat, mem1: Mem, n1: nat, t: nat, l: nat, i: nat, c: nat,
                                   rem: nat, pa: nat, chunk: nat, attrs: nat)
    requires Sane(y) && l > 0 && t in mem && t in mem1 && i < |mem[t]| && |mem1[t]| == |mem[t]|
    requires mem1[t][i] == Table(c)
    requires Sep(y, mem1, t, l) && Formed(y, Abs(mem, t, l), l) && rem + chunk <= PageTable.Block(y, l)
    requires rem != 0 || Rem(y, l, pa) != 0 || chunk != PageTable.Block(y, l) || l > y.blockMax
    requires || (mem1 == mem && n1 == n)
             || (mem[t][i] == Empty && n1 == n - 1 && Abs(mem1, t, l) == Abs(mem, t, l)[i := Node(FreshTable(y))])
    ensures |Abs(mem1, c, l - 1)| == y.entries && |Abs(mem, t, l)| == |mem[t]|
    ensures var k := Abs(mem, t, l); var s := MapInto(y, Abs(mem1, c, l - 1), l - 1, rem, pa, chunk, attrs, n1);
      MapSlot(y, k[i], l, rem, pa, chunk, attrs, n) == s && k[i := s.d] == Abs(mem1, t, l)[i := s.d]
  {
    AbsAt(mem, t, l, i);
    AbsAt(mem1, t, l, i);
    assert SepDesc(y, mem1, mem1[t][i], l);
    assert Abs(mem1, t, l)[i] == Node(Abs(mem1, c, l - 1));
  }

  // Free pages are distinct and none of them is a live table.
  ghost predicate Spare(mem: Mem, free: seq<nat>) {
    && (forall i | 0 <= i < |free| :: free[i] !in mem)
    && (forall i, j | 0 <= i < j < |free| :: free[i] != free[j])
  }

  ghost function Pages(mem: Mem, free: seq<nat>): (p: set<nat>) {
    mem.Keys + (set u | u in free)
  }

  // Where the mapping loop ends up from here.
  ghost function LoopResult(y: Layout, mem: Mem, free: seq<nat>, t: nat, l: nat, v: nat, pa: nat, size: nat,
                            attrs: nat): (r: Mapping)
    requires Sane(y) && t in mem && v + size <= Off(y, l, |mem[t]|)
  {
    MapRun(y, Abs(mem, t, l), l, v, pa, size, attrs, |free|)
  }

  lemma {:induction false} LoopStep(y: Layout, mem: Mem, free: seq<nat>, t: nat, l: nat, v: nat, pa: nat, size: nat,
                                    attrs: nat, mem': Mem, free': seq<nat>, ok: bool)
    requires Sane(y) && t in mem && 0 < size && v + size <= Off(y, l, |mem[t]|) && Formed(y, Abs(mem, t, l), l)
    requires t in mem' && |mem'[t]| == |mem[t]| && Index(y, l, v) < |mem[t]|
    requires var k, i, chunk := Abs(mem, t, l), Index(y, l, v), Chunk(y, l, v, size);
      var s := MapSlot(y, k[i], l, Rem(y, l, v), pa, chunk, attrs, |free|);
      ok == s.ok && Abs(mem', t, l) == k[i := s.d] && (ok ==> |free'| == s.pages)
    ensures var chunk := Chunk(y, l, v, size); var r := LoopResult(y, mem, free, t, l, v, pa, size, attrs);
      if ok then r == LoopResult(y, mem', free', t, l, v + chunk, pa + chunk, size - chunk, attrs)
      else r.kids == Abs(mem', t, l) && r.left == size
  {
    MapRunStep(y, Abs(mem, t, l), l, v, pa, size, attrs, |free|);
  }

  // Where the unmapping loop ends up from here.
  ghost function UnmapRest(y: Layout, mem: Mem, t: nat, l: nat, v: nat, size: nat): (k: seq<Tree>)
    requires Sane(y) && t in mem && v + size <= Off(y, l, |mem[t]|)
  {
    UnmapTab(y, Abs(mem, t, l), l, v, size)
  }

  datatype Answer = Found(t: Translation) | NotFound | OutOfRange

  class Mmu {
    const y: Layout
    const root: nat
    const top: nat
    var mem: Mem
    var free: seq<nat>

    constructor (y: Layout, root: nat, top: nat, entries: nat, free: seq<nat>)
      requires Sane(y) && Spare(map[root := seq(entries, _ => Empty)], free)
      ensures this.y == y && this.root == root && this.top == top && this.free == free
      ensures Ready() && Clear(Kids()) && |Kids()| == entries
    {
      this.y, this.root, this.top, this.free := y, root, top, free;
      mem := map[root := seq(entries, _ => Empty)];
      new;
      assert forall j | 0 <= j < |mem[root]| :: mem[root][j] == Empty && FootDesc(mem, mem[root][j], top) == {};
      assert Foot(mem, root, top) == {root};
      forall j | 0 <= j < entries ensures Kids()[j] == Invalid { AbsAt(mem, root, top, j); }
    }

    ghost function Kids(): (k: seq<Tree>)
      reads this
    {
      Abs(mem, root, top)
    }

    // Between calls: well-formed tables, and the live pages are exactly those the walker can reach.
    ghost predicate Ready()
      reads this
    {
      Valid(root, top) && mem.Keys == Foot(mem, root, top)
    }

    method Map(v: nat, pa: nat, size: nat, attrs: nat) returns (ok: bool)
      requires Ready()
      modifies this
      ensures Ready() && Pages(mem, free) == old(Pages(mem, free))
      ensures (Kids(), ok) == MapTop(y, old(Kids()), top, v, pa, size, attrs, |old(free)|)
    {
      if v + size > Off(y, top, |mem[root]|) { return false; }
      ok := MapPt(root, top, v, pa, size, attrs);
    }

    method Unmap(v: nat, size: nat) returns (ok: bool)
      requires Ready()
      modifies this
      ensures Ready() && Pages(mem, free) == old(Pages(mem, free))
      ensures Kids() == UnmapTop(y, old(Kids()), top, v, size)
      ensures ok == InRange(y, old(Kids()), top, v, size)
    {
      if v + size > Off(y, top, |mem[root]|) { return false; }
      UnmapPt(root, top, v, size);
      ok := true;
    }

    // arch_mmu_query of an address relative to the tables, in an address space that reaches from lo to hi.
    method QueryAt(a: nat, lo: nat, hi: nat) returns (r: Answer)
      requires Ready() && hi <= Off(y, top, |mem[root]|)
      ensures r == if !(lo <= a < hi) then OutOfRange
        else match Query(y, Kids(), top, a) case None => NotFound case Some(t) => Found(t)
    {
      hide FootDesc, SepDesc, Off, Block, Index, FormedSlot;
      if !(lo <= a < hi) { return OutOfRange; }
      var t: nat, l: nat, rem: nat := root, top, a;
      ghost var base: nat := 0;
      IndexLess(y, top, a, |mem[root]|);
      while true
        invariant Valid(t, l) && base + rem == a && Index(y, l, rem) < |mem[t]|
        invariant Walk(y, Abs(mem, t, l), l, base, a) == Walk(y, Kids(), top, 0, a)
        decreases l
      {
        var index := Index(y, l, rem);
        AbsAt(mem, t, l, index);
        rem := rem - Off(y, l, index);
        base := base + Off(y, l, index);
        match mem[t][index] {
          case Empty => return NotFound;
          case Page(pa, attrs) => return Found(Translation(pa + rem, attrs));
          case Table(c) =>
            Descend(y, mem, t, l, index, c);
            IndexUnique(y, l, rem + Off(y, l, index), index);
            assert Walk(y, Abs(mem, t, l), l, base - Off(y, l, index), a) ==
              Walk(y, Abs(mem, c, l - 1), l - 1, base, a);
            t, l := c, l - 1;
            IndexLess(y, l, rem, |mem[t]|);
        }
      }
    }

    ghost predicate Valid(t: nat, l: nat)
      reads this
    {
      Sane(y) && Sep(y, mem, t, l) && Formed(y, Abs(mem, t, l), l) && Spare(mem, free)
    }

    method PageTableIsClear(t: nat) returns (clear: bool)
      requires t in mem
      ensures clear <==> AllEmpty(mem[t])
    {
      var i := 0;
      while i < |mem[t]|
        invariant 0 <= i <= |mem[t]|
        invariant forall j | 0 <= j < i :: mem[t][j] == Empty
      {
        if mem[t][i] != Empty { return false; }
        i := i + 1;
      }
      return true;
    }

    // Unlinks and frees the table behind slot i when it is empty.
    method Collect(t: nat, l: nat, i: nat, c: nat, whole: bool)
      requires Valid(t, l) && i < |mem[t]| && mem[t][i] == Table(c) && l > 0 && c in mem
      requires whole ==> AllEmpty(mem[c])
      modifies this
      ensures Valid(t, l) && Local(y, old(mem), mem, t, l) && Pages(mem, free) == Pages(old(mem), old(free))
      ensures var k := Abs(old(mem), t, l);
        Abs(mem, t, l) == if AllEmpty(old(mem)[c]) then k[i := Invalid] else k
    {
      var clear := PageTableIsClear(c);
      if whole || clear {
        DropChange(y, mem, t, l, i, c);
        mem := mem[t := mem[t][i := Empty]] - {c};
        free := [c] + free;
      } else {
        LocalRefl(y, mem, t, l);
      }
    }

    method UnmapChild(t: nat, l: nat, i: nat, rem: nat, chunk: nat, c: nat)
      requires Valid(t, l) && i < |mem[t]| && 0 < chunk && rem + chunk <= PageTable.Block(y, l) && mem[t][i] == Table(c)
      modifies this
      decreases l, 0
      ensures Valid(t, l) && Local(y, old(mem), mem, t, l) && Pages(mem, free) == Pages(old(mem), old(free))
      ensures var k := Abs(old(mem), t, l); Abs(mem, t, l) == k[i := UnmapSlot(y, k[i], l, rem, chunk)]
    {
      ghost var mem0 := mem;
      Descend(y, mem, t, l, i, c);
      UnmapPt(c, l - 1, rem, chunk);
      ghost var mem1 := mem;
      Returned(y, mem0, mem, t, l, i, c, rem, chunk);
      Collect(t, l, i, c, chunk == PageTable.Block(y, l));
      LocalTrans(y, mem0, mem1, mem, t, l);
    }

    method UnmapEntry(t: nat, l: nat, i: nat, rem: nat, chunk: nat)
      requires Valid(t, l) && i < |mem[t]| && 0 < chunk && rem + chunk <= PageTable.Block(y, l)
      modifies this
      decreases l, 1
      ensures Valid(t, l) && Local(y, old(mem), mem, t, l) && Pages(mem, free) == Pages(old(mem), old(free))
      ensures var k := Abs(old(mem), t, l); Abs(mem, t, l) == k[i := UnmapSlot(y, k[i], l, rem, chunk)]
    {
      match mem[t][i] {
        case Table(c) => UnmapChild(t, l, i, rem, chunk, c);
        case _ =>
          PlainChange(y, mem, t, l, i, Empty);
          mem := mem[t := mem[t][i := Empty]];
      }
    }

    method UnmapPt(t: nat, l: nat, vIn: nat, sizeIn: nat)
      requires Valid(t, l) && vIn + sizeIn <= Off(y, l, |mem[t]|)
      modifies this
      decreases l, 3
      ensures Valid(t, l) && Local(y, old(mem), mem, t, l) && Pages(mem, free) == Pages(old(mem), old(free))
      ensures Abs(mem, t, l) == UnmapTab(y, Abs(old(mem), t, l), l, vIn, sizeIn)
    {
      ghost var mem0 := mem;
      LocalRefl(y, mem, t, l);
      var v: nat, size: nat := vIn, sizeIn;
      while size > 0
        invariant Valid(t, l) && Local(y, mem0, mem, t, l) && Pages(mem, free) == Pages(old(mem), old(free))
        invariant v + size <= Off(y, l, |mem[t]|)
        invariant UnmapRest(y, mem, t, l, v, size) == UnmapRest(y, mem0, t, l, vIn, sizeIn)
        decreases size
      {
        ghost var mem1 := mem;
        var chunk := UnmapTurn(t, l, v, size);
        LocalTrans(y, mem0, mem1, mem, t, l);
        v, size := v + chunk, size - chunk;
      }
    }

    // One turn of the unmapping loop: the slot that v falls in.
    method UnmapTurn(t: nat, l: nat, v: nat, size: nat) returns (chunk: nat)
      requires Valid(t, l) && 0 < size && v + size <= Off(y, l, |mem[t]|)
      modifies this
      decreases l, 2
      ensures Valid(t, l) && Local(y, old(mem), mem, t, l) && Pages(mem, free) == Pages(old(mem), old(free))
      ensures 0 < chunk <= size
      ensures UnmapRest(y, mem, t, l, v + chunk, size - chunk) == UnmapRest(y, old(mem), t, l, v, size)
    {
      var index, rem := Index(y, l, v), Rem(y, l, v);
      chunk := Chunk(y, l, v, size);
      IndexLess(y, l, v, |mem[t]|);
      UnmapEntry(t, l, index, rem, chunk);
    }

    method GetPageTable(t: nat, l: nat, i: nat) returns (next: Option<nat>)
      requires Valid(t, l) && i < |mem[t]| && l > 0
      modifies this
      ensures Valid(t, l) && Local(y, old(mem), mem, t, l) && Pages(mem, free) == Pages(old(mem), old(free))
      ensures next.Some? ==> mem[t][i] == Table(next.value)
      ensures match old(mem)[t][i]
        case Empty =>
          if old(free) == [] then next == None && mem == old(mem)
          else
            && next.Some? && |free| == |old(free)| - 1
            && Abs(mem, t, l) == Abs(old(mem), t, l)[i := Node(FreshTable(y))]
        case Table(c) => next == Some(c) && mem == old(mem) && free == old(free)
        case Page(_, _) => next == None && mem == old(mem)
    {
      match mem[t][i] {
        case Empty =>
          if free == [] { LocalRefl(y, mem, t, l); return None; }
          var c := free[0];
          LinkChange(y, mem, t, l, i, c);
          mem := mem[t := mem[t][i := Table(c)]][c := seq(y.entries, _ => Empty)];
          free := free[1..];
          return Some(c);
        case Table(c) => LocalRefl(y, mem, t, l); return Some(c);
        case Page(_, _) => LocalRefl(y, mem, t, l); return None;
      }
    }

    method MapEntry(t: nat, l: nat, i: nat, rem: nat, pa: nat, chunk: nat, attrs: nat) returns (ok: bool)
      requires Valid(t, l) && i < |mem[t]| && 0 < chunk && rem + chunk <= PageTable.Block(y, l)
      modifies this
      decreases l, 5
      ensures Valid(t, l) && Local(y, old(mem), mem, t, l) && Pages(mem, free) == Pages(old(mem), old(free))
      ensures var k := Abs(old(mem), t, l); var s := MapSlot(y, k[i], l, rem, pa, chunk, attrs, |old(free)|);
        ok == s.ok && Abs(mem, t, l) == k[i := s.d] && (ok ==> |free| == s.pages)
    {
      if rem != 0 || Rem(y, l, pa) != 0 || chunk != PageTable.Block(y, l) || l > y.blockMax {
        ok := MapThrough(t, l, i, rem, pa, chunk, attrs);
      } else if mem[t][i] != Empty {
        LocalRefl(y, mem, t, l);
        ok := false;
      } else {
        PlainChange(y, mem, t, l, i, Page(pa, attrs));
        mem := mem[t := mem[t][i := Page(pa, attrs)]];
        ok := true;
      }
    }
  
    method MapThrough(t: nat, l: nat, i: nat, rem: nat, pa: nat, chunk: nat, attrs: nat) returns (ok: bool)
      requires Valid(t, l) && i < |mem[t]| && 0 < chunk && rem + chunk <= PageTable.Block(y, l)
      requires rem != 0 || Rem(y, l, pa) != 0 || chunk != PageTable.Block(y, l) || l > y.blockMax
      modifies this
      decreases l, 4
      ensures Valid(t, l) && Local(y, old(mem), mem, t, l) && Pages(mem, free) == Pages(old(mem), old(free))
      ensures var k := Abs(old(mem), t, l); var s := MapSlot(y, k[i], l, rem, pa, chunk, attrs, |old(free)|);
        ok == s.ok && Abs(mem, t, l) == k[i := s.d] && (ok ==> |free| == s.pages)
    {
      ghost var mem0, n0 := mem, |free|;
      if l == 0 { LocalRefl(y, mem, t, l); return false; } // never for a page-aligned request
      AbsAt(mem, t, l, i);
      var next := GetPageTable(t, l, i);
      if next == None { return false; }
      ghost var mem1, n1 := mem, |free|;
      Descend(y, mem, t, l, i, next.value);
      ok := MapBelow(t, l, i, next.value, rem, pa, chunk, attrs);
      LocalTrans(y, mem0, mem1, mem, t, l);
      Through(y, mem0, n0, mem1, n1, t, l, i, next.value, rem, pa, chunk, attrs);
    }

    method MapBelow(t: nat, l: nat, i: nat, c: nat, rem: nat, pa: nat, chunk: nat, attrs: nat) returns (ok: bool)
      requires Valid(t, l) && i < |mem[t]| && mem[t][i] == Table(c) && l > 0 && c in mem && |mem[c]| == y.entries
      requires 0 < chunk && rem + chunk <= PageTable.Block(y, l)
      modifies this
      decreases l, 2
      ensures Valid(t, l) && Local(y, old(mem), mem, t, l) && Pages(mem, free) == Pages(old(mem), old(free))
      ensures var s := MapInto(y, Abs(old(mem), c, l - 1), l - 1, rem, pa, chunk, attrs, |old(free)|);
        ok == s.ok && Abs(mem, t, l) == Abs(old(mem), t, l)[i := s.d] && (ok ==> |free| == s.pages)
    {
      ghost var mem0 := mem;
      Descend(y, mem, t, l, i, c);
      MapIntoFormed(y, Abs(mem, c, l - 1), l - 1, rem, pa, chunk, attrs, |free|);
      ok := MapPt(c, l - 1, rem, pa, chunk, attrs);
      ChildChange(y, mem0, mem, t, l, i, c);
    }

    // One turn of the mapping loop: the slot that v falls in.
    method MapTurn(t: nat, l: nat, v: nat, pa: nat, size: nat, attrs: nat) returns (chunk: nat, ok: bool)
      requires Valid(t, l) && 0 < size && v + size <= Off(y, l, |mem[t]|)
      modifies this
      decreases l, 6
      ensures Valid(t, l) && Local(y, old(mem), mem, t, l) && Pages(mem, free) == Pages(old(mem), old(free))
      ensures 0 < chunk <= size
      ensures var r := LoopResult(y, old(mem), old(free), t, l, v, pa, size, attrs);
        if ok then r == LoopResult(y, mem, free, t, l, v + chunk, pa + chunk, size - chunk, attrs)
        else r.kids == Abs(mem, t, l) && r.left == size
    {
      hide Off, PageTable.Block, Index, FormedSlot, MapRun, MapSlot, SepDesc, FootDesc;
      var index, rem := Index(y, l, v), Rem(y, l, v);
      chunk := Chunk(y, l, v, size);
      IndexLess(y, l, v, |mem[t]|);
      ghost var mem1, free1 := mem, free;
      ok := MapEntry(t, l, index, rem, pa, chunk, attrs);
      LoopStep(y, mem1, free1, t, l, v, pa, size, attrs, mem, free, ok);
    }

    // The mapping loop; stops at the first slot it cannot fill and reports the bytes left.
    method MapLoop(t: nat, l: nat, vIn: nat, paIn: nat, sizeIn: nat, attrs: nat) returns (size: nat)
      requires Valid(t, l) && vIn + sizeIn <= Off(y, l, |mem[t]|)
      modifies this
      decreases l, 7
      ensures Valid(t, l) && Local(y, old(mem), mem, t, l) && Pages(mem, free) == Pages(old(mem), old(free))
      ensures var r := MapRun(y, Abs(old(mem), t, l), l, vIn, paIn, sizeIn, attrs, |old(free)|);
        Abs(mem, t, l) == r.kids && size == r.left && (size == 0 ==> |free| == r.pages)
    {
      ghost var mem0 := mem;
      ghost var r := LoopResult(y, mem, free, t, l, vIn, paIn, sizeIn, attrs);
      LocalRefl(y, mem, t, l);
      var v: nat, pa: nat := vIn, paIn;
      size := sizeIn;
      while size > 0
        invariant Valid(t, l) && Local(y, mem0, mem, t, l) && Pages(mem, free) == Pages(old(mem), old(free))
        invariant v + size == vIn + sizeIn
        invariant r == LoopResult(y, mem, free, t, l, v, pa, size, attrs)
        decreases size
      {
        ghost var mem1 := mem;
        var chunk, ok := MapTurn(t, l, v, pa, size, attrs);
        LocalTrans(y, mem0, mem1, mem, t, l);
        if !ok { return; }
        v, pa, size := v + chunk, pa + chunk, size - chunk;
      }
    }

    method MapPt(t: nat, l: nat, vIn: nat, paIn: nat, sizeIn: nat, attrs: nat) returns (ok: bool)
      requires Valid(t, l) && vIn + sizeIn <= Off(y, l, |mem[t]|)
      modifies this
      decreases l, 8
      ensures Valid(t, l) && Local(y, old(mem), mem, t, l) && Pages(mem, free) == Pages(old(mem), old(free))
      ensures var r := MapInto(y, Abs(old(mem), t, l), l, vIn, paIn, sizeIn, attrs, |old(free)|);
        ok == r.ok && Node(Abs(mem, t, l)) == r.d && (ok ==> |free| == r.pages)
    {
      if !Paged(y, vIn) || !Paged(y, paIn) || !Paged(y, sizeIn) {
        LocalRefl(y, mem, t, l);
        return false;
      }
      ghost var mem0 := mem;
      var left := MapLoop(t, l, vIn, paIn, sizeIn, attrs);
      ok := left == 0;
      if !ok {
        ghost var mem1 := mem;
        UnmapPt(t, l, vIn, sizeIn - left);
        LocalTrans(y, mem0, mem1, mem, t, l);
      }
    }
  }
}
