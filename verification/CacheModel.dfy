/** The block cache as a plain list of blocks, least recently used first: what every operation of lib/bcache/bcache.c
    does to references, dirty flags, order, eviction and the device. */
module CacheModel {
  import opened Lists
  import opened Options
  import opened BlockCache

  // room is the number of buffers never used; unmarked are the block numbers written to and not yet marked dirty.
  datatype Model = Model(size: nat, room: nat, list: seq<Block>, dev: seq<Data>, unmarked: set<nat>)

  // ---- the simple form ----

  // Where block number n is in the list, |l| if nowhere.
  function Where(l: seq<Block>, n: nat): (k: nat)
    ensures k <= |l| && (k < |l| ==> l[k].num == n) && forall j | 0 <= j < k :: l[j].num != n
  {
    if l == [] || l[0].num == n then 0 else 1 + Where(l[1..], n)
  }

  // The first block that nobody holds, |l| if none.
  function Unheld(l: seq<Block>): (k: nat)
    ensures k <= |l| && (k < |l| ==> l[k].refs == 0) && forall j | 0 <= j < k :: l[j].refs > 0
  {
    if l == [] || l[0].refs == 0 then 0 else 1 + Unheld(l[1..])
  }

  // The block at place k becomes b and the most recently used.
  function Used(l: seq<Block>, k: nat, b: Block): (r: seq<Block>)
    requires k < |l|
  {
    l[..k] + l[k + 1..] + [b]
  }

  // A buffer for b: an unused one, or that of the first block that nobody holds, written back if it is dirty.
  function Brought(a: Model, b: Block): (r: Model) {
    if a.room > 0 then a.(room := a.room - 1, list := a.list + [b])
    else
      var k := Unheld(a.list);
      if k == |a.list| then a
      else
        var gone := a.list[k];
        a.(list := Used(a.list, k, b), unmarked := a.unmarked - {gone.num},
           dev := if gone.dirty && gone.num < |a.dev| then a.dev[gone.num := gone.data] else a.dev)
  }

  // The device with every dirty block written to it.
  function Written(dev: seq<Data>, l: seq<Block>): (r: seq<Data>)
    ensures |r| == |dev|
    decreases |l|
  {
    if l == [] then dev
    else Written(if l[0].dirty && l[0].num < |dev| then dev[l[0].num := l[0].data] else dev, l[1..])
  }

  function Cleaned(l: seq<Block>): (r: seq<Block>) {
    seq(|l|, k requires 0 <= k < |l| => l[k].(dirty := false))
  }

  function Simple(a: Model, e: Step): (r: Model) {
    if e.FlushAll? then a.(list := Cleaned(a.list), dev := Written(a.dev, a.list))
    else
      var n, k := e.n, Where(a.list, e.n);
      if k < |a.list| then
        var b := a.list[k];
        match e
        case ReadBlock(_) => a.(list := Used(a.list, k, b))
        case GetBlock(_) => a.(list := Used(a.list, k, b.(refs := b.refs + 1)))
        case PutBlock(_) => if b.refs == 0 then a else a.(list := Used(a.list, k, b.(refs := b.refs - 1)))
        case MarkDirty(_) => a.(list := Used(a.list, k, b.(dirty := true)), unmarked := a.unmarked - {n})
        case ZeroBlock(_) =>
          a.(list := Used(a.list, k, b.(dirty := true, data := Zeros(a.size))), unmarked := a.unmarked - {n})
        case Store(_, data) => a.(list := a.list[k := b.(data := data)], unmarked := a.unmarked + {n})
      else if n >= |a.dev| then a
      else
        match e
        case ReadBlock(_) => Brought(a, Block(n, 0, false, a.dev[n]))
        case GetBlock(_) => Brought(a, Block(n, 1, false, a.dev[n]))
        case ZeroBlock(_) => Brought(a, Block(n, 0, true, Zeros(a.size)))
        case _ => a
  }

  // ---- the cache stands for it ----

  function ListOf(s: Cache): (l: seq<Block>)
    requires Placed(s)
    ensures |l| == |s.lru| && forall k | 0 <= k < |l| :: l[k] == At(s, k)
  {
    seq(|s.lru|, k requires 0 <= k < |s.lru| => At(s, k))
  }

  function Unmarked(s: Cache): (u: set<nat>)
    requires Placed(s)
  {
    set k | 0 <= k < |s.lru| && s.lru[k] in s.pending :: At(s, k).num
  }

  function Abs(s: Cache): (a: Model)
    requires Placed(s)
  {
    Model(s.size, |s.free|, ListOf(s), s.dev, Unmarked(s))
  }

  lemma WhereIs(s: Cache, n: nat)
    requires Placed(s)
    ensures Where(ListOf(s), n) == Find(s, n, 0)
  {
    var k, j := Where(ListOf(s), n), Find(s, n, 0);
    assert k < |s.lru| ==> At(s, k).num == n;
    assert j < |s.lru| ==> ListOf(s)[j].num == n;
  }

  lemma UnheldIs(s: Cache)
    requires Placed(s)
    ensures Unheld(ListOf(s)) == Victim(s, 0)
  {
    var k, j := Unheld(ListOf(s)), Victim(s, 0);
    assert k < |s.lru| ==> At(s, k).refs == 0;
    assert j < |s.lru| ==> ListOf(s)[j].refs == 0;
  }

  // Places and buffers of different blocks differ.
  lemma Places(s: Cache, j: nat, k: nat)
    requires Inv(s) && j < |s.lru| && k < |s.lru| && j != k
    ensures s.lru[j] != s.lru[k] && At(s, j).num != At(s, k).num
  {
    assert At(s, j).num != At(s, k).num;
  }

  lemma UnmarkedIs(s: Cache, k: nat)
    requires Inv(s) && k < |s.lru|
    ensures At(s, k).num in Unmarked(s) <==> s.lru[k] in s.pending
  {
  }

  lemma TouchedIs(s: Cache, k: nat)
    requires Placed(s) && k < |s.lru|
    ensures Placed(Touched(s, k)) && Abs(Touched(s, k)) == Abs(s).(list := Used(ListOf(s), k, At(s, k)))
  {
    CutMembers(s.lru, k);
    var r := Touched(s, k);
    forall j: nat | j < |s.lru|
      ensures r.lru[j] == s.lru[Before(s, k, j)]
    {
      TouchedAt(s, k, j);
    }
    assert ListOf(r) == Used(ListOf(s), k, At(s, k));
    forall n
      ensures n in Unmarked(r) <==> n in Unmarked(s)
    {
      if n in Unmarked(s) {
        var i :| 0 <= i < |s.lru| && s.lru[i] in s.pending && At(s, i).num == n;
        var j := if i < k then i else if i == k then |s.lru| - 1 else i - 1;
        assert Before(s, k, j) == i;
        assert r.lru[j] == s.lru[i];
      }
    }
  }

  lemma ChangedIs(s: Cache, k: nat, b: Block, pending: set<nat>, u: set<nat>)
    requires Inv(s) && k < |s.lru| && b.num == At(s, k).num && Placed(Changed(s, k, b, pending))
    requires forall i | i in pending && i != s.lru[k] :: i in s.pending
    requires forall i | i in s.pending && i != s.lru[k] :: i in pending
    requires u == if s.lru[k] in pending then Unmarked(s) + {b.num} else Unmarked(s) - {b.num}
    ensures Abs(Changed(s, k, b, pending)) == Abs(s).(list := ListOf(s)[k := b], unmarked := u)
  {
    var r := Changed(s, k, b, pending);
    forall j: nat | j < |s.lru|
      ensures At(r, j) == if j == k then b else At(s, j)
      ensures s.lru[j] in pending <==> if j == k then s.lru[k] in pending else s.lru[j] in s.pending
    {
      if j != k { Places(s, j, k); }
    }
    assert ListOf(r) == ListOf(s)[k := b];
    forall n
      ensures n in Unmarked(r) <==> n in u
    {
      if n in Unmarked(s) && n != b.num {
        var i :| 0 <= i < |s.lru| && s.lru[i] in s.pending && At(s, i).num == n;
        assert s.lru[i] in pending && At(r, i).num == n;
      }
      if b.num in Unmarked(s) { UnmarkedIs(s, k); }
    }
  }

  lemma EditedIs(s: Cache, n: nat, b: Block, pending: set<nat>, u: set<nat>)
    requires Inv(s) && Cached(s, n) && b.num == n && Inv(Hit(s, n)) && Placed(Edited(s, n, b, pending))
    requires forall i | i in pending && i != Slot(s, n) :: i in s.pending
    requires forall i | i in s.pending && i != Slot(s, n) :: i in pending
    requires u == if Slot(s, n) in pending then Unmarked(s) + {n} else Unmarked(s) - {n}
    ensures Abs(Edited(s, n, b, pending)) ==
      Abs(s).(list := Used(ListOf(s), Where(ListOf(s), n), b), unmarked := u)
  {
    hide Inv, Find, View;
    PlacedIs(s);
    WhereIs(s, n);
    var k, r := Find(s, n, 0), Hit(s, n);
    HitView(s, n, At(s, k).num);
    TouchedIs(s, k);
    ChangedIs(r, Last(r), b, pending, u);
    assert Used(ListOf(s), k, At(s, k))[Last(r) := b] == Used(ListOf(s), k, b);
  }

  // Writing in place changes nothing else.
  lemma StoredIs(s: Cache, n: nat, data: Data)
    requires Inv(s) && Enabled(s, Store(n, data))
    ensures Placed(Stored(s, n, data)) && Abs(Stored(s, n, data)) == Simple(Abs(s), Store(n, data))
  {
    hide View;
    StoredView(s, n, data, n);
    WhereIs(s, n);
    EntryIs(s, n);
    ChangedIs(s, Find(s, n, 0), Entry(s, n).(data := data), s.pending + {Slot(s, n)}, Unmarked(s) + {n});
  }

  lemma PutIs(s: Cache, n: nat)
    requires Inv(s) && Enabled(s, PutBlock(n))
    ensures Placed(Put(s, n)) && Abs(Put(s, n)) == Simple(Abs(s), PutBlock(n))
  {
    hide View;
    PutView(s, n, n);
    WhereIs(s, n);
    EntryIs(s, n);
    HitView(s, n, n);
    UnmarkedIs(s, Find(s, n, 0));
    EditedIs(s, n, Entry(s, n).(refs := Entry(s, n).refs - 1), s.pending, Unmarked(s));
  }

  lemma MarkedIs(s: Cache, n: nat)
    requires Inv(s) && n < |s.dev|
    ensures Placed(Marked(s, n)) && Abs(Marked(s, n)) == Simple(Abs(s), MarkDirty(n))
  {
    hide View;
    MarkedView(s, n, n);
    WhereIs(s, n);
    if Cached(s, n) {
      EntryIs(s, n);
      HitView(s, n, n);
      EditedIs(s, n, Entry(s, n).(dirty := true), s.pending - {Slot(s, n)}, Unmarked(s) - {n});
    }
  }

  lemma FlushedIs(s: Cache, k: nat)
    requires Inv(s) && k < |s.lru|
    ensures Placed(Flushed(s, k)) && Abs(Flushed(s, k)) ==
      Abs(s).(list := ListOf(s)[k := At(s, k).(dirty := false)], dev := s.dev[At(s, k).num := At(s, k).data])
  {
    var r := Flushed(s, k);
    FlushedView(s, k, At(s, k).num);
    forall j: nat | j < |s.lru|
      ensures At(r, j) == if j == k then At(s, k).(dirty := false) else At(s, j)
    {
      if j != k { Places(s, j, k); }
    }
    assert ListOf(r) == ListOf(s)[k := At(s, k).(dirty := false)];
    assert Unmarked(r) == Unmarked(s);
  }

  lemma FreshIs(s: Cache, n: nat, dirty: bool, data: Data)
    requires Inv(s) && s.free != [] && n < |s.dev| && !Cached(s, n)
    ensures var r := Fresh(s, n, dirty, data);
      Placed(r) && Abs(r) == Abs(s).(room := |s.free| - 1, list := ListOf(s) + [Block(n, 0, dirty, data)])
  {
    var r, i := Fresh(s, n, dirty, data), s.free[0];
    assert forall j | 0 <= j < |s.lru| :: s.lru[j] in s.lru && s.lru[j] != i;
    assert Placed(r);
    assert ListOf(r) == ListOf(s) + [Block(n, 0, dirty, data)];
    forall m
      ensures m in Unmarked(r) <==> m in Unmarked(s)
    {
      if m in Unmarked(s) {
        var j :| 0 <= j < |s.lru| && s.lru[j] in s.pending && At(s, j).num == m;
        assert r.lru[j] in r.pending && At(r, j).num == m;
      }
    }
  }

  lemma ReusedIs(s: Cache, k: nat, n: nat, dirty: bool, data: Data)
    requires Inv(s) && k < |s.lru| && n < |s.dev| && !Cached(s, n)
    ensures var r, b := Reused(s, k, n, dirty, data), Block(n, 0, dirty, data);
      Placed(r) && Abs(r) == Abs(s).(list := Used(ListOf(s), k, b), unmarked := Unmarked(s) - {At(s, k).num})
  {
    var i, b := s.lru[k], Block(n, 0, dirty, data);
    var t := s.(blocks := s.blocks[i := b], pending := s.pending - {i});
    assert i in s.lru;
    forall j: nat | j < |s.lru|
      ensures t.blocks[t.lru[j]] == if j == k then b else At(s, j)
      ensures t.lru[j] in t.pending <==> j != k && s.lru[j] in s.pending
    {
      if j != k { Places(s, j, k); }
    }
    assert Placed(t);
    TouchedIs(t, k);
    assert ListOf(t) == ListOf(s)[k := b];
    assert Used(ListOf(s)[k := b], k, b) == Used(ListOf(s), k, b);
    forall m
      ensures m in Unmarked(t) <==> m in Unmarked(s) - {At(s, k).num}
    {
      if m in Unmarked(s) && m != At(s, k).num {
        var j :| 0 <= j < |s.lru| && s.lru[j] in s.pending && At(s, j).num == m;
        assert t.lru[j] in t.pending && At(t, j).num == m;
      }
      if m in Unmarked(t) {
        var j :| 0 <= j < |t.lru| && t.lru[j] in t.pending && At(t, j).num == m;
        Places(s, j, k);
      }
    }
  }

  lemma BroughtIs(s: Cache, n: nat, dirty: bool, data: Data)
    requires Inv(s) && Evictable(s) && n < |s.dev| && !Cached(s, n)
    ensures var r := Claimed(s, n, dirty, data);
      Placed(r) && Abs(r) == Brought(Abs(s), Block(n, 0, dirty, data))
  {
    hide Unmarked, View;
    if s.free != [] {
      FreshIs(s, n, dirty, data);
    } else {
      UnheldIs(s);
      var k := Victim(s, 0);
      var t := if At(s, k).dirty then Flushed(s, k) else s;
      if At(s, k).dirty {
        FlushedView(s, k, n);
        FlushedFinds(s, k, n);
        FlushedIs(s, k);
      }
      ReusedIs(t, k, n, dirty, data);
      var b := Block(n, 0, dirty, data);
      assert Used(ListOf(t), k, b) == Used(ListOf(s), k, b);
    }
  }

  lemma FilledIs(s: Cache, n: nat)
    requires Inv(s) && CanHold(s, n)
    ensures Placed(Filled(s, n)) && Abs(Filled(s, n)) == Simple(Abs(s), ReadBlock(n))
  {
    hide Inv, Unmarked, Brought, Claimed;
    PlacedIs(s);
    WhereIs(s, n);
    if Cached(s, n) { TouchedIs(s, Find(s, n, 0)); } else { BroughtIs(s, n, false, s.dev[n]); }
  }

  lemma ZeroedIs(s: Cache, n: nat)
    requires Inv(s) && CanHold(s, n)
    ensures Placed(Zeroed(s, n)) && Abs(Zeroed(s, n)) == Simple(Abs(s), ZeroBlock(n))
  {
    hide View, Brought, Claimed;
    ZeroedView(s, n, n);
    WhereIs(s, n);
    if Cached(s, n) {
      EntryIs(s, n);
      HitView(s, n, n);
      EditedIs(s, n, Entry(s, n).(dirty := true, data := Zeros(s.size)), s.pending - {Slot(s, n)}, Unmarked(s) - {n});
    } else {
      BroughtIs(s, n, true, Zeros(s.size));
    }
  }

  // A read, and then one reference more on the block that is now last.
  lemma GotIs(s: Cache, n: nat)
    requires Inv(s) && CanHold(s, n)
    ensures Placed(Got(s, n)) && Abs(Got(s, n)) == Simple(Abs(s), GetBlock(n))
  {
    hide Inv, View, Filled, Simple, Changed, Unmarked;
    PlacedIs(s);
    GotView(s, n, n);
    FilledView(s, n, n);
    FilledIs(s, n);
    var t := Filled(s, n);
    PlacedIs(t);
    PlacedIs(Got(s, n));
    var b := At(t, Last(t));
    UnmarkedIs(t, Last(t));
    UnionSelf(Unmarked(t), n);
    ChangedIs(t, Last(t), b.(refs := b.refs + 1), t.pending, Unmarked(t));
    ReadThenHeld(s, n);
  }

  lemma UnionSelf(u: set<nat>, n: nat)
    ensures u == if n in u then u + {n} else u - {n}
  {
  }

  lemma ReadThenHeld(s: Cache, n: nat)
    requires Inv(s) && CanHold(s, n)
    ensures var a := Simple(Abs(s), ReadBlock(n));
      && a.list != []
      && var k := |a.list| - 1;
         a.(list := a.list[k := a.list[k].(refs := a.list[k].refs + 1)]) == Simple(Abs(s), GetBlock(n))
  {
    hide Unmarked, Inv, Find;
    PlacedIs(s);
    WhereIs(s, n);
    UnheldIs(s);
  }

  // The list when the blocks from place k on are clean.
  function CleanFrom(l: seq<Block>, k: nat): (r: seq<Block>)
    requires k <= |l|
  {
    l[..k] + Cleaned(l[k..])
  }

  lemma CleanOne(l: seq<Block>, k: nat)
    requires k < |l|
    ensures CleanFrom(l[k := l[k].(dirty := false)], k + 1) == CleanFrom(l, k)
  {
  }

  lemma CleanNone(l: seq<Block>)
    ensures CleanFrom(l, |l|) == l && CleanFrom(l, 0) == Cleaned(l)
  {
    assert l[0..] == l;
  }

  lemma WrittenOne(dev: seq<Data>, l: seq<Block>, k: nat)
    requires k < |l| && l[k].num < |dev|
    ensures var m := l[k := l[k].(dirty := false)];
      Written(dev, l[k..]) == Written(if l[k].dirty then dev[l[k].num := l[k].data] else dev, m[k + 1..])
  {
    assert l[k..][1..] == l[k := l[k].(dirty := false)][k + 1..];
  }

  lemma FlushedOne(s: Cache, k: nat)
    requires Inv(s) && k < |s.lru|
    ensures var t, l := if At(s, k).dirty then Flushed(s, k) else s, ListOf(s);
      && Inv(t) && |t.lru| == |s.lru|
      && Abs(t) == Abs(s).(list := l[k := l[k].(dirty := false)],
                           dev := if l[k].dirty then s.dev[l[k].num := l[k].data] else s.dev)
  {
    hide View;
    FlushedView(s, k, At(s, k).num);
    FlushedIs(s, k);
  }

  lemma {:induction false} FlushIs(s: Cache, k: nat)
    requires Inv(s) && k <= |s.lru|
    ensures Abs(FlushFrom(s, k)) == Abs(s).(list := CleanFrom(ListOf(s), k), dev := Written(s.dev, ListOf(s)[k..]))
    decreases |s.lru| - k
  {
    hide Unmarked, Inv, CleanFrom, Placed;
    PlacedIs(s);
    var l := ListOf(s);
    if k == |s.lru| {
      CleanNone(l);
    } else {
      var t := if At(s, k).dirty then Flushed(s, k) else s;
      PlaceIsOnDevice(s, k);
      FlushedOne(s, k);
      PlacedIs(t);
      FlushIs(t, k + 1);
      CleanOne(l, k);
      WrittenOne(s.dev, l, k);
    }
  }

  lemma PlaceIsOnDevice(s: Cache, k: nat)
    requires Placed(s) && k < |s.lru|
    ensures At(s, k).num < |s.dev|
  {
  }

  // Every operation of the cache is the operation of the list.
  lemma StepIs(s: Cache, e: Step)
    requires Inv(s) && Enabled(s, e)
    ensures Placed(Apply(s, e)) && Abs(Apply(s, e)) == Simple(Abs(s), e)
  {
    hide Inv, Abs, Filled, Got, Put, Marked, Zeroed, Stored, Simple;
    match e
    case ReadBlock(n) => FilledIs(s, n);
    case GetBlock(n) => GotIs(s, n);
    case PutBlock(n) => PutIs(s, n);
    case MarkDirty(n) => MarkedIs(s, n);
    case ZeroBlock(n) => ZeroedIs(s, n);
    case Store(n, data) => StoredIs(s, n, data);
    case FlushAll => FlushAllIs(s);
  }

  lemma FlushAllIs(s: Cache)
    requires Inv(s)
    ensures Placed(FlushFrom(s, 0)) && Abs(FlushFrom(s, 0)) == Simple(Abs(s), FlushAll)
  {
    FlushIs(s, 0);
    CleanNone(ListOf(s));
    assert ListOf(s)[0..] == ListOf(s);
  }

  // ---- one block number at a time ----

  predicate Differ(l: seq<Block>) {
    forall i, j | 0 <= i < |l| && 0 <= j < |l| && i != j :: l[i].num != l[j].num
  }

  function Lookup(l: seq<Block>, n: nat): (r: Option<Block>)
    ensures r.Some? ==> r.value.num == n
  {
    var k := Where(l, n);
    if k < |l| then Some(l[k]) else None
  }

  lemma LookupAt(l: seq<Block>, k: nat)
    requires Differ(l) && k < |l|
    ensures Where(l, l[k].num) == k && Lookup(l, l[k].num) == Some(l[k])
  {
    var j := Where(l, l[k].num);
    assert j <= k;
  }

  lemma LookupNone(l: seq<Block>, n: nat)
    requires forall k | 0 <= k < |l| :: l[k].num != n
    ensures Lookup(l, n) == None
  {
  }

  lemma LookupUsed(l: seq<Block>, k: nat, b: Block, n: nat)
    requires Differ(l) && k < |l| && forall j | 0 <= j < |l| && j != k :: l[j].num != b.num
    ensures Lookup(Used(l, k, b), n) ==
      if n == b.num then Some(b) else if n == l[k].num then None else Lookup(l, n)
  {
    var u := Used(l, k, b);
    assert forall i | 0 <= i < |u| - 1 :: u[i] == l[if i < k then i else i + 1];
    assert Differ(u);
    if n == b.num {
      LookupAt(u, |u| - 1);
    } else if n == l[k].num || Where(l, n) == |l| {
      LookupNone(u, n);
    } else {
      var j := Where(l, n);
      LookupAt(l, j);
      LookupAt(u, if j < k then j else j - 1);
    }
  }

  lemma LookupMore(l: seq<Block>, b: Block, n: nat)
    requires Differ(l) && forall j | 0 <= j < |l| :: l[j].num != b.num
    ensures Lookup(l + [b], n) == if n == b.num then Some(b) else Lookup(l, n)
  {
    var u := l + [b];
    assert Differ(u);
    if n == b.num {
      LookupAt(u, |l|);
    } else if Where(l, n) == |l| {
      LookupNone(u, n);
    } else {
      LookupAt(u, Where(l, n));
    }
  }

  lemma LookupSet(l: seq<Block>, k: nat, b: Block, n: nat)
    requires Differ(l) && k < |l| && b.num == l[k].num
    ensures Lookup(l[k := b], n) == if n == b.num then Some(b) else Lookup(l, n)
  {
    var u := l[k := b];
    assert Differ(u);
    if n == b.num {
      LookupAt(u, k);
    } else if Where(l, n) == |l| {
      LookupNone(u, n);
    } else {
      LookupAt(u, Where(l, n));
    }
  }

  lemma LookupCleaned(l: seq<Block>, n: nat)
    requires Differ(l)
    ensures Lookup(Cleaned(l), n) == match Lookup(l, n) case None => None case Some(b) => Some(b.(dirty := false))
  {
    var u := Cleaned(l);
    assert Differ(u);
    if Where(l, n) == |l| { LookupNone(u, n); } else { LookupAt(u, Where(l, n)); }
  }

  lemma AbsFacts(s: Cache)
    requires Inv(s)
    ensures Placed(s) && Differ(ListOf(s))
  {
  }

  lemma LookupIs(s: Cache, n: nat)
    requires Inv(s)
    ensures Lookup(ListOf(s), n) == if Cached(s, n) then Some(Entry(s, n)) else None
    ensures n in Unmarked(s) <==> Cached(s, n) && Slot(s, n) in s.pending
  {
    WhereIs(s, n);
    if Cached(s, n) {
      UnmarkedIs(s, Find(s, n, 0));
    } else {
      assert forall k | 0 <= k < |s.lru| :: At(s, k).num != n;
    }
  }

  // Marking a cached block sets its dirty flag, ends what was unmarked, and leaves contents and references.
  lemma MarkMakesDirty(s: Cache, n: nat)
    requires Inv(s) && Enabled(s, MarkDirty(n)) && Cached(s, n)
    ensures var r := Apply(s, MarkDirty(n));
      && Inv(r) && Cached(r, n) && Slot(r, n) !in r.pending
      && Entry(r, n).dirty && Entry(r, n).data == Entry(s, n).data && Entry(r, n).refs == Entry(s, n).refs
  {
    hide Apply, Unmarked, Inv, Find;
    AbsFacts(s);
    var r, k := Apply(s, MarkDirty(n)), Where(ListOf(s), n);
    StepInv(s, MarkDirty(n));
    StepIs(s, MarkDirty(n));
    AbsFacts(r);
    LookupIs(s, n);
    LookupIs(r, n);
    WhereIs(s, n);
    LookupAt(ListOf(s), k);
    LookupUsed(ListOf(s), k, ListOf(s)[k].(dirty := true), n);
  }

  // ---- references ----

  function Refs(l: seq<Block>, n: nat): (c: nat) {
    match Lookup(l, n)
    case None => 0
    case Some(b) => b.refs
  }

  function RefsAfter(e: Step, n: nat, c: nat): (r: int) {
    if e == GetBlock(n) then c + 1 else if e == PutBlock(n) then c - 1 else c
  }

  lemma BroughtRefs(a: Model, b: Block, n: nat)
    requires Differ(a.list) && (a.room > 0 || Unheld(a.list) < |a.list|)
    requires forall j | 0 <= j < |a.list| :: a.list[j].num != b.num
    ensures Refs(Brought(a, b).list, n) == if n == b.num then b.refs else Refs(a.list, n)
  {
    if a.room > 0 {
      LookupMore(a.list, b, n);
    } else {
      var k := Unheld(a.list);
      LookupUsed(a.list, k, b, n);
      LookupAt(a.list, k);
    }
  }

  // A get adds a reference to its block, a put takes one away, and nothing else does either, to any block.
  lemma StepRefs(s: Cache, e: Step, n: nat)
    requires Inv(s) && Enabled(s, e)
    ensures Placed(Apply(s, e)) && Refs(ListOf(Apply(s, e)), n) == RefsAfter(e, n, Refs(ListOf(s), n))
  {
    hide Apply, Inv, Unmarked, Find, Brought;
    StepIs(s, e);
    AbsFacts(s);
    var l := ListOf(s);
    if e.FlushAll? {
      LookupCleaned(l, n);
    } else {
      var k := Where(l, e.n);
      WhereIs(s, e.n);
      if k < |l| {
        LookupAt(l, k);
        UsedRefs(s, e, k, n);
      } else if e.ReadBlock? || e.GetBlock? || e.ZeroBlock? {
        UnheldIs(s);
        BroughtRefs(Abs(s), Block(e.n, 0, false, s.dev[e.n]), n);
        BroughtRefs(Abs(s), Block(e.n, 1, false, s.dev[e.n]), n);
        BroughtRefs(Abs(s), Block(e.n, 0, true, Zeros(s.size)), n);
      }
    }
  }

  // The block of a number changes its references only where its own do.
  lemma UsedOne(l: seq<Block>, k: nat, b: Block, n: nat)
    requires Differ(l) && k < |l| && b.num == l[k].num
    ensures Refs(Used(l, k, b), n) == if n == b.num then b.refs else Refs(l, n)
    ensures Refs(l[k := b], n) == if n == b.num then b.refs else Refs(l, n)
    ensures Refs(l, b.num) == l[k].refs
  {
    LookupUsed(l, k, b, n);
    LookupSet(l, k, b, n);
    LookupAt(l, k);
  }

  lemma UsedRefs(s: Cache, e: Step, k: nat, n: nat)
    requires Placed(s) && Differ(ListOf(s)) && !e.FlushAll? && k == Where(ListOf(s), e.n) < |s.lru|
    requires e.PutBlock? ==> ListOf(s)[k].refs > 0
    ensures Refs(Simple(Abs(s), e).list, n) == RefsAfter(e, n, Refs(ListOf(s), n))
  {
    hide Unmarked, Where, Refs, Used, Differ, Placed;
    var l := ListOf(s);
    var b := l[k];
    match e
    case ReadBlock(_) => UsedOne(l, k, b, n);
    case GetBlock(_) => UsedOne(l, k, b.(refs := b.refs + 1), n);
    case PutBlock(_) => UsedOne(l, k, b.(refs := b.refs - 1), n);
    case MarkDirty(_) => UsedOne(l, k, b.(dirty := true), n);
    case ZeroBlock(_) => UsedOne(l, k, b.(dirty := true, data := Zeros(s.size)), n);
    case Store(_, data) => UsedOne(l, k, b.(data := data), n);
  }

  function Gets(es: seq<Step>, n: nat): (c: nat) {
    if es == [] then 0 else (if es[0] == GetBlock(n) then 1 else 0) + Gets(es[1..], n)
  }

  function Puts(es: seq<Step>, n: nat): (c: nat) {
    if es == [] then 0 else (if es[0] == PutBlock(n) then 1 else 0) + Puts(es[1..], n)
  }

  // So in every run a block has as many references more as it was got more often than put.
  lemma {:induction false} RunRefs(s: Cache, es: seq<Step>, n: nat)
    requires Inv(s) && Legal(s, es)
    ensures Placed(s) && Placed(Run(s, es))
    ensures Refs(ListOf(Run(s, es)), n) == Refs(ListOf(s), n) + Gets(es, n) - Puts(es, n)
    decreases |es|
  {
    hide Apply, Inv, Enabled, Refs;
    AbsFacts(s);
    if es != [] {
      StepInv(s, es[0]);
      StepRefs(s, es[0], n);
      RunRefs(Apply(s, es[0]), es[1..], n);
    }
  }

  // Blocks that were got and put equally often can be evicted: with any buffer at all, any block can be had again.
  lemma BalancedCanHold(s: Cache, es: seq<Step>, n: nat)
    requires Inv(s) && Legal(s, es) && n < |s.dev| && (s.free != [] || s.lru != [])
    requires forall m :: Refs(ListOf(s), m) + Gets(es, m) == Puts(es, m)
    ensures Placed(Run(s, es)) && CanHold(Run(s, es), n)
  {
    hide Inv, Legal, Refs, Find;
    var r := Run(s, es);
    AbsFacts(s);
    AbsFacts(r);
    BuffersKept(s, es);
    if r.free == [] {
      var b := At(r, 0);
      RunRefs(s, es, b.num);
      FirstRefs(r);
    }
  }

  lemma FirstRefs(s: Cache)
    requires Inv(s) && s.lru != []
    ensures Refs(ListOf(s), At(s, 0).num) == At(s, 0).refs && (At(s, 0).refs == 0 ==> Evictable(s))
  {
    LookupAt(ListOf(s), 0);
    UnheldIs(s);
  }

  // No operation loses a buffer.
  lemma StepBuffers(s: Cache, e: Step)
    requires Inv(s) && Enabled(s, e)
    ensures |Apply(s, e).free| + |Apply(s, e).lru| == |s.free| + |s.lru|
  {
    hide Apply, Inv, Unmarked, Find;
    StepIs(s, e);
    AbsFacts(s);
    assert |Apply(s, e).lru| == |Abs(Apply(s, e)).list|;
  }

  lemma {:induction false} BuffersKept(s: Cache, es: seq<Step>)
    requires Inv(s) && Legal(s, es)
    ensures |Run(s, es).free| + |Run(s, es).lru| == |s.free| + |s.lru|
    decreases |es|
  {
    hide Apply, Inv, Enabled;
    if es != [] {
      StepInv(s, es[0]);
      StepBuffers(s, es[0]);
      BuffersKept(Apply(s, es[0]), es[1..]);
    }
  }

  // ---- nothing marked is lost ----

  predicate Stores(e: Step, n: nat) {
    e.Store? && e.n == n
  }

  predicate Settles(e: Step, n: nat) {
    e == MarkDirty(n) || e == ZeroBlock(n)
  }

  lemma SimpleUnmarked(a: Model, e: Step, n: nat)
    requires n in a.unmarked ==> Where(a.list, n) < |a.list|
    ensures n in Simple(a, e).unmarked ==> Stores(e, n) || (n in a.unmarked && !Settles(e, n))
  {
    hide Where, Used, Written, Cleaned, Unheld;
  }

  lemma StepUnmarked(s: Cache, e: Step, n: nat)
    requires Inv(s) && Enabled(s, e)
    ensures Placed(Apply(s, e)) && (n in Unmarked(Apply(s, e)) ==> Stores(e, n) || (n in Unmarked(s) && !Settles(e, n)))
  {
    hide Apply, Inv, Unmarked, Find, Simple, Stores, Settles, Enabled;
    StepIs(s, e);
    AbsFacts(s);
    LookupIs(s, n);
    WhereIs(s, n);
    SimpleUnmarked(Abs(s), e, n);
  }

  // Every store to n, and the writes open at the start if any, are marked later on.
  predicate MarksAll(es: seq<Step>, n: nat, open: bool) {
    && (open ==> exists j :: 0 <= j < |es| && Settles(es[j], n))
    && forall i | 0 <= i < |es| && Stores(es[i], n) :: exists j :: i < j < |es| && Settles(es[j], n)
  }

  lemma MarksRest(es: seq<Step>, n: nat, open: bool, later: bool)
    requires es != [] && MarksAll(es, n, open) && (later ==> Stores(es[0], n) || (open && !Settles(es[0], n)))
    ensures MarksAll(es[1..], n, later)
  {
    var rest := es[1..];
    if later {
      var j :| 0 < j < |es| && Settles(es[j], n);
      assert Settles(rest[j - 1], n);
    }
    forall i | 0 <= i < |rest| && Stores(rest[i], n)
      ensures exists j :: i < j < |rest| && Settles(rest[j], n)
    {
      assert Stores(es[i + 1], n);
      var j :| i + 1 < j < |es| && Settles(es[j], n);
      assert Settles(rest[j - 1], n);
    }
  }

  lemma {:induction false} RunMarked(s: Cache, es: seq<Step>, n: nat)
    requires Inv(s) && Legal(s, es) && Placed(s) && MarksAll(es, n, n in Unmarked(s))
    ensures Placed(Run(s, es)) && n !in Unmarked(Run(s, es))
    decreases |es|
  {
    hide Apply, Inv, Enabled, Unmarked;
    if es != [] {
      var r := Apply(s, es[0]);
      StepInv(s, es[0]);
      StepUnmarked(s, es[0], n);
      MarksRest(es, n, n in Unmarked(s), n in Unmarked(r));
      hide MarksAll;
      RunMarked(r, es[1..], n);
    }
  }

  lemma {:induction false} RunLast(s: Cache, es: seq<Step>, e: Step)
    requires Inv(s) && Legal(s, es) && Enabled(Run(s, es), e)
    ensures Legal(s, es + [e]) && Run(s, es + [e]) == Apply(Run(s, es), e)
    decreases |es|
  {
    hide Apply, Inv, Enabled;
    if es == [] {
      StepInv(s, e);
      assert [] + [e] == [e] && [e][1..] == [];
      assert Legal(Apply(s, e), []);
    } else {
      StepInv(s, es[0]);
      RunLast(Apply(s, es[0]), es[1..], e);
      assert (es + [e])[1..] == es[1..] + [e];
    }
  }

  // If every store to n in a run is marked later on, a flush at its end leaves the last value stored on the device.
  lemma FlushKeepsLatest(s: Cache, es: seq<Step>, n: nat)
    requires Inv(s) && Legal(s, es) && n < |s.dev| && Placed(s) && MarksAll(es, n, n in Unmarked(s))
    ensures Legal(s, es + [FlushAll])
    ensures Run(s, es + [FlushAll]).dev[n] == Latest(s.size, es, n, View(s, n))
  {
    hide Inv, View, Unmarked, MarksAll, Legal, Latest;
    var r := Run(s, es);
    AbsFacts(r);
    RunLast(s, es, FlushAll);
    RunMarked(s, es, n);
    LookupIs(r, n);
    FlushWritesView(r, n);
    ViewIsLatest(s, es, n);
  }
}
