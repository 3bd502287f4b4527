/** The write-back LRU block cache of lib/bcache/bcache.c over a device of blocks. */
module BlockCache {
  import opened Lists

  type Data = seq<nat>

  datatype Block = Block(num: nat, refs: nat, dirty: bool, data: Data)

  // free and lru hold positions in blocks. pending are the blocks a holder has written to and not yet marked dirty.
  datatype Cache = Cache(size: nat, blocks: seq<Block>, free: seq<nat>, lru: seq<nat>, dev: seq<Data>,
    pending: set<nat>)

  // ---- the invariant ----

  predicate Placed(s: Cache) {
    && NoDups(s.free)
    && (forall k | 0 <= k < |s.free| :: s.free[k] < |s.blocks| && s.free[k] !in s.lru && !s.blocks[s.free[k]].dirty)
    && (forall k | 0 <= k < |s.lru| :: s.lru[k] < |s.blocks| && s.blocks[s.lru[k]].num < |s.dev|)
  }

  function At(s: Cache, k: nat): (b: Block)
    requires k < |s.lru| && s.lru[k] < |s.blocks|
  {
    s.blocks[s.lru[k]]
  }

  // No block number is cached twice.
  predicate Single(s: Cache)
    requires Placed(s)
  {
    forall j, k | 0 <= j < |s.lru| && 0 <= k < |s.lru| && j != k :: At(s, j).num != At(s, k).num
  }

  // A block that differs from the device is marked dirty, or held by someone who has still to mark it.
  predicate Agrees(s: Cache, k: nat)
    requires Placed(s) && k < |s.lru|
  {
    At(s, k).dirty || (s.lru[k] in s.pending && At(s, k).refs > 0) || At(s, k).data == s.dev[At(s, k).num]
  }

  predicate Inv(s: Cache) {
    Placed(s) && Single(s) && forall k | 0 <= k < |s.lru| :: Agrees(s, k)
  }

  // ---- the view a client has ----

  // The position in lru of block number n at or after k, |lru| if none.
  function Find(s: Cache, n: nat, k: nat): (r: nat)
    requires Placed(s) && k <= |s.lru|
    ensures k <= r <= |s.lru| && (r < |s.lru| ==> At(s, r).num == n)
    ensures forall j | k <= j < r :: At(s, j).num != n
    decreases |s.lru| - k
  {
    if k == |s.lru| || At(s, k).num == n then k else Find(s, n, k + 1)
  }

  predicate Cached(s: Cache, n: nat)
    requires Placed(s)
  {
    Find(s, n, 0) < |s.lru|
  }

  // What block number n holds: the cached copy if there is one, the device's otherwise.
  function View(s: Cache, n: nat): (d: Data)
    requires Placed(s) && n < |s.dev|
  {
    if Cached(s, n) then At(s, Find(s, n, 0)).data else s.dev[n]
  }

  lemma FindIs(s: Cache, k: nat)
    requires Placed(s) && Single(s) && k < |s.lru|
    ensures Find(s, At(s, k).num, 0) == k && View(s, At(s, k).num) == At(s, k).data
  {
    assert Find(s, At(s, k).num, 0) <= k;
  }

  // ---- moving and claiming blocks ----

  // list_delete and list_add_tail of the block at position k.
  function Touched(s: Cache, k: nat): (r: Cache)
    requires k < |s.lru|
  {
    s.(lru := Cut(s.lru, k) + [s.lru[k]])
  }

  // Where the block at position j was before.
  function Before(s: Cache, k: nat, j: nat): (i: nat)
    requires k < |s.lru| && j < |s.lru|
  {
    if j < k then j else if j + 1 < |s.lru| then j + 1 else k
  }

  lemma TouchedAt(s: Cache, k: nat, j: nat)
    requires k < |s.lru| && j < |s.lru|
    ensures |Touched(s, k).lru| == |s.lru| && Touched(s, k).lru[j] == s.lru[Before(s, k, j)]
  {
  }

  lemma TouchedInv(s: Cache, k: nat)
    requires Inv(s) && k < |s.lru|
    ensures Inv(Touched(s, k))
  {
    var r := Touched(s, k);
    CutMembers(s.lru, k);
    forall j: nat | j < |r.lru|
      ensures r.lru[j] == s.lru[Before(s, k, j)]
    {
      TouchedAt(s, k, j);
    }
    forall j: nat | j < |r.lru|
      ensures Agrees(r, j)
    {
      assert Agrees(s, Before(s, k, j));
    }
    forall i: nat, j: nat | i < |r.lru| && j < |r.lru| && i != j
      ensures At(r, i).num != At(r, j).num
    {
      assert At(s, Before(s, k, i)).num != At(s, Before(s, k, j)).num;
    }
  }

  lemma TouchedView(s: Cache, k: nat, n: nat)
    requires Inv(s) && k < |s.lru| && n < |s.dev|
    ensures Inv(Touched(s, k)) && View(Touched(s, k), n) == View(s, n)
  {
    TouchedInv(s, k);
    var r, f := Touched(s, k), Find(s, n, 0);
    if f < |s.lru| {
      var j := if f < k then f else if f == k then |s.lru| - 1 else f - 1;
      TouchedAt(s, k, j);
      FindIs(r, j);
    } else {
      forall j: nat | j < |r.lru|
        ensures At(r, j).num != n
      {
        TouchedAt(s, k, j);
        assert At(s, Before(s, k, j)).num != n;
      }
    }
  }

  lemma CutMembers(q: seq<nat>, k: nat)
    requires k < |q|
    ensures forall x :: x in Cut(q, k) + [q[k]] <==> x in q
  {
    assert q == q[..k] + [q[k]] + q[k + 1..];
  }

  // The first position at or after k with no references, |lru| if none.
  function Victim(s: Cache, k: nat): (r: nat)
    requires Placed(s) && k <= |s.lru|
    ensures k <= r <= |s.lru| && (r < |s.lru| ==> At(s, r).refs == 0)
    ensures forall j | k <= j < r :: At(s, j).refs > 0
    decreases |s.lru| - k
  {
    if k == |s.lru| || At(s, k).refs == 0 then k else Victim(s, k + 1)
  }

  predicate Evictable(s: Cache)
    requires Placed(s)
  {
    s.free != [] || Victim(s, 0) < |s.lru|
  }

  // flush_block on the block at position k, with the write succeeding.
  function Flushed(s: Cache, k: nat): (r: Cache)
    requires Placed(s) && k < |s.lru|
  {
    s.(dev := s.dev[At(s, k).num := At(s, k).data], blocks := s.blocks[s.lru[k] := At(s, k).(dirty := false)])
  }

  lemma FlushedView(s: Cache, k: nat, n: nat)
    requires Inv(s) && k < |s.lru| && n < |s.dev|
    ensures Inv(Flushed(s, k)) && View(Flushed(s, k), n) == View(s, n)
  {
    var r := Flushed(s, k);
    forall j: nat | j < |s.lru|
      ensures s.lru[j] == s.lru[k] <==> j == k
    {
      assert j != k ==> At(s, j).num != At(s, k).num;
    }
    assert Placed(r);
    forall j: nat | j < |s.lru|
      ensures At(r, j) == if j == k then At(s, k).(dirty := false) else At(s, j)
    {
    }
    forall j: nat | j < |r.lru|
      ensures Agrees(r, j)
    {
      assert Agrees(s, j);
    }
    var f := Find(s, n, 0);
    if f < |s.lru| { FindIs(r, f); }
  }

  // The block at position k is given to block number n, unreferenced; the holder that made it pending is gone.
  function Reused(s: Cache, k: nat, n: nat, dirty: bool, data: Data): (r: Cache)
    requires Placed(s) && k < |s.lru|
  {
    Touched(s.(blocks := s.blocks[s.lru[k] := Block(n, 0, dirty, data)], pending := s.pending - {s.lru[k]}), k)
  }

  function Fresh(s: Cache, n: nat, dirty: bool, data: Data): (r: Cache)
    requires Placed(s) && s.free != []
  {
    var i := s.free[0];
    s.(blocks := s.blocks[i := Block(n, 0, dirty, data)], free := s.free[1..], lru := s.lru + [i],
      pending := s.pending - {i})
  }

  // alloc_block and the initialisation that follows it.
  function Claimed(s: Cache, n: nat, dirty: bool, data: Data): (r: Cache)
    requires Placed(s) && Evictable(s)
  {
    if s.free != [] then Fresh(s, n, dirty, data)
    else
      var k := Victim(s, 0);
      Reused(if At(s, k).dirty then Flushed(s, k) else s, k, n, dirty, data)
  }

  lemma FreshView(s: Cache, n: nat, dirty: bool, data: Data, m: nat)
    requires Inv(s) && s.free != [] && n < |s.dev| && m < |s.dev| && !Cached(s, n) && (dirty || data == s.dev[n])
    ensures var r := Fresh(s, n, dirty, data); Inv(r) && View(r, m) == if m == n then data else View(s, m)
  {
    var r := Fresh(s, n, dirty, data);
    var i := s.free[0];
    assert forall j | 0 <= j < |s.lru| :: s.lru[j] in s.lru && s.lru[j] != i;
    assert Placed(r);
    forall j: nat | j < |r.lru|
      ensures At(r, j) == if j == |s.lru| then Block(n, 0, dirty, data) else At(s, j)
      ensures Agrees(r, j)
    {
      if j < |s.lru| { assert Agrees(s, j); }
    }
    assert Single(r);
    if m == n {
      FindIs(r, |s.lru|);
    } else {
      var f := Find(s, m, 0);
      if f < |s.lru| { FindIs(r, f); }
    }
  }

  // Taking over a clean, unreferenced block loses nothing.
  lemma ReusedView(s: Cache, k: nat, n: nat, dirty: bool, data: Data, m: nat)
    requires Inv(s) && k < |s.lru| && !At(s, k).dirty && At(s, k).refs == 0
    requires n < |s.dev| && m < |s.dev| && !Cached(s, n) && (dirty || data == s.dev[n])
    ensures var r := Reused(s, k, n, dirty, data); Inv(r) && View(r, m) == if m == n then data else View(s, m)
  {
    var i := s.lru[k];
    var t := s.(blocks := s.blocks[i := Block(n, 0, dirty, data)], pending := s.pending - {i});
    forall j: nat | j < |s.lru|
      ensures s.lru[j] == i <==> j == k
    {
      assert j != k ==> At(s, j).num != At(s, k).num;
    }
    assert i in s.lru && Placed(t);
    forall j: nat | j < |t.lru|
      ensures At(t, j) == if j == k then Block(n, 0, dirty, data) else At(s, j)
      ensures Agrees(t, j)
    {
      assert Agrees(s, j);
    }
    assert Single(t);
    TouchedView(t, k, m);
    assert Agrees(s, k);
    if m == n {
      FindIs(t, k);
    } else {
      var f := Find(s, m, 0);
      if f < |s.lru| && f != k { FindIs(t, f); }
    }
  }

  lemma ClaimedView(s: Cache, n: nat, dirty: bool, data: Data, m: nat)
    requires Inv(s) && Evictable(s) && n < |s.dev| && m < |s.dev| && !Cached(s, n) && (dirty || data == s.dev[n])
    ensures var r := Claimed(s, n, dirty, data); Inv(r) && View(r, m) == if m == n then data else View(s, m)
  {
    if s.free != [] {
      FreshView(s, n, dirty, data, m);
    } else {
      var k := Victim(s, 0);
      var t := if At(s, k).dirty then Flushed(s, k) else s;
      if At(s, k).dirty {
        FlushedView(s, k, m);
        FlushedFinds(s, k, n);
      }
      ReusedView(t, k, n, dirty, data, m);
    }
  }

  lemma FlushedFinds(s: Cache, k: nat, n: nat)
    requires Inv(s) && k < |s.lru| && !Cached(s, n) && n < |s.dev| && Inv(Flushed(s, k))
    ensures !Cached(Flushed(s, k), n) && Flushed(s, k).dev[n] == s.dev[n]
    ensures At(Flushed(s, k), k) == At(s, k).(dirty := false)
  {
    var r := Flushed(s, k);
    var j := Find(r, n, 0);
    assert forall i: nat | i < |s.lru| :: At(r, i).num == At(s, i).num;
  }

  // ---- the operations ----

  // A change to the block at position k that keeps its number.
  function Changed(s: Cache, k: nat, b: Block, pending: set<nat>): (r: Cache)
    requires k < |s.lru| && s.lru[k] < |s.blocks|
  {
    s.(blocks := s.blocks[s.lru[k] := b], pending := pending)
  }

  lemma ChangedView(s: Cache, k: nat, b: Block, pending: set<nat>, m: nat)
    requires Inv(s) && k < |s.lru| && b.num == At(s, k).num && m < |s.dev|
    requires s.pending - {s.lru[k]} <= pending
    requires b.dirty || (s.lru[k] in pending && b.refs > 0) || b.data == s.dev[b.num]
    ensures var r := Changed(s, k, b, pending); Inv(r) && View(r, m) == if m == b.num then b.data else View(s, m)
  {
    var r := Changed(s, k, b, pending);
    forall j: nat | j < |s.lru|
      ensures s.lru[j] == s.lru[k] <==> j == k
    {
      assert j != k ==> At(s, j).num != At(s, k).num;
    }
    assert s.lru[k] in s.lru && Placed(r);
    forall j: nat | j < |r.lru|
      ensures At(r, j) == if j == k then b else At(s, j)
      ensures Agrees(r, j)
    {
      assert Agrees(s, j);
    }
    assert Single(r);
    var f := Find(s, m, 0);
    if f < |s.lru| { FindIs(r, f); }
  }

  function Last(s: Cache): (k: nat)
    requires s.lru != []
  {
    |s.lru| - 1
  }

  predicate CanHold(s: Cache, n: nat)
    requires Placed(s)
  {
    n < |s.dev| && (Cached(s, n) || Evictable(s))
  }

  // find_or_fill_block; the block is at the tail of lru.
  function Filled(s: Cache, n: nat): (r: Cache)
    requires Placed(s) && CanHold(s, n)
    ensures r.lru != []
  {
    if Cached(s, n) then Touched(s, Find(s, n, 0)) else Claimed(s, n, false, s.dev[n])
  }

  lemma FilledView(s: Cache, n: nat, m: nat)
    requires Inv(s) && CanHold(s, n) && m < |s.dev|
    ensures var r := Filled(s, n);
      && Inv(r) && View(r, m) == View(s, m) && |r.dev| == |s.dev| && At(r, Last(r)).num == n &&
         At(r, Last(r)).data == View(s, n)
  {
    if Cached(s, n) {
      var k := Find(s, n, 0);
      TouchedView(s, k, m);
      TouchedAt(s, k, |s.lru| - 1);
    } else {
      ClaimedView(s, n, false, s.dev[n], m);
      ClaimedLast(s, n, false, s.dev[n]);
    }
  }

  lemma ClaimedLast(s: Cache, n: nat, dirty: bool, data: Data)
    requires Inv(s) && Evictable(s)
    ensures var r := Claimed(s, n, dirty, data);
      r.lru != [] && r.lru[Last(r)] < |r.blocks| && At(r, Last(r)) == Block(n, 0, dirty, data) && |r.dev| == |s.dev|
  {
  }

  function Got(s: Cache, n: nat): (r: Cache)
    requires Inv(s) && CanHold(s, n)
  {
    FilledView(s, n, n);
    var t := Filled(s, n);
    Changed(t, Last(t), At(t, Last(t)).(refs := At(t, Last(t)).refs + 1), t.pending)
  }

  lemma GotView(s: Cache, n: nat, m: nat)
    requires Inv(s) && CanHold(s, n) && m < |s.dev|
    ensures Inv(Got(s, n)) && View(Got(s, n), m) == View(s, m) && |Got(s, n).dev| == |s.dev|
  {
    hide View;
    FilledView(s, n, n);
    FilledView(s, n, m);
    var t := Filled(s, n);
    LastAgrees(t);
    ChangedView(t, Last(t), At(t, Last(t)).(refs := At(t, Last(t)).refs + 1), t.pending, m);
  }

  lemma LastAgrees(s: Cache)
    requires Inv(s) && s.lru != []
    ensures Placed(s) && Agrees(s, Last(s)) && View(s, At(s, Last(s)).num) == At(s, Last(s)).data
  {
    FindIs(s, Last(s));
  }

  // find_block when it finds; the block is at the tail of lru.
  function Hit(s: Cache, n: nat): (r: Cache)
    requires Placed(s) && Cached(s, n)
    ensures r.lru != []
  {
    Touched(s, Find(s, n, 0))
  }

  lemma HitView(s: Cache, n: nat, m: nat)
    requires Inv(s) && Cached(s, n) && m < |s.dev|
    ensures var r := Hit(s, n);
      && Inv(r) && View(r, m) == View(s, m) && |r.dev| == |s.dev| && r.lru[Last(r)] == s.lru[Find(s, n, 0)]
      && At(r, Last(r)) == At(s, Find(s, n, 0)) && r.pending == s.pending
  {
    TouchedView(s, Find(s, n, 0), m);
    TouchedAt(s, Find(s, n, 0), |s.lru| - 1);
  }

  // The cached block n after f changes it in place.
  function Edited(s: Cache, n: nat, b: Block, pending: set<nat>): (r: Cache)
    requires Inv(s) && Cached(s, n)
  {
    HitView(s, n, At(s, Find(s, n, 0)).num);
    Changed(Hit(s, n), Last(Hit(s, n)), b, pending)
  }

  lemma EditedView(s: Cache, n: nat, b: Block, pending: set<nat>, m: nat)
    requires Inv(s) && Cached(s, n) && n < |s.dev| && m < |s.dev| && b.num == n
    requires s.pending - {s.lru[Find(s, n, 0)]} <= pending
    requires b.dirty || (s.lru[Find(s, n, 0)] in pending && b.refs > 0) || b.data == s.dev[n]
    ensures var r := Edited(s, n, b, pending);
      Inv(r) && |r.dev| == |s.dev| && View(r, m) == if m == n then b.data else View(s, m)
  {
    hide View;
    HitView(s, n, m);
    ChangedView(Hit(s, n), Last(Hit(s, n)), b, pending, m);
  }

  // The block itself.
  function Entry(s: Cache, n: nat): (b: Block)
    requires Placed(s) && Cached(s, n)
  {
    At(s, Find(s, n, 0))
  }

  function Slot(s: Cache, n: nat): (i: nat)
    requires Placed(s) && Cached(s, n)
  {
    s.lru[Find(s, n, 0)]
  }

  function Put(s: Cache, n: nat): (r: Cache)
    requires Inv(s) && Cached(s, n) && Entry(s, n).refs > 0
  {
    Edited(s, n, Entry(s, n).(refs := Entry(s, n).refs - 1), s.pending)
  }

  function Marked(s: Cache, n: nat): (r: Cache)
    requires Inv(s)
  {
    if !Cached(s, n) then s else Edited(s, n, Entry(s, n).(dirty := true), s.pending - {Slot(s, n)})
  }

  function Zeros(size: nat): (d: Data)
    ensures |d| == size && forall i | 0 <= i < size :: d[i] == 0
  {
    seq(size, _ => 0)
  }

  // bcache_zero_block; without a block to use it fails and changes nothing.
  function Zeroed(s: Cache, n: nat): (r: Cache)
    requires Inv(s) && n < |s.dev|
  {
    if Cached(s, n) then Edited(s, n, Entry(s, n).(dirty := true, data := Zeros(s.size)), s.pending - {Slot(s, n)})
    else if Evictable(s) then Claimed(s, n, true, Zeros(s.size))
    else s
  }

  // A holder of block n writes through the pointer it was given.
  function Stored(s: Cache, n: nat, data: Data): (r: Cache)
    requires Inv(s) && Cached(s, n)
  {
    Changed(s, Find(s, n, 0), Entry(s, n).(data := data), s.pending + {Slot(s, n)})
  }

  function FlushFrom(s: Cache, k: nat): (r: Cache)
    requires Inv(s) && k <= |s.lru|
    ensures Inv(r) && r.lru == s.lru && |r.dev| == |s.dev|
    decreases |s.lru| - k
  {
    if k == |s.lru| then s
    else
      FlushedView(s, k, At(s, k).num);
      FlushFrom(if At(s, k).dirty then Flushed(s, k) else s, k + 1)
  }

  lemma {:induction false} FlushFromView(s: Cache, k: nat, m: nat)
    requires Inv(s) && k <= |s.lru| && m < |s.dev|
    ensures View(FlushFrom(s, k), m) == View(s, m) && FlushFrom(s, k).pending == s.pending
    ensures forall j | k <= j < |s.lru| :: !At(FlushFrom(s, k), j).dirty
    ensures forall j | 0 <= j < k :: At(FlushFrom(s, k), j) == At(s, j)
    decreases |s.lru| - k
  {
    if k < |s.lru| {
      FlushedView(s, k, m);
      var t := if At(s, k).dirty then Flushed(s, k) else s;
      FlushFromView(t, k + 1, m);
      forall j: nat | j < k
        ensures At(t, j) == At(s, j)
      {
        assert At(s, j).num != At(s, k).num;
      }
    }
  }

  // After a flush the device is the view, for every block that no holder has still to mark.
  lemma FlushWritesView(s: Cache, n: nat)
    requires Inv(s) && n < |s.dev| && (Cached(s, n) ==> Slot(s, n) !in s.pending)
    ensures FlushFrom(s, 0).dev[n] == View(s, n)
  {
    var r := FlushFrom(s, 0);
    FlushFromView(s, 0, n);
    var f := Find(r, n, 0);
    if f < |r.lru| {
      FindIs(r, f);
      FlushKeepsNumbers(s, 0, n);
      assert Agrees(r, f);
    }
  }

  lemma {:induction false} FlushKeepsNumbers(s: Cache, k: nat, n: nat)
    requires Inv(s) && k <= |s.lru|
    ensures Find(FlushFrom(s, k), n, 0) == Find(s, n, 0)
    decreases |s.lru| - k
  {
    if k < |s.lru| {
      FlushedView(s, k, At(s, k).num);
      var t := if At(s, k).dirty then Flushed(s, k) else s;
      assert forall j | 0 <= j < |s.lru| :: At(t, j).num == At(s, j).num;
      FlushKeepsNumbers(t, k + 1, n);
    }
  }

  // ---- runs ----

  datatype Step = ReadBlock(n: nat) | GetBlock(n: nat) | PutBlock(n: nat) | MarkDirty(n: nat) | ZeroBlock(n: nat)
    | Store(n: nat, data: Data) | FlushAll

  // A block to use is available, only a holder writes, and it marks what it has written before letting go.
  predicate Enabled(s: Cache, e: Step)
    requires Inv(s)
  {
    match e
    case ReadBlock(n) => CanHold(s, n)
    case GetBlock(n) => CanHold(s, n)
    case PutBlock(n) =>
      n < |s.dev| && Cached(s, n) && Entry(s, n).refs > 0 && (Entry(s, n).refs > 1 || Slot(s, n) !in s.pending)
    case MarkDirty(n) => n < |s.dev|
    case ZeroBlock(n) => CanHold(s, n)
    case Store(n, data) => n < |s.dev| && Cached(s, n) && Entry(s, n).refs > 0
    case FlushAll => true
  }

  function Apply(s: Cache, e: Step): (r: Cache)
    requires Inv(s) && Enabled(s, e)
  {
    match e
    case ReadBlock(n) => Filled(s, n)
    case GetBlock(n) => Got(s, n)
    case PutBlock(n) => Put(s, n)
    case MarkDirty(n) => Marked(s, n)
    case ZeroBlock(n) => Zeroed(s, n)
    case Store(n, data) => Stored(s, n, data)
    case FlushAll => FlushFrom(s, 0)
  }

  // What a step makes of the contents d of block number m.
  function Effect(size: nat, e: Step, m: nat, d: Data): (r: Data) {
    match e
    case ZeroBlock(n) => if n == m then Zeros(size) else d
    case Store(n, data) => if n == m then data else d
    case _ => d
  }

  lemma EntryIs(s: Cache, n: nat)
    requires Inv(s) && Cached(s, n)
    ensures Entry(s, n).num == n && n < |s.dev| && View(s, n) == Entry(s, n).data && Agrees(s, Find(s, n, 0))
  {
  }

  lemma PutView(s: Cache, n: nat, m: nat)
    requires Inv(s) && Enabled(s, PutBlock(n)) && m < |s.dev|
    ensures var r := Put(s, n); Inv(r) && |r.dev| == |s.dev| && r.size == s.size && View(r, m) == View(s, m)
  {
    hide View;
    EntryIs(s, n);
    EditedView(s, n, Entry(s, n).(refs := Entry(s, n).refs - 1), s.pending, m);
  }

  lemma MarkedView(s: Cache, n: nat, m: nat)
    requires Inv(s) && n < |s.dev| && m < |s.dev|
    ensures var r := Marked(s, n); Inv(r) && |r.dev| == |s.dev| && r.size == s.size && View(r, m) == View(s, m)
  {
    hide View;
    if Cached(s, n) {
      EntryIs(s, n);
      EditedView(s, n, Entry(s, n).(dirty := true), s.pending - {Slot(s, n)}, m);
    }
  }

  lemma ZeroedView(s: Cache, n: nat, m: nat)
    requires Inv(s) && CanHold(s, n) && m < |s.dev|
    ensures var r := Zeroed(s, n);
      Inv(r) && |r.dev| == |s.dev| && r.size == s.size && View(r, m) == if m == n then Zeros(s.size) else View(s, m)
  {
    hide View;
    if Cached(s, n) {
      EntryIs(s, n);
      EditedView(s, n, Entry(s, n).(dirty := true, data := Zeros(s.size)), s.pending - {Slot(s, n)}, m);
    } else {
      ClaimedView(s, n, true, Zeros(s.size), m);
      ClaimedLast(s, n, true, Zeros(s.size));
    }
  }

  lemma StoredView(s: Cache, n: nat, data: Data, m: nat)
    requires Inv(s) && Enabled(s, Store(n, data)) && m < |s.dev|
    ensures var r := Stored(s, n, data);
      Inv(r) && |r.dev| == |s.dev| && r.size == s.size && View(r, m) == if m == n then data else View(s, m)
  {
    hide View;
    EntryIs(s, n);
    ChangedView(s, Find(s, n, 0), Entry(s, n).(data := data), s.pending + {Slot(s, n)}, m);
  }

  lemma StepView(s: Cache, e: Step, m: nat)
    requires Inv(s) && Enabled(s, e) && m < |s.dev|
    ensures var r := Apply(s, e);
      Inv(r) && |r.dev| == |s.dev| && r.size == s.size && View(r, m) == Effect(s.size, e, m, View(s, m))
  {
    hide View, Placed, Single, Agrees, Filled, Got, Put, Marked, Zeroed, Stored;
    match e
    case ReadBlock(n) =>
      FilledView(s, n, m);
      FilledSize(s, n);
    case GetBlock(n) =>
      GotView(s, n, m);
      GotSize(s, n);
    case PutBlock(n) => PutView(s, n, m);
    case MarkDirty(n) => MarkedView(s, n, m);
    case ZeroBlock(n) => ZeroedView(s, n, m);
    case Store(n, data) => StoredView(s, n, data, m);
    case FlushAll =>
      FlushFromView(s, 0, m);
      FlushKeepsSize(s, 0);
  }

  lemma FilledSize(s: Cache, n: nat)
    requires Placed(s) && CanHold(s, n)
    ensures Filled(s, n).size == s.size
  {
  }

  lemma GotSize(s: Cache, n: nat)
    requires Inv(s) && CanHold(s, n)
    ensures Got(s, n).size == s.size
  {
    FilledSize(s, n);
  }

  lemma {:induction false} FlushKeepsSize(s: Cache, k: nat)
    requires Inv(s) && k <= |s.lru|
    ensures FlushFrom(s, k).size == s.size
    decreases |s.lru| - k
  {
    if k < |s.lru| {
      FlushedView(s, k, At(s, k).num);
      FlushKeepsSize(if At(s, k).dirty then Flushed(s, k) else s, k + 1);
    }
  }

  lemma StepInv(s: Cache, e: Step)
    requires Inv(s) && Enabled(s, e)
    ensures Inv(Apply(s, e)) && |Apply(s, e).dev| == |s.dev| && Apply(s, e).size == s.size
  {
    if e.FlushAll? {
      FlushKeepsSize(s, 0);
    } else {
      StepView(s, e, e.n);
    }
  }

  predicate Legal(s: Cache, es: seq<Step>)
    requires Inv(s)
    decreases |es|
  {
    es == [] || (Enabled(s, es[0]) && (StepInv(s, es[0]); Legal(Apply(s, es[0]), es[1..])))
  }

  function Run(s: Cache, es: seq<Step>): (r: Cache)
    requires Inv(s) && Legal(s, es)
    ensures Inv(r) && |r.dev| == |s.dev| && r.size == s.size
    decreases |es|
  {
    if es == [] then s
    else
      StepInv(s, es[0]);
      Run(Apply(s, es[0]), es[1..])
  }

  // The last value stored in block m by the steps, d if none.
  function Latest(size: nat, es: seq<Step>, m: nat, d: Data): (r: Data) {
    if es == [] then d else Latest(size, es[1..], m, Effect(size, es[0], m, d))
  }

  // Whatever was evicted, refilled and flushed on the way, a block holds the last value stored in it.
  lemma {:induction false} ViewIsLatest(s: Cache, es: seq<Step>, m: nat)
    requires Inv(s) && Legal(s, es) && m < |s.dev|
    ensures View(Run(s, es), m) == Latest(s.size, es, m, View(s, m))
    decreases |es|
  {
    hide View, Apply, Enabled, Inv, Effect;
    if es != [] {
      StepInv(s, es[0]);
      StepView(s, es[0], m);
      ViewIsLatest(Apply(s, es[0]), es[1..], m);
    }
  }

  // ---- held blocks stay ----

  // Block i is in use for the same block number in both.
  predicate Stays(s: Cache, r: Cache, i: nat) {
    i < |s.blocks| && i < |r.blocks| && i in r.lru && r.blocks[i].num == s.blocks[i].num
  }

  lemma TouchedStays(s: Cache, k: nat, i: nat)
    requires k < |s.lru| && i in s.lru && i < |s.blocks|
    ensures Stays(s, Touched(s, k), i)
  {
    CutMembers(s.lru, k);
  }

  lemma ClaimedStays(s: Cache, n: nat, dirty: bool, data: Data, i: nat)
    requires Inv(s) && Evictable(s) && i in s.lru && i < |s.blocks| && s.blocks[i].refs > 0
    ensures Stays(s, Claimed(s, n, dirty, data), i)
  {
    if s.free == [] {
      var k := Victim(s, 0);
      CutMembers(s.lru, k);
    }
  }

  lemma {:induction false} FlushStays(s: Cache, k: nat, i: nat)
    requires Inv(s) && k <= |s.lru| && i in s.lru && i < |s.blocks|
    ensures Stays(s, FlushFrom(s, k), i)
    decreases |s.lru| - k
  {
    if k < |s.lru| {
      FlushedView(s, k, At(s, k).num);
      FlushStays(if At(s, k).dirty then Flushed(s, k) else s, k + 1, i);
    }
  }

  lemma EditedStays(s: Cache, n: nat, b: Block, pending: set<nat>, i: nat)
    requires Inv(s) && Cached(s, n) && b.num == n && i in s.lru && i < |s.blocks|
    ensures Stays(s, Edited(s, n, b, pending), i)
  {
    HitView(s, n, At(s, Find(s, n, 0)).num);
    TouchedStays(s, Find(s, n, 0), i);
  }

  // A block with references is never given to another block number.
  lemma HeldStays(s: Cache, e: Step, i: nat)
    requires Inv(s) && Enabled(s, e) && i in s.lru && i < |s.blocks| && s.blocks[i].refs > 0
    ensures Stays(s, Apply(s, e), i)
  {
    hide View;
    match e
    case ReadBlock(n) => FilledStays(s, n, i);
    case GetBlock(n) =>
      FilledView(s, n, n);
      FilledStays(s, n, i);
    case PutBlock(n) => EditedStays(s, n, Entry(s, n).(refs := Entry(s, n).refs - 1), s.pending, i);
    case MarkDirty(n) =>
      if Cached(s, n) { EditedStays(s, n, Entry(s, n).(dirty := true), s.pending - {Slot(s, n)}, i); }
    case ZeroBlock(n) =>
      if Cached(s, n) {
        EditedStays(s, n, Entry(s, n).(dirty := true, data := Zeros(s.size)), s.pending - {Slot(s, n)}, i);
      } else {
        ClaimedStays(s, n, true, Zeros(s.size), i);
      }
    case Store(n, data) =>
    case FlushAll => FlushStays(s, 0, i);
  }

  lemma FilledStays(s: Cache, n: nat, i: nat)
    requires Inv(s) && CanHold(s, n) && i in s.lru && i < |s.blocks| && s.blocks[i].refs > 0
    ensures Stays(s, Filled(s, n), i)
  {
    if Cached(s, n) {
      TouchedStays(s, Find(s, n, 0), i);
    } else {
      ClaimedStays(s, n, false, s.dev[n], i);
    }
  }

  // ---- the cache's own state, changed in place ----

  // alloc_block alone: the block given is at the tail of lru.
  function Allocated(s: Cache): (r: Cache)
    requires Placed(s) && Evictable(s)
    ensures r.lru != [] && r.lru[|r.lru| - 1] < |r.blocks|
  {
    if s.free != [] then
      s.(free := s.free[1..], lru := s.lru + [s.free[0]],
        blocks := s.blocks[s.free[0] := s.blocks[s.free[0]].(refs := 0)])
    else
      var k := Victim(s, 0);
      Touched(if At(s, k).dirty then Flushed(s, k) else s, k)
  }

  lemma ClaimedIs(s: Cache, n: nat, dirty: bool, data: Data)
    requires Placed(s) && Evictable(s)
    ensures var a := Allocated(s);
      Claimed(s, n, dirty, data) ==
        a.(blocks := a.blocks[a.lru[Last(a)] := Block(n, 0, dirty, data)], pending := a.pending - {a.lru[Last(a)]})
    ensures var a := Allocated(s); a.blocks[a.lru[Last(a)]].refs == 0 && !a.blocks[a.lru[Last(a)]].dirty
  {
    var a := Allocated(s);
    var i := a.lru[Last(a)];
    assert a.blocks[i := Block(n, 0, dirty, data)] == Claimed(s, n, dirty, data).blocks;
  }

  class BCache {
    const size: nat
    var blocks: seq<Block>
    var free: seq<nat>
    var lru: seq<nat>
    var dev: seq<Data>
    ghost var pending: set<nat>

    ghost function State(): (s: Cache)
      reads this
    {
      Cache(size, blocks, free, lru, dev, pending)
    }

    // bcache_create
    constructor (device: seq<Data>, blockSize: nat, count: nat, junk: Block)
      requires !junk.dirty && junk.refs == 0
      ensures Inv(State()) && dev == device && size == blockSize && lru == [] && |free| == count
      ensures forall n | 0 <= n < |dev| :: View(State(), n) == device[n]
    {
      size := blockSize;
      dev, lru, pending := device, [], {};
      blocks := seq(count, _ => junk);
      free := seq(count, (i: nat) requires i < count => count - 1 - i);
    }

    method FindBlock(n: nat) returns (found: bool)
      requires Inv(State())
      modifies `lru
      ensures found == Cached(old(State()), n) && State() == if found then Hit(old(State()), n) else old(State())
    {
      hide Inv, Find;
      PlacedIs(State());
      var k := 0;
      FindStep(State(), n, 0);
      while k < |lru| && blocks[lru[k]].num != n
        invariant k <= |lru| && State() == old(State()) && Find(State(), n, k) == Find(State(), n, 0)
      {
        FindStep(State(), n, k);
        k := k + 1;
      }
      FindStep(State(), n, k);
      found := k < |lru|;
      if found { lru := Cut(lru, k) + [lru[k]]; }
    }

    method FlushBlock(i: nat)
      requires i < |blocks| && blocks[i].num < |dev|
      modifies `dev, `blocks
      ensures dev == old(dev)[old(blocks)[i].num := old(blocks)[i].data]
      ensures blocks == old(blocks)[i := old(blocks)[i].(dirty := false)]
    {
      dev := dev[blocks[i].num := blocks[i].data];
      blocks := blocks[i := blocks[i].(dirty := false)];
    }

    method AllocBlock() returns (found: bool)
      requires Inv(State())
      modifies this
      ensures found == Evictable(old(State())) && State() == if found then Allocated(old(State())) else old(State())
    {
      hide Inv, Victim;
      PlacedIs(State());
      if free != [] {
        var i := free[0];
        free := free[1..];
        blocks := blocks[i := blocks[i].(refs := 0)];
        lru := lru + [i];
        return true;
      }
      var k := 0;
      VictimStep(State(), 0);
      while k < |lru| && blocks[lru[k]].refs != 0
        invariant k <= |lru| && State() == old(State()) && Victim(State(), k) == Victim(State(), 0)
      {
        VictimStep(State(), k);
        k := k + 1;
      }
      VictimStep(State(), k);
      if k == |lru| { return false; }
      if blocks[lru[k]].dirty { FlushBlock(lru[k]); }
      lru := Cut(lru, k) + [lru[k]];
      found := true;
    }

    method FindOrFillBlock(n: nat) returns (i: nat)
      requires Inv(State()) && CanHold(State(), n)
      modifies this
      ensures State() == Filled(old(State()), n) && i < |blocks| && lru != [] && i == lru[|lru| - 1]
    {
      hide Inv, Find;
      ghost var s := State();
      PlacedIs(s);
      FilledLast(s, n);
      var found := FindBlock(n);
      if !found {
        ClaimedIs(s, n, false, s.dev[n]);
        found := AllocBlock();
        AllocatedDev(s, n);
        i := lru[|lru| - 1];
        blocks := blocks[i := blocks[i].(num := n)];
        blocks := blocks[i := blocks[i].(data := dev[n])];
        pending := pending - {i};
      }
      i := lru[|lru| - 1];
    }

    method ReadBlock(n: nat) returns (buf: Data)
      requires Inv(State()) && CanHold(State(), n)
      modifies this
      ensures State() == Apply(old(State()), Step.ReadBlock(n)) && Inv(State()) && buf == View(old(State()), n)
    {
      FilledView(State(), n, n);
      var i := FindOrFillBlock(n);
      buf := blocks[i].data;
    }

    method GetBlock(n: nat) returns (i: nat)
      requires Inv(State()) && CanHold(State(), n)
      modifies this
      ensures State() == Apply(old(State()), Step.GetBlock(n)) && Inv(State())
      ensures i < |blocks| && blocks[i].num == n && blocks[i].refs > 0 && blocks[i].data == View(old(State()), n)
    {
      hide View;
      GotView(State(), n, n);
      FilledView(State(), n, n);
      i := FindOrFillBlock(n);
      blocks := blocks[i := blocks[i].(refs := blocks[i].refs + 1)];
    }

    method PutBlock(n: nat)
      requires Inv(State()) && Enabled(State(), Step.PutBlock(n))
      modifies this
      ensures State() == Apply(old(State()), Step.PutBlock(n)) && Inv(State())
    {
      hide View;
      StepInv(State(), Step.PutBlock(n));
      HitView(State(), n, n);
      var found := FindBlock(n);
      var i := lru[|lru| - 1];
      blocks := blocks[i := blocks[i].(refs := blocks[i].refs - 1)];
    }

    method MarkBlockDirty(n: nat) returns (ok: bool)
      requires Inv(State()) && n < |dev|
      modifies this
      ensures State() == Apply(old(State()), Step.MarkDirty(n)) && Inv(State()) && ok == Cached(old(State()), n)
    {
      hide View;
      StepInv(State(), Step.MarkDirty(n));
      if Cached(State(), n) { HitView(State(), n, n); }
      ok := FindBlock(n);
      if !ok { return; }
      var i := lru[|lru| - 1];
      blocks := blocks[i := blocks[i].(dirty := true)];
      pending := pending - {i};
    }

    method ZeroBlock(n: nat) returns (ok: bool)
      requires Inv(State()) && n < |dev|
      modifies this
      ensures State() == Zeroed(old(State()), n) && Inv(State()) && ok == CanHold(old(State()), n)
      ensures ok ==> View(State(), n) == Zeros(size)
    {
      hide View, Find, Victim, Claimed;
      ghost var s := State();
      if CanHold(s, n) { StepView(s, Step.ZeroBlock(n), n); }
      if Cached(s, n) { HitView(s, n, n); }
      ok := FindBlock(n);
      if !ok {
        if Evictable(s) { ClaimedIs(s, n, true, Zeros(size)); }
        ok := AllocBlock();
        if !ok { return; }
        blocks := blocks[lru[|lru| - 1] := blocks[lru[|lru| - 1]].(num := n)];
      }
      var i := lru[|lru| - 1];
      blocks := blocks[i := blocks[i].(data := Zeros(size))];
      blocks := blocks[i := blocks[i].(dirty := true)];
      pending := pending - {i};
    }

    method Flush()
      requires Inv(State())
      modifies this
      ensures State() == Apply(old(State()), FlushAll) && Inv(State())
      ensures pending == {} ==> forall n | 0 <= n < |dev| :: dev[n] == View(State(), n)
    {
      ghost var s := State();
      FlushDone(s);
      var k := 0;
      while k < |lru|
        invariant 0 <= k <= |lru| && Inv(State()) && FlushFrom(State(), k) == FlushFrom(s, 0)
      {
        FlushedView(State(), k, blocks[lru[k]].num);
        if blocks[lru[k]].dirty { FlushBlock(lru[k]); }
        k := k + 1;
      }
    }
  }

  lemma PlacedIs(s: Cache)
    requires Inv(s)
    ensures Placed(s)
  {
  }

  lemma FindStep(s: Cache, n: nat, k: nat)
    requires Placed(s) && k <= |s.lru|
    ensures Find(s, n, k) == if k == |s.lru| || At(s, k).num == n then k else Find(s, n, k + 1)
  {
  }

  lemma VictimStep(s: Cache, k: nat)
    requires Placed(s) && k <= |s.lru|
    ensures Victim(s, k) == if k == |s.lru| || At(s, k).refs == 0 then k else Victim(s, k + 1)
  {
  }

  lemma FilledLast(s: Cache, n: nat)
    requires Inv(s) && CanHold(s, n)
    ensures Filled(s, n).lru != [] && Filled(s, n).lru[Last(Filled(s, n))] < |Filled(s, n).blocks|
  {
    FilledView(s, n, n);
  }

  lemma AllocatedDev(s: Cache, n: nat)
    requires Inv(s) && Evictable(s) && !Cached(s, n) && n < |s.dev|
    ensures |Allocated(s).dev| == |s.dev| && Allocated(s).dev[n] == s.dev[n]
  {
  }

  // After a flush with nothing pending, the device is the view.
  lemma FlushDone(s: Cache)
    requires Inv(s)
    ensures var r := FlushFrom(s, 0);
      r.pending == {} ==> forall n | 0 <= n < |r.dev| :: r.dev[n] == View(r, n)
  {
    forall n | 0 <= n < |s.dev|
      ensures FlushFrom(s, 0).pending == {} ==> FlushFrom(s, 0).dev[n] == View(FlushFrom(s, 0), n)
    {
      FlushFromView(s, 0, n);
      if s.pending == {} { FlushWritesView(s, n); }
    }
  }
}
