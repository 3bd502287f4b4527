/** The descriptor free list, descriptor chains and used-ring loop of dev/virtio/virtio.c (split virtqueues, section
    2.7 of VIRTIO 1.2). */
module Virtio {
  import opened Lists
  import opened Options
  import opened Rounding

  // No descriptor.
  const NONE: nat := 0xffff

  // A chain handed out: its descriptors in order. raw descriptors come from virtio_alloc_desc with their fields unset.
  datatype Chain = Chain(ds: seq<nat>, raw: bool)

  // next and more are the descriptors' next field and VRING_DESC_F_NEXT flag. free and chains say what the links mean,
  // and home says of each descriptor which chain holds it, None for the free list.
  datatype Ring = Ring(
    next: seq<nat>, more: seq<bool>, freeList: nat, freeCount: nat,
    free: seq<nat>, chains: map<nat, Chain>, home: seq<Option<nat>>)

  predicate Sized(s: Ring) {
    |s.next| == |s.more| == |s.home| < NONE
  }

  // Following next from the first descriptor of l visits l.
  predicate Follows(s: Ring, l: seq<nat>) {
    && (forall i | 0 <= i < |l| :: l[i] < |s.next|)
    && (forall i | 0 <= i < |l| - 1 :: s.next[l[i]] == l[i + 1])
  }

  predicate FreeOk(s: Ring)
    requires Sized(s)
  {
    && NoDups(s.free) && |s.free| == s.freeCount && Follows(s, s.free)
    && s.freeList == (if s.free == [] then NONE else s.free[0])
    && (s.free != [] ==> s.next[s.free[|s.free| - 1]] == NONE)
    && (forall i | 0 <= i < |s.free| :: s.home[s.free[i]] == None)
  }

  // F_NEXT is set on every descriptor of a chain but the last.
  predicate ChainOk(s: Ring, k: nat)
    requires Sized(s) && k in s.chains
  {
    var c := s.chains[k];
    && c.ds != [] && NoDups(c.ds) && Follows(s, c.ds)
    && (forall i | 0 <= i < |c.ds| :: s.home[c.ds[i]] == Some(k))
    && (!c.raw ==> forall i | 0 <= i < |c.ds| :: s.more[c.ds[i]] <==> i < |c.ds| - 1)
  }

  // Every descriptor is on the free list or in the chain that is its home.
  predicate Covered(s: Ring)
    requires Sized(s)
  {
    forall x | 0 <= x < |s.home| ::
      if s.home[x].None? then x in s.free else s.home[x].value in s.chains && x in s.chains[s.home[x].value].ds
  }

  predicate Inv(s: Ring) {
    Sized(s) && FreeOk(s) && Covered(s) && forall k | k in s.chains :: ChainOk(s, k)
  }

  // ---- taking and returning descriptors ----

  // The head of the free list becomes the head of chain k.
  function Pop(s: Ring, k: nat): (r: Ring)
    requires Inv(s) && s.free != []
  {
    var i := s.free[0];
    var c := if k in s.chains then s.chains[k].ds else [];
    s.(next := s.next[i := if c == [] then 0 else c[0]], more := s.more[i := c != []],
       freeList := s.next[i], freeCount := s.freeCount - 1,
       free := s.free[1..], chains := s.chains[k := Chain([i] + c, false)], home := s.home[i := Some(k)])
  }

  lemma PopFree(s: Ring, k: nat)
    requires Inv(s) && s.free != []
    ensures Sized(Pop(s, k)) && FreeOk(Pop(s, k))
  {
    hide ChainOk, Covered;
    var i := s.free[0];
    assert s.free == [i] + s.free[1..];
    if |s.free| > 1 { assert s.next[s.free[0]] == s.free[1]; }
  }

  lemma PopChain(s: Ring, k: nat, m: nat)
    requires Inv(s) && s.free != [] && (k in s.chains ==> !s.chains[k].raw) && m in Pop(s, k).chains
    ensures Sized(Pop(s, k)) && ChainOk(Pop(s, k), m)
  {
    hide Covered, Inv, ChainOk, FreeOk, Pop;
    PopFree(s, k);
    if m == k {
      PopOwn(s, k);
    } else {
      PopOther(s, k, m);
    }
  }

  lemma PopOwn(s: Ring, k: nat)
    requires Inv(s) && s.free != [] && (k in s.chains ==> !s.chains[k].raw)
    ensures Sized(Pop(s, k)) && k in Pop(s, k).chains && ChainOk(Pop(s, k), k)
  {
    hide Covered;
    assert s.home[s.free[0]] == None;
    if k in s.chains { assert ChainOk(s, k); }
  }

  lemma PopOther(s: Ring, k: nat, m: nat)
    requires Inv(s) && s.free != [] && m != k && m in Pop(s, k).chains
    ensures Sized(Pop(s, k)) && ChainOk(Pop(s, k), m)
  {
    hide Covered;
    assert s.home[s.free[0]] == None;
    assert ChainOk(s, m);
  }

  lemma PopCovered(s: Ring, k: nat)
    requires Inv(s) && s.free != []
    ensures Sized(Pop(s, k)) && Covered(Pop(s, k))
  {
    hide ChainOk;
    var r, i := Pop(s, k), s.free[0];
    assert s.free == [i] + r.free;
    forall x | 0 <= x < |r.home|
      ensures if r.home[x].None? then x in r.free else r.home[x].value in r.chains && x in r.chains[r.home[x].value].ds
    {
      if x == i { assert r.chains[k].ds[0] == x; }
    }
  }

  lemma PopInv(s: Ring, k: nat)
    requires Inv(s) && s.free != [] && (k in s.chains ==> !s.chains[k].raw)
    ensures Inv(Pop(s, k))
  {
    hide Pop, FreeOk, ChainOk, Covered;
    PopFree(s, k);
    PopCovered(s, k);
    forall m | m in Pop(s, k).chains { PopChain(s, k, m); }
  }

  // virtio_alloc_desc: one descriptor, its fields left as they are.
  function PopRaw(s: Ring, k: nat): (r: Ring)
    requires Inv(s) && s.free != []
  {
    var i := s.free[0];
    s.(freeList := s.next[i], freeCount := s.freeCount - 1,
       free := s.free[1..], chains := s.chains[k := Chain([i], true)], home := s.home[i := Some(k)])
  }

  lemma PopRawFree(s: Ring, k: nat)
    requires Inv(s) && s.free != [] && k !in s.chains
    ensures Sized(PopRaw(s, k)) && FreeOk(PopRaw(s, k)) && Covered(PopRaw(s, k))
  {
    hide ChainOk;
    var r, i := PopRaw(s, k), s.free[0];
    assert s.free == [i] + r.free;
    if |s.free| > 1 { assert s.next[s.free[0]] == s.free[1]; }
    forall x | 0 <= x < |r.home|
      ensures if r.home[x].None? then x in r.free else r.home[x].value in r.chains && x in r.chains[r.home[x].value].ds
    {
      if x == i { assert r.chains[k].ds[0] == x; }
    }
  }

  lemma PopRawInv(s: Ring, k: nat)
    requires Inv(s) && s.free != [] && k !in s.chains
    ensures Inv(PopRaw(s, k))
  {
    PopRawFree(s, k);
    forall m | m in PopRaw(s, k).chains
      ensures ChainOk(PopRaw(s, k), m)
    {
      if m in s.chains { assert ChainOk(s, m); }
    }
  }

  // virtio_free_desc on the first descriptor of chain k.
  function Push(s: Ring, k: nat): (r: Ring)
    requires Inv(s) && k in s.chains
  {
    assert ChainOk(s, k);
    var c := s.chains[k];
    var i := c.ds[0];
    s.(next := s.next[i := s.freeList], freeList := i, freeCount := s.freeCount + 1,
       free := [i] + s.free, home := s.home[i := None],
       chains := if |c.ds| == 1 then s.chains - {k} else s.chains[k := c.(ds := c.ds[1..])])
  }

  lemma PushFree(s: Ring, k: nat)
    requires Inv(s) && k in s.chains
    ensures Sized(Push(s, k)) && FreeOk(Push(s, k))
  {
    hide Covered;
    assert ChainOk(s, k);
    var r, i := Push(s, k), s.chains[k].ds[0];
    assert s.home[i] == Some(k);
    forall j | 0 <= j < |s.free|
      ensures s.free[j] != i
    {
    }
    if s.free != [] { assert r.free[|r.free| - 1] == s.free[|s.free| - 1]; }
  }

  lemma PushChain(s: Ring, k: nat, m: nat)
    requires Inv(s) && k in s.chains && m in Push(s, k).chains
    ensures Sized(Push(s, k)) && ChainOk(Push(s, k), m)
  {
    hide Covered, FreeOk;
    assert ChainOk(s, k) && ChainOk(s, m);
    var i := s.chains[k].ds[0];
    assert s.home[i] == Some(k);
  }

  lemma PushCovered(s: Ring, k: nat)
    requires Inv(s) && k in s.chains
    ensures Sized(Push(s, k)) && Covered(Push(s, k))
  {
    hide FreeOk;
    assert ChainOk(s, k);
    var r, c := Push(s, k), s.chains[k].ds;
    assert c == [c[0]] + c[1..];
    assert r.free[0] == c[0];
    forall x | 0 <= x < |r.home|
      ensures if r.home[x].None? then x in r.free else r.home[x].value in r.chains && x in r.chains[r.home[x].value].ds
    {
      if x != c[0] && s.home[x].None? { assert x in s.free; }
    }
  }

  lemma PushInv(s: Ring, k: nat)
    requires Inv(s) && k in s.chains
    ensures Inv(Push(s, k))
  {
    hide Push, FreeOk, ChainOk, Covered;
    PushFree(s, k);
    PushCovered(s, k);
    forall m | m in Push(s, k).chains { PushChain(s, k, m); }
  }

  // ---- what the links mean ----

  // The descriptors met by following next from head, at most n of them.
  function Walk(next: seq<nat>, head: nat, n: nat): (l: seq<nat>)
    decreases n
  {
    if n == 0 || head >= |next| then [] else [head] + Walk(next, next[head], n - 1)
  }

  lemma {:induction false} WalkIs(s: Ring, l: seq<nat>)
    requires Follows(s, l) && l != []
    ensures Walk(s.next, l[0], |l|) == l
    decreases |l|
  {
    if |l| > 1 {
      assert s.next[l[0]] == l[1];
      var t := l[1..];
      forall i | 0 <= i < |t| - 1
        ensures s.next[t[i]] == t[i + 1]
      {
        assert s.next[l[i + 1]] == l[(i + 1) + 1];
      }
      WalkIs(s, t);
    }
  }

  // ---- runs ----

  datatype Step = AllocDesc(k: nat) | AllocChain(k: nat, count: nat) | FreeHead(k: nat)

  // k names the new chain; only the first descriptor of a chain that is out is returned.
  predicate Enabled(s: Ring, e: Step) {
    match e
    case AllocDesc(k) => k !in s.chains
    case AllocChain(k, count) => k !in s.chains
    case FreeHead(k) => k in s.chains
  }

  function PopN(s: Ring, k: nat, n: nat): (r: Ring)
    requires Inv(s) && n <= |s.free| && (k in s.chains ==> !s.chains[k].raw)
    ensures Inv(r) && r.free == s.free[n..]
    ensures k in r.chains ==> !r.chains[k].raw
    ensures n > 0 ==> k in r.chains && |r.chains[k].ds| == n + (if k in s.chains then |s.chains[k].ds| else 0)
    decreases n
  {
    if n == 0 then s
    else
      PopInv(s, k);
      PopN(Pop(s, k), k, n - 1)
  }

  // What is left to pop after one descriptor, and where that one went.
  lemma PopNext(s: Ring, k: nat, n: nat)
    requires Inv(s) && n <= |s.free| && (k in s.chains ==> !s.chains[k].raw)
    ensures n == 0 ==> PopN(s, k, 0) == s
    ensures n > 0 ==> Inv(Pop(s, k)) && PopN(s, k, n) == PopN(Pop(s, k), k, n - 1) && Pop(s, k).free == s.free[1..]
    ensures n > 0 ==> k in Pop(s, k).chains
    ensures n > 0 ==> Pop(s, k).chains[k] == Chain([s.free[0]] + (if k in s.chains then s.chains[k].ds else []), false)
  {
    hide Inv;
    if n > 0 { PopInv(s, k); }
  }

  function Apply(s: Ring, e: Step): (r: Ring)
    requires Inv(s) && Enabled(s, e)
    ensures Inv(r)
  {
    match e
    case AllocDesc(k) =>
      if s.freeCount == 0 then s
      else
        PopRawInv(s, k);
        PopRaw(s, k)
    case AllocChain(k, count) => if s.freeCount < count then s else PopN(s, k, count)
    case FreeHead(k) =>
      PushInv(s, k);
      Push(s, k)
  }

  predicate Legal(s: Ring, es: seq<Step>)
    requires Inv(s)
    decreases |es|
  {
    es == [] || (Enabled(s, es[0]) && Legal(Apply(s, es[0]), es[1..]))
  }

  function Run(s: Ring, es: seq<Step>): (r: Ring)
    requires Inv(s) && Legal(s, es)
    ensures Inv(r)
    decreases |es|
  {
    if es == [] then s else Run(Apply(s, es[0]), es[1..])
  }

  // In every run the free list and each chain handed out are walks of distinct descriptors that share none.
  lemma Partition(s: Ring, es: seq<Step>, k: nat, m: nat, x: nat)
    requires Inv(s) && Legal(s, es)
    ensures var r := Run(s, es);
      && Walk(r.next, r.freeList, r.freeCount) == r.free && |r.free| == r.freeCount && NoDups(r.free)
      && (k in r.chains ==> var c := r.chains[k];
        && c.ds != [] && NoDups(c.ds) && Walk(r.next, c.ds[0], |c.ds|) == c.ds
        && (!c.raw ==> forall i | 0 <= i < |c.ds| :: r.more[c.ds[i]] <==> i < |c.ds| - 1))
      && (k in r.chains && x in r.chains[k].ds ==> x !in r.free && (m in r.chains && m != k ==> x !in r.chains[m].ds))
      && (x < |r.next| ==> x in r.free || exists j :: j in r.chains && x in r.chains[j].ds)
  {
    var r := Run(s, es);
    if r.free != [] { WalkIs(r, r.free); }
    if k in r.chains {
      assert ChainOk(r, k);
      WalkIs(r, r.chains[k].ds);
    }
    if m in r.chains { assert ChainOk(r, m); }
  }

  // A chain asked for is the requested number of descriptors, or nothing changes.
  lemma ChainLength(s: Ring, k: nat, count: nat)
    requires Inv(s) && k !in s.chains && count > 0
    ensures var r := Apply(s, AllocChain(k, count));
      if |s.free| < count then r == s else k in r.chains && |r.chains[k].ds| == count && r.free == s.free[count..]
  {
  }

  // The first n of l, last first, and then c.
  function Onto(l: seq<nat>, n: nat, c: seq<nat>): (r: seq<nat>)
    requires n <= |l|
  {
    if n == 0 then c else Onto(l[1..], n - 1, [l[0]] + c)
  }

  lemma {:induction false} PopNIs(s: Ring, k: nat, n: nat)
    requires Inv(s) && n <= |s.free| && (k in s.chains ==> !s.chains[k].raw)
    ensures var r := PopN(s, k, n);
      && r.free == s.free[n..] && (n == 0 ==> r == s)
      && (n > 0 ==>
        r.chains == s.chains[k := Chain(Onto(s.free, n, if k in s.chains then s.chains[k].ds else []), false)])
    decreases n
  {
    hide Inv;
    if n > 0 {
      PopInv(s, k);
      PopNIs(Pop(s, k), k, n - 1);
    }
  }

  // The free list is a stack: descriptors come off its head into a chain, the last one off being the chain's first, and
  // a chain's first descriptor goes back on its head; other chains are left alone.
  lemma StepIs(s: Ring, e: Step)
    requires Inv(s) && Enabled(s, e)
    ensures var r := Apply(s, e);
      match e
      case AllocDesc(k) =>
        if s.free == [] then r == s
        else r.free == s.free[1..] && r.chains == s.chains[k := Chain([s.free[0]], true)]
      case AllocChain(k, count) =>
        if count == 0 || |s.free| < count then r == s
        else r.free == s.free[count..] && r.chains == s.chains[k := Chain(Onto(s.free, count, []), false)]
      case FreeHead(k) =>
        && s.chains[k].ds != []
        && var c := s.chains[k];
        && r.free == [c.ds[0]] + s.free
        && r.chains == if |c.ds| == 1 then s.chains - {k} else s.chains[k := c.(ds := c.ds[1..])]
  {
    hide Inv, PopN;
    HeadFacts(s);
    match e
    case AllocDesc(k) =>
    case AllocChain(k, count) => if |s.free| >= count { PopNIs(s, k, count); }
    case FreeHead(k) => ChainFacts(s, k);
  }

  // ---- the ring's own state, changed in place ----

  lemma HeadFacts(s: Ring)
    requires Inv(s)
    ensures |s.next| == |s.more| == |s.home| < NONE && s.freeCount == |s.free|
    ensures s.free != [] ==> s.freeList == s.free[0] < |s.next|
  {
  }

  lemma ChainFacts(s: Ring, k: nat)
    requires Inv(s) && k in s.chains
    ensures s.chains[k].ds != [] && s.chains[k].ds[0] < |s.next|
  {
    assert ChainOk(s, k);
  }

  // The ring size divides the range of the 16-bit indices.
  predicate Divides(n: nat) {
    n > 0 && 0x1_0000 % n == 0
  }

  class VRing {
    const next: array<nat>
    const more: array<bool>
    var freeList: nat
    var freeCount: nat
    var lastUsed: nat
    const avail: array<nat>
    var availIdx: nat
    ghost var submitted: seq<nat>
    ghost var free: seq<nat>
    ghost var chains: map<nat, Chain>
    ghost var home: seq<Option<nat>>

    ghost function View(): (s: Ring)
      reads this, next, more
    {
      Ring(next[..], more[..], freeList, freeCount, free, chains, home)
    }

    // The available ring shows the device the latest submissions, each in the slot of its number.
    ghost predicate AvailOk()
      reads this, avail
    {
      && avail.Length == next.Length > 0 && Divides(next.Length) && availIdx == |submitted| % 0x1_0000
      && (forall t: nat | t < |submitted| && |submitted| - avail.Length <= t ::
           avail[Masked(t, avail.Length)] == submitted[t])
    }

    ghost predicate Valid()
      reads this, next, more, avail
    {
      avail != next && Inv(View()) && AvailOk()
    }

    // virtio_alloc_ring puts every descriptor on the free list.
    constructor (len: nat)
      requires 0 < len < NONE && Divides(len)
      ensures Valid() && submitted == [] && |free| == len && chains == map[] && next.Length == len && lastUsed == 0
      ensures fresh(next) && fresh(more) && fresh(avail)
    {
      hide Inv, Apply;
      next, more, avail := new nat[len], new bool[len], new nat[len];
      availIdx, submitted := 0, [];
      freeList, freeCount, lastUsed, free := NONE, 0, 0, [];
      chains := Singles(0, len);
      home := seq(len, (i: nat) => Some(i));
      new;
      StartInv(View(), len);
      var i := 0;
      while i < len
        invariant 0 <= i <= len && Valid() && |free| == i && chains == Singles(i, len)
        modifies `freeList, `freeCount, `free, `chains, `home, next
      {
        FreeDesc(i, i);
        i := i + 1;
      }
    }

    method FreeDesc(d: nat, ghost k: nat)
      requires Valid() && k in chains && chains[k].ds != [] && chains[k].ds[0] == d
      modifies `freeList, `freeCount, `free, `chains, `home, next
      ensures View() == Apply(old(View()), FreeHead(k)) && Valid()
      ensures |free| == |old(free)| + 1 && (|old(chains)[k].ds| == 1 ==> chains == old(chains) - {k})
    {
      hide Inv;
      ghost var s := View();
      PushInv(s, k);
      HeadFacts(s);
      ChainFacts(s, k);
      next[d] := freeList;
      freeList := d;
      freeCount := freeCount + 1;
      free, home := [d] + free, home[d := None];
      chains := if |chains[k].ds| == 1 then chains - {k} else chains[k := chains[k].(ds := chains[k].ds[1..])];
      assert View() == Push(s, k);
    }

    // 0xffff when there is none.
    method AllocDesc(ghost k: nat) returns (d: nat)
      requires Valid() && k !in chains
      modifies `freeList, `freeCount, `free, `chains, `home
      ensures View() == Apply(old(View()), Step.AllocDesc(k)) && Valid()
      ensures if old(freeCount) == 0 then d == NONE else k in chains && chains[k].ds == [d]
    {
      hide Inv;
      HeadFacts(View());
      if freeCount == 0 { return NONE; }
      PopRawInv(View(), k);
      d := freeList;
      freeList := next[d];
      freeCount := freeCount - 1;
      free, home, chains := free[1..], home[d := Some(k)], chains[k := Chain([d], true)];
    }

    // The chain comes out last descriptor first; start is its head.
    method AllocDescChain(count: nat, ghost k: nat) returns (start: Option<nat>)
      requires Valid() && k !in chains
      modifies `freeList, `freeCount, `free, `chains, `home, next, more
      ensures View() == Apply(old(View()), AllocChain(k, count)) && Valid()
      ensures start.Some? <==> 0 < count <= old(freeCount)
      ensures start.Some? ==> k in chains && |chains[k].ds| == count && chains[k].ds[0] == start.value
    {
      hide Inv, AvailOk, PopN, Pop;
      HeadFacts(View());
      if freeCount < count { return None; }
      ghost var s := View();
      var left: nat := count;
      start := None;
      while left > 0
        invariant left <= count && Valid() && left <= |free|
        invariant k in chains ==> !chains[k].raw
        invariant PopN(View(), k, left) == PopN(s, k, count)
        invariant start.None? ==> k !in chains && left == count
        invariant start.Some? ==> k in chains && |chains[k].ds| == count - left > 0
        invariant start.Some? ==> chains[k].ds[0] == start.value
      {
        PopNext(View(), k, left);
        start := PopOne(start, k);
        left := left - 1;
      }
      PopNext(View(), k, 0);
    }

    method PopOne(last: Option<nat>, ghost k: nat) returns (i: Option<nat>)
      requires Valid() && free != [] && (k in chains ==> !chains[k].raw && chains[k].ds != [])
      requires if last.None? then k !in chains else k in chains && chains[k].ds[0] == last.value
      modifies `freeList, `freeCount, `free, `chains, `home, next, more
      ensures View() == Pop(old(View()), k) && Valid() && i == Some(old(free)[0])
    {
      hide Inv;
      ghost var s := View();
      PopInv(s, k);
      HeadFacts(s);
      var d := freeList;
      freeList := next[d];
      freeCount := freeCount - 1;
      if last.Some? {
        more[d] := true;
        next[d] := last.value;
      } else {
        more[d] := false;
        next[d] := 0;
      }
      ghost var c := if k in chains then chains[k].ds else [];
      free, home, chains := free[1..], home[d := Some(k)], chains[k := Chain([d] + c, false)];
      i := Some(d);
      assert View() == Pop(s, k);
    }

    // virtio_submit_chain
    method SubmitChain(d: nat)
      requires Valid()
      modifies avail, `availIdx, `submitted
      ensures Valid() && submitted == old(submitted) + [d]
    {
      hide Masked, Divides;
      ghost var n := |submitted|;
      ModMod(n, avail.Length);
      forall t: nat | t < n && n - avail.Length < t
        ensures Masked(t, avail.Length) != Masked(n, avail.Length)
      {
        SlotsApart(t, n, avail.Length);
      }
      avail[Masked(availIdx, avail.Length)] := d;
      availIdx := (availIdx + 1) % 0x1_0000;
      submitted := submitted + [d];
    }

    // The used-ring loop of virtio_mmio_irq. elems is all the device has ever put in the ring, done how many the loop
    // has seen.
    method ServiceUsed(used: seq<nat>, usedIdx: nat, ghost elems: seq<nat>, ghost done: nat) returns (calls: seq<nat>)
      requires |used| == next.Length > 0 && Divides(next.Length)
      requires usedIdx == |elems| % 0x1_0000 && done <= |elems| && lastUsed == Masked(done, next.Length)
      requires forall t: nat | t < |elems| && |elems| - next.Length <= t :: used[Masked(t, next.Length)] == elems[t]
      modifies `lastUsed
      ensures |calls| == Masked(|elems| - done, next.Length) && lastUsed == Masked(|elems|, next.Length)
      ensures calls == elems[done..] <==> |elems| - done < next.Length
    {
      hide Masked, Divides;
      var num := next.Length;
      calls := [];
      ghost var d := Masked(|elems| - done, num);
      ModMod(|elems|, num);
      UsedStart(done, |elems|, num);
      while lastUsed != Masked(usedIdx, num)
        invariant |calls| <= d && lastUsed == Masked(done + |calls|, num)
        invariant lastUsed == Masked(usedIdx, num) <==> |calls| == d
        invariant |elems| - done < num ==> d == |elems| - done && calls == elems[done..done + |calls|]
        decreases d - |calls|
      {
        UsedTurn(done, |calls|, |elems|, num);
        ghost var t := done + |calls|;
        calls := calls + [used[lastUsed]];
        lastUsed := Masked(lastUsed + 1, num);
        assert |elems| - done < num ==> used[Masked(t, num)] == elems[t];
      }
    }
  }

  // A client: a chain is taken from a new ring and given to the device.
  method SubmitOne(len: nat, count: nat) returns (r: VRing)
    requires 0 < count <= len < NONE && Divides(len)
    ensures r.Valid() && 0 in r.chains && |r.chains[0].ds| == count && |r.free| == len - count
    ensures r.availIdx == 1 && r.avail.Length == len && r.avail[0] == r.chains[0].ds[0]
  {
    hide Inv, Divides;
    r := new VRing(len);
    HeadFacts(r.View());
    ChainLength(r.View(), 0, count);
    var start := r.AllocDescChain(count, 0);
    r.SubmitChain(start.value);
    assert Masked(0, len) == 0;
  }

  // Submit a chain of one descriptor for each in the ring.
  method SubmitAll(len: nat) returns (r: VRing, heads: seq<nat>)
    requires 0 < len < NONE && Divides(len)
    ensures fresh(r) && r.Valid() && r.next.Length == len && r.lastUsed == 0 && r.free == []
    ensures r.submitted == heads && |heads| == len
    ensures forall i: nat | i < len :: i in r.chains && r.chains[i].ds == [heads[i]]
  {
    hide Inv, Divides, Masked;
    r := new VRing(len);
    heads := [];
    while |heads| < len
      invariant |heads| <= len && r.Valid() && |r.free| == len - |heads| && r.next.Length == len && r.lastUsed == 0
      invariant fresh(r) && fresh(r.next) && fresh(r.more) && fresh(r.avail) && r.submitted == heads
      invariant forall k: nat :: k in r.chains <==> k < |heads|
      invariant forall k: nat | k < |heads| :: r.chains[k].ds == [heads[k]]
    {
      ghost var s := r.View();
      HeadFacts(s);
      OneChain(s, |heads|);
      var d := r.AllocDescChain(1, |heads|);
      r.SubmitChain(d.value);
      heads := heads + [d.value];
    }
  }

  lemma OneChain(s: Ring, k: nat)
    requires Inv(s) && s.free != [] && k !in s.chains
    ensures |s.free| == s.freeCount && Apply(s, AllocChain(k, 1)) == Pop(s, k)
  {
    hide ChainOk, Covered;
    PopInv(s, k);
    assert PopN(Pop(s, k), k, 0) == Pop(s, k);
  }

  // When the device returns a whole ring of them at once, the loop sees no change and calls back for none.
  method MissesFullRing(len: nat) returns (r: VRing, returned: seq<nat>, calls: seq<nat>)
    requires 0 < len < NONE && Divides(len)
    ensures r.Valid() && r.next.Length == len && r.free == [] && r.lastUsed == 0 && calls == []
    ensures r.submitted == returned && |returned| == len
    ensures forall i: nat | i < len :: i in r.chains && r.chains[i].ds == [returned[i]]
  {
    hide Inv, Divides;
    r, returned := SubmitAll(len);
    forall t: nat | t < len
      ensures Masked(t, len) == t
    {
      DivIs(t, len, 0, t);
    }
    UsedStart(0, len, len);
    assert Masked(len, len) == 0 by { DivIs(len, len, 1, 0); }
    calls := r.ServiceUsed(returned, len % 0x1_0000, returned, 0);
  }

  // Chains of one descriptor each.
  function Singles(i: nat, n: nat): (m: map<nat, Chain>)
    ensures forall k: nat :: k in m <==> i <= k < n
    ensures forall k: nat | i <= k < n :: m[k] == Chain([k], true)
    ensures i < n ==> Singles(i + 1, n) == m - {i}
    decreases n - i
  {
    if i >= n then map[]
    else
      var rest := Singles(i + 1, n);
      assert rest[i := Chain([i], true)] - {i} == rest;
      rest[i := Chain([i], true)]
  }

  lemma StartInv(s: Ring, n: nat)
    requires Sized(s) && n == |s.home| && s.free == [] && s.freeCount == 0 && s.freeList == NONE
    requires s.chains == Singles(0, n) && forall i | 0 <= i < n :: s.home[i] == Some(i)
    ensures Inv(s)
  {
    forall k | k in s.chains
      ensures ChainOk(s, k)
    {
      assert s.chains[k] == Chain([k], true);
    }
  }

  // The 16-bit index and the ring position agree because the ring size divides 65536.
  lemma ModMod(x: nat, n: nat)
    requires n > 0 && Divides(n)
    ensures Masked(x % 0x1_0000, n) == Masked(x, n)
  {
    var q, r := x / 0x1_0000, x % 0x1_0000;
    var h := 0x1_0000 / n;
    assert 0x1_0000 == n * h;
    assert x == n * (h * q) + r;
    var u, v := r / n, r % n;
    assert r == n * u + v;
    assert x == n * (h * q + u) + v;
    DivIs(x, n, h * q + u, v);
  }

  lemma SlotsApart(t: nat, n: nat, num: nat)
    requires num > 0 && t < n < t + num
    ensures Masked(t, num) != Masked(n, num)
  {
    ModMeets(t, n, 0, num);
    DivIs(n - t, num, 0, n - t);
  }

  lemma UsedStart(done: nat, total: nat, n: nat)
    requires n > 0 && done <= total
    ensures Masked(done, n) == Masked(total, n) <==> Masked(total - done, n) == 0
    ensures total - done < n ==> Masked(total - done, n) == total - done
    ensures total - done >= n ==> Masked(total - done, n) != total - done
  {
    ModMeets(done, total, 0, n);
    if total - done < n { DivIs(total - done, n, 0, total - done); }
  }

  lemma UsedTurn(done: nat, j: nat, total: nat, n: nat)
    requires n > 0 && done <= total && j < Masked(total - done, n)
    ensures Masked(Masked(done + j, n) + 1, n) == Masked(done + j + 1, n)
    ensures Masked(done + j + 1, n) == Masked(total, n) <==> j + 1 == Masked(total - done, n)
  {
    ModNext(done + j, n);
    if j + 1 < n { ModMeets(done, total, j + 1, n); }
  }
}
