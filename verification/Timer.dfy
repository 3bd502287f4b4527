/** The per-CPU timer queue of kernel/timer.c, on 32-bit times that wrap. */
module Timer {
  import opened Lists

  const U32: int := 0x1_0000_0000
  const HALF: int := 0x8000_0000

  // ---- wrapping time ----

  // (int32_t)(a - b): the 32-bit difference read as a signed number.
  function Diff(a: nat, b: nat): (d: int)
    requires a < U32 && b < U32
    ensures -HALF <= d < HALF && (d == a - b || d == a - b - U32 || d == a - b + U32)
  {
    if a - b >= HALF then a - b - U32 else if a - b < -HALF then a - b + U32 else a - b
  }

  predicate TimeLt(a: nat, b: nat)
    requires a < U32 && b < U32
  {
    Diff(a, b) < 0
  }

  predicate TimeGt(a: nat, b: nat)
    requires a < U32 && b < U32
  {
    Diff(a, b) > 0
  }

  // How far times may lie before now and after it. Any two of them are then less than half the range apart.
  datatype Window = Window(back: nat, ahead: nat)

  predicate WindowOk(w: Window) {
    w.ahead > 0 && w.back + w.ahead <= HALF
  }

  predicate Near(w: Window, now: nat, t: nat) {
    WindowOk(w) && now < U32 && t < U32 && 0 <= Diff(t, now) + w.back && Diff(t, now) < w.ahead
  }

  // Among times near now the wrapping comparison is the order of their distances from now.
  lemma OrderIs(w: Window, now: nat, a: nat, b: nat)
    requires Near(w, now, a) && Near(w, now, b)
    ensures TimeLt(a, b) <==> Diff(a, now) < Diff(b, now)
    ensures TimeGt(a, b) <==> Diff(a, now) > Diff(b, now)
    ensures TimeLt(now, a) <==> Diff(a, now) > 0
  {
  }

  // Exactly the times less than half the range apart, or just half, are compared rightly.
  lemma OffsetsCompare(now: nat, x: nat, y: nat)
    requires now < U32 && x < y < U32
    ensures TimeLt(Plus(now, x), Plus(now, y)) <==> y - x <= HALF
  {
  }

  // A timer set with a longer delay than that is taken for one that is due.
  lemma LongDelayIsDue(now: nat, delay: nat)
    requires now < U32 && delay < U32
    ensures TimeLt(now, Plus(now, delay)) <==> 1 <= delay <= HALF
  {
  }

  // 32-bit addition.
  function Plus(t: nat, d: nat): (r: nat)
    requires t < U32 && d < U32
    ensures r < U32
  {
    if t + d < U32 then t + d else t + d - U32
  }

  lemma PlusIs(w: Window, now: nat, t: nat, d: nat)
    requires Near(w, now, t) && d < w.ahead && Diff(t, now) + d < w.ahead
    ensures Near(w, now, Plus(t, d)) && Diff(Plus(t, d), now) == Diff(t, now) + d
  {
  }

  // ---- the queue ----

  datatype Timer = Timer(deadline: nat, period: nat)

  // timers holds every timer object; queue those that are set, in firing order.
  datatype State = State(timers: map<nat, Timer>, queue: seq<nat>)

  function Late(ts: map<nat, Timer>, now: nat, t: nat): (d: int)
    requires t in ts && ts[t].deadline < U32 && now < U32
  {
    Diff(ts[t].deadline, now)
  }

  predicate NearAll(ts: map<nat, Timer>, w: Window, now: nat, q: seq<nat>) {
    forall i | 0 <= i < |q| :: q[i] in ts && Near(w, now, ts[q[i]].deadline) && ts[q[i]].period < w.ahead
  }

  // Entries in order of when they are due, counted from now.
  predicate InOrder(ts: map<nat, Timer>, w: Window, now: nat, q: seq<nat>)
    requires NearAll(ts, w, now, q)
  {
    forall i, j | 0 <= i < j < |q| :: Late(ts, now, q[i]) <= Late(ts, now, q[j])
  }

  predicate Good(s: State, w: Window, now: nat) {
    WindowOk(w) && now < U32 && NoDups(s.queue) && NearAll(s.timers, w, now, s.queue) &&
      InOrder(s.timers, w, now, s.queue)
  }

  // The order of the queue is the order of the source's own comparison.
  lemma SortedIs(s: State, w: Window, now: nat, i: nat, j: nat)
    requires Good(s, w, now) && i < j < |s.queue|
    ensures !TimeGt(s.timers[s.queue[i]].deadline, s.timers[s.queue[j]].deadline)
  {
    OrderIs(w, now, s.timers[s.queue[i]].deadline, s.timers[s.queue[j]].deadline);
    assert Late(s.timers, now, s.queue[i]) <= Late(s.timers, now, s.queue[j]);
  }

  // ---- insertion and removal ----

  // Before the first entry at or after k that is due later.
  function Place(s: State, w: Window, now: nat, d: nat, k: nat): (r: nat)
    requires NearAll(s.timers, w, now, s.queue) && d < U32 && k <= |s.queue|
    ensures k <= r <= |s.queue| && (r < |s.queue| ==> TimeGt(s.timers[s.queue[r]].deadline, d))
    ensures forall i | k <= i < r :: !TimeGt(s.timers[s.queue[i]].deadline, d)
    decreases |s.queue| - k
  {
    if k == |s.queue| || TimeGt(s.timers[s.queue[k]].deadline, d) then k else Place(s, w, now, d, k + 1)
  }

  // insert_timer_in_queue, for a timer set to d with period p.
  function Inserted(s: State, w: Window, now: nat, t: nat, d: nat, p: nat): (r: State)
    requires NearAll(s.timers, w, now, s.queue) && d < U32
  {
    var k := Place(s, w, now, d, 0);
    State(s.timers[t := Timer(d, p)], s.queue[..k] + [t] + s.queue[k..])
  }

  lemma Between(ts: map<nat, Timer>, w: Window, now: nat, lo: seq<nat>, t: nat, hi: seq<nat>)
    requires now < U32 && NearAll(ts, w, now, lo) && InOrder(ts, w, now, lo) && NearAll(ts, w, now, hi)
    requires InOrder(ts, w, now, hi)
    requires NearAll(ts, w, now, [t]) && NoDups(lo) && NoDups(hi) && t !in lo && t !in hi
    requires forall i, j | 0 <= i < |lo| && 0 <= j < |hi| :: lo[i] != hi[j]
    requires forall i | 0 <= i < |lo| :: Late(ts, now, lo[i]) <= Late(ts, now, [t][0])
    requires forall i | 0 <= i < |hi| :: Late(ts, now, [t][0]) <= Late(ts, now, hi[i])
    ensures NearAll(ts, w, now, lo + [t] + hi) && InOrder(ts, w, now, lo + [t] + hi) && NoDups(lo + [t] + hi)
  {
    hide Near, Late;
    assert forall i | 0 <= i < |lo| :: lo[i] in lo;
    assert forall i | 0 <= i < |hi| :: hi[i] in hi;
    assert [t][0] in ts;
  }

  lemma InsertedGood(s: State, w: Window, now: nat, t: nat, d: nat, p: nat)
    requires Good(s, w, now) && t !in s.queue && Near(w, now, d) && p < w.ahead
    ensures Good(Inserted(s, w, now, t, d, p), w, now)
  {
    hide Place;
    var k := Place(s, w, now, d, 0);
    var ts := s.timers[t := Timer(d, p)];
    var lo, hi := s.queue[..k], s.queue[k..];
    assert forall i | 0 <= i < |s.queue| :: s.queue[i] in s.queue;
    forall i | 0 <= i < |lo|
      ensures lo[i] in ts && ts[lo[i]].deadline < U32 && Late(ts, now, lo[i]) <= Diff(d, now)
    {
      OrderIs(w, now, s.timers[s.queue[i]].deadline, d);
    }
    forall i | 0 <= i < |hi|
      ensures hi[i] in ts && ts[hi[i]].deadline < U32 && Diff(d, now) <= Late(ts, now, hi[i])
    {
      OrderIs(w, now, s.timers[s.queue[k]].deadline, d);
      assert i > 0 ==> Late(s.timers, now, s.queue[k]) <= Late(s.timers, now, s.queue[k + i]);
    }
    HalvesGood(s, w, now, t, d, p, k);
    Between(ts, w, now, lo, t, hi);
  }

  lemma HalvesGood(s: State, w: Window, now: nat, t: nat, d: nat, p: nat, k: nat)
    requires Good(s, w, now) && t !in s.queue && k <= |s.queue|
    ensures var ts := s.timers[t := Timer(d, p)]; var lo, hi := s.queue[..k], s.queue[k..];
      && NearAll(ts, w, now, lo) && InOrder(ts, w, now, lo) && NearAll(ts, w, now, hi) && InOrder(ts, w, now, hi)
      && NoDups(lo) && NoDups(hi) && t !in lo && t !in hi
      && forall i, j | 0 <= i < |lo| && 0 <= j < |hi| :: lo[i] != hi[j]
  {
    hide Near, Diff;
    assert forall i | 0 <= i < |s.queue| :: s.queue[i] in s.queue;
  }

  // list_delete of the entry at position i.
  function Deleted(s: State, i: nat): (r: State)
    requires i < |s.queue|
  {
    s.(queue := Cut(s.queue, i))
  }

  lemma DeletedGood(s: State, w: Window, now: nat, i: nat)
    requires Good(s, w, now) && i < |s.queue|
    ensures Good(Deleted(s, i), w, now) && s.queue[i] !in Deleted(s, i).queue
  {
    hide Near, Late;
    CutIs(s.queue, i);
    var r := Deleted(s, i);
    assert forall j: nat | j < |r.queue| :: r.queue[j] == s.queue[if j < i then j else j + 1];
  }

  // ---- what a callback may do ----

  // timer_cancel, or a timer_set of a timer that is not (or no longer) queued.
  datatype Action = Cancel(t: nat) | Arm(t: nat, deadline: nat, period: nat)

  // Delays are at least 1, so what is set from now on is due after now.
  predicate ActionOk(w: Window, now: nat, a: Action) {
    WindowOk(w) && now < U32 && (a.Arm? ==> Near(w, now, a.deadline) && Diff(a.deadline, now) > 0 && a.period < w.ahead)
  }

  // timer_set_oneshot and timer_set_periodic raise a delay of 0 to 1.
  function AtLeastOne(delay: nat): (d: nat) {
    if delay == 0 then 1 else delay
  }

  // So a timer set while the clock reads `at`, now or later, is due after now.
  lemma SetIsLater(w: Window, now: nat, at: nat, delay: nat, t: nat, period: nat)
    requires Near(w, now, at) && Diff(at, now) >= 0 && Diff(at, now) + AtLeastOne(delay) < w.ahead && period < w.ahead
    ensures ActionOk(w, now, Arm(t, Plus(at, AtLeastOne(delay)), period))
  {
    PlusIs(w, now, at, AtLeastOne(delay));
  }

  function Unqueued(s: State, t: nat): (r: State) {
    if t in s.queue then Deleted(s, Index(s.queue, t)) else s
  }

  lemma UnqueuedGood(s: State, w: Window, now: nat, t: nat)
    requires Good(s, w, now)
    ensures Good(Unqueued(s, t), w, now) && t !in Unqueued(s, t).queue && Unqueued(s, t).timers == s.timers
    ensures forall x :: x in Unqueued(s, t).queue <==> x in s.queue && x != t
  {
    if t in s.queue {
      DeletedGood(s, w, now, Index(s.queue, t));
      CutIs(s.queue, Index(s.queue, t));
    }
  }

  function Do(s: State, w: Window, now: nat, a: Action): (r: State)
    requires Good(s, w, now) && ActionOk(w, now, a)
    ensures Good(r, w, now)
  {
    UnqueuedGood(s, w, now, a.t);
    var u := Unqueued(s, a.t);
    match a
    case Cancel(t) =>
      if t in u.timers then
        StopGood(u, w, now, t);
        u.(timers := u.timers[t := u.timers[t].(period := 0)])
      else u
    case Arm(t, d, p) =>
      InsertedGood(u, w, now, t, d, p);
      Inserted(u, w, now, t, d, p)
  }

  lemma StopGood(s: State, w: Window, now: nat, t: nat)
    requires Good(s, w, now) && t in s.timers && t !in s.queue
    ensures Good(s.(timers := s.timers[t := s.timers[t].(period := 0)]), w, now)
  {
    assert forall i | 0 <= i < |s.queue| :: s.queue[i] in s.queue;
  }

  function DoAll(s: State, w: Window, now: nat, acts: seq<Action>): (r: State)
    requires Good(s, w, now) && forall i | 0 <= i < |acts| :: ActionOk(w, now, acts[i])
    ensures Good(r, w, now)
    decreases |acts|
  {
    if acts == [] then s
    else
      var n := |acts| - 1;
      Do(DoAll(s, w, now, acts[..n]), w, now, acts[n])
  }

  // ---- weights ----

  // Late counts 2, due now 1, later 0.
  function WeightOf(d: int): (w: nat) {
    if d < 0 then 2 else if d == 0 then 1 else 0
  }

  function Weight(ts: map<nat, Timer>, w: Window, now: nat, q: seq<nat>): (r: nat)
    requires now < U32 && NearAll(ts, w, now, q)
  {
    if q == [] then 0
    else WeightOf(Late(ts, now, q[0])) + Weight(ts, w, now, q[1..])
  }

  lemma {:induction false} WeightSplit(ts: map<nat, Timer>, w: Window, now: nat, p: seq<nat>, q: seq<nat>)
    requires now < U32 && NearAll(ts, w, now, p) && NearAll(ts, w, now, q)
    ensures NearAll(ts, w, now, p + q) && Weight(ts, w, now, p + q) == Weight(ts, w, now, p) + Weight(ts, w, now, q)
  {
    if p == [] {
      assert p + q == q;
    } else {
      assert (p + q)[1..] == p[1..] + q;
      WeightSplit(ts, w, now, p[1..], q);
    }
  }

  lemma {:induction false} WeightFrame(ts: map<nat, Timer>, us: map<nat, Timer>, w: Window, now: nat, q: seq<nat>)
    requires now < U32 && NearAll(ts, w, now, q) && NearAll(us, w, now, q)
    requires forall i | 0 <= i < |q| :: ts[q[i]].deadline == us[q[i]].deadline
    ensures Weight(ts, w, now, q) == Weight(us, w, now, q)
  {
    if q != [] { WeightFrame(ts, us, w, now, q[1..]); }
  }

  function Load(s: State, w: Window, now: nat): (r: nat)
    requires Good(s, w, now)
  {
    Weight(s.timers, w, now, s.queue)
  }

  // One entry more adds its own weight.
  lemma WeightOne(ts: map<nat, Timer>, w: Window, now: nat, lo: seq<nat>, t: nat, hi: seq<nat>)
    requires now < U32 && NearAll(ts, w, now, lo) && NearAll(ts, w, now, hi) && NearAll(ts, w, now, [t])
    ensures NearAll(ts, w, now, lo + hi) && NearAll(ts, w, now, lo + [t] + hi) && [t][0] in ts && ts[t].deadline < U32
    ensures Weight(ts, w, now, lo + [t] + hi) == Weight(ts, w, now, lo + hi) + WeightOf(Late(ts, now, t))
  {
    hide Diff;
    WeightSplit(ts, w, now, lo, hi);
    WeightSplit(ts, w, now, lo, [t]);
    WeightSplit(ts, w, now, lo + [t], hi);
    assert [t][1..] == [] && [t][0] == t;
  }

  lemma InsertedLoad(s: State, w: Window, now: nat, t: nat, d: nat, p: nat)
    requires Good(s, w, now) && t !in s.queue && Near(w, now, d) && p < w.ahead
    requires Good(Inserted(s, w, now, t, d, p), w, now)
    ensures Load(Inserted(s, w, now, t, d, p), w, now) == Load(s, w, now) + WeightOf(Diff(d, now))
  {
    hide Place, Diff, InOrder, Weight;
    var k := Place(s, w, now, d, 0);
    var ts := s.timers[t := Timer(d, p)];
    var lo, hi := s.queue[..k], s.queue[k..];
    HalvesGood(s, w, now, t, d, p, k);
    WeightOne(ts, w, now, lo, t, hi);
    assert lo + hi == s.queue;
    assert forall i | 0 <= i < |s.queue| :: s.queue[i] in s.queue;
    WeightFrame(s.timers, ts, w, now, s.queue);
  }

  lemma DeletedLoad(s: State, w: Window, now: nat, i: nat)
    requires Good(s, w, now) && i < |s.queue| && Good(Deleted(s, i), w, now)
    ensures s.queue[i] in s.timers && s.timers[s.queue[i]].deadline < U32
    ensures Load(Deleted(s, i), w, now) == Load(s, w, now) - WeightOf(Late(s.timers, now, s.queue[i]))
  {
    hide Diff, InOrder, Weight;
    var lo, hi := s.queue[..i], s.queue[i + 1..];
    assert s.queue == lo + [s.queue[i]] + hi;
    WeightOne(s.timers, w, now, lo, s.queue[i], hi);
  }

  // Nothing a callback does adds a timer that is due already.
  lemma DoLoad(s: State, w: Window, now: nat, a: Action)
    requires Good(s, w, now) && ActionOk(w, now, a)
    ensures Load(Do(s, w, now, a), w, now) <= Load(s, w, now)
  {
    UnqueuedGood(s, w, now, a.t);
    var u := Unqueued(s, a.t);
    if a.t in s.queue { DeletedLoad(s, w, now, Index(s.queue, a.t)); }
    match a
    case Cancel(t) =>
      if t in u.timers {
        StopGood(u, w, now, t);
        assert forall i | 0 <= i < |u.queue| :: u.queue[i] in u.queue;
        WeightFrame(u.timers, u.timers[t := u.timers[t].(period := 0)], w, now, u.queue);
      }
    case Arm(t, d, p) =>
      InsertedGood(u, w, now, t, d, p);
      InsertedLoad(u, w, now, t, d, p);
  }

  lemma {:induction false} DoAllLoad(s: State, w: Window, now: nat, acts: seq<Action>)
    requires Good(s, w, now) && forall i | 0 <= i < |acts| :: ActionOk(w, now, acts[i])
    ensures Load(DoAll(s, w, now, acts), w, now) <= Load(s, w, now)
    decreases |acts|
  {
    hide Good, ActionOk, Do, Load;
    if acts != [] {
      var n := |acts| - 1;
      DoAllLoad(s, w, now, acts[..n]);
      DoLoad(DoAll(s, w, now, acts[..n]), w, now, acts[n]);
    }
  }

  // ---- one turn of the tick loop ----

  // t is queued, as it was, or stopped.
  predicate Settled(s: State, t: nat, was: Timer) {
    t in s.timers && (t in s.queue || s.timers[t] == was || s.timers[t].period == 0)
  }

  lemma InsertedMembers(s: State, w: Window, now: nat, t: nat, d: nat, p: nat, x: nat)
    requires NearAll(s.timers, w, now, s.queue) && d < U32
    ensures x in Inserted(s, w, now, t, d, p).queue <==> x in s.queue || x == t
  {
    hide Place;
    var k := Place(s, w, now, d, 0);
    assert s.queue == s.queue[..k] + s.queue[k..];
  }

  lemma DoSettled(s: State, w: Window, now: nat, a: Action, t: nat, was: Timer)
    requires Good(s, w, now) && ActionOk(w, now, a) && Settled(s, t, was)
    ensures Settled(Do(s, w, now, a), t, was)
  {
    UnqueuedGood(s, w, now, a.t);
    if a.Arm? { InsertedMembers(Unqueued(s, a.t), w, now, a.t, a.deadline, a.period, t); }
  }

  // Every queued timer is due b from now or later.
  predicate AtLeast(s: State, w: Window, now: nat, b: int)
    requires Good(s, w, now)
  {
    forall x | x in s.queue :: x in s.timers && s.timers[x].deadline < U32 && Late(s.timers, now, x) >= b
  }

  lemma DoAtLeast(s: State, w: Window, now: nat, a: Action, b: int)
    requires Good(s, w, now) && ActionOk(w, now, a) && AtLeast(s, w, now, b) && b <= 0
    ensures AtLeast(Do(s, w, now, a), w, now, b)
  {
    UnqueuedGood(s, w, now, a.t);
    var u := Unqueued(s, a.t);
    if a.Arm? {
      forall x { InsertedMembers(u, w, now, a.t, a.deadline, a.period, x); }
    }
  }

  lemma {:induction false} DoAllKeeps(s: State, w: Window, now: nat, acts: seq<Action>, t: nat, was: Timer, b: int)
    requires Good(s, w, now) && (forall i | 0 <= i < |acts| :: ActionOk(w, now, acts[i]))
    requires Settled(s, t, was) && AtLeast(s, w, now, b) && b <= 0
    ensures Settled(DoAll(s, w, now, acts), t, was) && AtLeast(DoAll(s, w, now, acts), w, now, b)
    decreases |acts|
  {
    hide Good, ActionOk, Do, Settled, AtLeast;
    if acts != [] {
      var n := |acts| - 1;
      DoAllKeeps(s, w, now, acts[..n], t, was, b);
      DoSettled(DoAll(s, w, now, acts[..n]), w, now, acts[n], t, was);
      DoAtLeast(DoAll(s, w, now, acts[..n]), w, now, acts[n], b);
    }
  }

  // The next deadline of a periodic timer: one period on, or from now if that is already past.
  function Next(w: Window, now: nat, th: Timer): (d: nat)
    requires WindowOk(w) && now < U32 && th.deadline < U32 && th.period < w.ahead
    ensures d < U32
  {
    var d := Plus(th.deadline, th.period);
    if TimeLt(d, now) then Plus(now, th.period) else d
  }

  // A timer that was due is lighter when its next deadline comes.
  lemma NextIs(w: Window, now: nat, th: Timer)
    requires Near(w, now, th.deadline) && Diff(th.deadline, now) <= 0 && 0 < th.period < w.ahead
    ensures var d := Next(w, now, th);
      Near(w, now, d) && Diff(d, now) >= 0 && WeightOf(Diff(d, now)) < WeightOf(Diff(th.deadline, now))
  {
    PlusIs(w, now, th.deadline, th.period);
    assert Near(w, now, now) && Diff(now, now) == 0;
    PlusIs(w, now, now, th.period);
    OrderIs(w, now, Plus(th.deadline, th.period), now);
  }

  predicate IsDue(s: State, w: Window, now: nat)
    requires Good(s, w, now)
  {
    s.queue != [] && !TimeLt(now, s.timers[s.queue[0]].deadline)
  }

  lemma HeadIsFirst(s: State, w: Window, now: nat)
    requires Good(s, w, now) && s.queue != [] && Good(Deleted(s, 0), w, now)
    ensures AtLeast(Deleted(s, 0), w, now, Late(s.timers, now, s.queue[0]))
  {
    var r := Deleted(s, 0);
    forall x | x in r.queue
      ensures Late(s.timers, now, x) >= Late(s.timers, now, s.queue[0])
    {
      var i :| 0 <= i < |r.queue| && r.queue[i] == x;
      assert s.queue[i + 1] == x;
    }
  }

  lemma HeadIsDue(s: State, w: Window, now: nat)
    requires Good(s, w, now) && IsDue(s, w, now)
    ensures Late(s.timers, now, s.queue[0]) <= 0
  {
    OrderIs(w, now, s.timers[s.queue[0]].deadline, s.timers[s.queue[0]].deadline);
  }

  // The head is taken off, its callback acts, and it goes back if it is periodic, is not queued and was not stopped.
  function Fired(s: State, w: Window, now: nat, acts: seq<Action>): (r: State)
    requires Good(s, w, now) && IsDue(s, w, now) && forall i | 0 <= i < |acts| :: ActionOk(w, now, acts[i])
  {
    var t := s.queue[0];
    DeletedGood(s, w, now, 0);
    HeadIsFirst(s, w, now);
    HeadIsDue(s, w, now);
    DoAllKeeps(Deleted(s, 0), w, now, acts, t, s.timers[t], Late(s.timers, now, t));
    var u := DoAll(Deleted(s, 0), w, now, acts);
    if s.timers[t].period > 0 && t !in u.queue && u.timers[t].period > 0
    then Inserted(u, w, now, t, Next(w, now, u.timers[t]), u.timers[t].period)
    else u
  }

  // The whole queue gets lighter with every timer fired, so the loop ends.
  lemma FiredLighter(s: State, w: Window, now: nat, acts: seq<Action>)
    requires Good(s, w, now) && IsDue(s, w, now) && forall i | 0 <= i < |acts| :: ActionOk(w, now, acts[i])
    ensures var r := Fired(s, w, now, acts); var b := Late(s.timers, now, s.queue[0]);
      Good(r, w, now) && b <= 0 && Load(r, w, now) < Load(s, w, now) && AtLeast(r, w, now, b)
  {
    hide DoAll, Load;
    var t := s.queue[0];
    var th := s.timers[t];
    var b := Late(s.timers, now, t);
    HeadIsDue(s, w, now);
    DeletedGood(s, w, now, 0);
    DeletedLoad(s, w, now, 0);
    HeadIsFirst(s, w, now);
    DoAllLoad(Deleted(s, 0), w, now, acts);
    DoAllKeeps(Deleted(s, 0), w, now, acts, t, th, b);
    var u := DoAll(Deleted(s, 0), w, now, acts);
    if th.period > 0 && t !in u.queue && u.timers[t].period > 0 {
      NextIs(w, now, th);
      InsertedGood(u, w, now, t, Next(w, now, th), th.period);
      InsertedLoad(u, w, now, t, Next(w, now, th), th.period);
      forall x { InsertedMembers(u, w, now, t, Next(w, now, th), th.period, x); }
    }
  }

  // ---- the whole tick ----

  ghost predicate ScriptOk(w: Window, now: nat, script: nat -> seq<Action>) {
    forall n: nat, i | 0 <= i < |script(n)| :: ActionOk(w, now, script(n)[i])
  }

  // timer_tick from its n-th turn on; script(n) is what the n-th callback does.
  ghost function Ticked(s: State, w: Window, now: nat, script: nat -> seq<Action>, n: nat): (r: State)
    requires Good(s, w, now) && ScriptOk(w, now, script)
    ensures Good(r, w, now) && !IsDue(r, w, now)
    decreases Load(s, w, now)
  {
    if !IsDue(s, w, now) then s
    else
      FiredLighter(s, w, now, script(n));
      Ticked(Fired(s, w, now, script(n)), w, now, script, n + 1)
  }

  // The timers whose callbacks it calls.
  ghost function Called(s: State, w: Window, now: nat, script: nat -> seq<Action>, n: nat): (ts: seq<nat>)
    requires Good(s, w, now) && ScriptOk(w, now, script)
    decreases Load(s, w, now)
  {
    if !IsDue(s, w, now) then []
    else
      FiredLighter(s, w, now, script(n));
      [s.queue[0]] + Called(Fired(s, w, now, script(n)), w, now, script, n + 1)
  }

  // ---- runs under a clock that goes on ----

  // since is how long ago the last tick was.
  datatype World = World(s: State, now: nat, since: nat)

  datatype Event =
    | Set(t: nat, delay: nat, period: nat)
    | Stop(t: nat)
    | Tick(script: nat -> seq<Action>)
    | Pass(time: nat)

  // Every queued timer is due after the last tick.
  ghost predicate Kept(v: World, w: Window) {
    Good(v.s, w, v.now) && v.since <= w.back && AtLeast(v.s, w, v.now, 1 - v.since)
  }

  // Delays and periods stay below the window ahead, and no more than the window back passes between ticks.
  ghost predicate Fair(v: World, w: Window, e: Event) {
    match e
    case Set(t, delay, period) => t !in v.s.queue && AtLeastOne(delay) < w.ahead && period < w.ahead
    case Stop(t) => true
    case Tick(script) => ScriptOk(w, v.now, script)
    case Pass(time) => v.since + time <= w.back
  }

  // Fine at one moment is fine at a later one, for any window the deadlines are in.
  lemma GoodLater(s: State, w: Window, now: nat, x: Window, later: nat)
    requires Good(s, w, now) && WindowOk(x) && later < U32 && NearAll(s.timers, x, later, s.queue)
    ensures Good(s, x, later)
  {
    hide Diff;
    forall i, j | 0 <= i < j < |s.queue|
      ensures Late(s.timers, later, s.queue[i]) <= Late(s.timers, later, s.queue[j])
    {
      var a, b := s.timers[s.queue[i]].deadline, s.timers[s.queue[j]].deadline;
      assert Late(s.timers, now, s.queue[i]) <= Late(s.timers, now, s.queue[j]);
      OrderIs(w, now, a, b);
      OrderIs(x, later, a, b);
    }
  }

  lemma PassIs(now: nat, time: nat, d: nat)
    requires now < U32 && d < U32 && time < HALF && Diff(d, now) - time >= -HALF
    ensures Diff(d, Plus(now, time)) == Diff(d, now) - time
  {
  }

  lemma PassKept(v: World, w: Window, time: nat)
    requires Kept(v, w) && v.since + time <= w.back
    ensures Kept(World(v.s, Plus(v.now, time), v.since + time), w)
  {
    hide Diff;
    var later := Plus(v.now, time);
    forall i | 0 <= i < |v.s.queue|
      ensures Near(w, later, v.s.timers[v.s.queue[i]].deadline)
      ensures Diff(v.s.timers[v.s.queue[i]].deadline, later) == Late(v.s.timers, v.now, v.s.queue[i]) - time
    {
      assert v.s.queue[i] in v.s.queue;
      PassIs(v.now, time, v.s.timers[v.s.queue[i]].deadline);
    }
    GoodLater(v.s, w, v.now, w, later);
    forall x | x in v.s.queue
      ensures Late(v.s.timers, later, x) >= 1 - (v.since + time)
    {
      var i :| 0 <= i < |v.s.queue| && v.s.queue[i] == x;
      PassIs(v.now, time, v.s.timers[x].deadline);
    }
  }

  ghost function Apply(v: World, w: Window, e: Event): (u: World)
    requires Kept(v, w) && Fair(v, w, e)
    ensures Kept(u, w)
  {
    match e
    case Set(t, delay, period) =>
      assert Near(w, v.now, v.now) && Diff(v.now, v.now) == 0;
      SetIsLater(w, v.now, v.now, delay, t, period);
      var a := Arm(t, Plus(v.now, AtLeastOne(delay)), period);
      DoAfter(v.s, w, v.now, a, 1 - v.since);
      v.(s := Do(v.s, w, v.now, a))
    case Stop(t) =>
      DoAfter(v.s, w, v.now, Cancel(t), 1 - v.since);
      v.(s := Do(v.s, w, v.now, Cancel(t)))
    case Tick(script) =>
      var r := Ticked(v.s, w, v.now, script, 0);
      NotDue(r, w, v.now);
      World(r, v.now, 0)
    case Pass(time) =>
      PassKept(v, w, time);
      World(v.s, Plus(v.now, time), v.since + time)
  }

  lemma DoAfter(s: State, w: Window, now: nat, a: Action, b: int)
    requires Good(s, w, now) && ActionOk(w, now, a) && AtLeast(s, w, now, b) && b <= 1
    ensures AtLeast(Do(s, w, now, a), w, now, b)
  {
    UnqueuedGood(s, w, now, a.t);
    var u := Unqueued(s, a.t);
    if a.Arm? {
      forall x { InsertedMembers(u, w, now, a.t, a.deadline, a.period, x); }
    }
  }

  lemma NotDue(s: State, w: Window, now: nat)
    requires Good(s, w, now) && !IsDue(s, w, now)
    ensures AtLeast(s, w, now, 1)
  {
    if s.queue != [] {
      AllLater(s, w, now);
      forall x | x in s.queue
        ensures Late(s.timers, now, x) >= 1
      {
        var i :| 0 <= i < |s.queue| && s.queue[i] == x;
        OrderIs(w, now, s.timers[x].deadline, s.timers[x].deadline);
      }
    }
  }

  ghost predicate Legal(v: World, w: Window, es: seq<Event>)
    requires Kept(v, w)
    decreases |es|
  {
    es == [] || (Fair(v, w, es[0]) && Legal(Apply(v, w, es[0]), w, es[1..]))
  }

  ghost function Run(v: World, w: Window, es: seq<Event>): (u: World)
    requires Kept(v, w) && Legal(v, w, es)
    ensures Kept(u, w)
    decreases |es|
  {
    if es == [] then v else Run(Apply(v, w, es[0]), w, es[1..])
  }

  lemma StartKept(w: Window, now: nat)
    requires WindowOk(w) && now < U32
    ensures Kept(World(State(map[], []), now, 0), w)
  {
  }

  // In every run, whenever the clock wraps, the queue is in the order of the source's comparison, and right after a
  // tick nothing in it is due.
  lemma AlwaysSorted(w: Window, now: nat, es: seq<Event>, i: nat, j: nat)
    requires WindowOk(w) && now < U32 && Kept(World(State(map[], []), now, 0), w)
    requires Legal(World(State(map[], []), now, 0), w, es)
    ensures var u := Run(World(State(map[], []), now, 0), w, es);
      && NoDups(u.s.queue) && (i < j < |u.s.queue| ==>
        && u.s.queue[i] in u.s.timers && u.s.queue[j] in u.s.timers
        && u.s.timers[u.s.queue[i]].deadline < U32 && u.s.timers[u.s.queue[j]].deadline < U32
        && !TimeGt(u.s.timers[u.s.queue[i]].deadline, u.s.timers[u.s.queue[j]].deadline))
      && (i < |u.s.queue| && u.since == 0 ==>
        u.s.queue[i] in u.s.timers && u.s.timers[u.s.queue[i]].deadline < U32 &&
          TimeLt(u.now, u.s.timers[u.s.queue[i]].deadline))
  {
    hide Diff;
    var u := Run(World(State(map[], []), now, 0), w, es);
    assert Kept(u, w);
    if i < j < |u.s.queue| { SortedIs(u.s, w, u.now, i, j); }
    if i < |u.s.queue| {
      assert u.s.queue[i] in u.s.queue;
      OrderIs(w, u.now, u.s.timers[u.s.queue[i]].deadline, u.s.timers[u.s.queue[i]].deadline);
    }
  }

  // ---- the queue, changed in place ----

  class TimerQueue {
    var timers: map<nat, Timer>
    var queue: seq<nat>

    function View(): (s: State)
      reads this
    {
      State(timers, queue)
    }

    constructor ()
      ensures View() == State(map[], [])
    {
      timers, queue := map[], [];
    }

    method InsertTimerInQueue(t: nat, ghost w: Window, ghost now: nat)
      requires t in timers && timers[t].deadline < U32 && NearAll(timers, w, now, queue)
      modifies `queue
      ensures View() == Inserted(old(View()), w, now, t, timers[t].deadline, timers[t].period)
    {
      hide Place, Diff;
      var k := 0;
      PlaceStep(View(), w, now, timers[t].deadline, 0);
      while k < |queue| && !TimeGt(timers[queue[k]].deadline, timers[t].deadline)
        invariant k <= |queue| && queue == old(queue)
        invariant Place(View(), w, now, timers[t].deadline, k) == Place(View(), w, now, timers[t].deadline, 0)
      {
        PlaceStep(View(), w, now, timers[t].deadline, k);
        k := k + 1;
      }
      PlaceStep(View(), w, now, timers[t].deadline, k);
      queue := queue[..k] + [t] + queue[k..];
      assert timers[t := timers[t]] == timers;
    }

    // timer_set on a timer that is not queued, at time `at`, which is now or a little after.
    method TimerSet(t: nat, at: nat, delay: nat, period: nat, ghost w: Window, ghost now: nat)
      requires Good(View(), w, now) && t !in queue && at < U32 && delay < U32
      requires ActionOk(w, now, Arm(t, Plus(at, delay), period))
      modifies this
      ensures View() == Do(old(View()), w, now, Arm(t, Plus(at, delay), period))
    {
      ghost var s := View();
      timers := timers[t := Timer(Plus(at, delay), period)];
      assert forall i | 0 <= i < |queue| :: queue[i] in queue;
      InsertTimerInQueue(t, w, now);
      SetIs(s, w, now, t, Plus(at, delay), period);
    }

    method TimerCancel(t: nat, ghost w: Window, ghost now: nat)
      requires Good(View(), w, now)
      modifies this
      ensures View() == Do(old(View()), w, now, Cancel(t))
    {
      if t in queue {
        queue := Cut(queue, Index(queue, t));
      }
      if t in timers {
        timers := timers[t := timers[t].(period := 0)];
      }
    }

    // What the callback of a timer does before it returns.
    method Callback(acts: seq<Action>, ghost w: Window, now: nat)
      requires Good(View(), w, now) && forall i | 0 <= i < |acts| :: ActionOk(w, now, acts[i])
      modifies this
      ensures View() == DoAll(old(View()), w, now, acts) && Good(View(), w, now)
    {
      hide Good, ActionOk, Do;
      ghost var s := View();
      var i := 0;
      while i < |acts|
        invariant 0 <= i <= |acts| && Good(View(), w, now) && View() == DoAll(s, w, now, acts[..i])
      {
        assert acts[..i + 1][..i] == acts[..i];
        Act(acts[i], w, now);
        i := i + 1;
      }
      assert acts[..|acts|] == acts;
    }

    method Act(a: Action, ghost w: Window, now: nat)
      requires Good(View(), w, now) && ActionOk(w, now, a)
      modifies this
      ensures View() == Do(old(View()), w, now, a)
    {
      ghost var s := View();
      UnqueuedGood(s, w, now, a.t);
      if a.t in queue {
        queue := Cut(queue, Index(queue, a.t));
      }
      match a
      case Cancel(t) =>
        if t in timers {
          timers := timers[t := timers[t].(period := 0)];
        }
      case Arm(t, d, p) =>
        timers := timers[t := Timer(d, p)];
        assert forall i | 0 <= i < |queue| :: queue[i] in queue;
        InsertTimerInQueue(t, w, now);
        SetIs(Unqueued(s, t), w, now, t, d, p);
    }

    // timer_tick: ends, fires only what is due, in order, and leaves only what is due later.
    method TimerTick(ghost w: Window, now: nat, script: nat -> seq<Action>) returns (fired: seq<nat>, calls: seq<nat>)
      requires Good(View(), w, now) && ScriptOk(w, now, script)
      modifies this
      ensures View() == Ticked(old(View()), w, now, script, 0) && Good(View(), w, now)
      ensures calls == Called(old(View()), w, now, script, 0) && |calls| == |fired|
      ensures forall i | 0 <= i < |queue| ::
        queue[i] in timers && timers[queue[i]].deadline < U32 && TimeLt(now, timers[queue[i]].deadline)
      ensures forall i | 0 <= i < |fired| :: fired[i] < U32 && !TimeLt(now, fired[i])
      ensures forall i, j | 0 <= i < j < |fired| :: Diff(fired[i], now) <= Diff(fired[j], now)
    {
      hide Fired, Load, AtLeast, Ticked, Called;
      fired, calls := [], [];
      ghost var last := -HALF;
      NothingBefore(View(), w, now);
      while queue != [] && !TimeLt(now, timers[queue[0]].deadline)
        invariant Good(View(), w, now) && last <= 0 && AtLeast(View(), w, now, last)
        invariant forall i | 0 <= i < |fired| :: fired[i] < U32 && !TimeLt(now, fired[i]) && Diff(fired[i], now) <= last
        invariant forall i, j | 0 <= i < j < |fired| :: Diff(fired[i], now) <= Diff(fired[j], now)
        invariant Ticked(View(), w, now, script, |fired|) == Ticked(old(View()), w, now, script, 0)
        invariant calls + Called(View(), w, now, script, |fired|) == Called(old(View()), w, now, script, 0)
        invariant |calls| == |fired|
        decreases Load(View(), w, now)
      {
        TickedNext(View(), w, now, script, |fired|);
        assert forall i | 0 <= i < |script(|fired|)| :: ActionOk(w, now, script(|fired|)[i]);
        FiredLighter(View(), w, now, script(|fired|));
        HeadAtLeast(View(), w, now, last);
        last := Late(timers, now, queue[0]);
        var d, t := timers[queue[0]].deadline, queue[0];
        FireHead(w, now, script(|fired|));
        fired, calls := fired + [d], calls + [t];
      }
      TickedNext(View(), w, now, script, |fired|);
      if queue != [] { AllLater(View(), w, now); }
    }

    method FireHead(ghost w: Window, now: nat, acts: seq<Action>)
      requires Good(View(), w, now) && IsDue(View(), w, now) && forall i | 0 <= i < |acts| :: ActionOk(w, now, acts[i])
      modifies this
      ensures View() == Fired(old(View()), w, now, acts)
    {
      hide DoAll, ActionOk;
      ghost var s := View();
      DeletedGood(s, w, now, 0);
      HeadIsFirst(s, w, now);
      HeadIsDue(s, w, now);
      var t := queue[0];
      DoAllKeeps(Deleted(s, 0), w, now, acts, t, timers[t], Late(timers, now, t));
      queue := Cut(queue, 0);
      var periodic := timers[t].period > 0;
      Callback(acts, w, now);
      if periodic && t !in queue && timers[t].period > 0 {
        ghost var u := View();
        var d := Plus(timers[t].deadline, timers[t].period);
        if TimeLt(d, now) { d := Plus(now, timers[t].period); }
        timers := timers[t := timers[t].(deadline := d)];
        assert forall i | 0 <= i < |queue| :: queue[i] in queue;
        InsertTimerInQueue(t, w, now);
        SetIs(u, w, now, t, d, timers[t].period);
      }
    }
  }

  lemma TickedNext(s: State, w: Window, now: nat, script: nat -> seq<Action>, n: nat)
    requires Good(s, w, now) && ScriptOk(w, now, script)
    ensures if IsDue(s, w, now)
      then Good(Fired(s, w, now, script(n)), w, now) &&
        Ticked(s, w, now, script, n) == Ticked(Fired(s, w, now, script(n)), w, now, script, n + 1) &&
        Called(s, w, now, script, n) == [s.queue[0]] + Called(Fired(s, w, now, script(n)), w, now, script, n + 1)
      else Ticked(s, w, now, script, n) == s && Called(s, w, now, script, n) == []
  {
    if IsDue(s, w, now) { FiredLighter(s, w, now, script(n)); }
  }

  lemma PlaceStep(s: State, w: Window, now: nat, d: nat, k: nat)
    requires NearAll(s.timers, w, now, s.queue) && d < U32 && k <= |s.queue|
    ensures Place(s, w, now, d, k) ==
      if k == |s.queue| || TimeGt(s.timers[s.queue[k]].deadline, d) then k else Place(s, w, now, d, k + 1)
  {
  }

  // Setting the fields first and inserting then is Inserted.
  lemma SetIs(s: State, w: Window, now: nat, t: nat, d: nat, p: nat)
    requires Good(s, w, now) && t !in s.queue && d < U32 && NearAll(s.timers[t := Timer(d, p)], w, now, s.queue)
    ensures Inserted(State(s.timers[t := Timer(d, p)], s.queue), w, now, t, d, p) == Inserted(s, w, now, t, d, p)
  {
    hide Near, Diff;
    PlaceFrame(s, State(s.timers[t := Timer(d, p)], s.queue), w, now, d, 0);
  }

  lemma {:induction false} PlaceFrame(s: State, r: State, w: Window, now: nat, d: nat, k: nat)
    requires s.queue == r.queue && NearAll(s.timers, w, now, s.queue) && NearAll(r.timers, w, now, r.queue) && d < U32
    requires k <= |s.queue|
    requires forall i | 0 <= i < |s.queue| :: s.timers[s.queue[i]].deadline == r.timers[r.queue[i]].deadline
    ensures Place(s, w, now, d, k) == Place(r, w, now, d, k)
    decreases |s.queue| - k
  {
    if k < |s.queue| { PlaceFrame(s, r, w, now, d, k + 1); }
  }

  lemma NothingBefore(s: State, w: Window, now: nat)
    requires Good(s, w, now)
    ensures AtLeast(s, w, now, -HALF)
  {
  }

  lemma HeadAtLeast(s: State, w: Window, now: nat, b: int)
    requires Good(s, w, now) && s.queue != [] && AtLeast(s, w, now, b)
    ensures s.queue[0] in s.timers && s.timers[s.queue[0]].deadline < U32 && Late(s.timers, now, s.queue[0]) >= b
  {
    assert s.queue[0] in s.queue;
  }

  lemma AllLater(s: State, w: Window, now: nat)
    requires Good(s, w, now) && s.queue != [] && TimeLt(now, s.timers[s.queue[0]].deadline)
    ensures forall i | 0 <= i < |s.queue| :: TimeLt(now, s.timers[s.queue[i]].deadline)
  {
    forall i | 0 <= i < |s.queue|
      ensures TimeLt(now, s.timers[s.queue[i]].deadline)
    {
      OrderIs(w, now, s.timers[s.queue[0]].deadline, s.timers[s.queue[i]].deadline);
      OrderIs(w, now, s.timers[s.queue[i]].deadline, s.timers[s.queue[i]].deadline);
      assert i > 0 ==> Late(s.timers, now, s.queue[0]) <= Late(s.timers, now, s.queue[i]);
    }
  }
}
