/** What each critical section of kernel/thread.c leaves behind, field by field: where the threads that it moves end up,
    with what state, priority, quantum and wait result, and that nothing else changes. */
module SchedEffects {
  import opened Lists
  import opened Options
  import opened WaitQueue
  import opened Scheduler

  // ---- the vocabulary ----

  // Thread t with these fields, on these run queues and wait lists; the bitmap follows the queues.
  function With(s: State, t: nat, th: Thread, runq: seq<seq<nat>>, waits: map<nat, WaitList>): (r: State) {
    s.(threads := s.threads[t := th], runq := runq, bits := BitsOf(runq), waits := waits)
  }

  function BitsOf(runq: seq<seq<nat>>): (bits: seq<bool>) {
    seq(|runq|, p requires 0 <= p < |runq| => runq[p] != [])
  }

  function AtHead(s: State, t: nat, p: nat): (runq: seq<seq<nat>>)
    requires p < |s.runq|
  {
    s.runq[p := [t] + s.runq[p]]
  }

  function AtTail(s: State, t: nat, p: nat): (runq: seq<seq<nat>>)
    requires p < |s.runq|
  {
    s.runq[p := s.runq[p] + [t]]
  }

  function ListWithout(w: WaitList, i: nat): (r: WaitList)
    requires i < |w.list|
  {
    WaitList(w.list[..i] + w.list[i + 1..], w.count - 1)
  }

  // The threads of l with priority p, last come first.
  function Arrivals(s: State, l: seq<nat>, p: nat): (q: seq<nat>) {
    if l == [] then []
    else Arrivals(s, l[1..], p) + if l[0] in s.threads && s.threads[l[0]].priority == p then [l[0]] else []
  }

  // Every waiter of q is ready with the result err, ahead of those that were ready before.
  function AllAwake(s: State, q: nat, err: int): (r: State)
    requires q in s.waits
  {
    var l := s.waits[q].list;
    var runq := seq(|s.runq|, p requires 0 <= p < |s.runq| => Arrivals(s, l, p) + s.runq[p]);
    s.(threads := map u | u in s.threads ::
         if u in l then s.threads[u].(state := Ready, on := None, ret := err) else s.threads[u],
       runq := runq, bits := BitsOf(runq), waits := s.waits[q := WaitList([], 0)])
  }

  // CPU c goes from m to r: to the eligible thread that is first on the highest queue that has one, or else to its
  // idle thread; a thread that comes on with no quantum left gets 5.
  predicate Rescheds(m: State, r: State, c: nat) {
    && c < |m.current| == |r.current| && c < |m.idle| && m.current[c] in m.threads && r.current[c] in m.threads
    && var was, n := m.current[c], r.current[c];
    && r.current == m.current[c := n] && r.idle == m.idle && r.waits == m.waits && r.bits == BitsOf(r.runq)
    && (if NoneEligible(m, c) then n == m.idle[c] && r.runq == m.runq
        else exists p: nat, i: nat | p < |m.runq| && i < |m.runq[p]| ::
          Chosen(m, c, p, i) && n == m.runq[p][i] && r.runq == m.runq[p := m.runq[p][..i] + m.runq[p][i + 1..]])
    && var th := m.threads[n];
    && r.threads ==
       if n == was then m.threads[n := th.(state := Running)]
       else m.threads[was := m.threads[was].(cpu := -1)]
                     [n := th.(state := Running, cpu := c, quantum := if th.quantum <= 0 then 5 else th.quantum)]
  }

  lemma PlaceIs(s: State, t: nat)
    requires Inv(s) && t in s.threads
    ensures |s.runq| == |s.bits| == NUM_PRIORITIES && s.bits == BitsOf(s.runq) && s.threads[t].priority < NUM_PRIORITIES
    ensures s.threads[t].state == Blocked ==>
      s.threads[t].on.Some? && s.threads[t].on.value in s.waits && t in s.waits[s.threads[t].on.value].list
  {
    assert Located(s, {}, t);
  }

  lemma CurrentIs(s: State, c: nat)
    requires Inv(s) && c < |s.current|
    ensures s.current[c] in s.threads && |s.idle| == |s.current|
  {
  }

  lemma WaiterIs(s: State, q: nat, i: nat)
    requires Inv(s) && q in s.waits && i < |s.waits[q].list|
    ensures s.waits[q].list[i] in s.threads && s.threads[s.waits[q].list[i]].priority < NUM_PRIORITIES
  {
    assert Located(s, {}, s.waits[q].list[i]);
  }

  // ---- the effects ----

  // Thread t becomes ready at the head of its queue.
  predicate Readies(s: State, r: State, t: nat) {
    && t in s.threads && s.threads[t].priority < |s.runq|
    && r == With(s, t, s.threads[t].(state := Ready), AtHead(s, t, s.threads[t].priority), s.waits)
  }

  // The thread at place i of wait list q becomes ready at the head of its queue, with the result err.
  predicate Wakes(s: State, r: State, q: nat, i: nat, err: int) {
    && q in s.waits && i < |s.waits[q].list|
    && var t := s.waits[q].list[i];
    && t in s.threads && s.threads[t].priority < |s.runq|
    && r == With(s, t, s.threads[t].(state := Ready, on := None, ret := err), AtHead(s, t, s.threads[t].priority),
                 s.waits[q := ListWithout(s.waits[q], i)])
  }

  // The thread of CPU c blocks at the end of wait list q.
  predicate Blocks(s: State, r: State, c: nat, q: nat) {
    && c < |s.current| && s.current[c] in s.threads && q in s.waits
    && var t := s.current[c];
    && Rescheds(With(s, t, s.threads[t].(state := Blocked, on := Some(q), ret := 0), s.runq,
                     s.waits[q := WaitList(s.waits[q].list + [t], s.waits[q].count + 1)]), r, c)
  }

  predicate StepsDown(s: State, r: State, c: nat, th: Thread, head: bool) {
    && c < |s.current| && th.priority < |s.runq|
    && var t := s.current[c];
    && var runq := if th.idle then s.runq else if head then AtHead(s, t, th.priority) else AtTail(s, t, th.priority);
    && Rescheds(With(s, t, th, runq, s.waits), r, c)
  }

  // The waiters of a thread's own queue are let go.
  function Released(s: State, joiners: Option<nat>, err: int): (r: State) {
    if joiners.Some? && joiners.value in s.waits then AllAwake(s, joiners.value, err) else s
  }

  ghost predicate Does(s: State, e: Step, r: State)
    requires Inv(s) && Enabled(s, e)
  {
    match e
    case Yield(c) =>
      CurrentIs(s, c);
      StepsDown(s, r, c, s.threads[s.current[c]].(state := Ready, quantum := 0), false)
    case Preempt(c) =>
      CurrentIs(s, c);
      var th := s.threads[s.current[c]];
      StepsDown(s, r, c, th.(state := Ready), th.quantum > 0)
    case Tick(c) =>
      CurrentIs(s, c);
      var t, th := s.current[c], s.threads[s.current[c]];
      r == if th.realtime || th.idle then s else s.(threads := s.threads[t := th.(quantum := th.quantum - 1)])
    case Sleep(c) =>
      CurrentIs(s, c);
      var t := s.current[c];
      Rescheds(With(s, t, s.threads[t].(state := Sleeping), s.runq, s.waits), r, c)
    case SleepDone(t) => Readies(s, r, t)
    case SetPriority(c, priority) =>
      CurrentIs(s, c);
      PlaceIs(s, s.current[c]);
      var t := s.current[c];
      var p: nat := if priority < 1 then 1 else if priority > 31 then 31 else priority;
      Rescheds(With(s, t, s.threads[t].(priority := p, state := Ready), AtHead(s, t, p), s.waits), r, c)
    case Block(c, q, timeout) => if timeout == Zero then r == s else Blocks(s, r, c, q)
    case WakeOne(c, q, resched, err) =>
      if s.waits[q].list == [] then r == s
      else if !resched then Wakes(s, r, q, 0, err)
      else exists m, n :: Readies(s, m, s.current[c]) && Wakes(m, n, q, 0, err) && Rescheds(n, r, c)
    case WakeAll(c, q, resched, err) =>
      if s.waits[q].list == [] then r == s
      else if !resched then r == AllAwake(s, q, err)
      else exists m :: Readies(s, m, s.current[c]) && q in m.waits && Rescheds(AllAwake(m, q, err), r, c)
    case Unblock(t, err) =>
      if s.threads[t].state != Blocked then r == s
      else
        exists i: nat :: s.threads[t].on.Some? && Wakes(s, r, s.threads[t].on.value, i, err)
          && s.waits[s.threads[t].on.value].list[i] == t
    case Create(t, priority, pinned, realtime, q) =>
      r == s.(threads := s.threads[t := Thread(priority, Suspended, 0, realtime, false, pinned, -1, None, 0, Some(q))],
              waits := s.waits[q := WaitList([], 0)])
    case Resume(t) => if s.threads[t].state == Suspended then Readies(s, r, t) else r == s
    case Exit(c) =>
      CurrentIs(s, c);
      var t, th := s.current[c], s.threads[s.current[c]];
      Rescheds(Released(With(s, t, th.(state := Death), s.runq, s.waits), th.joiners, 0), r, c)
    case Join(c, t, timeout) =>
      var q := s.threads[t].joiners;
      if q.None? || q.value !in s.waits || timeout == Zero then r == s else Blocks(s, r, c, q.value)
    case Reap(t) => r == s.(threads := s.threads - {t})
    case Detach(t) =>
      var d := Released(s, s.threads[t].joiners, ERR_THREAD_DETACHED);
      t in d.threads && r == d.(threads :=
        if d.threads[t].state == Death then d.threads - {t} else d.threads[t := d.threads[t].(joiners := None)])
  }

  // ---- they are the effects ----

  lemma ReschedDoes(m: State, c: nat)
    requires InvX(m, {c}, {}) && c < |m.current|
    ensures Rescheds(m, Rescheduled(m, c), c)
  {
    hide InvX, Chosen, NoneEligible, Choose;
    var r := Rescheduled(m, c);
    SwitchFacts(m, c);
    BitsAre(r);
    var ch := Choose(m, c, |m.runq|);
    if ch.Queued? {
      ChooseIs(m, c, ch.p, ch.i);
      ChosenIs(m, c, ch.p, ch.i);
    } else {
      ChooseIs(m, c, 0, 0);
    }
  }

  lemma SwitchFacts(m: State, c: nat)
    requires InvX(m, {c}, {}) && c < |m.current|
    ensures Queues(m) && |m.idle| == |m.current| && m.current[c] in m.threads && Next(m, c) in m.threads
  {
    NextOk(m, c);
  }

  lemma ChosenIs(m: State, c: nat, p: nat, i: nat)
    requires Chosen(m, c, p, i)
    ensures p < |m.runq| && i < |m.runq[p]| && !NoneEligible(m, c)
  {
  }

  lemma BitsAre(s: State)
    requires Inv(s)
    ensures s.bits == BitsOf(s.runq)
  {
  }

  lemma PutReadyIs(s: State, t: nat, head: bool)
    requires Queues(s) && s.bits == BitsOf(s.runq) && t in s.threads && s.threads[t].priority < NUM_PRIORITIES
    ensures var th := s.threads[t];
      PutReady(s, t, head) == With(s, t, th.(state := Ready),
        if head then AtHead(s, t, th.priority) else AtTail(s, t, th.priority), s.waits)
  {
    assert PutReady(s, t, head).bits == BitsOf(PutReady(s, t, head).runq);
  }

  lemma PlainIs(s: State, t: nat, th: Thread)
    requires s.bits == BitsOf(s.runq)
    ensures With(s, t, th, s.runq, s.waits) == s.(threads := s.threads[t := th])
  {
  }

  lemma RequeueIs(s: State, t: nat, head: bool)
    requires Queues(s) && s.bits == BitsOf(s.runq) && t in s.threads && s.threads[t].priority < NUM_PRIORITIES
    ensures var th := s.threads[t];
      Requeue(s, t, head) == With(s, t, th.(state := Ready),
        if th.idle then s.runq else if head then AtHead(s, t, th.priority) else AtTail(s, t, th.priority), s.waits)
  {
    hide PutReady, AtHead, AtTail, BitsOf;
    PutReadyIs(s, t, head);
    PlainIs(s, t, s.threads[t].(state := Ready));
  }

  lemma YieldDoes(s: State, c: nat)
    requires Inv(s) && Enabled(s, Yield(c))
    ensures Does(s, Yield(c), YieldBy(s, c))
  {
    hide InvX, Rescheds, Resched, BitsOf, Requeue;
    CurrentIs(s, c);
    var t := s.current[c];
    PlaceIs(s, t);
    var s1 := SetQuantum(s, t, 0);
    RequeueIs(s1, t, false);
    assert s1.threads[t := s1.threads[t].(state := Ready)] ==
      s.threads[t := s.threads[t].(state := Ready, quantum := 0)];
    ReschedDoes(Yielding(s, c), c);
  }

  lemma PreemptDoes(s: State, c: nat)
    requires Inv(s) && Enabled(s, Preempt(c))
    ensures Does(s, Preempt(c), PreemptBy(s, c))
  {
    hide InvX, Rescheds, Resched, BitsOf, Requeue;
    CurrentIs(s, c);
    var t := s.current[c];
    PlaceIs(s, t);
    var head := s.threads[t].quantum > 0;
    RequeueIs(s, t, head);
    RequeueOk(s, c, head);
    ReschedDoes(Requeue(s, t, head), c);
  }

  lemma SleepDoes(s: State, c: nat)
    requires Inv(s) && Enabled(s, Sleep(c))
    ensures Does(s, Sleep(c), SleepBy(s, c))
  {
    hide InvX, Rescheds, Resched, BitsOf;
    CurrentIs(s, c);
    var t := s.current[c];
    BitsAre(s);
    PlainIs(s, t, s.threads[t].(state := Sleeping));
    SleepBySteps(s, c);
    ReschedDoes(PutPlain(s, t, Sleeping), c);
  }

  lemma SetPriorityDoes(s: State, c: nat, priority: int)
    requires Inv(s) && Enabled(s, SetPriority(c, priority))
    ensures Does(s, SetPriority(c, priority), SetPriorityBy(s, c, priority))
  {
    hide InvX, Rescheds, Resched, BitsOf, PutReady;
    CurrentIs(s, c);
    var t := s.current[c];
    PlaceIs(s, t);
    var s1 := Reprioritized(s, c, Clamped(priority));
    PutReadyIs(s1, t, true);
    assert s1.threads[t := s1.threads[t].(state := Ready)] ==
      s.threads[t := s.threads[t].(priority := Clamped(priority), state := Ready)];
    ReschedDoes(Behead(s1, c), c);
  }

  lemma BlockDoes(s: State, c: nat, q: nat)
    requires Inv(s) && c < |s.current| && q in s.waits && !s.threads[s.current[c]].idle
    ensures InvX(PutBlocked(s, s.current[c], q), {c}, {})
    ensures Blocks(s, Rescheduled(PutBlocked(s, s.current[c], q), c), c, q)
  {
    hide InvX, Rescheds, Resched, BitsOf;
    CurrentIs(s, c);
    BitsAre(s);
    BlockBySteps(s, c, q);
    ReschedDoes(PutBlocked(s, s.current[c], q), c);
  }

  lemma WokenIs(s: State, q: nat, i: nat, err: int, gone: set<nat>)
    requires InvX(s, gone, {}) && q in s.waits && i < |s.waits[q].list|
    ensures Wakes(s, Woken(s, q, i, err, gone), q, i, err)
  {
    hide InvX, PutReady, BitsOf;
    WaiterFacts(s, q, i, gone);
    GoneBits(s, gone);
    var t, s1 := s.waits[q].list[i], TakeWaiting(s, q, i, err);
    PutReadyIs(s1, t, true);
    assert s1.threads[t := s1.threads[t].(state := Ready)] ==
      s.threads[t := s.threads[t].(state := Ready, on := None, ret := err)];
  }

  lemma GoneBits(s: State, gone: set<nat>)
    requires InvX(s, gone, {})
    ensures s.bits == BitsOf(s.runq)
  {
  }

  lemma BeheadIs(s: State, c: nat)
    requires Inv(s) && c < |s.current|
    ensures Readies(s, Behead(s, c), s.current[c])
  {
    hide InvX, PutReady, BitsOf;
    CurrentIs(s, c);
    PlaceIs(s, s.current[c]);
    PutReadyIs(s, s.current[c], true);
  }

  lemma WakeOneDoes(s: State, c: nat, q: nat, resched: bool, err: int)
    requires Inv(s) && Enabled(s, WakeOne(c, q, resched, err))
    ensures Does(s, WakeOne(c, q, resched, err), WakeOneBy(s, c, q, resched, err))
  {
    hide InvX, Rescheds, Resched, Woken, Behead, Wakes, Readies;
    if s.waits[q].list != [] {
      if resched {
        BeheadIs(s, c);
        BeheadFacts(s, c);
        WokenIs(Behead(s, c), q, 0, err, {c});
        ReschedDoes(Woken(Behead(s, c), q, 0, err, {c}), c);
      } else {
        WokenIs(s, q, 0, err, {});
      }
    }
  }

  // Waking one after the other, first come first, puts the later ones ahead.
  lemma {:induction false} DrainedIs(s: State, q: nat, err: int, gone: set<nat>)
    requires InvX(s, gone, {}) && q in s.waits
    ensures Drained(s, q, err, gone) == AllAwake(s, q, err)
    decreases |s.waits[q].list|
  {
    hide InvX, Woken, Wakes;
    GoneBits(s, gone);
    if s.waits[q].list == [] {
      NobodyAwake(s, q, err, gone);
    } else {
      var s1 := Woken(s, q, 0, err, gone);
      WokenIs(s, q, 0, err, gone);
      OneMoreAwake(s, s1, q, err, gone);
      DrainedIs(s1, q, err, gone);
    }
  }

  lemma NobodyAwake(s: State, q: nat, err: int, gone: set<nat>)
    requires InvX(s, gone, {}) && q in s.waits && s.waits[q].list == []
    ensures AllAwake(s, q, err) == s
  {
    hide Located, CpusOk, RunListed, WaitListed;
    var r := AllAwake(s, q, err);
    forall p | 0 <= p < |s.runq| ensures r.runq[p] == s.runq[p] { assert [] + s.runq[p] == s.runq[p]; }
    assert r.runq == s.runq;
    assert r.threads == s.threads;
    assert r.waits == s.waits;
  }

  lemma OneMoreAwake(s: State, s1: State, q: nat, err: int, gone: set<nat>)
    requires InvX(s, gone, {}) && q in s.waits && s.waits[q].list != [] && Wakes(s, s1, q, 0, err)
    ensures q in s1.waits && AllAwake(s1, q, err) == AllAwake(s, q, err)
  {
    hide InvX, Arrivals, BitsOf;
    var l := s.waits[q].list;
    HeadOnce(s, q, gone);
    assert s1.waits[q].list == l[1..];
    assert s.waits[q := WaitList([], 0)] == s1.waits[q := WaitList([], 0)];
    assert AllAwake(s, q, err).threads == AllAwake(s1, q, err).threads;
    forall p | 0 <= p < |s.runq|
      ensures Arrivals(s, l, p) + s.runq[p] == Arrivals(s1, l[1..], p) + s1.runq[p]
    {
      ArrivalsFirst(s, s1, q, err, p);
    }
    assert AllAwake(s, q, err).runq == AllAwake(s1, q, err).runq;
  }

  lemma HeadOnce(s: State, q: nat, gone: set<nat>)
    requires InvX(s, gone, {}) && q in s.waits && s.waits[q].list != []
    ensures var l := s.waits[q].list; l == [l[0]] + l[1..] && l[0] !in l[1..]
  {
  }

  lemma ArrivalsFirst(s: State, s1: State, q: nat, err: int, p: nat)
    requires q in s.waits && s.waits[q].list != [] && Wakes(s, s1, q, 0, err) && p < |s.runq|
    ensures Arrivals(s, s.waits[q].list, p) + s.runq[p] == Arrivals(s1, s.waits[q].list[1..], p) + s1.runq[p]
  {
    var l := s.waits[q].list;
    ArrivalsSame(s, s1, l[1..], p);
    var a := Arrivals(s, l[1..], p);
    assert a + [l[0]] + s.runq[p] == a + ([l[0]] + s.runq[p]);
    assert a + [] + s.runq[p] == a + s.runq[p];
  }

  lemma {:induction false} ArrivalsSame(s: State, r: State, l: seq<nat>, p: nat)
    requires s.threads.Keys == r.threads.Keys
    requires forall t | t in s.threads :: s.threads[t].priority == r.threads[t].priority
    ensures Arrivals(s, l, p) == Arrivals(r, l, p)
  {
    if l != [] { ArrivalsSame(s, r, l[1..], p); }
  }

  lemma WakeAllDoes(s: State, c: nat, q: nat, resched: bool, err: int)
    requires Inv(s) && Enabled(s, WakeAll(c, q, resched, err))
    ensures Does(s, WakeAll(c, q, resched, err), WakeAllBy(s, c, q, resched, err))
  {
    hide InvX, Rescheds, Resched, Drained, Behead, AllAwake, Readies;
    if s.waits[q].list != [] {
      if resched {
        BeheadIs(s, c);
        BeheadFacts(s, c);
        DrainedIs(Behead(s, c), q, err, {c});
        ReschedDoes(Drained(Behead(s, c), q, err, {c}), c);
      } else {
        DrainedIs(s, q, err, {});
      }
    }
  }

  lemma UnblockDoes(s: State, t: nat, err: int)
    requires Inv(s) && t in s.threads
    ensures Does(s, Unblock(t, err), UnblockBy(s, t, err))
  {
    hide InvX, Woken, Wakes;
    if s.threads[t].state == Blocked {
      PlaceIs(s, t);
      var q := s.threads[t].on.value;
      WokenIs(s, q, Index(s.waits[q].list, t), err, {});
    }
  }

  lemma ReadyDoes(s: State, t: nat)
    requires Inv(s) && t in s.threads
    ensures Queues(s) && s.threads[t].priority < NUM_PRIORITIES && Readies(s, PutReady(s, t, true), t)
  {
    hide InvX, PutReady, BitsOf;
    PlaceIs(s, t);
    PutReadyIs(s, t, true);
  }

  lemma FreedIs(s: State, q: Option<nat>, err: int, gone: set<nat>)
    requires InvX(s, gone, {})
    ensures Freed(s, q, err, gone) == Released(s, q, err)
  {
    hide InvX, Drained, AllAwake;
    if q.Some? && q.value in s.waits { DrainedIs(s, q.value, err, gone); }
  }

  lemma ExitDoes(s: State, c: nat)
    requires Inv(s) && Enabled(s, Exit(c))
    ensures Does(s, Exit(c), ExitBy(s, c))
  {
    hide InvX, Rescheds, Resched, Released, Freed, BitsOf;
    CurrentIs(s, c);
    var t, th := s.current[c], s.threads[s.current[c]];
    BitsAre(s);
    PlainIs(s, t, th.(state := Death));
    FreedIs(Dying(s, c), th.joiners, 0, {c});
    ReschedDoes(Freed(Dying(s, c), th.joiners, 0, {c}), c);
  }

  lemma JoinDoes(s: State, c: nat, t: nat, timeout: Timeout)
    requires Inv(s) && Enabled(s, Join(c, t, timeout))
    ensures Does(s, Join(c, t, timeout), JoinBy(s, c, t, timeout))
  {
    hide InvX, Resched, Blocks;
    var q := s.threads[t].joiners;
    if q.Some? && q.value in s.waits && timeout != Zero { BlockDoes(s, c, q.value); }
  }

  lemma DetachDoes(s: State, t: nat)
    requires Inv(s) && Enabled(s, Detach(t))
    ensures Does(s, Detach(t), DetachBy(s, t))
  {
    hide InvX, Released, Freed;
    FreedIs(s, s.threads[t].joiners, ERR_THREAD_DETACHED, {});
  }

  // Every critical section has the effect stated for it.
  lemma StepDoes(s: State, e: Step)
    requires Inv(s) && Enabled(s, e)
    ensures Does(s, e, Apply(s, e))
  {
    hide InvX, YieldBy, PreemptBy, SleepBy, SetPriorityBy, WakeOneBy, WakeAllBy, UnblockBy, ExitBy, JoinBy, DetachBy;
    hide Rescheds, Blocks, Wakes, Readies, StepsDown, AllAwake, Released, With;
    match e
    case Yield(c) => YieldDoes(s, c);
    case Preempt(c) => PreemptDoes(s, c);
    case Tick(c) =>
    case Sleep(c) => SleepDoes(s, c);
    case SleepDone(t) => ReadyDoes(s, t);
    case SetPriority(c, priority) => SetPriorityDoes(s, c, priority);
    case Block(c, q, timeout) => BlockDoes(s, c, q);
    case WakeOne(c, q, resched, err) => WakeOneDoes(s, c, q, resched, err);
    case WakeAll(c, q, resched, err) => WakeAllDoes(s, c, q, resched, err);
    case Unblock(t, err) => UnblockDoes(s, t, err);
    case Create(t, priority, pinned, realtime, q) =>
    case Resume(t) => ReadyDoes(s, t);
    case Exit(c) => ExitDoes(s, c);
    case Join(c, t, timeout) => JoinDoes(s, c, t, timeout);
    case Reap(t) =>
    case Detach(t) => DetachDoes(s, t);
  }

  // ---- what follows ----

  // A sleeper whose time is up is ready, ahead of its equals and nowhere else, and nothing else changes.
  lemma SleeperWakes(s: State, t: nat)
    requires Inv(s) && Enabled(s, SleepDone(t))
    ensures var r, p := Apply(s, SleepDone(t)), s.threads[t].priority;
      && p < |s.runq| == |r.runq| == |r.bits| && r.threads == s.threads[t := s.threads[t].(state := Ready)]
      && r.runq == s.runq[p := [t] + s.runq[p]] && r.bits[p]
      && r.waits == s.waits && r.current == s.current && r.idle == s.idle
      && (!s.threads[t].idle ==> OnlyPlace(r, t, p))
  {
    hide Apply;
    StepDoes(s, SleepDone(t));
    var r := Apply(s, SleepDone(t));
    EveryRunLocates(r, [], t);
  }

  // A thread that has used up its quantum makes way for the first of its equals that can run, and waits last.
  lemma UsedUpMakesWay(s: State, c: nat, p: nat, i: nat)
    requires Inv(s) && Enabled(s, Preempt(c)) && Chosen(s, c, p, i) && s.current[c] in s.threads
    requires var th := s.threads[s.current[c]]; !th.idle && th.quantum <= 0 && th.priority == p
    ensures var t, u, r := s.current[c], s.runq[p][i], Apply(s, Preempt(c));
      && u in s.threads && p < |r.runq| && r.current == s.current[c := u]
      && r.runq[p] == s.runq[p][..i] + s.runq[p][i + 1..] + [t]
  {
    hide Apply, InvX;
    StepDoes(s, Preempt(c));
    PlaceIs(s, s.current[c]);
    var t, r := s.current[c], Apply(s, Preempt(c));
    var m := With(s, t, s.threads[t].(state := Ready), AtTail(s, t, p), s.waits);
    assert Rescheds(m, r, c);
    TailChosen(s, m, c, p, i, t);
    ListedIs(s, p, i);
    forall k: nat, j: nat | k < |m.runq| && j < |m.runq[k]| && Chosen(m, c, k, j)
      ensures k == p && j == i
    {
      ChooseIs(m, c, p, i);
      ChooseIs(m, c, k, j);
    }
    assert m.runq[p][..i] + m.runq[p][i + 1..] == s.runq[p][..i] + s.runq[p][i + 1..] + [t];
  }

  lemma ListedIs(s: State, p: nat, i: nat)
    requires Inv(s) && p < |s.runq| && i < |s.runq[p]|
    ensures s.runq[p][i] in s.threads
  {
  }

  lemma TailChosen(s: State, m: State, c: nat, p: nat, i: nat, t: nat)
    requires Chosen(s, c, p, i) && t in s.threads && m.threads == s.threads[t := s.threads[t].(state := Ready)]
    requires m.runq == s.runq[p := s.runq[p] + [t]]
    ensures Chosen(m, c, p, i)
  {
    assert forall x :: Eligible(m, x, c) <==> Eligible(s, x, c);
    forall k, j | p < k < |m.runq| && 0 <= j < |m.runq[k]|
      ensures !Eligible(m, m.runq[k][j], c)
    {
      assert m.runq[k] == s.runq[k];
    }
  }

  // Each tick counts the quantum of a thread that has one down by one.
  lemma {:induction false} TicksCount(s: State, c: nat, k: nat)
    requires Inv(s) && c < |s.current| && s.current[c] in s.threads
    requires !s.threads[s.current[c]].realtime && !s.threads[s.current[c]].idle
    ensures Ticks(s, c, k) ==
      s.(threads := s.threads[s.current[c] := s.threads[s.current[c]].(quantum := s.threads[s.current[c]].quantum - k)])
  {
    hide Apply, InvX;
    if k > 0 {
      TicksCount(s, c, k - 1);
      StepDoes(Ticks(s, c, k - 1), Tick(c));
    }
  }

  function Ticks(s: State, c: nat, k: nat): (r: State)
    requires Inv(s) && c < |s.current|
    ensures Inv(r) && r.current == s.current
  {
    if k == 0 then s else Apply(Ticks(s, c, k - 1), Tick(c))
  }

  // ---- what wait_queue_block returns ----

  // t is there, is not blocked, and the last call that woke it passed err.
  predicate HasResult(s: State, t: nat, err: int) {
    t in s.threads && s.threads[t].state != Blocked && s.threads[t].ret == err
  }

  // The step blocks t again, or ends it.
  predicate Another(s: State, e: Step, t: nat) {
    || ((e.Block? || e.Join?) && e.c < |s.current| && s.current[e.c] == t)
    || ((e.Reap? || e.Detach?) && e.t == t)
  }

  lemma ReschedResult(m: State, r: State, c: nat, t: nat, err: int)
    requires Rescheds(m, r, c) && HasResult(m, t, err)
    ensures HasResult(r, t, err)
  {
  }

  lemma NotListed(s: State, q: nat, t: nat)
    requires Inv(s) && q in s.waits && t in s.threads && s.threads[t].state != Blocked
    ensures t !in s.waits[q].list
  {
  }

  lemma ReleasedResult(s: State, joiners: Option<nat>, x: int, t: nat, err: int)
    requires HasResult(s, t, err) && (joiners.Some? && joiners.value in s.waits ==> t !in s.waits[joiners.value].list)
    ensures HasResult(Released(s, joiners, x), t, err)
  {
  }

  lemma StepResult(s: State, e: Step, t: nat, err: int)
    requires Inv(s) && Enabled(s, e) && HasResult(s, t, err) && !Another(s, e, t)
    ensures HasResult(Apply(s, e), t, err)
  {
    hide Apply, InvX, Rescheds, Arrivals, BitsOf;
    StepDoes(s, e);
    var r := Apply(s, e);
    forall q | q in s.waits { NotListed(s, q, t); }
    forall m: State, c: nat | Rescheds(m, r, c) && HasResult(m, t, err)
      ensures HasResult(r, t, err)
    {
      ReschedResult(m, r, c, t, err);
    }
    if e.Exit? {
      CurrentIs(s, e.c);
      var u, th := s.current[e.c], s.threads[s.current[e.c]];
      var d := With(s, u, th.(state := Death), s.runq, s.waits);
      ReleasedResult(d, th.joiners, 0, t, err);
      ReschedResult(Released(d, th.joiners, 0), r, e.c, t, err);
    }
  }

  ghost predicate Quietly(s: State, es: seq<Step>, t: nat)
    requires Inv(s) && Legal(s, es)
    decreases |es|
  {
    es == [] || (!Another(s, es[0], t) && Quietly(Apply(s, es[0]), es[1..], t))
  }

  // Until the thread blocks again, through any run, its wait has the result that it was woken with.
  lemma {:induction false} ResultStays(s: State, es: seq<Step>, t: nat, err: int)
    requires Inv(s) && Legal(s, es) && HasResult(s, t, err) && Quietly(s, es, t)
    ensures HasResult(Run(s, es), t, err)
    decreases |es|
  {
    hide Apply, InvX, HasResult, Another, Enabled;
    if es != [] {
      StepResult(s, es[0], t, err);
      ResultStays(Apply(s, es[0]), es[1..], t, err);
    }
  }

  // The thread that a wake takes off the list has the result passed to it.
  lemma WakeGivesResult(s: State, c: nat, q: nat, resched: bool, err: int)
    requires Inv(s) && Enabled(s, WakeOne(c, q, resched, err)) && s.waits[q].list != []
    ensures HasResult(Apply(s, WakeOne(c, q, resched, err)), s.waits[q].list[0], err)
  {
    hide Apply, InvX, Rescheds, BitsOf;
    StepDoes(s, WakeOne(c, q, resched, err));
    var r, t := Apply(s, WakeOne(c, q, resched, err)), s.waits[q].list[0];
    if resched {
      var m, n :| Readies(s, m, s.current[c]) && Wakes(m, n, q, 0, err) && Rescheds(n, r, c);
      ReschedResult(n, r, c, t, err);
    }
  }
}
