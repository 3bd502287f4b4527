/** Threads that begin, end and are joined: in every run of the scheduler nobody waits for a thread that is dead. */
module Joining {
  import opened Lists
  import opened Options
  import opened WaitQueue
  import opened Scheduler

  // Whoever is to be joined has a queue of its own, and nobody waits on that of a dead thread.
  predicate JoinInv(s: State) {
    && (forall t | t in s.threads && s.threads[t].joiners.Some? :: JoinOk(s, t))
    && (forall t, u | t in s.threads && u in s.threads && t != u && s.threads[t].joiners.Some? ::
      s.threads[t].joiners != s.threads[u].joiners)
  }

  predicate JoinOk(s: State, t: nat)
    requires t in s.threads && s.threads[t].joiners.Some?
  {
    && s.threads[t].joiners.value in s.waits
    && (s.threads[t].state == Death ==> s.waits[s.threads[t].joiners.value].list == [])
  }

  // No thread dies or changes its queue, and no empty queue but x gets a waiter.
  predicate Quiet(s: State, r: State, x: Option<nat>) {
    && r.threads.Keys == s.threads.Keys && s.waits.Keys == r.waits.Keys
    && (forall t | t in s.threads :: SameFate(s.threads[t], r.threads[t]))
    && (forall q | q in s.waits && x != Some(q) && s.waits[q].list == [] :: r.waits[q].list == [])
  }

  predicate SameFate(a: Thread, b: Thread) {
    a.joiners == b.joiners && (a.state == Death <==> b.state == Death)
  }

  lemma QuietTrans(s: State, r: State, u: State, x: Option<nat>)
    requires Quiet(s, r, x) && Quiet(r, u, x)
    ensures Quiet(s, u, x)
  {
    hide SameFate;
    forall t | t in s.threads
      ensures SameFate(s.threads[t], u.threads[t])
    {
      FateTrans(s.threads[t], r.threads[t], u.threads[t]);
    }
  }

  lemma FateTrans(a: Thread, b: Thread, d: Thread)
    requires SameFate(a, b) && SameFate(b, d)
    ensures SameFate(a, d)
  {
  }

  lemma QuietReady(s: State, t: nat, head: bool)
    requires Queues(s) && t in s.threads && s.threads[t].priority < NUM_PRIORITIES && s.threads[t].state != Death
    ensures Quiet(s, PutReady(s, t, head), None)
  {
  }

  lemma QuietPlain(s: State, t: nat, st: TState)
    requires t in s.threads && s.threads[t].state != Death && st != Death
    ensures Quiet(s, PutPlain(s, t, st), None)
  {
  }

  lemma QuietWoken(s: State, q: nat, i: nat, err: int, gone: set<nat>)
    requires InvX(s, gone, {}) && q in s.waits && i < |s.waits[q].list|
    ensures Quiet(s, Woken(s, q, i, err, gone), None)
  {
    hide Located, CpusOk, RunListed;
    assert s.threads[s.waits[q].list[i]].state == Blocked;
  }

  lemma {:induction false} QuietDrained(s: State, q: nat, err: int, gone: set<nat>)
    requires InvX(s, gone, {}) && q in s.waits
    ensures Quiet(s, Drained(s, q, err, gone), None)
    decreases |s.waits[q].list|
  {
    hide InvX, Woken;
    if s.waits[q].list != [] {
      var r := Woken(s, q, 0, err, gone);
      QuietWoken(s, q, 0, err, gone);
      QuietDrained(r, q, err, gone);
      QuietTrans(s, r, Drained(r, q, err, gone), None);
    }
  }

  lemma QuietSwitch(s: State, n: nat, c: nat)
    requires n in s.threads && c < |s.current| && s.current[c] in s.threads && s.threads[n].state != Death
    ensures Quiet(s, Switch(s, n, c), None)
  {
  }

  // The thread that is switched to was ready.
  lemma NextIsReady(s: State, c: nat)
    requires InvX(s, {c}, {}) && c < |s.current|
    ensures Next(s, c) in s.threads && s.threads[Next(s, c)].state != Death
  {
    hide Choose, WaitListed;
    NextOk(s, c);
    if Choose(s, c, NUM_PRIORITIES).Idle? { assert Located(s, {c}, Next(s, c)); }
  }

  lemma QuietResched(s: State, c: nat)
    requires InvX(s, {c}, {}) && c < |s.current|
    ensures Quiet(s, Resched(s, c), None)
  {
    hide InvX, Choose, Switch, TakeReady;
    NextIsReady(s, c);
    QueueFacts(s, {c});
    ReschedFacts(s, c);
    QuietSwitch(Dequeued(s, c), Next(s, c), c);
  }

  lemma QuietThenResched(s: State, r: State, c: nat, x: Option<nat>)
    requires InvX(r, {c}, {}) && c < |r.current| && Quiet(s, r, x)
    ensures Quiet(s, Resched(r, c), x)
  {
    hide InvX, Resched;
    QuietResched(r, c);
    QuietTrans(s, r, Resched(r, c), x);
  }

  lemma RunsAlive(s: State, c: nat)
    requires Inv(s) && c < |s.current|
    ensures var t := s.current[c];
      Queues(s) && t in s.threads && s.threads[t].state == Running && s.threads[t].priority < NUM_PRIORITIES
  {
    assert Located(s, {}, s.current[c]);
  }

  lemma QuietRequeue(s: State, c: nat, head: bool)
    requires Inv(s) && c < |s.current|
    ensures Queues(s) && s.current[c] in s.threads && s.threads[s.current[c]].priority < NUM_PRIORITIES
    ensures Quiet(s, Requeue(s, s.current[c], head), None) && Requeue(s, s.current[c], head).current == s.current
  {
    hide InvX;
    RunsAlive(s, c);
    if s.threads[s.current[c]].idle { QuietPlain(s, s.current[c], Ready); } else { QuietReady(s, s.current[c], head); }
  }

  lemma QuietQuantum(s: State, t: nat, n: int)
    requires t in s.threads
    ensures Quiet(s, SetQuantum(s, t, n), None)
  {
  }

  lemma QuietReprioritized(s: State, c: nat, priority: nat)
    requires Inv(s) && c < |s.current| && priority < NUM_PRIORITIES
    ensures Quiet(s, Reprioritized(s, c, priority), None)
  {
  }

  lemma QuietBehead(s: State, c: nat)
    requires Inv(s) && c < |s.current|
    ensures Quiet(s, Behead(s, c), None)
  {
    hide InvX;
    RunsAlive(s, c);
    QuietReady(s, s.current[c], true);
  }

  lemma QuietBlocked(s: State, t: nat, q: nat)
    requires t in s.threads && q in s.waits && s.threads[t].state != Death
    ensures Quiet(s, PutBlocked(s, t, q), Some(q))
  {
  }

  // What a step that neither begins nor ends a thread does.
  lemma QuietStep(s: State, e: Step)
    requires Inv(s) && Enabled(s, e) && !e.Create? && !e.Exit? && !e.Join? && !e.Reap? && !e.Detach?
    ensures Quiet(s, Apply(s, e), if e.Block? then Some(e.q) else None)
  {
    hide InvX, Resched, Drained, Woken, Behead, Requeue, Quiet, Reprioritized;
    match e
    case Yield(c) =>
      QuietYield(s, c);
    case Preempt(c) =>
      RunsAlive(s, c);
      var head := s.threads[s.current[c]].quantum > 0;
      RequeueOk(s, c, head);
      QuietRequeue(s, c, head);
      QuietThenResched(s, Requeue(s, s.current[c], head), c, None);
    case Tick(c) =>
      RunsAlive(s, c);
      QuietQuantum(s, s.current[c], s.threads[s.current[c]].quantum - 1);
      QuietSelf(s);
    case Sleep(c) =>
      RunsAlive(s, c);
      SleepBySteps(s, c);
      QuietPlain(s, s.current[c], Sleeping);
      QuietThenResched(s, PutPlain(s, s.current[c], Sleeping), c, None);
    case SetPriority(c, priority) =>
      QuietPriority(s, c, Clamped(priority));
    case Block(c, q, timeout) =>
      RunsAlive(s, c);
      BlockBySteps(s, c, q);
      QuietSelf(s);
      QuietMore(s, s, Some(q));
      QuietBlocked(s, s.current[c], q);
      QuietThenResched(s, PutBlocked(s, s.current[c], q), c, Some(q));
    case WakeOne(c, q, resched, err) => QuietWakeOne(s, c, q, resched, err);
    case WakeAll(c, q, resched, err) => QuietWakeAll(s, c, q, resched, err);
    case Unblock(t, err) => QuietUnblock(s, t, err);
    case SleepDone(t) =>
      LiveFacts(s, t);
      QuietReady(s, t, true);
    case Resume(t) =>
      LiveFacts(s, t);
      QuietSelf(s);
      QuietReady(s, t, true);
  }

  lemma LiveFacts(s: State, t: nat)
    requires Inv(s) && t in s.threads
    ensures Queues(s) && s.threads[t].priority < NUM_PRIORITIES
  {
    assert Located(s, {}, t);
  }

  lemma QuietSelf(s: State)
    ensures Quiet(s, s, None)
  {
  }

  lemma QuietMore(s: State, r: State, x: Option<nat>)
    requires Quiet(s, r, None)
    ensures Quiet(s, r, x)
  {
  }

  lemma QuietYield(s: State, c: nat)
    requires Inv(s) && c < |s.current|
    ensures Quiet(s, YieldBy(s, c), None)
  {
    hide InvX, Resched, Requeue, Quiet, SetQuantum;
    RunsAlive(s, c);
    var t := s.current[c];
    var u := SetQuantum(s, t, 0);
    SetQuantumOk(s, t, 0, {}, {});
    QuantumCpu(s, t);
    RequeueOk(u, c, false);
    QuietQuantum(s, t, 0);
    QuietRequeue(u, c, false);
    QuietTrans(s, u, Requeue(u, t, false), None);
    QuietThenResched(s, Requeue(u, t, false), c, None);
  }

  lemma QuantumCpu(s: State, t: nat)
    requires t in s.threads
    ensures SetQuantum(s, t, 0).current == s.current
  {
  }

  lemma QuietPriority(s: State, c: nat, priority: nat)
    requires Inv(s) && c < |s.current| && priority < NUM_PRIORITIES
    ensures var u := Reprioritized(s, c, priority);
      c < |u.current| && c < |Behead(u, c).current| && Quiet(s, Resched(Behead(u, c), c), None)
  {
    hide InvX, Resched, Quiet;
    QuietReprioritized(s, c, priority);
    var u := Reprioritized(s, c, priority);
    BeheadFacts(u, c);
    QuietBehead(u, c);
    QuietTrans(s, u, Behead(u, c), None);
    QuietThenResched(s, Behead(u, c), c, None);
  }

  lemma QuietWakeOne(s: State, c: nat, q: nat, resched: bool, err: int)
    requires Inv(s) && c < |s.current| && q in s.waits
    ensures Quiet(s, WakeOneBy(s, c, q, resched, err), None)
  {
    hide InvX, Resched, Woken, Behead, Quiet;
    QuietSelf(s);
    if s.waits[q].list != [] {
      BeheadFacts(s, c);
      if resched {
        var u := Behead(s, c);
        QuietBehead(s, c);
        QuietWoken(u, q, 0, err, {c});
        QuietTrans(s, u, Woken(u, q, 0, err, {c}), None);
        QuietThenResched(s, Woken(u, q, 0, err, {c}), c, None);
      } else {
        QuietWoken(s, q, 0, err, {});
      }
    }
  }

  lemma QuietWakeAll(s: State, c: nat, q: nat, resched: bool, err: int)
    requires Inv(s) && c < |s.current| && q in s.waits
    ensures Quiet(s, WakeAllBy(s, c, q, resched, err), None)
  {
    hide InvX, Resched, Drained, Behead, Quiet;
    QuietSelf(s);
    if s.waits[q].list != [] {
      BeheadFacts(s, c);
      if resched {
        var u := Behead(s, c);
        QuietBehead(s, c);
        QuietDrained(u, q, err, {c});
        QuietTrans(s, u, Drained(u, q, err, {c}), None);
        QuietThenResched(s, Drained(u, q, err, {c}), c, None);
      } else {
        QuietDrained(s, q, err, {});
      }
    }
  }

  lemma QuietUnblock(s: State, t: nat, err: int)
    requires Inv(s) && t in s.threads
    ensures Quiet(s, UnblockBy(s, t, err), None)
  {
    hide InvX, Woken, Quiet, Index;
    QuietSelf(s);
    if s.threads[t].state == Blocked {
      BlockedFacts(s, t);
      var q := s.threads[t].on.value;
      QuietWoken(s, q, Index(s.waits[q].list, t), err, {});
    }
  }

  lemma QuietJoin(s: State, r: State, x: Option<nat>)
    requires JoinInv(s) && Quiet(s, r, x)
    requires x.Some? ==> forall t | t in s.threads && s.threads[t].joiners == x :: s.threads[t].state != Death
    ensures JoinInv(r)
  {
    forall t | t in r.threads && r.threads[t].joiners.Some?
      ensures JoinOk(r, t)
    {
      assert SameFate(s.threads[t], r.threads[t]) && JoinOk(s, t);
    }
  }

  lemma FreedQuiet(s: State, q: Option<nat>, err: int, gone: set<nat>)
    requires InvX(s, gone, {})
    ensures Quiet(s, Freed(s, q, err, gone), None)
    ensures q.Some? && q.value in s.waits ==>
      q.value in Freed(s, q, err, gone).waits && Freed(s, q, err, gone).waits[q.value].list == []
  {
    hide InvX, Drained, Quiet;
    QuietSelf(s);
    if q.Some? && q.value in s.waits { QuietDrained(s, q.value, err, gone); }
  }

  // A thread that exits leaves nobody waiting to join it.
  lemma ExitJoin(s: State, c: nat)
    requires Inv(s) && JoinInv(s) && Enabled(s, Exit(c))
    ensures JoinInv(ExitBy(s, c))
  {
    hide InvX, Resched, Freed;
    RunsAlive(s, c);
    var t := s.current[c];
    var q, d := s.threads[t].joiners, Dying(s, c);
    var f := Freed(d, q, 0, {c});
    FreedQuiet(d, q, 0, {c});
    forall u | u in f.threads && f.threads[u].joiners.Some?
      ensures JoinOk(f, u)
    {
      assert SameFate(d.threads[u], f.threads[u]) && JoinOk(s, u);
    }
    assert JoinInv(f) by {
      forall x, y | x in f.threads && y in f.threads && x != y && f.threads[x].joiners.Some?
        ensures f.threads[x].joiners != f.threads[y].joiners
      {
        assert SameFate(d.threads[x], f.threads[x]) && SameFate(d.threads[y], f.threads[y]);
      }
    }
    QuietResched(f, c);
    QuietJoin(f, Resched(f, c), None);
  }

  lemma JoinJoin(s: State, c: nat, t: nat, timeout: Timeout)
    requires Inv(s) && JoinInv(s) && Enabled(s, Join(c, t, timeout))
    ensures JoinInv(JoinBy(s, c, t, timeout))
  {
    hide InvX, Resched, Quiet;
    RunsAlive(s, c);
    var q := s.threads[t].joiners;
    if q.Some? && q.value in s.waits && timeout != Zero {
      BlockBySteps(s, c, q.value);
      QuietBlocked(s, s.current[c], q.value);
      var r := PutBlocked(s, s.current[c], q.value);
      QuietThenResched(s, r, c, q);
      forall u | u in s.threads && s.threads[u].joiners == q
        ensures s.threads[u].state != Death
      {
        assert u == t;
      }
      QuietJoin(s, Resched(r, c), q);
    }
  }

  lemma DetachJoin(s: State, t: nat)
    requires Inv(s) && JoinInv(s) && t in s.threads
    ensures JoinInv(DetachBy(s, t))
  {
    hide InvX, Freed;
    var d := Freed(s, s.threads[t].joiners, ERR_THREAD_DETACHED, {});
    FreedQuiet(s, s.threads[t].joiners, ERR_THREAD_DETACHED, {});
    QuietJoin(s, d, None);
    var r := DetachBy(s, t);
    forall u | u in r.threads && r.threads[u].joiners.Some?
      ensures JoinOk(r, u)
    {
      assert JoinOk(d, u);
    }
  }

  lemma StepJoin(s: State, e: Step)
    requires Inv(s) && JoinInv(s) && Enabled(s, e)
    ensures JoinInv(Apply(s, e))
  {
    hide InvX, Quiet, JoinInv;
    if e.Create? {
      CreateJoin(s, e.t, e.at, e.pinned, e.realtime, e.q);
    } else if e.Exit? {
      ExitJoin(s, e.c);
    } else if e.Join? {
      JoinJoin(s, e.c, e.t, e.timeout);
    } else if e.Reap? {
      ReapJoin(s, e.t);
    } else if e.Detach? {
      DetachJoin(s, e.t);
    } else if e.Block? {
      QuietStep(s, e);
      QuietJoin(s, Apply(s, e), Some(e.q));
    } else {
      hide Apply;
      QuietStep(s, e);
      QuietJoin(s, Apply(s, e), None);
    }
  }

  lemma CreateJoin(s: State, t: nat, p: nat, pin: int, rt: bool, q: nat)
    requires JoinInv(s) && t !in s.threads && q !in s.waits
    ensures JoinInv(Created(s, t, p, pin, rt, q))
  {
    var r := Created(s, t, p, pin, rt, q);
    forall u | u in r.threads && r.threads[u].joiners.Some?
      ensures JoinOk(r, u)
    {
      if u != t { assert JoinOk(s, u); }
    }
    assert forall u | u in s.threads && s.threads[u].joiners.Some? :: JoinOk(s, u) && s.threads[u].joiners != Some(q);
  }

  lemma ReapJoin(s: State, t: nat)
    requires Inv(s) && JoinInv(s) && t in s.threads && s.threads[t].state == Death
    ensures JoinInv(Reaped(s, t))
  {
    hide InvX;
    var r := Reaped(s, t);
    forall u | u in r.threads && r.threads[u].joiners.Some?
      ensures JoinOk(r, u)
    {
      assert JoinOk(s, u);
    }
  }

  // From boot on, in every run, nobody is left waiting to join a thread that is dead.
  lemma {:induction false} NobodyJoinsTheDead(s: State, es: seq<Step>)
    requires Inv(s) && JoinInv(s) && Legal(s, es)
    ensures JoinInv(Run(s, es))
    decreases |es|
  {
    hide InvX, JoinInv, Apply;
    if es != [] {
      StepJoin(s, es[0]);
      NobodyJoinsTheDead(Apply(s, es[0]), es[1..]);
    }
  }

  lemma BootedJoin(cpus: nat, qs: set<nat>)
    ensures JoinInv(Booted(cpus, qs))
  {
  }
}
