/** The run queues, wait queues and reschedule path of kernel/thread.c, as one state that every critical section
    changes. */
module Scheduler {
  import opened Lists
  import opened Options
  import opened WaitQueue

  const NUM_PRIORITIES: nat := 32
  const ERR_THREAD_DETACHED: int := -34

  datatype TState = Suspended | Ready | Running | Blocked | Sleeping | Death

  // on is blocking_wait_queue; pinned and cpu are -1 for none; joiners is retcode_wait_queue, None once detached.
  datatype Thread = Thread(
    priority: nat, state: TState, quantum: int, realtime: bool, idle: bool, pinned: int, cpu: int,
    on: Option<nat>, ret: int, joiners: Option<nat>)

  datatype WaitList = WaitList(list: seq<nat>, count: int)

  // bits is run_queue_bitmap, bit by bit; current and idle have one entry per CPU.
  datatype State = State(
    threads: map<nat, Thread>, runq: seq<seq<nat>>, bits: seq<bool>, waits: map<nat, WaitList>,
    current: seq<nat>, idle: seq<nat>)

  // ---- the location invariant ----
  // gone is the CPU whose thread has left it and is yet to be replaced; loose are threads taken off every list.

  predicate Queues(s: State) {
    |s.runq| == |s.bits| == NUM_PRIORITIES
  }

  predicate Shape(s: State) {
    && Queues(s) && |s.idle| == |s.current|
    && (forall p | 0 <= p < NUM_PRIORITIES :: s.bits[p] <==> s.runq[p] != [])
    && (forall p | 0 <= p < NUM_PRIORITIES :: NoDups(s.runq[p]))
    && (forall q | q in s.waits :: NoDups(s.waits[q].list) && s.waits[q].count == |s.waits[q].list|)
  }

  predicate RunListed(s: State, loose: set<nat>)
    requires Shape(s)
  {
    forall p, i | 0 <= p < NUM_PRIORITIES && 0 <= i < |s.runq[p]| ::
      && s.runq[p][i] in s.threads && s.runq[p][i] !in loose
      && s.threads[s.runq[p][i]].state == Ready && s.threads[s.runq[p][i]].priority == p
  }

  predicate WaitListed(s: State, loose: set<nat>) {
    forall q, i | q in s.waits && 0 <= i < |s.waits[q].list| ::
      && s.waits[q].list[i] in s.threads && s.waits[q].list[i] !in loose
      && s.threads[s.waits[q].list[i]].state == Blocked && s.threads[s.waits[q].list[i]].on == Some(q)
  }

  predicate Located(s: State, gone: set<nat>, t: nat)
    requires Shape(s) && t in s.threads
  {
    var th := s.threads[t];
    && th.priority < NUM_PRIORITIES
    && (th.state == Blocked <==> th.on.Some?)
    && (th.state == Ready ==> th.idle || t in s.runq[th.priority])
    && (th.state == Blocked ==> th.on.value in s.waits && t in s.waits[th.on.value].list)
    && (th.state == Running ==> 0 <= th.cpu < |s.current| && th.cpu !in gone && s.current[th.cpu] == t)
    && (th.idle ==> 0 <= th.pinned < |s.idle| && s.idle[th.pinned] == t)
    && (th.idle ==> th.state == Ready || (th.state == Running && th.cpu == th.pinned))
  }

  predicate CpusOk(s: State, gone: set<nat>, loose: set<nat>) {
    && |s.idle| == |s.current|
    && (forall c | 0 <= c < |s.current| :: s.current[c] in s.threads && s.threads[s.current[c]].cpu == c)
    && (forall c | 0 <= c < |s.current| && c !in gone ::
      s.current[c] !in loose && s.threads[s.current[c]].state == Running)
    && (forall c | 0 <= c < |s.idle| ::
         s.idle[c] in s.threads && s.threads[s.idle[c]].idle && s.threads[s.idle[c]].pinned == c)
  }

  predicate LooseOk(s: State, t: nat) {
    && t in s.threads && s.threads[t].priority < NUM_PRIORITIES && s.threads[t].on == None
    && (s.threads[t].idle ==> 0 <= s.threads[t].pinned < |s.idle| && s.idle[s.threads[t].pinned] == t)
  }

  predicate InvX(s: State, gone: set<nat>, loose: set<nat>) {
    && Shape(s) && RunListed(s, loose) && WaitListed(s, loose) && CpusOk(s, gone, loose)
    && (forall t | t in s.threads && t !in loose :: Located(s, gone, t))
    && (forall t | t in loose :: LooseOk(s, t))
  }

  predicate Inv(s: State) {
    InvX(s, {}, {})
  }

  // ---- list primitives, each moving one thread ----

  // insert_in_run_queue_head and insert_in_run_queue_tail, after the state has been set to ready.
  function PutReady(s: State, t: nat, head: bool): (r: State)
    requires Queues(s) && t in s.threads && s.threads[t].priority < NUM_PRIORITIES
  {
    var p := s.threads[t].priority;
    s.(threads := s.threads[t := s.threads[t].(state := Ready)],
       runq := s.runq[p := if head then [t] + s.runq[p] else s.runq[p] + [t]],
       bits := s.bits[p := true])
  }

  lemma PutReadyLists(s: State, t: nat, head: bool, gone: set<nat>, loose: set<nat>)
    requires InvX(s, gone, loose) && t in loose
    ensures var r := PutReady(s, t, head);
      Shape(r) && RunListed(r, loose - {t}) && WaitListed(r, loose - {t}) && CpusOk(r, gone, loose - {t})
  {
    var p := s.threads[t].priority;
    assert t !in s.runq[p];
    assert PutReady(s, t, head).waits == s.waits;
  }

  lemma PutReadyOk(s: State, t: nat, head: bool, gone: set<nat>, loose: set<nat>)
    requires InvX(s, gone, loose) && t in loose
    ensures InvX(PutReady(s, t, head), gone, loose - {t})
  {
    hide RunListed, WaitListed, CpusOk;
    PutReadyLists(s, t, head, gone, loose);
    var p := s.threads[t].priority;
    var r := PutReady(s, t, head);
    assert forall u | u in s.runq[p] || u == t :: u in r.runq[p];
    forall u | u in r.threads && u !in loose - {t}
      ensures Located(r, gone, u)
    {
      if u != t { assert Located(s, gone, u); }
    }
  }

  // A thread that goes on no list: asleep, dead, suspended, or an idle thread that is ready.
  function PutPlain(s: State, t: nat, st: TState): (r: State)
    requires t in s.threads
  {
    s.(threads := s.threads[t := s.threads[t].(state := st)])
  }

  lemma PutPlainOk(s: State, t: nat, st: TState, gone: set<nat>, loose: set<nat>)
    requires InvX(s, gone, loose) && t in loose
    requires st == (if s.threads[t].idle then Ready else st)
    requires s.threads[t].idle || st == Sleeping || st == Death || st == Suspended
    ensures InvX(PutPlain(s, t, st), gone, loose - {t})
  {
    var r := PutPlain(s, t, st);
    forall u | u in r.threads && u !in loose - {t}
      ensures Located(r, gone, u)
    {
      if u != t { assert Located(s, gone, u); }
    }
  }

  function PutBlocked(s: State, t: nat, q: nat): (r: State)
    requires t in s.threads && q in s.waits
  {
    var w := s.waits[q];
    s.(threads := s.threads[t := s.threads[t].(state := Blocked, on := Some(q), ret := 0)],
       waits := s.waits[q := WaitList(w.list + [t], w.count + 1)])
  }

  lemma PutBlockedLists(s: State, t: nat, q: nat, gone: set<nat>, loose: set<nat>)
    requires InvX(s, gone, loose) && t in loose && q in s.waits
    ensures var r := PutBlocked(s, t, q);
      Shape(r) && RunListed(r, loose - {t}) && WaitListed(r, loose - {t}) && CpusOk(r, gone, loose - {t})
  {
    assert t !in s.waits[q].list;
    assert PutBlocked(s, t, q).runq == s.runq;
  }

  lemma PutBlockedOk(s: State, t: nat, q: nat, gone: set<nat>, loose: set<nat>)
    requires InvX(s, gone, loose) && t in loose && q in s.waits && !s.threads[t].idle
    ensures InvX(PutBlocked(s, t, q), gone, loose - {t})
  {
    hide RunListed, WaitListed, CpusOk;
    PutBlockedLists(s, t, q, gone, loose);
    var r := PutBlocked(s, t, q);
    assert forall u | u in s.waits[q].list || u == t :: u in r.waits[q].list;
    forall u | u in r.threads && u !in loose - {t}
      ensures Located(r, gone, u)
    {
      if u != t { assert Located(s, gone, u); }
    }
  }

  // A waiter leaves its list, with the value that its wait_queue_block will return.
  function TakeWaiting(s: State, q: nat, i: nat, err: int): (r: State)
    requires q in s.waits && i < |s.waits[q].list| && s.waits[q].list[i] in s.threads
  {
    var t := s.waits[q].list[i];
    s.(threads := s.threads[t := s.threads[t].(on := None, ret := err)],
       waits := s.waits[q := WaitList(Cut(s.waits[q].list, i), s.waits[q].count - 1)])
  }

  lemma TakeWaitingOk(s: State, q: nat, i: nat, err: int, gone: set<nat>, loose: set<nat>)
    requires InvX(s, gone, loose) && q in s.waits && i < |s.waits[q].list|
    ensures s.waits[q].list[i] in s.threads && !s.threads[s.waits[q].list[i]].idle
    ensures InvX(TakeWaiting(s, q, i, err), gone, loose + {s.waits[q].list[i]})
  {
    var t := s.waits[q].list[i];
    assert Located(s, gone, t);
    var r := TakeWaiting(s, q, i, err);
    CutIs(s.waits[q].list, i);
    forall u | u in r.threads && u !in loose + {t}
      ensures Located(r, gone, u)
    {
      assert Located(s, gone, u);
    }
    assert WaitListed(r, loose + {t}) by {
      forall k, j | k in r.waits && 0 <= j < |r.waits[k].list|
        ensures r.waits[k].list[j] in r.threads && r.waits[k].list[j] !in loose + {t}
        ensures r.threads[r.waits[k].list[j]].state == Blocked && r.threads[r.waits[k].list[j]].on == Some(k)
      {
        var u := r.waits[k].list[j];
        assert u in r.waits[k].list && u in s.waits[k].list;
      }
    }
  }

  function TakeReady(s: State, p: nat, i: nat): (r: State)
    requires Queues(s) && p < NUM_PRIORITIES && i < |s.runq[p]|
  {
    s.(runq := s.runq[p := Cut(s.runq[p], i)], bits := s.bits[p := |s.runq[p]| > 1])
  }

  lemma TakeReadyOk(s: State, p: nat, i: nat, gone: set<nat>, loose: set<nat>)
    requires InvX(s, gone, loose) && p < NUM_PRIORITIES && i < |s.runq[p]|
    ensures InvX(TakeReady(s, p, i), gone, loose + {s.runq[p][i]})
  {
    var r := TakeReady(s, p, i);
    var t := s.runq[p][i];
    CutIs(s.runq[p], i);
    assert Located(s, gone, t);
    forall u | u in r.threads && u !in loose + {t}
      ensures Located(r, gone, u)
    {
      assert Located(s, gone, u);
    }
    assert RunListed(r, loose + {t}) by {
      forall k, j | 0 <= k < NUM_PRIORITIES && 0 <= j < |r.runq[k]|
        ensures r.runq[k][j] in r.threads && r.runq[k][j] !in loose + {t}
        ensures r.threads[r.runq[k][j]].state == Ready && r.threads[r.runq[k][j]].priority == k
      {
        var u := r.runq[k][j];
        assert u in r.runq[k] && u in s.runq[k];
      }
    }
  }

  // A thread that is on no list because it sleeps, is suspended, or is an idle thread that is ready.
  lemma TakePlainOk(s: State, t: nat, gone: set<nat>, loose: set<nat>)
    requires InvX(s, gone, loose) && t in s.threads && t !in loose
    requires s.threads[t].state == Sleeping || s.threads[t].state == Suspended
      || (s.threads[t].idle && s.threads[t].state == Ready && t !in s.runq[s.threads[t].priority])
    ensures InvX(s, gone, loose + {t})
  {
    assert Located(s, gone, t);
  }

  // The running thread of CPU c stops being it.
  lemma LeaveOk(s: State, c: nat, loose: set<nat>)
    requires InvX(s, {}, loose) && c < |s.current| && s.current[c] !in loose
    ensures InvX(s, {c}, loose + {s.current[c]})
  {
    var t := s.current[c];
    assert Located(s, {}, t);
    forall u | u in s.threads && u !in loose + {t}
      ensures Located(s, {c}, u)
    {
      assert Located(s, {}, u);
    }
  }

  // A change to a thread's bookkeeping fields moves nothing.
  function SetQuantum(s: State, t: nat, n: int): (r: State)
    requires t in s.threads
  {
    s.(threads := s.threads[t := s.threads[t].(quantum := n)])
  }

  lemma SetQuantumOk(s: State, t: nat, n: int, gone: set<nat>, loose: set<nat>)
    requires InvX(s, gone, loose) && t in s.threads
    ensures InvX(SetQuantum(s, t, n), gone, loose)
  {
    var r := SetQuantum(s, t, n);
    forall u | u in r.threads && u !in loose
      ensures Located(r, gone, u)
    {
      assert Located(s, gone, u);
    }
  }

  // ---- choosing the next thread ----

  predicate Eligible(s: State, t: nat, c: int) {
    t in s.threads ==> s.threads[t].pinned < 0 || s.threads[t].pinned == c
  }

  // The queue position that a search of every queue, highest first and front to back, stops at.
  predicate Chosen(s: State, c: int, p: nat, i: nat) {
    && p < |s.runq| && i < |s.runq[p]| && Eligible(s, s.runq[p][i], c)
    && (forall j | 0 <= j < i :: !Eligible(s, s.runq[p][j], c))
    && (forall k, j | p < k < |s.runq| && 0 <= j < |s.runq[k]| :: !Eligible(s, s.runq[k][j], c))
  }

  predicate NoneEligible(s: State, c: int) {
    forall k, j | 0 <= k < |s.runq| && 0 <= j < |s.runq[k]| :: !Eligible(s, s.runq[k][j], c)
  }

  // The first eligible position of q at or after i, |q| if none.
  function First(s: State, q: seq<nat>, c: int, i: nat): (r: nat)
    requires i <= |q|
    ensures i <= r <= |q| && (r < |q| ==> Eligible(s, q[r], c)) && (forall j | i <= j < r :: !Eligible(s, q[j], c))
    decreases |q| - i
  {
    if i == |q| || Eligible(s, q[i], c) then i else First(s, q, c, i + 1)
  }

  datatype Choice = Queued(p: nat, i: nat) | Idle

  function Choose(s: State, c: int, n: nat): (r: Choice)
    requires n <= |s.runq|
    ensures r.Queued? ==> r.p < n && Chosen(s.(runq := s.runq[..n]), c, r.p, r.i)
    ensures r.Idle? ==> NoneEligible(s.(runq := s.runq[..n]), c)
  {
    if n == 0 then Idle
    else
      var i := First(s, s.runq[n - 1], c, 0);
      if i < |s.runq[n - 1]| then Queued(n - 1, i)
      else Choose(s, c, n - 1)
  }

  lemma ChooseIs(s: State, c: int, p: nat, i: nat)
    ensures Choose(s, c, |s.runq|) == Queued(p, i) <==> Chosen(s, c, p, i)
    ensures Choose(s, c, |s.runq|) == Idle <==> NoneEligible(s, c)
  {
    assert s.runq[..|s.runq|] == s.runq;
    var r := Choose(s, c, |s.runq|);
    if Chosen(s, c, p, i) {
      assert !NoneEligible(s, c);
      assert r.Queued? && Chosen(s, c, r.p, r.i);
    }
  }

  // ---- thread_resched ----

  // The chosen thread becomes the running thread of CPU c.
  function Switch(s: State, n: nat, c: nat): (r: State)
    requires n in s.threads && c < |s.current| && s.current[c] in s.threads
  {
    var was := s.current[c];
    var th := s.threads[n].(state := Running);
    if n == was then s.(threads := s.threads[n := th])
    else
      var run := th.(quantum := if th.quantum <= 0 then 5 else th.quantum, cpu := c);
      s.(threads := s.threads[was := s.threads[was].(cpu := -1)][n := run], current := s.current[c := n])
  }

  lemma SwitchLists(s: State, n: nat, c: nat)
    requires InvX(s, {c}, {n}) && c < |s.current|
    ensures var r := Switch(s, n, c); Shape(r) && RunListed(r, {}) && WaitListed(r, {})
  {
    var r := Switch(s, n, c);
    assert r.runq == s.runq && r.waits == s.waits && r.bits == s.bits && Shape(r);
    assert RunListed(r, {});
    assert WaitListed(r, {});
  }

  lemma SwitchCpus(s: State, n: nat, c: nat)
    requires InvX(s, {c}, {n}) && c < |s.current|
    ensures CpusOk(Switch(s, n, c), {}, {})
  {
    hide RunListed, WaitListed, Located;
    assert LooseOk(s, n);
    var r := Switch(s, n, c);
    forall d | 0 <= d < |r.current|
      ensures r.current[d] in r.threads && r.threads[r.current[d]].cpu == d && r.threads[r.current[d]].state == Running
    {
      if d != c {
        assert s.threads[s.current[d]].cpu == d && s.current[d] != s.current[c];
      }
    }
    forall d | 0 <= d < |r.idle|
      ensures r.idle[d] in r.threads && r.threads[r.idle[d]].idle && r.threads[r.idle[d]].pinned == d
    {
      assert s.threads[s.idle[d]].idle;
    }
  }

  lemma SwitchLocated(s: State, n: nat, c: nat, u: nat)
    requires InvX(s, {c}, {n}) && c < |s.current| && (s.threads[n].idle ==> s.threads[n].pinned == c) && u in s.threads
    requires Shape(Switch(s, n, c))
    ensures Located(Switch(s, n, c), {}, u)
  {
    if u != n { assert Located(s, {c}, u); }
  }

  lemma SwitchOk(s: State, n: nat, c: nat)
    requires InvX(s, {c}, {n}) && c < |s.current| && (s.threads[n].idle ==> s.threads[n].pinned == c)
    ensures Inv(Switch(s, n, c))
  {
    SwitchLists(s, n, c);
    SwitchCpus(s, n, c);
    forall u | u in Switch(s, n, c).threads
      ensures Located(Switch(s, n, c), {}, u)
    {
      SwitchLocated(s, n, c, u);
    }
  }

  function Next(s: State, c: nat): (n: nat)
    requires c < |s.idle|
  {
    var ch := Choose(s, c, |s.runq|);
    if ch.Queued? then s.runq[ch.p][ch.i] else s.idle[c]
  }

  function Dequeued(s: State, c: nat): (r: State)
    requires Queues(s)
  {
    var ch := Choose(s, c, |s.runq|);
    if ch.Queued? then TakeReady(s, ch.p, ch.i) else s
  }

  function Resched(s: State, c: nat): (r: State)
    requires InvX(s, {c}, {}) && c < |s.current|
  {
    NextOk(s, c);
    Switch(Dequeued(s, c), Next(s, c), c)
  }

  lemma NextOk(s: State, c: nat)
    requires InvX(s, {c}, {}) && c < |s.current|
    ensures InvX(Dequeued(s, c), {c}, {Next(s, c)})
    ensures Next(s, c) in s.threads && (s.threads[Next(s, c)].idle ==> s.threads[Next(s, c)].pinned == c)
  {
    var ch := Choose(s, c, |s.runq|);
    var n := Next(s, c);
    assert s.runq[..|s.runq|] == s.runq;
    if ch.Queued? {
      assert {} + {n} == {n};
      TakeReadyOk(s, ch.p, ch.i, {c}, {});
      assert Located(s, {c}, n);
    } else {
      IdleIsFree(s, c);
      TakePlainOk(s, n, {c}, {});
      assert {} + {n} == {n};
    }
  }

  // When nothing is eligible the idle thread of this CPU is ready and on no queue.
  lemma IdleIsFree(s: State, c: nat)
    requires InvX(s, {c}, {}) && c < |s.current| && NoneEligible(s, c)
    ensures s.idle[c] in s.threads && s.threads[s.idle[c]].state == Ready
    ensures s.threads[s.idle[c]].idle && s.idle[c] !in s.runq[s.threads[s.idle[c]].priority]
  {
    assert Located(s, {c}, s.idle[c]);
    assert Eligible(s, s.idle[c], c);
  }

  lemma ReschedOk(s: State, c: nat)
    requires InvX(s, {c}, {}) && c < |s.current|
    ensures Inv(Resched(s, c))
  {
    NextOk(s, c);
    SwitchOk(Dequeued(s, c), Next(s, c), c);
  }

  // ---- the critical sections ----

  datatype Step =
    | Yield(c: nat)
    | Preempt(c: nat)
    | Tick(c: nat)
    | Sleep(c: nat)
    | SleepDone(t: nat)
    | SetPriority(c: nat, priority: int)
    | Block(c: nat, q: nat, timeout: Timeout)
    | WakeOne(c: nat, q: nat, resched: bool, err: int)
    | WakeAll(c: nat, q: nat, resched: bool, err: int)
    | Unblock(t: nat, err: int)
    | Create(t: nat, at: nat, pinned: int, realtime: bool, q: nat)
    | Resume(t: nat)
    | Exit(c: nat)
    | Join(c: nat, t: nat, timeout: Timeout)
    | Reap(t: nat)
    | Detach(t: nat)

  // q is the retcode_wait_queue of some thread; only thread_join blocks there.
  predicate Joinable(s: State, q: nat) {
    exists t | t in s.threads :: s.threads[t].joiners == Some(q)
  }

  // What the source asserts on entry: an idle thread neither sleeps nor blocks, and the sleep timer belongs to a
  // sleeper.
  predicate Enabled(s: State, e: Step)
    requires Inv(s)
  {
    match e
    case Yield(c) => c < |s.current|
    case Preempt(c) => c < |s.current|
    case Tick(c) => c < |s.current|
    case Sleep(c) => c < |s.current| && !s.threads[s.current[c]].idle
    case SleepDone(t) => t in s.threads && s.threads[t].state == Sleeping
    case SetPriority(c, priority) => c < |s.current|
    case Block(c, q, timeout) => c < |s.current| && q in s.waits && !s.threads[s.current[c]].idle && !Joinable(s, q)
    case WakeOne(c, q, resched, err) => c < |s.current| && q in s.waits
    case WakeAll(c, q, resched, err) => c < |s.current| && q in s.waits
    case Unblock(t, err) => t in s.threads
    case Create(t, priority, pinned, realtime, q) => t !in s.threads && q !in s.waits && priority < NUM_PRIORITIES
    case Resume(t) => t in s.threads && s.threads[t].state != Death
    case Exit(c) => c < |s.current| && !s.threads[s.current[c]].idle
    case Join(c, t, timeout) =>
      c < |s.current| && !s.threads[s.current[c]].idle && t in s.threads && s.threads[t].state != Death
    case Reap(t) => t in s.threads && s.threads[t].state == Death && s.threads[t].joiners.Some?
    case Detach(t) => t in s.threads
  }

  // thread_yield and thread_preempt: the running thread goes back on its queue, an idle thread on none.
  function Requeue(s: State, t: nat, head: bool): (r: State)
    requires Queues(s) && t in s.threads && s.threads[t].priority < NUM_PRIORITIES
  {
    if s.threads[t].idle then PutPlain(s, t, Ready) else PutReady(s, t, head)
  }

  lemma RequeueOk(s: State, c: nat, head: bool)
    requires Inv(s) && c < |s.current|
    ensures InvX(Requeue(s, s.current[c], head), {c}, {})
  {
    var t := s.current[c];
    LeaveOk(s, c, {});
    assert {} + {t} - {t} == {};
    if s.threads[t].idle {
      PutPlainOk(s, t, Ready, {c}, {} + {t});
    } else {
      PutReadyOk(s, t, head, {c}, {} + {t});
    }
  }

  // The running thread goes to the head of its queue, idle or not.
  function Behead(s: State, c: nat): (r: State)
    requires Inv(s) && c < |s.current|
    ensures InvX(r, {c}, {})
  {
    var t := s.current[c];
    LeaveOk(s, c, {});
    PutReadyOk(s, t, true, {c}, {} + {t});
    assert {} + {t} - {t} == {};
    PutReady(s, t, true)
  }

  function Clamped(priority: int): (r: nat)
    ensures 1 <= r < NUM_PRIORITIES
    ensures 1 <= priority < NUM_PRIORITIES ==> r == priority
  {
    if priority <= 0 then 1 else if priority > NUM_PRIORITIES - 1 then NUM_PRIORITIES - 1 else priority
  }

  // The running thread is on no queue, so its priority may change.
  function Reprioritized(s: State, c: nat, priority: nat): (r: State)
    requires Inv(s) && c < |s.current| && priority < NUM_PRIORITIES
    ensures Inv(r)
  {
    ReprioritizedOk(s, c, priority);
    var t := s.current[c];
    s.(threads := s.threads[t := s.threads[t].(priority := priority)])
  }

  lemma ReprioritizedLists(s: State, c: nat, priority: nat)
    requires Inv(s) && c < |s.current| && priority < NUM_PRIORITIES && s.current[c] in s.threads
    ensures var t := s.current[c]; var r := s.(threads := s.threads[t := s.threads[t].(priority := priority)]);
      Shape(r) && RunListed(r, {}) && WaitListed(r, {}) && CpusOk(r, {}, {})
  {
    hide Located;
  }

  lemma ReprioritizedOk(s: State, c: nat, priority: nat)
    requires Inv(s) && c < |s.current| && priority < NUM_PRIORITIES
    ensures var t := s.current[c];
      t in s.threads && Inv(s.(threads := s.threads[t := s.threads[t].(priority := priority)]))
  {
    hide RunListed, WaitListed;
    var t := s.current[c];
    ReprioritizedLists(s, c, priority);
    assert Located(s, {}, t);
    var r := s.(threads := s.threads[t := s.threads[t].(priority := priority)]);
    forall u | u in r.threads
      ensures Located(r, {}, u)
    {
      assert Located(s, {}, u);
    }
  }

  // A waiter leaves list q for the head of its run queue.
  function Woken(s: State, q: nat, i: nat, err: int, ghost gone: set<nat>): (r: State)
    requires InvX(s, gone, {}) && q in s.waits && i < |s.waits[q].list|
    ensures InvX(r, gone, {})
    ensures r.current == s.current && q in r.waits && |r.waits[q].list| == |s.waits[q].list| - 1
    ensures r.threads.Keys == s.threads.Keys
  {
    var t := s.waits[q].list[i];
    TakeWaitingOk(s, q, i, err, gone, {});
    PutReadyOk(TakeWaiting(s, q, i, err), t, true, gone, {} + {t});
    assert {} + {t} - {t} == {};
    PutReady(TakeWaiting(s, q, i, err), t, true)
  }

  function Drained(s: State, q: nat, err: int, ghost gone: set<nat>): (r: State)
    requires InvX(s, gone, {}) && q in s.waits
    ensures InvX(r, gone, {}) && r.current == s.current && r.threads.Keys == s.threads.Keys
    ensures q in r.waits && r.waits[q].list == []
    decreases |s.waits[q].list|
  {
    if s.waits[q].list == [] then s
    else Drained(Woken(s, q, 0, err, gone), q, err, gone)
  }

  lemma SleepBySteps(s: State, c: nat)
    requires Inv(s) && Enabled(s, Sleep(c))
    ensures InvX(PutPlain(s, s.current[c], Sleeping), {c}, {})
  {
    var t := s.current[c];
    LeaveOk(s, c, {});
    PutPlainOk(s, t, Sleeping, {c}, {} + {t});
    assert {} + {t} - {t} == {};
  }

  lemma BlockBySteps(s: State, c: nat, q: nat)
    requires Inv(s) && c < |s.current| && q in s.waits && !s.threads[s.current[c]].idle
    ensures InvX(PutBlocked(s, s.current[c], q), {c}, {})
  {
    var t := s.current[c];
    LeaveOk(s, c, {});
    PutBlockedOk(s, t, q, {c}, {} + {t});
    assert {} + {t} - {t} == {};
  }

  function Apply(s: State, e: Step): (r: State)
    requires Inv(s) && Enabled(s, e)
    ensures Inv(r)
  {
    match e
    case Yield(c) => YieldBy(s, c)
    case Preempt(c) => PreemptBy(s, c)
    case Tick(c) => TickBy(s, c)
    case Sleep(c) => SleepBy(s, c)
    case SleepDone(t) => SleepDoneBy(s, t)
    case SetPriority(c, priority) => SetPriorityBy(s, c, priority)
    case Block(c, q, timeout) => BlockBy(s, c, q, timeout)
    case WakeOne(c, q, resched, err) => WakeOneBy(s, c, q, resched, err)
    case WakeAll(c, q, resched, err) => WakeAllBy(s, c, q, resched, err)
    case Unblock(t, err) => UnblockBy(s, t, err)
    case Create(t, priority, pinned, realtime, q) => CreateBy(s, t, priority, pinned, realtime, q)
    case Resume(t) => ResumeBy(s, t)
    case Exit(c) => ExitBy(s, c)
    case Join(c, t, timeout) => JoinBy(s, c, t, timeout)
    case Reap(t) => Reaped(s, t)
    case Detach(t) => DetachBy(s, t)
  }

  function Rescheduled(s: State, c: nat): (r: State)
    requires InvX(s, {c}, {}) && c < |s.current|
    ensures Inv(r) && |r.current| == |s.current|
  {
    ReschedOk(s, c);
    Resched(s, c)
  }

  function Yielding(s: State, c: nat): (r: State)
    requires Inv(s) && c < |s.current|
    ensures InvX(r, {c}, {}) && r.current == s.current
  {
    SetQuantumOk(s, s.current[c], 0, {}, {});
    RequeueOk(SetQuantum(s, s.current[c], 0), c, false);
    Requeue(SetQuantum(s, s.current[c], 0), s.current[c], false)
  }

  function YieldBy(s: State, c: nat): (r: State)
    requires Inv(s) && Enabled(s, Yield(c))
    ensures Inv(r) && |r.current| == |s.current|
  {
    Rescheduled(Yielding(s, c), c)
  }

  function PreemptBy(s: State, c: nat): (r: State)
    requires Inv(s) && Enabled(s, Preempt(c))
    ensures Inv(r)
  {
    var head := s.threads[s.current[c]].quantum > 0;
    RequeueOk(s, c, head);
    Rescheduled(Requeue(s, s.current[c], head), c)
  }

  function TickBy(s: State, c: nat): (r: State)
    requires Inv(s) && Enabled(s, Tick(c))
    ensures Inv(r)
  {
    var t := s.current[c];
    var th := s.threads[t];
    SetQuantumOk(s, t, th.quantum - 1, {}, {});
    if th.realtime || th.idle then s else SetQuantum(s, t, th.quantum - 1)
  }

  function SleepBy(s: State, c: nat): (r: State)
    requires Inv(s) && Enabled(s, Sleep(c))
    ensures Inv(r)
  {
    SleepBySteps(s, c);
    Rescheduled(PutPlain(s, s.current[c], Sleeping), c)
  }

  function SleepDoneBy(s: State, t: nat): (r: State)
    requires Inv(s) && Enabled(s, SleepDone(t))
    ensures Inv(r)
  {
    TakePlainOk(s, t, {}, {});
    PutReadyOk(s, t, true, {}, {} + {t});
    assert {} + {t} - {t} == {};
    PutReady(s, t, true)
  }

  function SetPriorityBy(s: State, c: nat, priority: int): (r: State)
    requires Inv(s) && Enabled(s, SetPriority(c, priority))
    ensures Inv(r)
  {
    Rescheduled(Behead(Reprioritized(s, c, Clamped(priority)), c), c)
  }

  function BlockBy(s: State, c: nat, q: nat, timeout: Timeout): (r: State)
    requires Inv(s) && Enabled(s, Block(c, q, timeout))
    ensures Inv(r)
  {
    BlockBySteps(s, c, q);
    if timeout == Zero then s else Rescheduled(PutBlocked(s, s.current[c], q), c)
  }

  function WakeOneBy(s: State, c: nat, q: nat, resched: bool, err: int): (r: State)
    requires Inv(s) && Enabled(s, WakeOne(c, q, resched, err))
    ensures Inv(r)
  {
    if s.waits[q].list == [] then s
    else if resched then Rescheduled(Woken(Behead(s, c), q, 0, err, {c}), c)
    else Woken(s, q, 0, err, {})
  }

  function WakeAllBy(s: State, c: nat, q: nat, resched: bool, err: int): (r: State)
    requires Inv(s) && Enabled(s, WakeAll(c, q, resched, err))
    ensures Inv(r)
  {
    if s.waits[q].list == [] then s
    else if resched then Rescheduled(Drained(Behead(s, c), q, err, {c}), c)
    else Drained(s, q, err, {})
  }

  function UnblockBy(s: State, t: nat, err: int): (r: State)
    requires Inv(s) && Enabled(s, Unblock(t, err))
    ensures Inv(r)
  {
    if s.threads[t].state != Blocked then s
    else
      assert Located(s, {}, t);
      var q := s.threads[t].on.value;
      Woken(s, q, Index(s.waits[q].list, t), err, {})
  }

  // ---- threads that begin and end ----

  // thread_create, and what may be set before the thread is resumed.
  function CreateBy(s: State, t: nat, priority: nat, pinned: int, realtime: bool, q: nat): (r: State)
    requires Inv(s) && Enabled(s, Create(t, priority, pinned, realtime, q))
    ensures Inv(r)
  {
    CreateOk(s, t, priority, pinned, realtime, q);
    Created(s, t, priority, pinned, realtime, q)
  }

  function Created(s: State, t: nat, priority: nat, pinned: int, realtime: bool, q: nat): (r: State) {
    s.(threads := s.threads[t := Thread(priority, Suspended, 0, realtime, false, pinned, -1, None, 0, Some(q))],
       waits := s.waits[q := WaitList([], 0)])
  }

  lemma CreateOk(s: State, t: nat, priority: nat, pinned: int, realtime: bool, q: nat)
    requires Inv(s) && t !in s.threads && q !in s.waits && priority < NUM_PRIORITIES
    ensures Inv(Created(s, t, priority, pinned, realtime, q))
  {
    var r := Created(s, t, priority, pinned, realtime, q);
    forall u | u in r.threads
      ensures Located(r, {}, u)
    {
      if u != t { assert Located(s, {}, u); }
    }
  }

  function ResumeBy(s: State, t: nat): (r: State)
    requires Inv(s) && Enabled(s, Resume(t))
    ensures Inv(r)
  {
    if s.threads[t].state != Suspended then s
    else
      TakePlainOk(s, t, {}, {});
      PutReadyOk(s, t, true, {}, {} + {t});
      assert {} + {t} - {t} == {};
      PutReady(s, t, true)
  }

  // The waiters of a queue, if it exists, become ready.
  function Freed(s: State, q: Option<nat>, err: int, ghost gone: set<nat>): (r: State)
    requires InvX(s, gone, {})
    ensures InvX(r, gone, {}) && r.current == s.current && r.threads.Keys == s.threads.Keys
  {
    if q.Some? && q.value in s.waits then Drained(s, q.value, err, gone) else s
  }

  function Dying(s: State, c: nat): (r: State)
    requires Inv(s) && c < |s.current| && !s.threads[s.current[c]].idle
    ensures InvX(r, {c}, {}) && r.current == s.current
  {
    var t := s.current[c];
    LeaveOk(s, c, {});
    PutPlainOk(s, t, Death, {c}, {} + {t});
    assert {} + {t} - {t} == {};
    PutPlain(s, t, Death)
  }

  // thread_exit
  function ExitBy(s: State, c: nat): (r: State)
    requires Inv(s) && Enabled(s, Exit(c))
    ensures Inv(r)
  {
    Rescheduled(Freed(Dying(s, c), s.threads[s.current[c]].joiners, 0, {c}), c)
  }

  // thread_join of a thread that is not dead.
  function JoinBy(s: State, c: nat, t: nat, timeout: Timeout): (r: State)
    requires Inv(s) && Enabled(s, Join(c, t, timeout))
    ensures Inv(r)
  {
    var q := s.threads[t].joiners;
    if q.None? || q.value !in s.waits || timeout == Zero then s
    else
      BlockBySteps(s, c, q.value);
      Rescheduled(PutBlocked(s, s.current[c], q.value), c)
  }

  // The end of thread_join.
  function Reaped(s: State, t: nat): (r: State)
    requires Inv(s) && t in s.threads && s.threads[t].state == Death
    ensures Inv(r)
  {
    ReapOk(s, t);
    s.(threads := s.threads - {t})
  }

  lemma ReapOk(s: State, t: nat)
    requires Inv(s) && t in s.threads && s.threads[t].state == Death
    ensures Inv(s.(threads := s.threads - {t}))
  {
    var r := s.(threads := s.threads - {t});
    assert Located(s, {}, t);
    forall u | u in r.threads
      ensures Located(r, {}, u)
    {
      assert Located(s, {}, u);
    }
  }

  function Unjoined(s: State, t: nat): (r: State)
    requires t in s.threads
  {
    s.(threads := s.threads[t := s.threads[t].(joiners := None)])
  }

  lemma UnjoinedOk(s: State, t: nat)
    requires Inv(s) && t in s.threads
    ensures Inv(Unjoined(s, t))
  {
    var r := Unjoined(s, t);
    forall u | u in r.threads
      ensures Located(r, {}, u)
    {
      assert Located(s, {}, u);
    }
  }

  // thread_detach
  function DetachBy(s: State, t: nat): (r: State)
    requires Inv(s) && Enabled(s, Detach(t))
    ensures Inv(r)
  {
    var d := Freed(s, s.threads[t].joiners, ERR_THREAD_DETACHED, {});
    if d.threads[t].state == Death then Reaped(d, t)
    else
      UnjoinedOk(d, t);
      Unjoined(d, t)
  }

  predicate Legal(s: State, es: seq<Step>)
    requires Inv(s)
    decreases |es|
  {
    es == [] || (Enabled(s, es[0]) && Legal(Apply(s, es[0]), es[1..]))
  }

  function Run(s: State, es: seq<Step>): (r: State)
    requires Inv(s) && Legal(s, es)
    ensures Inv(r)
    decreases |es|
  {
    if es == [] then s else Run(Apply(s, es[0]), es[1..])
  }

  // Every CPU runs its idle thread and every queue is empty.
  function Booted(cpus: nat, qs: set<nat>): (s: State)
    ensures Inv(s)
  {
    var threads := map c: nat | 0 <= c < cpus :: Thread(0, Running, 0, false, true, c, c, None, 0, None);
    var runq, bits := seq(NUM_PRIORITIES, _ => []), seq(NUM_PRIORITIES, _ => false);
    var s := State(threads, runq, bits, map q | q in qs :: WaitList([], 0), seq(cpus, i => i), seq(cpus, i => i));
    assert forall t | t in s.threads :: Located(s, {}, t);
    s
  }

  // ---- what the location invariant says of every reachable state ----

  predicate OnlyPlace(s: State, t: nat, p: nat)
    requires Shape(s)
  {
    && p < NUM_PRIORITIES && (exists i | 0 <= i < |s.runq[p]| :: s.runq[p][i] == t)
    && (forall k, i | 0 <= k < NUM_PRIORITIES && 0 <= i < |s.runq[k]| && s.runq[k][i] == t :: k == p)
    && (forall i, j | 0 <= i < |s.runq[p]| && 0 <= j < |s.runq[p]| && s.runq[p][i] == t && s.runq[p][j] == t :: i == j)
    && (forall q | q in s.waits :: t !in s.waits[q].list)
  }

  predicate OnlyWait(s: State, t: nat, q: nat)
    requires Shape(s)
  {
    && q in s.waits && t in s.waits[q].list
    && (forall k | k in s.waits && t in s.waits[k].list :: k == q)
    && (forall i, j | 0 <= i < |s.waits[q].list| && 0 <= j < |s.waits[q].list| && s.waits[q].list[i] == t &&
         s.waits[q].list[j] == t :: i == j)
    && (forall p | 0 <= p < NUM_PRIORITIES :: t !in s.runq[p])
  }

  predicate OnlyCpu(s: State, t: nat, c: int)
    requires Shape(s)
  {
    && 0 <= c < |s.current| && s.current[c] == t
    && (forall d | 0 <= d < |s.current| && s.current[d] == t :: d == c)
    && (forall p | 0 <= p < NUM_PRIORITIES :: t !in s.runq[p])
    && (forall q | q in s.waits :: t !in s.waits[q].list)
  }

  lemma EveryRunLocates(s: State, es: seq<Step>, t: nat)
    requires Inv(s) && Legal(s, es) && t in Run(s, es).threads
    ensures var r := Run(s, es); var th := r.threads[t];
      && (th.state == Ready && !th.idle ==> OnlyPlace(r, t, th.priority))
      && (th.state == Blocked ==> th.on.Some? && OnlyWait(r, t, th.on.value))
      && (th.state == Running ==> OnlyCpu(r, t, th.cpu))
      && (forall q | q in r.waits :: r.waits[q].count == |r.waits[q].list|)
      && (forall p | 0 <= p < NUM_PRIORITIES :: r.bits[p] <==> r.runq[p] != [])
  {
    var r := Run(s, es);
    assert Located(r, {}, t);
  }

  // ---- round robin ----

  // The threads of q that CPU c may run, in order.
  function Runnable(s: State, q: seq<nat>, c: int): (r: seq<nat>) {
    if q == [] then [] else (if Eligible(s, q[0], c) then [q[0]] else []) + Runnable(s, q[1..], c)
  }

  lemma {:induction false} RunnableAppend(s: State, q: seq<nat>, t: nat, c: int)
    ensures Runnable(s, q + [t], c) == Runnable(s, q, c) + Runnable(s, [t], c)
  {
    if q != [] {
      assert (q + [t])[1..] == q[1..] + [t];
      RunnableAppend(s, q[1..], t, c);
    }
  }

  lemma {:induction false} RunnableCut(s: State, q: seq<nat>, c: int, i: nat)
    requires i < |q| && Eligible(s, q[i], c) && forall j | 0 <= j < i :: !Eligible(s, q[j], c)
    ensures Runnable(s, q, c) == [q[i]] + Runnable(s, Cut(q, i), c)
  {
    if i == 0 {
      assert Cut(q, 0) == q[1..];
    } else {
      RunnableCut(s, q[1..], c, i - 1);
      assert Cut(q, i) == [q[0]] + Cut(q[1..], i - 1);
    }
  }

  lemma {:induction false} RunnableSome(s: State, q: seq<nat>, c: int)
    ensures First(s, q, c, 0) == |q| ==> Runnable(s, q, c) == []
  {
    if q != [] {
      if First(s, q, c, 0) == |q| {
        assert forall j | 0 <= j < |q[1..]| :: q[1..][j] == q[j + 1];
        assert !Eligible(s, q[0], c);
        RunnableSome(s, q[1..], c);
      }
    }
  }

  lemma {:induction false} RunnableFrame(s: State, r: State, q: seq<nat>, c: int)
    requires forall t | t in q :: Eligible(s, t, c) <==> Eligible(r, t, c)
    ensures Runnable(s, q, c) == Runnable(r, q, c)
  {
    if q != [] { RunnableFrame(s, r, q[1..], c); }
  }

  // p is the highest priority with anything for CPU c to run, the running thread included.
  predicate TopIs(s: State, c: nat, p: nat)
    requires Inv(s) && c < |s.current|
  {
    && p < NUM_PRIORITIES && (s.threads[s.current[c]].idle || s.threads[s.current[c]].priority <= p)
    && (forall k, j | p < k < NUM_PRIORITIES && 0 <= j < |s.runq[k]| :: !Eligible(s, s.runq[k][j], c))
  }

  predicate SameMark(a: Thread, b: Thread) {
    a.priority == b.priority && a.pinned == b.pinned && a.idle == b.idle
  }

  predicate SameMarks(s: State, r: State) {
    s.threads.Keys == r.threads.Keys && forall t | t in s.threads :: SameMark(s.threads[t], r.threads[t])
  }

  lemma YieldingIs(s: State, c: nat)
    requires Inv(s) && c < |s.current|
    ensures var t := s.current[c]; var r := Yielding(s, c);
      && SameMarks(s, r) && |s.runq| == |r.runq| == NUM_PRIORITIES && t in s.threads &&
         s.threads[t].priority < NUM_PRIORITIES
      && r.runq ==
         (if s.threads[t].idle then s.runq else s.runq[s.threads[t].priority := s.runq[s.threads[t].priority] + [t]])
  {
    assert Located(s, {}, s.current[c]);
  }

  lemma QueuedIs(s: State, c: nat, p: nat, i: nat)
    requires InvX(s, {c}, {}) && c < |s.current| && p < |s.runq| && i < |s.runq[p]|
    ensures s.current[c] in s.threads && s.runq[p][i] in s.threads && s.threads[s.runq[p][i]].priority == p
  {
  }

  lemma ReschedIs(s: State, c: nat, p: nat, i: nat)
    requires InvX(s, {c}, {}) && c < |s.current| && Chosen(s, c, p, i)
    ensures var r := Resched(s, c);
      && Inv(r) && SameMarks(s, r) && r.current == s.current[c := s.runq[p][i]] &&
         r.runq == s.runq[p := Cut(s.runq[p], i)]
      && r.current[c] in r.threads && r.threads[r.current[c]].priority == p
  {
    hide InvX, Chosen;
    QueuedChosen(s, c, p, i);
    ReschedOk(s, c);
    ChooseIs(s, c, p, i);
    QueuedIs(s, c, p, i);
  }

  lemma QueuedChosen(s: State, c: nat, p: nat, i: nat)
    requires Chosen(s, c, p, i)
    ensures p < |s.runq| && i < |s.runq[p]|
  {
  }

  lemma YieldChooses(s: State, c: nat, p: nat, i: nat)
    requires Inv(s) && c < |s.current| && TopIs(s, c, p) && i < |s.runq[p]| && i == First(s, s.runq[p], c, 0)
    ensures Chosen(Yielding(s, c), c, p, i)
  {
    hide InvX, Yielding;
    YieldingIs(s, c);
    assert Yielding(s, c).runq[p][..|s.runq[p]|] == s.runq[p];
  }

  // Taking the first runnable thread of a queue that may have grown at its tail.
  lemma RunnableTaken(s: State, q: seq<nat>, tail: seq<nat>, c: int, i: nat)
    requires i < |q| && i == First(s, q, c, 0) && |tail| <= 1
    ensures var f := Runnable(s, q, c); f != [] && f[0] == q[i] && f[1..] <= Runnable(s, Cut(q + tail, i), c)
  {
    RunnableCut(s, q, c, i);
    assert Cut(q + tail, i) == Cut(q, i) + tail;
    if tail != [] {
      assert tail == [tail[0]];
      RunnableAppend(s, Cut(q, i), tail[0], c);
    } else {
      assert Cut(q, i) + tail == Cut(q, i);
    }
  }

  lemma YieldStep(s: State, c: nat, p: nat)
    requires Inv(s) && c < |s.current| && TopIs(s, c, p) && Runnable(s, s.runq[p], c) != []
    ensures var r := YieldBy(s, c);
      && r.current[c] == Runnable(s, s.runq[p], c)[0] && TopIs(r, c, p)
      && Runnable(s, s.runq[p], c)[1..] <= Runnable(r, r.runq[p], c)
  {
    hide InvX, Resched, Yielding, Chosen, Runnable, First;
    YieldingIs(s, c);
    var q, t := s.runq[p], s.current[c];
    var i := First(s, q, c, 0);
    RunnableSome(s, q, c);
    YieldChooses(s, c, p, i);
    var s2 := Yielding(s, c);
    ReschedIs(s2, c, p, i);
    var tail := if s.threads[t].idle || s.threads[t].priority != p then [] else [t];
    assert s2.runq[p] == q + tail;
    RunnableTaken(s, q, tail, c, i);
    RunnableFrame(s, Resched(s2, c), Cut(s2.runq[p], i), c);
  }

  function Yields(s: State, c: nat, k: nat): (r: State)
    requires Inv(s) && c < |s.current|
    ensures Inv(r) && |r.current| == |s.current|
    decreases k
  {
    if k == 0 then s else Yields(YieldBy(s, c), c, k - 1)
  }

  lemma {:induction false} RoundRobin(s: State, c: nat, p: nat, k: nat)
    requires Inv(s) && c < |s.current| && TopIs(s, c, p) && 1 <= k <= |Runnable(s, s.runq[p], c)|
    ensures Yields(s, c, k).current[c] == Runnable(s, s.runq[p], c)[k - 1]
    decreases k
  {
    hide YieldBy, InvX;
    YieldStep(s, c, p);
    if k > 1 { RoundRobin(YieldBy(s, c), c, p, k - 1); }
  }

  // ---- what going to the head of the queue buys ----

  lemma HeadIsChosen(s: State, c: nat, p: nat, t: nat)
    requires p < |s.runq| && s.runq[p] != [] && s.runq[p][0] == t && Eligible(s, t, c)
    requires forall k, j | p < k < |s.runq| && 0 <= j < |s.runq[k]| :: !Eligible(s, s.runq[k][j], c)
    ensures Chosen(s, c, p, 0)
  {
  }

  lemma RequeuedHead(s: State, c: nat, k: nat)
    requires Inv(s) && c < |s.current| && !s.threads[s.current[c]].idle && k < NUM_PRIORITIES
    ensures var t := s.current[c]; var r := Requeue(s, t, true);
      && SameMarks(s, r) && |r.runq| == NUM_PRIORITIES && r.current == s.current
      && r.runq[k] == if k == s.threads[t].priority then [t] + s.runq[k] else s.runq[k]
  {
    assert Located(s, {}, s.current[c]);
  }

  // A preempted thread with quantum left goes on running unless something of a higher priority can run.
  lemma PreemptKeeps(s: State, c: nat)
    requires Inv(s) && c < |s.current|
    requires var t := s.current[c]; var th := s.threads[t];
      !th.idle && th.quantum > 0 && Eligible(s, t, c) && TopIs(s, c, th.priority)
    ensures PreemptBy(s, c).current[c] == s.current[c]
  {
    RequeueOk(s, c, true);
    forall k: nat | k < NUM_PRIORITIES { RequeuedHead(s, c, k); }
    hide InvX, Resched, Requeue, Located;
    var t := s.current[c];
    var r := Requeue(s, t, true);
    RequeuedHead(s, c, s.threads[t].priority);
    HeadIsChosen(r, c, s.threads[t].priority, t);
    ReschedIs(r, c, s.threads[t].priority, 0);
  }

  lemma WokenHead(s: State, q: nat, err: int, gone: set<nat>, k: nat)
    requires InvX(s, gone, {}) && q in s.waits && s.waits[q].list != [] && k < NUM_PRIORITIES
    ensures var t := s.waits[q].list[0]; var r := Woken(s, q, 0, err, gone);
      && t in s.threads && SameMarks(s, r) && |r.runq| == NUM_PRIORITIES && |s.runq| == NUM_PRIORITIES
      && r.runq[k] == if k == s.threads[t].priority then [t] + s.runq[k] else s.runq[k]
  {
    TakeWaitingOk(s, q, 0, err, gone, {});
  }

  lemma BeheadedHead(s: State, c: nat, k: nat)
    requires Inv(s) && c < |s.current| && k < NUM_PRIORITIES
    ensures var t := s.current[c]; var r := Behead(s, c);
      && t in s.threads && SameMarks(s, r) && r.waits == s.waits && r.current == s.current &&
         |r.runq| == |s.runq| == NUM_PRIORITIES
      && r.runq[k] == if k == s.threads[t].priority then [t] + s.runq[k] else s.runq[k]
  {
    assert Located(s, {}, s.current[c]);
  }

  // A wake with reschedule runs the woken thread at once if nothing above it can run.
  lemma WokenRunsFirst(s: State, c: nat, q: nat, err: int)
    requires Inv(s) && Enabled(s, WakeOne(c, q, true, err)) && s.waits[q].list != []
    requires var t := s.waits[q].list[0];
      t in s.threads && Eligible(s, t, c) && TopIs(s, c, s.threads[t].priority)
      && s.threads[s.current[c]].priority <= s.threads[t].priority
    ensures WakeOneBy(s, c, q, true, err).current[c] == s.waits[q].list[0]
  {
    hide InvX, Resched, Woken, Behead, Located;
    var t := s.waits[q].list[0];
    var p := s.threads[t].priority;
    var s1 := Behead(s, c);
    BeheadedHead(s, c, p);
    var s2 := Woken(s1, q, 0, err, {c});
    WokenHead(s1, q, err, {c}, p);
    forall k, j | p < k < NUM_PRIORITIES && 0 <= j < |s2.runq[k]|
      ensures !Eligible(s2, s2.runq[k][j], c)
    {
      BeheadedHead(s, c, k);
      WokenHead(s1, q, err, {c}, k);
      assert !Eligible(s, s.runq[k][j], c);
    }
    HeadIsChosen(s2, c, p, t);
    ReschedIs(s2, c, p, 0);
  }

  // ---- the scheduler's own state, changed in place ----

  class Sched {
    var threads: map<nat, Thread>
    var runq: seq<seq<nat>>
    var bits: seq<bool>
    var waits: map<nat, WaitList>
    var current: seq<nat>
    const idle: seq<nat>

    function View(): (s: State)
      reads this
    {
      State(threads, runq, bits, waits, current, idle)
    }

    // Every CPU has become idle and nothing else has been started.
    constructor (cpus: nat, qs: set<nat>)
      ensures Inv(View()) && View() == Booted(cpus, qs)
    {
      threads := map c: nat | 0 <= c < cpus :: Thread(0, Running, 0, false, true, c, c, None, 0, None);
      runq, bits := seq(NUM_PRIORITIES, _ => []), seq(NUM_PRIORITIES, _ => false);
      waits := map q | q in qs :: WaitList([], 0);
      current, idle := seq(cpus, i => i), seq(cpus, i => i);
    }

    // __builtin_clz on the local copy of the bitmap; -1 when it is zero.
    static method Highest(local: seq<bool>) returns (k: int)
      ensures -1 <= k < |local| && (k >= 0 ==> local[k])
      ensures forall j | k < j < |local| :: !local[j]
    {
      k := |local| - 1;
      while k >= 0 && !local[k]
        invariant -1 <= k < |local|
        invariant forall j | k < j < |local| :: !local[j]
      {
        k := k - 1;
      }
    }

    method FirstEligible(q: seq<nat>, c: nat) returns (i: nat)
      requires forall t | t in q :: t in threads
      ensures i <= |q| && (i < |q| ==> Eligible(View(), q[i], c)) && forall j | 0 <= j < i :: !Eligible(View(), q[j], c)
    {
      i := 0;
      while i < |q| && !(threads[q[i]].pinned < 0 || threads[q[i]].pinned == c)
        invariant i <= |q|
        invariant forall j | 0 <= j < i :: !Eligible(View(), q[j], c)
      {
        i := i + 1;
      }
    }

    method GetTopThread(c: nat) returns (n: nat)
      requires InvX(View(), {c}, {}) && c < |current|
      modifies `runq, `bits
      ensures n == Next(old(View()), c) && View() == Dequeued(old(View()), c)
    {
      hide InvX, Choose, Cut;
      QueueFacts(View(), {c});
      var local := bits;
      ghost var hi: nat := NUM_PRIORITIES;
      var next := Highest(local);
      while next >= 0
        invariant View() == old(View()) && |local| == NUM_PRIORITIES && -1 <= next < hi <= NUM_PRIORITIES
        invariant next >= 0 ==> local[next]
        invariant forall k | 0 <= k < NUM_PRIORITIES :: local[k] == (k < hi && bits[k])
        invariant forall k | next < k < NUM_PRIORITIES :: !local[k]
        invariant forall k, j | hi <= k < NUM_PRIORITIES && 0 <= j < |runq[k]| :: !Eligible(View(), runq[k][j], c)
        decreases next
      {
        var i := FirstEligible(runq[next], c);
        if i < |runq[next]| {
          n := runq[next][i];
          assert Chosen(View(), c, next, i);
          ChooseIs(View(), c, next, i);
          runq := runq[next := Cut(runq[next], i)];
          if runq[next] == [] {
            bits := bits[next := false];
          }
          return;
        }
        hi := next;
        local := local[next := false];
        next := Highest(local);
      }
      n := idle[c];
      assert NoneEligible(View(), c);
      ChooseIs(View(), c, 0, 0);
    }

    method InsertInRunQueueHead(t: nat)
      requires Queues(View()) && t in threads && threads[t].priority < NUM_PRIORITIES && threads[t].state == Ready
      modifies `runq, `bits
      ensures View() == PutReady(old(View()), t, true)
    {
      var p := threads[t].priority;
      runq := runq[p := [t] + runq[p]];
      bits := bits[p := true];
    }

    method InsertInRunQueueTail(t: nat)
      requires Queues(View()) && t in threads && threads[t].priority < NUM_PRIORITIES && threads[t].state == Ready
      modifies `runq, `bits
      ensures View() == PutReady(old(View()), t, false)
    {
      var p := threads[t].priority;
      runq := runq[p := runq[p] + [t]];
      bits := bits[p := true];
    }

    method ThreadResched(c: nat)
      requires InvX(View(), {c}, {}) && c < |current|
      modifies this
      ensures View() == Resched(old(View()), c)
    {
      hide InvX, Next, Dequeued, Switch, Choose, TakeReady;
      ReschedFacts(View(), c);
      var n := GetTopThread(c);
      SwitchTo(n, c);
    }

    // The rest of thread_resched once the new thread is known.
    method SwitchTo(n: nat, c: nat)
      requires n in threads && c < |current| && current[c] in threads
      modifies `threads, `current
      ensures View() == Switch(old(View()), n, c)
    {
      var was := current[c];
      threads := threads[n := threads[n].(state := Running)];
      if n == was { return; }
      RenewQuantum(n);
      HandOver(was, n, c);
      current := current[c := n];
    }

    method RenewQuantum(n: nat)
      requires n in threads
      modifies `threads
      ensures var q := old(threads)[n].quantum;
        threads == old(threads)[n := old(threads)[n].(quantum := if q <= 0 then 5 else q)]
    {
      if threads[n].quantum <= 0 {
        threads := threads[n := threads[n].(quantum := 5)];
      }
    }

    // The CPU passes from one thread to the other.
    method HandOver(was: nat, n: nat, c: nat)
      requires n in threads && was in threads && n != was
      modifies `threads
      ensures threads == old(threads)[was := old(threads)[was].(cpu := -1)][n := old(threads)[n].(cpu := c)]
    {
      threads := threads[was := threads[was].(cpu := -1)];
      threads := threads[n := threads[n].(cpu := c)];
    }

    method ThreadYield(c: nat)
      requires Inv(View()) && Enabled(View(), Yield(c))
      modifies this
      ensures View() == YieldBy(old(View()), c)
    {
      hide InvX, Resched;
      RunningFacts(View(), c);
      var t := current[c];
      threads := threads[t := threads[t].(state := Ready)];
      threads := threads[t := threads[t].(quantum := 0)];
      if !threads[t].idle {
        InsertInRunQueueTail(t);
      }
      assert View() == Yielding(old(View()), c);
      ThreadResched(c);
    }

    method ThreadPreempt(c: nat)
      requires Inv(View()) && Enabled(View(), Preempt(c))
      modifies this
      ensures View() == PreemptBy(old(View()), c)
    {
      hide InvX, Resched;
      RunningFacts(View(), c);
      var t := current[c];
      RequeueOk(View(), c, threads[t].quantum > 0);
      threads := threads[t := threads[t].(state := Ready)];
      if !threads[t].idle {
        if threads[t].quantum > 0 {
          InsertInRunQueueHead(t);
        } else {
          InsertInRunQueueTail(t);
        }
      }
      ThreadResched(c);
    }

    // The result says whether the interrupt asks for a reschedule.
    method ThreadTimerTick(c: nat) returns (resched: bool)
      requires Inv(View()) && Enabled(View(), Tick(c))
      modifies `threads
      ensures View() == TickBy(old(View()), c)
      ensures var th := old(threads[current[c]]); resched <==> !th.realtime && !th.idle && th.quantum <= 1
    {
      hide InvX;
      RunningFacts(View(), c);
      var t := current[c];
      if threads[t].realtime || threads[t].idle { return false; }
      threads := threads[t := threads[t].(quantum := threads[t].quantum - 1)];
      resched := threads[t].quantum <= 0;
    }

    method ThreadSleep(c: nat)
      requires Inv(View()) && Enabled(View(), Sleep(c))
      modifies this
      ensures View() == SleepBy(old(View()), c)
    {
      hide InvX, Resched;
      RunningFacts(View(), c);
      SleepBySteps(View(), c);
      var t := current[c];
      threads := threads[t := threads[t].(state := Sleeping)];
      ThreadResched(c);
    }

    method ThreadSleepHandler(t: nat)
      requires Inv(View()) && Enabled(View(), SleepDone(t))
      modifies this
      ensures View() == SleepDoneBy(old(View()), t)
    {
      QueueFacts(View(), {});
      assert Located(View(), {}, t);
      threads := threads[t := threads[t].(state := Ready)];
      InsertInRunQueueHead(t);
    }

    method ThreadSetPriority(c: nat, priority: int)
      requires Inv(View()) && Enabled(View(), SetPriority(c, priority))
      modifies this
      ensures View() == SetPriorityBy(old(View()), c, priority)
    {
      hide InvX, Resched;
      RunningFacts(View(), c);
      var p := priority;
      if p <= 0 { p := 1; }
      if p > NUM_PRIORITIES - 1 { p := NUM_PRIORITIES - 1; }
      var t := current[c];
      threads := threads[t := threads[t].(priority := p)];
      threads := threads[t := threads[t].(state := Ready)];
      InsertInRunQueueHead(t);
      assert View() == Behead(Reprioritized(old(View()), c, Clamped(priority)), c);
      ThreadResched(c);
    }

    // The critical section up to the switch; the value returned later is threads[t].ret. Zero returns ERR_TIMED_OUT
    // at once.
    method WaitQueueBlock(c: nat, q: nat, timeout: Timeout) returns (blocked: bool)
      requires Inv(View()) && Enabled(View(), Block(c, q, timeout))
      modifies this
      ensures View() == BlockBy(old(View()), c, q, timeout) && blocked == (timeout != Zero)
    {
      hide InvX, Resched;
      RunningFacts(View(), c);
      if timeout == Zero { return false; }
      BlockBySteps(View(), c, q);
      BlockCurrent(c, q);
      ThreadResched(c);
      blocked := true;
    }

    // The current thread goes to the end of a wait list.
    method BlockCurrent(c: nat, q: nat)
      requires c < |current| && current[c] in threads && q in waits
      modifies `waits, `threads
      ensures View() == PutBlocked(old(View()), current[c], q)
    {
      var t := current[c];
      waits := waits[q := WaitList(waits[q].list + [t], waits[q].count)];
      waits := waits[q := waits[q].(count := waits[q].count + 1)];
      threads := threads[t := threads[t].(state := Blocked)];
      threads := threads[t := threads[t].(on := Some(q))];
      threads := threads[t := threads[t].(ret := 0)];
    }

    // The body that wait_queue_wake_one, wait_queue_wake_all and thread_unblock_from_wait_queue share.
    method WakeAt(q: nat, i: nat, err: int, ghost gone: set<nat>)
      requires InvX(View(), gone, {}) && q in waits && i < |waits[q].list|
      modifies this
      ensures View() == Woken(old(View()), q, i, err, gone)
    {
      hide InvX;
      WaiterFacts(View(), q, i, gone);
      ghost var s := View();
      var t := waits[q].list[i];
      waits := waits[q := waits[q].(list := Cut(waits[q].list, i))];
      waits := waits[q := waits[q].(count := waits[q].count - 1)];
      SetReady(t, err);
      assert waits == TakeWaiting(s, q, i, err).waits;
      InsertInRunQueueHead(t);
    }

    // The fields of a thread that is woken.
    method SetReady(t: nat, err: int)
      requires t in threads
      modifies `threads
      ensures threads == old(threads)[t := old(threads)[t].(state := Ready, ret := err, on := None)]
    {
      threads := threads[t := threads[t].(state := Ready)];
      threads := threads[t := threads[t].(ret := err)];
      threads := threads[t := threads[t].(on := None)];
    }

    method WaitQueueWakeOne(c: nat, q: nat, resched: bool, err: int) returns (woken: nat)
      requires Inv(View()) && Enabled(View(), WakeOne(c, q, resched, err))
      modifies this
      ensures View() == WakeOneBy(old(View()), c, q, resched, err)
      ensures woken == if old(waits[q].list) == [] then 0 else 1
    {
      hide InvX, Resched, Woken, Behead;
      if waits[q].list == [] { return 0; }
      if resched {
        WakeBeforeCurrent(c, q, err);
        ThreadResched(c);
      } else {
        WakeAt(q, 0, err, {});
      }
      woken := 1;
    }

    // The waiter leaves its list, the current thread is queued, and the waiter is queued ahead of it.
    method WakeBeforeCurrent(c: nat, q: nat, err: int)
      requires Inv(View()) && c < |current| && q in waits && waits[q].list != []
      modifies this
      ensures InvX(Behead(old(View()), c), {c}, {}) && Behead(old(View()), c).waits == old(waits)
      ensures View() == Woken(Behead(old(View()), c), q, 0, err, {c}) && current == old(current)
    {
      hide InvX;
      ghost var s := View();
      WaiterFacts(s, q, 0, {});
      RunningFacts(s, c);
      WaiterNotCurrent(s, q, c);
      BeheadFacts(s, c);
      var t, cur := waits[q].list[0], current[c];
      waits := waits[q := waits[q].(list := Cut(waits[q].list, 0))];
      waits := waits[q := waits[q].(count := waits[q].count - 1)];
      threads := threads[t := threads[t].(state := Ready, ret := err, on := None)];
      threads := threads[cur := threads[cur].(state := Ready)];
      InsertInRunQueueHead(cur);
      InsertInRunQueueHead(t);
      WakeOrder(s, c, q, err, threads);
    }

    method SetCurrentReady(c: nat)
      requires Inv(View()) && c < |current|
      modifies this
      ensures View() == Behead(old(View()), c)
    {
      hide InvX;
      RunningFacts(View(), c);
      var t := current[c];
      threads := threads[t := threads[t].(state := Ready)];
      InsertInRunQueueHead(t);
    }

    method WaitQueueWakeAll(c: nat, q: nat, resched: bool, err: int) returns (woken: nat)
      requires Inv(View()) && Enabled(View(), WakeAll(c, q, resched, err))
      modifies this
      ensures View() == WakeAllBy(old(View()), c, q, resched, err)
      ensures woken == |old(waits[q].list)|
    {
      hide InvX, Resched, Woken, Behead;
      WaitFacts(View(), q);
      ghost var gone: set<nat> := {};
      if resched && waits[q].count > 0 {
        BeheadFacts(View(), c);
        SetCurrentReady(c);
        gone := {c};
      }
      woken := WakeList(q, err, gone);
      if woken > 0 && resched {
        ThreadResched(c);
      }
    }

    // The loop of wait_queue_wake_all.
    method WakeList(q: nat, err: int, ghost gone: set<nat>) returns (woken: nat)
      requires InvX(View(), gone, {}) && q in waits
      modifies this
      ensures View() == Drained(old(View()), q, err, gone) && woken == |old(waits[q].list)|
    {
      hide InvX, Woken;
      ghost var start := View();
      woken := 0;
      while waits[q].list != []
        invariant InvX(View(), gone, {}) && current == start.current && q in waits
        invariant woken + |waits[q].list| == |start.waits[q].list|
        invariant Drained(View(), q, err, gone) == Drained(start, q, err, gone)
        decreases |waits[q].list|
      {
        WakeAt(q, 0, err, gone);
        woken := woken + 1;
      }
    }

    // thread_create_etc leaves the thread suspended, with an empty queue q for those who join it.
    method ThreadCreate(t: nat, priority: nat, pinned: int, realtime: bool, q: nat)
      requires Inv(View()) && Enabled(View(), Create(t, priority, pinned, realtime, q))
      modifies this
      ensures View() == CreateBy(old(View()), t, priority, pinned, realtime, q)
    {
      hide InvX;
      threads := threads[t := Thread(priority, Suspended, 0, realtime, false, pinned, -1, None, 0, Some(q))];
      waits := waits[q := WaitList([], 0)];
    }

    // thread_resume up to the yield that may follow it.
    method ThreadResume(t: nat) returns (resched: bool)
      requires Inv(View()) && Enabled(View(), Resume(t))
      modifies this
      ensures View() == ResumeBy(old(View()), t) && resched == (old(threads[t].state) == Suspended)
    {
      QueueFacts(View(), {});
      assert Located(View(), {}, t);
      hide InvX;
      resched := false;
      if threads[t].state == Suspended {
        threads := threads[t := threads[t].(state := Ready)];
        InsertInRunQueueHead(t);
        resched := true;
      }
    }

    method ThreadExit(c: nat)
      requires Inv(View()) && Enabled(View(), Exit(c))
      modifies this
      ensures View() == ExitBy(old(View()), c)
    {
      hide InvX, Resched, Drained;
      RunningFacts(View(), c);
      var t := current[c];
      ghost var d := Dying(View(), c);
      threads := threads[t := threads[t].(state := Death)];
      assert View() == d;
      var q := threads[t].joiners;
      if q.Some? && q.value in waits {
        var woken := WakeList(q.value, 0, {c});
      }
      ThreadResched(c);
    }

    // thread_join of a thread that is not dead, up to the switch; false if the thread is detached or there is no time.
    method ThreadJoin(c: nat, t: nat, timeout: Timeout) returns (blocked: bool)
      requires Inv(View()) && Enabled(View(), Join(c, t, timeout))
      modifies this
      ensures View() == JoinBy(old(View()), c, t, timeout)
      ensures blocked <==>
        timeout != Zero && old(threads[t].joiners).Some? && old(threads[t].joiners).value in old(waits)
    {
      hide InvX, Resched;
      RunningFacts(View(), c);
      var q := threads[t].joiners;
      if q.None? || q.value !in waits || timeout == Zero { return false; }
      BlockBySteps(View(), c, q.value);
      BlockCurrent(c, q.value);
      ThreadResched(c);
      blocked := true;
    }

    method ThreadDetach(t: nat)
      requires Inv(View()) && Enabled(View(), Detach(t))
      modifies this
      ensures View() == DetachBy(old(View()), t)
    {
      hide InvX, Drained;
      var q := threads[t].joiners;
      if q.Some? && q.value in waits {
        var woken := WakeList(q.value, ERR_THREAD_DETACHED, {});
      }
      if threads[t].state == Death {
        threads := threads - {t};
      } else {
        threads := threads[t := threads[t].(joiners := None)];
      }
    }

    method UnblockFromWaitQueue(t: nat, err: int) returns (ok: bool)
      requires Inv(View()) && Enabled(View(), Unblock(t, err))
      modifies this
      ensures View() == UnblockBy(old(View()), t, err) && ok == (old(threads[t].state) == Blocked)
    {
      hide InvX, Woken, Index;
      if threads[t].state != Blocked { return false; }
      BlockedFacts(View(), t);
      var q := threads[t].on.value;
      WakeAt(q, Index(waits[q].list, t), err, {});
      ok := true;
    }
  }

  lemma WaiterFacts(s: State, q: nat, i: nat, gone: set<nat>)
    requires InvX(s, gone, {}) && q in s.waits && i < |s.waits[q].list|
    ensures var t := s.waits[q].list[i]; Queues(s) && t in s.threads && s.threads[t].priority < NUM_PRIORITIES
  {
    assert Located(s, gone, s.waits[q].list[i]);
  }

  lemma WaiterNotCurrent(s: State, q: nat, c: nat)
    requires Inv(s) && q in s.waits && s.waits[q].list != [] && c < |s.current|
    ensures s.waits[q].list[0] != s.current[c]
  {
  }

  // The two orders of the updates agree.
  lemma WakeOrder(s: State, c: nat, q: nat, err: int, threads: map<nat, Thread>)
    requires Inv(s) && c < |s.current| && q in s.waits && s.waits[q].list != []
    requires s.waits[q].list[0] in s.threads && s.current[c] in s.threads && s.waits[q].list[0] != s.current[c]
    requires var t, u := s.waits[q].list[0], s.current[c];
      threads ==
        s.threads[t := s.threads[t].(state := Ready, ret := err, on := None)][u := s.threads[u].(state := Ready)]
    ensures Behead(s, c).waits == s.waits && Woken(Behead(s, c), q, 0, err, {c}).threads == threads
  {
    hide InvX;
    BeheadFacts(s, c);
    var t := s.waits[q].list[0];
    assert Behead(s, c).threads[t] == s.threads[t];
    assert Woken(Behead(s, c), q, 0, err, {c}).threads == threads;
  }

  lemma WaitFacts(s: State, q: nat)
    requires Inv(s) && q in s.waits
    ensures s.waits[q].count == |s.waits[q].list|
  {
  }

  lemma BeheadFacts(s: State, c: nat)
    requires Inv(s) && c < |s.current|
    ensures var r := Behead(s, c); r.waits == s.waits && r.current == s.current
  {
  }

  lemma BlockedFacts(s: State, t: nat)
    requires Inv(s) && t in s.threads && s.threads[t].state == Blocked
    ensures s.threads[t].on.Some? && s.threads[t].on.value in s.waits && t in s.waits[s.threads[t].on.value].list
  {
    assert Located(s, {}, t);
  }

  lemma QueueFacts(s: State, gone: set<nat>)
    requires InvX(s, gone, {})
    ensures Queues(s) && |s.idle| == |s.current|
    ensures forall p | 0 <= p < NUM_PRIORITIES :: s.bits[p] <==> s.runq[p] != []
    ensures forall p, t | 0 <= p < NUM_PRIORITIES && t in s.runq[p] :: t in s.threads
  {
  }

  lemma ReschedFacts(s: State, c: nat)
    requires InvX(s, {c}, {}) && c < |s.current|
    ensures s.current[c] in s.threads && Next(s, c) in s.threads
    ensures var r := Dequeued(s, c);
      r.threads == s.threads && r.current == s.current && r.waits == s.waits && r.idle == s.idle
  {
    NextOk(s, c);
  }

  lemma RunningFacts(s: State, c: nat)
    requires Inv(s) && c < |s.current|
    ensures var t := s.current[c]; Queues(s) && t in s.threads && s.threads[t].priority < NUM_PRIORITIES
  {
    assert Located(s, {}, s.current[c]);
  }
}
