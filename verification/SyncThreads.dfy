/** The mutex, the semaphore and the event over the wait queues of the scheduler: the queue that each keeps is the list
    of threads that kernel/thread.c has blocked on it. */
module SyncThreads {
  import opened Lists
  import opened Options
  import opened WaitQueue
  import opened Scheduler
  import opened Joining
  import Mutex
  import Semaphore
  import Event

  // ---- what scheduler steps do to one wait list ----

  lemma ReschedWaits(s: State, c: nat)
    requires InvX(s, {c}, {}) && c < |s.current|
    ensures Rescheduled(s, c).waits == s.waits
  {
    hide InvX, Dequeued;
    ReschedFacts(s, c);
  }

  lemma WokenWaits(s: State, q: nat, i: nat, err: int, gone: set<nat>)
    requires InvX(s, gone, {}) && q in s.waits && i < |s.waits[q].list|
    ensures Woken(s, q, i, err, gone).waits ==
      s.waits[q := WaitList(Cut(s.waits[q].list, i), s.waits[q].count - 1)]
  {
    hide InvX;
  }

  lemma {:induction false} DrainedWaits(s: State, q: nat, err: int, gone: set<nat>, p: nat)
    requires InvX(s, gone, {}) && q in s.waits && p in s.waits && p != q
    ensures p in Drained(s, q, err, gone).waits && Drained(s, q, err, gone).waits[p] == s.waits[p]
    decreases |s.waits[q].list|
  {
    hide InvX, Woken;
    if s.waits[q].list != [] {
      WokenWaits(s, q, 0, err, gone);
      DrainedWaits(Woken(s, q, 0, err, gone), q, err, gone, p);
    }
  }

  lemma FreedWaits(s: State, q: Option<nat>, err: int, gone: set<nat>, p: nat)
    requires InvX(s, gone, {}) && p in s.waits && q != Some(p)
    ensures p in Freed(s, q, err, gone).waits && Freed(s, q, err, gone).waits[p] == s.waits[p]
  {
    hide InvX, Drained;
    if q.Some? && q.value in s.waits { DrainedWaits(s, q.value, err, gone, p); }
  }

  // No call of the step is on wait queue q. thread_join and thread_exit use the queues that belong to threads.
  predicate Elsewhere(s: State, e: Step, q: nat) {
    match e
    case Block(_, p, _) => p != q
    case WakeOne(_, p, _, _) => p != q
    case WakeAll(_, p, _, _) => p != q
    case Unblock(t, _) => t in s.threads && s.threads[t].on != Some(q)
    case _ => true
  }

  predicate SameList(s: State, r: State, q: nat) {
    q in s.waits && q in r.waits && s.waits[q] == r.waits[q]
  }

  lemma ReschedKeeps(s: State, r: State, c: nat, q: nat)
    requires InvX(r, {c}, {}) && c < |r.current| && SameList(s, r, q)
    ensures SameList(s, Rescheduled(r, c), q)
  {
    hide InvX, Resched;
    ReschedWaits(r, c);
  }

  lemma WakeOneKeeps(s: State, c: nat, p: nat, resched: bool, err: int, q: nat)
    requires Inv(s) && c < |s.current| && p in s.waits && q in s.waits && p != q
    ensures SameList(s, WakeOneBy(s, c, p, resched, err), q)
  {
    hide InvX, Resched, Woken, Behead;
    if s.waits[p].list != [] {
      if resched {
        BeheadFacts(s, c);
        WokenWaits(Behead(s, c), p, 0, err, {c});
        ReschedKeeps(s, Woken(Behead(s, c), p, 0, err, {c}), c, q);
      } else {
        WokenWaits(s, p, 0, err, {});
      }
    }
  }

  lemma WakeAllKeeps(s: State, c: nat, p: nat, resched: bool, err: int, q: nat)
    requires Inv(s) && c < |s.current| && p in s.waits && q in s.waits && p != q
    ensures SameList(s, WakeAllBy(s, c, p, resched, err), q)
  {
    hide InvX, Resched, Drained, Behead;
    if s.waits[p].list != [] {
      if resched {
        BeheadFacts(s, c);
        DrainedWaits(Behead(s, c), p, err, {c}, q);
        ReschedKeeps(s, Drained(Behead(s, c), p, err, {c}), c, q);
      } else {
        DrainedWaits(s, p, err, {}, q);
      }
    }
  }

  lemma UnblockKeeps(s: State, t: nat, err: int, q: nat)
    requires Inv(s) && t in s.threads && q in s.waits && s.threads[t].on != Some(q)
    ensures SameList(s, UnblockBy(s, t, err), q)
  {
    hide InvX, Woken, Index;
    if s.threads[t].state == Blocked {
      BlockedFacts(s, t);
      var p := s.threads[t].on.value;
      WokenWaits(s, p, Index(s.waits[p].list, t), err, {});
    }
  }

  // The threads of q are not joiners.
  lemma JoinQueues(s: State, q: nat, t: nat)
    requires !Joinable(s, q) && t in s.threads
    ensures s.threads[t].joiners != Some(q)
  {
  }

  lemma ElsewhereKeeps(s: State, e: Step, q: nat)
    requires Inv(s) && Enabled(s, e) && q in s.waits && !Joinable(s, q) && Elsewhere(s, e, q)
    ensures SameList(s, Apply(s, e), q)
  {
    hide InvX, Resched, Drained, Woken, Behead, Joinable, Freed, WakeOneBy, WakeAllBy, UnblockBy;
    if e.WakeOne? {
      WakeOneKeeps(s, e.c, e.q, e.resched, e.err, q);
    } else if e.WakeAll? {
      WakeAllKeeps(s, e.c, e.q, e.resched, e.err, q);
    } else if e.Unblock? {
      UnblockKeeps(s, e.t, e.err, q);
    } else {
      hide Enabled;
      OthersKeep(s, e, q);
    }
  }

  lemma OthersKeep(s: State, e: Step, q: nat)
    requires Inv(s) && Enabled(s, e) && q in s.waits && !Joinable(s, q) && Elsewhere(s, e, q)
    requires !e.WakeOne? && !e.WakeAll? && !e.Unblock?
    ensures SameList(s, Apply(s, e), q)
  {
    hide InvX, Resched, Behead, Joinable, Freed;
    match e
    case Yield(c) =>
      RunningFacts(s, c);
      ReschedKeeps(s, Yielding(s, c), c, q);
    case Preempt(c) =>
      RunningFacts(s, c);
      var head := s.threads[s.current[c]].quantum > 0;
      RequeueOk(s, c, head);
      ReschedKeeps(s, Requeue(s, s.current[c], head), c, q);
    case Sleep(c) =>
      RunningFacts(s, c);
      SleepBySteps(s, c);
      ReschedKeeps(s, PutPlain(s, s.current[c], Sleeping), c, q);
    case SetPriority(c, priority) =>
      var r := Reprioritized(s, c, Clamped(priority));
      BeheadFacts(r, c);
      ReschedKeeps(s, Behead(r, c), c, q);
    case Block(c, p, timeout) =>
      RunningFacts(s, c);
      BlockBySteps(s, c, p);
      ReschedKeeps(s, PutBlocked(s, s.current[c], p), c, q);
    case Exit(c) =>
      RunningFacts(s, c);
      var joiners := s.threads[s.current[c]].joiners;
      JoinQueues(s, q, s.current[c]);
      FreedWaits(Dying(s, c), joiners, 0, {c}, q);
      ReschedKeeps(s, Freed(Dying(s, c), joiners, 0, {c}), c, q);
    case Join(c, t, timeout) =>
      JoinQueues(s, q, t);
      var p := s.threads[t].joiners;
      if p.Some? && p.value in s.waits {
        RunningFacts(s, c);
        BlockBySteps(s, c, p.value);
        ReschedKeeps(s, PutBlocked(s, s.current[c], p.value), c, q);
      }
    case Detach(t) =>
      JoinQueues(s, q, t);
      FreedWaits(s, s.threads[t].joiners, ERR_THREAD_DETACHED, {}, q);
    case _ =>
  }

  // No step makes q the queue of a thread.
  lemma StillNotJoinable(s: State, e: Step, q: nat)
    requires Inv(s) && Enabled(s, e) && q in s.waits && !Joinable(s, q)
    ensures !Joinable(Apply(s, e), q)
  {
    hide InvX, Freed, Resched, Quiet;
    if e.Create? || e.Reap? {
    } else if e.Exit? {
      ExitJoiners(s, e.c, q);
    } else if e.Join? {
      JoinJoiners(s, e.c, e.t, e.timeout, q);
    } else if e.Detach? {
      var joiners := s.threads[e.t].joiners;
      FreedQuiet(s, joiners, ERR_THREAD_DETACHED, {});
      NotJoined(s, Freed(s, joiners, ERR_THREAD_DETACHED, {}), None, q);
    } else {
      hide Apply, Joinable;
      QuietStep(s, e);
      NotJoined(s, Apply(s, e), if e.Block? then Some(e.q) else None, q);
    }
  }

  lemma ExitJoiners(s: State, c: nat, q: nat)
    requires Inv(s) && Enabled(s, Exit(c)) && !Joinable(s, q)
    ensures !Joinable(ExitBy(s, c), q)
  {
    hide InvX, Freed, Resched, Quiet;
    RunsAlive(s, c);
    var d, joiners := Dying(s, c), s.threads[s.current[c]].joiners;
    FreedQuiet(d, joiners, 0, {c});
    QuietThenResched(d, Freed(d, joiners, 0, {c}), c, None);
    NotJoined(d, ExitBy(s, c), None, q);
  }

  lemma JoinJoiners(s: State, c: nat, t: nat, timeout: Timeout, q: nat)
    requires Inv(s) && Enabled(s, Join(c, t, timeout)) && !Joinable(s, q)
    ensures !Joinable(JoinBy(s, c, t, timeout), q)
  {
    hide InvX, Resched, Quiet, Joinable;
    RunsAlive(s, c);
    var p := s.threads[t].joiners;
    if p.Some? && p.value in s.waits && timeout != Zero {
      BlockBySteps(s, c, p.value);
      QuietBlocked(s, s.current[c], p.value);
      QuietThenResched(s, PutBlocked(s, s.current[c], p.value), c, p);
      NotJoined(s, JoinBy(s, c, t, timeout), p, q);
    }
  }

  lemma NotJoined(s: State, r: State, x: Option<nat>, q: nat)
    requires Quiet(s, r, x) && !Joinable(s, q)
    ensures !Joinable(r, q)
  {
  }

  // ---- the calls that mutex.c, semaphore.c and event.c make ----

  datatype Call = NoCall | BlockCall(timeout: Timeout) | WakeFirst | WakeEvery | TimeoutCall(t: nat)

  // The queue that a primitive keeps, after a call by thread t.
  function AfterCall(l: seq<Waiter>, t: nat, call: Call): (r: seq<Waiter>) {
    match call
    case NoCall => l
    case BlockCall(timeout) => l + [Waiter(t, timeout == Finite)]
    case WakeFirst => if l == [] then [] else l[1..]
    case WakeEvery => []
    case TimeoutCall(u) => if HasTimer(l, u) then Without(l, u) else l
  }

  // The wait list of q is the queue l; timed are the threads that blocked with a timeout.
  predicate Coupled(s: State, timed: set<nat>, q: nat, l: seq<Waiter>) {
    && q in s.waits && |l| == |s.waits[q].list|
    && forall i | 0 <= i < |l| :: l[i] == Waiter(s.waits[q].list[i], s.waits[q].list[i] in timed)
  }

  // The critical section of thread.c that the call enters on CPU c, if any.
  function StepOf(s: State, timed: set<nat>, q: nat, c: nat, call: Call, resched: bool): (e: Option<Step>) {
    match call
    case NoCall => None
    case BlockCall(timeout) => Some(Block(c, q, timeout))
    case WakeFirst => Some(WakeOne(c, q, resched, 0))
    case WakeEvery => Some(WakeAll(c, q, resched, 0))
    case TimeoutCall(t) =>
      if t in s.threads && s.threads[t].on == Some(q) && t in timed then Some(Unblock(t, ERR_TIMED_OUT)) else None
  }

  const ERR_TIMED_OUT: int := -13

  function Timed(timed: set<nat>, t: nat, call: Call): (r: set<nat>) {
    if !call.BlockCall? then timed else if call.timeout == Finite then timed + {t} else timed - {t}
  }

  function Do(s: State, timed: set<nat>, q: nat, c: nat, call: Call, resched: bool): (r: State)
    requires Inv(s) && Callable(s, q, c, call)
    ensures Inv(r)
  {
    var e := StepOf(s, timed, q, c, call, resched);
    if e.None? then s else Apply(s, e.value)
  }

  predicate Callable(s: State, q: nat, c: nat, call: Call)
    requires Inv(s)
  {
    && c < |s.current| && q in s.waits && !Joinable(s, q)
    && (call.BlockCall? ==> !s.threads[s.current[c]].idle && call.timeout != Zero)
  }

  lemma RunningIsNotListed(s: State, c: nat, q: nat)
    requires Inv(s) && c < |s.current| && q in s.waits
    ensures s.current[c] in s.threads && s.current[c] !in s.waits[q].list
  {
  }

  lemma BlockCoupled(s: State, timed: set<nat>, q: nat, l: seq<Waiter>, c: nat, timeout: Timeout)
    requires Inv(s) && Callable(s, q, c, BlockCall(timeout)) && Coupled(s, timed, q, l)
    ensures var call := BlockCall(timeout);
      Coupled(BlockBy(s, c, q, timeout), Timed(timed, s.current[c], call), q, AfterCall(l, s.current[c], call))
  {
    hide InvX, Resched, Joinable;
    RunningIsNotListed(s, c, q);
    BlockBySteps(s, c, q);
    ReschedWaits(PutBlocked(s, s.current[c], q), c);
  }

  lemma WakeFirstCoupled(s: State, timed: set<nat>, q: nat, l: seq<Waiter>, c: nat, resched: bool)
    requires Inv(s) && c < |s.current| && Coupled(s, timed, q, l)
    ensures Coupled(WakeOneBy(s, c, q, resched, 0), timed, q, if l == [] then [] else l[1..])
  {
    hide InvX, Resched, Behead, Woken;
    if l != [] {
      assert Cut(s.waits[q].list, 0) == s.waits[q].list[1..];
      if resched {
        BeheadFacts(s, c);
        WokenWaits(Behead(s, c), q, 0, 0, {c});
        ReschedWaits(Woken(Behead(s, c), q, 0, 0, {c}), c);
      } else {
        WokenWaits(s, q, 0, 0, {});
      }
    }
  }

  lemma WakeEveryCoupled(s: State, timed: set<nat>, q: nat, l: seq<Waiter>, c: nat, resched: bool)
    requires Inv(s) && c < |s.current| && Coupled(s, timed, q, l)
    ensures Coupled(WakeAllBy(s, c, q, resched, 0), timed, q, [])
  {
    hide InvX, Resched, Behead, Drained;
    if l != [] && resched {
      BeheadFacts(s, c);
      ReschedWaits(Drained(Behead(s, c), q, 0, {c}), c);
    }
  }

  // Cutting a thread's place out of the list is taking it out of the queue.
  lemma {:induction false} CutIsWithout(l: seq<Waiter>, i: nat)
    requires i < |l| && forall j | 0 <= j < i :: l[j].t != l[i].t
    ensures Without(l, l[i].t) == l[..i] + l[i + 1..]
  {
    if i > 0 {
      assert l[1..][i - 1] == l[i];
      CutIsWithout(l[1..], i - 1);
      assert l[..i] == [l[0]] + l[1..][..i - 1] && l[1..][i..] == l[i + 1..];
    }
  }

  lemma ListFacts(s: State, q: nat, t: nat)
    requires Inv(s) && q in s.waits
    ensures NoDups(s.waits[q].list)
    ensures t in s.waits[q].list <==> t in s.threads && s.threads[t].on == Some(q)
    ensures t in s.waits[q].list ==> s.threads[t].state == Blocked
  {
    if t in s.threads { assert Located(s, {}, t); }
  }

  lemma TimeoutCoupled(s: State, timed: set<nat>, q: nat, l: seq<Waiter>, t: nat)
    requires Inv(s) && Coupled(s, timed, q, l) && t in s.threads && s.threads[t].on == Some(q) && t in timed
    ensures Coupled(UnblockBy(s, t, ERR_TIMED_OUT), timed, q, AfterCall(l, 0, TimeoutCall(t)))
  {
    hide InvX, Woken, Index;
    ListFacts(s, q, t);
    var list := s.waits[q].list;
    var i := Index(list, t);
    WokenWaits(s, q, i, ERR_TIMED_OUT, {});
    assert l[i] == Waiter(t, true);
    CutIsWithout(l, i);
    assert Cut(list, i) == list[..i] + list[i + 1..];
  }

  lemma TimeoutMisses(s: State, timed: set<nat>, q: nat, l: seq<Waiter>, t: nat)
    requires Inv(s) && Coupled(s, timed, q, l) && !(t in s.threads && s.threads[t].on == Some(q) && t in timed)
    ensures !HasTimer(l, t)
  {
    hide InvX;
    ListFacts(s, q, t);
  }

  // After every call the list of blocked threads is the queue of the primitive.
  lemma CallCoupled(s: State, timed: set<nat>, q: nat, l: seq<Waiter>, c: nat, call: Call, resched: bool)
    requires Inv(s) && Callable(s, q, c, call) && Coupled(s, timed, q, l)
    ensures var t := s.current[c];
      Coupled(Do(s, timed, q, c, call, resched), Timed(timed, t, call), q, AfterCall(l, t, call))
  {
    hide InvX, Joinable, BlockBy, WakeOneBy, WakeAllBy, UnblockBy, Coupled;
    match call
    case NoCall =>
    case BlockCall(timeout) => BlockCoupled(s, timed, q, l, c, timeout);
    case WakeFirst => WakeFirstCoupled(s, timed, q, l, c, resched);
    case WakeEvery => WakeEveryCoupled(s, timed, q, l, c, resched);
    case TimeoutCall(t) =>
      if StepOf(s, timed, q, c, call, resched).Some? {
        TimeoutCoupled(s, timed, q, l, t);
      } else {
        TimeoutMisses(s, timed, q, l, t);
      }
  }

  // ---- the primitives ----

  datatype Object = AMutex(m: Mutex.State) | ASemaphore(p: Semaphore.State) | AnEvent(v: Event.State)

  datatype Act = OnMutex(m: Mutex.Step) | OnSemaphore(p: Semaphore.Step) | OnEvent(v: Event.Step)

  function Waiting(o: Object): (l: seq<Waiter>) {
    match o
    case AMutex(m) => m.queue
    case ASemaphore(p) => p.queue
    case AnEvent(v) => v.q
  }

  predicate ObjectInv(o: Object) {
    match o
    case AMutex(m) => Mutex.Inv(m)
    case ASemaphore(p) => Semaphore.Inv(p)
    case AnEvent(v) => Event.Inv(v)
  }

  predicate Allowed(o: Object, a: Act) {
    match (o, a)
    case (AMutex(m), OnMutex(x)) => Mutex.Enabled(m, x)
    case (ASemaphore(p), OnSemaphore(x)) => Semaphore.Enabled(p, x)
    case (AnEvent(v), OnEvent(x)) => Event.Enabled(v, x)
    case _ => false
  }

  function Acted(o: Object, a: Act): (r: Object)
    requires ObjectInv(o) && Allowed(o, a)
    ensures r.AMutex? == o.AMutex?
  {
    match (o, a)
    case (AMutex(m), OnMutex(x)) => AMutex(Mutex.Apply(m, x))
    case (ASemaphore(p), OnSemaphore(x)) => ASemaphore(Semaphore.Apply(p, x))
    case (AnEvent(v), OnEvent(x)) => AnEvent(Event.Apply(v, x))
  }

  // Steps of a thread are taken by the thread that runs; timeouts and posts can come from anywhere.
  predicate IsBy(a: Act, t: nat) {
    match a
    case OnMutex(x) => !x.Fire? ==> x.t == t
    case OnSemaphore(x) => x.Wait? || x.TryWait? || x.Resume? ==> x.t == t
    case OnEvent(x) => x.Wait? ==> x.t == t
  }

  // What the code of the primitive asks of thread.c.
  function CallOf(o: Object, a: Act): (call: Call) {
    match (o, a)
    case (AMutex(m), OnMutex(Acquire(_, timeout))) =>
      if m.count + 1 > 1 && timeout != Zero then BlockCall(timeout) else NoCall
    case (AMutex(m), OnMutex(Release(_))) => if m.count - 1 >= 1 then WakeFirst else NoCall
    case (AMutex(_), OnMutex(Fire(t))) => TimeoutCall(t)
    case (ASemaphore(p), OnSemaphore(Post)) => if p.count + 1 <= 0 then WakeFirst else NoCall
    case (ASemaphore(p), OnSemaphore(Wait(_, timeout))) =>
      if p.count - 1 < 0 && timeout != Zero then BlockCall(timeout) else NoCall
    case (ASemaphore(_), OnSemaphore(Fire(t))) => TimeoutCall(t)
    case (AnEvent(v), OnEvent(Wait(_, timeout))) =>
      if !v.signaled && timeout != Zero then BlockCall(timeout) else NoCall
    case (AnEvent(v), OnEvent(Signal)) => if v.signaled then NoCall else if v.auto then WakeFirst else WakeEvery
    case (AnEvent(_), OnEvent(Expire(t))) => TimeoutCall(t)
    case _ => NoCall
  }

  lemma ActedIs(o: Object, a: Act, t: nat)
    requires ObjectInv(o) && Allowed(o, a) && IsBy(a, t)
    ensures ObjectInv(Acted(o, a)) && Waiting(Acted(o, a)) == AfterCall(Waiting(o), t, CallOf(o, a))
  {
    hide Mutex.Inv, Mutex.Apply, Mutex.Enabled, Semaphore.Inv, Semaphore.Apply, Semaphore.Enabled;
    hide Event.Inv, Event.Apply, Event.Enabled, AfterCall, CallOf, IsBy;
    match a
    case OnMutex(x) =>
      Mutex.StepInv(o.m, x);
      MutexActs(o.m, x, t);
    case OnSemaphore(x) =>
      Semaphore.StepInv(o.p, x);
      SemaphoreActs(o.p, x, t);
    case OnEvent(x) => EventActs(o.v, x, t);
  }

  lemma MutexActs(m: Mutex.State, x: Mutex.Step, t: nat)
    requires IsBy(OnMutex(x), t)
    ensures Mutex.Apply(m, x).queue == AfterCall(m.queue, t, CallOf(AMutex(m), OnMutex(x)))
  {
    hide Without, HasTimer;
  }

  lemma SemaphoreActs(p: Semaphore.State, x: Semaphore.Step, t: nat)
    requires IsBy(OnSemaphore(x), t)
    ensures Semaphore.Apply(p, x).queue == AfterCall(p.queue, t, CallOf(ASemaphore(p), OnSemaphore(x)))
  {
    hide Without, HasTimer;
  }

  lemma EventActs(v: Event.State, x: Event.Step, t: nat)
    requires Event.Inv(v) && Event.Enabled(v, x) && IsBy(OnEvent(x), t)
    ensures Event.Apply(v, x).q == AfterCall(v.q, t, CallOf(AnEvent(v), OnEvent(x)))
  {
    hide Without, HasTimer, Distinct, Waits;
  }

  // ---- runs of the scheduler with one primitive ----

  datatype Joint = Joint(s: State, timed: set<nat>, o: Object)

  datatype Move = Acts(c: nat, a: Act, resched: bool) | Moves(e: Step)

  predicate JointInv(j: Joint, q: nat) {
    Inv(j.s) && ObjectInv(j.o) && Coupled(j.s, j.timed, q, Waiting(j.o)) && !Joinable(j.s, q)
  }

  // Nobody uses the wait queue behind the primitive's back, and an idle thread never blocks.
  predicate Possible(j: Joint, q: nat, x: Move)
    requires JointInv(j, q)
  {
    match x
    case Acts(c, a, _) => Allowed(j.o, a) && Callable(j.s, q, c, CallOf(j.o, a)) && IsBy(a, j.s.current[c])
    case Moves(e) => Enabled(j.s, e) && Elsewhere(j.s, e, q)
  }

  function After(j: Joint, q: nat, x: Move): (r: Joint)
    requires JointInv(j, q) && Possible(j, q, x)
  {
    match x
    case Acts(c, a, resched) =>
      var call := CallOf(j.o, a);
      Joint(Do(j.s, j.timed, q, c, call, resched), Timed(j.timed, j.s.current[c], call), Acted(j.o, a))
    case Moves(e) => j.(s := Apply(j.s, e))
  }

  lemma DoNotJoinable(s: State, timed: set<nat>, q: nat, c: nat, call: Call, resched: bool)
    requires Inv(s) && Callable(s, q, c, call)
    ensures !Joinable(Do(s, timed, q, c, call, resched), q)
  {
    hide InvX, Apply, Joinable;
    var e := StepOf(s, timed, q, c, call, resched);
    if e.Some? { StillNotJoinable(s, e.value, q); }
  }

  lemma JointKept(j: Joint, q: nat, x: Move)
    requires JointInv(j, q) && Possible(j, q, x)
    ensures JointInv(After(j, q, x), q)
  {
    hide InvX, Apply, Joinable, Do, CallOf, AfterCall, Timed, Enabled, ObjectInv, Waiting, Acted;
    match x
    case Acts(c, a, resched) =>
      var call := CallOf(j.o, a);
      ActedIs(j.o, a, j.s.current[c]);
      CallCoupled(j.s, j.timed, q, Waiting(j.o), c, call, resched);
      DoNotJoinable(j.s, j.timed, q, c, call, resched);
    case Moves(e) =>
      ElsewhereKeeps(j.s, e, q);
      StillNotJoinable(j.s, e, q);
  }

  ghost predicate JointLegal(j: Joint, q: nat, xs: seq<Move>)
    requires JointInv(j, q)
    decreases |xs|
  {
    xs == [] || (Possible(j, q, xs[0]) && (JointKept(j, q, xs[0]); JointLegal(After(j, q, xs[0]), q, xs[1..])))
  }

  ghost function JointRun(j: Joint, q: nat, xs: seq<Move>): (r: Joint)
    requires JointInv(j, q) && JointLegal(j, q, xs)
    ensures JointInv(r, q) && r.o.AMutex? == j.o.AMutex?
    decreases |xs|
  {
    if xs == [] then j
    else
      JointKept(j, q, xs[0]);
      JointRun(After(j, q, xs[0]), q, xs[1..])
  }

  // In every run of the scheduler and a mutex, a semaphore or an event: a thread is in the primitive's queue exactly
  // when the scheduler has it blocked there, in the same order, and it is on no CPU.
  lemma QueueIsBlocked(j: Joint, q: nat, xs: seq<Move>, t: nat)
    requires JointInv(j, q) && JointLegal(j, q, xs)
    ensures var r := JointRun(j, q, xs); var l := Waiting(r.o);
      && q in r.s.waits && |l| == |r.s.waits[q].list| && (forall i | 0 <= i < |l| :: l[i].t == r.s.waits[q].list[i])
      && (Waits(l, t) <==> t in r.s.threads && r.s.threads[t].state == Blocked && r.s.threads[t].on == Some(q))
      && (Waits(l, t) ==> t !in r.s.current)
  {
    hide InvX, JointLegal, ObjectInv, Joinable, Waiting;
    var r := JointRun(j, q, xs);
    ListFacts(r.s, q, t);
    if t in r.s.current {
      var c :| 0 <= c < |r.s.current| && r.s.current[c] == t;
      RunningIsNotListed(r.s, c, q);
    }
    if t in r.s.waits[q].list {
      var i :| 0 <= i < |r.s.waits[q].list| && r.s.waits[q].list[i] == t;
      assert Waiting(r.o)[i].t == t;
    }
  }

  // So a running thread can always wait on an event: what Event.Enabled asks holds of itself.
  lemma RunningMayWait(j: Joint, q: nat, xs: seq<Move>, c: nat)
    requires JointInv(j, q) && JointLegal(j, q, xs) && c < |JointRun(j, q, xs).s.current|
    ensures var r := JointRun(j, q, xs); !Waits(Waiting(r.o), r.s.current[c])
  {
    hide JointInv, JointLegal, Waiting, Waits;
    QueueIsBlocked(j, q, xs, JointRun(j, q, xs).s.current[c]);
  }

  // And a mutex never has two owners, nor an owner that is blocked on it.
  lemma OwnerNotBlocked(j: Joint, q: nat, xs: seq<Move>, t: nat, u: nat)
    requires JointInv(j, q) && JointLegal(j, q, xs) && j.o.AMutex?
    ensures var r := JointRun(j, q, xs);
      t in r.o.m.granted ==> (u in r.o.m.granted ==> t == u) && (t in r.s.threads ==> r.s.threads[t].on != Some(q))
  {
    hide InvX, JointLegal, Joinable;
    var r := JointRun(j, q, xs);
    ListFacts(r.s, q, t);
    if t in r.o.m.granted { Mutex.Only(r.o.m.granted, t); }
  }
}
