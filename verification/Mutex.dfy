/** kernel/mutex.c over the wait queue of kernel/thread.c, one step per critical section. */
module Mutex {
  import opened Lists
  import opened Options
  import opened WaitQueue

  // count and holder are the mutex's fields and queue its wait list. granted and late say where the other threads
  // inside mutex_acquire stand: made owner, or timed out but not yet run again.
  datatype State = State(count: int, holder: Option<nat>, queue: seq<Waiter>, granted: set<nat>, late: set<nat>)

  const INITIAL := State(0, None, [], {}, {})

  datatype Step =
    | Acquire(t: nat, timeout: Timeout)
    | Release(t: nat)
    | Fire(t: nat)      // the timeout callback of t runs
    | Resume(t: nat)    // t runs again after wait_queue_block

  predicate Outside(s: State, t: nat) {
    !Waits(s.queue, t) && t !in s.granted && t !in s.late
  }

  // The calls the kernel's own checks allow: no recursive acquire, release by the holder only.
  predicate Enabled(s: State, e: Step) {
    match e
    case Acquire(t, _) => Outside(s, t)
    case Release(t) => s.holder == Some(t)
    case Fire(t) => true
    case Resume(t) => (t in s.granted && s.holder != Some(t)) || t in s.late
  }

  function Apply(s: State, e: Step): (r: State) {
    match e
    case Acquire(t, timeout) =>
      if s.count + 1 > 1 then
        if timeout == Zero then s
        else s.(count := s.count + 1, queue := s.queue + [Waiter(t, timeout == Finite)])
      else s.(count := s.count + 1, holder := Some(t), granted := s.granted + {t})
    case Release(t) =>
      var r := s.(holder := None, count := s.count - 1, granted := s.granted - {t});
      if r.count >= 1 && r.queue != [] then
        r.(queue := r.queue[1..], granted := r.granted + {r.queue[0].t})
      else r
    case Fire(t) =>
      if HasTimer(s.queue, t) then s.(queue := Without(s.queue, t), late := s.late + {t}) else s
    case Resume(t) =>
      if t in s.late then s.(count := s.count - 1, late := s.late - {t})
      else s.(holder := Some(t))
  }

  // count is one per owner, blocked waiter and timed-out waiter still to run; there is at most one owner.
  predicate Inv(s: State) {
    && s.count == |s.granted| + |s.queue| + |s.late|
    && |s.granted| <= 1
    && (s.holder.Some? ==> s.holder.value in s.granted)
    && Distinct(s.queue)
    && s.granted !! s.late
    && (forall i | 0 <= i < |s.queue| :: s.queue[i].t !in s.granted && s.queue[i].t !in s.late)
  }

  lemma AcquireInv(s: State, t: nat, timeout: Timeout)
    requires Inv(s) && Outside(s, t)
    ensures Inv(Apply(s, Acquire(t, timeout)))
  {
    NotWaiting(s.queue, t);
    if s.count == 0 { assert s.granted == {}; }
  }

  lemma ReleaseInv(s: State, t: nat)
    requires Inv(s) && s.holder == Some(t)
    ensures Inv(Apply(s, Release(t)))
  {
    Only(s.granted, t);
    assert s.granted - {t} == {};
  }

  lemma FireInv(s: State, t: nat)
    requires Inv(s)
    ensures Inv(Apply(s, Fire(t)))
  {
    if HasTimer(s.queue, t) { WithoutOne(s.queue, t); }
  }

  lemma ResumeInv(s: State, t: nat)
    requires Inv(s) && Enabled(s, Resume(t))
    ensures Inv(Apply(s, Resume(t)))
  {
  }

  lemma StepInv(s: State, e: Step)
    requires Inv(s) && Enabled(s, e)
    ensures Inv(Apply(s, e))
  {
    match e
    case Acquire(t, timeout) => AcquireInv(s, t, timeout);
    case Release(t) => ReleaseInv(s, t);
    case Fire(t) => FireInv(s, t);
    case Resume(t) => ResumeInv(s, t);
  }

  lemma Only(g: set<nat>, t: nat)
    requires t in g && |g| <= 1
    ensures g == {t}
  {
    assert |g - {t}| == |g| - 1;
    assert g - {t} == {};
  }

  // ---- runs ----

  function Run(s: State, es: seq<Step>): (r: State)
    decreases |es|
  {
    if es == [] then s else Run(Apply(s, es[0]), es[1..])
  }

  predicate Legal(s: State, es: seq<Step>)
    decreases |es|
  {
    es == [] || (Enabled(s, es[0]) && Legal(Apply(s, es[0]), es[1..]))
  }

  lemma {:induction false} RunInv(s: State, es: seq<Step>)
    requires Inv(s) && Legal(s, es)
    ensures Inv(Run(s, es))
    decreases |es|
  {
    if es != [] {
      StepInv(s, es[0]);
      RunInv(Apply(s, es[0]), es[1..]);
    }
  }

  // Under every interleaving of acquires, releases and timeouts there is at most one owner.
  lemma {:induction false} MutualExclusion(es: seq<Step>, a: nat, b: nat)
    requires Legal(INITIAL, es)
    ensures var s := Run(INITIAL, es);
      && s.count == |s.granted| + |s.queue| + |s.late|
      && (a in s.granted && b in s.granted ==> a == b)
  {
    RunInv(INITIAL, es);
    var s := Run(INITIAL, es);
    if a in s.granted { Only(s.granted, a); }
  }

  // ---- waiters nobody will wake ----

  predicate Untimed(es: seq<Step>) {
    forall i | 0 <= i < |es| :: es[i].Acquire? ==> es[i].timeout != Finite
  }

  predicate Prompt(s: State) {
    && s.late == {} && (forall i | 0 <= i < |s.queue| :: !s.queue[i].timed)
    && (s.granted == {} ==> s.queue == [])
  }

  lemma StepPrompt(s: State, e: Step)
    requires Inv(s) && Prompt(s) && Enabled(s, e) && (e.Acquire? ==> e.timeout != Finite)
    ensures Inv(Apply(s, e)) && Prompt(Apply(s, e))
  {
    StepInv(s, e);
    if e.Release? { Only(s.granted, e.t); }
  }

  // With timeouts of 0 or INFINITE_TIME only, an unowned mutex has no waiters.
  lemma {:induction false} UnownedIsFree(s: State, es: seq<Step>)
    requires Inv(s) && Prompt(s) && Legal(s, es) && Untimed(es)
    ensures Prompt(Run(s, es))
    decreases |es|
  {
    if es != [] {
      var e, r := es[0], Apply(s, es[0]);
      StepPrompt(s, e);
      assert Untimed(es[1..]);
      UnownedIsFree(r, es[1..]);
    }
  }

  // The threads that are to have the mutex: those that find it free or are ready to wait.
  function Comers(s: State, es: seq<Step>): (ts: seq<nat>)
    decreases |es|
  {
    if es == [] then [] else Comer(s, es[0]) + Comers(Apply(s, es[0]), es[1..])
  }

  function Comer(s: State, e: Step): (ts: seq<nat>) {
    if e.Acquire? && (s.count == 0 || e.timeout != Zero) then [e.t] else []
  }

  ghost function NewOwner(s: State, r: State): (ts: seq<nat>) {
    if exists t :: t in r.granted && t !in s.granted then
      var t :| t in r.granted && t !in s.granted; [t]
    else []
  }

  // The threads that come to own it, one after the other.
  ghost function Owners(s: State, es: seq<Step>): (ts: seq<nat>)
    decreases |es|
  {
    if es == [] then [] else NewOwner(s, Apply(s, es[0])) + Owners(Apply(s, es[0]), es[1..])
  }

  lemma StepInOrder(s: State, e: Step)
    requires Inv(s) && Prompt(s) && Enabled(s, e)
    ensures Threads(s.queue) + Comer(s, e) == NewOwner(s, Apply(s, e)) + Threads(Apply(s, e).queue)
  {
    var r := Apply(s, e);
    match e
    case Acquire(t, timeout) =>
      if s.count == 0 {
        assert t in r.granted && t !in s.granted;
        assert forall x | x in r.granted && x !in s.granted :: x == t;
      } else {
        assert r.granted == s.granted;
      }
    case Release(t) =>
      Only(s.granted, t);
      if s.queue != [] {
        assert s.queue[0].t in r.granted && s.queue[0].t !in s.granted;
        assert forall x | x in r.granted && x !in s.granted :: x == s.queue[0].t;
        assert Threads(s.queue) == [s.queue[0].t] + Threads(s.queue[1..]);
      }
    case Fire(t) =>
    case Resume(t) =>
  }

  // With timeouts of 0 or INFINITE_TIME only, threads own the mutex in the order in which they came for it.
  lemma {:induction false} OwnedInOrder(s: State, es: seq<Step>)
    requires Inv(s) && Prompt(s) && Legal(s, es) && Untimed(es)
    ensures Threads(s.queue) + Comers(s, es) == Owners(s, es) + Threads(Run(s, es).queue)
    decreases |es|
  {
    hide Inv, Apply, NewOwner, Prompt, Threads, Enabled;
    if es != [] {
      var e, r := es[0], Apply(s, es[0]);
      StepPrompt(s, e);
      StepInOrder(s, e);
      assert Untimed(es[1..]);
      OwnedInOrder(r, es[1..]);
      Chain(Threads(s.queue), Comer(s, e), NewOwner(s, r), Threads(r.queue), Comers(r, es[1..]), Owners(r, es[1..]),
            Threads(Run(r, es[1..]).queue));
    }
  }

  predicate Stuck(s: State) {
    s.granted == {} && s.queue != []
  }

  // With finite timeouts it can happen, and this is exactly when: someone blocks on a mutex that has no owner
  // because a waiter that timed out has not run yet to take itself out of the count.
  lemma LostWakeup(s: State, e: Step)
    requires Inv(s) && Enabled(s, e) && !Stuck(s)
    ensures Stuck(Apply(s, e)) <==> e.Acquire? && e.timeout != Zero && s.granted == {} && s.late != {}
  {
    match e
    case Acquire(t, timeout) => if s.granted == {} && s.late == {} { assert s.count == 0; }
    case Release(t) => Only(s.granted, t);
    case Fire(t) => if HasTimer(s.queue, t) { WithoutOne(s.queue, t); }
    case Resume(t) =>
  }

  // From then on the mutex is dead: a waiter without a timeout stays blocked and nobody ever owns the mutex again.
  lemma {:induction false} StuckForever(s: State, es: seq<Step>, w: nat)
    requires Inv(s) && Legal(s, es) && s.granted == {} && Waiter(w, false) in s.queue
    ensures Run(s, es).granted == {} && Waiter(w, false) in Run(s, es).queue
    decreases |es|
  {
    if es != [] {
      var e, r := es[0], Apply(s, es[0]);
      StepInv(s, e);
      if e.Fire? && HasTimer(s.queue, e.t) { WithoutOne(s.queue, e.t); }
      assert r.granted == {} && Waiter(w, false) in r.queue;
      StuckForever(r, es[1..], w);
    }
  }

  // A run of six steps that gets there.
  lemma StuckIsReachable() returns (es: seq<Step>)
    ensures Legal(INITIAL, es) && Stuck(Run(INITIAL, es)) && Run(INITIAL, es).queue == [Waiter(3, false)]
    ensures Run(INITIAL, es).late == {}
  {
    es := [Acquire(1, Infinite), Acquire(2, Finite), Fire(2), Release(1), Acquire(3, Infinite), Resume(2)];
    var s1 := Apply(INITIAL, es[0]);
    var s2 := Apply(s1, es[1]);
    var s3 := Apply(s2, es[2]);
    var s4 := Apply(s3, es[3]);
    var s5 := Apply(s4, es[4]);
    var s6 := Apply(s5, es[5]);
    assert s2 == State(2, Some(1), [Waiter(2, true)], {1}, {});
    assert s3 == State(2, Some(1), [], {1}, {2}) by {
      assert s2.queue[1..] == [] && s2.queue[0] == Waiter(2, true);
    }
    assert s4 == State(1, None, [], {}, {2});
    assert s5 == State(2, None, [Waiter(3, false)], {}, {2});
    assert s6 == State(1, None, [Waiter(3, false)], {}, {});
    assert es[1..][1..][1..] == es[3..] && es[3..][1..][1..] == es[5..] && es[5..][1..] == [];
    assert Run(s5, es[5..]) == s6 && Legal(s5, es[5..]);
    assert Run(s3, es[3..]) == s6 && Legal(s3, es[3..]);
  }

  // ---- the mutex object ----

  datatype Status = Acquired | TimedOut | Blocked

  class Lock {
    var count: int
    var holder: Option<nat>
    var queue: seq<Waiter>
    ghost var granted: set<nat>
    ghost var late: set<nat>

    ghost function View(): (s: State)
      reads this
    {
      State(count, holder, queue, granted, late)
    }

    constructor ()
      ensures View() == INITIAL && Inv(View())
    {
      count, holder, queue, granted, late := 0, None, [], {}, {};
    }

    // mutex_acquire_timeout up to the point where it returns or switches away.
    method AcquireTimeout(t: nat, timeout: Timeout) returns (r: Status)
      requires Inv(View()) && Outside(View(), t)
      modifies this
      ensures Inv(View()) && View() == Apply(old(View()), Acquire(t, timeout))
      ensures r == Acquired <==> old(count) == 0
      ensures r == TimedOut <==> old(count) > 0 && timeout == Zero
      ensures r == Blocked <==> old(count) > 0 && timeout != Zero
      ensures r == Acquired ==> count == 1 && holder == Some(t) && granted == {t} && queue == old(queue)
      ensures r == TimedOut ==> View() == old(View())
      ensures r == Blocked ==> count == old(count) + 1 && holder == old(holder) && granted == old(granted)
      ensures r == Blocked ==> queue == old(queue) + [Waiter(t, timeout == Finite)]
    {
      AcquireInv(View(), t, timeout);
      count := count + 1;
      if count > 1 {
        if timeout == Zero {
          count := count - 1;
          return TimedOut;
        }
        queue := queue + [Waiter(t, timeout == Finite)];
        return Blocked;
      }
      holder, granted := Some(t), granted + {t};
      return Acquired;
    }

    // The rest of mutex_acquire_timeout, when a blocked thread runs again.
    // timedOut is what wait_queue_block left in the thread's wait_queue_block_ret.
    method AfterBlock(t: nat, timedOut: bool) returns (r: Status)
      requires Inv(View()) && Enabled(View(), Resume(t)) && timedOut == (t in late)
      modifies this
      ensures Inv(View()) && View() == Apply(old(View()), Resume(t))
      ensures r == (if t in old(late) then TimedOut else Acquired) && queue == old(queue) && granted == old(granted)
      ensures r == Acquired ==> holder == Some(t) && count == old(count)
      ensures r == TimedOut ==> holder == old(holder) && count == old(count) - 1
    {
      ResumeInv(View(), t);
      if timedOut {
        count, late := count - 1, late - {t};
        return TimedOut;
      }
      holder := Some(t);
      return Acquired;
    }

    method ReleaseBy(t: nat)
      requires Inv(View()) && holder == Some(t)
      modifies this
      ensures Inv(View()) && View() == Apply(old(View()), Release(t))
      ensures holder == None && count == old(count) - 1
      ensures if count >= 1 && old(queue) != [] then queue == old(queue)[1..] && granted == {old(queue)[0].t}
              else queue == old(queue) && granted == {}
    {
      ReleaseInv(View(), t);
      Only(granted, t);
      holder, granted := None, granted - {t};
      count := count - 1;
      if count >= 1 && queue != [] {
        queue, granted := queue[1..], granted + {queue[0].t};
      }
    }

    // wait_queue_timeout_handler for thread t.
    method TimeoutHandler(t: nat)
      requires Inv(View())
      modifies this
      ensures Inv(View()) && View() == Apply(old(View()), Fire(t))
    {
      FireInv(View(), t);
      if HasTimer(queue, t) {
        queue, late := Without(queue, t), late + {t};
      }
    }
  }
}
