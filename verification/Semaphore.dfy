/** kernel/semaphore.c over the wait queue of kernel/thread.c, one step per critical section. */
module Semaphore {
  import opened Lists
  import opened Options
  import opened WaitQueue

  // count and queue are the semaphore's fields. late holds the waiters that timed out and have not run again.
  // tokens is the initial value plus the posts so far, grants the waits that were given one.
  datatype State = State(count: int, queue: seq<Waiter>, late: set<nat>, tokens: nat, grants: nat)

  function Initial(value: nat): (s: State)
    ensures Inv(s)
  {
    State(value, [], {}, value, 0)
  }

  datatype Step =
    | Post
    | Wait(t: nat, timeout: Timeout)   // sem_wait is sem_timedwait with INFINITE_TIME
    | TryWait(t: nat)
    | Fire(t: nat)                     // the timeout callback of t runs
    | Resume(t: nat)                   // a timed-out t runs again

  predicate Enabled(s: State, e: Step) {
    match e
    case Post => true
    case Wait(t, _) => !Waits(s.queue, t) && t !in s.late
    case TryWait(t) => !Waits(s.queue, t) && t !in s.late
    case Fire(t) => true
    case Resume(t) => t in s.late
  }

  function Apply(s: State, e: Step): (r: State) {
    match e
    case Post =>
      var r := s.(count := s.count + 1, tokens := s.tokens + 1);
      if r.count <= 0 && r.queue != [] then r.(queue := r.queue[1..], grants := r.grants + 1) else r
    case Wait(t, timeout) =>
      if s.count - 1 < 0 then
        if timeout == Zero then s
        else s.(count := s.count - 1, queue := s.queue + [Waiter(t, timeout == Finite)])
      else s.(count := s.count - 1, grants := s.grants + 1)
    case TryWait(t) =>
      if s.count <= 0 then s else s.(count := s.count - 1, grants := s.grants + 1)
    case Fire(t) =>
      if HasTimer(s.queue, t) then s.(queue := Without(s.queue, t), late := s.late + {t}) else s
    case Resume(t) => s.(count := s.count + 1, late := s.late - {t})
  }

  // No token is made or lost, and none is handed out twice.
  predicate Inv(s: State) {
    && s.count == s.tokens - s.grants - |s.queue| - |s.late|
    && s.grants <= s.tokens
    && Distinct(s.queue)
    && (forall i | 0 <= i < |s.queue| :: s.queue[i].t !in s.late)
  }

  lemma WaitInv(s: State, t: nat, timeout: Timeout)
    requires Inv(s) && Enabled(s, Wait(t, timeout))
    ensures Inv(Apply(s, Wait(t, timeout)))
  {
    NotWaiting(s.queue, t);
  }

  lemma FireInv(s: State, t: nat)
    requires Inv(s)
    ensures Inv(Apply(s, Fire(t)))
  {
    if HasTimer(s.queue, t) { WithoutOne(s.queue, t); }
  }

  lemma StepInv(s: State, e: Step)
    requires Inv(s) && Enabled(s, e)
    ensures Inv(Apply(s, e))
  {
    match e
    case Wait(t, timeout) => WaitInv(s, t, timeout);
    case Fire(t) => FireInv(s, t);
    case _ =>
  }

  // ---- runs ----

  function Run(s: State, es: seq<Step>): (r: State)
    decreases |es|
  {
    if es == [] then s else Run(Apply(s, es[0]), es[1..])
  }

  predicate Legal(s: State, es: seq<Step>)
    decreases |es|
  {
    es == [] || (Enabled(s, es[0]) && Legal(Apply(s, es[0]), es[1..]))
  }

  function Posts(es: seq<Step>): (n: nat) {
    if es == [] then 0 else (if es[0].Post? then 1 else 0) + Posts(es[1..])
  }

  lemma {:induction false} RunInv(s: State, es: seq<Step>)
    requires Inv(s) && Legal(s, es)
    ensures Inv(Run(s, es)) && Run(s, es).tokens == s.tokens + Posts(es)
    decreases |es|
  {
    if es != [] {
      StepInv(s, es[0]);
      RunInv(Apply(s, es[0]), es[1..]);
    }
  }

  // Every run keeps count = initial + posts - grants - blocked - timed out, and never grants more than was posted.
  lemma {:induction false} TokensConserved(value: nat, es: seq<Step>)
    requires Legal(Initial(value), es)
    ensures var s := Run(Initial(value), es);
      && s.count == value + Posts(es) - s.grants - |s.queue| - |s.late|
      && s.grants <= value + Posts(es)
  {
    RunInv(Initial(value), es);
  }

  // ---- waiters passed over ----

  predicate Untimed(es: seq<Step>) {
    forall i | 0 <= i < |es| :: es[i].Wait? ==> es[i].timeout != Finite
  }

  predicate Prompt(s: State) {
    && s.late == {} && (forall i | 0 <= i < |s.queue| :: !s.queue[i].timed)
    && |s.queue| == if s.count < 0 then -s.count else 0
  }

  lemma StepPrompt(s: State, e: Step)
    requires Inv(s) && Prompt(s) && Enabled(s, e) && (e.Wait? ==> e.timeout != Finite)
    ensures Inv(Apply(s, e)) && Prompt(Apply(s, e))
  {
    StepInv(s, e);
  }

  // With timeouts of 0 or INFINITE_TIME only, exactly max(0, -count) threads are blocked.
  lemma {:induction false} BlockedIsDeficit(s: State, es: seq<Step>)
    requires Inv(s) && Prompt(s) && Legal(s, es) && Untimed(es)
    ensures Prompt(Run(s, es))
    decreases |es|
  {
    if es != [] {
      StepPrompt(s, es[0]);
      assert Untimed(es[1..]);
      BlockedIsDeficit(Apply(s, es[0]), es[1..]);
    }
  }

  // The threads that are to have a token: those that find one or are ready to wait.
  function Comers(s: State, es: seq<Step>): (ts: seq<nat>)
    decreases |es|
  {
    if es == [] then [] else Comer(s, es[0]) + Comers(Apply(s, es[0]), es[1..])
  }

  function Comer(s: State, e: Step): (ts: seq<nat>) {
    if (e.Wait? && (s.count > 0 || e.timeout != Zero)) || (e.TryWait? && s.count > 0) then [e.t] else []
  }

  lemma StepInOrder(s: State, e: Step) returns (g: seq<nat>)
    requires Inv(s) && Prompt(s) && Enabled(s, e)
    ensures Threads(s.queue) + Comer(s, e) == g + Threads(Apply(s, e).queue) && |g| == Apply(s, e).grants - s.grants
  {
    g :=
      if (e.Wait? || e.TryWait?) && s.count > 0 then [e.t]
      else if e.Post? && s.count < 0 then [s.queue[0].t]
      else [];
    if e.Post? && s.count < 0 { assert Threads(s.queue) == [s.queue[0].t] + Threads(s.queue[1..]); }
  }

  // With timeouts of 0 or INFINITE_TIME only, the threads given a token are the first ones that came.
  lemma {:induction false} GrantedInOrder(s: State, es: seq<Step>) returns (g: seq<nat>)
    requires Inv(s) && Prompt(s) && Legal(s, es) && Untimed(es)
    ensures Threads(s.queue) + Comers(s, es) == g + Threads(Run(s, es).queue)
    ensures |g| == Run(s, es).grants - s.grants
    decreases |es|
  {
    hide Inv, Apply, Prompt, Threads, Enabled, Comer;
    g := [];
    if es != [] {
      var e, r := es[0], Apply(s, es[0]);
      StepPrompt(s, e);
      var first := StepInOrder(s, e);
      assert Untimed(es[1..]);
      var rest := GrantedInOrder(r, es[1..]);
      g := first + rest;
      Chain(Threads(s.queue), Comer(s, e), first, Threads(r.queue), Comers(r, es[1..]), rest,
            Threads(Run(r, es[1..]).queue));
    }
  }

  // Somebody is blocked although a token is there to take.
  predicate Starved(s: State) {
    s.queue != [] && s.grants < s.tokens
  }

  // With finite timeouts that can happen, and this is exactly when: a thread blocks while the shortage it sees
  // is owed to waiters that timed out and have not run yet.
  lemma PassedOver(s: State, e: Step)
    requires Inv(s) && Enabled(s, e) && !Starved(s)
    ensures Starved(Apply(s, e)) <==> e.Wait? && e.timeout != Zero && s.queue == [] && s.count <= 0 < s.count + |s.late|
  {
    if e.Fire? && HasTimer(s.queue, e.t) { WithoutOne(s.queue, e.t); }
  }

  // A run that gets there: the token posted last stays, and thread 3 stays blocked.
  lemma StarvedIsReachable() returns (es: seq<Step>)
    ensures Legal(Initial(0), es) && Starved(Run(Initial(0), es)) && Run(Initial(0), es).late == {}
  {
    es := [Wait(2, Finite), Fire(2), Post, Wait(3, Infinite), Resume(2)];
    var s1 := Apply(Initial(0), es[0]);
    var s2 := Apply(s1, es[1]);
    var s3 := Apply(s2, es[2]);
    var s4 := Apply(s3, es[3]);
    var s5 := Apply(s4, es[4]);
    assert s1 == State(-1, [Waiter(2, true)], {}, 0, 0);
    assert s2 == State(-1, [], {2}, 0, 0) by {
      assert s1.queue[1..] == [] && s1.queue[0] == Waiter(2, true);
    }
    assert s5 == State(0, [Waiter(3, false)], {}, 1, 0);
    assert es[1..][1..] == es[2..] && es[2..][1..][1..] == es[4..] && es[4..][1..] == [];
    assert Run(s4, es[4..]) == s5 && Legal(s4, es[4..]);
    assert Run(s2, es[2..]) == s5 && Legal(s2, es[2..]);
  }

  // ---- the semaphore object ----

  datatype Status = Granted | TimedOut | NotReady | Blocked

  class Sem {
    var count: int
    var queue: seq<Waiter>
    ghost var late: set<nat>
    ghost var tokens: nat
    ghost var grants: nat

    ghost function View(): (s: State)
      reads this
    {
      State(count, queue, late, tokens, grants)
    }

    constructor (value: nat)
      ensures View() == Initial(value)
    {
      count, queue, late, tokens, grants := value, [], {}, value, 0;
    }

    // Returns the number of threads woken.
    method SemPost() returns (woken: nat)
      requires Inv(View())
      modifies this
      ensures Inv(View()) && View() == Apply(old(View()), Post)
      ensures count == old(count) + 1
      ensures if old(count) < 0 && old(queue) != [] then woken == 1 && queue == old(queue)[1..]
              else woken == 0 && queue == old(queue)
    {
      count, tokens := count + 1, tokens + 1;
      if count <= 0 && queue != [] {
        queue, grants := queue[1..], grants + 1;
        return 1;
      }
      return 0;
    }

    // sem_timedwait up to the point where it returns or switches away.
    method TimedWait(t: nat, timeout: Timeout) returns (r: Status)
      requires Inv(View()) && Enabled(View(), Wait(t, timeout))
      modifies this
      ensures Inv(View()) && View() == Apply(old(View()), Wait(t, timeout))
      ensures r == Granted <==> old(count) > 0
      ensures r == TimedOut <==> old(count) <= 0 && timeout == Zero
      ensures r == Blocked <==> old(count) <= 0 && timeout != Zero
      ensures r == TimedOut ==> View() == old(View())
      ensures r == Granted ==> count == old(count) - 1 && queue == old(queue) && grants == old(grants) + 1
      ensures r == Blocked ==> count == old(count) - 1 && queue == old(queue) + [Waiter(t, timeout == Finite)]
    {
      WaitInv(View(), t, timeout);
      count := count - 1;
      if count < 0 {
        if timeout == Zero {
          count := count + 1;
          return TimedOut;
        }
        queue := queue + [Waiter(t, timeout == Finite)];
        return Blocked;
      }
      grants := grants + 1;
      return Granted;
    }

    method TryWaitBy(t: nat) returns (r: Status)
      requires Inv(View()) && Enabled(View(), TryWait(t))
      modifies this
      ensures Inv(View()) && View() == Apply(old(View()), TryWait(t))
      ensures r == if old(count) > 0 then Granted else NotReady
      ensures queue == old(queue) && count == if r == Granted then old(count) - 1 else old(count)
    {
      if count <= 0 { return NotReady; }
      count, grants := count - 1, grants + 1;
      return Granted;
    }

    // The rest of sem_timedwait for a waiter that timed out.
    method AfterTimeout(t: nat)
      requires Inv(View()) && t in late
      modifies this
      ensures Inv(View()) && View() == Apply(old(View()), Resume(t))
      ensures count == old(count) + 1 && queue == old(queue) && late == old(late) - {t}
    {
      count, late := count + 1, late - {t};
    }

    // wait_queue_timeout_handler for thread t.
    method TimeoutHandler(t: nat)
      requires Inv(View())
      modifies this
      ensures Inv(View()) && View() == Apply(old(View()), Fire(t))
    {
      FireInv(View(), t);
      if HasTimer(queue, t) {
        queue, late := Without(queue, t), late + {t};
      }
    }
  }
}
