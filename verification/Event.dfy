/** The event of kernel/event.c: signaled or not, with the threads blocked on it, with and without
    EVENT_FLAG_AUTOUNSIGNAL. */
module Event {
  import opened Lists
  import opened Options
  import opened WaitQueue

  datatype State = State(auto: bool, signaled: bool, q: seq<Waiter>)

  // Nobody waits on a signaled event.
  predicate Inv(s: State) {
    Distinct(s.q) && (s.signaled ==> s.q == [])
  }

  datatype Step = Wait(t: nat, timeout: Timeout) | Signal | Unsignal | Expire(t: nat)

  // A thread waits on one queue at a time.
  predicate Enabled(s: State, e: Step) {
    e.Wait? ==> !Waits(s.q, e.t)
  }

  function Apply(s: State, e: Step): (r: State)
    requires Inv(s) && Enabled(s, e)
    ensures r.auto == s.auto && Inv(r)
  {
    StepKeeps(s, e);
    match e
    case Wait(t, timeout) =>
      if s.signaled then s.(signaled := !s.auto)
      else if timeout == Zero then s
      else s.(q := s.q + [Waiter(t, timeout == Finite)])
    case Signal =>
      if s.signaled then s
      else if !s.auto then s.(signaled := true, q := [])
      else if s.q == [] then s.(signaled := true)
      else s.(q := s.q[1..])
    case Unsignal => s.(signaled := false)
    case Expire(t) => if HasTimer(s.q, t) then s.(q := Without(s.q, t)) else s
  }

  // Joining the queue and leaving it keep each thread on it once.
  lemma StepKeeps(s: State, e: Step)
    requires Inv(s) && Enabled(s, e)
    ensures e.Wait? ==> Distinct(s.q + [Waiter(e.t, e.timeout == Finite)])
    ensures e.Expire? && HasTimer(s.q, e.t) ==> Distinct(Without(s.q, e.t)) && s.q != []
  {
    if e.Wait? { NotWaiting(s.q, e.t); }
    if e.Expire? && HasTimer(s.q, e.t) {
      var i :| 0 <= i < |s.q| && s.q[i] == Waiter(e.t, true);
      assert Waits(s.q, e.t);
      WithoutOne(s.q, e.t);
    }
  }

  // The threads that a step lets go on because of a signal.
  function Released(s: State, e: Step): (ts: seq<nat>) {
    match e
    case Wait(t, _) => if s.signaled then [t] else []
    case Signal =>
      if s.signaled || s.q == [] then []
      else if s.auto then [s.q[0].t]
      else Threads(s.q)
    case _ => []
  }

  ghost predicate Legal(s: State, es: seq<Step>)
    requires Inv(s)
    decreases |es|
  {
    es == [] || (Enabled(s, es[0]) && Legal(Apply(s, es[0]), es[1..]))
  }

  ghost function Run(s: State, es: seq<Step>): (r: State)
    requires Inv(s) && Legal(s, es)
    ensures Inv(r) && r.auto == s.auto
    decreases |es|
  {
    if es == [] then s else Run(Apply(s, es[0]), es[1..])
  }

  function Token(s: State): (n: nat) {
    if s.signaled then 1 else 0
  }

  // Signals that found the event unsignaled, threads released, and signals cleared before anyone came.
  ghost function Given(s: State, es: seq<Step>): (n: nat)
    requires Inv(s) && Legal(s, es)
    decreases |es|
  {
    if es == [] then 0
    else (if es[0].Signal? && !s.signaled then 1 else 0) + Given(Apply(s, es[0]), es[1..])
  }

  ghost function Passed(s: State, es: seq<Step>): (n: nat)
    requires Inv(s) && Legal(s, es)
    decreases |es|
  {
    if es == [] then 0 else |Released(s, es[0])| + Passed(Apply(s, es[0]), es[1..])
  }

  ghost function Cleared(s: State, es: seq<Step>): (n: nat)
    requires Inv(s) && Legal(s, es)
    decreases |es|
  {
    if es == [] then 0
    else (if es[0].Unsignal? && s.signaled then 1 else 0) + Cleared(Apply(s, es[0]), es[1..])
  }

  // With the flag every signal given releases one thread, is still there, or was cleared: none releases two.
  lemma {:induction false} OneForEach(s: State, es: seq<Step>)
    requires Inv(s) && Legal(s, es) && s.auto
    ensures Token(s) + Given(s, es) == Passed(s, es) + Cleared(s, es) + Token(Run(s, es))
    decreases |es|
  {
    hide Inv;
    if es != [] { OneForEach(Apply(s, es[0]), es[1..]); }
  }

  // The threads that are to pass: those that find the event signaled or are ready to wait.
  function Comer(s: State, e: Step): (ts: seq<nat>) {
    if e.Wait? && (s.signaled || e.timeout != Zero) then [e.t] else []
  }

  ghost function Comers(s: State, es: seq<Step>): (ts: seq<nat>)
    requires Inv(s) && Legal(s, es)
    decreases |es|
  {
    if es == [] then [] else Comer(s, es[0]) + Comers(Apply(s, es[0]), es[1..])
  }

  ghost function AllReleased(s: State, es: seq<Step>): (ts: seq<nat>)
    requires Inv(s) && Legal(s, es)
    decreases |es|
  {
    if es == [] then [] else Released(s, es[0]) + AllReleased(Apply(s, es[0]), es[1..])
  }

  lemma StepInOrder(s: State, e: Step)
    requires Inv(s) && Enabled(s, e) && !e.Expire?
    ensures Threads(s.q) + Comer(s, e) == Released(s, e) + Threads(Apply(s, e).q)
  {
    if e.Signal? && s.q != [] {
      assert Threads(s.q) == [s.q[0].t] + Threads(s.q[1..]);
      assert Threads([]) == [];
    }
  }

  // As long as no wait times out, threads are released in the order in which they came, and none is lost.
  lemma {:induction false} ReleasedInOrder(s: State, es: seq<Step>)
    requires Inv(s) && Legal(s, es) && forall e | e in es :: !e.Expire?
    ensures Threads(s.q) + Comers(s, es) == AllReleased(s, es) + Threads(Run(s, es).q)
    decreases |es|
  {
    hide Inv, Apply, Released, Threads, Comer, Enabled;
    if es == [] {
      assert Threads(s.q) + [] == [] + Threads(s.q);
    } else {
      var e, r := es[0], Apply(s, es[0]);
      assert e in es;
      StepInOrder(s, e);
      ReleasedInOrder(r, es[1..]);
      Chain(Threads(s.q), Comer(s, e), Released(s, e), Threads(r.q), Comers(r, es[1..]), AllReleased(r, es[1..]),
            Threads(Run(r, es[1..]).q));
    }
  }

  // A signal leaves the event signaled unless an automatic one passes it on to a thread; only a wait on an automatic
  // event and a clearing take it away.
  lemma SignaledIs(s: State, e: Step)
    requires Inv(s) && Enabled(s, e)
    ensures Apply(s, e).signaled <==>
      match e
      case Signal => s.signaled || !s.auto || s.q == []
      case Wait(_, _) => s.signaled && !s.auto
      case Unsignal => false
      case Expire(_) => s.signaled
  {
  }

  // A wait that times out takes its own thread off the queue and no other.
  lemma ExpiredLeaves(s: State, t: nat, w: Waiter)
    requires Inv(s)
    ensures w in Apply(s, Expire(t)).q <==> w in s.q && (w.t == t ==> !w.timed)
    ensures Apply(s, Expire(t)).signaled == s.signaled
  {
    if HasTimer(s.q, t) {
      var i :| 0 <= i < |s.q| && s.q[i] == Waiter(t, true);
      assert Waits(s.q, t);
      WithoutOne(s.q, t);
    }
  }

  // Without it a signal opens the gate: until it is cleared everyone passes and nobody waits.
  lemma {:induction false} GateOpen(s: State, es: seq<Step>)
    requires Inv(s) && Legal(s, es) && !s.auto && s.signaled && Unsignal !in es
    ensures Run(s, es).signaled && Run(s, es).q == []
    decreases |es|
  {
    if es != [] {
      assert es[0] in es;
      GateOpen(Apply(s, es[0]), es[1..]);
    }
  }

  datatype Outcome = Went | TimedOut | Blocked

  class EventObject {
    const auto: bool
    var signaled: bool
    var q: seq<Waiter>

    function View(): (s: State)
      reads this
    {
      State(auto, signaled, q)
    }

    ghost predicate Valid()
      reads this
    {
      Inv(View())
    }

    // event_init
    constructor (initial: bool, flag: bool)
      ensures Valid() && View() == State(flag, initial, [])
    {
      auto, signaled, q := flag, initial, [];
    }

    // event_wait_timeout up to its return or its switch to another thread.
    method EventWaitTimeout(t: nat, timeout: Timeout) returns (o: Outcome)
      requires Valid() && !Waits(q, t)
      modifies this
      ensures View() == Apply(old(View()), Wait(t, timeout)) && Valid()
      ensures o == Went <==> old(signaled)
      ensures o == TimedOut <==> !old(signaled) && timeout == Zero
      ensures signaled == (old(signaled) && !auto)
      ensures q == if o == Blocked then old(q) + [Waiter(t, timeout == Finite)] else old(q)
    {
      if signaled {
        if auto { signaled := false; }
        return Went;
      }
      if timeout == Zero { return TimedOut; }
      q := q + [Waiter(t, timeout == Finite)];
      o := Blocked;
    }

    // event_signal; the threads it releases, first come first.
    method EventSignal() returns (woken: seq<nat>)
      requires Valid()
      modifies this
      ensures View() == Apply(old(View()), Signal) && woken == Released(old(View()), Signal) && Valid()
    {
      woken := [];
      if !signaled {
        if auto {
          if q == [] {
            signaled := true;
          } else {
            woken := [q[0].t];
            q := q[1..];
          }
        } else {
          signaled := true;
          while q != []
            invariant woken + Threads(q) == Threads(old(q)) && signaled
            decreases |q|
          {
            assert Threads(q) == [q[0].t] + Threads(q[1..]);
            woken := woken + [q[0].t];
            q := q[1..];
          }
          assert woken == woken + Threads([]);
        }
      }
    }

    method EventUnsignal()
      requires Valid()
      modifies `signaled
      ensures View() == Apply(old(View()), Unsignal) && Valid()
    {
      signaled := false;
    }

    // wait_queue_timeout_handler
    method TimeoutHandler(t: nat)
      requires Valid()
      modifies `q
      ensures View() == Apply(old(View()), Expire(t)) && Valid()
    {
      if HasTimer(q, t) { q := Without(q, t); }
    }
  }
}
