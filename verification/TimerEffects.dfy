/** What setting, cancelling and ticking do to each single timer of kernel/timer.c. */
module TimerEffects {
  import opened Lists
  import opened Options
  import opened Timer

  // How a timer stands: not set, or set with this deadline and period.
  function Standing(s: State, x: nat): (r: Option<Timer>) {
    if x in s.queue && x in s.timers then Some(s.timers[x]) else None
  }

  // ---- callbacks ----

  // What one call makes of timer x.
  function Told(a: Action, x: nat, st: Option<Timer>): (r: Option<Timer>) {
    if a.t != x then st
    else
      match a
      case Cancel(_) => None
      case Arm(_, deadline, period) => Some(Timer(deadline, period))
  }

  function AllTold(acts: seq<Action>, x: nat, st: Option<Timer>): (r: Option<Timer>)
    decreases |acts|
  {
    if acts == [] then st else Told(acts[|acts| - 1], x, AllTold(acts[..|acts| - 1], x, st))
  }

  predicate Names(acts: seq<Action>, x: nat) {
    exists i :: 0 <= i < |acts| && acts[i].t == x
  }

  lemma QueuedIsSet(s: State, w: Window, now: nat, x: nat)
    requires Good(s, w, now) && x in s.queue
    ensures x in s.timers && Near(w, now, s.timers[x].deadline) && s.timers[x].period < w.ahead
  {
  }

  // timer_set leaves its timer set so and timer_cancel leaves it unset with no period; no other timer changes.
  lemma DoIs(s: State, w: Window, now: nat, a: Action, x: nat)
    requires Good(s, w, now) && ActionOk(w, now, a)
    ensures var r := Do(s, w, now, a);
      && Standing(r, x) == Told(a, x, Standing(s, x))
      && (x != a.t ==> (x in r.timers <==> x in s.timers) && (x in s.timers ==> r.timers[x] == s.timers[x]))
      && (a.Cancel? && a.t in s.timers ==> a.t in r.timers && r.timers[a.t] == s.timers[a.t].(period := 0))
  {
    UnqueuedGood(s, w, now, a.t);
    var u := Unqueued(s, a.t);
    if a.Arm? { InsertedMembers(u, w, now, a.t, a.deadline, a.period, x); }
  }

  lemma {:induction false} DoAllIs(s: State, w: Window, now: nat, acts: seq<Action>, x: nat)
    requires Good(s, w, now) && forall i | 0 <= i < |acts| :: ActionOk(w, now, acts[i])
    ensures var r := DoAll(s, w, now, acts);
      && Standing(r, x) == AllTold(acts, x, Standing(s, x))
      && (!Names(acts, x) ==>
        Standing(r, x) == Standing(s, x) && (x in s.timers ==> x in r.timers && r.timers[x] == s.timers[x]))
    decreases |acts|
  {
    hide Good, ActionOk, Do;
    if acts != [] {
      var n := |acts| - 1;
      DoAllIs(s, w, now, acts[..n], x);
      DoIs(DoAll(s, w, now, acts[..n]), w, now, acts[n], x);
      if Names(acts[..n], x) {
        var i :| 0 <= i < n && acts[..n][i].t == x;
        assert acts[i].t == x;
      }
    }
  }

  // After a callback that names x, x is set, or it has no period.
  lemma {:induction false} NamedIs(s: State, w: Window, now: nat, acts: seq<Action>, x: nat)
    requires Good(s, w, now) && (forall i | 0 <= i < |acts| :: ActionOk(w, now, acts[i])) && Names(acts, x)
    requires x in s.timers
    ensures var r := DoAll(s, w, now, acts); x in r.timers && (x in r.queue || r.timers[x].period == 0)
    decreases |acts|
  {
    hide Good, ActionOk, Do;
    var n := |acts| - 1;
    var s1 := DoAll(s, w, now, acts[..n]);
    DoAllIs(s, w, now, acts[..n], x);
    if acts[n].t == x {
      LastIs(s1, w, now, acts[n]);
      DoAllTimers(s, w, now, acts[..n], x);
    } else {
      var i :| 0 <= i < |acts| && acts[i].t == x;
      assert acts[..n][i].t == x;
      NamedIs(s, w, now, acts[..n], x);
    }
    DoIs(s1, w, now, acts[n], x);
  }

  lemma LastIs(s: State, w: Window, now: nat, a: Action)
    requires Good(s, w, now) && ActionOk(w, now, a)
    ensures a.t in s.timers || a.Arm? ==> a.t in Do(s, w, now, a).timers
    ensures a.Arm? ==> a.t in Do(s, w, now, a).queue
  {
    DoIs(s, w, now, a, a.t);
  }

  lemma {:induction false} DoAllTimers(s: State, w: Window, now: nat, acts: seq<Action>, x: nat)
    requires Good(s, w, now) && (forall i | 0 <= i < |acts| :: ActionOk(w, now, acts[i])) && x in s.timers
    ensures x in DoAll(s, w, now, acts).timers
    decreases |acts|
  {
    hide Good, ActionOk, Do;
    if acts != [] {
      var n := |acts| - 1;
      DoAllTimers(s, w, now, acts[..n], x);
      DoIs(DoAll(s, w, now, acts[..n]), w, now, acts[n], x);
      LastIs(DoAll(s, w, now, acts[..n]), w, now, acts[n]);
    }
  }

  // ---- one turn of the tick ----

  // When a periodic timer that was due at d is due next.
  function Again(now: nat, d: nat, p: nat): (r: nat)
    requires now < U32 && d < U32 && p < U32
    ensures r < U32
  {
    var next := (d + p) % U32;
    if TimeLt(next, now) then (now + p) % U32 else next
  }

  // The head fires: periodic, it is set again a period on, or a period from now if that is past; else it is unset;
  // unless its callback sets or cancels it. Every other timer is left to what the callback does to it.
  lemma FiredIs(s: State, w: Window, now: nat, acts: seq<Action>, x: nat)
    requires Good(s, w, now) && IsDue(s, w, now) && forall i | 0 <= i < |acts| :: ActionOk(w, now, acts[i])
    ensures var r, t := Fired(s, w, now, acts), s.queue[0];
      var d, p := s.timers[t].deadline, s.timers[t].period;
      Standing(r, x) ==
        if x != t then AllTold(acts, x, Standing(s, x))
        else if Names(acts, t) then AllTold(acts, t, None)
        else if p > 0 then Some(Timer(Again(now, d, p), p))
        else None
  {
    hide DoAll, AllTold;
    var t := s.queue[0];
    var s1, th := Deleted(s, 0), s.timers[t];
    DeletedGood(s, w, now, 0);
    HeadIsFirst(s, w, now);
    HeadIsDue(s, w, now);
    CutIs(s.queue, 0);
    assert s.queue[0] in s.queue;
    QueuedIsSet(s, w, now, t);
    assert Standing(s1, x) == if x == t then None else Standing(s, x);
    var u := DoAll(s1, w, now, acts);
    DoAllIs(s1, w, now, acts, x);
    DoAllIs(s1, w, now, acts, t);
    DoAllKeeps(s1, w, now, acts, t, th, Late(s.timers, now, t));
    if Names(acts, t) { NamedIs(s1, w, now, acts, t); }
    if th.period > 0 && t !in u.queue && u.timers[t].period > 0 {
      InsertedMembers(u, w, now, t, Next(w, now, th), th.period, x);
      NextAgain(w, now, th);
    }
  }

  lemma NextAgain(w: Window, now: nat, th: Timer)
    requires WindowOk(w) && now < U32 && th.deadline < U32 && th.period < w.ahead
    ensures Next(w, now, th) == Again(now, th.deadline, th.period)
  {
    PlusMod(th.deadline, th.period);
    PlusMod(now, th.period);
  }

  lemma PlusMod(t: nat, d: nat)
    requires t < U32 && d < U32
    ensures Plus(t, d) == (t + d) % U32
  {
  }

  // ---- the whole tick ----

  lemma {:induction false} NotTold(acts: seq<Action>, x: nat, st: Option<Timer>)
    requires !Names(acts, x)
    ensures AllTold(acts, x, st) == st
    decreases |acts|
  {
    if acts != [] {
      var n := |acts| - 1;
      assert acts[n].t != x;
      assert forall i | 0 <= i < n :: acts[..n][i] == acts[i];
      NotTold(acts[..n], x, st);
    }
  }

  // A timer after a tick whose callbacks leave it alone: if it was due it is set again for the first time after now
  // among its deadline plus its period and now plus its period, or unset if it has no period.
  function Past(now: nat, st: Option<Timer>): (r: Option<Timer>)
    requires now < U32 && (st.Some? ==> st.value.deadline < U32 && st.value.period < U32)
  {
    if st.None? || TimeLt(now, st.value.deadline) then st
    else if st.value.period == 0 then None
    else Some(Timer(FirstAfter(now, st.value.deadline, st.value.period), st.value.period))
  }

  function FirstAfter(now: nat, d: nat, p: nat): (r: nat)
    requires now < U32 && d < U32 && p < U32
  {
    var next := (d + p) % U32;
    if TimeLt(now, next) then next else (now + p) % U32
  }

  // How often it fires: once if it is due, and again if it is due again just now.
  function Times(now: nat, st: Option<Timer>): (c: nat)
    requires now < U32 && (st.Some? ==> st.value.deadline < U32 && st.value.period < U32)
  {
    if st.None? || TimeLt(now, st.value.deadline) then 0
    else if st.value.period > 0 && (st.value.deadline + st.value.period) % U32 == now then 2
    else 1
  }

  function Count(ts: seq<nat>, x: nat): (c: nat) {
    if ts == [] then 0 else (if ts[0] == x then 1 else 0) + Count(ts[1..], x)
  }

  lemma AgainIs(w: Window, now: nat, d: nat, p: nat)
    requires Near(w, now, d) && Diff(d, now) <= 0 && 0 < p < w.ahead
    ensures var a := Again(now, d, p);
      && (a == now <==> (d + p) % U32 == now) && (a != now ==> TimeLt(now, a) && FirstAfter(now, d, p) == a)
      && (a == now ==> FirstAfter(now, d, p) == (now + p) % U32)
  {
  }

  lemma PeriodOn(w: Window, now: nat, p: nat)
    requires WindowOk(w) && now < U32 && 0 < p < w.ahead
    ensures !TimeLt(now, now) && FirstAfter(now, now, p) == (now + p) % U32 != now
  {
  }

  lemma StandingNear(s: State, w: Window, now: nat, x: nat)
    requires Good(s, w, now) && Standing(s, x).Some?
    ensures var th := Standing(s, x).value;
      && th.deadline < U32 && th.period < U32 && Near(w, now, th.deadline) && th.period < w.ahead
      && (!IsDue(s, w, now) ==> TimeLt(now, th.deadline))
      && (!TimeLt(now, th.deadline) ==> Diff(th.deadline, now) <= 0)
  {
    QueuedIsSet(s, w, now, x);
    var i :| 0 <= i < |s.queue| && s.queue[i] == x;
    if !IsDue(s, w, now) { AllLater(s, w, now); }
    OrderIs(w, now, s.timers[x].deadline, s.timers[x].deadline);
  }

  // Whatever else happens at a tick, a timer that no callback names fires if and only if it is due, as often as said,
  // and stands afterwards as said; one that is due later is left alone.
  lemma {:induction false} TickIs(s: State, w: Window, now: nat, script: nat -> seq<Action>, n: nat, x: nat)
    requires Good(s, w, now) && ScriptOk(w, now, script) && forall k: nat :: !Names(script(k), x)
    ensures Standing(s, x).Some? ==> Standing(s, x).value.deadline < U32 && Standing(s, x).value.period < U32
    ensures Standing(Ticked(s, w, now, script, n), x) == Past(now, Standing(s, x))
    ensures Count(Called(s, w, now, script, n), x) == Times(now, Standing(s, x))
    decreases Load(s, w, now)
  {
    hide Good, Fired, Load, IsDue, Ticked, Called, Names, AllTold, Again, Diff;
    var st := Standing(s, x);
    if st.Some? { StandingNear(s, w, now, x); }
    TickedNext(s, w, now, script, n);
    if IsDue(s, w, now) {
      var acts := script(n);
      var r := Fired(s, w, now, acts);
      assert forall i | 0 <= i < |acts| :: ActionOk(w, now, acts[i]);
      FiredLighter(s, w, now, acts);
      TickIs(r, w, now, script, n + 1, x);
      HeadStands(s, w, now);
      FiredIs(s, w, now, acts, x);
      NotTold(acts, x, st);
      if x == s.queue[0] { HeadTurn(w, now, st.value); }
    }
  }

  lemma HeadStands(s: State, w: Window, now: nat)
    requires Good(s, w, now) && IsDue(s, w, now)
    ensures var t := s.queue[0];
      t in s.timers && Standing(s, t) == Some(s.timers[t]) && s.timers[t].deadline < U32
      && !TimeLt(now, s.timers[t].deadline)
  {
    assert s.queue[0] in s.queue;
  }

  // What is left of the tick after the head's turn is what the head's own standing says.
  lemma HeadTurn(w: Window, now: nat, th: Timer)
    requires Near(w, now, th.deadline) && Diff(th.deadline, now) <= 0 && th.period < w.ahead
    requires !TimeLt(now, th.deadline)
    ensures th.period > 0 ==>
      var st := Some(Timer(Again(now, th.deadline, th.period), th.period));
      Past(now, st) == Past(now, Some(th)) && Times(now, Some(th)) == 1 + Times(now, st)
    ensures th.period == 0 ==> Past(now, Some(th)) == None && Times(now, Some(th)) == 1
  {
    hide Diff, TimeLt, FirstAfter, Again;
    if th.period > 0 {
      AgainIs(w, now, th.deadline, th.period);
      PeriodOn(w, now, th.period);
    }
  }

  // ---- runs ----

  ghost predicate Touches(e: Event, x: nat) {
    match e
    case Set(t, _, _) => t == x
    case Stop(t) => t == x
    case Tick(script) => exists k: nat :: Names(script(k), x)
    case Pass(_) => false
  }

  // How timer x stands after the event.
  function StandsAfter(now: nat, e: Event, x: nat, st: Option<Timer>): (r: Option<Timer>)
    requires now < U32 && (st.Some? ==> st.value.deadline < U32 && st.value.period < U32)
  {
    match e
    case Set(t, delay, period) =>
      if t == x then Some(Timer((now + if delay == 0 then 1 else delay) % U32, period)) else st
    case Stop(t) => if t == x then None else st
    case Tick(_) => Past(now, st)
    case Pass(_) => st
  }

  // A set, a stop and a tick do to each timer what they say; a tick, to each that no callback names.
  lemma EventIs(v: World, w: Window, e: Event, x: nat)
    requires Kept(v, w) && Fair(v, w, e) && (e.Tick? ==> !Touches(e, x))
    ensures v.now < U32
    ensures Standing(v.s, x).Some? ==> Standing(v.s, x).value.deadline < U32 && Standing(v.s, x).value.period < U32
    ensures Standing(Apply(v, w, e).s, x) == StandsAfter(v.now, e, x, Standing(v.s, x))
  {
    hide Do, Diff, Ticked;
    if Standing(v.s, x).Some? { StandingNear(v.s, w, v.now, x); }
    match e
    case Set(t, delay, period) =>
      NowIsNear(w, v.now);
      SetIsLater(w, v.now, v.now, delay, t, period);
      DoIs(v.s, w, v.now, Arm(t, Plus(v.now, AtLeastOne(delay)), period), x);
    case Stop(t) => DoIs(v.s, w, v.now, Cancel(t), x);
    case Tick(script) => TickIs(v.s, w, v.now, script, 0, x);
    case Pass(_) =>
  }

  lemma NowIsNear(w: Window, now: nat)
    requires WindowOk(w) && now < U32
    ensures Near(w, now, now) && Diff(now, now) == 0
  {
  }

  // In every run a periodic timer that nobody sets or cancels stays set, with its period.
  lemma {:induction false} PeriodicStays(v: World, w: Window, es: seq<Event>, x: nat, p: nat)
    requires Kept(v, w) && Legal(v, w, es) && p > 0 && Standing(v.s, x).Some? && Standing(v.s, x).value.period == p
    requires forall i | 0 <= i < |es| :: !Touches(es[i], x)
    ensures Standing(Run(v, w, es).s, x).Some? && Standing(Run(v, w, es).s, x).value.period == p
    decreases |es|
  {
    hide Kept, Fair, Apply, Standing;
    if es != [] {
      assert !Touches(es[0], x);
      EventIs(v, w, es[0], x);
      hide Touches;
      PeriodicStays(Apply(v, w, es[0]), w, es[1..], x, p);
    }
  }
}
