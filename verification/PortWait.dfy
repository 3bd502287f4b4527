/** The threads blocked on one read port of kernel/port.c: who is woken for the packets that arrive. */
module PortWait {
  import opened Lists
  import opened Options

  // n packets wait in a ring of cap. A thread that was woken reads again when it next runs.
  datatype State = State(cap: nat, n: nat, waiters: seq<nat>, awake: set<nat>)

  datatype Step =
    | Write(count: nat)
    | Read(t: nat, timeout: bool)
    | Again(t: nat)
    | TimeOut(t: nat)

  predicate Inv(s: State) {
    s.n <= s.cap && NoDups(s.waiters) && forall t | t in s.waiters :: t !in s.awake
  }

  predicate Enabled(s: State, e: Step) {
    match e
    case Write(_) => true
    case Read(t, _) => t !in s.waiters && t !in s.awake
    case Again(t) => t in s.awake
    case TimeOut(t) => t in s.waiters
  }

  // read_no_lock: a packet, or the end of the queue.
  function Served(s: State, t: nat, block: bool): (r: State) {
    if s.n > 0 then s.(n := s.n - 1)
    else if block then s.(waiters := s.waiters + [t])
    else s
  }

  function Apply(s: State, e: Step): (r: State)
    requires Inv(s) && Enabled(s, e)
    ensures Inv(r)
  {
    match e
    case Write(count) =>
      if s.cap - s.n < count then s
      else if s.waiters == [] then s.(n := s.n + count)
      else
        CutIs(s.waiters, 0);
        s.(n := s.n + count, waiters := Cut(s.waiters, 0), awake := s.awake + {s.waiters[0]})
    case Read(t, timeout) => Served(s, t, timeout)
    case Again(t) => Served(s.(awake := s.awake - {t}), t, true)
    case TimeOut(t) =>
      CutIs(s.waiters, Index(s.waiters, t));
      s.(waiters := Cut(s.waiters, Index(s.waiters, t)))
  }

  predicate Legal(s: State, es: seq<Step>)
    requires Inv(s)
    decreases |es|
  {
    es == [] || (Enabled(s, es[0]) && Legal(Apply(s, es[0]), es[1..]))
  }

  function Run(s: State, es: seq<Step>): (r: State)
    requires Inv(s) && Legal(s, es)
    ensures Inv(r)
    decreases |es|
  {
    if es == [] then s else Run(Apply(s, es[0]), es[1..])
  }

  // While anyone is blocked there is a woken thread for every packet.
  predicate Claimed(s: State) {
    s.waiters == [] || s.n <= |s.awake|
  }

  // port_write wakes one thread for the whole batch, so it is exactly the batches longer than the threads woken that
  // leave a packet unclaimed beside a blocked reader.
  lemma StepClaimed(s: State, e: Step)
    requires Inv(s) && Enabled(s, e) && Claimed(s)
    ensures Claimed(Apply(s, e)) <==>
            !(e.Write? && e.count <= s.cap - s.n && |s.waiters| > 1 && s.n + e.count > |s.awake| + 1)
  {
    if e.Write? && e.count <= s.cap - s.n && s.waiters != [] {
      assert s.waiters[0] in s.waiters;
      assert |s.awake + {s.waiters[0]}| == |s.awake| + 1;
    }
    if e.Again? { assert |s.awake - {e.t}| == |s.awake| - 1; }
  }

  // With single packets every run keeps every packet claimed.
  lemma {:induction false} SinglesClaimed(s: State, es: seq<Step>)
    requires Inv(s) && Legal(s, es) && Claimed(s) && forall e | e in es && e.Write? :: e.count <= 1
    ensures Claimed(Run(s, es))
    decreases |es|
  {
    hide Inv, Apply, Enabled;
    if es != [] {
      assert es[0] in es;
      ZeroWrite(s, es[0]);
      SinglesClaimed(Apply(s, es[0]), es[1..]);
    }
  }

  lemma ZeroWrite(s: State, e: Step)
    requires Inv(s) && Enabled(s, e) && Claimed(s) && (e.Write? ==> e.count <= 1)
    ensures Claimed(Apply(s, e))
  {
    StepClaimed(s, e);
  }

  // Two readers wait and a batch of two comes: one is woken and reads, the other stays blocked beside the second
  // packet.
  lemma Stranded(cap: nat)
    requires cap >= 2
    ensures var s, es := State(cap, 0, [], {}), [Read(1, true), Read(2, true), Write(2), Again(1)];
      Legal(s, es) && Run(s, es) == State(cap, 1, [2], {})
  {
    var es := [Read(1, true), Read(2, true), Write(2), Again(1)];
    var s := State(cap, 0, [], {});
    var s1, s2, s3, s4 := State(cap, 0, [1], {}), State(cap, 0, [1, 2], {}), State(cap, 2, [2], {1}),
      State(cap, 1, [2], {});
    assert Apply(s, es[0]) == s1 && Apply(s1, es[1]) == s2 && Apply(s2, es[2]) == s3 && Apply(s3, es[3]) == s4;
    assert es[1..] == [es[1], es[2], es[3]] && es[1..][1..] == [es[2], es[3]] && es[1..][1..][1..] == [es[3]] &&
      [es[3]][1..] == [];
    assert Legal(s4, []) && Legal(s3, [es[3]]) && Legal(s2, es[1..][1..]) && Legal(s1, es[1..]);
    assert Run(s3, [es[3]]) == s4 && Run(s2, es[1..][1..]) == s4 && Run(s1, es[1..]) == s4;
  }

  class ReadPort {
    const cap: nat
    var n: nat
    var waiters: seq<nat>
    ghost var awake: set<nat>

    ghost function View(): (s: State)
      reads this
    {
      State(cap, n, waiters, awake)
    }

    constructor (size: nat)
      ensures Inv(View()) && View() == State(size, 0, [], {})
    {
      cap, n, waiters, awake := size, 0, [], {};
    }

    // What port_write does for one read port.
    method Deliver(count: nat) returns (taken: bool)
      requires Inv(View())
      modifies this
      ensures View() == Apply(old(View()), Write(count)) && taken == (count <= cap - old(n))
    {
      if cap - n < count { return false; }
      n := n + count;
      if waiters != [] {
        awake := awake + {waiters[0]};
        waiters := Cut(waiters, 0);
      }
      taken := true;
    }

    // port_read up to its return or its switch to another thread.
    method PortRead(t: nat, timeout: bool) returns (got: bool)
      requires Inv(View()) && Enabled(View(), Read(t, timeout))
      modifies this
      ensures View() == Apply(old(View()), Read(t, timeout)) && got == (old(n) > 0)
    {
      got := ReadNoLock(t, timeout);
    }

    // What it does when it runs again after being woken.
    method AfterWake(t: nat) returns (got: bool)
      requires Inv(View()) && t in awake
      modifies this
      ensures View() == Apply(old(View()), Again(t)) && got == (old(n) > 0)
    {
      awake := awake - {t};
      got := ReadNoLock(t, true);
    }

    method ReadNoLock(t: nat, block: bool) returns (got: bool)
      modifies `n, `waiters
      ensures View() == Served(old(View()), t, block) && got == (old(n) > 0)
    {
      if n > 0 {
        n := n - 1;
        return true;
      }
      if block { waiters := waiters + [t]; }
      got := false;
    }

    method TimeoutHandler(t: nat)
      requires Inv(View()) && t in waiters
      modifies `waiters
      ensures View() == Apply(old(View()), TimeOut(t))
    {
      waiters := Cut(waiters, Index(waiters, t));
    }
  }
}
