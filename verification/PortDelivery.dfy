/** One read port of kernel/port.c with its ring and its threads together: the blocked readers of PortWait over the
    rings of Port. */
module PortDelivery {
  import opened Options
  import opened Lists
  import Port
  import PortWait

  datatype Taken = Taken(t: nat, p: Port.Packet)

  // The ports, the threads blocked on the read port, those woken, and what threads got from it so far.
  datatype State = State(s: Port.State, waiters: seq<nat>, awake: set<nat>, got: seq<Taken>)

  // A critical section on the ports other than a read of this one, or a step of a thread that reads it.
  datatype Step = Ports(e: Port.Step) | Reads(w: PortWait.Step)

  ghost predicate Inv(j: State, r: nat) {
    Port.Inv(j.s) && r in j.s.rps && PortWait.Inv(Threads(j, r))
  }

  // The read port as its threads see it: how many packets wait.
  ghost function Threads(j: State, r: nat): (s: PortWait.State)
    requires Port.Inv(j.s) && r in j.s.rps
  {
    PortWait.State(Port.Capacity(j.s, r), |Port.Buffered(j.s, r)|, j.waiters, j.awake)
  }

  ghost predicate Enabled(j: State, r: nat, e: Step)
    requires Inv(j, r)
  {
    match e
    case Ports(x) => Port.Enabled(j.s, x) && x != Port.DoRead(r) && x != Port.DoClose(r)
    case Reads(w) => !w.Write? && PortWait.Enabled(Threads(j, r), w)
  }

  // The batch goes to this read port.
  predicate Aimed(s: Port.State, e: Port.Step, r: nat)
    requires r in s.rps
  {
    e.DoWrite? && e.w == s.rps[r].wport && e.w < |s.wps| && s.wps[e.w].open
  }

  ghost predicate Takes(s: Port.State, e: Port.Step, r: nat)
    requires Port.Inv(s) && r in s.rps
  {
    Aimed(s, e, r) && |Port.Buffered(s, r)| + |e.pk| <= Port.Capacity(s, r)
  }

  function Woken(j: State): (k: State) {
    if j.waiters == [] then j
    else j.(waiters := Cut(j.waiters, 0), awake := j.awake + {j.waiters[0]})
  }

  // read_no_lock
  ghost function Served(j: State, r: nat, t: nat, block: bool): (k: State)
    requires Port.Inv(j.s) && r in j.s.rps
  {
    var q := Port.Buffered(j.s, r);
    if q != [] then j.(s := Port.Apply(j.s, Port.DoRead(r)), got := j.got + [Taken(t, q[0])])
    else if block then j.(waiters := j.waiters + [t])
    else j
  }

  ghost function Next(j: State, r: nat, e: Step): (k: State)
    requires Inv(j, r) && Enabled(j, r, e)
  {
    match e
    case Ports(x) =>
      var k := j.(s := Port.Apply(j.s, x));
      if Takes(j.s, x, r) then Woken(k) else k
    case Reads(Read(t, timeout)) => Served(j, r, t, timeout)
    case Reads(Again(t)) => Served(j.(awake := j.awake - {t}), r, t, true)
    case Reads(TimeOut(t)) => j.(waiters := Cut(j.waiters, Index(j.waiters, t)))
  }

  // What the threads see of a step.
  ghost function Seen(j: State, r: nat, e: Step): (s: PortWait.State)
    requires Inv(j, r) && Enabled(j, r, e)
  {
    match e
    case Ports(x) =>
      if Aimed(j.s, x, r) then PortWait.Apply(Threads(j, r), PortWait.Write(|x.pk|)) else Threads(j, r)
    case Reads(w) => PortWait.Apply(Threads(j, r), w)
  }

  lemma PortsKept(s: Port.State, x: Port.Step, r: nat)
    requires Port.Inv(s) && r in s.rps && Port.Enabled(s, x) && x != Port.DoClose(r) && x != Port.DoRead(r)
    ensures var t := Port.Apply(s, x);
      && r in t.rps && Port.Capacity(t, r) == Port.Capacity(s, r)
      && |Port.Buffered(t, r)| == |Port.Buffered(s, r)| + if Takes(s, x, r) then |x.pk| else 0
  {
    hide Port.Inv, Port.Apply, Port.Enabled, Port.Accepted;
    Port.StepDelivers(s, x, r);
    Port.CapacityKept(s, x, r);
    Port.AcceptedIs(s, x, r);
  }

  lemma ReadKept(s: Port.State, r: nat)
    requires Port.Inv(s) && r in s.rps
    ensures var t, q := Port.Apply(s, Port.DoRead(r)), Port.Buffered(s, r);
      && r in t.rps && Port.Capacity(t, r) == Port.Capacity(s, r)
      && (q != [] ==> q == [q[0]] + Port.Buffered(t, r))
  {
    hide Port.Inv, Port.Apply, Port.Buffered;
    Port.StepDelivers(s, Port.DoRead(r), r);
    Port.CapacityKept(s, Port.DoRead(r), r);
    assert Port.Buffered(s, r) + [] == Port.Buffered(s, r);
  }

  // Every step on the ports and rings is one that the threads' view knows.
  lemma Refines(j: State, r: nat, e: Step)
    requires Inv(j, r) && Enabled(j, r, e)
    ensures Inv(Next(j, r, e), r) && Threads(Next(j, r, e), r) == Seen(j, r, e)
  {
    hide Port.Inv, Port.Apply, Port.Buffered, PortWait.Inv, Index;
    match e
    case Ports(x) =>
      PortsKept(j.s, x, r);
      assert Threads(Next(j, r, e), r) == Seen(j, r, e);
    case Reads(w) =>
      if !w.TimeOut? { ReadKept(j.s, r); }
      assert Threads(Next(j, r, e), r) == Seen(j, r, e);
  }

  ghost predicate Legal(j: State, r: nat, es: seq<Step>)
    requires Inv(j, r)
    decreases |es|
  {
    es == [] || (Enabled(j, r, es[0]) && (Refines(j, r, es[0]); Legal(Next(j, r, es[0]), r, es[1..])))
  }

  ghost function Run(j: State, r: nat, es: seq<Step>): (k: State)
    requires Inv(j, r) && Legal(j, r, es)
    ensures Inv(k, r)
    decreases |es|
  {
    if es == [] then j
    else
      Refines(j, r, es[0]);
      Run(Next(j, r, es[0]), r, es[1..])
  }

  function Packets(got: seq<Taken>): (q: seq<Port.Packet>)
    ensures |q| == |got| && forall i | 0 <= i < |q| :: q[i] == got[i].p
  {
    seq(|got|, i requires 0 <= i < |got| => got[i].p)
  }

  // All the batches that the read port took in a run.
  ghost function Arrived(j: State, r: nat, es: seq<Step>): (q: seq<Port.Packet>)
    requires Inv(j, r) && Legal(j, r, es)
    decreases |es|
  {
    if es == [] then []
    else
      Refines(j, r, es[0]);
      (if es[0].Ports? then Port.Accepted(j.s, es[0].e, r) else []) + Arrived(Next(j, r, es[0]), r, es[1..])
  }

  lemma StepDelivers(j: State, r: nat, e: Step)
    requires Inv(j, r) && Enabled(j, r, e) && Inv(Next(j, r, e), r)
    ensures var k := Next(j, r, e); var a := if e.Ports? then Port.Accepted(j.s, e.e, r) else [];
      Packets(j.got) + Port.Buffered(j.s, r) + a == Packets(k.got) + Port.Buffered(k.s, r)
  {
    hide Port.Inv, Port.Apply, Port.Enabled, Port.Buffered, PortWait.Inv, Index, Port.Accepted;
    match e
    case Ports(x) =>
      Port.StepDelivers(j.s, x, r);
      var p, q, a, k := Packets(j.got), Port.Buffered(j.s, r), Port.Accepted(j.s, x, r), Next(j, r, e);
      assert Port.Returned(j.s, x, r) + Port.Buffered(k.s, r) == Port.Buffered(k.s, r);
      assert p + q + a == p + (q + a);
    case Reads(w) =>
      var k, q := Next(j, r, e), Port.Buffered(j.s, r);
      ReadKept(j.s, r);
      if !w.TimeOut? && q != [] {
        assert Packets(k.got) == Packets(j.got) + [q[0]];
      }
  }

  // In every run the threads get the packets that arrived, each once and in order; the rest wait in the ring.
  lemma {:induction false} Delivered(j: State, r: nat, es: seq<Step>)
    requires Inv(j, r) && Legal(j, r, es)
    ensures var k := Run(j, r, es);
      Packets(j.got) + Port.Buffered(j.s, r) + Arrived(j, r, es) == Packets(k.got) + Port.Buffered(k.s, r)
    decreases |es|
  {
    hide Inv, Enabled, Next, Packets, Port.Inv, Port.Buffered, Port.Accepted;
    InvPorts(j, r);
    if es != [] {
      var k := Next(j, r, es[0]);
      Refines(j, r, es[0]);
      InvPorts(k, r);
      StepDelivers(j, r, es[0]);
      Delivered(k, r, es[1..]);
    }
  }

  lemma InvPorts(j: State, r: nat)
    requires Inv(j, r)
    ensures Port.Inv(j.s) && r in j.s.rps && PortWait.Inv(Threads(j, r))
  {
  }

  predicate Single(e: Step) {
    e.Ports? && e.e.DoWrite? ==> |e.e.pk| <= 1
  }

  // With single packets every run keeps a woken thread for each packet while anyone is blocked.
  lemma {:induction false} RunClaimed(j: State, r: nat, es: seq<Step>)
    requires Inv(j, r) && Legal(j, r, es) && PortWait.Claimed(Threads(j, r)) && forall e | e in es :: Single(e)
    ensures PortWait.Claimed(Threads(Run(j, r, es), r))
    decreases |es|
  {
    hide Next, Port.Inv, Port.Buffered, PortWait.Inv, PortWait.Claimed, PortWait.Apply, Port.Enabled;
    if es != [] {
      var e := es[0];
      assert Single(e);
      Refines(j, r, e);
      if e.Reads? {
        PortWait.ZeroWrite(Threads(j, r), e.w);
      } else if Aimed(j.s, e.e, r) {
        PortWait.ZeroWrite(Threads(j, r), PortWait.Write(|e.e.pk|));
      }
      RunClaimed(Next(j, r, e), r, es[1..]);
    }
  }

  function Agains(ts: seq<nat>): (es: seq<Step>)
    ensures |es| == |ts| && forall i | 0 <= i < |ts| :: es[i] == Reads(PortWait.Again(ts[i]))
  {
    seq(|ts|, i requires 0 <= i < |ts| => Reads(PortWait.Again(ts[i])))
  }

  function Shares(ts: seq<nat>, q: seq<Port.Packet>): (got: seq<Taken>)
    requires |ts| == |q|
    ensures |got| == |ts|
  {
    seq(|ts|, i requires 0 <= i < |ts| => Taken(ts[i], q[i]))
  }

  // As many woken threads as packets: when they run, each gets the next packet and the ring is empty.
  lemma {:induction false} Drained(j: State, r: nat, ts: seq<nat>)
    requires Inv(j, r) && NoDups(ts) && (forall t | t in ts :: t in j.awake) && |ts| == |Port.Buffered(j.s, r)|
    ensures Legal(j, r, Agains(ts))
    ensures var k := Run(j, r, Agains(ts));
      && Port.Buffered(k.s, r) == [] && k.got == j.got + Shares(ts, Port.Buffered(j.s, r)) && k.waiters == j.waiters
    decreases |ts|
  {
    hide Port.Inv, Port.Buffered, PortWait.Inv, Port.Enabled, Port.Apply;
    if ts != [] {
      var q, e := Port.Buffered(j.s, r), Reads(PortWait.Again(ts[0]));
      assert Agains(ts)[0] == e && Agains(ts)[1..] == Agains(ts[1..]);
      assert ts[0] in ts;
      Refines(j, r, e);
      ReadKept(j.s, r);
      var k := Next(j, r, e);
      forall t | t in ts[1..]
        ensures t in k.awake
      {
        var i :| 0 <= i < |ts[1..]| && ts[1..][i] == t;
        assert ts[i + 1] != ts[0] && ts[i + 1] in ts;
      }
      Drained(k, r, ts[1..]);
      assert Shares(ts, q) == [Taken(ts[0], q[0])] + Shares(ts[1..], q[1..]);
    }
  }

  // n different members of a set.
  lemma Pick(x: set<nat>, n: nat) returns (ts: seq<nat>)
    requires n <= |x|
    ensures |ts| == n && NoDups(ts) && forall t | t in ts :: t in x
  {
    ts := [];
    if n > 0 {
      var t :| t in x;
      assert |x - {t}| == |x| - 1;
      var rest := Pick(x - {t}, n - 1);
      ts := [t] + rest;
    }
  }

  // With single packets: after any run that leaves a thread blocked, the threads woken so far are enough to take
  // everything that waits, so no packet needs a thread that is still blocked.
  lemma ClaimedAreDelivered(j: State, r: nat, es: seq<Step>) returns (ts: seq<nat>)
    requires Inv(j, r) && Legal(j, r, es) && PortWait.Claimed(Threads(j, r)) && forall e | e in es :: Single(e)
    requires Run(j, r, es).waiters != []
    ensures var k := Run(j, r, es);
      && NoDups(ts) && (forall t | t in ts :: t in k.awake) && |ts| == |Port.Buffered(k.s, r)|
      && Legal(k, r, Agains(ts)) && var m := Run(k, r, Agains(ts));
         Port.Buffered(m.s, r) == [] && m.got == k.got + Shares(ts, Port.Buffered(k.s, r)) && m.waiters == k.waiters
  {
    hide Port.Inv, Port.Buffered, PortWait.Inv, Next, Enabled, Legal, Run;
    RunClaimed(j, r, es);
    var k := Run(j, r, es);
    ts := Pick(k.awake, |Port.Buffered(k.s, r)|);
    Drained(k, r, ts);
  }
}
