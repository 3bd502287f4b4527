/** Named ports: the packet ring of kernel/port.c, and who owns which ring as readers come and go. */
module Port {
  import opened Lists
  import opened Options
  import opened Rings

  // A packet is an opaque value.
  type Packet = nat

  const SMALL: nat := 8
  const BIG: nat := 64
  const NAME_LEN: nat := 12

  // ---- the ring ----

  class PortBuf {
    const packet: array<Packet>
    var avail: nat
    var head: nat
    var tail: nat

    ghost predicate Valid()
      reads this
    {
      packet.Length > 0 && avail <= packet.Length && head < packet.Length &&
        tail == Slot(packet.Length, head, packet.Length - avail)
    }

    // The packets waiting, oldest first.
    ghost function Contents(): (q: seq<Packet>)
      requires Valid()
      reads this, packet
      ensures |q| == packet.Length - avail
    {
      Waiting(packet[..], head, packet.Length - avail)
    }

    // make_buf
    constructor (big: bool)
      ensures Valid() && Contents() == [] && packet.Length == (if big then BIG else SMALL) && fresh(packet)
    {
      var count := if big then BIG else SMALL;
      packet := new Packet[count];
      head, tail, avail := 0, 0, count;
    }

    // buf_write takes a batch whole or not at all.
    method Write(packets: seq<Packet>) returns (ok: bool)
      requires Valid()
      modifies this, packet
      ensures Valid() && ok == (|packets| <= old(avail))
      ensures Contents() == if ok then old(Contents()) + packets else old(Contents())
    {
      hide Slot, Waiting;
      if avail < |packets| { return false; }
      ghost var q := Contents();
      var ix := 0;
      while ix != |packets|
        invariant 0 <= ix <= |packets| && avail == old(avail) && head == old(head)
        invariant tail == Slot(packet.Length, head, |q| + ix)
        invariant Waiting(packet[..], head, |q| + ix) == q + packets[..ix]
      {
        WaitingPush(packet[..], head, |q| + ix, packets[ix]);
        SlotNext(packet.Length, head, |q| + ix);
        packet[tail] := packets[ix];
        tail := (tail + 1) % packet.Length;
        ix := ix + 1;
      }
      avail := avail - |packets|;
      ok := true;
    }

    // buf_read
    method Read() returns (p: Option<Packet>)
      requires Valid()
      modifies this
      ensures Valid() && (p.None? <==> old(Contents()) == [])
      ensures Contents() == if p.None? then old(Contents()) else old(Contents())[1..]
      ensures p.Some? ==> p.value == old(Contents())[0]
    {
      if avail == packet.Length { return None; }
      WaitingPop(packet[..], head, packet.Length - avail);
      SlotNext(packet.Length, head, 0);
      p := Some(packet[head]);
      head := (head + 1) % packet.Length;
      avail := avail + 1;
    }
  }

  // ---- ports and who owns which ring ----

  datatype Ring = Ring(cap: nat, q: seq<Packet>)

  predicate Fits(b: Ring, pk: seq<Packet>) {
    |b.q| + |pk| <= b.cap
  }

  // What PortBuf.Write makes of the packets waiting.
  function Push(b: Ring, pk: seq<Packet>): (r: Ring) {
    if Fits(b, pk) then b.(q := b.q + pk) else b
  }

  // port_mode_t; the broadcast mode is the absence of the unicast bit.
  type Mode = bv32

  const BROADCAST: Mode := 0
  const UNICAST: Mode := 1
  const BIG_BUFFER: Mode := 2

  predicate Has(mode: Mode, bit: Mode) {
    mode & bit != 0
  }

  datatype Wp = Wp(name: string, mode: Mode, open: bool, buf: Option<nat>, readers: seq<nat>)

  datatype Rp = Rp(buf: nat, wport: nat)

  // A thread in port_create that found no port of this name.
  datatype Pending = Pending(name: string, mode: Mode)

  // Rings and read ports are named by numbers below next.
  datatype State = State(wps: seq<Wp>, rps: map<nat, Rp>, rings: map<nat, Ring>, next: nat, creating: map<nat, Pending>)

  function Empty(): (s: State) {
    State([], map[], map[], 0, map[])
  }

  datatype Owner = Writer(w: nat) | Reader(r: nat)

  predicate Owns(s: State, o: Owner, b: nat) {
    match o
    case Writer(w) => w < |s.wps| && s.wps[w].buf == Some(b)
    case Reader(r) => r in s.rps && s.rps[r].buf == b
  }

  // A write port owns a ring exactly when it has no readers; readers and write ports know each other.
  predicate Linked(s: State) {
    && (forall w | 0 <= w < |s.wps| :: (s.wps[w].buf.Some? <==> s.wps[w].readers == []) && NoDups(s.wps[w].readers))
    && (forall w, i | 0 <= w < |s.wps| && 0 <= i < |s.wps[w].readers| ::
      s.wps[w].readers[i] in s.rps && s.rps[s.wps[w].readers[i]].wport == w)
    && (forall r | r in s.rps :: s.rps[r].wport < |s.wps| && r in s.wps[s.rps[r].wport].readers)
  }

  // No ring has two owners.
  ghost predicate Owned(s: State) {
    && (forall o, b | Owns(s, o, b) :: b in s.rings)
    && (forall o, p, b | Owns(s, o, b) && Owns(s, p, b) :: o == p)
  }

  predicate Bounded(s: State) {
    && (forall b | b in s.rings :: b < s.next && |s.rings[b].q| <= s.rings[b].cap)
    && (forall r | r in s.rps :: r < s.next)
  }

  ghost predicate Inv(s: State) {
    Linked(s) && Owned(s) && Bounded(s)
  }

  function Find(wps: seq<Wp>, name: string): (k: nat)
    ensures k <= |wps| && (k < |wps| ==> wps[k].name == name) && forall j | 0 <= j < k :: wps[j].name != name
  {
    if wps == [] || wps[0].name == name then 0 else 1 + Find(wps[1..], name)
  }

  // ---- the operations ----

  // The test of port_create for a big buffer that is not for a unicast port.
  predicate Refused(mode: Mode) {
    Has(mode, BROADCAST) && Has(mode, BIG_BUFFER)
  }

  // The first critical section of port_create.
  function Lookup(s: State, t: nat, name: string, mode: Mode): (r: State) {
    if Refused(mode) || |name| >= NAME_LEN || Find(s.wps, name) < |s.wps| then s
    else s.(creating := s.creating[t := Pending(name, mode)])
  }

  // The second one adds the port whatever has happened since.
  function Add(s: State, t: nat): (r: State)
    requires t in s.creating
  {
    var c := s.creating[t];
    s.(wps := s.wps + [Wp(c.name, c.mode, true, Some(s.next), [])],
       rings := s.rings[s.next := Ring(if Has(c.mode, BIG_BUFFER) then BIG else SMALL, [])],
       next := s.next + 1, creating := s.creating - {t})
  }

  lemma CreatingInv(s: State, creating: map<nat, Pending>)
    requires Inv(s)
    ensures Inv(s.(creating := creating))
  {
    var r := s.(creating := creating);
    forall o, b: nat | Owns(r, o, b)
      ensures Owns(s, o, b)
    {
    }
  }

  lemma AddInv(s: State, t: nat)
    requires Inv(s) && t in s.creating
    ensures Inv(Add(s, t))
  {
    var r := Add(s, t);
    forall o, b: nat | Owns(r, o, b)
      ensures Owns(s, o, b) || (o == Writer(|s.wps|) && b == s.next && r.next == s.next + 1)
    {
    }
  }

  // Taking over the ring of a write port that has no readers, with what it holds.
  function First(s: State, w: nat): (r: State)
    requires w < |s.wps| && s.wps[w].buf.Some?
  {
    s.(wps := s.wps[w := s.wps[w].(buf := None, readers := s.wps[w].readers + [s.next])],
       rps := s.rps[s.next := Rp(s.wps[w].buf.value, w)],
       next := s.next + 1)
  }

  // A further reader of a broadcast port, with a new ring.
  function Further(s: State, w: nat): (r: State)
    requires w < |s.wps|
  {
    s.(wps := s.wps[w := s.wps[w].(readers := s.wps[w].readers + [s.next])],
       rps := s.rps[s.next := Rp(s.next + 1, w)],
       rings := s.rings[s.next + 1 := Ring(SMALL, [])],
       next := s.next + 2)
  }

  lemma FirstInv(s: State, w: nat)
    requires Inv(s) && w < |s.wps| && s.wps[w].buf.Some?
    ensures Inv(First(s, w))
  {
    var r := First(s, w);
    var x := s.wps[w].buf.value;
    assert Owns(s, Writer(w), x);
    forall o, b: nat | Owns(r, o, b)
      ensures if o == Reader(s.next) then b == x else Owns(s, o, b) && o != Writer(w) && b != x
    {
      if o != Reader(s.next) { assert Owns(s, o, b); }
    }
    assert Linked(r);
  }

  lemma FurtherInv(s: State, w: nat)
    requires Inv(s) && w < |s.wps| && s.wps[w].buf.None?
    ensures Inv(Further(s, w))
  {
    var r := Further(s, w);
    forall o, b: nat | Owns(r, o, b)
      ensures if o == Reader(s.next) then b == s.next + 1 else Owns(s, o, b) && b < s.next
    {
      if o != Reader(s.next) { assert Owns(s, o, b); }
    }
    assert Linked(r);
  }

  function Open(s: State, name: string): (r: State) {
    var w := Find(s.wps, name);
    if w == |s.wps| then s
    else if s.wps[w].buf.Some? then First(s, w)
    else if Has(s.wps[w].mode, UNICAST) then s
    else Further(s, w)
  }

  // The rings after a batch is written to each reader in turn.
  function WriteAll(rings: map<nat, Ring>, rps: map<nat, Rp>, readers: seq<nat>, pk: seq<Packet>): (r: map<nat, Ring>)
    ensures r.Keys == rings.Keys
    decreases |readers|
  {
    if readers == [] then rings
    else
      var n := |readers| - 1;
      var m := WriteAll(rings, rps, readers[..n], pk);
      if readers[n] in rps && rps[readers[n]].buf in m then
        var b := rps[readers[n]].buf;
        m[b := Push(m[b], pk)]
      else m
  }

  // Each reader's ring takes the batch once, and no other ring changes.
  lemma {:induction false} WriteAllIs(s: State, readers: seq<nat>, pk: seq<Packet>, b: nat)
    requires Owned(s) && NoDups(readers) && (forall i | 0 <= i < |readers| :: readers[i] in s.rps) && b in s.rings
    ensures WriteAll(s.rings, s.rps, readers, pk)[b] ==
      if exists i :: 0 <= i < |readers| && s.rps[readers[i]].buf == b then Push(s.rings[b], pk) else s.rings[b]
    decreases |readers|
  {
    if readers != [] {
      var n := |readers| - 1;
      WriteAllIs(s, readers[..n], pk, b);
      assert forall i | 0 <= i < n :: readers[..n][i] == readers[i];
      if s.rps[readers[n]].buf == b {
        forall i | 0 <= i < n
          ensures s.rps[readers[i]].buf != b
        {
          assert Owns(s, Reader(readers[n]), b);
          assert Owns(s, Reader(readers[i]), s.rps[readers[i]].buf);
        }
      }
    }
  }

  function Write(s: State, w: nat, pk: seq<Packet>): (r: State)
    requires w < |s.wps|
  {
    if !s.wps[w].open then s
    else if s.wps[w].buf.Some? && s.wps[w].buf.value in s.rings then
      var b := s.wps[w].buf.value;
      s.(rings := s.rings[b := Push(s.rings[b], pk)])
    else s.(rings := WriteAll(s.rings, s.rps, s.wps[w].readers, pk))
  }

  function Read(s: State, r: nat): (t: State)
    requires r in s.rps && s.rps[r].buf in s.rings
  {
    var b := s.rps[r].buf;
    if s.rings[b].q == [] then s else s.(rings := s.rings[b := s.rings[b].(q := s.rings[b].q[1..])])
  }

  // port_close on a read port: the last reader hands its ring back.
  function CloseReader(s: State, r: nat): (t: State)
    requires r in s.rps && s.rps[r].wport < |s.wps| && r in s.wps[s.rps[r].wport].readers
  {
    var w, b := s.rps[r].wport, s.rps[r].buf;
    var left := Cut(s.wps[w].readers, Index(s.wps[w].readers, r));
    if left == [] then s.(wps := s.wps[w := s.wps[w].(buf := Some(b), readers := left)], rps := s.rps - {r})
    else s.(wps := s.wps[w := s.wps[w].(readers := left)], rps := s.rps - {r}, rings := s.rings - {b})
  }

  lemma CloseReaderInv(s: State, r: nat)
    requires Inv(s) && r in s.rps
    ensures Inv(CloseReader(s, r))
  {
    var t := CloseReader(s, r);
    var w, x := s.rps[r].wport, s.rps[r].buf;
    CutIs(s.wps[w].readers, Index(s.wps[w].readers, r));
    assert Owns(s, Reader(r), x);
    forall o, b: nat | Owns(t, o, b)
      ensures if o == Writer(w) then b == x && t.wps[w].readers == [] else Owns(s, o, b) && o != Reader(r) && b != x
    {
      if o != Writer(w) { assert Owns(s, o, b); }
    }
    CloseLinked(s, r);
  }

  lemma CloseLinked(s: State, r: nat)
    requires Linked(s) && r in s.rps
    ensures Linked(CloseReader(s, r))
  {
    var t := CloseReader(s, r);
    var w := s.rps[r].wport;
    var q := s.wps[w].readers;
    var left := Cut(q, Index(q, r));
    CutIs(q, Index(q, r));
    forall v, i | 0 <= v < |t.wps| && 0 <= i < |t.wps[v].readers|
      ensures t.wps[v].readers[i] in t.rps && t.rps[t.wps[v].readers[i]].wport == v
    {
      var x := t.wps[v].readers[i];
      if v == w { assert x in left && x in q; }
    }
  }

  // Changing what rings hold moves no ring.
  lemma RingsInv(s: State, rings: map<nat, Ring>)
    requires Inv(s) && rings.Keys == s.rings.Keys && forall b | b in rings :: |rings[b].q| <= rings[b].cap
    ensures Inv(s.(rings := rings))
  {
    var t := s.(rings := rings);
    forall o, b: nat | Owns(t, o, b)
      ensures Owns(s, o, b)
    {
    }
  }

  lemma WriteInv(s: State, w: nat, pk: seq<Packet>)
    requires Inv(s) && w < |s.wps|
    ensures Inv(Write(s, w, pk)) && Write(s, w, pk).rings.Keys == s.rings.Keys
  {
    var t := Write(s, w, pk);
    if s.wps[w].buf.None? {
      forall b | b in s.rings
        ensures |t.rings[b].q| <= t.rings[b].cap
      {
        WriteAllIs(s, s.wps[w].readers, pk, b);
      }
    }
    RingsInv(s, t.rings);
  }

  lemma ReadInv(s: State, r: nat)
    requires Inv(s) && r in s.rps
    ensures s.rps[r].buf in s.rings && Inv(Read(s, r))
  {
    assert Owns(s, Reader(r), s.rps[r].buf);
    RingsInv(s, Read(s, r).rings);
  }

  // ---- runs ----

  datatype Step =
    | DoLookup(t: nat, name: string, mode: Mode)
    | DoAdd(t: nat)
    | DoGiveUp(t: nat)
    | DoOpen(name: string)
    | DoWrite(w: nat, pk: seq<Packet>)
    | DoRead(r: nat)
    | DoClose(r: nat)
    | DoCloseWriter(w: nat)

  predicate Enabled(s: State, e: Step) {
    match e
    case DoLookup(t, _, _) => t !in s.creating
    case DoAdd(t) => t in s.creating
    case DoGiveUp(t) => t in s.creating
    case DoOpen(_) => true
    case DoWrite(w, _) => w < |s.wps|
    case DoRead(r) => r in s.rps
    case DoClose(r) => r in s.rps
    case DoCloseWriter(w) => w < |s.wps|
  }

  function Apply(s: State, e: Step): (t: State)
    requires Inv(s) && Enabled(s, e)
    ensures Inv(t)
  {
    match e
    case DoLookup(t, name, mode) =>
      CreatingInv(s, Lookup(s, t, name, mode).creating);
      Lookup(s, t, name, mode)
    case DoAdd(t) =>
      AddInv(s, t);
      Add(s, t)
    case DoGiveUp(t) =>
      CreatingInv(s, s.creating - {t});
      s.(creating := s.creating - {t})
    case DoOpen(name) =>
      OpenInv(s, name);
      Open(s, name)
    case DoWrite(w, pk) =>
      WriteInv(s, w, pk);
      Write(s, w, pk)
    case DoRead(r) =>
      ReadInv(s, r);
      Read(s, r)
    case DoClose(r) =>
      CloseReaderInv(s, r);
      CloseReader(s, r)
    case DoCloseWriter(w) =>
      CloseWriterInv(s, w);
      s.(wps := s.wps[w := s.wps[w].(open := false)])
  }

  lemma OpenInv(s: State, name: string)
    requires Inv(s)
    ensures Inv(Open(s, name))
  {
    hide Inv;
    var w := Find(s.wps, name);
    if w < |s.wps| {
      if s.wps[w].buf.Some? {
        FirstInv(s, w);
      } else {
        FurtherInv(s, w);
      }
    }
  }

  lemma CloseWriterInv(s: State, w: nat)
    requires Inv(s) && w < |s.wps|
    ensures Inv(s.(wps := s.wps[w := s.wps[w].(open := false)]))
  {
    var t := s.(wps := s.wps[w := s.wps[w].(open := false)]);
    forall o, b: nat | Owns(t, o, b)
      ensures Owns(s, o, b)
    {
    }
  }

  predicate Legal(s: State, es: seq<Step>)
    requires Inv(s)
    decreases |es|
  {
    es == [] || (Enabled(s, es[0]) && Legal(Apply(s, es[0]), es[1..]))
  }

  function Run(s: State, es: seq<Step>): (t: State)
    requires Inv(s) && Legal(s, es)
    ensures Inv(t)
    decreases |es|
  {
    if es == [] then s else Run(Apply(s, es[0]), es[1..])
  }

  // In every run, a write port owns a ring exactly when it has no readers, and no ring has two owners.
  lemma OneOwner(es: seq<Step>, o: Owner, p: Owner, b: nat, w: nat)
    requires Inv(Empty()) && Legal(Empty(), es)
    ensures var s := Run(Empty(), es);
      && (Owns(s, o, b) && Owns(s, p, b) ==> o == p)
      && (w < |s.wps| ==> (s.wps[w].buf.Some? <==> s.wps[w].readers == []))
  {
    assert Inv(Run(Empty(), es));
  }

  // ---- delivery ----

  function Buffered(s: State, r: nat): (q: seq<Packet>)
    requires Inv(s) && r in s.rps
  {
    assert Owns(s, Reader(r), s.rps[r].buf);
    s.rings[s.rps[r].buf].q
  }

  function Capacity(s: State, r: nat): (n: nat)
    requires Inv(s) && r in s.rps
  {
    assert Owns(s, Reader(r), s.rps[r].buf);
    s.rings[s.rps[r].buf].cap
  }

  // The part of a step's batch that reader r accepts: all of it or nothing.
  function Accepted(s: State, e: Step, r: nat): (q: seq<Packet>)
    requires Inv(s) && r in s.rps
  {
    assert Owns(s, Reader(r), s.rps[r].buf);
    if e.DoWrite? && e.w == s.rps[r].wport && s.wps[e.w].open && Fits(s.rings[s.rps[r].buf], e.pk) then e.pk else []
  }

  // What a step hands to reader r.
  function Returned(s: State, e: Step, r: nat): (q: seq<Packet>)
    requires Inv(s) && r in s.rps
  {
    if e == DoRead(r) && Buffered(s, r) != [] then [Buffered(s, r)[0]] else []
  }

  lemma WriteDelivers(s: State, w: nat, pk: seq<Packet>, r: nat)
    requires Inv(s) && w < |s.wps| && r in s.rps && Inv(Write(s, w, pk))
    ensures r in Write(s, w, pk).rps
    ensures Buffered(Write(s, w, pk), r) == Buffered(s, r) + Accepted(s, DoWrite(w, pk), r)
  {
    hide Inv, WriteAll;
    OwnRing(s, r);
    if s.wps[w].buf.Some? {
      WriterRing(s, w);
      WriterNotReader(s, w, r);
    } else {
      ReaderGets(s, w, pk, r);
    }
  }

  // The ring of a write port is no reader's, and while it has one it has no readers.
  lemma WriterNotReader(s: State, w: nat, r: nat)
    requires Inv(s) && w < |s.wps| && s.wps[w].buf.Some? && r in s.rps
    ensures s.wps[w].buf.value != s.rps[r].buf && s.rps[r].wport != w
  {
    assert Owns(s, Reader(r), s.rps[r].buf);
    assert Owns(s, Writer(w), s.wps[w].buf.value);
  }

  lemma ReaderGets(s: State, w: nat, pk: seq<Packet>, r: nat)
    requires Inv(s) && w < |s.wps| && s.wps[w].buf.None? && r in s.rps && s.rps[r].buf in s.rings
    ensures WriteAll(s.rings, s.rps, s.wps[w].readers, pk)[s.rps[r].buf] ==
      if s.rps[r].wport == w then Push(s.rings[s.rps[r].buf], pk) else s.rings[s.rps[r].buf]
  {
    hide WriteAll, Push, Bounded;
    var b, q := s.rps[r].buf, s.wps[w].readers;
    WriteAllIs(s, q, pk, b);
    if s.rps[r].wport == w {
      var i :| 0 <= i < |q| && q[i] == r;
      assert s.rps[q[i]].buf == b;
    } else {
      assert Owns(s, Reader(r), b);
      forall i | 0 <= i < |q|
        ensures s.rps[q[i]].buf != b
      {
        assert Owns(s, Reader(q[i]), s.rps[q[i]].buf);
      }
    }
  }

  lemma OtherRing(s: State, r: nat, q: nat)
    requires Inv(s) && r in s.rps && q in s.rps && q != r
    ensures s.rps[r].buf in s.rings && s.rps[r].buf != s.rps[q].buf
  {
    assert Owns(s, Reader(r), s.rps[r].buf);
    assert Owns(s, Reader(q), s.rps[q].buf);
  }

  lemma OwnRing(s: State, r: nat)
    requires Inv(s) && r in s.rps
    ensures r < s.next && s.rps[r].buf in s.rings && s.rps[r].buf < s.next
  {
    assert Owns(s, Reader(r), s.rps[r].buf);
  }

  // Steps that are neither a write nor r's own read or close leave r's ring alone.
  lemma OtherStep(s: State, e: Step, r: nat)
    requires Inv(s) && Enabled(s, e) && r in s.rps && e != DoClose(r) && e != DoRead(r) && !e.DoWrite?
    ensures r in Apply(s, e).rps && Buffered(Apply(s, e), r) == Buffered(s, r)
  {
    hide Linked, Owned;
    OwnRing(s, r);
    match e
    case DoRead(q) => OtherRing(s, r, q);
    case DoClose(q) => OtherRing(s, r, q);
    case _ =>
  }

  lemma ReadDelivers(s: State, r: nat)
    requires Inv(s) && r in s.rps && Inv(Apply(s, DoRead(r)))
    ensures r in Apply(s, DoRead(r)).rps
    ensures Buffered(s, r) == Returned(s, DoRead(r), r) + Buffered(Apply(s, DoRead(r)), r)
  {
    hide Linked, Owned;
    OwnRing(s, r);
  }

  lemma StepDelivers(s: State, e: Step, r: nat)
    requires Inv(s) && Enabled(s, e) && r in s.rps && e != DoClose(r)
    ensures r in Apply(s, e).rps
    ensures Buffered(s, r) + Accepted(s, e, r) == Returned(s, e, r) + Buffered(Apply(s, e), r)
  {
    hide Inv, Buffered;
    if e.DoWrite? {
      WriteInv(s, e.w, e.pk);
      WriteDelivers(s, e.w, e.pk, r);
    } else if e == DoRead(r) {
      ReadDelivers(s, r);
    } else {
      hide Apply;
      OtherStep(s, e, r);
    }
  }

  lemma AcceptedIs(s: State, e: Step, r: nat)
    requires Inv(s) && r in s.rps
    ensures |Buffered(s, r)| <= Capacity(s, r)
    ensures e.DoWrite? && e.w == s.rps[r].wport ==> e.w < |s.wps|
    ensures Accepted(s, e, r) ==
      if e.DoWrite? && e.w == s.rps[r].wport && s.wps[e.w].open && |Buffered(s, r)| + |e.pk| <= Capacity(s, r) then e.pk
      else []
  {
    OwnRing(s, r);
  }

  // A ring never changes its size.
  lemma CapacityKept(s: State, e: Step, r: nat)
    requires Inv(s) && Enabled(s, e) && r in s.rps && r in Apply(s, e).rps
    ensures Capacity(Apply(s, e), r) == Capacity(s, r)
  {
    hide Linked, Owned, WriteAll, Write;
    OwnRing(s, r);
    if e.DoWrite? {
      WriteCapacity(s, e.w, e.pk, r);
    } else if e.DoClose? {
      OtherRing(s, r, e.r);
    }
  }

  lemma WriteCapacity(s: State, w: nat, pk: seq<Packet>, r: nat)
    requires Inv(s) && w < |s.wps| && r in s.rps && s.rps[r].buf in s.rings
    ensures var t := Write(s, w, pk);
      && t.rps == s.rps && s.rps[r].buf in t.rings && t.rings[s.rps[r].buf].cap == s.rings[s.rps[r].buf].cap
  {
    hide Inv, WriteAll;
    if s.wps[w].buf.Some? { WriterRing(s, w); } else { ReaderGets(s, w, pk, r); }
  }

  // All the batches reader r accepted in the run, in order.
  function AllAccepted(s: State, es: seq<Step>, r: nat): (q: seq<Packet>)
    requires Inv(s) && Legal(s, es) && r in s.rps
    decreases |es|
  {
    if es == [] then []
    else if es[0] == DoClose(r) then []
    else
      StepDelivers(s, es[0], r);
      Accepted(s, es[0], r) + AllAccepted(Apply(s, es[0]), es[1..], r)
  }

  // All the packets the run returned to reader r.
  function AllReturned(s: State, es: seq<Step>, r: nat): (q: seq<Packet>)
    requires Inv(s) && Legal(s, es) && r in s.rps
    decreases |es|
  {
    if es == [] then []
    else if es[0] == DoClose(r) then []
    else
      StepDelivers(s, es[0], r);
      Returned(s, es[0], r) + AllReturned(Apply(s, es[0]), es[1..], r)
  }

  // What a reader has read, then what waits for it, is what it started with, then the batches it accepted, in order.
  lemma {:induction false} Delivery(s: State, es: seq<Step>, r: nat)
    requires Inv(s) && Legal(s, es) && r in s.rps && DoClose(r) !in es
    ensures r in Run(s, es).rps
    ensures Buffered(s, r) + AllAccepted(s, es, r) == AllReturned(s, es, r) + Buffered(Run(s, es), r)
    decreases |es|
  {
    hide Inv, Enabled, Apply, Buffered, Accepted, Returned;
    if es != [] {
      assert es[0] in es;
      StepDelivers(s, es[0], r);
      var t := Apply(s, es[0]);
      Delivery(t, es[1..], r);
      var b, y := AllAccepted(t, es[1..], r), AllReturned(t, es[1..], r);
      Chain(Buffered(s, r), Accepted(s, es[0], r), Returned(s, es[0], r), Buffered(t, r), b, y,
        Buffered(Run(s, es), r));
    } else {
      assert Buffered(s, r) + [] == [] + Buffered(s, r);
    }
  }

  // A first reader starts with the backlog of the write port, a further one with nothing.
  lemma OpenBacklog(s: State, name: string)
    requires Inv(s) && Find(s.wps, name) < |s.wps|
    ensures Inv(Open(s, name))
    ensures var w := Find(s.wps, name);
      if s.wps[w].buf.None? && Has(s.wps[w].mode, UNICAST) then Open(s, name) == s
      else
        && s.next in Open(s, name).rps && Open(s, name).rps[s.next].wport == w
        && (s.wps[w].buf.Some? ==>
           s.wps[w].buf.value in s.rings && Buffered(Open(s, name), s.next) == s.rings[s.wps[w].buf.value].q)
        && (s.wps[w].buf.None? ==> Buffered(Open(s, name), s.next) == [])
  {
    OpenInv(s, name);
    var w := Find(s.wps, name);
    if s.wps[w].buf.Some? { assert Owns(s, Writer(w), s.wps[w].buf.value); }
  }

  // The last reader to close leaves what it had not read as the write port's backlog.
  lemma CloseBacklog(s: State, r: nat)
    requires Inv(s) && r in s.rps && s.wps[s.rps[r].wport].readers == [r]
    ensures var t := CloseReader(s, r); var w := s.rps[r].wport;
      t.wps[w].buf.Some? && t.wps[w].buf.value in t.rings && t.rings[t.wps[w].buf.value].q == Buffered(s, r)
  {
    assert Owns(s, Reader(r), s.rps[r].buf);
  }

  // ---- modes and names ----

  // No mode is refused: the broadcast bit is 0.
  lemma NeverRefused(mode: Mode)
    ensures !Refused(mode)
  {
    assert mode & BROADCAST == 0;
  }

  predicate BigIsUnicast(mode: Mode) {
    Has(mode, BIG_BUFFER) ==> Has(mode, UNICAST)
  }

  // The write port that an owner belongs to.
  predicate At(s: State, o: Owner, w: nat) {
    w < |s.wps| && match o
    case Writer(v) => v == w
    case Reader(r) => r in s.rps && s.rps[r].wport == w
  }

  predicate BigAt(s: State, o: Owner, w: nat, b: nat) {
    Owns(s, o, b) && At(s, o, w) && b in s.rings && s.rings[b].cap == BIG
  }

  // What the comment in port_create promises: only unicast ports have a large buffer.
  ghost predicate BigRule(s: State) {
    forall o: Owner, w: nat, b: nat | BigAt(s, o, w, b) :: Has(s.wps[w].mode, UNICAST)
  }

  // Whoever owns a big ring after a step other than an Add, that port had a big ring before.
  lemma BigBefore(s: State, e: Step, o: Owner, w: nat, b: nat) returns (p: Owner)
    requires Inv(s) && Enabled(s, e) && !e.DoAdd? && BigAt(Apply(s, e), o, w, b)
    ensures BigAt(s, p, w, b) && Apply(s, e).wps[w].mode == s.wps[w].mode
  {
    hide Inv, Open, CloseReader, Write, Read;
    p := o;
    match e
    case DoOpen(name) => p := BigOpen(s, name, o, w, b);
    case DoWrite(v, pk) =>
      CapKept(s, v, pk, b);
      assert Write(s, v, pk) == s.(rings := Write(s, v, pk).rings) by { WriteRings(s, v, pk); }
    case DoClose(r) =>
      CloseApplies(s, r);
      p := BigClose(s, r, o, w, b);
    case DoRead(r) =>
      OwnRing(s, r);
      ReadRings(s, r);
    case _ =>
  }

  lemma WriteRings(s: State, w: nat, pk: seq<Packet>)
    requires w < |s.wps|
    ensures Write(s, w, pk) == s.(rings := Write(s, w, pk).rings)
  {
  }

  lemma ReadRings(s: State, r: nat)
    requires r in s.rps && s.rps[r].buf in s.rings
    ensures Read(s, r) == s.(rings := Read(s, r).rings) && Read(s, r).rings.Keys == s.rings.Keys
    ensures forall b | b in s.rings :: Read(s, r).rings[b].cap == s.rings[b].cap
  {
  }

  lemma BigOpen(s: State, name: string, o: Owner, w: nat, b: nat) returns (p: Owner)
    requires Inv(s) && BigAt(Open(s, name), o, w, b)
    ensures BigAt(s, p, w, b) && Open(s, name).wps[w].mode == s.wps[w].mode
  {
    hide Inv, Find;
    NextFree(s);
    p := if o == Reader(s.next) then Writer(w) else o;
  }

  lemma BigClose(s: State, r: nat, o: Owner, w: nat, b: nat) returns (p: Owner)
    requires Inv(s) && r in s.rps && s.rps[r].wport < |s.wps| && r in s.wps[s.rps[r].wport].readers
    requires BigAt(CloseReader(s, r), o, w, b)
    ensures BigAt(s, p, w, b) && CloseReader(s, r).wps[w].mode == s.wps[w].mode
  {
    hide Inv, Cut, Index;
    p := if Owns(s, o, b) then o else Reader(r);
  }

  lemma NextFree(s: State)
    requires Inv(s)
    ensures s.next !in s.rps && s.next !in s.rings && s.next + 1 !in s.rings
  {
    hide Linked, Owned;
  }

  lemma CapKept(s: State, w: nat, pk: seq<Packet>, b: nat)
    requires Inv(s) && w < |s.wps|
    ensures Write(s, w, pk).rings.Keys == s.rings.Keys
    ensures b in s.rings ==> Write(s, w, pk).rings[b].cap == s.rings[b].cap
  {
    hide WriteAll;
    WriteInv(s, w, pk);
    if s.wps[w].buf.Some? { WriterRing(s, w); } else if b in s.rings { WriteAllIs(s, s.wps[w].readers, pk, b); }
  }

  // A step keeps the promise exactly when it is not the second half of a port_create that asked for a big buffer and
  // did not ask for unicast.
  lemma StepBigRule(s: State, e: Step)
    requires Inv(s) && Enabled(s, e) && BigRule(s)
    ensures BigRule(Apply(s, e)) <==> (e.DoAdd? ==> BigIsUnicast(s.creating[e.t].mode))
  {
    hide Inv;
    var t := Apply(s, e);
    if e.DoAdd? {
      AddBigRule(s, e.t);
    } else {
      forall o: Owner, w: nat, b: nat | BigAt(t, o, w, b)
        ensures Has(t.wps[w].mode, UNICAST)
      {
        hide Apply, BigAt;
        var p := BigBefore(s, e, o, w, b);
      }
    }
  }

  lemma AddBigRule(s: State, t: nat)
    requires Inv(s) && t in s.creating && BigRule(s)
    ensures BigRule(Add(s, t)) <==> BigIsUnicast(s.creating[t].mode)
  {
    hide Inv;
    NextFree(s);
    var u, n := Add(s, t), |s.wps|;
    forall o: Owner, w: nat, b: nat | BigAt(u, o, w, b)
      ensures o == Writer(n) ==> w == n && Has(s.creating[t].mode, BIG_BUFFER)
      ensures o != Writer(n) ==> BigAt(s, o, w, b) && u.wps[w] == s.wps[w]
    {
      AddedOwner(s, t, o, w, b);
    }
    if Has(s.creating[t].mode, BIG_BUFFER) { assert BigAt(u, Writer(n), n, s.next); }
  }

  lemma AddedOwner(s: State, t: nat, o: Owner, w: nat, b: nat)
    requires Inv(s) && t in s.creating && BigAt(Add(s, t), o, w, b)
    ensures if o == Writer(|s.wps|) then w == |s.wps| && Has(s.creating[t].mode, BIG_BUFFER)
            else BigAt(s, o, w, b) && Add(s, t).wps[w] == s.wps[w]
  {
    if o != Writer(|s.wps|) { assert Owns(s, o, b); }
  }

  predicate AsksRightly(e: Step) {
    e.DoLookup? ==> BigIsUnicast(e.mode)
  }

  // In every run whose callers ask for big buffers only with unicast, the promise is kept throughout.
  lemma {:induction false} BigRuleHolds(s: State, es: seq<Step>)
    requires Inv(s) && Legal(s, es) && BigRule(s) && (forall t | t in s.creating :: BigIsUnicast(s.creating[t].mode))
    requires forall e | e in es :: AsksRightly(e)
    ensures BigRule(Run(s, es))
    decreases |es|
  {
    hide Inv, BigRule, BigIsUnicast;
    if es != [] {
      var e := es[0];
      assert AsksRightly(e);
      StepBigRule(s, e);
      var u := Apply(s, e);
      forall t | t in u.creating
        ensures BigIsUnicast(u.creating[t].mode)
      {
      }
      hide Apply;
      BigRuleHolds(u, es[1..]);
    }
  }

  // A caller that asks for a big buffer alone gets one, on a port that is not unicast.
  lemma BigWithoutUnicast(name: string)
    requires |name| < NAME_LEN
    ensures var es := [DoLookup(0, name, BIG_BUFFER), DoAdd(0)];
      Inv(Empty()) && Legal(Empty(), es) && !BigRule(Run(Empty(), es))
  {
    hide Inv, BigRule;
    NeverRefused(BIG_BUFFER);
    EmptyInv();
    EmptyBigRule();
    var es := [DoLookup(0, name, BIG_BUFFER), DoAdd(0)];
    var s1 := Apply(Empty(), es[0]);
    StepBigRule(Empty(), es[0]);
    StepBigRule(s1, es[1]);
    var s2 := Apply(s1, es[1]);
    assert es[1..] == [es[1]] && [es[1]][1..] == [];
    assert Legal(s2, []) && Legal(s1, [es[1]]);
    assert Run(s1, [es[1]]) == s2;
  }

  lemma EmptyBigRule()
    ensures BigRule(Empty())
  {
  }

  // Names are found in list order.
  predicate Distinct(wps: seq<Wp>) {
    forall i, j | 0 <= i < j < |wps| :: wps[i].name != wps[j].name
  }

  predicate SameNames(x: seq<Wp>, y: seq<Wp>) {
    |x| == |y| && forall i | 0 <= i < |x| :: x[i].name == y[i].name
  }

  lemma NamesKept(s: State, e: Step)
    requires Inv(s) && Enabled(s, e)
    ensures var t := Apply(s, e);
      if !e.DoAdd? then SameNames(s.wps, t.wps)
      else t.wps == s.wps + [t.wps[|s.wps|]] && t.wps[|s.wps|].name == s.creating[e.t].name
    ensures var t := Apply(s, e);
      match e
      case DoLookup(u, n, m) =>
        if Refused(m) || |n| >= NAME_LEN || Find(s.wps, n) < |s.wps| then t.creating == s.creating
        else t.creating == s.creating[u := Pending(n, m)]
      case DoAdd(u) => t.creating == s.creating - {u}
      case DoGiveUp(u) => t.creating == s.creating - {u}
      case _ => t.creating == s.creating
  {
    hide Inv, Find, Cut, Index, WriteAll, Push;
    match e
    case DoClose(r) => CloseApplies(s, r);
    case DoRead(r) => OwnRing(s, r);
    case _ =>
  }

  // A step leaves the names distinct exactly when it does not add a name that has been added since it was looked up.
  lemma StepDistinct(s: State, e: Step)
    requires Inv(s) && Enabled(s, e) && Distinct(s.wps)
    ensures Distinct(Apply(s, e).wps) <==> !(e.DoAdd? && Find(s.wps, s.creating[e.t].name) < |s.wps|)
  {
    hide Inv, Apply;
    NamesKept(s, e);
    if e.DoAdd? {
      var t, n, k := Apply(s, e), |s.wps|, Find(s.wps, s.creating[e.t].name);
      assert forall i | 0 <= i < n :: t.wps[i] == s.wps[i];
      if k < n { assert t.wps[k].name == t.wps[n].name; }
    }
  }

  // No lookup of a name begins while another thread is creating a port of that name.
  predicate Alone(s: State, e: Step) {
    e.DoLookup? ==> forall t | t in s.creating :: s.creating[t].name != e.name
  }

  predicate AllAlone(s: State, es: seq<Step>)
    requires Inv(s) && Legal(s, es)
    decreases |es|
  {
    es == [] || (Alone(s, es[0]) && AllAlone(Apply(s, es[0]), es[1..]))
  }

  // The names being created are new, and no two threads create the same.
  ghost predicate NewNames(s: State) {
    && (forall t | t in s.creating :: Find(s.wps, s.creating[t].name) == |s.wps|)
    && (forall t, u | t in s.creating && u in s.creating && t != u :: s.creating[t].name != s.creating[u].name)
  }

  lemma FindSame(x: seq<Wp>, y: seq<Wp>, name: string)
    requires SameNames(x, y)
    ensures Find(x, name) == Find(y, name)
  {
  }

  lemma StepNewNames(s: State, e: Step)
    requires Inv(s) && Enabled(s, e) && NewNames(s) && Alone(s, e)
    ensures NewNames(Apply(s, e))
  {
    hide Inv, Apply, Find;
    NamesKept(s, e);
    var v := Apply(s, e);
    forall t | t in v.creating
      ensures Find(v.wps, v.creating[t].name) == |v.wps|
    {
      if !e.DoAdd? { FindSame(s.wps, v.wps, v.creating[t].name); }
    }
  }

  // Without such a race every run keeps the names distinct.
  lemma {:induction false} NamesDistinct(s: State, es: seq<Step>)
    requires Inv(s) && Legal(s, es) && Distinct(s.wps) && NewNames(s) && AllAlone(s, es)
    ensures Distinct(Run(s, es).wps)
    decreases |es|
  {
    hide Inv, Apply, Distinct, Alone;
    if es != [] {
      StepDistinct(s, es[0]);
      StepNewNames(s, es[0]);
      NamesDistinct(Apply(s, es[0]), es[1..]);
    }
  }

  // With it two ports of one name can be made.
  lemma RaceDuplicates(name: string, mode: Mode)
    requires |name| < NAME_LEN
    ensures var es := [DoLookup(0, name, mode), DoLookup(1, name, mode), DoAdd(0), DoAdd(1)];
      Inv(Empty()) && Legal(Empty(), es) && !Distinct(Run(Empty(), es).wps)
  {
    hide Inv;
    NeverRefused(mode);
    EmptyInv();
    var es := [DoLookup(0, name, mode), DoLookup(1, name, mode), DoAdd(0), DoAdd(1)];
    var s1 := Apply(Empty(), es[0]);
    var s2 := Apply(s1, es[1]);
    var s3 := Apply(s2, es[2]);
    var s4 := Apply(s3, es[3]);
    assert es[1..] == [es[1], es[2], es[3]] && es[1..][1..] == [es[2], es[3]] && es[1..][1..][1..] == [es[3]] &&
      [es[3]][1..] == [];
    assert Legal(s4, []) && Legal(s3, [es[3]]) && Legal(s2, es[1..][1..]) && Legal(s1, es[1..]);
    assert Run(s3, [es[3]]) == s4 && Run(s2, es[1..][1..]) == s4 && Run(s1, es[1..]) == s4;
    assert s4.wps[0].name == s4.wps[1].name;
  }

  lemma EmptyInv()
    ensures Inv(Empty())
  {
  }

  // The later of two ports with one name can never be opened: in every run it stays without readers.
  lemma {:induction false} ShadowedForever(s: State, es: seq<Step>, w: nat)
    requires Inv(s) && Legal(s, es) && w < |s.wps| && Find(s.wps, s.wps[w].name) < w && s.wps[w].readers == []
    ensures var t := Run(s, es); w < |t.wps| && t.wps[w].name == s.wps[w].name && t.wps[w].readers == []
    decreases |es|
  {
    hide Inv, Apply, Find;
    if es != [] {
      ShadowedStep(s, es[0], w);
      ShadowedForever(Apply(s, es[0]), es[1..], w);
    }
  }

  lemma ShadowedStep(s: State, e: Step, w: nat)
    requires Inv(s) && Enabled(s, e) && w < |s.wps| && Find(s.wps, s.wps[w].name) < w && s.wps[w].readers == []
    ensures var t := Apply(s, e);
      w < |t.wps| && t.wps[w].name == s.wps[w].name && t.wps[w].readers == [] && Find(t.wps, t.wps[w].name) < w
  {
    hide Inv, Find, Cut, Index, WriteAll, Push;
    NamesKept(s, e);
    var t, k := Apply(s, e), Find(s.wps, s.wps[w].name);
    assert t.wps[k].name == s.wps[w].name;
    if e.DoClose? { CloseApplies(s, e.r); }
  }

  // ---- the ports, changed in place ----

  datatype Status =
    Ok | AlreadyExists | Busy | InvalidArgs | NotFound | NotAllowed | BadHandle | NotEnoughBuffer | PartialWrite

  // Rings in good order that share no memory.
  ghost predicate Sound(bufs: map<nat, PortBuf>)
    reads bufs.Values
  {
    && (forall b | b in bufs :: bufs[b].Valid())
    && (forall b, d | b in bufs && d in bufs && b != d :: bufs[b] != bufs[d] && bufs[b].packet != bufs[d].packet)
  }

  ghost function RingsOf(bufs: map<nat, PortBuf>): (m: map<nat, Ring>)
    requires Sound(bufs)
    reads bufs.Values, set b | b in bufs :: bufs[b].packet
    ensures m.Keys == bufs.Keys
  {
    map b | b in bufs :: Ring(bufs[b].packet.Length, bufs[b].Contents())
  }

  lemma AddRing(bufs: map<nat, PortBuf>, b: nat, buf: PortBuf)
    requires Sound(bufs) && b !in bufs && buf.Valid()
    requires forall d | d in bufs :: bufs[d] != buf && bufs[d].packet != buf.packet
    ensures Sound(bufs[b := buf])
    ensures RingsOf(bufs[b := buf]) == RingsOf(bufs)[b := Ring(buf.packet.Length, buf.Contents())]
  {
    hide Waiting, Slot;
  }

  class Ports {
    var wps: seq<Wp>
    var rps: map<nat, Rp>
    var bufs: map<nat, PortBuf>
    var next: nat
    var creating: map<nat, Pending>

    ghost function View(): (s: State)
      requires Sound(bufs)
      reads this, bufs.Values, set b | b in bufs :: bufs[b].packet
    {
      State(wps, rps, RingsOf(bufs), next, creating)
    }

    ghost predicate Valid()
      reads this, bufs.Values, set b | b in bufs :: bufs[b].packet
    {
      Sound(bufs) && Inv(View())
    }

    constructor ()
      ensures Valid() && View() == Empty() && bufs == map[]
    {
      wps, rps, bufs, next, creating := [], map[], map[], 0, map[];
    }

    method FindName(name: string) returns (k: nat)
      ensures k == Find(wps, name)
    {
      k := 0;
      while k < |wps| && wps[k].name != name
        invariant k <= |wps|
        invariant forall j | 0 <= j < k :: wps[j].name != name
      {
        k := k + 1;
      }
    }

    // One ring takes a batch, or not.
    method WriteBuf(b: nat, pk: seq<Packet>) returns (ok: bool)
      requires Sound(bufs) && b in bufs
      modifies bufs[b], bufs[b].packet
      ensures Sound(bufs) && ok == Fits(old(RingsOf(bufs))[b], pk)
      ensures RingsOf(bufs) == old(RingsOf(bufs))[b := Push(old(RingsOf(bufs))[b], pk)]
    {
      hide Waiting;
      ok := bufs[b].Write(pk);
    }

    method ReadBuf(b: nat) returns (p: Option<Packet>)
      requires Sound(bufs) && b in bufs
      modifies bufs[b]
      ensures Sound(bufs) && (p.None? <==> old(RingsOf(bufs))[b].q == [])
      ensures p.None? ==> RingsOf(bufs) == old(RingsOf(bufs))
      ensures p.Some? ==> var x := old(RingsOf(bufs))[b];
        p.value == x.q[0] && RingsOf(bufs) == old(RingsOf(bufs))[b := x.(q := x.q[1..])]
    {
      hide Waiting;
      p := bufs[b].Read();
    }

    method MakeBuf(b: nat, big: bool)
      requires Sound(bufs) && b !in bufs
      modifies `bufs
      ensures bufs.Keys == old(bufs).Keys + {b} && (forall d | d in old(bufs) :: bufs[d] == old(bufs)[d])
      ensures fresh(bufs[b]) && fresh(bufs[b].packet)
      ensures Sound(bufs) && RingsOf(bufs) == old(RingsOf(bufs))[b := Ring(if big then BIG else SMALL, [])]
    {
      hide Waiting, Slot, Sound, RingsOf;
      var buf := new PortBuf(big);
      assert forall d | d in bufs :: bufs[d] != buf && bufs[d].packet != buf.packet;
      AddRing(bufs, b, buf);
      bufs := bufs[b := buf];
    }

    method DropBuf(b: nat)
      requires Sound(bufs) && b in bufs
      modifies `bufs
      ensures bufs == old(bufs) - {b} && Sound(bufs) && RingsOf(bufs) == old(RingsOf(bufs)) - {b}
    {
      hide Waiting;
      bufs := bufs - {b};
    }

    // port_create up to the end of its first critical section.
    method PortLookup(t: nat, name: string, mode: Mode) returns (st: Status, w: nat)
      requires Valid() && t !in creating
      modifies `creating
      ensures Sound(bufs) && View() == Apply(old(View()), DoLookup(t, name, mode))
      ensures Valid()
      ensures st == InvalidArgs <==> |name| >= NAME_LEN
      ensures st == AlreadyExists ==> w == Find(wps, name) < |wps| && wps[w].open
      ensures st == Busy ==> w == Find(wps, name) < |wps| && !wps[w].open
      ensures st == Ok <==> |name| < NAME_LEN && Find(wps, name) == |wps|
      ensures st in {Ok, AlreadyExists, Busy, InvalidArgs}
    {
      hide Inv, Sound, RingsOf;
      NeverRefused(mode);
      if Refused(mode) || |name| >= NAME_LEN { return InvalidArgs, 0; }
      w := FindName(name);
      if w < |wps| {
        return (if wps[w].open then AlreadyExists else Busy), w;
      }
      creating := creating[t := Pending(name, mode)];
      st := Ok;
    }

    // The rest of port_create, once there was memory for the port and its ring.
    method PortAdd(t: nat) returns (w: nat)
      requires Valid() && t in creating
      modifies this
      ensures Sound(bufs) && View() == Apply(old(View()), DoAdd(t)) && w == |old(wps)|
      ensures Valid()
      ensures forall b | b in bufs ::
        (b in old(bufs) && bufs[b] == old(bufs)[b]) || (fresh(bufs[b]) && fresh(bufs[b].packet))
    {
      hide Linked, Owned, Sound, RingsOf;
      var c := creating[t];
      w := |wps|;
      MakeBuf(next, Has(c.mode, BIG_BUFFER));
      wps := wps + [Wp(c.name, c.mode, true, Some(next), [])];
      next := next + 1;
      creating := creating - {t};
    }

    method PortOpen(name: string) returns (st: Status, r: nat)
      requires Valid()
      modifies this
      ensures Sound(bufs) && View() == Apply(old(View()), DoOpen(name))
      ensures Valid()
      ensures st == NotFound <==> Find(old(wps), name) == |old(wps)|
      ensures st == NotAllowed <==>
        var w := Find(old(wps), name); w < |old(wps)| && old(wps)[w].buf.None? && Has(old(wps)[w].mode, UNICAST)
      ensures st in {Ok, NotFound, NotAllowed} && (st == Ok ==> r == old(next))
      ensures forall b | b in bufs ::
        (b in old(bufs) && bufs[b] == old(bufs)[b]) || (fresh(bufs[b]) && fresh(bufs[b].packet))
    {
      hide Inv, Apply, Sound, RingsOf;
      OpenApplies(View(), name);
      r := 0;
      var w := FindName(name);
      if w == |wps| { return NotFound, 0; }
      if wps[w].buf.Some? {
        r := OpenFirst(w);
      } else {
        if Has(wps[w].mode, UNICAST) { return NotAllowed, 0; }
        r := OpenFurther(w);
      }
      st := Ok;
    }

    // The first read port takes over the ring.
    method OpenFirst(w: nat) returns (r: nat)
      requires Sound(bufs) && w < |wps| && wps[w].buf.Some?
      modifies `wps, `rps, `next
      ensures Sound(bufs) && View() == First(old(View()), w) && r == old(next)
    {
      hide Sound, RingsOf;
      r := next;
      rps := rps[r := Rp(wps[w].buf.value, w)];
      wps := wps[w := wps[w].(readers := wps[w].readers + [r])];
      wps := wps[w := wps[w].(buf := None)];
      next := next + 1;
    }

    method OpenFurther(w: nat) returns (r: nat)
      requires Sound(bufs) && w < |wps| && next + 1 !in bufs
      modifies this
      ensures Sound(bufs) && View() == Further(old(View()), w) && r == old(next)
      ensures forall b | b in bufs ::
        (b in old(bufs) && bufs[b] == old(bufs)[b]) || (fresh(bufs[b]) && fresh(bufs[b].packet))
    {
      hide Sound, RingsOf;
      r := next;
      MakeBuf(next + 1, false);
      wps := wps[w := wps[w].(readers := wps[w].readers + [r])];
      rps := rps[r := Rp(next + 1, w)];
      next := next + 2;
    }

    // port_write: the status says whether every ring it went to took the batch.
    method PortWrite(w: nat, pk: seq<Packet>) returns (st: Status)
      requires Valid() && w < |wps|
      modifies bufs.Values, set b | b in bufs :: bufs[b].packet
      ensures Sound(bufs) && View() == Apply(old(View()), DoWrite(w, pk))
      ensures Valid()
      ensures st == BadHandle <==> !wps[w].open
      ensures st == NotEnoughBuffer <==> wps[w].open && wps[w].buf.Some? && !Backlogged(old(View()), w, pk)
      ensures st == PartialWrite <==> wps[w].open && wps[w].buf.None? && !TookAll(old(View()), wps[w].readers, pk)
      ensures st in {Ok, BadHandle, NotEnoughBuffer, PartialWrite}
    {
      hide Linked, Owned, Sound, RingsOf, TookAll, WriteAll;
      ghost var s := View();
      if !wps[w].open { return BadHandle; }
      st := Ok;
      if wps[w].buf.Some? {
        WriterRing(s, w);
        var ok := WriteBuf(wps[w].buf.value, pk);
        if !ok { st := NotEnoughBuffer; }
        return;
      }
      st := WriteReaders(w, pk);
    }

    method WriteReaders(w: nat, pk: seq<Packet>) returns (st: Status)
      requires Valid() && w < |wps|
      modifies bufs.Values, set b | b in bufs :: bufs[b].packet
      ensures Sound(bufs) && View() == old(View()).(rings := WriteAll(old(View()).rings, rps, wps[w].readers, pk))
      ensures st == Ok || st == PartialWrite
      ensures st == Ok <==> TookAll(old(View()), wps[w].readers, pk)
    {
      hide Fits, Inv, WriteAll, TookAll, Sound, RingsOf;
      ghost var s := View();
      st := Ok;
      var i := 0;
      var readers := wps[w].readers;
      WriteNone(s, readers, pk);
      while i < |readers|
        invariant 0 <= i <= |readers| && Sound(bufs)
        invariant View() == s.(rings := WriteAll(s.rings, rps, readers[..i], pk))
        invariant st == Ok || st == PartialWrite
        invariant st == Ok <==> TookAll(s, readers[..i], pk)
      {
        ReaderTurn(s, w, i, pk);
        var ok := WriteBuf(rps[readers[i]].buf, pk);
        if !ok { st := PartialWrite; }
        i := i + 1;
      }
      assert readers[..|readers|] == readers;
    }

    method PortRead(r: nat) returns (p: Option<Packet>)
      requires Valid() && r in rps
      modifies bufs.Values
      ensures Sound(bufs) && View() == Apply(old(View()), DoRead(r))
      ensures Valid()
      ensures Returned(old(View()), DoRead(r), r) == if p.None? then [] else [p.value]
    {
      hide Linked, Owned, Sound, RingsOf;
      ReadInv(View(), r);
      p := ReadBuf(rps[r].buf);
    }

    method PortClose(r: nat)
      requires Valid() && r in rps
      modifies this
      ensures Sound(bufs) && View() == Apply(old(View()), DoClose(r))
      ensures Valid()
      ensures forall b | b in bufs ::
        (b in old(bufs) && bufs[b] == old(bufs)[b]) || (fresh(bufs[b]) && fresh(bufs[b].packet))
    {
      hide Inv, Apply, Sound, RingsOf;
      OwnRing(View(), r);
      CloseApplies(View(), r);
      var w, b := rps[r].wport, rps[r].buf;
      var left := Cut(wps[w].readers, Index(wps[w].readers, r));
      wps := wps[w := wps[w].(readers := left)];
      if left == [] {
        wps := wps[w := wps[w].(buf := Some(b))];
      } else {
        DropBuf(b);
      }
      rps := rps - {r};
    }

    method PortCloseWriter(w: nat)
      requires Valid() && w < |wps|
      modifies `wps
      ensures Sound(bufs) && View() == Apply(old(View()), DoCloseWriter(w))
      ensures Valid()
    {
      hide Inv, Sound, RingsOf;
      wps := wps[w := wps[w].(open := false)];
    }
  }

  // Every one of these readers had room for the batch.
  ghost predicate TookAll(s: State, readers: seq<nat>, pk: seq<Packet>) {
    forall i | 0 <= i < |readers| ::
      readers[i] in s.rps && s.rps[readers[i]].buf in s.rings && Fits(s.rings[s.rps[readers[i]].buf], pk)
  }

  lemma WriteNone(s: State, readers: seq<nat>, pk: seq<Packet>)
    ensures WriteAll(s.rings, s.rps, readers[..0], pk) == s.rings && TookAll(s, readers[..0], pk)
  {
  }

  // When the loop reaches a reader its ring is as it was.
  lemma RingUntouched(s: State, w: nat, i: nat, pk: seq<Packet>)
    requires Inv(s) && w < |s.wps| && i < |s.wps[w].readers|
    ensures var q := s.wps[w].readers; var r := q[i];
      r in s.rps && s.rps[r].buf in s.rings &&
        WriteAll(s.rings, s.rps, q[..i], pk)[s.rps[r].buf] == s.rings[s.rps[r].buf]
  {
    hide WriteAll, Push;
    var q := s.wps[w].readers;
    var b := s.rps[q[i]].buf;
    assert Owns(s, Reader(q[i]), b);
    WriteAllIs(s, q[..i], pk, b);
    forall j | 0 <= j < i
      ensures s.rps[q[..i][j]].buf != b
    {
      OtherRing(s, q[j], q[i]);
    }
  }

  lemma ReaderTurn(s: State, w: nat, i: nat, pk: seq<Packet>)
    requires Inv(s) && w < |s.wps| && i < |s.wps[w].readers|
    ensures var q := s.wps[w].readers; var r := q[i];
      && r in s.rps && s.rps[r].buf in s.rings &&
         WriteAll(s.rings, s.rps, q[..i], pk)[s.rps[r].buf] == s.rings[s.rps[r].buf]
      && WriteAll(s.rings, s.rps, q[..i + 1], pk) ==
         WriteAll(s.rings, s.rps, q[..i], pk)[s.rps[r].buf := Push(s.rings[s.rps[r].buf], pk)]
      && (TookAll(s, q[..i], pk) && Fits(s.rings[s.rps[r].buf], pk) <==> TookAll(s, q[..i + 1], pk))
  {
    hide Inv;
    RingUntouched(s, w, i, pk);
    var q := s.wps[w].readers;
    assert q[..i + 1][..i] == q[..i];
  }

  // Every reader accepted the batch exactly when every ring had room for it.
  lemma WroteAll(s: State, w: nat, pk: seq<Packet>)
    requires Inv(s) && w < |s.wps| && s.wps[w].open
    ensures TookAll(s, s.wps[w].readers, pk) <==>
      forall r | r in s.rps && s.rps[r].wport == w :: Fits(s.rings[OwnRingOf(s, r)], pk)
  {
    var q := s.wps[w].readers;
    if TookAll(s, q, pk) {
      forall r | r in s.rps && s.rps[r].wport == w
        ensures Fits(s.rings[OwnRingOf(s, r)], pk)
      {
        var i :| 0 <= i < |q| && q[i] == r;
      }
    } else {
      forall i | 0 <= i < |q| ensures s.rps[q[i]].buf in s.rings { OwnRing(s, q[i]); }
    }
  }

  lemma OpenApplies(s: State, name: string)
    requires Inv(s)
    ensures Apply(s, DoOpen(name)) == Open(s, name) && forall b | b in s.rings :: b < s.next
  {
    hide Linked, Owned;
  }

  lemma CloseApplies(s: State, r: nat)
    requires Inv(s) && r in s.rps
    ensures s.rps[r].wport < |s.wps| && r in s.wps[s.rps[r].wport].readers && Apply(s, DoClose(r)) == CloseReader(s, r)
  {
    hide Owned;
  }

  function OwnRingOf(s: State, r: nat): (b: nat)
    requires Inv(s) && r in s.rps
    ensures b in s.rings
  {
    OwnRing(s, r);
    s.rps[r].buf
  }

  lemma WriterRing(s: State, w: nat)
    requires Inv(s) && w < |s.wps| && s.wps[w].buf.Some?
    ensures s.wps[w].buf.value in s.rings
  {
    assert Owns(s, Writer(w), s.wps[w].buf.value);
  }

  // A write port that holds its own ring has room for the batch there.
  predicate Backlogged(s: State, w: nat, pk: seq<Packet>) {
    w < |s.wps| && s.wps[w].buf.Some? && s.wps[w].buf.value in s.rings && Fits(s.rings[s.wps[w].buf.value], pk)
  }
}
