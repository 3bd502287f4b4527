/** The ports of kernel/port.c with each ring held by value: a write port has a backlog or a list of readers, each with
    a queue of its own. What every operation does, and that moving rings between owners is moving what they hold. */
module PortModel {
  import opened Lists
  import opened Options
  import opened Port

  datatype Seat = Seat(id: nat, ring: Ring)

  // own is the backlog of a port that nobody reads.
  datatype Station = Station(name: string, mode: Mode, open: bool, own: Option<Ring>, seats: seq<Seat>)

  // ---- the simple form ----

  // The whole batch or nothing.
  function Offered(b: Ring, pk: seq<Packet>): (r: Ring) {
    if |b.q| + |pk| <= b.cap then Ring(b.cap, b.q + pk) else b
  }

  function Named(m: seq<Station>, name: string): (k: nat)
    ensures k <= |m| && (k < |m| ==> m[k].name == name) && forall j | 0 <= j < k :: m[j].name != name
  {
    if m == [] || m[0].name == name then 0 else 1 + Named(m[1..], name)
  }

  function Written(p: Station, pk: seq<Packet>): (r: Station) {
    if !p.open then p
    else if p.own.Some? then p.(own := Some(Offered(p.own.value, pk)))
    else
      p.(seats := seq(|p.seats|, i requires 0 <= i < |p.seats| => Seat(p.seats[i].id, Offered(p.seats[i].ring, pk))))
  }

  // Reader id has taken its oldest packet.
  function Taken(p: Station, id: nat): (r: Station) {
    p.(seats := seq(|p.seats|, i requires 0 <= i < |p.seats| =>
      if p.seats[i].id == id && p.seats[i].ring.q != []
      then Seat(id, Ring(p.seats[i].ring.cap, p.seats[i].ring.q[1..])) else p.seats[i]))
  }

  function Seated(l: seq<Seat>, id: nat): (i: nat)
    ensures i <= |l| && (i < |l| ==> l[i].id == id) && forall j | 0 <= j < i :: l[j].id != id
  {
    if l == [] || l[0].id == id then 0 else 1 + Seated(l[1..], id)
  }

  // Reader id leaves; the last one leaves its ring as the backlog.
  function Vacated(p: Station, id: nat): (r: Station) {
    var i := Seated(p.seats, id);
    if i == |p.seats| then p
    else if |p.seats| == 1 then p.(own := Some(p.seats[0].ring), seats := [])
    else p.(seats := p.seats[..i] + p.seats[i + 1..])
  }

  // A new reader takes the backlog, or a queue of its own for 8 packets; a unicast port has one reader.
  function Opened(p: Station, id: nat): (r: Station) {
    if p.own.Some? then p.(own := None, seats := p.seats + [Seat(id, p.own.value)])
    else if Has(p.mode, UNICAST) then p
    else p.(seats := p.seats + [Seat(id, Ring(8, []))])
  }

  // Station w after the step; id is the number that a new reader gets.
  function StationAfter(m: seq<Station>, e: Step, id: nat, w: nat): (p: Station)
    requires w < |m|
  {
    match e
    case DoOpen(name) => if Named(m, name) == w then Opened(m[w], id) else m[w]
    case DoWrite(v, pk) => if v == w then Written(m[w], pk) else m[w]
    case DoRead(r) => Taken(m[w], r)
    case DoClose(r) => Vacated(m[w], r)
    case DoCloseWriter(v) => if v == w then m[w].(open := false) else m[w]
    case _ => m[w]
  }

  // A port that is created: open, with an empty backlog of 8 packets, or of 64 if a big buffer was asked for.
  function Newcomer(creating: map<nat, Pending>, e: Step): (m: seq<Station>) {
    if e.DoAdd? && e.t in creating then
      var c := creating[e.t];
      [Station(c.name, c.mode, true, Some(Ring(if c.mode & 2 != 0 then 64 else 8, [])), [])]
    else []
  }

  function Simple(m: seq<Station>, creating: map<nat, Pending>, e: Step, id: nat): (r: seq<Station>)
    ensures |r| >= |m|
  {
    seq(|m|, w requires 0 <= w < |m| => StationAfter(m, e, id, w)) + Newcomer(creating, e)
  }

  // ---- what the ports stand for ----

  lemma RingsThere(s: State, w: nat)
    requires Inv(s) && w < |s.wps|
    ensures s.wps[w].buf.Some? ==> s.wps[w].buf.value in s.rings
    ensures forall i | 0 <= i < |s.wps[w].readers| ::
      s.wps[w].readers[i] in s.rps && s.rps[s.wps[w].readers[i]].buf in s.rings
  {
    if s.wps[w].buf.Some? { assert Owns(s, Writer(w), s.wps[w].buf.value); }
    forall i | 0 <= i < |s.wps[w].readers|
      ensures s.rps[s.wps[w].readers[i]].buf in s.rings
    {
      assert Owns(s, Reader(s.wps[w].readers[i]), s.rps[s.wps[w].readers[i]].buf);
    }
  }

  function SeatsOf(s: State, w: nat): (l: seq<Seat>)
    requires Inv(s) && w < |s.wps|
    ensures |l| == |s.wps[w].readers|
  {
    RingsThere(s, w);
    seq(|s.wps[w].readers|, i requires 0 <= i < |s.wps[w].readers| =>
      Seat(s.wps[w].readers[i], s.rings[s.rps[s.wps[w].readers[i]].buf]))
  }

  function StationOf(s: State, w: nat): (p: Station)
    requires Inv(s) && w < |s.wps|
  {
    RingsThere(s, w);
    var x := s.wps[w];
    Station(x.name, x.mode, x.open, if x.buf.Some? then Some(s.rings[x.buf.value]) else None, SeatsOf(s, w))
  }

  function Abs(s: State): (m: seq<Station>)
    requires Inv(s)
    ensures |m| == |s.wps| && forall w | 0 <= w < |m| :: m[w] == StationOf(s, w)
  {
    seq(|s.wps|, w requires 0 <= w < |s.wps| => StationOf(s, w))
  }

  lemma NamedIs(s: State, name: string)
    requires Inv(s)
    ensures Named(Abs(s), name) == Find(s.wps, name)
  {
    var k, j := Named(Abs(s), name), Find(s.wps, name);
    assert k < |s.wps| ==> s.wps[k].name == name;
    assert j < |s.wps| ==> Abs(s)[j].name == name;
  }

  // Whose reader r is.
  lemma ReaderOf(s: State, w: nat, i: nat)
    requires Inv(s) && w < |s.wps| && i < |s.wps[w].readers|
    ensures s.wps[w].readers[i] in s.rps && s.rps[s.wps[w].readers[i]].wport == w
  {
  }

  lemma OwnRingsApart(s: State, v: nat, w: nat)
    requires Inv(s) && v < |s.wps| && w < |s.wps| && v != w && s.wps[v].buf.Some? && s.wps[w].buf.Some?
    ensures s.wps[v].buf != s.wps[w].buf
  {
    assert Owns(s, Writer(v), s.wps[v].buf.value);
    assert Owns(s, Writer(w), s.wps[w].buf.value);
  }

  lemma WrittenOwn(s: State, v: nat, pk: seq<Packet>, w: nat)
    requires Inv(s) && v < |s.wps| && w < |s.wps| && s.wps[v].open && s.wps[v].buf.Some? && Inv(Write(s, v, pk))
    ensures StationOf(Write(s, v, pk), w) == if v == w then Written(StationOf(s, w), pk) else StationOf(s, w)
  {
    hide Inv, WriteAll;
    RingsThere(s, v);
    RingsThere(s, w);
    var t := Write(s, v, pk);
    RingsThere(t, w);
    if v != w && s.wps[w].buf.Some? { OwnRingsApart(s, v, w); }
    forall i | 0 <= i < |s.wps[w].readers|
      ensures SeatsOf(t, w)[i] == SeatsOf(s, w)[i]
    {
      WriterNotReader(s, v, s.wps[w].readers[i]);
    }
    assert SeatsOf(t, w) == SeatsOf(s, w);
  }

  lemma WrittenReaders(s: State, v: nat, pk: seq<Packet>, w: nat)
    requires Inv(s) && v < |s.wps| && w < |s.wps| && s.wps[v].open && s.wps[v].buf.None? && Inv(Write(s, v, pk))
    ensures StationOf(Write(s, v, pk), w) == if v == w then Written(StationOf(s, w), pk) else StationOf(s, w)
  {
    hide Inv, WriteAll;
    RingsThere(s, v);
    RingsThere(s, w);
    var t := Write(s, v, pk);
    RingsThere(t, w);
    if s.wps[w].buf.Some? { OwnRingKept(s, v, pk, w); }
    forall i | 0 <= i < |s.wps[w].readers|
      ensures SeatsOf(t, w)[i] ==
        if v == w then Seat(s.wps[w].readers[i], Offered(SeatsOf(s, w)[i].ring, pk)) else SeatsOf(s, w)[i]
    {
      ReaderOf(s, w, i);
      ReaderGets(s, v, pk, s.wps[w].readers[i]);
    }
    if v == w {
      assert StationOf(s, w).own == None;
      assert SeatsOf(t, w) == Written(StationOf(s, w), pk).seats;
    } else {
      assert SeatsOf(t, w) == SeatsOf(s, w);
    }
  }

  // A batch for the readers of v leaves the backlog of w alone.
  lemma OwnRingKept(s: State, v: nat, pk: seq<Packet>, w: nat)
    requires Inv(s) && v < |s.wps| && w < |s.wps| && s.wps[v].buf.None? && s.wps[w].buf.Some?
    requires s.wps[w].buf.value in s.rings
    ensures WriteAll(s.rings, s.rps, s.wps[v].readers, pk)[s.wps[w].buf.value] == s.rings[s.wps[w].buf.value]
  {
    var b, q := s.wps[w].buf.value, s.wps[v].readers;
    WriteAllIs(s, q, pk, b);
    forall i | 0 <= i < |q|
      ensures s.rps[q[i]].buf != b
    {
      WriterNotReader(s, w, q[i]);
    }
  }

  lemma WriteIs(s: State, v: nat, pk: seq<Packet>, w: nat)
    requires Inv(s) && v < |s.wps| && w < |s.wps| && Inv(Write(s, v, pk))
    ensures StationOf(Write(s, v, pk), w) == StationAfter(Abs(s), DoWrite(v, pk), s.next, w)
  {
    hide Inv, Written, Write, StationOf;
    if !s.wps[v].open {
      ClosedKeeps(s, v, pk);
    } else if s.wps[v].buf.Some? {
      WrittenOwn(s, v, pk, w);
    } else {
      WrittenReaders(s, v, pk, w);
    }
  }

  lemma ClosedKeeps(s: State, v: nat, pk: seq<Packet>)
    requires Inv(s) && v < |s.wps| && !s.wps[v].open
    ensures Write(s, v, pk) == s && Written(StationOf(s, v), pk) == StationOf(s, v)
  {
  }

  lemma ReadIs(s: State, r: nat, w: nat)
    requires Inv(s) && r in s.rps && w < |s.wps| && s.rps[r].buf in s.rings && Inv(Read(s, r))
    ensures StationOf(Read(s, r), w) == Taken(StationOf(s, w), r)
  {
    hide Inv;
    RingsThere(s, w);
    var t := Read(s, r);
    RingsThere(t, w);
    if s.wps[w].buf.Some? { WriterNotReader(s, w, r); }
    forall i | 0 <= i < |s.wps[w].readers|
      ensures SeatsOf(t, w)[i] == Taken(StationOf(s, w), r).seats[i]
    {
      var x := s.wps[w].readers[i];
      if x != r { OtherRing(s, r, x); }
    }
    assert SeatsOf(t, w) == Taken(StationOf(s, w), r).seats;
  }

  lemma SeatedIs(s: State, w: nat, r: nat)
    requires Inv(s) && w < |s.wps|
    ensures Seated(SeatsOf(s, w), r) == if r in s.wps[w].readers then Index(s.wps[w].readers, r) else |s.wps[w].readers|
  {
    var q, k := s.wps[w].readers, Seated(SeatsOf(s, w), r);
    assert forall i | 0 <= i < |q| :: SeatsOf(s, w)[i].id == q[i];
    if k < |q| { assert q[k] == r; }
    if r in q { assert SeatsOf(s, w)[Index(q, r)].id == r; }
  }

  lemma CloseIs(s: State, r: nat, w: nat)
    requires Inv(s) && r in s.rps && w < |s.wps| && Inv(CloseReader(s, r))
    ensures StationOf(CloseReader(s, r), w) == Vacated(StationOf(s, w), r)
  {
    hide Inv, Index, Seated;
    SeatedIs(s, w, r);
    if s.rps[r].wport == w {
      CloseOwn(s, r);
    } else {
      CloseOther(s, r, w);
    }
  }

  lemma CloseOther(s: State, r: nat, w: nat)
    requires Inv(s) && r in s.rps && w < |s.wps| && s.rps[r].wport != w && Inv(CloseReader(s, r))
    ensures r !in s.wps[w].readers && StationOf(CloseReader(s, r), w) == StationOf(s, w)
  {
    RingsThere(s, w);
    var t := CloseReader(s, r);
    RingsThere(t, w);
    if s.wps[w].buf.Some? { WriterNotReader(s, w, r); }
    forall i | 0 <= i < |s.wps[w].readers|
      ensures s.wps[w].readers[i] != r && SeatsOf(t, w)[i] == SeatsOf(s, w)[i]
    {
      ReaderOf(s, w, i);
      OtherRing(s, s.wps[w].readers[i], r);
    }
    assert SeatsOf(t, w) == SeatsOf(s, w);
  }

  lemma ReaderLinked(s: State, r: nat)
    requires Inv(s) && r in s.rps
    ensures s.rps[r].wport < |s.wps| && r in s.wps[s.rps[r].wport].readers && NoDups(s.wps[s.rps[r].wport].readers)
    ensures s.wps[s.rps[r].wport].buf.None?
  {
  }

  lemma CloseOwn(s: State, r: nat)
    requires Inv(s) && r in s.rps && s.rps[r].wport < |s.wps| && Inv(CloseReader(s, r))
    ensures var w := s.rps[r].wport;
      && r in s.wps[w].readers && |s.wps| == |CloseReader(s, r).wps|
      && var i, p := Index(s.wps[w].readers, r), StationOf(s, w);
         StationOf(CloseReader(s, r), w) ==
           if |p.seats| == 1 then p.(own := Some(p.seats[0].ring), seats := [])
           else p.(seats := p.seats[..i] + p.seats[i + 1..])
  {
    hide Inv, Index;
    ReaderLinked(s, r);
    var w := s.rps[r].wport;
    if |s.wps[w].readers| > 1 {
      CloseFurther(s, r);
    } else {
      CloseLast(s, r);
    }
  }

  lemma CloseLast(s: State, r: nat)
    requires Inv(s) && r in s.rps && s.rps[r].wport < |s.wps| && Inv(CloseReader(s, r))
    requires s.wps[s.rps[r].wport].readers == [r]
    ensures var w := s.rps[r].wport; var p := StationOf(s, w);
      && |s.wps| == |CloseReader(s, r).wps|
      && StationOf(CloseReader(s, r), w) == p.(own := Some(p.seats[0].ring), seats := [])
  {
    hide Inv;
    var t, w := CloseReader(s, r), s.rps[r].wport;
    RingsThere(s, w);
    RingsThere(t, w);
    assert SeatsOf(t, w) == [];
  }

  lemma CloseFurther(s: State, r: nat)
    requires Inv(s) && r in s.rps && s.rps[r].wport < |s.wps| && Inv(CloseReader(s, r))
    requires r in s.wps[s.rps[r].wport].readers && |s.wps[s.rps[r].wport].readers| > 1
    ensures var w := s.rps[r].wport; var i, p := Index(s.wps[w].readers, r), StationOf(s, w);
      && |s.wps| == |CloseReader(s, r).wps|
      && StationOf(CloseReader(s, r), w) == p.(seats := p.seats[..i] + p.seats[i + 1..])
  {
    hide Inv, Index, CloseReader;
    ReaderLinked(s, r);
    CloseFields(s, r);
    var t, w := CloseReader(s, r), s.rps[r].wport;
    RingsThere(s, w);
    RingsThere(t, w);
    var q, i := s.wps[w].readers, Index(s.wps[w].readers, r);
    forall j: nat | j < |q| - 1
      ensures SeatsOf(t, w)[j] == SeatsOf(s, w)[if j < i then j else j + 1]
    {
      var k := if j < i then j else j + 1;
      assert t.wps[w].readers[j] == q[k] != r;
      ReaderOf(s, w, k);
      OtherRing(s, q[k], r);
    }
    assert SeatsOf(t, w) == SeatsOf(s, w)[..i] + SeatsOf(s, w)[i + 1..];
  }

  lemma CloseFields(s: State, r: nat)
    requires Inv(s) && r in s.rps && s.rps[r].wport < |s.wps|
    requires r in s.wps[s.rps[r].wport].readers && |s.wps[s.rps[r].wport].readers| > 1
    ensures var w := s.rps[r].wport; var i, t := Index(s.wps[w].readers, r), CloseReader(s, r);
      && t.rps == s.rps - {r} && t.rings == s.rings - {s.rps[r].buf}
      && t.wps == s.wps[w := s.wps[w].(readers := s.wps[w].readers[..i] + s.wps[w].readers[i + 1..])]
  {
    hide Inv, Index;
  }

  lemma SeatsSame(s: State, t: State, w: nat)
    requires Inv(s) && Inv(t) && w < |s.wps| && w < |t.wps| && s.wps[w].readers <= t.wps[w].readers
    requires forall r | r in s.rps :: r in t.rps && t.rps[r] == s.rps[r]
    requires forall b | b in s.rings :: b in t.rings && t.rings[b] == s.rings[b]
    ensures SeatsOf(s, w) <= SeatsOf(t, w)
  {
    hide Inv;
    RingsThere(s, w);
    RingsThere(t, w);
    assert forall i | 0 <= i < |s.wps[w].readers| :: SeatsOf(t, w)[i] == SeatsOf(s, w)[i];
  }

  lemma NextIsNew(s: State)
    requires Inv(s)
    ensures s.next !in s.rps && s.next !in s.rings && s.next + 1 !in s.rings
  {
  }

  lemma OpenFirst(s: State, w: nat)
    requires Inv(s) && w < |s.wps| && s.wps[w].buf.Some? && Inv(First(s, w))
    ensures StationOf(First(s, w), w) == Opened(StationOf(s, w), s.next)
  {
    hide Inv;
    var t := First(s, w);
    NextIsNew(s);
    RingsThere(s, w);
    RingsThere(t, w);
    SeatsSame(s, t, w);
    assert SeatsOf(t, w) == SeatsOf(s, w) + [Seat(s.next, s.rings[s.wps[w].buf.value])];
  }

  lemma OpenFurther(s: State, w: nat)
    requires Inv(s) && w < |s.wps| && s.wps[w].buf.None? && Inv(Further(s, w)) && !Has(s.wps[w].mode, UNICAST)
    ensures StationOf(Further(s, w), w) == Opened(StationOf(s, w), s.next)
  {
    hide Inv, Has;
    var t := Further(s, w);
    NextIsNew(s);
    RingsThere(s, w);
    RingsThere(t, w);
    SeatsSame(s, t, w);
    assert SeatsOf(t, w) == SeatsOf(s, w) + [Seat(s.next, Ring(8, []))];
  }

  lemma OpenOther(s: State, t: State, v: nat, w: nat)
    requires Inv(s) && Inv(t) && v < |s.wps| && w < |s.wps| && v != w
    requires (s.wps[v].buf.Some? && t == First(s, v)) || (s.wps[v].buf.None? && t == Further(s, v))
    ensures StationOf(t, w) == StationOf(s, w)
  {
    hide Inv;
    NextIsNew(s);
    RingsThere(s, w);
    RingsThere(t, w);
    SeatsSame(s, t, w);
  }

  lemma OpenIs(s: State, name: string, w: nat)
    requires Inv(s) && w < |s.wps| && Inv(Open(s, name))
    ensures StationOf(Open(s, name), w) ==
      if Find(s.wps, name) == w then Opened(StationOf(s, w), s.next) else StationOf(s, w)
  {
    hide Inv, Find, Has, First, Further;
    var v := Find(s.wps, name);
    if v < |s.wps| {
      if v != w {
        if Open(s, name) != s { OpenOther(s, Open(s, name), v, w); }
      } else if s.wps[w].buf.Some? {
        OpenFirst(s, w);
      } else if !Has(s.wps[w].mode, UNICAST) {
        OpenFurther(s, w);
      }
    }
  }

  lemma AddIs(s: State, t: nat, w: nat)
    requires Inv(s) && t in s.creating && w <= |s.wps| && Inv(Add(s, t))
    ensures w < |s.wps| ==> StationOf(Add(s, t), w) == StationOf(s, w)
    ensures w == |s.wps| ==> [StationOf(Add(s, t), w)] == Newcomer(s.creating, DoAdd(t))
  {
    var r := Add(s, t);
    RingsThere(r, w);
    if w < |s.wps| {
      RingsThere(s, w);
      forall i | 0 <= i < |s.wps[w].readers|
        ensures SeatsOf(r, w)[i] == SeatsOf(s, w)[i]
      {
        OwnRing(s, s.wps[w].readers[i]);
      }
      assert SeatsOf(r, w) == SeatsOf(s, w);
      NextFree(s);
    } else {
      assert SeatsOf(r, w) == [];
    }
  }

  // Records of who is creating a port, and whether a port still takes writes, are about no ring.
  lemma PlainIs(s: State, e: Step, w: nat)
    requires Inv(s) && Enabled(s, e) && w < |s.wps| && (e.DoLookup? || e.DoGiveUp? || e.DoCloseWriter?)
    ensures w < |Apply(s, e).wps| && StationOf(Apply(s, e), w) == StationAfter(Abs(s), e, s.next, w)
  {
    var t := Apply(s, e);
    RingsThere(s, w);
    RingsThere(t, w);
    assert SeatsOf(t, w) == SeatsOf(s, w);
  }

  lemma StationIs(s: State, e: Step, w: nat)
    requires Inv(s) && Enabled(s, e) && w < |s.wps|
    ensures w < |Apply(s, e).wps| && StationOf(Apply(s, e), w) == StationAfter(Abs(s), e, s.next, w)
  {
    hide Inv, StationOf, Opened, Taken, Vacated, Written, Find, Named;
    match e
    case DoOpen(name) =>
      OpenInv(s, name);
      OpenIs(s, name, w);
      NamedIs(s, name);
    case DoWrite(v, pk) =>
      WriteInv(s, v, pk);
      WriteIs(s, v, pk, w);
    case DoRead(r) =>
      ReadInv(s, r);
      ReadIs(s, r, w);
    case DoClose(r) =>
      ReaderLinked(s, r);
      CloseReaderInv(s, r);
      CloseIs(s, r, w);
    case DoAdd(t) =>
      AddInv(s, t);
      AddIs(s, t, w);
    case _ => PlainIs(s, e, w);
  }

  lemma CountIs(s: State, e: Step)
    requires Inv(s) && Enabled(s, e)
    ensures |Apply(s, e).wps| == |s.wps| + |Newcomer(s.creating, e)|
  {
    hide Inv, Find, WriteAll;
    if e.DoClose? { ReaderLinked(s, e.r); }
    if e.DoRead? { OwnRing(s, e.r); }
  }

  // Every operation on the ports and their rings is the operation on values.
  lemma StepIs(s: State, e: Step)
    requires Inv(s) && Enabled(s, e)
    ensures Abs(Apply(s, e)) == Simple(Abs(s), s.creating, e, s.next)
  {
    hide Inv, StationOf, StationAfter, Apply, Newcomer, Enabled;
    var r, m := Apply(s, e), Simple(Abs(s), s.creating, e, s.next);
    CountIs(s, e);
    forall w: nat | w < |s.wps|
      ensures Abs(r)[w] == m[w]
    {
      StationIs(s, e, w);
    }
    LastIs(s, e);
    assert Abs(r) == m;
  }

  lemma LastIs(s: State, e: Step)
    requires Inv(s) && Enabled(s, e)
    ensures forall k: nat | k < |Newcomer(s.creating, e)| ::
      |s.wps| + k < |Apply(s, e).wps| && Abs(Apply(s, e))[|s.wps| + k] == Newcomer(s.creating, e)[k]
  {
    hide Inv, StationOf, StationAfter, Add, Write, Read, Open, CloseReader, Lookup;
    if e.DoAdd? {
      AddInv(s, e.t);
      CountIs(s, e);
      AddIs(s, e.t, |s.wps|);
      assert Apply(s, e) == Add(s, e.t);
    } else {
      assert Newcomer(s.creating, e) == [];
    }
  }

  // Who is between the two halves of a port_create: a lookup enters a thread if its name is short and not in use.
  lemma CreatingIs(s: State, e: Step)
    requires Inv(s) && Enabled(s, e)
    ensures Apply(s, e).creating ==
      match e
      case DoLookup(t, name, mode) =>
        if |name| < 12 && (forall k | 0 <= k < |s.wps| :: s.wps[k].name != name)
        then s.creating[t := Pending(name, mode)] else s.creating
      case DoAdd(t) => s.creating - {t}
      case DoGiveUp(t) => s.creating - {t}
      case _ => s.creating
  {
    hide Inv, WriteAll, Find;
    if e.DoLookup? { NeverRefused(e.mode); }
    if e.DoClose? { ReaderLinked(s, e.r); }
    if e.DoRead? { OwnRing(s, e.r); }
  }

  // ---- what is written before anyone reads ----

  // A backlog q of at most cap packets after the steps: each batch written to port w while it is open that still fits.
  function Backlog(cap: nat, q: seq<Packet>, open: bool, es: seq<Step>, w: nat): (r: seq<Packet>)
    decreases |es|
  {
    if es == [] then q
    else
      match es[0]
      case DoWrite(v, pk) =>
        Backlog(cap, if v == w && open && |q| + |pk| <= cap then q + pk else q, open, es[1..], w)
      case DoCloseWriter(v) => Backlog(cap, q, open && v != w, es[1..], w)
      case _ => Backlog(cap, q, open, es[1..], w)
  }

  // While nobody opens its name, a port keeps its backlog and adds to it each batch that fits, whole and in order.
  lemma {:induction false} BacklogKept(s: State, es: seq<Step>, w: nat)
    requires Inv(s) && Legal(s, es) && w < |s.wps| && StationOf(s, w).own.Some?
    requires forall e | e in es :: e != DoOpen(s.wps[w].name)
    ensures var t, b := Run(s, es), StationOf(s, w).own.value;
      && w < |t.wps| && t.wps[w].name == s.wps[w].name
      && StationOf(t, w).own == Some(Ring(b.cap, Backlog(b.cap, b.q, s.wps[w].open, es, w)))
    decreases |es|
  {
    hide Inv, Enabled, Apply, SeatsOf;
    if es != [] {
      assert es[0] in es;
      StationIs(s, es[0], w);
      OwnSeats(s, w);
      hide StationAfter;
      BacklogStep(s, es[0], w);
      var t := Apply(s, es[0]);
      assert StationOf(t, w).name == t.wps[w].name && StationOf(t, w).open == t.wps[w].open;
      assert forall e | e in es[1..] :: e in es;
      BacklogKept(t, es[1..], w);
    }
  }

  lemma OwnSeats(s: State, w: nat)
    requires Inv(s) && w < |s.wps| && StationOf(s, w).own.Some?
    ensures StationOf(s, w).seats == []
    ensures StationOf(s, w).name == s.wps[w].name && StationOf(s, w).open == s.wps[w].open
  {
  }

  lemma BacklogStep(s: State, e: Step, w: nat)
    requires Inv(s) && Enabled(s, e) && w < |s.wps| && StationOf(s, w).own.Some? && e != DoOpen(s.wps[w].name)
    ensures var p, b := StationAfter(Abs(s), e, s.next, w), StationOf(s, w).own.value;
      && p.name == s.wps[w].name && p.open == (s.wps[w].open && e != DoCloseWriter(w))
      && p.own == Some(Ring(b.cap,
           if e.DoWrite? && e.w == w && s.wps[w].open && |b.q| + |e.pk| <= b.cap then b.q + e.pk else b.q))
  {
    hide Inv, Enabled, SeatsOf;
    OwnSeats(s, w);
    if e.DoOpen? { NamedIs(s, e.name); }
  }

  // The first reader to open the port reads that backlog, in order, before anything written later.
  lemma FirstReaderReads(s: State, es: seq<Step>, w: nat, fs: seq<Step>)
    requires Inv(s) && Legal(s, es) && w < |s.wps| && StationOf(s, w).own.Some?
    requires var name := s.wps[w].name;
      (forall e | e in es :: e != DoOpen(name)) && Find(Run(s, es).wps, name) == w
    requires var t := Run(s, es); Enabled(t, DoOpen(s.wps[w].name)) && Legal(Apply(t, DoOpen(s.wps[w].name)), fs)
    requires DoClose(Run(s, es).next) !in fs
    ensures var t, b := Run(s, es), StationOf(s, w).own.value;
      var u, id := Apply(t, DoOpen(s.wps[w].name)), t.next;
      && id in u.rps && id in Run(u, fs).rps
      && Backlog(b.cap, b.q, s.wps[w].open, es, w) + AllAccepted(u, fs, id) ==
         AllReturned(u, fs, id) + Buffered(Run(u, fs), id)
  {
    hide Inv, Find, Backlog, AllAccepted, AllReturned, Legal, Run, Enabled, SeatsOf;
    var t, name := Run(s, es), s.wps[w].name;
    BacklogKept(s, es, w);
    OpenBacklog(t, name);
    Delivery(Apply(t, DoOpen(name)), fs, t.next);
  }

  // A closed write port takes nothing, ever again.
  lemma {:induction false} ClosedStays(s: State, es: seq<Step>, w: nat)
    requires Inv(s) && Legal(s, es) && w < |s.wps| && !s.wps[w].open
    ensures w < |Run(s, es).wps| && !Run(s, es).wps[w].open
    decreases |es|
  {
    hide Inv, Enabled, Apply;
    if es != [] {
      StationIs(s, es[0], w);
      ClosedStep(s, es[0], w);
      ClosedStays(Apply(s, es[0]), es[1..], w);
    }
  }

  lemma ClosedStep(s: State, e: Step, w: nat)
    requires Inv(s) && w < |s.wps|
    ensures StationOf(s, w).open == s.wps[w].open
    ensures !s.wps[w].open || e == DoCloseWriter(w) ==> !StationAfter(Abs(s), e, s.next, w).open
  {
    hide Inv;
  }

  lemma CloseCloses(s: State, w: nat)
    requires Inv(s) && Enabled(s, DoCloseWriter(w))
    ensures w < |Apply(s, DoCloseWriter(w)).wps| && !Apply(s, DoCloseWriter(w)).wps[w].open
  {
    hide Inv, Apply;
    StationIs(s, DoCloseWriter(w), w);
    ClosedStep(s, DoCloseWriter(w), w);
  }
}
