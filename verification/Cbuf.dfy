/** The circular byte buffer of lib/cbuf/cbuf.c and the event its readers wait on. */
module Cbuf {
  import opened Options
  import opened Lists
  import Event
  import WaitQueue
  import opened Rings
  import opened Rounding

  type Bytes = seq<bv8>

  function Min(a: nat, b: nat): (m: nat) {
    if a <= b then a else b
  }

  // modpow2 of the unsigned difference.
  function Used(cap: nat, head: nat, tail: nat): (n: nat)
    requires head < cap && tail < cap
    ensures n < cap
  {
    if head >= tail then head - tail else head + cap - tail
  }

  // INC_POINTER
  function Inc(cap: nat, p: nat, n: nat): (r: nat)
    requires p < cap && p + n <= cap
    ensures r < cap
  {
    if p + n == cap then 0 else p + n
  }

  // Both are arithmetic modulo the buffer length.
  lemma ModularIs(cap: nat, p: nat, n: nat, head: nat, tail: nat)
    requires p < cap && p + n <= cap && head < cap && tail < cap
    ensures Inc(cap, p, n) == (p + n) % cap && Used(cap, head, tail) == (head - tail) % cap
  {
    DivIs(p + n, cap, if p + n == cap then 1 else 0, Inc(cap, p, n));
    DivIs(head - tail, cap, if head >= tail then 0 else -1, Used(cap, head, tail));
  }

  // ---- a bounded queue and the threads that read it ----

  // Who holds the buffer's lock: nobody, a writer that has copied its bytes in and not yet signaled, or a reader that
  // has copied its bytes out and not yet cleared the event; had says whether it found any.
  datatype Phase = Free | Written | Taken(had: bool)

  // A blocking reader is about to wait on the event (retry), blocked on it, or past it and about to take the lock.
  datatype State = State(room: nat, q: Bytes, signaled: bool, phase: Phase, waiters: seq<nat>, ready: set<nat>,
    retry: set<nat>)

  datatype Step =
    | Begin(t: nat)
    | Wait(t: nat)
    | Put(data: Bytes)
    | Ring
    | Take(reader: Option<nat>, len: nat)
    | Clear

  predicate EventOk(s: State) {
    match s.phase
    case Free => s.signaled <==> s.q != []
    case Written => s.signaled ==> s.q != []
    case Taken(had) => if had then s.signaled else s.q == [] && !s.signaled
  }

  predicate Inv(s: State) {
    && |s.q| <= s.room && EventOk(s) && (s.signaled ==> s.waiters == [])
    && NoDups(s.waiters) && s.ready !! s.retry && forall t | t in s.waiters :: t !in s.ready && t !in s.retry
  }

  // The event is used outside the lock, so Begin and Wait may come at any time.
  predicate Enabled(s: State, e: Step) {
    match e
    case Begin(t) => t !in s.waiters && t !in s.ready && t !in s.retry
    case Wait(t) => t in s.retry
    case Put(_) => s.phase == Free
    case Ring => s.phase == Written
    case Take(t, _) => s.phase == Free && (t.Some? ==> t.value in s.ready)
    case Clear => s.phase.Taken?
  }

  function Accepted(s: State, e: Step): (b: Bytes)
    requires Inv(s)
  {
    if e.Put? then e.data[..Min(|e.data|, s.room - |s.q|)] else []
  }

  function Returned(s: State, e: Step): (b: Bytes)
    requires Inv(s)
  {
    if e.Take? then s.q[..Min(e.len, |s.q|)] else []
  }

  function Set(ts: seq<nat>): (r: set<nat>) {
    set t | t in ts
  }

  function Apply(s: State, e: Step): (r: State)
    requires Inv(s) && Enabled(s, e)
    ensures Inv(r) && r.room == s.room
  {
    match e
    case Begin(t) => s.(retry := s.retry + {t})
    case Wait(t) =>
      if s.signaled then s.(retry := s.retry - {t}, ready := s.ready + {t})
      else s.(retry := s.retry - {t}, waiters := s.waiters + [t])
    case Put(_) => s.(q := s.q + Accepted(s, e), phase := Written)
    case Ring =>
      if s.q != [] &&
        !s.signaled then s.(signaled := true, ready := s.ready + Set(s.waiters), waiters := [], phase := Free)
      else s.(phase := Free)
    case Take(t, _) =>
      var b := Returned(s, e);
      var r := s.(q := s.q[|b|..], phase := Taken(s.q != []));
      if t.None? then r
      else if b == [] then r.(ready := s.ready - {t.value}, retry := s.retry + {t.value})
      else r.(ready := s.ready - {t.value})
    case Clear => s.(signaled := s.signaled && !(s.phase.had && s.q == []), phase := Free)
  }

  predicate Legal(s: State, es: seq<Step>)
    requires Inv(s)
    decreases |es|
  {
    es == [] || (Enabled(s, es[0]) && Legal(Apply(s, es[0]), es[1..]))
  }

  function Run(s: State, es: seq<Step>): (r: State)
    requires Inv(s) && Legal(s, es)
    ensures Inv(r)
    decreases |es|
  {
    if es == [] then s else Run(Apply(s, es[0]), es[1..])
  }

  function AllAccepted(s: State, es: seq<Step>): (b: Bytes)
    requires Inv(s) && Legal(s, es)
    decreases |es|
  {
    if es == [] then [] else Accepted(s, es[0]) + AllAccepted(Apply(s, es[0]), es[1..])
  }

  function AllReturned(s: State, es: seq<Step>): (b: Bytes)
    requires Inv(s) && Legal(s, es)
    decreases |es|
  {
    if es == [] then [] else Returned(s, es[0]) + AllReturned(Apply(s, es[0]), es[1..])
  }

  // What was read, then what is left, is what was there, then what was accepted.
  lemma {:induction false} Fifo(s: State, es: seq<Step>)
    requires Inv(s) && Legal(s, es)
    ensures s.q + AllAccepted(s, es) == AllReturned(s, es) + Run(s, es).q
    decreases |es|
  {
    hide Apply, Accepted, Returned, Inv, Enabled;
    if es == [] {
      assert s.q + [] == [] + s.q;
    } else {
      var t := Apply(s, es[0]);
      StepFifo(s, es[0]);
      Fifo(t, es[1..]);
      Chain(s.q, Accepted(s, es[0]), Returned(s, es[0]), t.q, AllAccepted(t, es[1..]),
        AllReturned(t, es[1..]), Run(s, es).q);
    }
  }

  lemma StepFifo(s: State, e: Step)
    requires Inv(s) && Enabled(s, e)
    ensures s.q + Accepted(s, e) == Returned(s, e) + Apply(s, e).q
  {
  }

  // A write takes all of its bytes or fills the buffer; a read takes all there is or as many bytes as asked for.
  lemma PutAndTake(s: State, e: Step)
    requires Inv(s) && Enabled(s, e)
    ensures e.Put? ==> var k := |Accepted(s, e)|;
      && k <= |e.data| && Accepted(s, e) == e.data[..k] && Apply(s, e).q == s.q + e.data[..k]
      && (k == |e.data| || |Apply(s, e).q| == s.room)
    ensures e.Take? ==> var k := |Returned(s, e)|;
      && k <= |s.q| && Returned(s, e) == s.q[..k] && Apply(s, e).q == s.q[k..]
      && k <= e.len && (k == e.len || Apply(s, e).q == [])
    ensures !e.Put? && !e.Take? ==> Apply(s, e).q == s.q
  {
  }

  // However waits fall between the halves of writes and reads, nobody is blocked on a buffer that holds data once its
  // lock is free, and a reader that passes the event then is served.
  lemma NobodyBlocked(s: State, es: seq<Step>, t: nat, len: nat)
    requires Inv(s) && Legal(s, es)
    ensures var r := Run(s, es);
      r.phase == Free && r.q != [] ==>
        && r.waiters == [] && r.signaled
        && (t in r.ready && len > 0 ==> Returned(r, Take(Some(t), len)) != [])
        && (t in r.retry ==> t in Apply(r, Wait(t)).ready)
  {
  }

  function Readers(s: State): (r: set<nat>) {
    s.ready + s.retry + Set(s.waiters)
  }

  // The reader that a step sends back to its caller with data.
  function Served(s: State, e: Step): (r: set<nat>)
    requires Inv(s)
  {
    if e.Take? && e.reader.Some? && Returned(s, e) != [] then {e.reader.value} else {}
  }

  function AllServed(s: State, es: seq<Step>): (r: set<nat>)
    requires Inv(s) && Legal(s, es)
    decreases |es|
  {
    if es == [] then {} else Served(s, es[0]) + AllServed(Apply(s, es[0]), es[1..])
  }

  lemma StepReaders(s: State, e: Step)
    requires Inv(s) && Enabled(s, e)
    ensures Readers(Apply(s, e)) == Readers(s) + (if e.Begin? then {e.t} else {}) - Served(s, e)
  {
    var r := Apply(s, e);
    assert e.Wait? && !s.signaled ==> Set(r.waiters) == Set(s.waiters) + {e.t};
  }

  // No reader is lost: one that has begun is still reading or has been given data.
  lemma {:induction false} ReadersKept(s: State, es: seq<Step>, t: nat)
    requires Inv(s) && Legal(s, es) && (t in Readers(s) || Begin(t) in es)
    ensures t in Readers(Run(s, es)) || t in AllServed(s, es)
    decreases |es|
  {
    hide Apply, Inv, Enabled, Readers, Served;
    if es != [] {
      StepReaders(s, es[0]);
      var r := Apply(s, es[0]);
      if t in Readers(r) || Begin(t) in es[1..] {
        ReadersKept(r, es[1..], t);
      } else {
        assert es == [es[0]] + es[1..];
      }
    }
  }

  // ---- the buffer ----

  // The elements run from tail to just before head.
  lemma UsedIs(cap: nat, head: nat, tail: nat)
    requires head < cap && tail < cap
    ensures Slot(cap, tail, Used(cap, head, tail)) == head
  {
  }

  // Advancing head by n that does not pass the end adds n.
  lemma IncHead(cap: nat, head: nat, tail: nat, n: nat)
    requires head < cap && tail < cap && head + n <= cap && Used(cap, head, tail) + n < cap
    ensures Used(cap, Inc(cap, head, n), tail) == Used(cap, head, tail) + n
  {
  }

  lemma IncTail(cap: nat, head: nat, tail: nat, n: nat)
    requires head < cap && tail < cap && tail + n <= cap && n <= Used(cap, head, tail)
    ensures Used(cap, head, Inc(cap, tail, n)) == Used(cap, head, tail) - n && Inc(cap, tail, n) == Slot(cap, tail, n)
  {
  }

  class CircularBuffer {
    const buf: array<bv8>
    const event: Event.EventObject
    var head: nat
    var tail: nat
    ghost var phase: Phase
    ghost var ready: set<nat>
    ghost var retry: set<nat>

    ghost predicate Shaped()
      reads this
    {
      head < buf.Length && tail < buf.Length
    }

    ghost function Contents(): (q: Bytes)
      requires Shaped()
      reads this, buf
      ensures |q| == Used(buf.Length, head, tail)
    {
      Waiting(buf[..], tail, Used(buf.Length, head, tail))
    }

    ghost function View(): (s: State)
      requires Shaped()
      reads this, buf, event
    {
      State(buf.Length - 1, Contents(), event.signaled, phase, WaitQueue.Threads(event.q), ready, retry)
    }

    ghost predicate Valid()
      reads this, buf, event
    {
      Shaped() && !event.auto && event.Valid() && Inv(View())
    }

    constructor (len: nat)
      requires len > 0
      ensures Valid() && View() == State(len - 1, [], false, Free, [], {}, {}) && fresh(buf) && fresh(event)
    {
      buf := new bv8[len];
      event := new Event.EventObject(false, false);
      head, tail, phase, ready, retry := 0, 0, Free, {}, {};
    }

    method SpaceAvail() returns (n: nat)
      requires Shaped()
      ensures n == buf.Length - 1 - |Contents()|
    {
      n := buf.Length - Used(buf.Length, head, tail) - 1;
    }

    // A thread calls for a blocking read.
    ghost method BeginRead(t: nat)
      requires Valid() && Enabled(View(), Begin(t))
      modifies `retry
      ensures Valid() && View() == Apply(old(View()), Begin(t))
    {
      retry := retry + {t};
    }

    // event_wait, outside the lock, whoever holds it.
    method EventWait(t: nat) returns (passed: bool)
      requires Valid() && t in retry
      modifies event, `ready, `retry
      ensures Valid() && passed == old(event.signaled) && View() == Apply(old(View()), Wait(t))
    {
      hide Waiting, Used;
      NotBlocked(event.q, t);
      BlockedNext(event.q, t);
      var o := event.EventWaitTimeout(t, WaitQueue.Infinite);
      passed := o == Event.Went;
      retry := retry - {t};
      if passed { ready := ready + {t}; }
    }

    // The end of a write: the event is signaled if there is anything to read, and the lock released.
    method SignalAndUnlock()
      requires Valid() && phase == Written
      modifies event, `phase, `ready
      ensures Valid() && View() == Apply(old(View()), Ring)
    {
      hide Waiting, Used;
      EmptyIs(buf.Length, head, tail);
      if head != tail {
        var woken := event.EventSignal();
        ready := ready + Set(woken);
      }
      phase := Free;
    }

    // The end of a read: the event is cleared if the read emptied the buffer, and the lock released.
    method ClearAndUnlock()
      requires Valid() && phase.Taken?
      modifies event, `phase
      ensures Valid() && View() == Apply(old(View()), Clear)
    {
      hide Waiting, Used;
      EmptyIs(buf.Length, head, tail);
      if tail == head { event.EventUnsignal(); }
      phase := Free;
    }

    // The copy to the free slots from head on.
    method CopyIn(b: Bytes)
      requires Shaped() && head + |b| <= buf.Length && |Contents()| + |b| < buf.Length
      modifies `head, buf
      ensures Shaped() && Contents() == old(Contents()) + b
    {
      ghost var a := buf[..];
      UsedIs(buf.Length, head, tail);
      BulkPush(a, tail, Used(buf.Length, head, tail), b);
      IncHead(buf.Length, head, tail, |b|);
      forall i | 0 <= i < |b| { buf[head + i] := b[i]; }
      assert buf[..] == a[..head] + b + a[head + |b|..];
      head := Inc(buf.Length, head, |b|);
    }

    // The copy from the oldest byte on.
    method CopyOut(n: nat) returns (b: Bytes)
      requires Shaped() && n <= |Contents()| && tail + n <= buf.Length
      modifies `tail
      ensures Shaped() && b == old(Contents())[..n] && Contents() == old(Contents())[n..]
    {
      BulkPop(buf[..], tail, Used(buf.Length, head, tail), n);
      IncTail(buf.Length, head, tail, n);
      b := buf[tail..tail + n];
      tail := Inc(buf.Length, tail, n);
    }

    // cbuf_write up to the signal: takes the lock and as many bytes as there is room for. Without a source, zeros.
    method PutLocked(src: Option<Bytes>, len: nat) returns (pos: nat)
      requires Valid() && phase == Free && len < buf.Length && (src.Some? ==> |src.value| == len)
      modifies `head, buf, `phase
      ensures Valid() && pos == Min(len, buf.Length - 1 - |old(Contents())|)
      ensures View() == Apply(old(View()), Put(Given(src, len)))
    {
      hide Used, Waiting, Slot, Given, Min;
      MinIs(len, buf.Length - 1 - |Contents()|);
      var data := Given(src, len);
      ghost var q := Contents();
      pos := 0;
      while pos < len && buf.Length - Used(buf.Length, head, tail) - 1 > 0
        invariant Shaped() && pos <= len && |q| + pos < buf.Length && Contents() == q + data[..pos]
        decreases len - pos
      {
        var n := WriteLen(len - pos);
        CopyIn(data[pos..pos + n]);
        assert q + data[..pos] + data[pos..pos + n] == q + data[..pos + n];
        pos := pos + n;
      }
      phase := Written;
    }

    // cbuf_write when no other thread comes between.
    method Write(src: Option<Bytes>, len: nat) returns (pos: nat)
      requires Valid() && phase == Free && len < buf.Length && (src.Some? ==> |src.value| == len)
      modifies `head, buf, `phase, event, `ready
      ensures Valid() && pos == Min(len, buf.Length - 1 - |old(Contents())|)
      ensures View() == Apply(Apply(old(View()), Put(Given(src, len))), Ring)
    {
      hide Inv, Shaped, Given, Min;
      pos := PutLocked(src, len);
      SignalAndUnlock();
    }

    // The longest copy that neither passes the end of the buffer nor fills the slot before tail.
    method WriteLen(left: nat) returns (n: nat)
      requires Shaped() && left > 0 && |Contents()| + 1 < buf.Length
      ensures 0 < n <= left && head + n <= buf.Length && |Contents()| + n < buf.Length
    {
      RoomIs(buf.Length, head, tail);
      if head >= tail {
        if tail == 0 {
          n := Min(buf.Length - head - 1, left);
        } else {
          n := Min(buf.Length - head, left);
        }
      } else {
        n := Min(tail - head - 1, left);
      }
    }

    // The copy loop of cbuf_read: the oldest bytes, at most len of them.
    method CopyOldest(len: nat) returns (b: Bytes)
      requires Shaped()
      modifies `tail
      ensures Shaped() && var q := old(Contents()); var n := Min(len, |q|); b == q[..n] && Contents() == q[n..]
    {
      hide Used, Waiting, Slot;
      b := [];
      ghost var q := Contents();
      while |b| < len && tail != head
        invariant Shaped() && |b| <= len && |b| <= |q| && b == q[..|b|] && Contents() == q[|b|..]
        decreases len - |b|
      {
        EmptyIs(buf.Length, head, tail);
        RoomIs(buf.Length, head, tail);
        var readLen := if head > tail then Min(head - tail, len - |b|) else Min(buf.Length - tail, len - |b|);
        var piece := CopyOut(readLen);
        assert q[..|b|] + q[|b|..][..readLen] == q[..|b| + readLen];
        assert q[|b|..][readLen..] == q[|b| + readLen..];
        b := b + piece;
      }
      EmptyIs(buf.Length, head, tail);
      assert |Contents()| == |q| - |b|;
    }

    // cbuf_read from the lock on, up to the event. A blocking reader that gets nothing goes back to wait.
    method TakeLocked(t: Option<nat>, len: nat) returns (b: Bytes)
      requires Valid() && Enabled(View(), Take(t, len))
      modifies `tail, `phase, `ready, `retry
      ensures Valid() && b == Returned(old(View()), Take(t, len)) && View() == Apply(old(View()), Take(t, len))
    {
      hide Used, Waiting, Slot;
      ghost var had := Contents() != [];
      b := CopyOldest(len);
      phase := Taken(had);
      if t.Some? {
        ready := ready - {t.value};
        if b == [] { retry := retry + {t.value}; }
      }
    }

    // One pass of cbuf_read when no other thread comes between.
    method Read(t: Option<nat>, len: nat) returns (b: Bytes)
      requires Valid() && Enabled(View(), Take(t, len))
      modifies `tail, `phase, `ready, `retry, event
      ensures Valid() && b == Returned(old(View()), Take(t, len))
      ensures View() == Apply(Apply(old(View()), Take(t, len)), Clear)
    {
      hide Inv, Shaped, Returned;
      b := TakeLocked(t, len);
      ClearAndUnlock();
    }

    // cbuf_peek: the two regions are the whole content in order.
    method Peek() returns (first: Bytes, second: Bytes)
      requires Shaped()
      ensures first + second == Contents()
    {
      var n := Used(buf.Length, head, tail);
      if n + tail > buf.Length {
        first := buf[tail..];
        second := buf[..n - (buf.Length - tail)];
      } else {
        first, second := buf[tail..tail + n], [];
      }
    }

    method WriteChar(c: bv8) returns (n: nat)
      requires Valid() && phase == Free
      modifies `head, buf, `phase, event, `ready
      ensures Valid() && n == (if |old(Contents())| + 1 < buf.Length then 1 else 0)
      ensures View() == Apply(Apply(old(View()), Put([c])), Ring)
    {
      hide Used, Waiting, Slot;
      n := 0;
      var room := SpaceAvail();
      if room > 0 {
        CopyIn([c]);
        n := 1;
        phase := Written;
        SignalAndUnlock();
      }
    }

    method ReadChar(t: Option<nat>) returns (c: Option<bv8>)
      requires Valid() && Enabled(View(), Take(t, 1))
      modifies `tail, `phase, `ready, `retry, event
      ensures Valid() && View() == Apply(Apply(old(View()), Take(t, 1)), Clear)
      ensures Returned(old(View()), Take(t, 1)) == if c.None? then [] else [c.value]
    {
      hide Used, Waiting, Slot;
      EmptyIs(buf.Length, head, tail);
      if t.Some? { ready := ready - {t.value}; }
      if tail == head {
        if t.Some? { retry := retry + {t.value}; }
        return None;
      }
      var b := CopyOut(1);
      c := Some(b[0]);
      phase := Taken(true);
      ClearAndUnlock();
    }
  }

  lemma NotBlocked(q: seq<WaitQueue.Waiter>, t: nat)
    requires t !in WaitQueue.Threads(q)
    ensures !WaitQueue.Waits(q, t)
  {
    assert forall i | 0 <= i < |q| :: WaitQueue.Threads(q)[i] == q[i].t;
  }

  lemma BlockedNext(q: seq<WaitQueue.Waiter>, t: nat)
    ensures WaitQueue.Threads(q + [WaitQueue.Waiter(t, false)]) == WaitQueue.Threads(q) + [t]
  {
  }

  function Given(src: Option<Bytes>, len: nat): (b: Bytes)
    requires src.Some? ==> |src.value| == len
    ensures |b| == len
  {
    if src.Some? then src.value else seq(len, _ => 0)
  }

  lemma MinIs(a: nat, b: nat)
    ensures Min(a, b) == if a <= b then a else b
  {
  }

  lemma EmptyIs(cap: nat, head: nat, tail: nat)
    requires head < cap && tail < cap
    ensures head == tail <==> Used(cap, head, tail) == 0
  {
  }

  // What the copy loops rely on to stay inside the buffer and off the one slot kept free.
  lemma RoomIs(cap: nat, head: nat, tail: nat)
    requires head < cap && tail < cap
    ensures head >= tail ==> Used(cap, head, tail) == head - tail
    ensures head < tail ==> Used(cap, head, tail) == head + cap - tail
  {
  }
}
