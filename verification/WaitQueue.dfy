/** The list of threads blocked on one wait queue (kernel/thread.c), as the mutex and the semaphore use it. */
module WaitQueue {
  import opened Options

  // Zero, anything finite, or INFINITE_TIME.
  datatype Timeout = Zero | Finite | Infinite

  datatype Waiter = Waiter(t: nat, timed: bool)

  predicate Waits(q: seq<Waiter>, t: nat) {
    exists i | 0 <= i < |q| :: q[i].t == t
  }

  predicate HasTimer(q: seq<Waiter>, t: nat) {
    Waiter(t, true) in q
  }

  predicate Distinct(q: seq<Waiter>) {
    forall i, j | 0 <= i < j < |q| :: q[i].t != q[j].t
  }

  // The queue after list_delete of t's node.
  function Without(q: seq<Waiter>, t: nat): (r: seq<Waiter>) {
    if q == [] then [] else if q[0].t == t then q[1..] else [q[0]] + Without(q[1..], t)
  }

  lemma NotWaiting(q: seq<Waiter>, t: nat)
    requires !Waits(q, t)
    ensures forall i | 0 <= i < |q| :: q[i].t != t
  {
  }

  lemma {:induction false} WithoutOne(q: seq<Waiter>, t: nat)
    requires Distinct(q) && Waits(q, t)
    ensures |Without(q, t)| == |q| - 1 && Distinct(Without(q, t)) && !Waits(Without(q, t), t)
    ensures forall w :: w in Without(q, t) <==> w in q && w.t != t
  {
    if q[0].t == t {
      assert q == [q[0]] + q[1..];
    } else {
      assert q == [q[0]] + q[1..];
      assert Waits(q[1..], t) by { var i :| 0 <= i < |q| && q[i].t == t; assert q[1..][i - 1].t == t; }
      WithoutOne(q[1..], t);
    }
  }

  function Threads(q: seq<Waiter>): (ts: seq<nat>)
    ensures |ts| == |q|
  {
    seq(|q|, i requires 0 <= i < |q| => q[i].t)
  }
}
