/** Circular buffers as the sequence of what they hold. */
module Rings {
  import opened Rounding

  // Position i after head in a ring of cap slots.
  function Slot(cap: nat, head: nat, i: nat): (k: nat)
    requires head < cap && i <= cap
    ensures k < cap
  {
    if head + i < cap then head + i else head + i - cap
  }

  lemma SlotNext(cap: nat, head: nat, i: nat)
    requires head < cap && i < cap
    ensures (Slot(cap, head, i) + 1) % cap == Slot(cap, head, i + 1)
  {
    var t := Slot(cap, head, i) + 1;
    if t < cap {
      DivIs(t, cap, 0, t);
    } else {
      DivIs(t, cap, 1, 0);
    }
  }

  // The n elements from head on.
  function Waiting<T>(a: seq<T>, head: nat, n: nat): (q: seq<T>)
    requires head < |a| && n <= |a|
    ensures |q| == n && forall i | 0 <= i < n :: q[i] == a[Slot(|a|, head, i)]
  {
    seq(n, i requires 0 <= i < n => a[Slot(|a|, head, i)])
  }

  lemma WaitingPush<T>(a: seq<T>, head: nat, n: nat, x: T)
    requires head < |a| && n < |a|
    ensures Waiting(a[Slot(|a|, head, n) := x], head, n + 1) == Waiting(a, head, n) + [x]
  {
    var b := a[Slot(|a|, head, n) := x];
    forall i | 0 <= i < n ensures Waiting(b, head, n + 1)[i] == a[Slot(|a|, head, i)] {
      assert Slot(|a|, head, i) != Slot(|a|, head, n);
    }
  }

  lemma WaitingPop<T>(a: seq<T>, head: nat, n: nat)
    requires head < |a| && 0 < n <= |a|
    ensures Waiting(a, head, n)[0] == a[head]
    ensures Waiting(a, Slot(|a|, head, 1), n - 1) == Waiting(a, head, n)[1..]
  {
    forall i | 0 <= i < n - 1 ensures Slot(|a|, Slot(|a|, head, 1), i) == Slot(|a|, head, i + 1) {}
  }

  // A copy to the slots after the last element that does not wrap.
  lemma BulkPush<T>(a: seq<T>, tail: nat, n: nat, b: seq<T>)
    requires tail < |a| && n + |b| <= |a| && n < |a| && Slot(|a|, tail, n) + |b| <= |a|
    ensures var h := Slot(|a|, tail, n);
      Waiting(a[..h] + b + a[h + |b|..], tail, n + |b|) == Waiting(a, tail, n) + b
  {
    var h := Slot(|a|, tail, n);
    var c := a[..h] + b + a[h + |b|..];
    forall i | 0 <= i < n + |b|
      ensures Waiting(c, tail, n + |b|)[i] == (Waiting(a, tail, n) + b)[i]
    {
    }
  }

  // A copy of the first elements that does not wrap.
  lemma BulkPop<T>(a: seq<T>, tail: nat, n: nat, k: nat)
    requires tail < |a| && k <= n <= |a| && tail + k <= |a|
    ensures a[tail..tail + k] == Waiting(a, tail, n)[..k]
    ensures Waiting(a, Slot(|a|, tail, k), n - k) == Waiting(a, tail, n)[k..]
  {
    forall i | 0 <= i < n - k ensures Slot(|a|, Slot(|a|, tail, k), i) == Slot(|a|, tail, k + i) {}
  }
}
