module Options {
  datatype Option<+T> = None | Some(value: T)
}

/** Doubly linked lists are modelled as sequences; a node is on a list at most once. */
module Lists {
  predicate NoDups<T(==)>(q: seq<T>) {
    forall i, j | 0 <= i < j < |q| :: q[i] != q[j]
  }

  // The list after the node at position i is deleted.
  function Cut<T>(q: seq<T>, i: nat): (r: seq<T>)
    requires i < |q|
    ensures |r| == |q| - 1
  {
    q[..i] + q[i + 1..]
  }

  lemma CutIs<T>(q: seq<T>, i: nat)
    requires i < |q| && NoDups(q)
    ensures NoDups(Cut(q, i)) && forall t :: t in Cut(q, i) <==> t in q && t != q[i]
  {
    var r := Cut(q, i);
    forall t
      ensures t in r <==> t in q && t != q[i]
    {
      if t in q && t != q[i] {
        var k :| 0 <= k < |q| && q[k] == t;
        assert r[if k < i then k else k - 1] == t;
      }
    }
  }

  // Where t's node is.
  function Index<T(==)>(q: seq<T>, t: T): (i: nat)
    requires t in q
    ensures i < |q| && q[i] == t
  {
    if q[0] == t then 0 else 1 + Index(q[1..], t)
  }

  // Two stretches of a queue's life, end to end: what was there and came is what went and is left.
  lemma Chain<T>(q: seq<T>, a: seq<T>, x: seq<T>, q1: seq<T>, b: seq<T>, y: seq<T>, q2: seq<T>)
    requires q + a == x + q1 && q1 + b == y + q2
    ensures q + (a + b) == (x + y) + q2
  {
    assert q + (a + b) == (q + a) + b;
    assert (x + q1) + b == x + (q1 + b);
    assert x + (y + q2) == (x + y) + q2;
  }
}
