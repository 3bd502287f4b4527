/** Where pages are and in which order the free lists of kernel/vm/pmm.c hold them, after each operation. */
module PmmEffects {
  import opened Lists
  import opened Pmm

  // ---- a new arena ----

  lemma PlacedAt(s: seq<Arena>, a: Arena)
    ensures var r, k := WithArena(s, a), Place(s, a.priority);
      |r| == |s| + 1 && r[k] == a && r[..k] == s[..k] && r[k + 1..] == s[k..]
  {
  }

  // The arena that is added is at place k: after every arena of its priority or a smaller one, before the others. Its
  // pages are new, free, in order on its list, and at the addresses from base on.
  lemma AddedArena(s: State, pages: nat, base: nat, kmap: bool, priority: nat, i: nat) returns (k: nat)
    requires Good(s) && i < pages
    ensures var r := Apply(s, AddArena(pages, base, kmap, priority)); var p := s.boot + i;
      && r.boot == s.boot + pages && r.held == s.held
      && k <= |s.arenas| && |r.arenas| == |s.arenas| + 1
      && r.arenas[..k] == s.arenas[..k] && r.arenas[k + 1..] == s.arenas[k..]
      && (forall j | 0 <= j < k :: s.arenas[j].priority <= priority)
      && (k < |s.arenas| ==> s.arenas[k].priority > priority)
      && r.arenas[k].kmap == kmap && r.arenas[k].priority == priority
      && |r.arenas[k].free| == pages && r.arenas[k].free[i] == p
      && !Owned(s.arenas, p) && Owner(r.arenas, p) == k && IsFree(r.arenas, p)
      && AddressOf(r.arenas, p) == base + i * PAGE_SIZE
  {
    var e := AddArena(pages, base, kmap, priority);
    var a := Fresh(s.boot, pages, base, kmap, priority);
    StepGood(s, e);
    PlacedAt(s.arenas, a);
    k := Place(s.arenas, priority);
    var r := Apply(s, e);
    assert Holds(r.arenas[k], s.boot + i);
    OwnerIs(r.arenas, k, s.boot + i);
    NotOwned(s, s.boot + i);
  }

  lemma NotOwned(s: State, p: nat)
    requires Good(s) && p >= s.boot
    ensures !Owned(s.arenas, p)
  {
  }

  // ---- taking pages ----

  // The list without the pages in l.
  function Without(q: seq<nat>, l: seq<nat>): (r: seq<nat>) {
    if q == [] then [] else (if q[0] in l then [] else [q[0]]) + Without(q[1..], l)
  }

  lemma {:induction false} WithoutMore(q: seq<nat>, l: seq<nat>, p: nat)
    ensures Without(q, l + [p]) == Without(Without(q, l), [p])
  {
    if q != [] {
      WithoutMore(q[1..], l, p);
      var x := Without(q[1..], l);
      assert [] + x == x && ([q[0]] + x)[1..] == x;
    }
  }

  lemma {:induction false} WithoutNone(q: seq<nat>, p: nat)
    requires p !in q
    ensures Without(q, [p]) == q
  {
    if q != [] {
      WithoutNone(q[1..], p);
      assert q == [q[0]] + q[1..];
    }
  }

  lemma {:induction false} WithoutOne(q: seq<nat>, i: nat)
    requires NoDups(q) && i < |q|
    ensures Without(q, [q[i]]) == q[..i] + q[i + 1..]
  {
    if i == 0 {
      WithoutNone(q[1..], q[0]);
    } else {
      assert q[1..][i - 1] == q[i];
      WithoutOne(q[1..], i - 1);
      assert q[..i] + q[i + 1..] == [q[0]] + (q[1..][..i - 1] + q[1..][i..]);
    }
  }

  // The pages left on a free list keep their order.
  lemma {:induction false} TakenList(s: seq<Arena>, l: seq<nat>, k: nat)
    requires Inv(s) && AllFree(s, l) && k < |s|
    ensures TakeAll(s, l)[k].free == Without(s[k].free, l)
    decreases |l|
  {
    if l == [] {
      WithoutNothing(s[k].free);
    } else {
      var n := |l| - 1;
      assert l == l[..n] + [l[n]];
      TakenList(s, l[..n], k);
      var m := TakeAll(s, l[..n]);
      WithoutMore(s[k].free, l[..n], l[n]);
      TakenOne(m, l[n], k);
    }
  }

  lemma {:induction false} WithoutNothing(q: seq<nat>)
    ensures Without(q, []) == q
  {
    if q != [] {
      WithoutNothing(q[1..]);
      assert q == [q[0]] + q[1..];
    }
  }

  lemma TakenOne(s: seq<Arena>, p: nat, k: nat)
    requires Inv(s) && IsFree(s, p) && k < |s|
    ensures Take(s, p)[k].free == Without(s[k].free, [p])
  {
    if Owner(s, p) == k {
      WithoutOne(s[k].free, Index(s[k].free, p));
    } else {
      if Holds(s[k], p) { OwnerIs(s, k, p); }
      WithoutNone(s[k].free, p);
    }
  }

  // ---- returning pages ----

  // The pages of l that belong to arena a, last first.
  function Returned(a: Arena, l: seq<nat>): (r: seq<nat>)
    decreases |l|
  {
    if l == [] then []
    else (if Holds(a, l[|l| - 1]) then [l[|l| - 1]] else []) + Returned(a, l[..|l| - 1])
  }

  // Returned pages go before those that were there, the last one first.
  lemma {:induction false} GivenList(s: seq<Arena>, l: seq<nat>, k: nat)
    requires Inv(s) && NoneFree(s, l) && k < |s|
    ensures GiveAll(s, l)[k].free == Returned(s[k], l) + s[k].free
    decreases |l|
  {
    hide Inv, IsFree, Give, Owner;
    if l == [] {
      assert [] + s[k].free == s[k].free;
    } else {
      var n := |l| - 1;
      assert l == l[..n] + [l[n]];
      GivenList(s, l[..n], k);
      var m := GiveAll(s, l[..n]);
      assert SameSpan(s[k], m[k]);
      assert !IsFree(m, l[n]);
      GivenOne(m, l[n], k);
      var x := if Holds(s[k], l[n]) then [l[n]] else [];
      assert x + (Returned(s[k], l[..n]) + s[k].free) == (x + Returned(s[k], l[..n])) + s[k].free;
    }
  }

  lemma GivenOne(s: seq<Arena>, p: nat, k: nat)
    requires Inv(s) && !IsFree(s, p) && k < |s|
    ensures Give(s, p)[k].free == (if Holds(s[k], p) then [p] else []) + s[k].free
  {
    if Holds(s[k], p) { OwnerIs(s, k, p); } else { assert [] + s[k].free == s[k].free; }
  }
}
