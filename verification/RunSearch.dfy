/** The 32-bit positions of the search for a run of free pages in pmm_alloc_contiguous (kernel/vm/pmm.c). The pages of
    an arena are a sequence of flags, true for a page in use; a run may start at off and every n pages from there. */
module RunSearch {
  import opened Options
  import opened Rounding

  // The place in a run of count pages from `at` of the first page in use, count if there is none.
  function FirstUsed(c: seq<bool>, at: nat, count: nat): (i: nat)
    requires at + count <= |c|
    ensures i <= count && (i < count ==> c[at + i]) && forall j | at <= j < at + i :: !c[j]
    decreases count
  {
    if count == 0 || c[at] then 0 else 1 + FirstUsed(c, at + 1, count - 1)
  }

  lemma FirstUsedIs(c: seq<bool>, at: nat, count: nat, i: nat)
    requires at + count <= |c| && i < count && c[at + i] && forall j | at <= j < at + i :: !c[j]
    ensures FirstUsed(c, at, count) == i
  {
    var k := FirstUsed(c, at, count);
    assert k < count ==> c[at + k];
  }

  // Where the search goes on when page i of the run from `at` is in use: rounded in 64 bits, kept in 32.
  function Next(off: nat, n: nat, at: nat, i: nat): (r: nat)
    requires n > 0
    ensures r < U32
  {
    (RoundUp((at - off + i + 1) % U32, n) + off) % U32
  }

  function TrueNext(off: nat, n: nat, at: nat, i: nat): (r: nat)
    requires n > 0 && off <= at
    ensures r > at
  {
    off + RoundUp(at - off + i + 1, n)
  }

  lemma NextIs(off: nat, n: nat, at: nat, i: nat)
    requires n > 0 && off <= at
    ensures Next(off, n, at, i) == TrueNext(off, n, at, i) <==> TrueNext(off, n, at, i) < U32
  {
  }

  // The 32-bit test whether a run of count pages from `at` ends in the arena, and whether it does.
  predicate EndTestRight(pages: nat, at: nat, count: nat) {
    (at + count) % U32 <= pages <==> at + count <= pages
  }

  lemma EndTestExactly(pages: nat, at: nat, count: nat)
    requires at < pages && count < U32
    ensures EndTestRight(pages, at, count) <==> at + count < U32 || at + count <= pages
  {
  }

  // A turn of the search that starts at `at` computes what it would without the limit of 32 bits.
  predicate Sound(c: seq<bool>, count: nat, off: nat, n: nat, at: nat)
    requires n > 0
  {
    && (at < |c| ==> EndTestRight(|c|, at, count))
    && (at + count <= |c| ==>
      var i := FirstUsed(c, at, count);
      i < count ==> off <= at && Next(off, n, at, i) == TrueNext(off, n, at, i))
  }

  // Where the search is after k turns: nowhere if it found a run or left the arena.
  function After(c: seq<bool>, count: nat, off: nat, n: nat, k: nat): (r: Option<nat>)
    requires n > 0
  {
    if k == 0 then Some(off)
    else
      match After(c, count, off, n, k - 1)
      case None => None
      case Some(at) =>
        if at + count > |c| then None
        else
          var i := FirstUsed(c, at, count);
          if i == count then None else Some(Next(off, n, at, i))
  }

  // Every turn that the search makes is sound.
  ghost predicate AllSound(c: seq<bool>, count: nat, off: nat, n: nat)
    requires n > 0
  {
    forall k: nat :: SoundAfter(c, count, off, n, k)
  }

  predicate SoundAfter(c: seq<bool>, count: nat, off: nat, n: nat, k: nat)
    requires n > 0
  {
    var r := After(c, count, off, n, k);
    r.Some? ==> Sound(c, count, off, n, r.value)
  }

  // The last start from which a run fits in the arena, and the last start in the arena.
  function LastFit(pages: nat, count: nat, off: nat, n: nat): (s: nat)
    requires n > 0 && off + count <= pages
    ensures off <= s && s + count <= pages < s + n + count
  {
    off + RoundDown(pages - count - off, n)
  }

  function LastStart(pages: nat, off: nat, n: nat): (s: nat)
    requires n > 0 && off < pages
    ensures off <= s < pages <= s + n
  {
    off + RoundDown(pages - 1 - off, n)
  }

  // What a caller can check: the positions of the search stay below 2^32.
  predicate InBounds(pages: nat, count: nat, off: nat, n: nat)
    requires n > 0 && off < pages
  {
    && pages < U32
    && if off + count > pages then off + count < U32
       else LastFit(pages, count, off, n) + RoundUp(count, n) < U32 && LastStart(pages, off, n) + count < U32
  }

  lemma StartsAre(pages: nat, count: nat, off: nat, n: nat)
    requires n > 0 && off < pages
    ensures (LastStart(pages, off, n) - off) % n == 0
    ensures off + count <= pages ==> (LastFit(pages, count, off, n) - off) % n == 0
  {
    hide RoundDown;
    RoundDownIs(pages - 1 - off, n);
    if off + count <= pages { RoundDownIs(pages - count - off, n); }
  }

  lemma SumOfMultiples(n: nat, x: nat, y: nat)
    requires n > 0 && x % n == 0 && y % n == 0
    ensures (x + y) % n == 0
  {
    assert x + y == n * (x / n) + n * (y / n) == n * (x / n + y / n);
    MulMod(n, x / n + y / n);
  }

  // From the last start that fits, a run broken on its last page leads furthest.
  lemma FurthestNext(off: nat, n: nat, at: nat, count: nat)
    requires n > 0 && off <= at && (at - off) % n == 0 && count > 0
    ensures TrueNext(off, n, at, count - 1) == at + RoundUp(count, n)
  {
    hide RoundUp;
    var x := at - off;
    RoundUpIs(count, n);
    RoundUpIs(x + count, n);
    SumOfMultiples(n, x, RoundUp(count, n));
    if x + RoundUp(count, n) > RoundUp(x + count, n) {
      MultiplesApart(n, x + RoundUp(count, n), RoundUp(x + count, n));
    } else if x + RoundUp(count, n) < RoundUp(x + count, n) {
      MultiplesApart(n, RoundUp(x + count, n), x + RoundUp(count, n));
    }
  }

  lemma RoundUpIs(x: nat, n: nat)
    requires n > 0
    ensures RoundUp(x, n) % n == 0
  {
    RoundDownIs(x + (n - 1), n);
  }

  lemma NextInBounds(pages: nat, count: nat, off: nat, n: nat, at: nat, i: nat)
    requires n > 0 && off < pages && InBounds(pages, count, off, n)
    requires off <= at && (at - off) % n == 0 && i < count && at + count <= pages
    ensures at < Next(off, n, at, i) == TrueNext(off, n, at, i) < U32
    ensures (TrueNext(off, n, at, i) - off) % n == 0
  {
    hide RoundUp, RoundDown, Next, LastFit, InBounds, TrueNext;
    NextBelow(pages, count, off, n, at, i);
    FurthestNext(off, n, LastFit(pages, count, off, n), count);
    FurthestBelow(pages, count, off, n);
    NextIs(off, n, at, i);
  }

  lemma NextBelow(pages: nat, count: nat, off: nat, n: nat, at: nat, i: nat)
    requires n > 0 && off <= at && (at - off) % n == 0 && i < count && at + count <= pages
    ensures (LastFit(pages, count, off, n) - off) % n == 0
    ensures TrueNext(off, n, at, i) <= TrueNext(off, n, LastFit(pages, count, off, n), count - 1)
    ensures (TrueNext(off, n, at, i) - off) % n == 0
  {
    hide RoundUp, RoundDown, LastFit, LastStart;
    var last := LastFit(pages, count, off, n);
    StartsAre(pages, count, off, n);
    if at > last { MultiplesApart(n, at - off, last - off); }
    RoundUpIs(last - off + count, n);
    RoundUpLeast(at - off + i + 1, n, RoundUp(last - off + count, n));
  }

  lemma FurthestBelow(pages: nat, count: nat, off: nat, n: nat)
    requires n > 0 && off < pages && InBounds(pages, count, off, n) && off + count <= pages
    ensures LastFit(pages, count, off, n) + RoundUp(count, n) < U32
  {
  }

  lemma TestInBounds(pages: nat, count: nat, off: nat, n: nat, at: nat)
    requires n > 0 && off < pages && count < U32 && InBounds(pages, count, off, n)
    requires off <= at < pages && (at - off) % n == 0 && (off + count > pages ==> at == off)
    ensures EndTestRight(pages, at, count)
  {
    hide RoundUp, RoundDown, LastFit, LastStart, EndTestRight;
    EndTestExactly(pages, at, count);
    StartsAre(pages, count, off, n);
    if at > LastStart(pages, off, n) { MultiplesApart(n, at - off, LastStart(pages, off, n) - off); }
  }

  // In bounds, the search is only ever at starts of the arena, or past it.
  lemma {:induction false} Reached(c: seq<bool>, count: nat, off: nat, n: nat, k: nat)
    requires n > 0 && off < |c| && 0 < count < U32 && InBounds(|c|, count, off, n)
    ensures var r := After(c, count, off, n, k);
      r.Some? ==> off <= r.value < U32 && (r.value - off) % n == 0 && (off + count > |c| ==> r.value == off)
  {
    hide InBounds, Next, FirstUsed;
    if k == 0 {
      assert |c| < U32 by { PagesBelow(|c|, count, off, n); }
    } else {
      Reached(c, count, off, n, k - 1);
      var r := After(c, count, off, n, k - 1);
      if r.Some? && r.value + count <= |c| {
        var i := FirstUsed(c, r.value, count);
        if i < count { NextInBounds(|c|, count, off, n, r.value, i); }
      }
    }
  }

  lemma PagesBelow(pages: nat, count: nat, off: nat, n: nat)
    requires n > 0 && off < pages && InBounds(pages, count, off, n)
    ensures pages < U32
  {
  }

  lemma BoundsSuffice(c: seq<bool>, count: nat, off: nat, n: nat, k: nat)
    requires n > 0 && off < |c| && 0 < count < U32 && InBounds(|c|, count, off, n)
    ensures SoundAfter(c, count, off, n, k)
  {
    hide InBounds, Next, FirstUsed, After, EndTestRight, TrueNext;
    Reached(c, count, off, n, k);
    var r := After(c, count, off, n, k);
    if r.Some? {
      var at := r.value;
      if at < |c| { TestInBounds(|c|, count, off, n, at); }
      if at + count <= |c| && FirstUsed(c, at, count) < count {
        NextInBounds(|c|, count, off, n, at, FirstUsed(c, at, count));
      }
    }
  }

  // ---- the bounds are needed ----

  // While the first page of each run is in use, the search goes from each start to the next.
  lemma {:induction false} Walk(c: seq<bool>, count: nat, off: nat, n: nat, k: nat)
    requires n > 0 && off < |c| && count > 0 && AllSound(c, count, off, n)
    requires forall j: nat | j < k :: off + n * j + count <= |c| && c[off + n * j]
    ensures After(c, count, off, n, k) == Some(off + n * k) && (k > 0 ==> off + n * k < U32)
  {
    hide Next, TrueNext, FirstUsed;
    if k > 0 {
      Walk(c, count, off, n, k - 1);
      var at := off + n * (k - 1);
      assert SoundAfter(c, count, off, n, k - 1);
      assert c[at];
      FirstUsedIs(c, at, count, 0);
      StepIs(off, n, k);
    }
  }

  lemma StepIs(off: nat, n: nat, k: nat)
    requires n > 0 && k > 0
    ensures off <= off + n * (k - 1) && TrueNext(off, n, off + n * (k - 1), 0) == off + n * k
  {
    assert n * k == n * (k - 1) + n;
    MulMod(n, k - 1);
    MulMod(n, k);
    FurthestNext(off, n, off + n * (k - 1), 1);
    assert RoundUp(1, n) == n by { DivIs(n, n, 1, 0); }
  }

  // An arena of 2^32 pages or more: when all are in use, the search can never leave it.
  lemma PagesNeeded(pages: nat, count: nat, off: nat, n: nat)
    requires n > 0 && off < pages && 0 < count < U32 && AllSound(Filled(pages), count, off, n) && off < U32
    ensures pages < U32
  {
    hide Next, TrueNext, FirstUsed;
    if pages >= U32 {
      WalkOn(pages, count, off, n, U32);
      MulGap(U32, n, 0);
      assert false;
    }
  }

  function Filled(pages: nat): (c: seq<bool>) {
    seq(pages, _ => true)
  }

  lemma {:induction false} WalkOn(pages: nat, count: nat, off: nat, n: nat, k: nat)
    requires n > 0 && off < pages && 0 < count < U32 <= pages && AllSound(Filled(pages), count, off, n) && off < U32
    ensures off + n * k < U32 && forall j: nat | j < k :: off + n * j + count <= pages
  {
    hide FirstUsed, After, Sound, AllSound;
    if k > 0 {
      WalkOn(pages, count, off, n, k - 1);
      Walk(Filled(pages), count, off, n, k - 1);
      InArena(Filled(pages), count, off, n, k - 1);
      Walk(Filled(pages), count, off, n, k);
    }
  }

  lemma InArena(c: seq<bool>, count: nat, off: nat, n: nat, k: nat)
    requires n > 0 && count < U32 <= |c| && AllSound(c, count, off, n)
    requires After(c, count, off, n, k) == Some(off + n * k) && off + n * k < U32
    ensures off + n * k + count <= |c|
  {
    hide After;
    assert SoundAfter(c, count, off, n, k);
  }

  // The pages below `last` are in use, and page i of the run there.
  function Broken(pages: nat, last: nat, i: nat): (c: seq<bool>) {
    seq(pages, p => p < last || p == last + i)
  }

  // Then the search comes to that run and goes on from there.
  lemma BrokenWalk(pages: nat, count: nat, off: nat, n: nat, i: nat)
    requires n > 0 && off < pages && i < count && off + count <= pages
    requires var last := LastFit(pages, count, off, n); AllSound(Broken(pages, last, i), count, off, n)
    ensures var last := LastFit(pages, count, off, n); var next := TrueNext(off, n, last, i);
      && next < U32
      && (next < pages ==> EndTestRight(pages, next, count))
  {
    hide Next, TrueNext, FirstUsed, RoundDown, EndTestRight;
    var last := LastFit(pages, count, off, n);
    var c := Broken(pages, last, i);
    StartsAre(pages, count, off, n);
    var k := (last - off) / n;
    assert last == off + n * k;
    forall j: nat | j < k ensures off + n * j + count <= |c| && c[off + n * j] { MulGap(n, k, j); }
    Walk(c, count, off, n, k);
    FirstUsedIs(c, last, count, i);
    assert SoundAfter(c, count, off, n, k);
    assert SoundAfter(c, count, off, n, k + 1);
  }

  // Some page of the last run leads to the last start.
  lemma LastStartReached(pages: nat, count: nat, off: nat, n: nat)
    requires n > 0 && off < pages && 0 < count && off + count <= pages
    requires LastStart(pages, off, n) > LastFit(pages, count, off, n)
    ensures var last, s := LastFit(pages, count, off, n), LastStart(pages, off, n);
      var i := (if s - last < count then s - last else count) - 1; TrueNext(off, n, last, i) == s
  {
    hide RoundUp, LastFit, LastStart;
    var last, s := LastFit(pages, count, off, n), LastStart(pages, off, n);
    StartsAre(pages, count, off, n);
    var i := (if s - last < count then s - last else count) - 1;
    RoundUpLeast(last - off + i + 1, n, s - off);
    if RoundUp(last - off + i + 1, n) < s - off { MultiplesApart(n, s - off, RoundUp(last - off + i + 1, n)); }
  }

  lemma BoundsNeeded(pages: nat, count: nat, off: nat, n: nat)
    requires n > 0 && off < pages && 0 < count < U32 && off < U32
    requires forall c: seq<bool> | |c| == pages :: AllSound(c, count, off, n)
    ensures InBounds(pages, count, off, n)
  {
    hide AllSound, LastFit, LastStart, RoundUp, TrueNext, EndTestRight;
    PagesNeeded(pages, count, off, n);
    if off + count > pages {
      FirstTest(Filled(pages), count, off, n);
      EndTestExactly(pages, off, count);
    } else {
      var last, s := LastFit(pages, count, off, n), LastStart(pages, off, n);
      StartsAre(pages, count, off, n);
      BrokenWalk(pages, count, off, n, count - 1);
      FurthestNext(off, n, last, count);
      if s > last {
        LastStartReached(pages, count, off, n);
        BrokenWalk(pages, count, off, n, (if s - last < count then s - last else count) - 1);
        EndTestExactly(pages, s, count);
      }
    }
  }

  lemma FirstTest(c: seq<bool>, count: nat, off: nat, n: nat)
    requires n > 0 && off < |c| && AllSound(c, count, off, n)
    ensures EndTestRight(|c|, off, count)
  {
    assert SoundAfter(c, count, off, n, 0);
  }

  // Whatever pages are in use, every turn of the search is sound: if and only if the bounds hold.
  lemma SoundExactly(pages: nat, count: nat, off: nat, n: nat)
    requires n > 0 && off < pages && 0 < count < U32
    ensures InBounds(pages, count, off, n) <==>
            off < U32 && forall c: seq<bool> | |c| == pages :: AllSound(c, count, off, n)
  {
    hide InBounds, SoundAfter;
    if InBounds(pages, count, off, n) {
      PagesBelow(pages, count, off, n);
      forall c: seq<bool>, k: nat | |c| == pages
        ensures SoundAfter(c, count, off, n, k)
      {
        BoundsSuffice(c, count, off, n, k);
      }
    } else if off < U32 && forall c: seq<bool> | |c| == pages :: AllSound(c, count, off, n) {
      BoundsNeeded(pages, count, off, n);
    }
  }

  // Out of bounds the search can go on forever: one page, in use, and starts 2^32 pages apart.
  lemma {:induction false} Stuck(k: nat)
    ensures !InBounds(1, 1, 0, U32) && After([true], 1, 0, U32, k) == Some(0)
  {
    hide Next, LastFit, RoundUp;
    Round();
    assert FirstUsed([true], 0, 1) == 0;
    if k > 0 { Stuck(k - 1); }
  }

  lemma Round()
    ensures Next(0, U32, 0, 0) == 0 && LastFit(1, 1, 0, U32) == 0 && RoundUp(1, U32) == U32
  {
    DivIs(U32, U32, 1, 0);
  }
}
