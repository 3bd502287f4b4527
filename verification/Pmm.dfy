/** The multi-arena physical page allocator of kernel/vm/pmm.c. A page is named by its place in the page arrays, which
    never overlap. */
module Pmm {
  import opened Lists
  import opened Options
  import opened Rounding
  import opened RunSearch

  const PAGE_SIZE: nat := 4096

  // first is page_array, free the free list, nonfree the NONFREE flag of each page.
  datatype Arena = Arena(
    first: nat, pages: nat, base: nat, kmap: bool, priority: nat, nonfree: seq<bool>, free: seq<nat>, freeCount: int)

  // PAGE_BELONGS_TO_ARENA
  predicate Holds(a: Arena, p: nat) {
    a.first <= p < a.first + a.pages
  }

  predicate FreeIn(a: Arena, p: nat) {
    Holds(a, p) && |a.nonfree| == a.pages && !a.nonfree[p - a.first]
  }

  ghost predicate ArenaOk(a: Arena) {
    && |a.nonfree| == a.pages && a.freeCount == |a.free| && NoDups(a.free)
    && (forall p :: p in a.free <==> FreeIn(a, p))
  }

  predicate Apart(a: Arena, b: Arena) {
    a.first + a.pages <= b.first || b.first + b.pages <= a.first
  }

  ghost predicate Inv(s: seq<Arena>) {
    && (forall k | 0 <= k < |s| :: ArenaOk(s[k]))
    && (forall j, k | 0 <= j < k < |s| :: Apart(s[j], s[k]))
  }

  // ---- one page ----

  function TakeFrom(a: Arena, p: nat): (r: Arena)
    requires ArenaOk(a) && FreeIn(a, p)
  {
    a.(nonfree := a.nonfree[p - a.first := true], free := Cut(a.free, Index(a.free, p)), freeCount := a.freeCount - 1)
  }

  function GiveTo(a: Arena, p: nat): (r: Arena)
    requires Holds(a, p) && |a.nonfree| == a.pages
  {
    a.(nonfree := a.nonfree[p - a.first := false], free := [p] + a.free, freeCount := a.freeCount + 1)
  }

  lemma TakeFromOk(a: Arena, p: nat)
    requires ArenaOk(a) && FreeIn(a, p)
    ensures ArenaOk(TakeFrom(a, p)) && forall x :: FreeIn(TakeFrom(a, p), x) <==> FreeIn(a, x) && x != p
  {
    CutIs(a.free, Index(a.free, p));
  }

  lemma GiveToOk(a: Arena, p: nat)
    requires ArenaOk(a) && Holds(a, p) && !FreeIn(a, p)
    ensures ArenaOk(GiveTo(a, p)) && forall x :: FreeIn(GiveTo(a, p), x) <==> FreeIn(a, x) || x == p
  {
    var r := GiveTo(a, p);
    assert p !in a.free;
    assert forall x :: x in r.free <==> x in a.free || x == p;
  }

  // The arena a page belongs to, |s| for none.
  function Owner(s: seq<Arena>, p: nat): (k: nat)
    ensures k <= |s| && (k < |s| ==> Holds(s[k], p)) && forall j | 0 <= j < k :: !Holds(s[j], p)
  {
    if s == [] || Holds(s[0], p) then 0 else 1 + Owner(s[1..], p)
  }

  lemma OwnerIs(s: seq<Arena>, k: nat, p: nat)
    requires Inv(s) && k < |s| && Holds(s[k], p)
    ensures Owner(s, p) == k
  {
    var j := Owner(s, p);
    assert j < k ==> Apart(s[j], s[k]);
  }

  predicate Owned(s: seq<Arena>, p: nat) {
    Owner(s, p) < |s|
  }

  predicate IsFree(s: seq<Arena>, p: nat) {
    Owned(s, p) && FreeIn(s[Owner(s, p)], p)
  }

  lemma FreeIsOwned(s: seq<Arena>, p: nat)
    requires IsFree(s, p)
    ensures Owned(s, p)
  {
  }

  // The arenas are in the same places, whatever their pages are doing.
  predicate SameSpan(a: Arena, b: Arena) {
    a.first == b.first && a.pages == b.pages && a.base == b.base && a.kmap == b.kmap && a.priority == b.priority
  }

  predicate SameSpans(s: seq<Arena>, r: seq<Arena>) {
    |s| == |r| && forall k | 0 <= k < |s| :: SameSpan(s[k], r[k])
  }

  lemma {:induction false} SameOwner(s: seq<Arena>, r: seq<Arena>, p: nat)
    requires SameSpans(s, r)
    ensures Owner(s, p) == Owner(r, p)
  {
    if s != [] && !Holds(s[0], p) { SameOwner(s[1..], r[1..], p); }
  }

  function Take(s: seq<Arena>, p: nat): (r: seq<Arena>)
    requires Inv(s) && IsFree(s, p)
    ensures Inv(r) && SameSpans(s, r)
  {
    var k := Owner(s, p);
    TakeFromOk(s[k], p);
    s[k := TakeFrom(s[k], p)]
  }

  lemma TakeIs(s: seq<Arena>, p: nat, x: nat)
    requires Inv(s) && IsFree(s, p)
    ensures IsFree(Take(s, p), x) <==> IsFree(s, x) && x != p
  {
    SameOwner(s, Take(s, p), x);
    TakeFromOk(s[Owner(s, p)], p);
  }

  // pmm_free passes over a page that no arena holds.
  function Give(s: seq<Arena>, p: nat): (r: seq<Arena>)
    requires Inv(s) && !IsFree(s, p)
    ensures Inv(r) && SameSpans(s, r)
  {
    var k := Owner(s, p);
    if k == |s| then s
    else
      GiveToOk(s[k], p);
      s[k := GiveTo(s[k], p)]
  }

  lemma GiveIs(s: seq<Arena>, p: nat, x: nat)
    requires Inv(s) && !IsFree(s, p)
    ensures IsFree(Give(s, p), x) <==> IsFree(s, x) || (x == p && Owned(s, p))
  {
    SameOwner(s, Give(s, p), x);
    if Owned(s, p) { GiveToOk(s[Owner(s, p)], p); }
  }

  // ---- lists of pages ----

  predicate AllFree(s: seq<Arena>, l: seq<nat>) {
    NoDups(l) && forall p | p in l :: IsFree(s, p)
  }

  predicate NoneFree(s: seq<Arena>, l: seq<nat>) {
    NoDups(l) && forall p | p in l :: !IsFree(s, p)
  }

  lemma TakeNext(s: seq<Arena>, m: seq<Arena>, l: seq<nat>, p: nat)
    requires Inv(m) && SameSpans(s, m) && (forall x :: IsFree(m, x) <==> IsFree(s, x) && x !in l)
    requires IsFree(s, p) && p !in l
    ensures SameSpans(s, Take(m, p)) && forall x :: IsFree(Take(m, p), x) <==> IsFree(s, x) && x !in l + [p]
  {
    hide Inv, IsFree, Take;
    forall x { TakeIs(m, p, x); }
  }

  lemma GiveNext(s: seq<Arena>, m: seq<Arena>, l: seq<nat>, p: nat)
    requires Inv(m) && SameSpans(s, m) && (forall x :: IsFree(m, x) <==> IsFree(s, x) || (x in l && Owned(s, x)))
    requires !IsFree(s, p) && p !in l
    ensures SameSpans(s, Give(m, p)) && forall x :: IsFree(Give(m, p), x) <==>
      IsFree(s, x) || (x in l + [p] && Owned(s, x))
  {
    hide Inv, IsFree, Give, Owner;
    SameOwner(s, m, p);
    forall x { GiveIs(m, p, x); }
  }

  function TakeAll(s: seq<Arena>, l: seq<nat>): (r: seq<Arena>)
    requires Inv(s) && AllFree(s, l)
    ensures Inv(r) && SameSpans(s, r)
    ensures forall x :: IsFree(r, x) <==> IsFree(s, x) && x !in l
    decreases |l|
  {
    if l == [] then s
    else
      var n := |l| - 1;
      assert l == l[..n] + [l[n]];
      TakeNext(s, TakeAll(s, l[..n]), l[..n], l[n]);
      Take(TakeAll(s, l[..n]), l[n])
  }

  function GiveAll(s: seq<Arena>, l: seq<nat>): (r: seq<Arena>)
    requires Inv(s) && NoneFree(s, l)
    ensures Inv(r) && SameSpans(s, r)
    ensures forall x :: IsFree(r, x) <==> IsFree(s, x) || (x in l && Owned(s, x))
    decreases |l|
  {
    if l == [] then s
    else
      var n := |l| - 1;
      assert l == l[..n] + [l[n]];
      GiveNext(s, GiveAll(s, l[..n]), l[..n], l[n]);
      Give(GiveAll(s, l[..n]), l[n])
  }

  // ---- runs ----

  function FreeTotal(s: seq<Arena>): (n: int) {
    if s == [] then 0 else s[0].freeCount + FreeTotal(s[1..])
  }

  lemma {:induction false} FreeTotalSet(s: seq<Arena>, k: nat, a: Arena)
    requires k < |s|
    ensures FreeTotal(s[k := a]) == FreeTotal(s) - s[k].freeCount + a.freeCount
  {
    if k == 0 {
      assert s[0 := a][1..] == s[1..];
    } else {
      assert s[k := a][1..] == s[1..][k - 1 := a];
      FreeTotalSet(s[1..], k - 1, a);
    }
  }

  lemma {:induction false} TakenTotal(s: seq<Arena>, l: seq<nat>)
    requires Inv(s) && AllFree(s, l)
    ensures FreeTotal(TakeAll(s, l)) == FreeTotal(s) - |l|
    decreases |l|
  {
    if l != [] {
      var n := |l| - 1;
      assert l == l[..n] + [l[n]];
      TakenTotal(s, l[..n]);
      var m := TakeAll(s, l[..n]);
      assert IsFree(m, l[n]);
      var k := Owner(m, l[n]);
      FreeTotalSet(m, k, TakeFrom(m[k], l[n]));
    }
  }

  lemma {:induction false} GivenTotal(s: seq<Arena>, l: seq<nat>)
    requires Inv(s) && NoneFree(s, l) && forall p | p in l :: Owned(s, p)
    ensures FreeTotal(GiveAll(s, l)) == FreeTotal(s) + |l|
    decreases |l|
  {
    if l != [] {
      var n := |l| - 1;
      assert l == l[..n] + [l[n]];
      GivenTotal(s, l[..n]);
      var m := GiveAll(s, l[..n]);
      SameOwner(s, m, l[n]);
      assert Owned(s, l[n]) && !IsFree(m, l[n]);
      var k := Owner(m, l[n]);
      FreeTotalSet(m, k, GiveTo(m[k], l[n]));
    }
  }

  // pmm_add_arena's place for an arena: before the first of a larger priority.
  function Place(s: seq<Arena>, priority: nat): (k: nat)
    ensures k <= |s| && (k < |s| ==> s[k].priority > priority) && forall j | 0 <= j < k :: s[j].priority <= priority
  {
    if s == [] || s[0].priority > priority then 0 else 1 + Place(s[1..], priority)
  }

  function Numbers(first: nat, n: nat): (l: seq<nat>)
    ensures |l| == n && forall i | 0 <= i < n :: l[i] == first + i
  {
    seq(n, (i: nat) => first + i)
  }

  function Clear(n: nat): (l: seq<bool>)
    ensures |l| == n && forall i | 0 <= i < n :: !l[i]
  {
    seq(n, _ => false)
  }

  function Fresh(first: nat, pages: nat, base: nat, kmap: bool, priority: nat): (a: Arena)
    ensures ArenaOk(a)
  {
    var a := Arena(first, pages, base, kmap, priority, Clear(pages), Numbers(first, pages), pages);
    assert forall p: nat | Holds(a, p) :: a.free[p - first] == p;
    a
  }

  // boot is where the next page array will be allocated; held are the pages handed out and not yet returned.
  datatype State = State(arenas: seq<Arena>, boot: nat, held: set<nat>)

  datatype Step =
    | AddArena(pages: nat, base: nat, kmap: bool, priority: nat)
    | Alloc(l: seq<nat>)
    | Free(l: seq<nat>)

  ghost predicate Good(s: State) {
    && Inv(s.arenas)
    && (forall k | 0 <= k < |s.arenas| :: s.arenas[k].first + s.arenas[k].pages <= s.boot)
    && (forall j, k | 0 <= j < k < |s.arenas| :: s.arenas[j].priority <= s.arenas[k].priority)
    && (forall p :: p in s.held <==> Owned(s.arenas, p) && !IsFree(s.arenas, p))
  }

  // Every allocator hands out distinct free pages; a client returns pages it holds.
  ghost predicate Enabled(s: State, e: Step) {
    match e
    case AddArena(_, _, _, _) => true
    case Alloc(l) => AllFree(s.arenas, l)
    case Free(l) => NoDups(l) && forall p | p in l :: p in s.held
  }

  function WithArena(s: seq<Arena>, a: Arena): (r: seq<Arena>) {
    var k := Place(s, a.priority);
    s[..k] + [a] + s[k..]
  }

  function Apply(s: State, e: Step): (r: State)
    requires Good(s) && Enabled(s, e)
  {
    match e
    case AddArena(pages, base, kmap, priority) =>
      s.(arenas := WithArena(s.arenas, Fresh(s.boot, pages, base, kmap, priority)), boot := s.boot + pages)
    case Alloc(l) => s.(arenas := TakeAll(s.arenas, l), held := s.held + set p | p in l)
    case Free(l) => s.(arenas := GiveAll(s.arenas, l), held := s.held - set p | p in l)
  }

  lemma WithArenaInv(s: seq<Arena>, a: Arena)
    requires Inv(s) && ArenaOk(a) && (forall k | 0 <= k < |s| :: Apart(s[k], a))
    ensures Inv(WithArena(s, a))
  {
    var r, k := WithArena(s, a), Place(s, a.priority);
    assert forall j | 0 <= j < |r| :: r[j] == if j < k then s[j] else if j == k then a else s[j - 1];
  }

  lemma WithArenaIs(s: seq<Arena>, a: Arena, p: nat)
    requires Inv(s) && ArenaOk(a) && (forall k | 0 <= k < |s| :: Apart(s[k], a)) && Inv(WithArena(s, a))
    ensures Owned(WithArena(s, a), p) <==> Owned(s, p) || Holds(a, p)
    ensures !Holds(a, p) ==> (IsFree(WithArena(s, a), p) <==> IsFree(s, p))
    ensures Holds(a, p) ==> (IsFree(WithArena(s, a), p) <==> FreeIn(a, p))
  {
    hide ArenaOk, Inv, Owner, Place;
    var r, k := WithArena(s, a), Place(s, a.priority);
    assert r[k] == a;
    if Holds(a, p) {
      OwnerIs(r, k, p);
    } else if Owned(s, p) {
      var j := Owner(s, p);
      OwnerIs(r, if j < k then j else j + 1, p);
    }
    assert forall j | 0 <= j < |r| :: r[j] == if j < k then s[j] else if j == k then a else s[j - 1];
  }

  lemma WithArenaOrder(s: seq<Arena>, a: Arena, top: nat)
    requires forall k | 0 <= k < |s| :: s[k].first + s[k].pages <= top
    requires forall j, k | 0 <= j < k < |s| :: s[j].priority <= s[k].priority
    ensures var r := WithArena(s, a);
      && (forall k | 0 <= k < |r| :: r[k] == a || r[k].first + r[k].pages <= top)
      && (forall j, k | 0 <= j < k < |r| :: r[j].priority <= r[k].priority)
  {
    hide Place;
    var r, k := WithArena(s, a), Place(s, a.priority);
    assert forall j | 0 <= j < |r| :: r[j] == if j < k then s[j] else if j == k then a else s[j - 1];
  }

  lemma AddArenaGood(s: State, pages: nat, base: nat, kmap: bool, priority: nat)
    requires Good(s)
    ensures Good(Apply(s, AddArena(pages, base, kmap, priority)))
  {
    hide Inv, Owned, IsFree, WithArena;
    var a := Fresh(s.boot, pages, base, kmap, priority);
    WithArenaInv(s.arenas, a);
    WithArenaOrder(s.arenas, a, s.boot);
    var r := WithArena(s.arenas, a);
    forall p: nat
      ensures p in s.held <==> Owned(r, p) && !IsFree(r, p)
    {
      WithArenaIs(s.arenas, a, p);
      if p >= s.boot { AboveBoot(s, p); }
    }
  }

  lemma AboveBoot(s: State, p: nat)
    requires Good(s) && p >= s.boot
    ensures p !in s.held
  {
  }

  lemma StepGood(s: State, e: Step)
    requires Good(s) && Enabled(s, e)
    ensures Good(Apply(s, e))
  {
    match e
    case AddArena(pages, base, kmap, priority) => AddArenaGood(s, pages, base, kmap, priority);
    case Alloc(l) =>
      forall p { SameOwner(s.arenas, TakeAll(s.arenas, l), p); }
    case Free(l) =>
      forall p { SameOwner(s.arenas, GiveAll(s.arenas, l), p); }
  }

  ghost predicate Legal(s: State, es: seq<Step>)
    requires Good(s)
    decreases |es|
  {
    es == [] || (Enabled(s, es[0]) && (StepGood(s, es[0]); Legal(Apply(s, es[0]), es[1..])))
  }

  function Run(s: State, es: seq<Step>): (r: State)
    requires Good(s) && Legal(s, es)
    ensures Good(r)
    decreases |es|
  {
    if es == [] then s
    else
      StepGood(s, es[0]);
      Run(Apply(s, es[0]), es[1..])
  }

  function Boot(): (s: State)
    ensures Good(s)
  {
    State([], 0, {})
  }

  // In every run a page is on its own arena's free list, once, with NONFREE clear, or it is handed out with NONFREE
  // set.
  lemma PagesConserved(es: seq<Step>, p: nat, k: nat)
    requires Legal(Boot(), es) && k < |Run(Boot(), es).arenas| && Holds(Run(Boot(), es).arenas[k], p)
    ensures var s := Run(Boot(), es); var a := s.arenas[k];
      && a.freeCount == |a.free| && NoDups(a.free) && |a.nonfree| == a.pages
      && (if p in s.held then a.nonfree[p - a.first] && p !in a.free else !a.nonfree[p - a.first] && p in a.free)
      && (forall j | 0 <= j < |s.arenas| && j != k :: p !in s.arenas[j].free)
  {
    var s := Run(Boot(), es);
    OwnerIs(s.arenas, k, p);
    forall j | 0 <= j < |s.arenas| && j != k
      ensures p !in s.arenas[j].free
    {
      assert Apart(s.arenas[if j < k then j else k], s.arenas[if j < k then k else j]);
    }
  }

  // ---- aligned runs ----


  // What pmm_add_arena asserts of an arena, and that it fits in the physical address range.
  predicate SpanOk(a: Arena) {
    a.base % PAGE_SIZE == 0 && a.pages > 0 && a.base + a.pages * PAGE_SIZE <= WORD
  }

  predicate Aligned(a: Arena, start: nat, shift: nat) {
    (a.base + start * PAGE_SIZE) % Pow2(shift) == 0
  }

  // count free pages in a row, the first at an address that is a multiple of 2^shift.
  predicate RunAt(a: Arena, start: nat, count: nat, shift: nat) {
    && Aligned(a, start, shift) && start + count <= a.pages && |a.nonfree| == a.pages
    && (forall i | start <= i < start + count :: !a.nonfree[i])
  }

  // Alignment in bytes is alignment in pages.
  lemma AlignedIs(a: Arena, start: nat, shift: nat)
    requires a.base % PAGE_SIZE == 0 && shift >= 12
    ensures Aligned(a, start, shift) <==> (a.base / PAGE_SIZE + start) % Pow2(shift - 12) == 0
    ensures Pow2(shift) == PAGE_SIZE * Pow2(shift - 12)
  {
    hide Pow2;
    WordIs();
    Pow2Split(12, shift - 12);
    ModScale(a.base / PAGE_SIZE + start, Pow2(shift - 12), PAGE_SIZE);
    assert a.base + start * PAGE_SIZE == PAGE_SIZE * (a.base / PAGE_SIZE + start);
  }

  // From one aligned start, the others are whole alignment steps away.
  lemma AlignedSteps(a: Arena, off: nat, start: nat, shift: nat)
    requires a.base % PAGE_SIZE == 0 && shift >= 12 && Aligned(a, off, shift) && off <= start
    ensures Aligned(a, start, shift) <==> (start - off) % Pow2(shift - 12) == 0
  {
    AlignedIs(a, off, shift);
    AlignedIs(a, start, shift);
    ModShift(a.base / PAGE_SIZE + off, start - off, Pow2(shift - 12));
  }

  lemma ModShift(x: nat, y: nat, n: nat)
    requires n > 0 && x % n == 0
    ensures (x + y) % n == 0 <==> y % n == 0
  {
    assert x == n * (x / n) && y == n * (y / n) + y % n;
    assert x + y == n * (x / n + y / n) + y % n;
    DivIs(x + y, n, x / n + y / n, y % n);
  }

  // The test that pmm_alloc_contiguous makes on the rounded base, and the page it starts at.
  predicate HasStart(a: Arena, shift: nat) {
    var r := RoundUp64(a.base, Pow2(shift));
    a.base <= r <= a.base + a.pages * PAGE_SIZE - 1
  }

  function StartOf(a: Arena, shift: nat): (off: nat)
    requires HasStart(a, shift)
  {
    (RoundUp64(a.base, Pow2(shift)) - a.base) / PAGE_SIZE
  }

  lemma NoStart(a: Arena, shift: nat, start: nat)
    requires SpanOk(a) && 12 <= shift < 64 && !HasStart(a, shift) && start < a.pages
    ensures !Aligned(a, start, shift)
  {
    hide Pow2, RoundUp64;
    if Aligned(a, start, shift) {
      if RoundUp64(a.base, Pow2(shift)) < a.base {
        NothingAbove(a.base, shift, a.base + start * PAGE_SIZE);
      } else {
        LeastAbove(a.base, shift, a.base + start * PAGE_SIZE);
      }
    }
  }

  lemma StartIs(a: Arena, shift: nat)
    requires SpanOk(a) && 12 <= shift < 64 && HasStart(a, shift)
    ensures RoundUp64(a.base, Pow2(shift)) == a.base + StartOf(a, shift) * PAGE_SIZE
    ensures StartOf(a, shift) < a.pages && Aligned(a, StartOf(a, shift), shift)
  {
    hide Pow2, RoundUp64;
    RoundedPage(a.base, shift);
    assert RoundUp64(a.base, Pow2(shift)) == a.base + StartOf(a, shift) * PAGE_SIZE;
  }

  lemma RoundedPage(base: nat, shift: nat)
    requires base < WORD && 12 <= shift < 64 && base <= RoundUp64(base, Pow2(shift))
    ensures RoundUp64(base, Pow2(shift)) % PAGE_SIZE == 0 && RoundUp64(base, Pow2(shift)) % Pow2(shift) == 0
  {
    hide Pow2, RoundUp64;
    RoundUp64Is(base, shift);
    WordIs();
    Pow2Split(12, shift - 12);
    PageMultiple(RoundUp64(base, Pow2(shift)), Pow2(shift - 12));
  }

  lemma StartIsLeast(a: Arena, shift: nat, start: nat)
    requires SpanOk(a) && 12 <= shift < 64 && HasStart(a, shift) && Aligned(a, start, shift)
    ensures start >= StartOf(a, shift)
  {
    hide Pow2, RoundUp64;
    StartIs(a, shift);
    LeastAbove(a.base, shift, a.base + start * PAGE_SIZE);
  }

  lemma PageMultiple(r: nat, n: nat)
    requires n > 0 && r % (PAGE_SIZE * n) == 0
    ensures r % PAGE_SIZE == 0
  {
    var q := r / (PAGE_SIZE * n);
    assert r == PAGE_SIZE * n * q;
    assert PAGE_SIZE * n * q == PAGE_SIZE * (n * q);
    MulMod(PAGE_SIZE, n * q);
  }

  // A page in use at start + i spoils every aligned start up to there.
  lemma Spoiled(a: Arena, off: nat, start: nat, i: nat, count: nat, shift: nat, t: nat)
    requires SpanOk(a) && 12 <= shift && Aligned(a, off, shift) && off <= start && Aligned(a, start, shift)
    requires |a.nonfree| == a.pages && i < count && start + count <= a.pages && a.nonfree[start + i]
    requires start <= t < RoundUp(start - off + i + 1, Pow2(shift - 12)) + off
    ensures !RunAt(a, t, count, shift)
  {
    if Aligned(a, t, shift) {
      AlignedSteps(a, off, t, shift);
      if t > start + i {
        RoundUpLeast(start - off + i + 1, Pow2(shift - 12), t - off);
        assert false;
      }
    }
  }

  // The positions of the search stay below 2^32: a shift of less than 64, and the bounds from where it starts.
  predicate Fits(a: Arena, count: nat, shift: nat) {
    12 <= shift < 64 && count < U32 && (HasStart(a, shift) ==>
      StartOf(a, shift) < a.pages && InBounds(a.pages, count, StartOf(a, shift), Pow2(shift - 12)))
  }

  // The search fits in every arena that it looks at.
  predicate FitsAll(s: seq<Arena>, count: nat, shift: nat) {
    count > 0 ==> forall k | 0 <= k < |s| && s[k].kmap :: Fits(s[k], count, shift)
  }

  // Whatever pages of the arena are in use, no turn of the search is led astray: if and only if it fits.
  lemma FitsExactly(a: Arena, count: nat, shift: nat)
    requires SpanOk(a) && 12 <= shift < 64 && 0 < count < U32 && HasStart(a, shift)
    ensures Fits(a, count, shift) <==>
            StartOf(a, shift) < U32 && forall c: seq<bool> | |c| == a.pages ::
              AllSound(c, count, StartOf(a, shift), Pow2(shift - 12))
  {
    hide Pow2, RoundUp64, HasStart, StartOf, InBounds, AllSound;
    StartIs(a, shift);
    SoundExactly(a.pages, count, StartOf(a, shift), Pow2(shift - 12));
  }

  // When it does not fit, the search need not end: one page, in use, and a run of one page aligned to 2^44 bytes.
  lemma SearchStuck(a: Arena, k: nat)
    requires a == Arena(0, 1, 0, true, 0, [true], [], 0)
    ensures SpanOk(a) && HasStart(a, 44) && !Fits(a, 1, 44)
    ensures After(a.nonfree, 1, StartOf(a, 44), Pow2(44 - 12), k) == Some(0)
  {
    hide Pow2, RoundUp, RoundUp64, InBounds, After;
    WordIs();
    BelowWord(44);
    StartAtZero(Pow2(44));
    Stuck(k);
  }

  lemma StartAtZero(n: nat)
    requires 0 < n < WORD
    ensures RoundUp64(0, n) == 0
  {
    DivIs(n - 1, n, 0, n - 1);
  }

  // Going on from a page in use misses no run and does not overflow.
  lemma NextStart(a: Arena, off: nat, start: nat, i: nat, count: nat, shift: nat)
    requires SpanOk(a) && Fits(a, count, shift) && HasStart(a, shift) && off == StartOf(a, shift)
    requires Aligned(a, off, shift) && off <= start && Aligned(a, start, shift)
    requires |a.nonfree| == a.pages && i < count && start + count <= a.pages && a.nonfree[start + i]
    ensures var next := Next(off, Pow2(shift - 12), start, i);
      && start < next < U32 && Aligned(a, next, shift) && forall t: nat | start <= t < next ::
         !RunAt(a, t, count, shift)
  {
    hide Aligned, RunAt, Pow2, HasStart, StartOf, InBounds, Next, RoundUp;
    var next := Next(off, Pow2(shift - 12), start, i);
    AlignedSteps(a, off, start, shift);
    NextInBounds(a.pages, count, off, Pow2(shift - 12), start, i);
    AlignedSteps(a, off, next, shift);
    forall t: nat | start <= t < next { Spoiled(a, off, start, i, count, shift, t); }
  }

  // The first page of the run that is in use, count if none.
  method FindUsed(a: Arena, start: nat, count: nat) returns (i: nat)
    requires |a.nonfree| == a.pages && start + count <= a.pages
    ensures i == FirstUsed(a.nonfree, start, count)
  {
    i := 0;
    while i < count && !a.nonfree[start + i]
      invariant i <= count && FirstUsed(a.nonfree, start, count) == i + FirstUsed(a.nonfree, start + i, count - i)
    {
      i := i + 1;
    }
  }

  // The body of pmm_alloc_contiguous for one arena: the least start of a run, -1 if there is none.
  method SearchArena(a: Arena, count: nat, shift: nat) returns (start: int)
    requires SpanOk(a) && |a.nonfree| == a.pages && count > 0 && Fits(a, count, shift)
    ensures start >= 0 ==> RunAt(a, start, count, shift) && forall t: nat | t < start :: !RunAt(a, t, count, shift)
    ensures start < 0 ==> forall t: nat :: !RunAt(a, t, count, shift)
  {
    hide Pow2, RoundUp64, Aligned, StartOf, HasStart, RoundUp, InBounds, Next, FirstUsed, EndTestRight;
    if !HasStart(a, shift) {
      forall t: nat | t < a.pages { NoStart(a, shift, t); }
      return -1;
    }
    StartIs(a, shift);
    var off, n := StartOf(a, shift), Pow2(shift - 12);
    PagesBelow(a.pages, count, off, n);
    forall t: nat | Aligned(a, t, shift) { StartIsLeast(a, shift, t); }
    var at: nat := off;
    ghost var k := 0;
    TurnTest(a, off, at, count, shift);
    while at < a.pages && (at + count) % U32 <= a.pages
      invariant off <= at < U32 && Aligned(a, at, shift) && After(a.nonfree, count, off, n, k) == Some(at)
      invariant off + count > a.pages ==> at == off
      invariant at < a.pages ==> EndTestRight(a.pages, at, count)
      invariant forall t: nat | t < at :: !RunAt(a, t, count, shift)
      decreases a.pages - at
    {
      assert at + count <= a.pages by { TestSays(a.pages, at, count); }
      var i := FindUsed(a, at, count);
      if i == count { return at; }
      NextStart(a, off, at, i, count, shift);
      at, k := Next(off, n, at, i), k + 1;
      TurnTest(a, off, at, count, shift);
    }
    assert at < a.pages ==> at + count > a.pages by { if at < a.pages { TestSays(a.pages, at, count); } }
    start := -1;
  }

  lemma TurnTest(a: Arena, off: nat, at: nat, count: nat, shift: nat)
    requires SpanOk(a) && Fits(a, count, shift) && HasStart(a, shift) && off == StartOf(a, shift)
    requires Aligned(a, off, shift) && off <= at && Aligned(a, at, shift) && (off + count > a.pages ==> at == off)
    ensures at < a.pages ==> EndTestRight(a.pages, at, count)
  {
    hide Aligned, Pow2, HasStart, StartOf, InBounds, EndTestRight;
    if at < a.pages {
      AlignedSteps(a, off, at, shift);
      TestInBounds(a.pages, count, off, Pow2(shift - 12), at);
    }
  }

  lemma TestSays(pages: nat, at: nat, count: nat)
    requires EndTestRight(pages, at, count)
    ensures (at + count) % U32 <= pages <==> at + count <= pages
  {
  }

  // ---- the order in which pages are handed out ----

  function FreePages(s: seq<Arena>): (l: seq<nat>) {
    if s == [] then [] else s[0].free + FreePages(s[1..])
  }

  // The head of the first free list that is not empty is the first free page.
  lemma {:induction false} FreePagesHead(s: seq<Arena>, k: nat, a: Arena)
    requires k < |s| && s[k].free != [] && a.free == s[k].free[1..] && forall j | 0 <= j < k :: s[j].free == []
    ensures FreePages(s) == [s[k].free[0]] + FreePages(s[k := a])
  {
    if k == 0 {
      assert s[0 := a][1..] == s[1..];
      assert s[0].free == [s[0].free[0]] + a.free;
    } else {
      assert s[k := a][1..] == s[1..][k - 1 := a];
      FreePagesHead(s[1..], k - 1, a);
    }
  }

  lemma {:induction false} FreePagesNone(s: seq<Arena>)
    requires forall j | 0 <= j < |s| :: s[j].free == []
    ensures FreePages(s) == []
  {
    if s != [] { FreePagesNone(s[1..]); }
  }

  lemma TakeOne(s: seq<Arena>, k: nat, p: nat)
    requires Inv(s) && k < |s| && FreeIn(s[k], p)
    ensures IsFree(s, p) && Take(s, p) == s[k := TakeFrom(s[k], p)]
  {
    OwnerIs(s, k, p);
  }

  lemma TakeLast(s: seq<Arena>, l: seq<nat>, p: nat)
    requires Inv(s) && AllFree(s, l) && IsFree(TakeAll(s, l), p)
    ensures AllFree(s, l + [p]) && TakeAll(s, l + [p]) == Take(TakeAll(s, l), p)
  {
    assert (l + [p])[..|l|] == l;
    assert p !in l;
  }

  // How many of the pages belong to an arena.
  function OwnedIn(s: seq<Arena>, l: seq<nat>): (n: nat)
    decreases |l|
  {
    if l == [] then 0 else OwnedIn(s, l[..|l| - 1]) + if Owned(s, l[|l| - 1]) then 1 else 0
  }

  lemma OwnedNext(s: seq<Arena>, l: seq<nat>, i: nat)
    requires i < |l|
    ensures OwnedIn(s, l[..i + 1]) == OwnedIn(s, l[..i]) + if Owned(s, l[i]) then 1 else 0
  {
    assert l[..i + 1][..i] == l[..i];
  }

  lemma OwnedNone(s: seq<Arena>, l: seq<nat>)
    ensures OwnedIn(s, l[..0]) == 0
  {
  }

  class Allocator {
    var arenas: seq<Arena>
    var boot: nat

    constructor ()
      ensures arenas == Boot().arenas && boot == Boot().boot
    {
      arenas, boot := [], 0;
    }

    // pmm_add_arena keeps the arenas in priority order, a new one after its equals, and frees all its pages.
    method AddArena(pages: nat, base: nat, kmap: bool, priority: nat)
      modifies this
      ensures arenas == WithArena(old(arenas), Fresh(old(boot), pages, base, kmap, priority))
      ensures boot == old(boot) + pages
    {
      var k := 0;
      while k < |arenas| && arenas[k].priority <= priority
        invariant k <= |arenas|
        invariant forall j | 0 <= j < k :: arenas[j].priority <= priority
      {
        k := k + 1;
      }
      var a := Arena(boot, pages, base, kmap, priority, Clear(pages), [], 0);
      var i := 0;
      while i < pages
        invariant i <= pages && a == Arena(boot, pages, base, kmap, priority, Clear(pages), Numbers(boot, i), i)
      {
        a := a.(free := a.free + [boot + i], freeCount := a.freeCount + 1);
        i := i + 1;
      }
      arenas := arenas[..k] + [a] + arenas[k..];
      boot := boot + pages;
    }

    // The pages handed out so far, in order, are l.
    method TakePage(k: nat, p: nat, ghost s: seq<Arena>, ghost l: seq<nat>)
      requires Inv(s) && AllFree(s, l) && arenas == TakeAll(s, l) && k < |arenas| && FreeIn(arenas[k], p)
      modifies `arenas
      ensures AllFree(s, l + [p]) && arenas == TakeAll(s, l + [p])
      ensures arenas == old(arenas)[k := TakeFrom(old(arenas)[k], p)]
    {
      hide Inv, AllFree, TakeAll;
      TakeOne(arenas, k, p);
      TakeLast(s, l, p);
      var a := arenas[k];
      OkAt(arenas, k);
      a := a.(free := Cut(a.free, Index(a.free, p)));
      a := a.(nonfree := a.nonfree[p - a.first := true]);
      a := a.(freeCount := a.freeCount - 1);
      arenas := arenas[k := a];
    }

    // pmm_alloc_pages takes the first free pages in arena order, as many as there are up to count.
    method AllocPages(count: nat) returns (r: seq<nat>)
      requires Inv(arenas)
      modifies `arenas
      ensures AllFree(old(arenas), r) && arenas == TakeAll(old(arenas), r)
      ensures FreePages(old(arenas)) == r + FreePages(arenas)
      ensures |r| == if count <= |FreePages(old(arenas))| then count else |FreePages(old(arenas))|
    {
      hide Inv, AllFree, TakeAll, FreePages;
      ghost var s := arenas;
      r := [];
      TakeNone(s);
      var k := 0;
      while k < |arenas| && |r| < count
        invariant k <= |arenas| && |r| <= count
        invariant AllFree(s, r) && arenas == TakeAll(s, r)
        invariant FreePages(s) == r + FreePages(arenas)
        invariant forall j | 0 <= j < k :: arenas[j].free == []
      {
        OkAt(arenas, k);
        if arenas[k].freeCount > 0 {
          HeadFacts(arenas, k);
          FreePagesHead(arenas, k, TakeFrom(arenas[k], arenas[k].free[0]));
          var p := arenas[k].free[0];
          TakePage(k, p, s, r);
          r := r + [p];
        } else {
          k := k + 1;
        }
      }
      if |r| < count { FreePagesNone(arenas); }
    }

    // pmm_alloc_range takes the pages from address on, until one is in use or no later arena holds it.
    method AllocRange(address: nat, count: nat) returns (r: seq<nat>, ghost last: nat)
      requires Inv(arenas) && forall k | 0 <= k < |arenas| :: SpanOk(arenas[k])
      modifies `arenas
      ensures AllFree(old(arenas), r) && arenas == TakeAll(old(arenas), r) && |r| <= count
      ensures Consecutive(old(arenas), r, RoundDown(address, PAGE_SIZE), last)
      ensures |r| < count ==>
        forall k | last <= k < |arenas| :: Stops(arenas[k], RoundDown(address, PAGE_SIZE) + |r| * PAGE_SIZE)
    {
      hide Inv, AllFree, TakeAll, AddressOf, Owner, Owned, RoundDown, TakeFrom, Consecutive;
      ghost var s := arenas;
      TakeNone(s);
      r, last := [], 0;
      ConsecutiveNone(s, RoundDown(address, PAGE_SIZE));
      if count == 0 { return; }
      var base := RoundDown(address, PAGE_SIZE);
      RoundDownIs(address, PAGE_SIZE);
      var at := base;
      var k := 0;
      while k < |arenas| && |r| < count
        invariant 0 <= k <= |arenas| && |r| <= count && last <= |arenas|
        invariant AllFree(s, r) && arenas == TakeAll(s, r) && at == base + |r| * PAGE_SIZE && at % PAGE_SIZE == 0
        invariant Consecutive(s, r, base, last)
        invariant |r| < count ==> forall j | last <= j < k :: Stops(arenas[j], at)
        decreases |arenas| - k, count - |r|
      {
        OkAt(arenas, k);
        SpansKept(s, r, k);
        if Within(arenas[k], at) && !arenas[k].nonfree[(at - arenas[k].base) / PAGE_SIZE] {
          var p := PageFor(arenas[k], at);
          AddressIs(s, k, p, at);
          ConsecutiveNext(s, r, base, last, p, k);
          assert FreeIn(arenas[k], p);
          TakePage(k, p, s, r);
          r, at, last := r + [p], at + PAGE_SIZE, k;
        } else {
          k := k + 1;
        }
      }
    }

    // pmm_alloc_contiguous: the lowest aligned run of the first KMAP arena that has one; nothing when none has.
    method AllocContiguous(count: nat, alignment: nat) returns (r: seq<nat>, pa: nat)
      requires Inv(arenas) && alignment < 64 && count < U32 && FitsAll(arenas, count, Shift(alignment))
      requires forall k | 0 <= k < |arenas| && arenas[k].kmap :: SpanOk(arenas[k])
      modifies `arenas
      ensures AllFree(old(arenas), r) && arenas == TakeAll(old(arenas), r)
      ensures count == 0 ==> r == []
      ensures count > 0 && r == [] ==> forall k, t: nat | 0 <= k < |old(arenas)| && old(arenas)[k].kmap ::
        !RunAt(old(arenas)[k], t, count, Shift(alignment))
      ensures count > 0 && r != [] ==> exists k: nat, start: nat ::
        FirstRun(old(arenas), k, start, count, Shift(alignment)) && IsRun(old(arenas), k, start, count, r, pa)
    {
      hide Inv, AllFree, TakeAll, RunAt, Fits;
      ghost var s := arenas;
      TakeNone(s);
      r, pa := [], 0;
      if count == 0 { return; }
      var shift := Shift(alignment);
      var k := 0;
      while k < |arenas|
        invariant 0 <= k <= |arenas| && arenas == s
        invariant forall j, t: nat | 0 <= j < k && s[j].kmap :: !RunAt(s[j], t, count, shift)
      {
        if arenas[k].kmap {
          OkAt(arenas, k);
          var start := SearchArena(arenas[k], count, shift);
          if start >= 0 {
            pa := arenas[k].base + start * PAGE_SIZE;
            r := TakeRun(k, start, count, shift);
            assert FirstRun(s, k, start, count, shift) && IsRun(s, k, start, count, r, pa);
            return;
          }
        }
        k := k + 1;
      }
    }

    method TakeRun(k: nat, start: nat, count: nat, ghost shift: nat) returns (r: seq<nat>)
      requires Inv(arenas) && k < |arenas| && RunAt(arenas[k], start, count, shift)
      modifies `arenas
      ensures AllFree(old(arenas), r) && arenas == TakeAll(old(arenas), r)
      ensures r == RunPages(old(arenas)[k], start, count)
    {
      hide Inv, AllFree, TakeAll, Aligned;
      ghost var s := arenas;
      TakeNone(s);
      r := [];
      var first := arenas[k].first;
      while |r| < count
        invariant |r| <= count && AllFree(s, r) && arenas == TakeAll(s, r) && k < |arenas|
        invariant r == RunPages(s[k], start, |r|) && SameSpan(s[k], arenas[k])
        invariant |arenas[k].nonfree| == arenas[k].pages
        invariant forall i | start + |r| <= i < start + count :: !arenas[k].nonfree[i]
      {
        OkAt(arenas, k);
        TakePage(k, first + start + |r|, s, r);
        r := r + [first + start + |r|];
      }
    }

    // pmm_free puts each page at the head of its own arena's free list.
    method Free(l: seq<nat>) returns (n: nat)
      requires Inv(arenas) && NoneFree(arenas, l)
      modifies `arenas
      ensures arenas == GiveAll(old(arenas), l)
      ensures n == OwnedIn(old(arenas), l) && ((forall p | p in l :: Owned(old(arenas), p)) ==> n == |l|)
    {
      hide Inv, NoneFree, GiveAll, Owner, OwnedIn;
      ghost var s := arenas;
      n := 0;
      OwnedNone(s, l);
      var i := 0;
      GiveNone(s, l);
      while i < |l|
        invariant 0 <= i <= |l| && NoneFree(s, l[..i]) && arenas == GiveAll(s, l[..i])
        invariant n == OwnedIn(s, l[..i]) && ((forall p | p in l :: Owned(s, p)) ==> n == i)
      {
        GiveStep(s, l, i);
        OwnedNext(s, l, i);
        var p := l[i];
        var k := FindOwner(p);
        if k < |arenas| {
          var a := arenas[k];
          OkAt(arenas, k);
          a := a.(nonfree := a.nonfree[p - a.first := false]);
          a := a.(free := [p] + a.free);
          a := a.(freeCount := a.freeCount + 1);
          arenas := arenas[k := a];
          n := n + 1;
        }
        i := i + 1;
      }
      assert l[..|l|] == l;
    }

    method FindOwner(p: nat) returns (k: nat)
      ensures k == Owner(arenas, p)
    {
      k := 0;
      while k < |arenas| && !Holds(arenas[k], p)
        invariant k <= |arenas|
        invariant forall j | 0 <= j < k :: !Holds(arenas[j], p)
      {
        k := k + 1;
      }
    }
  }

  // ADDRESS_IN_ARENA
  predicate Within(a: Arena, addr: nat) {
    a.base <= addr <= a.base + a.pages * PAGE_SIZE - 1
  }

  // paddr_to_vm_page in the arena that holds the address.
  function PageFor(a: Arena, addr: nat): (p: nat)
    requires Within(a, addr)
    ensures Holds(a, p)
  {
    a.first + (addr - a.base) / PAGE_SIZE
  }

  // The arena has no free page at the address.
  predicate Stops(a: Arena, addr: nat) {
    Within(a, addr) ==> !FreeIn(a, PageFor(a, addr))
  }

  // vm_page_to_paddr
  function AddressOf(s: seq<Arena>, p: nat): (addr: int) {
    var k := Owner(s, p);
    if k < |s| then (p - s[k].first) * PAGE_SIZE + s[k].base else -1
  }

  // The pages l lie at the addresses from base on; last is the arena of the last of them.
  predicate Consecutive(s: seq<Arena>, l: seq<nat>, base: nat, last: nat) {
    && (forall i | 0 <= i < |l| :: AddressOf(s, l[i]) == base + i * PAGE_SIZE)
    && last == if l == [] then 0 else Owner(s, l[|l| - 1])
  }

  lemma ConsecutiveNone(s: seq<Arena>, base: nat)
    ensures Consecutive(s, [], base, 0)
  {
  }

  lemma ConsecutiveNext(s: seq<Arena>, l: seq<nat>, base: nat, last: nat, p: nat, k: nat)
    requires Consecutive(s, l, base, last) && AddressOf(s, p) == base + |l| * PAGE_SIZE && Owner(s, p) == k
    ensures Consecutive(s, l + [p], base, k)
  {
    hide AddressOf, Owner;
  }

  // An address rounded down to a page, its page and the address of that page agree.
  lemma AddressIs(s: seq<Arena>, k: nat, p: nat, addr: nat)
    requires Inv(s) && k < |s| && SpanOk(s[k]) && Within(s[k], addr) && p == PageFor(s[k], addr)
    ensures Owner(s, p) == k && (addr % PAGE_SIZE == 0 ==> AddressOf(s, p) == addr)
  {
    OwnerIs(s, k, p);
  }

  lemma SpansKept(s: seq<Arena>, l: seq<nat>, k: nat)
    requires Inv(s) && AllFree(s, l) && k < |s|
    ensures k < |TakeAll(s, l)| && SameSpan(s[k], TakeAll(s, l)[k])
  {
  }

  // alignment_log2, at least a page's.
  function Shift(alignment: nat): (shift: nat) {
    if alignment < 12 then 12 else alignment
  }

  function RunPages(a: Arena, start: nat, count: nat): (l: seq<nat>) {
    Numbers(a.first + start, count)
  }

  predicate IsRun(s: seq<Arena>, k: nat, start: nat, count: nat, l: seq<nat>, pa: nat) {
    k < |s| && l == RunPages(s[k], start, count) && pa == s[k].base + start * PAGE_SIZE
  }

  ghost predicate FirstRun(s: seq<Arena>, k: nat, start: nat, count: nat, shift: nat) {
    && k < |s| && s[k].kmap && RunAt(s[k], start, count, shift)
    && (forall t: nat | t < start :: !RunAt(s[k], t, count, shift))
    && (forall j, t: nat | 0 <= j < k && s[j].kmap :: !RunAt(s[j], t, count, shift))
  }

  lemma GiveNone(s: seq<Arena>, l: seq<nat>)
    requires Inv(s)
    ensures NoneFree(s, l[..0]) && GiveAll(s, l[..0]) == s
  {
  }

  lemma GiveStep(s: seq<Arena>, l: seq<nat>, i: nat)
    requires Inv(s) && NoneFree(s, l) && i < |l| && NoneFree(s, l[..i])
    ensures var m := GiveAll(s, l[..i]);
      && NoneFree(s, l[..i + 1]) && GiveAll(s, l[..i + 1]) == Give(m, l[i])
      && Owner(m, l[i]) == Owner(s, l[i]) && |m| == |s| && !IsFree(m, l[i])
  {
    hide Inv;
    var x := l[..i + 1];
    assert x[..i] == l[..i];
    SameOwner(s, GiveAll(s, l[..i]), l[i]);
  }

  lemma OkAt(s: seq<Arena>, k: nat)
    requires Inv(s) && k < |s|
    ensures ArenaOk(s[k])
  {
  }

  lemma TakeNone(s: seq<Arena>)
    requires Inv(s)
    ensures AllFree(s, []) && TakeAll(s, []) == s
  {
  }

  lemma HeadFacts(s: seq<Arena>, k: nat)
    requires Inv(s) && k < |s| && s[k].free != []
    ensures ArenaOk(s[k]) && FreeIn(s[k], s[k].free[0]) && TakeFrom(s[k], s[k].free[0]).free == s[k].free[1..]
  {
    assert s[k].free[0] in s[k].free;
  }
}
