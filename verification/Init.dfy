/** lk_init_level of top/init.c: a search repeated over a constant table, against a stable sort by level. */
module Init {
  import opened Options

  datatype Hook = Hook(level: nat, flags: bv32)

  predicate Flagged(h: Hook, flag: bv32) {
    h.flags & flag != 0
  }

  // ---- the reference order ----

  // The flagged hooks at one level from position k on, in table order.
  function AtLevel(table: seq<Hook>, flag: bv32, level: nat, k: nat): (r: seq<nat>)
    requires k <= |table|
    decreases |table| - k
  {
    if k == |table| then []
    else (if Flagged(table[k], flag) && table[k].level == level then [k] else []) + AtLevel(table, flag, level, k + 1)
  }

  // Level by level from lo to hi: the flagged hooks in a stable sort by level.
  function ByLevel(table: seq<Hook>, flag: bv32, lo: nat, hi: nat): (r: seq<nat>)
    decreases if lo > hi then 0 else hi - lo + 1
  {
    if lo > hi then [] else AtLevel(table, flag, lo, 0) + ByLevel(table, flag, lo + 1, hi)
  }

  // Running one range after the other is running both.
  lemma {:induction false} RangesJoin(table: seq<Hook>, flag: bv32, lo: nat, mid: nat, hi: nat)
    requires lo <= mid + 1 && mid <= hi
    ensures ByLevel(table, flag, lo, mid) + ByLevel(table, flag, mid + 1, hi) == ByLevel(table, flag, lo, hi)
    decreases mid + 1 - lo
  {
    hide Flagged;
    if lo <= mid {
      RangesJoin(table, flag, lo + 1, mid, hi);
    }
  }

  // ---- each hook once ----

  lemma {:induction false} AtLevelIs(table: seq<Hook>, flag: bv32, level: nat, k: nat, x: nat)
    requires k <= |table|
    ensures x in AtLevel(table, flag, level, k) <==>
      k <= x < |table| && Flagged(table[x], flag) && table[x].level == level
    decreases |table| - k
  {
    hide Flagged;
    if k < |table| { AtLevelIs(table, flag, level, k + 1, x); }
  }

  lemma {:induction false} ByLevelIs(table: seq<Hook>, flag: bv32, lo: nat, hi: nat, x: nat)
    ensures x in ByLevel(table, flag, lo, hi) <==> x < |table| && Flagged(table[x], flag) && lo <= table[x].level <= hi
    decreases if lo > hi then 0 else hi - lo + 1
  {
    hide Flagged;
    if lo <= hi {
      AtLevelIs(table, flag, lo, 0, x);
      ByLevelIs(table, flag, lo + 1, hi, x);
    }
  }

  // By level, and within a level by position, so that no hook comes twice.
  predicate Before(table: seq<Hook>, x: nat, y: nat)
    requires x < |table| && y < |table|
  {
    table[x].level < table[y].level || (table[x].level == table[y].level && x < y)
  }

  predicate Ordered(table: seq<Hook>, l: seq<nat>) {
    && (forall i | 0 <= i < |l| :: l[i] < |table|)
    && (forall i, j | 0 <= i < j < |l| :: Before(table, l[i], l[j]))
  }

  lemma {:induction false} AtLevelOrdered(table: seq<Hook>, flag: bv32, level: nat, k: nat)
    requires k <= |table|
    ensures Ordered(table, AtLevel(table, flag, level, k))
    decreases |table| - k
  {
    hide Flagged;
    if k < |table| {
      AtLevelOrdered(table, flag, level, k + 1);
      var rest := AtLevel(table, flag, level, k + 1);
      forall i | 0 <= i < |rest|
        ensures rest[i] > k && table[rest[i]].level == level
      {
        AtLevelIs(table, flag, level, k + 1, rest[i]);
      }
    }
  }

  lemma {:induction false} StableSort(table: seq<Hook>, flag: bv32, lo: nat, hi: nat)
    ensures Ordered(table, ByLevel(table, flag, lo, hi))
    decreases if lo > hi then 0 else hi - lo + 1
  {
    hide Flagged;
    if lo <= hi {
      AtLevelOrdered(table, flag, lo, 0);
      StableSort(table, flag, lo + 1, hi);
      var a, b := AtLevel(table, flag, lo, 0), ByLevel(table, flag, lo + 1, hi);
      forall i | 0 <= i < |a|
        ensures table[a[i]].level == lo
      {
        AtLevelIs(table, flag, lo, 0, a[i]);
      }
      forall i | 0 <= i < |b|
        ensures table[b[i]].level > lo
      {
        ByLevelIs(table, flag, lo + 1, hi, b[i]);
      }
    }
  }

  // ---- the search ----

  // What is still to be called after position pos - 1 at this level.
  function Left(table: seq<Hook>, flag: bv32, level: nat, pos: nat, stop: nat): (r: seq<nat>)
    requires pos <= |table|
  {
    AtLevel(table, flag, level, pos) + ByLevel(table, flag, level + 1, stop)
  }

  lemma {:induction false} AtLevelFirst(table: seq<Hook>, flag: bv32, level: nat, k: nat, f: nat)
    requires k <= f <= |table| && forall i | k <= i < f :: !(Flagged(table[i], flag) && table[i].level == level)
    ensures AtLevel(table, flag, level, k) == AtLevel(table, flag, level, f)
    decreases f - k
  {
    hide Flagged;
    if k < f { AtLevelFirst(table, flag, level, k + 1, f); }
  }

  // The first hook of the lowest level at or above lo.
  predicate Lowest(table: seq<Hook>, flag: bv32, lo: nat, hi: nat, f: nat) {
    && f < |table| && Flagged(table[f], flag) && lo <= table[f].level <= hi
    && (forall i | 0 <= i < |table| && Flagged(table[i], flag) && lo <= table[i].level <= hi ::
      table[f].level < table[i].level || (table[f].level == table[i].level && f <= i))
  }

  lemma {:induction false} ByLevelFirst(table: seq<Hook>, flag: bv32, lo: nat, hi: nat, f: nat)
    requires Lowest(table, flag, lo, hi, f)
    ensures ByLevel(table, flag, lo, hi) == [f] + Left(table, flag, table[f].level, f + 1, hi)
    decreases hi - lo
  {
    hide Flagged;
    if lo == table[f].level {
      AtLevelFirst(table, flag, lo, 0, f);
    } else {
      AtLevelFirst(table, flag, lo, 0, |table|);
      ByLevelFirst(table, flag, lo + 1, hi, f);
    }
  }

  lemma {:induction false} ByLevelNone(table: seq<Hook>, flag: bv32, lo: nat, hi: nat)
    requires forall i | 0 <= i < |table| :: !(Flagged(table[i], flag) && lo <= table[i].level <= hi)
    ensures ByLevel(table, flag, lo, hi) == []
    decreases if lo > hi then 0 else hi - lo + 1
  {
    hide Flagged;
    if lo <= hi {
      AtLevelFirst(table, flag, lo, 0, |table|);
      ByLevelNone(table, flag, lo + 1, hi);
    }
  }

  // What one pass over the table finds.
  ghost predicate Finds(table: seq<Hook>, flag: bv32, level: nat, pos: nat, stop: nat, found: Option<nat>)
    requires pos <= |table|
  {
    if found.Some? && found.value < |table| && table[found.value].level == level then
      && pos <= found.value && Flagged(table[found.value], flag)
      && (forall i | pos <= i < found.value :: !(Flagged(table[i], flag) && table[i].level == level))
    else
      && (forall i | pos <= i < |table| :: !(Flagged(table[i], flag) && table[i].level == level))
      && (found.Some? ==> Lowest(table, flag, level + 1, stop, found.value))
      && (found.None? ==> forall i | 0 <= i < |table| :: !(Flagged(table[i], flag) && level < table[i].level <= stop))
  }

  // The hook found is the next of those left.
  lemma FindsNext(table: seq<Hook>, flag: bv32, level: nat, pos: nat, stop: nat, found: Option<nat>)
    requires pos <= |table| && Finds(table, flag, level, pos, stop, found)
    ensures found.None? ==> Left(table, flag, level, pos, stop) == []
    ensures found.Some? ==> found.value < |table|
    ensures found.Some? ==>
      Left(table, flag, level, pos, stop) ==
        [found.value] + Left(table, flag, table[found.value].level, found.value + 1, stop)
  {
    hide Flagged;
    if found.Some? && found.value < |table| && table[found.value].level == level {
      AtLevelFirst(table, flag, level, pos, found.value);
    } else {
      AtLevelFirst(table, flag, level, pos, |table|);
      if found.Some? {
        ByLevelFirst(table, flag, level + 1, stop, found.value);
      } else {
        ByLevelNone(table, flag, level + 1, stop);
      }
    }
  }

  // One pass of the inner loop. last is the hook called last, if any.
  method FindNext(table: seq<Hook>, flag: bv32, start: nat, stop: nat, level: nat,
                  last: Option<nat>) returns (found: Option<nat>)
    requires start <= level + 1 && (last.Some? ==> last.value < |table| && level <= stop)
    ensures Finds(table, flag, level, if last.Some? then last.value + 1 else |table|, stop, found)
  {
    hide Flagged;
    found := None;
    var seenLast := false;
    var k := 0;
    while k < |table|
      invariant 0 <= k <= |table| && (seenLast <==> last.Some? && last.value < k)
      invariant forall i | 0 <= i < k && last.Some? && last.value < i ::
        !(Flagged(table[i], flag) && table[i].level == level)
      invariant found.None? ==> forall i | 0 <= i < k :: !(Flagged(table[i], flag) && level < table[i].level <= stop)
      invariant found.Some? ==> Lowest(table[..k], flag, level + 1, stop, found.value)
    {
      var p := table[k];
      if last == Some(k) { seenLast := true; }
      assert table[..k + 1] == table[..k] + [p];
      if Flagged(p, flag) && p.level <= stop && p.level >= level &&
        !(found.Some? && table[found.value].level <= p.level) {
        if p.level >= start && p.level > level {
          found := Some(k);
        } else if p.level == level && last != Some(k) && seenLast {
          found := Some(k);
          return;
        }
      }
      k := k + 1;
    }
    assert table[..|table|] == table;
  }

  lemma LevelInRange(table: seq<Hook>, flag: bv32, level: nat, pos: nat, stop: nat, found: Option<nat>)
    requires pos <= |table| && Finds(table, flag, level, pos, stop, found) && found.Some?
    requires pos < |table| ==> level <= stop
    ensures found.value < |table| && level <= table[found.value].level <= stop
  {
  }

  lemma LeftAll(table: seq<Hook>, flag: bv32, start: nat, stop: nat)
    requires start > 0
    ensures Left(table, flag, start - 1, |table|, stop) == ByLevel(table, flag, start, stop)
  {
  }

  // lk_init_level calls the hooks with the flag and a level in range, each once, in the order of a stable sort, and
  // ends.
  method InitLevel(table: seq<Hook>, flag: bv32, start: nat, stop: nat) returns (calls: seq<nat>)
    requires start > 0
    ensures calls == ByLevel(table, flag, start, stop)
  {
    hide Flagged, Left, ByLevel, Finds;
    calls := [];
    LeftAll(table, flag, start, stop);
    var level: nat, last: Option<nat> := start - 1, None;
    ghost var left := ByLevel(table, flag, start, stop);
    while true
      invariant start <= level + 1 && (last.Some? ==> last.value < |table| && level <= stop)
      invariant left == Left(table, flag, level, if last.Some? then last.value + 1 else |table|, stop)
      invariant calls + left == ByLevel(table, flag, start, stop)
      decreases |left|
    {
      var found := FindNext(table, flag, start, stop, level, last);
      FindsNext(table, flag, level, if last.Some? then last.value + 1 else |table|, stop, found);
      if found.None? { break; }
      LevelInRange(table, flag, level, if last.Some? then last.value + 1 else |table|, stop, found);
      var f := found.value;
      assert calls + left == (calls + [f]) + left[1..];
      calls := calls + [f];
      left := left[1..];
      level, last := table[f].level, found;
    }
  }
}
