/** The mapping flags through runs of arch_mmu_map and arch_mmu_unmap: the attribute bits of arch/arm64/mmu.c stored in
    the leaves of its page tables. */
module MmuFlags {
  import opened Options
  import opened PageTable
  import opened PteBits
  import Rounding

  // A call as its caller makes it, with mapping flags.
  datatype Call = MapCall(v: nat, pa: nat, size: nat, flags: bv32, pages: nat) | UnmapCall(v: nat, size: nat)

  function OpOf(c: Call): (op: Op) {
    match c
    case MapCall(v, pa, size, flags, pages) => MapOp(v, pa, size, Attr(flags) as nat, pages)
    case UnmapCall(v, size) => UnmapOp(v, size)
  }

  function Ops(cs: seq<Call>): (ops: seq<Op>)
    ensures |ops| == |cs| && forall i | 0 <= i < |cs| :: ops[i] == OpOf(cs[i])
  {
    seq(|cs|, i requires 0 <= i < |cs| => OpOf(cs[i]))
  }

  lemma OpsPrefix(cs: seq<Call>)
    requires cs != []
    ensures Ops(cs)[..|cs| - 1] == Ops(cs[..|cs| - 1]) && Ops(cs)[|cs| - 1] == OpOf(cs[|cs| - 1])
  {
  }

  predicate KnownType(c: Call) {
    c.MapCall? ==> c.flags & CACHE_MASK != 3
  }

  // The flags that mean something.
  function Known(flags: bv32): (r: bv32) {
    flags & ALL
  }

  datatype Flagged = Flagged(pa: int, flags: bv32)

  // The attributes are read from a descriptor that also holds an address and a type.
  datatype Rest = Rest(address: bv64, block: bool)

  predicate RestOk(d: Rest) {
    d.address & ADDRESS_MASK == d.address
  }

  function FlagsIn(d: Rest, attrs: nat): (r: Option<bv32>) {
    FlagsOf(Descriptor(d.address, Bits(attrs), d.block))
  }

  function Bits(attrs: nat): (b: bv64) {
    if attrs < Rounding.WORD then attrs as bv64 else 0
  }

  // arch_mmu_query, given the rest of the descriptor that it finds.
  function QueryFlags(y: Layout, kids: seq<Tree>, top: nat, a: nat, d: Rest): (r: Option<Flagged>)
    requires Sane(y)
  {
    match Query(y, kids, top, a)
    case None => None
    case Some(x) =>
      match FlagsIn(d, x.attrs)
      case None => None
      case Some(flags) => Some(Flagged(x.pa, flags))
  }

  // The latest call that covered a: its address for a and its flags, nothing if it was an unmap.
  function LatestCall(y: Layout, kids: seq<Tree>, top: nat, cs: seq<Call>, a: nat): (r: Option<Flagged>)
    requires Sane(y)
  {
    if cs == [] then None
    else
      var k, c := Run(y, kids, top, Ops(cs[..|cs| - 1])), cs[|cs| - 1];
      if c.v <= a < c.v + c.size && c.MapCall? &&
         MapTop(y, k, top, c.v, c.pa, c.size, Attr(c.flags) as nat, c.pages).1 then
        Some(Flagged(c.pa + (a - c.v), Known(c.flags)))
      else if c.v <= a < c.v + c.size && c.UnmapCall? && InRange(y, k, top, c.v, c.size) then None
      else LatestCall(y, kids, top, cs[..|cs| - 1], a)
  }

  lemma FlagsBack(c: Call, d: Rest)
    requires c.MapCall? && KnownType(c) && RestOk(d)
    ensures FlagsIn(d, Attr(c.flags) as nat) == Some(Known(c.flags))
  {
    hide FlagsOf, Attr, Bits, Descriptor;
    BitsBack(Attr(c.flags));
    RoundTrip(d.address, c.flags, d.block);
  }

  lemma BitsBack(b: bv64)
    ensures Bits(b as nat) == b
  {
  }

  // What the leaves hold stands for what the calls asked.
  lemma {:induction false} LatestIs(y: Layout, kids: seq<Tree>, top: nat, cs: seq<Call>, a: nat, d: Rest)
    requires Sane(y) && RestOk(d) && forall c | c in cs :: KnownType(c)
    ensures var r, l := Latest(y, kids, top, Ops(cs), a), LatestCall(y, kids, top, cs, a);
      if r.None? then l == None
      else l.Some? && l.value.pa == r.value.pa && FlagsIn(d, r.value.attrs) == Some(l.value.flags)
  {
    hide FlagsIn, RestOk, KnownType, Known, Attr, MapTop, Run, InRange;
    if cs != [] {
      OpsPrefix(cs);
      var c := cs[|cs| - 1];
      assert KnownType(c);
      LatestIs(y, kids, top, cs[..|cs| - 1], a, d);
      if c.MapCall? { FlagsBack(c, d); }
    }
  }

  // From empty tables, every query answers with the address and the flags of the latest call that covered it.
  lemma RunKeepsFlags(y: Layout, kids: seq<Tree>, top: nat, cs: seq<Call>, a: nat, d: Rest)
    requires Sane(y) && Clear(kids) && NeverCuts(y, kids, top, Ops(cs))
    requires RestOk(d) && forall c | c in cs :: KnownType(c)
    ensures QueryFlags(y, Run(y, kids, top, Ops(cs)), top, a, d) == LatestCall(y, kids, top, cs, a)
  {
    hide FlagsIn, RestOk, KnownType, Query, Latest, LatestCall, Run;
    RunIsFlat(y, kids, top, Ops(cs), a);
    LatestIs(y, kids, top, cs, a, d);
  }
}
