/** Windows on block devices, nested to any depth: lib/bio/subdev.c. */
module BioWindows {
  import opened Options
  import opened Rounding
  import opened Bio

  // A disk of some number of blocks, or a window of count blocks from block first of another device.
  datatype Device = Whole(blocks: nat) | Window(parent: Device, first: nat, count: nat)

  function Blocks(v: Device): (n: nat) {
    match v
    case Whole(blocks) => blocks
    case Window(_, _, count) => count
  }

  // Every window lies in its parent.
  predicate Nested(v: Device) {
    match v
    case Whole(blocks) => blocks < U32
    case Window(parent, first, count) => Nested(parent) && first + count <= Blocks(parent)
  }

  // bio_publish_subdevice on a parent without erase geometry.
  function Publish(parent: Device, first: nat, count: nat): (r: Option<Device>) {
    var end := (first + count) % U32;
    if end < first || end > Blocks(parent) then None else Some(Window(parent, first, count))
  }

  // The 32-bit test accepts exactly the ranges that lie in the parent.
  lemma PublishIs(parent: Device, first: nat, count: nat)
    requires Nested(parent) && first < U32 && count < U32
    ensures Publish(parent, first, count).Some? <==> first + count <= Blocks(parent)
    ensures Publish(parent, first, count).Some? ==> Nested(Publish(parent, first, count).value)
  {
    BlocksBelow(parent);
  }

  lemma {:induction false} BlocksBelow(v: Device)
    requires Nested(v)
    ensures Blocks(v) < U32
  {
    if v.Window? { BlocksBelow(v.parent); }
  }

  // The first block of the window on the disk itself.
  function Start(v: Device): (b: nat) {
    match v
    case Whole(_) => 0
    case Window(parent, first, _) => first + Start(parent)
  }

  function Root(v: Device): (n: nat) {
    match v
    case Whole(blocks) => blocks
    case Window(parent, _, _) => Root(parent)
  }

  predicate OnDisk(v: Device, shift: nat, d: Bytes) {
    Nested(v) && |d| == Pos(shift, Root(v)) < OFF_MAX
  }

  function Size(v: Device, shift: nat): (n: nat) {
    Pos(shift, Blocks(v))
  }

  // Where byte offset of the device is on the disk.
  function Where(v: Device, shift: nat, offset: int): (p: int) {
    Pos(shift, Start(v)) + offset
  }

  lemma {:induction false} WindowInside(v: Device, shift: nat)
    requires Nested(v)
    ensures Start(v) + Blocks(v) <= Root(v)
    ensures Pos(shift, Start(v)) + Pos(shift, Blocks(v)) <= Pos(shift, Root(v))
  {
    if v.Window? { WindowInside(v.parent, shift); }
    PosAdd(shift, Start(v), Blocks(v));
    PosOrder(shift, Root(v), Start(v) + Blocks(v));
  }

  lemma SizeBelow(v: Device, shift: nat)
    requires Nested(v) && Pos(shift, Root(v)) < OFF_MAX
    ensures Size(v, shift) < OFF_MAX && (v.Window? ==> Size(v.parent, shift) < OFF_MAX)
  {
    hide Pow2, Pos;
    WindowInside(v, shift);
    if v.Window? { WindowInside(v.parent, shift); }
  }

  // A request that starts in the window and whose end does not overflow: what the trim leaves of it is a range of the
  // parent too, in the same place of the disk.
  lemma StepOut(v: Device, shift: nat, offset: int, len: nat)
    requires Nested(v) && v.Window? && Pos(shift, Root(v)) < OFF_MAX && len < WORD && offset < OFF_MAX
    requires !EndOverflows(Size(v, shift), offset, len)
    ensures Size(v, shift) < OFF_MAX && Size(v.parent, shift) < OFF_MAX
    ensures var n := TrimRange(Size(v, shift), offset, len);
      && n == Wanted(Size(v, shift), offset, len)
      && (n > 0 ==>
        && 0 <= offset + Pos(shift, v.first) < OFF_MAX && n < WORD
        && !EndOverflows(Size(v.parent, shift), offset + Pos(shift, v.first), n)
        && Wanted(Size(v.parent, shift), offset + Pos(shift, v.first), n) == n
        && Where(v.parent, shift, offset + Pos(shift, v.first)) == Where(v, shift, offset))
  {
    hide Pow2, Pos;
    SizeBelow(v, shift);
    TrimRangeIs(Size(v, shift), offset, len);
    PosAdd(shift, v.first, v.count);
    PosOrder(shift, Blocks(v.parent), v.first + v.count);
    PosAdd(shift, v.first, Start(v.parent));
  }

  // bio_read on a device: trim to it, then read the parent at the window's offset.
  function ReadAt(v: Device, shift: nat, d: Bytes, offset: int, len: nat): (buf: Bytes)
    requires OnDisk(v, shift, d) && len < WORD && offset < OFF_MAX && !EndOverflows(Size(v, shift), offset, len)
  {
    SizeBelow(v, shift);
    TrimRangeIs(Size(v, shift), offset, len);
    var n := TrimRange(Size(v, shift), offset, len);
    if n == 0 then []
    else
      match v
      case Whole(_) => d[offset..offset + n]
      case Window(parent, first, _) =>
        StepOut(v, shift, offset, len);
        ReadAt(parent, shift, d, offset + Pos(shift, first), n)
  }

  // bio_write on a device, as the disk it leaves.
  function WriteAt(v: Device, shift: nat, d: Bytes, offset: int, buf: Bytes): (r: Bytes)
    requires OnDisk(v, shift, d) && |buf| < WORD && offset < OFF_MAX && !EndOverflows(Size(v, shift), offset, |buf|)
    decreases v
  {
    SizeBelow(v, shift);
    TrimRangeIs(Size(v, shift), offset, |buf|);
    var n := TrimRange(Size(v, shift), offset, |buf|);
    if n == 0 then d
    else
      match v
      case Whole(_) => Overlay(d, offset, buf[..n])
      case Window(parent, first, _) =>
        StepOut(v, shift, offset, |buf|);
        WriteAt(parent, shift, d, offset + Pos(shift, first), buf[..n])
  }

  // bio_erase on a device, as the disk it leaves. On the disk itself the loop of the default erase stops at its end,
  // as Disk.DefaultErase does.
  function EraseAt(v: Device, shift: nat, d: Bytes, offset: int, len: nat, x: bv8): (r: Bytes)
    requires OnDisk(v, shift, d)
  {
    SizeBelow(v, shift);
    var n := TrimRange(Size(v, shift), offset, len);
    if n == 0 then d
    else
      match v
      case Whole(_) => Overlay(d, offset, Fill(if n <= |d| - offset then n else |d| - offset, x))
      case Window(parent, first, _) => EraseAt(parent, shift, d, offset + Pos(shift, first), n, x)
  }

  // Through any depth of windows, a read returns the window's own bytes.
  lemma {:induction false} WindowRead(v: Device, shift: nat, d: Bytes, offset: int, len: nat)
    requires OnDisk(v, shift, d) && len < WORD && offset < OFF_MAX && !EndOverflows(Size(v, shift), offset, len)
    ensures var n := Wanted(Size(v, shift), offset, len); var p := Where(v, shift, offset);
      if n == 0 then ReadAt(v, shift, d, offset, len) == []
      else 0 <= p && p + n <= |d| && ReadAt(v, shift, d, offset, len) == d[p..p + n]
    decreases v
  {
    hide Pow2, Pos, TrimRange;
    WindowInside(v, shift);
    SizeBelow(v, shift);
    PosAdd(shift, 0, 0);
    TrimRangeIs(Size(v, shift), offset, len);
    var n := Wanted(Size(v, shift), offset, len);
    if n > 0 && v.Window? {
      StepOut(v, shift, offset, len);
      WindowRead(v.parent, shift, d, offset + Pos(shift, v.first), n);
    }
  }

  // And a write changes exactly that part of the disk.
  lemma {:induction false} WindowWrite(v: Device, shift: nat, d: Bytes, offset: int, buf: Bytes)
    requires OnDisk(v, shift, d) && |buf| < WORD && offset < OFF_MAX && !EndOverflows(Size(v, shift), offset, |buf|)
    ensures var n := Wanted(Size(v, shift), offset, |buf|); var p := Where(v, shift, offset);
      if n == 0 then WriteAt(v, shift, d, offset, buf) == d
      else 0 <= p && p + n <= |d| && WriteAt(v, shift, d, offset, buf) == Overlay(d, p, buf[..n])
    decreases v
  {
    hide Pow2, Pos, TrimRange, Overlay;
    WindowInside(v, shift);
    SizeBelow(v, shift);
    PosAdd(shift, 0, 0);
    TrimRangeIs(Size(v, shift), offset, |buf|);
    var n := Wanted(Size(v, shift), offset, |buf|);
    if n > 0 && v.Window? {
      StepOut(v, shift, offset, |buf|);
      WindowWrite(v.parent, shift, d, offset + Pos(shift, v.first), buf[..n]);
      assert buf[..n][..n] == buf[..n];
    }
  }

  // bio_read_block on a device; the block hook of a window adds its offset on 32 bits.
  function ReadBlocksAt(v: Device, shift: nat, d: Bytes, block: nat, count: nat): (buf: Bytes)
    requires OnDisk(v, shift, d) && block < U32 && count < U32 && !EndWraps(Blocks(v), block, count)
    decreases v
  {
    var n := TrimBlocks(Blocks(v), block, count);
    BlockRange(v, shift, block, count);
    if n == 0 then []
    else
      match v
      case Whole(_) => d[Pos(shift, block)..Pos(shift, block + n)]
      case Window(parent, first, _) => ReadBlocksAt(parent, shift, d, (block + first) % U32, n)
  }

  // bio_write_block on a device, as the disk it leaves.
  function WriteBlocksAt(v: Device, shift: nat, d: Bytes, block: nat, count: nat, buf: Bytes): (r: Bytes)
    requires OnDisk(v, shift, d) && block < U32 && count < U32 && !EndWraps(Blocks(v), block, count)
    requires |buf| == Pos(shift, count)
    decreases v
  {
    var n := TrimBlocks(Blocks(v), block, count);
    BlockRange(v, shift, block, count);
    if n == 0 then d
    else
      match v
      case Whole(_) => Overlay(d, Pos(shift, block), buf[..Pos(shift, n)])
      case Window(parent, first, _) => WriteBlocksAt(parent, shift, d, (block + first) % U32, n, buf[..Pos(shift, n)])
  }

  // The blocks of a request that exist in the window exist in the parent, and the sum of the offsets does not wrap.
  lemma BlockRange(v: Device, shift: nat, block: nat, count: nat)
    requires Nested(v) && block < U32 && count < U32 && !EndWraps(Blocks(v), block, count)
    ensures var n := TrimBlocks(Blocks(v), block, count);
      && n == WantedBlocks(Blocks(v), block, count) && Pos(shift, n) <= Pos(shift, count)
      && (n > 0 ==>
        && block + n <= Blocks(v)
        && Pos(shift, block) + Pos(shift, n) == Pos(shift, block + n) <= Pos(shift, Blocks(v)))
      && (n > 0 && v.Window? ==>
        && block + v.first + n <= Blocks(v.parent) && (block + v.first) % U32 == block + v.first < U32
        && !EndWraps(Blocks(v.parent), block + v.first, n))
  {
    hide Pow2, Pos;
    BlocksBelow(v);
    TrimBlocksIs(Blocks(v), block, count);
    var n := TrimBlocks(Blocks(v), block, count);
    PosAdd(shift, block, n);
    PosOrder(shift, count, n);
    PosOrder(shift, Blocks(v), block + n);
    if v.Window? { BlocksBelow(v.parent); }
  }

  // Through any depth, the block hooks move the window's own blocks.
  lemma {:induction false} WindowReadBlocks(v: Device, shift: nat, d: Bytes, block: nat, count: nat)
    requires OnDisk(v, shift, d) && block < U32 && count < U32 && !EndWraps(Blocks(v), block, count)
    ensures var n := Pos(shift, WantedBlocks(Blocks(v), block, count)); var p := Pos(shift, Start(v) + block);
      if WantedBlocks(Blocks(v), block, count) == 0 then ReadBlocksAt(v, shift, d, block, count) == []
      else p + n <= |d| && ReadBlocksAt(v, shift, d, block, count) == d[p..p + n]
    decreases v
  {
    hide Pow2, Pos, EndWraps, TrimBlocks;
    WindowInside(v, shift);
    BlockRange(v, shift, block, count);
    PosAdd(shift, Start(v), block);
    var n := TrimBlocks(Blocks(v), block, count);
    if n > 0 && v.Window? {
      WindowReadBlocks(v.parent, shift, d, block + v.first, n);
      assert Start(v.parent) + (block + v.first) == Start(v) + block;
    }
  }

  lemma {:induction false} WindowWriteBlocks(v: Device, shift: nat, d: Bytes, block: nat, count: nat, buf: Bytes)
    requires OnDisk(v, shift, d) && block < U32 && count < U32 && !EndWraps(Blocks(v), block, count)
    requires |buf| == Pos(shift, count)
    ensures var n := Pos(shift, WantedBlocks(Blocks(v), block, count)); var p := Pos(shift, Start(v) + block);
      if WantedBlocks(Blocks(v), block, count) == 0 then WriteBlocksAt(v, shift, d, block, count, buf) == d
      else p + n <= |d| && n <= |buf| && WriteBlocksAt(v, shift, d, block, count, buf) == Overlay(d, p, buf[..n])
    decreases v
  {
    hide Pow2, Pos, EndWraps, TrimBlocks, Overlay;
    WindowInside(v, shift);
    BlockRange(v, shift, block, count);
    PosAdd(shift, Start(v), block);
    var n := TrimBlocks(Blocks(v), block, count);
    if n > 0 && v.Window? {
      WindowWriteBlocks(v.parent, shift, d, block + v.first, n, buf[..Pos(shift, n)]);
      assert buf[..Pos(shift, n)][..Pos(shift, n)] == buf[..Pos(shift, n)];
      assert Start(v.parent) + (block + v.first) == Start(v) + block;
    }
  }

  // An erase whose end does not overflow erases exactly its range of the window.
  lemma {:induction false} WindowErase(v: Device, shift: nat, d: Bytes, offset: int, len: nat, x: bv8)
    requires OnDisk(v, shift, d) && len < WORD && offset < OFF_MAX && !EndOverflows(Size(v, shift), offset, len)
    ensures var n := Wanted(Size(v, shift), offset, len); var p := Where(v, shift, offset);
      if n == 0 then EraseAt(v, shift, d, offset, len, x) == d
      else 0 <= p && p + n <= |d| && EraseAt(v, shift, d, offset, len, x) == Overlay(d, p, Fill(n, x))
    decreases v
  {
    hide Pow2, Pos, TrimRange, Overlay;
    WindowInside(v, shift);
    SizeBelow(v, shift);
    PosAdd(shift, 0, 0);
    TrimRangeIs(Size(v, shift), offset, len);
    var n := Wanted(Size(v, shift), offset, len);
    if n > 0 && v.Window? {
      StepOut(v, shift, offset, len);
      WindowErase(v.parent, shift, d, offset + Pos(shift, v.first), n, x);
    }
  }

  // One whose end overflows is trimmed at no level and goes on to the end of the disk.
  lemma {:induction false} EraseOverflows(v: Device, shift: nat, d: Bytes, offset: int, len: nat, x: bv8)
    requires OnDisk(v, shift, d) && len < WORD && EndOverflows(Size(v, shift), offset, len)
    ensures var p := Where(v, shift, offset);
      0 <= p < |d| && EraseAt(v, shift, d, offset, len, x) == Overlay(d, p, Fill(|d| - p, x))
    decreases v
  {
    hide Pow2, Pos, TrimRange, Overlay;
    WindowInside(v, shift);
    SizeBelow(v, shift);
    PosAdd(shift, 0, 0);
    TrimRangeIs(Size(v, shift), offset, len);
    if v.Window? {
      PosAdd(shift, v.first, v.count);
      PosOrder(shift, Blocks(v.parent), v.first + v.count);
      PosAdd(shift, v.first, Start(v.parent));
      EraseOverflows(v.parent, shift, d, offset + Pos(shift, v.first), len, x);
    }
  }

  // The disk after the end of the window is as it was.
  predicate Beyond(v: Device, shift: nat, d: Bytes, r: Bytes)
    requires OnDisk(v, shift, d)
  {
    var e := WindowEnd(v, shift);
    |r| == |d| && r[e..] == d[e..]
  }

  function WindowEnd(v: Device, shift: nat): (e: nat)
    requires Nested(v)
    ensures e <= Pos(shift, Root(v))
  {
    WindowInside(v, shift);
    Pos(shift, Start(v)) + Size(v, shift)
  }

  // Whatever the disk holds, an erase stays in its window if and only if its end does not overflow or the window ends
  // where the disk does.
  lemma EraseStays(v: Device, shift: nat, offset: int, len: nat, x: bv8)
    requires Nested(v) && Pos(shift, Root(v)) < OFF_MAX && len < WORD && offset < OFF_MAX
    ensures (forall d: Bytes | OnDisk(v, shift, d) :: Beyond(v, shift, d, EraseAt(v, shift, d, offset, len, x))) <==>
            !EndOverflows(Size(v, shift), offset, len) || WindowEnd(v, shift) == Pos(shift, Root(v))
  {
    hide Pow2, Pos, EraseAt, Overlay, EndOverflows;
    var e, all := WindowEnd(v, shift), Pos(shift, Root(v));
    if !EndOverflows(Size(v, shift), offset, len) || e == all {
      forall d: Bytes | OnDisk(v, shift, d)
        ensures Beyond(v, shift, d, EraseAt(v, shift, d, offset, len, x))
      {
        EraseKeeps(v, shift, d, offset, len, x);
      }
    } else {
      var d := Fill(all, x + 1);
      EraseSpills(v, shift, d, offset, len, x);
      assert OnDisk(v, shift, d) && !Beyond(v, shift, d, EraseAt(v, shift, d, offset, len, x));
    }
  }

  lemma EraseKeeps(v: Device, shift: nat, d: Bytes, offset: int, len: nat, x: bv8)
    requires OnDisk(v, shift, d) && len < WORD && offset < OFF_MAX
    requires !EndOverflows(Size(v, shift), offset, len) || WindowEnd(v, shift) == |d|
    ensures Beyond(v, shift, d, EraseAt(v, shift, d, offset, len, x))
  {
    hide Pow2, Pos, EraseAt;
    var e := WindowEnd(v, shift);
    if EndOverflows(Size(v, shift), offset, len) {
      EraseOverflows(v, shift, d, offset, len, x);
    } else {
      WindowErase(v, shift, d, offset, len, x);
    }
  }

  lemma EraseSpills(v: Device, shift: nat, d: Bytes, offset: int, len: nat, x: bv8)
    requires OnDisk(v, shift, d) && len < WORD && EndOverflows(Size(v, shift), offset, len)
    requires WindowEnd(v, shift) < |d| && d[WindowEnd(v, shift)] != x
    ensures !Beyond(v, shift, d, EraseAt(v, shift, d, offset, len, x))
  {
    hide Pow2, Pos, EraseAt;
    var e, r := WindowEnd(v, shift), EraseAt(v, shift, d, offset, len, x);
    EraseOverflows(v, shift, d, offset, len, x);
    assert r[e] == x && r[e..][0] == x && d[e..][0] != x;
  }

  // Erasing 2^64 - 1 bytes through the first half of a disk of four bytes erases the second half too.
  lemma EraseReachesSibling(v: Device, d: Bytes, x: bv8)
    requires v == Window(Whole(4), 0, 2) && |d| == 4
    ensures OnDisk(v, 0, d) && EraseAt(v, 0, d, 0, WORD - 1, x) == Fill(|d|, x)
  {
    hide *;
    FirstHalf(v, d);
    EraseAll(v, 0, d, WORD - 1, x);
  }

  lemma FirstHalf(v: Device, d: Bytes)
    requires v == Window(Whole(4), 0, 2) && |d| == 4
    ensures OnDisk(v, 0, d) && Start(v) == 0 && EndOverflows(Size(v, 0), 0, WORD - 1)
  {
    assert Pow2(0) == 1;
    assert Pos(0, 0) == 0 && Pos(0, 2) == 2 && Pos(0, 4) == 4;
  }

  lemma EraseAll(v: Device, shift: nat, d: Bytes, len: nat, x: bv8)
    requires OnDisk(v, shift, d) && Start(v) == 0 && len < WORD && EndOverflows(Size(v, shift), 0, len)
    ensures EraseAt(v, shift, d, 0, len, x) == Fill(|d|, x)
  {
    hide Pow2, Pos, EraseAt;
    PosAdd(shift, 0, 0);
    EraseOverflows(v, shift, d, 0, len, x);
    OverlayAll(d, Fill(|d|, x));
  }

  lemma OverlayAll(d: Bytes, b: Bytes)
    requires |d| == |b|
    ensures Overlay(d, 0, b) == b
  {
  }

  // Through any depth of windows, what is written is read back from the same place.
  lemma WriteThenRead(v: Device, shift: nat, d: Bytes, offset: int, buf: Bytes)
    requires OnDisk(v, shift, d) && |buf| < WORD && offset < OFF_MAX && !EndOverflows(Size(v, shift), offset, |buf|)
    ensures var r := WriteAt(v, shift, d, offset, buf);
      && |r| == |d|
      && ReadAt(v, shift, r, offset, |buf|) == buf[..Wanted(Size(v, shift), offset, |buf|)]
  {
    hide Pow2, Pos, ReadAt, WriteAt, Overlay;
    var r, n, p := WriteAt(v, shift, d, offset, buf), Wanted(Size(v, shift), offset, |buf|), Where(v, shift, offset);
    WindowWrite(v, shift, d, offset, buf);
    WindowRead(v, shift, r, offset, |buf|);
    if n > 0 { OverlayRead(d, p, buf[..n]); }
  }

  lemma OverlayRead(d: Bytes, p: nat, b: Bytes)
    requires p + |b| <= |d|
    ensures Overlay(d, p, b)[p..p + |b|] == b
  {
  }

  // And what is erased reads as the erase byte.
  lemma EraseThenRead(v: Device, shift: nat, d: Bytes, offset: int, len: nat, x: bv8)
    requires OnDisk(v, shift, d) && len < WORD && offset < OFF_MAX && !EndOverflows(Size(v, shift), offset, len)
    ensures var r := EraseAt(v, shift, d, offset, len, x);
      && |r| == |d|
      && ReadAt(v, shift, r, offset, len) == Fill(Wanted(Size(v, shift), offset, len), x)
  {
    hide Pow2, Pos, ReadAt, EraseAt, Overlay;
    var r, n, p := EraseAt(v, shift, d, offset, len, x), Wanted(Size(v, shift), offset, len), Where(v, shift, offset);
    WindowErase(v, shift, d, offset, len, x);
    WindowRead(v, shift, r, offset, len);
    if n > 0 { OverlayRead(d, p, Fill(n, x)); }
  }

  // The bytes of a window.
  function Contents(v: Device, shift: nat, d: Bytes): (b: Bytes)
    requires OnDisk(v, shift, d)
  {
    WindowInside(v, shift);
    d[Pos(shift, Start(v))..Pos(shift, Start(v)) + Pos(shift, Blocks(v))]
  }

  datatype Change = ByteWrite(offset: int, buf: Bytes) | BlockWrite(block: nat, count: nat,
    blocks: Bytes) | Erase(at: int, len: nat, x: bv8)

  // A request whose end overflows neither 32 nor 63 bits.
  predicate Fair(v: Device, shift: nat, e: Change) {
    match e
    case BlockWrite(block, count, b) =>
      block < U32 && count < U32 && !EndWraps(Blocks(v), block, count) && |b| == Pos(shift, count)
    case ByteWrite(offset, buf) => |buf| < WORD && offset < OFF_MAX && !EndOverflows(Size(v, shift), offset, |buf|)
    case Erase(at, len, x) => len < WORD && at < OFF_MAX && !EndOverflows(Size(v, shift), at, len)
  }

  // The disk after a change made through the window v.
  function Changed(v: Device, shift: nat, d: Bytes, e: Change): (r: Bytes)
    requires OnDisk(v, shift, d) && Fair(v, shift, e)
  {
    match e
    case ByteWrite(offset, buf) => WriteAt(v, shift, d, offset, buf)
    case BlockWrite(block, count, b) => WriteBlocksAt(v, shift, d, block, count, b)
    case Erase(at, len, x) => EraseAt(v, shift, d, at, len, x)
  }

  // Every change through a window replaces some bytes of that window and no others.
  lemma ChangesInside(v: Device, shift: nat, d: Bytes, e: Change) returns (p: nat, b: Bytes)
    requires OnDisk(v, shift, d) && Fair(v, shift, e)
    ensures Pos(shift, Start(v)) <= p && p + |b| <= Pos(shift, Start(v)) + Pos(shift, Blocks(v)) <= |d|
    ensures Changed(v, shift, d, e) == Overlay(d, p, b)
  {
    hide Pow2, Pos, WriteAt, WriteBlocksAt, EraseAt, Overlay;
    WindowInside(v, shift);
    p, b := Pos(shift, Start(v)), [];
    OverlayNone(d, p);
    match e
    case ByteWrite(offset, buf) =>
      WindowWrite(v, shift, d, offset, buf);
      var n := Wanted(Pos(shift, Blocks(v)), offset, |buf|);
      if n > 0 { p, b := Where(v, shift, offset), buf[..n]; }
    case BlockWrite(block, count, c) =>
      WindowWriteBlocks(v, shift, d, block, count, c);
      BlockRange(v, shift, block, count);
      PosAdd(shift, Start(v), block);
      var n := WantedBlocks(Blocks(v), block, count);
      if n > 0 { p, b := Pos(shift, Start(v) + block), c[..Pos(shift, n)]; }
    case Erase(at, len, x) =>
      WindowErase(v, shift, d, at, len, x);
      var n := Wanted(Pos(shift, Blocks(v)), at, len);
      if n > 0 { p, b := Where(v, shift, at), Fill(n, x); }
  }

  // Changing one window leaves every window that shares no block with it as it was.
  lemma WindowsApart(v: Device, w: Device, shift: nat, d: Bytes, e: Change)
    requires OnDisk(v, shift, d) && OnDisk(w, shift, d)
    requires Start(v) + Blocks(v) <= Start(w) || Start(w) + Blocks(w) <= Start(v)
    requires Fair(v, shift, e)
    ensures |Changed(v, shift, d, e)| == |d|
    ensures Contents(w, shift, Changed(v, shift, d, e)) == Contents(w, shift, d)
  {
    hide Pow2, Pos, Changed, Overlay;
    WindowInside(w, shift);
    var p, b := ChangesInside(v, shift, d, e);
    var q := Pos(shift, Start(w));
    PosAdd(shift, Start(v), Blocks(v));
    PosAdd(shift, Start(w), Blocks(w));
    PosOrder(shift, Start(w), Start(v) + Blocks(v));
    PosOrder(shift, Start(v), Start(w) + Blocks(w));
    OverlayApart(d, p, b, q, q + Pos(shift, Blocks(w)));
  }

  // ---- erase geometry ----

  // An erase region of a device: bytes, and the size of its erase unit as a power of two.
  datatype Geometry = Geometry(start: nat, size: nat, eraseShift: nat)

  predicate ContainsRange(g: Geometry, start: nat, size: nat) {
    g.start <= start && start + size <= g.start + g.size
  }

  predicate OnUnits(g: Geometry, start: nat, size: nat) {
    start % Pow2(g.eraseShift) == 0 && size % Pow2(g.eraseShift) == 0
  }

  // The search of bio_publish_subdevice: the first region that contains the range, or else the last one.
  method SearchGeometry(geos: seq<Geometry>, start: nat, size: nat) returns (k: nat)
    requires geos != []
    ensures k < |geos| && forall j | 0 <= j < k :: !ContainsRange(geos[j], start, size)
    ensures !ContainsRange(geos[k], start, size) ==> k == |geos| - 1
  {
    var i := 0;
    k := 0;
    while i < |geos|
      invariant 0 <= i <= |geos| && k == (if i == 0 then 0 else i - 1)
      invariant forall j | 0 <= j < i :: !ContainsRange(geos[j], start, size)
    {
      k := i;
      if ContainsRange(geos[k], start, size) { return; }
      i := i + 1;
    }
  }

  // bio_publish_subdevice on a parent with erase geometry.
  method PublishGeometry(parent: Device, shift: nat, geos: seq<Geometry>, first: nat,
                         count: nat) returns (r: Option<Device>)
    requires geos != []
    ensures var start, size := Pos(shift, first), Pos(shift, count);
      && (r.Some? ==> r.value == Window(parent, first, count))
      && (r.Some? <==> exists k | 0 <= k < |geos| :: Picked(geos, start, size, k) && OnUnits(geos[k], start, size))
  {
    hide Pos, Pow2, OnUnits;
    var start, size := Pos(shift, first), Pos(shift, count);
    var k := SearchGeometry(geos, start, size);
    PickedOnce(geos, start, size, k);
    if !OnUnits(geos[k], start, size) { return None; }
    r := Some(Window(parent, first, count));
  }

  predicate Picked(geos: seq<Geometry>, start: nat, size: nat, k: nat) {
    && k < |geos| && (forall j | 0 <= j < k :: !ContainsRange(geos[j], start, size))
    && (ContainsRange(geos[k], start, size) || k == |geos| - 1)
  }

  lemma PickedOnce(geos: seq<Geometry>, start: nat, size: nat, k: nat)
    requires Picked(geos, start, size, k)
    ensures forall j: nat | Picked(geos, start, size, j) :: j == k
  {
  }

  // What the comment promises of a window that is accepted: it lies in one erase region, on its units.
  predicate InOneRegion(geos: seq<Geometry>, start: nat, size: nat) {
    exists k | 0 <= k < |geos| :: ContainsRange(geos[k], start, size) && OnUnits(geos[k], start, size)
  }

  // The promise is broken exactly for the ranges that no region contains and that are on the units of the last region.
  lemma GeometryExactly(geos: seq<Geometry>, start: nat, size: nat, k: nat)
    requires geos != [] && Picked(geos, start, size, k)
    ensures OnUnits(geos[k], start, size) && !InOneRegion(geos, start, size) <==>
            OnUnits(geos[|geos| - 1], start, size) && forall j | 0 <= j < |geos| :: !ContainsRange(geos[j], start, size)
  {
    hide OnUnits;
  }

  // A window that begins after the end of its parent is accepted.
  method OutsideAccepted() returns (r: Option<Device>)
    ensures r == Some(Window(Whole(4), 8, 4)) && !Nested(r.value)
  {
    var geos := [Geometry(0, 4, 1)];
    r := PublishGeometry(Whole(4), 0, geos, 8, 4);
    assert Pow2(0) == 1 && Pow2(1) == 2 && Pos(0, 8) == 8 && Pos(0, 4) == 4;
    assert Picked(geos, 8, 4, 0) && OnUnits(geos[0], 8, 4);
  }
}
