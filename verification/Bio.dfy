/** Byte access to block devices: the default read, write and erase of lib/bio/bio.c. */
module Bio {
  import opened Options
  import opened Rounding

  type Bytes = seq<bv8>

  const OFF_MAX: nat := 0x8000_0000_0000_0000

  // ---- trimming ----

  // The value of a 64-bit sum read as a signed off_t.
  function Signed(x: nat): (r: int) {
    var w := x % WORD;
    if w < OFF_MAX then w else w - WORD
  }

  function TrimRange(total: nat, offset: int, len: nat): (r: nat)
    requires total < OFF_MAX
  {
    if offset < 0 then 0
    else if offset >= total then 0
    else if len == 0 then 0
    else if Signed(offset + len) > total then total - offset
    else len
  }

  // The part of a request that lies on the device.
  function Wanted(total: nat, offset: int, len: nat): (r: nat) {
    if offset < 0 || offset >= total then 0
    else if offset + len > total then total - offset
    else len
  }

  // The request starts on the device and its end is no positive off_t.
  predicate EndOverflows(total: nat, offset: int, len: nat) {
    0 <= offset < total && offset + len >= OFF_MAX
  }

  // The trim is right exactly when the end of the request is a positive off_t; otherwise it leaves the length alone.
  lemma TrimRangeIs(total: nat, offset: int, len: nat)
    requires total < OFF_MAX && len < WORD && offset < OFF_MAX
    ensures TrimRange(total, offset, len) == Wanted(total, offset, len) <==> !EndOverflows(total, offset, len)
    ensures EndOverflows(total, offset, len) ==> TrimRange(total, offset, len) == len
  {
  }

  lemma TrimFails()
    ensures TrimRange(1, 0, WORD - 1) == WORD - 1 && Wanted(1, 0, WORD - 1) == 1
  {
  }

  // bnum_t and uint are 32 bits wide.
  function TrimBlocks(blocks: nat, block: nat, count: nat): (r: nat) {
    if block > blocks then 0
    else if count == 0 then 0
    else if (block + count) % U32 > blocks then blocks - block
    else count
  }

  function WantedBlocks(blocks: nat, block: nat, count: nat): (r: nat) {
    if block >= blocks then 0 else if block + count > blocks then blocks - block else count
  }

  // The end of the request wraps round to a block that exists.
  predicate EndWraps(blocks: nat, block: nat, count: nat) {
    block <= blocks && U32 <= block + count <= U32 + blocks
  }

  // The trim is right exactly when the end does not wrap round into the device.
  lemma TrimBlocksIs(blocks: nat, block: nat, count: nat)
    requires blocks < U32 && block < U32 && count < U32
    ensures TrimBlocks(blocks, block, count) == WantedBlocks(blocks, block, count) <==> !EndWraps(blocks, block, count)
  {
  }

  lemma TrimBlocksFails()
    ensures TrimBlocks(2, 1, U32 - 1) == U32 - 1 && WantedBlocks(2, 1, U32 - 1) == 1
  {
  }

  // ---- flat arrays ----

  // d with the bytes from o on replaced by b.
  function Overlay(d: Bytes, o: nat, b: Bytes): (r: Bytes)
    requires o + |b| <= |d|
    ensures |r| == |d|
  {
    d[..o] + b + d[o + |b|..]
  }

  // The bytes of b from o on, and everything else as it was.
  lemma OverlayAt(d: Bytes, o: nat, b: Bytes, i: nat)
    requires o + |b| <= |d| && i < |d|
    ensures Overlay(d, o, b)[i] == if o <= i < o + |b| then b[i - o] else d[i]
  {
  }

  lemma OverlayMore(d: Bytes, o: nat, b: Bytes, c: Bytes)
    requires o + |b| + |c| <= |d|
    ensures Overlay(Overlay(d, o, b), o + |b|, c) == Overlay(d, o, b + c)
  {
  }

  // Rewriting a stretch with part of it replaced replaces that part.
  lemma OverlayWithin(d: Bytes, p: nat, n: nat, k: nat, b: Bytes)
    requires p + n <= |d| && k + |b| <= n
    ensures Overlay(d, p, Overlay(d[p..p + n], k, b)) == Overlay(d, p + k, b)
  {
  }

  // Writing the next stretch of b after the first.
  lemma OverlayStep(d: Bytes, o: nat, b: Bytes, k: nat, n: nat)
    requires o + |b| <= |d| && k + n <= |b|
    ensures Overlay(Overlay(d, o, Part(b, 0, k)), o + k, Part(b, k, k + n)) == Overlay(d, o, Part(b, 0, k + n))
  {
    OverlayMore(d, o, b[0..k], b[k..k + n]);
    assert b[0..k] + b[k..k + n] == b[0..k + n];
  }

  lemma OverlayAll(d: Bytes, o: nat, b: Bytes)
    requires o + |b| <= |d|
    ensures Part(b, 0, |b|) == b && Overlay(d, o, Part(b, 0, 0)) == d
  {
  }

  lemma OverlayNone(d: Bytes, o: nat)
    requires o <= |d|
    ensures Overlay(d, o, []) == d
  {
  }

  // The bytes from lo to hi.
  function Part(d: Bytes, lo: nat, hi: nat): (b: Bytes)
    requires lo <= hi <= |d|
    ensures |b| == hi - lo
  {
    d[lo..hi]
  }

  lemma PartPart(d: Bytes, p: nat, n: nat, a: nat, b: nat)
    requires p + n <= |d| && a <= b <= n
    ensures Part(d, p, p + n)[a..b] == Part(d, p + a, p + b)
  {
    var x := d[p..p + n];
    forall i | 0 <= i < b - a
      ensures x[a..b][i] == d[p + a..p + b][i]
    {
    }
  }

  lemma PartJoin(d: Bytes, o: nat, a: nat, b: nat)
    requires o <= a <= b <= |d|
    ensures Part(d, o, a) + Part(d, a, b) == Part(d, o, b)
  {
  }

  lemma OverlayApart(d: Bytes, p: nat, b: Bytes, lo: nat, hi: nat)
    requires p + |b| <= |d| && lo <= hi <= |d| && (p + |b| <= lo || hi <= p)
    ensures Overlay(d, p, b)[lo..hi] == d[lo..hi]
  {
  }

  // ---- the middle of a transfer ----

  function DivPow2(x: nat, shift: nat): (r: nat) {
    Quot(x % U32, Pow2(shift))
  }

  // divpow2 takes a 32-bit value, so the whole-block transfer leaves less than a block exactly for lengths below 4 GiB.
  lemma MiddleLeavesPart(len: nat, shift: nat)
    requires shift < 32
    ensures DivPow2(len, shift) * Pow2(shift) <= len
    ensures len - DivPow2(len, shift) * Pow2(shift) < Pow2(shift) <==> len < U32
  {
    hide Pow2;
    BelowU32(shift);
  }

  // A direct transfer of 4 GiB moves no whole block and leaves all of it to the copy of the partial last block.
  lemma MiddleFails(shift: nat)
    ensures DivPow2(U32, shift) == 0
  {
    DivBounds(0, Pow2(shift));
  }

  lemma BelowU32(shift: nat)
    requires shift < 32
    ensures Pow2(shift) < U32
  {
    WordIs();
    Pow2Split(shift, 32 - shift);
    assert Pow2(32 - shift) == 2 * Pow2(31 - shift);
    MulGap(Pow2(shift), Pow2(32 - shift), 1);
  }

  // ---- blocks ----

  // Where a block starts.
  function Pos(shift: nat, block: nat): (p: nat) {
    block * Pow2(shift)
  }

  lemma PosAdd(shift: nat, b: nat, c: nat)
    ensures Pos(shift, b + c) == Pos(shift, b) + Pos(shift, c) && Pos(shift, 1) == Pow2(shift) && Pos(shift, 0) == 0
  {
  }

  lemma PosOrder(shift: nat, b: nat, c: nat)
    ensures b < c <==> Pos(shift, b) < Pos(shift, c)
    ensures b < c ==> Pos(shift, b) + Pow2(shift) <= Pos(shift, c)
  {
    if b < c {
      MulGap(Pow2(shift), c, b);
    } else if c < b {
      MulGap(Pow2(shift), b, c);
    }
  }

  function AfterFirst(bs: nat, part: nat, len: nat): (r: nat)
    requires part < bs
    ensures r <= len
  {
    if part == 0 then len else if bs - part < len then len - (bs - part) else 0
  }

  // What is left of a transfer after the partial first block.
  function Middle(shift: nat, offset: nat, len: nat): (r: nat)
    ensures r <= len
  {
    AfterFirst(Pow2(shift), offset - Quot(offset, Pow2(shift)) * Pow2(shift), len)
  }

  class Disk {
    const shift: nat
    const blocks: nat
    var data: Bytes

    ghost predicate Valid()
      reads this
    {
      shift < 32 && blocks < U32 && |data| == Pos(shift, blocks) < OFF_MAX
    }

    constructor (blockShift: nat, contents: Bytes, count: nat)
      requires blockShift < 32 && count < U32 && |contents| == Pos(blockShift, count) < OFF_MAX
      ensures Valid() && data == contents && shift == blockShift && blocks == count
    {
      shift, blocks, data := blockShift, count, contents;
    }

    // bio_read_block of blocks that exist, on a device whose own hook is exact.
    method ReadBlocks(block: nat, count: nat) returns (b: Bytes)
      requires Valid() && block + count <= blocks
      ensures Pos(shift, block) + Pos(shift, count) <= |data| && |b| == Pos(shift, count)
      ensures b == Part(data, Pos(shift, block), Pos(shift, block) + Pos(shift, count))
    {
      hide Pow2, Pos;
      PosAdd(shift, block, count);
      PosOrder(shift, blocks, block + count);
      var n := TrimBlocks(blocks, block, count);
      assert n == count;
      b := data[Pos(shift, block)..Pos(shift, block) + Pos(shift, n)];
    }

    method WriteBlocks(b: Bytes, block: nat, count: nat)
      requires Valid() && block + count <= blocks && |b| == Pos(shift, count)
      modifies `data
      ensures Valid() && Pos(shift, block) + |b| <= |old(data)| && data == Overlay(old(data), Pos(shift, block), b)
    {
      hide Pow2, Pos;
      PosAdd(shift, block, count);
      PosOrder(shift, blocks, block + count);
      data := Overlay(data, Pos(shift, block), b);
    }

    // The block of a byte and the byte's place in it.
    method Locate(offset: nat) returns (block: nat, part: nat)
      requires Valid() && offset < |data|
      ensures offset == Pos(shift, block) + part && part < Pow2(shift) && block < blocks
      ensures forall len: nat :: Middle(shift, offset, len) == AfterFirst(Pow2(shift), part, len)
    {
      hide Pow2;
      block := Quot(offset, Pow2(shift));
      part := offset - block * Pow2(shift);
      PosOrder(shift, block, blocks);
    }

    // bio_default_read. bounce is the case of a device that wants aligned buffers and a buffer that is not.
    method DefaultRead(offset: nat, len0: nat, bounce: bool) returns (buf: Bytes)
      requires Valid() && len0 > 0 && offset + len0 <= |data| && (bounce || Middle(shift, offset, len0) < U32)
      ensures buf == Part(data, offset, offset + len0)
    {
      hide Pow2, Pos, Valid, Middle, Part;
      var block, len;
      buf, block, len := ReadFirst(offset, len0);
      buf, block, len := ReadMiddle(offset, len0, block, len, buf, bounce);
      if len > 0 { buf := ReadLast(offset, len0, block, len, buf); }
    }

    // The partial first block, if the range does not start at a block.
    method ReadFirst(offset: nat, len0: nat) returns (buf: Bytes, block: nat, len: nat)
      requires Valid() && len0 > 0 && offset + len0 <= |data|
      ensures |buf| + len == len0 && buf == Part(data, offset, offset + |buf|) && block <= blocks
      ensures len == Middle(shift, offset, len0) && (len > 0 ==> offset + |buf| == Pos(shift, block))
    {
      hide Pow2, Pos, Valid, Middle, Part;
      ValidIs(this);
      var bs := Pow2(shift);
      PosAdd(shift, 0, 0);
      var part;
      block, part := Locate(offset);
      buf, len := [], len0;
      if part != 0 {
        PosAdd(shift, block, 1);
        var temp := ReadBlocks(block, 1);
        var tocopy := if bs - part < len then bs - part else len;
        PartPart(data, Pos(shift, block), bs, part, part + tocopy);
        buf := temp[part..part + tocopy];
        len := len - tocopy;
        block := block + 1;
      } else {
        assert |Part(data, offset, offset)| == 0;
      }
    }

    // The partial last block.
    method ReadLast(offset: nat, len0: nat, block: nat, len: nat, buf0: Bytes) returns (buf: Bytes)
      requires Valid() && offset + len0 <= |data| && 0 < len < Pow2(shift) && |buf0| + len == len0
      requires buf0 == Part(data, offset, offset + |buf0|) && offset + |buf0| == Pos(shift, block)
      ensures buf == Part(data, offset, offset + len0)
    {
      hide Pow2, Pos, Valid, Part;
      ValidIs(this);
      PosAdd(shift, block, 1);
      PosOrder(shift, block, blocks);
      var temp := ReadBlocks(block, 1);
      PartPart(data, Pos(shift, block), Pow2(shift), 0, len);
      PartJoin(data, offset, offset + |buf0|, offset + len0);
      assert temp[..len] == temp[0..len];
      buf := buf0 + temp[..len];
    }

    method ReadMiddle(offset: nat, len0: nat, block0: nat, len1: nat, buf0: Bytes, bounce: bool)
      returns (buf: Bytes, block: nat, len: nat)
      requires Valid() && offset + len0 <= |data| && (bounce || len1 < U32) && block0 <= blocks
      requires |buf0| + len1 == len0 && buf0 == Part(data, offset, offset + |buf0|)
      requires len1 > 0 ==> offset + |buf0| == Pos(shift, block0)
      ensures |buf| + len == len0 && buf == Part(data, offset, offset + |buf|) && len < Pow2(shift)
      ensures len > 0 ==> offset + |buf| == Pos(shift, block)
    {
      hide Pow2, Pos, Valid, DivPow2, Part;
      ValidIs(this);
      buf, block, len := buf0, block0, len1;
      var bs := Pow2(shift);
      if bounce {
        while len >= bs
          invariant |buf| + len == len0 && buf == Part(data, offset, offset + |buf|)
          invariant len > 0 ==> offset + |buf| == Pos(shift, block)
        {
          PosOrder(shift, block, blocks);
          PosAdd(shift, block, 1);
          var temp := ReadBlocks(block, 1);
          PartJoin(data, offset, offset + |buf|, offset + |buf| + bs);
          buf := buf + temp;
          len := len - bs;
          block := block + 1;
        }
      } else {
        var n := DivPow2(len, shift);
        MiddleLeavesPart(len, shift);
        PosIs(shift, n);
        PosAdd(shift, block, n);
        PosOrder(shift, blocks, block + n);
        if len == 0 { NoBlocks(shift, n); }
        var b := ReadBlocks(block, n);
        if len > 0 {
          PartJoin(data, offset, offset + |buf|, offset + |buf| + |b|);
        } else {
          PosAdd(shift, 0, 0);
          assert b == [] && buf + b == buf;
        }
        buf := buf + b;
        len := len - |b|;
        block := block + n;
      }
    }

    // bio_default_write: a partial block is read, changed and written back.
    method DefaultWrite(buf: Bytes, offset: nat, bounce: bool)
      requires Valid() && |buf| > 0 && offset + |buf| <= |data| && (bounce || Middle(shift, offset, |buf|) < U32)
      modifies `data
      ensures Valid() && data == Overlay(old(data), offset, buf)
    {
      hide Pow2, Pos, Valid, Middle, Overlay, Part;
      ghost var d := data;
      OverlayAll(d, offset, buf);
      var done, block := WriteFirst(buf, offset);
      done, block := WriteMiddle(buf, offset, block, done, bounce, d);
      if done < |buf| {
        ValidIs(this);
        PosOrder(shift, block, blocks);
        OverlayStep(d, offset, buf, done, |buf| - done);
        PartIs(buf, done, |buf|);
        PatchBlock(block, 0, buf[done..]);
      }
    }

    // The partial first block, if the range does not start at a block.
    method WriteFirst(buf: Bytes, offset: nat) returns (done: nat, block: nat)
      requires Valid() && |buf| > 0 && offset + |buf| <= |data|
      modifies `data
      ensures Valid() && |data| == |old(data)| && done <= |buf| && block <= blocks
      ensures data == Overlay(old(data), offset, Part(buf, 0, done))
      ensures |buf| - done == Middle(shift, offset, |buf|) && (done < |buf| ==> offset + done == Pos(shift, block))
    {
      hide Pow2, Pos, Valid, Middle, Overlay, Part;
      ValidIs(this);
      ghost var d := data;
      OverlayAll(d, offset, buf);
      PosAdd(shift, 0, 0);
      var part;
      block, part := Locate(offset);
      done := 0;
      if part != 0 {
        done := if Pow2(shift) - part < |buf| then Pow2(shift) - part else |buf|;
        PartIs(buf, 0, done);
        PatchBlock(block, part, buf[..done]);
        PosAdd(shift, block, 1);
        block := block + 1;
      }
    }

    // Read a block, replace part of it, write it back.
    method PatchBlock(block: nat, part: nat, b: Bytes)
      requires Valid() && block < blocks && part + |b| <= Pow2(shift)
      modifies `data
      ensures Valid() && Pos(shift, block) + Pow2(shift) <= |old(data)| == |data|
      ensures data == Overlay(old(data), Pos(shift, block) + part, b)
    {
      hide Pow2, Pos, Valid;
      PosAdd(shift, block, 1);
      var temp := ReadBlocks(block, 1);
      OverlayWithin(data, Pos(shift, block), Pow2(shift), part, b);
      temp := temp[..part] + b + temp[part + |b|..];
      WriteBlocks(temp, block, 1);
    }

    method WriteMiddle(buf: Bytes, offset: nat, block0: nat, done0: nat, bounce: bool, ghost d: Bytes)
      returns (done: nat, block: nat)
      requires Valid() && offset + |buf| <= |d| && |d| == |data| && done0 <= |buf| && (bounce || |buf| - done0 < U32)
      requires block0 <= blocks
      requires data == Overlay(d, offset, Part(buf, 0, done0))
      requires done0 < |buf| ==> offset + done0 == Pos(shift, block0)
      modifies `data
      ensures Valid() && |d| == |data| && done <= |buf| && |buf| - done < Pow2(shift)
      ensures data == Overlay(d, offset, Part(buf, 0, done))
      ensures done < |buf| ==> offset + done == Pos(shift, block)
    {
      hide Pow2, Pos, Valid, DivPow2, Overlay, Part;
      done, block := done0, block0;
      var bs := Pow2(shift);
      if bounce {
        while |buf| - done >= bs
          invariant Valid() && |d| == |data| && done <= |buf| && data == Overlay(d, offset, Part(buf, 0, done))
          invariant done < |buf| ==> offset + done == Pos(shift, block)
          decreases |buf| - done
        {
          ValidIs(this);
          PosOrder(shift, block, blocks);
          PosAdd(shift, block, 1);
          var temp := Part(buf, done, done + bs);
          OverlayStep(d, offset, buf, done, bs);
          WriteBlocks(temp, block, 1);
          done := done + bs;
          block := block + 1;
        }
      } else {
        ValidIs(this);
        var n := DivPow2(|buf| - done, shift);
        MiddleLeavesPart(|buf| - done, shift);
        PosIs(shift, n);
        PosAdd(shift, block, n);
        PosOrder(shift, blocks, block + n);
        if done == |buf| { NoBlocks(shift, n); }
        done := WriteRun(buf, offset, block, done, n, d);
        block := block + n;
      }
    }

    // The blocks in the middle in one transfer, which may be of none.
    method WriteRun(buf: Bytes, offset: nat, block: nat, done0: nat, n: nat, ghost d: Bytes) returns (done: nat)
      requires Valid() && offset + |buf| <= |d| && |d| == |data| && block + n <= blocks
      requires done0 + Pos(shift, n) <= |buf|
      requires data == Overlay(d, offset, Part(buf, 0, done0)) && (n > 0 ==> offset + done0 == Pos(shift, block))
      modifies `data
      ensures Valid() && |d| == |data| && done == done0 + Pos(shift, n)
      ensures data == Overlay(d, offset, Part(buf, 0, done))
    {
      hide Pow2, Pos, Valid, Overlay, Part;
      var b := Part(buf, done0, done0 + Pos(shift, n));
      OverlayStep(d, offset, buf, done0, Pos(shift, n));
      if n == 0 {
        PosAdd(shift, 0, 0);
        PosAdd(shift, block, 0);
        ValidIs(this);
        PosOrder(shift, blocks, block);
        OverlayNone(data, Pos(shift, block));
        assert b == [];
      }
      WriteBlocks(b, block, n);
      done := done0 + Pos(shift, n);
    }

    // bio_read: exactly the part of the request that lies on the device.
    method Read(offset: int, len: nat, bounce: bool) returns (buf: Bytes)
      requires Valid() && len < WORD && offset < OFF_MAX && !EndOverflows(|data|, offset, len)
      requires var n := Wanted(|data|, offset, len); bounce || n == 0 || Middle(shift, offset, n) < U32
      ensures var n := Wanted(|data|, offset, len); buf == if n == 0 then [] else Part(data, offset, offset + n)
    {
      hide Pow2, Pos, Middle;
      TrimRangeIs(|data|, offset, len);
      var n := TrimRange(|data|, offset, len);
      if n == 0 { return []; }
      buf := DefaultRead(offset, n, bounce);
    }

    // bio_write: exactly the part of the request that lies on the device changes.
    method Write(buf: Bytes, offset: int, bounce: bool) returns (n: nat)
      requires Valid() && |buf| < WORD && offset < OFF_MAX && !EndOverflows(|data|, offset, |buf|)
      requires var n := Wanted(|data|, offset, |buf|); bounce || n == 0 || Middle(shift, offset, n) < U32
      modifies `data
      ensures Valid() && n == Wanted(|old(data)|, offset, |buf|)
      ensures data == if n == 0 then old(data) else Overlay(old(data), offset, buf[..n])
    {
      hide Pow2, Pos, Middle;
      TrimRangeIs(|data|, offset, |buf|);
      n := TrimRange(|data|, offset, |buf|);
      if n == 0 { return; }
      DefaultWrite(buf[..n], offset, bounce);
    }

    // bio_erase: exactly the part of the request that lies on the device is erased, even where the trim is wrong.
    method Erase(offset: int, len: nat, erase: bv8, bounce: bool) returns (n: nat)
      requires Valid() && len < WORD && offset < OFF_MAX
      modifies `data
      ensures Valid() && n == Wanted(|old(data)|, offset, len)
      ensures data == if n == 0 then old(data) else Overlay(old(data), offset, Fill(n, erase))
    {
      hide Pow2, Pos, Overlay;
      TrimRangeIs(|data|, offset, len);
      n := TrimRange(|data|, offset, len);
      if n == 0 { return; }
      n := DefaultErase(offset, n, erase, bounce);
    }

    // bio_default_erase writes the erase byte a block's worth at a time, up to the end of the range or of the device.
    method DefaultErase(offset: nat, len: nat, erase: bv8, bounce: bool) returns (erased: nat)
      requires Valid() && offset <= |data|
      modifies `data
      ensures Valid() && erased == (if len <= |data| - offset then len else |data| - offset)
      ensures |data| == |old(data)| && data == Overlay(old(data), offset, Fill(erased, erase))
    {
      hide Pow2, Pos, Valid, Overlay;
      ValidIs(this);
      BelowU32(shift);
      LastBlockFits(shift, blocks);
      ghost var d := data;
      var bs := Pow2(shift);
      erased := 0;
      OverlayNone(d, offset);
      while erased < len
        invariant Valid() && |data| == |d| && erased <= len && offset + erased <= |d|
        invariant data == Overlay(d, offset, Fill(erased, erase))
        decreases len - erased
      {
        ValidIs(this);
        var towrite := if len - erased < bs then len - erased else bs;
        ghost var n := Wanted(|d|, offset + erased, towrite);
        OverlayMore(d, offset, Fill(erased, erase), Fill(n, erase));
        assert Fill(erased, erase) + Fill(n, erase) == Fill(erased + n, erase);
        assert Fill(towrite, erase)[..n] == Fill(n, erase);
        assert Fill(erased, erase) + [] == Fill(erased, erase);
        var written := Write(Fill(towrite, erase), offset + erased, bounce);
        erased := erased + written;
        if written < towrite { break; }
      }
    }
  }

  // A device ends a whole block before the largest offset.
  lemma LastBlockFits(shift: nat, blocks: nat)
    requires shift < 32 && Pos(shift, blocks) < OFF_MAX
    ensures Pos(shift, blocks) + Pow2(shift) <= OFF_MAX
  {
    hide Pow2;
    var bs := Pow2(shift);
    WordIs();
    Pow2Split(1, 63);
    Pow2Split(shift, 63 - shift);
    assert Pow2(1) == 2 by { TwoIs(); }
    assert bs * Pow2(63 - shift) == OFF_MAX;
    if blocks < Pow2(63 - shift) { MulGap(bs, Pow2(63 - shift), blocks); }
    if blocks > Pow2(63 - shift) { MulGap(bs, blocks, Pow2(63 - shift)); }
  }

  lemma TwoIs()
    ensures Pow2(1) == 2
  {
  }

  function Fill(n: nat, x: bv8): (b: Bytes)
    ensures |b| == n && forall i | 0 <= i < n :: b[i] == x
  {
    seq(n, _ => x)
  }

  lemma ValidIs(d: Disk)
    requires d.Valid()
    ensures d.shift < 32 && d.blocks < U32 && |d.data| == Pos(d.shift, d.blocks) < OFF_MAX
  {
  }

  lemma PartIs(d: Bytes, lo: nat, hi: nat)
    requires lo <= hi <= |d|
    ensures Part(d, lo, hi) == d[lo..hi] && d[..hi] == d[0..hi] && d[lo..] == d[lo..|d|]
  {
  }

  lemma PosIs(shift: nat, n: nat)
    ensures Pos(shift, n) == n * Pow2(shift)
  {
  }

  lemma NoBlocks(shift: nat, n: nat)
    requires Pos(shift, n) <= 0
    ensures n == 0
  {
    PosOrder(shift, 0, n);
  }
}
