/**
 One file's blocks against its bytes. A shaped block list (all blocks full but the last, the occupied
 bytes adding up to the size) stands for a byte sequence; writes, reads and resizes are followed on it,
 and a write that starts in a full block is shown to leave the shape.
 */
module UfsBlocks {
  import opened Common
  import opened UfsModel
  import opened UfsSpec

  /** The block list of a file of `total` bytes. */
  predicate ShapedBlocks(bs: seq<Block>, total: nat) {
    && |bs| == BlockCount(total)
    && forall i :: 0 <= i < |bs| ==> bs[i].occupied == Min(BLOCK_SIZE, total - BLOCK_SIZE * i)
  }

  predicate Shaped(f: File) {
    ShapedBlocks(f.blocks, f.size) && f.size <= MAX_FILE_SIZE
  }

  /** Byte `i` sits in block `i / BLOCK_SIZE`. */
  function Bytes(bs: seq<Block>, total: nat): (bytes: seq<byte>)
    requires total <= BLOCK_SIZE * |bs|
    ensures |bytes| == total
  {
    seq(total, i requires 0 <= i < total => bs[i / BLOCK_SIZE].memory[i % BLOCK_SIZE])
  }

  function Content(f: File): (bytes: seq<byte>)
    requires SafeFile(f)
    ensures |bytes| == f.size
  {
    Bytes(f.blocks, f.size)
  }

  lemma ShapedFits(bs: seq<Block>, total: nat)
    requires ShapedBlocks(bs, total)
    ensures total <= BLOCK_SIZE * |bs|
  {
  }

  // ---------- writing ----------

  /** Where a write keeps the shape: at the end, or inside the partly filled last block. */
  predicate GoodStart(size: nat, offset: nat) {
    offset == size || (size % BLOCK_SIZE != 0 && offset / BLOCK_SIZE == size / BLOCK_SIZE)
  }

  /** The write loop's current block when it keeps the shape: the next block to append, or the last one. */
  predicate GoodBlock(bs: seq<Block>, total: nat, k: nat, offset: nat) {
    && k <= |bs|
    && offset <= total
    && GoodStart(total, offset)
    && (if total % BLOCK_SIZE == 0 then k == |bs| || (k + 1 == |bs| && bs[k].occupied == BLOCK_SIZE)
        else k == offset / BLOCK_SIZE)
  }

  lemma SpliceInTwo(c: seq<byte>, at: nat, src: seq<byte>, n: nat)
    requires at <= |c| && n <= |src|
    ensures at + n <= |Splice(c, at, src[..n])|
    ensures Splice(Splice(c, at, src[..n]), at + n, src[n..]) == Splice(c, at, src)
  {
  }

  lemma SpliceNothing(c: seq<byte>, at: nat)
    requires at <= |c|
    ensures Splice(c, at, []) == c
  {
  }

  lemma PutBytesAt(memory: Buffer, at: nat, src: seq<byte>, i: nat)
    requires at + |src| <= BLOCK_SIZE && i < BLOCK_SIZE
    ensures PutBytes(memory, at, src)[i] == if at <= i < at + |src| then src[i - at] else memory[i]
  {
  }

  /** One pass of the write loop keeps the shape of a longer file. */
  lemma WritePassShape(bs: seq<Block>, k: nat, total: nat, offset: nat, chunk: seq<byte>, blank: Buffer)
    requires ShapedBlocks(bs, total) && GoodBlock(bs, total, k, offset)
    requires 0 < |chunk| <= BLOCK_SIZE - offset % BLOCK_SIZE
    ensures Current(bs, k) == offset / BLOCK_SIZE
    ensures ShapedBlocks(PutChunk(bs, k, offset, chunk, blank), Max(total, offset + |chunk|))
    ensures offset % BLOCK_SIZE + |chunk| == BLOCK_SIZE ==>
              GoodBlock(PutChunk(bs, k, offset, chunk, blank), Max(total, offset + |chunk|), Current(bs, k),
                        offset + |chunk|)
  {
    assert Current(bs, k) == offset / BLOCK_SIZE;
  }

  /** One pass of the write loop splices its chunk in. */
  lemma WritePassBytes(bs: seq<Block>, k: nat, total: nat, offset: nat, chunk: seq<byte>, blank: Buffer)
    requires ShapedBlocks(bs, total) && GoodBlock(bs, total, k, offset)
    requires 0 < |chunk| <= BLOCK_SIZE - offset % BLOCK_SIZE
    requires ShapedBlocks(PutChunk(bs, k, offset, chunk, blank), Max(total, offset + |chunk|))
    requires Current(bs, k) == offset / BLOCK_SIZE
    ensures Bytes(PutChunk(bs, k, offset, chunk, blank), Max(total, offset + |chunk|))
         == Splice(Bytes(bs, total), offset, chunk)
  {
    var bs' := PutChunk(bs, k, offset, chunk, blank);
    var current, at := Current(bs, k), offset % BLOCK_SIZE;
    var total' := Max(total, offset + |chunk|);
    var l, r := Bytes(bs', total'), Splice(Bytes(bs, total), offset, chunk);
    forall i | 0 <= i < total' ensures l[i] == r[i] {
      var j, p := i / BLOCK_SIZE, i % BLOCK_SIZE;
      assert l[i] == bs'[j].memory[p];
      if j == current {
        var was := if Appends(bs, k) then blank else bs[k].memory;
        PutBytesAt(was, at, chunk, p);
        assert p - at == i - offset;
      } else {
        assert bs'[j] == bs[j];
        assert !(offset <= i < offset + |chunk|);
      }
    }
  }

  /** Both, for the pass the loop makes. */
  lemma WritePass(bs: seq<Block>, k: nat, total: nat, offset: nat, buf: seq<byte>, blank: Buffer)
    requires ShapedBlocks(bs, total) && GoodBlock(bs, total, k, offset) && buf != []
    ensures var n := ChunkSize(offset, |buf|);
            var next := PutChunk(bs, k, offset, buf[..n], blank);
            var total' := Max(total, offset + n);
            && ShapedBlocks(next, total')
            && Bytes(next, total') == Splice(Bytes(bs, total), offset, buf[..n])
            && (buf[n..] != [] ==> GoodBlock(next, total', Current(bs, k), offset + n))
  {
    var n := ChunkSize(offset, |buf|);
    WritePassShape(bs, k, total, offset, buf[..n], blank);
    WritePassBytes(bs, k, total, offset, buf[..n], blank);
  }

  /** From a good start the write loop splices the buffer in. */
  lemma {:induction false} WriteLoopSplices(bs: seq<Block>, k: nat, total: nat, offset: nat, buf: seq<byte>,
      garbage: nat -> Buffer)
    requires ShapedBlocks(bs, total)
    requires buf != [] ==> GoodBlock(bs, total, k, offset)
    requires k <= |bs| && offset <= total
    ensures var r := WriteLoop(bs, k, offset, buf, garbage);
            var total' := Max(total, offset + |buf|);
            && ShapedBlocks(r, total')
            && Bytes(r, total') == Splice(Bytes(bs, total), offset, buf)
    decreases |buf|
  {
    hide WriteLoop, PutChunk, Bytes, Splice, GoodBlock, Current, ShapedBlocks, Appends;
    ShapedFits(bs, total);
    if buf == [] {
      WriteNothing(bs, k, offset, garbage);
      SpliceNothing(Bytes(bs, total), offset);
    } else {
      var n := ChunkSize(offset, |buf|);
      var next, total1 := PutChunk(bs, k, offset, buf[..n], garbage(offset)), Max(total, offset + n);
      WriteLoopStep(bs, k, offset, buf, garbage);
      WritePass(bs, k, total, offset, buf, garbage(offset));
      WriteLoopSplices(next, Current(bs, k), total1, offset + n, buf[n..], garbage);
      var r, total2 := WriteLoop(bs, k, offset, buf, garbage), Max(total, offset + |buf|);
      assert Max(total1, offset + n + |buf[n..]|) == total2;
      ShapedFits(next, total1);
      ShapedFits(r, total2);
      var c, c1, c2 := Bytes(bs, total), Bytes(next, total1), Bytes(r, total2);
      assert c1 == Splice(c, offset, buf[..n]);
      assert c2 == Splice(c1, offset + n, buf[n..]);
      SpliceInTwo(c, offset, buf, n);
    }
  }

  // ---------- a write that starts in a full block ----------

  function Occupied(bs: seq<Block>): nat {
    if bs == [] then 0 else bs[0].occupied + Occupied(bs[1..])
  }

  lemma {:induction false} OccupiedAppend(bs: seq<Block>, cs: seq<Block>)
    ensures Occupied(bs + cs) == Occupied(bs) + Occupied(cs)
  {
    if bs == [] {
      assert bs + cs == cs;
    } else {
      OccupiedAppend(bs[1..], cs);
      assert (bs + cs)[1..] == bs[1..] + cs;
    }
  }

  /** The total of a shaped list is its size. */
  lemma {:induction false} ShapedTotal(bs: seq<Block>, total: nat)
    requires ShapedBlocks(bs, total)
    ensures Occupied(bs) == total
  {
    if bs != [] {
      ShapedTotal(bs[1..], Max(0, total - BLOCK_SIZE));
    }
  }

  /** One pass on a full block. */
  lemma AppendPass(bs: seq<Block>, k: nat, offset: nat, buf: seq<byte>, blank: Buffer) returns (full: Block)
    requires k <= |bs| && Appends(bs, k) && buf != []
    ensures var n := ChunkSize(offset, |buf|);
            && PutChunk(bs, k, offset, buf[..n], blank) == bs + [full]
            && full.occupied == offset % BLOCK_SIZE + n <= BLOCK_SIZE
            && full.memory[..full.occupied] == blank[..offset % BLOCK_SIZE] + buf[..n]
            && (buf[n..] != [] ==>
                 Appends(bs + [full], |bs|) && full.occupied == BLOCK_SIZE && (offset + n) % BLOCK_SIZE == 0)
    ensures Current(bs, k) == |bs|
  {
    var n := ChunkSize(offset, |buf|);
    full := PutInBlock(Block(blank, 0), offset % BLOCK_SIZE, buf[..n]);
    assert PutChunk(bs, k, offset, buf[..n], blank) == bs + [full];
  }

  lemma OneBlock(full: Block)
    requires 0 < full.occupied <= BLOCK_SIZE
    ensures ShapedBlocks([full], full.occupied) && Bytes([full], full.occupied) == full.memory[..full.occupied]
  {
  }

  lemma BlockBefore(full: Block, more: seq<Block>, total: nat)
    requires full.occupied == BLOCK_SIZE && ShapedBlocks(more, total)
    ensures ShapedBlocks([full] + more, BLOCK_SIZE + total)
    ensures Bytes([full] + more, BLOCK_SIZE + total) == full.memory + Bytes(more, total)
  {
    var l, r := Bytes([full] + more, BLOCK_SIZE + total), full.memory + Bytes(more, total);
    forall i | 0 <= i < BLOCK_SIZE + total ensures l[i] == r[i] {
      if i >= BLOCK_SIZE {
        assert i / BLOCK_SIZE == (i - BLOCK_SIZE) / BLOCK_SIZE + 1 && i % BLOCK_SIZE == (i - BLOCK_SIZE) % BLOCK_SIZE;
      }
    }
  }

  /** What a write that starts in a full block appends: the bytes that malloc left before it, and the buffer. */
  function Stray(offset: nat, buf: seq<byte>, garbage: nat -> Buffer): (r: seq<byte>)
    ensures |r| == offset % BLOCK_SIZE + |buf|
  {
    garbage(offset)[..offset % BLOCK_SIZE] + buf
  }

  /** In a full block the loop only appends: nothing that was there changes. */
  lemma {:induction false} WriteLoopAppends(bs: seq<Block>, k: nat, offset: nat, buf: seq<byte>, garbage: nat -> Buffer)
      returns (added: seq<Block>)
    requires k <= |bs| && Appends(bs, k) && buf != []
    ensures WriteLoop(bs, k, offset, buf, garbage) == bs + added
    ensures var stray := Stray(offset, buf, garbage);
            ShapedBlocks(added, |stray|) && Bytes(added, |stray|) == stray
    decreases |buf|
  {
    hide WriteLoop, PutChunk, ChunkSize, Current, Appends, ShapedBlocks, Bytes;
    var n := ChunkSize(offset, |buf|);
    var full := AppendPass(bs, k, offset, buf, garbage(offset));
    WriteLoopStep(bs, k, offset, buf, garbage);
    var rest := buf[n..];
    assert buf == buf[..n] + rest;
    if rest == [] {
      WriteNothing(bs + [full], |bs|, offset + n, garbage);
      OneBlock(full);
      added := [full];
      ShapedFits(added, full.occupied);
      assert Stray(offset, buf, garbage) == full.memory[..full.occupied];
    } else {
      var more := WriteLoopAppends(bs + [full], |bs|, offset + n, rest, garbage);
      BlockBefore(full, more, |rest|);
      added := [full] + more;
      ShapedFits(added, BLOCK_SIZE + |rest|);
      assert Stray(offset + n, rest, garbage) == rest;
      assert Stray(offset, buf, garbage) == full.memory + rest;
      assert (bs + [full]) + more == bs + added;
    }
  }

  // ---------- reading ----------

  /** A piece of one block is a slice of the bytes. */
  lemma BlockSlice(bs: seq<Block>, total: nat, k: nat, offset: nat, c: nat)
    requires ShapedBlocks(bs, total) && k < |bs| && k == offset / BLOCK_SIZE
    requires offset % BLOCK_SIZE + c <= bs[k].occupied
    ensures offset + c <= total
    ensures bs[k].memory[offset % BLOCK_SIZE..offset % BLOCK_SIZE + c] == Bytes(bs, total)[offset..offset + c]
  {
    var at := offset % BLOCK_SIZE;
    var slice := bs[k].memory[at..at + c];
    forall i | 0 <= i < c ensures slice[i] == Bytes(bs, total)[offset + i] {
      assert (offset + i) / BLOCK_SIZE == k && (offset + i) % BLOCK_SIZE == at + i;
    }
  }

  /** Two reads in a row. */
  lemma SlicesJoin(c: seq<byte>, from: nat, mid: nat, n: nat, first: seq<byte>, rest: seq<byte>)
    requires from <= mid <= |c| && mid <= from + n
    requires first == c[from..mid] && rest == c[mid..Min(from + n, |c|)]
    ensures first + rest == c[from..Min(from + n, |c|)]
  {
  }

  /** A read returns the slice from the offset, cut at the end of the file. */
  lemma ReadFileSlices(f: File, offset: nat, n: nat)
    requires Shaped(f) && offset <= f.size
    ensures ReadFile(f, offset, n) == Content(f)[offset..Min(offset + n, f.size)]
    ensures offset + |ReadFile(f, offset, n)| <= f.size
  {
    ReadLoopSlices(f.blocks, f.size, offset / BLOCK_SIZE, offset, n);
  }

  predicate AtBlock(bs: seq<Block>, total: nat, k: nat, offset: nat) {
    && offset <= total && k <= |bs|
    && (k == offset / BLOCK_SIZE || (offset == total && k == |bs|))
  }

  /** The read loop stops early only at the end of the file. */
  lemma StopsAtEnd(bs: seq<Block>, total: nat, k: nat, offset: nat)
    requires ShapedBlocks(bs, total) && AtBlock(bs, total, k, offset)
    requires k == |bs| || offset % BLOCK_SIZE >= bs[k].occupied
    ensures offset == total
  {
  }

  lemma NextBlock(bs: seq<Block>, total: nat, k: nat, offset: nat)
    requires ShapedBlocks(bs, total) && AtBlock(bs, total, k, offset)
    requires k < |bs| && offset % BLOCK_SIZE < bs[k].occupied
    ensures k == offset / BLOCK_SIZE
    ensures AtBlock(bs, total, k + 1, offset + (bs[k].occupied - offset % BLOCK_SIZE))
  {
  }

  /** A read that ends inside the current block, or cannot start. */
  lemma ReadWithinBlock(bs: seq<Block>, total: nat, k: nat, offset: nat, n: nat)
    requires ShapedBlocks(bs, total) && AtBlock(bs, total, k, offset)
    requires k == |bs| || offset % BLOCK_SIZE + n <= bs[k].occupied || offset % BLOCK_SIZE >= bs[k].occupied
    ensures ReadLoop(bs, k, offset, n) == Bytes(bs, total)[offset..Min(offset + n, total)]
  {
    if k == |bs| || offset % BLOCK_SIZE >= bs[k].occupied {
      ReadNothing(bs, k, offset);
      StopsAtEnd(bs, total, k, offset);
    } else {
      NextBlock(bs, total, k, offset);
      BlockSlice(bs, total, k, offset, n);
      ReadNothing(bs, k, offset);
      if n > 0 {
        ReadLoopStep(bs, k, offset, n);
        ReadNothing(bs, k + 1, offset + n);
      }
    }
  }

  lemma ReadFacts(bs: seq<Block>, total: nat, k: nat, offset: nat)
    requires ShapedBlocks(bs, total) && AtBlock(bs, total, k, offset)
    ensures k <= |bs| && offset <= total <= BLOCK_SIZE * |bs| && forall b :: b in bs ==> b.occupied <= BLOCK_SIZE
  {
  }

  /** On a shaped list the read loop returns the slice from the offset, cut at the end of the file. */
  lemma {:induction false} ReadLoopSlices(bs: seq<Block>, total: nat, k: nat, offset: nat, n: nat)
    requires ShapedBlocks(bs, total) && AtBlock(bs, total, k, offset)
    ensures ReadLoop(bs, k, offset, n) == Bytes(bs, total)[offset..Min(offset + n, total)]
    decreases |bs| - k
  {
    hide ReadLoop, Bytes, ShapedBlocks, AtBlock;
    ReadFacts(bs, total, k, offset);
    if k == |bs| || offset % BLOCK_SIZE + n <= bs[k].occupied || offset % BLOCK_SIZE >= bs[k].occupied {
      ReadWithinBlock(bs, total, k, offset, n);
    } else {
      var c := Min(bs[k].occupied - offset % BLOCK_SIZE, n);
      var all, mid, to := Bytes(bs, total), offset + c, Min(offset + n, total);
      var first, rest := bs[k].memory[offset % BLOCK_SIZE..offset % BLOCK_SIZE + c], ReadLoop(bs, k + 1, mid, n - c);
      NextBlock(bs, total, k, offset);
      ReadLoopStep(bs, k, offset, n);
      BlockSlice(bs, total, k, offset, c);
      ReadLoopSlices(bs, total, k + 1, mid, n - c);
      assert to == Min(mid + (n - c), total);
      assert rest == all[mid..to];
      SlicesJoin(all, offset, mid, n, first, rest);
    }
  }

  // ---------- resizing ----------

  lemma ShrinkShape(f: File, newSize: nat)
    requires Shaped(f) && newSize < f.size
    ensures var g := Shrink(f, newSize);
            && ShapedBlocks(g.blocks, newSize) && g == f.(blocks := g.blocks, size := newSize)
            && |g.blocks| == BlockCount(newSize) <= |f.blocks|
            && (forall i :: 0 <= i < |g.blocks| ==> g.blocks[i].memory == f.blocks[i].memory)
  {
    var g, n := Shrink(f, newSize), BlockCount(newSize);
    BlockCounts(f.size, newSize);
    hide BlockCount, LastOccupied;
    assert n <= |f.blocks| && DropBlocks(f.blocks, |f.blocks| - n) == f.blocks[..n];
    assert |g.blocks| == n;
  }

  /** The blocks of a shorter file: all full but the last. */
  lemma BlockCounts(size: nat, newSize: nat)
    requires newSize < size
    ensures BlockCount(newSize) <= BlockCount(size) && (BlockCount(newSize) == 0 <==> newSize == 0)
    ensures forall i :: 0 <= i < BlockCount(newSize) - 1 ==>
              BLOCK_SIZE * i + BLOCK_SIZE <= newSize && BLOCK_SIZE * i + BLOCK_SIZE <= size
    ensures newSize > 0 ==> LastOccupied(newSize) == newSize - BLOCK_SIZE * (BlockCount(newSize) - 1) <= BLOCK_SIZE
  {
  }

  /** Shrinking keeps the prefix, in just the blocks it needs. */
  lemma ShrinkIsPrefix(f: File, newSize: nat)
    requires Shaped(f) && newSize < f.size
    ensures var g := Shrink(f, newSize);
            && Shaped(g) && g == f.(blocks := g.blocks, size := newSize)
            && |g.blocks| == BlockCount(newSize)
            && Content(g) == Content(f)[..newSize]
            && (forall i :: 0 <= i < |g.blocks| ==> g.blocks[i].memory == f.blocks[i].memory)
  {
    ShrinkShape(f, newSize);
    hide Shrink, ShapedBlocks;
    var g := Shrink(f, newSize);
    ShapedFits(g.blocks, newSize);
    ShapedFits(f.blocks, f.size);
  }

  /** Where the loop of a growth stands after `count` more blocks: only the last block is not yet marked. */
  lemma {:induction false} AddBlocksShape(bs: seq<Block>, count: nat)
    ensures var r := AddBlocks(bs, count);
            && |r| == |bs| + count
            && (forall i :: 0 <= i < |bs| ==> r[i].memory == bs[i].memory)
            && (forall i :: |bs| <= i < |r| ==> r[i].memory == ZeroBuffer())
            && (forall i :: 0 <= i < |bs| - 1 ==> r[i].occupied == bs[i].occupied)
            && (forall i :: 0 <= i && |bs| - 1 <= i < |r| - 1 ==> r[i].occupied == BLOCK_SIZE)
    decreases count
  {
    if count > 0 {
      AddBlocksShape(SetLast(bs, BLOCK_SIZE) + [Block(ZeroBuffer(), 0)], count - 1);
    }
  }

  lemma GrowShape(f: File, newSize: nat)
    requires Shaped(f) && f.size < newSize <= MAX_FILE_SIZE
    ensures var g := Grow(f, newSize);
            && Shaped(g) && g == f.(blocks := g.blocks, size := newSize)
            && |g.blocks| == BlockCount(newSize) >= |f.blocks|
            && (forall i :: 0 <= i < |f.blocks| ==> g.blocks[i].memory == f.blocks[i].memory)
            && (forall i :: |f.blocks| <= i < |g.blocks| ==> g.blocks[i].memory == ZeroBuffer())
  {
    AddBlocksShape(f.blocks, BlockCount(newSize) - BlockCount(f.size));
  }

  /** Growing keeps the old bytes, shows what the old last block still held, and adds zeroed blocks. */
  lemma GrowExtends(f: File, newSize: nat)
    requires Shaped(f) && f.size < newSize <= MAX_FILE_SIZE
    ensures var g := Grow(f, newSize);
            var edge := Exposed(f.size, newSize);
            && f.size + edge <= BLOCK_SIZE * |f.blocks|
            && Shaped(g) && g == f.(blocks := g.blocks, size := newSize)
            && |g.blocks| == BlockCount(newSize)
            && Content(g) == Content(f) + Bytes(f.blocks, f.size + edge)[f.size..] + Zeros(newSize - f.size - edge)
  {
    hide Grow;
    GrowShape(f, newSize);
    var g := Grow(f, newSize);
    var edge := Exposed(f.size, newSize);
    var r := Content(f) + Bytes(f.blocks, f.size + edge)[f.size..] + Zeros(newSize - f.size - edge);
    forall i | 0 <= i < newSize ensures Content(g)[i] == r[i] {
      if i < f.size + edge {
        assert i / BLOCK_SIZE < |f.blocks|;
      } else {
        assert i / BLOCK_SIZE >= |f.blocks|;
      }
    }
  }

  /** The bytes cut off by a shrink come back when the file grows again inside its last block. */
  lemma StaleBytesReturn(f: File, small: nat, again: nat)
    requires Shaped(f) && small < again <= f.size && again <= BLOCK_SIZE * BlockCount(small)
    ensures Shaped(Grow(Shrink(f, small), again))
    ensures Content(Grow(Shrink(f, small), again)) == Content(f)[..again]
  {
    hide Shrink, Grow;
    ShrinkIsPrefix(f, small);
    var g := Shrink(f, small);
    GrowExtends(g, again);
    var r := Content(Grow(g, again));
    assert Exposed(small, again) == again - small;
    forall i | 0 <= i < again ensures r[i] == Content(f)[i] {
      if i >= small {
        assert r[i] == Bytes(g.blocks, again)[small..][i - small] == Bytes(g.blocks, again)[i];
      }
    }
  }

  // ---------- the exact domain of a write ----------

  lemma GoodWrite(f: File, offset: nat, buf: seq<byte>, garbage: nat -> Buffer)
    requires Shaped(f) && offset <= f.size && buf != [] && f.size + |buf| <= MAX_FILE_SIZE
    requires GoodStart(f.size, offset)
    ensures offset <= BLOCK_SIZE * |f.blocks|
    ensures Shaped(WriteFile(f, offset, buf, garbage))
    ensures Content(WriteFile(f, offset, buf, garbage)) == Splice(Content(f), offset, buf)
  {
    WriteLoopSplices(f.blocks, offset / BLOCK_SIZE, f.size, offset, buf, garbage);
  }

  lemma StrayWrite(f: File, offset: nat, buf: seq<byte>, garbage: nat -> Buffer)
    requires Shaped(f) && offset <= f.size && buf != [] && !GoodStart(f.size, offset)
    ensures offset <= BLOCK_SIZE * |f.blocks|
    ensures var g := WriteFile(f, offset, buf, garbage);
            && f.blocks < g.blocks
            && Occupied(g.blocks) == f.size + offset % BLOCK_SIZE + |buf| > g.size
            && !Shaped(g)
  {
    var added := WriteLoopAppends(f.blocks, offset / BLOCK_SIZE, offset, buf, garbage);
    OccupiedAppend(f.blocks, added);
    ShapedTotal(f.blocks, f.size);
    ShapedTotal(added, offset % BLOCK_SIZE + |buf|);
    var g := WriteFile(f, offset, buf, garbage);
    if Shaped(g) {
      ShapedTotal(g.blocks, g.size);
    }
  }

  /** A permitted non-empty write keeps the shape exactly from a good start. */
  lemma WriteShapeExact(f: File, offset: nat, buf: seq<byte>, garbage: nat -> Buffer)
    requires Shaped(f) && offset <= f.size && buf != [] && f.size + |buf| <= MAX_FILE_SIZE
    ensures offset <= BLOCK_SIZE * |f.blocks|
    ensures Shaped(WriteFile(f, offset, buf, garbage)) <==> GoodStart(f.size, offset)
  {
    if GoodStart(f.size, offset) {
      GoodWrite(f, offset, buf, garbage);
    } else {
      StrayWrite(f, offset, buf, garbage);
    }
  }
}
