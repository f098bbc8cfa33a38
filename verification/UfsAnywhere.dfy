/**
 What reads, writes and resizes do to the blocks of any file a run can reach, also one that a write into a full
 block has left with more blocks than its size needs.
 */
module UfsAnywhere {
  import opened Common
  import opened UfsModel
  import opened UfsInvariant
  import opened UfsSpec
  import opened UfsBlocks
  import opened UfsRefinement
  import opened UfsWitness

  // ---------- resizing ----------

  /** The last block of a file resized to `size` bytes counts so many as occupied. */
  predicate EndsAt(bs: seq<Block>, size: nat) {
    bs != [] ==> bs[|bs| - 1].occupied == if size % 512 == 0 then 512 else size % 512
  }

  /** Shrinking frees, from the end, as many blocks as the old size needs more than the new one, however many there
      are. */
  lemma ShrinkAnywhere(f: File, newSize: nat)
    requires SafeFile(f) && newSize < f.size
    ensures var g, cut := Shrink(f, newSize), (f.size + 511) / 512 - (newSize + 511) / 512;
            && 0 <= cut <= |f.blocks| && |g.blocks| == |f.blocks| - cut
            && g == f.(blocks := g.blocks, size := newSize)
            && (forall i :: 0 <= i < |g.blocks| ==> g.blocks[i].memory == f.blocks[i].memory)
            && (forall i :: 0 <= i < |g.blocks| - 1 ==> g.blocks[i] == f.blocks[i])
            && EndsAt(g.blocks, newSize)
  {
    CountsFit(f.size, newSize, |f.blocks|);
    hide SafeFile;
  }

  lemma CountsFit(size: nat, newSize: nat, n: nat)
    requires newSize < size <= BLOCK_SIZE * n
    ensures (newSize + 511) / 512 <= (size + 511) / 512 <= n && ((newSize + 511) / 512 == 0 ==> newSize == 0)
  {
  }

  /** Growing adds, at the end, as many zeroed blocks as the new size needs more than the old one, and all before
      the last that it touches are marked full. */
  lemma GrowAnywhere(f: File, newSize: nat)
    requires SafeFile(f) && f.size < newSize
    ensures var g, more := Grow(f, newSize), (newSize + 511) / 512 - (f.size + 511) / 512;
            && more >= 0 && |g.blocks| == |f.blocks| + more > 0
            && g == f.(blocks := g.blocks, size := newSize)
            && (forall i :: 0 <= i < |f.blocks| ==> g.blocks[i].memory == f.blocks[i].memory)
            && (forall i :: |f.blocks| <= i < |g.blocks| ==> g.blocks[i].memory == Zeros(512))
            && (forall i :: 0 <= i < |g.blocks| - 1 ==>
                 g.blocks[i].occupied == if i < |f.blocks| - 1 then f.blocks[i].occupied else 512)
            && EndsAt(g.blocks, newSize)
  {
    var more := (newSize + 511) / 512 - (f.size + 511) / 512;
    CountsGrow(f.size, newSize, |f.blocks|);
    AddBlocksShape(f.blocks, more);
    hide SafeFile, AddBlocks;
    assert ZeroBuffer() == Zeros(512);
  }

  lemma CountsGrow(size: nat, newSize: nat, n: nat)
    requires size < newSize && size <= BLOCK_SIZE * n
    ensures (newSize + 511) / 512 >= (size + 511) / 512
    ensures n + (newSize + 511) / 512 - (size + 511) / 512 > 0
  {
  }

  // ---------- writing ----------

  /** The block with `src` put in at `at`. */
  predicate PutIn(b: Block, b': Block, at: nat, src: seq<byte>) {
    && b'.occupied == Max(b.occupied, at + |src|)
    && forall i :: 0 <= i < BLOCK_SIZE ==> b'.memory[i] == if at <= i < at + |src| then src[i - at] else b.memory[i]
  }

  /** A write from inside a block that is not full changes that block and appends what does not fit in it; any other
      write only appends. */
  lemma WriteAnywhere(f: File, offset: nat, buf: seq<byte>, garbage: nat -> Buffer) returns (added: seq<Block>)
    requires SafeFile(f) && offset <= BLOCK_SIZE * |f.blocks| && buf != []
    ensures var g, k, at := WriteFile(f, offset, buf, garbage), offset / 512, offset % 512;
            var inside := k < |f.blocks| && f.blocks[k].occupied < 512;
            var n := if inside then Min(|buf|, 512 - at) else 0;
            var rest := if inside then buf[n..] else garbage(offset)[..at] + buf;
            && g == f.(blocks := g.blocks, size := Max(f.size, offset + |buf|))
            && |g.blocks| == |f.blocks| + |added| && g.blocks[|f.blocks|..] == added
            && (forall i :: 0 <= i < |f.blocks| && !(inside && i == k) ==> g.blocks[i] == f.blocks[i])
            && (inside ==> PutIn(f.blocks[k], g.blocks[k], at, buf[..n]))
            && ShapedBlocks(added, |rest|) && |rest| <= BLOCK_SIZE * |added| && Bytes(added, |rest|) == rest
  {
    var k, at := offset / 512, offset % 512;
    var bs := f.blocks;
    if k < |bs| && bs[k].occupied < 512 {
      added := WriteInside(bs, offset, buf, garbage);
    } else {
      assert Appends(bs, k) by {
        assert k < |bs| ==> bs[k] in bs;
      }
      added := WriteLoopAppends(bs, k, offset, buf, garbage);
      ShapedFits(added, |Stray(offset, buf, garbage)|);
      assert (bs + added)[|bs|..] == added;
    }
  }

  /** The pass of the loop on the block the write starts in, and what comes after it. */
  lemma WriteInside(bs: seq<Block>, offset: nat, buf: seq<byte>, garbage: nat -> Buffer) returns (added: seq<Block>)
    requires offset / 512 < |bs| && bs[offset / 512].occupied < 512 && buf != []
    ensures var k, at := offset / 512, offset % 512;
            var r, n := WriteLoop(bs, k, offset, buf, garbage), Min(|buf|, 512 - at);
            && |r| == |bs| + |added| && r[|bs|..] == added && PutIn(bs[k], r[k], at, buf[..n])
            && (forall i :: 0 <= i < |bs| && i != k ==> r[i] == bs[i])
            && ShapedBlocks(added, |buf| - n) && |buf| - n <= BLOCK_SIZE * |added|
            && Bytes(added, |buf| - n) == buf[n..]
  {
    var k, at := offset / 512, offset % 512;
    var n := ChunkSize(offset, |buf|);
    var next := PutChunk(bs, k, offset, buf[..n], garbage(offset));
    PassInside(bs, offset, buf[..n], garbage(offset));
    WriteLoopStep(bs, k, offset, buf, garbage);
    hide WriteLoop, PutChunk, PutIn, Appends, Bytes, ShapedBlocks;
    if n == |buf| {
      WriteNothing(next, k, offset + n, garbage);
      added := [];
      NoneAdded();
      assert buf[n..] == [];
    } else {
      added := WriteLoopAppends(next, k, offset + n, buf[n..], garbage);
      assert Stray(offset + n, buf[n..], garbage) == buf[n..];
      ShapedFits(added, |buf[n..]|);
      assert (next + added)[|bs|..] == added;
    }
  }

  lemma NoneAdded()
    ensures ShapedBlocks([], 0) && Bytes([], 0) == []
  {
  }

  lemma PassInside(bs: seq<Block>, offset: nat, chunk: seq<byte>, blank: Buffer)
    requires offset / 512 < |bs| && bs[offset / 512].occupied < 512
    requires 0 < |chunk| <= 512 - offset % 512
    ensures var k, at := offset / 512, offset % 512;
            var next := PutChunk(bs, k, offset, chunk, blank);
            && Current(bs, k) == k && |next| == |bs| && PutIn(bs[k], next[k], at, chunk)
            && (forall i :: 0 <= i < |bs| && i != k ==> next[i] == bs[i])
            && (at + |chunk| == 512 ==> Appends(next, k) && (offset + |chunk|) % 512 == 0)
  {
  }

  // ---------- reading ----------

  /** The bytes a reader finds from position `at` of the first block on: what is occupied of it, and then the blocks
      after it from where in a block that one ended, until a block has nothing there. */
  function Stream(bs: seq<Block>, at: nat): seq<byte>
    requires forall b :: b in bs ==> b.occupied <= BLOCK_SIZE
  {
    if bs == [] || at >= bs[0].occupied then []
    else bs[0].memory[at..bs[0].occupied] + Stream(bs[1..], bs[0].occupied % 512)
  }

  /** Every read delivers what the stream from its place holds, up to the number of bytes asked for. */
  lemma {:induction false} ReadLoopAnywhere(bs: seq<Block>, k: nat, offset: nat, n: nat)
    requires k <= |bs| && forall b :: b in bs ==> b.occupied <= BLOCK_SIZE
    ensures var all := Stream(bs[k..], offset % 512); ReadLoop(bs, k, offset, n) == all[..Min(n, |all|)]
    decreases |bs| - k
  {
    hide ReadLoop;
    var at, all := offset % 512, Stream(bs[k..], offset % 512);
    if k == |bs| || at >= bs[k].occupied || n == 0 {
      ReadNothing(bs, k, offset);
    } else {
      var c := Min(bs[k].occupied - at, n);
      var tail := Stream(bs[k..][1..], bs[k].occupied % 512);
      assert bs[k..][1..] == bs[k + 1..];
      ReadLoopStep(bs, k, offset, n);
      assert all == bs[k].memory[at..bs[k].occupied] + tail;
      if c == n {
        ReadNothing(bs, k + 1, offset + c);
      } else {
        ReadLoopAnywhere(bs, k + 1, offset + c, n - c);
        NextAt(offset, bs[k].occupied);
      }
    }
  }

  lemma NextAt(offset: nat, occupied: nat)
    requires offset % 512 < occupied
    ensures (offset + (occupied - offset % 512)) % 512 == occupied % 512
  {
  }

  lemma ReadAnywhere(f: File, offset: nat, n: nat)
    requires SafeFile(f) && offset <= BLOCK_SIZE * |f.blocks|
    ensures var all := Stream(f.blocks[offset / 512..], offset % 512);
            ReadFile(f, offset, n) == if offset >= f.size then [] else all[..Min(n, |all|)]
  {
    hide ReadLoop, Stream;
    ReadLoopAnywhere(f.blocks, offset / 512, offset, n);
  }

  // ---------- a run in which a shrink leaves too much ----------

  /** The file after the writes, and after the shrink, which frees no block. */
  lemma ShrunkFile(z: seq<byte>, b: byte, garbage: nat -> Buffer) returns (f: File, g: File, h: File)
    requires |z| == BLOCK_SIZE
    ensures f == WriteFile(FIRST, 0, z, garbage) && f.size == 512 && f.refs == 1 && f.name == "a" && !f.isGhost
    ensures g == WriteFile(f, 0, [b], garbage) && g.size == 512 && g.refs == 1 && g.name == "a" && !g.isGhost
    ensures SafeFile(g) && h == Shrink(g, 100) && h.size == 100 && h.refs == 1 && h.name == "a" && !h.isGhost
    ensures SafeFile(h) && ReadFile(h, 0, 600) == z + [b] + garbage(0)[1..88]
  {
    f, g := OverrunFile(z, b, garbage);
    TwoBlocks(z, b, garbage, f, g);
    h := Shrink(g, 100);
    ShrinkAnywhere(g, 100);
    hide Shrink;
    assert |h.blocks| == 2 && h.blocks[0] == Block(z, 512) && h.blocks[1] == Block([b] + garbage(0)[1..], 100);
    TwoRead(h, z, [b] + garbage(0)[1..]);
    assert ([b] + garbage(0)[1..])[..88] == [b] + garbage(0)[1..88];
    assert z + ([b] + garbage(0)[1..88]) == z + [b] + garbage(0)[1..88];
  }

  lemma TwoBlocks(z: seq<byte>, b: byte, garbage: nat -> Buffer, f: File, g: File)
    requires |z| == BLOCK_SIZE && f == WriteFile(FIRST, 0, z, garbage)
    requires g == WriteFile(f, 0, [b], garbage)
    ensures g.blocks == [Block(z, 512), Block([b] + garbage(0)[1..], 1)]
  {
    OneFull(z, garbage);
    hide WriteLoop;
    assert [b][..1] == [b] && [b][1..] == [];
    WriteLoopStep(f.blocks, 0, 0, [b], garbage);
    WriteNothing(PutChunk(f.blocks, 0, 0, [b], garbage(0)), 1, 1, garbage);
    assert PutBytes(garbage(0), 0, [b]) == [b] + garbage(0)[1..];
  }

  lemma OneFull(z: seq<byte>, garbage: nat -> Buffer)
    requires |z| == BLOCK_SIZE
    ensures WriteFile(FIRST, 0, z, garbage).blocks == [Block(z, 512)]
  {
    hide WriteLoop;
    WriteLoopStep([], 0, 0, z, garbage);
    assert z[..512] == z && z[512..] == [];
    WriteNothing(PutChunk([], 0, 0, z, garbage(0)), 0, 512, garbage);
    assert PutBytes(garbage(0), 0, z) == z;
  }

  lemma TwoRead(h: File, z: seq<byte>, y: seq<byte>)
    requires SafeFile(h) && |z| == BLOCK_SIZE == |y| && h.blocks == [Block(z, 512), Block(y, 100)] && h.size == 100
    ensures ReadFile(h, 0, 600) == z + y[..88]
  {
    ReadAnywhere(h, 0, 600);
    hide ReadFile;
    assert Stream([Block(y, 100)], 0) == y[..100];
    assert z[0..512] == z;
    assert h.blocks[1..] == [Block(y, 100)];
    assert Stream(h.blocks, 0) == z + y[..100];
    assert h.blocks[0..] == h.blocks;
    assert (z + y[..100])[..600] == z + y[..88];
  }

  /** A file of 512 bytes gets a second block from a write of one byte at its start, keeps both when cut to 100
      bytes, and a read delivers 600: the old bytes, the written one and 87 that nobody wrote. */
  lemma ShrinkLeavesBlock(z: seq<byte>, b: byte, garbage: nat -> Buffer)
    requires |z| == BLOCK_SIZE
    ensures Inv(EMPTY_FS)
    ensures var calls := [CallOpen("a", {CREATE}), CallWrite(1, z, garbage), CallClose(1), CallOpen("a", {}),
                          CallWrite(1, [b], garbage), CallResize(1, 100), CallClose(1), CallOpen("a", {}),
                          CallRead(1, 600)];
            && Answers(EMPTY_FS, calls)
            == [Response(1, []), Response(512, []), Response(0, []), Response(1, []), Response(1, []), Response(0, []),
                Response(0, []), Response(1, []), Response(600, z + [b] + garbage(0)[1..88])]
            && FileSize(Run(EMPTY_FS, calls), 0) == 100
  {
    hide Inv, Apply, Answers, Run, RunInDomain, WriteFile, ReadFile, SafeFile, Shrink;
    var f, g, h := ShrunkFile(z, b, garbage);
    var c1, c2, c3, c4, c5 := CallWrite(1, [b], garbage), CallResize(1, 100), CallClose(1), CallOpen("a", {}),
        CallRead(1, 600);
    OpenPart(z, garbage, f, [c1, c2, c3, c4, c5]);
    Writes(f, BOTH, 0, [b], garbage);
    Before(One(f, BOTH, 0), c1, Outcome(One(g, BOTH, 1), 1, []), [c2, c3, c4, c5]);
    Shrinks(g, BOTH, 1, 100);
    Before(One(g, BOTH, 1), c2, Outcome(One(h, BOTH, 1), 0, []), [c3, c4, c5]);
    Closes(h, BOTH, 1);
    Before(One(h, BOTH, 1), c3, Outcome(Closed(h), 0, []), [c4, c5]);
    Reopens(h);
    Before(Closed(h), c4, Outcome(One(h, BOTH, 0), 1, []), [c5]);
    Reads(h, BOTH, 0, 600);
    var data := z + [b] + garbage(0)[1..88];
    Before(One(h, BOTH, 0), c5, Outcome(One(h, BOTH, |data|), |data|, data), []);
    Nothing(One(h, BOTH, |data|));
    assert [c1, c2, c3, c4, c5] == [c1] + [c2, c3, c4, c5] && [c2, c3, c4, c5] == [c2] + [c3, c4, c5];
    assert [c3, c4, c5] == [c3] + [c4, c5] && [c4, c5] == [c4] + [c5] && [c5] == [c5] + [];
    assert [CallOpen("a", {CREATE}), CallWrite(1, z, garbage), CallClose(1), CallOpen("a", {})] + [c1, c2, c3, c4, c5]
        == [CallOpen("a", {CREATE}), CallWrite(1, z, garbage), CallClose(1), CallOpen("a", {}), c1, c2, c3, c4, c5];
  }
}
