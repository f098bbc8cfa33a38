/**
 What is read of a file after a write that started in a full block before its end: the old bytes, and past them, though
 past the size too, what the write appended.
 */
module UfsStray {
  import opened Common
  import opened UfsModel
  import opened UfsSpec
  import opened UfsBlocks

  predicate Safe(bs: seq<Block>) {
    forall b :: b in bs ==> b.occupied <= BLOCK_SIZE
  }

  // ---------- the read loop over two lists ----------

  /** In the second list the loop does what it does on that list alone. */
  lemma {:induction false} ReadShift(bs: seq<Block>, extra: seq<Block>, j: nat, offset: nat, offset': nat, n: nat)
    requires Safe(bs + extra) && Safe(extra) && j <= |extra| && offset % BLOCK_SIZE == offset' % BLOCK_SIZE
    ensures ReadLoop(bs + extra, |bs| + j, offset, n) == ReadLoop(extra, j, offset', n)
    decreases |extra| - j
  {
    hide ReadLoop;
    var all, k, at := bs + extra, |bs| + j, offset % BLOCK_SIZE;
    if j < |extra| && n > 0 && at < extra[j].occupied {
      assert all[k] == extra[j] && extra[j] in extra;
      var c := Min(extra[j].occupied - at, n);
      ReadLoopStep(all, k, offset, n);
      ReadLoopStep(extra, j, offset', n);
      SameRest(offset, offset', c);
      ReadShift(bs, extra, j + 1, offset + c, offset' + c, n - c);
    } else {
      assert j < |extra| ==> all[k] == extra[j];
      ReadNothing(all, k, offset);
      ReadNothing(extra, j, offset');
    }
  }

  lemma SameRest(a: nat, b: nat, c: nat)
    requires a % BLOCK_SIZE == b % BLOCK_SIZE
    ensures (a + c) % BLOCK_SIZE == (b + c) % BLOCK_SIZE
  {
    var x := (b + c) / BLOCK_SIZE + a / BLOCK_SIZE - b / BLOCK_SIZE;
    assert a + c == BLOCK_SIZE * x + (b + c) % BLOCK_SIZE;
  }

  predicate Inside(bs: seq<Block>, total: nat, k: nat, offset: nat) {
    k <= |bs| && if k < |bs| then offset < total && k == offset / BLOCK_SIZE else offset == total
  }

  /** One pass of the loop in the first list. */
  lemma ReadPass(bs: seq<Block>, total: nat, k: nat, offset: nat, n: nat)
    requires ShapedBlocks(bs, total) && Inside(bs, total, k, offset) && k < |bs|
    ensures var at := offset % BLOCK_SIZE;
            var c := Min(bs[k].occupied - at, n);
            && at < bs[k].occupied <= BLOCK_SIZE && offset + c <= total
            && (c == bs[k].occupied - at ==> Inside(bs, total, k + 1, offset + c))
            && bs[k].memory[at..at + c] == Bytes(bs, total)[offset..offset + c]
  {
    BlockSlice(bs, total, k, offset, Min(bs[k].occupied - offset % BLOCK_SIZE, n));
  }

  /** The loop delivers the rest of the first list and goes on in the second. */
  lemma {:induction false} ReadOn(bs: seq<Block>, total: nat, extra: seq<Block>, k: nat, offset: nat, n: nat)
    requires ShapedBlocks(bs, total) && Safe(bs + extra) && Inside(bs, total, k, offset) && offset <= total
    ensures var to := Min(offset + n, total);
            var rest := ReadLoop(bs + extra, |bs|, total, n - (to - offset));
            ReadLoop(bs + extra, k, offset, n) == Bytes(bs, total)[offset..to] + rest
    decreases |bs| - k
  {
    hide ReadLoop, Bytes, ShapedBlocks, Inside, Safe;
    PassFacts(bs, total, extra, k, offset);
    var all, to, list := Bytes(bs, total), Min(offset + n, total), bs + extra;
    if k == |bs| {
      assert all[offset..to] == [];
    } else if n == 0 {
      ReadNothing(list, k, offset);
      ReadNothing(list, |bs|, total);
    } else {
      ReadPass(bs, total, k, offset, n);
      assert list[k] == bs[k];
      ReadLoopStep(list, k, offset, n);
      var c := Min(bs[k].occupied - offset % BLOCK_SIZE, n);
      if c == n {
        ReadNothing(list, k + 1, offset + c);
        ReadNothing(list, |bs|, total);
      } else {
        var m := n - c;
        ReadOn(bs, total, extra, k + 1, offset + c, m);
        AfterFirst(all, offset, offset + c, to, ReadLoop(list, |bs|, total, n - (to - offset)));
      }
    }
  }

  lemma PassFacts(bs: seq<Block>, total: nat, extra: seq<Block>, k: nat, offset: nat)
    requires ShapedBlocks(bs, total) && Safe(bs + extra) && Inside(bs, total, k, offset)
    ensures k <= |bs| && offset <= total <= BLOCK_SIZE * |bs| && (k == |bs| ==> offset == total)
    ensures forall b :: b in bs + extra ==> b.occupied <= BLOCK_SIZE
  {
  }

  lemma AfterFirst(all: seq<byte>, a: nat, b: nat, to: nat, tail: seq<byte>)
    requires a <= b <= to <= |all|
    ensures all[a..b] + (all[b..to] + tail) == all[a..to] + tail
  {
  }

  // ---------- reading past a stray write ----------

  /** The old bytes, and of the appended ones those from `at` on. */
  function Both(c: seq<byte>, stray: seq<byte>, at: nat): seq<byte> {
    c + Tail(stray, at)
  }

  function Tail(stray: seq<byte>, at: nat): seq<byte> {
    if at < |stray| then stray[at..] else []
  }

  /** What the file holds for a reader after the write: its old bytes, and the appended ones but for as many as the old
      last block holds. */
  function Seen(f: File, offset: nat, buf: seq<byte>, garbage: nat -> Buffer): seq<byte>
    requires SafeFile(f)
  {
    Both(Content(f), Stray(offset, buf, garbage), f.size % BLOCK_SIZE)
  }

  /** The part of a read that lies in the appended blocks. */
  lemma ReadStray(bs: seq<Block>, added: seq<Block>, total: nat, stray: seq<byte>, n: nat)
    requires ShapedBlocks(added, |stray|) && Bytes(added, |stray|) == stray && Safe(bs + added)
    requires stray != []
    ensures var rest := Tail(stray, total % BLOCK_SIZE);
            ReadLoop(bs + added, |bs|, total, n) == rest[..Min(n, |rest|)]
  {
    hide ReadLoop, Bytes;
    var at := total % BLOCK_SIZE;
    forall b | b in added ensures b in bs + added {
    }
    ReadShift(bs, added, 0, total, at, n);
    if at < |stray| {
      ReadLoopSlices(added, |stray|, 0, at, n);
    } else {
      ReadNothing(added, 0, at);
    }
  }

  /** A slice of old and appended bytes together. */
  lemma SliceOfBoth(c: seq<byte>, stray: seq<byte>, at: nat, from: nat, n: nat, first: seq<byte>, rest: seq<byte>)
    requires from <= |c| && first == c[from..Min(from + n, |c|)]
    requires var m := n - |first|; rest == Tail(stray, at)[..Min(m, |Tail(stray, at)|)]
    ensures |c| <= |Both(c, stray, at)|
    ensures first + rest == Both(c, stray, at)[from..Min(from + n, |Both(c, stray, at)|)]
  {
  }

  /** Every read that starts in the old file after a write that started in a full block. */
  lemma ReadAfterStrayWrite(f: File, offset: nat, buf: seq<byte>, garbage: nat -> Buffer, from: nat, n: nat)
    requires Shaped(f) && offset <= f.size && buf != [] && !GoodStart(f.size, offset) && from < f.size
    ensures offset <= BLOCK_SIZE * |f.blocks|
    ensures var g, seen := WriteFile(f, offset, buf, garbage), Seen(f, offset, buf, garbage);
            && SafeFile(g) && from < g.size <= BLOCK_SIZE * |g.blocks|
            && ReadFile(g, from, n) == seen[from..Min(from + n, |seen|)]
  {
    hide ReadLoop, WriteLoop, ShapedBlocks, Bytes, Shaped, GoodStart, SafeFile, Inside, WriteFile, ReadFile, Appends,
         Both, Tail;
    StartsInside(f, from);
    StartsFull(f, offset);
    var added := WriteLoopAppends(f.blocks, offset / BLOCK_SIZE, offset, buf, garbage);
    FileAfter(f, offset, buf, garbage, added, from, n);
    var c, stray, at, k := Content(f), Stray(offset, buf, garbage), f.size % BLOCK_SIZE, from / BLOCK_SIZE;
    ReadOn(f.blocks, f.size, added, k, from, n);
    var first := c[from..Min(from + n, f.size)];
    var m := n - |first|;
    ReadStray(f.blocks, added, f.size, stray, m);
    SliceOfBoth(c, stray, at, from, n, first, ReadLoop(f.blocks + added, |f.blocks|, f.size, m));
  }

  lemma StartsFull(f: File, offset: nat)
    requires Shaped(f) && offset <= f.size && !GoodStart(f.size, offset)
    ensures offset / BLOCK_SIZE <= |f.blocks| && Appends(f.blocks, offset / BLOCK_SIZE)
    ensures offset <= BLOCK_SIZE * |f.blocks|
  {
  }

  lemma StartsInside(f: File, from: nat)
    requires Shaped(f) && from < f.size
    ensures Inside(f.blocks, f.size, from / BLOCK_SIZE, from) && SafeFile(f) && ShapedBlocks(f.blocks, f.size)
    ensures f.size <= BLOCK_SIZE * |f.blocks|
  {
  }

  lemma FileAfter(f: File, offset: nat, buf: seq<byte>, garbage: nat -> Buffer, added: seq<Block>, from: nat, n: nat)
    requires Shaped(f) && offset <= f.size && buf != [] && !GoodStart(f.size, offset) && from < f.size
    requires ShapedBlocks(added, offset % BLOCK_SIZE + |buf|)
    requires WriteLoop(f.blocks, offset / BLOCK_SIZE, offset, buf, garbage) == f.blocks + added
    ensures Safe(f.blocks + added) && offset <= BLOCK_SIZE * |f.blocks|
    ensures var g := WriteFile(f, offset, buf, garbage);
            && SafeFile(g) && from < g.size <= BLOCK_SIZE * |g.blocks|
            && ReadFile(g, from, n) == ReadLoop(f.blocks + added, from / BLOCK_SIZE, from, n)
  {
    hide WriteLoop, ReadLoop;
  }

  /** After such a write a read may deliver more than the size leaves, just when the bytes appended reach past the place
      in the block where the old bytes end; when not, every read is what it was before the write. */
  lemma OverrunExact(f: File, offset: nat, buf: seq<byte>, garbage: nat -> Buffer)
    requires Shaped(f) && offset <= f.size && buf != [] && !GoodStart(f.size, offset)
    ensures offset <= BLOCK_SIZE * |f.blocks| && SafeFile(WriteFile(f, offset, buf, garbage))
    ensures var g := WriteFile(f, offset, buf, garbage);
            && g.size <= BLOCK_SIZE * |g.blocks|
            && ((exists from, n :: 0 <= from < g.size && 0 <= n && |ReadFile(g, from, n)| > g.size - from) <==>
                offset % BLOCK_SIZE + |buf| > f.size % BLOCK_SIZE)
    ensures var g := WriteFile(f, offset, buf, garbage);
            offset % BLOCK_SIZE + |buf| <= f.size % BLOCK_SIZE ==>
              g.size == f.size && forall from, n :: 0 <= from < f.size && 0 <= n ==>
                ReadFile(g, from, n) == Content(f)[from..Min(from + n, f.size)]
  {
    hide WriteFile, ReadFile, Shaped, Seen, SafeFile, GoodStart;
    SeenSize(f, offset, buf, garbage);
    var g, seen := WriteFile(f, offset, buf, garbage), Seen(f, offset, buf, garbage);
    ReadAfterStrayWrite(f, offset, buf, garbage, 0, |seen|);
    if offset % BLOCK_SIZE + |buf| > f.size % BLOCK_SIZE {
      assert |ReadFile(g, 0, |seen|)| == |seen| > g.size;
    } else {
      forall from, n | 0 <= from < f.size && 0 <= n
        ensures ReadFile(g, from, n) == Content(f)[from..Min(from + n, f.size)]
      {
        ReadAfterStrayWrite(f, offset, buf, garbage, from, n);
      }
    }
  }

  /** How much a reader may get. */
  lemma SeenSize(f: File, offset: nat, buf: seq<byte>, garbage: nat -> Buffer)
    requires Shaped(f) && offset <= f.size && buf != [] && !GoodStart(f.size, offset)
    ensures 0 < f.size && SafeFile(f) && offset <= BLOCK_SIZE * |f.blocks|
    ensures var size, seen := WriteFile(f, offset, buf, garbage).size, Seen(f, offset, buf, garbage);
            if offset % BLOCK_SIZE + |buf| > f.size % BLOCK_SIZE then |seen| > size
            else seen == Content(f) && size == f.size
  {
    hide WriteLoop;
  }
}
