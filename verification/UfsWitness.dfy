/**
 Where UserFS does less than its calls say: when a growth reads as zeros, when the size limit refuses a write that would
 fit, and runs from the empty file system that meet each of its three failures.
 */
module UfsWitness {
  import opened Common
  import opened UfsModel
  import opened UfsInvariant
  import opened UfsSpec
  import opened UfsBlocks
  import opened UfsStray
  import opened UfsRefinement

  // ---------- what a growth reads as ----------

  /** The file grown to `newSize` is itself and zeros. */
  ghost predicate ZeroExtends(f: File, newSize: nat)
    requires Shaped(f) && f.size < newSize <= MAX_FILE_SIZE
  {
    GrowShape(f, newSize);
    Content(Grow(f, newSize)) == Content(f) + Zeros(newSize - f.size)
  }

  /** A file of `size` bytes in blocks that hold only ones. */
  function Ones(size: nat): File {
    File("", seq(BlockCount(size), i requires 0 <= i < BlockCount(size) =>
                   Block(seq(BLOCK_SIZE, _ => 1), Min(BLOCK_SIZE, size - BLOCK_SIZE * i))), size, 0, false)
  }

  lemma OnesShaped(size: nat)
    requires size <= MAX_FILE_SIZE
    ensures Shaped(Ones(size))
  {
  }

  lemma FullGrows(f: File, newSize: nat)
    requires Shaped(f) && f.size < newSize <= MAX_FILE_SIZE && f.size % BLOCK_SIZE == 0
    ensures ZeroExtends(f, newSize)
  {
    GrowExtends(f, newSize);
    hide Grow, Shaped;
    assert Exposed(f.size, newSize) == 0;
    assert Bytes(f.blocks, f.size)[f.size..] == [];
  }

  lemma OnesShow(size: nat, newSize: nat)
    requires size < newSize <= MAX_FILE_SIZE && size % BLOCK_SIZE != 0
    ensures Shaped(Ones(size)) && !ZeroExtends(Ones(size), newSize)
  {
    OnesShaped(size);
    var f := Ones(size);
    GrowExtends(f, newSize);
    hide Grow, Shaped;
    var edge := Exposed(size, newSize);
    assert edge > 0;
    assert Content(Grow(f, newSize))[size] == Bytes(f.blocks, size + edge)[size] == 1;
    assert (Content(f) + Zeros(newSize - size))[size] == 0;
  }

  /** A growth reads as zeros for every file of that size just when the size is a multiple of the block size. */
  lemma GrowthReadsZeros(size: nat, newSize: nat)
    requires size < newSize <= MAX_FILE_SIZE
    ensures (forall f: File | Shaped(f) && f.size == size :: ZeroExtends(f, newSize)) <==> size % BLOCK_SIZE == 0
  {
    hide Shaped, ZeroExtends, Ones;
    if size % BLOCK_SIZE == 0 {
      forall f: File | Shaped(f) && f.size == size ensures ZeroExtends(f, newSize) {
        FullGrows(f, newSize);
      }
    } else {
      OnesShow(size, newSize);
      OnesSize(size);
    }
  }

  lemma OnesSize(size: nat)
    ensures Ones(size).size == size
  {
  }

  // ---------- what the size limit refuses ----------

  /** A write the limit refuses although the file it would leave is within the limit: just when it is an overwrite
      near the end of a file that is almost full. */
  lemma RefusedThoughItFits(s: Fs, fd: int, buf: seq<byte>, garbage: nat -> Buffer)
    requires Inv(s) && Lookup(s, fd).Some? && CanWrite(Lookup(s, fd).value.flags) && buf != []
    ensures var f, offset := FileOf(s, fd - 1), Lookup(s, fd).value.offset;
            var refused := Write(s, fd, buf, garbage) == Fail(s, NO_MEM);
            && (refused <==> f.size + |buf| > MAX_FILE_SIZE)
            && (refused && Max(f.size, offset + |buf|) <= MAX_FILE_SIZE <==>
                f.size <= MAX_FILE_SIZE < f.size + |buf| && offset + |buf| <= MAX_FILE_SIZE)
  {
    hide WriteAt;
  }

  // ---------- one file, one descriptor ----------

  /** Only `f`, open at `offset` as descriptor 1. */
  function One(f: File, flags: set<OpenFlag>, offset: nat): Fs {
    Fs(map[0 := f], [0], [Some(Desc(0, flags, offset))] + Empties(9), 1, NO_ERR, 1)
  }

  /** Only `f`, and no descriptor. */
  function Closed(f: File): Fs {
    Fs(map[0 := f.(refs := 0)], [0], Empties(10), 0, NO_ERR, 1)
  }

  const FIRST := File("a", [], 0, 1, false)
  const BOTH := {READ_WRITE}

  lemma OpensFirst()
    ensures Inv(EMPTY_FS)
    ensures Apply(EMPTY_FS, CallOpen("a", {CREATE})) == Outcome(One(FIRST, {CREATE, READ_WRITE}, 0), 1, [])
  {
    StartKeepsInv();
    hide RefCount, UsedCount, Listed, UniqueNames, Counted;
    var s := Fs(map[0 := FIRST.(refs := 0)], [0], Empties(10), 0, NO_ERR, 1);
    assert EnsureTable(CreateFile(EMPTY_FS, "a")) == s;
    assert Find(EMPTY_FS, "a", 0) == None;
    assert Normalize({CREATE}) == {CREATE, READ_WRITE};
    assert Empties(10)[0 := Some(Desc(0, {CREATE, READ_WRITE}, 0))]
         == [Some(Desc(0, {CREATE, READ_WRITE}, 0))] + Empties(9);
    assert FirstFree(Empties(10), 0) == 0;
  }

  lemma Writes(f: File, flags: set<OpenFlag>, offset: nat, buf: seq<byte>, garbage: nat -> Buffer)
    requires Inv(One(f, flags, offset)) && CanWrite(flags) && buf != [] && f.size + |buf| <= MAX_FILE_SIZE
    ensures offset <= BLOCK_SIZE * |f.blocks|
    ensures Apply(One(f, flags, offset), CallWrite(1, buf, garbage))
         == Outcome(One(WriteFile(f, offset, buf, garbage), flags, offset + |buf|), |buf|, [])
  {
    hide RefCount, UsedCount, Listed, UniqueNames, Counted, WriteLoop;
    var s := One(f, flags, offset);
    assert s.table[0] == Some(Desc(0, flags, offset));
    assert s.table[0 := Some(Desc(0, flags, offset + |buf|))] == [Some(Desc(0, flags, offset + |buf|))] + Empties(9);
  }

  lemma Reads(f: File, flags: set<OpenFlag>, offset: nat, n: nat)
    requires Inv(One(f, flags, offset)) && CanRead(flags)
    ensures SafeFile(f) && offset <= BLOCK_SIZE * |f.blocks|
    ensures var data := ReadFile(f, offset, n);
            Apply(One(f, flags, offset), CallRead(1, n)) == Outcome(One(f, flags, offset + |data|), |data|, data)
  {
    hide RefCount, UsedCount, Listed, UniqueNames, Counted, ReadLoop;
    var s := One(f, flags, offset);
    assert s.table[0] == Some(Desc(0, flags, offset));
    var to := offset + |ReadFile(f, offset, n)|;
    assert s.table[0 := Some(Desc(0, flags, to))] == [Some(Desc(0, flags, to))] + Empties(9);
  }

  lemma Shrinks(f: File, flags: set<OpenFlag>, offset: nat, newSize: nat)
    requires Inv(One(f, flags, offset)) && newSize < f.size
    ensures SafeFile(f)
    ensures Apply(One(f, flags, offset), CallResize(1, newSize))
         == Outcome(One(Shrink(f, newSize), flags, Min(offset, newSize)), 0, [])
  {
    hide RefCount, UsedCount, Listed, UniqueNames, Counted, Shrink;
    var s := One(f, flags, offset);
    assert s.table[0] == Some(Desc(0, flags, offset));
    assert Clamp(s.table, 0, newSize) == [Some(Desc(0, flags, Min(offset, newSize)))] + Empties(9);
  }

  lemma Grows(f: File, flags: set<OpenFlag>, offset: nat, newSize: nat)
    requires Inv(One(f, flags, offset)) && f.size < newSize <= MAX_FILE_SIZE
    ensures Apply(One(f, flags, offset), CallResize(1, newSize)) == Outcome(One(Grow(f, newSize), flags, offset), 0, [])
  {
    hide RefCount, UsedCount, Listed, UniqueNames, Counted, Grow;
    assert One(f, flags, offset).table[0] == Some(Desc(0, flags, offset));
  }

  lemma Closes(f: File, flags: set<OpenFlag>, offset: nat)
    requires Inv(One(f, flags, offset)) && f.refs == 1 && !f.isGhost
    ensures Apply(One(f, flags, offset), CallClose(1)) == Outcome(Closed(f), 0, [])
  {
    hide RefCount, UsedCount, Listed, UniqueNames, Counted;
    var s := One(f, flags, offset);
    assert s.table[0] == Some(Desc(0, flags, offset));
    assert s.table[0 := None] == Empties(10);
  }

  lemma Reopens(f: File)
    requires Inv(Closed(f)) && f.refs == 1 && !f.isGhost && f.name == "a"
    ensures Apply(Closed(f), CallOpen("a", {})) == Outcome(One(f, BOTH, 0), 1, [])
  {
    hide RefCount, UsedCount, Listed, UniqueNames, Counted;
    var s := Closed(f);
    assert Normalize({}) == BOTH;
    assert Empties(10)[0 := Some(Desc(0, BOTH, 0))] == [Some(Desc(0, BOTH, 0))] + Empties(9);
    assert FirstFree(Empties(10), 0) == 0;
    assert s.order[0] == 0 && Find(s, "a", 0) == Some(0);
  }

  /** One more call before a run. */
  lemma Before(s: Fs, c: Call, o: Outcome, rest: seq<Call>)
    requires Inv(s) && Apply(s, c) == o
    ensures Inv(o.fs) && Run(s, [c] + rest) == Run(o.fs, rest)
    ensures Answers(s, [c] + rest) == [Answer(o)] + Answers(o.fs, rest)
    ensures RunInDomain(s, [c] + rest) <==> InDomain(s, c) && RunInDomain(o.fs, rest)
  {
    hide Inv, Apply, InDomain;
    InvKept(s, c);
    assert ([c] + rest)[1..] == rest;
  }

  lemma Nothing(s: Fs)
    requires Inv(s)
    ensures Run(s, []) == s && Answers(s, []) == [] && RunInDomain(s, [])
  {
  }

  lemma FirstInDomain(flags: set<OpenFlag>, buf: seq<byte>, garbage: nat -> Buffer)
    ensures InDomain(One(FIRST, flags, 0), CallWrite(1, buf, garbage))
  {
    assert One(FIRST, flags, 0).table[0] == Some(Desc(0, flags, 0));
  }

  // ---------- a growth that shows old bytes ----------

  const FLAGS := {CREATE, READ_WRITE}

  lemma Written(buf: seq<byte>, garbage: nat -> Buffer)
    requires buf != [] && |buf| <= MAX_FILE_SIZE
    ensures var f := WriteFile(FIRST, 0, buf, garbage);
            Shaped(f) && Content(f) == buf && f == FIRST.(blocks := f.blocks, size := |buf|)
  {
    hide WriteLoop;
    GoodWrite(FIRST, 0, buf, garbage);
    assert Splice(Content(FIRST), 0, buf) == buf;
  }

  /** The cut byte of the file and its state after each of the calls below. */
  lemma StaleFile(garbage: nat -> Buffer) returns (f: File, g: File, h: File)
    ensures f == WriteFile(FIRST, 0, [0, 7], garbage) && f.size == 2
    ensures SafeFile(f) && g == Shrink(f, 1) && g.size == 1 && h == Grow(g, 2)
    ensures SafeFile(h) && ReadFile(h, 1, 1) == [7]
  {
    Written([0, 7], garbage);
    f := WriteFile(FIRST, 0, [0, 7], garbage);
    ShrinkIsPrefix(f, 1);
    g := Shrink(f, 1);
    StaleBytesReturn(f, 1, 2);
    h := Grow(g, 2);
    ReadFileSlices(h, 1, 1);
  }

  /** Write two bytes, cut the second, grow again: the read shows it where a zero is due. */
  lemma GrowthShowsOldByte(garbage: nat -> Buffer)
    ensures Inv(EMPTY_FS)
    ensures var calls := [CallOpen("a", {CREATE}), CallWrite(1, [0, 7], garbage), CallResize(1, 1), CallResize(1, 2),
                          CallRead(1, 1)];
            && RunInDomain(EMPTY_FS, calls)
            && Answers(EMPTY_FS, calls) == [Response(1, []), Response(2, []), Response(0, []), Response(0, []),
                                            Response(1, [7])]
  {
    hide Inv, Apply, Answers, Run, RunInDomain, WriteFile, Shrink, Grow, ReadFile, SafeFile;
    var f, g, h := StaleFile(garbage);
    OpensFirst();
    var r1, r2, r3 := [CallRead(1, 1)], [CallResize(1, 2), CallRead(1, 1)],
        [CallResize(1, 1), CallResize(1, 2), CallRead(1, 1)];
    var r4 := [CallWrite(1, [0, 7], garbage), CallResize(1, 1), CallResize(1, 2), CallRead(1, 1)];
    assert r4 == [CallWrite(1, [0, 7], garbage)] + r3 && r3 == [CallResize(1, 1)] + r2 && r2 == [CallResize(1, 2)] + r1;
    assert [CallOpen("a", {CREATE})] + r4
        == [CallOpen("a", {CREATE}), CallWrite(1, [0, 7], garbage), CallResize(1, 1), CallResize(1, 2), CallRead(1, 1)];
    assert r1 == r1 + [];
    FirstInDomain(FLAGS, [0, 7], garbage);
    Before(EMPTY_FS, CallOpen("a", {CREATE}), Outcome(One(FIRST, FLAGS, 0), 1, []), r4);
    Writes(FIRST, FLAGS, 0, [0, 7], garbage);
    Before(One(FIRST, FLAGS, 0), CallWrite(1, [0, 7], garbage), Outcome(One(f, FLAGS, 2), 2, []), r3);
    Shrinks(f, FLAGS, 2, 1);
    Before(One(f, FLAGS, 2), CallResize(1, 1), Outcome(One(g, FLAGS, 1), 0, []), r2);
    Grows(g, FLAGS, 1, 2);
    Before(One(g, FLAGS, 1), CallResize(1, 2), Outcome(One(h, FLAGS, 1), 0, []), r1);
    Reads(h, FLAGS, 1, 1);
    Before(One(h, FLAGS, 1), CallRead(1, 1), Outcome(One(h, FLAGS, 2), 1, [7]), []);
    Nothing(One(h, FLAGS, 2));
  }

  // ---------- a write into a full block ----------

  /** The byte goes into a second block, and a read sees it past the end. */
  lemma OverrunFile(z: seq<byte>, b: byte, garbage: nat -> Buffer) returns (f: File, g: File)
    requires |z| == BLOCK_SIZE
    ensures f == WriteFile(FIRST, 0, z, garbage) && f.size == BLOCK_SIZE && f.refs == 1 && f.name == "a" && !f.isGhost
    ensures g == WriteFile(f, 0, [b], garbage) && g.size == BLOCK_SIZE && g.refs == 1 && g.name == "a" && !g.isGhost
    ensures Shaped(f) && !Shaped(g) && SafeFile(g) && ReadFile(g, 0, BLOCK_SIZE + 1) == z + [b]
  {
    Written(z, garbage);
    f := WriteFile(FIRST, 0, z, garbage);
    StrayWrite(f, 0, [b], garbage);
    g := WriteFile(f, 0, [b], garbage);
    hide WriteLoop, ReadFile;
    ReadAfterStrayWrite(f, 0, [b], garbage, 0, BLOCK_SIZE + 1);
    assert Seen(f, 0, [b], garbage) == z + [b];
  }

  /** Fill one block, open the file again and write one byte: the call answers 1, the file leaves the shape with its
      size still 512 and its first byte as it was, and a read of 513 bytes delivers 513, the written byte last. */
  lemma OverwriteGoesPastEnd(z: seq<byte>, b: byte, garbage: nat -> Buffer)
    requires |z| == BLOCK_SIZE
    ensures Inv(EMPTY_FS)
    ensures var open := [CallOpen("a", {CREATE}), CallWrite(1, z, garbage), CallClose(1), CallOpen("a", {})];
            var lost := [CallWrite(1, [b], garbage)];
            var back := [CallClose(1), CallOpen("a", {}), CallRead(1, BLOCK_SIZE + 1)];
            && RunInDomain(EMPTY_FS, open)
            && Inv(Run(EMPTY_FS, open)) && ShapedFs(Run(EMPTY_FS, open))
            && Inv(Run(EMPTY_FS, open + lost)) && !ShapedFs(Run(EMPTY_FS, open + lost))
            && FileSize(Run(EMPTY_FS, open + lost), 0) == BLOCK_SIZE
            && Answers(EMPTY_FS, open + lost + back)
            == [Response(1, []), Response(512, []), Response(0, []), Response(1, []), Response(1, []), Response(0, []),
                Response(1, []), Response(513, z + [b])]
  {
    hide Inv, Apply, Answers, Run, RunInDomain, WriteFile, ReadFile, SafeFile, Shaped;
    var f, g := OverrunFile(z, b, garbage);
    var open := [CallOpen("a", {CREATE}), CallWrite(1, z, garbage), CallClose(1), CallOpen("a", {})];
    var lost := [CallWrite(1, [b], garbage)];
    var back := [CallClose(1), CallOpen("a", {}), CallRead(1, BLOCK_SIZE + 1)];
    OpenPart(z, garbage, f, []);
    OpenPart(z, garbage, f, lost);
    OpenPart(z, garbage, f, lost + back);
    var s, t := One(f, BOTH, 0), One(g, BOTH, 1);
    Writes(f, BOTH, 0, [b], garbage);
    Nothing(s);
    Before(s, lost[0], Outcome(t, 1, []), []);
    Nothing(t);
    Before(s, lost[0], Outcome(t, 1, []), back);
    BackPart(g, z + [b]);
    assert open + [] == open && lost == [lost[0]] + [] && (open + lost) + back == open + (lost + back);
    AreShaped(f, g);
  }

  lemma AreShaped(f: File, g: File)
    requires Inv(One(f, BOTH, 0)) && Inv(One(g, BOTH, 1)) && Shaped(f) && !Shaped(g)
    ensures ShapedFs(One(f, BOTH, 0)) && !ShapedFs(One(g, BOTH, 1))
  {
    hide RefCount, UsedCount, Listed, UniqueNames, Counted, Shaped;
    var t := One(g, BOTH, 1);
    assert 0 in t.files && t.files[0] == g;
  }

  lemma OpenPart(z: seq<byte>, garbage: nat -> Buffer, f: File, rest: seq<Call>)
    requires |z| == BLOCK_SIZE && f == WriteFile(FIRST, 0, z, garbage) && f.refs == 1 && f.name == "a" && !f.isGhost
    ensures Inv(EMPTY_FS) && Inv(One(f, BOTH, 0))
    ensures var calls := [CallOpen("a", {CREATE}), CallWrite(1, z, garbage), CallClose(1), CallOpen("a", {})] + rest;
            && Run(EMPTY_FS, calls) == Run(One(f, BOTH, 0), rest)
            && Answers(EMPTY_FS, calls)
            == [Response(1, []), Response(512, []), Response(0, []), Response(1, [])] + Answers(One(f, BOTH, 0), rest)
            && (RunInDomain(EMPTY_FS, calls) <==> RunInDomain(One(f, BOTH, 0), rest))
  {
    hide Inv, Apply, Answers, Run, RunInDomain, WriteFile;
    var c1, c2, c3, c4 := CallOpen("a", {CREATE}), CallWrite(1, z, garbage), CallClose(1), CallOpen("a", {});
    OpensFirst();
    Before(EMPTY_FS, c1, Outcome(One(FIRST, FLAGS, 0), 1, []), [c2] + ([c3] + ([c4] + rest)));
    Writes(FIRST, FLAGS, 0, z, garbage);
    Before(One(FIRST, FLAGS, 0), c2, Outcome(One(f, FLAGS, 512), 512, []), [c3] + ([c4] + rest));
    Closes(f, FLAGS, 512);
    Before(One(f, FLAGS, 512), c3, Outcome(Closed(f), 0, []), [c4] + rest);
    Reopens(f);
    Before(Closed(f), c4, Outcome(One(f, BOTH, 0), 1, []), rest);
    FirstInDomain(FLAGS, z, garbage);
    assert [c1, c2, c3, c4] + rest == [c1] + ([c2] + ([c3] + ([c4] + rest)));
  }

  lemma BackPart(g: File, data: seq<byte>)
    requires Inv(One(g, BOTH, 1)) && g.refs == 1 && g.name == "a" && !g.isGhost
    requires SafeFile(g) && ReadFile(g, 0, BLOCK_SIZE + 1) == data
    ensures Answers(One(g, BOTH, 1), [CallClose(1), CallOpen("a", {}), CallRead(1, BLOCK_SIZE + 1)])
         == [Response(0, []), Response(1, []), Response(|data|, data)]
  {
    hide Inv, Apply, Answers, Run, RunInDomain, ReadFile, SafeFile;
    var c1, c2, c3 := CallClose(1), CallOpen("a", {}), CallRead(1, BLOCK_SIZE + 1);
    Closes(g, BOTH, 1);
    Before(One(g, BOTH, 1), c1, Outcome(Closed(g), 0, []), [c2, c3]);
    Reopens(g);
    Before(Closed(g), c2, Outcome(One(g, BOTH, 0), 1, []), [c3]);
    Reads(g, BOTH, 0, BLOCK_SIZE + 1);
    Before(One(g, BOTH, 0), c3, Outcome(One(g, BOTH, |data|), |data|, data), []);
    Nothing(One(g, BOTH, |data|));
    assert [c1, c2, c3] == [c1] + [c2, c3] && [c2, c3] == [c2] + [c3] && [c3] == [c3] + [];
  }

  // ---------- an overwrite the size limit refuses ----------

  lemma AlmostFull() returns (f: File)
    ensures f == Grow(FIRST, MAX_FILE_SIZE - 1) && f.size == MAX_FILE_SIZE - 1
    ensures SafeFile(f) && ReadFile(f, 0, MAX_FILE_SIZE - 512) == Zeros(MAX_FILE_SIZE - 512)
  {
    hide Grow, ReadFile;
    var n := MAX_FILE_SIZE - 512;
    assert Shaped(FIRST);
    GrowShape(FIRST, MAX_FILE_SIZE - 1);
    FullGrows(FIRST, MAX_FILE_SIZE - 1);
    f := Grow(FIRST, MAX_FILE_SIZE - 1);
    ReadFileSlices(f, 0, n);
    assert Content(FIRST) == [];
    assert Zeros(MAX_FILE_SIZE - 1)[0..n] == Zeros(n);
  }

  /** In a file one byte below the limit, two bytes at the start of the last block are refused. */
  lemma OverwriteRefused(a: byte, b: byte, garbage: nat -> Buffer)
    ensures Inv(EMPTY_FS)
    ensures var n := MAX_FILE_SIZE - 512;
            var calls := [CallOpen("a", {CREATE}), CallResize(1, MAX_FILE_SIZE - 1), CallRead(1, n),
                          CallWrite(1, [a, b], garbage)];
            && RunInDomain(EMPTY_FS, calls)
            && Answers(EMPTY_FS, calls) == [Response(1, []), Response(0, []), Response(n, Zeros(n)), Response(-1, [])]
            && Run(EMPTY_FS, calls).error == NO_MEM
            && Lookup(Run(EMPTY_FS, calls), 1) == Some(Desc(0, FLAGS, n))
            && n + |[a, b]| < FileSize(Run(EMPTY_FS, calls), 0)
  {
    hide Inv, Apply, Answers, Run, RunInDomain, Grow, ReadFile, SafeFile;
    var n := MAX_FILE_SIZE - 512;
    var c1, c2, c3, c4 := CallOpen("a", {CREATE}), CallResize(1, MAX_FILE_SIZE - 1), CallRead(1, n),
        CallWrite(1, [a, b], garbage);
    var f := AlmostFull();
    assert [c1, c2, c3, c4] == [c1] + [c2, c3, c4] && [c2, c3, c4] == [c2] + [c3, c4] && [c3, c4] == [c3] + [c4];
    assert [c4] == [c4] + [];
    OpensFirst();
    Before(EMPTY_FS, c1, Outcome(One(FIRST, FLAGS, 0), 1, []), [c2, c3, c4]);
    Grows(FIRST, FLAGS, 0, MAX_FILE_SIZE - 1);
    Before(One(FIRST, FLAGS, 0), c2, Outcome(One(f, FLAGS, 0), 0, []), [c3, c4]);
    Reads(f, FLAGS, 0, n);
    Before(One(f, FLAGS, 0), c3, Outcome(One(f, FLAGS, n), n, Zeros(n)), [c4]);
    var s := One(f, FLAGS, n);
    Refuses(f, FLAGS, n, [a, b], garbage);
    Before(s, c4, Fail(s, NO_MEM), []);
    Nothing(s.(error := NO_MEM));
  }

  function FileSize(s: Fs, ino: nat): int {
    if ino in s.files then s.files[ino].size else -1
  }

  lemma Refuses(f: File, flags: set<OpenFlag>, offset: nat, buf: seq<byte>, garbage: nat -> Buffer)
    requires Inv(One(f, flags, offset)) && CanWrite(flags) && buf != [] && f.size + |buf| > MAX_FILE_SIZE
    ensures var s := One(f, flags, offset);
            Apply(s, CallWrite(1, buf, garbage)) == Fail(s, NO_MEM) && InDomain(s, CallWrite(1, buf, garbage))
  {
    hide RefCount, UsedCount, Listed, UniqueNames, Counted, WriteLoop;
    assert One(f, flags, offset).table[0] == Some(Desc(0, flags, offset));
  }
}
