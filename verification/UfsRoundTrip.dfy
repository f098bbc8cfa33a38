/** What is appended through one descriptor is what another one reads, however both are cut into calls. */
module UfsRoundTrip {
  import opened Common
  import opened UfsModel
  import opened UfsInvariant
  import opened UfsSpec
  import opened UfsBlocks
  import opened UfsRefinement

  function Concat(bufs: seq<seq<byte>>): seq<byte> {
    if bufs == [] then [] else bufs[0] + Concat(bufs[1..])
  }

  function Sum(sizes: seq<nat>): nat {
    if sizes == [] then 0 else sizes[0] + Sum(sizes[1..])
  }

  /** The state after writing the buffers one by one. */
  function WriteAll(s: Fs, fd: int, bufs: seq<seq<byte>>, garbage: nat -> Buffer): Fs
    requires Inv(s)
    decreases |bufs|
  {
    if bufs == [] then s
    else
      WriteKeepsInv(s, fd, bufs[0], garbage);
      WriteAll(Write(s, fd, bufs[0], garbage).fs, fd, bufs[1..], garbage)
  }

  /** The bytes delivered by reads of these sizes, one after the other. */
  function ReadAll(s: Fs, fd: int, sizes: seq<nat>): seq<byte>
    requires Inv(s)
    decreases |sizes|
  {
    if sizes == [] then []
    else
      ReadKeepsInv(s, fd, sizes[0]);
      Read(s, fd, sizes[0]).data + ReadAll(Read(s, fd, sizes[0]).fs, fd, sizes[1..])
  }

  ghost predicate OpenOn(a: Spec, fd: int, ino: nat, offset: nat) {
    fd in a.fds && a.fds[fd].inode == ino && a.fds[fd].offset == offset && ino in a.data && offset <= |a.data[ino]|
  }

  ghost predicate AtEnd(a: Spec, fd: int, ino: nat) {
    ino in a.data && OpenOn(a, fd, ino, |a.data[ino]|)
  }

  function Appended(a: Spec, fd: int, ino: nat, bytes: seq<byte>): Spec
    requires fd in a.fds && ino in a.data
  {
    a.(data := a.data[ino := a.data[ino] + bytes], fds := a.fds[fd := a.fds[fd].(offset := a.fds[fd].offset + |bytes|)])
  }

  lemma EndIsGood(s: Fs, fd: int, ino: nat, buf: seq<byte>, garbage: nat -> Buffer)
    requires Inv(s) && ShapedFs(s) && AtEnd(Abs(s), fd, ino)
    ensures InDomain(s, CallWrite(fd, buf, garbage))
  {
    hide Inv, ShapedFs, Names, Content;
    DescFacts(s, fd);
  }

  lemma AppendOnce(s: Fs, fd: int, ino: nat, buf: seq<byte>, garbage: nat -> Buffer)
    requires Inv(s) && ShapedFs(s) && AtEnd(Abs(s), fd, ino)
    requires Abs(s).fds[fd].canWrite && |Abs(s).data[ino]| + |buf| <= MAX_FILE_SIZE
    ensures var t := Write(s, fd, buf, garbage).fs;
            && Inv(t) && ShapedFs(t)
            && Abs(t) == Appended(Abs(s), fd, ino, buf)
  {
    hide Inv, ShapedFs, Names, Content, Data, Fds, Write, InDomain;
    EndIsGood(s, fd, ino, buf, garbage);
    WriteRefines(s, fd, buf, garbage);
    var c := Abs(s).data[ino];
    assert Splice(c, |c|, buf) == c + buf;
    if buf == [] {
      assert Appended(Abs(s), fd, ino, buf) == Abs(s) by {
        assert c + buf == c;
      }
    }
  }

  /** Writes at the end of a file add up, and nothing else changes. */
  lemma {:induction false} AppendsAddUp(s: Fs, fd: int, ino: nat, bufs: seq<seq<byte>>, garbage: nat -> Buffer)
    requires Inv(s) && ShapedFs(s) && AtEnd(Abs(s), fd, ino)
    requires Abs(s).fds[fd].canWrite && |Abs(s).data[ino]| + |Concat(bufs)| <= MAX_FILE_SIZE
    ensures var t := WriteAll(s, fd, bufs, garbage);
            && Inv(t) && ShapedFs(t)
            && Abs(t) == Appended(Abs(s), fd, ino, Concat(bufs))
    decreases |bufs|
  {
    hide Inv, ShapedFs, Names, Content, Data, Fds, Write;
    var a := Abs(s);
    if bufs == [] {
      assert a.data[ino] + [] == a.data[ino];
      assert Appended(a, fd, ino, []) == a;
    } else {
      AppendOnce(s, fd, ino, bufs[0], garbage);
      var s1 := Write(s, fd, bufs[0], garbage).fs;
      AppendsAddUp(s1, fd, ino, bufs[1..], garbage);
      assert (a.data[ino] + bufs[0]) + Concat(bufs[1..]) == a.data[ino] + Concat(bufs);
      assert Appended(Appended(a, fd, ino, bufs[0]), fd, ino, Concat(bufs[1..])) == Appended(a, fd, ino, Concat(bufs));
    }
  }

  /** Reads in a row deliver one slice. */
  lemma {:induction false} ReadsAddUp(s: Fs, fd: int, ino: nat, offset: nat, sizes: seq<nat>)
    requires Inv(s) && ShapedFs(s) && OpenOn(Abs(s), fd, ino, offset) && Abs(s).fds[fd].canRead
    ensures ReadAll(s, fd, sizes) == Abs(s).data[ino][offset..Min(offset + Sum(sizes), |Abs(s).data[ino]|)]
    decreases |sizes|
  {
    hide Inv, ShapedFs, Names, Content, Data, Fds, Read;
    if sizes != [] {
      ReadRefines(s, fd, sizes[0]);
      var o := Read(s, fd, sizes[0]);
      var c, mid, n := Abs(s).data[ino], offset + |o.data|, |o.data| + Sum(sizes[1..]);
      assert Abs(o.fs).data == Abs(s).data;
      ReadsAddUp(o.fs, fd, ino, mid, sizes[1..]);
      var rest := ReadAll(o.fs, fd, sizes[1..]);
      assert rest == c[mid..Min(offset + n, |c|)];
      SlicesJoin(c, offset, mid, n, o.data, rest);
      assert Min(offset + n, |c|) == Min(offset + Sum(sizes), |c|);
    }
  }

  /**
   Append any buffers through `fd` and read through `other`, open at the old end of the same file, in pieces
   of any sizes: the pieces are the appended bytes in order, all of them once the sizes add up to enough.
   */
  lemma AppendedBytesComeBack(s: Fs, fd: int, other: int, ino: nat, bufs: seq<seq<byte>>, sizes: seq<nat>,
      garbage: nat -> Buffer)
    requires Inv(s) && ShapedFs(s) && fd != other
    requires AtEnd(Abs(s), fd, ino) && Abs(s).fds[fd].canWrite
    requires AtEnd(Abs(s), other, ino) && Abs(s).fds[other].canRead
    requires |Abs(s).data[ino]| + |Concat(bufs)| <= MAX_FILE_SIZE
    ensures Inv(WriteAll(s, fd, bufs, garbage))
    ensures ReadAll(WriteAll(s, fd, bufs, garbage), other, sizes) == Concat(bufs)[..Min(Sum(sizes), |Concat(bufs)|)]
  {
    hide Inv, ShapedFs, Names, Content, Data, Fds, WriteAll, ReadAll, Concat, Sum;
    AppendsAddUp(s, fd, ino, bufs, garbage);
    var t := WriteAll(s, fd, bufs, garbage);
    var size := |Abs(s).data[ino]|;
    ReadsAddUp(t, other, ino, size, sizes);
    assert Abs(t).data[ino] == Abs(s).data[ino] + Concat(bufs);
  }
}
