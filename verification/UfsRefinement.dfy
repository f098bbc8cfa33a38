/**
 UserFS refines its specification: as long as every write that stores something starts at the end of its
 file or inside the partly filled last block, each call answers what the specification allows and leaves
 a state standing for one the specification allows, over whole runs.
 */
module UfsRefinement {
  import opened Common
  import opened UfsModel
  import opened UfsInvariant
  import opened UfsSpec
  import opened UfsBlocks

  /** Every file shaped, every descriptor within its file. */
  ghost predicate ShapedFs(s: Fs)
    requires Inv(s)
  {
    && (forall ino :: ino in s.files ==> Shaped(s.files[ino]))
    && (forall i :: 0 <= i < |s.table| && s.table[i].Some? ==>
         s.table[i].value.offset <= s.files[s.table[i].value.inode].size)
  }

  predicate Visible(s: Fs, ino: nat, name: string) {
    ino in s.files && !s.files[ino].isGhost && s.files[ino].name == name
  }

  ghost function Names(s: Fs): map<string, nat>
    requires Inv(s)
  {
    var names := set ino | ino in s.files && !s.files[ino].isGhost :: s.files[ino].name;
    map name | name in names && Find(s, name, 0).Some? :: Find(s, name, 0).value
  }

  ghost function Data(s: Fs): map<nat, seq<byte>>
    requires Inv(s)
  {
    map ino | ino in s.files :: Content(s.files[ino])
  }

  function OpenOf(d: Desc): OpenFile {
    OpenFile(d.inode, CanRead(d.flags), CanWrite(d.flags), d.offset)
  }

  predicate IsOpen(table: seq<Option<Desc>>, fd: int) {
    1 <= fd <= |table| && table[fd - 1].Some?
  }

  function Fds(table: seq<Option<Desc>>): map<int, OpenFile> {
    map fd: int | 1 <= fd <= |table| && IsOpen(table, fd) :: OpenOf(table[fd - 1].value)
  }

  /** The specification state a concrete state stands for. */
  ghost function Abs(s: Fs): Spec
    requires Inv(s)
  {
    Spec(Names(s), Data(s), Fds(s.table), s.error)
  }

  function Answer(o: Outcome): Response {
    Response(o.ret, o.data)
  }

  /** A write call that stores something. */
  predicate Stores(s: Fs, fd: int, buf: seq<byte>) {
    var found := Lookup(s, fd);
    found.Some? && CanWrite(found.value.flags) && buf != [] && found.value.inode in s.files
      && s.files[found.value.inode].size + |buf| <= MAX_FILE_SIZE
  }

  /** A write that stores something starts at the end or inside the partly filled last block. */
  predicate InDomain(s: Fs, c: Call) {
    c.CallWrite? && Stores(s, c.fd, c.buf) ==>
      GoodStart(s.files[Lookup(s, c.fd).value.inode].size, Lookup(s, c.fd).value.offset)
  }

  // ---------- what the list search finds ----------

  lemma FindVisible(s: Fs, name: string)
    requires Inv(s)
    ensures Find(s, name, 0).Some? <==> exists ino: nat :: Visible(s, ino, name)
    ensures forall ino: nat :: Visible(s, ino, name) ==> Find(s, name, 0) == Some(ino)
    ensures Find(s, name, 0).Some? ==> Visible(s, Find(s, name, 0).value, name)
  {
    FindSound(s, name, 0);
    if Find(s, name, 0).Some? {
      assert Visible(s, Find(s, name, 0).value, name);
    }
    forall ino: nat | Visible(s, ino, name) ensures Find(s, name, 0) == Some(ino) {
      var j :| 0 <= j < |s.order| && s.order[j] == ino;
    }
  }

  /** Names lead exactly to visible files. */
  lemma NamesAre(s: Fs)
    requires Inv(s)
    ensures forall name :: name in Names(s) ==> Visible(s, Names(s)[name], name)
    ensures forall name, ino: nat :: Visible(s, ino, name) ==> name in Names(s) && Names(s)[name] == ino
  {
    forall name ensures name in Names(s) ==> Visible(s, Names(s)[name], name) {
      FindVisible(s, name);
    }
    forall name, ino: nat | Visible(s, ino, name) ensures name in Names(s) && Names(s)[name] == ino {
      FindVisible(s, name);
    }
  }

  lemma SameNames(s: Fs, t: Fs)
    requires Inv(s) && Inv(t)
    requires forall ino: nat, name :: Visible(s, ino, name) <==> Visible(t, ino, name)
    ensures Names(s) == Names(t)
  {
    hide Inv, Names, Visible, Find;
    NamesAre(s);
    NamesAre(t);
    var m, n := Names(s), Names(t);
    forall name | name in m ensures name in n && n[name] == m[name] {
      assert Visible(t, m[name], name);
    }
    forall name | name in n ensures name in m {
      assert Visible(s, n[name], name);
    }
  }

  /** Some descriptor is open on a file that is counted. */
  lemma CountedIsOpen(s: Fs, ino: nat)
    requires Inv(s) && ino in s.files && s.files[ino].refs > 0
    ensures exists fd :: fd in Fds(s.table) && Fds(s.table)[fd].inode == ino
  {
    AbsentCount(s.table, ino);
    hide RefCount, UsedCount, Listed, UniqueNames, SafeFile;
    var i :| 0 <= i < |s.table| && Hit(s.table[i], ino) != 0;
    assert IsOpen(s.table, i + 1) && Fds(s.table)[i + 1].inode == ino;
  }

  lemma NamedOrOpen(s: Fs, ino: nat)
    requires Inv(s) && ino in s.files
    ensures ino in Names(s).Values || exists fd :: fd in Fds(s.table) && Fds(s.table)[fd].inode == ino
  {
    NamesAre(s);
    hide RefCount, UsedCount, Listed, UniqueNames, Tabled, SafeFile, Names, Fds;
    if s.files[ino].isGhost {
      CountedIsOpen(s, ino);
    } else {
      assert Visible(s, ino, s.files[ino].name);
      assert Names(s)[s.files[ino].name] == ino;
    }
  }

  /** No file outlives its name and its descriptors. */
  lemma NothingToCollect(s: Fs)
    requires Inv(s)
    ensures Collect(Abs(s)) == Abs(s)
  {
    hide Inv, Names, Fds;
    var a := Abs(s);
    forall ino | ino in a.data ensures ino in a.names.Values || exists fd :: fd in a.fds && a.fds[fd].inode == ino {
      NamedOrOpen(s, ino);
    }
    assert Collect(a).data == a.data;
  }

  // ---------- how the specification state follows a change ----------

  lemma FdsUpdate(table: seq<Option<Desc>>, i: nat, d: Desc)
    requires i < |table|
    ensures Fds(table[i := Some(d)]) == Fds(table)[i + 1 := OpenOf(d)]
  {
    var l, r := Fds(table[i := Some(d)]), Fds(table)[i + 1 := OpenOf(d)];
    forall fd: int ensures (fd in l <==> fd in r) && (fd in l ==> l[fd] == r[fd]) {
      assert fd in l <==> IsOpen(table[i := Some(d)], fd);
    }
  }

  lemma FdsClear(table: seq<Option<Desc>>, i: nat)
    requires i < |table|
    ensures Fds(table[i := None]) == Fds(table) - {i + 1}
  {
    var l, r := Fds(table[i := None]), Fds(table) - {i + 1};
    forall fd: int ensures (fd in l <==> fd in r) && (fd in l ==> l[fd] == r[fd]) {
      assert fd in l <==> IsOpen(table[i := None], fd);
    }
  }

  lemma FdsWiden(table: seq<Option<Desc>>, n: nat)
    ensures Fds(table + Empties(n)) == Fds(table)
  {
    var l, r := Fds(table + Empties(n)), Fds(table);
    forall fd: int ensures (fd in l <==> fd in r) && (fd in l ==> l[fd] == r[fd]) {
      assert fd in l <==> IsOpen(table + Empties(n), fd);
    }
  }

  lemma FdsClamp(table: seq<Option<Desc>>, ino: nat, size: nat)
    ensures Fds(Clamp(table, ino, size)) == ClampFds(Fds(table), ino, size)
  {
    var l, r := Fds(Clamp(table, ino, size)), ClampFds(Fds(table), ino, size);
    forall fd: int ensures (fd in l <==> fd in r) && (fd in l ==> l[fd] == r[fd]) {
      assert fd in l <==> IsOpen(Clamp(table, ino, size), fd);
    }
  }

  /** What the specification state says about an open descriptor. */
  lemma DescFacts(s: Fs, fd: int)
    requires Inv(s)
    ensures Lookup(s, fd).Some? <==> fd in Abs(s).fds
    ensures Lookup(s, fd).Some? ==>
              var d := Lookup(s, fd).value;
              && 0 <= fd - 1 < |s.table| && s.table[fd - 1] == Some(d)
              && d.inode in s.files && SafeFile(s.files[d.inode])
              && d.offset <= BLOCK_SIZE * |s.files[d.inode].blocks|
              && Abs(s).fds[fd] == OpenOf(d)
              && d.inode in Abs(s).data && Abs(s).data[d.inode] == Content(s.files[d.inode])
              && (ShapedFs(s) ==> d.offset <= s.files[d.inode].size && Shaped(s.files[d.inode]))
  {
    hide Names, Content, RefCount, UsedCount;
  }

  /** Only the bytes of one file and the offsets change. */
  lemma AbsReplace(s: Fs, ino: nat, f: File, table: seq<Option<Desc>>)
    requires Inv(s) && ino in s.files && SafeFile(f)
    requires f.name == s.files[ino].name && f.isGhost == s.files[ino].isGhost
    requires Inv(s.(files := s.files[ino := f], table := table))
    ensures Abs(s.(files := s.files[ino := f], table := table))
         == Abs(s).(data := Data(s)[ino := Content(f)], fds := Fds(table))
  {
    hide Content, Find, Names, SafeFile, Fds, RefCount, UsedCount;
    var t := s.(files := s.files[ino := f], table := table);
    assert forall x: nat, name :: Visible(s, x, name) <==> Visible(t, x, name);
    SameNames(s, t);
    assert Data(t) == Data(s)[ino := Content(f)];
  }

  lemma AbsError(s: Fs, e: ErrorCode)
    requires Inv(s)
    ensures Inv(s.(error := e)) && Abs(s.(error := e)) == Abs(s).(error := e)
    ensures ShapedFs(s) ==> ShapedFs(s.(error := e))
  {
    ErrorKeepsInv(s, e);
    SameNames(s, s.(error := e));
  }

  // ---------- the calls, one by one ----------

  lemma OneFileShaped(s: Fs, ino: nat, f: File, table: seq<Option<Desc>>)
    requires Inv(s) && ShapedFs(s) && ino in s.files && Shaped(f)
    requires Inv(s.(files := s.files[ino := f], table := table))
    requires |table| == |s.table|
    requires forall i :: 0 <= i < |table| && table[i].Some? ==>
               if table[i].value.inode == ino then table[i].value.offset <= f.size else table[i] == s.table[i]
    ensures ShapedFs(s.(files := s.files[ino := f], table := table))
  {
    hide Shaped, SafeFile;
  }

  lemma WriteSuccess(s: Fs, i: nat, buf: seq<byte>, garbage: nat -> Buffer)
    requires Inv(s) && ShapedFs(s) && Holds(s, i) && buf != []
    requires FileOf(s, i).size + |buf| <= MAX_FILE_SIZE && GoodStart(FileOf(s, i).size, s.table[i].value.offset)
    ensures var d := s.table[i].value;
            var t := WriteAt(s, i, buf, garbage);
            && Inv(t) && ShapedFs(t)
            && Abs(t) == Abs(s).(data := Abs(s).data[d.inode := Splice(Content(FileOf(s, i)), d.offset, buf)],
                                 fds := Abs(s).fds[i + 1 := OpenOf(d.(offset := d.offset + |buf|))])
  {
    hide Content, Splice, Names, Fds, SafeFile, RefCount, UsedCount, WriteLoop, GoodStart, UniqueNames, Listed,
         Counted;
    var d := s.table[i].value;
    var f := s.files[d.inode];
    WriteAtKeepsInv(s, i, buf, garbage);
    GoodWrite(f, d.offset, buf, garbage);
    hide Shaped;
    var g := WriteFile(f, d.offset, buf, garbage);
    var table := SetOffset(s.table, i, d.offset + |buf|);
    OneFileShaped(s, d.inode, g, table);
    AbsReplace(s, d.inode, g, table);
    FdsUpdate(s.table, i, d.(offset := d.offset + |buf|));
  }

  lemma WriteRefines(s: Fs, fd: int, buf: seq<byte>, garbage: nat -> Buffer)
    requires Inv(s) && ShapedFs(s) && InDomain(s, CallWrite(fd, buf, garbage))
    ensures var o := Write(s, fd, buf, garbage);
            Inv(o.fs) && ShapedFs(o.fs) && WriteStep(Abs(s), fd, buf, Abs(o.fs), Answer(o))
  {
    hide Abs, Inv, ShapedFs, Content, WriteAt, Splice, Shaped, SafeFile, GoodStart;
    DescFacts(s, fd);
    AbsError(s, Write(s, fd, buf, garbage).fs.error);
    if Stores(s, fd, buf) {
      WriteSuccess(s, fd - 1, buf, garbage);
    }
  }

  lemma ReadSuccess(s: Fs, i: nat, n: nat)
    requires Inv(s) && ShapedFs(s) && Holds(s, i)
    ensures var d := s.table[i].value;
            var data := ReadFile(FileOf(s, i), d.offset, n);
            var t := Advance(s, i, data);
            && data == Content(FileOf(s, i))[d.offset..Min(d.offset + n, FileOf(s, i).size)]
            && Inv(t) && ShapedFs(t)
            && Abs(t) == Abs(s).(fds := Abs(s).fds[i + 1 := OpenOf(d.(offset := d.offset + |data|))])
  {
    hide Names, Fds, RefCount, UsedCount, ReadFile, Content, SafeFile, Shaped, UniqueNames, Listed, Counted;
    ReadAtKeepsInv(s, i, n);
    var d := s.table[i].value;
    ReadFileSlices(FileOf(s, i), d.offset, n);
    var data := ReadFile(FileOf(s, i), d.offset, n);
    MovedOffset(s, i, d.offset + |data|);
  }

  /** Moving one offset inside its file. */
  lemma MovedOffset(s: Fs, i: nat, offset: nat)
    requires Inv(s) && ShapedFs(s) && Holds(s, i) && offset <= FileOf(s, i).size
    requires Inv(s.(table := SetOffset(s.table, i, offset)))
    ensures var t := s.(table := SetOffset(s.table, i, offset));
            ShapedFs(t) && Abs(t) == Abs(s).(fds := Abs(s).fds[i + 1 := OpenOf(s.table[i].value.(offset := offset))])
  {
    hide Names, Fds, RefCount, UsedCount, Content, SafeFile, Shaped, UniqueNames, Listed, Counted, Find;
    var t := s.(table := SetOffset(s.table, i, offset));
    assert forall x: nat, name :: Visible(s, x, name) <==> Visible(t, x, name);
    SameNames(s, t);
    FdsUpdate(s.table, i, s.table[i].value.(offset := offset));
  }

  lemma ReadRefines(s: Fs, fd: int, n: nat)
    requires Inv(s) && ShapedFs(s)
    ensures var o := Read(s, fd, n);
            Inv(o.fs) && ShapedFs(o.fs) && ReadStep(Abs(s), fd, n, Abs(o.fs), Answer(o))
  {
    hide Abs, Inv, ShapedFs, Content, ReadFile, Shaped, SafeFile, Advance;
    DescFacts(s, fd);
    AbsError(s, Read(s, fd, n).fs.error);
    if Lookup(s, fd).Some? {
      ReadSuccess(s, fd - 1, n);
    }
  }

  lemma GrowSuccess(s: Fs, i: nat, newSize: nat)
    requires Inv(s) && ShapedFs(s) && Holds(s, i) && FileOf(s, i).size < newSize <= MAX_FILE_SIZE
    ensures var f, t := FileOf(s, i), GrowAt(s, i, newSize);
            && Inv(t) && ShapedFs(t)
            && exists exposed: seq<byte> | |exposed| == Exposed(f.size, newSize) ::
                 var grown := Content(f) + exposed + Zeros(newSize - f.size - |exposed|);
                 Abs(t) == Abs(s).(data := Abs(s).data[s.table[i].value.inode := grown])
  {
    hide Content, Names, Fds, SafeFile, RefCount, UsedCount, Bytes, Grow, Shaped;
    var ino := s.table[i].value.inode;
    var f := s.files[ino];
    GrowExtends(f, newSize);
    GrowAtKeepsInv(s, i, newSize);
    var g := Grow(f, newSize);
    var exposed := Bytes(f.blocks, f.size + Exposed(f.size, newSize))[f.size..];
    assert Content(g) == Content(f) + exposed + Zeros(newSize - f.size - |exposed|);
    OneFileShaped(s, ino, g, s.table);
    AbsReplace(s, ino, g, s.table);
  }

  lemma ShrinkSuccess(s: Fs, i: nat, newSize: nat)
    requires Inv(s) && ShapedFs(s) && Holds(s, i) && newSize < FileOf(s, i).size
    ensures var ino := s.table[i].value.inode;
            var t := ShrinkAt(s, i, newSize);
            && Inv(t) && ShapedFs(t)
            && Abs(t) == Abs(s).(data := Abs(s).data[ino := Content(FileOf(s, i))[..newSize]],
                                 fds := ClampFds(Abs(s).fds, ino, newSize))
  {
    hide Shrink, Content, Names, Fds, SafeFile, Shaped, RefCount, UsedCount, ClampFds;
    var ino := s.table[i].value.inode;
    var f := s.files[ino];
    ShrinkIsPrefix(f, newSize);
    ShrinkAtKeepsInv(s, i, newSize);
    var g, table := Shrink(f, newSize), Clamp(s.table, ino, newSize);
    OneFileShaped(s, ino, g, table);
    AbsReplace(s, ino, g, table);
    FdsClamp(s.table, ino, newSize);
  }

  /** Clamping at the current size moves nobody. */
  lemma NothingToClamp(s: Fs, ino: nat)
    requires Inv(s) && ShapedFs(s) && ino in s.files
    ensures Abs(s) == Abs(s).(data := Abs(s).data[ino := Content(s.files[ino])[..s.files[ino].size]],
                              fds := ClampFds(Abs(s).fds, ino, s.files[ino].size))
  {
    assert Content(s.files[ino])[..s.files[ino].size] == Content(s.files[ino]);
    assert Data(s)[ino := Content(s.files[ino])] == Data(s);
    assert ClampFds(Fds(s.table), ino, s.files[ino].size) == Fds(s.table);
  }

  lemma ResizeRefines(s: Fs, fd: int, newSize: nat)
    requires Inv(s) && ShapedFs(s)
    ensures var o := Resize(s, fd, newSize);
            Inv(o.fs) && ShapedFs(o.fs) && ResizeStep(Abs(s), fd, newSize, Abs(o.fs), Answer(o))
  {
    hide Abs, Inv, ShapedFs, Content, ShrinkAt, GrowAt, Shaped, SafeFile, ClampFds, Zeros;
    DescFacts(s, fd);
    AbsError(s, Resize(s, fd, newSize).fs.error);
    var found := Lookup(s, fd);
    if found.Some? {
      var size := s.files[found.value.inode].size;
      if newSize < size {
        ShrinkSuccess(s, fd - 1, newSize);
      } else if newSize == size {
        NothingToClamp(s, found.value.inode);
      } else if newSize <= MAX_FILE_SIZE {
        GrowSuccess(s, fd - 1, newSize);
      }
    }
  }

  /** Files that stay keep their blocks and size. */
  ghost predicate Survivors(s: Fs, t: Fs) {
    forall ino :: ino in t.files ==>
         ino in s.files && t.files[ino].blocks == s.files[ino].blocks && t.files[ino].size == s.files[ino].size
  }

  lemma SurvivorsShaped(s: Fs, t: Fs)
    requires Inv(s) && Inv(t) && ShapedFs(s) && Survivors(s, t)
    requires |t.table| == |s.table| && forall i :: 0 <= i < |t.table| && t.table[i].Some? ==> t.table[i] == s.table[i]
    ensures ShapedFs(t)
  {
    hide RefCount, UsedCount, SafeFile;
  }

  lemma SurvivorsContent(s: Fs, t: Fs)
    requires Inv(s) && Inv(t) && Survivors(s, t)
    ensures forall ino :: ino in t.files ==> ino in s.files && Content(s.files[ino]) == Content(t.files[ino])
  {
    hide RefCount, UsedCount, Find;
  }

  lemma NamesInFiles(s: Fs)
    requires Inv(s)
    ensures forall name :: name in Names(s) ==> Names(s)[name] in s.files
    ensures forall fd :: fd in Fds(s.table) ==> Fds(s.table)[fd].inode in s.files
  {
    NamesAre(s);
  }

  /** What stays is what collection leaves: the named and the open files. */
  lemma KeptFiles(s: Fs, t: Fs)
    requires Inv(s) && Inv(t) && Survivors(s, t) && t.error == s.error
    ensures Collect(Abs(s).(names := Names(t), fds := Fds(t.table))) == Abs(t)
  {
    hide Names, RefCount, UsedCount, Visible, Content, Find, SafeFile;
    NothingToCollect(t);
    NamesInFiles(t);
    SurvivorsContent(s, t);
    hide Inv, Survivors;
    var l, r := Collect(Abs(s).(names := Names(t), fds := Fds(t.table))).data, Collect(Abs(t)).data;
    forall ino: nat ensures (ino in l <==> ino in r) && (ino in l ==> l[ino] == r[ino]) {
    }
  }

  lemma CloseFacts(s: Fs, fd: int)
    requires Inv(s) && Lookup(s, fd).Some?
    ensures var t := Close(s, fd).fs;
            && 0 <= fd - 1 < |s.table| && t.table == s.table[fd - 1 := None] && t.error == s.error
            && Survivors(s, t)
            && forall ino: nat, name :: Visible(s, ino, name) <==> Visible(t, ino, name)
  {
    hide RefCount, UsedCount, Listed, UniqueNames, SafeFile;
  }

  lemma CloseSuccess(s: Fs, fd: int)
    requires Inv(s) && ShapedFs(s) && Lookup(s, fd).Some?
    ensures var t := Close(s, fd).fs;
            Inv(t) && ShapedFs(t) && Abs(t) == Collect(Abs(s).(fds := Fds(s.table) - {fd}))
  {
    hide Inv, ShapedFs, Survivors, Close, Lookup, Visible, Names, Data, Fds, Collect;
    CloseKeepsInv(s, fd);
    CloseFacts(s, fd);
    var t := Close(s, fd).fs;
    FdsClear(s.table, fd - 1);
    SurvivorsShaped(s, t);
    SameNames(s, t);
    KeptFiles(s, t);
  }

  lemma CloseRefines(s: Fs, fd: int)
    requires Inv(s) && ShapedFs(s)
    ensures var o := Close(s, fd);
            Inv(o.fs) && ShapedFs(o.fs) && CloseStep(Abs(s), fd, Abs(o.fs), Answer(o))
  {
    DescFacts(s, fd);
    hide Inv, ShapedFs, Names, Fds, Data, Content, Collect;
    if Lookup(s, fd).Some? {
      CloseSuccess(s, fd);
    } else {
      AbsError(s, NO_FILE);
    }
  }

  lemma DeleteFacts(s: Fs, name: string)
    requires Inv(s) && Find(s, name, 0).Some?
    ensures var t := Delete(s, name).fs;
            && t.table == s.table && t.error == s.error
            && Survivors(s, t)
            && forall ino: nat, n :: Visible(t, ino, n) <==> Visible(s, ino, n) && n != name
  {
    hide RefCount, UsedCount, Listed, SafeFile, Find;
    FindVisible(s, name);
  }

  lemma DeleteSuccess(s: Fs, name: string)
    requires Inv(s) && ShapedFs(s) && Find(s, name, 0).Some?
    ensures var t := Delete(s, name).fs;
            Inv(t) && ShapedFs(t) && Abs(t) == Collect(Abs(s).(names := Names(s) - {name}))
  {
    hide Inv, ShapedFs, Survivors, Delete, Visible, Names, Data, Fds, Collect, Find;
    DeleteKeepsInv(s, name);
    DeleteFacts(s, name);
    var t := Delete(s, name).fs;
    SurvivorsShaped(s, t);
    NamesDrop(s, t, name);
    KeptFiles(s, t);
  }

  lemma NamesDrop(s: Fs, t: Fs, name: string)
    requires Inv(s) && Inv(t)
    requires forall ino: nat, n :: Visible(t, ino, n) <==> Visible(s, ino, n) && n != name
    ensures Names(t) == Names(s) - {name}
  {
    hide Inv, Names, Visible, Find;
    NamesAre(s);
    NamesAre(t);
    var m, n := Names(s), Names(t);
    forall x | x in m && x != name ensures x in n && n[x] == m[x] {
      assert Visible(t, m[x], x);
    }
    forall x | x in n ensures x in m && x != name {
      assert Visible(s, n[x], x);
    }
  }

  lemma DeleteRefines(s: Fs, name: string)
    requires Inv(s) && ShapedFs(s)
    ensures var o := Delete(s, name);
            Inv(o.fs) && ShapedFs(o.fs) && DeleteStep(Abs(s), name, Abs(o.fs), Answer(o))
  {
    FindVisible(s, name);
    NamesAre(s);
    hide Inv, ShapedFs, Names, Fds, Data, Content, Collect;
    if Find(s, name, 0).Some? {
      DeleteSuccess(s, name);
    } else {
      AbsError(s, NO_FILE);
    }
  }

  // ---------- opening ----------

  lemma SameFilesSameAbs(s: Fs, t: Fs)
    requires Inv(s) && Inv(t) && ShapedFs(s)
    requires t.files == s.files && t.error == s.error && exists n :: t.table == s.table + Empties(n)
    ensures ShapedFs(t) && Abs(t) == Abs(s)
  {
    hide RefCount, UsedCount, Find, Names, Fds, Content;
    var n :| t.table == s.table + Empties(n);
    assert forall ino: nat, name :: Visible(s, ino, name) <==> Visible(t, ino, name);
    SameNames(s, t);
    FdsWiden(s.table, n);
  }

  lemma CreateFacts(s: Fs, name: string)
    requires Inv(s) && Find(s, name, 0).None?
    ensures s.nextInode !in s.files
    ensures forall ino: nat :: !Visible(s, ino, name)
    ensures Inv(CreateFile(s, name))
    ensures forall ino: nat, n :: Visible(CreateFile(s, name), ino, n) <==>
              Visible(s, ino, n) || (ino == s.nextInode && n == name)
  {
    hide RefCount, UsedCount, Find;
    FindVisible(s, name);
    assert forall ino: nat | ino in s.files && !s.files[ino].isGhost :: Visible(s, ino, s.files[ino].name);
    CreateFileKeepsInv(s, name);
  }

  lemma CreateShaped(s: Fs, name: string)
    requires Inv(s) && ShapedFs(s) && Inv(CreateFile(s, name)) && s.nextInode !in s.files
    ensures ShapedFs(CreateFile(s, name))
    ensures Data(CreateFile(s, name)) == Data(s)[s.nextInode := []]
  {
    hide RefCount, UsedCount, Listed, UniqueNames, Counted;
    var t := CreateFile(s, name);
    assert Content(t.files[s.nextInode]) == [];
    assert forall ino :: ino in s.files ==> t.files[ino] == s.files[ino];
  }

  lemma CreateAbs(s: Fs, name: string)
    requires Inv(s) && ShapedFs(s) && Find(s, name, 0).None?
    ensures var t := CreateFile(s, name);
            && Inv(t) && ShapedFs(t) && s.nextInode !in Abs(s).data
            && Abs(t) == NewSpec(Abs(s), s.nextInode, name)
  {
    hide Inv, ShapedFs, Find, Fds, Names, Visible, Content;
    CreateFacts(s, name);
    CreateShaped(s, name);
    NamesGrow(s, CreateFile(s, name), name, s.nextInode);
  }

  lemma NamesGrow(s: Fs, t: Fs, name: string, ino': nat)
    requires Inv(s) && Inv(t)
    requires forall ino: nat, n :: Visible(t, ino, n) <==> Visible(s, ino, n) || (ino == ino' && n == name)
    requires forall ino: nat :: !Visible(s, ino, name)
    ensures Names(t) == Names(s)[name := ino']
  {
    hide Inv, Names, Visible, Find;
    NamesAre(s);
    NamesAre(t);
    var m, n := Names(s)[name := ino'], Names(t);
    forall x | x in m ensures x in n && n[x] == m[x] {
      assert Visible(t, m[x], x);
    }
    forall x | x in n ensures x in m {
      assert Visible(t, n[x], x);
    }
  }

  lemma InstallAbs(s: Fs, idx: nat, ino: nat, flags: set<OpenFlag>)
    requires Inv(s) && ShapedFs(s) && idx < |s.table| && s.table[idx].None? && ino in s.files
    ensures var t := Install(s, idx, ino, flags);
            && Inv(t) && ShapedFs(t)
            && Abs(t) == WithFd(Abs(s), idx + 1, OpenFile(ino, CanRead(flags), CanWrite(flags), 0))
  {
    hide RefCount, UsedCount, Find, Fds, Names, Data, SafeFile, Shaped, Listed, UniqueNames, Counted, ShapedFs;
    InstallKeepsInv(s, idx, ino, flags);
    InstallSees(s, idx, ino, flags);
    var t := Install(s, idx, ino, flags);
    SameNames(s, t);
    FdsUpdate(s.table, idx, Desc(ino, flags, 0));
  }

  /** The files are as they were but for one count. */
  lemma InstallSees(s: Fs, idx: nat, ino: nat, flags: set<OpenFlag>)
    requires Inv(s) && ShapedFs(s) && idx < |s.table| && ino in s.files && Inv(Install(s, idx, ino, flags))
    ensures var t := Install(s, idx, ino, flags);
            && ShapedFs(t) && Data(t) == Data(s)
            && forall x: nat, name :: Visible(s, x, name) <==> Visible(t, x, name)
  {
    hide RefCount, UsedCount, Find, Content, Listed, UniqueNames, Counted, ShapedBlocks;
    var t := Install(s, idx, ino, flags);
    SameContent(s.files[ino], t.files[ino]);
    assert Data(t) == Data(s);
  }

  lemma SameContent(f: File, g: File)
    requires SafeFile(f) && g.blocks == f.blocks && g.size == f.size
    ensures Content(g) == Content(f)
  {
  }

  /** The descriptor handed out is the least free one. */
  lemma OpenAtRefines(s: Fs, ino: nat, flags: set<OpenFlag>)
    requires Inv(s) && ShapedFs(s) && ino in s.files && 0 < |s.table| && 0 <= s.used
    requires s.used >= |s.table| ==> s.used == |s.table|
    ensures var o := OpenAt(s, ino, flags);
            && Inv(o.fs) && ShapedFs(o.fs) && o.data == []
            && LeastFree(Abs(s).fds, o.ret)
            && Abs(o.fs) == WithFd(Abs(s), o.ret, OpenFile(ino, CanRead(flags), CanWrite(flags), 0))
  {
    hide Inv, ShapedFs, Names, Data, OpenAt;
    var wide, idx := OpenAtSlot(s, ino, flags);
    assert wide.table == s.table + Empties(|wide.table| - |s.table|);
    SameFilesSameAbs(s, wide);
    InstallAbs(wide, idx, ino, flags);
    forall k: int | 0 < k < idx + 1 ensures k in Fds(wide.table) {
      assert IsOpen(wide.table, k);
    }
  }

  /** Having a table changes nothing that is seen. */
  lemma EnsuredAbs(s: Fs)
    requires Inv(s) && ShapedFs(s)
    ensures var t := EnsureTable(s);
            && Inv(t) && ShapedFs(t) && Abs(t) == Abs(s) && t.files == s.files
            && 0 < |t.table| && 0 <= t.used <= |t.table|
  {
    hide ShapedFs, Names, Data, Fds, RefCount, UsedCount, Listed, UniqueNames, Counted, SafeFile;
    var t := EnsureTable(s);
    EnsureTableKeepsInv(s);
    UsedBound(t.table);
    assert t.table == s.table + Empties(|t.table| - |s.table|);
    SameFilesSameAbs(s, t);
  }

  /** The branch of `ufs_open` taken. */
  lemma OpenIs(s: Fs, name: string, flags: set<OpenFlag>)
    requires Inv(s) && (Find(s, name, 0).Some? || CREATE in flags)
    ensures Find(s, name, 0).None? ==> Inv(CreateFile(s, name))
    ensures var found := Find(s, name, 0);
            var t := EnsureTable(if found.Some? then s else CreateFile(s, name));
            var ino := if found.Some? then found.value else s.nextInode;
            && ino in t.files && 0 <= t.used && 0 < |t.table| && (t.used >= |t.table| ==> t.used == |t.table|)
            && Open(s, name, flags) == OpenAt(t, ino, Normalize(flags))
  {
    UsedBound(s.table);
    FindSound(s, name, 0);
    if Find(s, name, 0).None? {
      CreateFacts(s, name);
    }
    hide RefCount, UsedCount, Find, Listed, UniqueNames, Counted, OpenAt, SafeFile;
  }

  lemma OpenFails(s: Fs, name: string, flags: set<OpenFlag>)
    requires Inv(s) && Find(s, name, 0).None? && CREATE !in flags
    ensures Open(s, name, flags) == Fail(s, NO_FILE)
  {
  }

  lemma NormalRights(flags: set<OpenFlag>)
    ensures CanRead(Normalize(flags)) == MayRead(flags) && CanWrite(Normalize(flags)) == MayWrite(flags)
  {
  }

  lemma OpenRefines(s: Fs, name: string, flags: set<OpenFlag>)
    requires Inv(s) && ShapedFs(s)
    ensures var o := Open(s, name, flags);
            Inv(o.fs) && ShapedFs(o.fs) && OpenStep(Abs(s), name, flags, Abs(o.fs), Answer(o))
  {
    hide Inv, ShapedFs, Abs, Find, Open, OpenAt, EnsureTable, CreateFile, Normalize, LeastFree, MayRead, MayWrite,
         CanRead, CanWrite;
    NormalRights(flags);
    NamesFound(s, name);
    var found := Find(s, name, 0);
    if found.None? && CREATE !in flags {
      OpenFails(s, name, flags);
      AbsError(s, NO_FILE);
    } else {
      OpenIs(s, name, flags);
      if found.Some? {
        EnsuredAbs(s);
        OpenAtRefines(EnsureTable(s), found.value, Normalize(flags));
      } else {
        CreateAbs(s, name);
        var s1 := CreateFile(s, name);
        EnsuredAbs(s1);
        OpenAtRefines(EnsureTable(s1), s.nextInode, Normalize(flags));
      }
    }
  }

  lemma NamesFound(s: Fs, name: string)
    requires Inv(s)
    ensures forall ino :: ino in s.order ==> ino in s.files
    ensures name in Abs(s).names <==> Find(s, name, 0).Some?
    ensures name in Abs(s).names ==> Abs(s).names[name] == Find(s, name, 0).value
  {
    FindVisible(s, name);
    NamesAre(s);
    hide Names, Find, Data, Fds, RefCount, UsedCount;
    if Find(s, name, 0).Some? {
      assert Visible(s, Find(s, name, 0).value, name);
    }
  }

  // ---------- whole runs ----------

  lemma StepRefines(s: Fs, c: Call)
    requires Inv(s) && ShapedFs(s) && InDomain(s, c)
    ensures var o := Apply(s, c);
            Inv(o.fs) && ShapedFs(o.fs) && Step(Abs(s), c, Abs(o.fs), Answer(o))
  {
    hide Inv, ShapedFs, Abs, InDomain;
    match c
    case CallOpen(name, flags) => OpenRefines(s, name, flags);
    case CallWrite(fd, buf, garbage) => WriteRefines(s, fd, buf, garbage);
    case CallRead(fd, count) => ReadRefines(s, fd, count);
    case CallClose(fd) => CloseRefines(s, fd);
    case CallDelete(name) => DeleteRefines(s, name);
    case CallResize(fd, newSize) => ResizeRefines(s, fd, newSize);
  }

  /** The domain is exact: one step leaves the shaped states just when it leaves the domain. */
  lemma DomainIsExact(s: Fs, c: Call)
    requires Inv(s) && ShapedFs(s)
    ensures Inv(Apply(s, c).fs)
    ensures ShapedFs(Apply(s, c).fs) <==> InDomain(s, c)
  {
    InvKept(s, c);
    if InDomain(s, c) {
      StepRefines(s, c);
    } else {
      var d := Lookup(s, c.fd).value;
      StrayWrite(s.files[d.inode], d.offset, c.buf, c.garbage);
      hide RefCount, UsedCount, WriteLoop;
      assert !Shaped(Apply(s, c).fs.files[d.inode]);
    }
  }

  ghost predicate RunInDomain(s: Fs, calls: seq<Call>)
    requires Inv(s)
    decreases |calls|
  {
    calls == [] ||
    (InvKept(s, calls[0]);
     InDomain(s, calls[0]) && RunInDomain(Apply(s, calls[0]).fs, calls[1..]))
  }

  function Answers(s: Fs, calls: seq<Call>): seq<Response>
    requires Inv(s)
    decreases |calls|
  {
    if calls == [] then []
    else
      InvKept(s, calls[0]);
      [Answer(Apply(s, calls[0]))] + Answers(Apply(s, calls[0]).fs, calls[1..])
  }

  lemma StartKeepsInv()
    ensures Inv(EMPTY_FS)
  {
  }

  lemma {:induction false} RunRefines(s: Fs, calls: seq<Call>)
    requires Inv(s) && ShapedFs(s) && RunInDomain(s, calls)
    ensures Inv(Run(s, calls)) && ShapedFs(Run(s, calls))
    ensures Runs(Abs(s), calls, Answers(s, calls), Abs(Run(s, calls)))
    decreases |calls|
  {
    hide Inv, ShapedFs, Abs, InDomain, Apply;
    if calls != [] {
      InvKept(s, calls[0]);
      StepRefines(s, calls[0]);
      var s' := Apply(s, calls[0]).fs;
      RunRefines(s', calls[1..]);
      assert Answers(s, calls)[1..] == Answers(s', calls[1..]);
    }
  }

  lemma StartIsEmpty()
    ensures Inv(EMPTY_FS) && ShapedFs(EMPTY_FS) && Abs(EMPTY_FS) == Spec(map[], map[], map[], NO_ERR)
  {
    assert Abs(EMPTY_FS) == Spec(map[], map[], map[], NO_ERR);
  }

  /** Every run from the start whose writes stay in the domain is a run of the specification. */
  lemma UserFsRefinesSpec(calls: seq<Call>)
    requires (StartKeepsInv(); RunInDomain(EMPTY_FS, calls))
    ensures Inv(Run(EMPTY_FS, calls)) && ShapedFs(Run(EMPTY_FS, calls))
    ensures Runs(Spec(map[], map[], map[], NO_ERR), calls, Answers(EMPTY_FS, calls), Abs(Run(EMPTY_FS, calls)))
  {
    hide Inv, ShapedFs, Abs, InDomain, Apply, Runs, Answers, Run, RunInDomain;
    StartIsEmpty();
    RunRefines(EMPTY_FS, calls);
  }
}
