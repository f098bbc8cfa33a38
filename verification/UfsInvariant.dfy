/**
 Every call keeps `UfsModel.Inv`, whatever the run did before: reference counts and the table counter
 are exact, ghosts are open, visible names are unique, and no descriptor points past the last block.
 */
module UfsInvariant {
  import opened Common
  import opened UfsModel

  // ---------- counting descriptors ----------

  function Hit(d: Option<Desc>, ino: nat): nat {
    if d.Some? && d.value.inode == ino then 1 else 0
  }

  function Taken(d: Option<Desc>): nat {
    if d.Some? then 1 else 0
  }

  lemma {:induction false} CountsAfterUpdate(table: seq<Option<Desc>>, i: nat, d: Option<Desc>, ino: nat)
    requires i < |table|
    ensures RefCount(table[i := d], ino) == RefCount(table, ino) - Hit(table[i], ino) + Hit(d, ino)
    ensures UsedCount(table[i := d]) == UsedCount(table) - Taken(table[i]) + Taken(d)
  {
    if i > 0 {
      CountsAfterUpdate(table[1..], i - 1, d, ino);
      assert table[i := d][1..] == table[1..][i - 1 := d];
    } else {
      assert table[i := d][1..] == table[1..];
    }
  }

  lemma {:induction false} CountsAfterWidening(table: seq<Option<Desc>>, n: nat, ino: nat)
    ensures RefCount(table + Empties(n), ino) == RefCount(table, ino)
    ensures UsedCount(table + Empties(n)) == UsedCount(table)
  {
    var wide := table + Empties(n);
    if table != [] {
      CountsAfterWidening(table[1..], n, ino);
      assert wide[1..] == table[1..] + Empties(n);
    } else if n > 0 {
      CountsAfterWidening(table, n - 1, ino);
      assert wide[1..] == table + Empties(n - 1);
    }
  }

  lemma {:induction false} SameInodesSameCount(t: seq<Option<Desc>>, u: seq<Option<Desc>>, ino: nat)
    requires |t| == |u|
    requires forall i :: 0 <= i < |t| ==> Hit(t[i], ino) == Hit(u[i], ino) && Taken(t[i]) == Taken(u[i])
    ensures RefCount(t, ino) == RefCount(u, ino) && UsedCount(t) == UsedCount(u)
  {
    if t != [] {
      SameInodesSameCount(t[1..], u[1..], ino);
    }
  }

  lemma {:induction false} AbsentCount(table: seq<Option<Desc>>, ino: nat)
    ensures RefCount(table, ino) == 0 <==> forall i :: 0 <= i < |table| ==> Hit(table[i], ino) == 0
  {
    if table != [] {
      AbsentCount(table[1..], ino);
      assert table == [table[0]] + table[1..];
    }
  }

  /** The pigeonhole behind "no available file descriptor, but it MUST be". */
  lemma {:induction false} FullTable(table: seq<Option<Desc>>)
    ensures UsedCount(table) == |table| <==> forall i :: 0 <= i < |table| ==> table[i].Some?
  {
    UsedBound(table);
    if table != [] {
      FullTable(table[1..]);
      UsedBound(table[1..]);
      assert table == [table[0]] + table[1..];
    }
  }

  lemma UsedInRange(s: Fs)
    requires Inv(s)
    ensures 0 <= s.used <= |s.table|
  {
    UsedBound(s.table);
  }

  lemma FirstFreeLeast(table: seq<Option<Desc>>, i: nat)
    ensures var idx := FirstFree(table, i);
            if idx == -1 then forall j :: i <= j < |table| ==> table[j].Some?
            else table[idx].None? && forall j :: i <= j < idx ==> table[j].Some?
    decreases |table| - i
  {
  }

  // ---------- block lists ----------

  lemma {:induction false} WriteLoopSafe(blocks: seq<Block>, k: nat, offset: nat, buf: seq<byte>,
      garbage: nat -> Buffer)
    requires k <= |blocks|
    requires forall b :: b in blocks ==> b.occupied <= BLOCK_SIZE
    requires offset <= BLOCK_SIZE * |blocks|
    requires buf != [] ==> offset / BLOCK_SIZE == k || (k < |blocks| && blocks[k].occupied == BLOCK_SIZE)
    ensures var r := WriteLoop(blocks, k, offset, buf, garbage);
            && |r| >= |blocks|
            && (forall b :: b in r ==> b.occupied <= BLOCK_SIZE)
            && offset + |buf| <= BLOCK_SIZE * |r|
    decreases |buf|
  {
    if buf != [] {
      var n := ChunkSize(offset, |buf|);
      var bs' := PutChunk(blocks, k, offset, buf[..n], garbage(offset));
      forall b | b in bs' ensures b.occupied <= BLOCK_SIZE {
        assert forall i :: 0 <= i < |blocks| ==> blocks[i] in blocks;
      }
      WriteLoopSafe(bs', Current(blocks, k), offset + n, buf[n..], garbage);
    }
  }

  lemma {:induction false} AddBlocksSafe(blocks: seq<Block>, count: nat)
    requires forall b :: b in blocks ==> b.occupied <= BLOCK_SIZE
    ensures var r := AddBlocks(blocks, count);
            |r| == |blocks| + count && forall b :: b in r ==> b.occupied <= BLOCK_SIZE
    decreases count
  {
    if count > 0 {
      AddBlocksSafe(SetLast(blocks, BLOCK_SIZE) + [Block(ZeroBuffer(), 0)], count - 1);
    }
  }

  lemma ShrinkSafe(f: File, newSize: nat)
    requires SafeFile(f) && newSize < f.size
    ensures var g := Shrink(f, newSize); SafeFile(g) && g == f.(blocks := g.blocks, size := newSize)
    ensures newSize <= BLOCK_SIZE * |Shrink(f, newSize).blocks| <= BLOCK_SIZE * |f.blocks|
  {
    var bs := DropBlocks(f.blocks, BlockCount(f.size) - BlockCount(newSize));
    assert forall b :: b in bs ==> b in f.blocks;
  }

  lemma GrowSafe(f: File, newSize: nat)
    requires SafeFile(f) && f.size < newSize
    ensures var g := Grow(f, newSize); SafeFile(g) && g == f.(blocks := g.blocks, size := newSize)
    ensures |Grow(f, newSize).blocks| == |f.blocks| + BlockCount(newSize) - BlockCount(f.size)
  {
    AddBlocksSafe(f.blocks, Max(0, BlockCount(newSize) - BlockCount(f.size)));
  }

  // ---------- the calls ----------

  lemma EnsureTableKeepsInv(s: Fs)
    requires Inv(s)
    ensures Inv(EnsureTable(s))
    ensures |EnsureTable(s).table| > 0
  {
    if |s.table| == 0 {
      var t := EnsureTable(s).table;
      assert t == s.table + Empties(INITIAL_CAPACITY);
      forall ino | ino in s.files ensures RefCount(t, ino) == RefCount(s.table, ino) {
        CountsAfterWidening(s.table, INITIAL_CAPACITY, ino);
      }
      CountsAfterWidening(s.table, INITIAL_CAPACITY, 0);
    }
  }

  lemma CreateFileKeepsInv(s: Fs, name: string)
    requires Inv(s)
    requires forall ino :: ino in s.files && !s.files[ino].isGhost ==> s.files[ino].name != name
    ensures Inv(CreateFile(s, name))
  {
    AbsentCount(s.table, s.nextInode);
    hide RefCount, UsedCount;
  }

  lemma InstallKeepsInv(s: Fs, idx: nat, ino: nat, flags: set<OpenFlag>)
    requires Inv(s)
    requires idx < |s.table| && s.table[idx].None? && ino in s.files
    ensures Inv(Install(s, idx, ino, flags))
  {
    hide RefCount, UsedCount;
    var t := s.table[idx := Some(Desc(ino, flags, 0))];
    forall x | x in s.files ensures RefCount(t, x) == RefCount(s.table, x) + (if x == ino then 1 else 0) {
      CountsAfterUpdate(s.table, idx, Some(Desc(ino, flags, 0)), x);
    }
    CountsAfterUpdate(s.table, idx, Some(Desc(ino, flags, 0)), ino);
  }

  lemma WideKeepsInv(s: Fs)
    requires Inv(s)
    ensures Inv(s.(table := s.table + Empties(|s.table|)))
  {
    forall ino | ino in s.files ensures RefCount(s.table + Empties(|s.table|), ino) == RefCount(s.table, ino) {
      CountsAfterWidening(s.table, |s.table|, ino);
    }
    CountsAfterWidening(s.table, |s.table|, 0);
  }

  /** Which slot `ufs_open` takes: the first free one, the table having been doubled if there was none. */
  lemma OpenAtSlot(s: Fs, ino: nat, flags: set<OpenFlag>) returns (wide: Fs, idx: nat)
    requires Inv(s) && ino in s.files && 0 < |s.table| && 0 <= s.used
    requires s.used >= |s.table| ==> s.used == |s.table|
    ensures Inv(wide) && wide == s.(table := wide.table)
    ensures || wide.table == s.table
            || ((forall i :: 0 <= i < |s.table| ==> s.table[i].Some?) && wide.table == s.table + Empties(|s.table|))
    ensures idx < |wide.table| && wide.table[idx].None? && forall j :: 0 <= j < idx ==> wide.table[j].Some?
    ensures OpenAt(s, ino, flags) == Outcome(Install(wide, idx, ino, flags), idx + 1, [])
  {
    FullTable(s.table);
    if s.used < |s.table| {
      FirstFreeLeast(s.table, 0);
      wide, idx := s, FirstFree(s.table, 0);
    } else {
      WideKeepsInv(s);
      wide, idx := s.(table := s.table + Empties(|s.table|)), s.used;
    }
  }

  lemma OpenKeepsInv(s: Fs, name: string, flags: set<OpenFlag>)
    requires Inv(s)
    ensures Inv(Open(s, name, flags).fs)
  {
    UsedBound(s.table);
    FindSound(s, name, 0);
    var found := Find(s, name, 0);
    if found.Some? {
      EnsureTableKeepsInv(s);
      var wide, idx := OpenAtSlot(EnsureTable(s), found.value, Normalize(flags));
      InstallKeepsInv(wide, idx, found.value, Normalize(flags));
    } else if CREATE in flags {
      var s1 := CreateFile(s, name);
      CreateFileKeepsInv(s, name);
      EnsureTableKeepsInv(s1);
      var wide, idx := OpenAtSlot(EnsureTable(s1), s.nextInode, Normalize(flags));
      InstallKeepsInv(wide, idx, s.nextInode, Normalize(flags));
    }
  }

  /** A changed file with the same name, count and ghost mark, and a table with the same holders. */
  lemma ReplaceFileKeepsInv(s: Fs, ino: nat, f: File, table: seq<Option<Desc>>)
    requires Inv(s) && ino in s.files && SafeFile(f)
    requires f.name == s.files[ino].name && f.refs == s.files[ino].refs && f.isGhost == s.files[ino].isGhost
    requires |table| == |s.table|
    requires forall i :: 0 <= i < |table| ==>
               if table[i].None? then s.table[i].None?
               else
                 && s.table[i].Some? && table[i].value.inode == s.table[i].value.inode
                 && (table[i].value.inode != ino ==> table[i] == s.table[i])
                 && (table[i].value.inode == ino ==> table[i].value.offset <= BLOCK_SIZE * |f.blocks|)
    ensures Inv(s.(files := s.files[ino := f], table := table))
  {
    hide RefCount, UsedCount, SafeFile;
    forall x | x in s.files ensures RefCount(table, x) == RefCount(s.table, x) {
      SameInodesSameCount(table, s.table, x);
    }
    SameInodesSameCount(table, s.table, 0);
  }

  lemma WriteFileSafe(f: File, offset: nat, buf: seq<byte>, garbage: nat -> Buffer)
    requires SafeFile(f) && offset <= BLOCK_SIZE * |f.blocks|
    ensures var f' := WriteFile(f, offset, buf, garbage);
            && SafeFile(f')
            && |f'.blocks| >= |f.blocks|
            && offset + |buf| <= BLOCK_SIZE * |f'.blocks|
  {
    WriteLoopSafe(f.blocks, offset / BLOCK_SIZE, offset, buf, garbage);
  }

  lemma EmptyKeepsInv(e: ErrorCode, next: nat)
    ensures Inv(EMPTY_FS.(error := e, nextInode := next))
  {
  }

  lemma ErrorKeepsInv(s: Fs, e: ErrorCode)
    requires Inv(s)
    ensures Inv(s.(error := e))
  {
  }

  lemma WriteAtKeepsInv(s: Fs, i: nat, buf: seq<byte>, garbage: nat -> Buffer)
    requires Inv(s) && Holds(s, i)
    ensures Inv(WriteAt(s, i, buf, garbage))
  {
    hide RefCount, UsedCount, WriteLoop, SafeFile;
    var d := s.table[i].value;
    WriteFileSafe(s.files[d.inode], d.offset, buf, garbage);
    var f' := WriteFile(s.files[d.inode], d.offset, buf, garbage);
    ReplaceFileKeepsInv(s, d.inode, f', SetOffset(s.table, i, d.offset + |buf|));
  }

  lemma WriteKeepsInv(s: Fs, fd: int, buf: seq<byte>, garbage: nat -> Buffer)
    requires Inv(s)
    ensures Inv(Write(s, fd, buf, garbage).fs)
  {
    if Lookup(s, fd).Some? {
      WriteAtKeepsInv(s, fd - 1, buf, garbage);
    }
    hide Inv, WriteAt;
    ErrorKeepsInv(s, Write(s, fd, buf, garbage).fs.error);
  }

  lemma {:induction false} ReadLoopBound(blocks: seq<Block>, k: nat, offset: nat, n: nat)
    requires k <= |blocks|
    requires forall b :: b in blocks ==> b.occupied <= BLOCK_SIZE
    requires offset <= BLOCK_SIZE * |blocks| && offset / BLOCK_SIZE <= k
    ensures |ReadLoop(blocks, k, offset, n)| <= n
    ensures offset + |ReadLoop(blocks, k, offset, n)| <= BLOCK_SIZE * |blocks|
    decreases |blocks| - k
  {
    if k < |blocks| && n > 0 && offset % BLOCK_SIZE < blocks[k].occupied {
      assert blocks[k] in blocks;
      var c := Min(blocks[k].occupied - offset % BLOCK_SIZE, n);
      ReadLoopBound(blocks, k + 1, offset + c, n - c);
    }
  }

  lemma ReadKeepsBound(s: Fs, i: nat, n: nat)
    requires Inv(s) && Holds(s, i)
    ensures |ReadFile(FileOf(s, i), s.table[i].value.offset, n)| <= n
  {
    hide RefCount, UsedCount, ReadLoop;
    var d := s.table[i].value;
    ReadLoopBound(s.files[d.inode].blocks, d.offset / BLOCK_SIZE, d.offset, n);
  }

  lemma ReadAtKeepsInv(s: Fs, i: nat, n: nat)
    requires Inv(s) && Holds(s, i)
    ensures Inv(Advance(s, i, ReadFile(FileOf(s, i), s.table[i].value.offset, n)))
  {
    hide RefCount, UsedCount, ReadLoop;
    var d := s.table[i].value;
    var f := s.files[d.inode];
    ReadLoopBound(f.blocks, d.offset / BLOCK_SIZE, d.offset, n);
    assert s.files[d.inode := f] == s.files;
    ReplaceFileKeepsInv(s, d.inode, f, SetOffset(s.table, i, d.offset + |ReadFile(f, d.offset, n)|));
  }

  lemma ReadKeepsInv(s: Fs, fd: int, n: nat)
    requires Inv(s)
    ensures Inv(Read(s, fd, n).fs)
  {
    if Lookup(s, fd).Some? {
      ReadAtKeepsInv(s, fd - 1, n);
    }
    hide Inv, ReadFile;
    ErrorKeepsInv(s, Read(s, fd, n).fs.error);
  }

  /** Everything but the clause that makes a file without descriptors visible, for the file `ino`. */
  ghost predicate InvButFor(s: Fs, ino: nat) {
    && Listed(s)
    && UniqueNames(s)
    && Tabled(s)
    && (forall x :: x in s.files ==>
          && s.files[x].refs == RefCount(s.table, x)
          && (s.files[x].isGhost && x != ino ==> s.files[x].refs > 0))
    && (forall x :: x in s.files ==> SafeFile(s.files[x]))
  }

  /** A file nobody holds can go: no descriptor reaches it. */
  lemma ReleaseKeepsInv(s: Fs, ino: nat)
    requires InvButFor(s, ino) && ino in s.files && s.files[ino].refs == 0
    ensures Inv(Release(s, ino))
  {
    hide RefCount, UsedCount, Without, Distinct, SafeFile;
    AbsentCount(s.table, ino);
    assert forall i :: 0 <= i < |s.table| && s.table[i].Some? ==> Hit(s.table[i], ino) == 0;
    WithoutMembers(s.order, ino);
  }

  /** Slot `i` given back, the file staying. */
  function DropDesc(s: Fs, i: nat): Fs
    requires i < |s.table| && s.table[i].Some? && s.table[i].value.inode in s.files
  {
    var ino := s.table[i].value.inode;
    var f := s.files[ino];
    s.(files := s.files[ino := f.(refs := f.refs - 1)], table := s.table[i := None], used := s.used - 1)
  }

  lemma DropDescKeepsInv(s: Fs, i: nat)
    requires Inv(s) && i < |s.table| && s.table[i].Some?
    ensures s.table[i].value.inode in s.files
    ensures var ino, less := s.table[i].value.inode, DropDesc(s, i);
            InvButFor(less, ino) && ino in less.files && less.files[ino].refs >= 0
  {
    hide RefCount, UsedCount;
    var ino := s.table[i].value.inode;
    var t := s.table[i := None];
    forall x | x in s.files ensures RefCount(t, x) == RefCount(s.table, x) - (if x == ino then 1 else 0) {
      CountsAfterUpdate(s.table, i, None, x);
    }
    CountsAfterUpdate(s.table, i, None, ino);
  }

  lemma NobodyHolds(s: Fs, n: nat)
    requires Inv(s) && n in s.files
    ensures s.files[n].refs <= 0 ==> forall j :: 0 <= j < |s.table| && s.table[j].Some? ==> s.table[j].value.inode != n
  {
    AbsentCount(s.table, n);
    if s.files[n].refs <= 0 {
      forall j | 0 <= j < |s.table| && s.table[j].Some? ensures s.table[j].value.inode != n {
        assert Hit(s.table[j], n) == 0;
      }
    }
  }

  /** A slot other than `i` holds file `n`. */
  ghost predicate HeldElsewhere(s: Fs, i: nat, n: nat) {
    exists j :: 0 <= j < |s.table| && j != i && s.table[j].Some? && s.table[j].value.inode == n
  }

  lemma NobodyElseHolds(s: Fs, i: nat)
    requires Inv(s) && i < |s.table| && s.table[i].Some?
    ensures var n := s.table[i].value.inode; s.files[n].refs - 1 <= 0 <==> !HeldElsewhere(s, i, n)
  {
    var n, t := s.table[i].value.inode, s.table[i := None];
    DropDescKeepsInv(s, i);
    AbsentCount(t, n);
    CountsAfterUpdate(s.table, i, None, n);
    hide RefCount, UsedCount;
    forall j | 0 <= j < |s.table|
      ensures Hit(t[j], n) != 0 <==> j != i && s.table[j].Some? && s.table[j].value.inode == n
    {
    }
  }

  /** A close of an open descriptor empties its slot and changes no other file. Its own stays with one reference less,
      unless it is a ghost that no other slot holds: then it goes. */
  lemma CloseIs(s: Fs, fd: int)
    requires Inv(s) && Lookup(s, fd).Some?
    ensures Holds(s, fd - 1) && s.table[fd - 1].value.inode in s.files
    ensures var t, i, n := Close(s, fd).fs, fd - 1, s.table[fd - 1].value.inode;
            && Close(s, fd).ret == 0 && t.table == s.table[i := None] && t.used == s.used - 1
            && (forall x :: x != n ==> (x in t.files <==> x in s.files) && (x in t.files ==> t.files[x] == s.files[x]))
            && (n in t.files <==> !s.files[n].isGhost || HeldElsewhere(s, i, n))
            && (n in t.files ==> t.files[n] == s.files[n].(refs := s.files[n].refs - 1))
            && (forall x :: x in t.order <==> x in t.files)
  {
    hide RefCount, UsedCount, Without, Distinct, SafeFile, UniqueNames, Counted, HeldElsewhere;
    NobodyElseHolds(s, fd - 1);
    WithoutMembers(s.order, s.table[fd - 1].value.inode);
  }

  /** A close, step by step. */
  lemma CloseSteps(s: Fs, fd: int)
    requires Inv(s) && Lookup(s, fd).Some?
    ensures Holds(s, fd - 1) && s.table[fd - 1].value.inode in s.files
    ensures var ino, less := s.table[fd - 1].value.inode, DropDesc(s, fd - 1);
            && ino in less.files
            && var over := less.files[ino].refs <= 0 && less.files[ino].isGhost;
               Close(s, fd).fs == if over then Release(less, ino) else less
  {
    hide RefCount, UsedCount, Without, SafeFile, Listed, UniqueNames, Counted;
  }

  lemma CloseKeepsInv(s: Fs, fd: int)
    requires Inv(s)
    ensures Inv(Close(s, fd).fs)
  {
    hide Inv, Close, Release, InvButFor, DropDesc;
    if Lookup(s, fd).Some? {
      CloseSteps(s, fd);
      var ino, less := s.table[fd - 1].value.inode, DropDesc(s, fd - 1);
      DropDescKeepsInv(s, fd - 1);
      if less.files[ino].refs <= 0 && less.files[ino].isGhost {
        ReleaseKeepsInv(less, ino);
      } else {
        NotReleased(less, ino);
      }
    } else {
      CloseFails(s, fd);
      ErrorKeepsInv(s, NO_FILE);
    }
  }

  lemma CloseFails(s: Fs, fd: int)
    requires Inv(s) && Lookup(s, fd).None?
    ensures Close(s, fd).fs == s.(error := NO_FILE)
  {
  }

  /** A file that is named or open may stay. */
  lemma NotReleased(s: Fs, ino: nat)
    requires InvButFor(s, ino) && ino in s.files && (s.files[ino].isGhost ==> s.files[ino].refs > 0)
    ensures Inv(s)
  {
    hide RefCount, UsedCount, SafeFile;
  }

  lemma DeleteKeepsInv(s: Fs, name: string)
    requires Inv(s)
    ensures Inv(Delete(s, name).fs)
  {
    hide RefCount, UsedCount, Without;
    FindSound(s, name, 0);
    var found := Find(s, name, 0);
    if found.Some? && s.files[found.value].refs <= 0 {
      ReleaseKeepsInv(s, found.value);
    }
  }

  lemma ShrinkAtKeepsInv(s: Fs, i: nat, newSize: nat)
    requires Inv(s) && Holds(s, i) && newSize < FileOf(s, i).size
    ensures Inv(ShrinkAt(s, i, newSize))
  {
    hide RefCount, UsedCount, Shrink, SafeFile;
    var ino := s.table[i].value.inode;
    ShrinkSafe(s.files[ino], newSize);
    ReplaceFileKeepsInv(s, ino, Shrink(s.files[ino], newSize), Clamp(s.table, ino, newSize));
  }

  lemma GrowAtKeepsInv(s: Fs, i: nat, newSize: nat)
    requires Inv(s) && Holds(s, i) && FileOf(s, i).size < newSize
    ensures Inv(GrowAt(s, i, newSize))
  {
    hide RefCount, UsedCount, Grow, SafeFile;
    var ino := s.table[i].value.inode;
    GrowSafe(s.files[ino], newSize);
    ReplaceFileKeepsInv(s, ino, Grow(s.files[ino], newSize), s.table);
  }

  lemma ResizeKeepsInv(s: Fs, fd: int, newSize: nat)
    requires Inv(s)
    ensures Inv(Resize(s, fd, newSize).fs)
  {
    var found := Lookup(s, fd);
    if found.Some? {
      var f := s.files[found.value.inode];
      if newSize < f.size {
        ShrinkAtKeepsInv(s, fd - 1, newSize);
      } else if f.size < newSize <= MAX_FILE_SIZE {
        GrowAtKeepsInv(s, fd - 1, newSize);
      }
    }
    hide Inv, Shrink, Grow, Clamp;
    ErrorKeepsInv(s, Resize(s, fd, newSize).fs.error);
  }

  lemma InvKept(s: Fs, c: Call)
    requires Inv(s)
    ensures Inv(Apply(s, c).fs)
  {
    match c
    case CallOpen(name, flags) => OpenKeepsInv(s, name, flags);
    case CallWrite(fd, buf, garbage) => WriteKeepsInv(s, fd, buf, garbage);
    case CallRead(fd, count) => ReadKeepsInv(s, fd, count);
    case CallClose(fd) => CloseKeepsInv(s, fd);
    case CallDelete(name) => DeleteKeepsInv(s, name);
    case CallResize(fd, newSize) => ResizeKeepsInv(s, fd, newSize);
  }

  /** The state after a whole run. */
  function Run(s: Fs, calls: seq<Call>): Fs
    requires Inv(s)
    decreases |calls|
  {
    if calls == [] then s
    else
      InvKept(s, calls[0]);
      Run(Apply(s, calls[0]).fs, calls[1..])
  }

  /** No run, in or out of the refinement domain, leaves the invariant. */
  lemma {:induction false} InvOfEveryRun(calls: seq<Call>)
    ensures Inv(EMPTY_FS)
    ensures Inv(Run(EMPTY_FS, calls))
  {
    InvOfRunFrom(EMPTY_FS, calls);
  }

  lemma {:induction false} InvOfRunFrom(s: Fs, calls: seq<Call>)
    requires Inv(s)
    ensures Inv(Run(s, calls))
    decreases |calls|
  {
    if calls != [] {
      InvKept(s, calls[0]);
      InvOfRunFrom(Apply(s, calls[0]).fs, calls[1..]);
    }
  }
}
