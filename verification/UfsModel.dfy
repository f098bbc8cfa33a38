/**
 UserFS on values: what each call of homework-03/userfs.c computes, block by block and for every
 state the code can reach, including the states left behind by a write that starts in a full block.
 The classes in UserFs.dfy are proved equal to these functions; UfsRefinement.dfy relates them to
 the block-free specification in UfsSpec.dfy.
 */
module UfsModel {
  import opened Common

  const BLOCK_SIZE: nat := 512
  const MAX_FILE_SIZE: nat := 1024 * 1024 * 100
  const INITIAL_CAPACITY: nat := 10

  newtype byte = x: int | 0 <= x < 256

  /** The contents of one `malloc(BLOCK_SIZE)`. */
  type Buffer = b: seq<byte> | |b| == BLOCK_SIZE witness seq(BLOCK_SIZE, _ => 0)

  /** The contents of one `calloc(BLOCK_SIZE, 1)`. */
  function ZeroBuffer(): Buffer {
    seq(BLOCK_SIZE, _ => 0)
  }

  datatype OpenFlag = CREATE | READ_ONLY | WRITE_ONLY | READ_WRITE

  datatype ErrorCode = NO_ERR | NO_FILE | NO_MEM | NOT_IMPLEMENTED | NO_PERMISSION

  datatype Block = Block(memory: Buffer, occupied: nat)

  datatype File = File(name: string, blocks: seq<Block>, size: nat, refs: int, isGhost: bool)

  datatype Desc = Desc(inode: nat, flags: set<OpenFlag>, offset: nat)

  /** `order` is the file list, front first; `table` the descriptor array (fd is the index plus one). */
  datatype Fs = Fs(files: map<nat, File>, order: seq<nat>, table: seq<Option<Desc>>, used: int,
                   error: ErrorCode, nextInode: nat)

  /** The new state, the C return value, and the bytes a read copied out. */
  datatype Outcome = Outcome(fs: Fs, ret: int, data: seq<byte>)

  const EMPTY_FS := Fs(map[], [], [], 0, NO_ERR, 0)

  function Fail(s: Fs, e: ErrorCode): Outcome {
    Outcome(s.(error := e), -1, [])
  }

  // ---------- blocks of one file ----------

  function PutBytes(memory: Buffer, at: nat, src: seq<byte>): Buffer
    requires at + |src| <= BLOCK_SIZE
  {
    memory[..at] + src + memory[at + |src|..]
  }

  function PutInBlock(b: Block, at: nat, src: seq<byte>): Block
    requires at + |src| <= BLOCK_SIZE
  {
    Block(PutBytes(b.memory, at, src), Max(b.occupied, at + |src|))
  }

  /** The loop body's test: `k` is the current block, |blocks| standing for NULL. */
  predicate Appends(blocks: seq<Block>, k: nat)
    requires k <= |blocks|
  {
    k == |blocks| || blocks[k].occupied == BLOCK_SIZE
  }

  /** How much one pass of the write loop copies. */
  function ChunkSize(offset: nat, left: nat): nat {
    Min(left, BLOCK_SIZE - offset % BLOCK_SIZE)
  }

  /** The block one pass works on. */
  function Current(blocks: seq<Block>, k: nat): nat
    requires k <= |blocks|
  {
    if Appends(blocks, k) then |blocks| else k
  }

  /** One pass of the write loop; `blank` is what malloc returned, should a block be appended. */
  function PutChunk(blocks: seq<Block>, k: nat, offset: nat, chunk: seq<byte>, blank: Buffer): seq<Block>
    requires k <= |blocks|
    requires |chunk| <= BLOCK_SIZE - offset % BLOCK_SIZE
  {
    var wide := if Appends(blocks, k) then blocks + [Block(blank, 0)] else blocks;
    var current := Current(blocks, k);
    wide[current := PutInBlock(wide[current], offset % BLOCK_SIZE, chunk)]
  }

  /** The write loop; `garbage(o)` is what malloc returns for the block appended at offset o. */
  function WriteLoop(blocks: seq<Block>, k: nat, offset: nat, buf: seq<byte>, garbage: nat -> Buffer): seq<Block>
    requires k <= |blocks|
    decreases |buf|
  {
    if buf == [] then blocks
    else
      var n := ChunkSize(offset, |buf|);
      WriteLoop(PutChunk(blocks, k, offset, buf[..n], garbage(offset)), Current(blocks, k), offset + n, buf[n..],
                garbage)
  }

  /** The read loop from block `k`. */
  function ReadLoop(blocks: seq<Block>, k: nat, offset: nat, n: nat): seq<byte>
    requires k <= |blocks|
    requires forall b :: b in blocks ==> b.occupied <= BLOCK_SIZE
    decreases |blocks| - k
  {
    if k == |blocks| || n == 0 then []
    else
      var at := offset % BLOCK_SIZE;
      if at >= blocks[k].occupied then []
      else
        var c := Min(blocks[k].occupied - at, n);
        blocks[k].memory[at..at + c] + ReadLoop(blocks, k + 1, offset + c, n - c)
  }

  function BlockCount(size: nat): nat {
    (size + BLOCK_SIZE - 1) / BLOCK_SIZE
  }

  function LastOccupied(size: nat): nat {
    if size % BLOCK_SIZE == 0 then BLOCK_SIZE else size % BLOCK_SIZE
  }

  function SetLast(blocks: seq<Block>, occupied: nat): seq<Block> {
    if blocks == [] then [] else blocks[|blocks| - 1 := blocks[|blocks| - 1].(occupied := occupied)]
  }

  function DropBlocks(blocks: seq<Block>, count: nat): seq<Block>
    requires count <= |blocks|
  {
    blocks[..|blocks| - count]
  }

  /** `count` zeroed blocks at the end; each one first marks its predecessor full. */
  function AddBlocks(blocks: seq<Block>, count: nat): seq<Block>
    decreases count
  {
    if count == 0 then blocks else AddBlocks(SetLast(blocks, BLOCK_SIZE) + [Block(ZeroBuffer(), 0)], count - 1)
  }

  function Shrink(f: File, newSize: nat): File
    requires SafeFile(f) && newSize < f.size
  {
    var bs := DropBlocks(f.blocks, Max(0, BlockCount(f.size) - BlockCount(newSize)));
    if bs == [] then f.(blocks := [], size := 0)
    else f.(blocks := SetLast(bs, LastOccupied(newSize)), size := newSize)
  }

  function Grow(f: File, newSize: nat): File
    requires f.size < newSize
  {
    var count := Max(0, BlockCount(newSize) - BlockCount(f.size));
    f.(blocks := SetLast(AddBlocks(f.blocks, count), LastOccupied(newSize)), size := newSize)
  }

  // ---------- the file list and the descriptor table ----------

  function Normalize(flags: set<OpenFlag>): set<OpenFlag> {
    if READ_ONLY !in flags && WRITE_ONLY !in flags then flags + {READ_WRITE} else flags
  }

  function Find(s: Fs, name: string, i: nat): Option<nat>
    requires forall ino :: ino in s.order ==> ino in s.files
    decreases |s.order| - i
  {
    if i >= |s.order| then None
    else
      var f := s.files[s.order[i]];
      if !f.isGhost && f.name == name then Some(s.order[i]) else Find(s, name, i + 1)
  }

  function Lookup(s: Fs, fd: int): Option<Desc> {
    if fd - 1 < 0 || fd - 1 >= |s.table| then None else s.table[fd - 1]
  }

  function Empties(n: nat): seq<Option<Desc>> {
    seq(n, _ => None)
  }

  /** The first free slot at or after `i`, or -1. */
  function FirstFree(table: seq<Option<Desc>>, i: nat): (idx: int)
    ensures idx == -1 || i <= idx < |table|
    decreases |table| - i
  {
    if i >= |table| then -1 else if table[i].None? then i else FirstFree(table, i + 1)
  }

  function RefCount(table: seq<Option<Desc>>, ino: nat): nat {
    if table == [] then 0
    else (if table[0].Some? && table[0].value.inode == ino then 1 else 0) + RefCount(table[1..], ino)
  }

  function UsedCount(table: seq<Option<Desc>>): nat {
    if table == [] then 0 else (if table[0].Some? then 1 else 0) + UsedCount(table[1..])
  }

  /** `_ufs_unlink_file` and `_ufs_free_file`. */
  function Release(s: Fs, ino: nat): Fs {
    s.(files := s.files - {ino}, order := Without(s.order, ino))
  }

  // ---------- what always holds ----------

  predicate SafeFile(f: File) {
    && (forall b :: b in f.blocks ==> b.occupied <= BLOCK_SIZE)
    && f.size <= BLOCK_SIZE * |f.blocks|
  }

  ghost predicate Listed(s: Fs) {
    && Distinct(s.order)
    && (forall ino :: ino in s.order ==> ino in s.files)
    && (forall ino :: ino in s.files ==> ino in s.order)
    && (forall ino :: ino in s.files ==> ino < s.nextInode)
  }

  ghost predicate UniqueNames(s: Fs) {
    forall a, b | a in s.files && b in s.files && !s.files[a].isGhost && !s.files[b].isGhost ::
      s.files[a].name == s.files[b].name ==> a == b
  }

  ghost predicate Tabled(s: Fs) {
    && s.used == UsedCount(s.table)
    && (|s.table| == 0 || |s.table| >= INITIAL_CAPACITY)
    && (forall i :: 0 <= i < |s.table| && s.table[i].Some? ==>
          && s.table[i].value.inode in s.files
          && s.table[i].value.offset <= BLOCK_SIZE * |s.files[s.table[i].value.inode].blocks|)
  }

  ghost predicate Counted(s: Fs) {
    forall ino :: ino in s.files ==>
      && s.files[ino].refs == RefCount(s.table, ino)
      && (s.files[ino].isGhost ==> s.files[ino].refs > 0)
  }

  /** The invariant of every run, inside and outside the refinement domain. */
  ghost predicate Inv(s: Fs) {
    && Listed(s)
    && UniqueNames(s)
    && Tabled(s)
    && Counted(s)
    && (forall ino :: ino in s.files ==> SafeFile(s.files[ino]))
  }

  // ---------- the calls ----------

  function EnsureTable(s: Fs): Fs {
    if |s.table| == 0 then s.(table := Empties(INITIAL_CAPACITY), used := 0) else s
  }

  function CreateFile(s: Fs, name: string): Fs {
    s.(files := s.files[s.nextInode := File(name, [], 0, 0, false)],
       order := [s.nextInode] + s.order,
       nextInode := s.nextInode + 1)
  }

  /** Put a fresh descriptor into slot `idx`. */
  function Install(s: Fs, idx: nat, ino: nat, flags: set<OpenFlag>): Fs
    requires idx < |s.table| && ino in s.files
  {
    var f := s.files[ino];
    s.(table := s.table[idx := Some(Desc(ino, flags, 0))],
       used := s.used + 1,
       files := s.files[ino := f.(refs := f.refs + 1)])
  }

  function OpenAt(s: Fs, ino: nat, flags: set<OpenFlag>): Outcome
    requires ino in s.files && 0 <= s.used
    requires 0 < |s.table|
    requires s.used >= |s.table| ==> s.used == |s.table|
  {
    if s.used < |s.table| then
      var idx := FirstFree(s.table, 0);
      if idx < 0 then Fail(s, NOT_IMPLEMENTED)
      else Outcome(Install(s, idx, ino, flags), idx + 1, [])
    else
      var wide := s.(table := s.table + Empties(|s.table|));
      Outcome(Install(wide, s.used, ino, flags), s.used + 1, [])
  }

  function Open(s: Fs, name: string, flags: set<OpenFlag>): Outcome
    requires Inv(s)
  {
    UsedBound(s.table);
    match Find(s, name, 0)
    case Some(ino) =>
      FindSound(s, name, 0);
      OpenAt(EnsureTable(s), ino, Normalize(flags))
    case None =>
      if CREATE !in flags then Fail(s, NO_FILE)
      else OpenAt(EnsureTable(CreateFile(s, name)), s.nextInode, Normalize(flags))
  }

  predicate CanWrite(flags: set<OpenFlag>) {
    WRITE_ONLY in flags || READ_WRITE in flags
  }

  predicate CanRead(flags: set<OpenFlag>) {
    READ_ONLY in flags || READ_WRITE in flags
  }

  function SetOffset(table: seq<Option<Desc>>, i: nat, offset: nat): seq<Option<Desc>>
    requires i < |table| && table[i].Some?
  {
    table[i := Some(table[i].value.(offset := offset))]
  }

  function WriteFile(f: File, offset: nat, buf: seq<byte>, garbage: nat -> Buffer): File
    requires offset <= BLOCK_SIZE * |f.blocks|
  {
    f.(blocks := WriteLoop(f.blocks, offset / BLOCK_SIZE, offset, buf, garbage), size := Max(f.size, offset + |buf|))
  }

  predicate Holds(s: Fs, i: nat) {
    i < |s.table| && s.table[i].Some?
  }

  /** The file behind descriptor slot `i`. */
  function FileOf(s: Fs, i: nat): File
    requires Tabled(s) && Holds(s, i)
  {
    s.files[s.table[i].value.inode]
  }

  /** The state after storing `buf` through slot `i`. */
  function WriteAt(s: Fs, i: nat, buf: seq<byte>, garbage: nat -> Buffer): Fs
    requires Inv(s) && Holds(s, i)
  {
    var d := s.table[i].value;
    s.(files := s.files[d.inode := WriteFile(s.files[d.inode], d.offset, buf, garbage)],
       table := SetOffset(s.table, i, d.offset + |buf|))
  }

  function Write(s: Fs, fd: int, buf: seq<byte>, garbage: nat -> Buffer): Outcome
    requires Inv(s)
  {
    match Lookup(s, fd)
    case None => Fail(s, NO_FILE)
    case Some(d) =>
      var f := s.files[d.inode];
      if !CanWrite(d.flags) then Fail(s, NO_PERMISSION)
      else if |buf| == 0 then Outcome(s, 0, [])
      else if f.size + |buf| > MAX_FILE_SIZE then Fail(s, NO_MEM)
      else Outcome(WriteAt(s, fd - 1, buf, garbage), |buf|, [])
  }

  function ReadFile(f: File, offset: nat, n: nat): seq<byte>
    requires SafeFile(f) && offset <= BLOCK_SIZE * |f.blocks|
  {
    if offset >= f.size then [] else ReadLoop(f.blocks, offset / BLOCK_SIZE, offset, n)
  }

  /** The state after reading `data` through slot `i`. */
  function Advance(s: Fs, i: nat, data: seq<byte>): Fs
    requires Holds(s, i)
  {
    s.(table := SetOffset(s.table, i, s.table[i].value.offset + |data|))
  }

  function Read(s: Fs, fd: int, n: nat): Outcome
    requires Inv(s)
  {
    match Lookup(s, fd)
    case None => Fail(s, NO_FILE)
    case Some(d) =>
      if !CanRead(d.flags) then Fail(s, NO_PERMISSION)
      else
        var data := ReadFile(s.files[d.inode], d.offset, n);
        Outcome(Advance(s, fd - 1, data), |data|, data)
  }

  function Close(s: Fs, fd: int): Outcome
    requires Inv(s)
  {
    match Lookup(s, fd)
    case None => Fail(s, NO_FILE)
    case Some(d) =>
      var f := s.files[d.inode];
      var less := s.(files := s.files[d.inode := f.(refs := f.refs - 1)]);
      var kept := if f.refs - 1 <= 0 && f.isGhost then Release(less, d.inode) else less;
      Outcome(kept.(table := s.table[fd - 1 := None], used := s.used - 1), 0, [])
  }

  function Delete(s: Fs, name: string): Outcome
    requires Inv(s)
  {
    match Find(s, name, 0)
    case None => Fail(s, NO_FILE)
    case Some(ino) =>
      FindSound(s, name, 0);
      var f := s.files[ino];
      if f.refs <= 0 then Outcome(Release(s, ino), 0, [])
      else Outcome(s.(files := s.files[ino := f.(isGhost := true)]), 0, [])
  }

  /** After a shrink: every descriptor of this file beyond the new end moves to the new end. */
  function Clamp(table: seq<Option<Desc>>, ino: nat, size: nat): (clamped: seq<Option<Desc>>)
    ensures |clamped| == |table|
  {
    seq(|table|, i requires 0 <= i < |table| =>
      if table[i].Some? && table[i].value.inode == ino && table[i].value.offset > size
      then Some(table[i].value.(offset := size)) else table[i])
  }

  function ShrinkAt(s: Fs, i: nat, newSize: nat): Fs
    requires Inv(s) && Holds(s, i) && newSize < FileOf(s, i).size
  {
    var ino := s.table[i].value.inode;
    s.(files := s.files[ino := Shrink(s.files[ino], newSize)], table := Clamp(s.table, ino, newSize))
  }

  function GrowAt(s: Fs, i: nat, newSize: nat): Fs
    requires Inv(s) && Holds(s, i) && FileOf(s, i).size < newSize
  {
    var ino := s.table[i].value.inode;
    s.(files := s.files[ino := Grow(s.files[ino], newSize)])
  }

  function Resize(s: Fs, fd: int, newSize: nat): Outcome
    requires Inv(s)
  {
    match Lookup(s, fd)
    case None => Fail(s, NO_FILE)
    case Some(d) =>
      var f := s.files[d.inode];
      if newSize == f.size then Outcome(s, 0, [])
      else if newSize < f.size then
        Outcome(ShrinkAt(s, fd - 1, newSize), 0, [])
      else if newSize > MAX_FILE_SIZE then Fail(s, NO_MEM)
      else Outcome(GrowAt(s, fd - 1, newSize), 0, [])
  }

  // ---------- whole runs ----------

  datatype Call =
    | CallOpen(name: string, flags: set<OpenFlag>)
    | CallWrite(fd: int, buf: seq<byte>, garbage: nat -> Buffer)
    | CallRead(fd: int, count: nat)
    | CallClose(fd: int)
    | CallDelete(name: string)
    | CallResize(fd: int, newSize: nat)

  function Apply(s: Fs, c: Call): Outcome
    requires Inv(s)
  {
    match c
    case CallOpen(name, flags) => Open(s, name, flags)
    case CallWrite(fd, buf, garbage) => Write(s, fd, buf, garbage)
    case CallRead(fd, count) => Read(s, fd, count)
    case CallClose(fd) => Close(s, fd)
    case CallDelete(name) => Delete(s, name)
    case CallResize(fd, newSize) => Resize(s, fd, newSize)
  }

  // ---------- facts the definitions above rest on ----------

  lemma UsedBound(table: seq<Option<Desc>>)
    ensures UsedCount(table) <= |table|
  {
  }

  lemma FindSound(s: Fs, name: string, i: nat)
    requires forall ino :: ino in s.order ==> ino in s.files
    ensures Find(s, name, i).Some? ==>
              var ino := Find(s, name, i).value;
              ino in s.order && !s.files[ino].isGhost && s.files[ino].name == name
    ensures Find(s, name, i).None? ==>
              forall j :: i <= j < |s.order| ==> s.files[s.order[j]].isGhost || s.files[s.order[j]].name != name
    decreases |s.order| - i
  {
    if i < |s.order| {
      FindSound(s, name, i + 1);
    }
  }

  // ---------- the loops, one pass at a time ----------

  lemma WriteNothing(blocks: seq<Block>, k: nat, offset: nat, garbage: nat -> Buffer)
    requires k <= |blocks|
    ensures WriteLoop(blocks, k, offset, [], garbage) == blocks
  {
  }

  lemma WriteLoopStep(blocks: seq<Block>, k: nat, offset: nat, buf: seq<byte>, garbage: nat -> Buffer)
    requires buf != [] && k <= |blocks|
    ensures var n := ChunkSize(offset, |buf|);
            var next := PutChunk(blocks, k, offset, buf[..n], garbage(offset));
            && 0 < n <= |buf|
            && Current(blocks, k) < |next|
            && WriteLoop(blocks, k, offset, buf, garbage) == WriteLoop(next, Current(blocks, k), offset + n, buf[n..],
                                                                       garbage)
  {
  }

  lemma ReadLoopStep(blocks: seq<Block>, k: nat, offset: nat, n: nat)
    requires k < |blocks| && n > 0 && offset % BLOCK_SIZE < blocks[k].occupied
    requires forall b :: b in blocks ==> b.occupied <= BLOCK_SIZE
    ensures var at := offset % BLOCK_SIZE;
            var c := Min(blocks[k].occupied - at, n);
            && 0 < c <= n && at + c <= blocks[k].occupied <= BLOCK_SIZE
            && ReadLoop(blocks, k, offset, n) == blocks[k].memory[at..at + c] + ReadLoop(blocks, k + 1, offset + c,
                                                                                         n - c)
  {
    assert blocks[k] in blocks;
  }

  lemma AddBlocksStep(blocks: seq<Block>, count: nat)
    ensures AddBlocks(blocks, 0) == blocks
    ensures count > 0 ==>
              AddBlocks(blocks, count) == AddBlocks(SetLast(blocks, BLOCK_SIZE) + [Block(ZeroBuffer(), 0)], count - 1)
  {
  }

  lemma Associate(a: seq<byte>, b: seq<byte>, c: seq<byte>)
    ensures a + (b + c) == (a + b) + c
  {
  }

  lemma ReadNothing(blocks: seq<Block>, k: nat, offset: nat)
    requires k <= |blocks|
    requires forall b :: b in blocks ==> b.occupied <= BLOCK_SIZE
    ensures ReadLoop(blocks, k, offset, 0) == []
    ensures k == |blocks| || offset % BLOCK_SIZE >= blocks[k].occupied ==>
              forall n: nat :: ReadLoop(blocks, k, offset, n) == []
  {
  }
}
