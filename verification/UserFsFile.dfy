/**
 One UserFS file on the heap: the doubly linked blocks of homework-03/userfs.c and the loops that walk,
 fill, read and cut them. `contents` is the file's value in UfsModel; `place` lists every heap object the
 blocks occupy, each with the one position it is reached from, so an object freed is an object dropped from it.
 */
module UserFsFile {
  import opened Common
  import M = UfsModel

  type byte = M.byte

  class Block {
    const memory: array<byte>
    var occupied: nat
    var next: Block?
    var prev: Block?

    /** A block whose memory holds `initial`: garbage after malloc, zeros after calloc. */
    constructor (initial: M.Buffer)
      ensures fresh(memory) && memory[..] == initial
      ensures occupied == 0 && next == null && prev == null
    {
      var buffer := new byte[M.BLOCK_SIZE](i requires 0 <= i < M.BLOCK_SIZE => initial[i]);
      memory := buffer;
      occupied, next, prev := 0, null, null;
    }
  }

  class FileDesc {
    const file: File
    const flags: set<M.OpenFlag>
    var offset: nat

    constructor (file: File, flags: set<M.OpenFlag>)
      ensures this.file == file && this.flags == flags && offset == 0
    {
      this.file, this.flags, offset := file, flags, 0;
    }
  }

  /** The characters behind `file->name`. */
  class Name {
    const text: string

    constructor (text: string)
      ensures this.text == text
    {
      this.text := text;
    }
  }

  /** The one way an object belongs to a file. */
  datatype Place = AsBlock(i: nat) | AsBuffer(i: nat) | AsName

  /** memcpy between arrays that do not overlap. */
  method CopyBytes(dst: array<byte>, at: nat, src: array<byte>, from: nat, n: nat)
    requires dst != src && at + n <= dst.Length && from + n <= src.Length
    modifies dst
    ensures dst[..] == old(dst[..at]) + src[from..from + n] + old(dst[at + n..])
  {
    forall i | 0 <= i < n {
      dst[at + i] := src[from + i];
    }
  }

  class File {
    var firstBlock: Block?
    var lastBlock: Block?
    var refs: int
    var isGhost: bool
    var size: nat
    const name: Name
    var next: File?
    var prev: File?
    ghost var blocks: seq<Block>
    ghost var contents: seq<M.Block>
    ghost var place: map<object, Place>

    /** Block `i` is where it should be, linked to its neighbours, and holds what the model says. */
    ghost predicate BlockOk(i: nat)
      requires i < |blocks| == |contents|
      reads `blocks, `contents, `place, place.Keys
    {
      var b := blocks[i];
      && b in place && place[b] == AsBlock(i)
      && b.memory in place && place[b.memory] == AsBuffer(i)
      && b.memory.Length == M.BLOCK_SIZE
      && contents[i] == M.Block(b.memory[..], b.occupied)
      && b.next == At(i + 1)
      && b.prev == At(i - 1)
    }

    /** The i-th block, NULL outside the list. */
    ghost function At(i: int): Block?
      reads `blocks
    {
      if 0 <= i < |blocks| then blocks[i] else null
    }

    /** Nothing is held but the name, the blocks and their buffers. */
    ghost predicate Reached(o: object)
      requires o in place
      reads `blocks, `place, place.Keys
    {
      match place[o]
      case AsBlock(i) => i < |blocks| && o == blocks[i]
      case AsBuffer(i) => i < |blocks| && blocks[i] in place && o == blocks[i].memory
      case AsName => o == name
    }

    /** The blocks are linked and accounted for; the two ends may be out of date. */
    ghost predicate Chain()
      reads `blocks, `contents, `place, place.Keys
    {
      && this !in place
      && name in place && place[name] == AsName
      && |blocks| == |contents|
      && (forall i :: 0 <= i < |blocks| ==> BlockOk(i))
      && (forall o :: o in place ==> Reached(o))
    }

    ghost predicate Valid()
      reads `firstBlock, `lastBlock, `blocks, `contents, `place, place.Keys
    {
      Chain() && |blocks| == |contents| && firstBlock == At(0) && lastBlock == At(|blocks| - 1)
    }

    ghost function View(): M.File
      reads `contents, `size, `refs, `isGhost
    {
      M.File(name.text, contents, size, refs, isGhost)
    }

    constructor (name: string)
      ensures Valid() && fresh(this.name) && place == map[this.name := AsName]
      ensures View() == M.File(name, [], 0, 0, false)
      ensures next == null && prev == null
    {
      var memory := new Name(name);
      this.name, isGhost, refs, size := memory, false, 0, 0;
      firstBlock, lastBlock, next, prev := null, null, null, null;
      blocks, contents, place := [], [], map[memory := AsName];
    }

    lemma BlocksDiffer()
      requires Chain()
      ensures forall i, j :: 0 <= i < j < |blocks| ==> blocks[i] != blocks[j]
    {
      forall i, j | 0 <= i < j < |blocks| ensures blocks[i] != blocks[j] {
        assert BlockOk(i) && BlockOk(j);
      }
    }

    lemma BlockFacts(k: nat)
      requires Chain() && k < |blocks|
      ensures |contents| == |blocks| && blocks[k] in place && blocks[k].memory in place
      ensures blocks[k].memory.Length == M.BLOCK_SIZE
      ensures contents[k] == M.Block(blocks[k].memory[..], blocks[k].occupied)
      ensures blocks[k].next == At(k + 1)
    {
      assert BlockOk(k);
    }

    /** refs++ */
    method Retain()
      modifies `refs
      ensures View() == old(View()).(refs := old(refs) + 1) && old(View()).refs == old(refs)
    {
      refs := refs + 1;
    }

    method Hide()
      modifies `isGhost
      ensures View() == old(View()).(isGhost := true)
    {
      isGhost := true;
    }

    /** refs-- */
    method Drop()
      modifies `refs
      ensures View() == old(View()).(refs := old(refs) - 1) && old(View()).refs == old(refs)
    {
      refs := refs - 1;
    }

    /** `for (i = 0; i < steps; i++) block = block->next;` never leaves the list. */
    method Walk(steps: nat) returns (block: Block?)
      requires Valid() && steps <= |blocks|
      ensures block == At(steps)
    {
      block := firstBlock;
      for i := 0 to steps
        invariant block == At(i)
      {
        assert BlockOk(i);
        block := block.next;
      }
    }

    /** Only the last block's `next` changed, and a block follows it. */
    twostate lemma AfterAppend(new block: Block)
      requires old(Valid())
      requires forall i :: 0 <= i < |old(blocks)| ==>
        var b := old(blocks)[i];
        && b.prev == old(b.prev) && b.occupied == old(b.occupied) && b.memory[..] == old(b.memory[..])
        && b.next == (if i + 1 < |old(blocks)| then old(b.next) else block)
      requires fresh(block) && fresh(block.memory) && block.memory.Length == M.BLOCK_SIZE
      requires block.memory != (block as object)
      requires block.next == null && block.prev == old(lastBlock)
      requires blocks == old(blocks) + [block]
      requires contents == old(contents) + [M.Block(block.memory[..], block.occupied)]
      requires place == old(place)[block := AsBlock(|old(blocks)|)][block.memory := AsBuffer(|old(blocks)|)]
      requires firstBlock == (if old(firstBlock) == null then block else old(firstBlock)) && lastBlock == block
      ensures Valid()
    {
      forall i | 0 <= i < |old(blocks)| ensures BlockOk(i) {
        assert old(BlockOk(i));
      }
      forall o | o in place ensures Reached(o) {
        assert o in old(place) ==> old(Reached(o));
      }
    }

    /** The pointer changes that put `block` behind the last one. */
    method Link(block: Block)
      requires (firstBlock == null) == (lastBlock == null) && lastBlock != block && block.next == null
      modifies this`firstBlock, this`lastBlock, lastBlock, block`prev
      ensures firstBlock == (if old(firstBlock) == null then block else old(firstBlock)) && lastBlock == block
      ensures block.prev == old(lastBlock) && block.next == null
      ensures var last := old(lastBlock);
              last != null ==>
                   last.next == block && last.prev == old(lastBlock.prev) && last.occupied == old(lastBlock.occupied)
    {
      block.prev := lastBlock;
      if lastBlock == null {
        firstBlock := block;
        lastBlock := block;
      } else {
        lastBlock.next := block;
        lastBlock := block;
      }
    }

    method Append(initial: M.Buffer) returns (block: Block)
      requires Valid()
      modifies this`firstBlock, this`lastBlock, this`blocks, this`contents, this`place, lastBlock
      ensures Valid()
      ensures fresh(block) && fresh(block.memory) && blocks == old(blocks) + [block]
      ensures contents == old(contents) + [M.Block(initial, 0)]
      ensures place == old(place)[block := AsBlock(|old(blocks)|)][block.memory := AsBuffer(|old(blocks)|)]
    {
      ghost var n := |blocks|;
      BlocksDiffer();
      block := new Block(initial);
      Link(block);
      place := place[block := AsBlock(n)][block.memory := AsBuffer(n)];
      blocks := blocks + [block];
      contents := contents + [M.Block(initial, 0)];
      forall i | 0 <= i < n
        ensures var b := old(blocks)[i];
                && b.prev == old(b.prev) && b.occupied == old(b.occupied) && b.memory[..] == old(b.memory[..])
                && b.next == (if i + 1 < n then old(b.next) else block)
      {
        var b := old(blocks)[i];
        assert old(BlockOk(i));
        if i + 1 < n {
          assert b != old(lastBlock);
        } else {
          assert b == old(lastBlock);
        }
      }
      AfterAppend(block);
    }

    /** memcpy into block `k`, raising its occupied count when the copy ends beyond it. */
    method Store(block: Block, ghost k: nat, at: nat, buf: array<byte>, from: nat, n: nat)
      requires Valid() && k < |blocks| && block == blocks[k]
      requires buf !in place && from + n <= buf.Length && at + n <= M.BLOCK_SIZE
      modifies this`contents, block, block.memory
      ensures Valid()
      ensures contents == old(contents)[k := M.PutInBlock(old(contents)[k], at, buf[from..from + n])]
    {
      hide Valid, Chain, M.PutInBlock, Same;
      StoreFacts(k);
      ghost var was, src := contents[k], buf[from..from + n];
      PutIs(was, at, src);
      CopyBytes(block.memory, at, buf, from, n);
      if at + n > block.occupied {
        block.occupied := at + n;
      }
      contents := contents[k := M.PutInBlock(contents[k], at, src)];
      OthersStored(k);
      ChainStored(k);
      EndsKept();
    }

    /** What a store into block `k` needs to know of the others. */
    lemma StoreFacts(k: nat)
      requires Valid() && k < |blocks|
      ensures Chain() && |blocks| == |contents| && this !in place
      ensures var b := blocks[k];
              && b in place && b.memory in place && b.memory.Length == M.BLOCK_SIZE
              && contents[k] == M.Block(b.memory[..], b.occupied)
      ensures forall i :: 0 <= i < |blocks| && i != k ==>
                blocks[i] != blocks[k] && blocks[i].memory != blocks[k].memory
    {
      assert BlockOk(k);
      forall i | 0 <= i < |blocks| && i != k
        ensures blocks[i] != blocks[k] && blocks[i].memory != blocks[k].memory
      {
        assert BlockOk(i);
      }
    }

    static lemma PutIs(b: M.Block, at: nat, src: seq<byte>)
      requires at + |src| <= M.BLOCK_SIZE
      ensures M.PutInBlock(b, at, src)
           == M.Block(b.memory[..at] + src + b.memory[at + |src|..], Max(b.occupied, at + |src|))
    {
    }

    twostate lemma OthersStored(k: nat)
      requires blocks == old(blocks) && k < |blocks|
      requires forall i :: 0 <= i < |blocks| && i != k ==>
                 unchanged(blocks[i]) && unchanged(blocks[i].memory)
      ensures forall i :: 0 <= i < |blocks| && i != k ==> Same(blocks[i])
    {
    }

    twostate lemma EndsKept()
      requires old(Valid()) && Chain() && |blocks| == |contents| && blocks == old(blocks)
      requires firstBlock == old(firstBlock) && lastBlock == old(lastBlock)
      ensures Valid()
    {
    }

    /** Block `k` holds something else, and nothing else changed. */
    twostate lemma ChainStored(k: nat)
      requires old(Chain()) && k < |old(blocks)| && blocks == old(blocks) && place == old(place)
      requires blocks[k].memory.Length == M.BLOCK_SIZE
      requires contents == old(contents)[k := M.Block(blocks[k].memory[..], blocks[k].occupied)]
      requires forall i :: 0 <= i < |blocks| ==>
                 blocks[i].next == old(blocks[i].next) && blocks[i].prev == old(blocks[i].prev)
      requires forall i :: 0 <= i < |blocks| && i != k ==> Same(blocks[i])
      ensures Chain()
    {
      forall i | 0 <= i < |blocks| ensures BlockOk(i) {
        assert old(BlockOk(i));
      }
      forall o | o in place ensures Reached(o) {
        assert old(Reached(o));
      }
    }

    /** One pass of the write loop: take or append the block, and fill as much of it as there is. */
    method StoreChunk(current: Block?, ghost k: nat, offset: nat, buf: array<byte>, written: nat, count: nat,
        blank: M.Buffer)
      returns (block: Block, bytes: nat)
      requires Valid() && k <= |blocks| && current == At(k)
      requires buf !in place && written < count <= buf.Length
      modifies this`firstBlock, this`lastBlock, this`blocks, this`contents, this`place, place.Keys
      ensures Valid() && old(place.Keys) <= place.Keys && fresh(place.Keys - old(place.Keys))
      ensures bytes == M.ChunkSize(offset, count - written)
      ensures contents == M.PutChunk(old(contents), k, offset, buf[written..written + bytes], blank)
      ensures block == At(M.Current(old(contents), k))
    {
      var writeFrom := offset % M.BLOCK_SIZE;
      ghost var current' := M.Current(contents, k);
      assert k < |blocks| ==> BlockOk(k);
      assert |blocks| > 0 ==> BlockOk(|blocks| - 1);
      if current == null || current.occupied == M.BLOCK_SIZE {
        block := Append(blank);
      } else {
        block := current;
      }
      bytes := count - written;
      if bytes > M.BLOCK_SIZE - writeFrom {
        bytes := M.BLOCK_SIZE - writeFrom;
      }
      assert BlockOk(current');
      Store(block, current', writeFrom, buf, written, bytes);
    }

    /** Storing the rest from here gives `total`. */
    static ghost predicate ToStore(bs: seq<M.Block>, total: seq<M.Block>, k: nat, offset: nat, rest: seq<byte>,
        garbage: nat -> M.Buffer) {
      k <= |bs| && total == M.WriteLoop(bs, k, offset, rest, garbage)
    }

    static lemma StoreStep(bs: seq<M.Block>, total: seq<M.Block>, k: nat, offset: nat, rest: seq<byte>,
        garbage: nat -> M.Buffer)
      requires ToStore(bs, total, k, offset, rest, garbage) && rest != []
      ensures k <= |bs| && 0 < M.ChunkSize(offset, |rest|) <= |rest|
      ensures M.ChunkSize(offset, |rest|) <= M.BLOCK_SIZE - offset % M.BLOCK_SIZE
      ensures var n := M.ChunkSize(offset, |rest|);
              ToStore(M.PutChunk(bs, k, offset, rest[..n], garbage(offset)), total, M.Current(bs, k), offset + n,
                      rest[n..], garbage)
    {
      M.WriteLoopStep(bs, k, offset, rest, garbage);
    }

    static lemma StoreDone(bs: seq<M.Block>, total: seq<M.Block>, k: nat, offset: nat, garbage: nat -> M.Buffer)
      requires ToStore(bs, total, k, offset, [], garbage)
      ensures bs == total
    {
      M.WriteNothing(bs, k, offset, garbage);
    }

    static lemma StoreStart(bs: seq<M.Block>, k: nat, offset: nat, rest: seq<byte>, garbage: nat -> M.Buffer)
      requires k <= |bs|
      ensures ToStore(bs, M.WriteLoop(bs, k, offset, rest, garbage), k, offset, rest, garbage)
    {
    }

    /** The write loop of `ufs_write`, from the block the offset falls into. */
    method WriteFrom(desc: FileDesc, buf: array<byte>, count: nat, garbage: nat -> M.Buffer) returns (written: nat)
      requires Valid() && desc !in place && buf !in place && count <= buf.Length
      requires desc.offset <= M.BLOCK_SIZE * |blocks|
      modifies this`firstBlock, this`lastBlock, this`blocks, this`contents, this`place, this`size, place.Keys,
          desc`offset
      ensures Valid() && old(place.Keys) <= place.Keys && fresh(place.Keys - old(place.Keys))
      ensures written == count && desc.offset == old(desc.offset) + count && buf[..] == old(buf[..])
      ensures View() == M.WriteFile(old(View()), old(desc.offset), buf[..count], garbage)
    {
      hide M.WriteLoop, M.PutChunk, M.ChunkSize, M.Current, ToStore, Valid, At;
      ghost var k: nat := desc.offset / M.BLOCK_SIZE;
      ghost var rest := buf[..count];
      ValidFacts();
      ghost var total := M.WriteLoop(contents, k, desc.offset, rest, garbage);
      StoreStart(contents, k, desc.offset, rest, garbage);
      var block := Walk(desc.offset / M.BLOCK_SIZE);
      written := 0;
      while written < count
        invariant Valid() && old(place.Keys) <= place.Keys && fresh(place.Keys - old(place.Keys))
        invariant written <= count && desc.offset == old(desc.offset) + written && buf[..] == old(buf[..])
        invariant size == old(size)
        invariant k <= |blocks| && block == At(k) && rest == buf[written..count]
        invariant ToStore(contents, total, k, desc.offset, rest, garbage)
        decreases count - written
      {
        ghost var before := contents;
        var bytes;
        ValidFacts();
        StoreStep(before, total, k, desc.offset, rest, garbage);
        block, bytes := StoreChunk(block, k, desc.offset, buf, written, count, garbage(desc.offset));
        assert rest[..bytes] == buf[written..written + bytes];
        k := M.Current(before, k);
        written := written + bytes;
        desc.offset := desc.offset + bytes;
        rest := rest[bytes..];
      }
      assert rest == [];
      ValidFacts();
      StoreDone(contents, total, k, desc.offset, garbage);
      if desc.offset > size {
        size := desc.offset;
      }
    }

    /** One pass of the read loop: copy what block `k` has from the offset on, up to what is wanted. */
    method ReadChunk(block: Block, ghost k: nat, offset: nat, buf: array<byte>, readCount: nat,
        count: nat) returns (bytes: nat)
      requires Valid() && k < |blocks| && block == blocks[k] && buf !in place
      requires offset % M.BLOCK_SIZE < contents[k].occupied <= M.BLOCK_SIZE && readCount < count <= buf.Length
      modifies buf
      ensures Valid()
      ensures bytes == Min(contents[k].occupied - offset % M.BLOCK_SIZE, count - readCount)
      ensures var at := offset % M.BLOCK_SIZE;
              buf[..readCount + bytes] == old(buf[..readCount]) + contents[k].memory[at..at + bytes]
      ensures forall i :: readCount + bytes <= i < buf.Length ==> buf[i] == old(buf[i])
    {
      assert BlockOk(k);
      var blockOffset := offset % M.BLOCK_SIZE;
      bytes := block.occupied - blockOffset;
      if bytes > count - readCount {
        bytes := count - readCount;
      }
      CopyBytes(buf, readCount, block.memory, blockOffset, bytes);
      assert BlockOk(k);
    }

    /** What is read so far, and what the rest of the loop will read, make up `data`. */
    static ghost predicate SoFar(bs: seq<M.Block>, data: seq<byte>, got: seq<byte>, k: nat, offset: nat, left: nat) {
      (forall b :: b in bs ==> b.occupied <= M.BLOCK_SIZE) && k <= |bs| && data == got + M.ReadLoop(bs, k, offset, left)
    }

    static lemma ReadStep(bs: seq<M.Block>, data: seq<byte>, got: seq<byte>, k: nat, offset: nat, left: nat)
      requires SoFar(bs, data, got, k, offset, left) && k < |bs| && left > 0
      requires offset % M.BLOCK_SIZE < bs[k].occupied
      ensures var at, bytes := offset % M.BLOCK_SIZE, Min(bs[k].occupied - offset % M.BLOCK_SIZE, left);
              && at + bytes <= M.BLOCK_SIZE
              && SoFar(bs, data, got + bs[k].memory[at..at + bytes], k + 1, offset + bytes, left - bytes)
    {
      var at, bytes := offset % M.BLOCK_SIZE, Min(bs[k].occupied - offset % M.BLOCK_SIZE, left);
      M.ReadLoopStep(bs, k, offset, left);
      M.Associate(got, bs[k].memory[at..at + bytes], M.ReadLoop(bs, k + 1, offset + bytes, left - bytes));
    }

    static lemma ReadDone(bs: seq<M.Block>, data: seq<byte>, got: seq<byte>, k: nat, offset: nat, left: nat)
      requires SoFar(bs, data, got, k, offset, left)
      requires left == 0 || k == |bs| || offset % M.BLOCK_SIZE >= bs[k].occupied
      ensures data == got
    {
    }

    /** The read loop of `ufs_read`. */
    method ReadInto(desc: FileDesc, buf: array<byte>, count: nat) returns (readCount: nat)
      requires Valid() && M.SafeFile(View()) && buf !in place && count <= buf.Length
      requires desc.offset <= M.BLOCK_SIZE * |blocks| && desc !in place
      modifies buf, desc`offset
      ensures Valid()
      ensures var data := M.ReadFile(View(), old(desc.offset), count);
              && readCount == |data| && desc.offset == old(desc.offset) + readCount
              && readCount <= buf.Length && buf[..readCount] == data
      ensures forall i :: readCount <= i < buf.Length ==> buf[i] == old(buf[i])
    {
      hide M.ReadLoop, Chain, SoFar;
      ghost var start, k: nat := desc.offset, desc.offset / M.BLOCK_SIZE;
      ghost var data := M.ReadLoop(contents, k, start, count);
      ghost var left := count;
      var block := Walk(desc.offset / M.BLOCK_SIZE);
      readCount := 0;
      if desc.offset >= size {
        return;
      }
      ReadStart(contents, k, start, count);
      while block != null && readCount < count
        invariant Valid() && k <= |blocks| && block == At(k)
        invariant readCount <= count && left == count - readCount && desc.offset == start + readCount
        invariant SoFar(contents, data, buf[..readCount], k, desc.offset, left)
        invariant forall i :: readCount <= i < buf.Length ==> buf[i] == old(buf[i])
        decreases |blocks| - k
      {
        BlockFacts(k);
        var blockOffset := desc.offset % M.BLOCK_SIZE;
        if blockOffset - block.occupied >= 0 {
          break;
        }
        ReadStep(contents, data, buf[..readCount], k, desc.offset, left);
        var bytes := ReadChunk(block, k, desc.offset, buf, readCount, count);
        readCount := readCount + bytes;
        desc.offset := desc.offset + bytes;
        left := left - bytes;
        block := block.next;
        k := k + 1;
      }
      if k < |blocks| {
        BlockFacts(k);
      }
      ReadDone(contents, data, buf[..readCount], k, desc.offset, left);
    }

    static lemma ReadStart(bs: seq<M.Block>, k: nat, offset: nat, count: nat)
      requires k <= |bs| && forall b :: b in bs ==> b.occupied <= M.BLOCK_SIZE
      ensures SoFar(bs, M.ReadLoop(bs, k, offset, count), [], k, offset, count)
    {
    }

    method SetOccupied(block: Block, ghost k: nat, occupied: nat)
      requires Chain() && k < |blocks| && block == blocks[k]
      modifies `contents, block`occupied
      ensures Chain() && contents == old(contents)[k := old(contents)[k].(occupied := occupied)]
    {
      BlocksDiffer();
      assert BlockOk(k);
      block.occupied := occupied;
      contents := contents[k := contents[k].(occupied := occupied)];
      forall i | 0 <= i < |blocks| ensures BlockOk(i) {
        assert old(BlockOk(i));
      }
      forall o | o in place ensures Reached(o) {
        assert old(Reached(o));
      }
    }

    /** `free`: only an object that the file still holds may be freed. */
    ghost method Free(o: object)
      requires o in place
      modifies `place
      ensures place == old(place) - {o}
    {
      place := place - {o};
    }

    /** Unhook and free the block at the end. */
    method FreeLast(block: Block) returns (prevBlock: Block?)
      requires Chain() && |blocks| > 0 && block == blocks[|blocks| - 1]
      modifies `blocks, `contents, `place, block.prev
      ensures Chain() && prevBlock == At(|blocks| - 1)
      ensures blocks == old(blocks)[..|old(blocks)| - 1] && contents == old(contents)[..|old(contents)| - 1]
      ensures place == old(place) - {block, block.memory}
    {
      ghost var n := |blocks| - 1;
      BlocksDiffer();
      assert BlockOk(n);
      prevBlock := block.prev;
      if prevBlock != null {
        assert BlockOk(n - 1);
        prevBlock.next := null;
      }
      Free(block.memory);
      Free(block);
      blocks, contents := blocks[..n], contents[..n];
      forall i | 0 <= i < n
        ensures Same(blocks[i]) && blocks[i].next == if i + 1 == n then null else old(blocks[i].next)
      {
        assert old(BlockOk(i)) && old(BlockOk(i + 1));
      }
      ChainLess();
    }

    /** The block holds what it held, after the same block. */
    static twostate predicate Same(b: Block)
      reads b, b.memory
    {
      b.occupied == old(b.occupied) && b.prev == old(b.prev) && b.memory[..] == old(b.memory[..])
    }

    /** Without the last block, and with the one before it linked to nothing, the rest is intact. */
    twostate lemma ChainLess()
      requires old(Chain()) && |old(blocks)| > 0
      requires var n := |old(blocks)| - 1;
               var b := old(blocks)[n];
               && blocks == old(blocks)[..n] && contents == old(contents)[..n]
               && place == old(place) - {b.memory} - {b}
               && (forall i :: 0 <= i < n ==>
                     Same(blocks[i]) && blocks[i].next == if i + 1 == n then null else old(blocks[i].next))
      ensures Chain()
    {
      var n := |old(blocks)| - 1;
      assert old(BlockOk(n));
      forall i | 0 <= i < n ensures BlockOk(i) {
        assert old(BlockOk(i)) && old(blocks)[i] == blocks[i];
      }
      forall o | o in place ensures Reached(o) {
        assert old(Reached(o));
      }
    }

    /** The loop of a shrink, from the last block backwards. */
    method FreeTail(count: nat) returns (block: Block?)
      requires Valid() && count <= |blocks|
      modifies `blocks, `contents, `place, place.Keys
      ensures Chain() && place.Keys <= old(place.Keys)
      ensures contents == M.DropBlocks(old(contents), count) && block == At(|blocks| - 1)
      ensures blocks == old(blocks)[..|old(blocks)| - count]
      ensures blocks != [] ==> firstBlock == At(0)
      ensures block != null ==> block in place
    {
      block := lastBlock;
      for i := 0 to count
        invariant Chain() && place.Keys <= old(place.Keys)
        invariant i <= |old(blocks)| && blocks == old(blocks)[..|old(blocks)| - i]
        invariant contents == M.DropBlocks(old(contents), i)
        invariant block == At(|blocks| - 1)
        invariant blocks != [] ==> firstBlock == At(0)
      {
        assert BlockOk(|blocks| - 1) && (|blocks| > 1 ==> BlockOk(|blocks| - 2));
        block := FreeLast(block);
      }
      assert blocks != [] ==> BlockOk(|blocks| - 1);
    }

    /** The block counts of a resize. */
    static lemma CountFacts(size: nat, newSize: nat)
      ensures M.BlockCount(size) == (size + M.BLOCK_SIZE - 1) / M.BLOCK_SIZE
      ensures M.LastOccupied(newSize) == if newSize % M.BLOCK_SIZE == 0 then M.BLOCK_SIZE else newSize % M.BLOCK_SIZE
      ensures newSize <= size ==> M.BlockCount(newSize) <= M.BlockCount(size)
      ensures M.BlockCount(newSize) == 0 <==> newSize == 0
    {
    }

    static lemma CountFits(size: nat, n: nat)
      requires size <= M.BLOCK_SIZE * n
      ensures M.BlockCount(size) <= n
    {
    }

    static lemma SetLastIs(bs: seq<M.Block>, occupied: nat)
      requires bs != []
      ensures M.SetLast(bs, occupied) == bs[|bs| - 1 := bs[|bs| - 1].(occupied := occupied)]
    {
    }

    lemma ChainFacts()
      requires Chain()
      ensures |blocks| == |contents| && this !in place
      ensures forall i :: 0 <= i < |blocks| ==> blocks[i] in place
    {
      forall i | 0 <= i < |blocks| ensures blocks[i] in place {
        assert BlockOk(i);
      }
    }

    lemma ValidFacts()
      requires Valid()
      ensures |blocks| == |contents| == |View().blocks| && this !in place
    {
    }

    /** The shrinking branch of `ufs_resize`: of the list, whatever its length, as many blocks go from the end as
        the sizes differ by. */
    method Shrink(newSize: nat)
      requires Valid() && M.SafeFile(View()) && newSize < size
      modifies `firstBlock, `lastBlock, `blocks, `contents, `place, `size, place.Keys
      ensures Valid() && place.Keys <= old(place.Keys)
      ensures var cut := (old(size) + 511) / 512 - (newSize + 511) / 512;
              0 <= cut <= |old(blocks)| && blocks == old(blocks)[..|old(blocks)| - cut]
      ensures View() == M.Shrink(old(View()), newSize)
    {
      hide Chain, M.BlockCount, M.LastOccupied, M.DropBlocks, M.SetLast, M.Shrink;
      ChainFacts();
      CountFacts(size, newSize);
      CountFacts(newSize, size);
      CountFits(size, |blocks|);
      var newBlockCount := (newSize + M.BLOCK_SIZE - 1) / M.BLOCK_SIZE;
      var oldBlockCount := (size + M.BLOCK_SIZE - 1) / M.BLOCK_SIZE;
      var newLastBlockOccupied := newSize % M.BLOCK_SIZE;
      if newLastBlockOccupied == 0 {
        newLastBlockOccupied := M.BLOCK_SIZE;
      }
      ShrinkIs(View(), newSize, newLastBlockOccupied, oldBlockCount - newBlockCount);
      var block := FreeTail(oldBlockCount - newBlockCount);
      ChainFacts();
      if block == null {
        firstBlock := null;
        lastBlock := null;
        size := 0;
      } else {
        EndAt(block, newLastBlockOccupied, newSize);
      }
    }

    /** The list, cut before, ends at `block`. */
    method EndAt(block: Block, occupied: nat, newSize: nat)
      requires Chain() && block == At(|blocks| - 1) && firstBlock == At(0)
      modifies `lastBlock, `contents, `size, block`occupied
      ensures Valid() && size == newSize && |blocks| == |contents| == |old(contents)|
      ensures contents == old(contents)[|blocks| - 1 := old(contents)[|blocks| - 1].(occupied := occupied)]
    {
      hide Chain;
      ChainFacts();
      SetOccupied(block, |blocks| - 1, occupied);
      lastBlock := block;
      size := newSize;
    }

    static lemma ShrinkIs(f: M.File, newSize: nat, occupied: nat, cut: nat)
      requires M.SafeFile(f) && newSize < f.size && occupied == M.LastOccupied(newSize)
      requires cut == M.BlockCount(f.size) - M.BlockCount(newSize) <= |f.blocks|
      ensures var bs := M.DropBlocks(f.blocks, cut);
              M.Shrink(f, newSize)
              == if bs == [] then f.(blocks := [], size := 0)
                 else f.(blocks := bs[|bs| - 1 := bs[|bs| - 1].(occupied := occupied)], size := newSize)
    {
    }

    /** The loop of a growth: zeroed blocks at the end, each marking its predecessor full. */
    method AddTail(count: nat)
      requires Valid()
      modifies `firstBlock, `lastBlock, `blocks, `contents, `place, place.Keys
      ensures Valid() && old(place.Keys) <= place.Keys && fresh(place.Keys - old(place.Keys))
      ensures |blocks| == |old(blocks)| + count
      ensures contents == M.AddBlocks(old(contents), count)
      ensures lastBlock != null ==> lastBlock in place
    {
      hide M.AddBlocks, Chain;
      M.AddBlocksStep(contents, count);
      for i := 0 to count
        invariant Valid() && old(place.Keys) <= place.Keys && fresh(place.Keys - old(place.Keys))
        invariant |blocks| == |old(blocks)| + i
        invariant M.AddBlocks(old(contents), count) == M.AddBlocks(contents, count - i)
      {
        ghost var before := contents;
        if lastBlock != null {
          BlockFacts(|blocks| - 1);
          SetOccupied(lastBlock, |blocks| - 1, M.BLOCK_SIZE);
        }
        M.AddBlocksStep(before, count - i);
        var _ := Append(M.ZeroBuffer());
      }
      M.AddBlocksStep(contents, 0);
      if blocks != [] {
        BlockFacts(|blocks| - 1);
      }
    }

    /** The growing branch of `ufs_resize`. */
    method Grow(newSize: nat)
      requires Valid() && M.SafeFile(View()) && size < newSize
      modifies `firstBlock, `lastBlock, `blocks, `contents, `place, `size, place.Keys
      ensures Valid() && old(place.Keys) <= place.Keys && fresh(place.Keys - old(place.Keys))
      ensures View() == M.Grow(old(View()), newSize)
    {
      hide Chain, M.AddBlocks, M.BlockCount, M.LastOccupied, M.SetLast;
      CountFacts(size, newSize);
      CountFacts(newSize, size);
      var newBlockCount := (newSize + M.BLOCK_SIZE - 1) / M.BLOCK_SIZE;
      var oldBlockCount := (size + M.BLOCK_SIZE - 1) / M.BLOCK_SIZE;
      var newLastBlockOccupied := newSize % M.BLOCK_SIZE;
      if newLastBlockOccupied == 0 {
        newLastBlockOccupied := M.BLOCK_SIZE;
      }
      ChainFacts();
      AddTail(newBlockCount - oldBlockCount);
      ChainFacts();
      SetLastIs(contents, newLastBlockOccupied);
      SetOccupied(lastBlock, |blocks| - 1, newLastBlockOccupied);
      size := newSize;
    }

    /** `freed` is what is no longer in `place`, each object once. */
    static ghost predicate Logged(was: map<object, Place>, place: map<object, Place>, freed: seq<object>) {
      && Distinct(freed)
      && (forall o :: o in freed ==> o in was && o !in place)
      && (forall o :: o in was ==> o in place || o in freed)
    }

    static lemma LogOne(was: map<object, Place>, place: map<object, Place>, freed: seq<object>, o: object)
      requires Logged(was, place, freed) && o in place && o in was
      ensures Logged(was, place - {o}, freed + [o])
    {
    }

    static lemma LogNone(was: map<object, Place>)
      ensures Logged(was, was, [])
    {
    }

    static lemma LogAll(was: map<object, Place>, place: map<object, Place>, freed: seq<object>)
      requires Logged(was, place, freed) && place == map[]
      ensures Distinct(freed) && forall o :: o in freed <==> o in was
    {
    }

    /** What is left when the name and the blocks before `i` are freed. */
    static ghost predicate LeftFrom(was: map<object, Place>, place: map<object, Place>, i: nat) {
      && (forall o :: o in place ==> o in was && !was[o].AsName? && was[o].i >= i)
      && (forall o :: o in was && !was[o].AsName? && was[o].i >= i ==> o in place)
    }

    /** Object `o` of number `i` is block `b` or its buffer. */
    static ghost predicate OnlyBlock(was: map<object, Place>, i: nat, b: object, memory: object) {
      && b in was && memory in was && b != memory && was[b] == AsBlock(i) && was[memory] == AsBuffer(i)
      && (forall o :: o in was && !was[o].AsName? && was[o].i == i ==> o == b || o == memory)
    }

    static lemma LeftAfter(was: map<object, Place>, place: map<object, Place>, i: nat, b: object, memory: object)
      requires LeftFrom(was, place, i) && OnlyBlock(was, i, b, memory)
      ensures b in place && memory in place && LeftFrom(was, place - {memory} - {b}, i + 1)
    {
    }

    static lemma NothingLeft(was: map<object, Place>, place: map<object, Place>, n: nat)
      requires LeftFrom(was, place, n) && forall o :: o in was && !was[o].AsName? ==> was[o].i < n
      ensures place == map[]
    {
    }

    /** What a walk that frees the blocks needs to know beforehand. */
    lemma WalkFacts()
      requires Valid()
      ensures name in place && LeftFrom(place, place - {name}, 0) && firstBlock == At(0)
      ensures forall o :: o in place && !place[o].AsName? ==> place[o].i < |blocks|
      ensures forall i :: 0 <= i < |blocks| ==>
                blocks[i].next == At(i + 1) && OnlyBlock(place, i, blocks[i], blocks[i].memory)
    {
      forall o | o in place ensures Reached(o) && (o != name ==> !place[o].AsName?) {
      }
      forall i | 0 <= i < |blocks|
        ensures blocks[i].next == At(i + 1) && OnlyBlock(place, i, blocks[i], blocks[i].memory)
      {
        assert BlockOk(i);
        forall o | o in place && !place[o].AsName? && place[o].i == i ensures o == blocks[i] || o == blocks[i].memory {
          assert Reached(o);
        }
      }
    }

    /** `_ufs_free_file` but for the file itself: the name, every block and every buffer is freed, in the order
        `freed`. */
    method FreeBlocks() returns (ghost freed: seq<object>)
      requires Valid()
      modifies `firstBlock, `lastBlock, `blocks, `contents, `place
      ensures place == map[]
      ensures Distinct(freed) && forall o :: o in freed <==> o in old(place)
    {
      hide Valid, Logged, Distinct, LeftFrom, OnlyBlock;
      WalkFacts();
      ghost var was := place;
      LogNone(was);
      LogOne(was, was, [], name);
      Free(name);
      freed := [] + [name];
      var block := firstBlock;
      ghost var i := 0;
      while block != null
        invariant blocks == old(blocks) && contents == old(contents)
        invariant i <= |blocks| && block == At(i)
        invariant LeftFrom(was, place, i) && Logged(was, place, freed)
        decreases |blocks| - i
      {
        var next := block.next;
        LeftAfter(was, place, i, block, block.memory);
        IsBlock(was, i, block, block.memory);
        LogOne(was, place, freed, block.memory);
        LogOne(was, place - {block.memory}, freed + [block.memory], block);
        Free(block.memory);
        Free(block);
        freed := freed + [block.memory] + [block];
        block := next;
        i := i + 1;
      }
      NothingLeft(was, place, i);
      LogAll(was, place, freed);
      firstBlock, lastBlock, blocks, contents := null, null, [], [];
    }

    static lemma IsBlock(was: map<object, Place>, i: nat, b: object, memory: object)
      requires OnlyBlock(was, i, b, memory)
      ensures b in was && memory in was && b != memory
    {
    }
  }
}
