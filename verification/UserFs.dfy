/**
 The whole of homework-03/userfs.c on the heap: the file list, the descriptor table and the calls. `m` is the
 state's value in UfsModel, and every call is proved to change it as the function of the same name does. `holder`
 lists every heap object allocated by the file system with the one place it is reached from: an object is
 reachable just when it is allocated, so nothing leaks and nothing freed is used.
 */
module UserFs {
  import opened Common
  import M = UfsModel
  import I = UfsInvariant
  import opened UserFsFile

  datatype Holder = IsTable | IsFile(ino: nat) | IsDesc(slot: nat) | InFile(ino: nat)

  class FileSystem {
    var fileList: File?
    var table: array?<FileDesc?>
    var used: int
    var capacity: int
    var error: M.ErrorCode
    ghost var files: map<nat, M.File>
    ghost var order: seq<nat>
    ghost var slots: seq<Option<M.Desc>>
    ghost var nextInode: nat
    ghost var node: map<nat, File>
    ghost var holder: map<object, Holder>

    ghost function View(): M.Fs
      reads `files, `order, `slots, `used, `error, `nextInode
    {
      M.Fs(files, order, slots, used, error, nextInode)
    }

    /** File `n`'s object is intact, holds what the model says, and owns its blocks alone. */
    ghost predicate NodeOk(n: nat)
      requires n in node
      reads `files, `node, `holder, holder.Keys
    {
      && n in files
      && node[n] in holder && holder[node[n]] == IsFile(n)
      && (forall o :: o in node[n].place ==> o in holder && holder[o] == InFile(n))
      && node[n].Valid()
      && node[n].View() == files[n]
    }

    ghost function Nth(i: int): File?
      reads `order, `node
    {
      if 0 <= i < |order| && order[i] in node then node[order[i]] else null
    }

    ghost predicate ListedAt(i: nat)
      requires i < |order|
      reads `order, `node, `holder, holder.Keys
    {
      && order[i] in node && node[order[i]] in holder
      && node[order[i]].next == Nth(i + 1)
      && node[order[i]].prev == Nth(i - 1)
    }

    ghost predicate SlotOk(i: nat)
      requires i < |slots| && table != null && table.Length == |slots| && table in holder
      reads `slots, `table, `node, `holder, holder.Keys
    {
      match slots[i]
      case None => table[i] == null
      case Some(d) =>
        && table[i] != null
        && var desc: FileDesc := table[i];
        && desc in holder && holder[desc] == IsDesc(i)
        && d.inode in node && desc.file == node[d.inode]
        && desc.flags == d.flags && desc.offset == d.offset
    }

    /** The object is where `holder` says it is. */
    ghost predicate Held(o: object)
      requires o in holder
      reads `table, `node, `holder, holder.Keys
    {
      match holder[o]
      case IsTable => o == table
      case IsFile(n) => n in node && o == node[n]
      case IsDesc(i) => table != null && table in holder && i < table.Length && o == table[i]
      case InFile(n) => n in node && node[n] in holder && o in node[n].place
    }

    ghost predicate TableOk()
      reads `slots, `table, `capacity, `node, `holder, holder.Keys
    {
      && capacity == |slots|
      && (table == null <==> capacity == 0)
      && (table != null ==>
            && table.Length == capacity
            && table in holder && holder[table] == IsTable
            && forall i :: 0 <= i < |slots| ==> SlotOk(i))
    }

    ghost predicate NodesOk()
      reads `files, `node, `holder, holder.Keys
    {
      node.Keys == files.Keys && forall n :: n in node ==> NodeOk(n)
    }

    ghost predicate LinksOk()
      reads `fileList, `order, `node, `holder, holder.Keys
    {
      fileList == Nth(0) && forall i :: 0 <= i < |order| ==> ListedAt(i)
    }

    ghost predicate FilesOk()
      reads `fileList, `files, `order, `node, `holder, holder.Keys
    {
      NodesOk() && LinksOk()
    }

    ghost predicate AllHeld()
      reads `table, `node, `holder, holder.Keys
    {
      this !in holder && forall o :: o in holder ==> Held(o)
    }

    ghost predicate Valid()
      reads this, holder.Keys
    {
      M.Inv(View()) && FilesOk() && TableOk() && AllHeld()
    }

    constructor ()
      ensures Valid() && View() == M.EMPTY_FS && holder == map[]
    {
      fileList, table, used, capacity, error := null, null, 0, 0, M.NO_ERR;
      files, order, slots, nextInode, node, holder := map[], [], [], 0, map[], map[];
    }

    /** Bring the ghost record up to date. */
    ghost method Record(files: map<nat, M.File>, slots: seq<Option<M.Desc>>, holder: map<object, Holder>)
      modifies `files, `slots, `holder
      ensures this.files == files && this.slots == slots && this.holder == holder
    {
      this.files, this.slots, this.holder := files, slots, holder;
    }

    /** `free`: only an object that is still allocated may be freed. */
    ghost method Free(o: object)
      requires o in holder
      modifies `holder
      ensures holder == old(holder) - {o}
    {
      holder := holder - {o};
    }

    method SetError(e: M.ErrorCode)
      requires Valid()
      modifies `error
      ensures Valid() && View() == old(View()).(error := e)
    {
      I.ErrorKeepsInv(View(), e);
      hide M.Inv;
      error := e;
    }

    /** The checks on `fd` that `ufs_write`, `ufs_read`, `ufs_close` and `ufs_resize` begin with. */
    method Descriptor(fd: int) returns (desc: FileDesc?)
      requires Valid()
      ensures desc == null <==> M.Lookup(View(), fd).None?
      ensures desc != null ==> table != null && 0 <= fd - 1 < table.Length && desc == table[fd - 1]
    {
      hide M.Inv;
      var idx := fd - 1;
      if idx < 0 || idx >= capacity {
        return null;
      }
      assert SlotOk(idx);
      return table[idx];
    }

    /** What `holder` becomes when file `n` comes to own exactly the objects in `place`. */
    static ghost function Reheld(was: map<object, Holder>, n: nat, place: map<object,
        Place>): (now: map<object, Holder>)
      ensures now.Keys <= was.Keys + place.Keys
    {
      map o | o in was.Keys + place.Keys && (o in place || was[o] != InFile(n)) :: if o in place then InFile(n)
                                                                                   else was[o]
    }

    /** The blocks of file `n` changed, and nothing else outside the descriptors. */
    twostate lemma AfterFileChange(n: nat, new place: map<object, Place>)
      requires old(FilesOk()) && old(AllHeld())
      requires n in node && node == old(node) && order == old(order) && fileList == old(fileList)
      requires files == old(files)[n := node[n].View()]
      requires node[n].Valid() && node[n].next == old(node[n].next) && node[n].prev == old(node[n].prev)
      requires node[n].place == place
      requires forall o :: o in place && o !in old(node[n].place) ==> fresh(o)
      requires holder == Reheld(old(holder), n, place)
      requires forall x :: x in node && x != n ==>
                 unchanged(node[x]) && forall o :: o in old(node[x].place) ==> unchanged(o)
      ensures FilesOk()
    {
      hide NodesOk, LinksOk, AllHeld, Reheld, File.Valid, File.View;
      OldNode(n);
      OthersAfterChange(n);
      NodesAreThere(n, place);
      LinksAfterChange(n, place);
      AllNodesOk();
    }

    twostate lemma OthersAfterChange(n: nat)
      requires old(FilesOk()) && node == old(node)
      requires forall x :: x in node && x != n ==>
                 unchanged(node[x]) && forall o :: o in old(node[x].place) ==> unchanged(o)
      ensures forall x :: x in node && x != n ==> node[x].Valid() && x in old(files) && node[x].View() == old(files)[x]
      ensures forall x :: x in node && x != n ==>
                && node[x].place == old(node[x].place) && node[x].next == old(node[x].next)
                && node[x].prev == old(node[x].prev)
    {
      hide LinksOk, File.Valid, File.View;
      forall x | x in node && x != n ensures node[x].Valid() && x in old(files) && node[x].View() == old(files)[x] {
        OldNode(x);
        FileStays(node[x]);
      }
    }

    lemma AllNodesOk()
      requires node.Keys == files.Keys
      requires forall x :: x in node ==>
                 && node[x] in holder && holder[node[x]] == IsFile(x)
                 && forall o :: o in node[x].place ==> o in holder && holder[o] == InFile(x)
      requires forall x :: x in node ==> node[x].Valid() && node[x].View() == files[x]
      ensures NodesOk()
    {
      hide File.Valid, File.View;
    }

    twostate lemma FileStays(f: File)
      requires old(f.Valid()) && unchanged(f) && forall o :: o in old(f.place) ==> unchanged(o)
      ensures f.Valid() && f.View() == old(f.View())
    {
    }

    twostate lemma NodesAreThere(n: nat, new place: map<object, Place>)
      requires old(FilesOk()) && node == old(node) && n in node && node[n].place == place
      requires holder == Reheld(old(holder), n, place)
      requires forall o :: o in place && o !in old(node[n].place) ==> fresh(o)
      requires forall x :: x in node && x != n ==> node[x].place == old(node[x].place)
      ensures forall x :: x in node ==>
                && node[x] in holder && holder[node[x]] == IsFile(x)
                && forall o :: o in node[x].place ==> o in holder && holder[o] == InFile(x)
    {
      hide File.Valid, File.View, LinksOk;
      OldNode(n);
      forall x | x in node
        ensures node[x] in holder && holder[node[x]] == IsFile(x)
        ensures forall o :: o in node[x].place ==> o in holder && holder[o] == InFile(x)
      {
        OldNode(x);
      }
    }

    twostate lemma OldNode(n: nat)
      requires old(FilesOk()) && n in old(node)
      ensures old(NodeOk(n)) && old(node).Keys == old(files).Keys
    {
    }

    twostate lemma LinksAfterChange(n: nat, new place: map<object, Place>)
      requires old(FilesOk()) && node == old(node) && order == old(order) && fileList == old(fileList) && n in node
      requires node[n].next == old(node[n].next) && node[n].prev == old(node[n].prev)
      requires holder == Reheld(old(holder), n, place)
      requires forall x :: x in node && x != n ==>
                 node[x].next == old(node[x].next) && node[x].prev == old(node[x].prev)
      ensures LinksOk()
    {
      hide File.Valid, File.View;
      forall i | 0 <= i < |order| ensures ListedAt(i) {
        assert old(ListedAt(i)) && old(NodeOk(order[i]));
      }
    }

    twostate lemma AfterFileChangeHeld(n: nat, new place: map<object, Place>)
      requires old(FilesOk()) && old(AllHeld()) && old(TableOk())
      requires n in node && node == old(node) && table == old(table)
      requires node[n].place == place
      requires holder == Reheld(old(holder), n, place)
      requires forall o :: o in place ==> o != this
      requires forall x :: x in node && x != n ==> node[x].place == old(node[x].place)
      requires table != null && forall j :: 0 <= j < table.Length ==> table[j] == old(table[j])
      requires forall o :: o in place && o !in old(node[n].place) ==> fresh(o)
      ensures AllHeld()
    {
      OldNodes();
      hide FilesOk, TableOk;
      StillThere(n, place);
      hide Reheld;
      forall o | o in holder ensures Held(o) {
        if o !in place {
          assert o in old(holder) && old(Held(o));
          StillHeld(n, place, o);
        }
      }
    }

    /** The files and the table stay what they are. */
    twostate lemma StillThere(n: nat, new place: map<object, Place>)
      requires node == old(node) && table == old(table) && table != null
      requires holder == Reheld(old(holder), n, place)
      requires forall x :: x in node ==> node[x] in old(holder) && old(holder)[node[x]] == IsFile(x)
      requires table in old(holder) && old(holder)[table] == IsTable
      ensures table in holder && forall x :: x in node ==> node[x] in holder
      ensures forall o :: o in holder ==>
                if o in place then holder[o] == InFile(n) else o in old(holder) && holder[o] == old(holder)[o]
    {
    }

    twostate lemma OldNodes()
      requires old(FilesOk()) && old(TableOk())
      ensures forall x :: x in old(node) ==> old(node)[x] in old(holder) && old(holder)[old(node)[x]] == IsFile(x)
      ensures old(table) != null ==> old(table) in old(holder) && old(holder)[old(table)] == IsTable
    {
      forall x | x in old(node) ensures old(NodeOk(x)) {
      }
    }

    /** An object that is not the changed file's is where it was. */
    twostate lemma StillHeld(n: nat, new place: map<object, Place>, new o: object)
      requires n in node && node == old(node) && table == old(table)
      requires o in holder && o in old(holder) && holder[o] == old(holder)[o] && holder[o] != InFile(n) && old(Held(o))
      requires forall x :: x in node && x != n ==> node[x].place == old(node[x].place)
      requires table != null && table in holder && forall j :: 0 <= j < table.Length ==> table[j] == old(table[j])
      requires forall x :: x in node ==> node[x] in holder
      ensures Held(o)
    {
    }

    /** Slots hold what they held, their offsets following the descriptors. */
    twostate lemma AfterOffsets(n: nat, new place: map<object, Place>)
      requires old(FilesOk()) && old(AllHeld()) && old(TableOk())
      requires n in node && node == old(node) && table == old(table) && capacity == old(capacity)
      requires table != null && |slots| == |old(slots)| == table.Length
      requires holder == Reheld(old(holder), n, place)
      requires forall o :: o in place && o !in old(node[n].place) ==> fresh(o)
      requires forall j :: 0 <= j < table.Length ==> table[j] == old(table[j])
      requires forall j :: 0 <= j < |slots| ==>
                 if old(slots)[j].None? then slots[j].None?
                 else table[j] != null && slots[j] == Some(old(slots)[j].value.(offset := table[j].offset))
      ensures TableOk()
    {
      assert old(NodeOk(n));
      forall j | 0 <= j < |slots| ensures SlotOk(j) {
        assert old(SlotOk(j));
      }
    }

    /** Different files share nothing. */
    lemma Apart(n: nat)
      requires FilesOk() && AllHeld() && n in node
      ensures node[n] in holder && node[n].Valid() && node[n] !in node[n].place
      ensures forall x :: x in node && x != n ==> node[x] != node[n] && node[x] !in node[n].place
      ensures forall x :: x in node && x != n ==> forall o :: o in node[x].place ==> o != node[n] && o !in node[n].place
      ensures forall x :: x in node ==> this as object != node[x] && this !in node[x].place
    {
      forall x | x in node ensures NodeOk(x) {
      }
    }

    /** Descriptors and the table belong to no file. */
    lemma DescsApart()
      requires FilesOk() && TableOk() && table != null
      ensures forall x :: x in node ==> table !in node[x].place
      ensures forall x, j :: x in node && 0 <= j < table.Length && table[j] != null ==> table[j] !in node[x].place
    {
      forall x | x in node ensures NodeOk(x) {
      }
      forall j | 0 <= j < table.Length ensures SlotOk(j) {
      }
    }

    /** What an open descriptor leads to. */
    lemma SlotFacts(i: nat)
      requires Valid() && M.Holds(View(), i)
      ensures this !in holder
      ensures table != null && table.Length == |slots| && table in holder && table[i] != null && table[i] in holder
      ensures var d, n := slots[i].value, slots[i].value.inode;
              && table[i].flags == d.flags && table[i].offset == d.offset
              && n in node && n in files && table[i].file == node[n] && node[n] in holder
              && node[n].Valid() && node[n].View() == files[n] && M.SafeFile(files[n])
              && d.offset <= M.BLOCK_SIZE * |files[n].blocks|
              && node[n].place.Keys <= holder.Keys
    {
      hide M.RefCount, M.UsedCount, M.SafeFile;
      assert SlotOk(i) && NodeOk(slots[i].value.inode);
    }

    /** What the guards of a call look at. */
    lemma GuardFacts(i: nat)
      requires Valid() && M.Holds(View(), i)
      ensures table != null && i < table.Length && table[i] != null
      ensures slots[i].value.inode in files
      ensures table[i].flags == slots[i].value.flags && table[i].file.size == files[slots[i].value.inode].size
    {
      SlotFacts(i);
    }

    lemma SlotsDiffer(i: nat)
      requires TableOk() && table != null && i < |slots|
      ensures |slots| == table.Length
      ensures forall j :: 0 <= j < |slots| && table[j] != null ==>
                table[j] in holder && (j != i ==> table[j] != table[i])
      ensures forall j :: 0 <= j < |slots| ==> (slots[j].Some? <==> table[j] != null)
      ensures forall j :: 0 <= j < |slots| && slots[j].Some? ==> slots[j].value.offset == table[j].offset
    {
      assert SlotOk(i);
      forall j | 0 <= j < |slots|
        ensures slots[j].Some? <==> table[j] != null
        ensures table[j] != null ==>
                  table[j] in holder && (j != i ==> table[j] != table[i]) && slots[j].value.offset == table[j].offset
      {
        assert SlotOk(j);
      }
    }

    /** A call changed file `n`'s blocks and offsets of descriptors. */
    twostate lemma AfterFileCall(n: nat, new place: map<object, Place>)
      requires old(FilesOk()) && old(AllHeld()) && old(TableOk())
      requires n in node && node == old(node) && order == old(order) && fileList == old(fileList)
      requires table == old(table) && capacity == old(capacity) && table != null
      requires files == old(files)[n := node[n].View()]
      requires node[n].Valid() && node[n].next == old(node[n].next) && node[n].prev == old(node[n].prev)
      requires node[n].place == place
      requires forall o :: o in place && o !in old(node[n].place) ==> fresh(o)
      requires forall x :: x in node && x != n ==>
                 unchanged(node[x]) && forall o :: o in old(node[x].place) ==> unchanged(o)
      requires |slots| == |old(slots)| == table.Length
      requires forall j :: 0 <= j < table.Length ==> table[j] == old(table[j])
      requires forall j :: 0 <= j < |slots| ==>
                 if old(slots)[j].None? then slots[j].None?
                 else table[j] != null && slots[j] == Some(old(slots)[j].value.(offset := table[j].offset))
      requires holder == Reheld(old(holder), n, place)
      ensures FilesOk() && AllHeld() && TableOk()
    {
      assert table in old(holder) && forall o :: o in place ==> o != this by {
        assert old(NodeOk(n));
      }
      hide FilesOk, AllHeld, TableOk, Reheld, NodeOk;
      assert FilesOk() by { AfterFileChange(n, place); }
      assert AllHeld() by { AfterFileChangeHeld(n, place); }
      assert TableOk() by { AfterOffsets(n, place); }
    }

    /** The file's part of a store; the rest of the file system stays as it was. */
    method StoreBytes(desc: FileDesc, ghost i: nat, buf: array<byte>, count: nat, garbage: nat -> M.Buffer)
      requires Valid() && M.Holds(View(), i) && table != null && i < table.Length && table[i] == desc
      requires buf !in holder && count <= buf.Length
      modifies holder.Keys
      ensures var n := slots[i].value.inode;
              && n in node && node[n].Valid() && node[n].next == old(node[n].next) && node[n].prev == old(node[n].prev)
              && node[n].View() == M.WriteFile(files[n], slots[i].value.offset, buf[..count], garbage)
              && (forall o :: o in node[n].place && o !in old(node[n].place) ==> fresh(o))
              && (forall x :: x in node && x != n ==>
                   unchanged(node[x]) && forall o :: o in old(node[x].place) ==> unchanged(o))
      ensures forall x :: x in node ==>
                this as object != node[x] && this !in old(node[x].place) && this !in node[x].place
      ensures desc.offset == slots[i].value.offset + count
      ensures forall j :: 0 <= j < table.Length ==> table[j] == old(table[j])
      ensures forall j :: 0 <= j < table.Length && table[j] != null && j != i ==>
                table[j].offset == old(table[j].offset)
      ensures buf[..] == old(buf[..])
    {
      hide M.Inv, FilesOk, TableOk, AllHeld, M.WriteFile, File.Valid;
      SlotFacts(i);
      SlotsDiffer(i);
      Apart(slots[i].value.inode);
      DescsApart();
      var _ := desc.file.WriteFrom(desc, buf, count, garbage);
    }

    method StoreThrough(desc: FileDesc, ghost i: nat, buf: array<byte>, count: nat, garbage: nat -> M.Buffer)
      requires Valid() && M.Holds(View(), i) && table != null && i < table.Length && table[i] == desc
      requires buf !in holder && count <= buf.Length
      modifies `files, `slots, `holder, holder.Keys
      ensures FilesOk() && TableOk() && AllHeld() && fresh(holder.Keys - old(holder.Keys))
      ensures View() == M.WriteAt(old(View()), i, buf[..count], garbage) && buf[..] == old(buf[..])
    {
      hide M.Inv, FilesOk, TableOk, AllHeld, M.WriteFile, File.Valid, Reheld;
      SlotFacts(i);
      SlotsDiffer(i);
      StoreBytes(desc, i, buf, count, garbage);
      ghost var n := slots[i].value.inode;
      ghost var place := node[n].place;
      Record(files[n := node[n].View()], slots[i := Some(slots[i].value.(offset := desc.offset))],
             Reheld(holder, n, place));
      AfterFileCall(n, place);
    }

    /** `ufs_write` past the lookup of its descriptor. */
    method WriteVia(desc: FileDesc, ghost fd: int, buf: array<byte>, size: nat,
        garbage: nat -> M.Buffer) returns (r: int)
      requires Valid() && M.Lookup(View(), fd).Some? && table != null && fd - 1 < table.Length && table[fd - 1] == desc
      requires buf !in holder && size <= buf.Length
      modifies this, holder.Keys
      ensures FilesOk() && TableOk() && AllHeld() && fresh(holder.Keys - old(holder.Keys))
      ensures M.Write(old(View()), fd, old(buf[..size]), garbage) == M.Outcome(View(), r, [])
      ensures buf[..] == old(buf[..])
    {
      hide M.Inv, FilesOk, TableOk, AllHeld, M.WriteAt, M.WriteFile, M.SafeFile;
      GuardFacts(fd - 1);
      if M.WRITE_ONLY !in desc.flags && M.READ_WRITE !in desc.flags {
        SetError(M.NO_PERMISSION);
        r := -1;
      } else if size == 0 {
        r := 0;
      } else if desc.file.size + size > M.MAX_FILE_SIZE {
        SetError(M.NO_MEM);
        r := -1;
      } else {
        StoreThrough(desc, fd - 1, buf, size, garbage);
        r := size;
      }
    }

    method Write(fd: int, buf: array<byte>, size: nat, garbage: nat -> M.Buffer) returns (r: int)
      requires Valid() && buf !in holder && size <= buf.Length
      modifies this, holder.Keys
      ensures Valid() && fresh(holder.Keys - old(holder.Keys))
      ensures M.Write(old(View()), fd, old(buf[..size]), garbage) == M.Outcome(View(), r, [])
      ensures buf[..] == old(buf[..])
    {
      I.WriteKeepsInv(View(), fd, buf[..size], garbage);
      hide M.Inv, FilesOk, TableOk, AllHeld, M.WriteAt;
      var desc := Descriptor(fd);
      if desc == null {
        SetError(M.NO_FILE);
        r := -1;
      } else {
        r := WriteVia(desc, fd, buf, size, garbage);
      }
    }

    lemma Outsider(o: object)
      requires FilesOk() && o !in holder
      ensures forall x :: x in node ==> node[x] in holder && o != node[x] && o !in node[x].place
    {
      forall x | x in node ensures NodeOk(x) {
      }
    }

    method ReadBytes(desc: FileDesc, ghost i: nat, buf: array<byte>, count: nat) returns (readCount: nat)
      requires Valid() && M.Holds(View(), i) && table != null && i < table.Length && table[i] == desc
      requires buf !in holder && count <= buf.Length
      modifies buf, desc`offset
      ensures var n := slots[i].value.inode;
              && n in node && node[n].Valid() && node[n].View() == files[n]
              && (forall x :: x in node ==> unchanged(node[x]) && forall o :: o in node[x].place ==> unchanged(o))
      ensures forall x :: x in node ==> this as object != node[x] && this !in node[x].place
      ensures forall j :: 0 <= j < table.Length ==> table[j] == old(table[j])
      ensures forall j :: 0 <= j < table.Length && table[j] != null && j != i ==>
                table[j].offset == old(table[j].offset)
      ensures M.Inv(View()) && M.Holds(View(), i)
      ensures var data := M.ReadFile(M.FileOf(View(), i), slots[i].value.offset, count);
              && readCount == |data| <= count && buf[..readCount] == data
              && desc.offset == slots[i].value.offset + readCount
      ensures forall k :: readCount <= k < buf.Length ==> buf[k] == old(buf[k])
    {
      hide M.Inv, FilesOk, TableOk, AllHeld, M.ReadFile, File.Valid, File.View;
      I.ReadKeepsBound(View(), i, count);
      SlotFacts(i);
      SlotsDiffer(i);
      node[slots[i].value.inode].ValidFacts();
      Apart(slots[i].value.inode);
      DescsApart();
      Outsider(buf);
      readCount := desc.file.ReadInto(desc, buf, count);
    }

    method ReadThrough(desc: FileDesc, ghost i: nat, buf: array<byte>, count: nat) returns (readCount: nat)
      requires Valid() && M.Holds(View(), i) && table != null && i < table.Length && table[i] == desc
      requires buf !in holder && count <= buf.Length
      modifies `files, `slots, `holder, buf, desc
      ensures FilesOk() && TableOk() && AllHeld() && holder.Keys <= old(holder.Keys)
      ensures readCount <= count
      ensures buf[..readCount] == M.ReadFile(M.FileOf(old(View()), i), old(slots[i]).value.offset, count)
      ensures View() == M.Advance(old(View()), i, buf[..readCount])
      ensures forall k :: readCount <= k < buf.Length ==> buf[k] == old(buf[k])
    {
      hide M.Inv, FilesOk, TableOk, AllHeld, M.ReadFile, File.Valid, Reheld;
      SlotFacts(i);
      SlotsDiffer(i);
      readCount := ReadBytes(desc, i, buf, count);
      ghost var n := slots[i].value.inode;
      ghost var place := node[n].place;
      Record(files[n := node[n].View()], slots[i := Some(slots[i].value.(offset := desc.offset))],
             Reheld(holder, n, place));
      AfterFileCall(n, place);
    }

    /** `ufs_read` past the lookup of its descriptor. */
    method ReadVia(desc: FileDesc, ghost fd: int, buf: array<byte>, size: nat) returns (r: int)
      requires Valid() && M.Lookup(View(), fd).Some? && table != null && fd - 1 < table.Length && table[fd - 1] == desc
      requires buf !in holder && size <= buf.Length
      modifies `files, `slots, `holder, `error, buf, desc
      ensures FilesOk() && TableOk() && AllHeld() && holder.Keys <= old(holder.Keys)
      ensures r <= size && M.Read(old(View()), fd, size) == M.Outcome(View(), r, if r < 0 then [] else buf[..r])
      ensures forall k :: Max(r, 0) <= k < buf.Length ==> buf[k] == old(buf[k])
    {
      hide M.Inv, FilesOk, TableOk, AllHeld, M.ReadFile, M.Advance;
      GuardFacts(fd - 1);
      if M.READ_ONLY !in desc.flags && M.READ_WRITE !in desc.flags {
        SetError(M.NO_PERMISSION);
        r := -1;
      } else {
        r := ReadThrough(desc, fd - 1, buf, size);
      }
    }

    method Read(fd: int, buf: array<byte>, size: nat) returns (r: int)
      requires Valid() && buf !in holder && size <= buf.Length
      modifies this, holder.Keys, buf
      ensures Valid() && holder.Keys <= old(holder.Keys)
      ensures r <= size && M.Read(old(View()), fd, size) == M.Outcome(View(), r, if r < 0 then [] else buf[..r])
      ensures forall k :: Max(r, 0) <= k < buf.Length ==> buf[k] == old(buf[k])
    {
      I.ReadKeepsInv(View(), fd, size);
      hide M.Inv, FilesOk, TableOk, AllHeld, M.ReadFile, M.Advance;
      var desc := Descriptor(fd);
      if desc == null {
        SetError(M.NO_FILE);
        r := -1;
      } else {
        assert desc in holder by { SlotFacts(fd - 1); }
        r := ReadVia(desc, fd, buf, size);
      }
    }

    /** The clamping loop of a shrink. */
    method ClampOffsets(file: File, newSize: nat)
      requires table != null && table.Length == capacity
      requires forall j, k :: 0 <= j < k < table.Length && table[j] != null ==> table[j] != table[k]
      modifies (set j | 0 <= j < table.Length && table[j] != null :: table[j])`offset
      ensures forall j :: 0 <= j < table.Length && table[j] != null ==>
                && var over := table[j].file == file && old(table[j].offset) > newSize;
                   table[j].offset == if over then newSize else old(table[j].offset)
    {
      for i := 0 to capacity
        invariant forall j :: 0 <= j < table.Length && table[j] != null ==>
                    && var over := j < i && table[j].file == file && old(table[j].offset) > newSize;
                       table[j].offset == if over then newSize else old(table[j].offset)
      {
        if table[i] != null && table[i].file == file && table[i].offset > newSize {
          table[i].offset := newSize;
        }
      }
    }

    /** The file's part of a shrink and the clamping of descriptors. */
    method ShrinkBytes(desc: FileDesc, ghost i: nat, newSize: nat)
      requires Valid() && M.Holds(View(), i) && table != null && i < table.Length && table[i] == desc
      requires newSize < M.FileOf(View(), i).size
      modifies holder.Keys
      ensures var n := slots[i].value.inode;
              && n in node && M.SafeFile(files[n]) && node[n].Valid() && node[n].next == old(node[n].next)
              && node[n].prev == old(node[n].prev)
              && node[n].View() == M.Shrink(files[n], newSize)
              && node[n].place.Keys <= old(node[n].place.Keys)
              && (forall x :: x in node && x != n ==>
                   unchanged(node[x]) && forall o :: o in old(node[x].place) ==> unchanged(o))
      ensures forall x :: x in node ==>
                this as object != node[x] && this !in old(node[x].place) && this !in node[x].place
      ensures forall j :: 0 <= j < table.Length ==> table[j] == old(table[j])
      ensures |slots| == table.Length && forall j :: 0 <= j < |slots| ==>
                var now := M.Clamp(slots, slots[i].value.inode, newSize)[j];
                if slots[j].None? then now.None?
                else table[j] != null && now == Some(slots[j].value.(offset := table[j].offset))
    {
      hide M.Inv, FilesOk, TableOk, AllHeld, M.Shrink, File.Valid;
      SlotFacts(i);
      SlotsDiffer(i);
      ghost var n := slots[i].value.inode;
      Apart(n);
      DescsApart();
      DescsDiffer();
      desc.file.Shrink(newSize);
      ClampOffsets(desc.file, newSize);
    }

    /** Two slots never share a descriptor, and each names its file. */
    lemma DescsDiffer()
      requires Valid() && table != null
      ensures table.Length == capacity
      ensures forall j, k :: 0 <= j < k < table.Length && table[j] != null ==> table[j] != table[k]
      ensures forall j :: 0 <= j < |slots| && slots[j].Some? ==>
                slots[j].value.inode in node && table[j] != null && table[j].file == node[slots[j].value.inode]
    {
      hide M.Inv;
      forall j, k | 0 <= j < k < table.Length && table[j] != null ensures table[j] != table[k] {
        assert SlotOk(j) && SlotOk(k);
      }
      forall j | 0 <= j < |slots| && slots[j].Some?
        ensures slots[j].value.inode in node && table[j] != null && table[j].file == node[slots[j].value.inode]
      {
        assert SlotOk(j);
      }
    }

    method ShrinkThrough(desc: FileDesc, ghost i: nat, newSize: nat)
      requires Valid() && M.Holds(View(), i) && table != null && i < table.Length && table[i] == desc
      requires newSize < M.FileOf(View(), i).size
      modifies `files, `slots, `holder, holder.Keys
      ensures FilesOk() && TableOk() && AllHeld() && holder.Keys <= old(holder.Keys)
      ensures View() == M.ShrinkAt(old(View()), i, newSize)
    {
      hide M.Inv, FilesOk, TableOk, AllHeld, M.Shrink, M.Clamp, File.Valid, Reheld;
      SlotFacts(i);
      ShrinkBytes(desc, i, newSize);
      ghost var n := slots[i].value.inode;
      ghost var place := node[n].place;
      Record(files[n := node[n].View()], M.Clamp(slots, n, newSize), Reheld(holder, n, place));
      AfterFileCall(n, place);
    }

    method GrowBytes(desc: FileDesc, ghost i: nat, newSize: nat)
      requires Valid() && M.Holds(View(), i) && table != null && i < table.Length && table[i] == desc
      requires M.FileOf(View(), i).size < newSize
      modifies holder.Keys
      ensures var n := slots[i].value.inode;
              && n in node && node[n].Valid() && node[n].next == old(node[n].next) && node[n].prev == old(node[n].prev)
              && node[n].View() == M.Grow(files[n], newSize)
              && (forall o :: o in node[n].place && o !in old(node[n].place) ==> fresh(o))
              && (forall x :: x in node && x != n ==>
                   unchanged(node[x]) && forall o :: o in old(node[x].place) ==> unchanged(o))
      ensures forall x :: x in node ==>
                this as object != node[x] && this !in old(node[x].place) && this !in node[x].place
      ensures forall j :: 0 <= j < table.Length ==> table[j] == old(table[j])
      ensures forall j :: 0 <= j < table.Length && table[j] != null ==> table[j].offset == old(table[j].offset)
    {
      hide M.Inv, FilesOk, TableOk, AllHeld, M.Grow, File.Valid;
      SlotFacts(i);
      SlotsDiffer(i);
      Apart(slots[i].value.inode);
      DescsApart();
      desc.file.Grow(newSize);
    }

    method GrowThrough(desc: FileDesc, ghost i: nat, newSize: nat)
      requires Valid() && M.Holds(View(), i) && table != null && i < table.Length && table[i] == desc
      requires M.FileOf(View(), i).size < newSize
      modifies `files, `slots, `holder, holder.Keys
      ensures FilesOk() && TableOk() && AllHeld() && fresh(holder.Keys - old(holder.Keys))
      ensures View() == M.GrowAt(old(View()), i, newSize)
    {
      hide M.Inv, FilesOk, TableOk, AllHeld, M.Grow, File.Valid, Reheld;
      SlotFacts(i);
      SlotsDiffer(i);
      GrowBytes(desc, i, newSize);
      ghost var n := slots[i].value.inode;
      ghost var place := node[n].place;
      Record(files[n := node[n].View()], slots, Reheld(holder, n, place));
      AfterFileCall(n, place);
    }

    /** `ufs_resize` past the lookup of its descriptor. */
    method ResizeVia(desc: FileDesc, ghost fd: int, newSize: nat) returns (r: int)
      requires Valid() && M.Lookup(View(), fd).Some? && table != null && fd - 1 < table.Length && table[fd - 1] == desc
      modifies `files, `slots, `holder, `error, holder.Keys
      ensures FilesOk() && TableOk() && AllHeld() && fresh(holder.Keys - old(holder.Keys))
      ensures M.Resize(old(View()), fd, newSize) == M.Outcome(View(), r, [])
    {
      hide M.Inv, FilesOk, TableOk, AllHeld, M.ShrinkAt, M.GrowAt;
      GuardFacts(fd - 1);
      if newSize == desc.file.size {
        r := 0;
      } else if newSize < desc.file.size {
        ShrinkThrough(desc, fd - 1, newSize);
        r := 0;
      } else if newSize > M.MAX_FILE_SIZE {
        SetError(M.NO_MEM);
        r := -1;
      } else {
        GrowThrough(desc, fd - 1, newSize);
        r := 0;
      }
    }

    static lemma ResizeFails(s: M.Fs, fd: int, newSize: nat)
      requires M.Inv(s)
      ensures M.Lookup(s, fd).None? ==> M.Resize(s, fd, newSize) == M.Fail(s, M.NO_FILE)
    {
    }

    method Resize(fd: int, newSize: nat) returns (r: int)
      requires Valid()
      modifies this, holder.Keys
      ensures Valid() && fresh(holder.Keys - old(holder.Keys))
      ensures M.Resize(old(View()), fd, newSize) == M.Outcome(View(), r, [])
    {
      hide M.Inv, FilesOk, TableOk, AllHeld, M.Resize, M.Lookup;
      I.ResizeKeepsInv(View(), fd, newSize);
      ResizeFails(View(), fd, newSize);
      var desc := Descriptor(fd);
      if desc == null {
        SetError(M.NO_FILE);
        r := -1;
      } else {
        r := ResizeVia(desc, fd, newSize);
      }
    }

    // ---------- open ----------

    /** What the search looks at in position `i`. */
    lemma FindStep(name: string, i: nat)
      requires Valid() && i <= |order|
      ensures i == |order| ==> Nth(i) == null && M.Find(View(), name, i).None?
      ensures i < |order| ==>
                && order[i] in node && Nth(i) == node[order[i]] && node[order[i]].next == Nth(i + 1)
                && var hit := !node[order[i]].isGhost && node[order[i]].name.text == name;
                   M.Find(View(), name, i) == if hit then Some(order[i]) else M.Find(View(), name, i + 1)
    {
      hide M.RefCount, M.UsedCount, M.SafeFile;
      if i < |order| {
        assert ListedAt(i) && NodeOk(order[i]);
      }
    }

    /** The search over the file list. */
    method FindFile(name: string) returns (file: File?)
      requires Valid()
      ensures file == null <==> M.Find(View(), name, 0).None?
      ensures file != null ==> M.Find(View(), name, 0).value in node && file == node[M.Find(View(), name, 0).value]
    {
      hide M.Find, M.Inv, FilesOk, TableOk, AllHeld, Nth;
      file := fileList;
      ghost var i := 0;
      HeadIs();
      FindStep(name, 0);
      while file != null
        invariant i <= |order| && file == Nth(i)
        invariant M.Find(View(), name, 0) == M.Find(View(), name, i)
        decreases |order| - i
      {
        FindStep(name, i);
        if !file.isGhost && file.name.text == name {
          return;
        }
        file := file.next;
        i := i + 1;
      }
      FindStep(name, i);
    }

    lemma HeadIs()
      requires Valid()
      ensures fileList == Nth(0) && forall n :: n in order ==> n in files
    {
    }

    ghost function Head(): set<File>
      reads `fileList
    {
      if fileList == null then {} else {fileList}
    }

    /** The pointer changes that put `file` at the front of the list. */
    method Prepend(file: File)
      requires fileList != file && file.prev == null && file.next == null
      modifies `fileList, Head()`prev, file`next
      ensures fileList == file && file.next == old(fileList) && file.prev == null
      ensures old(fileList) != null ==> old(fileList).prev == file
    {
      if fileList == null {
        fileList := file;
      } else {
        file.next := fileList;
        fileList.prev := file;
        fileList := file;
      }
    }

    lemma NodesDiffer()
      requires FilesOk()
      ensures forall x, y :: x in node && y in node && x != y ==> node[x] != node[y]
      ensures forall x :: x in node ==> node[x] in holder && node[x].Valid() && node[x].View() == files[x]
    {
      forall x | x in node ensures NodeOk(x) {
      }
    }

    /** A new empty file `n` stands before the others. */
    twostate lemma NodesAfterPrepend(n: nat, new file: File)
      requires old(FilesOk()) && n !in old(node) && fresh(file) && fresh(file.name)
      requires file.place == map[file.name := AsName] && file.Valid()
      requires files == old(files)[n := file.View()] && node == old(node)[n := file]
      requires holder == old(holder)[file := IsFile(n)][file.name := InFile(n)]
      requires forall x :: x in old(node) ==>
                 node[x].Valid() && node[x].View() == old(node[x].View()) && node[x].place == old(node[x].place)
      ensures NodesOk()
    {
      hide FilesOk, NodesOk, LinksOk, File.Valid, File.View;
      OldFiles();
      HolderGrows(n, file);
      forall x | x in old(node)
        ensures node[x] in holder && holder[node[x]] == IsFile(x)
        ensures forall o :: o in node[x].place ==> o in holder && holder[o] == InFile(x)
      {
        assert node[x] == old(node)[x];
      }
      AllNodesOk();
    }

    /** What was recorded still is. */
    twostate lemma HolderGrows(n: nat, new file: File)
      requires fresh(file) && fresh(file.name)
      requires holder == old(holder)[file := IsFile(n)][file.name := InFile(n)]
      ensures forall o :: o in old(holder) ==> o in holder && holder[o] == old(holder)[o]
      ensures file in holder && holder[file] == IsFile(n) && file.name in holder && holder[file.name] == InFile(n)
    {
    }

    twostate lemma OldFiles()
      requires old(FilesOk())
      ensures old(node).Keys == old(files).Keys
      ensures forall x :: x in old(node) ==>
                && old(node)[x] in old(holder) && old(holder)[old(node)[x]] == IsFile(x)
                && x in old(files) && old(node[x].View()) == old(files)[x]
                && forall o :: o in old(node[x].place) ==> o in old(holder) && old(holder)[o] == InFile(x)
    {
      hide LinksOk, File.Valid, File.View;
      forall x | x in old(node) ensures old(NodeOk(x)) {
      }
    }

    twostate lemma NthAfterPrepend(n: nat, new file: File)
      requires old(FilesOk()) && n !in old(node)
      requires node == old(node)[n := file] && order == [n] + old(order)
      ensures Nth(-1) == null && Nth(0) == file
      ensures forall i :: 0 < i <= |order| ==> Nth(i) == old(Nth(i - 1))
      ensures old(Nth(-1)) == null && old(fileList) == old(Nth(0))
    {
      hide NodesOk;
      forall i | 0 < i <= |order| ensures Nth(i) == old(Nth(i - 1)) {
        if i < |order| {
          assert old(ListedAt(i - 1)) && order[i] == old(order)[i - 1];
        }
      }
    }

    twostate lemma LinksAfterPrepend(n: nat, new file: File)
      requires old(FilesOk()) && n !in old(node) && fresh(file) && fresh(file.name) && Distinct(old(order))
      requires node == old(node)[n := file] && order == [n] + old(order)
      requires holder == old(holder)[file := IsFile(n)][file.name := InFile(n)]
      requires fileList == file && file.next == old(fileList) && file.prev == null
      requires old(fileList) != null ==> old(fileList).prev == file && old(fileList).next == old(fileList.next)
      requires forall x :: x in old(node) && node[x] != old(fileList) ==>
                 node[x].next == old(node[x].next) && node[x].prev == old(node[x].prev)
      ensures LinksOk()
    {
      NodesDiffered();
      NthAfterPrepend(n, file);
      HeadNode();
      hide FilesOk, Nth, ListedAt, NodeOk;
      forall i | 0 <= i < |order| ensures ListedAt(i) {
        if i > 0 {
          OldListed(i - 1);
          assert i > 1 ==> node[order[i]] != old(fileList);
        }
        NowListed(i);
      }
    }

    twostate lemma HeadNode()
      requires old(FilesOk())
      ensures old(order) != [] ==> old(order)[0] in old(node) && old(fileList) == old(node)[old(order)[0]]
      ensures old(order) == [] ==> old(fileList) == null
    {
      assert old(order) != [] ==> old(ListedAt(0));
    }

    twostate lemma NodesDiffered()
      requires old(FilesOk())
      ensures forall x, y :: x in old(node) && y in old(node) && x != y ==> old(node)[x] != old(node)[y]
    {
      forall x | x in old(node) ensures old(NodeOk(x)) {
      }
    }

    twostate lemma HeldAfterPrepend(n: nat, new file: File)
      requires old(AllHeld()) && n !in old(node) && fresh(file) && fresh(file.name)
      requires file.place == map[file.name := AsName]
      requires node == old(node)[n := file] && holder == old(holder)[file := IsFile(n)][file.name := InFile(n)]
      requires table == old(table)
      requires forall x :: x in old(node) ==> node[x].place == old(node[x].place)
      requires table != null ==> forall j :: 0 <= j < table.Length ==> table[j] == old(table[j])
      ensures AllHeld()
    {
      forall o | o in holder ensures Held(o) {
        assert o in old(holder) ==> old(Held(o));
      }
    }

    /** The files are different objects, none within another, and the head is one of them. */
    ghost predicate NodesApart()
      reads this, node.Values, set x, o | x in node && o in node[x].place :: o
    {
      && (forall x :: x in node ==> node[x].Valid() && this as object != node[x] && this !in node[x].place)
      && (forall x, y :: x in node && y in node ==> node[y] !in node[x].place && (x != y ==> node[x] != node[y]))
      && (fileList != null ==> order != [] && order[0] in node && fileList == node[order[0]])
    }

    lemma NodesAreApart()
      requires FilesOk() && AllHeld()
      ensures NodesApart()
    {
      NodesDiffer();
      AllApart();
      HeadIsNode();
    }

    /** The list's part of a creation; the files that were there keep everything but the head's `prev`. */
    method NewHead(name: string) returns (file: File)
      requires NodesApart()
      modifies `fileList, Head()`prev
      ensures fresh(file) && fresh(file.name) && file.place == map[file.name := AsName] && file.Valid()
      ensures file.View() == M.File(name, [], 0, 0, false)
      ensures fileList == file && file.next == old(fileList) && file.prev == null
      ensures old(fileList) != null ==> old(fileList).prev == file && old(fileList).next == old(fileList.next)
      ensures forall x :: x in node ==>
                && this as object != node[x] && this !in node[x].place
                && node[x].Valid() && node[x].View() == old(node[x].View()) && node[x].place == old(node[x].place)
                && (node[x] != old(fileList) ==> node[x].next == old(node[x].next) && node[x].prev == old(node[x].prev))
      ensures table != null ==> forall j :: 0 <= j < table.Length ==>
                table[j] == old(table[j]) && (table[j] != null ==> table[j].offset == old(table[j].offset))
    {
      hide File.Valid, File.View;
      file := new File(name);
      Prepend(file);
      forall x | x in node
        ensures node[x].Valid() && node[x].View() == old(node[x].View()) && node[x].place == old(node[x].place)
        ensures node[x] != old(fileList) ==> node[x].next == old(node[x].next) && node[x].prev == old(node[x].prev)
      {
      }
    }

    twostate lemma TableAfterPrepend(n: nat, new file: File)
      requires old(TableOk()) && n !in old(node) && fresh(file) && fresh(file.name)
      requires node == old(node)[n := file] && holder == old(holder)[file := IsFile(n)][file.name := InFile(n)]
      requires slots == old(slots) && table == old(table) && capacity == old(capacity)
      requires table != null ==> forall j :: 0 <= j < table.Length ==>
                 table[j] == old(table[j]) && (table[j] != null ==> table[j].offset == old(table[j].offset))
      ensures TableOk()
    {
      if table != null {
        forall i | 0 <= i < |slots| ensures SlotOk(i) {
          assert old(SlotOk(i));
        }
      }
    }

    lemma HeadIsNode()
      requires FilesOk()
      ensures fileList != null ==> order != [] && order[0] in node && fileList == node[order[0]]
    {
    }

    lemma AllApart()
      requires FilesOk() && AllHeld()
      ensures this !in holder
      ensures forall x :: x in node ==> this as object != node[x] && this !in node[x].place
      ensures forall x, y :: x in node && y in node ==> node[y] !in node[x].place
    {
      forall x | x in node ensures NodeOk(x) {
      }
    }

    /** Put a new file at the front of the list. */
    method AddFile(name: string) returns (file: File)
      requires Valid()
      modifies `fileList, `files, `order, `nextInode, `node, `holder, Head()`prev
      ensures FilesOk() && TableOk() && AllHeld()
      ensures View() == M.CreateFile(old(View()), name)
      ensures old(nextInode) in node && file == node[old(nextInode)] && fresh(file)
      ensures holder == old(holder)[file := IsFile(old(nextInode))][file.name := InFile(old(nextInode))]
      ensures fresh(file.name)
    {
      hide M.Inv, FilesOk, TableOk, AllHeld, File.Valid, File.View, Nth, Distinct, NodesApart;
      ghost var n, was := nextInode, View();
      FreshInode();
      NodesAreApart();
      file := NewHead(name);
      assert View() == was;
      RecordNew(n, file);
      assert View() == M.CreateFile(was, name);
      AfterPrepend(n, file);
    }

    /** Bring the ghost record of the list up to date. */
    ghost method RecordNew(n: nat, file: File)
      requires n == nextInode
      modifies `files, `order, `nextInode, `node, `holder
      ensures files == old(files)[n := file.View()] && order == [n] + old(order) && nextInode == n + 1
      ensures node == old(node)[n := file] && holder == old(holder)[file := IsFile(n)][file.name := InFile(n)]
    {
      files, order, nextInode := files[n := file.View()], [n] + order, n + 1;
      node, holder := node[n := file], holder[file := IsFile(n)][file.name := InFile(n)];
    }

    /** A new empty file `n` stands before the others. */
    twostate lemma AfterPrepend(n: nat, new file: File)
      requires old(FilesOk()) && old(AllHeld()) && old(TableOk())
      requires n !in old(node) && fresh(file) && fresh(file.name) && file.place == map[file.name := AsName]
      requires file.Valid() && Distinct(old(order))
      requires files == old(files)[n := file.View()] && node == old(node)[n := file] && order == [n] + old(order)
      requires holder == old(holder)[file := IsFile(n)][file.name := InFile(n)]
      requires slots == old(slots) && table == old(table) && capacity == old(capacity)
      requires fileList == file && file.next == old(fileList) && file.prev == null
      requires old(fileList) != null ==> old(fileList).prev == file && old(fileList).next == old(fileList.next)
      requires forall x :: x in old(node) ==>
                 && node[x].Valid() && node[x].View() == old(node[x].View()) && node[x].place == old(node[x].place)
                 && (node[x] != old(fileList) ==>
                      node[x].next == old(node[x].next) && node[x].prev == old(node[x].prev))
      requires table != null ==> forall j :: 0 <= j < table.Length ==>
                 table[j] == old(table[j]) && (table[j] != null ==> table[j].offset == old(table[j].offset))
      ensures FilesOk() && AllHeld() && TableOk()
    {
      hide FilesOk, AllHeld, TableOk, NodesOk, LinksOk, File.Valid, Distinct;
      assert NodesOk() by { NodesAfterPrepend(n, file); }
      assert LinksOk() by { LinksAfterPrepend(n, file); }
      assert AllHeld() by { HeldAfterPrepend(n, file); }
      assert TableOk() by { TableAfterPrepend(n, file); }
      NodesAndLinks();
    }

    lemma NodesAndLinks()
      requires NodesOk() && LinksOk()
      ensures FilesOk()
    {
    }

    lemma FreshInode()
      requires Valid()
      ensures nextInode !in node && nextInode !in order && Distinct(order) && this !in holder
    {
      hide M.RefCount, M.UsedCount, M.SafeFile;
    }

    ghost predicate FileKey(h: Holder) {
      h.IsFile? || h.InFile?
    }

    /** Only file `n`, if any, changed, and only in its count or mark. */
    twostate lemma FilesKept(n: nat)
      requires old(FilesOk())
      requires node == old(node) && order == old(order) && fileList == old(fileList) && files.Keys == old(files).Keys
      requires forall x :: x in node && x != n ==> files[x] == old(files)[x] && unchanged(node[x])
      requires forall x, o :: x in node && o in old(node[x].place) ==> unchanged(o)
      requires n in node ==>
                 && node[n].Valid() && node[n].View() == files[n] && node[n].place == old(node[n].place)
                 && node[n].next == old(node[n].next) && node[n].prev == old(node[n].prev)
      requires forall o :: o in old(holder) && FileKey(old(holder)[o]) ==> o in holder && holder[o] == old(holder)[o]
      ensures FilesOk()
    {
      forall x | x in node ensures NodeOk(x) {
        assert old(NodeOk(x));
      }
      forall i | 0 <= i < |order| ensures ListedAt(i) {
        assert old(ListedAt(i)) && old(NodeOk(order[i]));
      }
    }

    /** The file system, its table and file `n` are none of the files' blocks, and no other file. */
    lemma OutsideFiles(n: nat)
      requires FilesOk() && TableOk() && AllHeld()
      ensures this !in holder && node.Keys == files.Keys
      ensures forall x :: x in node ==> this as object != node[x]
      ensures forall x, o :: x in node && o in node[x].place ==> o != this && o != table
      ensures n in node ==>
                && node[n].Valid() && node[n].View() == files[n]
                && (forall x :: x in node && x != n ==> node[x] != node[n])
                && forall x, o :: x in node && o in node[x].place ==> o != node[n]
    {
      forall x | x in node ensures NodeOk(x) {
      }
    }

    /** What `holder` becomes when table `gone`, if any, is freed for `t`. */
    ghost function WithTable(was: map<object, Holder>, gone: array?<FileDesc?>, t: array<FileDesc?>):
        map<object, Holder>
      requires gone != null ==> gone in was
    {
      (if gone == null then was else was - {gone})[t := IsTable]
    }

    /** The table is a fresh, longer array that begins with the old slots. */
    twostate lemma AfterNewTable(new t: array<FileDesc?>)
      requires old(FilesOk()) && old(TableOk()) && old(AllHeld()) && fresh(t)
      requires node == old(node) && table == t && t.Length == capacity == |slots| > 0 && |slots| >= |old(slots)|
      requires holder == WithTable(old(holder), old(table), t)
      requires slots[..|old(slots)|] == old(slots)
      requires forall i :: |old(slots)| <= i < |slots| ==> slots[i].None? && t[i] == null
      requires forall i :: 0 <= i < |old(slots)| ==>
                 t[i] == old(table[i]) && (t[i] != null ==> t[i].offset == old(table[i].offset))
      requires forall x :: x in node ==> node[x].place == old(node[x].place)
      ensures TableOk() && AllHeld()
    {
      forall i | 0 <= i < |slots| ensures SlotOk(i) {
        assert i < |old(slots)| ==> slots[i] == old(slots)[i] && old(SlotOk(i));
      }
      forall o | o in holder ensures Held(o) {
        if o in old(holder) {
          assert old(Held(o));
          match holder[o]
          case IsTable =>
          case IsFile(n) => assert old(NodeOk(n));
          case IsDesc(i) => assert t[i] == old(table[i]);
          case InFile(n) => assert old(NodeOk(n));
        }
      }
    }

    /** The first allocation of the table. */
    method InitTable()
      requires Valid() && capacity == 0
      modifies `table, `capacity, `used, `slots, `holder
      ensures FilesOk() && TableOk() && AllHeld() && fresh(holder.Keys - old(holder.Keys)) && table != null
      ensures fresh(table) && table.Length == |slots|
      ensures View() == M.EnsureTable(old(View()))
    {
      hide M.Inv, File.Valid, File.View, FilesOk, TableOk, AllHeld, FileKey;
      NoTable();
      FreshInode();
      OutsideFiles(nextInode);
      var t := new FileDesc?[M.INITIAL_CAPACITY](_ => null);
      NewTable(t, M.Empties(M.INITIAL_CAPACITY));
      used := 0;
      FileKeysKept();
      FilesKept(nextInode);
      AfterNewTable(t);
    }

    lemma NoTable()
      requires TableOk()
      ensures capacity == 0 <==> table == null
      ensures capacity == |slots|
      ensures table != null ==> table.Length == capacity && table in holder && holder[table] == IsTable
    {
    }

    /** Only descriptors and the table left `holder`. */
    twostate lemma FileKeysKept()
      requires forall o :: o in old(holder) && (old(holder)[o].IsFile? || old(holder)[o].InFile?) ==>
                 o in holder && holder[o] == old(holder)[o]
      ensures forall o :: o in old(holder) && FileKey(old(holder)[o]) ==> o in holder && holder[o] == old(holder)[o]
    {
    }

    /** realloc to twice the size, the new half empty. */
    method Widen()
      requires Valid() && table != null
      modifies `table, `capacity, `slots, `holder
      ensures FilesOk() && TableOk() && AllHeld() && fresh(holder.Keys - old(holder.Keys)) && table != null
      ensures fresh(table) && table.Length == |slots|
      ensures View() == old(View()).(table := old(slots) + M.Empties(|old(slots)|))
    {
      hide M.Inv, File.Valid, File.View, FilesOk, TableOk, AllHeld, FileKey;
      NoTable();
      FreshInode();
      OutsideFiles(nextInode);
      var t := new FileDesc?[2 * capacity](_ => null);
      forall i | 0 <= i < capacity {
        t[i] := table[i];
      }
      NewTable(t, slots + M.Empties(capacity));
      FileKeysKept();
      FilesKept(nextInode);
      AfterNewTable(t);
    }

    /** `t` takes the place of the table. */
    method NewTable(t: array<FileDesc?>, ghost slots: seq<Option<M.Desc>>)
      requires table != null ==> table in holder
      modifies `table, `capacity, `slots, `holder
      ensures table == t && capacity == t.Length && this.slots == slots
      ensures holder == WithTable(old(holder), old(table), t)
    {
      holder := WithTable(holder, table, t);
      table, capacity := t, t.Length;
      this.slots := slots;
    }

    /** Slot `idx` got a fresh descriptor on file `n`. */
    twostate lemma AfterInstall(idx: nat, new n: nat, new desc: FileDesc)
      requires old(FilesOk()) && old(TableOk()) && old(AllHeld()) && fresh(desc) && n in old(node)
      requires desc.file == old(node)[n] && desc.offset == 0
      requires node == old(node) && table == old(table) && table != null && capacity == old(capacity)
      requires idx < |old(slots)| && table.Length == |old(slots)|
      requires old(slots)[idx].None? && slots == old(slots)[idx := Some(M.Desc(n, desc.flags, 0))]
      requires holder == old(holder)[desc := IsDesc(idx)]
      requires table[idx] == desc
      requires forall i :: 0 <= i < |slots| && i != idx ==>
                 table[i] == old(table[i]) && (table[i] != null ==> table[i].offset == old(table[i].offset))
      requires forall x :: x in node ==> node[x].place == old(node[x].place)
      ensures TableOk() && AllHeld()
    {
      assert old(SlotOk(idx));
      forall i | 0 <= i < |slots| ensures SlotOk(i) {
        assert old(SlotOk(i));
      }
      forall o | o in holder ensures Held(o) {
        if o in old(holder) {
          assert old(Held(o));
          match holder[o]
          case IsTable =>
          case IsFile(x) => assert old(NodeOk(x));
          case IsDesc(i) =>
          case InFile(x) => assert old(NodeOk(x));
        }
      }
    }

    /** The pointers' part of handing out slot `idx`. */
    method Attach(idx: nat, file: File, ghost n: nat, flags: set<M.OpenFlag>) returns (desc: FileDesc)
      requires FilesOk() && TableOk() && AllHeld() && table != null && idx < table.Length && n in node
      requires file == node[n]
      modifies `used, table, file`refs
      ensures fresh(desc) && desc.file == file && desc.flags == flags && desc.offset == 0 && used == old(used) + 1
      ensures table[idx] == desc && n in files
      ensures forall i :: 0 <= i < table.Length && i != idx ==>
                table[i] == old(table[i]) && (table[i] != null ==> table[i].offset == old(table[i].offset))
      ensures node[n].Valid() && node[n].View() == files[n].(refs := files[n].refs + 1)
      ensures node[n].place == old(node[n].place) && node[n].next == old(node[n].next)
      ensures node[n].prev == old(node[n].prev)
      ensures forall x :: x in node && x != n ==> unchanged(node[x])
      ensures forall x, o :: x in node && o in old(node[x].place) ==> unchanged(o)
      ensures forall x :: x in node ==> this as object != node[x]
      ensures forall x, o :: x in node && o in node[x].place ==> o != this
      ensures node.Keys == files.Keys && this !in holder && table.Length == |slots| == capacity
    {
      hide M.Inv, File.Valid, File.View, FilesOk, TableOk, AllHeld;
      OutsideFiles(n);
      NoTable();
      desc := new FileDesc(file, flags);
      table[idx] := desc;
      used := used + 1;
      file.Retain();
    }

    static lemma InstallIs(s: M.Fs, idx: nat, n: nat, flags: set<M.OpenFlag>)
      requires idx < |s.table| && n in s.files
      ensures M.Install(s, idx, n, flags)
           == M.Fs(s.files[n := s.files[n].(refs := s.files[n].refs + 1)], s.order,
                   s.table[idx := Some(M.Desc(n, flags, 0))],
                   s.used + 1, s.error, s.nextInode)
    {
    }

    /** A fresh descriptor in slot `idx`. */
    method Install(idx: nat, file: File, ghost n: nat, flags: set<M.OpenFlag>)
      requires FilesOk() && TableOk() && AllHeld() && table != null && idx < table.Length && idx < |slots|
      requires slots[idx].None?
      requires n in node && file == node[n]
      modifies `used, `slots, `files, `holder, table, file`refs
      ensures FilesOk() && TableOk() && AllHeld() && fresh(holder.Keys - old(holder.Keys))
      ensures n in old(files) && View() == M.Install(old(View()), idx, n, flags)
    {
      hide M.Inv, M.Install, File.Valid, File.View, FilesOk, TableOk, AllHeld, FileKey;
      ghost var was := View();
      var desc := Attach(idx, file, n, flags);
      InstallIs(was, idx, n, flags);
      assert View() == was.(used := was.used + 1) && file.View() == was.files[n].(refs := was.files[n].refs + 1);
      Record(files[n := file.View()], slots[idx := Some(M.Desc(n, flags, 0))], holder[desc := IsDesc(idx)]);
      assert View() == M.Install(was, idx, n, flags);
      FileKeysKept();
      FilesKept(n);
      AfterInstall(idx, n, desc);
    }

    lemma TableFacts()
      requires Valid()
      ensures 0 <= used <= |slots| == capacity && node.Keys == files.Keys
      ensures capacity == 0 <==> table == null
      ensures table != null ==> table.Length == capacity && table in holder
      ensures forall n :: n in node ==> node[n] in holder
      ensures forall n :: n in order ==> n in files
      ensures fileList != null ==> fileList in holder
    {
      I.UsedInRange(View());
      HeadIsNode();
      hide M.RefCount, M.UsedCount, M.SafeFile;
      forall n | n in node ensures NodeOk(n) {
      }
    }

    /** The search for an empty slot. */
    method FreeSlot() returns (idx: int)
      requires TableOk() && table != null
      ensures idx == M.FirstFree(slots, 0)
    {
      idx := -1;
      for i := 0 to capacity
        invariant M.FirstFree(slots, 0) == M.FirstFree(slots, i)
      {
        assert SlotOk(i);
        if table[i] == null {
          return i;
        }
      }
    }

    /** The descriptor part of `ufs_open`, the file being known and the table allocated. */
    method TakeSlot(file: File, ghost n: nat, flags: set<M.OpenFlag>) returns (fd: int)
      requires Valid() && table != null && n in node && file == node[n]
      modifies `table, `capacity, `used, `slots, `files, `holder, `error, table, file`refs
      ensures FilesOk() && TableOk() && AllHeld() && fresh(holder.Keys - old(holder.Keys))
      ensures M.Inv(old(View())) && n in old(files) && 0 <= old(used)
      ensures (old(used) >= |old(slots)| ==> old(used) == |old(slots)| > 0) && 0 < |old(slots)|
      ensures M.OpenAt(old(View()), n, flags) == M.Outcome(View(), fd, [])
    {
      hide M.Inv, FilesOk, TableOk, AllHeld, M.FirstFree, M.Install;
      TableFacts();
      if used < capacity {
        I.FirstFreeLeast(slots, 0);
        var idx := FreeSlot();
        if idx < 0 {
          SetError(M.NOT_IMPLEMENTED);
          fd := -1;
        } else {
          Install(idx, file, n, flags);
          fd := idx + 1;
        }
      } else {
        Widen();
        var idx := used;
        Install(idx, file, n, flags);
        fd := idx + 1;
      }
    }

    /** The descriptor part of `ufs_open`. */
    method OpenFound(file: File, ghost n: nat, flags: set<M.OpenFlag>) returns (fd: int)
      requires Valid() && n in node && file == node[n]
      modifies `table, `capacity, `used, `slots, `files, `holder, `error, table, file`refs
      ensures FilesOk() && TableOk() && AllHeld() && fresh(holder.Keys - old(holder.Keys))
      ensures var s := M.EnsureTable(old(View()));
              && n in s.files && 0 <= s.used && (s.used >= |s.table| ==> s.used == |s.table|) && 0 < |s.table|
              && M.OpenAt(s, n, flags) == M.Outcome(View(), fd, [])
    {
      hide M.Inv, FilesOk, TableOk, AllHeld, M.OpenAt;
      TableFacts();
      I.EnsureTableKeepsInv(View());
      if capacity <= 0 {
        InitTable();
      }
      fd := TakeSlot(file, n, flags);
    }

    method Open(name: string, openFlags: set<M.OpenFlag>) returns (fd: int)
      requires Valid()
      modifies this, holder.Keys
      ensures Valid() && fresh(holder.Keys - old(holder.Keys))
      ensures M.Open(old(View()), name, openFlags) == M.Outcome(View(), fd, [])
    {
      hide M.Inv, FilesOk, TableOk, AllHeld, M.OpenAt, M.EnsureTable, M.Find, M.CreateFile;
      I.OpenKeepsInv(View(), name, openFlags);
      TableFacts();
      var flags := openFlags;
      if M.READ_ONLY !in flags && M.WRITE_ONLY !in flags {
        flags := flags + {M.READ_WRITE};
      }
      var file := FindFile(name);
      ghost var n := if file == null then nextInode else M.Find(View(), name, 0).value;
      if file == null {
        if M.CREATE !in flags {
          SetError(M.NO_FILE);
          return -1;
        }
        CreateInv(name);
        file := AddFile(name);
      }
      fd := OpenFound(file, n, flags);
    }

    lemma CreateInv(name: string)
      requires Valid() && M.Find(View(), name, 0).None?
      ensures M.Inv(M.CreateFile(View(), name))
    {
      M.FindSound(View(), name, 0);
      I.CreateFileKeepsInv(View(), name);
    }

    // ---------- close and delete ----------

    /** The pointers' part of giving slot `i` back. */
    method ReleaseSlot(i: nat, file: File, ghost n: nat)
      requires FilesOk() && TableOk() && AllHeld() && table != null && i < table.Length && n in node && file == node[n]
      modifies `used, table, file`refs
      ensures used == old(used) - 1 && table[i] == null && n in files
      ensures forall j :: 0 <= j < table.Length && j != i ==>
                table[j] == old(table[j]) && (table[j] != null ==> table[j].offset == old(table[j].offset))
      ensures node[n].Valid() && node[n].View() == files[n].(refs := files[n].refs - 1)
      ensures node[n].place == old(node[n].place) && node[n].next == old(node[n].next)
      ensures node[n].prev == old(node[n].prev)
      ensures forall x :: x in node && x != n ==> unchanged(node[x])
      ensures forall x, o :: x in node && o in old(node[x].place) ==> unchanged(o)
      ensures forall x :: x in node ==> this as object != node[x]
      ensures forall x, o :: x in node && o in node[x].place ==> o != this
      ensures node.Keys == files.Keys && this !in holder && table.Length == |slots| == capacity
    {
      hide M.Inv, File.Valid, File.View, FilesOk, TableOk, AllHeld;
      OutsideFiles(n);
      NoTable();
      file.Drop();
      table[i] := null;
      used := used - 1;
    }

    /** Slot `i`, which held `desc`, is empty. */
    twostate lemma AfterDetach(i: nat, new desc: FileDesc)
      requires old(FilesOk()) && old(TableOk()) && old(AllHeld()) && old(table) != null && i < |old(slots)|
      requires desc == old(table[i])
      requires node == old(node) && table == old(table) && capacity == old(capacity)
      requires slots == old(slots)[i := None] && holder == old(holder) - {desc} && table[i] == null
      requires forall j :: 0 <= j < |slots| && j != i ==>
                 table[j] == old(table[j]) && (table[j] != null ==> table[j].offset == old(table[j].offset))
      requires forall x :: x in node ==> node[x].place == old(node[x].place)
      ensures TableOk() && AllHeld()
    {
      assert old(SlotOk(i));
      forall j | 0 <= j < |slots| ensures SlotOk(j) {
        assert old(SlotOk(j));
      }
      forall o | o in holder ensures Held(o) {
        assert old(Held(o));
        match holder[o]
        case IsTable =>
        case IsFile(x) => assert old(NodeOk(x));
        case IsDesc(j) =>
        case InFile(x) => assert old(NodeOk(x));
      }
    }

    /** What one slot holds, without the invariant of the counts. */
    lemma SlotHolds(i: nat)
      requires TableOk() && table != null && i < |slots| && slots[i].Some?
      ensures table.Length == |slots| && table[i] != null
      ensures var d: FileDesc := table[i]; d in holder && holder[d] == IsDesc(i)
      ensures slots[i].value.inode in node && table[i].file == node[slots[i].value.inode]
    {
      assert SlotOk(i);
    }

    method Detach(desc: FileDesc, i: nat)
      requires FilesOk() && TableOk() && AllHeld() && table != null && i < |slots| && slots[i].Some?
      requires i < table.Length && table[i] == desc
      modifies `used, `slots, `files, `holder, table, desc.file`refs
      ensures FilesOk() && TableOk() && AllHeld() && holder == old(holder) - {desc}
      ensures var n := old(slots[i]).value.inode;
              && n in old(files)
              && View() == old(View()).(files := old(files)[n := old(files)[n].(refs := old(files)[n].refs - 1)],
                                        table := old(slots)[i := None], used := old(used) - 1)
    {
      hide M.Inv, File.Valid, File.View, FilesOk, TableOk, AllHeld, FileKey;
      SlotHolds(i);
      ghost var n, was := slots[i].value.inode, View();
      ReleaseSlot(i, desc.file, n);
      assert View() == was.(used := was.used - 1);
      Free(desc);
      Record(files[n := desc.file.View()], slots[i := None], holder);
      assert View() == was.(files := was.files[n := was.files[n].(refs := was.files[n].refs - 1)],
                            table := was.table[i := None], used := was.used - 1);
      DescGone(desc, i);
      FilesKept(n);
      AfterDetach(i, desc);
    }

    twostate lemma DescGone(new desc: FileDesc, i: nat)
      requires desc in old(holder) && old(holder)[desc] == IsDesc(i) && holder == old(holder) - {desc}
      ensures forall o :: o in old(holder) && FileKey(old(holder)[o]) ==> o in holder && holder[o] == old(holder)[o]
    {
    }

    ghost function One(file: File?): set<File> {
      if file == null then {} else {file}
    }

    /** `_ufs_unlink_file` */
    method Unlink(file: File)
      requires file.prev != file && file.next != file && (file.prev != null ==> file.prev != file.next)
      modifies `fileList, One(file.prev)`next, One(file.next)`prev
      ensures fileList == if old(fileList) == file then old(file.next) else old(fileList)
      ensures old(file.prev) != null ==> old(file.prev).next == old(file.next)
      ensures old(file.next) != null ==> old(file.next).prev == old(file.prev)
    {
      if file.prev != null {
        file.prev.next := file.next;
      }
      if file.next != null {
        file.next.prev := file.prev;
      }
      if fileList == file {
        fileList := file.next;
      }
    }

    /** What the list looks like around position `k`. */
    lemma AroundFile(k: nat)
      requires FilesOk() && AllHeld() && Distinct(order) && k < |order|
      ensures order[k] in node && node[order[k]] in holder
      ensures var f := node[order[k]];
              && f.prev == Nth(k - 1) && f.next == Nth(k + 1) && f.prev != f && f.next != f
              && (f.prev != null ==> f.prev != f.next)
              && f.Valid() && (fileList == f <==> k == 0)
      ensures forall i :: 0 <= i < |order| ==> order[i] in node && node[order[i]] == Nth(i)
      ensures forall i, j :: 0 <= i < j < |order| ==> node[order[i]] != node[order[j]]
      ensures forall x, y :: x in node && y in node && x != y ==> node[x] != node[y]
      ensures forall x, y :: x in node && y in node ==> node[y] !in node[x].place
      ensures forall x :: x in node ==> node[x].Valid() && this as object != node[x] && this !in node[x].place
    {
      NodesDiffer();
      AllApart();
      forall i | 0 <= i < |order| ensures order[i] in node && node[order[i]] == Nth(i) {
        assert ListedAt(i);
      }
      assert ListedAt(k);
    }

    /** The pointers' part of a release: unlink the file and free its blocks. */
    method CutFile(file: File, ghost k: nat) returns (ghost freed: seq<object>)
      requires FilesOk() && AllHeld() && Distinct(order) && k < |order| && file == Nth(k)
      modifies `fileList, One(file.prev)`next, One(file.next)`prev, file
      ensures unchanged(`files, `order, `slots, `used, `error, `nextInode, `node, `holder, `table, `capacity)
      ensures fileList == if k == 0 then old(Nth(1)) else old(fileList)
      ensures forall x :: x in node && x != order[k] ==>
                node[x].Valid() && node[x].View() == old(node[x].View()) && node[x].place == old(node[x].place)
      ensures forall i :: 0 <= i < |order| ==> order[i] in node
      ensures forall i :: 0 <= i < |order| && i != k ==>
                && node[order[i]].next == (if i + 1 == k then old(Nth(k + 1)) else old(node[order[i]].next))
                && node[order[i]].prev == (if i == k + 1 then old(Nth(k - 1)) else old(node[order[i]].prev))
      ensures table != null ==> forall j :: 0 <= j < table.Length ==>
                table[j] == old(table[j]) && (table[j] != null ==> table[j].offset == old(table[j].offset))
      ensures forall x :: x in node ==> this as object != node[x] && (x != order[k] ==> this !in node[x].place)
      ensures Distinct(freed) && forall o :: o in freed <==> o in old(file.place)
    {
      hide FilesOk, NodesOk, LinksOk, AllHeld, File.Valid, File.View, Distinct;
      AroundFile(k);
      Unlink(file);
      freed := file.FreeBlocks();
    }

    /** Everything file `n` held is free. */
    static ghost function Freed(was: map<object, Holder>, n: nat): (now: map<object, Holder>)
      ensures now.Keys <= was.Keys
    {
      map o | o in was && was[o] != IsFile(n) && was[o] != InFile(n) :: was[o]
    }

    twostate lemma NodesAfterCut(n: nat)
      requires old(FilesOk())
      requires node == old(node) - {n} && files == old(files) - {n} && holder == Freed(old(holder), n)
      requires forall x :: x in node ==>
                 node[x].Valid() && node[x].View() == old(node[x].View()) && node[x].place == old(node[x].place)
      ensures NodesOk()
    {
      hide FilesOk, NodesOk, LinksOk, File.Valid, File.View;
      OldFiles();
      forall x | x in node
        ensures node[x] in holder && holder[node[x]] == IsFile(x)
        ensures forall o :: o in node[x].place ==> o in holder && holder[o] == InFile(x)
      {
        assert node[x] == old(node)[x];
      }
      AllNodesOk();
    }

    lemma NowListed(i: nat)
      requires i < |order| && order[i] in node && node[order[i]] in holder
      requires node[order[i]].next == Nth(i + 1) && node[order[i]].prev == Nth(i - 1)
      ensures ListedAt(i)
    {
    }

    /** What the list said of position `j`. */
    twostate lemma OldListed(j: nat)
      requires old(FilesOk()) && j < |old(order)|
      ensures var o := old(order)[j];
              && o in old(node) && old(node)[o] in old(holder) && old(holder)[old(node)[o]] == IsFile(o)
              && old(node[order[j]].next) == old(Nth(j + 1)) && old(node[order[j]].prev) == old(Nth(j - 1))
    {
      assert old(ListedAt(j)) && old(NodeOk(order[j]));
    }

    twostate lemma OldHead()
      requires old(FilesOk())
      ensures old(fileList) == old(Nth(0))
    {
    }

    twostate lemma NotFreed(n: nat, new j: nat)
      requires old(FilesOk()) && j < |old(order)| && old(order)[j] != n
      requires holder == Freed(old(holder), n)
      ensures old(order)[j] in old(node) && old(node)[old(order)[j]] in holder
    {
      OldListed(j);
    }

    twostate lemma NthAfterCut(n: nat, new k: nat)
      requires Distinct(old(order)) && k < |old(order)| && old(order)[k] == n
      requires node == old(node) - {n} && order == old(order)[..k] + old(order)[k + 1..]
      requires forall i :: 0 <= i < |old(order)| ==> old(order)[i] in old(node)
      ensures forall i :: -1 <= i <= |order| ==> Nth(i) == old(Nth(if i < k then i else i + 1))
      ensures forall i :: 0 <= i < |order| ==>
                order[i] in node && order[i] != n && order[i] == old(order)[if i < k then i else i + 1]
    {
    }

    twostate lemma LinksAfterCut(n: nat, new k: nat)
      requires old(FilesOk()) && Distinct(old(order)) && k < |old(order)| && old(order)[k] == n
      requires node == old(node) - {n} && holder == Freed(old(holder), n)
      requires order == old(order)[..k] + old(order)[k + 1..]
      requires fileList == if k == 0 then old(Nth(1)) else old(fileList)
      requires forall i :: 0 <= i < |old(order)| ==> old(order)[i] in old(node)
      requires forall i :: 0 <= i < |old(order)| && i != k ==>
                 var f := old(node)[old(order)[i]];
                 && f.next == (if i + 1 == k then old(Nth(k + 1)) else old(f.next))
                 && f.prev == (if i == k + 1 then old(Nth(k - 1)) else old(f.prev))
      ensures LinksOk()
    {
      hide FilesOk, Nth, Distinct, NodeOk, Freed, ListedAt;
      OldHead();
      NthAfterCut(n, k);
      forall i | 0 <= i < |order| ensures ListedAt(i) {
        var j := if i < k then i else i + 1;
        OldListed(j);
        assert order[i] == old(order)[j];
        NotFreed(n, j);
        NowListed(i);
      }
    }

    twostate lemma HeldAfterCut(n: nat)
      requires old(AllHeld()) && old(FilesOk())
      requires node == old(node) - {n} && holder == Freed(old(holder), n) && table == old(table)
      requires forall x :: x in node ==> node[x].place == old(node[x].place)
      requires table != null ==> table in holder && forall j :: 0 <= j < table.Length ==> table[j] == old(table[j])
      ensures AllHeld()
    {
      forall o | o in holder ensures Held(o) {
        assert old(Held(o));
        match holder[o]
        case IsTable =>
        case IsFile(x) => assert old(NodeOk(x));
        case IsDesc(j) =>
        case InFile(x) => assert old(NodeOk(x));
      }
    }

    twostate lemma TableAfterCut(n: nat)
      requires old(TableOk())
      requires node == old(node) - {n} && holder == Freed(old(holder), n)
      requires slots == old(slots) && table == old(table) && capacity == old(capacity)
      requires forall j :: 0 <= j < |slots| && slots[j].Some? ==> slots[j].value.inode != n
      requires table != null ==> forall j :: 0 <= j < table.Length ==>
                 table[j] == old(table[j]) && (table[j] != null ==> table[j].offset == old(table[j].offset))
      ensures TableOk() && (table != null ==> table in holder)
    {
      if table != null {
        forall i | 0 <= i < |slots| ensures SlotOk(i) {
          assert old(SlotOk(i));
        }
      }
    }

    /** File `n`, at position `k`, is gone. */
    twostate lemma AfterCut(n: nat, new k: nat)
      requires old(FilesOk()) && old(AllHeld()) && old(TableOk())
      requires Distinct(old(order)) && k < |old(order)| && old(order)[k] == n
      requires node == old(node) - {n} && files == old(files) - {n} && holder == Freed(old(holder), n)
      requires order == Without(old(order), n)
      requires slots == old(slots) && table == old(table) && capacity == old(capacity)
      requires fileList == if k == 0 then old(Nth(1)) else old(fileList)
      requires forall x :: x in node ==>
                 node[x].Valid() && node[x].View() == old(node[x].View()) && node[x].place == old(node[x].place)
      requires forall i :: 0 <= i < |old(order)| ==> old(order)[i] in old(node)
      requires forall i :: 0 <= i < |old(order)| && i != k ==>
                 var f := old(node)[old(order)[i]];
                 && f.next == (if i + 1 == k then old(Nth(k + 1)) else old(f.next))
                 && f.prev == (if i == k + 1 then old(Nth(k - 1)) else old(f.prev))
      requires forall j :: 0 <= j < |slots| && slots[j].Some? ==> slots[j].value.inode != n
      requires table != null ==> forall j :: 0 <= j < table.Length ==>
                 table[j] == old(table[j]) && (table[j] != null ==> table[j].offset == old(table[j].offset))
      ensures FilesOk() && AllHeld() && TableOk()
    {
      WithoutIs(old(order), k);
      hide FilesOk, AllHeld, TableOk, NodesOk, LinksOk, File.Valid, File.View, Distinct, Freed, Nth, Without;
      assert NodesOk() by { NodesAfterCut(n); }
      assert LinksOk() by { LinksAfterCut(n, k); }
      assert TableOk() && (table != null ==> table in holder) by { TableAfterCut(n); }
      assert AllHeld() by { HeldAfterCut(n); }
      NodesAndLinks();
    }

    /** The frees of a file's name and blocks, and of the file itself. */
    ghost method FreeFile(file: File, place: map<object, Place>, freed: seq<object>)
      requires file in holder && place.Keys <= holder.Keys && file !in place
      requires Distinct(freed) && forall o :: o in freed <==> o in place
      modifies `holder
      ensures holder == old(holder) - (place.Keys + {file})
    {
      for i := 0 to |freed|
        invariant holder == old(holder) - (set o | o in freed[..i])
      {
        assert freed[i] !in freed[..i] && freed[i] in place;
        Free(freed[i]);
        assert freed[..i + 1] == freed[..i] + [freed[i]];
      }
      assert freed[..|freed|] == freed;
      Free(file);
    }

    static lemma FreedIs(was: map<object, Holder>, n: nat, file: File, place: map<object, Place>)
      requires Owns(was, n, file, place)
      ensures Freed(was, n) == was - (place.Keys + {file})
    {
    }

    lemma OwnsFile(n: nat)
      requires FilesOk() && AllHeld() && n in node
      ensures Owns(holder, n, node[n], node[n].place) && node[n] !in node[n].place
    {
      assert NodeOk(n);
      forall o | o in holder ensures Held(o) {
      }
    }

    /** Bring the ghost record of the list up to date. */
    ghost method RecordCut(n: nat)
      modifies `files, `order, `node
      ensures files == old(files) - {n} && node == old(node) - {n} && order == Without(old(order), n)
    {
      files, node, order := files - {n}, node - {n}, Without(order, n);
    }

    /** `_ufs_unlink_file` and `_ufs_free_file` on a file no descriptor reaches. */
    method Release(file: File, ghost n: nat)
      requires FilesOk() && TableOk() && AllHeld() && Distinct(order) && n in order && n in node && file == node[n]
      requires forall j :: 0 <= j < |slots| && slots[j].Some? ==> slots[j].value.inode != n
      modifies `fileList, `files, `order, `node, `holder, holder.Keys
      ensures FilesOk() && TableOk() && AllHeld() && holder == Freed(old(holder), n)
      ensures View() == M.Release(old(View()), n)
    {
      hide FilesOk, AllHeld, TableOk, File.Valid, File.View, Distinct, Freed, Without, Nth;
      ghost var k: nat :| k < |order| && order[k] == n;
      NeighboursHeld(k);
      ghost var s, place := View(), file.place;
      OwnsFile(n);
      FreedIs(holder, n, file, place);
      hide Owns;
      ghost var freed := CutFile(file, k);
      label cut:
      FreeFile(file, place, freed);
      RecordCut(n);
      forall x | x in node
        ensures node[x].Valid() && node[x].View() == old(node[x].View()) && node[x].place == old(node[x].place)
      {
        assert x != old(order)[k] && unchanged@cut(node[x]);
      }
      assert View() == s.(files := s.files - {n}, order := Without(s.order, n));
      AfterCut(n, k);
    }

    lemma NeighboursHeld(k: nat)
      requires FilesOk() && AllHeld() && k < |order| && order[k] in node
      ensures this !in holder && node[order[k]] in holder && node[order[k]] == Nth(k)
      ensures node[order[k]].prev != null ==> node[order[k]].prev in holder
      ensures node[order[k]].next != null ==> node[order[k]].next in holder
    {
      assert ListedAt(k);
      assert k > 0 ==> ListedAt(k - 1);
      assert k + 1 < |order| ==> ListedAt(k + 1);
    }

    /** The table and what it holds stay. */
    twostate lemma TableKept()
      requires old(FilesOk()) && old(TableOk()) && old(AllHeld())
      requires node == old(node) && holder == old(holder) && slots == old(slots) && table == old(table)
      requires capacity == old(capacity)
      requires table != null ==> forall j :: 0 <= j < table.Length ==>
                 table[j] == old(table[j]) && (table[j] != null ==> table[j].offset == old(table[j].offset))
      requires forall x :: x in node ==> node[x].place == old(node[x].place)
      ensures TableOk() && AllHeld()
    {
      if table != null {
        forall i | 0 <= i < |slots| ensures SlotOk(i) {
          assert old(SlotOk(i));
        }
      }
      forall o | o in holder ensures Held(o) {
        assert old(Held(o));
        match holder[o]
        case IsTable =>
        case IsFile(x) => assert old(NodeOk(x));
        case IsDesc(j) =>
        case InFile(x) => assert old(NodeOk(x));
      }
    }

    method MarkGhost(file: File, ghost n: nat)
      requires FilesOk() && TableOk() && AllHeld() && n in node && file == node[n]
      modifies `files, `slots, `holder, file`isGhost
      ensures FilesOk() && TableOk() && AllHeld() && holder == old(holder)
      ensures n in old(files) && View() == old(View()).(files := old(files)[n := old(files)[n].(isGhost := true)])
    {
      hide M.Inv, File.Valid, File.View, FilesOk, TableOk, AllHeld, FileKey;
      OutsideFiles(n);
      file.Hide();
      Record(files[n := file.View()], slots, holder);
      FilesKept(n);
      TableKept();
    }

    lemma FindFacts(name: string)
      requires Valid()
      ensures forall n :: n in order ==> n in files
      ensures Distinct(order) && node.Keys == files.Keys
      ensures M.Find(View(), name, 0).Some? ==>
                var n := M.Find(View(), name, 0).value;
                && n in order && n in node && n in files && node[n].refs == files[n].refs
                && (files[n].refs <= 0 ==> forall j :: 0 <= j < |slots| && slots[j].Some? ==> slots[j].value.inode != n)
    {
      M.FindSound(View(), name, 0);
      var found := M.Find(View(), name, 0);
      if found.Some? {
        I.NobodyHolds(View(), found.value);
        assert NodeOk(found.value);
      }
    }

    method Delete(name: string) returns (r: int)
      requires Valid()
      modifies this, holder.Keys
      ensures Valid() && holder.Keys <= old(holder.Keys)
      ensures M.Delete(old(View()), name) == M.Outcome(View(), r, [])
    {
      hide M.Inv, FilesOk, TableOk, AllHeld, M.Find, M.Release, Freed, Distinct;
      I.DeleteKeepsInv(View(), name);
      FindFacts(name);
      TableFacts();
      var file := FindFile(name);
      if file == null {
        SetError(M.NO_FILE);
        r := -1;
      } else {
        ghost var n := M.Find(View(), name, 0).value;
        if file.refs <= 0 {
          Release(file, n);
        } else {
          MarkGhost(file, n);
        }
        r := 0;
      }
    }

    lemma CloseFacts(fd: int)
      requires Valid() && M.Lookup(View(), fd).Some?
      ensures var n := slots[fd - 1].value.inode;
              && n in node && n in files && n in order && Distinct(order) && table != null && table in holder
              && 0 <= fd - 1 < |slots| == table.Length && table[fd - 1] != null && table[fd - 1] in holder
              && table[fd - 1].file == node[n] && node[n] in holder && node[n].View() == files[n]
              && (files[n].refs - 1 <= 0 ==>
                   forall j :: 0 <= j < |slots| && j != fd - 1 && slots[j].Some? ==> slots[j].value.inode != n)
    {
      SlotFacts(fd - 1);
      I.NobodyElseHolds(View(), fd - 1);
      hide M.RefCount, M.UsedCount, M.SafeFile;
    }

    method Close(fd: int) returns (r: int)
      requires Valid()
      modifies this, holder.Keys
      ensures Valid() && holder.Keys <= old(holder.Keys)
      ensures M.Close(old(View()), fd) == M.Outcome(View(), r, [])
    {
      hide M.Inv, FilesOk, TableOk, AllHeld, M.Release, Freed, Distinct;
      I.CloseKeepsInv(View(), fd);
      var desc := Descriptor(fd);
      if desc == null {
        SetError(M.NO_FILE);
        r := -1;
      } else {
        CloseFacts(fd);
        CloseVia(desc, fd);
        r := 0;
      }
    }

    /** `ufs_close` past the lookup; the slot is emptied before the file goes, which touches other objects. */
    method CloseVia(desc: FileDesc, fd: int)
      requires Valid() && M.Lookup(View(), fd).Some? && table != null && fd - 1 < table.Length && table[fd - 1] == desc
      modifies this, holder.Keys
      ensures FilesOk() && TableOk() && AllHeld() && holder.Keys <= old(holder.Keys)
      ensures M.Close(old(View()), fd) == M.Outcome(View(), 0, [])
    {
      hide M.Inv, FilesOk, TableOk, AllHeld, Freed, Distinct, Without;
      CloseFacts(fd);
      var file := desc.file;
      ghost var n := slots[fd - 1].value.inode;
      Detach(desc, fd - 1);
      assert node[n].View() == files[n] && n in order by { FileIs(n); }
      if file.refs <= 0 && file.isGhost {
        Release(file, n);
      }
    }

    lemma FileIs(n: nat)
      requires FilesOk() && n in node
      ensures n in files && node[n].View() == files[n]
    {
      assert NodeOk(n);
    }

    // ---------- destruction ----------

    /** `holder` without the descriptors in slots below `i`. */
    static ghost function WithoutDescs(was: map<object, Holder>, i: nat): (now: map<object, Holder>)
      ensures now.Keys <= was.Keys
    {
      map o | o in was && !(was[o].IsDesc? && was[o].slot < i) :: was[o]
    }

    lemma DescTags()
      requires TableOk() && AllHeld() && table != null
      ensures table.Length == |slots| == capacity
      ensures forall i :: 0 <= i < table.Length && table[i] != null ==>
                var d: FileDesc := table[i]; d in holder && holder[d] == IsDesc(i)
      ensures forall o :: o in holder && holder[o].IsDesc? ==>
                holder[o].slot < table.Length && o == table[holder[o].slot]
    {
      forall i | 0 <= i < table.Length && table[i] != null
        ensures var d: FileDesc := table[i]; d in holder && holder[d] == IsDesc(i)
      {
        assert SlotOk(i);
      }
      forall o | o in holder && holder[o].IsDesc? ensures holder[o].slot < table.Length && o == table[holder[o].slot] {
        assert Held(o);
      }
    }

    /** Free every descriptor. */
    method FreeDescs()
      requires TableOk() && AllHeld() && table != null
      modifies `holder
      ensures holder == WithoutDescs(old(holder), |slots|)
    {
      DescTags();
      hide TableOk, AllHeld, WithoutDescs;
      DropNoDesc(holder);
      ghost var was := holder;
      for i := 0 to capacity
        invariant holder == WithoutDescs(was, i)
      {
        DropDesc(was, i, table[i]);
        if table[i] != null {
          Free(table[i]);
        }
      }
    }

    static lemma TableStays(was: map<object, Holder>, t: object, i: nat)
      requires t in was && was[t] == IsTable
      ensures t in WithoutDescs(was, i)
    {
    }

    static lemma DropNoDesc(was: map<object, Holder>)
      ensures WithoutDescs(was, 0) == was
    {
    }

    static lemma DropDesc(was: map<object, Holder>, i: nat, slot: FileDesc?)
      requires forall o :: o in was && was[o] == IsDesc(i) ==> o == slot
      requires slot != null ==> var d: FileDesc := slot; d in was && was[d] == IsDesc(i)
      ensures slot != null ==> slot in WithoutDescs(was, i)
      ensures WithoutDescs(was, i + 1) == if slot == null then WithoutDescs(was, i) else WithoutDescs(was, i) - {slot}
    {
      var l := WithoutDescs(was, i + 1);
      var r := if slot == null then WithoutDescs(was, i) else WithoutDescs(was, i) - {slot};
      assert forall o :: o in l <==> o in r;
    }

    /** `holder` without the files listed before position `i`. */
    static ghost function WithoutFiles(was: map<object, Holder>, order: seq<nat>, i: nat): map<object, Holder>
      requires i <= |order|
    {
      map o | o in was && (was[o].IsFile? || was[o].InFile?) && was[o].ino !in order[..i] :: was[o]
    }

    /** `f` is followed by the file after position `i`. */
    static ghost predicate Linked(f: File, fs: seq<File>, i: nat)
      reads f`next
    {
      f.next == if i + 1 < |fs| then fs[i + 1] else null
    }

    /** The listed files, and what each one holds. */
    lemma ListedFiles() returns (fs: seq<File>)
      requires FilesOk() && AllHeld() && Distinct(order) && forall n :: n in files ==> n in order
      ensures |fs| == |order| && fileList == (if fs == [] then null else fs[0])
      ensures this !in holder && Unfreed(holder, order, fs, 0) && Distinct(order)
      ensures forall o :: o in holder && (holder[o].IsFile? || holder[o].InFile?) ==> holder[o].ino in order
    {
      fs := FilesInOrder();
      forall o | o in holder ensures Held(o) {
      }
      forall i | 0 <= i < |fs|
        ensures fs[i].Valid() && Owns(holder, order[i], fs[i], fs[i].place) && Linked(fs[i], fs, i)
      {
        assert ListedAt(i) && NodeOk(order[i]);
      }
    }

    lemma FilesInOrder() returns (fs: seq<File>)
      requires FilesOk()
      ensures |fs| == |order| && forall i :: 0 <= i < |fs| ==> order[i] in node && fs[i] == node[order[i]] == Nth(i)
    {
      forall i | 0 <= i < |order| ensures order[i] in node {
        assert ListedAt(i);
      }
      var o, m := order, node;
      fs := seq(|o|, i requires 0 <= i < |o| && o[i] in m => m[o[i]]);
    }

    /** The objects tagged with `n` are the file and its blocks. */
    static ghost predicate Owns(was: map<object, Holder>, n: nat, file: File, place: map<object, Place>) {
      && file in was && was[file] == IsFile(n)
      && (forall o :: o in place ==> o in was && was[o] == InFile(n))
      && (forall o :: o in was && was[o] == IsFile(n) ==> o == file)
      && (forall o :: o in was && was[o] == InFile(n) ==> o in place)
    }

    static lemma DropNoFile(was: map<object, Holder>, order: seq<nat>)
      requires forall o :: o in was ==> was[o].IsFile? || was[o].InFile?
      ensures WithoutFiles(was, order, 0) == was
      ensures (forall o :: o in was ==> was[o].ino in order) ==> WithoutFiles(was, order, |order|) == map[]
    {
    }

    static lemma DropFile(was: map<object, Holder>, order: seq<nat>, i: nat, file: File, place: map<object, Place>)
      requires i < |order| && Distinct(order) && Owns(was, order[i], file, place)
      ensures file in WithoutFiles(was, order, i) && place.Keys <= WithoutFiles(was, order, i).Keys
      ensures WithoutFiles(was, order, i + 1) == WithoutFiles(was, order, i) - (place.Keys + {file})
    {
      assert order[..i + 1] == order[..i] + [order[i]];
      var l, r := WithoutFiles(was, order, i + 1), WithoutFiles(was, order, i) - (place.Keys + {file});
      assert forall o :: o in l <==> o in r;
    }

    /** The files from position `i` on are linked, intact and recorded. */
    static ghost predicate Unfreed(was: map<object, Holder>, order: seq<nat>, fs: seq<File>, i: nat)
      requires |order| == |fs|
      reads fs, set f, o | f in fs && o in f.place :: o
    {
      forall j :: i <= j < |fs| ==> fs[j].Valid() && Linked(fs[j], fs, j) && Owns(was, order[j], fs[j], fs[j].place)
    }

    lemma UnfreedFacts(was: map<object, Holder>, order: seq<nat>, fs: seq<File>, i: nat)
      requires |order| == |fs| && i < |fs| && Unfreed(was, order, fs, i)
      ensures var f := fs[i];
              && f.Valid() && f.next == (if i + 1 < |fs| then fs[i + 1] else null)
              && Owns(was, order[i], f, f.place)
    {
    }

    static twostate lemma UnfreedAfter(was: map<object, Holder>, new order: seq<nat>, new fs: seq<File>, new i: nat)
      requires |order| == |fs| && Distinct(order) && i < |fs| && old(allocated(fs)) && old(Unfreed(was, order, fs, i))
      requires forall o: object :: old(allocated(o)) && o in was && o != fs[i] ==> unchanged(o)
      ensures Unfreed(was, order, fs, i + 1)
    {
      hide File.Valid;
    }

    /** One turn of the loop of `ufs_destroy`. */
    method FreeListed(file: File, ghost was: map<object, Holder>, ghost fs: seq<File>, ghost i: nat)
      requires |order| == |fs| && i < |fs| && file == fs[i] && Distinct(order) && this !in was
      requires Unfreed(was, order, fs, i) && holder == WithoutFiles(was, order, i)
      modifies `holder, file
      ensures Unfreed(was, order, fs, i + 1) && holder == WithoutFiles(was, order, i + 1)
    {
      hide File.Valid, WithoutFiles, Owns, Distinct, Linked, Unfreed;
      UnfreedFacts(was, order, fs, i);
      ghost var place := file.place;
      DropFile(was, order, i, file, place);
      assert this as object != file && file !in file.place;
      ghost var freed := file.FreeBlocks();
      FreeFile(file, place, freed);
      UnfreedAfter(was, order, fs, i);
    }

    /** Free every file with its blocks, walking the list. */
    method FreeFiles()
      requires FilesOk() && AllHeld() && Distinct(order) && forall n :: n in files ==> n in order
      requires forall o :: o in holder ==> holder[o].IsFile? || holder[o].InFile?
      modifies `holder, holder.Keys
      ensures holder == map[]
    {
      hide FilesOk, AllHeld, File.Valid, WithoutFiles, Owns, Distinct, Linked, Unfreed, M.Listed;
      ghost var fs := ListedFiles();
      var file := fileList;
      ghost var i, was := 0, holder;
      DropNoFile(was, order);
      while file != null
        invariant i <= |fs| && file == if i < |fs| then fs[i] else null
        invariant Unfreed(was, order, fs, i) && holder == WithoutFiles(was, order, i)
        decreases |fs| - i
      {
        UnfreedFacts(was, order, fs, i);
        var next := file.next;
        FreeListed(file, was, fs, i);
        file := next;
        i := i + 1;
      }
    }

    lemma NothingHeld()
      requires fileList == null && table == null && capacity == 0 && used == 0
      requires files == map[] && node == map[] && order == [] && slots == [] && holder == map[]
      ensures Valid()
    {
      I.EmptyKeepsInv(error, nextInode);
    }

    lemma ListIsSound()
      requires Valid()
      ensures Distinct(order) && forall n :: n in files ==> n in order
    {
    }

    /** `ufs_destroy`: every object the file system ever allocated and still held is free. */
    method Destroy()
      requires Valid()
      modifies this, holder.Keys
      ensures Valid() && holder == map[]
      ensures View() == M.EMPTY_FS.(error := old(error), nextInode := old(nextInode))
    {
      hide M.Inv, M.Listed, FilesOk, TableOk, AllHeld, File.Valid, File.View;
      TableFacts();
      ListIsSound();
      if capacity > 0 {
        FreeTable();
      } else {
        NoTableTags();
      }
      capacity, used := 0, 0;
      FreeFiles();
      fileList := null;
      files, node, order, slots := map[], map[], [], [];
      NothingHeld();
    }

    /** The table and its descriptors are gone. */
    twostate lemma AfterTableGone()
      requires old(FilesOk()) && old(AllHeld()) && old(TableOk()) && old(table) != null && table == null
      requires holder == WithoutDescs(old(holder), |old(slots)|) - {old(table)}
      requires files == old(files) && node == old(node) && order == old(order)
      requires forall x :: x in node ==> unchanged(node[x]) && forall o :: o in node[x].place ==> unchanged(o)
      ensures AllHeld() && forall o :: o in holder ==> holder[o].IsFile? || holder[o].InFile?
      ensures forall o :: o in old(holder) && FileKey(old(holder)[o]) ==> o in holder && holder[o] == old(holder)[o]
    {
      forall o | o in holder ensures Held(o) && (holder[o].IsFile? || holder[o].InFile?) {
        assert old(Held(o));
        match holder[o]
        case IsTable =>
        case IsFile(x) => assert old(NodeOk(x));
        case IsDesc(j) =>
        case InFile(x) => assert old(NodeOk(x));
      }
    }

    /** The table's part of a destruction. */
    method FreeTable()
      requires Valid() && table != null
      modifies `table, `holder
      ensures FilesOk() && AllHeld() && table == null && this !in holder && holder.Keys <= old(holder.Keys)
      ensures forall o :: o in holder ==> holder[o].IsFile? || holder[o].InFile?
    {
      hide M.Inv, FilesOk, TableOk, AllHeld, WithoutDescs, FileKey, File.Valid, File.View;
      NoTable();
      OutsideFiles(nextInode);
      TableStays(holder, table, |slots|);
      FreeDescs();
      Free(table);
      table := null;
      AfterTableGone();
      FilesKept(nextInode);
    }

    lemma NoTableTags()
      requires AllHeld() && table == null
      ensures this !in holder && forall o :: o in holder ==> holder[o].IsFile? || holder[o].InFile?
    {
      forall o | o in holder ensures Held(o) {
      }
    }
  }
}
