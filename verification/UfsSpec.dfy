/**
 What UserFS promises, without blocks, lists or counters: names lead to inodes, an inode is a byte
 sequence, a descriptor is an inode with rights and an offset, and a file lives while it is named or open.
 */
module UfsSpec {
  import opened Common
  import opened UfsModel

  datatype OpenFile = OpenFile(inode: nat, canRead: bool, canWrite: bool, offset: nat)

  datatype Spec = Spec(names: map<string, nat>, data: map<nat, seq<byte>>, fds: map<int, OpenFile>, error: ErrorCode)

  datatype Response = Response(ret: int, data: seq<byte>)

  /** `src` placed over `c` from `at` on, growing `c` when it runs over the end. */
  function Splice(c: seq<byte>, at: nat, src: seq<byte>): seq<byte>
    requires at <= |c|
  {
    seq(Max(|c|, at + |src|), i requires 0 <= i < Max(|c|, at + |src|) => if at <= i < at + |src| then src[i - at]
                                                                          else c[i])
  }

  function Zeros(n: nat): seq<byte> {
    seq(n, _ => 0)
  }

  /** Without READ_ONLY and WRITE_ONLY a descriptor may do both. */
  predicate MayRead(flags: set<OpenFlag>) {
    READ_ONLY in flags || READ_WRITE in flags || WRITE_ONLY !in flags
  }

  predicate MayWrite(flags: set<OpenFlag>) {
    WRITE_ONLY in flags || READ_WRITE in flags || READ_ONLY !in flags
  }

  predicate LeastFree(fds: map<int, OpenFile>, fd: int) {
    fd > 0 && fd !in fds && forall k :: 0 < k < fd ==> k in fds
  }

  function NewSpec(a: Spec, ino: nat, name: string): Spec {
    a.(names := a.names[name := ino], data := a.data[ino := []])
  }

  function WithFd(a: Spec, fd: int, f: OpenFile): Spec {
    a.(fds := a.fds[fd := f])
  }

  /** Contents survive exactly while a name or a descriptor leads to them. */
  function Collect(a: Spec): Spec {
    a.(data := map ino | ino in a.data && (ino in a.names.Values || exists fd ::
         fd in a.fds && a.fds[fd].inode == ino) :: a.data[ino])
  }

  predicate Failed(a: Spec, a': Spec, r: Response, e: ErrorCode) {
    a' == a.(error := e) && r == Response(-1, [])
  }

  ghost predicate OpenStep(a: Spec, name: string, flags: set<OpenFlag>, a': Spec, r: Response) {
    if name !in a.names && CREATE !in flags then Failed(a, a', r, NO_FILE)
    else
      && r.data == []
      && LeastFree(a.fds, r.ret)
      && exists ino: nat | (if name in a.names then ino == a.names[name] else ino !in a.data) ::
           a' == WithFd(if name in a.names then a else NewSpec(a, ino, name), r.ret,
                        OpenFile(ino, MayRead(flags), MayWrite(flags), 0))
  }

  ghost predicate WriteStep(a: Spec, fd: int, buf: seq<byte>, a': Spec, r: Response) {
    if fd !in a.fds || a.fds[fd].inode !in a.data then Failed(a, a', r, NO_FILE)
    else
      var f := a.fds[fd];
      var c := a.data[f.inode];
      if !f.canWrite then Failed(a, a', r, NO_PERMISSION)
      else if buf == [] then a' == a && r == Response(0, [])
      else if |c| + |buf| > MAX_FILE_SIZE then Failed(a, a', r, NO_MEM)
      else
        && f.offset <= |c|
        && r == Response(|buf|, [])
        && a' == a.(data := a.data[f.inode := Splice(c, f.offset, buf)],
                    fds := a.fds[fd := f.(offset := f.offset + |buf|)])
  }

  ghost predicate ReadStep(a: Spec, fd: int, n: nat, a': Spec, r: Response) {
    if fd !in a.fds || a.fds[fd].inode !in a.data then Failed(a, a', r, NO_FILE)
    else
      var f := a.fds[fd];
      var c := a.data[f.inode];
      if !f.canRead then Failed(a, a', r, NO_PERMISSION)
      else
        && f.offset <= |c|
        && r.data == c[f.offset..Min(f.offset + n, |c|)]
        && r.ret == |r.data|
        && a' == WithFd(a, fd, f.(offset := f.offset + |r.data|))
  }

  ghost predicate CloseStep(a: Spec, fd: int, a': Spec, r: Response) {
    if fd !in a.fds then Failed(a, a', r, NO_FILE)
    else r == Response(0, []) && a' == Collect(a.(fds := a.fds - {fd}))
  }

  ghost predicate DeleteStep(a: Spec, name: string, a': Spec, r: Response) {
    if name !in a.names then Failed(a, a', r, NO_FILE)
    else r == Response(0, []) && a' == Collect(a.(names := a.names - {name}))
  }

  function ClampFds(fds: map<int, OpenFile>, ino: nat, size: nat): map<int, OpenFile> {
    map fd | fd in fds :: if fds[fd].inode == ino && fds[fd].offset > size then fds[fd].(offset := size) else fds[fd]
  }

  /** The bytes a growth may expose without zeroing them: the rest of the old last block. */
  function Exposed(size: nat, newSize: nat): nat
    requires size <= newSize
  {
    Min(newSize, BLOCK_SIZE * BlockCount(size)) - size
  }

  ghost predicate ResizeStep(a: Spec, fd: int, newSize: nat, a': Spec, r: Response) {
    if fd !in a.fds || a.fds[fd].inode !in a.data then Failed(a, a', r, NO_FILE)
    else
      var ino := a.fds[fd].inode;
      var c := a.data[ino];
      if newSize <= |c| then
        r == Response(0, []) && a' == a.(data := a.data[ino := c[..newSize]], fds := ClampFds(a.fds, ino, newSize))
      else if newSize > MAX_FILE_SIZE then Failed(a, a', r, NO_MEM)
      else
        && r == Response(0, [])
        && exists exposed: seq<byte> | |exposed| == Exposed(|c|, newSize) ::
             a' == a.(data := a.data[ino := c + exposed + Zeros(newSize - |c| - |exposed|)])
  }

  /** One call: from `a`, the call may answer `r` and leave `a'`. */
  ghost predicate Step(a: Spec, call: Call, a': Spec, r: Response) {
    match call
    case CallOpen(name, flags) => OpenStep(a, name, flags, a', r)
    case CallWrite(fd, buf, _) => WriteStep(a, fd, buf, a', r)
    case CallRead(fd, count) => ReadStep(a, fd, count, a', r)
    case CallClose(fd) => CloseStep(a, fd, a', r)
    case CallDelete(name) => DeleteStep(a, name, a', r)
    case CallResize(fd, newSize) => ResizeStep(a, fd, newSize, a', r)
  }

  /** A run of the specification with these answers ends in `a'`. */
  ghost predicate Runs(a: Spec, calls: seq<Call>, answers: seq<Response>, a': Spec)
    decreases |calls|
  {
    if calls == [] then answers == [] && a' == a
    else answers != [] && exists mid :: Step(a, calls[0], mid, answers[0]) && Runs(mid, calls[1..], answers[1..], a')
  }
}
