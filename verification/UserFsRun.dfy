/**
 Whole runs of the file system on the heap, up to its destruction.
 */
module UserFsRun {
  import opened UfsModel
  import opened UfsInvariant
  import opened UfsSpec
  import opened UfsRefinement
  import opened UserFs

  /** One call with the caller's buffers. */
  method Make(fs: FileSystem, c: Call) returns (r: Response)
    requires fs.Valid() && fs !in fs.holder
    modifies fs, fs.holder.Keys
    ensures fs.Valid() && fresh(fs.holder.Keys - old(fs.holder.Keys))
    ensures Inv(old(fs.View())) && Apply(old(fs.View()), c) == Outcome(fs.View(), r.ret, r.data)
  {
    hide FileSystem.FilesOk, FileSystem.TableOk, FileSystem.AllHeld, Inv;
    match c {
      case CallOpen(name, flags) =>
        var ret := fs.Open(name, flags);
        r := Response(ret, []);
      case CallWrite(fd, bytes, garbage) =>
        var buf := new byte[|bytes|](i requires 0 <= i < |bytes| => bytes[i]);
        assert buf[..|bytes|] == bytes;
        var ret := fs.Write(fd, buf, |bytes|, garbage);
        r := Response(ret, []);
      case CallRead(fd, count) =>
        var buf := new byte[count](_ => 0);
        var ret := fs.Read(fd, buf, count);
        r := Response(ret, if ret < 0 then [] else buf[..ret]);
      case CallClose(fd) =>
        var ret := fs.Close(fd);
        r := Response(ret, []);
      case CallDelete(name) =>
        var ret := fs.Delete(name);
        r := Response(ret, []);
      case CallResize(fd, newSize) =>
        var ret := fs.Resize(fd, newSize);
        r := Response(ret, []);
    }
  }

  /** The first call of what is left to run. */
  lemma NextCall(s: Fs, calls: seq<Call>, k: nat)
    requires Inv(s) && k < |calls|
    ensures var o := Apply(s, calls[k]);
            && Inv(o.fs)
            && Run(s, calls[k..]) == Run(o.fs, calls[k + 1..])
            && Answers(s, calls[k..]) == [Response(o.ret, o.data)] + Answers(o.fs, calls[k + 1..])
  {
    InvKept(s, calls[k]);
    hide Inv, Apply;
    assert calls[k..][1..] == calls[k + 1..];
  }

  /** Nothing left to run. */
  lemma NoCall(s: Fs)
    requires Inv(s)
    ensures Run(s, []) == s && Answers(s, []) == []
  {
  }

  lemma ValidIsInv(fs: FileSystem)
    requires fs.Valid()
    ensures Inv(fs.View()) && fs !in fs.holder
  {
  }

  /** A run of calls, then `ufs_destroy`: the answers are the model's, and nothing stays allocated. */
  method RunAndDestroy(calls: seq<Call>) returns (answers: seq<Response>, ghost last: Fs, fs: FileSystem)
    ensures Inv(EMPTY_FS) && last == Run(EMPTY_FS, calls) && answers == Answers(EMPTY_FS, calls)
    ensures RunInDomain(EMPTY_FS, calls) ==>
              Inv(last) && ShapedFs(last) && Runs(Spec(map[], map[], map[], NO_ERR), calls, answers, Abs(last))
    ensures fresh(fs) && fs.Valid() && fs.holder == map[]
  {
    hide Inv, FileSystem.Valid, Run, Answers, Apply, RunInDomain, ShapedFs, Runs, Abs;
    StartKeepsInv();
    fs := new FileSystem();
    answers := [];
    var k := 0;
    assert calls[0..] == calls;
    while k < |calls|
      invariant 0 <= k <= |calls| && fresh(fs) && fresh(fs.holder.Keys) && fs.Valid() && Inv(fs.View())
      invariant Run(EMPTY_FS, calls) == Run(fs.View(), calls[k..])
      invariant Answers(EMPTY_FS, calls) == answers + Answers(fs.View(), calls[k..])
    {
      ValidIsInv(fs);
      NextCall(fs.View(), calls, k);
      var r := Make(fs, calls[k]);
      answers := answers + [r];
      k := k + 1;
    }
    assert calls[k..] == [];
    NoCall(fs.View());
    last := fs.View();
    if RunInDomain(EMPTY_FS, calls) {
      UserFsRefinesSpec(calls);
    }
    fs.Destroy();
  }
}
