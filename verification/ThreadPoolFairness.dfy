/**
 Endless runs of the thread pool under fair scheduling: mutexes are released again and again, and a thread that neither
 sleeps nor is gone makes its next step.
 */
module ThreadPoolFairness {
  import opened Common
  import opened ThreadPool
  import opened ThreadPoolInvariant
  import opened ThreadPoolProgress

  /** An endless run; where `acts` is None nothing happens. */
  datatype Run = Run(path: nat -> State, acts: nat -> Option<Action>)

  predicate Moves(s: State, a: Option<Action>, s': State) {
    match a
    case None => s' == s
    case Some(x) => Enabled(s, x) && s' == Do(s, x)
  }

  predicate StepAt(r: Run, i: nat) {
    Moves(r.path(i), r.acts(i), r.path(i + 1))
  }

  ghost predicate Reachable(r: Run) {
    Inv(r.path(0)) && forall i: nat :: StepAt(r, i)
  }

  predicate WorksAt(r: Run, w: nat, i: nat) {
    r.acts(i).Some? && r.acts(i).value.Work? && r.acts(i).value.w == w
  }

  predicate GoesAt(r: Run, i: nat) {
    r.acts(i).Some? && r.acts(i).value.Go?
  }

  ghost predicate CanGo(s: State) {
    exists wake :: MayGo(s, wake)
  }

  ghost predicate MayWorkLater(r: Run, w: nat, n: nat) {
    exists m: nat :: m >= n && MayWork(r.path(m), w)
  }

  ghost predicate WorksLater(r: Run, w: nat, n: nat) {
    exists m: nat :: m >= n && WorksAt(r, w, m)
  }

  ghost predicate CanGoLater(r: Run, n: nat) {
    exists m: nat :: m >= n && CanGo(r.path(m))
  }

  ghost predicate GoesLater(r: Run, n: nat) {
    exists m: nat :: m >= n && GoesAt(r, m)
  }

  /** Strong fairness: who is able to go on again and again goes on again and again. */
  ghost predicate FairWorker(r: Run, w: nat) {
    (forall n: nat :: MayWorkLater(r, w, n)) ==> forall n: nat :: WorksLater(r, w, n)
  }

  ghost predicate FairClient(r: Run) {
    (forall n: nat :: CanGoLater(r, n)) ==> forall n: nat :: GoesLater(r, n)
  }

  ghost predicate Fair(r: Run) {
    Reachable(r) && FairClient(r) && forall w: nat :: FairWorker(r, w)
  }

  // ---------- fairness excludes no run ----------

  /** A run and another from where it ends. */
  lemma RunsJoin(path: seq<State>, acts: seq<Action>, path': seq<State>, acts': seq<Action>)
    requires IsRun(path, acts) && IsRun(path', acts') && path'[0] == path[|acts|]
    ensures IsRun(path[..|acts|] + path', acts + acts')
  {
    hide Do, Enabled;
    var p, a, n := path[..|acts|] + path', acts + acts', |acts|;
    forall i | 0 <= i < |a| ensures Enabled(p[i], a[i]) && p[i + 1] == Do(p[i], a[i]) {
      if i < n {
        assert p[i] == path[i] && a[i] == acts[i];
        assert p[i + 1] == path[i + 1];
      } else {
        assert p[i] == path'[i - n] && a[i] == acts'[i - n] && p[i + 1] == path'[i - n + 1];
      }
    }
  }

  /** The run that stays where a finite one ends. */
  function Stay(path: seq<State>, acts: seq<Action>): Run
    requires IsRun(path, acts)
  {
    var n := |acts|;
    Run((i: nat) => if i < n then path[i] else path[n], (i: nat) => if i < n then Some(acts[i]) else None)
  }

  lemma StuckIsFair(path: seq<State>, acts: seq<Action>)
    requires IsRun(path, acts) && Inv(path[0]) && Stuck(path[|acts|])
    ensures Fair(Stay(path, acts))
  {
    hide Inv, Do, Enabled, MayGo, MayWork, Stuck;
    var r, n := Stay(path, acts), |acts|;
    var s := path[n];
    forall i: nat ensures StepAt(r, i) {
      assert i < n ==> Enabled(path[i], acts[i]) && path[i + 1] == Do(path[i], acts[i]);
    }
    InvOfRun(path, acts, n);
    StuckMeansDone(s);
    ReadyStays(s);
    StuckRests(s);
    assert !CanGoLater(r, n);
    forall w: nat ensures FairWorker(r, w) {
      assert !MayWorkLater(r, w, n);
    }
  }

  lemma ReadyStays(s: State)
    requires s.client.Ready?
    ensures !CanGo(s)
  {
  }

  lemma StuckRests(s: State)
    requires Stuck(s)
    ensures forall w: nat :: !MayWork(s, w)
  {
  }

  /** Every finite run is the beginning of a fair one. */
  lemma FairExtension(path: seq<State>, acts: seq<Action>) returns (r: Run)
    requires IsRun(path, acts) && Inv(path[0])
    ensures Fair(r)
    ensures forall i :: 0 <= i <= |acts| ==> r.path(i) == path[i]
    ensures forall i :: 0 <= i < |acts| ==> r.acts(i) == Some(acts[i])
  {
    hide Inv, Do, Enabled, Stuck;
    InvOfRun(path, acts, |acts|);
    var path', acts' := Drains(path[|acts|]);
    RunsJoin(path, acts, path', acts');
    var p, a := path[..|acts|] + path', acts + acts';
    assert p[|a|] == path'[|acts'|];
    assert p[0] == path[0];
    StuckIsFair(p, a);
    r := Stay(p, a);
  }

  lemma {:induction false} InvAt(r: Run, n: nat)
    requires Reachable(r)
    ensures Inv(r.path(n))
  {
    hide Inv, Do, Enabled;
    if n > 0 {
      InvAt(r, n - 1);
      assert StepAt(r, n - 1);
      if r.acts(n - 1).Some? {
        InvKept(r.path(n - 1), r.acts(n - 1).value);
      }
    }
  }

  // ---------- the next step of a thread ----------

  ghost predicate NoWork(r: Run, w: nat, n: nat, m: nat) {
    forall i: nat :: n <= i < m ==> !WorksAt(r, w, i)
  }

  ghost predicate NoGo(r: Run, n: nat, m: nat) {
    forall i: nat :: n <= i < m ==> !GoesAt(r, i)
  }

  lemma {:induction false} FirstWork(r: Run, w: nat, n: nat, m: nat) returns (f: nat)
    requires n <= m && WorksAt(r, w, m)
    ensures n <= f <= m && WorksAt(r, w, f) && NoWork(r, w, n, f)
    decreases m - n
  {
    if WorksAt(r, w, n) {
      f := n;
    } else {
      f := FirstWork(r, w, n + 1, m);
    }
  }

  lemma {:induction false} FirstGo(r: Run, n: nat, m: nat) returns (f: nat)
    requires n <= m && GoesAt(r, m)
    ensures n <= f <= m && GoesAt(r, f) && NoGo(r, n, f)
    decreases m - n
  {
    if GoesAt(r, n) {
      f := n;
    } else {
      f := FirstGo(r, n + 1, m);
    }
  }

  /** A worker that may work again and again until it does, does. */
  lemma NextWork(r: Run, w: nat, n: nat) returns (m: nat)
    requires Fair(r)
    requires forall k: nat :: k >= n && NoWork(r, w, n, k) ==> MayWorkLater(r, w, k)
    ensures m >= n && WorksAt(r, w, m) && NoWork(r, w, n, m)
  {
    forall k: nat ensures MayWorkLater(r, w, k) || WorksLater(r, w, n) {
      var k' := Max(k, n);
      if NoWork(r, w, n, k') {
        assert MayWorkLater(r, w, k');
      }
    }
    assert FairWorker(r, w);
    assert WorksLater(r, w, n);
    var f: nat :| f >= n && WorksAt(r, w, f);
    m := FirstWork(r, w, n, f);
  }

  lemma NextGo(r: Run, n: nat) returns (m: nat)
    requires Fair(r)
    requires forall k: nat :: k >= n && NoGo(r, n, k) ==> CanGoLater(r, k)
    ensures m >= n && GoesAt(r, m) && NoGo(r, n, m)
  {
    forall k: nat ensures CanGoLater(r, k) || GoesLater(r, n) {
      var k' := Max(k, n);
      if NoGo(r, n, k') {
        assert CanGoLater(r, k');
      }
    }
    assert FairClient(r);
    assert GoesLater(r, n);
    var f: nat :| f >= n && GoesAt(r, f);
    m := FirstGo(r, n, f);
  }

  /** A thread that acts could act. */
  lemma WorkWasEnabled(r: Run, w: nat, i: nat, n: nat)
    requires Reachable(r) && WorksAt(r, w, i) && i >= n
    ensures MayWork(r.path(i), w) && r.path(i + 1) == DoWork(r.path(i), w, r.acts(i).value.v)
    ensures MayWorkLater(r, w, n)
  {
    hide MayWork, DoWork;
    assert StepAt(r, i);
  }

  lemma GoWasEnabled(r: Run, i: nat, n: nat)
    requires Reachable(r) && GoesAt(r, i) && i >= n
    ensures MayGo(r.path(i), r.acts(i).value.wake) && r.path(i + 1) == DoGo(r.path(i), r.acts(i).value.wake)
    ensures CanGoLater(r, n)
  {
    hide MayGo, DoGo;
    assert StepAt(r, i);
    assert CanGo(r.path(i));
  }

  // ---------- what others leave alone ----------

  /** What the client's step does to the workers: nothing, a wakeup, or a new one. */
  lemma WorkersOfGo(s: State, wake: set<nat>)
    requires MayGo(s, wake)
    ensures var ws := DoGo(s, wake).workers;
            || ws == s.workers
            || (ws == Wake(s.workers, wake) && !s.client.PushLock?)
            || (s.client.PushLock? && exists th: Thread :: th.pc.Spawned? && ws == s.workers + [th])
  {
    hide Wake, Signal, Broadcast;
  }

  lemma WorkersOfWork(s: State, w: nat, v: int)
    requires MayWork(s, w)
    ensures |DoWork(s, w, v).workers| == |s.workers|
    ensures DoWork(s, w, v).workers == s.workers[w := DoWork(s, w, v).workers[w]]
  {
  }

  /** A worker that does not sleep stays where it is until it acts. */
  lemma ThreadKept(s: State, a: Action, w: nat)
    requires Enabled(s, a) && !(a.Work? && a.w == w) && w < |s.workers| && !s.workers[w].pc.Waiting?
    ensures |s.workers| <= |Do(s, a).workers| && Do(s, a).workers[w] == s.workers[w]
  {
    hide MayCall, MayGo, DoGo, MayWork, DoWork;
    match a
    case Go(wake) => WorkersOfGo(s, wake);
    case Work(x, v) => WorkersOfWork(s, x, v);
    case _ =>
  }

  lemma {:induction false} ThreadStays(r: Run, w: nat, n: nat, m: nat)
    requires Reachable(r) && n <= m && NoWork(r, w, n, m)
    requires w < |r.path(n).workers| && !r.path(n).workers[w].pc.Waiting?
    ensures w < |r.path(m).workers| && r.path(m).workers[w] == r.path(n).workers[w]
    decreases m - n
  {
    hide Inv, Do, Enabled;
    if n < m {
      ThreadStays(r, w, n, m - 1);
      assert StepAt(r, m - 1) && !WorksAt(r, w, m - 1);
      if r.acts(m - 1).Some? {
        ThreadKept(r.path(m - 1), r.acts(m - 1).value, w);
      }
    }
  }

  /** A client in a call and not asleep. */
  predicate Steady(c: ClientPc) {
    !c.Ready? && !c.PushWait? && !c.JoinWait?
  }

  lemma SteadyKept(s: State, a: Action)
    requires Enabled(s, a) && !a.Go? && Steady(s.client)
    ensures Do(s, a).client == s.client
  {
    hide MayGo;
  }

  lemma {:induction false} ClientStays(r: Run, n: nat, m: nat)
    requires Reachable(r) && n <= m && NoGo(r, n, m) && Steady(r.path(n).client)
    ensures r.path(m).client == r.path(n).client
    decreases m - n
  {
    hide Inv, Do, Enabled;
    if n < m {
      ClientStays(r, n, m - 1);
      assert StepAt(r, m - 1) && !GoesAt(r, m - 1);
      if r.acts(m - 1).Some? {
        SteadyKept(r.path(m - 1), r.acts(m - 1).value);
      }
    }
  }

  // ---------- mutexes are released ----------

  /** The steps the holder of the pool's mutex makes before it gives it up. */
  function Holding(s: State): nat {
    match s.owner
    case Free => 0
    case Client => if s.client.PushCheck? then 2 else 1
    case Worker(w) =>
      if w >= |s.workers| then 0
      else match s.workers[w].pc
        case Leaving => 1
        case Taken(_) => 1
        case Check => 2
        case Published(_) => 3
        case Locked(_, _) => 4
        case _ => 0
  }

  lemma HolderWorks(s: State, w: nat, v: int)
    requires Inv(s) && MayWork(s, w) && HoldsPool(s.workers[w].pc)
    ensures Holding(DoWork(s, w, v)) < Holding(s)
  {
    hide Inv;
    OwnerOf(s, w);
  }

  lemma OwnerOf(s: State, w: nat)
    requires Inv(s) && w < |s.workers|
    ensures HoldsPool(s.workers[w].pc) <==> s.owner == Worker(w)
  {
    hide Sum, Threads, Stage, Wakeups, Queue, Counts, Tasks, ClientOk;
  }

  lemma HolderIsThere(s: State)
    requires Inv(s)
    ensures s.owner.Worker? ==> s.owner.w < |s.workers| && HoldsPool(s.workers[s.owner.w].pc)
    ensures s.owner.Client? ==> ClientHoldsPool(s.client)
  {
    hide Sum, Threads, Stage, Wakeups, Queue, Counts, Tasks, ClientOk;
  }

  lemma HolderGoes(s: State, wake: set<nat>)
    requires MayGo(s, wake) && s.owner.Client? && ClientHoldsPool(s.client)
    ensures Holding(DoGo(s, wake)) < Holding(s)
  {
  }

  /** A client that holds a mutex can go on. */
  lemma HolderCanGo(s: State)
    requires Inv(s)
    requires ClientHoldsPool(s.client) || ClientTask(s.client).Some? || s.client.DetachDelete? || s.client.DelDestroy?
             || (s.owner.Free?
                 && (s.client.PushLock? || s.client.PushWoken? || s.client.DelLock? || s.client.DelRelock?))
    ensures CanGo(s)
  {
    hide Inv, MayGo;
    ClientGoes(s);
  }

  /** The client at a mutex it holds goes on, from where it stands. */
  lemma HolderNextGo(r: Run, n: nat) returns (m: nat)
    requires Fair(r)
    requires var c := r.path(n).client; ClientHoldsPool(c) || ClientTask(c).Some? || c.DetachDelete? || c.DelDestroy?
    ensures m >= n && GoesAt(r, m) && NoGo(r, n, m) && r.path(m).client == r.path(n).client && Inv(r.path(m))
    ensures MayGo(r.path(m), r.acts(m).value.wake) && r.path(m + 1) == DoGo(r.path(m), r.acts(m).value.wake)
  {
    hide Inv, MayGo, DoGo;
    forall k: nat | k >= n && NoGo(r, n, k) ensures CanGoLater(r, k) {
      ClientStays(r, n, k);
      InvAt(r, k);
      HolderCanGo(r.path(k));
    }
    m := NextGo(r, n);
    ClientStays(r, n, m);
    InvAt(r, m);
    GoWasEnabled(r, m, m);
  }

  /** Steps the client holds a task's mutex for. */
  function HoldingTask(c: ClientPc): nat {
    if c.JoinCheck? then 2 else if c.JoinUnlock? || c.DetachUnlock? then 1 else 0
  }

  lemma TaskHolderGoes(s: State, wake: set<nat>)
    requires MayGo(s, wake) && ClientTask(s.client).Some? && s.client.t in s.tasks
    ensures var s', t := DoGo(s, wake), s.client.t;
            && t in s'.tasks
            && (|| s'.tasks[t].owner.Free?
                || (ClientTask(s'.client) == Some(t) && HoldingTask(s'.client) < HoldingTask(s.client)))
  {
  }

  lemma ClientTaskIn(s: State)
    requires Inv(s) && ClientTask(s.client).Some?
    ensures s.client.t in s.tasks
  {
    hide Sum, Locks, Threads, Stage, Wakeups, Queue, Counts, Tasks;
  }

  /** The client releases the task's mutex it holds. */
  lemma {:induction false} ClientFreesTask(r: Run, t: nat, n: nat) returns (m: nat)
    requires Fair(r) && ClientTask(r.path(n).client) == Some(t)
    ensures m >= n && t in r.path(m).tasks && r.path(m).tasks[t].owner.Free?
    decreases HoldingTask(r.path(n).client)
  {
    hide Inv, MayGo, DoGo;
    var k := HolderNextGo(r, n);
    ClientTaskIn(r.path(k));
    TaskHolderGoes(r.path(k), r.acts(k).value.wake);
    if r.path(k + 1).tasks[t].owner.Free? {
      m := k + 1;
    } else {
      m := ClientFreesTask(r, t, k + 1);
    }
  }

  /** What a worker inside the pool's mutex may wait for: the client, at its task. */
  lemma HolderWaitsForClient(s: State, w: nat)
    requires Inv(s) && w < |s.workers| && HoldsPool(s.workers[w].pc) && !MayWork(s, w)
    ensures s.workers[w].pc.Locked? && ClientTask(s.client) == Some(s.workers[w].pc.t)
  {
    hide Sum, Threads, Stage, Wakeups, Counts, ClientOk;
    assert WorkerOk(w, s.workers[w].pc, s.tasks);
    if HasTask(s.workers[w].pc) {
      var t := s.workers[w].pc.t;
      assert TaskOk(t, s.tasks[t], s.pending, s.workers, ClientTask(s.client));
    }
    if s.workers[w].pc.Check? {
      TurnFacts(s, w);
    }
  }

  /** A worker inside the pool's mutex is able to work before long. */
  lemma HolderMayWork(r: Run, w: nat, n: nat)
    requires Fair(r) && w < |r.path(n).workers| && HoldsPool(r.path(n).workers[w].pc)
    ensures MayWorkLater(r, w, n)
  {
    hide Inv, MayWork;
    InvAt(r, n);
    if !MayWork(r.path(n), w) {
      HolderWaitsForClient(r.path(n), w);
      var t := r.path(n).workers[w].pc.t;
      var m := ClientFreesTask(r, t, n);
      if NoWork(r, w, n, m) {
        ThreadStays(r, w, n, m);
        LockedMayWork(r.path(m), w);
      } else {
        var i: nat :| n <= i < m && WorksAt(r, w, i);
        WorkWasEnabled(r, w, i, n);
      }
    }
  }

  lemma LockedMayWork(s: State, w: nat)
    requires w < |s.workers| && s.workers[w].pc.Locked? && s.workers[w].pc.t in s.tasks
    requires s.tasks[s.workers[w].pc.t].owner.Free?
    ensures MayWork(s, w)
  {
  }

  /** The pool's mutex is free again and again. */
  lemma {:induction false} OwnerFrees(r: Run, n: nat) returns (m: nat)
    requires Fair(r)
    ensures m >= n && r.path(m).owner.Free?
    decreases Holding(r.path(n))
  {
    hide Inv, MayGo, DoGo, MayWork, DoWork, Holding;
    var s := r.path(n);
    InvAt(r, n);
    HolderIsThere(s);
    match s.owner
    case Free => m := n;
    case Client =>
      var k := HolderNextGo(r, n);
      ClientOwns(r.path(k));
      HolderGoes(r.path(k), r.acts(k).value.wake);
      HoldingIs(s, r.path(k));
      m := OwnerFrees(r, k + 1);
    case Worker(w) =>
      forall k: nat | k >= n && NoWork(r, w, n, k) ensures MayWorkLater(r, w, k) {
        ThreadStays(r, w, n, k);
        HolderMayWork(r, w, k);
      }
      var k := NextWork(r, w, n);
      ThreadStays(r, w, n, k);
      InvAt(r, k);
      WorkWasEnabled(r, w, k, k);
      OwnerOf(r.path(k), w);
      HolderWorks(r.path(k), w, r.acts(k).value.v);
      HoldingIs(s, r.path(k));
      m := OwnerFrees(r, k + 1);
  }

  lemma ClientOwns(s: State)
    requires Inv(s) && ClientHoldsPool(s.client)
    ensures s.owner.Client?
  {
    hide Sum, Threads, Stage, Wakeups, Queue, Counts, Tasks, ClientOk;
  }

  /** It depends on the owner and on where that one stands. */
  lemma HoldingIs(s: State, s': State)
    requires s.owner == s'.owner
    requires s.owner.Client? ==> s.client == s'.client
    requires s.owner.Worker? ==>
               s.owner.w < |s.workers| && s.owner.w < |s'.workers| && s.workers[s.owner.w] == s'.workers[s.owner.w]
    ensures Holding(s) == Holding(s')
  {
  }

  // ---------- everybody goes on ----------

  predicate WantsPool(c: ClientPc) {
    c.PushLock? || c.PushWoken? || c.DelLock? || c.DelRelock?
  }

  /** The client gets the pool's mutex. */
  lemma PoolNextGo(r: Run, n: nat) returns (m: nat)
    requires Fair(r) && WantsPool(r.path(n).client)
    ensures m >= n && GoesAt(r, m) && NoGo(r, n, m) && r.path(m).client == r.path(n).client && Inv(r.path(m))
    ensures MayGo(r.path(m), r.acts(m).value.wake) && r.path(m + 1) == DoGo(r.path(m), r.acts(m).value.wake)
  {
    hide Inv, MayGo, DoGo;
    forall k: nat | k >= n && NoGo(r, n, k) ensures CanGoLater(r, k) {
      var f := OwnerFrees(r, k);
      if NoGo(r, k, f) {
        ClientStays(r, n, f);
        InvAt(r, f);
        HolderCanGo(r.path(f));
      } else {
        var i: nat :| k <= i < f && GoesAt(r, i);
        GoWasEnabled(r, i, k);
      }
    }
    m := NextGo(r, n);
    ClientStays(r, n, m);
    InvAt(r, m);
    GoWasEnabled(r, m, m);
  }

  /** A worker outside the mutex waits for it at most. */
  lemma WaitsForPool(s: State, w: nat)
    requires Inv(s) && w < |s.workers| && !s.workers[w].pc.Waiting? && !s.workers[w].pc.Gone?
    requires !HoldsPool(s.workers[w].pc)
    ensures s.owner.Free? ==> MayWork(s, w)
  {
    hide Sum, Threads, Stage, Wakeups, Queue, Counts, ClientOk, Locks;
    assert WorkerOk(w, s.workers[w].pc, s.tasks);
  }

  /** A worker that neither sleeps nor is gone makes its next step. */
  lemma WorkerActs(r: Run, w: nat, n: nat) returns (m: nat)
    requires Fair(r) && w < |r.path(n).workers| && !r.path(n).workers[w].pc.Waiting? && !r.path(n).workers[w].pc.Gone?
    ensures m >= n && WorksAt(r, w, m) && NoWork(r, w, n, m)
    ensures w < |r.path(m).workers| && r.path(m).workers[w] == r.path(n).workers[w] && Inv(r.path(m))
    ensures MayWork(r.path(m), w) && r.path(m + 1) == DoWork(r.path(m), w, r.acts(m).value.v)
  {
    hide Inv, MayWork, DoWork;
    forall k: nat | k >= n && NoWork(r, w, n, k) ensures MayWorkLater(r, w, k) {
      ThreadStays(r, w, n, k);
      WorkerMayWork(r, w, k);
    }
    m := NextWork(r, w, n);
    ThreadStays(r, w, n, m);
    InvAt(r, m);
    WorkWasEnabled(r, w, m, m);
  }

  lemma WorkerMayWork(r: Run, w: nat, n: nat)
    requires Fair(r) && w < |r.path(n).workers| && !r.path(n).workers[w].pc.Waiting? && !r.path(n).workers[w].pc.Gone?
    ensures MayWorkLater(r, w, n)
  {
    hide Inv, MayWork;
    if HoldsPool(r.path(n).workers[w].pc) {
      HolderMayWork(r, w, n);
    } else {
      var m := OwnerFrees(r, n);
      if NoWork(r, w, n, m) {
        ThreadStays(r, w, n, m);
        InvAt(r, m);
        WaitsForPool(r.path(m), w);
      } else {
        var i: nat :| n <= i < m && WorksAt(r, w, i);
        WorkWasEnabled(r, w, i, n);
      }
    }
  }
}
