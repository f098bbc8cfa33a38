/**
 What fair scheduling of the thread pool promises: once pushes stop every task is executed and every detached one freed,
 every call returns, and a delete that has begun to stop the workers frees the pool.
 */
module ThreadPoolLiveness {
  import opened Common
  import opened ThreadPool
  import opened ThreadPoolInvariant
  import opened ThreadPoolSafety
  import opened ThreadPoolFairness

  // ---------- the work that is left ----------

  predicate Pushes(c: ClientPc) {
    c.PushLock? || c.PushFull? || c.PushCheck? || c.PushWait? || c.PushWoken?
  }

  predicate Carries(pc: WorkerPc) {
    HasTask(pc) || pc.Published?
  }

  /** The steps of workers with a task, the tasks pending, and the one a push may still queue. */
  function Load(s: State): nat {
    11 * |s.pending| + Sum(s.workers, Kind.Carries) + if Pushes(s.client) then 12 else 0
  }

  ghost predicate Quiet(s: State) {
    s.pending == [] && forall w :: 0 <= w < |s.workers| ==> !Carries(s.workers[w].pc)
  }

  lemma {:induction false} SumSame(ws: seq<Thread>, ws': seq<Thread>, k: Kind)
    requires |ws| == |ws'| && forall w :: 0 <= w < |ws| ==> Value(ws[w].pc, k) == Value(ws'[w].pc, k)
    ensures Sum(ws, k) == Sum(ws', k)
  {
    if ws != [] {
      SumSame(ws[1..], ws'[1..], k);
    }
  }

  /** A worker's step: with a task, or taking one, it lowers the load, and otherwise leaves it. */
  lemma WorkLoad(s: State, w: nat, v: int)
    requires Inv(s) && MayWork(s, w)
    ensures var s' := DoWork(s, w, v);
            if Carries(s.workers[w].pc) || (s.workers[w].pc.Check? && s.pending != []) then Load(s') < Load(s)
            else Load(s') == Load(s) && s'.pending == s.pending
  {
    hide Inv, Sum;
    var s' := DoWork(s, w, v);
    if s.workers[w].pc.Check? {
      TurnFacts(s, w);
    }
    WorkersOfWork(s, w, v);
    SumSet(s.workers, w, s'.workers[w], Kind.Carries);
  }

  lemma GoLoad(s: State, wake: set<nat>)
    requires MayGo(s, wake)
    ensures var s' := DoGo(s, wake);
            && Load(s') <= Load(s)
            && (Load(s') == Load(s) ==> s'.pending == s.pending && Pushes(s'.client) == Pushes(s.client))
  {
    var s' := DoGo(s, wake);
    WorkersOfGo(s, wake);
    PendingOfGo(s, wake);
    hide MayGo, DoGo;
    if s'.workers == Wake(s.workers, wake) {
      SumSame(s.workers, s'.workers, Kind.Carries);
    } else if s'.workers != s.workers {
      var th: Thread :| th.pc.Spawned? && s'.workers == s.workers + [th];
      SumAdd(s.workers, th, Kind.Carries);
    }
  }

  predicate PushesOrNot(s: State, s': State) {
    || (s'.pending == s.pending && (Pushes(s'.client) ==> Pushes(s.client)))
    || (|s'.pending| == |s.pending| + 1 && Pushes(s.client) && !Pushes(s'.client))
  }

  lemma PendingOfGo(s: State, wake: set<nat>)
    requires MayGo(s, wake)
    ensures PushesOrNot(s, DoGo(s, wake))
  {
    hide Wake, Signal, Broadcast;
    if Outside(s.client) {
      PendingOfTaskGo(s, wake);
    } else if s.client.DelLock? || s.client.DelRelock? {
      PendingOfDelGo(s, wake);
    }
  }

  lemma PendingOfTaskGo(s: State, wake: set<nat>)
    requires MayGo(s, wake) && Outside(s.client)
    ensures PushesOrNot(s, DoGo(s, wake))
  {
  }

  lemma PendingOfDelGo(s: State, wake: set<nat>)
    requires MayGo(s, wake) && (s.client.DelLock? || s.client.DelRelock?)
    ensures PushesOrNot(s, DoGo(s, wake))
  {
    hide Wake, Broadcast;
  }

  /** Nothing but the call of a push raises the load. */
  lemma LoadFalls(s: State, a: Action)
    requires Inv(s) && Enabled(s, a) && !(a.Call? && a.req.Push?)
    ensures var s' := Do(s, a);
            && Load(s') <= Load(s)
            && (Load(s') == Load(s) ==> s'.pending == s.pending && Pushes(s'.client) == Pushes(s.client))
  {
    hide Inv, Sum, MayGo, DoGo, MayWork, DoWork;
    match a
    case Call(req) =>
    case Go(wake) => GoLoad(s, wake);
    case TimeOut =>
    case WakeClient =>
    case Work(w, v) =>
      WorkLoad(s, w, v);
      PushesOfWork(s, w, v);
    case WakeWorker(w) => SumSame(s.workers, Wake(s.workers, {w}), Kind.Carries);
  }

  lemma PushesOfWork(s: State, w: nat, v: int)
    requires MayWork(s, w)
    ensures Pushes(DoWork(s, w, v).client) == Pushes(s.client)
  {
  }

  /** The client calls `thread_pool_push_task`. */
  predicate PushesAt(r: Run, i: nat) {
    r.acts(i).Some? && r.acts(i).value.Call? && r.acts(i).value.req.Push?
  }

  ghost predicate NoPush(r: Run, n: nat) {
    forall i: nat :: i >= n ==> !PushesAt(r, i)
  }

  lemma {:induction false} LoadFallsAlong(r: Run, n: nat, m: nat)
    requires Reachable(r) && NoPush(r, n) && n <= m
    ensures Load(r.path(m)) <= Load(r.path(n))
    ensures Load(r.path(m)) == Load(r.path(n)) ==>
              r.path(m).pending == r.path(n).pending && Pushes(r.path(m).client) == Pushes(r.path(n).client)
    decreases m - n
  {
    hide Inv, Load, Do, Enabled;
    if n < m {
      LoadFallsAlong(r, n, m - 1);
      InvAt(r, m - 1);
      assert StepAt(r, m - 1) && !PushesAt(r, m - 1);
      if r.acts(m - 1).Some? {
        LoadFalls(r.path(m - 1), r.acts(m - 1).value);
      }
    }
  }

  predicate Up(pc: WorkerPc) {
    pc.Check? || pc.Woken? || pc.Spawned?
  }

  /** While a task is pending and none is with a worker, somebody is up and on the way to it. */
  lemma SomebodyUp(s: State)
    requires Inv(s) && s.pending != [] && forall x :: 0 <= x < |s.workers| ==> !Carries(s.workers[x].pc)
    ensures exists w: nat :: w < |s.workers| && Up(s.workers[w].pc)
  {
    hide Tasks, ClientOk, Locks, Threads, Counts;
    if forall w: nat :: w < |s.workers| ==> !Up(s.workers[w].pc) {
      assert forall x :: 0 <= x < |s.workers| ==> s.workers[x].pc.Waiting?;
      SumNone(s.workers, Comes);
    }
  }

  /** Left to itself, work gets less. */
  lemma WorkGoesOn(r: Run, n: nat) returns (m: nat)
    requires Fair(r) && NoPush(r, n) && !Quiet(r.path(n))
    ensures m > n && Load(r.path(m)) < Load(r.path(n))
  {
    hide Inv, Load, MayWork, DoWork;
    var s := r.path(n);
    InvAt(r, n);
    if w :| 0 <= w < |s.workers| && Carries(s.workers[w].pc) {
      m := CarrierActs(r, w, n);
    } else {
      SomebodyUp(s);
      var w: nat :| w < |s.workers| && Up(s.workers[w].pc);
      var k := n;
      if !s.workers[w].pc.Check? {
        var j := WorkerActs(r, w, n);
        UpToCheck(r.path(j), w, r.acts(j).value.v);
        k := j + 1;
      }
      var j := WorkerActs(r, w, k);
      LoadFallsAlong(r, n, j);
      if Load(r.path(j)) < Load(s) {
        m := j;
        EarlierLoad(r, n, j);
      } else {
        WorkLoad(r.path(j), w, r.acts(j).value.v);
        m := j + 1;
      }
    }
  }

  /** A lower load is not where it started. */
  lemma EarlierLoad(r: Run, n: nat, j: nat)
    requires j >= n && Load(r.path(j)) < Load(r.path(n))
    ensures j > n
  {
  }

  lemma UpToCheck(s: State, w: nat, v: int)
    requires MayWork(s, w) && (s.workers[w].pc.Woken? || s.workers[w].pc.Spawned?)
    ensures w < |DoWork(s, w, v).workers| && DoWork(s, w, v).workers[w].pc.Check?
  {
  }

  lemma CarrierActs(r: Run, w: nat, n: nat) returns (m: nat)
    requires Fair(r) && NoPush(r, n) && w < |r.path(n).workers| && Carries(r.path(n).workers[w].pc)
    ensures m > n && Load(r.path(m)) < Load(r.path(n))
  {
    hide Inv, Load, MayWork, DoWork;
    var j := WorkerActs(r, w, n);
    LoadFallsAlong(r, n, j);
    WorkLoad(r.path(j), w, r.acts(j).value.v);
    m := j + 1;
  }

  // ---------- a push goes on ----------

  /** What a push in its wait for a new worker knows. */
  lemma SpawnFacts(s: State)
    requires Inv(s)
    ensures LastSpawned(s.workers) ==> !SpawnOf(s.client).NoSpawn?
    ensures forall w :: 0 <= w < |s.workers| && s.workers[w].pc.Spawned? ==> w == |s.workers| - 1
    ensures s.client.PushWait? ==> LastSpawned(s.workers)
    ensures s.client.PushCheck? && !LastSpawned(s.workers) ==> s.threadCount == s.client.required
  {
    hide Locks, Counts, Queue, Stage, Wakeups, Tasks, ClientOk;
  }

  /** No worker but one that the client creates has yet to start. */
  lemma StartedKept(s: State, a: Action)
    requires Enabled(s, a) && !a.Go? && !LastSpawned(s.workers)
    ensures !LastSpawned(Do(s, a).workers)
  {
    hide MayGo, MayCall;
    if a.Work? {
      WorkersOfWork(s, a.w, a.v);
    }
  }

  lemma {:induction false} StartedStays(r: Run, n: nat, m: nat)
    requires Reachable(r) && n <= m && NoGo(r, n, m) && !LastSpawned(r.path(n).workers)
    ensures !LastSpawned(r.path(m).workers)
    decreases m - n
  {
    hide Inv, Do, Enabled, LastSpawned;
    if n < m {
      StartedStays(r, n, m - 1);
      assert StepAt(r, m - 1) && !GoesAt(r, m - 1);
      if r.acts(m - 1).Some? {
        StartedKept(r.path(m - 1), r.acts(m - 1).value);
      }
    }
  }

  /** With every worker started the task is queued. */
  lemma PushEnds(r: Run, n: nat) returns (m: nat)
    requires Fair(r) && r.path(n).client.PushCheck? && !LastSpawned(r.path(n).workers)
    ensures m > n && r.path(m).client == PushUnlock(r.path(n).client.t)
  {
    hide Inv, LastSpawned, MayGo;
    var k := HolderNextGo(r, n);
    StartedStays(r, n, k);
    SpawnFacts(r.path(k));
    m := k + 1;
  }

  lemma PushResumes(r: Run, n: nat) returns (m: nat)
    requires Fair(r) && r.path(n).client.PushWoken? && !LastSpawned(r.path(n).workers)
    ensures m > n && r.path(m).client == PushUnlock(r.path(n).client.t)
  {
    hide Inv, LastSpawned, MayGo;
    var k := PoolNextGo(r, n);
    StartedStays(r, n, k);
    m := PushEnds(r, k + 1);
  }

  /** What the start of the newest worker does. */
  lemma StartStep(s: State, w: nat, v: int)
    requires Inv(s) && MayWork(s, w) && s.workers[w].pc.Spawned?
    ensures var s' := DoWork(s, w, v); !LastSpawned(s'.workers) && (s'.client.PushCheck? || s'.client.PushWoken?)
  {
    hide Inv;
    SpawnFacts(s);
  }

  /** The new worker starts and lets the push go on. */
  lemma PushOfStart(r: Run, n: nat) returns (m: nat)
    requires Fair(r) && LastSpawned(r.path(n).workers)
    ensures m > n && r.path(m).client.PushUnlock?
  {
    hide Inv, MayWork, DoWork;
    var w := |r.path(n).workers| - 1;
    var k := WorkerActs(r, w, n);
    StartStep(r.path(k), w, r.acts(k).value.v);
    if r.path(k + 1).client.PushCheck? {
      m := PushEnds(r, k + 1);
    } else {
      m := PushResumes(r, k + 1);
    }
  }

  lemma PushBeginStep(s: State, wake: set<nat>)
    requires MayGo(s, wake) && s.client.PushLock?
    ensures DoGo(s, wake).client.PushFull? || DoGo(s, wake).client.PushCheck?
  {
  }

  lemma PushFullStep(s: State, wake: set<nat>)
    requires MayGo(s, wake) && s.client.PushFull?
    ensures DoGo(s, wake).client.Ready?
  {
  }

  /** The call of a push goes on to its end, but for its unlock. */
  lemma PushGoesOn(r: Run, n: nat) returns (m: nat)
    requires Fair(r) && Pushes(r.path(n).client)
    ensures m > n && (r.path(m).client.PushUnlock? || r.path(m).client.Ready?)
  {
    hide Inv, LastSpawned, MayGo, DoGo;
    if r.path(n).client.PushLock? {
      var k := PoolNextGo(r, n);
      PushBeginStep(r.path(k), r.acts(k).value.wake);
      m := PushPastLock(r, k + 1);
    } else {
      m := PushPastLock(r, n);
    }
  }

  lemma PushPastLock(r: Run, n: nat) returns (m: nat)
    requires Fair(r) && Pushes(r.path(n).client) && !r.path(n).client.PushLock?
    ensures m > n && (r.path(m).client.PushUnlock? || r.path(m).client.Ready?)
  {
    hide Inv, LastSpawned, MayGo, DoGo;
    InvAt(r, n);
    SpawnFacts(r.path(n));
    if r.path(n).client.PushFull? {
      var k := HolderNextGo(r, n);
      PushFullStep(r.path(k), r.acts(k).value.wake);
      m := k + 1;
    } else if LastSpawned(r.path(n).workers) {
      m := PushOfStart(r, n);
    } else if r.path(n).client.PushCheck? {
      m := PushEnds(r, n);
    } else {
      m := PushResumes(r, n);
    }
  }

  // ---------- once pushes stop ----------

  lemma {:induction false} SumIsNone(ws: seq<Thread>, k: Kind)
    requires Sum(ws, k) == 0
    ensures forall w :: 0 <= w < |ws| ==> Value(ws[w].pc, k) == 0
  {
    if ws != [] {
      SumIsNone(ws[1..], k);
      assert forall w :: 0 < w < |ws| ==> ws[w] == ws[1..][w - 1];
    }
  }

  lemma NoLoad(s: State)
    ensures Load(s) == 0 <==> Quiet(s) && !Pushes(s.client)
  {
    if Load(s) == 0 {
      SumIsNone(s.workers, Kind.Carries);
    }
    if Quiet(s) {
      SumNone(s.workers, Kind.Carries);
    }
  }

  /** All that was pushed is done: no task is pending or with a worker, each has been executed as often as it was
      pushed, the last result is published unless the task is detached, and each detached one is freed. */
  ghost predicate AllDone(s: State) {
    && Quiet(s)
    && forall t :: t in s.tasks ==> DoneTask(s.tasks[t])
  }

  predicate DoneTask(task: Task) {
    && task.place.Nowhere? && task.starts == |task.outcomes| == task.pushes
    && (task.inPool ==> task.finished && task.outcomes != [] && task.result == Last(task.outcomes))
    && (task.detached ==> task.freed == 1)
  }

  lemma QuietIsDone(s: State)
    requires Inv(s) && Quiet(s)
    ensures AllDone(s)
  {
    hide Sum, Locks, Threads, Stage, Wakeups, Queue, Counts, ClientOk;
    forall t | t in s.tasks ensures DoneTask(s.tasks[t]) {
      assert TaskOk(t, s.tasks[t], s.pending, s.workers, ClientTask(s.client));
    }
  }

  ghost predicate DoneFrom(r: Run, n: nat) {
    forall m: nat :: m >= n ==> AllDone(r.path(m))
  }

  /** Once pushes stop, all tasks are executed, published and freed, whatever else the client calls and however often
      threads are woken for no reason. */
  lemma {:induction false} AllTasksComplete(r: Run, k: nat) returns (n: nat)
    requires Fair(r) && NoPush(r, k)
    ensures n >= k && DoneFrom(r, n)
    decreases Load(r.path(k))
  {
    hide Inv, Load, AllDone;
    NoLoad(r.path(k));
    if Load(r.path(k)) == 0 {
      n := k;
      forall m: nat | m >= n ensures AllDone(r.path(m)) {
        LoadFallsAlong(r, n, m);
        NoLoad(r.path(m));
        InvAt(r, m);
        QuietIsDone(r.path(m));
      }
    } else if !Quiet(r.path(k)) {
      var m := WorkGoesOn(r, k);
      n := AllTasksComplete(r, m);
    } else {
      var m := PushGoesOn(r, k);
      LoadFallsAlong(r, k, m);
      n := AllTasksComplete(r, m);
    }
  }

  lemma {:induction false} StaysGivenUpAlong(r: Run, t: nat, n: nat, m: nat)
    requires Reachable(r) && n <= m && GivenUp(r.path(n), t)
    ensures GivenUp(r.path(m), t)
    decreases m - n
  {
    hide Inv, Do, Enabled, GivenUp;
    if n < m {
      StaysGivenUpAlong(r, t, n, m - 1);
      InvAt(r, m - 1);
      assert StepAt(r, m - 1);
      if r.acts(m - 1).Some? {
        StaysGivenUp(r.path(m - 1), r.acts(m - 1).value, t);
      }
    }
  }

  ghost predicate FreedFrom(r: Run, t: nat, n: nat) {
    forall m: nat :: m >= n ==> t in r.path(m).tasks && r.path(m).tasks[t].freed == 1
  }

  /** A task whose detach has answered is freed, once. */
  lemma DetachedIsFreed(r: Run, t: nat, k: nat) returns (n: nat)
    requires Fair(r) && NoPush(r, k) && r.acts(k).Some?
    requires StepAt(r, k) && Detaches(r.path(k), r.acts(k).value, t)
    ensures n > k && FreedFrom(r, t, n)
  {
    hide Inv, Do, Enabled, Detaches;
    InvAt(r, k);
    DetachGivesUp(r.path(k), r.acts(k).value, t);
    var d := AllTasksComplete(r, k);
    n := Max(d, k + 1);
    forall m: nat | m >= n ensures t in r.path(m).tasks && r.path(m).tasks[t].freed == 1 {
      StaysGivenUpAlong(r, t, k + 1, m);
      InvAt(r, m);
      assert AllDone(r.path(m));
      FreedOnce(r.path(m), t);
    }
  }

  lemma FreedOnce(s: State, t: nat)
    requires Inv(s) && AllDone(s) && GivenUp(s, t)
    ensures s.tasks[t].freed == 1
  {
    hide Sum, Locks, Threads, Stage, Wakeups, Queue, Counts, ClientOk;
    assert TaskOk(t, s.tasks[t], s.pending, s.workers, ClientTask(s.client));
    assert DoneTask(s.tasks[t]);
  }

  // ---------- a shutdown goes on ----------

  predicate PastGuard(c: ClientPc) {
    c.DelUnlock? || c.DelJoin? || c.DelRelock? || c.DelLast? || c.DelDestroy?
  }

  /** The calls' steps until the pool is freed. */
  function StopsLeft(c: ClientPc): nat {
    match c
    case DelUnlock(i) => 4 + 3 * Max(0, MAX_THREADS - i)
    case DelJoin(i) => 3 + 3 * Max(0, MAX_THREADS - i)
    case DelRelock(i) => 2 + 3 * Max(0, MAX_THREADS - i)
    case DelLast => 1
    case _ => 0
  }

  /** The steps of a worker until it is gone. */
  function ExitLeft(pc: WorkerPc): nat {
    match pc
    case Woken => 3
    case Check => 2
    case Leaving => 1
    case _ => 0
  }

  lemma JoinFacts(s: State)
    requires Inv(s) && s.client.DelJoin?
    ensures var i := s.client.i;
            && i < |s.workers| && i < |s.threads| && s.threads[i] == i
            && (s.workers[i].pc.Gone? || ExitLeft(s.workers[i].pc) > 0)
  {
    hide Sum, Locks, Wakeups, Queue, Counts, Tasks, ClientOk;
  }

  lemma ExitStep(s: State, w: nat, v: int)
    requires Inv(s) && s.client == DelJoin(w) && MayWork(s, w) && ExitLeft(s.workers[w].pc) > 0
    ensures ExitLeft(DoWork(s, w, v).workers[w].pc) < ExitLeft(s.workers[w].pc)
  {
    hide Sum, Locks, Wakeups, Queue, Counts, Tasks, ClientOk;
  }

  lemma GoneIsJoined(s: State)
    requires Inv(s) && s.client.DelJoin? && s.workers[s.client.i].pc.Gone?
    ensures CanGo(s)
  {
    hide Inv;
    JoinFacts(s);
    assert MayGo(s, {});
  }

  /** The worker that is told to leave does, so that its join returns. */
  lemma {:induction false} LeaverGoes(r: Run, n: nat)
    requires Fair(r) && r.path(n).client.DelJoin? && r.path(n).client.i < |r.path(n).workers|
    ensures CanGoLater(r, n)
    decreases ExitLeft(r.path(n).workers[r.path(n).client.i].pc)
  {
    hide Inv, MayGo, MayWork, DoWork;
    var i := r.path(n).client.i;
    InvAt(r, n);
    JoinFacts(r.path(n));
    if r.path(n).workers[i].pc.Gone? {
      GoneIsJoined(r.path(n));
    } else {
      var k := WorkerActs(r, i, n);
      if NoGo(r, n, k + 1) {
        ClientStays(r, n, k);
        ClientStays(r, n, k + 1);
        ExitStep(r.path(k), i, r.acts(k).value.v);
        InvAt(r, k + 1);
        JoinFacts(r.path(k + 1));
        LeaverGoes(r, k + 1);
      } else {
        var g: nat :| n <= g < k + 1 && GoesAt(r, g);
        GoWasEnabled(r, g, n);
      }
    }
  }

  lemma JoinNextGo(r: Run, n: nat) returns (m: nat)
    requires Fair(r) && r.path(n).client.DelJoin?
    ensures m >= n && GoesAt(r, m) && r.path(m).client == r.path(n).client && Inv(r.path(m))
    ensures MayGo(r.path(m), r.acts(m).value.wake) && r.path(m + 1) == DoGo(r.path(m), r.acts(m).value.wake)
  {
    hide Inv, MayGo, DoGo, ExitLeft;
    forall k: nat | k >= n && NoGo(r, n, k) ensures CanGoLater(r, k) {
      ClientStays(r, n, k);
      InvAt(r, k);
      JoinFacts(r.path(k));
      LeaverGoes(r, k);
    }
    m := NextGo(r, n);
    ClientStays(r, n, m);
    InvAt(r, m);
    GoWasEnabled(r, m, m);
  }

  lemma StopStep(s: State, wake: set<nat>)
    requires Inv(s) && MayGo(s, wake) && PastGuard(s.client)
    ensures var s' := DoGo(s, wake);
            if s.client.DelDestroy? then s'.client == Ready(PoolDeleted) && s'.freed
            else PastGuard(s'.client) && StopsLeft(s'.client) < StopsLeft(s.client)
  {
    hide Sum, Locks, Wakeups, Queue, Counts, Tasks, ClientOk, Wake, Broadcast;
  }

  /** Every worker has left and the pool is freed. */
  predicate Ended(s: State) {
    && s.client == Ready(PoolDeleted) && s.freed
    && forall w :: 0 <= w < |s.workers| ==> s.workers[w].pc.Gone?
  }

  lemma FreedIsEnded(s: State)
    requires Inv(s) && s.client == Ready(PoolDeleted) && s.freed
    ensures Ended(s)
  {
    hide Sum, Locks, Threads, Wakeups, Queue, Counts, Tasks, ClientOk;
  }

  /** A delete that is past its guard frees the pool. */
  lemma {:induction false} ShutdownCompletes(r: Run, n: nat) returns (m: nat)
    requires Fair(r) && PastGuard(r.path(n).client)
    ensures m > n && Ended(r.path(m))
    decreases StopsLeft(r.path(n).client)
  {
    hide Inv, MayGo, DoGo, StopsLeft, Ended;
    var c, k := r.path(n).client, n;
    if c.DelJoin? {
      k := JoinNextGo(r, n);
    } else if c.DelRelock? {
      k := PoolNextGo(r, n);
    } else {
      k := HolderNextGo(r, n);
    }
    StopStep(r.path(k), r.acts(k).value.wake);
    if c.DelDestroy? {
      m := k + 1;
      InvAt(r, m);
      FreedIsEnded(r.path(m));
    } else {
      m := ShutdownCompletes(r, k + 1);
    }
  }

  lemma DelBeginStep(s: State, wake: set<nat>)
    requires MayGo(s, wake) && s.client.DelLock?
    ensures var guard := s.running > 0 || s.pendingCount > 0 || s.idle != s.threadCount;
            if guard then DoGo(s, wake).client.DelFail? else PastGuard(DoGo(s, wake).client)
  {
    hide Wake, Broadcast;
  }

  lemma DelFailStep(s: State, wake: set<nat>)
    requires MayGo(s, wake) && s.client.DelFail?
    ensures DoGo(s, wake).client == Ready(HasTasks)
  {
  }

  // ---------- every call returns ----------

  predicate InDelete(c: ClientPc) {
    c.DelLock? || c.DelFail? || PastGuard(c)
  }

  lemma DeleteReturns(r: Run, n: nat) returns (m: nat)
    requires Fair(r) && InDelete(r.path(n).client)
    ensures m > n && (r.path(m).client == Ready(HasTasks) || Ended(r.path(m)))
  {
    hide Inv, MayGo, DoGo, Ended;
    var k := n;
    if r.path(n).client.DelLock? {
      var j := PoolNextGo(r, n);
      DelBeginStep(r.path(j), r.acts(j).value.wake);
      k := j + 1;
    }
    if r.path(k).client.DelFail? {
      var j := HolderNextGo(r, k);
      DelFailStep(r.path(j), r.acts(j).value.wake);
      m := j + 1;
    } else {
      m := ShutdownCompletes(r, k);
    }
  }

  lemma PushUnlockStep(s: State, wake: set<nat>)
    requires MayGo(s, wake) && s.client.PushUnlock?
    ensures DoGo(s, wake).client == Ready(Pushed(s.client.t))
  {
  }

  predicate WantsTask(c: ClientPc) {
    c.JoinLock? || c.JoinWoken? || c.DetachLock?
  }

  /** The client can go on as soon as the worker that publishes the task has released it. */
  lemma TaskOwner(s: State)
    requires Inv(s) && WantsTask(s.client)
    ensures s.client.t in s.tasks
    ensures var o := s.tasks[s.client.t].owner;
            if o.Worker? then o.w < |s.workers| && s.workers[o.w].pc == Published(s.client.t) else o.Free? && CanGo(s)
  {
    hide Sum, Locks, Threads, Stage, Wakeups, Queue, Counts;
    var t := s.client.t;
    assert TaskOk(t, s.tasks[t], s.pending, s.workers, ClientTask(s.client));
    if s.tasks[t].owner.Free? {
      assert MayGo(s, {});
    }
  }

  lemma PublishedFrees(s: State, w: nat, v: int)
    requires MayWork(s, w) && s.workers[w].pc.Published?
    ensures var t, s' := s.workers[w].pc.t, DoWork(s, w, v); t in s'.tasks && s'.tasks[t].owner.Free?
  {
  }

  lemma TaskFrees(r: Run, n: nat)
    requires Fair(r) && WantsTask(r.path(n).client)
    ensures CanGoLater(r, n)
  {
    hide Inv, MayGo, MayWork, DoWork;
    var s := r.path(n);
    InvAt(r, n);
    TaskOwner(s);
    if s.tasks[s.client.t].owner.Worker? {
      var w := s.tasks[s.client.t].owner.w;
      var k := WorkerActs(r, w, n);
      if NoGo(r, n, k + 1) {
        ClientStays(r, n, k + 1);
        PublishedFrees(r.path(k), w, r.acts(k).value.v);
        InvAt(r, k + 1);
        TaskOwner(r.path(k + 1));
      } else {
        var g: nat :| n <= g < k + 1 && GoesAt(r, g);
        GoWasEnabled(r, g, n);
      }
    }
  }

  lemma TaskNextGo(r: Run, n: nat) returns (m: nat)
    requires Fair(r) && WantsTask(r.path(n).client)
    ensures m >= n && GoesAt(r, m) && r.path(m).client == r.path(n).client && Inv(r.path(m))
    ensures MayGo(r.path(m), r.acts(m).value.wake) && r.path(m + 1) == DoGo(r.path(m), r.acts(m).value.wake)
  {
    hide Inv, MayGo, DoGo, WantsTask;
    forall k: nat | k >= n && NoGo(r, n, k) ensures CanGoLater(r, k) {
      WantsIsSteady(r.path(n).client);
      ClientStays(r, n, k);
      TaskFrees(r, k);
    }
    m := NextGo(r, n);
    WantsIsSteady(r.path(n).client);
    ClientStays(r, n, m);
    InvAt(r, m);
    GoWasEnabled(r, m, m);
  }

  lemma WantsIsSteady(c: ClientPc)
    requires WantsTask(c)
    ensures Steady(c)
  {
  }

  predicate InDetach(c: ClientPc) {
    c.DetachLock? || c.DetachUnlock? || c.DetachDelete?
  }

  function StepsLeft(c: ClientPc): nat {
    match c
    case DetachLock(_) => 3
    case DetachUnlock(_, _) => 2
    case DetachDelete(_) => 1
    case JoinLock(_, _) => 3
    case JoinWoken(_, _, _) => 3
    case JoinCheck(_, _, _) => 2
    case JoinUnlock(_, _) => 1
    case _ => 0
  }

  lemma DetachStep(s: State, wake: set<nat>)
    requires MayGo(s, wake) && InDetach(s.client)
    ensures var c := DoGo(s, wake).client;
            || c == Ready(Response.Detached(s.client.t))
            || (InDetach(c) && c.t == s.client.t && StepsLeft(c) < StepsLeft(s.client))
  {
  }

  lemma {:induction false} DetachReturns(r: Run, n: nat) returns (m: nat)
    requires Fair(r) && InDetach(r.path(n).client)
    ensures m > n && r.path(m).client == Ready(Response.Detached(r.path(n).client.t))
    decreases StepsLeft(r.path(n).client)
  {
    hide Inv, MayGo, DoGo, StepsLeft;
    var k := n;
    if r.path(n).client.DetachLock? {
      k := TaskNextGo(r, n);
    } else {
      k := HolderNextGo(r, n);
    }
    DetachStep(r.path(k), r.acts(k).value.wake);
    if r.path(k + 1).client.Ready? {
      m := k + 1;
    } else {
      m := DetachReturns(r, k + 1);
    }
  }

  lemma JoinStep(s: State, wake: set<nat>)
    requires MayGo(s, wake) && InJoin(s.client) && s.client.t in s.tasks && s.tasks[s.client.t].finished
    ensures var c := DoGo(s, wake).client; c.Ready? || (InJoin(c) && !c.JoinWait? && StepsLeft(c) < StepsLeft(s.client))
  {
  }

  /** The task of a join is executed when all are, so that the join need not wait. */
  lemma JoinedIsDone(s: State)
    requires Inv(s) && AllDone(s) && InJoin(s.client)
    ensures !s.client.JoinWait?
    ensures !s.client.JoinUnlock? ==> s.client.t in s.tasks && s.tasks[s.client.t].finished
  {
    hide Sum, Locks, Threads, Stage, Wakeups, Queue, Counts, Tasks;
    assert s.client.t in s.tasks && DoneTask(s.tasks[s.client.t]);
  }

  lemma UnlockStep(s: State, wake: set<nat>)
    requires MayGo(s, wake) && s.client.JoinUnlock?
    ensures DoGo(s, wake).client == Ready(s.client.r)
  {
  }

  /** When all tasks are executed, joins return. */
  lemma {:induction false} JoinEnds(r: Run, n: nat) returns (m: nat)
    requires Fair(r) && DoneFrom(r, n) && InJoin(r.path(n).client)
    ensures m > n && r.path(m).client.Ready?
    decreases StepsLeft(r.path(n).client)
  {
    hide Inv, MayGo, DoGo, StepsLeft, AllDone;
    InvAt(r, n);
    JoinedIsDone(r.path(n));
    if r.path(n).client.JoinUnlock? {
      var k := HolderNextGo(r, n);
      UnlockStep(r.path(k), r.acts(k).value.wake);
      m := k + 1;
    } else {
      var k := n;
      if r.path(n).client.JoinCheck? {
        k := HolderNextGo(r, n);
      } else {
        k := TaskNextGo(r, n);
      }
      JoinedIsDone(r.path(k));
      JoinStep(r.path(k), r.acts(k).value.wake);
      if r.path(k + 1).client.Ready? {
        m := k + 1;
      } else {
        m := JoinEnds(r, k + 1);
      }
    }
  }

  /** The call the client is in; of the joins, which one no longer matters. */
  function CallOf(c: ClientPc): Option<Request> {
    if Pushes(c) || c.PushUnlock? then Some(Push(c.t))
    else if InJoin(c) then Some(JoinTask(c.t, Forever))
    else if InDetach(c) then Some(Detach(c.t))
    else if InDelete(c) then Some(DeletePool)
    else None
  }

  /** The answers of a call that reaches a lock. */
  predicate Answers(q: Request, r: Response) {
    match q
    case Push(t) => r == Pushed(t) || r == TooMany(t)
    case JoinTask(t, _) => r == Response.TimedOut(t) || (r.Joined? && r.t == t)
    case Detach(t) => r == Response.Detached(t)
    case DeletePool => r == HasTasks || r == PoolDeleted
    case _ => false
  }

  lemma CallsAreAll(c: ClientPc)
    ensures CallOf(c).None? <==> c.Ready?
  {
  }

  lemma JoinAnswered(s: State)
    requires Inv(s) && s.client.JoinUnlock?
    ensures Answers(JoinTask(s.client.t, Forever), s.client.r)
  {
    hide Sum, Locks, Threads, Stage, Wakeups, Queue, Counts, Tasks;
  }

  lemma CallGoes(s: State, wake: set<nat>)
    requires Inv(s) && MayGo(s, wake)
    ensures var q, c := CallOf(s.client), DoGo(s, wake).client;
            q.Some? && (CallOf(c) == q || (c.Ready? && Answers(q.value, c.r)))
  {
    hide Inv;
    if Outside(s.client) {
      TaskCallGoes(s, wake);
    } else {
      PoolCallGoes(s, wake);
    }
  }

  lemma TaskCallGoes(s: State, wake: set<nat>)
    requires Inv(s) && MayGo(s, wake) && Outside(s.client)
    ensures var q, c := CallOf(s.client), DoGo(s, wake).client;
            q.Some? && (CallOf(c) == q || (c.Ready? && Answers(q.value, c.r)))
  {
    hide Inv;
    if s.client.JoinUnlock? {
      JoinAnswered(s);
    }
  }

  lemma PoolCallGoes(s: State, wake: set<nat>)
    requires MayGo(s, wake) && !Outside(s.client)
    ensures var q, c := CallOf(s.client), DoGo(s, wake).client;
            q.Some? && (CallOf(c) == q || (c.Ready? && Answers(q.value, c.r)))
  {
    hide Wake, Signal, Broadcast;
    if s.client.DelLock? || s.client.DelRelock? {
      StopCallGoes(s, wake);
    }
  }

  lemma StopCallGoes(s: State, wake: set<nat>)
    requires MayGo(s, wake) && (s.client.DelLock? || s.client.DelRelock?)
    ensures CallOf(DoGo(s, wake).client) == CallOf(s.client) == Some(DeletePool)
  {
    hide Wake, Broadcast;
  }

  /** Whatever happens, the call goes on or answers. */
  lemma CallKept(s: State, a: Action)
    requires Inv(s) && Enabled(s, a) && CallOf(s.client).Some?
    ensures var q, c := CallOf(s.client), Do(s, a).client; CallOf(c) == q || (c.Ready? && Answers(q.value, c.r))
  {
    hide Inv, MayGo, DoGo;
    if a.Go? {
      CallGoes(s, a.wake);
    }
  }

  ghost predicate InCall(r: Run, q: Request, n: nat, m: nat) {
    forall i: nat :: n <= i < m ==> CallOf(r.path(i).client) == Some(q)
  }

  predicate AnsweredAt(r: Run, q: Request, m: nat) {
    r.path(m).client.Ready? && Answers(q, r.path(m).client.r)
  }

  /** A call goes on until it answers. */
  lemma {:induction false} FirstAnswer(r: Run, q: Request, n: nat, m: nat) returns (j: nat)
    requires Reachable(r) && n <= m && CallOf(r.path(n).client) == Some(q)
    ensures n < j <= m + 1 && InCall(r, q, n, j)
    ensures AnsweredAt(r, q, j) || (j == m + 1 && CallOf(r.path(m).client) == Some(q))
    decreases m - n
  {
    hide Inv, Do, Enabled, CallOf, Answers;
    if n == m {
      j := m + 1;
    } else {
      InvAt(r, n);
      assert StepAt(r, n);
      if r.acts(n).Some? {
        CallKept(r.path(n), r.acts(n).value);
      }
      if AnsweredAt(r, q, n + 1) {
        j := n + 1;
      } else {
        j := FirstAnswer(r, q, n + 1, m);
      }
    }
  }

  lemma PushReturns(r: Run, n: nat) returns (m: nat)
    requires Fair(r) && (Pushes(r.path(n).client) || r.path(n).client.PushUnlock?)
    ensures m > n && r.path(m).client.Ready?
  {
    hide Inv, MayGo, DoGo;
    var k := n;
    if Pushes(r.path(n).client) {
      k := PushGoesOn(r, n);
    }
    if r.path(k).client.PushUnlock? {
      var j := HolderNextGo(r, k);
      PushUnlockStep(r.path(j), r.acts(j).value.wake);
      m := j + 1;
    } else {
      m := k;
    }
  }

  /** A join returns: the client pushes nothing before, so that all tasks complete. */
  lemma JoinReturns(r: Run, n: nat) returns (m: nat)
    requires Fair(r) && InJoin(r.path(n).client)
    ensures m >= n && r.path(m).client.Ready?
  {
    hide Inv, Do, Enabled, AllDone, MayGo;
    if NoPush(r, n) {
      var d := AllTasksComplete(r, n);
      var q := CallOf(r.path(n).client).value;
      m := FirstAnswer(r, q, n, d);
      if !AnsweredAt(r, q, m) {
        CallIsJoin(r.path(d).client, q);
        m := JoinEnds(r, d);
      }
    } else {
      m :| m >= n && PushesAt(r, m);
      assert StepAt(r, m);
      CallsWhenReady(r.path(m), r.acts(m).value);
    }
  }

  lemma CallIsJoin(c: ClientPc, q: Request)
    requires CallOf(c) == Some(q) && q.JoinTask?
    ensures InJoin(c)
  {
  }

  lemma CallsWhenReady(s: State, a: Action)
    requires Enabled(s, a) && a.Call?
    ensures s.client.Ready?
  {
  }

  /** No call hangs: under fair scheduling each one answers, though no timeout and no spurious wakeup need ever come. */
  lemma EveryCallReturns(r: Run, q: Request, n: nat) returns (m: nat)
    requires Fair(r) && CallOf(r.path(n).client) == Some(q)
    ensures m > n && InCall(r, q, n, m) && AnsweredAt(r, q, m)
  {
    hide Inv, Pushes, InJoin, InDetach, InDelete, Ended;
    var c := r.path(n).client;
    var k: nat;
    if Pushes(c) || c.PushUnlock? {
      k := PushReturns(r, n);
    } else if InJoin(c) {
      k := JoinReturns(r, n);
    } else if InDetach(c) {
      k := DetachReturns(r, n);
    } else {
      k := DeleteReturns(r, n);
      EndedIsReady(r.path(k));
    }
    CallsAreAll(r.path(k).client);
    m := FirstAnswer(r, q, n, k);
  }

  lemma EndedIsReady(s: State)
    ensures Ended(s) ==> s.client.Ready?
  {
  }
}
