/**
 The thread pool gets its work done: a state in which no thread can go on is one where everything asked for is done,
 and between two calls only so many steps are possible.
 */
module ThreadPoolProgress {
  import opened ThreadPool
  import opened ThreadPoolInvariant
  import opened ThreadPoolSafety

  // ---------- no deadlock ----------

  function Sleepers(s: State): set<nat> {
    set w | 0 <= w < |s.workers| && Sleeps(s, w)
  }

  /** Neither the client nor a worker can go on without a new call, a timeout or a spurious wakeup. */
  predicate Stuck(s: State) {
    !MayGo(s, {}) && !MayGo(s, Sleepers(s)) && forall w :: 0 <= w < |s.workers| ==> !MayWork(s, w)
  }

  /** The task of a worker is there. */
  lemma WorkerTaskFacts(s: State, w: nat)
    requires Inv(s) && w < |s.workers|
    ensures HasTask(s.workers[w].pc) || s.workers[w].pc.Published? ==> s.workers[w].pc.t in s.tasks
    ensures s.workers[w].pc.Locked? && s.tasks[s.workers[w].pc.t].owner.Worker? ==>
              exists x :: 0 <= x < |s.workers| && s.workers[x].pc.Published?
    ensures s.workers[w].pc.Locked? && s.tasks[s.workers[w].pc.t].owner.Client? ==>
              ClientTask(s.client).Some? && s.client.t in s.tasks
  {
    hide Sum, Locks, Threads, Stage, Wakeups, Queue, Counts;
    assert WorkerOk(w, s.workers[w].pc, s.tasks);
    if HasTask(s.workers[w].pc) {
      var t := s.workers[w].pc.t;
      assert TaskOk(t, s.tasks[t], s.pending, s.workers, ClientTask(s.client));
    }
  }

  lemma SleepersSignal(s: State)
    ensures Signal(s, Sleepers(s)) && Broadcast(s, Sleepers(s))
  {
    assert forall w :: 0 <= w < |s.workers| && Sleeps(s, w) ==> w in Sleepers(s);
  }

  /** A client that holds a mutex, or wants the pool's when it is free, goes on. */
  lemma ClientGoes(s: State)
    requires Inv(s)
    requires ClientHoldsPool(s.client) || ClientTask(s.client).Some? || s.client.DetachDelete? || s.client.DelDestroy?
             || (s.owner.Free?
                 && (s.client.PushLock? || s.client.PushWoken? || s.client.DelLock? || s.client.DelRelock?))
    ensures MayGo(s, {}) || MayGo(s, Sleepers(s))
  {
    hide Sum, Locks, Threads, Stage, Wakeups, Queue, Counts, Tasks, Signal, Broadcast, Sleepers;
    SleepersSignal(s);
  }

  /** Who is left when no worker can go on. */
  lemma StuckWorkers(s: State)
    requires Inv(s) && Stuck(s)
    ensures s.owner.Free? && ClientTask(s.client).None?
    ensures forall w :: 0 <= w < |s.workers| ==> s.workers[w].pc.Waiting? || s.workers[w].pc.Gone?
  {
    hide Inv, Sum, Locks;
    forall w | 0 <= w < |s.workers|
      ensures !s.workers[w].pc.Published? && !s.workers[w].pc.Locked? && !HoldsPool(s.workers[w].pc)
    {
      assert !MayWork(s, w);
      forall x | 0 <= x < |s.workers| ensures !s.workers[x].pc.Published? {
        assert !MayWork(s, x);
        WorkerTaskFacts(s, x);
      }
      WorkerTaskFacts(s, w);
      if s.workers[w].pc.Check? {
        TurnFacts(s, w);
      }
      if s.workers[w].pc.Locked? {
        ClientGoes(s);
      }
    }
    if ClientTask(s.client).Some? || ClientHoldsPool(s.client) {
      ClientGoes(s);
    }
    OwnerIsFree(s);
    forall w | 0 <= w < |s.workers| ensures s.workers[w].pc.Waiting? || s.workers[w].pc.Gone? {
      assert !MayWork(s, w);
      WorkerTaskFacts(s, w);
    }
  }

  lemma OwnerIsFree(s: State)
    requires Inv(s) && !ClientHoldsPool(s.client) && forall w :: 0 <= w < |s.workers| ==> !HoldsPool(s.workers[w].pc)
    ensures s.owner.Free?
  {
    hide Sum, Threads, Stage, Wakeups, Queue, Counts, Tasks, ClientOk;
  }

  /** With everybody asleep or gone nothing is pending. */
  lemma StuckQueue(s: State)
    requires Inv(s) && forall w :: 0 <= w < |s.workers| ==> s.workers[w].pc.Waiting? || s.workers[w].pc.Gone?
    ensures s.pending == []
  {
    hide Tasks, ClientOk, Locks, Threads, Counts;
    if s.pending != [] {
      SumNone(s.workers, Comes);
    }
  }

  lemma StuckTasks(s: State, t: nat)
    requires Inv(s) && s.pending == [] && t in s.tasks && !s.client.DetachDelete? && ClientTask(s.client).None?
    requires forall w :: 0 <= w < |s.workers| ==> !HasTask(s.workers[w].pc) && !s.workers[w].pc.Published?
    ensures s.tasks[t].owner.Free? && s.tasks[t].place.Nowhere? && RestOk(s.tasks[t])
  {
    hide Sum, Locks, Threads, Stage, Wakeups, Queue, Counts, ClientOk;
    assert TaskOk(t, s.tasks[t], s.pending, s.workers, ClientTask(s.client));
  }

  lemma StuckClient(s: State)
    requires Inv(s) && Stuck(s)
    ensures s.client.Ready?
  {
    hide Sum, Locks, Wakeups, Queue, Counts, Tasks, MayWork, Sleepers;
    StuckWorkers(s);
    StuckQueue(s);
    var c := s.client;
    if c.JoinLock? || c.JoinWait? || c.JoinWoken? || c.DetachLock? {
      StuckTasks(s, c.t);
    } else if !c.PushWait? && !c.DelJoin? && !c.Ready? {
      ClientGoes(s);
    }
  }

  /** No deadlock: when nobody can go on, the client is between calls, no task is pending or with a worker, and every
      detached task is freed. */
  lemma StuckMeansDone(s: State)
    requires Inv(s) && Stuck(s)
    ensures s.client.Ready? && s.pending == [] && s.owner.Free?
    ensures forall w :: 0 <= w < |s.workers| ==> s.workers[w].pc.Waiting? || s.workers[w].pc.Gone?
    ensures forall t :: t in s.tasks ==>
              s.tasks[t].place.Nowhere? && (s.tasks[t].inPool ==> s.tasks[t].finished) && s.tasks[t].owner.Free?
    ensures forall t :: t in s.tasks && s.tasks[t].detached ==> s.tasks[t].freed == 1
  {
    hide Inv, Stuck;
    StuckClient(s);
    StuckWorkers(s);
    StuckQueue(s);
    forall t | t in s.tasks ensures s.tasks[t].place.Nowhere? && RestOk(s.tasks[t]) && s.tasks[t].owner.Free? {
      StuckTasks(s, t);
    }
  }

  /** A detached task is freed just once, whichever of the detach and the end of its execution came first. */
  lemma DetachedIsFreedOnce(max: int, path: seq<State>, acts: seq<Action>, t: nat, k: nat)
    requires IsRun(path, acts) && Create(max) == NewPool(path[0]) && k < |acts|
    requires Detaches(path[k], acts[k], t) && Stuck(path[|acts|])
    ensures Times(path, acts, |acts|, t, Frees) == 1
  {
    hide Inv, Do, Enabled, Detaches, Stuck, Happens;
    CreateInv(max);
    InvOfRun(path, acts, |acts|);
    GivenUpForGood(path, acts, t, k, |acts|);
    StuckMeansDone(path[|acts|]);
    RecordOfRun(path, acts, |acts|, t, Frees);
    RecordsAgree(path[|acts|], t);
  }

  // ---------- a bound on what is left to do ----------

  /** What the client's call may still take, the wakeups it causes included. */
  function ClientEffort(c: ClientPc): int {
    match c
    case Ready(_) => 0
    case PushUnlock(_) => 1
    case PushFull(_) => 1
    case PushWait(_, _) => 71
    case PushCheck(_, _) => 72
    case PushWoken(_, _) => 73
    case PushLock(_) => 78
    case JoinUnlock(_, _) => 1
    case JoinCheck(_, _, late) => if late then 3 else 6
    case JoinWoken(_, _, late) => if late then 4 else 7
    case JoinWait(_, _) => 5
    case JoinLock(_, _) => 7
    case DetachDelete(_) => 2
    case DetachUnlock(_, _) => 3
    case DetachLock(_) => 4
    case DelDestroy => 1
    case DelLast => 2
    case DelFail => 1
    case DelRelock(i) => 3 + 63 * (MAX_THREADS - i)
    case DelJoin(i) => 4 + 63 * (MAX_THREADS - i)
    case DelUnlock(i) => 5 + 63 * (MAX_THREADS - i)
    case DelLock => 4 + 63 * (MAX_THREADS + 1)
  }

  function Left(s: State): int {
    Sum(s.workers, Effort) + 9 * |s.pending| + ClientEffort(s.client)
  }

  lemma LeftIsNat(s: State)
    requires Inv(s)
    ensures Left(s) >= 0
  {
    hide Sum, Locks, Wakeups, Queue, Counts, Tasks, ClientOk;
  }

  /** Worker `w` went on to a cheaper place, waking the client at most. */
  lemma LeftSet(s: State, s': State, w: nat, pc: WorkerPc)
    requires w < |s.workers| && s'.workers == s.workers[w := s.workers[w].(pc := pc)]
    requires Value(pc, Effort) + 9 * |s'.pending| + ClientEffort(s'.client) < Value(s.workers[w].pc, Effort)
          + 9 * |s.pending| + ClientEffort(s.client)
    ensures Left(s') < Left(s)
  {
    hide Value, ClientEffort;
    SumSet(s.workers, w, s.workers[w].(pc := pc), Effort);
  }

  lemma SignalsAreCheap(c: ClientPc, t: nat)
    ensures ClientEffort(SignalSpawn(c)) <= ClientEffort(c) + 2 && ClientEffort(SignalTask(c, t)) <= ClientEffort(c) + 2
  {
  }

  lemma WorkIsProgress(s: State, w: nat, v: int)
    requires Inv(s) && MayWork(s, w)
    ensures Left(DoWork(s, w, v)) < Left(s)
  {
    hide Inv, Left, ClientEffort, SignalSpawn, SignalTask;
    var s' := DoWork(s, w, v);
    if s.workers[w].pc.Check? {
      TurnFacts(s, w);
    } else if s.workers[w].pc.Locked? || s.workers[w].pc.Published? {
      SignalsAreCheap(s.client, s.workers[w].pc.t);
    } else {
      SignalsAreCheap(s.client, 0);
    }
    LeftSet(s, s', w, s'.workers[w].pc);
  }

  lemma FewWorkers(s: State)
    requires Inv(s)
    ensures |s.workers| <= MAX_THREADS
    ensures s.client.DelUnlock? || s.client.DelJoin? || s.client.DelRelock? ==>
              s.client.i < |s.workers| && s.threadCount == |s.workers|
  {
    hide Sum, Locks, Wakeups, Queue, Counts, Tasks, ClientOk;
  }

  /** The client went on to a cheaper place; waking workers costs at most three steps for each. */
  lemma LeftWake(s: State, s': State, wake: set<nat>)
    requires |s.workers| <= MAX_THREADS && s'.workers == Wake(s.workers, wake)
    requires 9 * |s'.pending| + ClientEffort(s'.client) + 60 < 9 * |s.pending| + ClientEffort(s.client)
    ensures Left(s') < Left(s)
  {
    hide ClientEffort, Wake;
    SumWake(s.workers, wake);
  }

  lemma LeftSame(s: State, s': State)
    requires s'.workers == s.workers && s'.pending == s.pending && ClientEffort(s'.client) < ClientEffort(s.client)
    ensures Left(s') < Left(s)
  {
  }

  lemma PushIsProgress(s: State)
    requires Inv(s) && s.client.PushLock?
    ensures Left(PushBegin(s, s.client.t)) < Left(s)
  {
    hide Inv, Sum;
    SumAdd(s.workers, Thread(s.threadCount, Spawned), Effort);
    SumAdd(s.workers, Thread(0, Spawned), Effort);
  }

  lemma DelIsProgress(s: State, wake: set<nat>)
    requires Inv(s) && MayGo(s, wake) && (s.client.DelLock? || s.client.DelRelock?)
    ensures Left(DoGo(s, wake)) < Left(s)
  {
    hide Inv, Left, Wake;
    FewWorkers(s);
    var s' := DoGo(s, wake);
    if s'.client.DelUnlock? {
      LeftWake(s, s', wake);
    } else {
      LeftSame(s, s');
    }
  }

  /** The other steps of the client leave workers and list alone. */
  lemma TaskGoIsProgress(s: State, wake: set<nat>)
    requires MayGo(s, wake) && Outside(s.client)
    ensures Left(DoGo(s, wake)) < Left(s)
  {
    hide Left;
    LeftSame(s, DoGo(s, wake));
  }

  lemma PoolGoIsProgress(s: State, wake: set<nat>)
    requires Inv(s) && MayGo(s, wake) && !Outside(s.client)
    requires !s.client.PushLock? && !s.client.DelLock? && !s.client.DelRelock?
    ensures Left(DoGo(s, wake)) < Left(s)
  {
    hide Inv, Left, Wake, Signal;
    FewWorkers(s);
    if s.client.PushCheck? && s.threadCount == s.client.required {
      LeftWake(s, DoGo(s, wake), wake);
    } else {
      LeftSame(s, DoGo(s, wake));
    }
  }

  lemma GoIsProgress(s: State, wake: set<nat>)
    requires Inv(s) && MayGo(s, wake)
    ensures Left(DoGo(s, wake)) < Left(s)
  {
    var c := s.client;
    if c.PushLock? {
      PushIsProgress(s);
    } else {
      hide Inv, Left, MayGo, DoGo;
      if c.DelLock? || c.DelRelock? {
        DelIsProgress(s, wake);
      } else if Outside(c) {
        TaskGoIsProgress(s, wake);
      } else {
        PoolGoIsProgress(s, wake);
      }
    }
  }

  /** Every step but a call or a spurious wakeup brings the client's calls and the tasks nearer to their end. */
  lemma StepIsProgress(s: State, a: Action)
    requires Inv(s) && Enabled(s, a) && !a.Call?
    ensures if a.WakeClient? || a.WakeWorker? then Left(Do(s, a)) <= Left(s) + 3 else Left(Do(s, a)) < Left(s)
  {
    hide Inv, Sum, DoGo, DoWork, MayGo, MayWork;
    match a
    case Go(wake) => GoIsProgress(s, wake);
    case TimeOut =>
    case WakeClient =>
    case Work(w, v) => WorkIsProgress(s, w, v);
    case WakeWorker(w) =>
      SumSet(s.workers, w, Awake(s.workers[w]), Effort);
      assert Wake(s.workers, {w}) == s.workers[w := Awake(s.workers[w])];
  }

  /** How many of the first `n` actions are wakeups for no reason. */
  function Spurious(acts: seq<Action>, n: nat): nat
    requires n <= |acts|
  {
    if n == 0 then 0 else Spurious(acts, n - 1) + if acts[n - 1].WakeClient? || acts[n - 1].WakeWorker? then 1 else 0
  }

  lemma {:induction false} RunIsProgress(path: seq<State>, acts: seq<Action>, n: nat)
    requires IsRun(path, acts) && Inv(path[0]) && n <= |acts| && forall i :: 0 <= i < |acts| ==> !acts[i].Call?
    ensures Left(path[n]) + n <= Left(path[0]) + 4 * Spurious(acts, n)
  {
    hide Inv, Left, Do, Enabled;
    if n > 0 {
      RunIsProgress(path, acts, n - 1);
      InvOfRun(path, acts, n - 1);
      StepIsProgress(path[n - 1], acts[n - 1]);
    }
  }

  /** Between calls a run is bounded by its start and its spurious wakeups, and where it cannot go on all work is
      done. */
  lemma WorkCompletes(path: seq<State>, acts: seq<Action>)
    requires IsRun(path, acts) && Inv(path[0]) && forall i :: 0 <= i < |acts| ==> !acts[i].Call?
    ensures |acts| <= Left(path[0]) + 4 * Spurious(acts, |acts|)
    ensures var s := path[|acts|];
            Stuck(s) ==> s.client.Ready? && s.pending == [] && forall t :: t in s.tasks ==> s.tasks[t].place.Nowhere?
  {
    hide Inv, Left, Do, Enabled, Stuck;
    var n := |acts|;
    RunIsProgress(path, acts, n);
    InvOfRun(path, acts, n);
    LeftIsNat(path[n]);
    if Stuck(path[n]) {
      StuckMeansDone(path[n]);
    }
  }

  /** From any reachable state some run without calls gets there. */
  lemma {:induction false} Drains(s: State) returns (path: seq<State>, acts: seq<Action>)
    requires Inv(s)
    ensures IsRun(path, acts) && path[0] == s && Stuck(path[|acts|])
    ensures forall i :: 0 <= i < |acts| ==> acts[i].Go? || acts[i].Work?
    decreases Left(s)
  {
    hide Inv, Left, Do, MayGo, MayWork;
    LeftIsNat(s);
    if Stuck(s) {
      path, acts := [s], [];
    } else {
      var a := Enabling(s);
      InvKept(s, a);
      StepIsProgress(s, a);
      LeftIsNat(Do(s, a));
      var path', acts' := Drains(Do(s, a));
      path, acts := [s] + path', [a] + acts';
      forall i | 0 <= i < |acts| ensures Enabled(path[i], acts[i]) && path[i + 1] == Do(path[i], acts[i]) {
        assert i > 0 ==> path[i] == path'[i - 1] && acts[i] == acts'[i - 1];
      }
    }
  }

  lemma Enabling(s: State) returns (a: Action)
    requires !Stuck(s)
    ensures Enabled(s, a) && (a.Go? || a.Work?)
  {
    if MayGo(s, {}) {
      a := Go({});
    } else if MayGo(s, Sleepers(s)) {
      a := Go(Sleepers(s));
    } else {
      var w :| 0 <= w < |s.workers| && MayWork(s, w);
      a := Work(w, 0);
    }
  }
}
