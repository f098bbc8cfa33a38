/**
 What the thread pool promises in every reachable state: counters, wakeups, the life of a task, exactly one
 execution for a push, the value a join returns, and an orderly shutdown.
 */
module ThreadPoolSafety {
  import opened Common
  import opened ThreadPool
  import opened ThreadPoolInvariant

  // ---------- counters and wakeups ----------

  /** A worker counts as idle or busy, unless it has not started or is publishing. */
  lemma {:induction false} SumSplit(ws: seq<Thread>)
    requires forall w :: 0 <= w < |ws| ==> !ws[w].pc.Published? && (ws[w].pc.Spawned? ==> w == |ws| - 1)
    ensures Sum(ws, Idle) + Sum(ws, Busy) == |ws| - (if LastSpawned(ws) then 1 else 0)
  {
    if |ws| > 1 {
      SumSplit(ws[1..]);
    }
  }

  lemma NobodyPublishes(s: State)
    requires Inv(s) && !s.owner.Worker?
    ensures forall w :: 0 <= w < |s.workers| ==> !HoldsPool(s.workers[w].pc)
    ensures forall w :: 0 <= w < |s.workers| ==> (s.workers[w].pc.Spawned? ==> w == |s.workers| - 1)
    ensures s.threadCount == |s.workers| - (if LastSpawned(s.workers) then 1 else 0) <= s.max <= MAX_THREADS
  {
    hide Sum, Tasks, Stage, Wakeups, ClientOk;
  }

  /** Whenever no worker is inside the pool's mutex, its counters add up, in a shutdown too. */
  lemma PoolCounters(s: State)
    requires Inv(s) && !s.owner.Worker?
    ensures s.idle + s.running == s.threadCount <= s.max <= MAX_THREADS
    ensures s.pendingCount == |s.pending| <= MAX_TASKS
    ensures forall w :: 0 <= w < |s.workers| ==> s.workers[w].idx == w
    ensures s.client.Ready? && !s.freed ==> s.threadCount == |s.workers|
  {
    NobodyPublishes(s);
    SumSplit(s.workers);
    hide Sum, Tasks, Stage, Wakeups, ClientOk;
  }

  /** The third guard of `thread_pool_delete` never decides: with no task running every worker is idle. */
  lemma ThirdGuardIsFirst(s: State)
    requires Inv(s) && s.client.DelLock? && s.owner.Free?
    ensures s.running > 0 || s.idle == s.threadCount
  {
    PoolCounters(s);
    assert s.running >= 0 by {
      hide Tasks, Stage, Wakeups, ClientOk, Locks, Threads;
    }
  }

  /** Sleeping on the pool's `cv`. */
  function Asleep(s: State): nat {
    Sum(s.workers, Waits)
  }

  function Coming(s: State): nat {
    Sum(s.workers, Comes)
  }

  /** With the pool's mutex free, the workers already woken are at least as many as the pending tasks or the idle
      workers. */
  lemma NoLostWakeup(s: State)
    requires Inv(s) && s.owner.Free?
    ensures Coming(s) >= Min(s.pendingCount, Asleep(s) + Coming(s))
    ensures forall w :: 0 <= w < |s.workers| && Value(s.workers[w].pc, Comes) > 0 ==> s.workers[w].pc.Woken?
  {
    NobodyPublishes(s);
    hide Sum, Tasks, Stage, ClientOk, Locks, Threads;
  }

  // ---------- the life of a task ----------

  datatype Status = New | InList | WithWorker | Finished | Returned | DetachedInList | DetachedWithWorker | Freed

  function StatusOf(task: Task): Status {
    if task.freed > 0 then Freed
    else match task.place
      case Queued => if task.detached then DetachedInList else InList
      case Held(_) => if task.detached then DetachedWithWorker else WithWorker
      case Nowhere => if !task.finished then New else if task.inPool then Finished else Returned
  }

  /** The worker has started `t`'s function and not yet published its result. */
  predicate Executes(pc: WorkerPc, t: nat) {
    (pc.Executing? || pc.Executed? || pc.Locked?) && pc.t == t
  }

  predicate OneTask(a: WorkerPc, b: WorkerPc) {
    HasTask(a) && HasTask(b) && a.t == b.t
  }

  /** The status is what the pending list, the workers and the task's own fields show. */
  lemma StatusIsSeen(s: State, t: nat)
    requires Inv(s) && t in s.tasks
    ensures var st := StatusOf(s.tasks[t]);
            && (st.InList? || st.DetachedInList? <==> t in s.pending)
            && (st.WithWorker? || st.DetachedWithWorker? <==>
                 exists w :: 0 <= w < |s.workers| && HasTask(s.workers[w].pc) && s.workers[w].pc.t == t)
            && (st.DetachedInList? || st.DetachedWithWorker? ==> s.tasks[t].detached && !s.tasks[t].inPool)
            && (st.InList? || st.WithWorker? ==> s.tasks[t].inPool && !s.tasks[t].finished)
            && (!st.Freed? ==> (s.tasks[t].finished <==> st.Finished? || st.Returned?))
            && (!st.Freed? ==>
                 (s.tasks[t].running <==> exists w :: 0 <= w < |s.workers| && Executes(s.workers[w].pc, t)))
    ensures forall i, j :: 0 <= i < |s.pending| && 0 <= j < |s.pending| && s.pending[i] == s.pending[j] ==> i == j
    ensures forall w: nat, x: nat :: w < |s.workers| && x < |s.workers| && OneTask(s.workers[w].pc, s.workers[x].pc) ==>
              w == x
  {
    hide Sum, Locks, Threads, Stage, Wakeups, Queue, Counts, ClientOk;
    assert TaskOk(t, s.tasks[t], s.pending, s.workers, ClientTask(s.client));
    forall w | 0 <= w < |s.workers| ensures WorkerOk(w, s.workers[w].pc, s.tasks) {
    }
  }

  /** How a task may go on. */
  predicate Goes(a: Status, b: Status) {
    a == b ||
    match a
    case New => b.InList? || b.Freed?
    case InList => b.WithWorker? || b.DetachedInList?
    case WithWorker => b.Finished? || b.DetachedWithWorker?
    case Finished => b.Returned?
    case Returned => b.InList? || b.Freed?
    case DetachedInList => b.DetachedWithWorker?
    case DetachedWithWorker => b.Freed?
    case Freed => false
  }

  lemma LifeOfWork(s: State, w: nat, v: int, t: nat)
    requires Inv(s) && MayWork(s, w) && t in s.tasks
    ensures t in DoWork(s, w, v).tasks && Goes(StatusOf(s.tasks[t]), StatusOf(DoWork(s, w, v).tasks[t]))
    ensures s.tasks[t].freed > 0 ==> DoWork(s, w, v).tasks[t] == s.tasks[t]
  {
    hide Locks, Threads, Counts, Wakeups, Tasks, Sum, Queue, Stage, ClientOk;
    if s.workers[w].pc.Check? {
      TurnFacts(s, w);
      if s.pending != [] {
        TaskFacts(s, s.pending[0]);
      }
    } else if HasTask(s.workers[w].pc) {
      TaskHere(s, w);
    } else if s.workers[w].pc.Published? {
      PublishedFacts(s, w);
    }
  }

  lemma PublishedFacts(s: State, w: nat)
    requires Inv(s) && w < |s.workers| && s.workers[w].pc.Published?
    ensures var t := s.workers[w].pc.t; t in s.tasks && s.tasks[t].freed == 0
  {
    hide Sum;
    var t := s.workers[w].pc.t;
    assert WorkerOk(w, s.workers[w].pc, s.tasks);
    assert TaskOk(t, s.tasks[t], s.pending, s.workers, ClientTask(s.client));
  }

  lemma LifeOfPush(s: State, wake: set<nat>, t: nat)
    requires Inv(s) && MayGo(s, wake) && t in s.tasks && s.client.PushCheck?
    ensures t in DoGo(s, wake).tasks && Goes(StatusOf(s.tasks[t]), StatusOf(DoGo(s, wake).tasks[t]))
    ensures s.tasks[t].freed > 0 ==> DoGo(s, wake).tasks[t] == s.tasks[t]
  {
    hide Locks, Threads, Counts, Wakeups, Tasks, Sum, Queue, Stage;
    TaskFacts(s, t);
  }

  lemma LifeOfJoin(s: State, wake: set<nat>, t: nat)
    requires Inv(s) && MayGo(s, wake) && t in s.tasks
    requires (s.client.JoinLock? || s.client.JoinCheck? || s.client.JoinWoken? || s.client.JoinUnlock?)
    ensures t in DoGo(s, wake).tasks && Goes(StatusOf(s.tasks[t]), StatusOf(DoGo(s, wake).tasks[t]))
    ensures s.tasks[t].freed > 0 ==> DoGo(s, wake).tasks[t] == s.tasks[t]
  {
    hide Locks, Threads, Counts, Wakeups, Tasks, Sum, Queue, Stage;
    TaskFacts(s, t);
  }

  lemma LifeOfDetach(s: State, wake: set<nat>, t: nat)
    requires Inv(s) && MayGo(s, wake) && t in s.tasks
    requires (s.client.DetachLock? || s.client.DetachUnlock? || s.client.DetachDelete?)
    ensures t in DoGo(s, wake).tasks && Goes(StatusOf(s.tasks[t]), StatusOf(DoGo(s, wake).tasks[t]))
    ensures s.tasks[t].freed > 0 ==> DoGo(s, wake).tasks[t] == s.tasks[t]
  {
    hide Locks, Threads, Counts, Wakeups, Tasks, Sum, Queue, Stage;
    TaskFacts(s, t);
  }

  lemma LifeOfGo(s: State, wake: set<nat>, t: nat)
    requires Inv(s) && MayGo(s, wake) && t in s.tasks
    ensures t in DoGo(s, wake).tasks && Goes(StatusOf(s.tasks[t]), StatusOf(DoGo(s, wake).tasks[t]))
    ensures s.tasks[t].freed > 0 ==> DoGo(s, wake).tasks[t] == s.tasks[t]
  {
    hide Inv;
    var c := s.client;
    if c.PushCheck? {
      LifeOfPush(s, wake, t);
    } else if c.JoinLock? || c.JoinCheck? || c.JoinWoken? || c.JoinUnlock? {
      LifeOfJoin(s, wake, t);
    } else if c.DetachLock? || c.DetachUnlock? || c.DetachDelete? {
      LifeOfDetach(s, wake, t);
    }
  }

  /** Each action moves a task along its life, and nothing touches a task that was freed. */
  lemma LifeOfTask(s: State, a: Action, t: nat)
    requires Inv(s) && Enabled(s, a) && t in s.tasks
    ensures t in Do(s, a).tasks && Goes(StatusOf(s.tasks[t]), StatusOf(Do(s, a).tasks[t]))
    ensures s.tasks[t].freed > 0 ==> Do(s, a).tasks[t] == s.tasks[t]
  {
    hide Inv, DoGo, DoWork;
    match a
    case Call(req) => TaskFacts(s, t);
    case Go(wake) => LifeOfGo(s, wake, t);
    case TimeOut =>
    case WakeClient =>
    case Work(w, v) => LifeOfWork(s, w, v, t);
    case WakeWorker(w) =>
  }

  // ---------- exactly once ----------

  datatype Event = Queues | Runs | Frees

  /** The action queues task `t`, starts its function, or frees it. */
  predicate Happens(s: State, a: Action, t: nat, e: Event)
    requires Enabled(s, a)
  {
    match e
    case Queues => a.Go? && s.client.PushCheck? && s.client.t == t && s.threadCount == s.client.required
    case Runs => a.Work? && s.workers[a.w].pc == Starting(t)
    case Frees =>
      t in s.tasks && !s.tasks[t].inPool &&
      (|| (a.Call? && a.req == DeleteTask(t))
       || (a.Go? && s.client == DetachDelete(t))
       || (a.Work? && s.workers[a.w].pc.Locked? && s.workers[a.w].pc.t == t && s.tasks[t].detached))
  }

  /** How often it happened in the first `n` actions of a run. */
  function Times(path: seq<State>, acts: seq<Action>, n: nat, t: nat, e: Event): nat
    requires IsRun(path, acts) && n <= |acts|
  {
    if n == 0 then 0 else Times(path, acts, n - 1, t, e) + if Happens(path[n - 1], acts[n - 1], t, e) then 1 else 0
  }

  /** What the last execution of `t` in the first `n` actions returned. */
  function LastReturned(path: seq<State>, acts: seq<Action>, n: nat, t: nat): Option<int>
    requires IsRun(path, acts) && n <= |acts|
  {
    if n == 0 then None
    else
      var s, a := path[n - 1], acts[n - 1];
      if a.Work? && s.workers[a.w].pc == Executing(t) then Some(a.v) else LastReturned(path, acts, n - 1, t)
  }

  function Recorded(s: State, t: nat, e: Event): nat {
    if t !in s.tasks then 0
    else match e
      case Queues => s.tasks[t].pushes
      case Runs => s.tasks[t].starts
      case Frees => s.tasks[t].freed
  }

  function RecordedLast(s: State, t: nat): Option<int> {
    if t in s.tasks && s.tasks[t].outcomes != [] then Some(Last(s.tasks[t].outcomes)) else None
  }

  /** What a worker's step on its task records. */
  lemma RecordOfTaskStep(s: State, w: nat, v: int, t: nat, e: Event)
    requires Inv(s) && MayWork(s, w) && (HasTask(s.workers[w].pc) || s.workers[w].pc.Published?)
    ensures Recorded(DoWork(s, w, v), t, e) == Recorded(s, t, e) + if Happens(s, Work(w, v), t, e) then 1 else 0
  {
    hide Inv;
  }

  lemma LastOfTaskStep(s: State, w: nat, v: int, t: nat)
    requires Inv(s) && MayWork(s, w) && (HasTask(s.workers[w].pc) || s.workers[w].pc.Published?)
    ensures RecordedLast(DoWork(s, w, v), t) == if s.workers[w].pc == Executing(t) then Some(v) else RecordedLast(s, t)
  {
    hide Inv;
  }

  lemma RecordOfWork(s: State, w: nat, v: int, t: nat, e: Event)
    requires Inv(s) && MayWork(s, w)
    ensures Recorded(DoWork(s, w, v), t, e) == Recorded(s, t, e) + if Happens(s, Work(w, v), t, e) then 1 else 0
    ensures RecordedLast(DoWork(s, w, v), t) == if s.workers[w].pc == Executing(t) then Some(v) else RecordedLast(s, t)
  {
    hide Inv;
    if HasTask(s.workers[w].pc) || s.workers[w].pc.Published? {
      hide DoWork, Happens, Recorded, RecordedLast;
      RecordOfTaskStep(s, w, v, t, e);
      LastOfTaskStep(s, w, v, t);
    } else if s.workers[w].pc.Check? {
      TurnFacts(s, w);
    }
  }

  lemma RecordOfPool(s: State, wake: set<nat>, t: nat, e: Event)
    requires MayGo(s, wake) && !Outside(s.client)
    ensures Recorded(DoGo(s, wake), t, e) == Recorded(s, t, e) + if Happens(s, Go(wake), t, e) then 1 else 0
    ensures RecordedLast(DoGo(s, wake), t) == RecordedLast(s, t)
  {
  }

  lemma RecordOfTask(s: State, wake: set<nat>, t: nat, e: Event)
    requires MayGo(s, wake) && Outside(s.client)
    ensures Recorded(DoGo(s, wake), t, e) == Recorded(s, t, e) + if Happens(s, Go(wake), t, e) then 1 else 0
    ensures RecordedLast(DoGo(s, wake), t) == RecordedLast(s, t)
  {
  }

  /** The fields that record a task's history record what happens. */
  lemma RecordOfAction(s: State, a: Action, t: nat, e: Event)
    requires Inv(s) && Enabled(s, a)
    ensures Recorded(Do(s, a), t, e) == Recorded(s, t, e) + if Happens(s, a, t, e) then 1 else 0
    ensures RecordedLast(Do(s, a), t) == if a.Work? && s.workers[a.w].pc == Executing(t) then Some(a.v)
                                         else RecordedLast(s, t)
  {
    hide Inv, DoGo, DoWork;
    match a
    case Call(req) =>
    case Go(wake) => if Outside(s.client) { RecordOfTask(s, wake, t, e); } else { RecordOfPool(s, wake, t, e); }
    case TimeOut =>
    case WakeClient =>
    case Work(w, v) => RecordOfWork(s, w, v, t, e);
    case WakeWorker(w) =>
  }

  lemma {:induction false} RecordOfRun(path: seq<State>, acts: seq<Action>, n: nat, t: nat, e: Event)
    requires IsRun(path, acts) && Inv(path[0]) && path[0].tasks == map[] && n <= |acts|
    ensures Times(path, acts, n, t, e) == Recorded(path[n], t, e)
    ensures LastReturned(path, acts, n, t) == RecordedLast(path[n], t)
  {
    hide Inv, Do, Enabled, Happens, Recorded, RecordedLast;
    if n > 0 {
      RecordOfRun(path, acts, n - 1, t, e);
      InvOfRun(path, acts, n - 1);
      RecordOfAction(path[n - 1], acts[n - 1], t, e);
    } else {
      NothingRecorded(path[0], t, e);
    }
  }

  lemma NothingRecorded(s: State, t: nat, e: Event)
    requires s.tasks == map[]
    ensures Recorded(s, t, e) == 0 && RecordedLast(s, t) == None
  {
  }

  /** How the records of a task relate in a state. */
  lemma RecordsAgree(s: State, t: nat)
    requires Inv(s)
    ensures var pushes, starts := Recorded(s, t, Queues), Recorded(s, t, Runs);
            && starts <= pushes <= starts + 1
            && (pushes == starts + 1 ==> t in s.pending || exists w ::
                 0 <= w < |s.workers| && (s.workers[w].pc == Taken(t) || s.workers[w].pc == Starting(t)))
    ensures Recorded(s, t, Frees) <= 1
    ensures Recorded(s, t, Frees) == 1 ==> Recorded(s, t, Runs) == Recorded(s, t, Queues)
  {
    hide Sum, Locks, Threads, Stage, Wakeups, Queue, Counts, ClientOk;
    if t in s.tasks {
      assert TaskOk(t, s.tasks[t], s.pending, s.workers, ClientTask(s.client));
    }
  }

  /** Over any run each push of a task leads to at most one execution, to just one once it has left list and worker,
      and a task is freed at most once. */
  lemma ExactlyOnce(max: int, path: seq<State>, acts: seq<Action>, t: nat)
    requires IsRun(path, acts) && Create(max) == NewPool(path[0])
    ensures var n := |acts|;
            var pushes, runs := Times(path, acts, n, t, Queues), Times(path, acts, n, t, Runs);
            && runs <= pushes <= runs + 1
            && (pushes == runs + 1 ==>
                  var s := path[n];
                  t in s.pending || exists w ::
                       0 <= w < |s.workers| && (s.workers[w].pc == Taken(t) || s.workers[w].pc == Starting(t)))
            && Times(path, acts, n, t, Frees) <= 1
            && (Times(path, acts, n, t, Frees) == 1 ==> runs == pushes)
  {
    hide Inv, Happens, Recorded, RecordedLast, Do, Enabled;
    CreateInv(max);
    InvOfRun(path, acts, |acts|);
    RecordOfRun(path, acts, |acts|, t, Queues);
    RecordOfRun(path, acts, |acts|, t, Runs);
    RecordOfRun(path, acts, |acts|, t, Frees);
    RecordsAgree(path[|acts|], t);
  }

  lemma JoinAnswers(s: State, t: nat, v: int)
    requires Inv(s) && s.client == JoinUnlock(t, Response.Joined(t, v))
    ensures RecordedLast(s, t) == Some(v) && Recorded(s, t, Runs) == Recorded(s, t, Queues) > 0
    ensures t !in s.pending && forall w :: 0 <= w < |s.workers| && HasTask(s.workers[w].pc) ==> s.workers[w].pc.t != t
  {
    hide Sum, Locks, Threads, Stage, Wakeups, Queue, Counts;
    assert TaskOk(t, s.tasks[t], s.pending, s.workers, ClientTask(s.client));
    forall w | 0 <= w < |s.workers| ensures WorkerOk(w, s.workers[w].pc, s.tasks) {
    }
  }

  /** A join returns what the execution of the latest push returned. */
  lemma JoinReturnsLatest(max: int, path: seq<State>, acts: seq<Action>, t: nat, v: int)
    requires IsRun(path, acts) && Create(max) == NewPool(path[0])
    requires path[|acts|].client == JoinUnlock(t, Response.Joined(t, v))
    ensures LastReturned(path, acts, |acts|, t) == Some(v)
    ensures Times(path, acts, |acts|, t, Runs) == Times(path, acts, |acts|, t, Queues) > 0
  {
    hide Inv, Happens, Recorded, RecordedLast, Do, Enabled;
    CreateInv(max);
    InvOfRun(path, acts, |acts|);
    RecordOfRun(path, acts, |acts|, t, Queues);
    RecordOfRun(path, acts, |acts|, t, Runs);
    JoinAnswers(path[|acts|], t, v);
  }

  predicate InJoin(c: ClientPc) {
    c.JoinLock? || c.JoinCheck? || c.JoinWait? || c.JoinWoken? || c.JoinUnlock?
  }

  /** Until it is about to answer with a value, a join changes nothing of any task but who holds its mutex. */
  lemma FailedJoinChangesNothing(s: State, a: Action, t: nat)
    requires Enabled(s, a) && InJoin(s.client) && (a.Go? || a.TimeOut? || a.WakeClient?) && t in s.tasks
    requires !(Do(s, a).client.JoinUnlock? && Do(s, a).client.r.Joined?)
    ensures t in Do(s, a).tasks && Do(s, a).tasks[t] == s.tasks[t].(owner := Do(s, a).tasks[t].owner)
  {
    hide DoGo, MayGo, DoCall, DoWork, MayWork;
    if a.Go? {
      JoinStepChangesNothing(s, a.wake, t);
    }
  }

  lemma JoinStepChangesNothing(s: State, wake: set<nat>, t: nat)
    requires MayGo(s, wake) && InJoin(s.client) && t in s.tasks
    requires !(DoGo(s, wake).client.JoinUnlock? && DoGo(s, wake).client.r.Joined?)
    ensures t in DoGo(s, wake).tasks && DoGo(s, wake).tasks[t] == s.tasks[t].(owner := DoGo(s, wake).tasks[t].owner)
  {
  }

  /** A join that timed out leaves its task in the pool, to be joined again. */
  lemma TimedOutStaysInPool(s: State)
    requires Inv(s) && s.client.JoinUnlock? && s.client.r.TimedOut?
    ensures var t, s' := s.client.t, DoGo(s, {});
            s'.client == Ready(TimedOut(t)) && Usable(s', t) && s'.tasks[t].inPool
  {
    hide Locks, Threads, Counts, Wakeups, Tasks, Sum, Queue, Stage;
  }

  // ---------- the order of the queue ----------

  /** The step of a run that queued `t` last. */
  function QueuedAt(path: seq<State>, acts: seq<Action>, n: nat, t: nat): (k: nat)
    requires IsRun(path, acts) && n <= |acts|
    ensures k <= n
  {
    if n == 0 then 0 else if Happens(path[n - 1], acts[n - 1], t, Queues) then n else QueuedAt(path, acts, n - 1, t)
  }

  /** What an action does to the pending list: a push puts its task first, a worker takes the first. */
  lemma PendingMoves(s: State, a: Action)
    requires Inv(s) && Enabled(s, a)
    ensures var p, p' := s.pending, Do(s, a).pending;
            || (p' == p && forall t :: !Happens(s, a, t, Queues))
            || (s.client.PushCheck? && p' == [s.client.t] + p &&
                forall t :: Happens(s, a, t, Queues) <==> t == s.client.t)
            || (p != [] && p' == p[1..] && forall t :: !Happens(s, a, t, Queues))
  {
    hide Inv, MayGo, DoGo, MayWork, DoWork;
    match a
    case Go(wake) => PendingMovesOfGo(s, wake);
    case Work(w, v) => PendingMovesOfWork(s, w, v);
    case _ =>
  }

  lemma PendingMovesOfGo(s: State, wake: set<nat>)
    requires MayGo(s, wake)
    ensures DoGo(s, wake).pending
         == if s.client.PushCheck? && s.threadCount == s.client.required then [s.client.t] + s.pending else s.pending
  {
    hide Wake, Signal, Broadcast;
    if s.client.DelLock? || s.client.DelRelock? {
      PendingKeptByDelete(s, wake);
    }
  }

  lemma PendingKeptByDelete(s: State, wake: set<nat>)
    requires MayGo(s, wake) && (s.client.DelLock? || s.client.DelRelock?)
    ensures DoGo(s, wake).pending == s.pending
  {
    hide Wake, Broadcast;
  }

  lemma PendingMovesOfWork(s: State, w: nat, v: int)
    requires Inv(s) && MayWork(s, w)
    ensures var p, p' := s.pending, DoWork(s, w, v).pending; p' == p || (p != [] && p' == p[1..])
  {
    hide Inv;
    if s.workers[w].pc.Check? {
      TurnFacts(s, w);
    }
  }

  lemma NotQueuedTwice(s: State)
    requires Inv(s) && s.client.PushCheck?
    ensures s.client.t !in s.pending
  {
    hide Sum, Locks, Threads, Stage, Wakeups, Queue, Counts;
  }

  /** The pending list is a stack: its tasks stand in the order they were queued, the newest first. */
  lemma {:induction false} NewestFirst(path: seq<State>, acts: seq<Action>, n: nat)
    requires IsRun(path, acts) && Inv(path[0]) && path[0].pending == [] && n <= |acts|
    ensures forall i, j :: 0 <= i < j < |path[n].pending| ==>
              QueuedAt(path, acts, n, path[n].pending[i]) > QueuedAt(path, acts, n, path[n].pending[j])
  {
    hide Inv, Do, Enabled, Happens;
    if n > 0 {
      NewestFirst(path, acts, n - 1);
      InvOfRun(path, acts, n - 1);
      PendingMoves(path[n - 1], acts[n - 1]);
      if path[n - 1].client.PushCheck? {
        NotQueuedTwice(path[n - 1]);
      }
    }
  }

  // ---------- new workers ----------

  lemma {:induction false} BusyIfNoneIdle(ws: seq<Thread>)
    requires forall w :: 0 <= w < |ws| ==> Value(ws[w].pc, Idle) + Value(ws[w].pc, Busy) == 1
    ensures Sum(ws, Idle) == 0 <==> forall w :: 0 <= w < |ws| ==> HasTask(ws[w].pc)
  {
    if ws != [] {
      BusyIfNoneIdle(ws[1..]);
      assert (forall w :: 0 <= w < |ws| ==> HasTask(ws[w].pc)) <==>
           HasTask(ws[0].pc) && forall w :: 0 <= w < |ws[1..]| ==> HasTask(ws[1..][w].pc) by {
        assert forall w :: 0 < w < |ws| ==> ws[w] == ws[1..][w - 1];
      }
    }
  }

  /** A push starts a worker just when every worker has a task and there may be more workers. */
  lemma SpawnsWhenAllBusy(s: State)
    requires Inv(s) && s.client.PushLock? && s.owner.Free? && s.pendingCount < MAX_TASKS
    ensures |PushBegin(s, s.client.t).workers| > |s.workers| <==>
              |s.workers| < s.max && forall w :: 0 <= w < |s.workers| ==> HasTask(s.workers[w].pc)
    ensures var ws := PushBegin(s, s.client.t).workers;
            |ws| > |s.workers| ==> ws == s.workers + [Thread(|s.workers|, Spawned)]
  {
    NobodyPublishes(s);
    PushFacts(s);
    forall w | 0 <= w < |s.workers| ensures Value(s.workers[w].pc, Idle) + Value(s.workers[w].pc, Busy) == 1 {
      NotSpawned(s, w);
    }
    BusyIfNoneIdle(s.workers);
    IdleIs(s);
    hide Inv, Sum;
  }

  lemma IdleIs(s: State)
    requires Inv(s)
    ensures s.idle == Sum(s.workers, Idle) && s.max >= 1
  {
    hide Sum, Tasks, Stage, Wakeups, ClientOk, Locks;
  }

  lemma NotSpawned(s: State, w: nat)
    requires Inv(s) && s.client.PushLock? && w < |s.workers|
    ensures !s.workers[w].pc.Spawned?
  {
    hide Sum, Tasks, Stage, Wakeups, ClientOk, Locks;
  }

  // ---------- detached tasks ----------

  /** Given up by the client: to be freed when its execution ends, or freed. */
  predicate GivenUp(s: State, t: nat) {
    t in s.tasks && (s.tasks[t].freed > 0 || (s.tasks[t].detached && !s.tasks[t].place.Nowhere?))
  }

  lemma StaysGivenUp(s: State, a: Action, t: nat)
    requires Inv(s) && Enabled(s, a) && GivenUp(s, t)
    ensures GivenUp(Do(s, a), t)
  {
    hide Inv, Do, Enabled, Goes;
    LifeOfTask(s, a, t);
    GoesGivenUp(StatusOf(s.tasks[t]), StatusOf(Do(s, a).tasks[t]));
  }

  lemma GoesGivenUp(a: Status, b: Status)
    requires Goes(a, b) && (a.Freed? || a.DetachedInList? || a.DetachedWithWorker?)
    ensures b.Freed? || b.DetachedInList? || b.DetachedWithWorker?
  {
  }

  /** The client's `thread_task_detach` answers. */
  predicate Detaches(s: State, a: Action, t: nat)
    requires Enabled(s, a)
  {
    !s.client.Ready? && Do(s, a).client == Ready(Response.Detached(t))
  }

  lemma DetachGivesUp(s: State, a: Action, t: nat)
    requires Inv(s) && Enabled(s, a) && Detaches(s, a, t)
    ensures GivenUp(Do(s, a), t)
  {
    hide Locks, Threads, Counts, Wakeups, Tasks, Sum, Queue, Stage;
    DetachIsGo(s, a, t);
    TaskFacts(s, t);
  }

  lemma DetachIsGo(s: State, a: Action, t: nat)
    requires Enabled(s, a) && Detaches(s, a, t) && ClientOk(s.client, s.tasks)
    ensures a.Go? && t in s.tasks && (s.client == DetachUnlock(t, false) || s.client == DetachDelete(t))
  {
    hide DoWork, MayWork;
    if a.Work? {
      WorkAnswersNothing(s, a.w, a.v);
    }
  }

  /** A worker's step answers no call. */
  lemma WorkAnswersNothing(s: State, w: nat, v: int)
    requires MayWork(s, w)
    ensures DoWork(s, w, v).client == s.client || !DoWork(s, w, v).client.Ready?
  {
  }

  lemma {:induction false} GivenUpForGood(path: seq<State>, acts: seq<Action>, t: nat, k: nat, n: nat)
    requires IsRun(path, acts) && Inv(path[0]) && k < n <= |acts| && Detaches(path[k], acts[k], t)
    ensures GivenUp(path[n], t)
    decreases n
  {
    hide Inv, Do, Enabled, Detaches, GivenUp;
    InvOfRun(path, acts, n - 1);
    if n == k + 1 {
      DetachGivesUp(path[k], acts[k], t);
    } else {
      GivenUpForGood(path, acts, t, k, n - 1);
      StaysGivenUp(path[n - 1], acts[n - 1], t);
    }
  }

  // ---------- shutdown ----------

  /** A worker leaves only when the delete waits for it, and the ones before it are gone. */
  lemma LeavesInTurn(s: State, w: nat, v: int)
    requires Inv(s) && MayWork(s, w) && !s.workers[w].pc.Leaving? && DoWork(s, w, v).workers[w].pc.Leaving?
    ensures s.client == DelUnlock(w) || s.client == DelJoin(w)
    ensures forall x :: 0 <= x < w ==> s.workers[x].pc.Gone?
    ensures forall x :: w < x < |s.workers| ==> Resting(s.workers[x].pc)
  {
    hide Sum, Tasks, Wakeups, Queue, Counts, ClientOk;
  }

  /** The worker the delete waits for is awake: nothing it waits for can be missed. */
  lemma LeaverIsAwake(s: State)
    requires Inv(s) && s.client.DelJoin?
    ensures var i := s.client.i;
            && i < |s.workers| && s.threads[i] == i && !s.workers[i].pc.Waiting?
            && (s.workers[i].pc.Gone? || s.workers[i].pc.Check? || s.workers[i].pc.Woken? || s.workers[i].pc.Leaving?)
  {
    hide Sum, Tasks, Wakeups, Queue, Counts, ClientOk;
  }

  /** Nothing reaches a freed pool: every worker is gone and the client is not in a call on it. */
  lemma FreedPoolIsAlone(s: State)
    requires Inv(s) && s.freed
    ensures s.pending == [] && Outside(s.client) && s.owner.Free?
    ensures forall w :: 0 <= w < |s.workers| ==> s.workers[w].pc.Gone? && !MayWork(s, w)
    ensures forall t :: t in s.tasks ==> s.tasks[t].place.Nowhere?
  {
    hide Sum, Wakeups, Queue, Counts, ClientOk, Threads;
    forall t | t in s.tasks ensures s.tasks[t].place.Nowhere? {
      assert TaskOk(t, s.tasks[t], s.pending, s.workers, ClientTask(s.client));
    }
    assert s.owner.Client? <==> ClientHoldsPool(s.client);
  }
}
