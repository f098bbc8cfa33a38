/**
 The thread pool of homework-04/thread_pool.c as a state machine: one client, any number of workers, and a program
 counter for each at every lock, wait and unlock. An action is what one thread does up to its next such point.
 A condition variable may wake anybody any time, and a signal wakes at least one thread that waits.
 */
module ThreadPool {
  const MAX_THREADS := 20
  const MAX_TASKS := 100000

  datatype Owner = Free | Client | Worker(w: nat)

  /** Where `_thread_worker` stands. */
  datatype WorkerPc =
    | Spawned                      // before its first lock
    | Check                        // at the head of the wait loop, holding the pool
    | Waiting                      // asleep on the pool's `cv`
    | Woken                        // woken, about to lock the pool again
    | Leaving                      // told to exit, holding the pool
    | Gone
    | Taken(t: nat)                // took `t`, holding the pool
    | Starting(t: nat)
    | Executing(t: nat)
    | Executed(t: nat, v: int)     // about to lock the pool
    | Locked(t: nat, v: int)       // holding the pool, about to lock the task
    | Published(t: nat)            // holding both

  datatype Thread = Thread(idx: int, pc: WorkerPc)

  /** Which of the joins, and for the timed one with a timeout that is not zero. */
  datatype Join = Forever | Now | Timed

  datatype Response =
    | Nothing | Created(t: nat) | Pushed(t: nat) | TooMany(t: nat) | NotPushed(t: nat) | Joined(t: nat, v: int)
    | TimedOut(t: nat) | Detached(t: nat) | Deleted(t: nat) | InPool(t: nat) | HasTasks | PoolDeleted

  /** Where the client stands. */
  datatype ClientPc =
    | Ready(r: Response)
    | PushLock(t: nat)
    | PushFull(t: nat)                             // holding the pool
    | PushCheck(t: nat, required: int)             // at the head of the spawn wait, holding the pool
    | PushWait(t: nat, required: int)              // asleep on `spawn_cv`
    | PushWoken(t: nat, required: int)
    | PushUnlock(t: nat)                           // holding the pool
    | JoinLock(t: nat, kind: Join)
    | JoinCheck(t: nat, kind: Join, late: bool)    // at the head of the wait loop, holding the task
    | JoinWait(t: nat, kind: Join)                 // asleep on the task's `cv`
    | JoinWoken(t: nat, kind: Join, late: bool)
    | JoinUnlock(t: nat, r: Response)              // holding the task
    | DetachLock(t: nat)
    | DetachUnlock(t: nat, done: bool)             // holding the task
    | DetachDelete(t: nat)
    | DelLock
    | DelFail                                      // holding the pool
    | DelUnlock(i: nat)                            // holding the pool
    | DelJoin(i: nat)
    | DelRelock(i: nat)
    | DelLast                                      // holding the pool
    | DelDestroy

  /** Where a task is: in the pending list, with a worker, or neither. */
  datatype Place = Nowhere | Queued | Held(w: nat)

  /** `freed`, `place`, `pushes`, `starts` and `outcomes` record what happened to the task. */
  datatype Task = Task(
    inPool: bool, detached: bool, running: bool, finished: bool, result: int, owner: Owner,
    freed: nat, place: Place, pushes: nat, starts: nat, outcomes: seq<int>)

  const NEW_TASK := Task(false, false, false, false, 0, Free, 0, Nowhere, 0, 0, [])

  datatype State = State(
    max: int, threadCount: int, idle: int, exitIdx: int, pendingCount: int, running: int,
    pending: seq<nat>, threads: seq<nat>, owner: Owner, freed: bool,
    workers: seq<Thread>, tasks: map<nat, Task>, client: ClientPc)

  datatype Request =
    | NewTask(t: nat) | Push(t: nat) | JoinTask(t: nat, kind: Join) | Detach(t: nat) | DeleteTask(t: nat) | DeletePool

  datatype Action =
    | Call(req: Request)
    | Go(wake: set<nat>)       // the client's next step; a signal in it wakes the workers `wake`
    | TimeOut                  // the client's timed wait runs out
    | WakeClient               // the client's wait returns for no reason
    | Work(w: nat, v: int)     // worker `w`'s next step; a task function in it returns `v`
    | WakeWorker(w: nat)       // worker `w`'s wait returns for no reason

  datatype NewPool = Invalid | NewPool(s: State)

  /** `thread_pool_new` */
  function Create(max: int): NewPool {
    if max < 1 || max > MAX_THREADS then Invalid
    else NewPool(State(max, 0, 0, -1, 0, 0, [], [], Free, false, [], map[], Ready(Nothing)))
  }

  // ---------- signals ----------

  predicate Sleeps(s: State, w: nat) {
    w < |s.workers| && s.workers[w].pc.Waiting?
  }

  function Awake(th: Thread): Thread {
    if th.pc.Waiting? then th.(pc := Woken) else th
  }

  /** The workers after the threads in `wake` were woken. */
  function Wake(ws: seq<Thread>, wake: set<nat>): (r: seq<Thread>)
    ensures |r| == |ws|
  {
    seq(|ws|, i requires 0 <= i < |ws| => if i in wake then Awake(ws[i]) else ws[i])
  }

  /** A signal wakes somebody if anybody waits. */
  predicate Signal(s: State, wake: set<nat>) {
    (forall w :: w in wake ==> Sleeps(s, w)) && (wake == {} ==> forall w :: 0 <= w < |s.workers| ==> !Sleeps(s, w))
  }

  predicate Broadcast(s: State, wake: set<nat>) {
    (forall w :: w in wake ==> Sleeps(s, w)) && forall w :: 0 <= w < |s.workers| && Sleeps(s, w) ==> w in wake
  }

  // ---------- the client ----------

  /** A task the client may still name. */
  predicate Usable(s: State, t: nat) {
    t in s.tasks && s.tasks[t].freed == 0 && !s.tasks[t].detached
  }

  /** What callers must respect: live handles only, and no push of a task that is in a pool. */
  predicate MayCall(s: State, req: Request) {
    s.client.Ready? &&
    match req
    case NewTask(t) => t !in s.tasks
    case Push(t) => Usable(s, t) && !s.tasks[t].inPool && !s.freed
    case JoinTask(t, _) => Usable(s, t)
    case Detach(t) => Usable(s, t)
    case DeleteTask(t) => Usable(s, t)
    case DeletePool => !s.freed
  }

  /** A call up to its first lock. */
  function DoCall(s: State, req: Request): State
    requires MayCall(s, req)
  {
    match req
    case NewTask(t) => s.(tasks := s.tasks[t := NEW_TASK], client := Ready(Created(t)))
    case Push(t) => s.(client := PushLock(t))
    case JoinTask(t, kind) => s.(client := if s.tasks[t].inPool then JoinLock(t, kind) else Ready(NotPushed(t)))
    case Detach(t) => s.(client := if s.tasks[t].inPool then DetachLock(t) else Ready(NotPushed(t)))
    case DeleteTask(t) =>
      if s.tasks[t].inPool then s.(client := Ready(InPool(t)))
      else FreeTask(s, t).(client := Ready(Deleted(t)))
    case DeletePool => s.(client := DelLock)
  }

  function FreeTask(s: State, t: nat): State
    requires t in s.tasks
  {
    s.(tasks := s.tasks[t := s.tasks[t].(freed := s.tasks[t].freed + 1)])
  }

  /** `thread_pool_push_task` from its lock to its wait loop. That `thread_count` is an index of the array is an
      invariant. */
  function PushBegin(s: State, t: nat): State {
    var l := s.(owner := Client);
    if s.pendingCount >= MAX_TASKS then l.(client := PushFull(t))
    else if s.threads == [] then
      l.(threads := [|s.workers|], workers := s.workers + [Thread(0, Spawned)], client := PushCheck(t, 1))
    else if s.idle == 0 && s.threadCount < s.max && 0 <= s.threadCount <= |s.threads| then
      l.(threads := s.threads[..s.threadCount] + [|s.workers|], workers := s.workers + [Thread(s.threadCount, Spawned)],
         client := PushCheck(t, s.threadCount + 1))
    else l.(client := PushCheck(t, s.threadCount))
  }

  function Enqueued(task: Task): Task {
    task.(inPool := true, finished := false, running := false, place := Queued, pushes := task.pushes + 1)
  }

  /** ... and past it: the task goes first in the list. */
  function PushEnd(s: State, t: nat, wake: set<nat>): State
    requires t in s.tasks
  {
    s.(tasks := s.tasks[t := Enqueued(s.tasks[t])],
       pending := [t] + s.pending, pendingCount := s.pendingCount + 1,
       workers := Wake(s.workers, wake), client := PushUnlock(t))
  }

  function SetOwner(s: State, t: nat, o: Owner): State
    requires t in s.tasks
  {
    s.(tasks := s.tasks[t := s.tasks[t].(owner := o)])
  }

  /** The wait loop of a join and what follows it. */
  function JoinTurn(s: State, t: nat, kind: Join, late: bool): State
    requires t in s.tasks
  {
    var task := s.tasks[t];
    if !task.finished && kind.Now? then s.(client := JoinUnlock(t, TimedOut(t)))
    else if !task.finished && !late then SetOwner(s, t, Free).(client := JoinWait(t, kind))
    else if late then s.(client := JoinUnlock(t, TimedOut(t)))
    else s.(tasks := s.tasks[t := task.(inPool := false)], client := JoinUnlock(t, Joined(t, task.result)))
  }

  function DetachBegin(s: State, t: nat): State
    requires t in s.tasks
  {
    var task := s.tasks[t].(owner := Client, inPool := false);
    s.(tasks := s.tasks[t := task.(detached := task.detached || !task.finished)],
       client := DetachUnlock(t, task.finished))
  }

  /** The exit loop of `thread_pool_delete` at `i`. */
  function DelTurn(s: State, i: nat, wake: set<nat>): State {
    if i < s.threadCount then s.(exitIdx := i, workers := Wake(s.workers, wake), client := DelUnlock(i))
    else s.(threads := [], client := DelLast)
  }

  function DelBegin(s: State, wake: set<nat>): State {
    if s.running > 0 || s.pendingCount > 0 || s.idle != s.threadCount then s.(client := DelFail)
    else if s.threads != [] then DelTurn(s, 0, wake)
    else s.(client := DelLast)
  }

  /** The client is past its call's beginning and not asleep, nobody holds the lock it wants, and `wake` suits its
      signal. */
  predicate MayGo(s: State, wake: set<nat>) {
    match s.client
    case Ready(_) => false
    case PushLock(_) => s.owner.Free? && wake == {}
    case PushFull(_) => wake == {}
    case PushCheck(t, required) => t in s.tasks && if s.threadCount != required then wake == {} else Signal(s, wake)
    case PushWait(_, _) => false
    case PushWoken(_, _) => s.owner.Free? && wake == {}
    case PushUnlock(_) => wake == {}
    case JoinLock(t, _) => t in s.tasks && s.tasks[t].owner.Free? && wake == {}
    case JoinCheck(t, _, _) => t in s.tasks && wake == {}
    case JoinWait(_, _) => false
    case JoinWoken(t, _, _) => t in s.tasks && s.tasks[t].owner.Free? && wake == {}
    case JoinUnlock(t, _) => t in s.tasks && wake == {}
    case DetachLock(t) => t in s.tasks && s.tasks[t].owner.Free? && wake == {}
    case DetachUnlock(t, _) => t in s.tasks && wake == {}
    case DetachDelete(t) => t in s.tasks && wake == {}
    case DelLock => s.owner.Free? && Broadcast(s, wake)
    case DelFail => wake == {}
    case DelUnlock(_) => wake == {}
    case DelJoin(i) => i < |s.threads| && s.threads[i] < |s.workers| && s.workers[s.threads[i]].pc.Gone? && wake == {}
    case DelRelock(_) => s.owner.Free? && Broadcast(s, wake)
    case DelLast => wake == {}
    case DelDestroy => wake == {}
  }

  function DoGo(s: State, wake: set<nat>): State
    requires MayGo(s, wake)
  {
    match s.client
    case PushLock(t) => PushBegin(s, t)
    case PushFull(t) => s.(owner := Free, client := Ready(TooMany(t)))
    case PushCheck(t, required) =>
      if s.threadCount != required then s.(owner := Free, client := PushWait(t, required)) else PushEnd(s, t, wake)
    case PushWoken(t, required) => s.(owner := Client, client := PushCheck(t, required))
    case PushUnlock(t) => s.(owner := Free, client := Ready(Pushed(t)))
    case JoinLock(t, kind) => SetOwner(s, t, Client).(client := JoinCheck(t, kind, false))
    case JoinCheck(t, kind, late) => JoinTurn(s, t, kind, late)
    case JoinWoken(t, kind, late) => SetOwner(s, t, Client).(client := JoinCheck(t, kind, late))
    case JoinUnlock(t, r) => SetOwner(s, t, Free).(client := Ready(r))
    case DetachLock(t) => DetachBegin(s, t)
    case DetachUnlock(t, done) => SetOwner(s, t, Free).(client := if done then DetachDelete(t) else Ready(Detached(t)))
    case DetachDelete(t) => (if s.tasks[t].inPool then s else FreeTask(s, t)).(client := Ready(Detached(t)))
    case DelLock => DelBegin(s.(owner := Client), wake)
    case DelFail => s.(owner := Free, client := Ready(HasTasks))
    case DelUnlock(i) => s.(owner := Free, client := DelJoin(i))
    case DelJoin(i) => s.(client := DelRelock(i))
    case DelRelock(i) => DelTurn(s.(owner := Client), i + 1, wake)
    case DelLast => s.(owner := Free, client := DelDestroy)
    case DelDestroy => s.(freed := true, client := Ready(PoolDeleted))
  }

  // ---------- the workers ----------

  predicate MayWork(s: State, w: nat) {
    w < |s.workers| &&
    match s.workers[w].pc
    case Spawned => s.owner.Free?
    case Check => s.pendingCount < 1 || s.exitIdx == s.workers[w].idx || (s.pending != [] && s.pending[0] in s.tasks)
    case Waiting => false
    case Woken => s.owner.Free?
    case Leaving => true
    case Gone => false
    case Taken(_) => true
    case Starting(t) => t in s.tasks
    case Executing(t) => t in s.tasks
    case Executed(_, _) => s.owner.Free?
    case Locked(t, _) => t in s.tasks && s.tasks[t].owner.Free?
    case Published(t) => t in s.tasks
  }

  function SetPc(s: State, w: nat, pc: WorkerPc): State
    requires w < |s.workers|
  {
    s.(workers := s.workers[w := s.workers[w].(pc := pc)])
  }

  /** The client, if it sleeps on `spawn_cv`, is woken. */
  function SignalSpawn(c: ClientPc): ClientPc {
    if c.PushWait? then PushWoken(c.t, c.required) else c
  }

  /** The client, if it sleeps on `t`'s `cv`, is woken. */
  function SignalTask(c: ClientPc, t: nat): ClientPc {
    if c.JoinWait? && c.t == t then JoinWoken(t, c.kind, false) else c
  }

  /** The wait loop of a worker and what follows it. */
  function WorkerTurn(s: State, w: nat): State
    requires MayWork(s, w) && s.workers[w].pc.Check?
  {
    if s.pendingCount < 1 && s.exitIdx != s.workers[w].idx then SetPc(s, w, Waiting).(owner := Free)
    else if s.exitIdx == s.workers[w].idx then SetPc(s, w, Leaving)
    else
      var t := s.pending[0];
      SetPc(s, w, Taken(t)).(
        pending := s.pending[1..], idle := s.idle - 1, pendingCount := s.pendingCount - 1, running := s.running + 1,
        tasks := s.tasks[t := s.tasks[t].(place := Held(w))])
  }

  /** The end of an execution. A detached task is deleted last, its mutex being released before. */
  function Publish(s: State, w: nat, t: nat, v: int): State
    requires w < |s.workers| && t in s.tasks
  {
    var task := s.tasks[t].(place := Nowhere);
    var l := s.(running := s.running - 1);
    if task.detached then
      if task.inPool then SetPc(l, w, Check).(idle := s.idle + 1, tasks := s.tasks[t := task])
      else SetPc(l, w, Check).(idle := s.idle + 1, tasks := s.tasks[t := task.(freed := task.freed + 1)])
    else
      SetPc(l, w, Published(t)).(
        tasks := s.tasks[t := task.(owner := Worker(w), running := false, finished := true, result := v)],
        client := SignalTask(s.client, t))
  }

  function DoWork(s: State, w: nat, v: int): State
    requires MayWork(s, w)
  {
    match s.workers[w].pc
    case Spawned =>
      SetPc(s, w, Check).(
        owner := Worker(w), threadCount := s.threadCount + 1, idle := s.idle + 1, client := SignalSpawn(s.client))
    case Check => WorkerTurn(s, w)
    case Woken => SetPc(s, w, Check).(owner := Worker(w))
    case Leaving => SetPc(s, w, Gone).(owner := Free)
    case Taken(t) => SetPc(s, w, Starting(t)).(owner := Free)
    case Starting(t) =>
      SetPc(s, w, Executing(t)).(tasks := s.tasks[t := s.tasks[t].(running := true, starts := s.tasks[t].starts + 1)])
    case Executing(t) =>
      SetPc(s, w, Executed(t, v)).(tasks := s.tasks[t := s.tasks[t].(outcomes := s.tasks[t].outcomes + [v])])
    case Executed(t, v) => SetPc(s, w, Locked(t, v)).(owner := Worker(w))
    case Locked(t, v) => Publish(s, w, t, v)
    case Published(t) => SetPc(SetOwner(s, t, Free), w, Check).(idle := s.idle + 1)
  }

  // ---------- actions and runs ----------

  predicate Enabled(s: State, a: Action) {
    match a
    case Call(req) => MayCall(s, req)
    case Go(wake) => MayGo(s, wake)
    case TimeOut => s.client.JoinWait? && s.client.kind.Timed?
    case WakeClient => s.client.JoinWait? || s.client.PushWait?
    case Work(w, _) => MayWork(s, w)
    case WakeWorker(w) => Sleeps(s, w)
  }

  function Do(s: State, a: Action): State
    requires Enabled(s, a)
  {
    match a
    case Call(req) => DoCall(s, req)
    case Go(wake) => DoGo(s, wake)
    case TimeOut => s.(client := JoinWoken(s.client.t, s.client.kind, true))
    case WakeClient =>
      if s.client.JoinWait? then s.(client := JoinWoken(s.client.t, s.client.kind, false))
      else s.(client := PushWoken(s.client.t, s.client.required))
    case Work(w, v) => DoWork(s, w, v)
    case WakeWorker(w) => s.(workers := Wake(s.workers, {w}))
  }

  /** `path` is a run by `acts`: each action is enabled where it is taken. */
  predicate IsRun(path: seq<State>, acts: seq<Action>) {
    |path| == |acts| + 1 && forall i :: 0 <= i < |acts| ==>
         Enabled(path[i], acts[i]) && path[i + 1] == Do(path[i], acts[i])
  }
}
