/**
 What every action of the thread pool keeps, in any interleaving.
 */
module ThreadPoolInvariant {
  import opened Common
  import opened ThreadPool

  // ---------- counting workers ----------

  datatype Kind = Idle | Busy | Waits | Comes | Effort | Carries

  /** What a worker adds to a count; `Effort` bounds its steps until it sleeps, `Carries` those with its task. */
  function Value(pc: WorkerPc, k: Kind): nat {
    match k
    case Idle => if pc.Check? || pc.Waiting? || pc.Woken? || pc.Leaving? || pc.Gone? then 1 else 0
    case Busy => if HasTask(pc) then 1 else 0
    case Waits => if pc.Waiting? then 1 else 0
    case Comes => if pc.Woken? || pc.Check? then 1 else 0
    case Effort =>
      (match pc
      case Waiting => 0
      case Gone => 0
      case Leaving => 1
      case Check => 2
      case Woken => 3
      case Published(_) => 3
      case Spawned => 5
      case Locked(_, _) => 6
      case Executed(_, _) => 7
      case Executing(_) => 8
      case Starting(_) => 9
      case Taken(_) => 10)
    case Carries =>
      match pc
      case Taken(_) => 10
      case Starting(_) => 9
      case Executing(_) => 8
      case Executed(_, _) => 7
      case Locked(_, _) => 6
      case Published(_) => 5
      case _ => 0
  }

  function Sum(ws: seq<Thread>, k: Kind): nat {
    if ws == [] then 0 else Value(ws[0].pc, k) + Sum(ws[1..], k)
  }

  lemma {:induction false} SumSet(ws: seq<Thread>, w: nat, th: Thread, k: Kind)
    requires w < |ws|
    ensures Sum(ws[w := th], k) == Sum(ws, k) - Value(ws[w].pc, k) + Value(th.pc, k)
  {
    if w > 0 {
      SumSet(ws[1..], w - 1, th, k);
      assert ws[w := th][1..] == ws[1..][w - 1 := th];
    }
  }

  lemma {:induction false} SumAdd(ws: seq<Thread>, th: Thread, k: Kind)
    ensures Sum(ws + [th], k) == Sum(ws, k) + Value(th.pc, k)
  {
    if ws != [] {
      SumAdd(ws[1..], th, k);
      assert (ws + [th])[1..] == ws[1..] + [th];
    }
  }

  lemma {:induction false} SumNone(ws: seq<Thread>, k: Kind)
    requires forall w :: 0 <= w < |ws| ==> Value(ws[w].pc, k) == 0
    ensures Sum(ws, k) == 0
  {
    if ws != [] {
      SumNone(ws[1..], k);
    }
  }

  /** All idle when as many are idle as there are. */
  lemma {:induction false} SumAll(ws: seq<Thread>, w: nat)
    requires w < |ws|
    ensures Sum(ws, Idle) <= |ws|
    ensures Value(ws[w].pc, Idle) == 0 ==> Sum(ws, Idle) < |ws|
  {
    if |ws| > 1 {
      SumAll(ws[1..], if w > 0 then w - 1 else 0);
    }
  }

  function Before(wake: set<nat>): set<nat> {
    set w | w in wake && w > 0 :: w - 1
  }

  lemma WakeRest(ws: seq<Thread>, wake: set<nat>)
    requires ws != []
    ensures Wake(ws, wake)[1..] == Wake(ws[1..], Before(wake))
    ensures Wake(ws, wake)[0] == if 0 in wake then Awake(ws[0]) else ws[0]
    ensures forall w :: w in wake && w > 0 ==> w - 1 in Before(wake)
  {
    forall i | 0 <= i < |ws| - 1 ensures i in Before(wake) <==> i + 1 in wake {
      assert i + 1 in wake ==> (i + 1) - 1 in Before(wake);
    }
  }

  lemma AwakeValues(th: Thread)
    ensures var pc, pc' := th.pc, Awake(th).pc;
            && Value(pc', Idle) == Value(pc, Idle) && Value(pc', Busy) == Value(pc, Busy) && Value(pc', Waits) == 0
            && Value(pc', Comes) == Value(pc, Waits) + Value(pc, Comes)
            && Value(pc', Effort) == Value(pc, Effort) + 3 * Value(pc, Waits)
    ensures Value(th.pc, Waits) == if th.pc.Waiting? then 1 else 0
  {
  }

  /** Waking moves sleepers to the woken. */
  lemma {:induction false} SumWake(ws: seq<Thread>, wake: set<nat>)
    ensures var r := Wake(ws, wake);
            && Sum(r, Idle) == Sum(ws, Idle) && Sum(r, Busy) == Sum(ws, Busy)
            && Sum(r, Waits) <= Sum(ws, Waits)
            && Sum(r, Waits) + Sum(r, Comes) == Sum(ws, Waits) + Sum(ws, Comes)
            && Sum(r, Effort) + 3 * Sum(r, Waits) == Sum(ws, Effort) + 3 * Sum(ws, Waits)
            && Sum(ws, Waits) <= |ws|
  {
    if ws != [] {
      WakeRest(ws, wake);
      AwakeValues(ws[0]);
      hide Wake, Value, Awake;
      SumWake(ws[1..], Before(wake));
    }
  }

  /** ... and fewer sleep if a sleeper is woken. */
  lemma {:induction false} SumWakeLess(ws: seq<Thread>, wake: set<nat>, w: nat)
    requires w in wake && w < |ws| && ws[w].pc.Waiting?
    ensures Sum(Wake(ws, wake), Waits) < Sum(ws, Waits)
  {
    WakeRest(ws, wake);
    AwakeValues(ws[0]);
    hide Wake, Value, Awake;
    if w > 0 {
      SumWakeLess(ws[1..], Before(wake), w - 1);
    } else {
      SumWake(ws[1..], Before(wake));
    }
  }

  // ---------- the invariant ----------

  predicate HasTask(pc: WorkerPc) {
    pc.Taken? || pc.Starting? || pc.Executing? || pc.Executed? || pc.Locked?
  }

  predicate HoldsPool(pc: WorkerPc) {
    pc.Check? || pc.Leaving? || pc.Taken? || pc.Locked? || pc.Published?
  }

  predicate ClientHoldsPool(c: ClientPc) {
    c.PushFull? || c.PushCheck? || c.PushUnlock? || c.DelFail? || c.DelUnlock? || c.DelLast?
  }

  /** The task whose mutex the client holds. */
  function ClientTask(c: ClientPc): Option<nat> {
    if c.JoinCheck? || c.JoinUnlock? || c.DetachUnlock? then Some(c.t) else None
  }

  /** The wait for a new worker. */
  datatype Spawn = NoSpawn | Wants(required: int) | Asleep(required: int)

  function SpawnOf(c: ClientPc): Spawn {
    if c.PushCheck? || c.PushWoken? then Wants(c.required) else if c.PushWait? then Asleep(c.required) else NoSpawn
  }

  /** How far the shutdown is: the pool serves, worker `i` is told to leave, has left, or all have. */
  datatype Phase = Serving | Stopping(i: nat) | Left(i: nat) | Over

  function PhaseOf(c: ClientPc, freed: bool): Phase {
    if freed || c.DelLast? || c.DelDestroy? then Over
    else if c.DelUnlock? || c.DelJoin? then Stopping(c.i)
    else if c.DelRelock? then Left(c.i)
    else Serving
  }

  /** A client that is not in a call on the pool. */
  predicate Outside(c: ClientPc) {
    || c.Ready? || c.JoinLock? || c.JoinCheck? || c.JoinWait? || c.JoinWoken? || c.JoinUnlock?
    || c.DetachLock? || c.DetachUnlock? || c.DetachDelete?
  }

  /** The pool's mutex says who holds it. */
  predicate Locks(owner: Owner, client: bool, ws: seq<Thread>) {
    && (owner.Client? <==> client)
    && (owner.Worker? ==> owner.w < |ws|)
    && (forall w :: 0 <= w < |ws| ==> (HoldsPool(ws[w].pc) <==> owner == Worker(w)))
  }

  predicate LastSpawned(ws: seq<Thread>) {
    ws != [] && ws[|ws| - 1].pc.Spawned?
  }

  function Upto(n: nat): seq<nat> {
    seq(n, i => i)
  }

  /** Workers are numbered in order, and only the newest may not have started, while its push waits for it. */
  predicate Threads(max: int, threadCount: int, threads: seq<nat>, spawn: Spawn, over: bool, ws: seq<Thread>) {
    && 1 <= max <= MAX_THREADS && |ws| <= max
    && (forall w :: 0 <= w < |ws| ==> ws[w].idx == w && (ws[w].pc.Spawned? ==> w == |ws| - 1))
    && threadCount == |ws| - (if LastSpawned(ws) then 1 else 0)
    && (if spawn.NoSpawn? then !LastSpawned(ws) else spawn.required == |ws| > 0)
    && (spawn.Asleep? ==> LastSpawned(ws))
    && threads == if over then [] else Upto(|ws|)
  }

  predicate Counts(idle: int, running: int, ws: seq<Thread>) {
    idle == Sum(ws, Idle) && running == Sum(ws, Busy)
  }

  predicate Queue(count: int, pending: seq<nat>, spawning: bool, some: bool) {
    count == |pending| <= MAX_TASKS && (spawning ==> count < MAX_TASKS) && (pending != [] ==> some)
  }

  predicate Resting(pc: WorkerPc) {
    pc.Check? || pc.Waiting? || pc.Woken?
  }

  /** Workers leave one at a time, in order, and only in a shutdown. */
  predicate Stage(phase: Phase, exitIdx: int, pending: seq<nat>, ws: seq<Thread>) {
    match phase
    case Serving => exitIdx == -1 && forall w :: 0 <= w < |ws| ==> !ws[w].pc.Leaving? && !ws[w].pc.Gone?
    case Over => pending == [] && forall w :: 0 <= w < |ws| ==> ws[w].pc.Gone?
    case Stopping(i) =>
      Stops(i, exitIdx, pending, ws) && (ws[i].pc.Check? || ws[i].pc.Woken? || ws[i].pc.Leaving? || ws[i].pc.Gone?)
    case Left(i) => Stops(i, exitIdx, pending, ws) && ws[i].pc.Gone?
  }

  predicate Stops(i: nat, exitIdx: int, pending: seq<nat>, ws: seq<Thread>) {
    && i < |ws| && exitIdx == i && pending == []
    && (forall w :: 0 <= w < i ==> ws[w].pc.Gone?)
    && (forall w :: i < w < |ws| ==> Resting(ws[w].pc))
  }

  /** No lost wakeup: while anybody sleeps, as many are on their way as there are pending tasks. */
  predicate Wakeups(pending: seq<nat>, ws: seq<Thread>) {
    Sum(ws, Waits) == 0 || Sum(ws, Comes) >= |pending|
  }

  function Last(xs: seq<int>): int
    requires xs != []
  {
    xs[|xs| - 1]
  }

  predicate LastIs(xs: seq<int>, v: int) {
    xs != [] && Last(xs) == v
  }

  /** A task with a worker, by what the worker is doing. */
  predicate HeldOk(task: Task, pc: WorkerPc) {
    && task.freed == 0 && !task.finished && task.inPool != task.detached
    && match pc
       case Taken(_) => !task.running && task.starts == |task.outcomes| == task.pushes - 1
       case Starting(_) => !task.running && task.starts == |task.outcomes| == task.pushes - 1
       case Executing(_) => task.running && task.starts == task.pushes == |task.outcomes| + 1
       case Executed(_, v) => task.running && task.starts == task.pushes == |task.outcomes| && LastIs(task.outcomes, v)
       case Locked(_, v) => task.running && task.starts == task.pushes == |task.outcomes| && LastIs(task.outcomes, v)
       case _ => false
  }

  predicate QueuedOk(task: Task) {
    && task.freed == 0 && !task.finished && !task.running && task.inPool != task.detached
    && task.starts == |task.outcomes| == task.pushes - 1
  }

  /** A task neither pending nor with a worker. */
  predicate RestOk(task: Task) {
    && task.freed <= 1 && task.starts == task.pushes == |task.outcomes|
    && (task.inPool ==> task.finished && task.freed == 0)
    && (task.finished ==> !task.detached && task.outcomes != [] && task.result == Last(task.outcomes))
    && (task.detached ==> task.freed == 1)
    && (task.running ==> task.detached)
    && (!task.finished && !task.detached ==> task.pushes == 0)
  }

  predicate TaskOk(t: nat, task: Task, pending: seq<nat>, ws: seq<Thread>, held: Option<nat>) {
    && (task.owner.Client? <==> held == Some(t))
    && (task.owner.Worker? ==>
          && task.owner.w < |ws| && ws[task.owner.w].pc == Published(t)
          && task.place.Nowhere? && task.freed == 0 && task.inPool)
    && match task.place
       case Nowhere => RestOk(task)
       case Queued => t in pending && QueuedOk(task)
       case Held(w) => w < |ws| && HasTask(ws[w].pc) && ws[w].pc.t == t && HeldOk(task, ws[w].pc)
  }

  predicate WorkerOk(w: nat, pc: WorkerPc, tasks: map<nat, Task>) {
    && (HasTask(pc) ==> pc.t in tasks && tasks[pc.t].place == Held(w))
    && (pc.Published? ==> pc.t in tasks && tasks[pc.t].owner == Worker(w))
  }

  ghost predicate Tasks(pending: seq<nat>, tasks: map<nat, Task>, ws: seq<Thread>, held: Option<nat>) {
    && Distinct(pending)
    && (forall t :: t in pending ==> t in tasks && tasks[t].place.Queued?)
    && (forall t :: t in tasks ==> TaskOk(t, tasks[t], pending, ws, held))
    && (forall w :: 0 <= w < |ws| ==> WorkerOk(w, ws[w].pc, tasks))
  }

  /** What a join is about to answer. */
  predicate JoinAnswer(task: Task, t: nat, r: Response) {
    match r
    case TimedOut(t') => t' == t && task.inPool
    case Joined(t', v) =>
      t' == t && !task.inPool && task.place.Nowhere? && task.outcomes != [] && v == Last(task.outcomes)
    case _ => false
  }

  predicate Live(tasks: map<nat, Task>, t: nat) {
    t in tasks && tasks[t].freed == 0 && !tasks[t].detached
  }

  /** What the client's call knows of its task. */
  predicate ClientOk(c: ClientPc, tasks: map<nat, Task>) {
    match c
    case PushLock(t) => Live(tasks, t) && !tasks[t].inPool
    case PushFull(t) => Live(tasks, t) && !tasks[t].inPool
    case PushCheck(t, _) => Live(tasks, t) && !tasks[t].inPool
    case PushWait(t, _) => Live(tasks, t) && !tasks[t].inPool
    case PushWoken(t, _) => Live(tasks, t) && !tasks[t].inPool
    case PushUnlock(t) => Live(tasks, t) && tasks[t].inPool
    case JoinLock(t, _) => Live(tasks, t) && tasks[t].inPool
    case JoinCheck(t, kind, late) => Live(tasks, t) && tasks[t].inPool && (late ==> kind.Timed?)
    case JoinWait(t, kind) => Live(tasks, t) && tasks[t].inPool && !tasks[t].finished && !kind.Now?
    case JoinWoken(t, kind, late) => Live(tasks, t) && tasks[t].inPool && (late ==> kind.Timed?)
    case JoinUnlock(t, r) => Live(tasks, t) && JoinAnswer(tasks[t], t, r)
    case DetachLock(t) => Live(tasks, t) && tasks[t].inPool
    case DetachUnlock(t, done) =>
      && t in tasks && tasks[t].freed == 0
      && if done then Live(tasks, t) && tasks[t].finished && !tasks[t].inPool else tasks[t].detached
    case DetachDelete(t) => Live(tasks, t) && tasks[t].finished && !tasks[t].inPool
    case _ => true
  }

  ghost predicate Inv(s: State) {
    && Locks(s.owner, ClientHoldsPool(s.client), s.workers)
    && Threads(s.max, s.threadCount, s.threads, SpawnOf(s.client), PhaseOf(s.client, s.freed).Over?, s.workers)
    && Counts(s.idle, s.running, s.workers)
    && Queue(s.pendingCount, s.pending, !SpawnOf(s.client).NoSpawn?, s.workers != [])
    && Stage(PhaseOf(s.client, s.freed), s.exitIdx, s.pending, s.workers)
    && (s.freed ==> Outside(s.client))
    && Wakeups(s.pending, s.workers)
    && Tasks(s.pending, s.tasks, s.workers, ClientTask(s.client))
    && ClientOk(s.client, s.tasks)
  }

  lemma CreateInv(max: int)
    ensures Create(max).NewPool? <==> 1 <= max <= MAX_THREADS
    ensures Create(max).NewPool? ==> Inv(Create(max).s)
  {
  }

  // ---------- one worker moves ----------

  /** Worker `w` goes on to `pc`, taking, keeping or releasing the pool. */
  lemma LocksSet(owner: Owner, client: bool, ws: seq<Thread>, w: nat, pc: WorkerPc, owner': Owner)
    requires Locks(owner, client, ws) && w < |ws|
    requires owner' == if HoldsPool(pc) then Worker(w) else if HoldsPool(ws[w].pc) then Free else owner
    requires HoldsPool(pc) && !HoldsPool(ws[w].pc) ==> owner == Free
    ensures Locks(owner', client, ws[w := ws[w].(pc := pc)])
  {
  }

  lemma OwnerIs(owner: Owner, client: bool, ws: seq<Thread>, w: nat)
    requires Locks(owner, client, ws) && w < |ws| && HoldsPool(ws[w].pc)
    ensures owner == Worker(w)
  {
  }

  lemma ThreadsSet(max: int, threadCount: int, threads: seq<nat>, spawn: Spawn, over: bool, ws: seq<Thread>, w: nat,
      pc: WorkerPc)
    requires Threads(max, threadCount, threads, spawn, over, ws) && w < |ws|
    requires !ws[w].pc.Spawned? && !pc.Spawned?
    ensures Threads(max, threadCount, threads, spawn, over, ws[w := ws[w].(pc := pc)])
  {
  }

  lemma CountsSet(idle: int, running: int, ws: seq<Thread>, w: nat, pc: WorkerPc)
    requires Counts(idle, running, ws) && w < |ws|
    ensures Counts(idle - Value(ws[w].pc, Idle) + Value(pc, Idle), running - Value(ws[w].pc, Busy) + Value(pc, Busy),
                   ws[w := ws[w].(pc := pc)])
  {
    SumSet(ws, w, ws[w].(pc := pc), Idle);
    SumSet(ws, w, ws[w].(pc := pc), Busy);
  }

  lemma WakeupsSet(pending: seq<nat>, ws: seq<Thread>, w: nat, pc: WorkerPc)
    requires Wakeups(pending, ws) && w < |ws|
    requires pending == [] || (Value(pc, Waits) <= Value(ws[w].pc, Waits) && Value(pc, Comes) >= Value(ws[w].pc, Comes))
    ensures Wakeups(pending, ws[w := ws[w].(pc := pc)])
  {
    SumSet(ws, w, ws[w].(pc := pc), Waits);
    SumSet(ws, w, ws[w].(pc := pc), Comes);
  }

  lemma StageSet(phase: Phase, exitIdx: int, pending: seq<nat>, ws: seq<Thread>, w: nat, pc: WorkerPc)
    requires Stage(phase, exitIdx, pending, ws) && w < |ws|
    requires ws[w].pc.Gone? ==> pc.Gone?
    requires phase.Serving? || Resting(pc) || !Resting(ws[w].pc) || pc.Leaving?
    requires pc.Waiting? ==> exitIdx != w
    requires pc.Leaving? ==> exitIdx == w
    requires ws[w].pc.Leaving? || pc.Gone? ==> ws[w].pc.Leaving? && pc.Gone?
    ensures Stage(phase, exitIdx, pending, ws[w := ws[w].(pc := pc)])
  {
  }

  /** The worker had no task and has none. */
  lemma TasksSet(pending: seq<nat>, tasks: map<nat, Task>, ws: seq<Thread>, held: Option<nat>, w: nat, pc: WorkerPc)
    requires Tasks(pending, tasks, ws, held) && w < |ws|
    requires !HasTask(ws[w].pc) && !ws[w].pc.Published? && !HasTask(pc) && !pc.Published?
    ensures Tasks(pending, tasks, ws[w := ws[w].(pc := pc)], held)
  {
    var ws' := ws[w := ws[w].(pc := pc)];
    forall t | t in tasks ensures TaskOk(t, tasks[t], pending, ws', held) {
      assert TaskOk(t, tasks[t], pending, ws, held);
    }
    forall x | 0 <= x < |ws'| ensures WorkerOk(x, ws'[x].pc, tasks) {
      assert WorkerOk(x, ws[x].pc, tasks);
    }
  }

  /** The worker goes on with its task. */
  lemma TasksRun(pending: seq<nat>, tasks: map<nat, Task>, ws: seq<Thread>, held: Option<nat>, w: nat, pc: WorkerPc,
      task: Task)
    requires Tasks(pending, tasks, ws, held) && w < |ws| && HasTask(ws[w].pc) && HasTask(pc) && pc.t == ws[w].pc.t
    requires pc.t in tasks && HeldOk(tasks[pc.t], ws[w].pc) ==> HeldOk(task, pc)
    requires pc.t in tasks ==> task.place == tasks[pc.t].place && task.owner == tasks[pc.t].owner
    ensures pc.t in tasks && tasks[pc.t].place == Held(w) && HeldOk(tasks[pc.t], ws[w].pc)
    ensures Tasks(pending, tasks[pc.t := task], ws[w := ws[w].(pc := pc)], held)
  {
    var ws', t := ws[w := ws[w].(pc := pc)], pc.t;
    assert WorkerOk(w, ws[w].pc, tasks);
    assert TaskOk(t, tasks[t], pending, ws, held);
    var tasks' := tasks[t := task];
    forall x | x in tasks' ensures TaskOk(x, tasks'[x], pending, ws', held) {
      assert TaskOk(x, tasks[x], pending, ws, held);
    }
    forall x | 0 <= x < |ws'| ensures WorkerOk(x, ws'[x].pc, tasks') {
      assert WorkerOk(x, ws[x].pc, tasks);
    }
  }

  /** The worker takes the first pending task. */
  lemma TasksTake(pending: seq<nat>, tasks: map<nat, Task>, ws: seq<Thread>, held: Option<nat>, w: nat)
    requires Tasks(pending, tasks, ws, held) && w < |ws| && ws[w].pc.Check? && pending != []
    ensures pending[0] in tasks && tasks[pending[0]].place.Queued?
    ensures var t := pending[0];
            Tasks(pending[1..], tasks[t := tasks[t].(place := Held(w))], ws[w := ws[w].(pc := Taken(t))], held)
  {
    var t := pending[0];
    var ws', tasks' := ws[w := ws[w].(pc := Taken(t))], tasks[t := tasks[t].(place := Held(w))];
    forall x | x in tasks' ensures TaskOk(x, tasks'[x], pending[1..], ws', held) {
      assert TaskOk(x, tasks[x], pending, ws, held);
    }
    forall x | 0 <= x < |ws'| ensures WorkerOk(x, ws'[x].pc, tasks') {
      assert WorkerOk(x, ws[x].pc, tasks);
    }
  }

  /** The worker leaves its task, published or deleted. */
  lemma TasksLeave(pending: seq<nat>, tasks: map<nat, Task>, ws: seq<Thread>, held: Option<nat>, w: nat, pc: WorkerPc,
      task: Task)
    requires Tasks(pending, tasks, ws, held) && w < |ws| && ws[w].pc.Locked? && held != Some(ws[w].pc.t)
    requires ws[w].pc.t in tasks && HeldOk(tasks[ws[w].pc.t], ws[w].pc) ==> RestOk(task)
    requires task.place.Nowhere?
    requires if pc == Published(ws[w].pc.t) then task.owner == Worker(w) && task.freed == 0 && task.inPool
             else pc == Check && task.owner == Free
    ensures ws[w].pc.t in tasks && tasks[ws[w].pc.t].place == Held(w) && HeldOk(tasks[ws[w].pc.t], ws[w].pc)
    ensures Tasks(pending, tasks[ws[w].pc.t := task], ws[w := ws[w].(pc := pc)], held)
  {
    var ws', t := ws[w := ws[w].(pc := pc)], ws[w].pc.t;
    assert WorkerOk(w, ws[w].pc, tasks);
    assert TaskOk(t, tasks[t], pending, ws, held);
    var tasks' := tasks[t := task];
    forall x | x in tasks' ensures TaskOk(x, tasks'[x], pending, ws', held) {
      assert TaskOk(x, tasks[x], pending, ws, held);
    }
    forall x | 0 <= x < |ws'| ensures WorkerOk(x, ws'[x].pc, tasks') {
      assert WorkerOk(x, ws[x].pc, tasks);
    }
  }

  /** The worker unlocks the task it published. */
  lemma TasksUnlock(pending: seq<nat>, tasks: map<nat, Task>, ws: seq<Thread>, held: Option<nat>, w: nat)
    requires Tasks(pending, tasks, ws, held) && w < |ws| && ws[w].pc.Published?
    ensures ws[w].pc.t in tasks
    ensures Tasks(pending, tasks[ws[w].pc.t := tasks[ws[w].pc.t].(owner := Free)], ws[w := ws[w].(pc := Check)], held)
  {
    var ws', t := ws[w := ws[w].(pc := Check)], ws[w].pc.t;
    assert WorkerOk(w, ws[w].pc, tasks);
    var tasks' := tasks[t := tasks[t].(owner := Free)];
    forall x | x in tasks' ensures TaskOk(x, tasks'[x], pending, ws', held) {
      assert TaskOk(x, tasks[x], pending, ws, held);
    }
    forall x | 0 <= x < |ws'| ensures WorkerOk(x, ws'[x].pc, tasks') {
      assert WorkerOk(x, ws[x].pc, tasks);
    }
  }

  /** The client's call goes on while a worker runs the task `t`. */
  lemma ClientKept(c: ClientPc, tasks: map<nat, Task>, t: nat, task: Task)
    requires ClientOk(c, tasks) && t in tasks && (tasks[t].place.Nowhere? ==> task == tasks[t].(owner := task.owner))
    requires task.freed == tasks[t].freed && task.detached == tasks[t].detached
    requires task.inPool == tasks[t].inPool && task.finished == tasks[t].finished
    ensures ClientOk(c, tasks[t := task])
  {
  }

  // ---------- the workers' steps ----------

  /** A worker starts: the count of threads is complete again. */
  lemma ThreadsStart(max: int, threadCount: int, threads: seq<nat>, spawn: Spawn, over: bool, ws: seq<Thread>, w: nat)
    requires Threads(max, threadCount, threads, spawn, over, ws) && w < |ws| && ws[w].pc.Spawned?
    ensures !spawn.NoSpawn?
    ensures Threads(max, threadCount + 1, threads, Wants(spawn.required), over, ws[w := ws[w].(pc := Check)])
  {
  }

  lemma WorkStart(s: State, w: nat, v: int)
    requires Inv(s) && MayWork(s, w) && s.workers[w].pc.Spawned?
    ensures Inv(DoWork(s, w, v))
  {
    hide Locks, Counts, Stage, Wakeups, Tasks, Sum, Queue, Threads;
    var ws, c := s.workers, s.client;
    ThreadsStart(s.max, s.threadCount, s.threads, SpawnOf(c), PhaseOf(c, s.freed).Over?, ws, w);
    LocksSet(s.owner, ClientHoldsPool(c), ws, w, Check, Worker(w));
    CountsSet(s.idle, s.running, ws, w, Check);
    WakeupsSet(s.pending, ws, w, Check);
    StageSet(PhaseOf(c, s.freed), s.exitIdx, s.pending, ws, w, Check);
    TasksSet(s.pending, s.tasks, ws, ClientTask(c), w, Check);
  }

  /** Worker `w`, once started, goes on to `pc`: what does not depend on its task. */
  lemma MoveParts(s: State, w: nat, pc: WorkerPc, owner: Owner)
    requires Inv(s) && w < |s.workers| && !s.workers[w].pc.Spawned? && !pc.Spawned?
    requires owner == if HoldsPool(pc) then Worker(w) else if HoldsPool(s.workers[w].pc) then Free else s.owner
    requires HoldsPool(pc) && !HoldsPool(s.workers[w].pc) ==> s.owner == Free
    requires PhaseOf(s.client, s.freed).Serving? || Resting(pc) || !Resting(s.workers[w].pc) || pc.Leaving?
    requires s.workers[w].pc.Gone? ==> pc.Gone?
    requires (pc.Waiting? ==> s.exitIdx != w) && (pc.Leaving? ==> s.exitIdx == w)
    requires s.workers[w].pc.Leaving? || pc.Gone? ==> s.workers[w].pc.Leaving? && pc.Gone?
    requires s.pending == [] || (!pc.Waiting? && Value(pc, Comes) >= Value(s.workers[w].pc, Comes))
    ensures var ws, c := s.workers, s.client;
            var ws' := ws[w := ws[w].(pc := pc)];
            && Locks(owner, ClientHoldsPool(c), ws')
            && Threads(s.max, s.threadCount, s.threads, SpawnOf(c), PhaseOf(c, s.freed).Over?, ws')
            && Counts(s.idle - Value(ws[w].pc, Idle) + Value(pc, Idle),
                      s.running - Value(ws[w].pc, Busy) + Value(pc, Busy), ws')
            && Stage(PhaseOf(c, s.freed), s.exitIdx, s.pending, ws')
            && Wakeups(s.pending, ws')
    ensures HoldsPool(s.workers[w].pc) ==> s.owner == Worker(w)
  {
    hide Locks, Threads, Counts, Wakeups, Tasks, Sum, Queue, Stage, ClientOk, ClientTask, PhaseOf, SpawnOf,
         ClientHoldsPool, Outside;
    var ws, c := s.workers, s.client;
    if HoldsPool(ws[w].pc) {
      OwnerIs(s.owner, ClientHoldsPool(c), ws, w);
    }
    LocksSet(s.owner, ClientHoldsPool(c), ws, w, pc, owner);
    ThreadsSet(s.max, s.threadCount, s.threads, SpawnOf(c), PhaseOf(c, s.freed).Over?, ws, w, pc);
    CountsSet(s.idle, s.running, ws, w, pc);
    WakeupsSet(s.pending, ws, w, pc);
    StageSet(PhaseOf(c, s.freed), s.exitIdx, s.pending, ws, w, pc);
  }

  /** A worker without a task moves on. */
  lemma WorkIdle(s: State, w: nat, v: int)
    requires Inv(s) && MayWork(s, w) && (s.workers[w].pc.Woken? || s.workers[w].pc.Leaving?)
    ensures Inv(DoWork(s, w, v))
  {
    var ws, c, pc := s.workers, s.client, if s.workers[w].pc.Woken? then Check else Gone;
    hide Locks, Threads, Counts, Wakeups, Tasks, Sum, Queue, Stage, ClientOk, ClientTask, PhaseOf, SpawnOf,
         ClientHoldsPool, Outside;
    MoveParts(s, w, pc, if pc.Check? then Worker(w) else Free);
    TasksSet(s.pending, s.tasks, ws, ClientTask(c), w, pc);
  }

  /** What a worker at the head of its wait loop sees: pending tasks only while the pool serves, its number only when
      told to leave. */
  lemma TurnFacts(s: State, w: nat)
    requires Inv(s) && w < |s.workers| && s.workers[w].pc.Check?
    ensures s.workers[w].idx == w && s.owner == Worker(w) && s.pendingCount == |s.pending|
    ensures s.pending != [] ==> s.exitIdx == -1 && s.pending[0] in s.tasks && s.tasks[s.pending[0]].place.Queued?
    ensures s.exitIdx == w ==> s.pending == []
  {
    hide Sum;
    assert s.pending != [] ==> s.pending[0] in s.pending;
  }

  /** The head of the wait loop, staying without a task. */
  lemma WorkRest(s: State, w: nat, v: int)
    requires Inv(s) && MayWork(s, w) && s.workers[w].pc.Check? && s.pending == []
    ensures Inv(DoWork(s, w, v))
  {
    hide Locks, Threads, Counts, Wakeups, Tasks, Sum, Queue, Stage, ClientOk, ClientTask, PhaseOf, SpawnOf,
         ClientHoldsPool, Outside;
    TurnFacts(s, w);
    var ws, c, pc := s.workers, s.client, if s.exitIdx == w then Leaving else Waiting;
    MoveParts(s, w, pc, if pc.Leaving? then Worker(w) else Free);
    TasksSet(s.pending, s.tasks, ws, ClientTask(c), w, pc);
  }

  lemma QueueLess(count: int, pending: seq<nat>, spawning: bool, some: bool)
    requires Queue(count, pending, spawning, some) && pending != []
    ensures Queue(count - 1, pending[1..], spawning, some)
  {
  }

  lemma WakeupsTake(pending: seq<nat>, ws: seq<Thread>, w: nat, pc: WorkerPc)
    requires Wakeups(pending, ws) && w < |ws| && pending != [] && ws[w].pc.Check? && HasTask(pc)
    ensures Wakeups(pending[1..], ws[w := ws[w].(pc := pc)])
  {
    SumSet(ws, w, ws[w].(pc := pc), Waits);
    SumSet(ws, w, ws[w].(pc := pc), Comes);
  }

  lemma StageServes(phase: Phase, exitIdx: int, pending: seq<nat>, pending': seq<nat>, ws: seq<Thread>)
    requires Stage(phase, exitIdx, pending, ws) && phase.Serving?
    ensures Stage(phase, exitIdx, pending', ws)
  {
  }

  lemma ServesWhilePending(phase: Phase, exitIdx: int, pending: seq<nat>, ws: seq<Thread>)
    requires Stage(phase, exitIdx, pending, ws)
    ensures pending != [] ==> phase.Serving?
  {
  }

  /** The head of the wait loop, taking a task. */
  lemma WorkTake(s: State, w: nat, v: int)
    requires Inv(s) && MayWork(s, w) && s.workers[w].pc.Check? && s.pending != []
    ensures Inv(DoWork(s, w, v))
  {
    hide Locks, Threads, Counts, Wakeups, Tasks, Sum, Queue, Stage, ClientOk, ClientTask, PhaseOf, SpawnOf,
         ClientHoldsPool, Outside;
    TurnFacts(s, w);
    var ws, c, t := s.workers, s.client, s.pending[0];
    LocksSet(s.owner, ClientHoldsPool(c), ws, w, Taken(t), Worker(w));
    ThreadsSet(s.max, s.threadCount, s.threads, SpawnOf(c), PhaseOf(c, s.freed).Over?, ws, w, Taken(t));
    CountsSet(s.idle, s.running, ws, w, Taken(t));
    QueueLess(s.pendingCount, s.pending, !SpawnOf(c).NoSpawn?, ws != []);
    WakeupsTake(s.pending, ws, w, Taken(t));
    ServesWhilePending(PhaseOf(c, s.freed), s.exitIdx, s.pending, ws);
    StageSet(PhaseOf(c, s.freed), s.exitIdx, s.pending, ws, w, Taken(t));
    StageServes(PhaseOf(c, s.freed), s.exitIdx, s.pending, s.pending[1..], ws[w := ws[w].(pc := Taken(t))]);
    TasksTake(s.pending, s.tasks, ws, ClientTask(c), w);
    ClientKept(c, s.tasks, t, s.tasks[t].(place := Held(w)));
  }

  /** A worker goes on with its task. */
  lemma WorkRun(s: State, w: nat, v: int)
    requires Inv(s) && MayWork(s, w) && HasTask(s.workers[w].pc) && !s.workers[w].pc.Locked?
    ensures Inv(DoWork(s, w, v))
  {
    hide Locks, Threads, Counts, Wakeups, Tasks, Sum, Queue, Stage, ClientOk, ClientTask, PhaseOf, SpawnOf,
         ClientHoldsPool, Outside;
    var ws, c, t := s.workers, s.client, s.workers[w].pc.t;
    TaskHere(s, w);
    var task := s.tasks[t];
    var pc :=
      if ws[w].pc.Taken? then Starting(t)
      else if ws[w].pc.Starting? then Executing(t)
      else if ws[w].pc.Executing? then Executed(t, v)
      else Locked(t, ws[w].pc.v);
    var task' :=
      if pc.Executing? then task.(running := true, starts := task.starts + 1)
      else if pc.Executed? then task.(outcomes := task.outcomes + [v])
      else task;
    MoveParts(s, w, pc, if pc.Locked? then Worker(w) else if ws[w].pc.Taken? then Free else s.owner);
    TasksRun(s.pending, s.tasks, ws, ClientTask(c), w, pc, task');
    ClientKept(c, s.tasks, t, task');
    assert s.tasks[t := task] == s.tasks;
  }

  lemma TaskHere(s: State, w: nat)
    requires Inv(s) && w < |s.workers| && HasTask(s.workers[w].pc)
    ensures var t := s.workers[w].pc.t;
            && t in s.tasks && s.tasks[t].place == Held(w) && s.tasks[t].freed == 0
            && HeldOk(s.tasks[t], s.workers[w].pc)
  {
    hide Sum;
    assert WorkerOk(w, s.workers[w].pc, s.tasks);
  }

  /** The client is signalled: nothing else it stands for changes. */
  lemma SignalFacts(c: ClientPc, freed: bool, t: nat)
    ensures var c' := SignalTask(c, t);
            && ClientHoldsPool(c') == ClientHoldsPool(c) && SpawnOf(c') == SpawnOf(c) && ClientTask(c') == ClientTask(c)
            && PhaseOf(c', freed) == PhaseOf(c, freed) && (Outside(c) ==> Outside(c'))
  {
  }

  lemma ClientSignalled(c: ClientPc, tasks: map<nat, Task>, t: nat, task: Task)
    requires ClientOk(c, tasks) && t in tasks && !tasks[t].place.Nowhere? && !tasks[t].finished
    requires !tasks[t].detached && task.freed == tasks[t].freed && !task.detached && task.inPool == tasks[t].inPool
    ensures ClientOk(SignalTask(c, t), tasks[t := task])
  {
  }

  lemma ClientAway(c: ClientPc, tasks: map<nat, Task>, t: nat, task: Task)
    requires ClientOk(c, tasks) && t in tasks && tasks[t].detached && ClientTask(c) != Some(t)
    ensures ClientOk(c, tasks[t := task])
  {
  }

  lemma NotHeld(s: State, t: nat)
    requires Inv(s) && t in s.tasks && s.tasks[t].owner.Free?
    ensures ClientTask(s.client) != Some(t)
  {
    hide Sum;
    assert TaskOk(t, s.tasks[t], s.pending, s.workers, ClientTask(s.client));
  }

  /** A worker leaves its task: published, or deleted when it was detached. */
  lemma WorkPublish(s: State, w: nat, v: int)
    requires Inv(s) && MayWork(s, w) && s.workers[w].pc.Locked?
    ensures Inv(DoWork(s, w, v))
  {
    hide Locks, Threads, Counts, Wakeups, Tasks, Sum, Queue, Stage, ClientOk, SignalTask, ClientTask, PhaseOf,
         SpawnOf, ClientHoldsPool, Outside;
    TaskHere(s, w);
    var c, t := s.client, s.workers[w].pc.t;
    NotHeld(s, t);
    var task := s.tasks[t];
    if task.detached {
      var task' := task.(place := Nowhere, freed := task.freed + 1);
      MoveParts(s, w, Check, Worker(w));
      TasksLeave(s.pending, s.tasks, s.workers, ClientTask(c), w, Check, task');
      ClientAway(c, s.tasks, t, task');
    } else {
      var task' := task.(place := Nowhere, owner := Worker(w), running := false, finished := true,
                         result := s.workers[w].pc.v);
      MoveParts(s, w, Published(t), Worker(w));
      TasksLeave(s.pending, s.tasks, s.workers, ClientTask(c), w, Published(t), task');
      SignalFacts(c, s.freed, t);
      ClientSignalled(c, s.tasks, t, task');
    }
  }

  /** A worker unlocks the task it published. */
  lemma WorkUnlock(s: State, w: nat, v: int)
    requires Inv(s) && MayWork(s, w) && s.workers[w].pc.Published?
    ensures Inv(DoWork(s, w, v))
  {
    hide Locks, Threads, Counts, Wakeups, Tasks, Sum, Queue, Stage, ClientOk, ClientTask, PhaseOf, SpawnOf,
         ClientHoldsPool, Outside;
    var ws, c, t := s.workers, s.client, s.workers[w].pc.t;
    MoveParts(s, w, Check, Worker(w));
    TasksUnlock(s.pending, s.tasks, ws, ClientTask(c), w);
    ClientKept(c, s.tasks, t, s.tasks[t].(owner := Free));
  }

  lemma WorkKeeps(s: State, w: nat, v: int)
    requires Inv(s) && MayWork(s, w)
    ensures Inv(DoWork(s, w, v))
  {
    hide Inv, DoWork;
    match s.workers[w].pc
    case Spawned => WorkStart(s, w, v);
    case Check => if s.pending == [] { WorkRest(s, w, v); } else { WorkTake(s, w, v); }
    case Woken => WorkIdle(s, w, v);
    case Leaving => WorkIdle(s, w, v);
    case Taken(_) => WorkRun(s, w, v);
    case Starting(_) => WorkRun(s, w, v);
    case Executing(_) => WorkRun(s, w, v);
    case Executed(_, _) => WorkRun(s, w, v);
    case Locked(_, _) => WorkPublish(s, w, v);
    case Published(_) => WorkUnlock(s, w, v);
  }

  // ---------- the client moves ----------

  lemma LocksClient(owner: Owner, client: bool, ws: seq<Thread>, owner': Owner, client': bool)
    requires Locks(owner, client, ws)
    requires || (owner' == owner && client' == client)
             || (owner.Free? && owner'.Client? && client')
             || (client && owner'.Free? && !client')
    ensures Locks(owner', client', ws)
  {
  }

  /** Only the client's own place changes, with or without the pool's mutex. */
  lemma ClientParts(s: State, c: ClientPc, owner: Owner)
    requires Inv(s) && ClientTask(c) == ClientTask(s.client) && PhaseOf(c, s.freed) == PhaseOf(s.client, s.freed)
    requires SpawnOf(c) == SpawnOf(s.client) && (s.freed ==> Outside(c)) && ClientOk(c, s.tasks)
    requires var client, client' := ClientHoldsPool(s.client), ClientHoldsPool(c);
             || (owner == s.owner && client' == client)
             || (s.owner.Free? && owner.Client? && client')
             || (client && owner.Free? && !client')
    ensures Inv(s.(client := c, owner := owner))
  {
    hide Locks, Threads, Counts, Wakeups, Tasks, Sum, Queue, Stage, ClientOk, ClientTask, PhaseOf, SpawnOf,
         ClientHoldsPool, Outside;
    LocksClient(s.owner, ClientHoldsPool(s.client), s.workers, owner, ClientHoldsPool(c));
  }

  /** The client changes the task `t` it may touch: one at rest as it likes, another only in what detaches it. */
  lemma TasksClient(pending: seq<nat>, tasks: map<nat, Task>, ws: seq<Thread>, held: Option<nat>, t: nat, task: Task,
      held': Option<nat>)
    requires Tasks(pending, tasks, ws, held) && t in tasks && !tasks[t].owner.Worker?
    requires (held == None || held == Some(t)) && (held' == None || held' == Some(t))
    requires task.owner == if held' == Some(t) then Client else Free
    requires task.place == tasks[t].place
    requires if task.place.Nowhere? then RestOk(tasks[t]) ==> RestOk(task)
             else
               && task == tasks[t].(owner := task.owner, inPool := task.inPool, detached := task.detached)
               && task.inPool != task.detached
    ensures Tasks(pending, tasks[t := task], ws, held')
  {
    var tasks' := tasks[t := task];
    forall x | x in tasks' ensures TaskOk(x, tasks'[x], pending, ws, held') {
      assert TaskOk(x, tasks[x], pending, ws, held);
    }
    forall x | 0 <= x < |ws| ensures WorkerOk(x, ws[x].pc, tasks') {
      assert WorkerOk(x, ws[x].pc, tasks);
    }
  }

  lemma TasksNew(pending: seq<nat>, tasks: map<nat, Task>, ws: seq<Thread>, t: nat)
    requires Tasks(pending, tasks, ws, None) && t !in tasks
    ensures Tasks(pending, tasks[t := NEW_TASK], ws, None)
  {
    var tasks' := tasks[t := NEW_TASK];
    forall x | x in tasks' ensures TaskOk(x, tasks'[x], pending, ws, None) {
      assert x != t ==> TaskOk(x, tasks[x], pending, ws, None);
    }
    forall x | 0 <= x < |ws| ensures WorkerOk(x, ws[x].pc, tasks') {
      assert WorkerOk(x, ws[x].pc, tasks);
    }
  }

  /** The pushed task goes first. */
  lemma TasksPush(pending: seq<nat>, tasks: map<nat, Task>, ws: seq<Thread>, t: nat, task: Task)
    requires Tasks(pending, tasks, ws, None) && Live(tasks, t) && !tasks[t].inPool
    requires task == Enqueued(tasks[t])
    requires !tasks[t].owner.Worker?
    ensures Tasks([t] + pending, tasks[t := task], ws, None)
  {
    var tasks' := tasks[t := task];
    assert TaskOk(t, tasks[t], pending, ws, None);
    forall x | x in tasks' ensures TaskOk(x, tasks'[x], [t] + pending, ws, None) {
      assert TaskOk(x, tasks[x], pending, ws, None);
    }
    forall x | 0 <= x < |ws| ensures WorkerOk(x, ws[x].pc, tasks') {
      assert WorkerOk(x, ws[x].pc, tasks);
    }
  }

  lemma TasksWake(pending: seq<nat>, tasks: map<nat, Task>, ws: seq<Thread>, held: Option<nat>, wake: set<nat>)
    requires Tasks(pending, tasks, ws, held)
    ensures Tasks(pending, tasks, Wake(ws, wake), held)
  {
    var ws' := Wake(ws, wake);
    forall x | x in tasks ensures TaskOk(x, tasks[x], pending, ws', held) {
      assert TaskOk(x, tasks[x], pending, ws, held);
    }
    forall x | 0 <= x < |ws'| ensures WorkerOk(x, ws'[x].pc, tasks) {
      assert WorkerOk(x, ws[x].pc, tasks);
    }
  }

  lemma TasksAdd(pending: seq<nat>, tasks: map<nat, Task>, ws: seq<Thread>, held: Option<nat>, th: Thread)
    requires Tasks(pending, tasks, ws, held) && th.pc.Spawned?
    ensures Tasks(pending, tasks, ws + [th], held)
  {
    var ws' := ws + [th];
    forall x | x in tasks ensures TaskOk(x, tasks[x], pending, ws', held) {
      assert TaskOk(x, tasks[x], pending, ws, held);
    }
    forall x | 0 <= x < |ws'| ensures WorkerOk(x, ws'[x].pc, tasks) {
      assert x < |ws| ==> WorkerOk(x, ws[x].pc, tasks);
    }
  }

  // ---------- a wakeup ----------

  lemma LocksWake(owner: Owner, client: bool, ws: seq<Thread>, wake: set<nat>)
    requires Locks(owner, client, ws)
    ensures Locks(owner, client, Wake(ws, wake))
  {
  }

  lemma ThreadsWake(max: int, threadCount: int, threads: seq<nat>, spawn: Spawn, over: bool, ws: seq<Thread>,
      wake: set<nat>)
    requires Threads(max, threadCount, threads, spawn, over, ws)
    ensures Threads(max, threadCount, threads, spawn, over, Wake(ws, wake))
  {
  }

  lemma CountsWake(idle: int, running: int, ws: seq<Thread>, wake: set<nat>)
    requires Counts(idle, running, ws)
    ensures Counts(idle, running, Wake(ws, wake))
  {
    SumWake(ws, wake);
  }

  lemma StageWake(phase: Phase, exitIdx: int, pending: seq<nat>, ws: seq<Thread>, wake: set<nat>)
    requires Stage(phase, exitIdx, pending, ws)
    ensures Stage(phase, exitIdx, pending, Wake(ws, wake))
  {
  }

  lemma WakeupsWake(pending: seq<nat>, ws: seq<Thread>, wake: set<nat>)
    requires Wakeups(pending, ws)
    ensures Wakeups(pending, Wake(ws, wake))
  {
    SumWake(ws, wake);
  }

  /** Anything a condition variable does to the workers on its own. */
  lemma WakeParts(s: State, wake: set<nat>)
    requires Inv(s)
    ensures Inv(s.(workers := Wake(s.workers, wake)))
  {
    hide Locks, Threads, Counts, Wakeups, Tasks, Sum, Queue, Stage, ClientOk, ClientTask, PhaseOf, SpawnOf,
         ClientHoldsPool, Outside, Wake;
    var ws, c := s.workers, s.client;
    LocksWake(s.owner, ClientHoldsPool(c), ws, wake);
    ThreadsWake(s.max, s.threadCount, s.threads, SpawnOf(c), PhaseOf(c, s.freed).Over?, ws, wake);
    CountsWake(s.idle, s.running, ws, wake);
    StageWake(PhaseOf(c, s.freed), s.exitIdx, s.pending, ws, wake);
    WakeupsWake(s.pending, ws, wake);
    TasksWake(s.pending, s.tasks, ws, ClientTask(c), wake);
    assert |Wake(ws, wake)| == |ws|;
  }

  // ---------- the client's steps ----------

  /** Steps that lock or unlock the pool and change nothing else. */
  lemma GoPlain(s: State, wake: set<nat>)
    requires Inv(s) && MayGo(s, wake)
    requires s.client.PushFull? || s.client.PushWoken? || s.client.PushUnlock?
             || s.client.DelFail? || s.client.DelUnlock? || s.client.DelLast?
    ensures Inv(DoGo(s, wake))
  {
    hide Locks, Threads, Counts, Wakeups, Tasks, Sum, Queue, Stage;
    ClientParts(s, DoGo(s, wake).client, DoGo(s, wake).owner);
  }

  /** What a push that got the pool's mutex sees. */
  lemma PushFacts(s: State)
    requires Inv(s) && s.client.PushLock?
    ensures s.threadCount == |s.workers| == |s.threads| && s.pendingCount == |s.pending|
    ensures s.threads == Upto(|s.workers|) && !s.freed
  {
    hide Tasks, Sum, Stage, Locks, Wakeups, Counts, ClientOk;
  }

  lemma ThreadsWant(max: int, threadCount: int, threads: seq<nat>, over: bool, ws: seq<Thread>)
    requires Threads(max, threadCount, threads, NoSpawn, over, ws) && ws != []
    ensures Threads(max, threadCount, threads, Wants(|ws|), over, ws)
  {
  }

  lemma ThreadsAdd(max: int, threadCount: int, threads: seq<nat>, ws: seq<Thread>)
    requires Threads(max, threadCount, threads, NoSpawn, false, ws) && threadCount < max
    ensures Threads(max, threadCount, threads[..threadCount] + [|ws|], Wants(threadCount + 1), false,
                    ws + [Thread(threadCount, Spawned)])
  {
    assert threads[..threadCount] + [|ws|] == Upto(|ws| + 1);
  }

  lemma LocksAdd(owner: Owner, client: bool, ws: seq<Thread>, th: Thread)
    requires Locks(owner, client, ws) && th.pc.Spawned?
    ensures Locks(owner, client, ws + [th])
  {
  }

  lemma CountsAdd(idle: int, running: int, ws: seq<Thread>, th: Thread)
    requires Counts(idle, running, ws) && th.pc.Spawned?
    ensures Counts(idle, running, ws + [th])
  {
    SumAdd(ws, th, Idle);
    SumAdd(ws, th, Busy);
  }

  lemma WakeupsAdd(pending: seq<nat>, ws: seq<Thread>, th: Thread)
    requires Wakeups(pending, ws) && th.pc.Spawned?
    ensures Wakeups(pending, ws + [th])
  {
    SumAdd(ws, th, Waits);
    SumAdd(ws, th, Comes);
  }

  lemma StageAdd(exitIdx: int, pending: seq<nat>, ws: seq<Thread>, th: Thread)
    requires Stage(Serving, exitIdx, pending, ws) && th.pc.Spawned?
    ensures Stage(Serving, exitIdx, pending, ws + [th])
  {
  }

  lemma QueueSpawns(count: int, pending: seq<nat>, some: bool)
    requires Queue(count, pending, false, some) && count < MAX_TASKS
    ensures Queue(count, pending, true, some) && Queue(count, pending, true, true)
  {
  }

  lemma GoPushLock(s: State, wake: set<nat>)
    requires Inv(s) && MayGo(s, wake) && s.client.PushLock?
    ensures Inv(DoGo(s, wake))
  {
    hide Locks, Threads, Counts, Wakeups, Tasks, Sum, Queue, Stage;
    PushFacts(s);
    var ws, t := s.workers, s.client.t;
    if s.pendingCount >= MAX_TASKS {
      ClientParts(s, PushFull(t), Client);
    } else {
      QueueSpawns(s.pendingCount, s.pending, ws != []);
      LocksClient(s.owner, false, ws, Client, true);
      if s.threads == [] || (s.idle == 0 && s.threadCount < s.max) {
        var th := Thread(s.threadCount, Spawned);
        assert s.threads == [] ==> s.threads[..s.threadCount] + [|ws|] == [|ws|];
        MaxIsPositive(s.max, s.threadCount, s.threads, NoSpawn, false, ws);
        ThreadsAdd(s.max, s.threadCount, s.threads, ws);
        LocksAdd(Client, true, ws, th);
        CountsAdd(s.idle, s.running, ws, th);
        WakeupsAdd(s.pending, ws, th);
        StageAdd(s.exitIdx, s.pending, ws, th);
        TasksAdd(s.pending, s.tasks, ws, None, th);
      } else {
        ThreadsWant(s.max, s.threadCount, s.threads, false, ws);
      }
    }
  }

  lemma MaxIsPositive(max: int, threadCount: int, threads: seq<nat>, spawn: Spawn, over: bool, ws: seq<Thread>)
    requires Threads(max, threadCount, threads, spawn, over, ws)
    ensures max >= 1
  {
  }

  /** A push waits only while the worker it created has not started. */
  lemma ThreadsWait(max: int, threadCount: int, threads: seq<nat>, required: int, ws: seq<Thread>)
    requires Threads(max, threadCount, threads, Wants(required), false, ws)
    ensures threadCount != required ==> Threads(max, threadCount, threads, Asleep(required), false, ws)
    ensures threadCount == required ==> Threads(max, threadCount, threads, NoSpawn, false, ws) && ws != []
  {
  }

  lemma WakeupsPush(pending: seq<nat>, t: nat, ws: seq<Thread>, wake: set<nat>)
    requires Wakeups(pending, ws)
    requires forall w :: w in wake ==> w < |ws| && ws[w].pc.Waiting?
    requires wake == {} ==> forall w :: 0 <= w < |ws| ==> !ws[w].pc.Waiting?
    ensures Wakeups([t] + pending, Wake(ws, wake))
  {
    SumWake(ws, wake);
    if wake == {} {
      SumNone(ws, Waits);
    } else {
      var w :| w in wake;
      SumWakeLess(ws, wake, w);
    }
  }

  lemma QueueMore(count: int, pending: seq<nat>, t: nat)
    requires Queue(count, pending, true, true)
    ensures Queue(count + 1, [t] + pending, false, true)
  {
  }

  lemma NoWorkerHas(t: nat, tasks: map<nat, Task>, pending: seq<nat>, ws: seq<Thread>, held: Option<nat>, owner: Owner,
      client: bool)
    requires Tasks(pending, tasks, ws, held) && t in tasks && Locks(owner, client, ws) && client
    ensures !tasks[t].owner.Worker?
  {
    assert TaskOk(t, tasks[t], pending, ws, held);
  }

  lemma GoPushCheck(s: State, wake: set<nat>)
    requires Inv(s) && MayGo(s, wake) && s.client.PushCheck?
    ensures Inv(DoGo(s, wake))
  {
    hide Locks, Threads, Counts, Wakeups, Tasks, Sum, Queue, Stage, Wake;
    var ws, t, required := s.workers, s.client.t, s.client.required;
    ThreadsWait(s.max, s.threadCount, s.threads, required, ws);
    if s.threadCount != required {
      LocksClient(s.owner, true, ws, Free, false);
    } else {
      var task := s.tasks[t];
      NoWorkerHas(t, s.tasks, s.pending, ws, None, s.owner, true);
      TasksPush(s.pending, s.tasks, ws, t, Enqueued(task));
      TasksWake([t] + s.pending, s.tasks[t := Enqueued(task)], ws, None, wake);
      QueueMore(s.pendingCount, s.pending, t);
      StageWake(Serving, s.exitIdx, s.pending, ws, wake);
      StageServes(Serving, s.exitIdx, s.pending, [t] + s.pending, Wake(ws, wake));
      LocksWake(s.owner, true, ws, wake);
      ThreadsWake(s.max, s.threadCount, s.threads, NoSpawn, false, ws, wake);
      CountsWake(s.idle, s.running, ws, wake);
      assert forall w :: 0 <= w < |ws| && !Sleeps(s, w) ==> !ws[w].pc.Waiting?;
      WakeupsPush(s.pending, t, ws, wake);
      assert |Wake(ws, wake)| == |ws|;
    }
  }

  /** The client's call on task `t` goes on to `c`, leaving the task as `task`. */
  lemma TaskParts(s: State, t: nat, task: Task, c: ClientPc)
    requires Inv(s) && t in s.tasks && !s.tasks[t].owner.Worker?
    requires Outside(s.client) && Outside(c)
    requires (ClientTask(s.client) == None || ClientTask(s.client) == Some(t))
    requires (ClientTask(c) == None || ClientTask(c) == Some(t))
    requires task.owner == if ClientTask(c) == Some(t) then Client else Free
    requires task.place == s.tasks[t].place
    requires if task.place.Nowhere? then RestOk(s.tasks[t]) ==> RestOk(task)
             else
               && task == s.tasks[t].(owner := task.owner, inPool := task.inPool, detached := task.detached)
               && task.inPool != task.detached
    requires ClientOk(c, s.tasks[t := task])
    ensures Inv(s.(tasks := s.tasks[t := task], client := c))
  {
    hide Locks, Threads, Counts, Wakeups, Tasks, Sum, Queue, Stage, ClientOk, ClientTask;
    TasksClient(s.pending, s.tasks, s.workers, ClientTask(s.client), t, task, ClientTask(c));
  }

  /** What a client on a task sees of it. */
  lemma TaskFacts(s: State, t: nat)
    requires Inv(s) && t in s.tasks
    ensures s.tasks[t].owner.Client? <==> ClientTask(s.client) == Some(t)
    ensures s.tasks[t].owner.Worker? ==> s.tasks[t].inPool
    ensures if s.tasks[t].place.Nowhere? then RestOk(s.tasks[t])
            else s.tasks[t].freed == 0 && !s.tasks[t].finished && s.tasks[t].inPool != s.tasks[t].detached
  {
    hide Sum, HeldOk;
    assert TaskOk(t, s.tasks[t], s.pending, s.workers, ClientTask(s.client));
    if s.tasks[t].place.Held? {
      HeldFacts(s, t);
    }
  }

  lemma HeldFacts(s: State, t: nat)
    requires Inv(s) && t in s.tasks && s.tasks[t].place.Held?
    ensures s.tasks[t].freed == 0 && !s.tasks[t].finished && s.tasks[t].inPool != s.tasks[t].detached
  {
    hide Sum;
    assert TaskOk(t, s.tasks[t], s.pending, s.workers, ClientTask(s.client));
  }

  lemma GoJoin(s: State, wake: set<nat>)
    requires Inv(s) && MayGo(s, wake)
    requires (s.client.JoinLock? || s.client.JoinCheck? || s.client.JoinWoken? || s.client.JoinUnlock?)
    ensures Inv(DoGo(s, wake))
  {
    hide Locks, Threads, Counts, Wakeups, Tasks, Sum, Queue, Stage;
    var t := s.client.t;
    TaskFacts(s, t);
    var s' := DoGo(s, wake);
    assert s' == s.(tasks := s.tasks[t := s'.tasks[t]], client := s'.client);
    TaskParts(s, t, s'.tasks[t], s'.client);
  }

  lemma GoDetach(s: State, wake: set<nat>)
    requires Inv(s) && MayGo(s, wake) && (s.client.DetachLock? || s.client.DetachUnlock? || s.client.DetachDelete?)
    ensures Inv(DoGo(s, wake))
  {
    hide Locks, Threads, Counts, Wakeups, Tasks, Sum, Queue, Stage;
    var t := s.client.t;
    TaskFacts(s, t);
    var s' := DoGo(s, wake);
    assert s' == s.(tasks := s.tasks[t := s'.tasks[t]], client := s'.client);
    TaskParts(s, t, s'.tasks[t], s'.client);
  }

  // ---------- the shutdown's steps ----------

  /** Everybody is asleep or about to lock the pool again. */
  predicate NoneUp(ws: seq<Thread>) {
    forall w :: 0 <= w < |ws| ==> ws[w].pc.Waiting? || ws[w].pc.Woken?
  }

  /** All workers idle, and none of them holding the pool: they sleep or are about to wake. */
  lemma AllRest(idle: int, running: int, owner: Owner, exitIdx: int, pending: seq<nat>, ws: seq<Thread>)
    requires Counts(idle, running, ws) && idle == |ws| && Locks(owner, true, ws) && Stage(Serving, exitIdx, pending, ws)
    ensures NoneUp(ws)
  {
    forall w | 0 <= w < |ws| ensures ws[w].pc.Waiting? || ws[w].pc.Woken? {
      SumAll(ws, w);
    }
  }

  /** With the pool idle, worker `i` is told to leave and everybody is woken. */
  lemma StageTell(i: nat, exitIdx: int, pending: seq<nat>, ws: seq<Thread>, wake: set<nat>, owner: Owner)
    requires i < |ws| && pending == [] && Locks(owner, true, ws)
    requires if i == 0 then NoneUp(ws) else Stage(Left(i - 1), exitIdx, pending, ws)
    requires forall w :: 0 <= w < |ws| && ws[w].pc.Waiting? ==> w in wake
    ensures Stage(Stopping(i), i, pending, Wake(ws, wake))
  {
  }

  lemma StageOver(exitIdx: int, pending: seq<nat>, ws: seq<Thread>)
    requires ws != [] && Stage(Left(|ws| - 1), exitIdx, pending, ws)
    ensures Stage(Over, exitIdx, pending, ws)
  {
  }

  lemma StageLeft(i: nat, exitIdx: int, pending: seq<nat>, ws: seq<Thread>)
    requires Stage(Stopping(i), exitIdx, pending, ws) && i < |ws| && ws[i].pc.Gone?
    ensures Stage(Left(i), exitIdx, pending, ws)
  {
  }

  lemma ThreadsOver(max: int, threadCount: int, threads: seq<nat>, ws: seq<Thread>)
    requires Threads(max, threadCount, threads, NoSpawn, false, ws)
    ensures Threads(max, threadCount, [], NoSpawn, true, ws)
    ensures threadCount == |ws| == |threads| && threads == Upto(|ws|)
  {
  }

  /** `thread_pool_delete` tells worker `i` to leave. */
  lemma Tell(s: State, i: nat, wake: set<nat>)
    requires Inv(s) && s.owner.Free? && Broadcast(s, wake) && i < |s.workers| && s.pending == [] && !s.freed
    requires if i == 0 then s.client.DelLock? && Locks(Client, true, s.workers) && NoneUp(s.workers)
             else s.client == DelRelock(i - 1)
    ensures Inv(s.(owner := Client, exitIdx := i, workers := Wake(s.workers, wake), client := DelUnlock(i)))
  {
    hide Threads, Counts, Wakeups, Tasks, Sum, Queue, Wake, Locks, Stage, NoneUp;
    var ws := s.workers;
    assert forall w :: 0 <= w < |ws| && ws[w].pc.Waiting? ==> Sleeps(s, w);
    LocksClient(s.owner, false, ws, Client, true);
    StageTell(i, s.exitIdx, s.pending, ws, wake, Client);
    LocksWake(Client, true, ws, wake);
    ThreadsWake(s.max, s.threadCount, s.threads, NoSpawn, false, ws, wake);
    CountsWake(s.idle, s.running, ws, wake);
    WakeupsWake(s.pending, ws, wake);
    TasksWake(s.pending, s.tasks, ws, None, wake);
    assert |Wake(ws, wake)| == |ws|;
  }

  lemma QueueIs(count: int, pending: seq<nat>, spawning: bool, some: bool)
    requires Queue(count, pending, spawning, some)
    ensures count == |pending| && (pending != [] ==> some)
  {
  }

  lemma NobodyOver(exitIdx: int, ws: seq<Thread>)
    requires ws == []
    ensures Stage(Over, exitIdx, [], ws)
  {
  }

  lemma GoDelLock(s: State, wake: set<nat>)
    requires Inv(s) && MayGo(s, wake) && s.client.DelLock?
    ensures Inv(DoGo(s, wake))
  {
    hide Locks, Threads, Counts, Wakeups, Tasks, Sum, Queue, Stage, Wake;
    var ws := s.workers;
    QueueIs(s.pendingCount, s.pending, false, ws != []);
    LocksClient(s.owner, false, ws, Client, true);
    ThreadsOver(s.max, s.threadCount, s.threads, ws);
    if s.running > 0 || s.pendingCount > 0 || s.idle != s.threadCount {
      ClientParts(s, DelFail, Client);
    } else if s.threads != [] {
      AllRest(s.idle, s.running, Client, s.exitIdx, s.pending, ws);
      Tell(s, 0, wake);
    } else {
      NobodyOver(s.exitIdx, ws);
    }
  }

  lemma LeftFacts(i: nat, exitIdx: int, pending: seq<nat>, ws: seq<Thread>)
    requires Stage(Left(i), exitIdx, pending, ws)
    ensures pending == [] && i < |ws|
  {
  }

  lemma GoDelRelock(s: State, wake: set<nat>)
    requires Inv(s) && MayGo(s, wake) && s.client.DelRelock?
    ensures Inv(DoGo(s, wake))
  {
    hide Locks, Threads, Counts, Wakeups, Tasks, Sum, Queue, Stage, Wake;
    var ws, i := s.workers, s.client.i;
    LeftFacts(i, s.exitIdx, s.pending, ws);
    LocksClient(s.owner, false, ws, Client, true);
    ThreadsOver(s.max, s.threadCount, s.threads, ws);
    if i + 1 < |ws| {
      Tell(s, i + 1, wake);
    } else {
      StageOver(s.exitIdx, s.pending, ws);
    }
  }

  lemma GoDelRest(s: State, wake: set<nat>)
    requires Inv(s) && MayGo(s, wake) && (s.client.DelJoin? || s.client.DelDestroy?)
    ensures Inv(DoGo(s, wake))
  {
    hide Locks, Counts, Wakeups, Tasks, Sum, Queue, Stage;
    if s.client.DelJoin? {
      StageLeft(s.client.i, s.exitIdx, s.pending, s.workers);
    }
  }

  lemma GoKeeps(s: State, wake: set<nat>)
    requires Inv(s) && MayGo(s, wake)
    ensures Inv(DoGo(s, wake))
  {
    hide Inv, DoGo;
    var c := s.client;
    if c.PushLock? { GoPushLock(s, wake); }
    else if c.PushCheck? { GoPushCheck(s, wake); }
    else if c.JoinLock? || c.JoinCheck? || c.JoinWoken? || c.JoinUnlock? { GoJoin(s, wake); }
    else if c.DetachLock? || c.DetachUnlock? || c.DetachDelete? { GoDetach(s, wake); }
    else if c.DelLock? { GoDelLock(s, wake); }
    else if c.DelRelock? { GoDelRelock(s, wake); }
    else if c.DelJoin? || c.DelDestroy? { GoDelRest(s, wake); }
    else { GoPlain(s, wake); }
  }

  lemma CallKeeps(s: State, req: Request)
    requires Inv(s) && MayCall(s, req)
    ensures Inv(DoCall(s, req))
  {
    hide Locks, Threads, Counts, Wakeups, Tasks, Sum, Queue, Stage;
    match req
    case NewTask(t) => TasksNew(s.pending, s.tasks, s.workers, t);
    case DeleteTask(t) =>
      TaskFacts(s, t);
      if !s.tasks[t].inPool {
        TaskParts(s, t, s.tasks[t].(freed := s.tasks[t].freed + 1), Ready(Deleted(t)));
      }
    case _ =>
  }

  lemma WakeClientKeeps(s: State, late: bool)
    requires Inv(s) && (if late then Enabled(s, TimeOut) else Enabled(s, WakeClient))
    ensures Inv(Do(s, if late then TimeOut else WakeClient))
  {
    hide Locks, Counts, Wakeups, Tasks, Sum, Queue, Stage;
  }

  /** Every action of every thread keeps the invariant. */
  lemma InvKept(s: State, a: Action)
    requires Inv(s) && Enabled(s, a)
    ensures Inv(Do(s, a))
  {
    hide Inv, DoGo, DoWork, DoCall;
    match a
    case Call(req) => CallKeeps(s, req);
    case Go(wake) => GoKeeps(s, wake);
    case TimeOut => WakeClientKeeps(s, true);
    case WakeClient => WakeClientKeeps(s, false);
    case Work(w, v) => WorkKeeps(s, w, v);
    case WakeWorker(w) => WakeParts(s, {w});
  }

  /** ... and so does every run, from a new pool on. */
  lemma {:induction false} InvOfRun(path: seq<State>, acts: seq<Action>, i: nat)
    requires IsRun(path, acts) && Inv(path[0]) && i <= |acts|
    ensures Inv(path[i])
  {
    hide Inv, Do, Enabled;
    if i > 0 {
      InvOfRun(path, acts, i - 1);
      InvKept(path[i - 1], acts[i - 1]);
    }
  }
}
