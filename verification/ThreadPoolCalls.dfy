/**
 What every call on the thread pool and its tasks answers, over every run from a new pool, in terms of what can be
 seen from outside: the calls and answers before it, and what happened between the call and its answer.
 */
module ThreadPoolCalls {
  import opened Common
  import opened ThreadPool
  import opened ThreadPoolInvariant
  import opened ThreadPoolSafety
  import opened ThreadPoolSteps
  import opened ThreadPoolProgress
  import opened ThreadPoolFairness
  import opened ThreadPoolLiveness
  import opened ThreadPoolTimeouts

  ghost predicate FromStart(r: Run, max: int) {
    Create(max) == NewPool(r.path(0)) && forall i: nat :: StepAt(r, i)
  }

  // ---------- what the client knows of a task ----------

  /** A task by the answers the client got: not created; never pushed; pushed, and neither joined nor detached
      since; joined since it was pushed; detached or deleted. */
  datatype History = Unmade | Made | Given | Back | Lost

  function After(h: History, r: Response, t: nat): History {
    match r
    case Created(x) => if x == t then Made else h
    case Pushed(x) => if x == t then Given else h
    case Joined(x, _) => if x == t then Back else h
    case Detached(x) => if x == t then Lost else h
    case Deleted(x) => if x == t then Lost else h
    case _ => h
  }

  /** The client's step ends its call. */
  predicate Answering(a: Option<Action>, s': State) {
    a.Some? && (a.value.Call? || a.value.Go?) && s'.client.Ready?
  }

  function HistoryOf(r: Run, n: nat, t: nat): History {
    if n == 0 then Unmade
    else
      var h := HistoryOf(r, n - 1, t);
      if Answering(r.acts(n - 1), r.path(n)) then After(h, r.path(n).client.r, t) else h
  }

  /** What the history says of the task ... */
  predicate TaskIs(s: State, t: nat, h: History) {
    match h
    case Unmade => t !in s.tasks
    case Made => Live(s.tasks, t) && !s.tasks[t].inPool && s.tasks[t].pushes == 0
    case Given => Live(s.tasks, t) && s.tasks[t].inPool && s.tasks[t].pushes > 0
    case Back => Live(s.tasks, t) && !s.tasks[t].inPool && s.tasks[t].outcomes != []
    case Lost => t in s.tasks && (s.tasks[t].freed > 0 || s.tasks[t].detached)
  }

  /** ... but for the call that is about to answer. */
  predicate Leaving(c: ClientPc, t: nat) {
    || (c.JoinUnlock? && c.t == t && c.r.Joined?)
    || ((c.DetachUnlock? || c.DetachDelete?) && c.t == t)
  }

  predicate HistoryOk(s: State, t: nat, h: History) {
    if s.client == PushUnlock(t) then
      (h.Made? || h.Back?) && Live(s.tasks, t) && s.tasks[t].inPool && s.tasks[t].pushes > 0
    else if Leaving(s.client, t) then h.Given? && t in s.tasks && !s.tasks[t].inPool
    else TaskIs(s, t, h)
  }

  /** A worker's step leaves the client's side of every task alone; it frees detached ones. */
  lemma WorkTouches(s: State, w: nat, v: int, t: nat)
    requires Inv(s) && MayWork(s, w)
    ensures var s' := DoWork(s, w, v);
            && (t in s'.tasks <==> t in s.tasks)
            && (t in s.tasks ==>
                  && s'.tasks[t].inPool == s.tasks[t].inPool && s'.tasks[t].detached == s.tasks[t].detached
                  && s'.tasks[t].pushes == s.tasks[t].pushes && s.tasks[t].outcomes <= s'.tasks[t].outcomes
                  && (s'.tasks[t].freed == s.tasks[t].freed || (s.tasks[t].detached && s'.tasks[t].freed > 0)))
  {
    hide Inv;
    WorkerTaskFacts(s, w);
    if s.workers[w].pc.Check? {
      TurnFacts(s, w);
    }
  }

  lemma HistoryWork(s: State, w: nat, v: int, t: nat, h: History)
    requires Inv(s) && MayWork(s, w) && HistoryOk(s, t, h)
    ensures HistoryOk(DoWork(s, w, v), t, h)
  {
    hide Inv, DoWork, MayWork;
    WorkTouches(s, w, v, t);
    WorkSees(s, w, v);
  }

  /** What the client's steps do to the history. */
  predicate HistoryGoes(s': State, t: nat, h: History) {
    HistoryOk(s', t, if s'.client.Ready? then After(h, s'.client.r, t) else h)
  }

  lemma HistoryJoinGo(s: State, wake: set<nat>, t: nat, h: History)
    requires Inv(s) && MayGo(s, wake) && HistoryOk(s, t, h) && InJoin(s.client)
    ensures HistoryGoes(DoGo(s, wake), t, h)
  {
    hide Sum, Locks, Threads, Stage, Wakeups, Queue, Counts, Tasks;
  }

  lemma HistoryDetachGo(s: State, wake: set<nat>, t: nat, h: History)
    requires Inv(s) && MayGo(s, wake) && HistoryOk(s, t, h) && Outside(s.client) && !InJoin(s.client)
    ensures HistoryGoes(DoGo(s, wake), t, h)
  {
    hide Sum, Locks, Threads, Stage, Wakeups, Queue, Counts, Tasks;
  }

  lemma HistoryPushGo(s: State, wake: set<nat>, t: nat, h: History)
    requires Inv(s) && MayGo(s, wake) && HistoryOk(s, t, h) && (Pushes(s.client) || s.client.PushUnlock?)
    ensures HistoryGoes(DoGo(s, wake), t, h)
  {
    hide Sum, Locks, Threads, Stage, Wakeups, Queue, Counts, Tasks, Wake, Signal, Broadcast;
  }

  lemma HistoryDelGo(s: State, wake: set<nat>, t: nat, h: History)
    requires Inv(s) && MayGo(s, wake) && HistoryOk(s, t, h) && InDelete(s.client)
    ensures HistoryGoes(DoGo(s, wake), t, h)
  {
    hide Sum, Locks, Threads, Stage, Wakeups, Queue, Counts, Tasks, ClientOk, Wake, Signal, Broadcast;
  }

  lemma HistoryCall(s: State, req: Request, t: nat, h: History)
    requires Inv(s) && MayCall(s, req) && HistoryOk(s, t, h)
    ensures HistoryGoes(DoCall(s, req), t, h)
  {
    hide Inv;
  }

  lemma HistoryStep(s: State, a: Action, t: nat, h: History)
    requires Inv(s) && Enabled(s, a) && HistoryOk(s, t, h)
    ensures var s' := Do(s, a); HistoryOk(s', t, if Answering(Some(a), s') then After(h, s'.client.r, t) else h)
  {
    hide Inv, MayCall, DoCall, MayGo, DoGo, MayWork, DoWork;
    match a
    case Call(req) => HistoryCall(s, req, t, h);
    case Go(wake) =>
      if InJoin(s.client) {
        HistoryJoinGo(s, wake, t, h);
      } else if Outside(s.client) {
        HistoryDetachGo(s, wake, t, h);
      } else if InDelete(s.client) {
        HistoryDelGo(s, wake, t, h);
      } else {
        HistoryPushGo(s, wake, t, h);
      }
    case Work(w, v) => HistoryWork(s, w, v, t, h);
    case _ =>
  }

  lemma StartIsReachable(r: Run, max: int)
    requires FromStart(r, max)
    ensures Reachable(r)
  {
    CreateInv(max);
  }

  lemma {:induction false} HistoryHolds(r: Run, max: int, n: nat, t: nat)
    requires FromStart(r, max)
    ensures HistoryOk(r.path(n), t, HistoryOf(r, n, t))
  {
    hide Inv, Do, Enabled, HistoryOk, After;
    StartIsReachable(r, max);
    if n > 0 {
      HistoryHolds(r, max, n - 1, t);
      InvAt(r, n - 1);
      assert StepAt(r, n - 1);
      if r.acts(n - 1).Some? {
        HistoryStep(r.path(n - 1), r.acts(n - 1).value, t, HistoryOf(r, n - 1, t));
      }
    } else {
      NothingYet(max, t);
    }
  }

  lemma NothingYet(max: int, t: nat)
    requires Create(max).NewPool?
    ensures HistoryOk(Create(max).s, t, Unmade)
  {
  }

  // ---------- the client's last call ----------

  /** What was so when the call first got the pool's mutex: the list full; nothing pending and every worker at rest. */
  datatype Look = Look(full: bool, rest: bool)

  /** A call: what its task's history was; what it saw at its first lock; which tasks its steps queued, and whether they
      changed the list or any task; how often its wait ran out; whether it slept on a task; and whether the task was
      done when it last looked. */
  datatype Log = Log(req: Request, before: History, locked: Option<Look>, queued: seq<nat>, changed: bool,
                     timeouts: nat, slept: bool, seen: Option<bool>)

  function Subject(req: Request): Option<nat> {
    if req.DeletePool? then None else Some(req.t)
  }

  /** `t` is neither pending nor with a worker. */
  ghost predicate Settled(s: State, t: nat) {
    t !in s.pending && !AtWorker(s, t)
  }

  ghost function Noted(l: Log, s: State, a: Action, s': State): Log {
    if s.client.Ready? then l
    else
      l.(locked := if l.locked.None? && !s.owner.Client? && s'.owner.Client?
                   then Some(Look(|s.pending| == MAX_TASKS, AtRest(s))) else l.locked,
         queued := if |s'.pending| > |s.pending| then l.queued + [s'.pending[0]] else l.queued,
         changed := l.changed || (a.Go? && (s'.pending != s.pending || s'.tasks != s.tasks)),
         timeouts := l.timeouts + if a.TimeOut? then 1 else 0,
         slept := l.slept || s'.client.JoinWait?,
         seen := if a.Go? && s.client.JoinCheck? then Some(Settled(s, s.client.t)) else l.seen)
  }

  ghost function LogOf(r: Run, n: nat): Option<Log> {
    if n == 0 then None
    else
      match r.acts(n - 1)
      case Some(Call(req)) =>
        var before := if req.DeletePool? then Unmade else HistoryOf(r, n - 1, req.t);
        Some(Log(req, before, None, [], false, 0, false, None))
      case None => LogOf(r, n - 1)
      case Some(a) =>
        var l := LogOf(r, n - 1);
        if l.None? then None else Some(Noted(l.value, r.path(n - 1), a, r.path(n)))
  }

  /** The answer of a push: refused just when the list was full, and then nothing is changed; otherwise queued once. */
  predicate PushAnswer(t: nat, r: Response, l: Log) {
    && l.locked.Some?
    && if l.locked.value.full then r == TooMany(t) && l.queued == [] && !l.changed
       else r == Response.Pushed(t) && l.queued == [t]
  }

  /** The answer of a join of a pushed task: a timeout just when its wait ran out, or, for the join that may not
      wait, when the task was not done where it looked; otherwise a value. */
  predicate JoinOk(t: nat, kind: Join, r: Response, l: Log) {
    && l.before.Given?
    && (r == TimedOut(t) <==> (kind.Timed? && l.timeouts > 0) || (kind.Now? && l.seen == Some(false)))
    && (r != TimedOut(t) ==> r.Joined? && r.t == t && l.seen == Some(true))
    && (kind.Now? ==> !l.slept && l.seen.Some?)
  }

  predicate DeleteAnswer(r: Response, l: Log) {
    && l.locked.Some?
    && if l.locked.value.rest then r == PoolDeleted else r == HasTasks && !l.changed
  }

  predicate AnswerOk(r: Response, l: Log) {
    match l.req
    case NewTask(t) => r == Created(t) && l.before.Unmade?
    case Push(t) => PushAnswer(t, r, l)
    case JoinTask(t, kind) => if l.before.Given? then JoinOk(t, kind, r, l) else r == NotPushed(t)
    case Detach(t) => r == if l.before.Given? then Response.Detached(t) else NotPushed(t)
    case DeleteTask(t) => r == if l.before.Given? then InPool(t) else Deleted(t)
    case DeletePool => DeleteAnswer(r, l)
  }

  /** Where a call stands, and what it has noted. */
  predicate LogOk(s: State, l: Log) {
    match s.client
    case Ready(r) => AnswerOk(r, l)
    case PushLock(t) => l.req == Push(t) && l.locked.None? && l.queued == [] && !l.changed && !s.owner.Client?
    case PushFull(t) => l.req == Push(t) && l.locked.Some? && l.locked.value.full && l.queued == [] && !l.changed
    case PushCheck(t, _) => Pushing(t, l)
    case PushWait(t, _) => Pushing(t, l)
    case PushWoken(t, _) => Pushing(t, l)
    case PushUnlock(t) => l.req == Push(t) && l.locked.Some? && !l.locked.value.full && l.queued == [t]
    case JoinLock(t, kind) => Joining(t, kind, l) && l.timeouts == 0 && !l.slept
    case JoinCheck(t, kind, late) => Joining(t, kind, l) && (late <==> l.timeouts > 0) && (kind.Now? ==> !l.slept)
    case JoinWait(t, kind) => Joining(t, kind, l) && l.timeouts == 0 && !kind.Now?
    case JoinWoken(t, kind, late) => Joining(t, kind, l) && (late <==> l.timeouts > 0) && !kind.Now?
    case JoinUnlock(t, r) => l.req.JoinTask? && l.req.t == t && JoinOk(t, l.req.kind, r, l)
    case DetachLock(t) => l.req == Detach(t) && l.before.Given?
    case DetachUnlock(t, _) => l.req == Detach(t) && l.before.Given?
    case DetachDelete(t) => l.req == Detach(t) && l.before.Given?
    case DelLock => l.req == DeletePool && l.locked.None? && !l.changed && !s.owner.Client?
    case DelFail => l.req == DeletePool && l.locked.Some? && !l.locked.value.rest && !l.changed
    case _ => l.req == DeletePool && l.locked.Some? && l.locked.value.rest
  }

  predicate Pushing(t: nat, l: Log) {
    l.req == Push(t) && l.locked.Some? && !l.locked.value.full && l.queued == []
  }

  predicate Joining(t: nat, kind: Join, l: Log) {
    l.req == JoinTask(t, kind) && l.before.Given?
  }

  lemma OwnerFacts(s: State)
    requires Inv(s)
    ensures s.owner.Client? <==> ClientHoldsPool(s.client)
  {
    hide Sum, Threads, Stage, Wakeups, Queue, Counts, Tasks, ClientOk;
  }

  lemma LogCall(s: State, req: Request, h: History)
    requires Inv(s) && MayCall(s, req)
    requires !req.DeletePool? ==> HistoryOk(s, req.t, h)
    ensures LogOk(DoCall(s, req), Log(req, h, None, [], false, 0, false, None))
  {
    OwnerFacts(s);
    hide Inv;
  }

  lemma LogTaskGo(s: State, wake: set<nat>, l: Log)
    requires Inv(s) && MayGo(s, wake) && Outside(s.client) && LogOk(s, l)
    ensures LogOk(DoGo(s, wake), Noted(l, s, Go(wake), DoGo(s, wake)))
  {
    hide Inv, LogOk, Noted, MayGo, DoGo;
    if s.client.JoinCheck? {
      LogLook(s, wake, l);
    } else if InJoin(s.client) {
      LogJoinGo(s, wake, l);
    } else {
      LogDetachGo(s, wake, l);
    }
  }

  lemma LogJoinGo(s: State, wake: set<nat>, l: Log)
    requires MayGo(s, wake) && InJoin(s.client) && !s.client.JoinCheck? && LogOk(s, l)
    ensures LogOk(DoGo(s, wake), Noted(l, s, Go(wake), DoGo(s, wake)))
  {
    TaskGoSees(s, wake);
    TaskGoLeads(s, wake);
    hide AtWorker, AtRest, Settled, MayGo, DoGo;
  }

  lemma LogDetachGo(s: State, wake: set<nat>, l: Log)
    requires MayGo(s, wake) && Outside(s.client) && !InJoin(s.client) && LogOk(s, l)
    ensures LogOk(DoGo(s, wake), Noted(l, s, Go(wake), DoGo(s, wake)))
  {
    TaskGoSees(s, wake);
    TaskGoLeads(s, wake);
    hide AtWorker, AtRest, Settled, MayGo, DoGo;
  }

  /** A step on a task has nothing to do with the pool. */
  lemma TaskGoSees(s: State, wake: set<nat>)
    requires MayGo(s, wake) && Outside(s.client)
    ensures DoGo(s, wake).owner == s.owner && DoGo(s, wake).pending == s.pending
  {
  }

  /** Where the client goes on a task, when it does not look at it. */
  lemma TaskGoLeads(s: State, wake: set<nat>)
    requires MayGo(s, wake) && Outside(s.client) && !s.client.JoinCheck?
    ensures var c, c' := s.client, DoGo(s, wake).client;
            match c
            case JoinLock(t, kind) => c' == JoinCheck(t, kind, false)
            case JoinWoken(t, kind, late) => c' == JoinCheck(t, kind, late)
            case JoinUnlock(_, r) => c' == Ready(r)
            case DetachLock(t) => c'.DetachUnlock? && c'.t == t
            case DetachUnlock(t, _) => c' == DetachDelete(t) || c' == Ready(Response.Detached(t))
            case DetachDelete(t) => c' == Ready(Response.Detached(t))
            case _ => false
  {
  }

  lemma LogLook(s: State, wake: set<nat>, l: Log)
    requires Inv(s) && MayGo(s, wake) && s.client.JoinCheck? && LogOk(s, l)
    ensures LogOk(DoGo(s, wake), Noted(l, s, Go(wake), DoGo(s, wake)))
  {
    hide Inv, AtWorker, AtRest;
    LookedAt(s);
    LateIsTimed(s);
    TaskGoSees(s, wake);
  }

  lemma LateIsTimed(s: State)
    requires Inv(s) && s.client.JoinCheck?
    ensures s.client.late ==> s.client.kind.Timed?
  {
    hide Sum, Locks, Threads, Stage, Wakeups, Queue, Counts, Tasks;
  }

  lemma LogPushGo(s: State, wake: set<nat>, l: Log)
    requires Inv(s) && MayGo(s, wake) && LogOk(s, l)
    requires Pushes(s.client) || s.client.PushUnlock?
    ensures LogOk(DoGo(s, wake), Noted(l, s, Go(wake), DoGo(s, wake)))
  {
    hide Inv, AtRest, Wake, Signal, LastSpawned;
    OwnerFacts(s);
    if s.client.PushLock? {
      LogPushLock(s, wake, l);
    }
  }

  lemma LogPushLock(s: State, wake: set<nat>, l: Log)
    requires Inv(s) && MayGo(s, wake) && LogOk(s, l) && s.client.PushLock?
    ensures LogOk(DoGo(s, wake), Noted(l, s, Go(wake), DoGo(s, wake)))
  {
    hide Inv, AtRest, Settled;
    PushBegins(s);
    LockTaken(s, wake);
  }

  /** Getting the pool's mutex changes neither the list nor a task. */
  lemma LockTaken(s: State, wake: set<nat>)
    requires MayGo(s, wake) && (s.client.PushLock? || s.client.DelLock?)
    ensures var s' := DoGo(s, wake); s'.owner.Client? && s'.pending == s.pending && s'.tasks == s.tasks
  {
    hide Wake, Broadcast;
  }

  lemma LogDelGo(s: State, wake: set<nat>, l: Log)
    requires Inv(s) && MayGo(s, wake) && LogOk(s, l) && InDelete(s.client)
    ensures LogOk(DoGo(s, wake), Noted(l, s, Go(wake), DoGo(s, wake)))
  {
    var c, s' := s.client, DoGo(s, wake);
    if c.DelLock? {
      LogDelLock(s, wake, l);
    } else {
      var l' := Noted(l, s, Go(wake), s');
      DelGoLeads(s, wake);
      GoesOnOk(s, l);
      GoesOnOk(s', l');
      hide Inv, LogOk, Noted, MayGo, DoGo, PastGuard;
      if c.DelFail? {
        RefusedOk(s, l);
      }
      NotedKeeps(l, s, Go(wake), s');
      EndOk(s', l');
    }
  }

  lemma GoesOnOk(s: State, l: Log)
    ensures InDelete(s.client) <==> s.client.DelLock? || s.client.DelFail? || PastGuard(s.client)
    ensures PastGuard(s.client) ==> (LogOk(s, l) <==> l.req == DeletePool && l.locked.Some? && l.locked.value.rest)
  {
  }

  lemma RefusedOk(s: State, l: Log)
    requires s.client.DelFail?
    ensures LogOk(s, l) <==> l.req == DeletePool && l.locked.Some? && !l.locked.value.rest && !l.changed
  {
  }

  lemma EndOk(s: State, l: Log)
    requires l.req == DeletePool
    ensures s.client.Ready? ==> (LogOk(s, l) <==> DeleteAnswer(s.client.r, l))
  {
  }

  /** A call that has had the pool's mutex notes nothing more of it, and no change while list and tasks stay. */
  lemma NotedKeeps(l: Log, s: State, a: Action, s': State)
    requires l.locked.Some?
    ensures var l' := Noted(l, s, a, s');
            && l'.req == l.req && l'.before == l.before && l'.locked == l.locked
            && (s'.pending == s.pending && s'.tasks == s.tasks ==> l'.changed == l.changed)
  {
    hide AtRest, Settled;
  }

  /** Where a delete goes, once it has the pool's mutex. */
  lemma DelGoLeads(s: State, wake: set<nat>)
    requires MayGo(s, wake) && InDelete(s.client) && !s.client.DelLock?
    ensures var c, s' := s.client, DoGo(s, wake);
            && s'.pending == s.pending && s'.tasks == s.tasks
            && match c
               case DelFail => s'.client == Ready(HasTasks)
               case DelDestroy => s'.client == Ready(PoolDeleted)
               case _ => PastGuard(s'.client)
  {
    hide Wake, Broadcast;
    if s.client.DelRelock? {
      DelRelockLeads(s, wake);
    }
  }

  lemma DelRelockLeads(s: State, wake: set<nat>)
    requires MayGo(s, wake) && s.client.DelRelock?
    ensures var s' := DoGo(s, wake);
            && s'.pending == s.pending && s'.tasks == s.tasks && (s'.client.DelUnlock? || s'.client.DelLast?)
  {
    hide Wake, Broadcast;
  }

  lemma LogDelLock(s: State, wake: set<nat>, l: Log)
    requires Inv(s) && MayGo(s, wake) && LogOk(s, l) && s.client.DelLock?
    ensures LogOk(DoGo(s, wake), Noted(l, s, Go(wake), DoGo(s, wake)))
  {
    var s' := DoGo(s, wake);
    var l' := Noted(l, s, Go(wake), s');
    DeleteBegins(s, wake);
    LockTaken(s, wake);
    DelLockLeads(s, wake);
    GoesOnOk(s', l');
    if s'.client.DelFail? {
      RefusedOk(s', l');
    }
    StartOk(s, l);
    FirstNoted(l, s, Go(wake), s');
    hide Inv, AtRest, MayGo, DoGo, LogOk, Noted;
  }

  lemma StartOk(s: State, l: Log)
    requires s.client.DelLock?
    ensures LogOk(s, l) <==> l.req == DeletePool && l.locked.None? && !l.changed && !s.owner.Client?
  {
  }

  /** The first time a call gets the pool's mutex it looks at the list and the workers. */
  lemma FirstNoted(l: Log, s: State, a: Action, s': State)
    requires !s.client.Ready? && l.locked.None? && !s.owner.Client? && s'.owner.Client?
    ensures var l' := Noted(l, s, a, s');
            && l'.req == l.req && l'.locked == Some(Look(|s.pending| == MAX_TASKS, AtRest(s)))
            && (s'.pending == s.pending && s'.tasks == s.tasks ==> l'.changed == l.changed)
  {
    hide AtRest, Settled;
  }

  lemma DelLockLeads(s: State, wake: set<nat>)
    requires MayGo(s, wake) && s.client.DelLock?
    ensures var c := DoGo(s, wake).client; c.DelFail? || c.DelUnlock? || c.DelLast?
  {
    hide Wake, Broadcast;
  }

  /** What a worker's step shows: the client may be woken, and the list gets shorter at most. */
  lemma WorkSees(s: State, w: nat, v: int)
    requires Inv(s) && MayWork(s, w)
    ensures var s' := DoWork(s, w, v);
            && (s'.owner.Client? ==> s.owner.Client?) && |s'.pending| <= |s.pending|
            && (|| s'.client == s.client
                || (s.client.PushWait? && s'.client == PushWoken(s.client.t, s.client.required))
                || (s.client.JoinWait? && s'.client == JoinWoken(s.client.t, s.client.kind, false)))
  {
    hide Inv;
    if s.workers[w].pc.Check? {
      TurnFacts(s, w);
    }
  }

  lemma LogWork(s: State, w: nat, v: int, l: Log)
    requires Inv(s) && MayWork(s, w) && LogOk(s, l)
    ensures LogOk(DoWork(s, w, v), Noted(l, s, Work(w, v), DoWork(s, w, v)))
  {
    hide Inv, LogOk, Noted, DoWork, MayWork;
    var s' := DoWork(s, w, v);
    OwnerFacts(s);
    WorkSees(s, w, v);
    WorkNoted(l, s, w, v, s');
    if s'.client == s.client {
      SameOk(s, s', l);
    } else {
      WokenOk(s, s', l);
    }
  }

  /** A worker's step adds to a call's record at most that the client sleeps on a task. */
  lemma WorkNoted(l: Log, s: State, w: nat, v: int, s': State)
    requires (s'.owner.Client? ==> s.owner.Client?) && |s'.pending| <= |s.pending|
    ensures Noted(l, s, Work(w, v), s')
         == if s.client.Ready? then l else l.(slept := l.slept || s'.client.JoinWait?)
  {
    hide AtRest, Settled;
  }

  lemma SameOk(s: State, s': State, l: Log)
    requires LogOk(s, l) && s'.client == s.client && (s'.owner.Client? ==> s.owner.Client?)
    ensures LogOk(s', l) && (s'.client.JoinWait? ==> LogOk(s', l.(slept := true)))
  {
  }

  lemma WokenOk(s: State, s': State, l: Log)
    requires LogOk(s, l)
    requires || (s.client.PushWait? && s'.client == PushWoken(s.client.t, s.client.required))
             || (s.client.JoinWait? && s'.client == JoinWoken(s.client.t, s.client.kind, false))
    ensures LogOk(s', l)
  {
  }

  lemma LogKept(s: State, a: Action, l: Log)
    requires Inv(s) && Enabled(s, a) && !a.Call? && LogOk(s, l)
    ensures LogOk(Do(s, a), Noted(l, s, a, Do(s, a)))
  {
    hide Inv, MayGo, DoGo, MayWork, DoWork, AtRest;
    match a
    case Go(wake) =>
      if Outside(s.client) {
        LogTaskGo(s, wake, l);
      } else if InDelete(s.client) {
        LogDelGo(s, wake, l);
      } else {
        LogPushGo(s, wake, l);
      }
    case Work(w, v) => LogWork(s, w, v, l);
    case _ =>
  }

  lemma {:induction false} LogHolds(r: Run, max: int, n: nat)
    requires FromStart(r, max)
    ensures LogOf(r, n).Some? ==> LogOk(r.path(n), LogOf(r, n).value)
    ensures LogOf(r, n).None? ==> r.path(n).client == Ready(Nothing)
  {
    hide Inv, Do, Enabled, HistoryOk, LogOk, Noted;
    StartIsReachable(r, max);
    if n > 0 {
      LogHolds(r, max, n - 1);
      InvAt(r, n - 1);
      assert StepAt(r, n - 1);
      var s := r.path(n - 1);
      match r.acts(n - 1)
      case None =>
      case Some(Call(req)) =>
        if !req.DeletePool? {
          HistoryHolds(r, max, n - 1, req.t);
        }
        CallEnabled(s, req);
        LogCall(s, req, if req.DeletePool? then Unmade else HistoryOf(r, n - 1, req.t));
      case Some(a) =>
        if LogOf(r, n - 1).Some? {
          LogKept(s, a, LogOf(r, n - 1).value);
        } else {
          NothingStays(s, a);
        }
    }
  }

  lemma CallEnabled(s: State, req: Request)
    requires Enabled(s, Call(req))
    ensures MayCall(s, req) && Do(s, Call(req)) == DoCall(s, req)
  {
  }

  lemma NothingStays(s: State, a: Action)
    requires Enabled(s, a) && !a.Call? && s.client.Ready?
    ensures Do(s, a).client == s.client
  {
    hide MayWork, DoWork;
    if a.Work? {
      ReadyOfWork(s, a.w, a.v);
    }
  }

  /** Every answer is the one its call must give. */
  lemma CallsAnswer(r: Run, max: int, n: nat)
    requires FromStart(r, max) && r.path(n).client.Ready?
    ensures LogOf(r, n).Some? ==> AnswerOk(r.path(n).client.r, LogOf(r, n).value)
  {
    LogHolds(r, max, n);
  }
}
