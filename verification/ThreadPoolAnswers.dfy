/**
 What the answers of the pool mean for the client: the value of a join, when a wait may give up, which calls its
 answers so far allow, how often a task is freed, and how many workers there are.
 */
module ThreadPoolAnswers {
  import opened Common
  import opened ThreadPool
  import opened ThreadPoolInvariant
  import opened ThreadPoolSafety
  import opened ThreadPoolFairness
  import opened ThreadPoolLiveness
  import opened ThreadPoolTimeouts
  import opened ThreadPoolCalls

  // ---------- the value of a join ----------

  /** What the last execution of `t` in the first `n` steps returned. */
  function Latest(r: Run, n: nat, t: nat): Option<int> {
    if n == 0 then None
    else
      match r.acts(n - 1)
      case Some(Work(w, v)) => if RunsIt(r.path(n - 1), w, t) then Some(v) else Latest(r, n - 1, t)
      case _ => Latest(r, n - 1, t)
  }

  /** Worker `w` is in the function of `t`. */
  predicate RunsIt(s: State, w: nat, t: nat) {
    w < |s.workers| && s.workers[w].pc == Executing(t)
  }

  predicate HappensAt(r: Run, n: nat, t: nat, e: Event) {
    r.acts(n).Some? && Enabled(r.path(n), r.acts(n).value) && Happens(r.path(n), r.acts(n).value, t, e)
  }

  /** How often it happened in the first `n` steps. */
  function Count(r: Run, n: nat, t: nat, e: Event): nat {
    if n == 0 then 0 else Count(r, n - 1, t, e) + if HappensAt(r, n - 1, t, e) then 1 else 0
  }

  lemma {:induction false} RecordsHold(r: Run, max: int, n: nat, t: nat, e: Event)
    requires FromStart(r, max)
    ensures Count(r, n, t, e) == Recorded(r.path(n), t, e) && Latest(r, n, t) == RecordedLast(r.path(n), t)
  {
    hide Inv, Do, Enabled, Happens, Recorded, RecordedLast;
    StartIsReachable(r, max);
    if n > 0 {
      RecordsHold(r, max, n - 1, t, e);
      InvAt(r, n - 1);
      assert StepAt(r, n - 1);
      if r.acts(n - 1).Some? {
        var s, a := r.path(n - 1), r.acts(n - 1).value;
        RecordOfAction(s, a, t, e);
        if a.Work? {
          WorkerIs(s, a);
        }
      }
    } else {
      NothingRecorded(r.path(0), t, e);
    }
  }

  lemma WorkerIs(s: State, a: Action)
    requires Enabled(s, a) && a.Work?
    ensures a.w < |s.workers|
  {
  }

  /** What a client that has the value of `t` may rely on. */
  predicate HasValue(s: State, t: nat, v: int) {
    RecordedLast(s, t) == Some(v) && Recorded(s, t, Runs) == Recorded(s, t, Queues) > 0
  }

  predicate ValueOk(s: State) {
    s.client.Ready? && s.client.r.Joined? ==> HasValue(s, s.client.r.t, s.client.r.v)
  }

  /** No worker touches a task that was joined. */
  lemma JoinedRests(s: State, w: nat, t: nat)
    requires Inv(s) && w < |s.workers| && HistoryOk(s, t, Back) && s.client.Ready?
    ensures s.workers[w].pc != Executing(t) && s.workers[w].pc != Starting(t)
  {
    hide Inv;
    TaskFacts(s, t);
    if HasTask(s.workers[w].pc) {
      TaskHere(s, w);
    }
  }

  lemma ValueKept(s: State, w: nat, v: int)
    requires Inv(s) && MayWork(s, w) && s.client.Ready? && s.client.r.Joined?
    requires HistoryOk(s, s.client.r.t, Back) && ValueOk(s)
    ensures ValueOk(DoWork(s, w, v))
  {
    var t := s.client.r.t;
    JoinedRests(s, w, t);
    ReadyOfWork(s, w, v);
    RecordOfWork(s, w, v, t, Runs);
    RecordOfWork(s, w, v, t, Queues);
    hide Inv, MayWork, DoWork, Recorded, RecordedLast;
  }

  lemma ValueGiven(s: State, wake: set<nat>)
    requires Inv(s) && MayGo(s, wake)
    ensures ValueOk(DoGo(s, wake))
  {
    hide Inv, MayGo, DoGo, Recorded, RecordedLast;
    var s' := DoGo(s, wake);
    if s'.client.Ready? && s'.client.r.Joined? {
      var t, v := s'.client.r.t, s'.client.r.v;
      JoinGoes(s, wake);
      JoinAnswers(s, t, v);
      RecordOfTask(s, wake, t, Runs);
      RecordOfTask(s, wake, t, Queues);
      NothingHappens(s, wake, t);
    }
  }

  lemma JoinGoes(s: State, wake: set<nat>)
    requires Inv(s) && MayGo(s, wake) && DoGo(s, wake).client.Ready? && DoGo(s, wake).client.r.Joined?
    ensures s.client == JoinUnlock(DoGo(s, wake).client.r.t, DoGo(s, wake).client.r)
  {
    hide Inv;
    CallGoes(s, wake);
    if s.client.JoinUnlock? {
      JoinAnswered(s);
    }
  }

  lemma NothingHappens(s: State, wake: set<nat>, t: nat)
    requires MayGo(s, wake) && s.client.JoinUnlock?
    ensures !Happens(s, Go(wake), t, Runs) && !Happens(s, Go(wake), t, Queues)
  {
  }

  lemma ValueStep(s: State, a: Action)
    requires Inv(s) && Enabled(s, a) && ValueOk(s)
    requires s.client.Ready? && s.client.r.Joined? ==> HistoryOk(s, s.client.r.t, Back)
    ensures ValueOk(Do(s, a))
  {
    hide Inv, MayGo, DoGo, MayWork, DoWork, HistoryOk;
    match a
    case Call(req) =>
    case Go(wake) => ValueGiven(s, wake);
    case Work(w, v) =>
      if s.client.Ready? {
        ReadyOfWork(s, w, v);
        if s.client.r.Joined? {
          ValueKept(s, w, v);
        }
      } else {
        WorkAnswersNothing(s, w, v);
      }
    case _ =>
  }

  /** The answer the client holds is in its history. */
  lemma {:induction false} AnswerIsKnown(r: Run, max: int, n: nat)
    requires FromStart(r, max) && r.path(n).client.Ready? && r.path(n).client.r.Joined?
    ensures HistoryOf(r, n, r.path(n).client.r.t) == Back
  {
    hide Inv, Do, Enabled, CallOf, Answers;
    StartIsReachable(r, max);
    if n > 0 {
      InvAt(r, n - 1);
      assert StepAt(r, n - 1);
      if r.acts(n - 1).Some? {
        ReadyStep(r.path(n - 1), r.acts(n - 1).value);
      }
      if !Answering(r.acts(n - 1), r.path(n)) {
        AnswerIsKnown(r, max, n - 1);
      }
    }
  }

  /** An answer is given by the client's own step, or was there before. */
  lemma ReadyStep(s: State, a: Action)
    requires Enabled(s, a) && Do(s, a).client.Ready?
    ensures Answering(Some(a), Do(s, a)) || Do(s, a).client == s.client
  {
    hide MayWork, DoWork;
    if a.Work? {
      WorkAnswersNothing(s, a.w, a.v);
    }
  }

  lemma {:induction false} ValueHolds(r: Run, max: int, n: nat)
    requires FromStart(r, max)
    ensures ValueOk(r.path(n))
  {
    hide Inv, Do, Enabled, HistoryOk, HasValue;
    StartIsReachable(r, max);
    if n > 0 {
      ValueHolds(r, max, n - 1);
      InvAt(r, n - 1);
      assert StepAt(r, n - 1);
      var s := r.path(n - 1);
      if s.client.Ready? && s.client.r.Joined? {
        AnswerIsKnown(r, max, n - 1);
        HistoryHolds(r, max, n - 1, s.client.r.t);
      }
      if r.acts(n - 1).Some? {
        ValueStep(s, r.acts(n - 1).value);
      }
    }
  }

  /** A join that answers with a value answers with what the latest execution returned, every push of the task
      having been executed. */
  lemma JoinedValue(r: Run, max: int, n: nat, t: nat, v: int)
    requires FromStart(r, max) && r.path(n).client == Ready(Response.Joined(t, v))
    ensures Latest(r, n, t) == Some(v) && Count(r, n, t, Runs) == Count(r, n, t, Queues) > 0
  {
    hide Inv, Happens, Recorded, RecordedLast;
    ValueHolds(r, max, n);
    RecordsHold(r, max, n, t, Runs);
    RecordsHold(r, max, n, t, Queues);
  }

  // ---------- joins in fair runs ----------

  predicate TimesOut(r: Run, i: nat) {
    r.acts(i) == Some(TimeOut)
  }

  ghost predicate NoTimeOut(r: Run, n: nat, m: nat) {
    forall i: nat :: n <= i < m ==> !TimesOut(r, i)
  }

  /** Within a call its record names it, and counts the waits that ran out. */
  lemma {:induction false} LogWithin(r: Run, max: int, req: Request, q: Request, n: nat, m: nat)
    requires FromStart(r, max) && n < m && r.acts(n) == Some(Call(req)) && InCall(r, q, n + 1, m)
    ensures LogOf(r, m).Some? && LogOf(r, m).value.req == req
    ensures LogOf(r, m).value.before == if req.DeletePool? then Unmade else HistoryOf(r, n, req.t)
    ensures LogOf(r, m).value.timeouts > 0 <==> !NoTimeOut(r, n, m)
  {
    hide Inv, Do, Enabled, HistoryOk, AnswerOk, LogOk;
    if m > n + 1 {
      LogWithin(r, max, req, q, n, m - 1);
      assert StepAt(r, m - 1);
      var s := r.path(m - 1);
      CallsAreAll(s.client);
      assert CallOf(s.client) == Some(q);
      if r.acts(m - 1).Some? {
        BusyCalls(s, r.acts(m - 1).value);
      }
      assert NoTimeOut(r, n, m) <==> NoTimeOut(r, n, m - 1) && !TimesOut(r, m - 1);
    } else {
      assert NoTimeOut(r, n, m) by {
        assert !TimesOut(r, n);
      }
    }
  }

  lemma BusyCalls(s: State, a: Action)
    requires Enabled(s, a) && !s.client.Ready?
    ensures !a.Call?
  {
  }

  /** A join of a pushed task that may wait answers, in a fair run, with what the latest execution returned, unless
      its wait ran out; then, and only then, it answers with a timeout. */
  lemma JoinComesBack(r: Run, max: int, t: nat, kind: Join, n: nat) returns (m: nat)
    requires FromStart(r, max) && Fair(r) && r.acts(n) == Some(Call(JoinTask(t, kind)))
    requires HistoryOf(r, n, t).Given? && !kind.Now?
    ensures m > n && InCall(r, JoinTask(t, Forever), n + 1, m) && r.path(m).client.Ready?
    ensures var answer := r.path(m).client.r;
            if kind.Timed? && !NoTimeOut(r, n, m) then answer == TimedOut(t)
            else Latest(r, m, t).Some? && answer == Response.Joined(t, Latest(r, m, t).value)
  {
    hide Inv, Do, Enabled, HistoryOk, LogOk, Noted, Latest;
    StartIsReachable(r, max);
    HistoryHolds(r, max, n, t);
    assert StepAt(r, n);
    JoinStarts(r.path(n), t, kind);
    m := EveryCallReturns(r, JoinTask(t, Forever), n + 1);
    LogWithin(r, max, JoinTask(t, kind), JoinTask(t, Forever), n, m);
    CallsAnswer(r, max, m);
    var answer := r.path(m).client.r;
    if answer.Joined? {
      JoinedValue(r, max, m, t, answer.v);
    }
  }

  lemma JoinStarts(s: State, t: nat, kind: Join)
    requires Enabled(s, Call(JoinTask(t, kind))) && HistoryOk(s, t, Given)
    ensures Do(s, Call(JoinTask(t, kind))).client == JoinLock(t, kind)
  {
  }

  // ---------- what the client may call ----------

  predicate PoolGone(r: Run, n: nat) {
    n > 0 && (PoolGone(r, n - 1) || (Answering(r.acts(n - 1), r.path(n)) && r.path(n).client.r.PoolDeleted?))
  }

  lemma {:induction false} GoneIsFreed(r: Run, max: int, n: nat)
    requires FromStart(r, max)
    ensures PoolGone(r, n) <==> r.path(n).freed
  {
    hide Inv, Do, Enabled;
    StartIsReachable(r, max);
    if n > 0 {
      GoneIsFreed(r, max, n - 1);
      InvAt(r, n - 1);
      assert StepAt(r, n - 1);
      if r.acts(n - 1).Some? {
        FreedStep(r.path(n - 1), r.acts(n - 1).value);
      }
    }
  }

  lemma FreedStep(s: State, a: Action)
    requires Inv(s) && Enabled(s, a)
    ensures var s' := Do(s, a); s'.freed <==> s.freed || (Answering(Some(a), s') && s'.client.r.PoolDeleted?)
  {
    hide Inv, MayGo, DoGo;
    match a
    case Go(wake) => FreedGo(s, wake);
    case _ =>
  }

  lemma FreedGo(s: State, wake: set<nat>)
    requires Inv(s) && MayGo(s, wake)
    ensures var s' := DoGo(s, wake); s'.freed <==> s.freed || (s'.client.Ready? && s'.client.r.PoolDeleted?)
  {
    hide Inv, Wake, Signal, Broadcast;
    if s.client.JoinUnlock? {
      JoinAnswered(s);
    }
  }

  /** A client may push a task it created or has joined, to a pool it has not deleted, and join, detach or delete
      any task it has not given up. */
  predicate Allowed(req: Request, h: History, gone: bool) {
    match req
    case NewTask(_) => h.Unmade?
    case Push(_) => (h.Made? || h.Back?) && !gone
    case JoinTask(_, _) => h.Made? || h.Given? || h.Back?
    case Detach(_) => h.Made? || h.Given? || h.Back?
    case DeleteTask(_) => h.Made? || h.Given? || h.Back?
    case DeletePool => !gone
  }

  /** Which calls are right follows from the answers the client got. */
  lemma CallsByHistory(r: Run, max: int, n: nat, req: Request)
    requires FromStart(r, max) && r.path(n).client.Ready?
    ensures MayCall(r.path(n), req)
       <==> Allowed(req, if req.DeletePool? then Unmade else HistoryOf(r, n, req.t), PoolGone(r, n))
  {
    hide Inv;
    GoneIsFreed(r, max, n);
    if !req.DeletePool? {
      HistoryHolds(r, max, n, req.t);
    }
  }

  // ---------- a delete of a task ----------

  /** A call of `thread_task_delete` is over at once: it frees the task, for the only time, unless the task was
      pushed and not joined since; then it changes nothing. */
  lemma DeletesOnce(r: Run, max: int, t: nat, n: nat)
    requires FromStart(r, max) && r.acts(n) == Some(Call(DeleteTask(t)))
    ensures if HistoryOf(r, n, t).Given?
            then
              && r.path(n + 1) == r.path(n).(client := Ready(InPool(t)))
              && Count(r, n + 1, t, Frees) == Count(r, n, t, Frees) == 0
            else
              && r.path(n + 1).client == Ready(Deleted(t))
              && Count(r, n, t, Frees) == 0 && forall m: nat :: m > n ==> Count(r, m, t, Frees) == 1
  {
    hide Inv, Happens, HistoryOk;
    assert StepAt(r, n);
    StartIsReachable(r, max);
    HistoryHolds(r, max, n, t);
    RecordsHold(r, max, n, t, Frees);
    RecordsHold(r, max, n + 1, t, Frees);
    DeleteCall(r.path(n), t, HistoryOf(r, n, t));
    if !HistoryOf(r, n, t).Given? {
      forall m: nat | m > n ensures Count(r, m, t, Frees) == 1 {
        CountGrows(r, n + 1, m, t, Frees);
        InvAt(r, m);
        RecordsHold(r, max, m, t, Frees);
        RecordsAgree(r.path(m), t);
      }
    }
  }

  lemma DeleteCall(s: State, t: nat, h: History)
    requires MayCall(s, DeleteTask(t)) && HistoryOk(s, t, h)
    ensures var s' := DoCall(s, DeleteTask(t));
            && Recorded(s, t, Frees) == 0
            && if h.Given? then s' == s.(client := Ready(InPool(t)))
               else s'.client == Ready(Deleted(t)) && Recorded(s', t, Frees) == 1
  {
  }

  lemma {:induction false} CountGrows(r: Run, n: nat, m: nat, t: nat, e: Event)
    requires n <= m
    ensures Count(r, n, t, e) <= Count(r, m, t, e)
    decreases m
  {
    hide HappensAt;
    if n < m {
      CountGrows(r, n, m - 1, t, e);
    }
  }

  // ---------- the number of workers ----------

  lemma MaxKept(s: State, a: Action)
    requires Enabled(s, a)
    ensures Do(s, a).max == s.max
  {
    hide Wake, Signal, Broadcast, MayGo, DoGo;
    if a.Go? {
      MaxOfGo(s, a.wake);
    }
  }

  lemma MaxOfGo(s: State, wake: set<nat>)
    requires MayGo(s, wake)
    ensures DoGo(s, wake).max == s.max
  {
    hide Wake, Signal, Broadcast;
  }

  lemma {:induction false} MaxIs(r: Run, max: int, n: nat)
    requires FromStart(r, max)
    ensures r.path(n).max == max
  {
    hide Do, Enabled;
    if n > 0 {
      MaxIs(r, max, n - 1);
      assert StepAt(r, n - 1);
      if r.acts(n - 1).Some? {
        MaxKept(r.path(n - 1), r.acts(n - 1).value);
      }
    }
  }

  /** A pool made for `max` threads has at most `max` workers; a push that is not refused starts one just when there
      are fewer and each has a task. */
  lemma WorkersWithinMax(r: Run, max: int, n: nat)
    requires FromStart(r, max)
    ensures |r.path(n).workers| <= max <= MAX_THREADS
    ensures var s := r.path(n);
            s.client.PushLock? && s.owner.Free? && |s.pending| < MAX_TASKS ==>
              (|| |DoGo(s, {}).workers| == |s.workers| + 1
               || |DoGo(s, {}).workers| == |s.workers|)
              && (|DoGo(s, {}).workers| > |s.workers| <==>
                   |s.workers| < max && forall w :: 0 <= w < |s.workers| ==> HasTask(s.workers[w].pc))
  {
    hide Sum, Tasks, Stage, Wakeups, ClientOk, Locks;
    var s := r.path(n);
    StartIsReachable(r, max);
    InvAt(r, n);
    MaxIs(r, max, n);
    if s.client.PushLock? && s.owner.Free? && |s.pending| < MAX_TASKS {
      PushFacts(s);
      SpawnsWhenAllBusy(s);
    }
  }
}
