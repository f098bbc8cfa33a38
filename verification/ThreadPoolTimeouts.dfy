/**
 When a join of a finished task answers with its result, and when with a timeout.
 */
module ThreadPoolTimeouts {
  import opened Common
  import opened ThreadPool
  import opened ThreadPoolInvariant
  import opened ThreadPoolProgress
  import opened ThreadPoolFairness
  import opened ThreadPoolLiveness

  // ---------- at the wait loop ----------

  /** A join that looks at its task answers with what its latest execution returned just when that execution is
      published and the wait has not run out: one that ran out answers with a timeout although the result is there. It
      goes to sleep just while the task is pending or with a worker and it may wait. */
  lemma JoinAnswersAtLoop(s: State, wake: set<nat>)
    requires Inv(s) && MayGo(s, wake) && s.client.JoinCheck?
    ensures var t, kind, late, c := s.client.t, s.client.kind, s.client.late, DoGo(s, wake).client;
            var task := s.tasks[t];
            && (task.place.Nowhere? <==> t !in s.pending && !AtWorker(s, t))
            && (task.place.Nowhere? ==> task.starts == task.pushes == |task.outcomes| > 0)
            && ((exists v :: c == JoinUnlock(t, Response.Joined(t, v))) <==> task.place.Nowhere? && !late)
            && (task.place.Nowhere? && !late ==> c == JoinUnlock(t, Response.Joined(t, Last(task.outcomes))))
            && (c == JoinUnlock(t, TimedOut(t)) <==> late || (kind.Now? && !task.place.Nowhere?))
            && (c == JoinWait(t, kind) <==> !task.place.Nowhere? && !late && !kind.Now?)
  {
    LookedAt(s);
    hide Inv, AtWorker;
    var t := s.client.t;
    assert s.tasks[t].place.Nowhere? && !s.client.late ==>
             DoGo(s, wake).client == JoinUnlock(t, Response.Joined(t, Last(s.tasks[t].outcomes)));
  }

  ghost predicate AtWorker(s: State, t: nat) {
    exists w :: 0 <= w < |s.workers| && HasTask(s.workers[w].pc) && s.workers[w].pc.t == t
  }

  /** What a join sees of its task. */
  lemma LookedAt(s: State)
    requires Inv(s) && s.client.JoinCheck?
    ensures s.client.t in s.tasks
    ensures var t := s.client.t;
            var task := s.tasks[t];
            && (task.finished <==> t !in s.pending && !AtWorker(s, t)) && (task.finished <==> task.place.Nowhere?)
            && (task.finished ==> task.starts == task.pushes == |task.outcomes| > 0)
            && (task.finished ==> task.result == Last(task.outcomes))
  {
    hide Sum, Locks, Threads, Stage, Wakeups, Queue, Counts;
    var t := s.client.t;
    assert TaskOk(t, s.tasks[t], s.pending, s.workers, ClientTask(s.client));
    forall w | 0 <= w < |s.workers| ensures WorkerOk(w, s.workers[w].pc, s.tasks) {
    }
    if s.tasks[t].place.Held? {
      HeldFacts(s, t);
    }
  }

  // ---------- a task finished before the call ----------

  /** In a join of `t`, which is finished with `v`, that has not waited, or past it. */
  predicate Straight(s: State, t: nat, v: int) {
    match s.client
    case JoinLock(x, _) => x == t && FinishedWith(s, t, v)
    case JoinCheck(x, _, late) => x == t && !late && FinishedWith(s, t, v)
    case JoinUnlock(x, r) => x == t && r == Response.Joined(t, v)
    case _ => false
  }

  predicate FinishedWith(s: State, t: nat, v: int) {
    t in s.tasks && s.tasks[t].inPool && s.tasks[t].finished && s.tasks[t].result == v
  }

  lemma FinishedStays(s: State, w: nat, x: int, t: nat, v: int)
    requires Inv(s) && MayWork(s, w) && FinishedWith(s, t, v)
    ensures FinishedWith(DoWork(s, w, x), t, v)
  {
    hide Inv;
    var pc := s.workers[w].pc;
    WorkerTaskFacts(s, w);
    if HasTask(pc) {
      TaskHere(s, w);
    } else if pc.Check? {
      TurnFacts(s, w);
      if s.pending != [] {
        TaskFacts(s, s.pending[0]);
      }
    }
  }

  lemma StraightGoes(s: State, wake: set<nat>, t: nat, v: int)
    requires MayGo(s, wake) && Straight(s, t, v)
    ensures Straight(DoGo(s, wake), t, v) || DoGo(s, wake).client == Ready(Response.Joined(t, v))
  {
  }

  lemma ClientOfWork(s: State, w: nat, x: int)
    requires MayWork(s, w) && Steady(s.client)
    ensures DoWork(s, w, x).client == s.client
  {
  }

  lemma StraightKept(s: State, a: Action, t: nat, v: int)
    requires Inv(s) && Enabled(s, a) && Straight(s, t, v)
    ensures Straight(Do(s, a), t, v) || Do(s, a).client == Ready(Response.Joined(t, v))
  {
    hide Inv, MayGo, DoGo, MayWork, DoWork;
    match a
    case Go(wake) => StraightGoes(s, wake, t, v);
    case Work(w, x) =>
      ClientOfWork(s, w, x);
      if !s.client.JoinUnlock? {
        FinishedStays(s, w, x, t, v);
      }
    case _ =>
  }

  lemma {:induction false} StraightStays(r: Run, t: nat, v: int, n: nat, m: nat)
    requires Reachable(r) && n <= m && Straight(r.path(n), t, v) && InCall(r, JoinTask(t, Forever), n, m)
    ensures Straight(r.path(m), t, v) || r.path(m).client == Ready(Response.Joined(t, v))
    decreases m - n
  {
    hide Inv, Do, Enabled, Straight;
    if n < m {
      StraightStays(r, t, v, n, m - 1);
      InvAt(r, m - 1);
      CallsAreAll(r.path(m - 1).client);
      assert StepAt(r, m - 1);
      if r.acts(m - 1).Some? {
        StraightKept(r.path(m - 1), r.acts(m - 1).value, t, v);
      }
    }
  }

  /** A join of any kind that is called when its task is finished answers with its result. */
  lemma FinishedIsJoined(r: Run, t: nat, kind: Join, n: nat) returns (m: nat)
    requires Fair(r) && r.acts(n) == Some(Call(JoinTask(t, kind)))
    requires var s := r.path(n); t in s.tasks && s.tasks[t].inPool && s.tasks[t].finished
    ensures m > n && InCall(r, JoinTask(t, Forever), n + 1, m)
    ensures r.path(m).client == Ready(Response.Joined(t, r.path(n).tasks[t].result))
  {
    hide Inv, MayGo, MayWork;
    var v, q := r.path(n).tasks[t].result, JoinTask(t, Forever);
    assert StepAt(r, n);
    assert Straight(r.path(n + 1), t, v);
    m := EveryCallReturns(r, q, n + 1);
    StraightStays(r, t, v, n + 1, m);
    assert AnsweredAt(r, q, m);
  }

  // ---------- a task that finishes during the call ----------

  /** The run ends with a timed join that finds its task finished and answers with a timeout. */
  predicate EndsLate(path: seq<State>, acts: seq<Action>, t: nat) {
    var n := |acts|;
    && |path| == n + 1 && n >= 2
    && path[n - 2].client == JoinCheck(t, Timed, true) && t in path[n - 2].tasks && path[n - 2].tasks[t].finished
    && acts[n - 2..] == [Go({}), Go({})] && path[n].client == Ready(Response.TimedOut(t))
  }

  /** A timed join is called from `s`, no other call is, and it answers late. */
  predicate LateRun(path: seq<State>, acts: seq<Action>, s: State, t: nat) {
    && IsRun(path, acts) && path[0] == s && acts != [] && acts[0] == Call(JoinTask(t, Timed))
    && (forall i :: 1 <= i < |acts| ==> !acts[i].Call?)
    && EndsLate(path, acts, t)
  }

  lemma RunAdds(path: seq<State>, acts: seq<Action>, a: Action)
    requires IsRun(path, acts) && Enabled(path[|acts|], a)
    ensures IsRun(path + [Do(path[|acts|], a)], acts + [a])
  {
    hide Do, Enabled;
  }

  /** In a timed join that has run out. */
  predicate RunOut(s: State, t: nat) {
    s.client == JoinWoken(t, Timed, true) && t in s.tasks
  }

  /** A worker can go on until the task is finished and its mutex free. */
  lemma WorkerIsUp(s: State, t: nat) returns (w: nat)
    requires Inv(s) && RunOut(s, t) && !(s.tasks[t].finished && s.tasks[t].owner.Free?)
    ensures MayWork(s, w)
  {
    hide Sum, Locks, Threads, Wakeups, Queue, Counts, Tasks, MayWork, Stage;
    var s' := s.(client := Ready(Nothing));
    assert Inv(s') && s.tasks[t].inPool;
    SameWork(s, s');
    if forall w: nat :: !MayWork(s, w) {
      assert Stuck(s');
      StuckMeansDone(s');
    }
    w :| MayWork(s, w);
  }

  lemma SameWork(s: State, s': State)
    requires s' == s.(client := s'.client)
    ensures forall w: nat :: MayWork(s, w) <==> MayWork(s', w)
  {
  }

  /** The workers execute the task while the join waits for its mutex. */
  lemma {:induction false} WorkersFinish(path: seq<State>, acts: seq<Action>, t: nat)
      returns (path': seq<State>, acts': seq<Action>)
    requires IsRun(path, acts) && Inv(path[|acts|]) && RunOut(path[|acts|], t)
    ensures IsRun(path', acts') && |acts| <= |acts'| && acts'[..|acts|] == acts && path'[0] == path[0]
    ensures forall i :: |acts| <= i < |acts'| ==> acts'[i].Work?
    ensures Inv(path'[|acts'|]) && RunOut(path'[|acts'|], t)
    ensures path'[|acts'|].tasks[t].finished && path'[|acts'|].tasks[t].owner.Free?
    decreases ThreadPoolProgress.Left(path[|acts|])
  {
    hide Inv, ThreadPoolProgress.Left, MayWork, DoWork;
    var s := path[|acts|];
    if s.tasks[t].finished && s.tasks[t].owner.Free? {
      path', acts' := path, acts;
    } else {
      var w := WorkerIsUp(s, t);
      var a := Work(w, 0);
      InvKept(s, a);
      LeftIsNat(s);
      LeftIsNat(Do(s, a));
      WorkIsProgress(s, w, 0);
      ClientOfWork(s, w, 0);
      KnownStays(s, w, 0, t);
      RunAdds(path, acts, a);
      path', acts' := WorkersFinish(path + [Do(s, a)], acts + [a], t);
      assert acts == (acts + [a])[..|acts|] == acts'[..|acts|];
    }
  }

  lemma KnownStays(s: State, w: nat, v: int, t: nat)
    requires MayWork(s, w) && t in s.tasks
    ensures t in DoWork(s, w, v).tasks
  {
  }

  /** The join runs out of time before any worker goes on. */
  lemma RunsOut(s: State, t: nat) returns (path: seq<State>, acts: seq<Action>)
    requires Inv(s) && s.client.Ready? && Usable(s, t) && s.tasks[t].inPool && !s.tasks[t].finished
    ensures IsRun(path, acts) && path[0] == s && RunOut(path[|acts|], t) && Inv(path[|acts|])
    ensures acts == [Call(JoinTask(t, Timed)), Go({}), Go({}), TimeOut]
  {
    hide Inv;
    TaskFacts(s, t);
    WhoseTask(s, t);
    var s1 := Do(s, Call(JoinTask(t, Timed)));
    var s2 := Do(s1, Go({}));
    var s3 := Do(s2, Go({}));
    var s4 := Do(s3, TimeOut);
    path, acts := [s, s1, s2, s3, s4], [Call(JoinTask(t, Timed)), Go({}), Go({}), TimeOut];
    InvOfRun(path, acts, 4);
  }

  lemma WhoseTask(s: State, t: nat)
    requires Inv(s) && t in s.tasks && !s.tasks[t].finished && s.client.Ready?
    ensures s.tasks[t].owner.Free?
  {
    hide Sum, Locks, Threads, Stage, Wakeups, Queue, Counts;
    assert TaskOk(t, s.tasks[t], s.pending, s.workers, ClientTask(s.client));
  }

  /** The task being finished, the join still answers with a timeout. */
  lemma AnswersLate(path: seq<State>, acts: seq<Action>, t: nat) returns (path': seq<State>, acts': seq<Action>)
    requires IsRun(path, acts) && RunOut(path[|acts|], t)
    requires path[|acts|].tasks[t].finished && path[|acts|].tasks[t].owner.Free?
    ensures IsRun(path', acts') && acts' == acts + [Go({}), Go({}), Go({})] && path'[0] == path[0]
    ensures EndsLate(path', acts', t)
  {
    var s := path[|acts|];
    var s1 := Do(s, Go({}));
    var s2 := Do(s1, Go({}));
    var s3 := Do(s2, Go({}));
    var p, a := [s, s1, s2, s3], [Go({}), Go({}), Go({})];
    assert IsRun(p, a);
    hide Do, Enabled;
    RunsJoin(path, acts, p, a);
    path', acts' := path[..|acts|] + p, acts + a;
    assert path'[|acts|..] == p;
  }

  lemma LateRunExists(s: State, t: nat) returns (path: seq<State>, acts: seq<Action>)
    requires Inv(s) && s.client.Ready? && Usable(s, t) && s.tasks[t].inPool && !s.tasks[t].finished
    ensures LateRun(path, acts, s, t)
  {
    hide Inv, IsRun;
    var p, a := RunsOut(s, t);
    var p', a' := WorkersFinish(p, a, t);
    path, acts := AnswersLate(p', a', t);
    forall i | 1 <= i < |acts| ensures !acts[i].Call? {
      assert i < 4 ==> acts[i] == a'[..4][i] == a[i];
      assert 4 <= i < |a'| ==> acts[i] == a'[i];
    }
    assert acts[0] == a'[..4][0];
  }

  lemma {:induction false} StraightAlong(path: seq<State>, acts: seq<Action>, t: nat, v: int, n: nat)
    requires IsRun(path, acts) && Inv(path[0]) && 1 <= n <= |acts| && Straight(path[1], t, v)
    requires forall i :: 1 <= i < |acts| ==> !acts[i].Call?
    ensures Straight(path[n], t, v) || path[n].client == Ready(Response.Joined(t, v))
  {
    hide Inv, Do, Enabled, Straight;
    if n > 1 {
      StraightAlong(path, acts, t, v, n - 1);
      InvOfRun(path, acts, n - 1);
      var s, a := path[n - 1], acts[n - 1];
      if Straight(s, t, v) {
        StraightKept(s, a, t, v);
      } else {
        OutsideCalls(s, a);
      }
    }
  }

  lemma OutsideCalls(s: State, a: Action)
    requires Enabled(s, a) && s.client.Ready? && !a.Call?
    ensures Do(s, a).client == s.client
  {
    hide DoWork, MayWork;
    if a.Work? {
      ReadyOfWork(s, a.w, a.v);
    }
  }

  lemma ReadyOfWork(s: State, w: nat, v: int)
    requires MayWork(s, w) && s.client.Ready?
    ensures DoWork(s, w, v).client == s.client
  {
  }

  /** A timed join may answer with a timeout although its task is finished just when the task is not finished at the
      call. */
  lemma LateAnswerIff(s: State, t: nat)
    requires Inv(s) && s.client.Ready? && Usable(s, t) && s.tasks[t].inPool
    ensures (exists path, acts :: LateRun(path, acts, s, t)) <==> !s.tasks[t].finished
  {
    hide Inv, MayGo, MayWork;
    if !s.tasks[t].finished {
      var path, acts := LateRunExists(s, t);
    }
    if path, acts :| LateRun(path, acts, s, t) {
      if s.tasks[t].finished {
        assert Straight(path[1], t, s.tasks[t].result);
        StraightAlong(path, acts, t, s.tasks[t].result, |acts|);
      }
    }
  }

  // ---------- a run from the start ----------

  /** A worker was created for the first push, which waits for it ... */
  const ONE_SPAWNED :=
    State(1, 0, 0, -1, 0, 0, [], [0], Free, false, [Thread(0, Spawned)], map[0 := NEW_TASK], PushWait(0, 1))

  /** ... and it went to sleep before the push went on. */
  const ONE_ASLEEP :=
    State(1, 1, 1, -1, 0, 0, [], [0], Free, false, [Thread(0, Waiting)], map[0 := NEW_TASK], PushWoken(0, 1))

  lemma OneSpawned() returns (path: seq<State>, acts: seq<Action>)
    ensures IsRun(path, acts) && Create(1) == NewPool(path[0]) && path[|acts|] == ONE_SPAWNED
  {
    hide Wake, DoWork, MayWork;
    var s0 := Create(1).s;
    var s1 := s0.(tasks := map[0 := NEW_TASK], client := Ready(Created(0)));
    var s2 := s1.(client := PushLock(0));
    var s3 := s2.(owner := Client, threads := [0], workers := [Thread(0, Spawned)], client := PushCheck(0, 1));
    path := [s0, s1, s2, s3, ONE_SPAWNED];
    acts := [Call(NewTask(0)), Call(Push(0)), Go({}), Go({})];
  }

  lemma OneAsleep() returns (path: seq<State>, acts: seq<Action>)
    ensures IsRun(path, acts) && path[0] == ONE_SPAWNED && path[|acts|] == ONE_ASLEEP
  {
    hide Wake, DoGo, MayGo;
    path := [ONE_SPAWNED, ONE_ASLEEP.(owner := Worker(0), workers := [Thread(0, Check)]), ONE_ASLEEP];
    acts := [Work(0, 0), Work(0, 0)];
  }

  /** Then the task is queued, and the worker woken. */
  const ONE_QUEUED :=
    State(1, 1, 1, -1, 1, 0, [0], [0], Free, false, [Thread(0, Woken)], map[0 := Enqueued(NEW_TASK)], Ready(Pushed(0)))

  lemma OneQueued() returns (path: seq<State>, acts: seq<Action>)
    ensures IsRun(path, acts) && path[0] == ONE_ASLEEP && path[|acts|] == ONE_QUEUED
    ensures Usable(ONE_QUEUED, 0) && ONE_QUEUED.tasks[0].inPool && !ONE_QUEUED.tasks[0].finished
  {
    var s0, s3 := ONE_ASLEEP, ONE_QUEUED;
    var s1 := s0.(owner := Client, client := PushCheck(0, 1));
    path := [s0, s1, s3.(owner := Client, client := PushUnlock(0)), s3];
    acts := [Go({}), Go({0}), Go({})];
  }

  /** A run from a new pool to there. */
  lemma UntilQueued() returns (path: seq<State>, acts: seq<Action>)
    ensures IsRun(path, acts) && Create(1) == NewPool(path[0]) && path[|acts|] == ONE_QUEUED && Inv(ONE_QUEUED)
  {
    hide Inv, Do, Enabled;
    var p0, a0 := OneSpawned();
    var p', a' := OneAsleep();
    RunsJoin(p0, a0, p', a');
    var p, a := p0[..|a0|] + p', a0 + a';
    assert p[0] == p0[0] && p[|a|] == p'[|a'|];
    p', a' := OneQueued();
    RunsJoin(p, a, p', a');
    path, acts := p[..|a|] + p', a + a';
    CreateInv(1);
    InvOfRun(path, acts, |acts|);
  }

  /** A run from a new pool: a task is pushed, a timed join of it runs out, the task finishes before the join has the
      task's mutex again, and the join answers with a timeout. */
  lemma LateAnswerFromStart() returns (path: seq<State>, acts: seq<Action>)
    ensures IsRun(path, acts) && Create(1) == NewPool(path[0])
    ensures EndsLate(path, acts, 0)
  {
    hide Inv, Do, Enabled;
    var p1, a1 := UntilQueued();
    var s := p1[|a1|];
    var p', a' := OneQueued();
    var p2, a2 := LateRunExists(s, 0);
    RunsJoin(p1, a1, p2, a2);
    path, acts := p1[..|a1|] + p2, a1 + a2;
    assert path[|a1|..] == p2;
    assert path[0] == p1[0];
  }
}
