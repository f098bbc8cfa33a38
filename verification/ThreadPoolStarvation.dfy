/**
 Why tasks complete only once pushes stop: the pending list is a stack, and in a fair endless run of a pool with one
 worker the older of two pending tasks is never taken, because each time the worker is done a newer task is there.
 */
module ThreadPoolStarvation {
  import opened Common
  import opened ThreadPool
  import opened ThreadPoolInvariant
  import opened ThreadPoolProgress
  import opened ThreadPoolFairness
  import opened ThreadPoolLiveness
  import opened ThreadPoolTimeouts

  const OLD: nat := 2   // the task that waits

  // ---------- one round ----------

  /** One worker, two pushed tasks that take turns, and the old one below them. */
  predicate Frame(s: State) {
    && s.max == s.threadCount == 1 && s.exitIdx == -1 && s.threads == [0] && !s.freed
    && |s.workers| == 1 && s.workers[0].idx == 0
    && {0, 1, OLD} <= s.tasks.Keys
    && s.pending != [] && s.pending[|s.pending| - 1] == OLD && s.pendingCount == |s.pending|
  }

  predicate Pair(a: nat, b: nat) {
    (a == 0 && b == 1) || (a == 1 && b == 0)
  }

  predicate Out(task: Task) {
    !task.inPool && !task.detached && task.freed == 0 && task.owner.Free?
  }

  predicate In(task: Task) {
    task.inPool && !task.detached && task.freed == 0 && task.owner.Free?
  }

  predicate Counted(s: State, idle: int, pending: nat) {
    s.idle == idle && s.running == 1 - idle && |s.pending| == pending
  }

  /** The worker executes `a`, and the client has `b` back. */
  predicate Begun(s: State, a: nat, b: nat) {
    && Frame(s) && Pair(a, b) && Counted(s, 0, 1) && s.client.Ready? && s.owner.Free?
    && s.workers[0].pc == Executing(a) && In(s.tasks[a]) && Out(s.tasks[b])
  }

  /** `b` is pushed meanwhile. */
  predicate BothIn(s: State, a: nat, b: nat) {
    && Frame(s) && Pair(a, b) && Counted(s, 0, 2) && s.client.Ready? && s.owner.Free?
    && s.workers[0].pc == Executing(a) && In(s.tasks[a]) && In(s.tasks[b]) && s.pending[0] == b
  }

  /** The worker is done with `a`. */
  predicate OneDone(s: State, a: nat, b: nat) {
    && Frame(s) && Pair(a, b) && Counted(s, 1, 2) && s.client.Ready? && s.owner == Worker(0)
    && s.workers[0].pc.Check? && In(s.tasks[a]) && s.tasks[a].finished && In(s.tasks[b]) && s.pending[0] == b
  }

  /** It executes `b`. */
  predicate Switched(s: State, a: nat, b: nat) {
    && Frame(s) && Pair(a, b) && Counted(s, 0, 1) && s.client.Ready? && s.owner.Free?
    && s.workers[0].pc == Executing(b) && In(s.tasks[a]) && s.tasks[a].finished && In(s.tasks[b])
  }

  /** `acts` can be taken from `s`, one after the other, and the old task stays pending. */
  predicate Plays(s: State, acts: seq<Action>)
    decreases |acts|
  {
    Waits(s) && (acts == [] || (Enabled(s, acts[0]) && Plays(Do(s, acts[0]), acts[1..])))
  }

  predicate Waits(s: State) {
    |s.workers| == 1 && OLD in s.pending
  }

  function Result(s: State, acts: seq<Action>): State
    requires Plays(s, acts)
    decreases |acts|
  {
    if acts == [] then s else Result(Do(s, acts[0]), acts[1..])
  }

  /** One action, and others after it. */
  lemma Begins(s: State, a: Action, acts: seq<Action>)
    requires Waits(s) && Enabled(s, a) && Plays(Do(s, a), acts)
    ensures Plays(s, [a] + acts) && Result(s, [a] + acts) == Result(Do(s, a), acts)
  {
    hide Do, Enabled;
    assert ([a] + acts)[1..] == acts;
  }

  lemma FourPlay(s: State, a1: Action, a2: Action, a3: Action, a4: Action, s1: State, s2: State, s3: State, s4: State)
    requires Waits(s) && Waits(s1) && Waits(s2) && Waits(s3) && Waits(s4)
    requires Enabled(s, a1) && s1 == Do(s, a1) && Enabled(s1, a2) && s2 == Do(s1, a2)
    requires Enabled(s2, a3) && s3 == Do(s2, a3) && Enabled(s3, a4) && s4 == Do(s3, a4)
    ensures Plays(s, [a1, a2, a3, a4]) && Result(s, [a1, a2, a3, a4]) == s4
  {
    hide Do, Enabled, Waits;
    assert Plays(s4, []) && Result(s4, []) == s4;
    Begins(s3, a4, []);
    Begins(s2, a3, [a4] + []);
    Begins(s1, a2, [a3] + ([a4] + []));
    Begins(s, a1, [a2] + ([a3] + ([a4] + [])));
    assert [a1, a2, a3, a4] == [a1] + ([a2] + ([a3] + ([a4] + [])));
  }

  lemma PushPart(s: State, a: nat, b: nat)
    requires Begun(s, a, b)
    ensures var acts := [Call(Push(b)), Go({}), Go({}), Go({})]; Plays(s, acts) && BothIn(Result(s, acts), a, b)
  {
    hide DoWork, MayWork, Wake, Plays, Result;
    NobodyWoken(s.workers);
    var s1 := s.(client := PushLock(b));
    var s2 := s.(owner := Client, client := PushCheck(b, 1));
    var s3 := s2.(tasks := s.tasks[b := Enqueued(s.tasks[b])], pending := [b] + s.pending, pendingCount := 2,
                  client := PushUnlock(b));
    var s4 := s3.(owner := Free, client := Ready(Pushed(b)));
    FourPlay(s, Call(Push(b)), Go({}), Go({}), Go({}), s1, s2, s3, s4);
  }

  lemma ExecutePart(s: State, a: nat, b: nat)
    requires BothIn(s, a, b)
    ensures var acts := [Work(0, 0), Work(0, 0), Work(0, 0), Work(0, 0)];
            Plays(s, acts) && OneDone(Result(s, acts), a, b)
  {
    hide DoGo, MayGo, Plays, Result;
    var s1 := DoWork(s, 0, 0);
    assert s1.workers[0] == Thread(0, Executed(a, 0));
    var s2 := DoWork(s1, 0, 0);
    assert s2.workers[0] == Thread(0, Locked(a, 0)) && s2.owner == Worker(0);
    var s3 := DoWork(s2, 0, 0);
    assert s3.workers[0] == Thread(0, Published(a)) && s3.tasks[a].finished;
    var s4 := DoWork(s3, 0, 0);
    FourPlay(s, Work(0, 0), Work(0, 0), Work(0, 0), Work(0, 0), s1, s2, s3, s4);
  }

  lemma TakePart(s: State, a: nat, b: nat)
    requires OneDone(s, a, b)
    ensures var acts := [Work(0, 0), Work(0, 0), Work(0, 0)]; Plays(s, acts) && Switched(Result(s, acts), a, b)
  {
  }

  lemma JoinPart(s: State, a: nat, b: nat)
    requires Switched(s, a, b)
    ensures var acts := [Call(JoinTask(a, Join.Forever)), Go({}), Go({}), Go({})];
            Plays(s, acts) && Begun(Result(s, acts), b, a)
  {
    hide DoWork, MayWork, Plays, Result;
    var c := Call(JoinTask(a, Join.Forever));
    var s1 := s.(client := JoinLock(a, Join.Forever));
    var s2 := DoGo(s1, {});
    var s3 := DoGo(s2, {});
    var s4 := DoGo(s3, {});
    FourPlay(s, c, Go({}), Go({}), Go({}), s1, s2, s3, s4);
  }

  lemma {:induction false} PlaysOn(s: State, x: seq<Action>, y: seq<Action>)
    requires Plays(s, x) && Plays(Result(s, x), y)
    ensures Plays(s, x + y) && Result(s, x + y) == Result(Result(s, x), y)
    decreases |x|
  {
    hide Do, Enabled;
    if x == [] {
      assert x + y == y;
    } else {
      assert (x + y)[1..] == x[1..] + y;
      PlaysOn(Do(s, x[0]), x[1..], y);
    }
  }

  const ROUND: nat := 15

  /** The client pushes `b` while the worker executes `a`, the worker goes on to `b`, and the client joins `a`. */
  function RoundActs(a: nat, b: nat): (acts: seq<Action>)
    ensures |acts| == ROUND && acts[0] == Call(Push(b)) && acts[1].Go? && acts[4] == Work(0, 0)
  {
    [Call(Push(b)), Go({}), Go({}), Go({})] + [Work(0, 0), Work(0, 0), Work(0, 0), Work(0, 0)]
      + [Work(0, 0), Work(0, 0), Work(0, 0)] + [Call(JoinTask(a, Join.Forever)), Go({}), Go({}), Go({})]
  }

  lemma RoundPlays(s: State, a: nat, b: nat)
    requires Begun(s, a, b)
    ensures Plays(s, RoundActs(a, b)) && Begun(Result(s, RoundActs(a, b)), b, a)
  {
    hide Begun, BothIn, OneDone, Switched, Plays, Result;
    var push, run := [Call(Push(b)), Go({}), Go({}), Go({})], [Work(0, 0), Work(0, 0), Work(0, 0), Work(0, 0)];
    var take, join := [Work(0, 0), Work(0, 0), Work(0, 0)], [Call(JoinTask(a, Join.Forever)), Go({}), Go({}), Go({})];
    PushPart(s, a, b);
    ExecutePart(Result(s, push), a, b);
    PlaysOn(s, push, run);
    TakePart(Result(s, push + run), a, b);
    PlaysOn(s, push + run, take);
    JoinPart(Result(s, push + run + take), a, b);
    PlaysOn(s, push + run + take, join);
  }

  // ---------- round after round ----------

  /** The action of the endless run. */
  function Act(n: nat): Action {
    var q := n / ROUND;
    RoundActs(q % 2, 1 - q % 2)[n % ROUND]
  }

  function Next(s: State, a: Action): State {
    if Enabled(s, a) then Do(s, a) else s
  }

  function At(s: State, n: nat): State {
    if n == 0 then s else Next(At(s, n - 1), Act(n - 1))
  }

  lemma {:induction false} AlongPlay(s: State, n: nat, acts: seq<Action>, j: nat)
    requires Plays(At(s, n), acts) && j <= |acts| && forall i :: 0 <= i < |acts| ==> Act(n + i) == acts[i]
    ensures Waits(At(s, n + j)) && (j < |acts| ==> Enabled(At(s, n + j), Act(n + j)))
    ensures At(s, n + |acts|) == Result(At(s, n), acts)
    decreases |acts|
  {
    hide Do, Enabled, Act, Waits;
    if acts != [] {
      assert Act(n) == acts[0] && At(s, n + 1) == Do(At(s, n), acts[0]);
      forall i | 0 <= i < |acts[1..]| ensures Act(n + 1 + i) == acts[1..][i] {
        assert Act(n + (i + 1)) == acts[i + 1];
      }
      AlongPlay(s, n + 1, acts[1..], if j > 0 then j - 1 else 0);
    }
  }

  lemma ActsOf(q: nat, i: nat)
    requires i < ROUND
    ensures Act(ROUND * q + i) == RoundActs(q % 2, 1 - q % 2)[i]
  {
    assert (ROUND * q + i) / ROUND == q && (ROUND * q + i) % ROUND == i;
  }

  lemma {:induction false} RoundBegins(s: State, q: nat)
    requires Begun(s, 0, 1)
    ensures Begun(At(s, ROUND * q), q % 2, 1 - q % 2)
  {
    hide Begun, Act, Plays, Result;
    if q > 0 {
      RoundBegins(s, q - 1);
      InRound(s, q - 1, 0);
      assert ROUND * (q - 1) + ROUND == ROUND * q;
    }
  }

  /** What holds within a round. */
  lemma InRound(s: State, q: nat, j: nat)
    requires Begun(At(s, ROUND * q), q % 2, 1 - q % 2) && j < ROUND
    ensures var n := ROUND * q + j; Waits(At(s, n)) && Enabled(At(s, n), Act(n))
    ensures Begun(At(s, ROUND * q + ROUND), 1 - q % 2, q % 2)
  {
    hide Begun, Act, Plays, Result, Enabled, Waits, At;
    var a, b, n := q % 2, 1 - q % 2, ROUND * q;
    RoundPlays(At(s, n), a, b);
    forall i | 0 <= i < ROUND ensures Act(n + i) == RoundActs(a, b)[i] {
      ActsOf(q, i);
    }
    AlongPlay(s, n, RoundActs(a, b), j);
  }

  lemma Always(s: State, n: nat)
    requires Begun(s, 0, 1)
    ensures Waits(At(s, n)) && Enabled(At(s, n), Act(n))
  {
    hide Begun, Act, Enabled, Waits, At;
    RoundBegins(s, n / ROUND);
    InRound(s, n / ROUND, n % ROUND);
    assert ROUND * (n / ROUND) + n % ROUND == n;
  }

  function Endless(s: State): Run {
    Run((n: nat) => At(s, n), (n: nat) => Some(Act(n)))
  }

  lemma EndlessIsFair(s: State)
    requires Inv(s) && Begun(s, 0, 1)
    ensures Fair(Endless(s)) && forall n: nat :: OLD in Endless(s).path(n).pending
    ensures forall n: nat :: !NoPush(Endless(s), n)
  {
    hide Inv, Begun, Do, Enabled, MayWork, Act;
    var r := Endless(s);
    forall n: nat ensures StepAt(r, n) && Waits(At(s, n)) {
      Always(s, n);
    }
    forall n: nat ensures GoesLater(r, n) && WorksLater(r, 0, n) && !NoPush(r, n) {
      ActsOf(n, 0);
      ActsOf(n, 1);
      ActsOf(n, 4);
      assert PushesAt(r, ROUND * n) && GoesAt(r, ROUND * n + 1) && WorksAt(r, 0, ROUND * n + 4);
    }
    forall w: nat ensures FairWorker(r, w) {
      if w > 0 {
        NoSuchWorker(s, w);
        assert !MayWorkLater(r, w, 0);
      }
    }
  }

  lemma NoSuchWorker(s: State, w: nat)
    requires w > 0 && forall n: nat :: Waits(At(s, n))
    ensures forall n: nat :: !MayWork(At(s, n), w)
  {
    hide At;
    forall n: nat ensures !MayWork(At(s, n), w) {
      assert Waits(At(s, n));
    }
  }

  // ---------- from a new pool ----------

  /** The worker executes task 0. */
  const EXECUTING :=
    ONE_QUEUED.(idle := 0, pendingCount := 0, running := 1, pending := [], workers := [Thread(0, Executing(0))],
                tasks := map[0 := Enqueued(NEW_TASK).(place := Held(0), running := true, starts := 1)])

  lemma UntilExecuting() returns (path: seq<State>, acts: seq<Action>)
    ensures IsRun(path, acts) && path[0] == ONE_QUEUED && path[|acts|] == EXECUTING
  {
    hide Wake, DoGo, MayGo;
    var s1 := ONE_QUEUED.(owner := Worker(0), workers := [Thread(0, Check)]);
    var s3 := EXECUTING.(workers := [Thread(0, Starting(0))], tasks := map[0 := Enqueued(NEW_TASK).(place := Held(0))]);
    path := [ONE_QUEUED, s1, s3.(owner := Worker(0), workers := [Thread(0, Taken(0))]), s3, EXECUTING];
    acts := [Work(0, 0), Work(0, 0), Work(0, 0), Work(0, 0)];
  }

  /** Meanwhile the client creates task 1 and the old one ... */
  const CREATED :=
    EXECUTING.(tasks := EXECUTING.tasks[1 := NEW_TASK][OLD := NEW_TASK], client := Ready(Response.Created(OLD)))

  lemma UntilCreated() returns (path: seq<State>, acts: seq<Action>)
    ensures IsRun(path, acts) && path[0] == EXECUTING && path[|acts|] == CREATED
  {
    hide DoWork, MayWork, DoGo, MayGo;
    var s := EXECUTING;
    path := [s, s.(tasks := s.tasks[1 := NEW_TASK], client := Ready(Response.Created(1))), CREATED];
    acts := [Call(NewTask(1)), Call(NewTask(OLD))];
  }

  /** ... and pushes this one. */
  lemma UntilBegun() returns (path: seq<State>, acts: seq<Action>)
    ensures IsRun(path, acts) && path[0] == CREATED && Begun(path[|acts|], 0, 1)
  {
    hide Wake, DoWork, MayWork;
    var s := CREATED;
    var s1 := s.(client := PushLock(OLD));
    var s2 := s.(owner := Client, client := PushCheck(OLD, 1));
    NobodyWoken(s.workers);
    var s3 := s2.(tasks := s.tasks[OLD := Enqueued(NEW_TASK)], pending := [OLD], pendingCount := 1,
                  client := PushUnlock(OLD));
    path := [s, s1, s2, s3, s3.(owner := Free, client := Ready(Pushed(OLD)))];
    acts := [Call(Push(OLD)), Go({}), Go({}), Go({})];
  }

  lemma NobodyWoken(ws: seq<Thread>)
    ensures Wake(ws, {}) == ws
  {
  }

  /** A run from a new pool that goes on fairly for ever, pushes included, while a pushed task is never taken. */
  lemma OldTaskStarves() returns (path: seq<State>, acts: seq<Action>, r: Run)
    ensures IsRun(path, acts) && Create(1) == NewPool(path[0]) && r.path(0) == path[|acts|] && Fair(r)
    ensures forall n: nat :: OLD in r.path(n).pending
    ensures forall n: nat :: !NoPush(r, n)
  {
    hide Inv, Do, Enabled, Begun, Fair;
    var p, a := UntilQueued();
    var p', a' := UntilExecuting();
    RunsJoin(p, a, p', a');
    p, a := p[..|a|] + p', a + a';
    assert p[|a|] == p'[|a'|];
    p', a' := UntilCreated();
    RunsJoin(p, a, p', a');
    var q := p[..|a|] + p';
    assert q[0] == p[0] && q[|a + a'|] == p'[|a'|];
    p, a := q, a + a';
    p', a' := UntilBegun();
    RunsJoin(p, a, p', a');
    path, acts := p[..|a|] + p', a + a';
    assert path[0] == p[0];
    CreateInv(1);
    InvOfRun(path, acts, |acts|);
    EndlessIsFair(path[|acts|]);
    r := Endless(path[|acts|]);
  }
}
