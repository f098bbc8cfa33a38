/**
 What the steps of the thread pool under its mutex do, in terms of the tasks and workers there are and not of the pool's
 counters and indices.
 */
module ThreadPoolSteps {
  import opened ThreadPool
  import opened ThreadPoolInvariant
  import opened ThreadPoolSafety

  // ---------- workers ----------

  /** A worker that finds work takes the first pending task, not executed since its push, and is the only one to have
      it. */
  lemma TakesFirst(s: State, w: nat, v: int)
    requires Inv(s) && MayWork(s, w) && s.workers[w].pc.Check? && s.pending != []
    ensures var t, s' := s.pending[0], DoWork(s, w, v);
            && t in s.tasks && QueuedOk(s.tasks[t])
            && s'.workers == s.workers[w := Thread(w, Taken(t))] && s'.owner == Worker(w)
            && s'.pending == s.pending[1..] && t !in s'.pending && s'.pendingCount == |s'.pending|
            && forall x :: 0 <= x < |s'.workers| && x != w && HasTask(s'.workers[x].pc) ==> s'.workers[x].pc.t != t
  {
    TurnFacts(s, w);
    FirstPending(s);
    hide Inv;
  }

  lemma FirstPending(s: State)
    requires Inv(s) && s.pending != []
    ensures var t := s.pending[0];
            && t in s.tasks && QueuedOk(s.tasks[t]) && t !in s.pending[1..]
            && forall x :: 0 <= x < |s.workers| && HasTask(s.workers[x].pc) ==> s.workers[x].pc.t != t
  {
    hide Sum, Locks, Threads, Stage, Wakeups, Queue, Counts, ClientOk;
    var t := s.pending[0];
    assert t in s.pending;
    assert TaskOk(t, s.tasks[t], s.pending, s.workers, ClientTask(s.client));
    forall x | 0 <= x < |s.workers| && HasTask(s.workers[x].pc) ensures s.workers[x].pc.t != t {
      assert WorkerOk(x, s.workers[x].pc, s.tasks);
    }
  }

  /** A worker that is done with its task publishes the result of its latest execution under both mutexes, so that no
      join sleeps on it any more, or frees it, for the only time, when it was detached. */
  lemma Publishes(s: State, w: nat, v: int)
    requires Inv(s) && MayWork(s, w) && s.workers[w].pc.Locked?
    ensures s.workers[w].pc.t in s.tasks
    ensures var t, s' := s.workers[w].pc.t, DoWork(s, w, v);
            var task, task' := s.tasks[t], s'.tasks[t];
            && s.owner == Worker(w) == s'.owner && task.starts == task.pushes == |task.outcomes| > 0
            && if task.detached then task.freed == 0 && task'.freed == 1 && s'.workers[w].pc.Check?
               else
                 && task'.finished && task'.result == Last(task.outcomes) && task'.owner == Worker(w)
                 && s'.workers[w].pc == Published(t) && !(s'.client.JoinWait? && s'.client.t == t)
  {
    TaskHere(s, w);
    LockedOwner(s, w);
    hide Inv;
  }

  lemma LockedOwner(s: State, w: nat)
    requires Inv(s) && w < |s.workers| && s.workers[w].pc.Locked?
    ensures s.owner == Worker(w)
  {
    hide Sum, Threads, Stage, Wakeups, Queue, Counts, Tasks, ClientOk;
  }

  // ---------- a push ----------

  /** A push is refused just when the list is full; else it may have created the worker with the next index, and it will
      wait until there are as many as it saw. */
  lemma PushBegins(s: State)
    requires Inv(s) && s.client.PushLock? && s.owner.Free?
    ensures var t, s' := s.client.t, DoGo(s, {});
            && (s'.client.PushFull? <==> |s.pending| == MAX_TASKS)
            && (!s'.client.PushFull? ==>
                  && s'.client == PushCheck(t, |s'.workers|) && |s'.workers| > 0 && s'.threads == Upto(|s'.workers|)
                  && (s'.workers == s.workers || s'.workers == s.workers + [Thread(|s.workers|, Spawned)]))
  {
    PushFacts(s);
    ListFits(s);
    hide Inv;
    assert Upto(|s.workers|) + [|s.workers|] == Upto(|s.workers| + 1);
  }

  lemma ListFits(s: State)
    requires Inv(s)
    ensures |s.pending| <= MAX_TASKS
  {
    hide Sum, Locks, Threads, Stage, Wakeups, Counts, Tasks, ClientOk;
  }

  /** It waits just while the worker it created has not started; then its task is first in the list, and a worker that
      sleeps is woken. */
  lemma PushQueues(s: State, wake: set<nat>)
    requires Inv(s) && MayGo(s, wake) && s.client.PushCheck?
    ensures s.client.t in s.tasks
    ensures var t, s' := s.client.t, DoGo(s, wake);
            if LastSpawned(s.workers) then s' == s.(owner := Free, client := PushWait(t, |s.workers|))
            else
              && s'.client == PushUnlock(t) && t !in s.pending && s'.pending == [t] + s.pending
              && QueuedOk(s'.tasks[t]) && s'.tasks[t].pushes == s.tasks[t].pushes + 1
              && ((exists w: nat :: Sleeps(s, w)) ==> exists w: nat :: Sleeps(s, w) && s'.workers[w].pc.Woken?)
  {
    NotQueuedTwice(s);
    WaitsForNewest(s);
    PushedTask(s);
    hide Inv;
    if w :| w in wake {
      assert Sleeps(s, w);
    }
  }

  lemma WaitsForNewest(s: State)
    requires Inv(s) && s.client.PushCheck?
    ensures s.client.required == |s.workers| && (s.threadCount == s.client.required <==> !LastSpawned(s.workers))
  {
    hide Sum, Locks, Stage, Wakeups, Queue, Counts, Tasks, ClientOk;
  }

  lemma PushedTask(s: State)
    requires Inv(s) && s.client.PushCheck?
    ensures s.client.t in s.tasks && QueuedOk(Enqueued(s.tasks[s.client.t]))
  {
    hide Sum, Locks, Threads, Stage, Wakeups, Queue, Counts;
    var t := s.client.t;
    assert TaskOk(t, s.tasks[t], s.pending, s.workers, ClientTask(s.client));
  }

  // ---------- waking ----------

  /** Any worker that sleeps may wake alone, for no reason or by a push's signal. */
  lemma AnyoneMayWake(s: State, w: nat)
    requires Inv(s) && Sleeps(s, w)
    ensures var one := s.workers[w := Thread(w, Woken)];
            && Enabled(s, WakeWorker(w)) && Do(s, WakeWorker(w)) == s.(workers := one)
            && (s.client.PushCheck? && !LastSpawned(s.workers) ==> MayGo(s, {w}) && DoGo(s, {w}).workers == one)
  {
    IndexIs(s, w);
    OneWakes(s.workers, w);
    if s.client.PushCheck? {
      WaitsForNewest(s);
      PushedTask(s);
    }
    hide Inv, Wake, LastSpawned;
  }

  lemma OneWakes(ws: seq<Thread>, w: nat)
    requires w < |ws| && ws[w].pc.Waiting? && ws[w].idx == w
    ensures Wake(ws, {w}) == ws[w := Thread(w, Woken)]
  {
  }

  /** So may the client, and its timed wait may run out at any time. */
  lemma ClientMayWake(s: State)
    requires s.client.PushWait? || s.client.JoinWait?
    ensures var c := s.client;
            && Enabled(s, WakeClient)
            && Do(s, WakeClient).client
            == (if c.PushWait? then PushWoken(c.t, c.required) else JoinWoken(c.t, c.kind, false))
            && (c.JoinWait? && c.kind.Timed? ==> Enabled(s, TimeOut))
  {
  }

  lemma IndexIs(s: State, w: nat)
    requires Inv(s) && w < |s.workers|
    ensures s.workers[w].idx == w
  {
    hide Sum, Locks, Stage, Wakeups, Queue, Counts, Tasks, ClientOk;
  }

  // ---------- a delete ----------

  /** Nothing is pending, and every worker is at rest. */
  predicate AtRest(s: State) {
    s.pending == [] && NoneUp(s.workers)
  }

  predicate NoneSleeps(s: State) {
    forall w :: 0 <= w < |s.workers| ==> !s.workers[w].pc.Waiting?
  }

  lemma {:induction false} RestSums(ws: seq<Thread>)
    requires NoneUp(ws)
    ensures Sum(ws, Idle) == |ws| && Sum(ws, Busy) == 0
  {
    if ws != [] {
      RestSums(ws[1..]);
    }
  }

  lemma GuardIs(s: State)
    requires Inv(s) && s.client.DelLock? && s.owner.Free?
    ensures AtRest(s) <==> !(s.running > 0 || s.pendingCount > 0 || s.idle != s.threadCount)
    ensures s.threadCount == |s.workers| && s.threads == Upto(|s.workers|)
  {
    hide Sum, Wakeups, Tasks, ClientOk;
    ThreadsOver(s.max, s.threadCount, s.threads, s.workers);
    if NoneUp(s.workers) {
      RestSums(s.workers);
    }
    if s.idle == |s.workers| {
      LocksClient(s.owner, false, s.workers, Client, true);
      AllRest(s.idle, s.running, Client, s.exitIdx, s.pending, s.workers);
    }
  }

  /** A delete goes on just when nothing is pending and every worker is at rest; then the first worker is told to
      leave and nobody sleeps. */
  lemma DeleteBegins(s: State, wake: set<nat>)
    requires Inv(s) && MayGo(s, wake) && s.client.DelLock?
    ensures var s' := DoGo(s, wake);
            && (s'.client.DelFail? <==> !AtRest(s))
            && (s'.client.DelLast? <==> s.workers == [])
            && (AtRest(s) && s.workers != [] ==> s'.client == DelUnlock(0) && s'.exitIdx == 0 && NoneSleeps(s'))
  {
    GuardIs(s);
    if s.workers == [] {
      hide Inv;
      NothingWithout(s);
    }
    hide Inv, AtRest;
    WakesAll(s, wake);
  }

  lemma NothingWithout(s: State)
    requires Inv(s) && s.workers == []
    ensures AtRest(s)
  {
    hide Sum, Locks, Threads, Stage, Wakeups, Counts, Tasks, ClientOk;
  }

  lemma WakesAll(s: State, wake: set<nat>)
    requires Broadcast(s, wake)
    ensures forall w :: 0 <= w < |s.workers| ==> !Wake(s.workers, wake)[w].pc.Waiting?
  {
    forall w | 0 <= w < |s.workers| ensures !Wake(s.workers, wake)[w].pc.Waiting? {
      assert Sleeps(s, w) ==> w in wake;
    }
  }

  /** When worker `i` and those before it are gone, the next one is told to leave and nobody sleeps, or, there being no
      next one, the array of threads goes. */
  lemma DeleteGoesOn(s: State, wake: set<nat>)
    requires Inv(s) && MayGo(s, wake) && s.client.DelRelock?
    ensures var i, s' := s.client.i, DoGo(s, wake);
            && i < |s.workers| && (forall w :: 0 <= w <= i ==> s.workers[w].pc.Gone?)
            && if i + 1 < |s.workers| then s'.client == DelUnlock(i + 1) && s'.exitIdx == i + 1 && NoneSleeps(s')
               else
                 && s'.client == DelLast && s'.threads == []
                 && forall w :: 0 <= w < |s'.workers| ==> s'.workers[w].pc.Gone?
  {
    GoneSoFar(s);
    hide Inv;
    WakesAll(s, wake);
  }

  lemma GoneSoFar(s: State)
    requires Inv(s) && s.client.DelRelock?
    ensures var i := s.client.i;
            i < |s.workers| == s.threadCount && forall w :: 0 <= w <= i ==> s.workers[w].pc.Gone?
  {
    hide Sum, Locks, Wakeups, Queue, Counts, Tasks, ClientOk;
  }
}
