/**
 The sorting coroutines of homework-01/solution.c in the order of homework-01/libcoro.c: each goes on once in the order
 of the list, and when one has ended, or the list is through, the scheduler begins again with the first that is left.
 */
module SortingOrder {
  import opened Common
  import opened HeapSort
  import opened CoroutineSort
  import C = CoroScheduler

  /** The coroutines left, in the order of the list, and which is next to go on, or goes on. */
  datatype Order = Order(list: seq<nat>, p: nat)

  predicate Yields(s: State, s': State) {
    s.running.Some? && s'.running.None? && s.running.value < |s'.coros| && !s'.coros[s.running.value].pc.Ended?
  }

  predicate Ends(s: State, s': State) {
    s.running.Some? && s'.running.None? && s.running.value < |s'.coros| && s'.coros[s.running.value].pc.Ended?
  }

  function NextOrder(t: Order, s: State, s': State): Order {
    if Ends(s, s') && t.p < |t.list| then Order(RemoveAt(t.list, t.p), 0)
    else if Yields(s, s') then t.(p := if t.p + 1 < |t.list| then t.p + 1 else 0)
    else t
  }

  /** The scheduler resumes whoever is next. */
  predicate ByList(path: seq<State>, acts: seq<Action>, t: Order)
    requires |path| == |acts| + 1
    decreases |acts|
  {
    acts == [] ||
    ((acts[0].Resume? ==> t.p < |t.list| && acts[0].k == t.list[t.p]) &&
     ByList(path[1..], acts[1..], NextOrder(t, path[0], path[1])))
  }

  /** How often coroutine `k` yields in the run. */
  function YieldsOf(path: seq<State>, acts: seq<Action>, k: nat): nat
    requires |path| == |acts| + 1
    decreases |acts|
  {
    if acts == [] then 0
    else
      (if Yields(path[0], path[1]) && path[0].running == Some(k) then 1 else 0) + YieldsOf(path[1..], acts[1..], k)
  }

  /** The coroutines in the order in which they end. */
  function EndsOf(path: seq<State>, acts: seq<Action>): seq<nat>
    requires |path| == |acts| + 1
    decreases |acts|
  {
    if acts == [] then []
    else (if Ends(path[0], path[1]) then [path[0].running.value] else []) + EndsOf(path[1..], acts[1..])
  }

  /** The list holds who has not ended, once each, and the one that runs is at its turn. */
  ghost predicate Fits(s: State, t: Order) {
    && Distinct(t.list)
    && (forall k :: k in t.list <==> 0 <= k < |s.coros| && !s.coros[k].pc.Ended?)
    && (t.list != [] ==> t.p < |t.list|)
    && (s.running.Some? ==> t.p < |t.list| && s.running.value == t.list[t.p])
  }

  // ---------- a step keeps the list ----------

  /** What a step of the running coroutine changes of who runs and who has ended. */
  lemma StepFacts(s: State, now: int)
    requires SortingInv(s) && Enabled(s, Go(now)) && s.clock <= now
    ensures var s', k := Step(s, now), s.running.value;
            && k < |s.coros| == |s'.coros| && !s.coros[k].pc.Ended? && s'.clock <= now
            && (forall x :: 0 <= x < |s.coros| && x != k ==> s'.coros[x].pc.Ended? == s.coros[x].pc.Ended?)
            && (s'.running.None? || s'.running == Some(k))
            && (s'.running.Some? ==> !s'.coros[k].pc.Ended?)
  {
    hide Turns, Swaps, InRange, Begin, Turn;
  }

  lemma OrderKept(s: State, s': State, t: Order)
    requires Fits(s, t) && |s'.coros| == |s.coros|
    requires s.running.Some? && s.running.value < |s.coros| && (s'.running.None? || s'.running == s.running)
    requires forall x :: 0 <= x < |s.coros| && x != s.running.value ==> s'.coros[x].pc.Ended? == s.coros[x].pc.Ended?
    requires s'.running.Some? ==> !s'.coros[s.running.value].pc.Ended?
    ensures Fits(s', NextOrder(t, s, s'))
  {
    if Ends(s, s') {
      var k := t.list[t.p];
      WithoutIs(t.list, t.p);
      WithoutMembers(t.list, k);
    }
  }

  lemma ResumeFits(s: State, t: Order, now: int)
    requires SortingInv(s) && Fits(s, t) && s.running.None? && t.list != [] && now >= s.clock
    ensures Enabled(s, Resume(t.list[t.p], now))
    ensures var s' := Do(s, Resume(t.list[t.p], now)); Fits(s', NextOrder(t, s, s')) && s'.clock <= now
  {
    hide SortingInv;
    assert t.list[t.p] in t.list;
  }

  // ---------- the order is libcoro's ----------

  /** The first job from `p` on without yields left. */
  function FirstDoneFrom(js: seq<C.Job>, p: nat): (q: nat)
    requires p <= |js|
    ensures p <= q <= |js| && (forall i :: p <= i < q ==> js[i].left > 0) && (q < |js| ==> js[q].left == 0)
    decreases |js| - p
  {
    if p == |js| || js[p].left == 0 then p else FirstDoneFrom(js, p + 1)
  }

  function Yielded(j: C.Job): C.Job {
    C.Job(if j.left > 0 then j.left - 1 else 0, j.switches + 1)
  }

  /** The jobs after those from `p` to `q` yielded once. */
  function PassFrom(js: seq<C.Job>, p: nat, q: nat): (r: seq<C.Job>)
    ensures |r| == |js|
  {
    seq(|js|, i requires 0 <= i < |js| => if p <= i < q then Yielded(js[i]) else js[i])
  }

  /** The finishing order when those before `p` have had their turn in this round. */
  ghost function OrderFrom(list: seq<nat>, js: seq<C.Job>, p: nat): seq<nat>
    requires |list| == |js| && (list != [] ==> p < |list|)
  {
    if list == [] then []
    else
      var q := FirstDoneFrom(js, p);
      if q < |list| then [list[q]] + C.FinishOrder(RemoveAt(list, q), RemoveAt(PassFrom(js, p, q), q))
      else C.FinishOrder(list, PassFrom(js, p, q))
  }

  lemma FirstDoneIs(js: seq<C.Job>, q: nat)
    requires q <= |js| && (forall i :: 0 <= i < q ==> js[i].left > 0) && (q < |js| ==> js[q].left == 0)
    ensures C.FirstDone(js) == q
  {
  }

  /** At the beginning of a round it is the scheduler's. */
  lemma OrderAtHead(list: seq<nat>, js: seq<C.Job>)
    requires |list| == |js|
    ensures OrderFrom(list, js, 0) == C.FinishOrder(list, js)
  {
    if list != [] {
      var q := FirstDoneFrom(js, 0);
      FirstDoneIs(js, q);
      assert PassFrom(js, 0, q) == C.Pass(js, q);
      C.PassFacts(js);
    }
  }

  /** One coroutine's turn: it ends, or yields. */
  lemma OrderStep(list: seq<nat>, js: seq<C.Job>, p: nat)
    requires |list| == |js| && p < |list|
    ensures if js[p].left == 0 then
              OrderFrom(list, js, p) == [list[p]] + OrderFrom(RemoveAt(list, p), RemoveAt(js, p), 0)
            else
              OrderFrom(list, js, p) == OrderFrom(list, js[p := Yielded(js[p])], if p + 1 < |list| then p + 1 else 0)
  {
    hide C.FinishOrder, PassFrom, Yielded, RemoveAt;
    if js[p].left == 0 {
      PassNone(js, p);
      C.RemoveAtIs(list, p);
      C.RemoveAtIs(js, p);
      OrderAtHead(RemoveAt(list, p), RemoveAt(js, p));
    } else {
      var js' := js[p := Yielded(js[p])];
      PassOne(js, p, FirstDoneFrom(js, p));
      if p + 1 < |list| {
        SameFirst(js, js', p + 1);
      } else {
        PassNone(js', p + 1);
        OrderAtHead(list, js');
      }
    }
  }

  lemma PassNone(js: seq<C.Job>, p: nat)
    ensures PassFrom(js, p, p) == js
  {
  }

  lemma PassOne(js: seq<C.Job>, p: nat, q: nat)
    requires p < q <= |js|
    ensures PassFrom(js, p, q) == PassFrom(js[p := Yielded(js[p])], p + 1, q)
  {
  }

  lemma {:induction false} SameFirst(js: seq<C.Job>, js': seq<C.Job>, p: nat)
    requires |js| == |js'| && p <= |js| && forall i :: p <= i < |js| ==> js[i] == js'[i]
    ensures FirstDoneFrom(js, p) == FirstDoneFrom(js', p)
    decreases |js| - p
  {
    if p < |js| && js[p].left != 0 {
      SameFirst(js, js', p + 1);
    }
  }

  // ---------- the run in that order ----------

  function Of(m: map<nat, nat>, k: nat): nat {
    if k in m then m[k] else 0
  }

  /** The coroutines of the list as CoroScheduler counts them: the yields each makes in the run, and those before. */
  function JobsOf(list: seq<nat>, path: seq<State>, acts: seq<Action>, made: map<nat, nat>): (js: seq<C.Job>)
    requires |path| == |acts| + 1
    ensures |js| == |list|
  {
    seq(|list|, i requires 0 <= i < |list| => C.Job(YieldsOf(path, acts, list[i]), Of(made, list[i])))
  }

  ghost predicate Monotone(now: nat -> int) {
    forall i: nat, j: nat :: i <= j ==> now(i) <= now(j)
  }

  /** The run to the end from `s` in the order `t`, the clock reading `now(i)`, `now(i + 1)`, ... */
  ghost predicate Drains(s: State, t: Order, now: nat -> int, i: nat, made: map<nat, nat>, path: seq<State>,
      acts: seq<Action>)
  {
    && IsRun(path, acts) && path[0] == s && AllEnded(path[|acts|]) && ByList(path, acts, t)
    && (forall j :: 0 <= j < |acts| ==> acts[j].now == now(i + j))
    && (forall k: nat :: k !in t.list ==> YieldsOf(path, acts, k) == 0)
    && (t.list != [] ==> t.p < |t.list|)
    && EndsOf(path, acts) == OrderFrom(t.list, JobsOf(t.list, path, acts, made), t.p)
  }

  lemma RunBegins(s: State, a: Action, path: seq<State>, acts: seq<Action>)
    requires Enabled(s, a) && IsRun(path, acts) && path[0] == Do(s, a)
    ensures IsRun([s] + path, [a] + acts) && ([s] + path)[|acts| + 1] == path[|acts|]
    ensures ([s] + path)[1..] == path && ([a] + acts)[1..] == acts && ([s] + path)[1] == Do(s, a)
    ensures |path| == |acts| + 1
  {
    hide Do, Enabled;
    var p, as_ := [s] + path, [a] + acts;
    forall j | 0 <= j < |as_| ensures Enabled(p[j], as_[j]) && p[j + 1] == Do(p[j], as_[j]) {
      assert j > 0 ==> p[j] == path[j - 1] && as_[j] == acts[j - 1];
    }
  }

  /** What is counted of the run with one step before it. */
  lemma CountsBegin(s: State, a: Action, path: seq<State>, acts: seq<Action>, t: Order)
    requires Enabled(s, a) && IsRun(path, acts) && path[0] == Do(s, a)
    ensures |path| == |acts| + 1
    ensures var p, as_, s' := [s] + path, [a] + acts, Do(s, a);
            && (forall x: nat :: YieldsOf(p, as_, x)
                  == YieldsOf(path, acts, x) + if Yields(s, s') && s.running == Some(x) then 1 else 0)
            && EndsOf(p, as_) == (if Ends(s, s') then [s.running.value] else []) + EndsOf(path, acts)
            && (ByList(p, as_, t) <==>
                 (a.Resume? ==> t.p < |t.list| && a.k == t.list[t.p]) && ByList(path, acts, NextOrder(t, s, s')))
  {
    hide Do, Enabled, Yields, Ends, NextOrder;
    RunBegins(s, a, path, acts);
    hide IsRun;
  }

  /** A step after which the order is the same. */
  lemma SameOrder(s: State, a: Action, t: Order, now: nat -> int, i: nat, made: map<nat, nat>, path: seq<State>,
      acts: seq<Action>)
    requires Enabled(s, a) && a.now == now(i) && Drains(Do(s, a), t, now, i + 1, made, path, acts)
    requires !Yields(s, Do(s, a)) && !Ends(s, Do(s, a))
    requires a.Resume? ==> t.p < |t.list| && a.k == t.list[t.p]
    ensures Drains(s, t, now, i, made, [s] + path, [a] + acts)
  {
    hide Do, Enabled, OrderFrom, IsRun, YieldsOf, EndsOf, ByList;
    RunBegins(s, a, path, acts);
    CountsBegin(s, a, path, acts, t);
    var p, as_ := [s] + path, [a] + acts;
    assert JobsOf(t.list, p, as_, made) == JobsOf(t.list, path, acts, made);
  }

  /** A step in which the running coroutine yields. */
  lemma AfterYield(s: State, now': int, t: Order, now: nat -> int, i: nat, made: map<nat, nat>, path: seq<State>,
      acts: seq<Action>)
    requires Fits(s, t) && Enabled(s, Go(now')) && now' == now(i) && Yields(s, Do(s, Go(now')))
    requires var k, s' := s.running.value, Do(s, Go(now'));
             Drains(s', NextOrder(t, s, s'), now, i + 1, made[k := Of(made, k) + 1], path, acts)
    ensures Drains(s, t, now, i, made, [s] + path, [Go(now')] + acts)
  {
    hide Do, Enabled, OrderFrom, IsRun, Distinct, JobsOf, Yielded, Of, YieldsOf, EndsOf, ByList;
    RunBegins(s, Go(now'), path, acts);
    CountsBegin(s, Go(now'), path, acts, t);
    var p, as_, k := [s] + path, [Go(now')] + acts, s.running.value;
    assert k in t.list;
    JobsYield(t.list, t.p, p, as_, path, acts, made);
    OrderStep(t.list, JobsOf(t.list, p, as_, made), t.p);
  }

  lemma JobsYield(list: seq<nat>, p: nat, path: seq<State>, acts: seq<Action>, path': seq<State>, acts': seq<Action>,
      made: map<nat, nat>)
    requires p < |list| && Distinct(list) && |path| == |acts| + 1 && |path'| == |acts'| + 1
    requires forall x: nat :: YieldsOf(path, acts, x) == YieldsOf(path', acts', x) + if x == list[p] then 1 else 0
    ensures var k, js := list[p], JobsOf(list, path, acts, made);
            var js' := JobsOf(list, path', acts', made[k := Of(made, k) + 1]);
            js[p].left > 0 && js' == js[p := Yielded(js[p])]
  {
    hide YieldsOf, Of;
    var k, made' := list[p], made[list[p] := Of(made, list[p]) + 1];
    OfSet(made, k);
    var js, js' := JobsOf(list, path, acts, made), JobsOf(list, path', acts', made');
    var r := js[p := Yielded(js[p])];
    forall i | 0 <= i < |list| ensures js'[i] == r[i] {
      assert i != p ==> list[i] != k;
      assert YieldsOf(path, acts, list[i]) == YieldsOf(path', acts', list[i]) + if list[i] == k then 1 else 0;
    }
    assert |js'| == |r|;
  }

  lemma OfSet(m: map<nat, nat>, k: nat)
    ensures forall x: nat :: Of(m[k := Of(m, k) + 1], x) == Of(m, x) + if x == k then 1 else 0
  {
  }

  /** A step in which it ends. */
  lemma AfterEnd(s: State, now': int, t: Order, now: nat -> int, i: nat, made: map<nat, nat>, path: seq<State>,
      acts: seq<Action>)
    requires Fits(s, t) && Enabled(s, Go(now')) && now' == now(i) && Ends(s, Do(s, Go(now')))
    requires Drains(Do(s, Go(now')), NextOrder(t, s, Do(s, Go(now'))), now, i + 1, made, path, acts)
    ensures Drains(s, t, now, i, made, [s] + path, [Go(now')] + acts)
  {
    hide Do, Enabled, OrderFrom, IsRun, Distinct, JobsOf, RemoveAt, YieldsOf, EndsOf, ByList;
    RunBegins(s, Go(now'), path, acts);
    CountsBegin(s, Go(now'), path, acts, t);
    var p, as_ := [s] + path, [Go(now')] + acts;
    EndLeaves(s, t);
    JobsLess(t.list, t.p, p, as_, path, acts, made);
    OrderStep(t.list, JobsOf(t.list, p, as_, made), t.p);
  }

  lemma EndLeaves(s: State, t: Order)
    requires Fits(s, t) && s.running.Some?
    ensures t.p < |t.list| && t.list[t.p] == s.running.value
    ensures forall x :: x in RemoveAt(t.list, t.p) <==> x in t.list && x != s.running.value
  {
    WithoutIs(t.list, t.p);
    WithoutMembers(t.list, t.list[t.p]);
  }

  lemma JobsLess(list: seq<nat>, p: nat, path: seq<State>, acts: seq<Action>, path': seq<State>, acts': seq<Action>,
      made: map<nat, nat>)
    requires p < |list| && |path| == |acts| + 1 && |path'| == |acts'| + 1
    requires forall x: nat :: YieldsOf(path, acts, x) == YieldsOf(path', acts', x)
    ensures JobsOf(RemoveAt(list, p), path', acts', made) == RemoveAt(JobsOf(list, path, acts, made), p)
    ensures JobsOf(list, path, acts, made)[p].left == YieldsOf(path, acts, list[p])
  {
    hide YieldsOf, RemoveAt, Of;
    var less, js := RemoveAt(list, p), JobsOf(list, path, acts, made);
    C.RemoveAtIs(list, p);
    C.RemoveAtIs(js, p);
    var l, r := JobsOf(less, path', acts', made), RemoveAt(js, p);
    forall i | 0 <= i < |less| ensures l[i] == r[i] {
      var j := if i < p then i else i + 1;
      assert less[i] == list[j] && r[i] == js[j];
    }
  }

  function Ahead(s: State): nat
    requires s.cursor <= |s.files|
  {
    2 * Left(s) + if s.running.None? then 1 else 0
  }

  lemma {:induction false} Drain(s: State, t: Order, now: nat -> int, i: nat, made: map<nat, nat>)
      returns (path: seq<State>, acts: seq<Action>)
    requires SortingInv(s) && s.cursor <= |s.files| && Fits(s, t) && Monotone(now) && s.clock <= now(i)
    ensures Drains(s, t, now, i, made, path, acts)
    decreases Ahead(s), 1
  {
    hide SortingInv, Do, Enabled, Step, Left, Fits, Drains, OrderFrom, Yields, Ends, NextOrder;
    FitsFacts(s, t);
    assert now(i) <= now(i + 1);
    if t.list == [] {
      path, acts := [s], [];
      NothingLeft(s, t, now, i, made);
    } else if s.running.None? {
      ResumeFits(s, t, now(i));
      var a := Resume(t.list[t.p], now(i));
      var s' := Do(s, a);
      SortingKept(s, a);
      ResumeCosts(s, a.k, a.now);
      CursorIn(s');
      Resumes(s, a, t);
      path, acts := Drain(s', t, now, i + 1, made);
      SameOrder(s, a, t, now, i, made, path, acts);
      path, acts := [s] + path, [a] + acts;
    } else {
      path, acts := DrainGo(s, t, now, i, made);
    }
  }

  lemma FitsFacts(s: State, t: Order)
    requires Fits(s, t)
    ensures t.list != [] ==> t.p < |t.list|
    ensures s.running.Some? ==> t.list != []
  {
  }

  lemma Resumes(s: State, a: Action, t: Order)
    requires Enabled(s, a) && a.Resume? && Fits(s, t)
    ensures Do(s, a).running.Some? && !Yields(s, Do(s, a)) && !Ends(s, Do(s, a)) && NextOrder(t, s, Do(s, a)) == t
  {
  }

  lemma NothingLeft(s: State, t: Order, now: nat -> int, i: nat, made: map<nat, nat>)
    requires Fits(s, t) && t.list == []
    ensures Drains(s, t, now, i, made, [s], [])
  {
    forall k | 0 <= k < |s.coros| ensures s.coros[k].pc.Ended? {
      assert k !in t.list;
    }
  }

  lemma {:induction false} DrainGo(s: State, t: Order, now: nat -> int, i: nat, made: map<nat, nat>)
      returns (path: seq<State>, acts: seq<Action>)
    requires SortingInv(s) && s.cursor <= |s.files| && Fits(s, t) && Monotone(now) && s.clock <= now(i)
    requires s.running.Some? && t.list != []
    ensures Drains(s, t, now, i, made, path, acts)
    decreases Ahead(s), 0
  {
    hide SortingInv, Do, Enabled, Step, Left, Fits, Drains, OrderFrom, NextOrder;
    assert now(i) <= now(i + 1);
    var a := Go(now(i));
    GoEnabled(s, now(i));
    var s' := Do(s, a);
    StepIs(s, now(i));
    StepFacts(s, now(i));
    SortingKept(s, a);
    GoIsProgress(s, now(i));
    OrderKept(s, s', t);
    var t', k := NextOrder(t, s, s'), s.running.value;
    var made' := if Yields(s, s') then made[k := Of(made, k) + 1] else made;
    path, acts := Drain(s', t', now, i + 1, made');
    if Yields(s, s') {
      AfterYield(s, now(i), t, now, i, made, path, acts);
    } else if Ends(s, s') {
      AfterEnd(s, now(i), t, now, i, made, path, acts);
    } else {
      OrderStays(t, s, s');
      SameOrder(s, a, t, now, i, made, path, acts);
    }
    path, acts := [s] + path, [a] + acts;
  }

  lemma OrderStays(t: Order, s: State, s': State)
    requires !Yields(s, s') && !Ends(s, s')
    ensures NextOrder(t, s, s') == t
  {
  }

  lemma StepIs(s: State, now: int)
    requires Enabled(s, Go(now))
    ensures Do(s, Go(now)) == Step(s, now)
  {
  }

  lemma GoEnabled(s: State, now: int)
    requires SortingInv(s) && s.running.Some? && s.clock <= now
    ensures Enabled(s, Go(now)) && s.running.value < |s.coros|
  {
    assert CoroOk(s, s.running.value);
  }

  // ---------- the whole program ----------

  /** The list after the main function has created the coroutines: each was put in front. */
  predicate IsList(list: seq<nat>, n: nat) {
    |list| == n && forall i :: 0 <= i < n ==> list[i] == n - 1 - i
  }

  lemma StartFits(s: State, list: seq<nat>)
    requires Start(s) && IsList(list, |s.coros|)
    ensures Fits(s, Order(list, 0)) && SortingInv(s) && s.cursor <= |s.files|
  {
    StartKeeps(s);
    forall k | 0 <= k < |s.coros| ensures k in list {
      assert list[|s.coros| - 1 - k] == k;
    }
  }

  /** The scheduler's own order sorts every file: whatever the clock, the run in that order comes to an end with all
      coroutines ended, and they end in the order that CoroScheduler gives for the yields they make. */
  lemma SortsInOrder(s: State, list: seq<nat>, now: nat -> int) returns (path: seq<State>, acts: seq<Action>)
    requires Start(s) && s.coros != [] && IsList(list, |s.coros|) && Monotone(now) && s.clock <= now(0)
    ensures IsRun(path, acts) && path[0] == s && ByList(path, acts, Order(list, 0)) && AllEnded(path[|acts|])
    ensures forall j :: 0 <= j < |acts| ==> acts[j].now == now(j)
    ensures EndsOf(path, acts) == C.FinishOrder(list, JobsOf(list, path, acts, map[]))
    ensures |path[|acts|].arrays| == |s.files|
    ensures forall f :: 0 <= f < |s.files| ==>
              Sorted(path[|acts|].arrays[f]) && multiset(path[|acts|].arrays[f]) == multiset(s.files[f])
  {
    hide SortingInv, Do, Enabled, Step, Left, Fits, OrderFrom, Yields, Ends, NextOrder, Sorted, Start, AllEnded;
    StartFits(s, list);
    path, acts := Drain(s, Order(list, 0), now, 0, map[]);
    OrderAtHead(list, JobsOf(list, path, acts, map[]));
    AllFilesSorted(path, acts);
  }
}
