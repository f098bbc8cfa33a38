/**
 The coroutines of homework-01/solution.c that sort the files: a shared cursor, the arrays by file, and the timers,
 under any schedule and any clock that does not go back. A step is what the running coroutine does between two places
 where it may yield.
 */
module CoroutineSort {
  import opened Common
  import opened HeapSort

  /** Where `coroutine_func_f` stands. */
  datatype Pc =
    | Fresh
    | Pick                        // at the head of its loop
    | Fetch(f: nat)               // past the first yield point, about to read file `f`
    | Sorting(f: nat, pos: Pos)   // at a turn of `heap_sort`
    | Ended

  datatype Coro = Coro(total: int, last: int, pc: Pc)

  /** `claims[f]` records who took file `f`; `clock` is the last reading. */
  datatype State = State(
    files: seq<seq<int>>, quantum: int, cursor: nat, arrays: seq<seq<int>>, claims: seq<nat>,
    coros: seq<Coro>, running: Option<nat>, clock: int, start: int)

  datatype Action =
    | Resume(k: nat, now: int)    // the scheduler runs coroutine `k`, which reads the clock
    | Go(now: int)                // the running coroutine goes on, reading the clock where it does

  predicate Start(s: State) {
    && s.cursor == 0 && s.claims == [] && s.running == None && s.clock == s.start && |s.arrays| == |s.files|
    && forall k :: 0 <= k < |s.coros| ==> s.coros[k] == Coro(0, 0, Fresh)
  }

  /** `yield_if_necessary_record_work_time`, the coroutine being `c` from here on. */
  function YieldPoint(s: State, k: nat, c: Coro, now: int): State
    requires k < |s.coros|
  {
    var work := now - c.last;
    if work > s.quantum then s.(coros := s.coros[k := c.(total := c.total + work)], running := None, clock := now)
    else s.(coros := s.coros[k := c], clock := now)
  }

  predicate Enabled(s: State, a: Action) {
    a.now >= s.clock &&
    match a
    case Resume(k, _) => s.running.None? && k < |s.coros| && !s.coros[k].pc.Ended?
    case Go(_) =>
      s.running.Some? && s.running.value < |s.coros| &&
      match s.coros[s.running.value].pc
      case Pick => true
      case Fetch(f) => f < |s.files| == |s.arrays|
      case Sorting(f, pos) => f < |s.arrays| && InRange(Sort(s.arrays[f], pos))
      case _ => false
  }

  function Step(s: State, now: int): State
    requires Enabled(s, Go(now))
  {
    var k := s.running.value;
    var c := s.coros[k];
    match c.pc
    case Pick =>
      if s.cursor < |s.files| then
        YieldPoint(s.(cursor := s.cursor + 1, claims := s.claims + [k]), k, c.(pc := Fetch(s.cursor)), now)
      else s.(coros := s.coros[k := Coro(c.total + (now - c.last), c.last, Ended)], running := None, clock := now)
    case Fetch(f) =>
      YieldPoint(s.(arrays := s.arrays[f := s.files[f]]), k, c.(pc := Sorting(f, Begin(s.files[f]).pos)), now)
    case Sorting(f, pos) =>
      if pos.Done? then s.(coros := s.coros[k := c.(pc := Pick)])
      else
        var t := Sort(s.arrays[f], pos);
        var t' := Turn(t);
        var s', c' := s.(arrays := s.arrays[f := t'.a]), c.(pc := Sorting(f, t'.pos));
        if Swaps(t) then YieldPoint(s', k, c', now) else s'.(coros := s.coros[k := c'])
  }

  function Do(s: State, a: Action): State
    requires Enabled(s, a)
  {
    match a
    case Resume(k, now) =>
      var c := s.coros[k];
      var c' := Coro(c.total, now, if c.pc.Fresh? then Pick else c.pc);
      s.(running := Some(k), clock := now, coros := s.coros[k := c'])
    case Go(now) => Step(s, now)
  }

  predicate IsRun(path: seq<State>, acts: seq<Action>) {
    |path| == |acts| + 1 && forall i :: 0 <= i < |acts| ==>
         Enabled(path[i], acts[i]) && path[i + 1] == Do(path[i], acts[i])
  }

  // ---------- the sorting ----------

  predicate SameElements(a: seq<int>, b: seq<int>) {
    multiset(a) == multiset(b)
  }

  predicate WorksOn(pc: Pc, f: nat) {
    (pc.Fetch? || pc.Sorting?) && pc.f == f
  }

  predicate FileDone(s: State, f: nat)
    requires f < |s.files| == |s.arrays|
  {
    Sorted(s.arrays[f]) && SameElements(s.arrays[f], s.files[f])
  }

  ghost predicate CoroOk(s: State, k: nat)
    requires k < |s.coros| && |s.arrays| == |s.files|
  {
    match s.coros[k].pc
    case Fetch(f) => f < |s.claims| && f < |s.files| && s.claims[f] == k
    case Sorting(f, pos) =>
      && f < |s.claims| && f < |s.files| && s.claims[f] == k && SortInv(Sort(s.arrays[f], pos))
      && SameElements(s.arrays[f], s.files[f])
    case Ended => s.cursor == |s.files|
    case _ => true
  }

  predicate FileOk(s: State, f: nat)
    requires f < |s.claims| && f < |s.files| == |s.arrays|
  {
    s.claims[f] < |s.coros| && (WorksOn(s.coros[s.claims[f]].pc, f) || FileDone(s, f))
  }

  ghost predicate SortingInv(s: State) {
    && |s.arrays| == |s.files| && |s.claims| == s.cursor <= |s.files|
    && (s.running.Some? ==>
         s.running.value < |s.coros| && !s.coros[s.running.value].pc.Fresh? && !s.coros[s.running.value].pc.Ended?)
    && (forall k :: 0 <= k < |s.coros| ==> CoroOk(s, k))
    && (forall f :: 0 <= f < |s.claims| ==> FileOk(s, f))
  }

  /** Coroutine `k` goes on to `c`, having changed at most the array of the file it works on. */
  lemma OthersKept(s: State, s': State, k: nat, f: nat)
    requires SortingInv(s) && k < |s.coros| && s'.files == s.files && |s'.coros| == |s.coros|
    requires |s'.arrays| == |s.arrays|
    requires s'.claims == s.claims && s'.cursor == s.cursor
    requires forall x :: 0 <= x < |s.coros| && x != k ==> s'.coros[x].pc == s.coros[x].pc
    requires forall g :: 0 <= g < |s.arrays| && g != f ==> s'.arrays[g] == s.arrays[g]
    requires f < |s.claims| && s.claims[f] == k
    requires CoroOk(s', k) && FileOk(s', f)
    requires forall g :: 0 <= g < |s.claims| && g != f ==> !WorksOn(s.coros[k].pc, g)
    requires s'.running.Some? ==>
               && s'.running.value < |s.coros| && !s'.coros[s'.running.value].pc.Fresh?
               && !s'.coros[s'.running.value].pc.Ended?
    ensures SortingInv(s')
  {
    hide SortInv, Sorted, SameElements;
    forall x | 0 <= x < |s'.coros| ensures CoroOk(s', x) {
      assert CoroOk(s, x);
    }
    forall g | 0 <= g < |s'.claims| ensures FileOk(s', g) {
      assert FileOk(s, g);
    }
  }

  lemma PickKeeps(s: State, now: int)
    requires SortingInv(s) && Enabled(s, Go(now)) && s.coros[s.running.value].pc.Pick?
    ensures SortingInv(Step(s, now))
  {
    hide SortInv, Sorted, SameElements;
    var s', k := Step(s, now), s.running.value;
    forall x | 0 <= x < |s'.coros| ensures CoroOk(s', x) {
      assert CoroOk(s, x);
    }
    forall g | 0 <= g < |s'.claims| ensures FileOk(s', g) {
      assert g < |s.claims| ==> FileOk(s, g);
    }
  }

  lemma FetchKeeps(s: State, now: int)
    requires SortingInv(s) && Enabled(s, Go(now)) && s.coros[s.running.value].pc.Fetch?
    ensures SortingInv(Step(s, now))
  {
    var s', k := Step(s, now), s.running.value;
    var f := s.coros[k].pc.f;
    assert CoroOk(s, k);
    BeginKeeps(s.files[f]);
    assert Begin(s.files[f]).a == s.files[f];
    hide SortInv, Sorted, Begin;
    OthersKept(s, s', k, f);
  }

  lemma TurnIsKept(s: State, now: int)
    requires SortingInv(s) && Enabled(s, Go(now)) && s.coros[s.running.value].pc.Sorting?
    ensures SortingInv(Step(s, now))
  {
    var s', k := Step(s, now), s.running.value;
    var f, pos := s.coros[k].pc.f, s.coros[k].pc.pos;
    assert CoroOk(s, k);
    if !pos.Done? {
      TurnKeeps(Sort(s.arrays[f], pos));
    }
    hide Turn, Swaps, HeapBut, Sorted;
    OthersKept(s, s', k, f);
  }

  lemma ResumeKeeps(s: State, k: nat, now: int)
    requires SortingInv(s) && Enabled(s, Resume(k, now))
    ensures SortingInv(Do(s, Resume(k, now)))
  {
    hide SortInv, Sorted, SameElements;
    var s' := Do(s, Resume(k, now));
    forall x | 0 <= x < |s'.coros| ensures CoroOk(s', x) {
      assert CoroOk(s, x);
    }
    forall g | 0 <= g < |s'.claims| ensures FileOk(s', g) {
      assert FileOk(s, g);
    }
  }

  lemma SortingKept(s: State, a: Action)
    requires SortingInv(s) && Enabled(s, a)
    ensures SortingInv(Do(s, a))
  {
    hide SortingInv, Step;
    match a
    case Resume(k, now) => ResumeKeeps(s, k, now);
    case Go(now) =>
      var pc := s.coros[s.running.value].pc;
      if pc.Pick? { PickKeeps(s, now); } else if pc.Fetch? { FetchKeeps(s, now); } else { TurnIsKept(s, now); }
  }

  // ---------- the time ----------

  function Totals(cs: seq<Coro>): int {
    if cs == [] then 0 else cs[0].total + Totals(cs[1..])
  }

  lemma {:induction false} TotalsSet(cs: seq<Coro>, k: nat, c: Coro)
    requires k < |cs|
    ensures Totals(cs[k := c]) == Totals(cs) - cs[k].total + c.total
  {
    if k > 0 {
      TotalsSet(cs[1..], k - 1, c);
      assert cs[k := c][1..] == cs[1..][k - 1 := c];
    }
  }

  lemma {:induction false} TotalsZero(cs: seq<Coro>)
    requires forall k :: 0 <= k < |cs| ==> cs[k].total == 0
    ensures Totals(cs) == 0
  {
    if cs != [] {
      TotalsZero(cs[1..]);
    }
  }

  /** The recorded intervals are disjoint and end before the running coroutine's current one began. */
  predicate TimeInv(s: State) {
    && s.start <= s.clock
    && (match s.running
        case None => Totals(s.coros) <= s.clock - s.start
        case Some(k) => k < |s.coros| && s.coros[k].last <= s.clock && Totals(s.coros) <= s.coros[k].last - s.start)
  }

  lemma YieldPointTime(s: State, k: nat, c: Coro, now: int)
    requires TimeInv(s) && s.running == Some(k) && now >= s.clock && c.last == s.coros[k].last
    requires c.total == s.coros[k].total
    ensures TimeInv(YieldPoint(s, k, c, now))
  {
    TotalsSet(s.coros, k, c);
    TotalsSet(s.coros, k, c.(total := c.total + (now - c.last)));
  }

  lemma TimeKept(s: State, a: Action)
    requires TimeInv(s) && Enabled(s, a)
    ensures TimeInv(Do(s, a))
  {
    hide Turn, Swaps, Begin, InRange, Totals;
    match a
    case Resume(k, now) => TotalsSet(s.coros, k, Do(s, a).coros[k]);
    case Go(now) =>
      var k := s.running.value;
      var c := s.coros[k];
      match c.pc
      case Pick =>
        if s.cursor < |s.files| {
          YieldPointTime(s.(cursor := s.cursor + 1, claims := s.claims + [k]), k, c.(pc := Fetch(s.cursor)), now);
        } else {
          TotalsSet(s.coros, k, Do(s, a).coros[k]);
        }
      case Fetch(f) =>
        YieldPointTime(s.(arrays := s.arrays[f := s.files[f]]), k, c.(pc := Sorting(f, Begin(s.files[f]).pos)), now);
      case Sorting(f, pos) =>
        TotalsSet(s.coros, k, Do(s, a).coros[k]);
        if !pos.Done? {
          var t := Sort(s.arrays[f], pos);
          YieldPointTime(s.(arrays := s.arrays[f := Turn(t).a]), k, c.(pc := Sorting(f, Turn(t).pos)), now);
        }
      case _ =>
  }

  // ---------- whole runs ----------

  lemma StartKeeps(s: State)
    requires Start(s)
    ensures SortingInv(s) && TimeInv(s)
  {
    TotalsZero(s.coros);
  }

  lemma {:induction false} RunKeeps(path: seq<State>, acts: seq<Action>, n: nat)
    requires IsRun(path, acts) && Start(path[0]) && n <= |acts|
    ensures SortingInv(path[n]) && TimeInv(path[n])
    ensures path[n].start == path[0].start && path[n].files == path[0].files && |path[n].coros| == |path[0].coros|
  {
    hide SortingInv, TimeInv;
    if n > 0 {
      RunKeeps(path, acts, n - 1);
      SortingKept(path[n - 1], acts[n - 1]);
      TimeKept(path[n - 1], acts[n - 1]);
    } else {
      StartKeeps(path[0]);
    }
  }

  predicate AllEnded(s: State) {
    forall k :: 0 <= k < |s.coros| ==> s.coros[k].pc.Ended?
  }

  /** Under every schedule and clock: when all coroutines have ended every file was taken by one of them, and is
      sorted. */
  lemma AllFilesSorted(path: seq<State>, acts: seq<Action>)
    requires IsRun(path, acts) && Start(path[0]) && path[0].coros != [] && AllEnded(path[|acts|])
    ensures var s := path[|acts|];
            && |s.claims| == |s.files| == |s.arrays| && s.files == path[0].files
            && forall f :: 0 <= f < |s.files| ==>
                 s.claims[f] < |s.coros| && Sorted(s.arrays[f]) && multiset(s.arrays[f]) == multiset(s.files[f])
  {
    RunKeeps(path, acts, |acts|);
    var s := path[|acts|];
    assert CoroOk(s, 0);
    forall f | 0 <= f < |s.files| ensures s.claims[f] < |s.coros| && FileDone(s, f) {
      assert FileOk(s, f);
    }
  }

  /** Recorded work times never overlap: at the end they add up to no more than the time that passed. */
  lemma WorkTimeIsDisjoint(path: seq<State>, acts: seq<Action>, end: int)
    requires IsRun(path, acts) && Start(path[0]) && end >= path[|acts|].clock
    ensures Totals(path[|acts|].coros) <= end - path[0].start
  {
    RunKeeps(path, acts, |acts|);
  }

  /** A step changes only the array of the file that the running coroutine took, and the claim of a file is never taken
      back. */
  lemma NoInterference(s: State, a: Action, f: nat)
    requires SortingInv(s) && Enabled(s, a) && f < |s.arrays|
    ensures var s' := Do(s, a);
            && |s'.arrays| == |s.arrays| && s.claims <= s'.claims
            && (s'.arrays[f] != s.arrays[f] ==>
                 a.Go? && f < |s.claims| && s.running == Some(s.claims[f]) && WorksOn(s.coros[s.claims[f]].pc, f))
  {
    hide SortInv, Turn, Swaps, Begin, Sorted, SameElements;
    if a.Go? {
      assert CoroOk(s, s.running.value);
    }
  }

  // ---------- the end is reached ----------

  /** The turns a sort takes. */
  function Turns(s: Sort): nat
    requires InRange(s)
    decreases Outer(s), Inner(s)
  {
    TurnsEnd(s);
    if s.pos.Done? then 0 else 1 + Turns(Turn(s))
  }

  lemma TurnsEnd(s: Sort)
    requires InRange(s)
    ensures !s.pos.Done? ==> Outer(Turn(s)) < Outer(s) || (Outer(Turn(s)) == Outer(s) && Inner(Turn(s)) < Inner(s))
  {
    if !s.pos.Done? {
      TurnGoesOn(s);
    }
  }

  function FileCost(file: seq<int>): nat {
    BeginIn(file);
    3 + Turns(Begin(file))
  }

  lemma BeginIn(a: seq<int>)
    ensures InRange(Begin(a)) && Begin(a).a == a
  {
  }

  /** The steps a coroutine may still take on the file it has, and to end. */
  function Cost(pc: Pc, files: seq<seq<int>>, arrays: seq<seq<int>>): nat {
    match pc
    case Fresh => 1
    case Pick => 1
    case Fetch(f) => if f < |files| then FileCost(files[f]) else 0
    case Sorting(f, pos) => if f < |arrays| && InRange(Sort(arrays[f], pos)) then 2 + Turns(Sort(arrays[f], pos)) else 0
    case Ended => 0
  }

  function Costs(cs: seq<Coro>, files: seq<seq<int>>, arrays: seq<seq<int>>): nat {
    if cs == [] then 0 else Cost(cs[0].pc, files, arrays) + Costs(cs[1..], files, arrays)
  }

  function FileCosts(files: seq<seq<int>>): nat {
    if files == [] then 0 else FileCost(files[0]) + FileCosts(files[1..])
  }

  function Left(s: State): nat
    requires s.cursor <= |s.files|
  {
    FileCosts(s.files[s.cursor..]) + Costs(s.coros, s.files, s.arrays)
  }

  lemma {:induction false} CostsSet(cs: seq<Coro>, cs': seq<Coro>, k: nat, files: seq<seq<int>>, arrays: seq<seq<int>>,
      arrays': seq<seq<int>>)
    requires k < |cs| == |cs'|
    requires forall x :: 0 <= x < |cs| && x != k ==> Cost(cs'[x].pc, files, arrays') == Cost(cs[x].pc, files, arrays)
    ensures Costs(cs', files, arrays')
         == Costs(cs, files, arrays) - Cost(cs[k].pc, files, arrays) + Cost(cs'[k].pc, files, arrays')
  {
    hide Cost;
    if k > 0 {
      CostsSet(cs[1..], cs'[1..], k - 1, files, arrays, arrays');
    } else {
      CostsSame(cs[1..], cs'[1..], files, arrays, arrays');
    }
  }

  lemma {:induction false} CostsSame(cs: seq<Coro>, cs': seq<Coro>, files: seq<seq<int>>, arrays: seq<seq<int>>,
      arrays': seq<seq<int>>)
    requires |cs| == |cs'|
    requires forall x :: 0 <= x < |cs| ==> Cost(cs'[x].pc, files, arrays') == Cost(cs[x].pc, files, arrays)
    ensures Costs(cs', files, arrays') == Costs(cs, files, arrays)
  {
    hide Cost;
    if cs != [] {
      CostsSame(cs[1..], cs'[1..], files, arrays, arrays');
    }
  }

  /** The others' costs stay when the array of the running coroutine's file changes. */
  lemma OthersCost(s: State, x: nat, arrays: seq<seq<int>>)
    requires SortingInv(s) && s.running.Some? && x < |s.coros| && x != s.running.value && |arrays| == |s.arrays|
    requires forall g :: 0 <= g < |arrays| && !WorksOn(s.coros[s.running.value].pc, g) ==> arrays[g] == s.arrays[g]
    ensures Cost(s.coros[x].pc, s.files, arrays) == Cost(s.coros[x].pc, s.files, s.arrays)
  {
    hide SortInv, Sorted, SameElements, InRange, Turns;
    assert CoroOk(s, x) && CoroOk(s, s.running.value);
  }

  lemma PickCosts(s: State, now: int)
    requires SortingInv(s) && Enabled(s, Go(now)) && s.coros[s.running.value].pc.Pick?
    ensures Step(s, now).cursor <= |Step(s, now).files| && Left(Step(s, now)) < Left(s)
  {
    hide SortInv, Sorted, SameElements, FileCost;
    var s', k := Step(s, now), s.running.value;
    CostsSet(s.coros, s'.coros, k, s.files, s.arrays, s'.arrays);
    if s.cursor < |s.files| {
      assert s.files[s.cursor..][1..] == s.files[s'.cursor..];
    }
  }

  lemma OwnCosts(s: State, now: int)
    requires SortingInv(s) && Enabled(s, Go(now)) && !s.coros[s.running.value].pc.Pick?
    ensures var s', k := Step(s, now), s.running.value;
            && s'.cursor == s.cursor && s'.files == s.files && |s'.arrays| == |s.arrays| && |s'.coros| == |s.coros|
            && Cost(s'.coros[k].pc, s.files, s'.arrays) < Cost(s.coros[k].pc, s.files, s.arrays)
            && (forall x :: 0 <= x < |s.coros| && x != k ==> s'.coros[x].pc == s.coros[x].pc)
            && forall g :: 0 <= g < |s.arrays| && !WorksOn(s.coros[k].pc, g) ==> s'.arrays[g] == s.arrays[g]
  {
    var k := s.running.value;
    assert CoroOk(s, k);
    BeginIn(if s.coros[k].pc.Fetch? then s.files[s.coros[k].pc.f] else []);
    hide SortInv, Sorted, SameElements, Turn, Begin, Swaps, InRange;
  }

  lemma GoIsProgress(s: State, now: int)
    requires SortingInv(s) && Enabled(s, Go(now))
    ensures Step(s, now).cursor <= |Step(s, now).files| && Left(Step(s, now)) < Left(s)
  {
    hide SortingInv, Step, Cost;
    var k := s.running.value;
    CursorIn(s);
    if s.coros[k].pc.Pick? {
      PickCosts(s, now);
    } else {
      OwnCosts(s, now);
      var s' := Step(s, now);
      forall x | 0 <= x < |s.coros| && x != k
        ensures Cost(s'.coros[x].pc, s.files, s'.arrays) == Cost(s.coros[x].pc, s.files, s.arrays)
      {
        OthersCost(s, x, s'.arrays);
      }
      CostsSet(s.coros, s'.coros, k, s.files, s.arrays, s'.arrays);
    }
  }

  /** The coroutines' own steps in the first `n` actions. */
  function Gos(acts: seq<Action>, n: nat): nat
    requires n <= |acts|
  {
    if n == 0 then 0 else Gos(acts, n - 1) + if acts[n - 1].Go? then 1 else 0
  }

  lemma ResumeCosts(s: State, k: nat, now: int)
    requires SortingInv(s) && Enabled(s, Resume(k, now))
    ensures Left(Do(s, Resume(k, now))) == Left(s)
  {
    hide SortingInv;
    var s' := Do(s, Resume(k, now));
    CursorIn(s);
    CostsSame(s.coros, s'.coros, s.files, s.arrays, s'.arrays);
  }

  lemma CursorIn(s: State)
    requires SortingInv(s)
    ensures s.cursor <= |s.files|
  {
  }

  lemma {:induction false} RunIsBounded(path: seq<State>, acts: seq<Action>, n: nat)
    requires IsRun(path, acts) && Start(path[0]) && n <= |acts|
    ensures path[n].cursor <= |path[n].files| && Left(path[n]) + Gos(acts, n) <= Left(path[0])
    ensures n <= 2 * Gos(acts, n) + (if path[n].running.Some? then 1 else 0)
  {
    hide SortingInv, TimeInv, Left, Step;
    RunKeeps(path, acts, n);
    CursorIn(path[n]);
    if n > 0 {
      RunIsBounded(path, acts, n - 1);
      RunKeeps(path, acts, n - 1);
      match acts[n - 1]
      case Resume(k, now) => ResumeCosts(path[n - 1], k, now);
      case Go(now) => GoIsProgress(path[n - 1], now);
    }
  }

  /** While a coroutine has not ended something can be done. */
  lemma NeverStuck(s: State)
    requires SortingInv(s) && !AllEnded(s)
    ensures exists a :: Enabled(s, a)
  {
    match s.running
    case Some(k) =>
      assert CoroOk(s, k);
      assert Enabled(s, Go(s.clock));
    case None =>
      var k :| 0 <= k < |s.coros| && !s.coros[k].pc.Ended?;
      assert Enabled(s, Resume(k, s.clock));
  }

  /** Every run is bounded by what there was to sort, and one that cannot go on has sorted everything. */
  lemma SortingCompletes(path: seq<State>, acts: seq<Action>)
    requires IsRun(path, acts) && Start(path[0]) && path[0].coros != []
    ensures |acts| <= 2 * Left(path[0]) + 1
    ensures (forall a :: !Enabled(path[|acts|], a)) ==> forall f :: 0 <= f < |path[0].files| ==>
              && f < |path[|acts|].arrays| && Sorted(path[|acts|].arrays[f])
              && multiset(path[|acts|].arrays[f]) == multiset(path[0].files[f])
  {
    hide Left, Enabled;
    RunIsBounded(path, acts, |acts|);
    RunKeeps(path, acts, |acts|);
    if forall a :: !Enabled(path[|acts|], a) {
      if !AllEnded(path[|acts|]) {
        NeverStuck(path[|acts|]);
      } else {
        AllFilesSorted(path, acts);
      }
    }
  }
}
