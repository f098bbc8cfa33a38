/**
 The timers of the sorting coroutines against the schedule: what work time a coroutine has recorded, and where it
 lets the others go on, told from the clock's readings at the scheduler's and the coroutines' actions alone.
 */
module CoroutineTime {
  import opened Common
  import opened HeapSort
  import opened CoroutineSort

  /** The clock's reading when coroutine `k` was last resumed in the first `n` actions. */
  function Resumed(acts: seq<Action>, n: nat, k: nat): int
    requires n <= |acts|
  {
    if n == 0 then 0
    else if acts[n - 1].Resume? && acts[n - 1].k == k then acts[n - 1].now
    else Resumed(acts, n - 1, k)
  }

  /** In step `i` coroutine `k` stops running. */
  predicate LetsGo(path: seq<State>, i: nat, k: nat)
    requires i + 1 < |path|
  {
    path[i].running == Some(k) && path[i + 1].running == None
  }

  /** The lengths of the turns of coroutine `k` that ended in the first `n` actions. */
  function Worked(path: seq<State>, acts: seq<Action>, n: nat, k: nat): int
    requires n <= |acts| < |path|
  {
    if n == 0 then 0
    else
      Worked(path, acts, n - 1, k) + if LetsGo(path, n - 1, k) then acts[n - 1].now - Resumed(acts, n - 1, k) else 0
  }

  /** What a step does to the timers. */
  lemma TimersOf(s: State, a: Action, k: nat)
    requires Enabled(s, a) && k < |s.coros|
    ensures var s' := Do(s, a);
            && |s'.coros| == |s.coros| && s'.quantum == s.quantum
            && s'.coros[k].total
            == s.coros[k].total
             + (if s.running == Some(k) && s'.running == None then a.now - s.coros[k].last else 0)
            && (s'.running == Some(k) ==>
                 s'.coros[k].last == if a.Resume? && a.k == k then a.now else s.coros[k].last)
            && (s'.running == Some(k) && !a.Resume? ==> s.running == Some(k))
            && (a.Resume? ==> s.running.None? && s'.running == Some(a.k))
  {
    hide Turn, Swaps, Begin, InRange;
  }

  lemma {:induction false} TimersHold(path: seq<State>, acts: seq<Action>, n: nat, k: nat)
    requires IsRun(path, acts) && Start(path[0]) && n <= |acts| && k < |path[0].coros|
    ensures |path[n].coros| == |path[0].coros| && path[n].quantum == path[0].quantum
    ensures path[n].coros[k].total == Worked(path, acts, n, k)
    ensures path[n].running == Some(k) ==> path[n].coros[k].last == Resumed(acts, n, k)
  {
    hide Do, Enabled;
    if n > 0 {
      TimersHold(path, acts, n - 1, k);
      TimersOf(path[n - 1], acts[n - 1], k);
    }
  }

  /** The work time a coroutine has recorded is the sum over its turns of the reading where it let go less the
      reading where it was resumed. */
  lemma TotalIsWorked(path: seq<State>, acts: seq<Action>, k: nat)
    requires IsRun(path, acts) && Start(path[0]) && k < |path[0].coros|
    ensures |path[|acts|].coros| == |path[0].coros|
    ensures path[|acts|].coros[k].total == Worked(path, acts, |acts|, k)
  {
    TimersHold(path, acts, |acts|, k);
  }

  // ---------- where a coroutine lets go ----------

  /** An element of the heap of length `n` is less than one of its children. */
  predicate BelowChild(a: seq<int>, j: nat, n: nat)
    requires j < n <= |a|
  {
    (2 * j + 1 < n && a[2 * j + 1] > a[j]) || (2 * j + 2 < n && a[2 * j + 2] > a[j])
  }

  /** The running coroutine has picked a file, is to read one, or sinks an element. */
  predicate AtYieldPoint(s: State, k: nat)
    requires k < |s.coros|
  {
    match s.coros[k].pc
    case Pick => s.cursor < |s.files|
    case Fetch(_) => true
    case Sorting(f, pos) =>
      && f < |s.arrays| && !pos.Done? && pos.j < End(Sort(s.arrays[f], pos)) <= |s.arrays[f]|
      && BelowChild(s.arrays[f], pos.j, End(Sort(s.arrays[f], pos)))
    case _ => false
  }

  lemma SwapsIs(t: Sort)
    requires InRange(t) && !t.pos.Done?
    ensures t.pos.j < End(t) <= |t.a| && (Swaps(t) <==> BelowChild(t.a, t.pos.j, End(t)))
  {
  }

  lemma LetsGoStep(s: State, now: int)
    requires Enabled(s, Go(now))
    ensures var k := s.running.value;
            && k < |s.coros| && Step(s, now).running == if LeavesAt(s, k, now - s.coros[k].last) then None else Some(k)
  {
    var c := s.coros[s.running.value];
    if c.pc.Sorting? && !c.pc.pos.Done? {
      SwapsIs(Sort(s.arrays[c.pc.f], c.pc.pos));
    }
    hide Turn, Swaps, Begin, InRange, BelowChild, End;
  }

  /** After so much work the coroutine lets go: it has nothing more to pick, or it is where it may yield and its
      quantum is used up. */
  predicate LeavesAt(s: State, k: nat, work: int)
    requires k < |s.coros|
  {
    (s.coros[k].pc.Pick? && s.cursor >= |s.files|) || (AtYieldPoint(s, k) && work > s.quantum)
  }

  /** A coroutine lets go where its files are at an end, and where it may yield just when more time than its quantum
      has passed since it was resumed; it stops nowhere else. */
  lemma LetsGoIff(path: seq<State>, acts: seq<Action>, i: nat, k: nat)
    requires IsRun(path, acts) && Start(path[0]) && i < |acts| && path[i].running == Some(k) && k < |path[0].coros|
    ensures acts[i].Go? && path[i].quantum == path[0].quantum && |path[i].coros| == |path[0].coros|
    ensures LetsGo(path, i, k) <==> LeavesAt(path[i], k, acts[i].now - Resumed(acts, i, k))
  {
    hide Enabled, Do, Step, LeavesAt, Start;
    TimersHold(path, acts, i, k);
    OnlyGo(path[i], acts[i]);
    LetsGoStep(path[i], acts[i].now);
  }

  lemma OnlyGo(s: State, a: Action)
    requires Enabled(s, a) && s.running.Some?
    ensures a.Go? && Do(s, a) == Step(s, a.now)
  {
  }
}
