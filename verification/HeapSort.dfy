/**
 `heap_sort` of homework-01/solution.c: in place, and cut at its yield points, where other coroutines may run. The
 method and the machine that takes one turn of an inner loop at a time are proved to do the same.
 */
module HeapSort {

  /** Where the sort stands: at the head of an inner loop, in turn `i` of the first or the second outer loop. */
  datatype Pos = Build(i: nat, j: nat) | Pop(i: nat, j: nat) | Done

  datatype Sort = Sort(a: seq<int>, pos: Pos)

  function Swap(a: seq<int>, i: nat, j: nat): (b: seq<int>)
    requires i < |a| && j < |a|
    ensures |b| == |a| && multiset(b) == multiset(a)
  {
    var b := a[i := a[j]][j := a[i]];
    SwapKeeps(a, i, j);
    b
  }

  lemma SwapKeeps(a: seq<int>, i: nat, j: nat)
    requires i < |a| && j < |a|
    ensures multiset(a[i := a[j]][j := a[i]]) == multiset(a)
  {
  }

  /** The greatest of `j` and its children below `n`, the first of equals. */
  function Largest(a: seq<int>, j: nat, n: nat): (l: nat)
    requires j < n <= |a|
    ensures l < n && (l == j || l == 2 * j + 1 || l == 2 * j + 2)
    ensures 2 * j + 1 < n ==> a[2 * j + 1] <= a[l]
    ensures 2 * j + 2 < n ==> a[2 * j + 2] <= a[l]
    ensures l != j ==> a[j] < a[l]
  {
    var l := if 2 * j + 1 < n && a[2 * j + 1] > a[j] then 2 * j + 1 else j;
    if 2 * j + 2 < n && a[2 * j + 2] > a[l] then 2 * j + 2 else l
  }

  /** The head of the second outer loop at `i`. */
  function EnterPop(a: seq<int>, i: int): Sort
    requires i < |a|
  {
    if i > 0 then Sort(Swap(a, 0, i), Pop(i, 0)) else Sort(a, Done)
  }

  /** The head of the first outer loop at `i`. */
  function EnterBuild(a: seq<int>, i: int): Sort
    requires i < |a|
  {
    if i >= 0 then Sort(a, Build(i, i)) else EnterPop(a, |a| - 1)
  }

  function Begin(a: seq<int>): Sort {
    EnterBuild(a, |a| / 2 - 1)
  }

  predicate InRange(s: Sort) {
    match s.pos
    case Build(i, j) => i <= j < |s.a| && i < |s.a| / 2
    case Pop(i, j) => j < i < |s.a|
    case Done => true
  }

  /** Where the heap of the current inner loop ends. */
  function End(s: Sort): nat {
    if s.pos.Pop? then s.pos.i else |s.a|
  }

  predicate Swaps(s: Sort)
    requires InRange(s) && !s.pos.Done?
  {
    Largest(s.a, s.pos.j, End(s)) != s.pos.j
  }

  /** One turn of an inner loop, up to its yield point, or out of the loop and into the next one. */
  function Turn(s: Sort): (s': Sort)
    requires InRange(s) && !s.pos.Done?
    ensures InRange(s') && multiset(s'.a) == multiset(s.a) && |s'.a| == |s.a|
  {
    var j, n := s.pos.j, End(s);
    var l := Largest(s.a, j, n);
    if l != j then Sort(Swap(s.a, j, l), if s.pos.Build? then Build(s.pos.i, l) else Pop(s.pos.i, l))
    else if s.pos.Build? then EnterBuild(s.a, s.pos.i - 1)
    else EnterPop(s.a, s.pos.i - 1)
  }

  /** The outer turns left. */
  function Outer(s: Sort): nat {
    match s.pos
    case Build(i, _) => |s.a| + i + 1
    case Pop(i, _) => i
    case Done => 0
  }

  /** Turns left in the current inner loop, bounded. */
  function Inner(s: Sort): nat
    requires InRange(s)
  {
    if s.pos.Done? then 0 else |s.a| - s.pos.j
  }

  /** The sort from here to its end. */
  function Finish(s: Sort): seq<int>
    requires InRange(s)
    decreases Outer(s), Inner(s)
  {
    if s.pos.Done? then s.a else Finish(Turn(s))
  }

  // ---------- sorted ----------

  predicate Sorted(a: seq<int>) {
    forall p, q :: 0 <= p < q < |a| ==> a[p] <= a[q]
  }

  predicate Child(p: nat, c: nat) {
    c == 2 * p + 1 || c == 2 * p + 2
  }

  /** From `lo` on every parent is at least its children below `n`, but for `j`, which its parent's place could take. */
  ghost predicate HeapBut(a: seq<int>, lo: nat, n: nat, j: nat)
    requires n <= |a|
  {
    && (forall p: nat, c: nat :: lo <= p && Child(p, c) && c < n && p != j ==> a[p] >= a[c])
    && (forall p: nat, c: nat :: lo <= p && Child(p, j) && Child(j, c) && c < n ==> a[p] >= a[c])
  }

  ghost predicate Heap(a: seq<int>, lo: nat, n: nat)
    requires n <= |a|
  {
    forall p: nat, c: nat :: lo <= p && Child(p, c) && c < n ==> a[p] >= a[c]
  }

  /** From `i` on everything is in its place. */
  predicate Placed(a: seq<int>, i: nat) {
    forall p, q :: 0 <= p < q < |a| && i <= q ==> a[p] <= a[q]
  }

  ghost predicate SortInv(s: Sort) {
    InRange(s) &&
    match s.pos
    case Build(i, j) => HeapBut(s.a, i, |s.a|, j)
    case Pop(i, j) => HeapBut(s.a, 0, i, j) && Placed(s.a, i)
    case Done => Sorted(s.a)
  }

  /** Sinking one level moves the one place that is out of order down. */
  lemma SinkKeeps(a: seq<int>, lo: nat, n: nat, j: nat)
    requires lo <= j < n <= |a| && HeapBut(a, lo, n, j)
    ensures var l := Largest(a, j, n);
            if l == j then Heap(a, lo, n) else HeapBut(Swap(a, j, l), lo, n, l)
  {
  }

  lemma {:induction false} RootIsGreatest(a: seq<int>, n: nat, k: nat)
    requires n <= |a| && Heap(a, 0, n) && k < n
    ensures a[0] >= a[k]
    decreases k
  {
    if k > 0 {
      var p := (k - 1) / 2;
      assert Child(p, k);
      RootIsGreatest(a, n, p);
    }
  }

  /** Values below `i` swapped among themselves stay below what is placed. */
  lemma PlacedSwap(a: seq<int>, i: nat, j: nat, l: nat)
    requires Placed(a, i) && j < i <= |a| && l < i
    ensures Placed(Swap(a, j, l), i)
  {
  }

  /** The greatest of the heap goes behind it, and the last of the heap to its root. */
  lemma RootPlaced(a: seq<int>, i: nat)
    requires 0 < i < |a| && Heap(a, 0, i + 1) && Placed(a, i + 1)
    ensures HeapBut(Swap(a, 0, i), 0, i, 0) && Placed(Swap(a, 0, i), i)
  {
    forall k | 0 <= k <= i ensures a[0] >= a[k] {
      RootIsGreatest(a, i + 1, k);
    }
  }

  lemma EnterPopKeeps(a: seq<int>, i: nat)
    requires i < |a| && Heap(a, 0, i + 1) && Placed(a, i + 1)
    ensures SortInv(EnterPop(a, i))
  {
    if i > 0 {
      RootPlaced(a, i);
      hide Swap, Heap, HeapBut, Placed;
    }
  }

  /** A place is added in front of the heap. */
  lemma HeapOpens(a: seq<int>, lo: nat)
    requires Heap(a, lo + 1, |a|)
    ensures HeapBut(a, lo, |a|, lo)
  {
  }

  lemma NothingPlaced(a: seq<int>)
    ensures Placed(a, |a|)
  {
  }

  lemma EnterBuildKeeps(a: seq<int>, i: int)
    requires -1 <= i < |a| / 2 && a != [] && Heap(a, i + 1, |a|)
    ensures SortInv(EnterBuild(a, i))
  {
    if i >= 0 {
      HeapOpens(a, i);
      hide Heap, HeapBut;
    } else {
      NothingPlaced(a);
      hide Heap, HeapBut, EnterPop, Placed;
      EnterPopKeeps(a, |a| - 1);
    }
  }

  lemma TurnKeeps(s: Sort)
    requires SortInv(s) && !s.pos.Done?
    ensures SortInv(Turn(s))
  {
    hide Largest, Swap, Heap, HeapBut, Placed, EnterPop, EnterBuild;
    var i: int, j, n := s.pos.i, s.pos.j, End(s);
    var l := Largest(s.a, j, n);
    if s.pos.Pop? {
      SinkKeeps(s.a, 0, n, j);
      if l != j {
        PlacedSwap(s.a, n, j, l);
      } else {
        EnterPopKeeps(s.a, n - 1);
      }
    } else {
      SinkKeeps(s.a, i, n, j);
      if l == j {
        EnterBuildKeeps(s.a, i - 1);
      }
    }
  }

  lemma BeginKeeps(a: seq<int>)
    ensures SortInv(Begin(a)) && multiset(Begin(a).a) == multiset(a)
  {
    if a != [] {
      LeavesAreHeaps(a);
      EnterBuildKeeps(a, |a| / 2 - 1);
      hide Heap, HeapBut, Placed, Swap;
    }
  }

  lemma LeavesAreHeaps(a: seq<int>)
    ensures Heap(a, |a| / 2, |a|)
  {
  }

  lemma TurnGoesOn(s: Sort)
    requires InRange(s) && !s.pos.Done?
    ensures Outer(Turn(s)) < Outer(s) || (Outer(Turn(s)) == Outer(s) && Inner(Turn(s)) < Inner(s))
  {
  }

  lemma {:induction false} FinishSorts(s: Sort)
    requires SortInv(s)
    ensures Sorted(Finish(s)) && multiset(Finish(s)) == multiset(s.a)
    decreases Outer(s), Inner(s)
  {
    hide HeapBut, Turn;
    if !s.pos.Done? {
      TurnKeeps(s);
      TurnGoesOn(s);
      FinishSorts(Turn(s));
    }
  }

  // ---------- how many swaps ----------

  /** floor(log2(n)) */
  function Log2(n: nat): nat
    requires n > 0
  {
    if n == 1 then 0 else 1 + Log2(n / 2)
  }

  lemma {:induction false} Log2Grows(m: nat, n: nat)
    requires 0 < m <= n
    ensures Log2(m) <= Log2(n)
  {
    if m > 1 {
      Log2Grows(m / 2, n / 2);
    }
  }

  /** `2^Log2(n) <= n < 2^(Log2(n) + 1)` */
  function Power(e: nat): nat {
    if e == 0 then 1 else 2 * Power(e - 1)
  }

  lemma {:induction false} Log2Is(n: nat)
    requires n > 0
    ensures Power(Log2(n)) <= n < 2 * Power(Log2(n))
  {
    if n > 1 {
      Log2Is(n / 2);
    }
  }

  /** Levels below `j` in a heap of `n`, by the left children. */
  function Depth(j: nat, n: nat): nat
    decreases n - j
  {
    if 2 * j + 1 < n then 1 + Depth(2 * j + 1, n) else 0
  }

  lemma {:induction false} DepthFalls(j: nat, k: nat, n: nat)
    requires j <= k
    ensures Depth(k, n) <= Depth(j, n)
    decreases n - j
  {
    if 2 * k + 1 < n {
      DepthFalls(2 * j + 1, 2 * k + 1, n);
    }
  }

  lemma {:induction false} PowerGrows(e: nat, f: nat)
    requires e <= f
    ensures 0 < Power(e) <= Power(f)
  {
    if e < f {
      PowerGrows(e, f - 1);
    } else if f > 0 {
      PowerGrows(e - 1, f - 1);
    }
  }

  /** Level `k` begins at `2^k - 1`. */
  lemma {:induction false} DepthOfLevel(k: nat, n: nat)
    requires 0 < Power(k) <= n
    ensures Power(k + Depth(Power(k) - 1, n)) <= n < 2 * Power(k + Depth(Power(k) - 1, n))
    decreases n - Power(k)
  {
    if 2 * Power(k) <= n {
      assert Power(k + 1) == 2 * Power(k);
      DepthOfLevel(k + 1, n);
    }
  }

  /** The whole heap is as deep as the logarithm says. */
  lemma DepthIsLog(n: nat)
    requires n > 0
    ensures Depth(0, n) == Log2(n)
  {
    DepthOfLevel(0, n);
    Log2Is(n);
    var d, l := Depth(0, n), Log2(n);
    hide Depth, Log2;
    if d < l {
      PowerGrows(d + 1, l);
    } else if l < d {
      PowerGrows(l + 1, d);
    }
  }

  lemma DepthFacts(j: nat, n: nat)
    requires j < n
    ensures Depth(j, n) <= Log2(n)
  {
    DepthFalls(0, j, n);
    DepthIsLog(n);
  }

  lemma DepthSinks(j: nat, l: nat, n: nat)
    requires 2 * j + 1 <= l < n
    ensures Depth(l, n) < Depth(j, n)
  {
    DepthFalls(2 * j + 1, l, n);
  }

  function Times(k: nat, l: nat): nat {
    if k == 0 then 0 else l + Times(k - 1, l)
  }

  lemma {:induction false} TimesIs(k: nat, l: nat)
    ensures Times(k, l) == k * l
  {
    if k > 0 {
      TimesIs(k - 1, l);
    }
  }

  /** A bound on the swaps left in the inner loops. */
  function Bound(s: Sort): nat
    requires InRange(s)
  {
    match s.pos
    case Build(i, j) => Times(i + |s.a| - 1, Log2(|s.a|)) + Depth(j, |s.a|)
    case Pop(i, j) => Times(i - 1, Log2(|s.a|)) + Depth(j, i)
    case Done => 0
  }

  lemma EnterPopBound(a: seq<int>, i: nat)
    requires i < |a|
    ensures InRange(EnterPop(a, i)) && Bound(EnterPop(a, i)) <= Times(i, Log2(|a|))
  {
    hide Swap, Log2, Depth;
    if i > 0 {
      DepthFacts(0, i);
      Log2Grows(i, |a|);
    }
  }

  lemma EnterBuildBound(a: seq<int>, i: int)
    requires i < |a| / 2
    ensures InRange(EnterBuild(a, i)) && (a != [] && i >= -1 ==> Bound(EnterBuild(a, i)) <= Times(i + |a|, Log2(|a|)))
  {
    if i >= 0 {
      DepthFacts(i, |a|);
    } else if a != [] {
      EnterPopBound(a, |a| - 1);
    }
  }

  /** A turn that swaps uses up one of the bound, another none. */
  lemma TurnCosts(s: Sort)
    requires InRange(s) && !s.pos.Done?
    ensures Bound(Turn(s)) + (if Swaps(s) then 1 else 0) <= Bound(s)
  {
    hide Largest, Swap, Log2, Depth, EnterPop, EnterBuild, Times;
    if Swaps(s) {
      DepthSinks(s.pos.j, Largest(s.a, s.pos.j, End(s)), End(s));
    } else if s.pos.Pop? {
      EnterPopBound(s.a, s.pos.i - 1);
    } else {
      EnterBuildBound(s.a, s.pos.i - 1);
    }
  }

  /** The swaps of the inner loops from here on. */
  function CountSwaps(s: Sort): nat
    requires InRange(s)
    decreases Outer(s), Inner(s)
  {
    if s.pos.Done? then 0 else (if Swaps(s) then 1 else 0) + CountSwaps(Turn(s))
  }

  lemma {:induction false} SwapsBounded(s: Sort)
    requires InRange(s)
    ensures CountSwaps(s) <= Bound(s)
    decreases Outer(s), Inner(s)
  {
    hide Bound, Turn;
    if !s.pos.Done? {
      TurnCosts(s);
      TurnGoesOn(s);
      SwapsBounded(Turn(s));
    }
  }

  lemma BeginBound(a: seq<int>)
    requires a != []
    ensures InRange(Begin(a)) && Bound(Begin(a)) <= (|a| / 2 + |a|) * Log2(|a|)
  {
    var n := |a|;
    EnterBuildBound(a, n / 2 - 1);
    TimesIs(n / 2 + n, Log2(n));
  }

  /** The whole sort: sorted, a permutation, and at most `(n / 2 + n) * floor(log2(n))` swaps, hence yield points, in
      the inner loops. */
  lemma HeapSortIsCorrect(a: seq<int>)
    ensures InRange(Begin(a)) && Sorted(Finish(Begin(a))) && multiset(Finish(Begin(a))) == multiset(a)
    ensures a != [] ==> CountSwaps(Begin(a)) <= (|a| / 2 + |a|) * Log2(|a|)
  {
    BeginKeeps(a);
    FinishSorts(Begin(a));
    if a != [] {
      SwapsBounded(Begin(a));
      BeginBound(a);
    }
  }

  // ---------- in place ----------

  /** `heap_sort`, counting the swaps of its inner loops, each of which may yield. */
  method SortInPlace(a: array<int>) returns (ghost swaps: nat)
    modifies a
    ensures InRange(Begin(old(a[..]))) && a[..] == Finish(Begin(old(a[..]))) && swaps == CountSwaps(Begin(old(a[..])))
    ensures Sorted(a[..]) && multiset(a[..]) == multiset(old(a[..]))
    ensures a.Length > 0 ==> swaps <= (a.Length / 2 + a.Length) * Log2(a.Length)
  {
    hide Finish, CountSwaps, Log2, Sorted, Swap;
    HeapSortIsCorrect(a[..]);
    var size := a.Length;
    ghost var s := Begin(a[..]);
    ghost var all, total, n := Finish(s), CountSwaps(s), 0;
    swaps := 0;
    var i := size / 2 - 1;
    while i >= 0
      invariant -1 <= i < size / 2
      invariant s == EnterBuild(a[..], i) && InRange(s) && Finish(s) == all && swaps + CountSwaps(s) == total
    {
      s, n := Sink(a, i, size, s);
      swaps := swaps + n;
      i := i - 1;
    }
    i := size - 1;
    while i > 0
      invariant size == 0 || 0 <= i < size
      invariant s == EnterPop(a[..], i) && InRange(s) && Finish(s) == all && swaps + CountSwaps(s) == total
    {
      Exchange(a, 0, i);
      s, n := Sink(a, 0, i, s);
      swaps := swaps + n;
      i := i - 1;
    }
    Unfold(s);
  }

  method Exchange(a: array<int>, i: nat, j: nat)
    requires i < a.Length && j < a.Length
    modifies a
    ensures a[..] == Swap(old(a[..]), i, j)
  {
    a[i], a[j] := a[j], a[i];
  }

  /** The inner loop both outer ones have, from `start` in the heap of the first `n` elements. */
  method Sink(a: array<int>, start: nat, n: nat, ghost s: Sort) returns (ghost next: Sort, ghost swaps: nat)
    requires InRange(s) && !s.pos.Done? && s.a == a[..] && s.pos.j == start && n == End(s)
    modifies a
    ensures next == if s.pos.Build? then EnterBuild(a[..], s.pos.i - 1) else EnterPop(a[..], s.pos.i - 1)
    ensures InRange(next) && Finish(next) == Finish(s) && swaps + CountSwaps(next) == CountSwaps(s)
  {
    hide Finish, CountSwaps, Swap, Largest, EnterPop, EnterBuild;
    next, swaps := s, 0;
    var j := start;
    while true
      invariant j < n
      invariant next == Sort(a[..], if s.pos.Build? then Build(s.pos.i, j) else Pop(s.pos.i, j))
      invariant InRange(next) && Finish(next) == Finish(s) && swaps + CountSwaps(next) == CountSwaps(s)
      decreases n - j
    {
      Unfold(next);
      var largest := LargestOf(a, j, n);
      next := Turn(next);
      if largest == j {
        break;
      }
      Exchange(a, j, largest);
      j := largest;
      swaps := swaps + 1;
    }
  }

  lemma Unfold(s: Sort)
    requires InRange(s)
    ensures if s.pos.Done? then Finish(s) == s.a && CountSwaps(s) == 0
            else Finish(s) == Finish(Turn(s)) && CountSwaps(s) == (if Swaps(s) then 1 else 0) + CountSwaps(Turn(s))
  {
  }

  /** The comparisons of an inner loop. */
  method LargestOf(a: array<int>, j: nat, n: nat) returns (largest: nat)
    requires j < n <= a.Length
    ensures largest == Largest(a[..], j, n)
  {
    var left, right := 2 * j + 1, 2 * j + 2;
    largest := j;
    if left < n && a[left] > a[largest] {
      largest := left;
    }
    if right < n && a[right] > a[largest] {
      largest := right;
    }
  }
}
