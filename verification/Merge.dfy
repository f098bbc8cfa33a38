/**
 The k-way merge at the end of homework-01/solution.c. It starts each search from INT_MAX with a strict comparison, so
 elements equal to INT_MAX are never written.
 */
module Merge {
  import opened HeapSort

  const INT_MAX := 0x7fff_ffff

  /** An element with its file and its place there. */
  datatype Item = Item(value: int, file: nat, at: nat)

  /** By value, then by file, then by place. */
  predicate Precedes(x: Item, y: Item) {
    x.value < y.value || (x.value == y.value && (x.file < y.file || (x.file == y.file && x.at < y.at)))
  }

  predicate Exists(arrays: seq<seq<int>>, x: Item) {
    x.file < |arrays| && x.at < |arrays[x.file]| && x.value == arrays[x.file][x.at]
  }

  /** The elements of all files together. */
  function All(arrays: seq<seq<int>>): multiset<int> {
    if arrays == [] then multiset{} else multiset(arrays[0]) + All(arrays[1..])
  }

  function Values(items: seq<Item>): (r: seq<int>)
    ensures |r| == |items| && forall i :: 0 <= i < |items| ==> r[i] == items[i].value
  {
    seq(|items|, i requires 0 <= i < |items| => items[i].value)
  }

  predicate Ascending(items: seq<Item>) {
    forall i, j :: 0 <= i < j < |items| ==> Precedes(items[i], items[j])
  }

  /** What the merge has to write: everything below INT_MAX, ordered, equal values in the order of the files. */
  predicate IsMerge(arrays: seq<seq<int>>, items: seq<Item>) {
    && Ascending(items)
    && (forall x :: x in items ==> Exists(arrays, x) && x.value < INT_MAX)
    && (forall f, p :: 0 <= f < |arrays| && 0 <= p < |arrays[f]| && arrays[f][p] < INT_MAX ==>
         Item(arrays[f][p], f, p) in items)
  }

  predicate Within(arrays: seq<seq<int>>, next: seq<nat>) {
    |next| == |arrays| && forall f :: 0 <= f < |arrays| ==> next[f] <= |arrays[f]|
  }

  /** What is not written yet. */
  function Rest(arrays: seq<seq<int>>, next: seq<nat>): multiset<int>
    requires Within(arrays, next)
  {
    if arrays == [] then multiset{} else multiset(arrays[0][next[0]..]) + Rest(arrays[1..], next[1..])
  }

  lemma TailTakes(a: seq<int>, k: nat)
    requires k < |a|
    ensures multiset(a[k..]) == multiset{a[k]} + multiset(a[k + 1..])
  {
    assert a[k..] == [a[k]] + a[k + 1..];
  }

  lemma RestIs(arrays: seq<seq<int>>, next: seq<nat>)
    requires Within(arrays, next) && arrays != []
    ensures Within(arrays[1..], next[1..])
    ensures Rest(arrays, next) == multiset(arrays[0][next[0]..]) + Rest(arrays[1..], next[1..])
  {
  }

  lemma NextMoves(arrays: seq<seq<int>>, next: seq<nat>, f: nat)
    requires Within(arrays, next) && f < |arrays| && next[f] < |arrays[f]|
    ensures var next' := next[f := next[f] + 1];
            && Within(arrays, next')
            && if f == 0 then next'[1..] == next[1..]
               else next'[1..] == next[1..][f - 1 := next[f] + 1] && next'[0] == next[0]
  {
  }

  lemma {:induction false} RestTakes(arrays: seq<seq<int>>, next: seq<nat>, f: nat)
    requires Within(arrays, next) && f < |arrays| && next[f] < |arrays[f]|
    ensures Within(arrays, next[f := next[f] + 1])
    ensures Rest(arrays, next) == multiset{arrays[f][next[f]]} + Rest(arrays, next[f := next[f] + 1])
  {
    hide Rest;
    var next' := next[f := next[f] + 1];
    NextMoves(arrays, next, f);
    RestIs(arrays, next);
    RestIs(arrays, next');
    if f == 0 {
      TailTakes(arrays[0], next[0]);
    } else {
      RestTakes(arrays[1..], next[1..], f - 1);
    }
  }

  lemma {:induction false} RestStarts(arrays: seq<seq<int>>, next: seq<nat>)
    requires |next| == |arrays| && forall f :: 0 <= f < |arrays| ==> next[f] == 0
    ensures Rest(arrays, next) == All(arrays)
  {
    if arrays != [] {
      RestStarts(arrays[1..], next[1..]);
      assert arrays[0][0..] == arrays[0];
    }
  }

  lemma {:induction false} RestEnds(arrays: seq<seq<int>>, next: seq<nat>, x: int)
    requires Within(arrays, next)
    requires forall f, p :: 0 <= f < |arrays| && next[f] <= p < |arrays[f]| ==> arrays[f][p] == INT_MAX
    ensures x in Rest(arrays, next) ==> x == INT_MAX
  {
    if arrays != [] {
      forall f, p | 0 <= f < |arrays[1..]| && next[1..][f] <= p < |arrays[1..][f]|
        ensures arrays[1..][f][p] == INT_MAX
      {
        assert arrays[f + 1][p] == INT_MAX;
      }
      RestEnds(arrays[1..], next[1..], x);
    }
  }

  /** Written in the order of a merge, the values are sorted. */
  lemma MergeSorts(arrays: seq<seq<int>>, items: seq<Item>)
    requires IsMerge(arrays, items)
    ensures Sorted(Values(items))
  {
  }

  lemma SomethingIn(ys: seq<Item>)
    ensures ys != [] ==> exists y :: y in ys
  {
    if ys != [] {
      assert ys[0] in ys;
    }
  }

  lemma {:induction false} AscendingIsUnique(xs: seq<Item>, ys: seq<Item>)
    requires Ascending(xs) && Ascending(ys) && forall x :: x in xs <==> x in ys
    ensures xs == ys
  {
    SomethingIn(xs);
    SomethingIn(ys);
    if xs != [] && ys != [] {
      assert xs[0] in ys && ys[0] in xs;
      assert xs[0] == ys[0];
      forall x ensures x in xs[1..] <==> x in ys[1..] {
        assert x in xs[1..] ==> x in xs && x != xs[0];
        assert x in ys[1..] ==> x in ys && x != ys[0];
      }
      AscendingIsUnique(xs[1..], ys[1..]);
    }
  }

  /** There is but one merge. */
  lemma MergeIsUnique(arrays: seq<seq<int>>, xs: seq<Item>, ys: seq<Item>)
    requires IsMerge(arrays, xs) && IsMerge(arrays, ys)
    ensures xs == ys
  {
    forall x ensures x in xs <==> x in ys {
      assert x == Item(x.value, x.file, x.at);
    }
    AscendingIsUnique(xs, ys);
  }

  /** Where the merge stands: what it wrote precedes all that is left below INT_MAX. */
  predicate Merging(arrays: seq<seq<int>>, next: seq<nat>, items: seq<Item>) {
    && Within(arrays, next)
    && Ascending(items)
    && (forall x :: x in items ==> Exists(arrays, x) && x.value < INT_MAX && x.at < next[x.file])
    && (forall f, p :: 0 <= f < |arrays| && 0 <= p < next[f] ==> Item(arrays[f][p], f, p) in items)
    && (forall x, f :: x in items && 0 <= f < |arrays| && next[f] < |arrays[f]| ==>
         Precedes(x, Item(arrays[f][next[f]], f, next[f])))
  }

  /** The smallest current value below INT_MAX, in the first file that has it. */
  predicate IsNext(arrays: seq<seq<int>>, next: seq<nat>, n: nat, idx: int, value: int)
    requires n <= |arrays| == |next|
  {
    if idx == -1 then value == INT_MAX && forall f :: 0 <= f < n && next[f] < |arrays[f]| ==>
         arrays[f][next[f]] >= INT_MAX
    else
      && 0 <= idx < n && next[idx] < |arrays[idx]| && value == arrays[idx][next[idx]] < INT_MAX
      && (forall f :: 0 <= f < n && next[f] < |arrays[f]| ==> value <= arrays[f][next[f]])
      && (forall f :: 0 <= f < idx && next[f] < |arrays[f]| ==> value < arrays[f][next[f]])
  }

  /** The search over the files. */
  method FindNext(arrays: seq<seq<int>>, next: array<nat>) returns (idx: int, value: int)
    requires next.Length == |arrays|
    ensures IsNext(arrays, next[..], |arrays|, idx, value)
  {
    value, idx := INT_MAX, -1;
    for i := 0 to |arrays|
      invariant IsNext(arrays, next[..], i, idx, value)
    {
      if next[i] < |arrays[i]| {
        var v := arrays[i][next[i]];
        if v < value {
          value, idx := v, i;
        }
      }
    }
  }

  /** Writing the next element goes on merging. */
  lemma MergeStep(arrays: seq<seq<int>>, next: seq<nat>, items: seq<Item>, idx: nat, value: int)
    requires Merging(arrays, next, items) && IsNext(arrays, next, |arrays|, idx, value)
    requires forall f :: 0 <= f < |arrays| ==> Sorted(arrays[f])
    ensures Merging(arrays, next[idx := next[idx] + 1], items + [Item(value, idx, next[idx])])
  {
    var x, next' := Item(value, idx, next[idx]), next[idx := next[idx] + 1];
    var items' := items + [x];
    forall y, f | y in items' && 0 <= f < |arrays| && next'[f] < |arrays[f]|
      ensures Precedes(y, Item(arrays[f][next'[f]], f, next'[f]))
    {
      assert next[f] < |arrays[f]|;
      assert arrays[f][next[f]] <= arrays[f][next'[f]];
    }
    forall f, p | 0 <= f < |arrays| && 0 <= p < next'[f] ensures Item(arrays[f][p], f, p) in items' {
      if f == idx && p == next[idx] {
        assert x in items';
      } else {
        assert Item(arrays[f][p], f, p) in items;
      }
    }
  }

  /** When nothing below INT_MAX is left the merge is complete. */
  lemma MergeDone(arrays: seq<seq<int>>, next: seq<nat>, items: seq<Item>)
    requires Merging(arrays, next, items) && IsNext(arrays, next, |arrays|, -1, INT_MAX)
    requires forall f :: 0 <= f < |arrays| ==> Sorted(arrays[f])
    requires forall f, p :: 0 <= f < |arrays| && 0 <= p < |arrays[f]| ==> arrays[f][p] <= INT_MAX
    ensures IsMerge(arrays, items)
    ensures forall f, p :: 0 <= f < |arrays| && next[f] <= p < |arrays[f]| ==> arrays[f][p] == INT_MAX
  {
    forall f, p | 0 <= f < |arrays| && next[f] <= p < |arrays[f]| ensures arrays[f][p] == INT_MAX {
      assert arrays[f][next[f]] <= arrays[f][p];
    }
  }

  /** The written values are everything but INT_MAX when what is left is nothing else. */
  lemma MergeCounts(arrays: seq<seq<int>>, next: seq<nat>, items: seq<Item>)
    requires Merging(arrays, next, items) && IsMerge(arrays, items)
    requires multiset(Values(items)) + Rest(arrays, next) == All(arrays)
    requires forall f, p :: 0 <= f < |arrays| && next[f] <= p < |arrays[f]| ==> arrays[f][p] == INT_MAX
    ensures multiset(Values(items)) == All(arrays)[INT_MAX := 0]
  {
    hide Rest, All;
    var output := Values(items);
    forall x ensures multiset(output)[x] == All(arrays)[INT_MAX := 0][x] {
      RestEnds(arrays, next, x);
      assert INT_MAX !in output;
    }
  }

  /** What the loop needs of `idx`. */
  lemma NextFacts(arrays: seq<seq<int>>, next: seq<nat>, items: seq<Item>, idx: int, value: int)
    requires Merging(arrays, next, items) && IsNext(arrays, next, |arrays|, idx, value)
    ensures idx == -1 ==> value == INT_MAX
    ensures idx != -1 ==> 0 <= idx < |arrays| && next[idx] < |arrays[idx]| && value == arrays[idx][next[idx]]
    ensures Within(arrays, next)
  {
  }

  lemma ValuesAdd(items: seq<Item>, x: Item)
    ensures Values(items + [x]) == Values(items) + [x.value]
  {
  }

  lemma MergeStarts(arrays: seq<seq<int>>, next: seq<nat>)
    requires |next| == |arrays| && forall f :: 0 <= f < |arrays| ==> next[f] == 0
    ensures Merging(arrays, next, []) && Values([]) == []
  {
  }

  /** The merge of sorted arrays of C integers: in order, everything but the elements equal to INT_MAX, equal values in
      file order. */
  method MergeArrays(arrays: seq<seq<int>>) returns (output: seq<int>, ghost items: seq<Item>)
    requires forall f :: 0 <= f < |arrays| ==> Sorted(arrays[f])
    requires forall f, p :: 0 <= f < |arrays| && 0 <= p < |arrays[f]| ==> arrays[f][p] <= INT_MAX
    ensures IsMerge(arrays, items) && output == Values(items)
    ensures Sorted(output) && multiset(output) == All(arrays)[INT_MAX := 0]
    ensures multiset(output) == All(arrays) <==> INT_MAX !in All(arrays)
  {
    hide Merging, IsNext, IsMerge, Rest, All, Values, Sorted;
    var next := new nat[|arrays|](_ => 0);
    output, items := [], [];
    RestStarts(arrays, next[..]);
    MergeStarts(arrays, next[..]);
    while true
      invariant next.Length == |arrays| && Within(arrays, next[..])
      invariant Merging(arrays, next[..], items) && output == Values(items)
      invariant multiset(output) + Rest(arrays, next[..]) == All(arrays)
      decreases |Rest(arrays, next[..])|
    {
      var idx, value := FindNext(arrays, next);
      NextFacts(arrays, next[..], items, idx, value);
      if idx == -1 {
        break;
      }
      MergeStep(arrays, next[..], items, idx, value);
      RestTakes(arrays, next[..], idx);
      ValuesAdd(items, Item(value, idx, next[idx]));
      ghost var was := next[..];
      output, items := output + [value], items + [Item(value, idx, next[idx])];
      next[idx] := next[idx] + 1;
      assert next[..] == was[idx := was[idx] + 1];
    }
    MergeDone(arrays, next[..], items);
    MergeSorts(arrays, items);
    MergeCounts(arrays, next[..], items);
  }
}
