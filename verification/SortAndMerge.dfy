/**
 The whole of homework-01/solution.c: the coroutines sort the files, under any schedule, and the main function merges
 what they leave.
 */
module SortAndMerge {
  import opened HeapSort
  import opened CoroutineSort
  import opened Merge

  lemma {:induction false} AllSame(a: seq<seq<int>>, b: seq<seq<int>>)
    requires |a| == |b| && forall f :: 0 <= f < |a| ==> multiset(a[f]) == multiset(b[f])
    ensures All(a) == All(b)
  {
    if a != [] {
      AllSame(a[1..], b[1..]);
    }
  }

  lemma Permuted(a: seq<int>, b: seq<int>, bound: int)
    requires multiset(a) == multiset(b) && forall p :: 0 <= p < |b| ==> b[p] <= bound
    ensures forall p :: 0 <= p < |a| ==> a[p] <= bound
  {
    forall p | 0 <= p < |a| ensures a[p] <= bound {
      assert a[p] in multiset(b);
    }
  }

  /** From the files to the output: whatever the schedule, the number of coroutines, the time they may work and the
      clock, the output is the elements of all files in order, but for those equal to INT_MAX. */
  method SortThenMerge(ghost path: seq<State>, ghost acts: seq<Action>,
      arrays: seq<seq<int>>) returns (output: seq<int>)
    requires IsRun(path, acts) && Start(path[0]) && path[0].coros != [] && AllEnded(path[|acts|])
    requires arrays == path[|acts|].arrays
    requires forall f, p :: 0 <= f < |path[0].files| && 0 <= p < |path[0].files[f]| ==> path[0].files[f][p] <= INT_MAX
    ensures Sorted(output) && multiset(output) == All(path[0].files)[INT_MAX := 0]
  {
    AllFilesSorted(path, acts);
    ghost var files := path[0].files;
    AllSame(arrays, files);
    forall f | 0 <= f < |files| ensures forall p :: 0 <= p < |arrays[f]| ==> arrays[f][p] <= INT_MAX {
      Permuted(arrays[f], files[f], INT_MAX);
    }
    ghost var items;
    output, items := MergeArrays(arrays);
  }

  lemma HeadIsLeast(a: seq<int>)
    requires Sorted(a) && a != []
    ensures Sorted(a[1..]) && a[0] in multiset(a) && multiset(a[1..]) == multiset(a) - multiset{a[0]}
    ensures forall x :: x in multiset(a) ==> a[0] <= x
  {
    assert a == [a[0]] + a[1..];
    forall x | x in multiset(a) ensures a[0] <= x {
      assert x in a;
    }
  }

  lemma NoElements(a: seq<int>)
    ensures multiset(a) == multiset{} <==> a == []
  {
    assert |multiset(a)| == |a|;
  }

  lemma SameHead(a: seq<int>, b: seq<int>)
    requires Sorted(a) && Sorted(b) && multiset(a) == multiset(b) && a != []
    ensures b != [] && a[0] == b[0] && Sorted(a[1..]) && Sorted(b[1..]) && multiset(a[1..]) == multiset(b[1..])
  {
    hide Sorted;
    NoElements(a);
    NoElements(b);
    HeadIsLeast(a);
    HeadIsLeast(b);
  }

  lemma {:induction false} SortedIsUnique(a: seq<int>, b: seq<int>)
    requires Sorted(a) && Sorted(b) && multiset(a) == multiset(b)
    ensures a == b
  {
    hide Sorted;
    if a != [] {
      SameHead(a, b);
      SortedIsUnique(a[1..], b[1..]);
      assert a == [a[0]] + a[1..] && b == [b[0]] + b[1..];
    } else {
      NoElements(b);
    }
  }

  /** Two runs on the same files leave the same, however many coroutines there are and however they are scheduled. */
  lemma ScheduleDoesNotMatter(path: seq<State>, acts: seq<Action>, path': seq<State>, acts': seq<Action>)
    requires IsRun(path, acts) && Start(path[0]) && path[0].coros != [] && AllEnded(path[|acts|])
    requires IsRun(path', acts') && Start(path'[0]) && path'[0].coros != [] && AllEnded(path'[|acts'|])
    requires path[0].files == path'[0].files
    ensures path[|acts|].arrays == path'[|acts'|].arrays
  {
    AllFilesSorted(path, acts);
    AllFilesSorted(path', acts');
    hide IsRun, Start, AllEnded, Sorted;
    var a, b := path[|acts|].arrays, path'[|acts'|].arrays;
    forall f | 0 <= f < |a| ensures a[f] == b[f] {
      SortedIsUnique(a[f], b[f]);
    }
  }
}
