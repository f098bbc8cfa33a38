/**
 Whole runs of the heap tracker on linked objects: threads in any interleaving, each with the object it took.
 */
module HeapTrackerRun {
  import H = HeapTracker
  import opened HeapTrackerLists

  /** The object a thread took between its two sections is its own, and in neither list. */
  ghost predicate Hands(threads: seq<H.Pc>, hand: map<nat, Allocation>, listed: seq<Allocation>,
      spare: seq<Allocation>) {
    && (forall th :: 0 <= th < |threads| && threads[th].Fill? ==>
          th in hand && hand[th].id == threads[th].id && hand[th] !in listed && hand[th] !in spare)
    && (forall x, y :: 0 <= x < y < |threads| && threads[x].Fill? && threads[y].Fill? && x in hand && y in hand ==>
         hand[x] != hand[y])
  }

  /** The other threads keep theirs while objects only move between the lists. */
  lemma HandsStay(threads: seq<H.Pc>, th: nat, pc: H.Pc, hand: map<nat, Allocation>, listed: seq<Allocation>,
      spare: seq<Allocation>, listed': seq<Allocation>, spare': seq<Allocation>)
    requires Hands(threads, hand, listed, spare) && th < |threads| && !pc.Fill?
    requires forall x :: x in listed' || x in spare' ==>
               x in listed || x in spare || (threads[th].Fill? && th in hand && x == hand[th])
    ensures Hands(threads[th := pc], hand, listed', spare')
  {
  }

  lemma HandsTake(threads: seq<H.Pc>, th: nat, pc: H.Pc, hand: map<nat, Allocation>, listed: seq<Allocation>,
      spare: seq<Allocation>, n: Allocation, spare': seq<Allocation>)
    requires Hands(threads, hand, listed, spare) && th < |threads| && pc.Fill? && pc.id == n.id
    requires n !in listed && n !in spare' && forall x :: x in spare' ==> x in spare
    requires n !in hand.Values || n in spare
    ensures Hands(threads[th := pc], hand[th := n], listed, spare')
  {
  }

  ghost predicate Fits(s: H.State, hand: map<nat, Allocation>, t: Tracker)
    reads t, t.listed, t.spare
  {
    t.Valid() && t.View() == s.l && Hands(s.threads, hand, t.listed, t.spare)
  }

  method PerformTake(s: H.State, th: nat, t: Tracker, hand: map<nat, Allocation>) returns (hand': map<nat, Allocation>)
    requires H.Enabled(s, H.Step(th)) && s.threads[th].New? && Fits(s, hand, t)
    modifies t
    ensures Fits(H.Advance(s, th), hand', t) && t.listed == old(t.listed)
    ensures forall x :: x in t.spare ==> x in old(t.spare)
    ensures forall x :: x in hand'.Values ==> fresh(x) || x in old(t.spare) || x in hand.Values
  {
    hide Hands, Tracker.Valid, Tracker.View, H.Take, H.Taken;
    var n := t.Take();
    hand' := hand[th := n];
    HandsTake(s.threads, th, H.Advance(s, th).threads[th], hand, t.listed, old(t.spare), n, t.spare);
  }

  method PerformInsert(s: H.State, th: nat, t: Tracker, n: Allocation, ghost hand: map<nat, Allocation>)
    requires H.Enabled(s, H.Step(th)) && s.threads[th].Fill? && Fits(s, hand, t)
    requires th in hand && n == hand[th] && n.id == s.threads[th].id && n !in t.listed && n !in t.spare
    modifies t, n
    ensures Fits(H.Advance(s, th), hand, t) && t.spare == old(t.spare) && t.listed == [n] + old(t.listed)
  {
    hide Hands, Tracker.Valid, Tracker.View, H.Insert;
    n.mem, n.size := s.threads[th].mem, s.threads[th].size;
    t.Insert(n);
    HandsStay(s.threads, th, H.Idle, hand, old(t.listed), t.spare, t.listed, t.spare);
  }

  method PerformRemove(s: H.State, th: nat, t: Tracker, ghost hand: map<nat, Allocation>)
    requires H.Inv(s) && H.Enabled(s, H.Step(th)) && s.threads[th].Untrack? && Fits(s, hand, t)
    modifies t, t.listed
    ensures Fits(H.Advance(s, th), hand, t)
    ensures forall x :: x in t.listed || x in t.spare ==> x in old(t.listed) || x in old(t.spare)
  {
    hide H.Inv, Hands, Tracker.Valid, Tracker.View, H.Remove;
    H.NeverBadMemory(s, th);
    var found := t.Remove(s.threads[th].mem);
    HandsStay(s.threads, th, H.Advance(s, th).threads[th], hand, old(t.listed), old(t.spare), t.listed, t.spare);
  }

  lemma HandFacts(s: H.State, th: nat, t: Tracker, hand: map<nat, Allocation>)
    requires th < |s.threads| && Fits(s, hand, t)
    ensures s.threads[th].Fill? ==>
              th in hand && hand[th].id == s.threads[th].id && hand[th] !in t.listed && hand[th] !in t.spare
  {
  }

  /** The program's part of an action moves no object. */
  lemma FitsStill(s: H.State, a: H.Action, t: Tracker, hand: map<nat, Allocation>)
    requires H.Enabled(s, a) && Fits(s, hand, t)
    requires a.Step? ==> s.threads[a.th].Freeing?
    ensures Fits(H.Do(s, a), hand, t)
  {
    hide Hands, Tracker.Valid, Tracker.View;
    HandsStay(s.threads, a.th, H.Do(s, a).threads[a.th], hand, t.listed, t.spare, t.listed, t.spare);
    assert s.threads[a.th := s.threads[a.th]] == s.threads;
  }

  /** One action, on the objects. */
  method Perform(s: H.State, a: H.Action, t: Tracker, hand: map<nat, Allocation>) returns (hand': map<nat, Allocation>)
    requires H.Inv(s) && H.Enabled(s, a) && Fits(s, hand, t)
    modifies t, t.listed, hand.Values
    ensures Fits(H.Do(s, a), hand', t)
    ensures forall x :: x in t.listed || x in t.spare || x in hand'.Values ==>
              fresh(x) || x in old(t.listed) || x in old(t.spare) || x in hand.Values
  {
    hide H.Inv, Fits, H.Advance;
    hand' := hand;
    if a.Step? && s.threads[a.th].New? {
      hand' := PerformTake(s, a.th, t, hand);
    } else if a.Step? && s.threads[a.th].Fill? {
      HandFacts(s, a.th, t, hand);
      PerformInsert(s, a.th, t, hand[a.th], hand);
    } else if a.Step? && s.threads[a.th].Untrack? {
      PerformRemove(s, a.th, t, hand);
    } else {
      FitsStill(s, a, t, hand);
    }
  }

  /** A whole run, its sections on the objects of one tracker: after each the lists hold what the run's state says,
      so no removal aborts, and when no thread is inside `alloc_count` is the number of addresses the program was
      given and did not give back. */
  method Run(start: H.State, acts: seq<H.Action>, ghost path: seq<H.State>) returns (t: Tracker)
    requires H.IsRun(path, acts) && H.Start(path[0]) && start == path[0]
    ensures fresh(t) && t.Valid() && t.View() == path[|acts|].l && !path[|acts|].aborted
    ensures (forall pc :: pc in path[|acts|].threads ==> pc.Idle?) ==> t.count == |H.Given(acts, |acts|)|
  {
    hide H.Inv, H.Do, H.Enabled, H.Start, Fits, Tracker.Valid, Tracker.View;
    t := new Tracker();
    var s, hand := start, map[];
    NoHands(s, hand, t);
    for i := 0 to |acts|
      invariant fresh(t) && s == path[i] && Fits(s, hand, t)
      invariant forall k :: 0 <= k < |t.listed| ==> fresh(t.listed[k])
      invariant forall x :: x in t.spare ==> fresh(x)
      invariant forall x :: x in hand.Values ==> fresh(x)
    {
      H.InvOfRun(path, acts, i);
      assert forall x :: x in t.listed ==> fresh(x);
      hand := Perform(s, acts[i], t, hand);
      assert forall k :: 0 <= k < |t.listed| ==> t.listed[k] in t.listed;
      s := H.Do(s, acts[i]);
    }
    H.InvOfRun(path, acts, |acts|);
    AtTheEnd(path, acts, t, hand);
  }

  lemma NoHands(s: H.State, hand: map<nat, Allocation>, t: Tracker)
    requires H.Start(s) && t.Valid() && t.View() == H.EMPTY_LISTS
    ensures Fits(s, hand, t) && t.listed == [] && t.spare == []
  {
    assert |t.View().allocs| == |t.listed| && |t.View().pool| == |t.spare|;
  }

  lemma AtTheEnd(path: seq<H.State>, acts: seq<H.Action>, t: Tracker, hand: map<nat, Allocation>)
    requires H.IsRun(path, acts) && H.Start(path[0]) && H.Inv(path[|acts|]) && Fits(path[|acts|], hand, t)
    ensures var s := path[|acts|];
            && !s.aborted && t.Valid() && t.View() == s.l
            && ((forall pc :: pc in s.threads ==> pc.Idle?) ==> t.count == |H.Given(acts, |acts|)|)
  {
    hide H.Enabled, H.Do, H.Given;
    if forall pc :: pc in path[|acts|].threads ==> pc.Idle? {
      H.CountIsGiven(path, acts);
    }
  }
}
