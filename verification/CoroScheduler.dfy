/**
 The cooperative scheduler of homework-01/libcoro.c. A context switch is a step that changes the running coroutine. What
 a coroutine's function does is the number of times it yields before it returns.
 */
module CoroScheduler {
  import opened Common

  /** `struct coro`; `left` is how often its function is still going to yield. */
  class Coro {
    var next: Coro?
    var prev: Coro?
    var finished: bool
    var switches: nat
    var left: nat

    constructor (left: nat)
      ensures this.left == left && switches == 0 && !finished
    {
      this.left, switches, finished, next, prev := left, 0, false, null, null;
    }
  }

  ghost function At(nodes: seq<Coro>, i: int): Coro? {
    if 0 <= i < |nodes| then nodes[i] else null
  }

  /** `coro_list` leads through the nodes in order, and back. */
  ghost predicate Linked(list: Coro?, nodes: seq<Coro>)
    reads (set n | n in nodes)`next, (set n | n in nodes)`prev
  {
    && list == At(nodes, 0)
    && Distinct(nodes)
    && forall i :: 0 <= i < |nodes| ==> nodes[i].next == At(nodes, i + 1) && nodes[i].prev == At(nodes, i - 1)
  }

  lemma LinkFacts(list: Coro?, nodes: seq<Coro>, i: int)
    requires Linked(list, nodes) && 0 <= i < |nodes|
    ensures nodes[i].next == At(nodes, i + 1) && nodes[i].prev == At(nodes, i - 1)
    ensures Distinct(nodes) && list == nodes[0]
  {
  }

  lemma HeadFacts(list: Coro?, nodes: seq<Coro>)
    requires Linked(list, nodes)
    ensures list == null <==> nodes == []
    ensures nodes != [] ==> list == nodes[0] && forall i :: 1 <= i < |nodes| ==> nodes[i] != nodes[0]
  {
  }

  lemma EmptyList(list: Coro?, nodes: seq<Coro>)
    requires Linked(list, nodes)
    ensures list == null <==> nodes == []
  {
  }

  ghost predicate NoneFinished(nodes: seq<Coro>)
    reads (set n | n in nodes)`finished
  {
    forall i :: 0 <= i < |nodes| ==> !nodes[i].finished
  }

  // ---------- who finishes when ----------

  /** What counts of a coroutine: the yields its function has left, and the switches away from it so far. */
  datatype Job = Job(left: nat, switches: nat)

  /** The first job without yields left, or the number of jobs. */
  function FirstDone(js: seq<Job>): (p: nat)
    ensures p <= |js| && (forall i :: 0 <= i < p ==> js[i].left > 0) && (p < |js| ==> js[p].left == 0)
  {
    if js == [] || js[0].left == 0 then 0 else 1 + FirstDone(js[1..])
  }

  /** The jobs after those before `p` yielded once. */
  function Pass(js: seq<Job>, p: nat): (r: seq<Job>)
    requires p <= |js| && forall i :: 0 <= i < p ==> js[i].left > 0
    ensures |r| == |js|
  {
    seq(|js|, i requires 0 <= i < |js| => if i < p then Job(js[i].left - 1, js[i].switches + 1) else js[i])
  }

  /** The job that finishes next, passing over the list from its head again and again ... */
  function Next(js: seq<Job>): (p: nat)
    requires js != []
    ensures p < |js|
    decreases js[0].left
  {
    var p := FirstDone(js);
    if p < |js| then p else Next(Pass(js, p))
  }

  /** ... and the jobs then. */
  function After(js: seq<Job>): (r: seq<Job>)
    requires js != []
    ensures |r| == |js|
    decreases js[0].left
  {
    var p := FirstDone(js);
    if p < |js| then Pass(js, p) else After(Pass(js, p))
  }

  function HeadLeft(js: seq<Job>): nat {
    if js == [] then 0 else js[0].left
  }

  /** What one pass over the list decides. */
  lemma PassFacts(js: seq<Job>)
    requires js != []
    ensures FirstDone(js) <= |js| && forall i :: 0 <= i < FirstDone(js) ==> js[i].left > 0
    ensures var p := FirstDone(js);
            if p < |js| then Next(js) == p && After(js) == Pass(js, p)
            else Next(js) == Next(Pass(js, p)) && After(js) == After(Pass(js, p)) && Pass(js, p)[0].left < js[0].left
  {
  }

  /** The next to finish is the one with the fewest yields left, the first of them on the list; the others made as many
      yields as it did, and those before it one more. */
  lemma {:induction false} NextIsLeast(js: seq<Job>)
    requires js != []
    ensures forall j :: 0 <= j < |js| ==> js[j].left >= js[Next(js)].left + if j < Next(js) then 1 else 0
    ensures forall j :: 0 <= j < |js| ==>
              var made := js[Next(js)].left + if j < Next(js) then 1 else 0;
              After(js)[j] == Job(js[j].left - made, js[j].switches + made)
    decreases js[0].left
  {
    var p := FirstDone(js);
    if p == |js| {
      var js' := Pass(js, p);
      NextIsLeast(js');
      forall j | 0 <= j < |js| ensures js[j].left >= js[Next(js)].left + if j < Next(js) then 1 else 0 {
        assert js'[j].left >= js'[Next(js')].left + if j < Next(js') then 1 else 0;
      }
    }
  }

  /** No yield is lost, and the next to finish has none left. */
  lemma SumsKept(js: seq<Job>)
    requires js != []
    ensures After(js)[Next(js)].left == 0
    ensures forall j :: 0 <= j < |js| ==> After(js)[j].switches + After(js)[j].left == js[j].switches + js[j].left
  {
    NextIsLeast(js);
  }

  /** The coroutines in the order in which they finish. */
  ghost function FinishOrder<T>(nodes: seq<T>, js: seq<Job>): seq<T>
    requires |nodes| == |js|
  {
    if nodes == [] then []
    else [nodes[Next(js)]] + FinishOrder(RemoveAt(nodes, Next(js)), RemoveAt(After(js), Next(js)))
  }

  lemma RemoveAtIs<T>(xs: seq<T>, k: nat)
    requires k < |xs|
    ensures |RemoveAt(xs, k)| == |xs| - 1
    ensures forall i :: 0 <= i < |xs| - 1 ==> RemoveAt(xs, k)[i] == xs[if i < k then i else i + 1]
  {
  }

  lemma RemoveAtMembers<T>(xs: seq<T>, k: nat)
    requires k < |xs|
    ensures multiset(xs) == multiset{xs[k]} + multiset(RemoveAt(xs, k))
  {
    assert xs == xs[..k] + [xs[k]] + xs[k + 1..];
  }

  lemma SameMembers<T>(xs: seq<T>, ys: seq<T>)
    requires multiset(xs) == multiset(ys)
    ensures forall x :: x in xs ==> x in ys
  {
    forall x | x in xs ensures x in ys {
      assert x in multiset(xs);
    }
  }

  /** Each of them is in it once. */
  lemma {:induction false} FinishOrderIsAll<T>(nodes: seq<T>, js: seq<Job>)
    requires |nodes| == |js|
    ensures multiset(FinishOrder(nodes, js)) == multiset(nodes)
  {
    if nodes != [] {
      FinishOrderIsAll(RemoveAt(nodes, Next(js)), RemoveAt(After(js), Next(js)));
      RemoveAtMembers(nodes, Next(js));
    }
  }

  ghost function JobsOf(nodes: seq<Coro>): (js: seq<Job>)
    reads (set n | n in nodes)`left, (set n | n in nodes)`switches
    ensures |js| == |nodes| && forall i :: 0 <= i < |nodes| ==> js[i] == Job(nodes[i].left, nodes[i].switches)
  {
    if nodes == [] then []
    else JobsOf(nodes[..|nodes| - 1]) + [Job(nodes[|nodes| - 1].left, nodes[|nodes| - 1].switches)]
  }

  /** `coro_list`, `coro_this_ptr` (null for the scheduler itself) and `is_sched_waiting`; `stranded` is the exit for
      want of a place to return to. */
  class Scheduler {
    var list: Coro?
    var current: Coro?
    var waiting: bool
    var stranded: bool
    ghost var nodes: seq<Coro>

    /** The list is well linked. While a coroutine runs it is on the list, nothing there has finished, and the scheduler
        waits. */
    ghost predicate Valid()
      reads this, nodes
    {
      && Linked(list, nodes) && !stranded
      && (current != null ==> current in nodes && waiting && NoneFinished(nodes))
    }

    constructor ()
      ensures Valid() && nodes == [] && current == null && !waiting
    {
      list, current, waiting, stranded, nodes := null, null, false, false, [];
    }

    /** `coro_list_add` */
    method Add(c: Coro)
      requires Valid() && c !in nodes && !c.finished
      modifies `list, `nodes, c`next, c`prev, nodes`prev
      ensures Valid() && nodes == [c] + old(nodes)
    {
      hide Linked;
      HeadFacts(list, nodes);
      c.next := list;
      c.prev := null;
      if list != null {
        list.prev := c;
      }
      list := c;
      nodes := [c] + nodes;
      LinkedAfterAdd(c);
    }

    /** `c` is linked before the old head. */
    twostate lemma LinkedAfterAdd(new c: Coro)
      requires old(Linked(list, nodes)) && c !in old(nodes) && nodes == [c] + old(nodes) && list == c
      requires c.next == old(list) && c.prev == null
      requires forall i :: 0 <= i < |old(nodes)| ==>
                 && old(nodes)[i].next == old(nodes[i].next)
                 && old(nodes)[i].prev == if i == 0 then c else old(nodes[i].prev)
      ensures Linked(list, nodes)
    {
      assert forall i :: 1 <= i < |nodes| ==> nodes[i] == old(nodes)[i - 1];
    }

    /** `coro_list_delete` on the coroutine at position `k`. */
    method Delete(c: Coro, ghost k: nat)
      requires Valid() && current == null && k < |nodes| && c == nodes[k]
      modifies `list, `nodes, nodes`next, nodes`prev
      ensures Valid() && nodes == old(nodes)[..k] + old(nodes)[k + 1..]
    {
      hide Linked;
      LinkFacts(list, nodes, k);
      Neighbours(k);
      var prev, next := c.prev, c.next;
      if prev != null {
        prev.next := next;
      }
      if next != null {
        next.prev := prev;
      }
      if prev == null {
        list := next;
      }
      nodes := nodes[..k] + nodes[k + 1..];
      LinkedAfterDelete(k);
    }

    lemma Neighbours(k: nat)
      requires Linked(list, nodes) && k < |nodes|
      ensures forall i :: 0 <= i < |nodes| && i != k - 1 ==> nodes[i] != At(nodes, k - 1)
      ensures forall i :: 0 <= i < |nodes| && i != k + 1 ==> nodes[i] != At(nodes, k + 1)
    {
    }

    /** The neighbours of position `k` were linked to each other. */
    twostate lemma LinkedAfterDelete(k: nat)
      requires old(Linked(list, nodes)) && k < |old(nodes)| && nodes == old(nodes)[..k] + old(nodes)[k + 1..]
      requires list == if k == 0 then At(old(nodes), 1) else old(list)
      requires forall i :: 0 <= i < |old(nodes)| && i != k ==>
                 && old(nodes)[i].next == (if i + 1 == k then At(old(nodes), k + 1) else old(nodes[i].next))
                 && old(nodes)[i].prev == (if i == k + 1 then At(old(nodes), k - 1) else old(nodes[i].prev))
      ensures Linked(list, nodes)
    {
      forall i | 0 <= i < |nodes| ensures nodes[i] == old(nodes)[if i < k then i else i + 1] {
      }
    }

    /** `coro_yield` of the running coroutine: on to the next one on the list, or back to the scheduler. */
    method Yield()
      requires Valid() && current != null
      modifies `current, current`switches
      ensures Valid() && old(current).switches == old(current.switches) + 1 && current == old(current.next)
      ensures current != null ==> !current.finished
    {
      var to := current.next;
      current.switches := current.switches + 1;
      current := to;
    }

    /** The end of `coro_body`: back to the scheduler, which must be waiting. */
    method Finish()
      requires Valid() && current != null
      modifies `current, `stranded, current`finished
      ensures Valid() && current == null && old(current).finished
      ensures forall c :: c in nodes && c != old(current) ==> !c.finished
    {
      current.finished := true;
      stranded := stranded || !waiting;
      current := null;
    }

    /** The running coroutine goes on to its next switch. */
    method Resume()
      requires Valid() && current != null
      modifies `current, `stranded, current`finished, current`switches, current`left
      ensures Valid()
      ensures var c := old(current);
              if old(c.left) == 0 then current == null && c.finished && c.left == 0 && c.switches == old(c.switches)
              else
                && current == old(c.next) && !c.finished
                && c.left == old(c.left) - 1 && c.switches == old(c.switches) + 1
      ensures forall c :: c in nodes && c != old(current) ==> !c.finished
    {
      if current.left == 0 {
        Finish();
      } else {
        current.left := current.left - 1;
        Yield();
      }
    }

    /** The search of `coro_sched_wait` for a finished coroutine. */
    method FindFinished() returns (c: Coro?, ghost k: nat)
      requires Valid()
      ensures k <= |nodes| && c == At(nodes, k) && (if c != null then c.finished else k == |nodes|)
      ensures (forall i :: 0 <= i < k ==> !nodes[i].finished)
    {
      hide Linked;
      HeadFacts(list, nodes);
      c, k := list, 0;
      while c != null
        invariant k <= |nodes| && c == At(nodes, k)
        invariant forall i :: 0 <= i < k ==> !nodes[i].finished
        decreases |nodes| - k
      {
        LinkFacts(list, nodes, k);
        if c.finished {
          return;
        }
        c := c.next;
        k := k + 1;
      }
    }

    /** One turn of the loop in `coro_sched_wait`: from the head of the list until control is back, from the end of
        the list or from the coroutine at position `p`, which finished. */
    method Round() returns (ghost p: nat)
      requires Valid() && current == null && nodes != [] && NoneFinished(nodes)
      modifies `current, `waiting, `stranded, nodes`finished, nodes`switches, nodes`left
      ensures Valid() && current == null && !waiting && !stranded
      ensures p == FirstDone(old(JobsOf(nodes))) && p <= |nodes|
      ensures forall i :: 0 <= i < |nodes| ==> (nodes[i].finished <==> i == p)
      ensures JobsOf(nodes) == Pass(old(JobsOf(nodes)), p)
    {
      hide Linked, JobsOf, FirstDone, Pass;
      ghost var js := JobsOf(nodes);
      p := 0;
      PassNothing(js);
      LinkFacts(list, nodes, 0);
      waiting := true;
      current := list;
      while current != null
        invariant p <= FirstDone(js) && |js| == |nodes| && Valid()
        invariant current != null ==> current == At(nodes, p)
        invariant forall i :: 0 <= i < |nodes| ==> (nodes[i].finished <==> current == null && i == p)
        invariant JobsOf(nodes) == Pass(js, p)
        invariant current == null ==> p == FirstDone(js)
        decreases if current == null then 0 else 1, |nodes| - p
      {
        p := RoundStep(js, p);
      }
      waiting := false;
    }

    lemma PassNothing(js: seq<Job>)
      ensures Pass(js, 0) == js
    {
    }

    /** The running coroutine, at position `p`, goes on to its next switch. */
    method RoundStep(ghost js: seq<Job>, ghost p: nat) returns (ghost p': nat)
      requires Valid() && p < |nodes| == |js| && current == nodes[p] && p <= FirstDone(js)
      requires JobsOf(nodes) == Pass(js, p)
      modifies `current, `stranded, current`finished, current`switches, current`left
      ensures Valid() && p' <= FirstDone(js) && JobsOf(nodes) == Pass(js, p')
      ensures current == null ==> p' == FirstDone(js)
      ensures current != null ==> p' == p + 1 && current == At(nodes, p')
      ensures forall i :: 0 <= i < |nodes| ==> (nodes[i].finished <==> current == null && i == p')
    {
      hide Linked, JobsOf;
      LinkFacts(list, nodes, p);
      assert JobsOf(nodes)[p] == js[p];
      if current.left == 0 {
        p' := p;
        AtEnd(js, p);
      } else {
        p' := p + 1;
      }
      Resume();
      assert JobsOf(nodes) == Pass(js, p');
    }

    lemma AtEnd(js: seq<Job>, p: nat)
      requires p < |js| && p <= FirstDone(js) && js[p].left == 0
      ensures p == FirstDone(js)
    {
    }

    /** The loop of `coro_sched_wait`, begun with the jobs `js`: the coroutine at `p` has finished, or after whole
        passes the jobs are `now`. */
    ghost predicate Seeking(js: seq<Job>, now: seq<Job>, p: nat)
      reads `nodes, nodes
    {
      && p <= |nodes| == |now| == |js| && (forall i :: 0 <= i < |nodes| ==> (nodes[i].finished <==> i == p))
      && (nodes != [] ==> if p < |nodes| then p == Next(js) && JobsOf(nodes) == After(js)
                          else JobsOf(nodes) == now && Next(js) == Next(now) && After(js) == After(now))
    }

    /** Nobody has finished yet, and the scheduler waits once more. */
    method WaitTurn(ghost js: seq<Job>, ghost now: seq<Job>) returns (ghost now': seq<Job>, ghost p: nat)
      requires Valid() && current == null && nodes != [] && Seeking(js, now, |nodes|)
      modifies `current, `waiting, `stranded, nodes`finished, nodes`switches, nodes`left
      ensures Valid() && current == null && !waiting && !stranded && Seeking(js, now', p) && p <= |nodes|
      ensures p == |nodes| ==> HeadLeft(now') < HeadLeft(now)
    {
      hide Linked, JobsOf, FirstDone, Pass, Next, After;
      PassFacts(now);
      p := Round();
      now' := if p == |nodes| then Pass(now, p) else now;
    }

    /** `coro_sched_wait`: NULL for an empty list, else the coroutine that finishes next, off the list. */
    method Wait() returns (c: Coro?)
      requires Valid() && current == null && NoneFinished(nodes)
      modifies `current, `waiting, `stranded, `list, `nodes, nodes`finished, nodes`switches, nodes`left, nodes`next,
          nodes`prev
      ensures Valid() && current == null && NoneFinished(nodes) && !stranded && (waiting ==> old(waiting))
      ensures old(nodes) == [] ==> c == null && nodes == []
      ensures old(nodes) != [] ==>
                var js := old(JobsOf(nodes));
                && c == old(nodes)[Next(js)] && c.finished && nodes == RemoveAt(old(nodes), Next(js))
                && JobsOf(old(nodes)) == After(js)
    {
      hide Linked, JobsOf, FirstDone, Pass, Next, After, Seeking;
      ghost var js := JobsOf(nodes);
      ghost var now, p := js, |nodes|;
      SeekStarts(js);
      EmptyList(list, nodes);
      while list != null
        invariant Valid() && current == null && nodes == old(nodes) && list == old(list) && !stranded
        invariant waiting ==> old(waiting)
        invariant 0 <= p <= |nodes| && Seeking(js, now, p)
        decreases if p < |nodes| then 0 else 1 + HeadLeft(now)
      {
        var found, k := FindFinished();
        SeekFacts(js, now, p);
        if found != null {
          Delete(found, k);
          return found;
        }
        SomeFinished(p);
        now, p := WaitTurn(js, now);
      }
      c := null;
    }

    lemma SeekStarts(js: seq<Job>)
      requires js == JobsOf(nodes) && NoneFinished(nodes)
      ensures Seeking(js, js, |nodes|)
    {
    }

    lemma SeekFacts(js: seq<Job>, now: seq<Job>, p: nat)
      requires Seeking(js, now, p)
      ensures forall i :: 0 <= i < |nodes| ==> (nodes[i].finished <==> i == p)
      ensures p < |nodes| ==> p == Next(js) && JobsOf(nodes) == After(js)
    {
    }

    lemma SomeFinished(p: nat)
      requires p <= |nodes| && forall i :: 0 <= i < |nodes| ==> (nodes[i].finished <==> i == p)
      ensures NoneFinished(nodes) <==> p == |nodes|
    {
      if p < |nodes| {
        assert nodes[p].finished;
      }
    }

    /** `order` has finished, in the order `all`; yields made and yields left of each coroutine add up to `sums`. */
    ghost predicate Reaping(all: seq<Coro>, order: seq<Coro>, sums: map<Coro, nat>)
      reads `nodes, nodes, order
    {
      && all == order + FinishOrder(nodes, JobsOf(nodes))
      && (forall i :: 0 <= i < |nodes| ==> nodes[i] in sums && nodes[i].switches + nodes[i].left == sums[nodes[i]])
      && (forall c :: c in order ==> c in sums && c.finished && c !in nodes && c.left == 0 && c.switches == sums[c])
    }

    lemma ReapingFacts(all: seq<Coro>, order: seq<Coro>, sums: map<Coro, nat>)
      requires Reaping(all, order, sums)
      ensures all == order + FinishOrder(nodes, JobsOf(nodes))
      ensures forall i :: 0 <= i < |nodes| ==> nodes[i] in sums && nodes[i].switches + nodes[i].left == sums[nodes[i]]
      ensures forall i :: 0 <= i < |order| ==>
                && order[i] in sums && order[i].finished && order[i] !in nodes && order[i].left == 0
                && order[i].switches == sums[order[i]]
    {
    }

    lemma NowReaping(all: seq<Coro>, order: seq<Coro>, sums: map<Coro, nat>)
      requires all == order + FinishOrder(nodes, JobsOf(nodes))
      requires forall i :: 0 <= i < |nodes| ==> nodes[i] in sums && nodes[i].switches + nodes[i].left == sums[nodes[i]]
      requires forall i :: 0 <= i < |order| ==>
                 && order[i] in sums && order[i].finished && order[i] !in nodes && order[i].left == 0
                 && order[i].switches == sums[order[i]]
      ensures Reaping(all, order, sums)
    {
    }

    lemma OneOut(k: nat)
      requires Linked(list, nodes) && k < |nodes|
      ensures |RemoveAt(nodes, k)| == |nodes| - 1 && nodes[k] !in RemoveAt(nodes, k)
      ensures forall i :: 0 <= i < |nodes| - 1 ==> RemoveAt(nodes, k)[i] in nodes
    {
    }

    /** One call of `coro_sched_wait` from `main`. */
    method WaitOnce(order: seq<Coro>, ghost all: seq<Coro>, ghost sums: map<Coro, nat>) returns (c: Coro?,
        order': seq<Coro>)
      requires Valid() && current == null && NoneFinished(nodes) && Reaping(all, order, sums)
      modifies this, nodes
      ensures Valid() && current == null && NoneFinished(nodes) && Reaping(all, order', sums) && !stranded
      ensures waiting ==> old(waiting)
      ensures if c == null then nodes == [] && order' == order else |nodes| < |old(nodes)| && order' == order + [c]
      ensures forall i :: 0 <= i < |nodes| ==> nodes[i] in old(nodes)
    {
      hide Linked, JobsOf, Next, After, NoneFinished, FinishOrder, RemoveAt, Reaping;
      ReapingFacts(all, order, sums);
      ghost var was, js := nodes, JobsOf(nodes);
      FinishOrderStep(was, js);
      if nodes != [] {
        OneOut(Next(js));
        SumsKept(js);
        JobsKept(was, Next(js));
      }
      c := Wait();
      order' := order;
      if c != null {
        order' := order + [c];
        assert JobsOf(nodes) == RemoveAt(JobsOf(was), Next(js)) by { JobsKept(was, Next(js)); }
        forall i | 0 <= i < |was| ensures was[i].switches + was[i].left == sums[was[i]] {
          assert JobsOf(was)[i] == After(js)[i];
        }
        NowReaping(all, order', sums);
      } else {
        NowReaping(all, order, sums);
      }
    }

    /** What `main` does with it: repeated until it answers NULL, it returns every coroutine once, in the order they
        finish, each finished after as many yields as its function makes. */
    method WaitForAll() returns (order: seq<Coro>)
      requires Valid() && current == null && NoneFinished(nodes)
      modifies this, nodes
      ensures Valid() && nodes == [] && list == null && current == null && !stranded && (waiting ==> old(waiting))
      ensures order == FinishOrder(old(nodes), old(JobsOf(nodes)))
      ensures multiset(order) == multiset(old(nodes)) && Distinct(old(nodes))
      ensures forall c :: c in old(nodes) ==> c.finished && c.left == 0 && c.switches == old(c.switches) + old(c.left)
    {
      hide JobsOf, Next, After, NoneFinished, FinishOrder, RemoveAt;
      ghost var all, sums := FinishOrder(nodes, JobsOf(nodes)), map n | n in nodes :: n.switches + n.left;
      FinishOrderIsAll(nodes, JobsOf(nodes));
      var c: Coro?;
      c, order := WaitOnce([], all, sums);
      while c != null
        invariant Valid() && current == null && NoneFinished(nodes) && Reaping(all, order, sums) && !stranded
        invariant waiting ==> old(waiting)
        invariant forall i :: 0 <= i < |nodes| ==> nodes[i] in old(nodes)
        invariant c == null ==> nodes == []
        decreases if c == null then 0 else 1 + |nodes|
      {
        c, order := WaitOnce(order, all, sums);
      }
      FinishOrderStep([], []);
      SameMembers(old(nodes), order);
    }

    lemma JobsKept(was: seq<Coro>, k: nat)
      requires k < |was|
      ensures JobsOf(RemoveAt(was, k)) == RemoveAt(JobsOf(was), k)
    {
      hide JobsOf;
      hide RemoveAt;
      var js := JobsOf(was);
      RemoveAtIs(was, k);
      RemoveAtIs(js, k);
      var l, r := JobsOf(RemoveAt(was, k)), RemoveAt(js, k);
      forall i | 0 <= i < |l| ensures l[i] == r[i] {
        var j := if i < k then i else i + 1;
        assert RemoveAt(was, k)[i] == was[j] && r[i] == js[j];
      }
    }

    lemma FinishOrderStep(nodes: seq<Coro>, js: seq<Job>)
      requires |nodes| == |js|
      ensures nodes == [] ==> FinishOrder(nodes, js) == []
      ensures nodes != [] ==>
                FinishOrder(nodes, js)
                     == [nodes[Next(js)]] + FinishOrder(RemoveAt(nodes, Next(js)), RemoveAt(After(js), Next(js)))
    {
    }
  }
}
