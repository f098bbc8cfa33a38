/**
 The sections of utils/heap_help/heap_help.c that run under the spinlock, on linked allocation objects. Each is proved
 to do what the function of HeapTracker does to the lists.
 */
module HeapTrackerLists {
  import H = HeapTracker

  /** `struct allocation`; an object of a batch that was never handed out is not there yet. */
  class Allocation {
    ghost const id: nat
    var mem: nat
    var size: nat
    var next: Allocation?

    constructor (ghost id: nat)
      ensures this.id == id && next == null
    {
      this.id := id;
      mem, size, next := 0, 0, null;
    }
  }

  ghost function At(nodes: seq<Allocation>, i: nat): Allocation? {
    if i < |nodes| then nodes[i] else null
  }

  ghost predicate Linked(head: Allocation?, nodes: seq<Allocation>)
    reads nodes
  {
    && head == At(nodes, 0)
    && (forall i :: 0 <= i < |nodes| ==> nodes[i].next == At(nodes, i + 1))
    && (forall i, j :: 0 <= i < j < |nodes| ==> nodes[i] != nodes[j])
  }

  ghost predicate Apart(xs: seq<Allocation>, ys: seq<Allocation>) {
    forall i, j :: 0 <= i < |xs| && 0 <= j < |ys| ==> xs[i] != ys[j]
  }

  ghost function EntriesOf(nodes: seq<Allocation>): (r: seq<H.Entry>)
    reads nodes
    ensures |r| == |nodes| && forall i :: 0 <= i < |nodes| ==> r[i] == H.Entry(nodes[i].id, nodes[i].mem, nodes[i].size)
  {
    if nodes == [] then []
    else
      var last := nodes[|nodes| - 1];
      EntriesOf(nodes[..|nodes| - 1]) + [H.Entry(last.id, last.mem, last.size)]
  }

  ghost function IdsOf(nodes: seq<Allocation>): (r: seq<nat>)
    ensures |r| == |nodes| && forall i :: 0 <= i < |nodes| ==> r[i] == nodes[i].id
  {
    if nodes == [] then [] else IdsOf(nodes[..|nodes| - 1]) + [nodes[|nodes| - 1].id]
  }

  class Tracker {
    var allocs: Allocation?
    var pool: Allocation?
    var batches: nat
    var used: nat
    var count: int
    ghost var listed: seq<Allocation>
    ghost var spare: seq<Allocation>

    ghost function View(): H.Lists
      reads this, listed
    {
      H.Lists(EntriesOf(listed), IdsOf(spare), batches, used, count)
    }

    ghost predicate Valid()
      reads this, listed, spare
    {
      && Linked(allocs, listed) && Linked(pool, spare)
      && Apart(listed, spare)
      && (batches > 0 ==> 0 < used <= H.BATCH_SIZE)
      && count == |listed|
    }

    constructor ()
      ensures Valid() && View() == H.EMPTY_LISTS
    {
      allocs, pool, batches, used, count := null, null, 0, 0, 0;
      listed, spare := [], [];
    }

    /** The front of the pool and what is behind it. */
    lemma PoolFacts()
      requires Valid()
      ensures pool == null <==> spare == []
      ensures pool != null ==>
                && pool == spare[0] && pool !in listed && pool !in spare[1..]
                && Linked(pool.next, spare[1..]) && Apart(listed, spare[1..])
                && IdsOf(spare)[0] == pool.id && IdsOf(spare[1..]) == IdsOf(spare)[1..]
    {
      hide EntriesOf, IdsOf;
      if pool != null {
        assert IdsOf(spare[1..]) == IdsOf(spare)[1..];
      }
    }

    /** The first section of `alloc_trace_new`. */
    method Take() returns (a: Allocation)
      requires Valid()
      modifies `pool, `batches, `used, `spare
      ensures Valid() && View() == H.Take(old(View())) && a.id == H.Taken(old(View()))
      ensures a !in listed && a !in spare && listed == old(listed) && (fresh(a) || a in old(spare))
      ensures forall x :: x in spare ==> x in old(spare)
    {
      hide EntriesOf, IdsOf, Linked, Apart;
      PoolFacts();
      if pool != null {
        a := pool;
        pool := a.next;
        spare := spare[1..];
      } else {
        ghost var id := H.Created(View());
        if batches == 0 || used == H.BATCH_SIZE {
          batches := batches + 1;
          used := 0;
        }
        a := new Allocation(id);
        used := used + 1;
      }
    }

    /** The second section of `alloc_trace_new`. */
    method Insert(a: Allocation)
      requires Valid() && a !in listed && a !in spare
      modifies `allocs, `count, `listed, a`next
      ensures Valid() && View() == H.Insert(old(View()), H.Entry(a.id, a.mem, a.size))
      ensures listed == [a] + old(listed) && spare == old(spare)
    {
      hide EntriesOf, IdsOf, Linked;
      a.next := allocs;
      allocs := a;
      count := count + 1;
      listed := [a] + listed;
      LinkedAfterInsert(a);
      assert EntriesOf(listed) == [H.Entry(a.id, a.mem, a.size)] + old(EntriesOf(listed));
    }

    twostate lemma LinkedAfterInsert(new a: Allocation)
      requires old(Valid()) && listed == [a] + old(listed) && a !in old(listed) && a.next == old(allocs) && allocs == a
      requires forall j :: 0 <= j < |old(listed)| ==> old(listed)[j].next == old(listed[j].next)
      ensures Linked(allocs, listed)
    {
      assert forall j :: 1 <= j < |listed| ==> listed[j] == old(listed)[j - 1];
    }

    /** The pointers' part of a removal. */
    method Relink(a: Allocation, prev: Allocation?, ghost i: nat)
      requires Valid() && i < |listed| && a == listed[i] && prev == if i == 0 then null else listed[i - 1]
      modifies `allocs, `pool, `count, One(prev)`next, a`next
      ensures allocs == (if i == 0 then At(listed, 1) else old(allocs)) && pool == a && a.next == old(pool)
      ensures count == old(count) - 1
      ensures forall j :: 0 <= j < |listed| && j != i ==>
                listed[j].next == if j + 1 == i then At(listed, i + 1) else old(listed[j].next)
      ensures forall j :: 0 <= j < |spare| ==> spare[j].next == old(spare[j].next)
    {
      hide EntriesOf, IdsOf, Linked, Apart;
      LinkFacts();
      if prev == null {
        allocs := a.next;
      } else {
        prev.next := a.next;
      }
      a.next := pool;
      pool := a;
      count := count - 1;
    }

    /** The entry at position `i` moves to the pool. */
    method Unlink(a: Allocation, prev: Allocation?, ghost i: nat)
      requires Valid() && i < |listed| && a == listed[i] && prev == if i == 0 then null else listed[i - 1]
      modifies `allocs, `pool, `count, `listed, `spare, One(prev)`next, a`next
      ensures Valid()
      ensures var l := old(View());
              View() == l.(allocs := l.allocs[..i] + l.allocs[i + 1..], pool := [l.allocs[i].id] + l.pool,
                           count := l.count - 1)
      ensures forall x :: x in listed || x in spare ==> x in old(listed) || x in old(spare)
    {
      hide EntriesOf, IdsOf, Linked, Apart, At;
      LinkFacts();
      ApartMoved(listed, spare, i);
      Relink(a, prev, i);
      listed, spare := listed[..i] + listed[i + 1..], [a] + spare;
      ListedAfterUnlink(i);
      SpareAfterUnlink(i);
      AfterUnlink(i);
    }

    lemma LinkFacts()
      requires Valid()
      ensures forall i :: 0 <= i < |listed| ==> listed[i].next == At(listed, i + 1)
      ensures forall i, j :: 0 <= i < j < |listed| ==> listed[i] != listed[j]
      ensures allocs == At(listed, 0) && pool == At(spare, 0)
      ensures forall i, j :: 0 <= i < |listed| && 0 <= j < |spare| ==> listed[i] != spare[j]
    {
    }

    twostate lemma ListedAfterUnlink(i: nat)
      requires old(Valid()) && i < |old(listed)| && listed == old(listed)[..i] + old(listed)[i + 1..]
      requires allocs == if i == 0 then At(old(listed), 1) else old(allocs)
      requires forall j :: 0 <= j < |old(listed)| && j != i ==>
                 old(listed)[j].next == if j + 1 == i then At(old(listed), i + 1) else old(listed[j].next)
      ensures Linked(allocs, listed)
    {
      assert forall j :: 0 <= j < |listed| ==> listed[j] == old(listed)[if j < i then j else j + 1];
    }

    /** Moving a node keeps the lists apart. */
    lemma ApartMoved(xs: seq<Allocation>, ys: seq<Allocation>, i: nat)
      requires Apart(xs, ys) && i < |xs| && forall j, k :: 0 <= j < k < |xs| ==> xs[j] != xs[k]
      ensures Apart(xs[..i] + xs[i + 1..], [xs[i]] + ys)
    {
    }

    twostate lemma SpareAfterUnlink(i: nat)
      requires old(Valid()) && i < |old(listed)| && spare == [old(listed)[i]] + old(spare)
      requires pool == old(listed)[i] && pool.next == old(pool)
      requires forall j :: 0 <= j < |old(spare)| ==> old(spare)[j].next == old(spare[j].next)
      ensures Linked(pool, spare)
    {
      assert forall j :: 1 <= j < |spare| ==> spare[j] == old(spare)[j - 1];
    }

    twostate lemma AfterUnlink(i: nat)
      requires old(Valid()) && i < |old(listed)|
      requires listed == old(listed)[..i] + old(listed)[i + 1..] && spare == [old(listed)[i]] + old(spare)
      requires forall j :: 0 <= j < |old(listed)| ==>
                 var n := old(listed)[j]; n.mem == old(n.mem) && n.size == old(n.size)
      ensures EntriesOf(listed) == old(EntriesOf(listed)[..i] + EntriesOf(listed)[i + 1..])
      ensures IdsOf(spare) == [old(EntriesOf(listed)[i].id)] + old(IdsOf(spare))
    {
      hide EntriesOf, IdsOf, Valid;
    }

    /** The section of `alloc_free`; `found` is false where it aborts. */
    method Remove(ptr: nat) returns (found: bool)
      requires Valid()
      modifies `allocs, `pool, `count, `listed, `spare, listed
      ensures Valid()
      ensures found <==> H.Remove(old(View()), ptr).Removed?
      ensures View() == if found then H.Remove(old(View()), ptr).l else old(View())
      ensures forall x :: x in listed || x in spare ==> x in old(listed) || x in old(spare)
    {
      hide EntriesOf, IdsOf, H.Find;
      ghost var l := View();
      var a, prev: Allocation? := allocs, null;
      ghost var i := 0;
      while a != null
        invariant i <= |listed| && a == At(listed, i) && prev == if i == 0 then null else listed[i - 1]
        invariant forall j :: 0 <= j < i ==> l.allocs[j].mem != ptr
        decreases |listed| - i
      {
        assert l.allocs[i].mem == a.mem;
        if a.mem == ptr {
          assert H.Find(l.allocs, ptr) == i;
          Unlink(a, prev, i);
          return true;
        }
        prev := a;
        a := a.next;
        i := i + 1;
      }
      return false;
    }
  }

  ghost function One(a: Allocation?): set<Allocation> {
    if a == null then {} else {a}
  }
}
