/**
 The heap tracker of utils/heap_help/heap_help.c under any interleaving of threads in `malloc`, `calloc`, `realloc` and
 `free`. Each section under the spinlock is one step, and so is each call of the default allocator.
 */
module HeapTracker {
  import opened Common

  const BATCH_SIZE := 1024

  /** An allocation object with what it records. */
  datatype Entry = Entry(id: nat, mem: nat, size: nat)

  /** `allocs`, `alloc_pool`, the batches and `alloc_count`; objects are numbered in the order of their creation. */
  datatype Lists = Lists(allocs: seq<Entry>, pool: seq<nat>, batches: nat, used: nat, count: int)

  const EMPTY_LISTS := Lists([], [], 0, 0, 0)

  function Created(l: Lists): nat {
    if l.batches == 0 then 0 else BATCH_SIZE * (l.batches - 1) + l.used
  }

  /** The object the first section of `alloc_trace_new` takes: recycled, or fresh from a batch. */
  function Taken(l: Lists): nat {
    if l.pool != [] then l.pool[0] else Created(l)
  }

  function Take(l: Lists): Lists {
    if l.pool != [] then l.(pool := l.pool[1..])
    else if l.batches == 0 || l.used == BATCH_SIZE then l.(batches := l.batches + 1, used := 1)
    else l.(used := l.used + 1)
  }

  /** The second section of `alloc_trace_new`. */
  function Insert(l: Lists, e: Entry): Lists {
    l.(allocs := [e] + l.allocs, count := l.count + 1)
  }

  /** The position of the first entry for `mem`, or the length. */
  function Find(allocs: seq<Entry>, mem: nat): (i: nat)
    ensures i <= |allocs| && (i < |allocs| ==> allocs[i].mem == mem) && forall j :: 0 <= j < i ==> allocs[j].mem != mem
  {
    if allocs == [] || allocs[0].mem == mem then 0 else 1 + Find(allocs[1..], mem)
  }

  /** The section of `alloc_free`; `BadMemory` is its abort. */
  datatype Removal = Removed(l: Lists) | BadMemory

  function Remove(l: Lists, mem: nat): Removal {
    var i := Find(l.allocs, mem);
    if i == |l.allocs| || l.count - 1 < 0 then BadMemory
    else Removed(l.(allocs := l.allocs[..i] + l.allocs[i + 1..], pool := [l.allocs[i].id] + l.pool,
                    count := l.count - 1))
  }

  // ---------- threads ----------

  /** What a thread that untracks an address does next. */
  datatype Next = Return | Release | Track(mem: nat, size: nat)

  datatype Pc =
    | Idle
    | New(mem: nat, size: nat)               // allocated, before the first section of `alloc_trace_new`
    | Fill(id: nat, mem: nat, size: nat)     // between its sections
    | Untrack(mem: nat, after: Next)          // before the section of `alloc_free`
    | Freeing(mem: nat)                      // before `default_free`

  /** `heap` is what the allocator handed out, `owned` what the program holds. */
  datatype State = State(l: Lists, heap: set<nat>, owned: set<nat>, threads: seq<Pc>, aborted: bool)

  datatype Action =
    | Malloc(th: nat, size: nat, res: Option<nat>)                        // `malloc` or `calloc` up to its result
    | Realloc(th: nat, ptr: Option<nat>, size: nat, res: Option<nat>)
    | Free(th: nat, ptr: Option<nat>)
    | Step(th: nat)

  /** What the allocator may return while `kept` is live. */
  predicate MayReturn(kept: set<nat>, res: Option<nat>) {
    res.Some? ==> res.value !in kept
  }

  /** Calls come from idle threads and name memory the program holds; the allocator hands out what is not live. */
  predicate Enabled(s: State, a: Action) {
    a.th < |s.threads| && !s.aborted &&
    match a
    case Malloc(th, _, res) => s.threads[th].Idle? && MayReturn(s.heap, res)
    case Realloc(th, ptr, _, res) =>
      && s.threads[th].Idle?
      && (ptr.Some? ==> ptr.value in s.owned)
      && (ptr == res || MayReturn(s.heap, res))
    case Free(th, ptr) => s.threads[th].Idle? && (ptr.Some? ==> ptr.value in s.owned)
    case Step(th) => !s.threads[th].Idle?
  }

  function Allocate(s: State, th: nat, size: nat, res: Option<nat>): State
    requires th < |s.threads|
  {
    if res.None? then s else s.(heap := s.heap + {res.value}, threads := s.threads[th := New(res.value, size)])
  }

  /** `default_realloc` has released the old address by the time `realloc` untracks it. */
  function Reallocate(s: State, th: nat, ptr: nat, size: nat, res: Option<nat>): State
    requires th < |s.threads|
  {
    if res == Some(ptr) then s
    else
      s.(heap := s.heap - {ptr} + (if res.Some? then {res.value} else {}), owned := s.owned - {ptr},
         threads := s.threads[th := Untrack(ptr, if res.Some? then Track(res.value, size) else Return)])
  }

  function Advance(s: State, th: nat): State
    requires th < |s.threads|
  {
    match s.threads[th]
    case Idle => s
    case New(mem, size) => s.(l := Take(s.l), threads := s.threads[th := Fill(Taken(s.l), mem, size)])
    case Fill(id, mem, size) =>
      s.(l := Insert(s.l, Entry(id, mem, size)), owned := s.owned + {mem}, threads := s.threads[th := Idle])
    case Untrack(mem, after) =>
      if Remove(s.l, mem).BadMemory? then s.(aborted := true)
      else
        s.(l := Remove(s.l, mem).l, threads := s.threads[th :=
          match after
          case Return => Idle
          case Release => Freeing(mem)
          case Track(mem', size) => New(mem', size)])
    case Freeing(mem) => s.(heap := s.heap - {mem}, threads := s.threads[th := Idle])
  }

  function Do(s: State, a: Action): State
    requires Enabled(s, a)
  {
    match a
    case Malloc(th, size, res) => Allocate(s, th, size, res)
    case Realloc(th, ptr, size, res) =>
      if ptr.None? then Allocate(s, th, size, res) else Reallocate(s, th, ptr.value, size, res)
    case Free(th, ptr) =>
      if ptr.None? then s
      else s.(owned := s.owned - {ptr.value}, threads := s.threads[th := Untrack(ptr.value, Release)])
    case Step(th) => Advance(s, th)
  }

  predicate IsRun(path: seq<State>, acts: seq<Action>) {
    |path| == |acts| + 1 && forall i :: 0 <= i < |acts| ==>
         Enabled(path[i], acts[i]) && path[i + 1] == Do(path[i], acts[i])
  }

  predicate Start(s: State) {
    && s.l == EMPTY_LISTS && s.heap == {} && s.owned == {} && !s.aborted
    && forall th :: 0 <= th < |s.threads| ==> s.threads[th].Idle?
  }

  // ---------- counting ----------

  /** Entries for `mem`. */
  function Entries(allocs: seq<Entry>, mem: nat): nat {
    if allocs == [] then 0 else (if allocs[0].mem == mem then 1 else 0) + Entries(allocs[1..], mem)
  }

  function Uses(allocs: seq<Entry>, id: nat): nat {
    if allocs == [] then 0 else (if allocs[0].id == id then 1 else 0) + Uses(allocs[1..], id)
  }

  function Copies(pool: seq<nat>, id: nat): nat {
    if pool == [] then 0 else (if pool[0] == id then 1 else 0) + Copies(pool[1..], id)
  }

  /** What a thread is counted for: removing an entry of an address, holding an address, getting one, holding an
      object. */
  datatype Kind = Removes(mem: nat) | Holds(mem: nat) | Gets(mem: nat) | Fills(id: nat)

  predicate Is(pc: Pc, k: Kind) {
    match k
    case Removes(mem) => pc.Untrack? && pc.mem == mem
    case Holds(mem) =>
      || ((pc.New? || pc.Fill? || pc.Freeing?) && pc.mem == mem)
      || (pc.Untrack? && pc.after.Release? && pc.mem == mem)
      || (pc.Untrack? && pc.after.Track? && pc.after.mem == mem)
    case Gets(mem) =>
      ((pc.New? || pc.Fill?) && pc.mem == mem) || (pc.Untrack? && pc.after.Track? && pc.after.mem == mem)
    case Fills(id) => pc.Fill? && pc.id == id
  }

  function Count(ths: seq<Pc>, k: Kind): nat {
    if ths == [] then 0 else (if Is(ths[0], k) then 1 else 0) + Count(ths[1..], k)
  }

  function One(b: bool): nat {
    if b then 1 else 0
  }

  lemma {:induction false} CountSet(ths: seq<Pc>, th: nat, pc: Pc, k: Kind)
    requires th < |ths|
    ensures Count(ths[th := pc], k) + One(Is(ths[th], k)) == Count(ths, k) + One(Is(pc, k))
  {
    if th > 0 {
      CountSet(ths[1..], th - 1, pc, k);
      assert ths[th := pc][1..] == ths[1..][th - 1 := pc];
    }
  }

  lemma {:induction false} CountNone(ths: seq<Pc>, k: Kind)
    requires forall th :: 0 <= th < |ths| ==> ths[th].Idle?
    ensures Count(ths, k) == 0
  {
    if ths != [] {
      CountNone(ths[1..], k);
    }
  }

  lemma {:induction false} CountHas(ths: seq<Pc>, th: nat, k: Kind)
    requires th < |ths| && Is(ths[th], k)
    ensures Count(ths, k) >= 1
  {
    if th > 0 {
      CountHas(ths[1..], th - 1, k);
    }
  }

  lemma {:induction false} EntriesCut(allocs: seq<Entry>, i: nat, mem: nat, id: nat)
    requires i < |allocs|
    ensures Entries(allocs[..i] + allocs[i + 1..], mem) + One(allocs[i].mem == mem) == Entries(allocs, mem)
    ensures Uses(allocs[..i] + allocs[i + 1..], id) + One(allocs[i].id == id) == Uses(allocs, id)
  {
    if i > 0 {
      EntriesCut(allocs[1..], i - 1, mem, id);
      assert (allocs[..i] + allocs[i + 1..])[1..] == allocs[1..][..i - 1] + allocs[1..][i..];
    } else {
      assert allocs[..i] + allocs[i + 1..] == allocs[1..];
    }
  }

  lemma {:induction false} NoEntry(allocs: seq<Entry>, mem: nat)
    requires Find(allocs, mem) == |allocs|
    ensures Entries(allocs, mem) == 0
  {
    if allocs != [] {
      NoEntry(allocs[1..], mem);
    }
  }

  // ---------- the invariant ----------

  /** Address `mem`: one entry if the program holds it, and one for each thread about to remove one; it is live just
      when the program or one thread has it. */
  predicate MemOk(s: State, mem: nat) {
    && Entries(s.l.allocs, mem) == One(mem in s.owned) + Count(s.threads, Removes(mem))
    && One(mem in s.heap) == One(mem in s.owned) + Count(s.threads, Holds(mem))
  }

  /** Object `id` is in one place: the list, the pool, or a thread between the sections. */
  predicate IdOk(s: State, id: nat) {
    Uses(s.l.allocs, id) + Copies(s.l.pool, id) + Count(s.threads, Fills(id)) == One(id < Created(s.l))
  }

  ghost predicate Inv(s: State) {
    && !s.aborted
    && s.l.count == |s.l.allocs|
    && (s.l.batches > 0 ==> 0 < s.l.used <= BATCH_SIZE)
    && (forall mem :: MemOk(s, mem))
    && (forall id :: IdOk(s, id))
  }

  lemma StartInv(s: State)
    requires Start(s)
    ensures Inv(s)
  {
    forall mem ensures MemOk(s, mem) {
      CountNone(s.threads, Removes(mem));
      CountNone(s.threads, Holds(mem));
    }
    forall id ensures IdOk(s, id) {
      CountNone(s.threads, Fills(id));
    }
  }

  /** `alloc_free` finds what it looks for: it never aborts. */
  lemma NeverBadMemory(s: State, th: nat)
    requires Inv(s) && th < |s.threads| && s.threads[th].Untrack?
    ensures Remove(s.l, s.threads[th].mem).Removed?
  {
    var mem := s.threads[th].mem;
    assert MemOk(s, mem);
    CountHas(s.threads, th, Removes(mem));
    if Find(s.l.allocs, mem) == |s.l.allocs| {
      NoEntry(s.l.allocs, mem);
    }
  }

  /** Taking an object moves it out of the pool or creates it. */
  lemma TakeMoves(l: Lists, id: nat)
    requires l.batches > 0 ==> 0 < l.used <= BATCH_SIZE
    ensures Take(l).allocs == l.allocs && Take(l).count == l.count
    ensures Take(l).batches > 0 ==> 0 < Take(l).used <= BATCH_SIZE
    ensures Copies(Take(l).pool, id) + One(id == Taken(l)) + One(id < Created(l))
         == Copies(l.pool, id) + One(id < Created(Take(l)))
  {
  }

  /** Removing an entry moves its object to the pool. */
  lemma RemoveMoves(l: Lists, mem: nat, x: nat, id: nat)
    requires Remove(l, mem).Removed?
    ensures var l' := Remove(l, mem).l;
            && Entries(l'.allocs, x) + One(x == mem) == Entries(l.allocs, x)
            && Uses(l'.allocs, id) + Copies(l'.pool, id) == Uses(l.allocs, id) + Copies(l.pool, id)
            && l'.count == l.count - 1 && |l'.allocs| == |l.allocs| - 1 && l'.batches == l.batches && l'.used == l.used
  {
    EntriesCut(l.allocs, Find(l.allocs, mem), x, id);
  }

  lemma StepMem(s: State, th: nat, x: nat)
    requires Inv(s) && Enabled(s, Step(th))
    ensures MemOk(Advance(s, th), x)
  {
    var s' := Advance(s, th);
    assert MemOk(s, x);
    if s.threads[th].Untrack? {
      NeverBadMemory(s, th);
      RemoveMoves(s.l, s.threads[th].mem, x, 0);
    }
    CountSet(s.threads, th, s'.threads[th], Removes(x));
    CountSet(s.threads, th, s'.threads[th], Holds(x));
    if Is(s.threads[th], Holds(x)) {
      CountHas(s.threads, th, Holds(x));
    }
  }

  lemma StepId(s: State, th: nat, id: nat)
    requires Inv(s) && Enabled(s, Step(th))
    ensures IdOk(Advance(s, th), id)
  {
    var s' := Advance(s, th);
    assert IdOk(s, id);
    if s.threads[th].Untrack? {
      NeverBadMemory(s, th);
      RemoveMoves(s.l, s.threads[th].mem, 0, id);
    } else if s.threads[th].New? {
      TakeMoves(s.l, id);
    }
    CountSet(s.threads, th, s'.threads[th], Fills(id));
  }

  /** A call's first step. */
  lemma CallMem(s: State, a: Action, x: nat)
    requires Inv(s) && Enabled(s, a) && !a.Step?
    ensures MemOk(Do(s, a), x)
  {
    var s' := Do(s, a);
    assert MemOk(s, x);
    CountSet(s.threads, a.th, s'.threads[a.th], Removes(x));
    CountSet(s.threads, a.th, s'.threads[a.th], Holds(x));
  }

  lemma CallId(s: State, a: Action, id: nat)
    requires Inv(s) && Enabled(s, a) && !a.Step?
    ensures IdOk(Do(s, a), id)
  {
    assert IdOk(s, id);
    CountSet(s.threads, a.th, Do(s, a).threads[a.th], Fills(id));
  }

  lemma InvKept(s: State, a: Action)
    requires Inv(s) && Enabled(s, a)
    ensures Inv(Do(s, a))
  {
    if a.Step? {
      forall x ensures MemOk(Do(s, a), x) {
        StepMem(s, a.th, x);
      }
      forall id ensures IdOk(Do(s, a), id) {
        StepId(s, a.th, id);
      }
      if s.threads[a.th].Untrack? {
        NeverBadMemory(s, a.th);
        RemoveMoves(s.l, s.threads[a.th].mem, 0, 0);
      }
    } else {
      forall x ensures MemOk(Do(s, a), x) {
        CallMem(s, a, x);
      }
      forall id ensures IdOk(Do(s, a), id) {
        CallId(s, a, id);
      }
    }
  }

  lemma {:induction false} InvOfRun(path: seq<State>, acts: seq<Action>, i: nat)
    requires IsRun(path, acts) && Start(path[0]) && i <= |acts|
    ensures Inv(path[i])
  {
    if i > 0 {
      InvOfRun(path, acts, i - 1);
      InvKept(path[i - 1], acts[i - 1]);
    } else {
      StartInv(path[0]);
    }
  }

  // ---------- what the tracker promises ----------

  /** `mem` is live and has its entry: the program holds it, or a `free` has yet to untrack it. */
  predicate Recorded(s: State, mem: nat) {
    mem in s.heap && (mem in s.owned || exists th :: 0 <= th < |s.threads| && s.threads[th] == Untrack(mem, Release))
  }

  /** Threads about to untrack `mem` after `realloc` gave it back. */
  function Late(ths: seq<Pc>, mem: nat): nat {
    if ths == [] then 0 else One(ths[0].Untrack? && ths[0].mem == mem && !ths[0].after.Release?) + Late(ths[1..], mem)
  }

  function Frees(ths: seq<Pc>, mem: nat): nat {
    if ths == [] then 0 else One(ths[0] == Untrack(mem, Release)) + Frees(ths[1..], mem)
  }

  lemma {:induction false} RemovesSplit(ths: seq<Pc>, mem: nat)
    ensures Count(ths, Removes(mem)) == Late(ths, mem) + Frees(ths, mem)
    ensures Frees(ths, mem) <= Count(ths, Holds(mem))
    ensures Frees(ths, mem) > 0 <==> exists th :: 0 <= th < |ths| && ths[th] == Untrack(mem, Release)
  {
    if ths != [] {
      RemovesSplit(ths[1..], mem);
      if th :| 0 <= th < |ths| && ths[th] == Untrack(mem, Release) {
        assert th > 0 ==> ths[1..][th - 1] == Untrack(mem, Release);
      }
    }
  }

  /** In every reachable state an address has one entry if it is live and recorded, and one for each pending
      untracking of it. */
  lemma EntriesOfAddress(s: State, mem: nat)
    requires Inv(s)
    ensures Entries(s.l.allocs, mem) == One(Recorded(s, mem)) + Late(s.threads, mem)
  {
    assert MemOk(s, mem);
    RemovesSplit(s.threads, mem);
  }

  lemma {:induction false} EntriesOfSet(allocs: seq<Entry>, live: set<nat>)
    requires forall mem :: Entries(allocs, mem) == One(mem in live)
    ensures |allocs| == |live|
  {
    if allocs == [] {
      forall mem ensures mem !in live {
        assert Entries(allocs, mem) == One(mem in live);
      }
      assert live == {};
    } else {
      var mem := allocs[0].mem;
      assert Entries(allocs, mem) == One(mem in live);
      forall x ensures Entries(allocs[1..], x) == One(x in live - {mem}) {
        assert Entries(allocs, x) == One(x in live);
      }
      EntriesOfSet(allocs[1..], live - {mem});
    }
  }

  /** With no thread inside a wrapper `alloc_count` is the number of live allocations, and the program holds them
      all. */
  lemma CountIsExact(s: State)
    requires Inv(s) && forall th :: 0 <= th < |s.threads| ==> s.threads[th].Idle?
    ensures s.l.count == |s.heap| && s.owned == s.heap
  {
    forall mem ensures Entries(s.l.allocs, mem) == One(mem in s.heap) && (mem in s.heap <==> mem in s.owned) {
      assert MemOk(s, mem);
      CountNone(s.threads, Removes(mem));
      CountNone(s.threads, Holds(mem));
    }
    EntriesOfSet(s.l.allocs, s.heap);
  }

  // ---------- what the program was given ----------

  /** The addresses the calls so far gave the program, and it did not give back. */
  function Given(acts: seq<Action>, n: nat): set<nat>
    requires n <= |acts|
  {
    if n == 0 then {}
    else
      var given := Given(acts, n - 1);
      match acts[n - 1]
      case Malloc(_, _, res) => given + AsSet(res)
      case Realloc(_, ptr, _, res) => given - AsSet(ptr) + AsSet(res)
      case Free(_, ptr) => given - AsSet(ptr)
      case Step(_) => given
  }

  function AsSet(res: Option<nat>): set<nat> {
    if res.Some? then {res.value} else {}
  }

  /** An address was given to the program just when it holds it or a call is about to return it. */
  predicate GivenOk(s: State, given: set<nat>, mem: nat) {
    One(mem in given) == One(mem in s.owned) + Count(s.threads, Gets(mem))
  }

  lemma {:induction false} GetsHolds(ths: seq<Pc>, mem: nat)
    ensures Count(ths, Gets(mem)) <= Count(ths, Holds(mem))
  {
    if ths != [] {
      GetsHolds(ths[1..], mem);
    }
  }

  lemma GivenStep(s: State, a: Action, given: set<nat>, x: nat)
    requires Inv(s) && Enabled(s, a) && GivenOk(s, given, x)
    ensures GivenOk(Do(s, a), match a
                              case Malloc(_, _, res) => given + AsSet(res)
                              case Realloc(_, ptr, _, res) => given - AsSet(ptr) + AsSet(res)
                              case Free(_, ptr) => given - AsSet(ptr)
                              case Step(_) => given, x)
  {
    var s' := Do(s, a);
    assert MemOk(s, x);
    GetsHolds(s.threads, x);
    CountSet(s.threads, a.th, s'.threads[a.th], Gets(x));
    if a.Step? && s.threads[a.th].Untrack? {
      NeverBadMemory(s, a.th);
    }
    if a.Step? && Is(s.threads[a.th], Holds(x)) {
      CountHas(s.threads, a.th, Holds(x));
    }
    hide Inv, MemOk, Remove, Take, Insert;
  }

  lemma {:induction false} GivenHolds(path: seq<State>, acts: seq<Action>, n: nat, mem: nat)
    requires IsRun(path, acts) && Start(path[0]) && n <= |acts|
    ensures GivenOk(path[n], Given(acts, n), mem)
  {
    hide Inv, Do, Enabled, GivenOk;
    if n > 0 {
      GivenHolds(path, acts, n - 1, mem);
      InvOfRun(path, acts, n - 1);
      GivenStep(path[n - 1], acts[n - 1], Given(acts, n - 1), mem);
    } else {
      NothingGiven(path[0], mem);
    }
  }

  lemma NothingGiven(s: State, mem: nat)
    requires Start(s)
    ensures GivenOk(s, {}, mem)
  {
    CountNone(s.threads, Gets(mem));
  }

  /** With no thread inside a wrapper `alloc_count` is the number of addresses the program was given and did not
      give back, as its calls and their results tell. */
  lemma CountIsGiven(path: seq<State>, acts: seq<Action>)
    requires IsRun(path, acts) && Start(path[0])
    requires forall th :: 0 <= th < |path[|acts|].threads| ==> path[|acts|].threads[th].Idle?
    ensures var s := path[|acts|];
            s.l.count == |Given(acts, |acts|)| && s.heap == s.owned == Given(acts, |acts|)
  {
    hide Inv, Start, Given, Do, Enabled;
    var s, given := path[|acts|], Given(acts, |acts|);
    InvOfRun(path, acts, |acts|);
    CountIsExact(s);
    forall mem: nat ensures mem in given <==> mem in s.owned {
      GivenHolds(path, acts, |acts|, mem);
      CountNone(s.threads, Gets(mem));
    }
    assert given == s.owned;
  }

  /** Over every run no removal aborts, no object is in two places, and two threads never hold one address. */
  lemma TrackerIsSafe(path: seq<State>, acts: seq<Action>, mem: nat, id: nat)
    requires IsRun(path, acts) && Start(path[0])
    ensures var s := path[|acts|];
            && !s.aborted && s.l.count == |s.l.allocs|
            && Entries(s.l.allocs, mem) == One(Recorded(s, mem)) + Late(s.threads, mem)
            && One(mem in s.owned) + Count(s.threads, Holds(mem)) <= 1
            && Uses(s.l.allocs, id) + Copies(s.l.pool, id) + Count(s.threads, Fills(id)) == One(id < Created(s.l))
  {
    InvOfRun(path, acts, |acts|);
    EntriesOfAddress(path[|acts|], mem);
    assert MemOk(path[|acts|], mem) && IdOk(path[|acts|], id);
  }

  /** One address may have two entries: `realloc` gives 0 back, another thread gets it and records it first. */
  lemma TwoEntries() returns (path: seq<State>, acts: seq<Action>)
    ensures IsRun(path, acts) && Start(path[0]) && Entries(path[|acts|].l.allocs, 0) == 2
  {
    acts := [Malloc(0, 8, Some(0)), Step(0), Step(0), Realloc(0, Some(0), 16, Some(1)), Malloc(1, 8, Some(0)), Step(1),
             Step(1)];
    var s0 := State(EMPTY_LISTS, {}, {}, [Idle, Idle], false);
    var s1 := Do(s0, acts[0]);
    var s2 := Do(s1, acts[1]);
    var s3 := Do(s2, acts[2]);
    var s4 := Do(s3, acts[3]);
    var s5 := Do(s4, acts[4]);
    var s6 := Do(s5, acts[5]);
    var s7 := Do(s6, acts[6]);
    path := [s0, s1, s2, s3, s4, s5, s6, s7];
    assert s7.l.allocs == [Entry(1, 0, 8), Entry(0, 0, 8)];
  }

  // ---------- the sizes recorded ----------

  /** The sizes in the entries for `mem`, newest first. */
  function Sizes(allocs: seq<Entry>, mem: nat): (r: seq<nat>)
    ensures |r| == Entries(allocs, mem)
  {
    if allocs == [] then [] else (if allocs[0].mem == mem then [allocs[0].size] else []) + Sizes(allocs[1..], mem)
  }

  lemma {:induction false} SizesCut(allocs: seq<Entry>, mem: nat, x: nat)
    requires Find(allocs, mem) < |allocs|
    ensures var i := Find(allocs, mem);
            && Entries(allocs, mem) > 0
            && Sizes(allocs[..i] + allocs[i + 1..], x) == if x == mem then Sizes(allocs, x)[1..] else Sizes(allocs, x)
  {
    var i := Find(allocs, mem);
    if i > 0 {
      SizesCut(allocs[1..], mem, x);
      var less := allocs[..i] + allocs[i + 1..];
      assert less[1..] == allocs[1..][..i - 1] + allocs[1..][i..] && less[0] == allocs[0];
    } else {
      assert allocs[..i] + allocs[i + 1..] == allocs[1..];
    }
  }

  predicate Asks(a: Action, th: nat) {
    (a.Malloc? || a.Realloc?) && a.th == th
  }

  /** The last call of thread `th` that asked for memory. */
  function LastAsk(acts: seq<Action>, n: nat, th: nat): (r: Option<Action>)
    requires n <= |acts|
    ensures r.Some? ==> Asks(r.value, th)
  {
    if n == 0 then None else if Asks(acts[n - 1], th) then Some(acts[n - 1]) else LastAsk(acts, n - 1, th)
  }

  /** What a thread has yet to record is what its last call asked for and got. */
  predicate AskedOk(pc: Pc, ask: Option<Action>) {
    var known := ask.Some? && (ask.value.Malloc? || ask.value.Realloc?);
    match pc
    case New(mem, size) => known && ask.value.res == Some(mem) && ask.value.size == size
    case Fill(_, mem, size) => known && ask.value.res == Some(mem) && ask.value.size == size
    case Untrack(_, Track(mem, size)) => known && ask.value.res == Some(mem) && ask.value.size == size
    case _ => true
  }

  lemma AskedStep(s: State, a: Action, th: nat, ask: Option<Action>)
    requires Enabled(s, a) && th < |s.threads| && AskedOk(s.threads[th], ask)
    ensures |Do(s, a).threads| == |s.threads|
    ensures AskedOk(Do(s, a).threads[th], if Asks(a, th) then Some(a) else ask)
  {
    hide Take, Insert;
  }

  lemma {:induction false} AskedHolds(path: seq<State>, acts: seq<Action>, n: nat, th: nat)
    requires IsRun(path, acts) && Start(path[0]) && n <= |acts|
    ensures th < |path[n].threads| ==> AskedOk(path[n].threads[th], LastAsk(acts, n, th))
  {
    hide Do, Enabled, AskedOk, Asks;
    if n > 0 {
      AskedHolds(path, acts, n - 1, th);
      ThreadsStay(path[n - 1], acts[n - 1]);
      if th < |path[n].threads| {
        AskedStep(path[n - 1], acts[n - 1], th, LastAsk(acts, n - 1, th));
      }
    } else {
      IdleOk();
    }
  }

  lemma ThreadsStay(s: State, a: Action)
    requires Enabled(s, a)
    ensures |Do(s, a).threads| == |s.threads| && a.th < |s.threads|
  {
    hide Take, Insert;
  }

  lemma IdleOk()
    ensures AskedOk(Idle, None)
  {
  }

  /** What the call asked for whose answer `mem` was recorded when `mem` last came to have an entry, there being none
      before. */
  function FirstSize(path: seq<State>, acts: seq<Action>, n: nat, mem: nat): nat
    requires IsRun(path, acts) && n <= |acts|
  {
    if n == 0 then 0
    else
      var s, a := path[n - 1], acts[n - 1];
      var ask := LastAsk(acts, n - 1, a.th);
      if a.Step? && s.threads[a.th].Fill? && ask.Some? && ask.value.res == Some(mem) && Entries(s.l.allocs, mem) == 0
      then ask.value.size
      else FirstSize(path, acts, n - 1, mem)
  }

  /** The size last asked for where the answer was `mem`. */
  function AskedSize(path: seq<State>, acts: seq<Action>, n: nat, mem: nat): nat
    requires IsRun(path, acts) && n <= |acts|
  {
    if n == 0 then 0
    else
      var a := acts[n - 1];
      if (a.Malloc? || a.Realloc?) && a.res == Some(mem) then a.size else AskedSize(path, acts, n - 1, mem)
  }

  /** What a step does to the sizes recorded for `mem`. */
  lemma SizesStep(s: State, a: Action, mem: nat)
    requires Inv(s) && Enabled(s, a)
    ensures var z, z' := Sizes(s.l.allocs, mem), Sizes(Do(s, a).l.allocs, mem);
            if a.Step? && s.threads[a.th].Fill? && s.threads[a.th].mem == mem then z' == [s.threads[a.th].size] + z
            else z' == z || (z != [] && z' == z[1..])
  {
    if a.Step? && s.threads[a.th].Untrack? {
      NeverBadMemory(s, a.th);
      SizesCut(s.l.allocs, s.threads[a.th].mem, mem);
    } else if a.Step? && s.threads[a.th].Fill? {
      var e := Entry(s.threads[a.th].id, s.threads[a.th].mem, s.threads[a.th].size);
      assert ([e] + s.l.allocs)[1..] == s.l.allocs;
    }
  }

  /** The oldest entry of an address is the one it has had since it last had none. */
  lemma {:induction false} OldestSize(path: seq<State>, acts: seq<Action>, n: nat, mem: nat)
    requires IsRun(path, acts) && Start(path[0]) && n <= |acts|
    ensures var z := Sizes(path[n].l.allocs, mem); z != [] ==> z[|z| - 1] == FirstSize(path, acts, n, mem)
  {
    hide Inv, Do, Enabled, Sizes, Entries;
    if n > 0 {
      OldestSize(path, acts, n - 1, mem);
      InvOfRun(path, acts, n - 1);
      SizesStep(path[n - 1], acts[n - 1], mem);
      ThreadsStay(path[n - 1], acts[n - 1]);
      AskedHolds(path, acts, n - 1, acts[n - 1].th);
    } else {
      NoSizes(path[0], mem);
    }
  }

  lemma NoSizes(s: State, mem: nat)
    requires Start(s)
    ensures Sizes(s.l.allocs, mem) == []
  {
  }

  /** The entry of an address the program holds, no other removal being due, has the size recorded when the address last
      had no entry; it is the size the program asked for just when these two agree. */
  lemma EntrySize(path: seq<State>, acts: seq<Action>, mem: nat)
    requires IsRun(path, acts) && Start(path[0])
    requires mem in path[|acts|].owned && Late(path[|acts|].threads, mem) == 0
    ensures var z, n := Sizes(path[|acts|].l.allocs, mem), |acts|;
            var first, asked := FirstSize(path, acts, n, mem), AskedSize(path, acts, n, mem);
            z == [first] && (z == [asked] <==> first == asked)
  {
    var s := path[|acts|];
    InvOfRun(path, acts, |acts|);
    EntriesOfAddress(s, mem);
    assert MemOk(s, mem);
    OldestSize(path, acts, |acts|, mem);
  }

  /** A `realloc` that stays in place leaves the old size in the entry. */
  lemma InPlaceKeepsSize() returns (path: seq<State>, acts: seq<Action>)
    ensures IsRun(path, acts) && Start(path[0])
    ensures var s, n := path[|acts|], |acts|;
            && 0 in s.owned && (forall pc :: pc in s.threads ==> pc.Idle?)
            && Sizes(s.l.allocs, 0) == [8] && AskedSize(path, acts, n, 0) == 16
  {
    acts := [Malloc(0, 8, Some(0)), Step(0), Step(0), Realloc(0, Some(0), 16, Some(0))];
    var s0 := State(EMPTY_LISTS, {}, {}, [Idle], false);
    var s1 := Do(s0, acts[0]);
    var s2 := Do(s1, acts[1]);
    var s3 := Do(s2, acts[2]);
    path := [s0, s1, s2, s3, Do(s3, acts[3])];
    assert s3.l.allocs == [Entry(0, 0, 8)];
    EntrySize(path, acts, 0);
  }

  /** So does a `realloc` that moves, where another thread has recorded the old address before it is untracked: the
      newer entry goes. */
  lemma CrossingKeepsSize() returns (path: seq<State>, acts: seq<Action>)
    ensures IsRun(path, acts) && Start(path[0])
    ensures var s, n := path[|acts|], |acts|;
            && 0 in s.owned && (forall pc :: pc in s.threads ==> pc.Idle?)
            && Sizes(s.l.allocs, 0) == [8] && AskedSize(path, acts, n, 0) == 24
  {
    var p, a := UntilTwo();
    NewerGoes(p[7]);
    var s8 := Do(p[7], Step(0));
    var s9 := s8.(l := Lists([Entry(0, 0, 8)], [], 1, 2, 1), threads := [Fill(1, 1, 16), Idle]);
    var s10 := State(Lists([Entry(1, 1, 16), Entry(0, 0, 8)], [], 1, 2, 2), {0, 1}, {0, 1}, [Idle, Idle], false);
    path, acts := p + [s8, s9, s10], a + [Step(0), Step(0), Step(0)];
    CallsAsked(path, acts);
    assert s10.l.allocs[1..] == [Entry(0, 0, 8)] && s10.l.allocs[1..][1..] == [];
  }

  lemma NewerGoes(s: State)
    requires s == State(Lists([Entry(1, 0, 24), Entry(0, 0, 8)], [], 1, 2, 2), {0, 1}, {0},
                        [Untrack(0, Track(1, 16)), Idle], false)
    ensures Enabled(s, Step(0))
    ensures Do(s, Step(0)) == State(Lists([Entry(0, 0, 8)], [1], 1, 2, 1), {0, 1}, {0}, [New(1, 16), Idle], false)
  {
    assert Find(s.l.allocs, 0) == 0;
  }

  lemma CallsAsked(path: seq<State>, acts: seq<Action>)
    requires IsRun(path, acts) && |acts| == 10 && acts[4] == Malloc(1, 24, Some(0))
    requires forall i :: 4 < i < 10 ==> acts[i].Step?
    ensures AskedSize(path, acts, 10, 0) == 24
  {
    assert AskedSize(path, acts, 5, 0) == 24;
    assert AskedSize(path, acts, 6, 0) == 24;
    assert AskedSize(path, acts, 7, 0) == 24;
    assert AskedSize(path, acts, 8, 0) == 24;
    assert AskedSize(path, acts, 9, 0) == 24;
  }

  lemma UntilTwo() returns (path: seq<State>, acts: seq<Action>)
    ensures IsRun(path, acts) && Start(path[0])
    ensures acts == [Malloc(0, 8, Some(0)), Step(0), Step(0), Realloc(0, Some(0), 16, Some(1)), Malloc(1, 24, Some(0)),
                     Step(1), Step(1)]
    ensures path[7] == State(Lists([Entry(1, 0, 24), Entry(0, 0, 8)], [], 1, 2, 2), {0, 1}, {0},
                             [Untrack(0, Track(1, 16)), Idle], false)
  {
    acts := [Malloc(0, 8, Some(0)), Step(0), Step(0), Realloc(0, Some(0), 16, Some(1)), Malloc(1, 24, Some(0)),
             Step(1), Step(1)];
    var s0 := State(EMPTY_LISTS, {}, {}, [Idle, Idle], false);
    var s1 := Do(s0, acts[0]);
    var s2 := Do(s1, acts[1]);
    var s3 := Do(s2, acts[2]);
    var s4 := Do(s3, acts[3]);
    var s5 := Do(s4, acts[4]);
    var s6 := Do(s5, acts[5]);
    path := [s0, s1, s2, s3, s4, s5, s6, Do(s6, acts[6])];
  }
}
