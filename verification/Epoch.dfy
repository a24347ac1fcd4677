/**
 Epoch-based reclamation (epoch.c) as a state machine whose steps are the single loads, stores and
 compare-and-swaps of the code, interleaved in any order by any number of threads and one collector.

 Threads work on one shared persistent structure, a root pointer whose footprint (the addresses
 reachable from it) never changes while the root stays in memory.  Addresses are handed out again
 after they are freed, so a compare-and-swap of the root could in principle succeed on a recycled
 address; that it does not is part of what is proved.
 */
module Epoch {
  import opened Wrappers

  type Ptr = nat
  type Tid = nat
  const NULL: Ptr := 0

  ghost predicate NoDups(xs: seq<Ptr>) {
    forall i, j :: 0 <= i < j < |xs| ==> xs[i] != xs[j]
  }

  // What a writer owes the scheme when it swaps the root: the new structure is made of old and newly
  // allocated memory, and what it retires is memory that the new structure does not reach, once each.
  ghost predicate PathCopy(oldFoot: set<Ptr>, allocs: set<Ptr>, newFoot: set<Ptr>, frees: seq<Ptr>) {
    && newFoot <= oldFoot + allocs
    && NoDups(frees)
    && (forall x :: x in frees ==> x in oldFoot + allocs && x !in newFoot)
  }

  // --- State -----------------------------------------------------------------------------------------

  // The thread-local lists of an operation, the root it expects to swap out, the structure it builds from
  // (read together with that root or again after it), and every address it may hold.
  datatype Work = Work(
    held: set<Ptr>, snap: Ptr, snapFoot: set<Ptr>, baseFoot: set<Ptr>, allocs: set<Ptr>, frees: seq<Ptr>)

  datatype Pc =
    | Unregistered
    | Claimed                              // epochThreadInit won the slot
    | Cleared                              // ... and stored active = false
    | Outside
    | Activated                            // epochBegin stored active = true
    | Loaded(g: int)                       // ... and loaded the global epoch
    | Inside(g: int, work: Work)           // ... and stored it
    | Ending(g: int, held: set<Ptr>, todo: seq<Ptr>)
    | Retiring(g: int, held: set<Ptr>, r: int, todo: seq<Ptr>, slot: Option<nat>)

  datatype Thread = Thread(inUse: bool, active: bool, counter: int, pc: Pc)

  // `pending` records which reserved indices have not been filled yet, and by whom.
  datatype Bucket = Bucket(slots: map<nat, Ptr>, next: nat, pending: map<nat, Tid>)

  datatype Collector =
    | Idle
    | ReadUse(i: nat)                      // about to look at thread i
    | ReadActive(i: nat)                   // saw it in use
    | ReadCounter(i: nat)                  // saw it active
    | ReadCount(f: int)                    // advanced; f is the epoch to free
    | Drain(f: int, count: nat, i: nat)

  // Where a retired address waits: in its thread's list or in a bucket.
  datatype Place = Todo(t: Tid) | Slot(b: nat, i: nat)
  datatype Parked = Parked(stamp: int, at: Place)

  // heap, rootFoot, limbo, pending and held are history: the code does not store them.
  datatype State = State(
    global: int,
    threads: seq<Thread>,
    buckets: seq<Bucket>,
    col: Collector,
    root: Ptr,
    rootFoot: set<Ptr>,
    heap: set<Ptr>,
    limbo: map<Ptr, Parked>)

  // ((e % 3) + 3) % 3 in C, where e may be -1.
  function BucketOf(e: int): (b: nat)
    ensures b < 3
  {
    e % 3
  }

  function Init(n: nat, root: Ptr): State
    requires root != NULL
  {
    State(0, seq(n, _ => Thread(false, false, 0, Unregistered)),
          [Bucket(map[], 0, map[]), Bucket(map[], 0, map[]), Bucket(map[], 0, map[])],
          Idle, root, {root}, {root}, map[])
  }

  // --- Steps -----------------------------------------------------------------------------------------

  datatype Action =
    | Register(t: Tid) | ClearActive(t: Tid) | ClearCounter(t: Tid) | Unregister(t: Tid)
    | Activate(t: Tid) | LoadEpoch(t: Tid) | StoreEpoch(t: Tid)
    | ReadRoot(t: Tid)                     // the root, for both purposes
    | ReadAgain(t: Tid)                    // statementRemoveSelf: the root once more, to build from
    | EpochAlloc(t: Tid, p: Ptr) | EpochFree(t: Tid, p: Ptr) | EpochReset(t: Tid)
    | Cas(t: Tid, newRoot: Ptr, newFoot: set<Ptr>)
    | CasFails(t: Tid)                     // a weak compare-and-swap may fail for no reason
    | End(t: Tid) | ChooseBucket(t: Tid) | Reserve(t: Tid) | Put(t: Tid) | Deactivate(t: Tid)
    | Collect

  predicate IsThread(s: State, t: Tid) {
    t < |s.threads|
  }

  ghost predicate Enabled(s: State, a: Action) {
    match a
    case Register(t) => IsThread(s, t) && s.threads[t].pc.Unregistered?
    case ClearActive(t) => IsThread(s, t) && s.threads[t].pc.Claimed?
    case ClearCounter(t) => IsThread(s, t) && s.threads[t].pc.Cleared?
    case Unregister(t) => IsThread(s, t) && s.threads[t].pc.Outside?
    case Activate(t) => IsThread(s, t) && s.threads[t].pc.Outside?
    case LoadEpoch(t) => IsThread(s, t) && s.threads[t].pc.Activated?
    case StoreEpoch(t) => IsThread(s, t) && s.threads[t].pc.Loaded?
    case ReadRoot(t) => IsThread(s, t) && s.threads[t].pc.Inside?
    case ReadAgain(t) => IsThread(s, t) && s.threads[t].pc.Inside? && s.threads[t].pc.work.snap != NULL
    case EpochAlloc(t, p) => IsThread(s, t) && s.threads[t].pc.Inside? && p != NULL && p !in s.heap
    case EpochFree(t, p) => IsThread(s, t) && s.threads[t].pc.Inside?
    case EpochReset(t) => IsThread(s, t) && s.threads[t].pc.Inside?
    case Cas(t, newRoot, newFoot) =>
      && IsThread(s, t) && s.threads[t].pc.Inside?
      && var w := s.threads[t].pc.work;
      && (newRoot == NULL ==> newFoot == {})
      && (newRoot != NULL ==> newRoot in w.allocs && newRoot in newFoot)
      && PathCopy(w.baseFoot, w.allocs, newFoot, w.frees)
    case CasFails(t) => IsThread(s, t) && s.threads[t].pc.Inside?
    case End(t) => IsThread(s, t) && s.threads[t].pc.Inside? && s.threads[t].pc.work.frees == []
    case ChooseBucket(t) => IsThread(s, t) && s.threads[t].pc.Ending?
    case Reserve(t) =>
      IsThread(s, t) && s.threads[t].pc.Retiring? && s.threads[t].pc.todo != [] && s.threads[t].pc.slot.None?
    case Put(t) => IsThread(s, t) && s.threads[t].pc.Retiring? && s.threads[t].pc.todo != [] && s.threads[t].pc.slot.Some?
    case Deactivate(t) => IsThread(s, t) && s.threads[t].pc.Retiring? && s.threads[t].pc.todo == []
    case Collect => true
  }

  function SetPc(s: State, t: Tid, pc: Pc): State
    requires IsThread(s, t)
  {
    s.(threads := s.threads[t := s.threads[t].(pc := pc)])
  }

  ghost function ThreadNext(s: State, a: Action): State
    requires Enabled(s, a) && !a.Collect? && |s.buckets| == 3
  {
    var th := s.threads[a.t];
    match a
    case Register(t) => s.(threads := s.threads[t := th.(inUse := true, pc := Claimed)])
    case ClearActive(t) => s.(threads := s.threads[t := th.(inUse := true, active := false, pc := Cleared)])
    case ClearCounter(t) => s.(threads := s.threads[t := th.(counter := 0, pc := Outside)])
    case Unregister(t) => s.(threads := s.threads[t := th.(inUse := false, pc := Unregistered)])
    case Activate(t) => s.(threads := s.threads[t := th.(active := true, pc := Activated)])
    case LoadEpoch(t) => SetPc(s, t, Loaded(s.global))
    case StoreEpoch(t) =>
      s.(threads := s.threads[t := th.(counter := th.pc.g, pc := Inside(th.pc.g, Work({}, NULL, {}, {}, {}, [])))])
    case ReadRoot(t) =>
      var w := th.pc.work;
      SetPc(s, t, th.pc.(work := w.(held := w.held + s.rootFoot, snap := s.root, snapFoot := s.rootFoot,
                                    baseFoot := s.rootFoot)))
    case ReadAgain(t) =>
      var w := th.pc.work;
      SetPc(s, t, th.pc.(work := w.(held := w.held + s.rootFoot, baseFoot := s.rootFoot)))
    case EpochAlloc(t, p) =>
      var w := th.pc.work;
      SetPc(s, t, th.pc.(work := w.(allocs := w.allocs + {p}))).(heap := s.heap + {p})
    case EpochFree(t, p) =>
      SetPc(s, t, th.pc.(work := th.pc.work.(frees := th.pc.work.frees + [p])))
    case EpochReset(t) =>
      // Frees every allocation of the operation and forgets its list of frees.
      var w := th.pc.work;
      SetPc(s, t, th.pc.(work := w.(allocs := {}, frees := []))).(heap := s.heap - w.allocs)
    case Cas(t, newRoot, newFoot) =>
      var w := th.pc.work;
      if s.root != w.snap then s
      else
        SetPc(s, t, Ending(th.pc.g, w.held + w.allocs, w.frees)).(
          root := newRoot, rootFoot := newFoot,
          limbo := s.limbo + map x | x in w.frees :: Parked(s.global, Todo(t)))
    case CasFails(t) => s
    case End(t) => SetPc(s, t, Ending(th.pc.g, th.pc.work.held, []))
    case ChooseBucket(t) => SetPc(s, t, Retiring(th.pc.g, th.pc.held, s.global, th.pc.todo, None))
    case Reserve(t) =>
      var b := BucketOf(th.pc.r);
      var bk := s.buckets[b];
      SetPc(s, t, th.pc.(slot := Some(bk.next))).(
        buckets := s.buckets[b := bk.(next := bk.next + 1, pending := bk.pending[bk.next := t])])
    case Put(t) =>
      var b := BucketOf(th.pc.r);
      var bk := s.buckets[b];
      var i, x := th.pc.slot.value, th.pc.todo[0];
      SetPc(s, t, th.pc.(todo := th.pc.todo[1..], slot := None)).(
        buckets := s.buckets[b := bk.(slots := bk.slots[i := x], pending := bk.pending - {i})],
        limbo := if x in s.limbo then s.limbo[x := s.limbo[x].(at := Slot(b, i))] else s.limbo)
    case Deactivate(t) => s.(threads := s.threads[t := th.(active := false, pc := Outside)])
  }

  // epochGlobalCollect, one read or write at a time.
  function CollectNext(s: State): State
    requires |s.buckets| == 3
  {
    match s.col
    case Idle => s.(col := ReadUse(0))
    case ReadUse(i) =>
      if i >= |s.threads| then s.(global := s.global + 1, col := ReadCount(s.global - 1))
      else if s.threads[i].inUse then s.(col := ReadActive(i))
      else s.(col := ReadUse(i + 1))
    case ReadActive(i) =>
      if i < |s.threads| && s.threads[i].active then s.(col := ReadCounter(i)) else s.(col := ReadUse(i + 1))
    case ReadCounter(i) =>
      if i < |s.threads| && s.threads[i].counter != s.global then s.(col := Idle) else s.(col := ReadUse(i + 1))
    case ReadCount(f) => s.(col := Drain(f, s.buckets[BucketOf(f)].next, 0))
    case Drain(f, count, i) =>
      var bk := s.buckets[BucketOf(f)];
      if i < count then
        var x := if i in bk.slots then bk.slots[i] else NULL;
        s.(col := Drain(f, count, i + 1), heap := s.heap - {x}, limbo := s.limbo - {x})
      else
        s.(col := Idle, buckets := s.buckets[BucketOf(f) := bk.(next := 0)])
  }

  ghost function Next(s: State, a: Action): State
    requires Enabled(s, a) && |s.buckets| == 3
  {
    if a.Collect? then CollectNext(s) else ThreadNext(s, a)
  }

  // --- Invariant -------------------------------------------------------------------------------------

  predicate Pinned(pc: Pc) {
    pc.Loaded? || pc.Inside? || pc.Ending? || pc.Retiring?
  }

  function Held(pc: Pc): set<Ptr> {
    match pc
    case Inside(_, w) => w.held
    case Ending(_, held, _) => held
    case Retiring(_, held, _, _, _) => held
    case _ => {}
  }

  function Allocs(pc: Pc): set<Ptr> {
    if pc.Inside? then pc.work.allocs else {}
  }

  // An active thread is at most one epoch behind, and its stored counter never runs ahead of what it
  // will pin.
  predicate ClockOk(s: State, th: Thread) {
    && (th.inUse <==> !th.pc.Unregistered?)
    && (th.active <==> th.pc.Activated? || Pinned(th.pc))
    && th.counter <= s.global
    && (th.pc.Loaded? ==> th.counter <= th.pc.g)
    && (Pinned(th.pc) && !th.pc.Loaded? ==> th.counter == th.pc.g)
    && (Pinned(th.pc) ==> th.pc.g <= s.global <= th.pc.g + 1)
    && (th.pc.Retiring? ==> th.pc.g <= th.pc.r <= s.global)
  }

  function Passed(col: Collector): nat {
    match col
    case ReadUse(i) => i
    case ReadActive(i) => i
    case ReadCounter(i) => i
    case _ => 0
  }

  // Whoever the scan has passed and is pinned, is pinned at the current epoch.
  predicate ScanOk(s: State) {
    && Passed(s.col) <= |s.threads|
    && (s.col.ReadActive? || s.col.ReadCounter? ==> Passed(s.col) < |s.threads|)
    && forall j :: 0 <= j < Passed(s.col) && Pinned(s.threads[j].pc) ==> s.threads[j].pc.g == s.global
  }

  predicate RootOk(s: State) {
    && NULL !in s.heap
    && s.rootFoot <= s.heap
    && s.limbo.Keys <= s.heap
    && s.rootFoot !! s.limbo.Keys
    && (s.root == NULL ==> s.rootFoot == {})
    && (s.root != NULL ==> s.root in s.rootFoot)
  }

  // A held address is in memory; if it is retired, it was retired after the holder pinned its epoch.
  predicate HoldOk(s: State, pc: Pc) {
    && Held(pc) <= s.heap
    && (Pinned(pc) ==> forall x :: x in Held(pc) && x in s.limbo ==> pc.g <= s.limbo[x].stamp)
  }

  predicate WorkOk(s: State, w: Work) {
    && w.snapFoot <= w.held
    && (w.snap == NULL ==> w.snapFoot == {})
    && (w.snap != NULL ==> w.snap in w.snapFoot)
    && (w.snap == s.root ==> w.snapFoot == s.rootFoot)
    && w.baseFoot <= w.held
    && (w.snap == NULL ==> w.baseFoot == {})
    && (w.snap == s.root ==> w.baseFoot == s.rootFoot)
    && w.allocs <= s.heap
    && w.allocs !! s.rootFoot
    && w.allocs !! s.limbo.Keys
    && w.allocs !! w.held
  }

  predicate PrivateOk(s: State) {
    forall t, u :: 0 <= t < |s.threads| && 0 <= u < |s.threads| && t != u ==>
      Allocs(s.threads[t].pc) !! (Allocs(s.threads[u].pc) + Held(s.threads[u].pc))
  }

  ghost predicate TodoOk(s: State, t: Tid, todo: seq<Ptr>, bound: int) {
    && NoDups(todo)
    && forall k :: 0 <= k < |todo| ==>
         todo[k] in s.limbo && s.limbo[todo[k]].at == Todo(t) && s.limbo[todo[k]].stamp <= bound
  }

  ghost predicate RetireOk(s: State, t: Tid, pc: Pc)
    requires |s.buckets| == 3
  {
    && (pc.Ending? ==> TodoOk(s, t, pc.todo, s.global))
    && (pc.Retiring? ==> TodoOk(s, t, pc.todo, pc.r))
    && (pc.Retiring? && pc.slot.Some? ==>
          var bk := s.buckets[BucketOf(pc.r)];
          pc.todo != [] && pc.slot.value < bk.next && pc.slot.value in bk.pending && bk.pending[pc.slot.value] == t)
  }

  // The epoch whose garbage bucket b holds: one of the last three.
  function Label(global: int, b: nat): (e: int)
    requires b < 3
    ensures global - 2 <= e <= global && BucketOf(e) == b
  {
    global - (global - b) % 3
  }

  // Entries before this index have been freed already.
  function Freed(s: State, b: nat): nat {
    if s.col.Drain? && BucketOf(s.col.f) == b then s.col.i else 0
  }

  ghost predicate EntryOk(s: State, b: nat, i: nat)
    requires |s.buckets| == 3 && b < 3
  {
    && i in s.buckets[b].slots
    && var x := s.buckets[b].slots[i];
    && x in s.limbo && s.limbo[x].at == Slot(b, i) && s.limbo[x].stamp <= Label(s.global, b)
  }

  ghost predicate BucketsOk(s: State)
    requires |s.buckets| == 3
  {
    forall b: nat, i: nat ::
      b < 3 && Freed(s, b) <= i < s.buckets[b].next && i !in s.buckets[b].pending ==> EntryOk(s, b, i)
  }

  // Only the bucket of two epochs ago is drained, and outside draining it is empty.
  predicate DrainOk(s: State)
    requires |s.buckets| == 3
  {
    && (s.col.ReadCount? ==> s.col.f == s.global - 2)
    && (s.col.Drain? ==> s.col.f == s.global - 2 && s.col.i <= s.col.count == s.buckets[BucketOf(s.col.f)].next)
    && (!s.col.ReadCount? && !s.col.Drain? ==> s.buckets[BucketOf(s.global - 2)].next == 0)
  }

  // A reserved index belongs to a thread that is about to fill it.
  predicate PendingOk(s: State)
    requires |s.buckets| == 3
  {
    forall b: nat, i: nat :: b < 3 && i in s.buckets[b].pending ==> IsReserved(s, b, i, s.buckets[b].pending[i])
  }

  predicate IsReserved(s: State, b: nat, i: nat, t: Tid) {
    && IsThread(s, t)
    && s.threads[t].pc.Retiring? && s.threads[t].pc.slot == Some(i) && BucketOf(s.threads[t].pc.r) == b
  }

  // No retired address is lost: it is on its thread's list, or in its bucket and not yet passed over.
  predicate ParkedOk(s: State, x: Ptr)
    requires |s.buckets| == 3 && x in s.limbo
  {
    match s.limbo[x].at
    case Todo(t) =>
      && IsThread(s, t)
      && (s.threads[t].pc.Ending? || s.threads[t].pc.Retiring?)
      && x in s.threads[t].pc.todo
    case Slot(b, i) =>
      && b < 3
      && Freed(s, b) <= i < s.buckets[b].next && i !in s.buckets[b].pending
      && i in s.buckets[b].slots && s.buckets[b].slots[i] == x
  }

  ghost predicate LimboOk(s: State)
    requires |s.buckets| == 3
  {
    forall x :: x in s.limbo ==> ParkedOk(s, x)
  }

  ghost predicate ThreadOk(s: State, t: Tid)
    requires |s.buckets| == 3 && IsThread(s, t)
  {
    && ClockOk(s, s.threads[t])
    && HoldOk(s, s.threads[t].pc)
    && (s.threads[t].pc.Inside? ==> WorkOk(s, s.threads[t].pc.work))
    && RetireOk(s, t, s.threads[t].pc)
  }

  ghost predicate Inv(s: State) {
    && |s.buckets| == 3
    && s.global >= 0
    && RootOk(s) && ScanOk(s) && DrainOk(s) && PrivateOk(s) && BucketsOk(s) && PendingOk(s)
    && forall t :: 0 <= t < |s.threads| ==> ThreadOk(s, t)
  }
}
