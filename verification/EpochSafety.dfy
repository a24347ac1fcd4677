/**
 Why epoch-based reclamation is safe: the invariant of `Epoch` holds in every reachable state, and it
 rules out use after free, double frees and root compare-and-swaps that succeed on a recycled address.
 */
module EpochSafety {
  import opened Wrappers
  import opened Epoch

  lemma InitInv(n: nat, root: Ptr)
    requires root != NULL
    ensures Inv(Init(n, root))
  {
    var s := Init(n, root);
    forall t | 0 <= t < n ensures ClockOk(s, s.threads[t]) && HoldOk(s, s.threads[t].pc) && RetireOk(s, t, s.threads[t].pc) {
      assert s.threads[t].pc == Unregistered;
    }
  }

  // Steps that leave the buckets and the parked garbage in them alone keep the entries in order.
  lemma BucketsKept(s: State, s2: State)
    requires |s.buckets| == 3 && BucketsOk(s)
    requires s2.buckets == s.buckets && s2.col == s.col && s2.global == s.global
    requires forall x :: x in s.limbo && s.limbo[x].at.Slot? ==> x in s2.limbo && s2.limbo[x] == s.limbo[x]
    ensures BucketsOk(s2)
  {
    forall b: nat, i: nat | b < 3 && Freed(s2, b) <= i < s2.buckets[b].next && i !in s2.buckets[b].pending
      ensures EntryOk(s2, b, i)
    {
      assert EntryOk(s, b, i);
    }
  }

  // A step that changes one thread, and memory only by that thread's private allocations.
  ghost predicate IsLocal(s: State, s2: State, t: Tid) {
    && IsThread(s, t)
    && |s2.threads| == |s.threads|
    && s2 == s.(threads := s.threads[t := s2.threads[t]], heap := s2.heap)
    && s.heap <= s2.heap + Allocs(s.threads[t].pc)
    && NULL !in s2.heap
    && Allocs(s2.threads[t].pc) <= Allocs(s.threads[t].pc) + (s2.heap - s.heap)
    && Held(s2.threads[t].pc) <= Held(s.threads[t].pc) + s.rootFoot
  }

  lemma LocalKeepsPrivate(s: State, s2: State, t: Tid)
    requires Inv(s) && IsLocal(s, s2, t)
    ensures PrivateOk(s2)
  {
    forall u, w | 0 <= u < |s.threads| && 0 <= w < |s.threads| && u != w
      ensures Allocs(s2.threads[u].pc) !! (Allocs(s2.threads[w].pc) + Held(s2.threads[w].pc))
    {
      assert ThreadOk(s, u) && ThreadOk(s, w);
    }
  }

  lemma LocalKeepsOther(s: State, s2: State, t: Tid, u: Tid)
    requires Inv(s) && IsLocal(s, s2, t) && IsThread(s, u) && u != t
    requires s.rootFoot !! Allocs(s.threads[t].pc) && s.limbo.Keys !! Allocs(s.threads[t].pc)
    ensures ThreadOk(s2, u)
  {
    assert ThreadOk(s, u);
    assert Held(s.threads[u].pc) <= s2.heap;
  }

  lemma LocalKeepsInv(s: State, s2: State, t: Tid)
    requires Inv(s) && IsLocal(s, s2, t)
    requires ThreadOk(s2, t) && (s.threads[t].pc.Retiring? ==> s.threads[t].pc.slot.None?)
    requires t < Passed(s.col) && Pinned(s2.threads[t].pc) ==> s2.threads[t].pc.g == s.global
    requires s.rootFoot !! Allocs(s.threads[t].pc) && s.limbo.Keys !! Allocs(s.threads[t].pc)
    ensures Inv(s2)
  {
    BucketsKept(s, s2);
    LocalKeepsPrivate(s, s2, t);
    forall u | 0 <= u < |s.threads| && u != t ensures ThreadOk(s2, u) {
      LocalKeepsOther(s, s2, t, u);
    }
    forall b: nat, i: nat | b < 3 && i in s2.buckets[b].pending ensures IsReserved(s2, b, i, s2.buckets[b].pending[i]) {
      assert IsReserved(s, b, i, s.buckets[b].pending[i]);
    }
  }

  // epochThreadInit, epochThreadDestroy and epochBegin touch nothing but the thread itself.
  lemma RegisterKeepsInv(s: State, a: Action)
    requires Inv(s) && Enabled(s, a)
    requires a.Register? || a.ClearActive? || a.ClearCounter? || a.Unregister?
    ensures Inv(Next(s, a))
  {
    assert ThreadOk(s, a.t);
    LocalKeepsInv(s, Next(s, a), a.t);
  }

  lemma BeginKeepsInv(s: State, a: Action)
    requires Inv(s) && Enabled(s, a)
    requires a.Activate? || a.LoadEpoch? || a.StoreEpoch?
    ensures Inv(Next(s, a))
  {
    assert ThreadOk(s, a.t);
    LocalKeepsInv(s, Next(s, a), a.t);
  }

  lemma WorkIsLocal(s: State, a: Action)
    requires |s.buckets| == 3 && RootOk(s) && Enabled(s, a) && !a.Collect? && ThreadOk(s, a.t)
    requires a.ReadRoot? || a.ReadAgain? || a.EpochAlloc? || a.EpochFree? || a.EpochReset?
    ensures IsLocal(s, Next(s, a), a.t) && ThreadOk(Next(s, a), a.t)
  {
  }

  lemma WorkKeepsInv(s: State, a: Action)
    requires Inv(s) && Enabled(s, a)
    requires a.ReadRoot? || a.ReadAgain? || a.EpochAlloc? || a.EpochFree? || a.EpochReset?
    ensures Inv(Next(s, a))
  {
    assert ThreadOk(s, a.t);
    WorkIsLocal(s, a);
    LocalKeepsInv(s, Next(s, a), a.t);
  }

  lemma EndKeepsInv(s: State, a: Action)
    requires Inv(s) && Enabled(s, a)
    requires a.End? || a.ChooseBucket? || a.Deactivate?
    ensures Inv(Next(s, a))
  {
    assert ThreadOk(s, a.t);
    LocalKeepsInv(s, Next(s, a), a.t);
  }

  // A root read by another thread stays in memory, so the new root, allocated meanwhile, cannot have
  // its address: a later success of that thread's swap means the structure has not changed.
  lemma CasOtherWork(s: State, t: Tid, newRoot: Ptr, newFoot: set<Ptr>, w: Work)
    requires |s.buckets| == 3 && Enabled(s, Cas(t, newRoot, newFoot)) && s.root == s.threads[t].pc.work.snap
    requires RootOk(s) && WorkOk(s, w) && WorkOk(s, s.threads[t].pc.work) && w.held <= s.heap
    requires s.threads[t].pc.work.allocs !! (w.allocs + w.held)
    ensures WorkOk(Next(s, Cas(t, newRoot, newFoot)), w)
  {
  }

  lemma CasOthers(s: State, t: Tid, newRoot: Ptr, newFoot: set<Ptr>, u: Tid)
    requires Inv(s) && Enabled(s, Cas(t, newRoot, newFoot)) && s.root == s.threads[t].pc.work.snap
    requires IsThread(s, u) && u != t
    ensures ThreadOk(Next(s, Cas(t, newRoot, newFoot)), u)
  {
    var s2 := Next(s, Cas(t, newRoot, newFoot));
    var w := s.threads[t].pc.work;
    assert ThreadOk(s, u) && ThreadOk(s, t);
    assert w.allocs !! (Allocs(s.threads[u].pc) + Held(s.threads[u].pc));
    if s.threads[u].pc.Inside? {
      CasOtherWork(s, t, newRoot, newFoot, s.threads[u].pc.work);
    }
    CasOtherHolds(s, t, newRoot, newFoot, u);
  }

  lemma CasOtherHolds(s: State, t: Tid, newRoot: Ptr, newFoot: set<Ptr>, u: Tid)
    requires |s.buckets| == 3 && Enabled(s, Cas(t, newRoot, newFoot)) && s.root == s.threads[t].pc.work.snap
    requires IsThread(s, u) && u != t && ThreadOk(s, t) && ThreadOk(s, u) && RootOk(s)
    requires s.threads[t].pc.work.allocs !! (Allocs(s.threads[u].pc) + Held(s.threads[u].pc))
    ensures var s2 := Next(s, Cas(t, newRoot, newFoot));
            && s2.threads[u] == s.threads[u] && ClockOk(s2, s2.threads[u])
            && HoldOk(s2, s2.threads[u].pc) && RetireOk(s2, u, s2.threads[u].pc)
  {
    var s2 := Next(s, Cas(t, newRoot, newFoot));
    assert s2.threads[u] == s.threads[u];
    assert forall x :: x in s2.limbo && x !in s.limbo ==> s2.limbo[x].stamp == s.global;
    assert forall x :: x in s.limbo ==> s2.limbo[x] == s.limbo[x];
  }

  lemma CasSelf(s: State, t: Tid, newRoot: Ptr, newFoot: set<Ptr>)
    requires Inv(s) && Enabled(s, Cas(t, newRoot, newFoot)) && s.root == s.threads[t].pc.work.snap
    ensures ThreadOk(Next(s, Cas(t, newRoot, newFoot)), t)
    ensures RootOk(Next(s, Cas(t, newRoot, newFoot)))
  {
    assert ThreadOk(s, t);
  }

  lemma CasKeepsPrivate(s: State, t: Tid, newRoot: Ptr, newFoot: set<Ptr>)
    requires PrivateOk(s) && |s.buckets| == 3 && Enabled(s, Cas(t, newRoot, newFoot))
    requires s.root == s.threads[t].pc.work.snap
    ensures PrivateOk(Next(s, Cas(t, newRoot, newFoot)))
  {
    var s2 := Next(s, Cas(t, newRoot, newFoot));
    forall u, v | 0 <= u < |s.threads| && 0 <= v < |s.threads| && u != v
      ensures Allocs(s2.threads[u].pc) !! (Allocs(s2.threads[v].pc) + Held(s2.threads[v].pc))
    {
      assert Allocs(s.threads[u].pc) !! (Allocs(s.threads[v].pc) + Held(s.threads[v].pc));
    }
  }

  lemma CasKeepsBuckets(s: State, t: Tid, newRoot: Ptr, newFoot: set<Ptr>)
    requires |s.buckets| == 3 && BucketsOk(s) && PendingOk(s) && DrainOk(s) && ScanOk(s) && RootOk(s)
    requires Enabled(s, Cas(t, newRoot, newFoot)) && s.root == s.threads[t].pc.work.snap
    requires forall x :: x in s.threads[t].pc.work.frees ==> x !in s.limbo
    ensures var s2 := Next(s, Cas(t, newRoot, newFoot)); BucketsOk(s2) && PendingOk(s2) && DrainOk(s2) && ScanOk(s2)
  {
    var s2 := Next(s, Cas(t, newRoot, newFoot));
    BucketsKept(s, s2);
    forall b: nat, i: nat | b < 3 && i in s2.buckets[b].pending ensures IsReserved(s2, b, i, s2.buckets[b].pending[i]) {
      assert IsReserved(s, b, i, s.buckets[b].pending[i]);
    }
  }

  lemma CasKeepsInv(s: State, t: Tid, newRoot: Ptr, newFoot: set<Ptr>)
    requires Inv(s) && Enabled(s, Cas(t, newRoot, newFoot))
    ensures Inv(Next(s, Cas(t, newRoot, newFoot)))
  {
    var s2 := Next(s, Cas(t, newRoot, newFoot));
    assert ThreadOk(s, t);
    if s2 != s {
      CasKeepsBuckets(s, t, newRoot, newFoot);
      CasSelf(s, t, newRoot, newFoot);
      forall u | 0 <= u < |s.threads| && u != t ensures ThreadOk(s2, u) {
        CasOthers(s, t, newRoot, newFoot, u);
      }
      CasKeepsPrivate(s, t, newRoot, newFoot);
    }
  }

  // The bucket of an epoch keeps its label until the epoch is two behind.
  lemma Labels(global: int, e: int)
    requires global - 2 <= e <= global
    ensures Label(global, BucketOf(e)) == e
    ensures e > global - 2 ==> BucketOf(e) != BucketOf(global - 2)
    ensures e > global - 2 ==> Label(global + 1, BucketOf(e)) == e
  {
  }

  lemma RecentBucket(s: State, th: Thread)
    requires ClockOk(s, th) && th.pc.Retiring?
    ensures BucketOf(th.pc.r) != BucketOf(s.global - 2)
    ensures Label(s.global, BucketOf(th.pc.r)) == th.pc.r
  {
    Labels(s.global, th.pc.r);
  }

  // A retiring thread's bucket is that of the current or the previous epoch, never the drained one.
  lemma NotDrained(s: State, t: Tid)
    requires Inv(s) && IsThread(s, t) && s.threads[t].pc.Retiring?
    ensures BucketOf(s.threads[t].pc.r) != BucketOf(s.global - 2)
    ensures Label(s.global, BucketOf(s.threads[t].pc.r)) == s.threads[t].pc.r
  {
    assert ThreadOk(s, t);
    RecentBucket(s, s.threads[t]);
  }

  lemma DrainedHasNoPending(s: State, i: nat)
    requires Inv(s)
    ensures i !in s.buckets[BucketOf(s.global - 2)].pending
  {
    var b := BucketOf(s.global - 2);
    if i in s.buckets[b].pending {
      assert IsReserved(s, b, i, s.buckets[b].pending[i]);
      NotDrained(s, s.buckets[b].pending[i]);
    }
  }

  lemma ReserveBuckets(s: State, t: Tid, s2: State)
    requires |s.buckets| == 3 && BucketsOk(s) && Enabled(s, Reserve(t)) && s2 == Next(s, Reserve(t))
    ensures BucketsOk(s2)
  {
    assert s2.limbo == s.limbo && s2.global == s.global && s2.col == s.col;
    forall b: nat, i: nat | b < 3 && Freed(s2, b) <= i < s2.buckets[b].next && i !in s2.buckets[b].pending
      ensures EntryOk(s2, b, i)
    {
      assert s2.buckets[b].slots == s.buckets[b].slots;
      assert EntryOk(s, b, i);
    }
  }

  lemma ReserveDrain(s: State, t: Tid, s2: State)
    requires |s.buckets| == 3 && DrainOk(s) && Enabled(s, Reserve(t)) && s2 == Next(s, Reserve(t))
    requires BucketOf(s.threads[t].pc.r) != BucketOf(s.global - 2)
    ensures DrainOk(s2)
  {
  }

  lemma ReservePending(s: State, t: Tid, s2: State)
    requires |s.buckets| == 3 && PendingOk(s) && Enabled(s, Reserve(t)) && s2 == Next(s, Reserve(t))
    ensures PendingOk(s2)
  {
    forall b: nat, i: nat | b < 3 && i in s2.buckets[b].pending ensures IsReserved(s2, b, i, s2.buckets[b].pending[i]) {
      if i in s.buckets[b].pending { assert IsReserved(s, b, i, s.buckets[b].pending[i]); }
    }
  }

  lemma ReserveThread(s: State, t: Tid, u: Tid)
    requires Inv(s) && Enabled(s, Reserve(t)) && IsThread(s, u)
    ensures ThreadOk(Next(s, Reserve(t)), u)
  {
    assert ThreadOk(s, u);
  }

  lemma ReserveKeepsInv(s: State, t: Tid)
    requires Inv(s) && Enabled(s, Reserve(t))
    ensures Inv(Next(s, Reserve(t)))
  {
    NotDrained(s, t);
    ReserveBuckets(s, t, Next(s, Reserve(t)));
    ReserveDrain(s, t, Next(s, Reserve(t)));
    ReservePending(s, t, Next(s, Reserve(t)));
    forall u | 0 <= u < |s.threads| ensures ThreadOk(Next(s, Reserve(t)), u) {
      ReserveThread(s, t, u);
    }
  }

  lemma PutOther(s: State, t: Tid, u: Tid)
    requires Inv(s) && Enabled(s, Put(t)) && IsThread(s, u) && u != t
    ensures ThreadOk(Next(s, Put(t)), u)
  {
    assert ThreadOk(s, t) && ThreadOk(s, u);
    var x := s.threads[t].pc.todo[0];
    assert s.limbo[x].at == Todo(t);
  }

  lemma PutBuckets(s: State, t: Tid)
    requires Inv(s) && Enabled(s, Put(t))
    ensures BucketsOk(Next(s, Put(t))) && PendingOk(Next(s, Put(t))) && RootOk(Next(s, Put(t)))
  {
    var s2 := Next(s, Put(t));
    var pc := s.threads[t].pc;
    var x := pc.todo[0];
    assert ThreadOk(s, t);
    NotDrained(s, t);
    assert x in s.limbo && s.limbo[x].at == Todo(t);
    forall b: nat, i: nat | b < 3 && Freed(s2, b) <= i < s2.buckets[b].next && i !in s2.buckets[b].pending
      ensures EntryOk(s2, b, i)
    {
      if !(b == BucketOf(pc.r) && i == pc.slot.value) {
        assert EntryOk(s, b, i);
      }
    }
    forall b: nat, i: nat | b < 3 && i in s2.buckets[b].pending ensures IsReserved(s2, b, i, s2.buckets[b].pending[i]) {
      assert IsReserved(s, b, i, s.buckets[b].pending[i]);
    }
  }

  lemma PutSelf(s: State, t: Tid)
    requires Inv(s) && Enabled(s, Put(t))
    ensures ThreadOk(Next(s, Put(t)), t)
  {
    var s2 := Next(s, Put(t));
    assert ThreadOk(s, t);
    var todo := s.threads[t].pc.todo;
    assert TodoOk(s2, t, todo[1..], s.threads[t].pc.r) by {
      forall k | 0 <= k < |todo[1..]| ensures todo[1..][k] == todo[k + 1] && todo[k + 1] != todo[0] {
      }
    }
  }

  lemma PutRest(s: State, t: Tid)
    requires |s.buckets| == 3 && ScanOk(s) && DrainOk(s) && PrivateOk(s) && Enabled(s, Put(t))
    ensures ScanOk(Next(s, Put(t))) && DrainOk(Next(s, Put(t))) && PrivateOk(Next(s, Put(t)))
  {
    var s2 := Next(s, Put(t));
    assert forall u :: 0 <= u < |s.threads| ==> Allocs(s2.threads[u].pc) == Allocs(s.threads[u].pc);
    assert forall u :: 0 <= u < |s.threads| ==> Held(s2.threads[u].pc) == Held(s.threads[u].pc);
  }

  lemma PutKeepsInv(s: State, t: Tid)
    requires Inv(s) && Enabled(s, Put(t))
    ensures Inv(Next(s, Put(t)))
  {
    PutBuckets(s, t);
    PutRest(s, t);
    forall u | 0 <= u < |s.threads| ensures ThreadOk(Next(s, Put(t)), u) {
      if u != t { PutOther(s, t, u); } else { PutSelf(s, t); }
    }
  }

  // The collector's own position does not matter to the threads.
  lemma PositionKept(s: State, col: Collector)
    requires Inv(s)
    ensures forall u :: 0 <= u < |s.threads| ==> ThreadOk(s.(col := col), u)
    ensures PendingOk(s.(col := col)) && PrivateOk(s.(col := col)) && RootOk(s.(col := col))
  {
    forall u | 0 <= u < |s.threads| ensures ThreadOk(s.(col := col), u) {
      assert ThreadOk(s, u);
    }
    forall b: nat, i: nat | b < 3 && i in s.buckets[b].pending
      ensures IsReserved(s.(col := col), b, i, s.buckets[b].pending[i])
    {
      assert IsReserved(s, b, i, s.buckets[b].pending[i]);
    }
  }

  // Moving on in the scan, or giving up: a thread is passed when it is not active, or when the counter
  // read for it is the current epoch, in which case what it has pinned or will pin is current too.
  lemma ScanKeepsInv(s: State)
    requires Inv(s) && !s.col.Drain? && !(s.col.ReadUse? && s.col.i == |s.threads|)
    ensures Inv(CollectNext(s))
  {
    PositionKept(s, CollectNext(s).col);
    ScanKeepsBuckets(s);
    if Passed(CollectNext(s).col) > Passed(s.col) {
      assert ThreadOk(s, Passed(s.col));
    }
  }

  lemma ScanKeepsBuckets(s: State)
    requires |s.buckets| == 3 && BucketsOk(s) && DrainOk(s)
    requires !s.col.Drain? && !(s.col.ReadUse? && s.col.i >= |s.threads|)
    ensures BucketsOk(CollectNext(s)) && DrainOk(CollectNext(s))
  {
    var s2 := CollectNext(s);
    forall b: nat, i: nat | b < 3 && Freed(s2, b) <= i < s2.buckets[b].next && i !in s2.buckets[b].pending
      ensures EntryOk(s2, b, i)
    {
      assert EntryOk(s, b, i);
    }
  }

  // Everyone pinned is at the current epoch, so the epoch may advance; the bucket of two epochs ago
  // was empty and is relabelled as the bucket of the new one.
  lemma AdvanceKeepsInv(s: State)
    requires Inv(s) && s.col.ReadUse? && s.col.i == |s.threads|
    ensures Inv(CollectNext(s))
  {
    AdvanceBuckets(s);
    forall u | 0 <= u < |s.threads| ensures ThreadOk(CollectNext(s), u) {
      AdvanceThread(s, u);
    }
  }

  lemma AdvanceThread(s: State, u: Tid)
    requires Inv(s) && s.col.ReadUse? && s.col.i == |s.threads| && IsThread(s, u)
    ensures ThreadOk(CollectNext(s), u)
  {
    assert ThreadOk(s, u);
  }

  lemma AdvanceBuckets(s: State)
    requires |s.buckets| == 3 && BucketsOk(s) && PendingOk(s) && DrainOk(s)
    requires s.col.ReadUse? && s.col.i == |s.threads|
    ensures BucketsOk(CollectNext(s)) && PendingOk(CollectNext(s)) && DrainOk(CollectNext(s))
  {
    var s2 := CollectNext(s);
    forall b: nat, i: nat | b < 3 && Freed(s2, b) <= i < s2.buckets[b].next && i !in s2.buckets[b].pending
      ensures EntryOk(s2, b, i)
    {
      assert EntryOk(s, b, i);
      Labels(s.global, Label(s.global, b));
    }
  }

  // The address about to be freed was retired two epochs ago, and is where the scheme left it.
  lemma FreeVictim(s: State) returns (x: Ptr)
    requires Inv(s) && s.col.Drain? && s.col.i < s.col.count
    ensures s.col.i in s.buckets[BucketOf(s.col.f)].slots && x == s.buckets[BucketOf(s.col.f)].slots[s.col.i]
    ensures x in s.limbo && s.limbo[x].at == Slot(BucketOf(s.col.f), s.col.i) && s.limbo[x].stamp <= s.global - 2
  {
    DrainedHasNoPending(s, s.col.i);
    x := DrainedEntry(s);
  }

  lemma DrainedEntry(s: State) returns (x: Ptr)
    requires |s.buckets| == 3 && BucketsOk(s) && DrainOk(s) && s.col.Drain? && s.col.i < s.col.count
    requires s.col.i !in s.buckets[BucketOf(s.global - 2)].pending
    ensures s.col.i in s.buckets[BucketOf(s.col.f)].slots && x == s.buckets[BucketOf(s.col.f)].slots[s.col.i]
    ensures x in s.limbo && s.limbo[x].at == Slot(BucketOf(s.col.f), s.col.i) && s.limbo[x].stamp <= s.global - 2
  {
    assert EntryOk(s, BucketOf(s.col.f), s.col.i);
    Labels(s.global, s.global - 2);
    x := s.buckets[BucketOf(s.col.f)].slots[s.col.i];
  }

  // Nobody who is still active can hold it.
  lemma NotHeld(s: State, x: Ptr, t: Tid)
    requires Inv(s) && x in s.limbo && s.limbo[x].stamp <= s.global - 2 && IsThread(s, t)
    ensures x !in Held(s.threads[t].pc) && x !in Allocs(s.threads[t].pc)
  {
    assert ThreadOk(s, t);
  }

  lemma FreeKeepsInv(s: State)
    requires Inv(s) && s.col.Drain? && s.col.i < s.col.count
    ensures Inv(CollectNext(s))
  {
    var s2 := CollectNext(s);
    var x := FreeVictim(s);
    forall b: nat, i: nat | b < 3 && Freed(s2, b) <= i < s2.buckets[b].next && i !in s2.buckets[b].pending
      ensures EntryOk(s2, b, i)
    {
      assert EntryOk(s, b, i);
    }
    forall u | 0 <= u < |s.threads| ensures ThreadOk(s2, u) {
      assert ThreadOk(s, u);
      NotHeld(s, x, u);
    }
  }

  lemma DrainedKeepsInv(s: State)
    requires Inv(s) && s.col.Drain? && s.col.i == s.col.count
    ensures Inv(CollectNext(s))
  {
    var s2 := CollectNext(s);
    forall b: nat, i: nat | b < 3 && Freed(s2, b) <= i < s2.buckets[b].next && i !in s2.buckets[b].pending
      ensures EntryOk(s2, b, i)
    {
      assert EntryOk(s, b, i);
    }
    forall u | 0 <= u < |s.threads| ensures ThreadOk(s2, u) {
      assert ThreadOk(s, u);
    }
  }

  lemma CollectKeepsInv(s: State)
    requires Inv(s)
    ensures Inv(CollectNext(s))
  {
    if s.col.Drain? {
      if s.col.i < s.col.count { FreeKeepsInv(s); } else { DrainedKeepsInv(s); }
    } else if s.col.ReadUse? && s.col.i == |s.threads| {
      AdvanceKeepsInv(s);
    } else {
      ScanKeepsInv(s);
    }
  }

  lemma StepKeepsInv(s: State, a: Action)
    requires Inv(s) && Enabled(s, a)
    ensures Inv(Next(s, a))
  {
    match a
    case Collect => CollectKeepsInv(s);
    case Cas(t, newRoot, newFoot) => CasKeepsInv(s, t, newRoot, newFoot);
    case CasFails(_) =>
    case Reserve(t) => ReserveKeepsInv(s, t);
    case Put(t) => PutKeepsInv(s, t);
    case ReadRoot(_) => WorkKeepsInv(s, a);
    case ReadAgain(_) => WorkKeepsInv(s, a);
    case EpochAlloc(_, _) => WorkKeepsInv(s, a);
    case EpochFree(_, _) => WorkKeepsInv(s, a);
    case EpochReset(_) => WorkKeepsInv(s, a);
    case End(_) => EndKeepsInv(s, a);
    case ChooseBucket(_) => EndKeepsInv(s, a);
    case Deactivate(_) => EndKeepsInv(s, a);
    case Activate(_) => BeginKeepsInv(s, a);
    case LoadEpoch(_) => BeginKeepsInv(s, a);
    case StoreEpoch(_) => BeginKeepsInv(s, a);
    case _ => RegisterKeepsInv(s, a);
  }

  // --- Nothing retired is lost ----------------------------------------------------------------------------

  lemma WorkKeepsParked(s: State, a: Action, x: Ptr)
    requires |s.buckets| == 3 && Enabled(s, a) && x in s.limbo && ParkedOk(s, x)
    requires !a.Collect? && !a.Cas? && !a.Put? && !a.ChooseBucket? && !a.Reserve? && !a.Deactivate?
    ensures ParkedOk(Next(s, a), x)
  {
    var s2 := Next(s, a);
    assert s2.limbo == s.limbo && s2.buckets == s.buckets && s2.col == s.col;
    assert forall u :: 0 <= u < |s.threads| && u != a.t ==> s2.threads[u] == s.threads[u];
    assert !s.threads[a.t].pc.Ending? && !s.threads[a.t].pc.Retiring?;
  }

  lemma RetireKeepsParked(s: State, a: Action, x: Ptr)
    requires |s.buckets| == 3 && Enabled(s, a) && x in s.limbo && ParkedOk(s, x)
    requires a.ChooseBucket? || a.Deactivate?
    ensures ParkedOk(Next(s, a), x)
  {
  }

  lemma ReserveKeepsParked(s: State, t: Tid, x: Ptr)
    requires |s.buckets| == 3 && Enabled(s, Reserve(t)) && x in s.limbo && ParkedOk(s, x)
    ensures ParkedOk(Next(s, Reserve(t)), x)
  {
  }

  lemma PutKeepsParked(s: State, t: Tid, x: Ptr)
    requires |s.buckets| == 3 && IsThread(s, t) && ThreadOk(s, t) && DrainOk(s) && Enabled(s, Put(t))
    requires BucketOf(s.threads[t].pc.r) != BucketOf(s.global - 2) && x in s.limbo && ParkedOk(s, x)
    ensures x in Next(s, Put(t)).limbo && ParkedOk(Next(s, Put(t)), x)
  {
    var s2 := Next(s, Put(t));
    var pc := s.threads[t].pc;
    assert pc.todo[0] in s.limbo && s.limbo[pc.todo[0]].at == Todo(t);
    if x != pc.todo[0] && s.limbo[x].at == Todo(t) {
      assert x in pc.todo[1..];
    }
  }

  lemma CasKeepsParked(s: State, t: Tid, newRoot: Ptr, newFoot: set<Ptr>, x: Ptr)
    requires Inv(s) && LimboOk(s) && Enabled(s, Cas(t, newRoot, newFoot))
    requires x in Next(s, Cas(t, newRoot, newFoot)).limbo
    ensures ParkedOk(Next(s, Cas(t, newRoot, newFoot)), x)
  {
    assert ThreadOk(s, t);
    if x in s.limbo {
      assert ParkedOk(s, x);
    }
  }

  lemma ScanKeepsParked(s: State, x: Ptr)
    requires |s.buckets| == 3 && DrainOk(s) && x in s.limbo && ParkedOk(s, x) && !s.col.Drain?
    ensures x in CollectNext(s).limbo && ParkedOk(CollectNext(s), x)
  {
  }

  lemma DrainKeepsParked(s: State, x: Ptr)
    requires |s.buckets| == 3 && DrainOk(s) && x in s.limbo && ParkedOk(s, x)
    requires x in CollectNext(s).limbo && s.col.Drain?
    ensures ParkedOk(CollectNext(s), x)
  {
  }

  lemma CollectKeepsParked(s: State, x: Ptr)
    requires Inv(s) && LimboOk(s) && x in CollectNext(s).limbo
    ensures ParkedOk(CollectNext(s), x)
  {
    assert ParkedOk(s, x);
    if s.col.Drain? { DrainKeepsParked(s, x); } else { ScanKeepsParked(s, x); }
  }

  lemma RetiringKeepsParked(s: State, a: Action, x: Ptr)
    requires Inv(s) && LimboOk(s) && Enabled(s, a) && x in s.limbo
    requires a.Put? || a.ChooseBucket? || a.Reserve? || a.Deactivate?
    ensures x in Next(s, a).limbo && ParkedOk(Next(s, a), x)
  {
    if a.Put? {
      assert ThreadOk(s, a.t);
      NotDrained(s, a.t);
      PutKeepsParked(s, a.t, x);
    } else if a.Reserve? {
      ReserveKeepsParked(s, a.t, x);
    } else {
      RetireKeepsParked(s, a, x);
    }
  }

  lemma StepKeepsParked(s: State, a: Action, x: Ptr)
    requires Inv(s) && LimboOk(s) && Enabled(s, a) && x in Next(s, a).limbo
    ensures ParkedOk(Next(s, a), x)
  {
    if a.Collect? {
      CollectKeepsParked(s, x);
    } else if a.Cas? {
      CasKeepsParked(s, a.t, a.newRoot, a.newFoot, x);
    } else if a.Put? || a.ChooseBucket? || a.Reserve? || a.Deactivate? {
      RetiringKeepsParked(s, a, x);
    } else {
      assert x in s.limbo;
      assert ParkedOk(s, x);
      WorkKeepsParked(s, a, x);
    }
  }

  lemma StepKeepsLimbo(s: State, a: Action)
    requires Inv(s) && LimboOk(s) && Enabled(s, a)
    ensures Inv(Next(s, a)) && LimboOk(Next(s, a))
  {
    StepKeepsInv(s, a);
    forall x | x in Next(s, a).limbo ensures ParkedOk(Next(s, a), x) {
      StepKeepsParked(s, a, x);
    }
  }

  // --- Over whole runs --------------------------------------------------------------------------------------

  ghost predicate Leads(s: State, acts: seq<Action>, s2: State)
    decreases |acts|
  {
    if acts == [] then s2 == s
    else |s.buckets| == 3 && Enabled(s, acts[0]) && Leads(Next(s, acts[0]), acts[1..], s2)
  }

  lemma {:induction false} RunKeepsInv(s: State, acts: seq<Action>, s2: State)
    requires Inv(s) && LimboOk(s) && Leads(s, acts, s2)
    ensures Inv(s2) && LimboOk(s2)
    decreases |acts|
  {
    if acts != [] {
      StepKeepsLimbo(s, acts[0]);
      RunKeepsInv(Next(s, acts[0]), acts[1..], s2);
    }
  }

  // In every interleaving, an active thread is at most one epoch behind, everything it holds or can
  // still reach from the roots it read is in memory, and a thread's compare-and-swap of the root can
  // succeed only if the structure is the one it read and built from, in one read or two.
  lemma NoUseAfterFree(n: nat, root: Ptr, acts: seq<Action>, s: State, t: Tid)
    requires root != NULL && Leads(Init(n, root), acts, s) && IsThread(s, t)
    ensures var pc := s.threads[t].pc;
            && (Pinned(pc) ==> pc.g <= s.global <= pc.g + 1)
            && Held(pc) + Allocs(pc) + s.rootFoot <= s.heap
            && (pc.Inside? ==> pc.work.snapFoot + pc.work.baseFoot <= Held(pc))
            && (pc.Inside? && pc.work.snap == s.root ==> pc.work.snapFoot == s.rootFoot && pc.work.baseFoot == s.rootFoot)
  {
    InitInv(n, root);
    RunKeepsInv(Init(n, root), acts, s);
    assert ThreadOk(s, t);
  }

  // In every interleaving, what the collector frees is in memory (so it is freed only once), was
  // retired at least two epochs ago, is not reachable from the root, and is neither held, nor being
  // built with, nor waiting to be retired by any thread.
  lemma FreesOnlyGarbage(n: nat, root: Ptr, acts: seq<Action>, s: State, t: Tid) returns (x: Ptr)
    requires root != NULL && Leads(Init(n, root), acts, s) && IsThread(s, t)
    requires s.col.Drain? && s.col.i < s.col.count
    ensures |s.buckets| == 3 && CollectNext(s).heap == s.heap - {x} && x in s.heap
    ensures x in s.limbo && s.limbo[x].stamp <= s.global - 2
    ensures x !in s.rootFoot && x !in Held(s.threads[t].pc) && x !in Allocs(s.threads[t].pc)
    ensures s.threads[t].pc.Ending? || s.threads[t].pc.Retiring? ==> x !in s.threads[t].pc.todo
  {
    InitInv(n, root);
    RunKeepsInv(Init(n, root), acts, s);
    x := FreeVictim(s);
    NotHeld(s, x, t);
    assert ThreadOk(s, t);
  }

  // In every interleaving, a retired address stays on its thread's list or in the part of its bucket
  // that is still to be freed, until it is freed.
  lemma GarbageIsKept(n: nat, root: Ptr, acts: seq<Action>, s: State, x: Ptr)
    requires root != NULL && Leads(Init(n, root), acts, s) && x in s.limbo
    ensures |s.buckets| == 3 && ParkedOk(s, x) && x in s.heap && x !in s.rootFoot
  {
    InitInv(n, root);
    RunKeepsInv(Init(n, root), acts, s);
  }

  // epochReset leaves the structure, what is retired and what others hold in memory.
  ghost predicate Undone(s: State, t: Tid, s2: State, u: Tid)
    requires IsThread(s, t) && IsThread(s2, t) && IsThread(s2, u)
  {
    && s2.root == s.root && s2.rootFoot == s.rootFoot && s.rootFoot <= s2.heap
    && Allocs(s.threads[t].pc) <= s.heap && s2.heap == s.heap - Allocs(s.threads[t].pc)
    && Allocs(s2.threads[t].pc) == {} && s2.threads[t].pc.Inside? && s2.threads[t].pc.work.frees == []
    && Held(s2.threads[u].pc) + Allocs(s2.threads[u].pc) <= s2.heap
    && s2.limbo == s.limbo && s.limbo.Keys <= s2.heap
  }

  lemma ResetUndoes(s: State, t: Tid, u: Tid)
    requires |s.buckets| == 3 && RootOk(s) && Enabled(s, EpochReset(t)) && IsThread(s, u)
    requires ThreadOk(s, t) && ThreadOk(Next(s, EpochReset(t)), u)
    ensures Undone(s, t, Next(s, EpochReset(t)), u)
  {
  }

  lemma ResetKeepsThread(s: State, t: Tid, u: Tid)
    requires Inv(s) && Enabled(s, EpochReset(t)) && IsThread(s, u)
    ensures ThreadOk(s, t) && ThreadOk(Next(s, EpochReset(t)), u)
  {
    WorkKeepsInv(s, EpochReset(t));
    var s2 := Next(s, EpochReset(t));
    assert IsThread(s2, u);
  }

  // A compare-and-swap that fails, because the root changed or for no reason, changes nothing.
  lemma FailedSwapStays(s: State, t: Tid, newRoot: Ptr, newFoot: set<Ptr>)
    requires |s.buckets| == 3 && Enabled(s, Cas(t, newRoot, newFoot))
    ensures Enabled(s, CasFails(t)) && Next(s, CasFails(t)) == s
    ensures s.root != s.threads[t].pc.work.snap ==> Next(s, Cas(t, newRoot, newFoot)) == s
  {
  }

  // In every interleaving, the epochReset after a failed attempt leaves the structure as it was, frees
  // each allocation of the attempt once (it is in memory and nobody else's), and takes nothing from under
  // any thread.
  lemma FailedSwapUndone(n: nat, root: Ptr, acts: seq<Action>, s: State, t: Tid, u: Tid)
    requires root != NULL && Leads(Init(n, root), acts, s) && |s.buckets| == 3
    requires IsThread(s, t) && s.threads[t].pc.Inside? && IsThread(s, u)
    ensures Undone(s, t, Next(s, EpochReset(t)), u)
  {
    InitInv(n, root);
    RunKeepsInv(Init(n, root), acts, s);
    ResetKeepsThread(s, t, u);
    ResetUndoes(s, t, u);
  }

  // --- Collection happens ------------------------------------------------------------------------------------

  lemma LeadsStep(s: State, a: Action, acts: seq<Action>, s2: State)
    requires |s.buckets| == 3 && Enabled(s, a) && Leads(Next(s, a), acts, s2)
    ensures Leads(s, [a] + acts, s2)
  {
    assert ([a] + acts)[1..] == acts;
  }

  // n steps of the collector, and nothing else.
  function CollectTimes(s: State, n: nat): (s2: State)
    requires |s.buckets| == 3
    ensures |s2.buckets| == 3
    decreases n
  {
    if n == 0 then s else CollectTimes(CollectNext(s), n - 1)
  }

  lemma {:induction false} CollectMore(s: State, a: nat, b: nat)
    requires |s.buckets| == 3
    ensures CollectTimes(s, a + b) == CollectTimes(CollectTimes(s, a), b)
    decreases a
  {
    if a > 0 {
      CollectMore(CollectNext(s), a - 1, b);
    }
  }

  // They are a run, and keep the invariant.
  lemma {:induction false} CollectLeads(s: State, n: nat)
    requires Inv(s) && LimboOk(s)
    ensures Leads(s, seq(n, _ => Collect), CollectTimes(s, n))
    ensures Inv(CollectTimes(s, n)) && LimboOk(CollectTimes(s, n))
    decreases n
  {
    if n > 0 {
      StepKeepsLimbo(s, Collect);
      CollectLeads(CollectNext(s), n - 1);
      LeadsStep(s, Collect, seq(n - 1, _ => Collect), CollectTimes(s, n));
      assert seq(n, _ => Collect) == [Collect] + seq(n - 1, _ => Collect);
    }
  }

  // Every thread in an epoch is in the current one.
  predicate AllCurrent(s: State) {
    forall t :: 0 <= t < |s.threads| && s.threads[t].inUse && s.threads[t].active ==> s.threads[t].counter == s.global
  }

  // Left alone, a scan that meets only current threads advances the epoch.
  lemma ScanAdvances(s: State, i: nat) returns (n: nat)
    requires |s.buckets| == 3 && i <= |s.threads| && s.col == ReadUse(i) && AllCurrent(s)
    ensures CollectTimes(s, n) == s.(global := s.global + 1, col := ReadCount(s.global - 1))
    decreases |s.threads| - i
  {
    if i == |s.threads| {
      n := 1;
      assert CollectTimes(s, 1) == CollectTimes(CollectNext(s), 0);
    } else {
      var steps := PassOne(s, i);
      n := ScanAdvances(s.(col := ReadUse(i + 1)), i + 1);
      CollectMore(s, steps, n);
      n := steps + n;
    }
  }

  lemma PassOne(s: State, i: nat) returns (n: nat)
    requires |s.buckets| == 3 && i < |s.threads| && s.col == ReadUse(i) && AllCurrent(s)
    ensures CollectTimes(s, n) == s.(col := ReadUse(i + 1))
  {
    var th := s.threads[i];
    var s1 := CollectNext(s);
    if !th.inUse {
      n := 1;
      assert CollectTimes(s1, 0) == s1;
    } else {
      var s2 := CollectNext(s1);
      if !th.active {
        n := 2;
        assert CollectTimes(s2, 0) == s2 && CollectTimes(s1, 1) == s2;
      } else {
        var s3 := CollectNext(s2);
        n := 3;
        assert CollectTimes(s3, 0) == s3 && CollectTimes(s2, 1) == s3 && CollectTimes(s1, 2) == s3;
      }
    }
  }

  // What a drain from entry i on leaves.
  ghost predicate Drained(s: State, b: nat, i: nat, count: nat, s2: State)
    requires |s.buckets| == 3 && b < 3
  {
    && |s2.buckets| == 3 && s2.col == Idle && s2.global == s.global && s2.threads == s.threads
    && s2.heap <= s.heap && s2.limbo.Keys <= s.limbo.Keys && (forall x :: x in s2.limbo ==> s2.limbo[x] == s.limbo[x])
    && (forall j :: i <= j < count && j in s.buckets[b].slots ==>
          s.buckets[b].slots[j] !in s2.heap && s.buckets[b].slots[j] !in s2.limbo)
  }

  // Left alone, the drain frees every entry of its bucket.
  lemma DrainFrees(s: State, f: int, count: nat, i: nat) returns (n: nat)
    requires |s.buckets| == 3 && s.col == Drain(f, count, i) && i <= count
    ensures Drained(s, BucketOf(f), i, count, CollectTimes(s, n))
    decreases count - i
  {
    var s1 := CollectNext(s);
    if i < count {
      n := DrainFrees(s1, f, count, i + 1);
      n := n + 1;
    } else {
      n := 1;
      assert CollectTimes(s1, 0) == s1;
    }
  }

  // An address parked in the bucket of epoch e.
  predicate ParkedIn(s: State, e: int, x: Ptr) {
    x in s.limbo && s.limbo[x].at.Slot? && s.limbo[x].at.b == BucketOf(e)
  }

  // What a round of the collector comes to: the epoch is one further, and all that was parked in the bucket of
  // the epoch before is freed.
  ghost predicate Round(s: State, s2: State) {
    && s2.col == Idle && s2.global == s.global + 1 && s2.threads == s.threads
    && (forall x :: x in s2.limbo ==> x in s.limbo && s2.limbo[x] == s.limbo[x])
    && (forall x :: ParkedIn(s, s.global - 1, x) ==> x !in s2.heap && x !in s2.limbo)
  }

  lemma DrainedRound(s: State, s3: State, s2: State)
    requires |s.buckets| == 3 && DrainOk(s) && s.col == Idle && s3 == s.(global := s.global + 1, col := s3.col)
    requires Drained(s3, BucketOf(s.global - 1), 0, s.buckets[BucketOf(s.global - 1)].next, s2)
    requires forall x :: x in s.limbo ==> ParkedOk(s, x)
    ensures Round(s, s2)
  {
    forall x | ParkedIn(s, s.global - 1, x) ensures x !in s2.heap && x !in s2.limbo {
      assert ParkedOk(s, x);
    }
  }

  // From the advance on.
  lemma DrainCompletes(s: State) returns (n: nat)
    requires |s.buckets| == 3 && DrainOk(s) && s.col == Idle && forall x :: x in s.limbo ==> ParkedOk(s, x)
    ensures Round(s, CollectTimes(s.(global := s.global + 1, col := ReadCount(s.global - 1)), n))
  {
    var f := s.global - 1;
    var s3 := s.(global := s.global + 1, col := ReadCount(f));
    var s4 := CollectNext(s3);
    n := DrainFrees(s4, f, s.buckets[BucketOf(f)].next, 0);
    DrainedRound(s, s4, CollectTimes(s4, n));
    n := n + 1;
  }

  // Left alone while every thread in an epoch is in the current one, the collector completes a round.
  lemma CollectionCompletes(s: State) returns (n: nat)
    requires Inv(s) && LimboOk(s) && s.col == Idle && AllCurrent(s)
    ensures Round(s, CollectTimes(s, n)) && Inv(CollectTimes(s, n)) && LimboOk(CollectTimes(s, n))
  {
    var s1 := CollectNext(s);
    var scan := ScanAdvances(s1, 0);
    var drain := DrainCompletes(s);
    CollectMore(s1, scan, drain);
    n := 1 + (scan + drain);
    CollectLeads(s, n);
  }

  // In every run.
  lemma CollectorWorks(threads: nat, root: Ptr, before: seq<Action>, s: State) returns (n: nat)
    requires root != NULL && Leads(Init(threads, root), before, s) && |s.buckets| == 3 && s.col == Idle && AllCurrent(s)
    ensures Leads(s, seq(n, _ => Collect), CollectTimes(s, n)) && Round(s, CollectTimes(s, n))
  {
    InitInv(threads, root);
    RunKeepsInv(Init(threads, root), before, s);
    n := CollectionCompletes(s);
    CollectLeads(s, n);
  }

  // Left alone with no thread in an epoch, three rounds of the collector free everything that is retired.
  lemma ThreeRoundsFreeAll(s: State) returns (n: nat)
    requires Inv(s) && LimboOk(s) && s.col == Idle && forall t :: 0 <= t < |s.threads| ==> !s.threads[t].active
    ensures CollectTimes(s, n).col == Idle && CollectTimes(s, n).limbo.Keys == {}
  {
    var a := CollectionCompletes(s);
    var s1 := CollectTimes(s, a);
    var b := CollectionCompletes(s1);
    var s3 := CollectTimes(s1, b);
    var c := CollectionCompletes(s3);
    CollectMore(s, a, b);
    CollectMore(s, a + b, c);
    n := a + b + c;
    AllClocks(s);
    forall x ensures x !in CollectTimes(s3, c).limbo {
      if x in s3.limbo {
        assert ParkedOk(s, x);
        NotParkedLong(s, s1, s3, x);
      }
    }
  }

  // What is there after two rounds was parked in the third bucket.
  lemma NotParkedLong(s: State, s1: State, s3: State, x: Ptr)
    requires |s.buckets| == 3 && x in s3.limbo && Round(s, s1) && Round(s1, s3) && ParkedOk(s, x)
    requires forall t :: 0 <= t < |s.threads| ==> ClockOk(s, s.threads[t]) && !s.threads[t].active
    ensures ParkedIn(s3, s3.global - 1, x)
  {
    assert x in s1.limbo && x in s.limbo;
    ParkedSomewhere(s, x);
    assert ParkedIn(s, s.global, x) ==> ParkedIn(s1, s1.global - 1, x);
  }

  lemma AllClocks(s: State)
    requires Inv(s)
    ensures forall t :: 0 <= t < |s.threads| ==> ClockOk(s, s.threads[t])
  {
    forall t | 0 <= t < |s.threads| ensures ClockOk(s, s.threads[t]) {
      assert ThreadOk(s, t);
    }
  }

  lemma BucketsCover(global: int, b: nat)
    requires b < 3
    ensures b == BucketOf(global - 1) || b == BucketOf(global) || b == BucketOf(global + 1)
  {
  }

  // With no thread in an epoch, what is retired is in one of the three buckets.
  lemma ParkedSomewhere(s: State, x: Ptr)
    requires |s.buckets| == 3 && x in s.limbo && ParkedOk(s, x)
    requires forall t :: 0 <= t < |s.threads| ==> ClockOk(s, s.threads[t]) && !s.threads[t].active
    ensures ParkedIn(s, s.global - 1, x) || ParkedIn(s, s.global, x) || ParkedIn(s, s.global + 1, x)
  {
    if s.limbo[x].at.Slot? {
      BucketsCover(s.global, s.limbo[x].at.b);
    }
  }

  // The steps of t alone.
  ghost predicate OnlySteps(acts: seq<Action>, t: Tid) {
    forall a :: a in acts ==> !a.Collect? && a.t == t
  }

  // What epochEnd leaves of the retired addresses: those of t are in the bucket of epoch r.
  ghost predicate Handed(s: State, todo: seq<Ptr>, r: int, s2: State) {
    && s2.limbo.Keys == s.limbo.Keys
    && (forall x :: x in s.limbo && x !in todo ==> s2.limbo[x] == s.limbo[x])
    && (forall x :: x in s.limbo && x in todo ==> s2.limbo[x].at.Slot? && s2.limbo[x].at.b == BucketOf(r))
  }

  lemma RetiresAll(s: State, t: Tid) returns (acts: seq<Action>, s2: State)
    requires |s.buckets| == 3 && IsThread(s, t) && s.threads[t].pc.Retiring? && s.threads[t].pc.slot.None?
    ensures OnlySteps(acts, t) && Leads(s, acts, s2) && |s2.buckets| == 3 && s2.global == s.global
    ensures IsThread(s2, t) && s2.threads[t].pc.Outside? && !s2.threads[t].active
    ensures Handed(s, s.threads[t].pc.todo, s.threads[t].pc.r, s2)
    decreases |s.threads[t].pc.todo|
  {
    if s.threads[t].pc.todo == [] {
      s2 := Next(s, Deactivate(t));
      LeadsStep(s, Deactivate(t), [], s2);
      acts := [Deactivate(t)] + [];
    } else {
      var s1 := Next(s, Reserve(t));
      var s3 := Next(s1, Put(t));
      var todo := s.threads[t].pc.todo;
      assert s3.threads[t].pc.todo == todo[1..];
      acts, s2 := RetiresAll(s3, t);
      LeadsStep(s1, Put(t), acts, s2);
      LeadsStep(s, Reserve(t), [Put(t)] + acts, s2);
      acts := [Reserve(t)] + ([Put(t)] + acts);
      assert forall x :: x in todo <==> x == todo[0] || x in todo[1..];
    }
  }

  // Left alone, a thread that has swapped the root ends its operation, and all it retired is in the bucket of
  // the current epoch.
  lemma OperationEnds(s: State, t: Tid) returns (acts: seq<Action>, s2: State)
    requires |s.buckets| == 3 && IsThread(s, t) && s.threads[t].pc.Ending?
    ensures OnlySteps(acts, t) && Leads(s, acts, s2)
    ensures IsThread(s2, t) && s2.threads[t].pc.Outside? && !s2.threads[t].active
    ensures Handed(s, s.threads[t].pc.todo, s.global, s2)
  {
    var s1 := Next(s, ChooseBucket(t));
    acts, s2 := RetiresAll(s1, t);
    LeadsStep(s, ChooseBucket(t), acts, s2);
    acts := [ChooseBucket(t)] + acts;
  }

  // The collector gives up a scan only at a thread whose counter is not the current epoch, ...
  lemma GivesUpOnlyAt(s: State)
    requires Inv(s) && (s.col.ReadUse? || s.col.ReadActive? || s.col.ReadCounter?) && CollectNext(s).col == Idle
    ensures s.col.ReadCounter? && IsThread(s, s.col.i) && s.threads[s.col.i].counter != s.global
    ensures CollectNext(s).global == s.global
  {
  }

  // ... and only after it has seen that thread in use and then active, ...
  lemma {:induction false} SawActive(s: State, acts: seq<Action>, s2: State, i: nat) returns (k: nat, s1: State)
    requires Inv(s) && LimboOk(s) && s.col == Idle && Leads(s, acts, s2) && s2.col == ReadCounter(i)
    ensures k < |acts| && acts[k].Collect? && Leads(s, acts[..k], s1)
    ensures s1.col == ReadActive(i) && IsThread(s1, i) && s1.threads[i].active
  {
    k, s1 := LastChange(s, acts, s2, ReadCounter(i));
  }

  lemma {:induction false} SawInUse(s: State, acts: seq<Action>, s2: State, i: nat) returns (k: nat, s1: State)
    requires Inv(s) && LimboOk(s) && s.col == Idle && Leads(s, acts, s2) && s2.col == ReadActive(i)
    ensures k < |acts| && acts[k].Collect? && Leads(s, acts[..k], s1)
    ensures s1.col == ReadUse(i) && IsThread(s1, i) && s1.threads[i].inUse
  {
    k, s1 := LastChange(s, acts, s2, ReadActive(i));
  }

  // The step of the run at which the collector came to be where it is.
  lemma {:induction false} LastChange(s: State, acts: seq<Action>, s2: State, col: Collector) returns (k: nat, s1: State)
    requires Inv(s) && LimboOk(s) && Leads(s, acts, s2) && s.col != col && s2.col == col
    ensures k < |acts| && acts[k].Collect? && Leads(s, acts[..k], s1) && Inv(s1) && CollectNext(s1).col == col && s1.col != col
    decreases |acts|
  {
    var next := Next(s, acts[0]);
    if next.col == col {
      k, s1 := 0, s;
      assert acts[..0] == [];
    } else {
      StepKeepsLimbo(s, acts[0]);
      k, s1 := LastChange(next, acts[1..], s2, col);
      LeadsStep(s, acts[0], acts[1..][..k], s1);
      assert acts[..k + 1] == [acts[0]] + acts[1..][..k];
      k := k + 1;
    }
  }

  // ... and passes a thread only if it saw it unused, inactive or current.
  lemma PassesOnly(s: State, i: nat)
    requires Inv(s) && Passed(s.col) == i && Passed(CollectNext(s).col) == i + 1
    ensures IsThread(s, i)
    ensures (s.col.ReadUse? && !s.threads[i].inUse) || (s.col.ReadActive? && !s.threads[i].active)
         || (s.col.ReadCounter? && s.threads[i].counter == s.global)
  {
  }
}
