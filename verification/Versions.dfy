/**
 The lock-free list of Atomically versions (dbFreshAtomicallyVersionOnKey and
 dbAtomicallyReapAllVersions in db.c): any number of threads push fresh versions and reap old ones.

 The list lives in an explicit heap of nodes.  Each step is one access to the shared head, or one
 access to a node the thread owns.  A freed address may be allocated again at once, so that a
 compare-and-swap may succeed on a head that was freed and reused in between; a weak
 compare-and-swap may fail for no reason.  A version is named by its number, unique in its list.
 */
module Versions {
  import opened Wrappers

  type Node = nat

  datatype Cell = Cell(number: nat, next: Option<Node>)

  // What a reaper is after: versions numbered below the newly converged one (any version when there
  // is none), if asked so only those without anything in flight.
  datatype Query = Query(limit: Option<nat>, onlyConverged: bool)

  datatype Pc =
    | Idle
    // pushing node n: not yet read the head; read it; stored it into n.next
    | PushNew(n: Node)
    | PushRead(n: Node, seen: Option<Node>)
    | PushLinked(n: Node, seen: Option<Node>)
    // swapping the whole list out
    | ReapBegin(q: Query)
    | ReapRead(q: Query, seen: Option<Node>)
    // separating: x is the next node to look at, list the ones kept so far
    | Walk(q: Query, x: Option<Node>, list: Option<Node>)
    | FindTail(front: Node, tail: Node)
    // writing back: not yet read the head; read it; stored it into tail.next
    | Append(front: Node, tail: Node)
    | AppendRead(front: Node, tail: Node, seen: Option<Node>)
    | AppendLinked(front: Node, tail: Node, seen: Option<Node>)

  // One release of a version's root match, with what the reaper went by.
  datatype Release = Release(number: nat, q: Query, inflight: nat)

  datatype Place = Listed | Private(t: nat) | Reaped

  // History only: which nodes make up the shared list and the private lists, in order; and, of the last
  // reap of each thread, what it was after and the versions that were on the list when it swapped it out.
  // No step looks at it.
  datatype Layout = Layout(
    shared: seq<Node>,
    todo: seq<seq<Node>>,
    kept: seq<seq<Node>>,
    owner: map<Node, Place>,
    query: seq<Query>,
    taken: seq<set<nat>>)

  // rooted: the versions whose rootMatch is not NULL.  crashed: a freed node was accessed.
  datatype State = State(
    heap: map<Node, Cell>,
    head: Option<Node>,
    pcs: seq<Pc>,
    nextNumber: nat,
    rooted: set<nat>,
    releases: seq<Release>,
    crashed: bool,
    lay: Layout)

  function Init(threads: nat): State {
    State(map[], None, seq(threads, _ => Idle), 0, {}, [], false,
          Layout([], seq(threads, _ => []), seq(threads, _ => []), map[],
                 seq(threads, _ => Query(None, true)), seq(threads, _ => {})))
  }

  datatype Action =
    | Create(t: nat, n: Node)
    | Reap(t: nat, q: Query)
    // the next access of t; spurious and inflight are what the outside contributes
    | Go(t: nat, spurious: bool, inflight: nat)

  // malloc returns any address not in use.
  predicate Enabled(s: State, a: Action) {
    a.t < |s.pcs| && |s.lay.todo| == |s.lay.kept| == |s.lay.query| == |s.lay.taken| == |s.pcs| &&
    match a
    case Create(t, n) => s.pcs[t].Idle? && n !in s.heap
    case Reap(t, q) => s.pcs[t].Idle?
    case Go(t, _, _) => !s.pcs[t].Idle?
  }

  function Goto(s: State, t: nat, pc: Pc): State
    requires t < |s.pcs|
  {
    s.(pcs := s.pcs[t := pc])
  }

  // Stores next into node n's cell and moves on.
  function Store(s: State, t: nat, n: Node, next: Option<Node>, pc: Pc): State
    requires t < |s.pcs|
  {
    if n !in s.heap then s.(crashed := true)
    else Goto(s, t, pc).(heap := s.heap[n := s.heap[n].(next := next)])
  }

  predicate MayReap(q: Query, number: nat, inflight: nat) {
    (q.limit.None? || number < q.limit.value) && (!q.onlyConverged || inflight == 0)
  }

  function Next(s: State, a: Action): State
    requires Enabled(s, a)
  {
    match a
    case Create(t, n) =>
      Goto(s, t, PushNew(n)).(
        heap := s.heap[n := Cell(s.nextNumber, None)],
        nextNumber := s.nextNumber + 1,
        rooted := s.rooted + {s.nextNumber},
        lay := s.lay.(kept := s.lay.kept[t := [n]], owner := s.lay.owner[n := Private(t)]))
    case Reap(t, q) => Goto(s, t, ReapBegin(q))
    case Go(t, spurious, inflight) =>
      match s.pcs[t]
      case Idle => s
      case PushNew(n) => Goto(s, t, PushRead(n, s.head))
      case PushRead(n, seen) => Store(s, t, n, seen, PushLinked(n, seen))
      case PushLinked(n, seen) => if s.head == seen && !spurious then Joined(s, t, n) else Goto(s, t, PushNew(n))
      case ReapBegin(q) => Goto(s, t, ReapRead(q, s.head))
      case ReapRead(q, seen) => if s.head == seen && !spurious then Swapped(s, t, q) else Goto(s, t, ReapBegin(q))
      case Walk(q, None, None) => Goto(s, t, Idle)
      case Walk(q, None, Some(front)) => Goto(s, t, FindTail(front, front))
      case Walk(q, Some(x), list) => Walked(s, t, q, x, list, inflight)
      case FindTail(front, tail) =>
        if tail !in s.heap then s.(crashed := true)
        else if s.heap[tail].next.None? then Goto(s, t, Append(front, tail))
        else Goto(s, t, FindTail(front, s.heap[tail].next.value))
      case Append(front, tail) => Goto(s, t, AppendRead(front, tail, s.head))
      case AppendRead(front, tail, seen) => Store(s, t, tail, seen, AppendLinked(front, tail, seen))
      case AppendLinked(front, tail, seen) =>
        if s.head == seen && !spurious then Joined(s, t, front) else Goto(s, t, Append(front, tail))
  }

  // The owners once everything owned by `from` belongs to `to`.
  function Handed(owner: map<Node, Place>, from: Place, to: Place): map<Node, Place> {
    map n | n in owner :: if owner[n] == from then to else owner[n]
  }

  // The versions that nodes carry.
  function Numbers(heap: map<Node, Cell>, ns: seq<Node>): set<nat> {
    set i | 0 <= i < |ns| && ns[i] in heap :: heap[ns[i]].number
  }

  function Swapped(s: State, t: nat, q: Query): State
    requires t < |s.pcs| == |s.lay.todo| == |s.lay.query| == |s.lay.taken|
  {
    Goto(s, t, Walk(q, s.head, None)).(
      head := None,
      lay := s.lay.(shared := [], todo := s.lay.todo[t := s.lay.shared], owner := Handed(s.lay.owner, Listed, Private(t)),
                    query := s.lay.query[t := q], taken := s.lay.taken[t := Numbers(s.heap, s.lay.shared)]))
  }

  function Walked(s: State, t: nat, q: Query, x: Node, list: Option<Node>, inflight: nat): State
    requires t < |s.pcs| == |s.lay.todo| == |s.lay.kept|
  {
    if x !in s.heap then s.(crashed := true)
    else
      var number, next := s.heap[x].number, s.heap[x].next;
      var rest := if s.lay.todo[t] == [] then [] else s.lay.todo[t][1..];
      if MayReap(q, number, inflight) then
        Goto(s, t, Walk(q, next, list)).(
          heap := s.heap - {x},
          rooted := s.rooted - {number},
          releases := if number in s.rooted then s.releases + [Release(number, q, inflight)] else s.releases,
          lay := s.lay.(todo := s.lay.todo[t := rest], owner := s.lay.owner - {x}))
      else
        Goto(s, t, Walk(q, next, Some(x))).(
          heap := s.heap[x := Cell(number, list)],
          lay := s.lay.(todo := s.lay.todo[t := rest], kept := s.lay.kept[t := [x] + s.lay.kept[t]]))
  }

  // A successful compare-and-swap that puts t's list, one node or many, in front of the shared one.
  function Joined(s: State, t: nat, front: Node): State
    requires t < |s.pcs| == |s.lay.kept|
  {
    Goto(s, t, Idle).(
      head := Some(front),
      lay := s.lay.(shared := s.lay.kept[t] + s.lay.shared, kept := s.lay.kept[t := []],
                    owner := Handed(s.lay.owner, Private(t), Listed)))
  }

  ghost predicate Leads(s: State, acts: seq<Action>, s2: State)
    decreases |acts|
  {
    if acts == [] then s == s2 else Enabled(s, acts[0]) && Leads(Next(s, acts[0]), acts[1..], s2)
  }

  // ----- the invariant ------------------------------------------------------------

  predicate Distinct(ns: seq<nat>) {
    forall i, j :: 0 <= i < j < |ns| ==> ns[i] != ns[j]
  }

  function First(ns: seq<Node>): Option<Node> {
    if ns == [] then None else Some(ns[0])
  }

  // The nodes are chained in this order; what the last one points to is open.
  predicate Chained(heap: map<Node, Cell>, ns: seq<Node>) {
    && (forall i :: 0 <= i < |ns| ==> ns[i] in heap)
    && (forall i :: 0 < i < |ns| ==> heap[ns[i - 1]].next == Some(ns[i]))
  }

  // ... and the last one points nowhere.
  predicate Ends(heap: map<Node, Cell>, ns: seq<Node>) {
    Chained(heap, ns) && (ns != [] ==> heap[ns[|ns| - 1]].next == None)
  }

  // ns is, in some order, exactly what p owns.
  ghost predicate Owns(owner: map<Node, Place>, ns: seq<Node>, p: Place) {
    Distinct(ns) && forall n: Node :: n in ns <==> n in owner && owner[n] == p
  }

  predicate PcOk(heap: map<Node, Cell>, pc: Pc, todo: seq<Node>, kept: seq<Node>) {
    match pc
    case Idle => todo == [] && kept == []
    case PushNew(n) => todo == [] && kept == [n] && n in heap
    case PushRead(n, _) => todo == [] && kept == [n] && n in heap
    case PushLinked(n, seen) => todo == [] && kept == [n] && n in heap && heap[n].next == seen
    case ReapBegin(_) => todo == [] && kept == []
    case ReapRead(_, _) => todo == [] && kept == []
    case Walk(_, x, list) => x == First(todo) && list == First(kept) && Ends(heap, todo) && Ends(heap, kept)
    case FindTail(front, tail) =>
      todo == [] && First(kept) == Some(front) && Ends(heap, kept) && tail in kept
    case Append(front, tail) =>
      todo == [] && First(kept) == Some(front) && Chained(heap, kept) && kept[|kept| - 1] == tail
    case AppendRead(front, tail, _) =>
      todo == [] && First(kept) == Some(front) && Chained(heap, kept) && kept[|kept| - 1] == tail
    case AppendLinked(front, tail, seen) =>
      todo == [] && First(kept) == Some(front) && Chained(heap, kept) && kept[|kept| - 1] == tail && heap[tail].next == seen
  }

  ghost predicate Sized(s: State) {
    |s.lay.todo| == |s.lay.kept| == |s.lay.query| == |s.lay.taken| == |s.pcs|
  }

  ghost predicate ThreadOk(s: State, t: nat)
    requires Sized(s) && t < |s.pcs|
  {
    && PcOk(s.heap, s.pcs[t], s.lay.todo[t], s.lay.kept[t])
    && Owns(s.lay.owner, s.lay.todo[t] + s.lay.kept[t], Private(t))
  }

  // A node's owner is the shared list or a thread.
  predicate PlaceOk(s: State, p: Place) {
    p.Listed? || (p.Private? && p.t < |s.pcs|)
  }

  ghost predicate SharedOk(s: State) {
    && s.head == First(s.lay.shared)
    && Ends(s.heap, s.lay.shared)
    && Owns(s.lay.owner, s.lay.shared, Listed)
    && PlacesOk(s)
  }

  // Exactly the allocated nodes have owners.
  ghost predicate PlacesOk(s: State) {
    && (forall n :: n in s.lay.owner ==> n in s.heap)
    && (forall n :: n in s.heap ==> n in s.lay.owner && PlaceOk(s, s.lay.owner[n]))
  }

  // v's root match has been released.
  predicate Released(s: State, v: nat) {
    exists i :: 0 <= i < |s.releases| && s.releases[i].number == v
  }

  // Node n carries version v.
  predicate Carries(s: State, n: Node, v: nat) {
    n in s.heap && s.heap[n].number == v
  }

  ghost predicate NumbersOk(s: State) {
    && (forall n: Node, m: Node, v: nat :: Carries(s, n, v) && Carries(s, m, v) ==> n == m)
    && (forall n: Node, v: nat :: Carries(s, n, v) ==> v in s.rooted && v < s.nextNumber)
    && (forall v: nat :: v in s.rooted ==> exists n: Node :: Carries(s, n, v))
    && (forall v: nat :: v < s.nextNumber ==> (v in s.rooted <==> !Released(s, v)))
    && (forall i :: 0 <= i < |s.releases| ==> s.releases[i].number < s.nextNumber)
    && (forall i, j :: 0 <= i < j < |s.releases| ==> s.releases[i].number != s.releases[j].number)
    && (forall i :: 0 <= i < |s.releases| ==>
          MayReap(s.releases[i].q, s.releases[i].number, s.releases[i].inflight))
  }

  ghost predicate Inv(s: State) {
    && !s.crashed && Sized(s) && SharedOk(s) && NumbersOk(s)
    && (forall t: nat :: t < |s.pcs| ==> ThreadOk(s, t))
  }

  // ----- steps keep the invariant -------------------------------------------------

  // Chains are undisturbed by changes to nodes that are not in them.
  lemma ChainedFrame(h: map<Node, Cell>, h2: map<Node, Cell>, ns: seq<Node>)
    requires forall n :: n in ns && n in h ==> n in h2 && h2[n] == h[n]
    ensures Chained(h, ns) ==> Chained(h2, ns)
    ensures Ends(h, ns) ==> Ends(h2, ns)
  {
  }

  // A step of t that leaves what others own alone.
  ghost predicate Frame(s: State, s2: State, t: nat) {
    && Sized(s) && Sized(s2) && |s2.pcs| == |s.pcs| && t < |s.pcs|
    && (forall u: nat :: u < |s.pcs| && u != t ==> SameThread(s, s2, u))
    && (forall n: Node, u: nat :: u != t && OwnedBy(s, n, u) ==> SameNode(s, s2, n))
    && (forall n: Node, u: nat :: u != t ==> (OwnedBy(s, n, u) <==> OwnedBy(s2, n, u)))
  }

  ghost predicate SameThread(s: State, s2: State, u: nat)
    requires Sized(s) && Sized(s2) && |s2.pcs| == |s.pcs| && u < |s.pcs|
  {
    s2.pcs[u] == s.pcs[u] && s2.lay.todo[u] == s.lay.todo[u] && s2.lay.kept[u] == s.lay.kept[u]
  }

  ghost predicate OwnedBy(s: State, n: Node, u: nat) {
    n in s.lay.owner && s.lay.owner[n] == Private(u)
  }

  ghost predicate SameNode(s: State, s2: State, n: Node) {
    n in s.heap ==> n in s2.heap && s2.heap[n] == s.heap[n]
  }

  lemma PcFrame(h: map<Node, Cell>, h2: map<Node, Cell>, pc: Pc, todo: seq<Node>, kept: seq<Node>)
    requires PcOk(h, pc, todo, kept)
    requires forall n :: (n in todo || n in kept) && n in h ==> n in h2 && h2[n] == h[n]
    ensures PcOk(h2, pc, todo, kept)
  {
    ChainedFrame(h, h2, todo);
    ChainedFrame(h, h2, kept);
    assert pc.AppendLinked? ==> kept[|kept| - 1] in kept;
  }

  lemma OthersKeep(s: State, s2: State, t: nat, u: nat)
    requires Frame(s, s2, t) && u < |s.pcs| && u != t && ThreadOk(s, u)
    ensures ThreadOk(s2, u)
  {
    var mine := s.lay.todo[u] + s.lay.kept[u];
    assert SameThread(s, s2, u);
    forall n: Node ensures n in mine <==> OwnedBy(s2, n, u) {
      assert n in mine <==> OwnedBy(s, n, u);
    }
    forall n | (n in s.lay.todo[u] || n in s.lay.kept[u]) && n in s.heap
      ensures n in s2.heap && s2.heap[n] == s.heap[n]
    {
      assert n in mine;
      assert OwnedBy(s, n, u);
      assert SameNode(s, s2, n);
    }
    PcFrame(s.heap, s2.heap, s.pcs[u], s.lay.todo[u], s.lay.kept[u]);
  }

  lemma AllKeep(s: State, s2: State, t: nat)
    requires Inv(s) && Frame(s, s2, t) && ThreadOk(s2, t) && SharedOk(s2) && NumbersOk(s2) && !s2.crashed
    ensures Inv(s2)
  {
    forall u: nat | u < |s2.pcs| ensures ThreadOk(s2, u) {
      if u != t {
        OthersKeep(s, s2, t, u);
      }
    }
  }

  // Steps that change only t's program counter.
  lemma GotoKeepsInv(s: State, t: nat, pc: Pc)
    requires Inv(s) && t < |s.pcs| && PcOk(s.heap, pc, s.lay.todo[t], s.lay.kept[t])
    ensures Inv(Goto(s, t, pc))
  {
    var s2 := Goto(s, t, pc);
    assert ThreadOk(s, t);
    SameNumbers(s, s2);
    FrameOf(s, s2, t);
    AllKeep(s, s2, t);
  }

  lemma SameNumbers(s: State, s2: State)
    requires NumbersOk(s) && s2.rooted == s.rooted && s2.releases == s.releases && s2.nextNumber == s.nextNumber
    requires s2.heap.Keys == s.heap.Keys && forall n :: n in s.heap ==> s2.heap[n].number == s.heap[n].number
    ensures NumbersOk(s2)
  {
    assert forall n: Node, v: nat :: Carries(s2, n, v) <==> Carries(s, n, v);
    assert forall v: nat :: Released(s2, v) <==> Released(s, v);
  }

  // When only nodes of t change and ownership stays, the frame holds.
  lemma FrameOf(s: State, s2: State, t: nat)
    requires SharedOk(s) && Sized(s) && Sized(s2) && |s2.pcs| == |s.pcs| && t < |s.pcs| && s2.lay.owner == s.lay.owner
    requires forall u: nat :: u < |s.pcs| && u != t ==> SameThread(s, s2, u)
    requires forall n :: n in s.heap && !OwnedBy(s, n, t) ==> n in s2.heap && s2.heap[n] == s.heap[n]
    ensures Frame(s, s2, t)
  {
    forall n: Node, u: nat | u != t && OwnedBy(s, n, u) ensures SameNode(s, s2, n) {
      assert !OwnedBy(s, n, t);
    }
  }

  // Steps that store into a node t owns.
  lemma StoreLocal(s: State, t: nat, n: Node, next: Option<Node>, pc: Pc, s2: State)
    requires Sized(s) && SharedOk(s) && t < |s.pcs| && ThreadOk(s, t) && n in s.lay.kept[t] && n in s.heap
    requires PcOk(s.heap[n := s.heap[n].(next := next)], pc, s.lay.todo[t], s.lay.kept[t])
    requires s2 == Store(s, t, n, next, pc)
    ensures Local(s, s2, t)
  {
    assert n in s.lay.todo[t] + s.lay.kept[t];
    assert OwnedBy(s, n, t);
    SharedFrame(s, s2, t, n);
    FrameOf(s, s2, t);
  }

  lemma StoreKeepsInv(s: State, t: nat, n: Node, next: Option<Node>, pc: Pc)
    requires Inv(s) && t < |s.pcs| && n in s.lay.kept[t] && n in s.heap
    requires PcOk(s.heap[n := s.heap[n].(next := next)], pc, s.lay.todo[t], s.lay.kept[t])
    ensures Inv(Store(s, t, n, next, pc))
  {
    var s2 := Store(s, t, n, next, pc);
    assert ThreadOk(s, t);
    StoreLocal(s, t, n, next, pc, s2);
    SameNumbers(s, s2);
    AllKeep(s, s2, t);
  }

  lemma CreateKeepsInv(s: State, t: nat, n: Node)
    requires Inv(s) && Enabled(s, Create(t, n))
    ensures Inv(Next(s, Create(t, n)))
  {
    var s2 := Next(s, Create(t, n));
    assert ThreadOk(s, t);
    CreateOwns(s, s2, t, n);
    CreateKeepsNumbers(s, s2, t, n);
    AllKeep(s, s2, t);
  }

  lemma CreateOwns(s: State, s2: State, t: nat, n: Node)
    requires SharedOk(s) && Enabled(s, Create(t, n)) && ThreadOk(s, t) && s2 == Next(s, Create(t, n))
    ensures Frame(s, s2, t) && ThreadOk(s2, t) && SharedOk(s2)
  {
    assert s.lay.todo[t] + s.lay.kept[t] == [];
    assert s2.lay.todo[t] + s2.lay.kept[t] == [n];
    ChainedFrame(s.heap, s2.heap, s.lay.shared);
    assert n !in s.lay.owner;
  }

  lemma CreateKeepsNumbers(s: State, s2: State, t: nat, n: Node)
    requires NumbersOk(s) && Enabled(s, Create(t, n)) && s2 == Next(s, Create(t, n))
    ensures NumbersOk(s2)
  {
    var w := s.nextNumber;
    assert forall m: Node, v: nat :: Carries(s2, m, v) <==> Carries(s, m, v) || (m == n && v == w);
    assert forall v: nat :: Released(s2, v) <==> Released(s, v);
    assert Carries(s2, n, w);
    forall v | v in s2.rooted ensures exists m: Node :: Carries(s2, m, v) {
      if v != w {
        var m :| Carries(s, m, v);
        assert Carries(s2, m, v);
      }
    }
  }

  // What a step of t has to establish, apart from the numbers.
  ghost predicate Local(s: State, s2: State, t: nat) {
    Frame(s, s2, t) && ThreadOk(s2, t) && SharedOk(s2)
  }

  // Handing over everything `from` owns puts it together with what `to` owns.
  lemma Given(owner: map<Node, Place>, given: seq<Node>, had: seq<Node>, from: Place, to: Place)
    requires from != to && Owns(owner, given, from) && Owns(owner, had, to)
    ensures Owns(Handed(owner, from, to), given + had, to)
    ensures Owns(Handed(owner, from, to), [], from)
  {
    var o2, all := Handed(owner, from, to), given + had;
    forall n: Node ensures n in all <==> n in o2 && o2[n] == to {
      assert n in all <==> n in given || n in had;
    }
    forall i, j | 0 <= i < j < |all| ensures all[i] != all[j] {
      if i < |given| <= j {
        assert all[i] in given && all[j] in had;
      }
    }
  }

  // Handing over between t and the shared list is nobody else's business.
  lemma HandedFrame(s: State, s2: State, t: nat, from: Place, to: Place)
    requires Sized(s) && Sized(s2) && |s2.pcs| == |s.pcs| && t < |s.pcs| && s2.heap == s.heap
    requires s2.lay.owner == Handed(s.lay.owner, from, to)
    requires (from == Private(t) && to == Listed) || (from == Listed && to == Private(t))
    requires forall u: nat :: u < |s.pcs| && u != t ==> SameThread(s, s2, u)
    ensures Frame(s, s2, t)
    ensures PlacesOk(s) ==> PlacesOk(s2)
  {
  }

  lemma SwappedLocal(s: State, t: nat, q: Query, s2: State)
    requires Sized(s) && SharedOk(s) && t < |s.pcs| && ThreadOk(s, t) && s.pcs[t].ReapRead?
    requires s2 == Swapped(s, t, q)
    ensures Local(s, s2, t)
  {
    assert s.lay.todo[t] + s.lay.kept[t] == [];
    assert s.lay.shared + [] == s.lay.shared;
    Given(s.lay.owner, s.lay.shared, [], Listed, Private(t));
    HandedFrame(s, s2, t, Listed, Private(t));
    assert s2.lay.todo[t] + s2.lay.kept[t] == s.lay.shared;
  }

  lemma SwappedKeepsInv(s: State, t: nat, q: Query)
    requires Inv(s) && t < |s.pcs| && s.pcs[t].ReapRead?
    ensures Inv(Swapped(s, t, q))
  {
    var s2 := Swapped(s, t, q);
    assert ThreadOk(s, t);
    SwappedLocal(s, t, q, s2);
    SameNumbers(s, s2);
    AllKeep(s, s2, t);
  }

  // t's list is linked to the current head.
  ghost predicate ReadyToJoin(s: State, t: nat, front: Node) {
    && Sized(s) && t < |s.pcs| && s.lay.todo[t] == [] && First(s.lay.kept[t]) == Some(front)
    && Chained(s.heap, s.lay.kept[t]) && s.heap[s.lay.kept[t][|s.lay.kept[t]| - 1]].next == s.head
  }

  lemma JoinedShared(s: State, t: nat, front: Node, s2: State)
    requires SharedOk(s) && ReadyToJoin(s, t, front) && s2 == Joined(s, t, front) && PlacesOk(s2)
    requires Owns(s.lay.owner, s.lay.kept[t], Private(t))
    ensures SharedOk(s2) && Owns(s2.lay.owner, [], Private(t))
  {
    AppendChains(s.heap, s.lay.kept[t], s.lay.shared);
    Given(s.lay.owner, s.lay.kept[t], s.lay.shared, Private(t), Listed);
  }

  lemma JoinedLocal(s: State, t: nat, front: Node, s2: State)
    requires SharedOk(s) && ReadyToJoin(s, t, front) && ThreadOk(s, t) && s2 == Joined(s, t, front)
    ensures Local(s, s2, t)
  {
    assert s.lay.todo[t] + s.lay.kept[t] == s.lay.kept[t];
    HandedFrame(s, s2, t, Private(t), Listed);
    JoinedShared(s, t, front, s2);
    assert s2.lay.todo[t] + s2.lay.kept[t] == [];
  }

  lemma JoinedKeepsInv(s: State, t: nat, front: Node)
    requires Inv(s) && ReadyToJoin(s, t, front)
    ensures Inv(Joined(s, t, front))
  {
    var s2 := Joined(s, t, front);
    assert ThreadOk(s, t);
    JoinedLocal(s, t, front, s2);
    SameNumbers(s, s2);
    AllKeep(s, s2, t);
  }

  lemma AppendChains(heap: map<Node, Cell>, front: seq<Node>, back: seq<Node>)
    requires front != [] && Chained(heap, front) && Ends(heap, back) && heap[front[|front| - 1]].next == First(back)
    ensures Ends(heap, front + back)
  {
  }

  lemma WalkedKeepsInv(s: State, t: nat, q: Query, x: Node, list: Option<Node>, inflight: nat)
    requires Inv(s) && t < |s.pcs| && s.pcs[t] == Walk(q, Some(x), list)
    ensures Inv(Walked(s, t, q, x, list, inflight))
  {
    var todo, kept := s.lay.todo[t], s.lay.kept[t];
    assert ThreadOk(s, t);
    assert todo + kept == [x] + (todo[1..] + kept);
    TailEnds(s.heap, todo);
    if MayReap(q, s.heap[x].number, inflight) {
      ReapedKeepsInv(s, t, q, x, list, inflight, Walked(s, t, q, x, list, inflight));
    } else {
      KeptKeepsInv(s, t, q, x, list, inflight, Walked(s, t, q, x, list, inflight));
    }
  }

  // t is about to look at x, the first of what it has left.
  ghost predicate AtFirst(s: State, t: nat, q: Query, x: Node, list: Option<Node>) {
    && Sized(s) && t < |s.pcs| && s.pcs[t] == Walk(q, Some(x), list) && x in s.heap
    && s.lay.todo[t] != [] && s.lay.todo[t][0] == x
    && Owns(s.lay.owner, [x] + (s.lay.todo[t][1..] + s.lay.kept[t]), Private(t))
    && Ends(s.heap, s.lay.todo[t][1..]) && s.heap[x].next == First(s.lay.todo[t][1..])
    && Ends(s.heap, s.lay.kept[t]) && list == First(s.lay.kept[t])
  }

  lemma OthersDiffer(x: Node, todo: seq<Node>, kept: seq<Node>)
    requires Distinct([x] + (todo + kept))
    ensures forall n :: n in todo || n in kept ==> n != x
    ensures Distinct(todo + kept)
  {
    var all := [x] + (todo + kept);
    forall n | n in todo || n in kept ensures n != x {
      assert n in todo + kept;
      var i :| 0 <= i < |todo + kept| && (todo + kept)[i] == n;
      assert all[i + 1] == n && all[0] == x;
    }
    assert forall i :: 0 <= i < |todo + kept| ==> (todo + kept)[i] == all[i + 1];
  }

  lemma FirstIsOwn(s: State, t: nat, q: Query, x: Node, list: Option<Node>)
    requires AtFirst(s, t, q, x, list)
    ensures OwnedBy(s, x, t)
    ensures forall n :: n in s.lay.todo[t][1..] || n in s.lay.kept[t] ==> n != x
    ensures Distinct(s.lay.todo[t][1..] + s.lay.kept[t])
  {
    OthersDiffer(x, s.lay.todo[t][1..], s.lay.kept[t]);
    assert ([x] + (s.lay.todo[t][1..] + s.lay.kept[t]))[0] == x;
  }

  // A change to a node t owns does not touch the shared list.
  lemma SharedFrame(s: State, s2: State, t: nat, x: Node)
    requires SharedOk(s) && OwnedBy(s, x, t) && t < |s.pcs| == |s2.pcs|
    requires s2.head == s.head && s2.lay.shared == s.lay.shared
    requires forall n :: n in s.heap && n != x ==> n in s2.heap && s2.heap[n] == s.heap[n]
    requires (s2.lay.owner == s.lay.owner && s2.heap.Keys == s.heap.Keys)
          || (s2.lay.owner == s.lay.owner - {x} && s2.heap == s.heap - {x})
    ensures SharedOk(s2)
  {
    ChainedFrame(s.heap, s2.heap, s.lay.shared);
  }

  lemma ReapedThreadOk(s: State, t: nat, q: Query, x: Node, list: Option<Node>, inflight: nat, s2: State)
    requires AtFirst(s, t, q, x, list) && MayReap(q, s.heap[x].number, inflight)
    requires s2 == Walked(s, t, q, x, list, inflight)
    ensures Sized(s2) && ThreadOk(s2, t)
  {
    var rest, kept := s.lay.todo[t][1..], s.lay.kept[t];
    FirstIsOwn(s, t, q, x, list);
    ChainedFrame(s.heap, s2.heap, rest);
    ChainedFrame(s.heap, s2.heap, kept);
    forall n: Node ensures n in rest + kept <==> n in s2.lay.owner && s2.lay.owner[n] == Private(t) {
      assert n in [x] + (rest + kept) <==> n == x || n in rest + kept;
    }
  }

  lemma ReapedFrame(s: State, t: nat, q: Query, x: Node, list: Option<Node>, inflight: nat, s2: State)
    requires AtFirst(s, t, q, x, list) && MayReap(q, s.heap[x].number, inflight)
    requires s2 == Walked(s, t, q, x, list, inflight)
    ensures Frame(s, s2, t)
  {
    FirstIsOwn(s, t, q, x, list);
  }

  lemma ReapedKeepsInv(s: State, t: nat, q: Query, x: Node, list: Option<Node>, inflight: nat, s2: State)
    requires Inv(s) && AtFirst(s, t, q, x, list) && MayReap(q, s.heap[x].number, inflight)
    requires s2 == Walked(s, t, q, x, list, inflight)
    ensures Inv(s2)
  {
    FirstIsOwn(s, t, q, x, list);
    SharedFrame(s, s2, t, x);
    ReapedThreadOk(s, t, q, x, list, inflight, s2);
    ReapedFrame(s, t, q, x, list, inflight, s2);
    ReapKeepsNumbers(s, s2, t, q, x, list, inflight);
    AllKeep(s, s2, t);
  }

  lemma KeptThreadOk(s: State, t: nat, q: Query, x: Node, list: Option<Node>, inflight: nat, s2: State)
    requires AtFirst(s, t, q, x, list) && !MayReap(q, s.heap[x].number, inflight)
    requires s2 == Walked(s, t, q, x, list, inflight)
    ensures Sized(s2) && ThreadOk(s2, t)
  {
    var rest, kept := s.lay.todo[t][1..], s.lay.kept[t];
    FirstIsOwn(s, t, q, x, list);
    ChainedFrame(s.heap, s2.heap, rest);
    ChainedFrame(s.heap, s2.heap, kept);
    AppendChains(s2.heap, [x], kept);
    MovedOwns(s.lay.owner, x, rest, kept, Private(t));
  }

  lemma KeptLocal(s: State, t: nat, q: Query, x: Node, list: Option<Node>, inflight: nat, s2: State)
    requires SharedOk(s) && AtFirst(s, t, q, x, list) && !MayReap(q, s.heap[x].number, inflight)
    requires s2 == Walked(s, t, q, x, list, inflight)
    ensures Local(s, s2, t)
  {
    FirstIsOwn(s, t, q, x, list);
    SharedFrame(s, s2, t, x);
    KeptThreadOk(s, t, q, x, list, inflight, s2);
    FrameOf(s, s2, t);
  }

  lemma KeptKeepsInv(s: State, t: nat, q: Query, x: Node, list: Option<Node>, inflight: nat, s2: State)
    requires Inv(s) && AtFirst(s, t, q, x, list) && !MayReap(q, s.heap[x].number, inflight)
    requires s2 == Walked(s, t, q, x, list, inflight)
    ensures Inv(s2)
  {
    KeptLocal(s, t, q, x, list, inflight, s2);
    SameNumbers(s, s2);
    AllKeep(s, s2, t);
  }

  lemma TailEnds(heap: map<Node, Cell>, ns: seq<Node>)
    requires ns != [] && Ends(heap, ns)
    ensures Ends(heap, ns[1..]) && heap[ns[0]].next == First(ns[1..])
  {
  }

  lemma MovedOwns(owner: map<Node, Place>, x: Node, rest: seq<Node>, kept: seq<Node>, p: Place)
    requires Owns(owner, [x] + (rest + kept), p)
    ensures Owns(owner, rest + ([x] + kept), p)
  {
    var a, b := [x] + (rest + kept), rest + ([x] + kept);
    assert forall n :: n in a <==> n == x || n in rest || n in kept;
    assert forall n :: n in b <==> n == x || n in rest || n in kept;
    var k := |rest|;
    assert forall i :: 0 <= i < |b| ==> b[i] == a[if i < k then i + 1 else if i == k then 0 else i];
  }

  lemma ReapKeepsNumbers(s: State, s2: State, t: nat, q: Query, x: Node, list: Option<Node>, inflight: nat)
    requires NumbersOk(s) && Sized(s) && t < |s.pcs| && x in s.heap && MayReap(q, s.heap[x].number, inflight)
    requires s2 == Walked(s, t, q, x, list, inflight)
    ensures NumbersOk(s2)
  {
    var w := s.heap[x].number;
    assert Carries(s, x, w);
    assert forall m: Node, v: nat :: Carries(s2, m, v) <==> Carries(s, m, v) && m != x;
    assert !Released(s, w);
    assert s2.releases[|s.releases|].number == w;
    assert Released(s2, w);
    assert forall i :: 0 <= i < |s.releases| ==> s2.releases[i] == s.releases[i];
    forall v ensures Released(s2, v) <==> Released(s, v) || v == w {
      if Released(s, v) {
        var i :| 0 <= i < |s.releases| && s.releases[i].number == v;
        assert s2.releases[i].number == v;
      }
    }
    forall v | v in s2.rooted ensures exists m: Node :: Carries(s2, m, v) {
      var m :| Carries(s, m, v);
      assert Carries(s2, m, v);
    }
  }

  lemma StepKeepsInv(s: State, a: Action)
    requires Inv(s) && Enabled(s, a)
    ensures Inv(Next(s, a))
  {
    assert ThreadOk(s, a.t);
    match a
    case Create(t, n) => CreateKeepsInv(s, t, n);
    case Reap(t, q) => GotoKeepsInv(s, t, ReapBegin(q));
    case Go(t, spurious, inflight) => GoKeepsInv(s, t, spurious, inflight);
  }

  lemma GoKeepsInv(s: State, t: nat, spurious: bool, inflight: nat)
    requires Inv(s) && Enabled(s, Go(t, spurious, inflight))
    ensures Inv(Next(s, Go(t, spurious, inflight)))
  {
    match s.pcs[t]
    case PushNew(_) => PushGoKeepsInv(s, t, spurious, inflight);
    case PushRead(_, _) => PushGoKeepsInv(s, t, spurious, inflight);
    case PushLinked(_, _) => PushGoKeepsInv(s, t, spurious, inflight);
    case ReapBegin(_) => ReapGoKeepsInv(s, t, spurious, inflight);
    case ReapRead(_, _) => ReapGoKeepsInv(s, t, spurious, inflight);
    case Walk(_, _, _) => ReapGoKeepsInv(s, t, spurious, inflight);
    case FindTail(front, tail) => TailKeepsInv(s, t, front, tail);
    case Append(_, _) => AppendGoKeepsInv(s, t, spurious, inflight);
    case AppendRead(_, _, _) => AppendGoKeepsInv(s, t, spurious, inflight);
    case AppendLinked(_, _, _) => AppendGoKeepsInv(s, t, spurious, inflight);
  }

  lemma PushGoKeepsInv(s: State, t: nat, spurious: bool, inflight: nat)
    requires Inv(s) && Enabled(s, Go(t, spurious, inflight))
    requires s.pcs[t].PushNew? || s.pcs[t].PushRead? || s.pcs[t].PushLinked?
    ensures Inv(Next(s, Go(t, spurious, inflight)))
  {
    assert ThreadOk(s, t);
    match s.pcs[t]
    case PushNew(n) => GotoKeepsInv(s, t, PushRead(n, s.head));
    case PushRead(n, seen) => StoreKeepsInv(s, t, n, seen, PushLinked(n, seen));
    case PushLinked(n, seen) =>
      if s.head == seen && !spurious {
        JoinedKeepsInv(s, t, n);
      } else {
        GotoKeepsInv(s, t, PushNew(n));
      }
  }

  lemma ReapGoKeepsInv(s: State, t: nat, spurious: bool, inflight: nat)
    requires Inv(s) && Enabled(s, Go(t, spurious, inflight))
    requires s.pcs[t].ReapBegin? || s.pcs[t].ReapRead? || s.pcs[t].Walk?
    ensures Inv(Next(s, Go(t, spurious, inflight)))
  {
    assert ThreadOk(s, t);
    match s.pcs[t]
    case ReapBegin(q) => GotoKeepsInv(s, t, ReapRead(q, s.head));
    case ReapRead(q, seen) =>
      if s.head == seen && !spurious {
        SwappedKeepsInv(s, t, q);
      } else {
        GotoKeepsInv(s, t, ReapBegin(q));
      }
    case Walk(q, None, None) => GotoKeepsInv(s, t, Idle);
    case Walk(q, None, Some(front)) => GotoKeepsInv(s, t, FindTail(front, front));
    case Walk(q, Some(x), list) => WalkedKeepsInv(s, t, q, x, list, inflight);
  }

  lemma AppendGoKeepsInv(s: State, t: nat, spurious: bool, inflight: nat)
    requires Inv(s) && Enabled(s, Go(t, spurious, inflight))
    requires s.pcs[t].Append? || s.pcs[t].AppendRead? || s.pcs[t].AppendLinked?
    ensures Inv(Next(s, Go(t, spurious, inflight)))
  {
    assert ThreadOk(s, t);
    var kept := s.lay.kept[t];
    match s.pcs[t]
    case Append(front, tail) => GotoKeepsInv(s, t, AppendRead(front, tail, s.head));
    case AppendRead(front, tail, seen) =>
      assert s.lay.todo[t] + kept == kept;
      LastStored(s.heap, kept, seen);
      StoreKeepsInv(s, t, tail, seen, AppendLinked(front, tail, seen));
    case AppendLinked(front, tail, seen) =>
      if s.head == seen && !spurious {
        JoinedKeepsInv(s, t, front);
      } else {
        GotoKeepsInv(s, t, Append(front, tail));
      }
  }

  lemma TailKeepsInv(s: State, t: nat, front: Node, tail: Node)
    requires Inv(s) && t < |s.pcs| && s.pcs[t] == FindTail(front, tail)
    ensures tail in s.heap
    ensures s.heap[tail].next.None? ==> Inv(Goto(s, t, Append(front, tail)))
    ensures s.heap[tail].next.Some? ==> Inv(Goto(s, t, FindTail(front, s.heap[tail].next.value)))
  {
    assert ThreadOk(s, t);
    var kept := s.lay.kept[t];
    var i :| 0 <= i < |kept| && kept[i] == tail;
    assert i + 1 < |kept| ==> s.heap[kept[i + 1 - 1]].next == Some(kept[i + 1]);
    if s.heap[tail].next.None? {
      GotoKeepsInv(s, t, Append(front, tail));
    } else {
      GotoKeepsInv(s, t, FindTail(front, s.heap[tail].next.value));
    }
  }

  // Storing into the last node of a chain keeps the chain.
  lemma LastStored(heap: map<Node, Cell>, ns: seq<Node>, next: Option<Node>)
    requires ns != [] && Chained(heap, ns) && Distinct(ns)
    ensures var last := ns[|ns| - 1]; Chained(heap[last := heap[last].(next := next)], ns)
  {
  }

  lemma InitInv(threads: nat)
    ensures Inv(Init(threads))
  {
    var s := Init(threads);
    assert forall v: nat :: !Released(s, v);
    assert forall n: Node, v: nat :: !Carries(s, n, v);
    forall t | 0 <= t < |s.pcs| ensures ThreadOk(s, t) {
      assert s.lay.todo[t] + s.lay.kept[t] == [];
    }
  }

  lemma {:induction false} RunKeepsInv(s: State, acts: seq<Action>, s2: State)
    requires Inv(s) && Leads(s, acts, s2)
    ensures Inv(s2)
    decreases |acts|
  {
    if acts != [] {
      StepKeepsInv(s, acts[0]);
      RunKeepsInv(Next(s, acts[0]), acts[1..], s2);
    }
  }

  // ----- what holds of every run --------------------------------------------------

  // Where version v is: on the list that starts at the head, on a list that only thread t can
  // reach, or reaped.
  ghost predicate Located(s: State, v: nat, p: Place)
    requires Sized(s)
  {
    match p
    case Listed => exists i :: 0 <= i < |s.lay.shared| && Carries(s, s.lay.shared[i], v)
    case Private(t) => t < |s.pcs| &&
      exists i :: 0 <= i < |s.lay.todo[t] + s.lay.kept[t]| && Carries(s, (s.lay.todo[t] + s.lay.kept[t])[i], v)
    case Reaped => Released(s, v)
  }

  // Every version is in exactly one place.
  lemma InOnePlace(threads: nat, acts: seq<Action>, s: State, v: nat)
    requires Leads(Init(threads), acts, s) && v < s.nextNumber
    ensures Sized(s) && !s.crashed
    ensures s.head == First(s.lay.shared) && Ends(s.heap, s.lay.shared) && Distinct(s.lay.shared)
    ensures exists p :: Located(s, v, p) && forall p2 :: Located(s, v, p2) ==> p2 == p
  {
    InitInv(threads);
    RunKeepsInv(Init(threads), acts, s);
    if v in s.rooted {
      var n :| Carries(s, n, v);
      OwnerLocates(s, n, v);
      forall p2 | Located(s, v, p2) ensures p2 == s.lay.owner[n] {
        LocatedOwner(s, n, v, p2);
      }
    } else {
      GoneIsReaped(s, v);
    }
  }

  lemma GoneIsReaped(s: State, v: nat)
    requires Inv(s) && v < s.nextNumber && v !in s.rooted
    ensures Located(s, v, Reaped) && forall p :: Located(s, v, p) ==> p == Reaped
  {
    assert forall n: Node :: !Carries(s, n, v);
  }

  lemma OwnerLocates(s: State, n: Node, v: nat)
    requires Inv(s) && Carries(s, n, v)
    ensures Located(s, v, s.lay.owner[n])
  {
    match s.lay.owner[n]
    case Listed => assert n in s.lay.shared;
    case Private(t) =>
      assert ThreadOk(s, t);
      assert n in s.lay.todo[t] + s.lay.kept[t];
  }

  lemma LocatedOwner(s: State, n: Node, v: nat, p: Place)
    requires Inv(s) && Carries(s, n, v) && Located(s, v, p)
    ensures s.lay.owner[n] == p
  {
    match p
    case Listed => assert n in s.lay.shared;
    case Private(t) =>
      assert ThreadOk(s, t);
      assert n in s.lay.todo[t] + s.lay.kept[t];
    case Reaped =>
  }

  // A version's root match is released at most once; it has been released iff the version is on no
  // list; and no reaper takes a version at or above the one it converged on, or, when asked to
  // spare those, one that had something in flight.
  lemma ReleasedOnce(threads: nat, acts: seq<Action>, s: State)
    requires Leads(Init(threads), acts, s)
    ensures forall i, j :: 0 <= i < j < |s.releases| ==> s.releases[i].number != s.releases[j].number
    ensures forall v: nat :: v < s.nextNumber ==> (Released(s, v) <==> forall n: Node :: !Carries(s, n, v))
    ensures forall i :: 0 <= i < |s.releases| && s.releases[i].q.limit.Some? ==>
              s.releases[i].number < s.releases[i].q.limit.value
    ensures forall i :: 0 <= i < |s.releases| && s.releases[i].q.onlyConverged ==> s.releases[i].inflight == 0
  {
    InitInv(threads);
    RunKeepsInv(Init(threads), acts, s);
  }

  // Nothing is lost: when every thread is done, each version is reaped or on the shared list.
  lemma NoneLost(threads: nat, acts: seq<Action>, s: State, v: nat)
    requires Leads(Init(threads), acts, s) && v < s.nextNumber
    requires forall t :: 0 <= t < |s.pcs| ==> s.pcs[t].Idle?
    ensures Sized(s) && (Located(s, v, Listed) <==> !Located(s, v, Reaped))
  {
    InitInv(threads);
    RunKeepsInv(Init(threads), acts, s);
    if v in s.rooted {
      var n :| Carries(s, n, v);
      OwnerLocates(s, n, v);
      assert forall t: nat :: t < |s.pcs| ==> ThreadOk(s, t) && |s.lay.todo[t] + s.lay.kept[t]| == 0;
    }
  }

  // ----- reaping is thorough ------------------------------------------------------

  // A reap that looks at a version below its limit, or has no limit, takes it unless it was asked to spare
  // versions with something in flight and this one has.
  lemma LooksAndTakes(threads: nat, acts: seq<Action>, s: State, t: nat, x: Node, spurious: bool, inflight: nat)
    requires Leads(Init(threads), acts, s) && Enabled(s, Go(t, spurious, inflight)) && s.pcs[t].Walk? && s.pcs[t].x == Some(x)
    ensures x in s.heap
    ensures var q, v, s2 := s.pcs[t].q, s.heap[x].number, Next(s, Go(t, spurious, inflight));
            if (q.limit == None || v < q.limit.value) && (inflight == 0 || !q.onlyConverged)
            then Released(s2, v) && forall n: Node :: !Carries(s2, n, v)
            else !Released(s2, v) && Carries(s2, x, v)
  {
    InitInv(threads);
    RunKeepsInv(Init(threads), acts, s);
    assert ThreadOk(s, t);
    assert x in s.lay.todo[t];
    var v := s.heap[x].number;
    assert Carries(s, x, v);
    var s2 := Next(s, Go(t, spurious, inflight));
    StepKeepsInv(s, Go(t, spurious, inflight));
    if (s.pcs[t].q.limit == None || v < s.pcs[t].q.limit.value) && (inflight == 0 || !s.pcs[t].q.onlyConverged) {
      assert s2.releases[|s.releases|].number == v;
    } else {
      assert Carries(s2, x, v);
    }
  }

  // Not for this reap to take: at or above its limit, or it was asked to go by what is in flight.
  predicate Spared(q: Query, v: nat) {
    q.onlyConverged || (q.limit.Some? && q.limit.value <= v)
  }

  // Each version that was on the list at t's last swap has been released, or is among what t has still to
  // look at, or is not for that reap to take.
  ghost predicate TakenOk(s: State, t: nat)
    requires Sized(s) && t < |s.pcs|
  {
    && (s.pcs[t].Walk? ==> s.pcs[t].q == s.lay.query[t])
    && forall v: nat :: v in s.lay.taken[t] ==> Released(s, v) || Ahead(s, t, v) || Spared(s.lay.query[t], v)
  }

  ghost predicate Ahead(s: State, t: nat, v: nat)
    requires Sized(s) && t < |s.pcs|
  {
    s.pcs[t].Walk? && exists i :: 0 <= i < |s.lay.todo[t]| && Carries(s, s.lay.todo[t][i], v)
  }

  ghost predicate Thorough(s: State) {
    Sized(s) && forall t: nat :: t < |s.pcs| ==> TakenOk(s, t)
  }

  lemma ReleasedStays(s: State, s2: State, v: nat)
    requires s.releases <= s2.releases && Released(s, v)
    ensures Released(s2, v)
  {
    var i :| 0 <= i < |s.releases| && s.releases[i].number == v;
    assert s2.releases[i].number == v;
  }

  lemma ReleasesGrow(s: State, a: Action)
    requires Enabled(s, a)
    ensures s.releases <= Next(s, a).releases
  {
  }

  lemma NumbersStay(s: State, a: Action, n: Node, v: nat)
    requires Enabled(s, a) && Carries(s, n, v) && n in Next(s, a).heap
    ensures Carries(Next(s, a), n, v)
  {
  }

  // What is released stays so, and what is ahead of t stays ahead while its nodes keep their versions.
  lemma TakenStays(s: State, s2: State, t: nat)
    requires Sized(s) && Sized(s2) && |s2.pcs| == |s.pcs| && t < |s.pcs| && TakenOk(s, t) && s.releases <= s2.releases
    requires s2.pcs[t] == s.pcs[t] && s2.lay.todo[t] == s.lay.todo[t]
    requires s2.lay.query[t] == s.lay.query[t] && s2.lay.taken[t] == s.lay.taken[t]
    requires forall i, v: nat :: 0 <= i < |s.lay.todo[t]| && Carries(s, s.lay.todo[t][i], v) ==> Carries(s2, s.lay.todo[t][i], v)
    ensures TakenOk(s2, t)
  {
    forall v: nat | v in s.lay.taken[t] ensures Released(s2, v) || Ahead(s2, t, v) || Spared(s.lay.query[t], v) {
      if Released(s, v) {
        ReleasedStays(s, s2, v);
      } else if Ahead(s, t, v) {
        var i :| 0 <= i < |s.lay.todo[t]| && Carries(s, s.lay.todo[t][i], v);
        assert Carries(s2, s2.lay.todo[t][i], v);
      }
    }
  }

  ghost predicate SameFor(s: State, s2: State, t: nat) {
    && Sized(s) && Sized(s2) && |s2.pcs| == |s.pcs| && t < |s.pcs|
    && s2.pcs[t] == s.pcs[t] && s2.lay.todo[t] == s.lay.todo[t]
    && s2.lay.query[t] == s.lay.query[t] && s2.lay.taken[t] == s.lay.taken[t]
  }

  lemma SwappedSame(s: State, u: nat, q: Query, t: nat)
    requires Sized(s) && u < |s.pcs| && t < |s.pcs| && t != u
    ensures SameFor(s, Swapped(s, u, q), t)
  {
  }

  lemma WalkedSame(s: State, u: nat, q: Query, x: Node, list: Option<Node>, inflight: nat, t: nat)
    requires Sized(s) && u < |s.pcs| && t < |s.pcs| && t != u
    ensures SameFor(s, Walked(s, u, q, x, list, inflight), t)
  {
  }

  lemma JoinedSame(s: State, u: nat, front: Node, t: nat)
    requires Sized(s) && u < |s.pcs| && t < |s.pcs| && t != u
    ensures SameFor(s, Joined(s, u, front), t)
  {
  }

  lemma StoreSame(s: State, u: nat, n: Node, next: Option<Node>, pc: Pc, t: nat)
    requires Sized(s) && u < |s.pcs| && t < |s.pcs| && t != u
    ensures SameFor(s, Store(s, u, n, next, pc), t)
  {
  }

  predicate Pushing(pc: Pc) {
    pc.PushNew? || pc.PushRead? || pc.PushLinked?
  }

  predicate Appending(pc: Pc) {
    pc.FindTail? || pc.Append? || pc.AppendRead? || pc.AppendLinked?
  }

  lemma OtherPush(s: State, a: Action, t: nat)
    requires Enabled(s, a) && a.Go? && t < |s.pcs| && a.t != t && Pushing(s.pcs[a.t])
    ensures SameFor(s, Next(s, a), t)
  {
    match s.pcs[a.t]
    case PushRead(n, seen) => StoreSame(s, a.t, n, seen, PushLinked(n, seen), t);
    case PushLinked(n, _) => JoinedSame(s, a.t, n, t);
    case _ =>
  }

  lemma OtherAppend(s: State, a: Action, t: nat)
    requires Enabled(s, a) && a.Go? && t < |s.pcs| && a.t != t && Appending(s.pcs[a.t])
    ensures SameFor(s, Next(s, a), t)
  {
    match s.pcs[a.t]
    case AppendRead(front, tail, seen) => StoreSame(s, a.t, tail, seen, AppendLinked(front, tail, seen), t);
    case AppendLinked(front, _, _) => JoinedSame(s, a.t, front, t);
    case _ =>
  }

  lemma OtherReap(s: State, a: Action, t: nat)
    requires Enabled(s, a) && a.Go? && t < |s.pcs| && a.t != t && !Pushing(s.pcs[a.t]) && !Appending(s.pcs[a.t])
    ensures SameFor(s, Next(s, a), t)
  {
    match s.pcs[a.t]
    case ReapRead(q, _) => SwappedSame(s, a.t, q, t);
    case Walk(q, Some(x), list) => WalkedSame(s, a.t, q, x, list, a.inflight, t);
    case _ =>
  }

  lemma OtherStep(s: State, a: Action, t: nat)
    requires Enabled(s, a) && t < |s.pcs| && a.t != t
    ensures SameFor(s, Next(s, a), t)
  {
    if a.Go? {
      if Pushing(s.pcs[a.t]) {
        OtherPush(s, a, t);
      } else if Appending(s.pcs[a.t]) {
        OtherAppend(s, a, t);
      } else {
        OtherReap(s, a, t);
      }
    }
  }

  // A thread's unread nodes are allocated.
  lemma UnreadAllocated(s: State, t: nat)
    requires Sized(s) && t < |s.pcs| && ThreadOk(s, t)
    ensures forall i :: 0 <= i < |s.lay.todo[t]| ==> s.lay.todo[t][i] in s.heap
  {
  }

  // A step of another thread leaves t's unread nodes alone.
  lemma OtherTaken(s: State, a: Action, t: nat)
    requires Enabled(s, a) && t < |s.pcs| && a.t != t && TakenOk(s, t)
    requires Sized(Next(s, a)) && |Next(s, a).pcs| == |s.pcs| && ThreadOk(Next(s, a), t)
    ensures TakenOk(Next(s, a), t)
  {
    var s2 := Next(s, a);
    ReleasesGrow(s, a);
    OtherStep(s, a, t);
    UnreadAllocated(s2, t);
    forall i, v: nat | 0 <= i < |s.lay.todo[t]| && Carries(s, s.lay.todo[t][i], v) ensures Carries(s2, s.lay.todo[t][i], v) {
      assert s2.lay.todo[t][i] in s2.heap;
      NumbersStay(s, a, s.lay.todo[t][i], v);
    }
    TakenStays(s, s2, t);
  }

  // The swap: all that was on the list is ahead.
  lemma SwapTaken(s: State, t: nat, q: Query)
    requires Inv(s) && t < |s.pcs| && s.pcs[t].ReapRead?
    ensures Sized(Swapped(s, t, q)) && TakenOk(Swapped(s, t, q), t)
  {
    var s2 := Swapped(s, t, q);
    forall v: nat | v in s2.lay.taken[t] ensures Ahead(s2, t, v) {
      var i :| 0 <= i < |s.lay.shared| && s.lay.shared[i] in s.heap && s.heap[s.lay.shared[i]].number == v;
      assert Carries(s2, s2.lay.todo[t][i], v);
    }
  }

  lemma WalkStep(s: State, t: nat, q: Query, x: Node, list: Option<Node>, inflight: nat, s2: State)
    requires Sized(s) && t < |s.pcs| && x in s.heap && s.lay.todo[t] != []
    requires s2 == Walked(s, t, q, x, list, inflight)
    ensures Sized(s2) && |s2.pcs| == |s.pcs| && s2.pcs[t].Walk? && s2.pcs[t].q == q
    ensures s2.lay.todo[t] == s.lay.todo[t][1..] && s.releases <= s2.releases
    ensures s2.lay.query[t] == s.lay.query[t] && s2.lay.taken[t] == s.lay.taken[t]
    ensures forall n: Node, v: nat :: n != x && Carries(s, n, v) ==> Carries(s2, n, v)
  {
  }

  // One look: the version looked at is released, or not for this reap.
  lemma WalkTaken(s: State, t: nat, q: Query, x: Node, list: Option<Node>, inflight: nat, s2: State)
    requires Sized(s) && t < |s.pcs| && s.pcs[t] == Walk(q, Some(x), list) && TakenOk(s, t)
    requires s2 == Walked(s, t, q, x, list, inflight) && Sized(s2) && |s2.pcs| == |s.pcs|
    requires x in s.heap && s.lay.todo[t] != [] && s.lay.todo[t][0] == x && s.heap[x].number in s.rooted
    requires forall i :: 1 <= i < |s.lay.todo[t]| ==> s.lay.todo[t][i] != x
    ensures TakenOk(s2, t)
  {
    var todo := s.lay.todo[t];
    WalkStep(s, t, q, x, list, inflight, s2);
    LookTaken(s, t, q, x, list, inflight, s2, s.heap[x].number);
    forall v: nat | v in s.lay.taken[t] ensures Released(s2, v) || Ahead(s2, t, v) || Spared(q, v) {
      if Released(s, v) {
        ReleasedStays(s, s2, v);
      } else if Ahead(s, t, v) {
        var i :| 0 <= i < |todo| && Carries(s, todo[i], v);
        if i > 0 {
          assert s2.lay.todo[t][i - 1] == todo[i];
          assert Carries(s2, s2.lay.todo[t][i - 1], v);
        }
      }
    }
  }

  lemma LookTaken(s: State, t: nat, q: Query, x: Node, list: Option<Node>, inflight: nat, s2: State, v: nat)
    requires Sized(s) && t < |s.pcs| && Carries(s, x, v) && v in s.rooted
    requires s2 == Walked(s, t, q, x, list, inflight)
    ensures Released(s2, v) || Spared(q, v)
  {
    if !Spared(q, v) {
      assert s2.releases[|s.releases|].number == v;
    }
  }

  lemma JoinedQuiet(s: State, t: nat, front: Node)
    requires Sized(s) && t < |s.pcs|
    ensures var s2 := Joined(s, t, front);
            Sized(s2) && s2.lay.query[t] == s.lay.query[t] && s2.lay.taken[t] == s.lay.taken[t]
  {
  }

  // t's record of its last reap is as it was.
  ghost predicate SameReap(s: State, s2: State, t: nat) {
    Sized(s) && Sized(s2) && t < |s.pcs| == |s2.pcs| && s2.lay.query[t] == s.lay.query[t] && s2.lay.taken[t] == s.lay.taken[t]
  }

  lemma QuietPush(s: State, a: Action)
    requires Enabled(s, a) && a.Go? && Pushing(s.pcs[a.t])
    ensures SameReap(s, Next(s, a), a.t)
  {
    if s.pcs[a.t].PushLinked? {
      JoinedQuiet(s, a.t, s.pcs[a.t].n);
    }
  }

  lemma QuietAppend(s: State, a: Action)
    requires Enabled(s, a) && a.Go? && Appending(s.pcs[a.t])
    ensures SameReap(s, Next(s, a), a.t)
  {
    if s.pcs[a.t].AppendLinked? {
      JoinedQuiet(s, a.t, s.pcs[a.t].front);
    }
  }

  lemma QuietStep(s: State, a: Action)
    requires Enabled(s, a) && !Next(s, a).pcs[a.t].Walk?
    ensures SameReap(s, Next(s, a), a.t)
  {
    if a.Go? && Pushing(s.pcs[a.t]) {
      QuietPush(s, a);
    } else if a.Go? && Appending(s.pcs[a.t]) {
      QuietAppend(s, a);
    }
  }

  // Every other step of t.
  lemma QuietTaken(s: State, a: Action)
    requires Enabled(s, a) && TakenOk(s, a.t)
    requires s.pcs[a.t].Walk? ==> s.lay.todo[a.t] == []
    requires !Next(s, a).pcs[a.t].Walk?
    ensures Sized(Next(s, a)) && TakenOk(Next(s, a), a.t)
  {
    var s2 := Next(s, a);
    ReleasesGrow(s, a);
    QuietStep(s, a);
    forall v: nat | v in s.lay.taken[a.t] ensures Released(s2, v) || Spared(s.lay.query[a.t], v) {
      if Released(s, v) {
        ReleasedStays(s, s2, v);
      }
    }
  }

  // What t is about to look at.
  lemma AboutToLook(s: State, t: nat)
    requires Inv(s) && t < |s.pcs| && s.pcs[t].Walk? && s.pcs[t].x.Some?
    ensures var x, todo := s.pcs[t].x.value, s.lay.todo[t];
            && x in s.heap && todo != [] && todo[0] == x && s.heap[x].number in s.rooted
            && forall i :: 1 <= i < |todo| ==> todo[i] != x
  {
    assert ThreadOk(s, t);
    var x, todo, kept := s.pcs[t].x.value, s.lay.todo[t], s.lay.kept[t];
    assert Carries(s, x, s.heap[x].number);
    forall i | 1 <= i < |todo| ensures todo[i] != x {
      assert (todo + kept)[i] == todo[i] && (todo + kept)[0] == x;
    }
  }

  lemma OwnTaken(s: State, a: Action)
    requires Inv(s) && Enabled(s, a) && Inv(Next(s, a)) && TakenOk(s, a.t)
    ensures Sized(Next(s, a)) && TakenOk(Next(s, a), a.t)
  {
    var t, pc := a.t, s.pcs[a.t];
    if pc.ReapRead? && Next(s, a).pcs[t].Walk? {
      SwapTaken(s, t, pc.q);
    } else if pc.Walk? && pc.x.Some? {
      AboutToLook(s, t);
      WalkTaken(s, t, pc.q, pc.x.value, pc.list, a.inflight, Next(s, a));
    } else {
      assert ThreadOk(s, t);
      QuietTaken(s, a);
    }
  }

  lemma StepKeepsThorough(s: State, a: Action)
    requires Inv(s) && Enabled(s, a) && Thorough(s)
    ensures Inv(Next(s, a)) && Thorough(Next(s, a))
  {
    StepKeepsInv(s, a);
    forall t: nat | t < |s.pcs| ensures TakenOk(Next(s, a), t) {
      if t == a.t {
        OwnTaken(s, a);
      } else {
        assert ThreadOk(Next(s, a), t);
        OtherTaken(s, a, t);
      }
    }
  }

  lemma {:induction false} RunKeepsThorough(s: State, acts: seq<Action>, s2: State)
    requires Inv(s) && Thorough(s) && Leads(s, acts, s2)
    ensures Inv(s2) && Thorough(s2)
    decreases |acts|
  {
    if acts != [] {
      StepKeepsThorough(s, acts[0]);
      RunKeepsThorough(Next(s, acts[0]), acts[1..], s2);
    }
  }

  // In every run: once a reap is through its list, every version that was on the list when it swapped it out
  // and is numbered below its limit has been released and is on no list, unless the reap was to go by what is
  // in flight.
  lemma ReapIsThorough(threads: nat, acts: seq<Action>, s: State, t: nat, v: nat)
    requires Leads(Init(threads), acts, s) && Sized(s) && t < |s.pcs| && !s.pcs[t].Walk? && v in s.lay.taken[t]
    requires var q := s.lay.query[t]; !q.onlyConverged && (q.limit == None || v < q.limit.value)
    ensures Released(s, v) && forall n: Node :: !Carries(s, n, v)
  {
    InitInv(threads);
    RunKeepsThorough(Init(threads), acts, s);
    assert TakenOk(s, t);
    var i :| 0 <= i < |s.releases| && s.releases[i].number == v;
  }

  // ----- operations that run alone come to what they are for ----------------------

  lemma LeadsStep(s: State, a: Action, acts: seq<Action>, s2: State)
    requires Enabled(s, a) && Leads(Next(s, a), acts, s2)
    ensures Leads(s, [a] + acts, s2)
  {
    assert ([a] + acts)[1..] == acts;
  }

  // Only t moves, no compare-and-swap fails without a reason, and what is in flight is n.
  ghost predicate Alone(acts: seq<Action>, t: nat, n: nat) {
    forall a :: a in acts ==> a == Go(t, false, n)
  }

  // A push puts its version in front of the list.
  lemma PushSucceeds(s: State, t: nat, n: Node) returns (acts: seq<Action>, s2: State)
    requires Inv(s) && t < |s.pcs| && s.pcs[t] == PushNew(n)
    ensures Alone(acts, t, 0) && Leads(s, acts, s2)
    ensures Sized(s2) && t < |s2.pcs| && s2.pcs[t].Idle? && s2.head == Some(n) && s2.lay.shared == [n] + s.lay.shared
  {
    assert ThreadOk(s, t);
    var go := Go(t, false, 0);
    var s1 := Next(s, go);
    var s3 := Next(s1, go);
    s2 := Next(s3, go);
    LeadsStep(s3, go, [], s2);
    LeadsStep(s1, go, [go] + [], s2);
    LeadsStep(s, go, [go] + ([go] + []), s2);
    acts := [go] + ([go] + ([go] + []));
  }

  // How far a reap still has to go.
  function Far(s: State, t: nat): nat
    requires Sized(s) && t < |s.pcs|
  {
    match s.pcs[t]
    case ReapBegin(_) => 6
    case ReapRead(_, _) => 5
    case Walk(_, _, _) => 4
    case FindTail(_, _) => 3
    case Append(_, _) => 2
    case AppendRead(_, _, _) => 1
    case _ => 0
  }

  // ... within its two loops.
  function Left(s: State, t: nat): nat
    requires Sized(s) && t < |s.pcs|
  {
    match s.pcs[t]
    case Walk(_, _, _) => |s.lay.todo[t]|
    case FindTail(_, tail) => |s.lay.kept[t]| - IndexOf(s.lay.kept[t], tail)
    case _ => 0
  }

  function IndexOf(ns: seq<Node>, n: Node): (i: nat)
    ensures i <= |ns| && (n in ns ==> i < |ns| && ns[i] == n)
    ensures forall j :: 0 <= j < i ==> ns[j] != n
  {
    if ns == [] || ns[0] == n then 0 else 1 + IndexOf(ns[1..], n)
  }

  predicate Reaping(pc: Pc) {
    !pc.Idle? && !pc.PushNew? && !pc.PushRead? && !pc.PushLinked?
  }

  // What t read of the head is still the head.
  predicate Fresh(s: State, t: nat)
    requires t < |s.pcs|
  {
    (s.pcs[t].ReapRead? || s.pcs[t].AppendRead? || s.pcs[t].AppendLinked?) ==> s.pcs[t].seen == s.head
  }

  lemma TailMoves(s: State, t: nat, front: Node, tail: Node)
    requires Sized(s) && t < |s.pcs| && s.pcs[t] == FindTail(front, tail) && ThreadOk(s, t)
    requires tail in s.heap && s.heap[tail].next.Some?
    ensures IndexOf(s.lay.kept[t], s.heap[tail].next.value) == IndexOf(s.lay.kept[t], tail) + 1
    ensures IndexOf(s.lay.kept[t], tail) < |s.lay.kept[t]|
  {
    var kept := s.lay.kept[t];
    var i := IndexOf(kept, tail);
    assert s.lay.todo[t] + kept == kept;
    assert i + 1 < |kept| ==> s.heap[kept[i + 1 - 1]].next == Some(kept[i + 1]);
    IndexIs(kept, i + 1);
  }

  lemma {:induction false} IndexIs(ns: seq<Node>, i: nat)
    requires i < |ns| && Distinct(ns)
    ensures IndexOf(ns, ns[i]) == i
  {
    if i > 0 {
      assert ns[0] != ns[i];
      IndexIs(ns[1..], i - 1);
    }
  }

  // One step of a reap that runs alone.
  ghost predicate Moves(s: State, t: nat, s2: State) {
    && Sized(s) && Sized(s2) && t < |s.pcs| == |s2.pcs|
    && (Reaping(s2.pcs[t]) ==>
          Fresh(s2, t) && (Far(s2, t) < Far(s, t) || (Far(s2, t) == Far(s, t) && Left(s2, t) < Left(s, t))))
    && (!Reaping(s2.pcs[t]) ==> s2.pcs[t].Idle?)
  }

  lemma SwapMoves(s: State, t: nat, n: nat)
    requires Sized(s) && t < |s.pcs| && Fresh(s, t) && (s.pcs[t].ReapBegin? || s.pcs[t].ReapRead?)
    ensures Moves(s, t, Next(s, Go(t, false, n)))
  {
  }

  lemma WalkMoves(s: State, t: nat, n: nat)
    requires Sized(s) && t < |s.pcs| && s.pcs[t].Walk? && ThreadOk(s, t)
    ensures Moves(s, t, Next(s, Go(t, false, n)))
  {
    if s.pcs[t].x.None? && s.pcs[t].list.Some? {
      assert s.lay.kept[t] != [];
    }
  }

  lemma TailStepMoves(s: State, t: nat, n: nat)
    requires Sized(s) && t < |s.pcs| && s.pcs[t].FindTail? && ThreadOk(s, t)
    ensures Moves(s, t, Next(s, Go(t, false, n)))
  {
    var tail := s.pcs[t].tail;
    assert tail in s.heap;
    if s.heap[tail].next.Some? {
      TailMoves(s, t, s.pcs[t].front, tail);
    }
  }

  lemma AppendMoves(s: State, t: nat, n: nat)
    requires Sized(s) && t < |s.pcs| && Fresh(s, t) && ThreadOk(s, t)
    requires s.pcs[t].Append? || s.pcs[t].AppendRead? || s.pcs[t].AppendLinked?
    ensures Moves(s, t, Next(s, Go(t, false, n)))
  {
    assert s.pcs[t].tail in s.lay.kept[t];
  }

  lemma ReapProgress(s: State, t: nat, n: nat)
    requires Inv(s) && t < |s.pcs| && Reaping(s.pcs[t]) && Fresh(s, t)
    ensures Inv(Next(s, Go(t, false, n))) && Moves(s, t, Next(s, Go(t, false, n)))
  {
    StepKeepsInv(s, Go(t, false, n));
    assert ThreadOk(s, t);
    if s.pcs[t].ReapBegin? || s.pcs[t].ReapRead? {
      SwapMoves(s, t, n);
    } else if s.pcs[t].Walk? {
      WalkMoves(s, t, n);
    } else if s.pcs[t].FindTail? {
      TailStepMoves(s, t, n);
    } else {
      AppendMoves(s, t, n);
    }
  }

  // A reap that runs alone comes to an end.
  lemma ReapEnds(s: State, t: nat, n: nat) returns (acts: seq<Action>, s2: State)
    requires Inv(s) && t < |s.pcs| && Reaping(s.pcs[t]) && Fresh(s, t)
    ensures Alone(acts, t, n) && Leads(s, acts, s2) && Inv(s2) && |s2.pcs| == |s.pcs| && s2.pcs[t].Idle?
    decreases Far(s, t), Left(s, t)
  {
    var s1 := Next(s, Go(t, false, n));
    ReapProgress(s, t, n);
    if Reaping(s1.pcs[t]) {
      acts, s2 := ReapEnds(s1, t, n);
    } else {
      acts, s2 := [], s1;
    }
    LeadsStep(s, Go(t, false, n), acts, s2);
    acts := [Go(t, false, n)] + acts;
  }
}
