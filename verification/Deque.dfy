/**
 The work-stealing deque of workqueue.c (Chase and Lev) as a state machine whose steps are single
 loads, stores and compare-and-swaps: one owner that pushes and takes, any number of thieves.

 Indices are mathematical integers: `bottom` drops below `top` for a moment inside a take.  Items are
 the heap pointers the code stores, so no two pushes put in the same one.
 */
module Deque {

  type Item = int
  const NULL: Item := 0

  datatype Array = Array(size: nat, buffer: seq<Item>)

  datatype Owner =
    | Resting
    // workQueuePush
    | PushBottom(x: Item, b: int)                       // loaded bottom
    | PushTop(x: Item, b: int, t: int)                  // ... and top
    | ResizeNew(x: Item, b: int)                        // found the array full; allocated a new one
    | ResizeCopy(x: Item, b: int, lo: int, i: int)      // loaded top (lo); copied up to i
    | PushStore(x: Item, b: int)                        // about to store into the current array
    | PushPublish(x: Item, b: int)                      // stored; about to raise bottom
    // workQueueTake
    | TakeBottom(b: int)                                // loaded bottom
    | TakeArray(b: int, a: nat)                         // ... and the array
    | TakeLowered(b: int, a: nat)                       // stored bottom = b - 1
    | TakeTop(b: int, a: nat, t: int)                   // loaded top and found something
    | TakeLast(b: int, t: int, x: Item)                 // loaded the last item; about to race for it
    | TakeRestore(b: int, x: Item)                      // about to restore bottom, then return x

  // workQueueSteal
  datatype Thief =
    | Away
    | StealTop(t: int)
    | StealBottom(t: int)                               // saw bottom above t
    | StealArray(t: int, a: nat)
    | StealItem(t: int, x: Item)                        // about to race for it

  // The last array is the one being filled during a resize; `current` is the published one.
  // pushed and delivered are history.
  datatype State = State(
    top: int,
    bottom: int,
    arrays: seq<Array>,
    current: nat,
    owner: Owner,
    thieves: seq<Thief>,
    pushed: multiset<Item>,
    delivered: multiset<Item>)

  function Zeros(n: nat): (r: seq<Item>)
    ensures |r| == n
  {
    seq(n, _ => NULL)
  }

  // workQueueNew, with n thieves around
  function Init(n: nat): State {
    State(0, 0, [Array(2, Zeros(2))], 0, Resting, seq(n, _ => Away), multiset{}, multiset{})
  }

  datatype Action =
    | StartPush(x: Item)
    | StartTake
    | Own                                               // the owner's next step
    | Steal(k: nat)                                     // thief k's next step

  // buffer[i % size]
  function At(a: Array, i: int): Item
    requires 0 < a.size == |a.buffer|
  {
    a.buffer[i % a.size]
  }

  function StoreAt(a: Array, i: int, x: Item): Array
    requires 0 < a.size == |a.buffer|
  {
    a.(buffer := a.buffer[i % a.size := x])
  }

  predicate ArraysOk(s: State) {
    && s.current < |s.arrays|
    && (forall a :: 0 <= a < |s.arrays| ==> 0 < s.arrays[a].size == |s.arrays[a].buffer|)
    && (s.owner.TakeArray? || s.owner.TakeLowered? || s.owner.TakeTop? ==> s.owner.a < |s.arrays|)
    && (forall k :: 0 <= k < |s.thieves| && s.thieves[k].StealArray? ==> s.thieves[k].a < |s.arrays|)
  }

  predicate Enabled(s: State, act: Action) {
    match act
    case StartPush(x) => s.owner.Resting? && x != NULL && x !in s.pushed
    case StartTake => s.owner.Resting?
    case Own => !s.owner.Resting?
    case Steal(k) => k < |s.thieves|
  }

  function Deliver(s: State, x: Item): State {
    if x == NULL then s else s.(delivered := s.delivered + multiset{x})
  }

  function OwnerNext(s: State): State
    requires ArraysOk(s)
  {
    match s.owner
    case Resting => s
    case PushBottom(x, b) => s.(owner := PushTop(x, b, s.top))
    case PushTop(x, b, t) =>
      if b - t > s.arrays[s.current].size - 1 then s.(owner := ResizeNew(x, b))
      else s.(owner := PushStore(x, b))
    case ResizeNew(x, b) =>
      // allocates the array of twice the size and loads top
      var size := 2 * s.arrays[s.current].size;
      s.(arrays := s.arrays + [Array(size, Zeros(size))], owner := ResizeCopy(x, b, s.top, s.top))
    case ResizeCopy(x, b, lo, i) =>
      var new_ := |s.arrays| - 1;
      if i < s.bottom then
        s.(arrays := s.arrays[new_ := StoreAt(s.arrays[new_], i, At(s.arrays[s.current], i))],
           owner := ResizeCopy(x, b, lo, i + 1))
      else s.(current := new_, owner := PushStore(x, b))
    case PushStore(x, b) =>
      s.(arrays := s.arrays[s.current := StoreAt(s.arrays[s.current], b, x)], owner := PushPublish(x, b))
    case PushPublish(x, b) => s.(bottom := b + 1, owner := Resting, pushed := s.pushed + multiset{x})
    case TakeBottom(b) => s.(owner := TakeArray(b, s.current))
    case TakeArray(b, a) => s.(bottom := b - 1, owner := TakeLowered(b, a))
    case TakeLowered(b, a) =>
      if b - s.top > 0 then s.(owner := TakeTop(b, a, s.top)) else s.(owner := TakeRestore(b, NULL))
    case TakeTop(b, a, t) =>
      var x := At(s.arrays[a], b - 1);
      if b - t == 1 then s.(owner := TakeLast(b, t, x)) else Deliver(s.(owner := Resting), x)
    case TakeLast(b, t, x) =>
      if s.top == t then s.(top := t + 1, owner := TakeRestore(b, x)) else s.(owner := TakeRestore(b, NULL))
    case TakeRestore(b, x) => Deliver(s.(bottom := b, owner := Resting), x)
  }

  function ThiefNext(s: State, k: nat): State
    requires ArraysOk(s) && k < |s.thieves|
  {
    match s.thieves[k]
    case Away => s.(thieves := s.thieves[k := StealTop(s.top)])
    case StealTop(t) =>
      if s.bottom - t > 0 then s.(thieves := s.thieves[k := StealBottom(t)]) else s.(thieves := s.thieves[k := Away])
    case StealBottom(t) => s.(thieves := s.thieves[k := StealArray(t, s.current)])
    case StealArray(t, a) => s.(thieves := s.thieves[k := StealItem(t, At(s.arrays[a], t))])
    case StealItem(t, x) =>
      var s1 := s.(thieves := s.thieves[k := Away]);
      if s.top == t then Deliver(s1.(top := t + 1), x) else s1
  }

  function Next(s: State, act: Action): State
    requires ArraysOk(s) && Enabled(s, act)
  {
    match act
    case StartPush(x) => s.(owner := PushBottom(x, s.bottom))
    case StartTake => s.(owner := TakeBottom(s.bottom))
    case Own => OwnerNext(s)
    case Steal(k) => ThiefNext(s, k)
  }

  // --- The abstract deque --------------------------------------------------------------------------------

  // One past the last index in the deque.  A take of the last item is undecided until the race for it,
  // so the item still counts although bottom is already below it; a take of any other item has
  // happened as soon as it has loaded top.
  function Limit(s: State): int {
    match s.owner
    case TakeLowered(b, _) => b
    case TakeTop(b, _, t) => if b - t == 1 then b else b - 1
    case TakeLast(b, _, _) => b
    case TakeRestore(b, _) => b
    case _ => s.bottom
  }

  function Window(a: Array, lo: int, hi: int): (r: seq<Item>)
    requires 0 < a.size == |a.buffer|
    ensures |r| == if lo < hi then hi - lo else 0
    ensures forall j :: 0 <= j < |r| ==> r[j] == At(a, lo + j)
  {
    if lo < hi then seq(hi - lo, j requires 0 <= j < hi - lo => At(a, lo + j)) else []
  }

  // Next to steal first, next to take last.
  function Contents(s: State): seq<Item>
    requires ArraysOk(s)
  {
    Window(s.arrays[s.current], s.top, Limit(s))
  }

  // An item the owner has taken off the deque but not returned yet.
  function InHand(s: State): multiset<Item>
    requires ArraysOk(s)
  {
    match s.owner
    case TakeTop(b, a, t) => if b - t == 1 then multiset{} else multiset{At(s.arrays[a], b - 1)}
    case TakeRestore(_, x) => if x == NULL then multiset{} else multiset{x}
    case _ => multiset{}
  }

  // --- Invariant -----------------------------------------------------------------------------------------

  // While top is still t, index t is in the deque and what the thief will find or has found is its item.
  predicate ThiefOk(s: State, th: Thief)
    requires ArraysOk(s)
  {
    (!th.Away? ==> th.t <= s.top) &&
    match th
    case Away => true
    case StealTop(t) => t <= s.top
    case StealBottom(t) => t <= s.top && (s.top == t ==> t < Limit(s))
    case StealArray(t, a) =>
      && a <= s.current && t <= s.top
      && (s.top == t ==> t < Limit(s) && a < |s.arrays| && At(s.arrays[a], t) == At(s.arrays[s.current], t))
    case StealItem(t, x) => t <= s.top && (s.top == t ==> t < Limit(s) && x == At(s.arrays[s.current], t))
  }

  predicate OwnerOk(s: State)
    requires ArraysOk(s)
  {
    match s.owner
    case Resting => true
    case PushBottom(x, b) => b == s.bottom
    case PushTop(x, b, t) => b == s.bottom && t <= s.top
    case ResizeNew(x, b) => b == s.bottom
    case ResizeCopy(x, b, lo, i) =>
      && b == s.bottom
      && s.current < |s.arrays| - 1 && s.arrays[|s.arrays| - 1].size == 2 * s.arrays[s.current].size
      && lo <= i && lo <= s.top && b - lo <= s.arrays[s.current].size
      && forall j :: lo <= j < i && j < b ==> At(s.arrays[|s.arrays| - 1], j) == At(s.arrays[s.current], j)
    case PushStore(x, b) => b == s.bottom && b - s.top < s.arrays[s.current].size
    case PushPublish(x, b) =>
      b == s.bottom && b - s.top < s.arrays[s.current].size && At(s.arrays[s.current], b) == x
    case TakeBottom(b) => b == s.bottom
    case TakeArray(b, a) => b == s.bottom && a == s.current
    case TakeLowered(b, a) => s.bottom == b - 1 && a == s.current
    case TakeTop(b, a, t) => s.bottom == b - 1 && a == s.current && t <= s.top && t < b
    case TakeLast(b, t, x) =>
      && s.bottom == b - 1 && t == b - 1 && t <= s.top
      && (s.top == t ==> x == At(s.arrays[s.current], t))
    case TakeRestore(b, x) => s.bottom == b - 1 && s.top == b
  }

  // The item of a push is new; it counts as pushed once bottom is raised over it.
  predicate ItemOk(s: State) {
    match s.owner
    case PushBottom(x, _) => x != NULL && x !in s.pushed
    case PushTop(x, _, _) => x != NULL && x !in s.pushed
    case ResizeNew(x, _) => x != NULL && x !in s.pushed
    case ResizeCopy(x, _, _, _) => x != NULL && x !in s.pushed
    case PushStore(x, _) => x != NULL && x !in s.pushed
    case PushPublish(x, _) => x != NULL && x !in s.pushed
    case _ => true
  }

  predicate ShapeInv(s: State) {
    && ArraysOk(s)
    && s.top <= Limit(s) && Limit(s) - s.top <= s.arrays[s.current].size
    && s.bottom <= Limit(s)
    && OwnerOk(s)
    && forall k :: 0 <= k < |s.thieves| ==> ThiefOk(s, s.thieves[k])
  }

  ghost predicate Inv(s: State) {
    && ShapeInv(s) && ItemOk(s)
    && s.pushed == s.delivered + multiset(Contents(s)) + InHand(s)
    && NULL !in s.pushed
    && forall x :: s.pushed[x] <= 1
  }

  // --- Proofs ----------------------------------------------------------------------------------------------

  // Two indices less than a buffer length apart live in different slots.
  lemma SlotsDiffer(i: int, j: int, size: nat)
    requires 0 < size && i < j < i + size
    ensures i % size != j % size
  {
    var q := j / size - i / size;
    assert j - i == size * q + (j % size - i % size);
    if q >= 1 {
      assert size * q >= size;
    } else {
      assert size * q <= 0;
    }
  }

  // workQueueResize's loop, when no one steals meanwhile: the new buffer, of twice the length, has the same
  // items at the same indices.
  method Resize(a: array<Item>, top: int, bottom: int) returns (b: array<Item>)
    requires a.Length > 0 && top <= bottom <= top + 2 * a.Length
    ensures fresh(b) && b.Length == 2 * a.Length
    ensures Window(Array(b.Length, b[..]), top, bottom) == Window(Array(a.Length, a[..]), top, bottom)
  {
    b := new Item[2 * a.Length](_ => NULL);
    for i := top to bottom
      invariant forall j :: top <= j < i ==> b[j % b.Length] == a[j % a.Length]
    {
      forall j | top <= j < i ensures j % b.Length != i % b.Length {
        SlotsDiffer(j, i, b.Length);
      }
      b[i % b.Length] := a[i % a.Length];
    }
  }

  lemma StoreElsewhere(a: Array, i: int, x: Item, j: int)
    requires 0 < a.size == |a.buffer| && (i < j < i + a.size || j < i < j + a.size)
    ensures At(StoreAt(a, i, x), j) == At(a, j)
  {
    if i < j { SlotsDiffer(i, j, a.size); } else { SlotsDiffer(j, i, a.size); }
  }

  lemma InitInv(n: nat)
    ensures Inv(Init(n))
  {
  }

  // How a step acts on the deque's contents.
  datatype Effect = Nothing | Pushed(x: Item) | TookLast | StoleFirst

  ghost predicate Did(s: State, s2: State, e: Effect)
    requires ArraysOk(s) && ArraysOk(s2)
  {
    match e
    case Nothing => Contents(s2) == Contents(s)
    case Pushed(x) => Contents(s2) == Contents(s) + [x]
    case TookLast => Contents(s) != [] && Contents(s2) == Contents(s)[..|Contents(s)| - 1]
    case StoleFirst => Contents(s) != [] && Contents(s2) == Contents(s)[1..]
  }

  function EffectOf(s: State, act: Action): Effect
    requires ArraysOk(s) && Enabled(s, act)
  {
    match act
    case Own =>
      (match s.owner
       case PushPublish(x, _) => Pushed(x)
       case TakeLowered(b, _) => if b - s.top > 1 then TookLast else Nothing
       case TakeLast(_, t, _) => if s.top == t then TookLast else Nothing
       case _ => Nothing)
    case Steal(k) => if s.thieves[k].StealItem? && s.top == s.thieves[k].t then StoleFirst else Nothing
    case _ => Nothing
  }

  ghost predicate ThievesOk(s: State)
    requires ArraysOk(s)
  {
    forall k :: 0 <= k < |s.thieves| ==> ThiefOk(s, s.thieves[k])
  }

  // The thieves do not notice an owner's step that writes no published slot and does not take the
  // item at top away.
  lemma ThievesKept(s: State, s2: State)
    requires ShapeInv(s) && ArraysOk(s2)
    requires s2.thieves == s.thieves && s2.top == s.top && s2.current == s.current && |s.arrays| <= |s2.arrays|
    requires forall a :: 0 <= a <= s.current ==> s2.arrays[a] == s.arrays[a]
    requires s.top < Limit(s) ==> s.top < Limit(s2)
    ensures ThievesOk(s2)
  {
    forall k | 0 <= k < |s.thieves| ensures ThiefOk(s2, s.thieves[k]) {
      assert ThiefOk(s, s.thieves[k]);
    }
  }

  lemma PushKeepsShape(s: State)
    requires ShapeInv(s) && (s.owner.PushBottom? || s.owner.PushTop? || s.owner.PushPublish? || s.owner.ResizeNew?)
    ensures ShapeInv(OwnerNext(s))
  {
    ThievesKept(s, OwnerNext(s));
  }

  // The pushed item goes into a slot that no index of the deque uses.
  lemma StoreKeepsShape(s: State)
    requires ShapeInv(s) && s.owner.PushStore?
    ensures ShapeInv(OwnerNext(s))
    ensures forall j :: s.top <= j < s.owner.b ==> At(OwnerNext(s).arrays[s.current], j) == At(s.arrays[s.current], j)
  {
    var s2 := OwnerNext(s);
    forall j | s.top <= j < s.owner.b ensures At(s2.arrays[s.current], j) == At(s.arrays[s.current], j) {
      StoreElsewhere(s.arrays[s.current], s.owner.b, s.owner.x, j);
    }
    forall k | 0 <= k < |s.thieves| ensures ThiefOk(s2, s.thieves[k]) {
      assert ThiefOk(s, s.thieves[k]);
    }
  }

  lemma CopyKeepsShape(s: State)
    requires ShapeInv(s) && s.owner.ResizeCopy? && s.owner.i < s.bottom
    ensures ShapeInv(OwnerNext(s))
  {
    var s2 := OwnerNext(s);
    var new_, i := |s.arrays| - 1, s.owner.i;
    ThievesKept(s, s2);
    forall j | s.owner.lo <= j < i + 1 && j < s.owner.b ensures At(s2.arrays[new_], j) == At(s.arrays[s.current], j) {
      if j < i {
        StoreElsewhere(s.arrays[new_], i, At(s.arrays[s.current], i), j);
      }
    }
  }

  // Publishing the copy: every index of the deque reads the same through the new array.
  lemma PublishKeepsShape(s: State)
    requires ShapeInv(s) && s.owner.ResizeCopy? && s.owner.i >= s.bottom
    ensures ShapeInv(OwnerNext(s))
    ensures forall j :: s.top <= j < s.bottom ==>
              At(OwnerNext(s).arrays[OwnerNext(s).current], j) == At(s.arrays[s.current], j)
  {
    var s2 := OwnerNext(s);
    forall k | 0 <= k < |s.thieves| ensures ThiefOk(s2, s.thieves[k]) {
      assert ThiefOk(s, s.thieves[k]);
    }
  }

  lemma TakeKeepsShape(s: State)
    requires ShapeInv(s)
    requires s.owner.TakeBottom? || s.owner.TakeArray? || s.owner.TakeLowered? || s.owner.TakeTop? || s.owner.TakeRestore?
    ensures ShapeInv(OwnerNext(s))
  {
    ThievesKept(s, OwnerNext(s));
  }

  lemma LastKeepsShape(s: State)
    requires ShapeInv(s) && s.owner.TakeLast?
    ensures ShapeInv(OwnerNext(s))
  {
    var s2 := OwnerNext(s);
    forall k | 0 <= k < |s.thieves| ensures ThiefOk(s2, s.thieves[k]) {
      assert ThiefOk(s, s.thieves[k]);
    }
  }

  lemma OwnerKeepsShape(s: State)
    requires ShapeInv(s) && !s.owner.Resting?
    ensures ShapeInv(OwnerNext(s))
  {
    match s.owner
    case PushStore(_, _) => StoreKeepsShape(s);
    case ResizeCopy(_, _, _, i) => if i < s.bottom { CopyKeepsShape(s); } else { PublishKeepsShape(s); }
    case TakeLast(_, _, _) => LastKeepsShape(s);
    case PushBottom(_, _) => PushKeepsShape(s);
    case PushTop(_, _, _) => PushKeepsShape(s);
    case PushPublish(_, _) => PushKeepsShape(s);
    case ResizeNew(_, _) => PushKeepsShape(s);
    case _ => TakeKeepsShape(s);
  }

  // A thief that loses or is still looking changes only itself.
  lemma ThiefMoves(s: State, k: nat)
    requires ShapeInv(s) && k < |s.thieves| && ThiefNext(s, k).top == s.top
    ensures var s2 := ThiefNext(s, k);
            |s2.thieves| == |s.thieves| && s2 == s.(thieves := s.thieves[k := s2.thieves[k]]) && ThiefOk(s, s2.thieves[k])
  {
    assert ThiefOk(s, s.thieves[k]);
  }

  lemma ThiefLooks(s: State, k: nat)
    requires ShapeInv(s) && k < |s.thieves| && ThiefNext(s, k).top == s.top
    ensures ShapeInv(ThiefNext(s, k))
  {
    var s2 := ThiefNext(s, k);
    ThiefMoves(s, k);
    forall l | 0 <= l < |s.thieves| ensures ThiefOk(s2, s2.thieves[l]) {
      assert ThiefOk(s, s2.thieves[l]);
    }
  }

  // One that wins moves top past the item that every other thief at that index was after.
  lemma ThiefWins(s: State, k: nat)
    requires ShapeInv(s) && k < |s.thieves| && s.thieves[k].StealItem? && s.top == s.thieves[k].t
    ensures ShapeInv(ThiefNext(s, k))
  {
    var s2 := ThiefNext(s, k);
    assert ThiefOk(s, s.thieves[k]);
    forall l | 0 <= l < |s.thieves| ensures ThiefOk(s2, s2.thieves[l]) {
      assert ThiefOk(s, s.thieves[l]);
    }
  }

  // --- Refinement of a sequence ---------------------------------------------------------------------------

  lemma SameWindow(a: Array, a2: Array, lo: int, hi: int)
    requires 0 < a.size == |a.buffer| && 0 < a2.size == |a2.buffer|
    requires forall j :: lo <= j < hi ==> At(a2, j) == At(a, j)
    ensures Window(a2, lo, hi) == Window(a, lo, hi)
  {
  }

  lemma WindowEnds(a: Array, lo: int, hi: int)
    requires 0 < a.size == |a.buffer| && lo < hi
    ensures Window(a, lo, hi) == Window(a, lo, hi - 1) + [At(a, hi - 1)]
    ensures Window(a, lo, hi) == [At(a, lo)] + Window(a, lo + 1, hi)
  {
  }

  // What an effect takes out of the deque.
  function Gone(e: Effect, c: seq<Item>): multiset<Item> {
    match e
    case TookLast => if c == [] then multiset{} else multiset{c[|c| - 1]}
    case StoleFirst => if c == [] then multiset{} else multiset{c[0]}
    case _ => multiset{}
  }

  ghost predicate NoNull(s: State)
    requires ArraysOk(s)
  {
    NULL !in Contents(s) && NULL !in InHand(s)
  }

  // Every step does to the contents what EffectOf says, and what leaves the deque is delivered, or in
  // the owner's hand until it is.
  ghost predicate Flows(s: State, act: Action)
    requires ArraysOk(s) && Enabled(s, act)
  {
    var s2, e := Next(s, act), EffectOf(s, act);
    && ShapeInv(s2)
    && Did(s, s2, e)
    && s2.delivered + InHand(s2) == s.delivered + InHand(s) + Gone(e, Contents(s))
  }

  // Steps of a push that change neither contents nor hand.
  lemma PushLooksFlows(s: State)
    requires ShapeInv(s) && (s.owner.PushBottom? || s.owner.PushTop? || s.owner.ResizeNew?)
    ensures Flows(s, Own)
  {
    OwnerKeepsShape(s);
    assert Contents(OwnerNext(s)) == Contents(s);
  }

  lemma PublishChanges(s: State)
    requires ArraysOk(s) && s.owner.PushPublish? && ArraysOk(OwnerNext(s))
    ensures var s2 := OwnerNext(s);
            && s2.arrays == s.arrays && s2.current == s.current && s2.top == s.top && s2.delivered == s.delivered
            && Limit(s) == s.bottom && Limit(s2) == s.owner.b + 1
            && InHand(s) == multiset{} && InHand(s2) == multiset{}
  {
  }

  // Raising bottom appends the item.
  lemma PublishContents(s: State)
    requires ArraysOk(s) && OwnerOk(s) && s.owner.PushPublish? && s.top <= s.bottom && ArraysOk(OwnerNext(s))
    ensures var s2 := OwnerNext(s);
            Contents(s2) == Contents(s) + [s.owner.x] && InHand(s2) == InHand(s) && s2.delivered == s.delivered
  {
    PublishChanges(s);
    WindowEnds(s.arrays[s.current], s.top, s.bottom + 1);
  }

  lemma PushFlows(s: State)
    requires ShapeInv(s) && (s.owner.PushBottom? || s.owner.PushTop? || s.owner.ResizeNew? || s.owner.PushPublish?)
    ensures Flows(s, Own)
  {
    if s.owner.PushPublish? {
      OwnerKeepsShape(s);
      PublishContents(s);
      assert EffectOf(s, Own) == Pushed(s.owner.x);
    } else {
      PushLooksFlows(s);
    }
  }

  lemma StoreFlows(s: State)
    requires ShapeInv(s) && s.owner.PushStore?
    ensures Flows(s, Own)
  {
    var s2 := OwnerNext(s);
    StoreKeepsShape(s);
    SameWindow(s.arrays[s.current], s2.arrays[s.current], s.top, s.bottom);
  }

  lemma CopyFlows(s: State)
    requires ShapeInv(s) && s.owner.ResizeCopy?
    ensures Flows(s, Own)
  {
    var s2 := OwnerNext(s);
    if s.owner.i < s.bottom {
      CopyKeepsShape(s);
    } else {
      PublishKeepsShape(s);
    }
    SameWindow(s.arrays[s.current], s2.arrays[s2.current], s.top, s.bottom);
  }

  lemma TakeStartFlows(s: State)
    requires ShapeInv(s) && (s.owner.TakeBottom? || s.owner.TakeArray?)
    ensures Flows(s, Own)
  {
    TakeKeepsShape(s);
  }

  lemma TakeSeveralFlows(s: State)
    requires ShapeInv(s) && s.owner.TakeLowered? && s.owner.b - s.top > 1
    ensures Flows(s, Own)
  {
    TakeKeepsShape(s);
    TakesContents(s);
    assert EffectOf(s, Own) == TookLast;
  }

  // The last of several items leaves the contents for the owner's hand.
  lemma TakesContents(s: State)
    requires ArraysOk(s) && OwnerOk(s) && s.owner.TakeLowered? && s.owner.b - s.top > 1 && ArraysOk(OwnerNext(s))
    ensures var s2, x := OwnerNext(s), At(s.arrays[s.current], s.owner.b - 1);
            && Contents(s) == Contents(s2) + [x] && InHand(s) == multiset{} && InHand(s2) == multiset{x}
            && s2.delivered == s.delivered
  {
    WindowEnds(s.arrays[s.current], s.top, s.owner.b);
  }

  lemma TakeFewFlows(s: State)
    requires ShapeInv(s) && s.owner.TakeLowered? && s.owner.b - s.top <= 1
    ensures Flows(s, Own)
  {
    TakeKeepsShape(s);
  }

  lemma TakeLoweredFlows(s: State)
    requires ShapeInv(s) && s.owner.TakeLowered?
    ensures Flows(s, Own)
  {
    if s.owner.b - s.top > 1 { TakeSeveralFlows(s); } else { TakeFewFlows(s); }
  }

  lemma TakeTopFlows(s: State)
    requires ShapeInv(s) && NoNull(s) && s.owner.TakeTop?
    ensures Flows(s, Own)
  {
    TakeKeepsShape(s);
    var s2 := OwnerNext(s);
    if s.owner.b - s.owner.t != 1 {
      assert At(s.arrays[s.owner.a], s.owner.b - 1) in InHand(s);
      assert s2.arrays == s.arrays && s2.top == s.top && Limit(s2) == Limit(s);
    }
    assert Contents(s2) == Contents(s);
  }

  lemma WinsLastFlows(s: State)
    requires ShapeInv(s) && NoNull(s) && s.owner.TakeLast? && s.top == s.owner.t
    ensures Flows(s, Own)
  {
    LastKeepsShape(s);
    WinsLastContents(s);
    assert EffectOf(s, Own) == TookLast;
    assert Did(s, OwnerNext(s), TookLast);
  }

  // The last item leaves the contents for the owner's hand.
  lemma WinsLastContents(s: State)
    requires ShapeInv(s) && NoNull(s) && s.owner.TakeLast? && s.top == s.owner.t
    ensures var s2, x := OwnerNext(s), s.owner.x;
            && ArraysOk(s2) && Contents(s) == [x] && Contents(s2) == []
            && InHand(s) == multiset{} && InHand(s2) == multiset{x} && s2.delivered == s.delivered
  {
    WindowEnds(s.arrays[s.current], s.top, s.owner.b);
    assert s.owner.x in Contents(s);
  }

  lemma LosesLastFlows(s: State)
    requires ShapeInv(s) && NoNull(s) && s.owner.TakeLast? && s.top != s.owner.t
    ensures Flows(s, Own)
  {
    LastKeepsShape(s);
  }

  lemma RestoreFlows(s: State)
    requires ShapeInv(s) && NoNull(s) && s.owner.TakeRestore?
    ensures Flows(s, Own)
  {
    TakeKeepsShape(s);
  }

  lemma LastFlows(s: State)
    requires ShapeInv(s) && NoNull(s) && (s.owner.TakeLast? || s.owner.TakeRestore?)
    ensures Flows(s, Own)
  {
    if s.owner.TakeRestore? {
      RestoreFlows(s);
    } else if s.top == s.owner.t {
      WinsLastFlows(s);
    } else {
      LosesLastFlows(s);
    }
  }

  lemma LooksFlows(s: State, k: nat)
    requires ShapeInv(s) && k < |s.thieves| && !(s.thieves[k].StealItem? && s.top == s.thieves[k].t)
    ensures Flows(s, Steal(k))
  {
    ThiefLooks(s, k);
    var s2 := ThiefNext(s, k);
    assert s2 == s.(thieves := s2.thieves);
    assert Contents(s2) == Contents(s) && InHand(s2) == InHand(s);
  }

  lemma WinsFlows(s: State, k: nat)
    requires ShapeInv(s) && NoNull(s) && k < |s.thieves| && s.thieves[k].StealItem? && s.top == s.thieves[k].t
    ensures Flows(s, Steal(k))
  {
    ThiefWins(s, k);
    WinsContents(s, k);
    assert EffectOf(s, Steal(k)) == StoleFirst;
    assert Did(s, ThiefNext(s, k), StoleFirst);
  }

  // What a win changes, and what it leaves alone.
  lemma WinChanges(s: State, k: nat)
    requires ArraysOk(s) && k < |s.thieves| && s.thieves[k].StealItem? && s.top == s.thieves[k].t
    ensures var s2 := ThiefNext(s, k);
            && s2.top == s.top + 1 && s2.delivered == Deliver(s, s.thieves[k].x).delivered
            && s2.arrays == s.arrays && s2.current == s.current && s2.bottom == s.bottom && s2.owner == s.owner
  {
  }

  lemma SameOwnSide(s: State, s2: State)
    requires ArraysOk(s) && ArraysOk(s2) && s2.arrays == s.arrays && s2.bottom == s.bottom && s2.owner == s.owner
    ensures Limit(s2) == Limit(s) && InHand(s2) == InHand(s)
  {
  }

  // The first item leaves the contents and is delivered.
  lemma WinsContents(s: State, k: nat)
    requires ShapeInv(s) && NoNull(s) && k < |s.thieves| && s.thieves[k].StealItem? && s.top == s.thieves[k].t
    requires ArraysOk(ThiefNext(s, k))
    ensures var s2, c, x := ThiefNext(s, k), Contents(s), s.thieves[k].x;
            && c != [] && x == c[0] && Contents(s2) == c[1..]
            && InHand(s2) == InHand(s) && s2.delivered == s.delivered + multiset{x}
  {
    assert ThiefOk(s, s.thieves[k]);
    WindowEnds(s.arrays[s.current], s.top, Limit(s));
    WinChanges(s, k);
    SameOwnSide(s, ThiefNext(s, k));
    assert Contents(s)[0] in Contents(s);
  }

  lemma StepFlows(s: State, act: Action)
    requires ShapeInv(s) && NoNull(s) && Enabled(s, act)
    ensures Flows(s, act)
  {
    match act
    case StartPush(x) => ThievesKept(s, Next(s, act));
    case StartTake => ThievesKept(s, Next(s, act));
    case Steal(k) =>
      if s.thieves[k].StealItem? && s.top == s.thieves[k].t { WinsFlows(s, k); } else { LooksFlows(s, k); }
    case Own =>
      match s.owner
      case PushStore(_, _) => StoreFlows(s);
      case ResizeCopy(_, _, _, _) => CopyFlows(s);
      case TakeLast(_, _, _) => LastFlows(s);
      case TakeRestore(_, _) => LastFlows(s);
      case TakeBottom(_) => TakeStartFlows(s);
      case TakeArray(_, _) => TakeStartFlows(s);
      case TakeLowered(_, _) => TakeLoweredFlows(s);
      case TakeTop(_, _, _) => TakeTopFlows(s);
      case _ => PushFlows(s);
  }

  lemma GoneAndLeft(e: Effect, c: seq<Item>, c2: seq<Item>)
    requires match e
             case Nothing => c2 == c
             case Pushed(x) => c2 == c + [x]
             case TookLast => c != [] && c2 == c[..|c| - 1]
             case StoleFirst => c != [] && c2 == c[1..]
    ensures multiset(c2) + Gone(e, c) == multiset(c) + if e.Pushed? then multiset{e.x} else multiset{}
  {
    match e
    case TookLast => assert c == c2 + [c[|c| - 1]];
    case StoleFirst => assert c == [c[0]] + c2;
    case _ =>
  }

  lemma ItemsKept(s: State, act: Action)
    requires ArraysOk(s) && ItemOk(s) && Enabled(s, act)
    ensures ItemOk(Next(s, act))
    ensures var e := EffectOf(s, act);
            && Next(s, act).pushed == s.pushed + (if e.Pushed? then multiset{e.x} else multiset{})
            && (e.Pushed? ==> e.x != NULL && e.x !in s.pushed)
  {
  }

  lemma StepKeepsInv(s: State, act: Action)
    requires Inv(s) && Enabled(s, act)
    ensures Inv(Next(s, act)) && Did(s, Next(s, act), EffectOf(s, act))
  {
    forall x | x in Contents(s) ensures x in s.pushed {
      assert x in multiset(Contents(s));
    }
    assert NoNull(s);
    StepFlows(s, act);
    ItemsKept(s, act);
    var s2, e, c := Next(s, act), EffectOf(s, act), Contents(s);
    GoneAndLeft(e, c, Contents(s2));
    Balance(s.pushed, s2.pushed, s.delivered, s2.delivered, InHand(s), InHand(s2),
            multiset(c), multiset(Contents(s2)), Gone(e, c), if e.Pushed? then multiset{e.x} else multiset{});
  }

  lemma Balance(pushed: multiset<Item>, pushed2: multiset<Item>, out: multiset<Item>, out2: multiset<Item>,
                hand: multiset<Item>, hand2: multiset<Item>, c: multiset<Item>, c2: multiset<Item>,
                gone: multiset<Item>, more: multiset<Item>)
    requires pushed == out + c + hand && pushed2 == pushed + more
    requires c2 + gone == c + more && out2 + hand2 == out + hand + gone
    ensures pushed2 == out2 + c2 + hand2
  {
    forall x: Item ensures pushed2[x] == (out2 + c2 + hand2)[x] {
      assert (c2 + gone)[x] == (c + more)[x];
      assert (out2 + hand2)[x] == (out + hand + gone)[x];
    }
  }

  // --- Over whole runs -------------------------------------------------------------------------------------

  ghost predicate Leads(s: State, acts: seq<Action>, s2: State)
    decreases |acts|
  {
    if acts == [] then s2 == s
    else ArraysOk(s) && Enabled(s, acts[0]) && Leads(Next(s, acts[0]), acts[1..], s2)
  }

  lemma {:induction false} RunKeepsInv(s: State, acts: seq<Action>, s2: State)
    requires Inv(s) && Leads(s, acts, s2)
    ensures Inv(s2)
    decreases |acts|
  {
    if acts != [] {
      StepKeepsInv(s, acts[0]);
      RunKeepsInv(Next(s, acts[0]), acts[1..], s2);
    }
  }

  // In every interleaving of the owner and any number of thieves, the items pushed are exactly those
  // delivered, those still in the deque and the one the owner may be holding; none is delivered twice,
  // and none that was delivered is still there.
  lemma ExactlyOnce(n: nat, acts: seq<Action>, s: State, x: Item)
    requires Leads(Init(n), acts, s)
    ensures ArraysOk(s) && s.pushed == s.delivered + multiset(Contents(s)) + InHand(s)
    ensures s.delivered[x] <= 1
    ensures x in s.delivered ==> x in s.pushed && x !in Contents(s)
  {
    InitInv(n);
    RunKeepsInv(Init(n), acts, s);
    assert s.pushed[x] <= 1;
    if x in Contents(s) {
      assert x in multiset(Contents(s));
    }
  }

  // In every interleaving, each step acts on the contents as a double-ended queue would: a push appends
  // at the bottom, a take removes there, a steal removes at the top, and no other step changes anything.
  lemma RefinesSequence(n: nat, acts: seq<Action>, s: State, act: Action)
    requires Leads(Init(n), acts, s) && ArraysOk(s) && Enabled(s, act)
    ensures ArraysOk(Next(s, act)) && Did(s, Next(s, act), EffectOf(s, act))
    ensures EffectOf(s, act).StoleFirst? ==> Next(s, act).delivered == s.delivered + multiset{Contents(s)[0]}
    ensures EffectOf(s, act).TookLast? ==>
              Next(s, act).delivered == s.delivered && InHand(Next(s, act)) == multiset{Contents(s)[|Contents(s)| - 1]}
    ensures act.Own? && InHand(s) != multiset{} ==>
              Next(s, act).delivered == s.delivered + InHand(s) && InHand(Next(s, act)) == multiset{}
  {
    InitInv(n);
    RunKeepsInv(Init(n), acts, s);
    StepKeepsInv(s, act);
    assert NoNull(s);
    StepFlows(s, act);
    if EffectOf(s, act).StoleFirst? {
      StolenIsDelivered(s, act.k);
    } else if EffectOf(s, act).TookLast? {
      TakenIsHeld(s);
    } else if act.Own? && InHand(s) != multiset{} {
      HeldIsDelivered(s);
    }
  }

  // What a winning thief returns is the first of the contents.
  lemma StolenIsDelivered(s: State, k: nat)
    requires ShapeInv(s) && NoNull(s) && k < |s.thieves| && EffectOf(s, Steal(k)).StoleFirst?
    ensures Contents(s) != [] && ThiefNext(s, k).delivered == s.delivered + multiset{Contents(s)[0]}
  {
    assert ThiefOk(s, s.thieves[k]);
    assert Contents(s)[0] in Contents(s);
  }

  lemma TakeDeliversLater(s: State)
    requires ArraysOk(s) && !s.owner.Resting? && EffectOf(s, Own).TookLast?
    ensures OwnerNext(s).delivered == s.delivered && InHand(s) == multiset{}
  {
  }

  lemma Cancel(d: multiset<Item>, a: multiset<Item>, b: multiset<Item>)
    requires d + a == d + b
    ensures a == b
  {
    assert a == (d + a) - d && b == (d + b) - d;
  }

  // What a take removes is then in the owner's hand, ...
  lemma TakenIsHeld(s: State)
    requires ArraysOk(s) && !s.owner.Resting? && EffectOf(s, Own).TookLast? && ArraysOk(OwnerNext(s)) && Contents(s) != []
    requires OwnerNext(s).delivered + InHand(OwnerNext(s)) == s.delivered + InHand(s) + Gone(TookLast, Contents(s))
    ensures OwnerNext(s).delivered == s.delivered
    ensures InHand(OwnerNext(s)) == multiset{Contents(s)[|Contents(s)| - 1]}
  {
    TakeDeliversLater(s);
    Cancel(s.delivered, InHand(OwnerNext(s)), Gone(TookLast, Contents(s)));
  }

  // ... and what is in the owner's hand it returns with its next step.
  lemma HeldIsDelivered(s: State)
    requires ShapeInv(s) && NoNull(s) && InHand(s) != multiset{}
    ensures OwnerNext(s).delivered == s.delivered + InHand(s) && InHand(OwnerNext(s)) == multiset{}
  {
    assert s.owner.TakeTop? ==> At(s.arrays[s.owner.a], s.owner.b - 1) in InHand(s);
  }

  // A take that is about to return nothing has found the deque empty, and until the owner pushes again
  // it stays empty, through any number of further takes and steals: everything ever pushed has been
  // delivered.  This is what the loops that donate a worker's queue rely on when they stop at the first
  // NONE.
  lemma {:induction false} NoneMeansDrained(n: nat, acts: seq<Action>, s: State, later: seq<Action>, s2: State)
    requires Leads(Init(n), acts, s) && s.owner.TakeRestore? && s.owner.x == NULL
    requires Leads(s, later, s2) && forall a :: a in later ==> !a.StartPush?
    ensures ArraysOk(s2) && Contents(s2) == [] && s2.pushed == s2.delivered
  {
    InitInv(n);
    RunKeepsInv(Init(n), acts, s);
    StaysDrained(s, later, s2);
  }

  // The owner rests, or is somewhere in a take, with nothing between top and bottom.
  predicate Drained(s: State) {
    match s.owner
    case Resting => s.top == s.bottom
    case TakeBottom(b) => s.top == b
    case TakeArray(b, _) => s.top == b
    case TakeLowered(b, _) => s.top == b
    case TakeRestore(b, x) => s.top == b && x == NULL
    case _ => false
  }

  lemma DrainedStep(s: State, a: Action)
    requires Inv(s) && Drained(s) && Enabled(s, a) && !a.StartPush?
    ensures Drained(Next(s, a))
  {
    if a.Steal? {
      assert ThiefOk(s, s.thieves[a.k]);
    }
  }

  lemma {:induction false} StaysDrained(s: State, later: seq<Action>, s2: State)
    requires Inv(s) && Drained(s) && Leads(s, later, s2) && forall a :: a in later ==> !a.StartPush?
    ensures ArraysOk(s2) && Contents(s2) == [] && s2.pushed == s2.delivered
    decreases |later|
  {
    if later == [] {
      assert Contents(s) == [];
    } else {
      StepKeepsInv(s, later[0]);
      DrainedStep(s, later[0]);
      StaysDrained(Next(s, later[0]), later[1..], s2);
    }
  }

  // --- Operations that run undisturbed come to what they are for ---------------------------------------------

  lemma LeadsStep(s: State, a: Action, acts: seq<Action>, s2: State)
    requires ArraysOk(s) && Enabled(s, a) && Leads(Next(s, a), acts, s2)
    ensures Leads(s, [a] + acts, s2)
  {
    assert ([a] + acts)[1..] == acts;
  }

  // Thief k at step pc, nothing else changed.
  function Thieving(s: State, k: nat, pc: Thief): State
    requires k < |s.thieves|
  {
    s.(thieves := s.thieves[k := pc])
  }

  // In every run, a steal that runs alone on a deque that is not empty returns the first item.
  lemma StealSucceeds(n: nat, before: seq<Action>, s: State, k: nat) returns (acts: seq<Action>, s2: State)
    requires Leads(Init(n), before, s) && ArraysOk(s) && s.owner.Resting? && k < |s.thieves| && s.thieves[k].Away? && Contents(s) != []
    ensures (forall a :: a in acts ==> a == Steal(k)) && Leads(s, acts, s2) && ArraysOk(s2)
    ensures s2.thieves == s.thieves && s2.owner == s.owner
    ensures s2.delivered == s.delivered + multiset{Contents(s)[0]} && Contents(s2) == Contents(s)[1..]
  {
    InitInv(n);
    RunKeepsInv(Init(n), before, s);
    var t, a := s.top, s.current;
    var x := At(s.arrays[a], t);
    var s1, s3, s4, s5 := Thieving(s, k, StealTop(t)), Thieving(s, k, StealBottom(t)), Thieving(s, k, StealArray(t, a)),
                          Thieving(s, k, StealItem(t, x));
    StealSteps(s, k);
    s2 := ThiefNext(s5, k);
    assert NULL !in multiset(Contents(s));
    WinsUndisturbed(s, s5, k);
    acts := [];
    LeadsStep(s5, Steal(k), acts, s2);
    acts := [Steal(k)] + acts;
    LeadsStep(s4, Steal(k), acts, s2);
    acts := [Steal(k)] + acts;
    LeadsStep(s3, Steal(k), acts, s2);
    acts := [Steal(k)] + acts;
    LeadsStep(s1, Steal(k), acts, s2);
    acts := [Steal(k)] + acts;
    LeadsStep(s, Steal(k), acts, s2);
    acts := [Steal(k)] + acts;
  }

  lemma StealSteps(s: State, k: nat)
    requires ArraysOk(s) && s.owner.Resting? && k < |s.thieves| && s.thieves[k].Away? && Contents(s) != []
    ensures var t, a := s.top, s.current;
            var s1, s3, s4 := Thieving(s, k, StealTop(t)), Thieving(s, k, StealBottom(t)), Thieving(s, k, StealArray(t, a));
            && ThiefNext(s, k) == s1
            && ArraysOk(s1) && ThiefNext(s1, k) == s3
            && ArraysOk(s3) && ThiefNext(s3, k) == s4
            && ArraysOk(s4) && ThiefNext(s4, k) == Thieving(s, k, StealItem(t, At(s.arrays[a], t)))
            && ArraysOk(Thieving(s, k, StealItem(t, At(s.arrays[a], t))))
  {
    assert s.bottom - s.top > 0;
  }

  lemma WinsUndisturbed(s: State, s5: State, k: nat)
    requires ArraysOk(s) && s.owner.Resting? && k < |s.thieves| && s.thieves[k].Away? && Contents(s) != []
    requires NULL !in Contents(s)
    requires s5 == Thieving(s, k, StealItem(s.top, At(s.arrays[s.current], s.top))) && ArraysOk(s5)
    ensures var s2 := ThiefNext(s5, k);
            && ArraysOk(s2) && s2.thieves == s.thieves && s2.owner == s.owner
            && s2.delivered == s.delivered + multiset{Contents(s)[0]} && Contents(s2) == Contents(s)[1..]
  {
    WindowEnds(s.arrays[s.current], s.top, s.bottom);
    assert At(s.arrays[s.current], s.top) == Contents(s)[0];
    WinChanges(s5, k);
    assert ThiefNext(s5, k).thieves == s.thieves;
  }

  predicate InTake(o: Owner) {
    !o.Resting? && !InPush(o)
  }

  predicate InPush(o: Owner) {
    o.PushBottom? || o.PushTop? || o.ResizeNew? || o.ResizeCopy? || o.PushStore? || o.PushPublish?
  }

  // Taking note of an item changes what is delivered.
  lemma DeliverChanges(s: State, x: Item)
    requires x != NULL
    ensures Deliver(s, x).delivered != s.delivered
  {
    assert Deliver(s, x).delivered[x] == s.delivered[x] + 1;
  }

  lemma GivesUpWhy(s: State, k: nat)
    requires ArraysOk(s) && k < |s.thieves| && ThiefOk(s, s.thieves[k]) && NULL !in Contents(s)
    requires !s.thieves[k].Away? && ThiefNext(s, k).thieves[k].Away? && ThiefNext(s, k).delivered == s.delivered
    ensures Contents(s) == [] || InTake(s.owner) || s.top > s.thieves[k].t
  {
    var t := s.thieves[k].t;
    if s.thieves[k].StealTop? && s.top == t && !InTake(s.owner) {
      assert Limit(s) == s.bottom;
    } else if s.thieves[k].StealItem? && s.top == t {
      assert s.thieves[k].x == Contents(s)[0];
      DeliverChanges(s, s.thieves[k].x);
      WinChanges(s, k);
    }
  }

  // In every run a thief comes back with nothing only if the deque was empty, or the owner was inside a take,
  // or top had moved past the index it was after.
  lemma GivesUpOnly(n: nat, acts: seq<Action>, s: State, k: nat)
    requires Leads(Init(n), acts, s) && ArraysOk(s) && k < |s.thieves| && !s.thieves[k].Away?
    requires ThiefNext(s, k).thieves[k].Away? && ThiefNext(s, k).delivered == s.delivered
    ensures Contents(s) == [] || InTake(s.owner) || s.top > s.thieves[k].t
  {
    InitInv(n);
    RunKeepsInv(Init(n), acts, s);
    assert NULL !in multiset(Contents(s));
    GivesUpWhy(s, k);
  }

  // How many steps a push still has to go, at least.
  function PushRank(s: State): nat
    requires InPush(s.owner)
  {
    match s.owner
    case PushPublish(_, _) => 0
    case PushStore(_, _) => 1
    case ResizeCopy(_, _, _, i) => 2 + (if i < s.bottom then s.bottom - i else 0)
    case ResizeNew(_, _) => 3 + (if s.top < s.bottom then s.bottom - s.top else 0)
    case PushTop(_, _, _) => 4 + (if s.top < s.bottom then s.bottom - s.top else 0)
    case _ => 5 + (if s.top < s.bottom then s.bottom - s.top else 0)
  }

  // The owner left alone in a push finishes it.
  lemma PushFinishes(s: State) returns (acts: seq<Action>, s2: State)
    requires Inv(s) && InPush(s.owner)
    ensures (forall a :: a in acts ==> a.Own?) && Leads(s, acts, s2) && Inv(s2)
    ensures s2.owner.Resting? && Contents(s2) == Contents(s) + [s.owner.x] && s2.pushed == s.pushed + multiset{s.owner.x}
    ensures s2.delivered == s.delivered && s2.thieves == s.thieves
    decreases PushRank(s)
  {
    var s1 := OwnerNext(s);
    StepKeepsInv(s, Own);
    PushProgress(s);
    if s.owner.PushPublish? {
      acts, s2 := [], s1;
    } else {
      acts, s2 := PushFinishes(s1);
    }
    LeadsStep(s, Own, acts, s2);
    acts := [Own] + acts;
  }

  lemma PushProgress(s: State)
    requires ArraysOk(s) && OwnerOk(s) && InPush(s.owner)
    ensures var s1 := OwnerNext(s);
            && s1.delivered == s.delivered && s1.thieves == s.thieves
            && (s.owner.PushPublish? ==> s1.owner.Resting? && s1.pushed == s.pushed + multiset{s.owner.x})
            && (!s.owner.PushPublish? ==>
                  InPush(s1.owner) && s1.owner.x == s.owner.x && s1.pushed == s.pushed && PushRank(s1) < PushRank(s))
  {
  }

  // In every run, a push that runs alone puts its item at the end, growing the buffer if it has to.
  lemma PushSucceeds(n: nat, before: seq<Action>, s: State, x: Item) returns (acts: seq<Action>, s2: State)
    requires Leads(Init(n), before, s) && ArraysOk(s) && s.owner.Resting? && x != NULL && x !in s.pushed
    ensures (forall a :: a in acts ==> a.Own? || a == StartPush(x)) && Leads(s, acts, s2) && Inv(s2)
    ensures s2.owner.Resting? && Contents(s2) == Contents(s) + [x] && s2.pushed == s.pushed + multiset{x}
    ensures s2.delivered == s.delivered && s2.thieves == s.thieves
  {
    InitInv(n);
    RunKeepsInv(Init(n), before, s);
    var s1 := Next(s, StartPush(x));
    StepKeepsInv(s, StartPush(x));
    acts, s2 := PushFinishes(s1);
    LeadsStep(s, StartPush(x), acts, s2);
    acts := [StartPush(x)] + acts;
  }

  function TakeRank(o: Owner): nat {
    match o
    case TakeBottom(_) => 5
    case TakeArray(_, _) => 4
    case TakeLowered(_, _) => 3
    case TakeTop(_, _, _) => 2
    case TakeLast(_, _, _) => 1
    case _ => 0
  }

  // What a take that runs alone has come to: nothing yet of c taken, or its last item in hand.
  ghost predicate Taking(s: State, c: seq<Item>)
    requires ArraysOk(s)
  {
    && InTake(s.owner)
    && (s.owner.TakeTop? || s.owner.TakeLast? ==> s.owner.t == s.top)
    && (if InHand(s) == multiset{} then Contents(s) == c && (s.owner.TakeRestore? ==> c == [])
        else c != [] && Contents(s) == c[..|c| - 1] && InHand(s) == multiset{c[|c| - 1]})
  }

  // A take alone has returned the last item of c, or nothing if there was none.
  ghost predicate Took(s: State, c: seq<Item>, s2: State) {
    && ArraysOk(s2) && s2.owner.Resting? && s2.thieves == s.thieves
    && (c == [] ==> Contents(s2) == [] && s2.delivered == s.delivered)
    && (c != [] ==> Contents(s2) == c[..|c| - 1] && s2.delivered == s.delivered + multiset{c[|c| - 1]})
  }

  lemma TakeStarts(s: State, c: seq<Item>)
    requires Inv(s) && Taking(s, c) && (s.owner.TakeBottom? || s.owner.TakeArray?)
    ensures Inv(OwnerNext(s)) && Taking(OwnerNext(s), c)
  {
    StepKeepsInv(s, Own);
    assert Contents(OwnerNext(s)) == Contents(s);
  }

  lemma TakeLooks(s: State, c: seq<Item>)
    requires Inv(s) && Taking(s, c) && s.owner.TakeLowered?
    ensures Inv(OwnerNext(s)) && Taking(OwnerNext(s), c) && OwnerNext(s).delivered == s.delivered
  {
    StepKeepsInv(s, Own);
    assert NoNullIn(s);
    TakeLoweredFlows(s);
    if s.owner.b - s.top > 1 {
      TakenIsHeld(s);
    } else {
      assert Contents(OwnerNext(s)) == Contents(s);
    }
  }

  lemma TakeRaces(s: State, c: seq<Item>)
    requires Inv(s) && Taking(s, c) && (s.owner.TakeLast? || (s.owner.TakeTop? && s.owner.b - s.owner.t == 1))
    ensures Inv(OwnerNext(s)) && Taking(OwnerNext(s), c) && OwnerNext(s).delivered == s.delivered
  {
    StepKeepsInv(s, Own);
    assert NoNullIn(s);
    StepFlows(s, Own);
    if s.owner.TakeLast? {
      TakenIsHeld(s);
    }
  }

  // Nothing was there.
  lemma TakeEndsEmpty(s: State, c: seq<Item>)
    requires Inv(s) && Taking(s, c) && s.owner.TakeRestore? && InHand(s) == multiset{}
    ensures Took(s, c, OwnerNext(s))
  {
    StepKeepsInv(s, Own);
  }

  // The item in hand is returned.
  lemma TakeEndsHeld(s: State, c: seq<Item>)
    requires Inv(s) && Taking(s, c) && InHand(s) != multiset{} && (s.owner.TakeRestore? || s.owner.TakeTop?)
    ensures Took(s, c, OwnerNext(s))
  {
    StepKeepsInv(s, Own);
    assert NoNullIn(s);
    HeldIsDelivered(s);
    SameContentsEnd(s);
  }

  lemma SameContentsEnd(s: State)
    requires Inv(s) && InHand(s) != multiset{} && (s.owner.TakeRestore? || s.owner.TakeTop?) && ArraysOk(OwnerNext(s))
    ensures OwnerNext(s).owner.Resting? && Contents(OwnerNext(s)) == Contents(s) && OwnerNext(s).thieves == s.thieves
  {
  }

  // The items of a reachable deque are not NULL.
  predicate NoNullIn(s: State)
    requires ArraysOk(s)
  {
    NULL !in multiset(Contents(s)) && NULL !in InHand(s)
  }

  lemma TakeMoves(s: State, c: seq<Item>)
    requires Inv(s) && Taking(s, c)
    requires !(s.owner.TakeRestore? || (s.owner.TakeTop? && s.owner.b - s.owner.t != 1))
    ensures var s1 := OwnerNext(s);
            && Inv(s1) && Taking(s1, c) && s1.delivered == s.delivered && s1.thieves == s.thieves
            && TakeRank(s1.owner) < TakeRank(s.owner)
  {
    if s.owner.TakeLowered? {
      TakeLooks(s, c);
    } else if s.owner.TakeBottom? || s.owner.TakeArray? {
      TakeStarts(s, c);
    } else {
      TakeRaces(s, c);
    }
  }

  lemma TakeEnds(s: State, c: seq<Item>)
    requires Inv(s) && Taking(s, c) && (s.owner.TakeRestore? || (s.owner.TakeTop? && s.owner.b - s.owner.t != 1))
    ensures Took(s, c, OwnerNext(s))
  {
    if InHand(s) == multiset{} {
      TakeEndsEmpty(s, c);
    } else {
      TakeEndsHeld(s, c);
    }
  }

  lemma TakeFinishes(s: State, c: seq<Item>) returns (acts: seq<Action>, s2: State)
    requires Inv(s) && Taking(s, c)
    ensures (forall a :: a in acts ==> a.Own?) && Leads(s, acts, s2) && Took(s, c, s2)
    decreases TakeRank(s.owner)
  {
    if s.owner.TakeRestore? || (s.owner.TakeTop? && s.owner.b - s.owner.t != 1) {
      TakeEnds(s, c);
      acts, s2 := [], OwnerNext(s);
    } else {
      TakeMoves(s, c);
      acts, s2 := TakeFinishes(OwnerNext(s), c);
    }
    LeadsStep(s, Own, acts, s2);
    acts := [Own] + acts;
  }

  // In every run, a take that runs alone returns the last item, and nothing only if there is none.
  lemma TakeSucceeds(n: nat, before: seq<Action>, s: State) returns (acts: seq<Action>, s2: State)
    requires Leads(Init(n), before, s) && ArraysOk(s) && s.owner.Resting?
    ensures (forall a :: a in acts ==> a.Own? || a.StartTake?) && Leads(s, acts, s2) && Took(s, Contents(s), s2)
  {
    InitInv(n);
    RunKeepsInv(Init(n), before, s);
    var s1 := Next(s, StartTake);
    StepKeepsInv(s, StartTake);
    acts, s2 := TakeFinishes(s1, Contents(s));
    LeadsStep(s, StartTake, acts, s2);
    acts := [StartTake] + acts;
  }
}
