/**
 Shared destructors (db.c 99-176): each statement and each match has a set of references to
 destructors, a child inherits all references of its parents, and a destructor runs when the last
 reference to it is released.
 */
module Destructors {
  import opened Wrappers

  // A destructor is named by its creation order.  The array of a set may hold NULLs while it is
  // being released; a destroyed holder has no array.
  type Destructor = nat
  type Set = seq<Option<Destructor>>

  // ----- counting references ------------------------------------------------------

  function CountIn(elems: Set, d: Destructor): (n: nat)
    ensures n == 0 <==> Some(d) !in elems
  {
    if elems == [] then 0 else (if elems[0] == Some(d) then 1 else 0) + CountIn(elems[1..], d)
  }

  function CountOf(holder: Option<Set>, d: Destructor): nat {
    if holder.None? then 0 else CountIn(holder.value, d)
  }

  // References to d over the sets of all holders, with multiplicity.
  function Refs(holders: seq<Option<Set>>, d: Destructor): (n: nat) {
    if holders == [] then 0 else CountOf(holders[0], d) + Refs(holders[1..], d)
  }

  predicate Holds(holders: seq<Option<Set>>, h: nat, d: Destructor) {
    h < |holders| && holders[h].Some? && Some(d) in holders[h].value
  }

  lemma {:induction false} CountConcat(a: Set, b: Set, d: Destructor)
    ensures CountIn(a + b, d) == CountIn(a, d) + CountIn(b, d)
  {
    if a == [] {
      assert a + b == b;
    } else {
      assert (a + b)[1..] == a[1..] + b;
      CountConcat(a[1..], b, d);
    }
  }

  lemma {:induction false} CountUpdate(a: Set, i: nat, x: Option<Destructor>, d: Destructor)
    requires i < |a|
    ensures CountIn(a[i := x], d) + CountIn([a[i]], d) == CountIn(a, d) + CountIn([x], d)
  {
    if i == 0 {
      assert a[0 := x][1..] == a[1..];
    } else {
      assert a[i := x][1..] == a[1..][i - 1 := x];
      CountUpdate(a[1..], i - 1, x, d);
    }
  }

  lemma {:induction false} RefsUpdate(hs: seq<Option<Set>>, h: nat, x: Option<Set>, d: Destructor)
    requires h < |hs|
    ensures Refs(hs[h := x], d) + CountOf(hs[h], d) == Refs(hs, d) + CountOf(x, d)
  {
    if h == 0 {
      assert hs[0 := x][1..] == hs[1..];
    } else {
      assert hs[h := x][1..] == hs[1..][h - 1 := x];
      RefsUpdate(hs[1..], h - 1, x, d);
    }
  }

  lemma {:induction false} RefsAppend(hs: seq<Option<Set>>, x: Option<Set>, d: Destructor)
    ensures Refs(hs + [x], d) == Refs(hs, d) + CountOf(x, d)
  {
    if hs == [] {
      assert (hs + [x])[1..] == [];
    } else {
      assert (hs + [x])[1..] == hs[1..] + [x];
      RefsAppend(hs[1..], x, d);
    }
  }

  // The count is zero exactly when no holder has the destructor.
  lemma {:induction false} RefsZero(hs: seq<Option<Set>>, d: Destructor)
    ensures Refs(hs, d) == 0 <==> forall h: nat :: !Holds(hs, h, d)
  {
    if hs != [] {
      RefsZero(hs[1..], d);
      assert forall h: nat :: Holds(hs[1..], h, d) <==> Holds(hs, h + 1, d);
      if Refs(hs, d) == 0 {
        forall h: nat ensures !Holds(hs, h, d) {
          assert h > 0 ==> !Holds(hs[1..], h - 1, d);
        }
      } else if CountOf(hs[0], d) > 0 {
        assert Holds(hs, 0, d);
      }
    }
  }

  // ----- accounting ---------------------------------------------------------------

  // Each count equals the references there are, and exactly the destructors nobody refers to have
  // run, once each.
  ghost predicate Accounted(sets: seq<Option<Set>>, rc: seq<int>, ran: seq<Destructor>) {
    && (forall d: nat :: d < |rc| ==> rc[d] == Refs(sets, d))
    && (forall d: nat, h: nat :: Holds(sets, h, d) ==> d < |rc|)
    && (forall d: nat :: d in ran <==> d < |rc| && Refs(sets, d) == 0)
    && (forall i, j :: 0 <= i < j < |ran| ==> ran[i] != ran[j])
  }

  // No array has a NULL in it, as between operations.
  predicate Whole(sets: seq<Option<Set>>) {
    forall h, i :: 0 <= h < |sets| && sets[h].Some? && 0 <= i < |sets[h].value| ==> sets[h].value[i].Some?
  }

  function Appended(sets: seq<Option<Set>>, h: nat, d: Destructor): seq<Option<Set>>
    requires h < |sets| && sets[h].Some?
  {
    sets[h := Some(sets[h].value + [Some(d)])]
  }

  lemma AppendedRefs(sets: seq<Option<Set>>, h: nat, d: Destructor, e: Destructor)
    requires h < |sets| && sets[h].Some?
    ensures Refs(Appended(sets, h, d), e) == Refs(sets, e) + (if d == e then 1 else 0)
    ensures forall k: nat :: Holds(Appended(sets, h, d), k, e) <==> Holds(sets, k, e) || (k == h && d == e)
  {
    var elems := sets[h].value;
    RefsUpdate(sets, h, Some(elems + [Some(d)]), e);
    CountConcat(elems, [Some(d)], e);
    assert Some(e) in elems + [Some(d)] <==> Some(e) in elems || e == d;
  }

  // A new reference to a destructor that has not run: a fresh one, or one somebody holds.
  lemma AppendKeeps(sets: seq<Option<Set>>, rc: seq<int>, rc2: seq<int>, ran: seq<Destructor>, h: nat, d: Destructor)
    requires Accounted(sets, rc, ran) && h < |sets| && sets[h].Some?
    requires (d == |rc| && rc2 == rc + [1]) || (d < |rc| && Refs(sets, d) > 0 && rc2 == rc[d := rc[d] + 1])
    ensures Accounted(Appended(sets, h, d), rc2, ran)
  {
    var sets2 := Appended(sets, h, d);
    RefsZero(sets, d);
    forall e: Destructor ensures Refs(sets2, e) == Refs(sets, e) + (if d == e then 1 else 0) {
      AppendedRefs(sets, h, d, e);
    }
    forall e: nat, k: nat | Holds(sets2, k, e) ensures e < |rc2| {
      AppendedRefs(sets, h, d, e);
      assert Holds(sets, k, e) || e == d;
    }
  }

  function Cleared(sets: seq<Option<Set>>, h: nat, i: nat): seq<Option<Set>>
    requires h < |sets| && sets[h].Some? && i < |sets[h].value|
  {
    sets[h := Some(sets[h].value[i := None])]
  }

  lemma ClearedRefs(sets: seq<Option<Set>>, h: nat, i: nat, d: Destructor, e: Destructor)
    requires h < |sets| && sets[h].Some? && i < |sets[h].value| && sets[h].value[i] == Some(d)
    ensures Refs(Cleared(sets, h, i), e) == Refs(sets, e) - (if d == e then 1 else 0)
    ensures forall k: nat :: Holds(Cleared(sets, h, i), k, e) ==> Holds(sets, k, e)
  {
    CountUpdate(sets[h].value, i, None, e);
    RefsUpdate(sets, h, Some(sets[h].value[i := None]), e);
  }

  // Releasing one reference: the destructor runs if that was the last.
  lemma ClearKeeps(sets: seq<Option<Set>>, rc: seq<int>, ran: seq<Destructor>, h: nat, i: nat, d: Destructor)
    requires Accounted(sets, rc, ran) && h < |sets| && sets[h].Some? && i < |sets[h].value|
    requires sets[h].value[i] == Some(d)
    ensures d < |rc|
    ensures Accounted(Cleared(sets, h, i), rc[d := rc[d] - 1], if rc[d] == 1 then ran + [d] else ran)
  {
    var sets2 := Cleared(sets, h, i);
    assert Holds(sets, h, d);
    forall e: Destructor ensures Refs(sets2, e) == Refs(sets, e) - (if d == e then 1 else 0) {
      ClearedRefs(sets, h, i, d, e);
    }
    forall e: nat, k: nat | Holds(sets2, k, e) ensures e < |rc| {
      ClearedRefs(sets, h, i, d, e);
      assert Holds(sets, k, e);
    }
  }

  // An array of NULLs counts like no array.
  lemma FreedKeeps(sets: seq<Option<Set>>, rc: seq<int>, ran: seq<Destructor>, h: nat)
    requires Accounted(sets, rc, ran) && h < |sets| && sets[h].Some?
    requires forall i :: 0 <= i < |sets[h].value| ==> sets[h].value[i] == None
    ensures Accounted(sets[h := None], rc, ran)
  {
    var sets2 := sets[h := None];
    forall e: Destructor ensures Refs(sets2, e) == Refs(sets, e) {
      RefsUpdate(sets, h, None, e);
    }
    assert forall e: nat, k: nat :: Holds(sets2, k, e) ==> Holds(sets, k, e);
  }

  // A new holder refers to nothing.
  lemma NewHolderKeeps(sets: seq<Option<Set>>, rc: seq<int>, ran: seq<Destructor>)
    requires Accounted(sets, rc, ran)
    ensures Accounted(sets + [Some([])], rc, ran)
  {
    var sets2 := sets + [Some([])];
    forall e: Destructor ensures Refs(sets2, e) == Refs(sets, e) {
      RefsAppend(sets, Some([]), e);
    }
    assert forall e: nat, k: nat :: Holds(sets2, k, e) ==> Holds(sets, k, e);
  }

  // A destructor nobody ever held, run at once.
  lemma UnheldKeeps(sets: seq<Option<Set>>, rc: seq<int>, ran: seq<Destructor>)
    requires Accounted(sets, rc, ran)
    ensures Accounted(sets, rc + [0], ran + [|rc|])
  {
    RefsZero(sets, |rc|);
    assert |rc| !in ran;
  }

  // ----- the objects --------------------------------------------------------------

  class Registry {
    // the destructor sets of all statements and matches ever made, by holder
    var sets: seq<Option<Set>>
    // Destructor.rc, by destructor
    var rc: seq<int>
    // the destructors that have run, in order
    var ran: seq<Destructor>

    ghost predicate Valid()
      reads this
    {
      Accounted(sets, rc, ran) && Whole(sets)
    }

    constructor ()
      ensures Valid() && sets == [] && rc == [] && ran == []
    {
      sets, rc, ran := [], [], [];
    }

    // statementNew, matchNew: a holder with an empty set.
    method NewHolder() returns (h: nat)
      requires Valid()
      modifies this
      ensures Valid() && h == old(|sets|) && sets == old(sets) + [Some([])] && rc == old(rc) && ran == old(ran)
    {
      h := |sets|;
      NewHolderKeeps(sets, rc, ran);
      sets := sets + [Some([])];
    }

    // destructorNew, then destructorSetAdd to the set of h.
    method Add(h: nat) returns (d: Destructor)
      requires Valid() && h < |sets| && sets[h].Some?
      modifies this
      ensures Valid() && d == old(|rc|) && rc == old(rc) + [1] && ran == old(ran)
      ensures sets == Appended(old(sets), h, d)
    {
      d := |rc|;
      AppendKeeps(sets, rc, rc + [1], ran, h, d);
      rc := rc + [0];
      rc := rc[d := rc[d] + 1];
      sets := Appended(sets, h, d);
    }

    // Say and Hold when they made no statement, because there was one or the parent match is gone: the new
    // destructor is run at once.
    method AddNowhere() returns (d: Destructor)
      requires Valid()
      modifies this
      ensures Valid() && d == old(|rc|) && rc == old(rc) + [0] && sets == old(sets) && ran == old(ran) + [d]
    {
      d := |rc|;
      UnheldKeeps(sets, rc, ran);
      rc := rc + [0];
      ran := ran + [d];
    }

    // destructorSetInherit.
    method Inherit(to: nat, from: nat)
      requires Valid() && to < |sets| && from < |sets| && to != from && sets[to].Some? && sets[from].Some?
      modifies this
      ensures Valid() && ran == old(ran) && |rc| == old(|rc|)
      ensures sets == old(sets)[to := Some(old(sets[to].value) + old(sets[from].value))]
    {
      var i := 0;
      ghost var had, given := sets[to].value, sets[from].value;
      assert had + given[..0] == had;
      while i < |sets[from].value|
        invariant |sets| == old(|sets|) && sets[to].Some? && sets[from] == old(sets[from])
        invariant 0 <= i <= |sets[from].value|
        invariant Valid() && ran == old(ran) && |rc| == old(|rc|)
        invariant sets == old(sets)[to := Some(had + given[..i])]
      {
        var d := sets[from].value[i].value;
        assert Holds(sets, from, d);
        RefsZero(sets, d);
        AppendKeeps(sets, rc, rc[d := rc[d] + 1], ran, to, d);
        rc := rc[d := rc[d] + 1];
        sets := Appended(sets, to, d);
        assert had + given[..i] + [Some(d)] == had + given[..i + 1];
        i := i + 1;
      }
      assert given[..i] == given;
    }

    // destructorSetReleaseAll.  A destructor runs here exactly when h was the last to hold it.
    method ReleaseAll(h: nat)
      requires Valid() && h < |sets| && sets[h].Some?
      modifies this
      ensures Valid() && sets == old(sets)[h := None] && |rc| == old(|rc|)
      ensures old(ran) <= ran
      ensures forall d: nat :: d in ran <==>
                d in old(ran) || (Holds(old(sets), h, d) && forall k: nat :: k != h ==> !Holds(old(sets), k, d))
    {
      var i := 0;
      while i < |sets[h].value|
        invariant |sets| == old(|sets|) && sets[h].Some? && |sets[h].value| == old(|sets[h].value|)
        invariant 0 <= i <= |sets[h].value|
        invariant Accounted(sets, rc, ran) && |rc| == old(|rc|) && old(ran) <= ran
        invariant sets == old(sets)[h := sets[h]]
        invariant forall k :: 0 <= k < i ==> sets[h].value[k] == None
        invariant forall k :: i <= k < |sets[h].value| ==> sets[h].value[k] == old(sets[h].value)[k]
      {
        if sets[h].value[i].Some? {
          var d := sets[h].value[i].value;
          ClearKeeps(sets, rc, ran, h, i, d);
          rc := rc[d := rc[d] - 1];
          if rc[d] == 0 {
            ran := ran + [d];
          }
        }
        sets := Cleared(sets, h, i);
        i := i + 1;
      }
      FreedKeeps(sets, rc, ran, h);
      sets := sets[h := None];
      forall d: nat
        ensures d in ran <==>
                  d in old(ran) || (Holds(old(sets), h, d) && forall k: nat :: k != h ==> !Holds(old(sets), k, d))
      {
        RefsZero(old(sets), d);
        RefsZero(sets, d);
        assert forall k: nat :: Holds(sets, k, d) <==> k != h && Holds(old(sets), k, d);
      }
    }

    // A destructor that some live holder refers to has not run, and one whose holders have all
    // been destroyed has run.
    lemma RunsExactlyWhenFree(d: Destructor)
      requires Valid() && d < |rc|
      ensures d in ran <==> forall h: nat :: !Holds(sets, h, d)
      ensures forall i, j :: 0 <= i < |ran| && 0 <= j < |ran| && ran[i] == d && ran[j] == d ==> i == j
    {
      RefsZero(sets, d);
    }
  }

  // ----- whole histories ----------------------------------------------------------

  datatype Op =
    | OpNewHolder
    | OpAdd(h: nat)
    | OpAddNowhere
    | OpInherit(to: nat, from: nat)
    | OpReleaseAll(h: nat)

  predicate Live(sets: seq<Option<Set>>, h: nat) {
    h < |sets| && sets[h].Some?
  }

  // Any history of operations on live holders: every destructor created has run iff no live holder
  // refers to it, and none has run twice.
  method Run(ops: seq<Op>) returns (r: Registry)
    ensures fresh(r) && r.Valid()
    ensures forall d: nat :: d in r.ran <==> d < |r.rc| && forall h: nat :: !Holds(r.sets, h, d)
  {
    r := new Registry();
    for i := 0 to |ops|
      invariant fresh(r) && r.Valid()
    {
      match ops[i]
      case OpNewHolder => var _ := r.NewHolder();
      case OpAdd(h) => if Live(r.sets, h) { var _ := r.Add(h); }
      case OpAddNowhere => var _ := r.AddNowhere();
      case OpInherit(to, from) => if Live(r.sets, to) && Live(r.sets, from) && to != from { r.Inherit(to, from); }
      case OpReleaseAll(h) => if Live(r.sets, h) { r.ReleaseAll(h); }
    }
    forall d: nat ensures Refs(r.sets, d) == 0 <==> forall h: nat :: !Holds(r.sets, h, d) {
      RefsZero(r.sets, d);
    }
  }
}
