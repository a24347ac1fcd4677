/**
 The persistent trie of trie.c by its meaning: nodes are values, adding and removing build new ones.

 `Get` reads the trie as a finite map from clauses to statement refs.  Add is insert-if-absent on
 that map.  Remove is *not* deletion: it cuts off everything below the removed clause and every
 ancestor that is left without a branch, values included.  `RemoveGet` states exactly what it does
 and `RemoveExactIff` when that is deletion.  The root can disappear altogether (a NULL root in C).
 */
module Tries {
  import opened Wrappers
  import opened Clauses

  type Ref = int

  datatype Trie = Node(key: Option<Term>, value: Option<Ref>, branches: seq<Trie>)

  const EMPTY := Node(None, None, [])

  // --- Reading the trie as a map --------------------------------------------------------------------

  function Get(t: Trie, c: Clause): Option<Ref>
    decreases t, 1
  {
    if c == [] then t.value else GetIn(t.branches, c)
  }

  function GetIn(bs: seq<Trie>, c: Clause): Option<Ref>
    requires c != []
    decreases bs, 0
  {
    if bs == [] then None
    else if bs[0].key == Some(c[0]) then Get(bs[0], c[1..])
    else GetIn(bs[1..], c)
  }

  function GetRoot(root: Option<Trie>, c: Clause): Option<Ref> {
    if root.None? then None else Get(root.value, c)
  }

  // Sibling keys are present and distinct, at every level.
  predicate Wf(t: Trie)
    decreases t, 1
  {
    WfIn(t.branches)
  }

  predicate WfIn(bs: seq<Trie>)
    decreases bs, 0
  {
    bs == [] ||
    (&& bs[0].key.Some?
     && Wf(bs[0])
     && WfIn(bs[1..])
     && forall i :: 1 <= i < |bs| ==> bs[i].key != bs[0].key)
  }

  // Below the root every node is there for a reason: it has a value or a branch.
  predicate Tidy(t: Trie)
    decreases t, 1
  {
    TidyIn(t.branches)
  }

  predicate TidyIn(bs: seq<Trie>)
    decreases bs, 0
  {
    bs == [] || ((bs[0].value.Some? || bs[0].branches != []) && Tidy(bs[0]) && TidyIn(bs[1..]))
  }

  // --- trieAdd --------------------------------------------------------------------------------------

  function Add(t: Trie, c: Clause, v: Ref): Trie
    decreases |c|, 1, 0
  {
    if c == [] then
      if t.value.Some? then t else t.(value := Some(v))
    else t.(branches := AddIn(t.branches, c, v))
  }

  // The branch with the clause's first term is replaced; if there is none, one is appended.
  function AddIn(bs: seq<Trie>, c: Clause, v: Ref): seq<Trie>
    requires c != []
    decreases |c|, 0, |bs|
  {
    if bs == [] then [Add(Node(Some(c[0]), None, []), c[1..], v)]
    else if bs[0].key == Some(c[0]) then [Add(bs[0], c[1..], v)] + bs[1..]
    else [bs[0]] + AddIn(bs[1..], c, v)
  }

  // Insert-if-absent, for every clause c2 asked about afterwards.
  lemma {:induction false} AddGet(t: Trie, c: Clause, v: Ref, c2: Clause)
    ensures Get(Add(t, c, v), c2) ==
            if c2 == c && Get(t, c).None? then Some(v) else Get(t, c2)
    decreases |c|, 1, 0
  {
    if c != [] && c2 != [] {
      AddInGet(t.branches, c, v, c2);
    }
  }

  lemma {:induction false} AddInGet(bs: seq<Trie>, c: Clause, v: Ref, c2: Clause)
    requires c != [] && c2 != []
    ensures GetIn(AddIn(bs, c, v), c2) ==
            if c2 == c && GetIn(bs, c).None? then Some(v) else GetIn(bs, c2)
    decreases |c|, 0, |bs|
  {
    assert c == [c[0]] + c[1..] && c2 == [c2[0]] + c2[1..];
    if bs == [] {
      var leaf := Node(Some(c[0]), None, []);
      AddGet(leaf, c[1..], v, c2[1..]);
      AddKey(leaf, c[1..], v);
    } else if bs[0].key == Some(c[0]) {
      AddGet(bs[0], c[1..], v, c2[1..]);
      AddKey(bs[0], c[1..], v);
    } else {
      AddInGet(bs[1..], c, v, c2);
    }
  }

  lemma AddKey(t: Trie, c: Clause, v: Ref)
    ensures Add(t, c, v).key == t.key
    ensures Add(t, c, v).value.Some? || Add(t, c, v).branches != []
  {
  }

  lemma {:induction false} AddWf(t: Trie, c: Clause, v: Ref)
    requires Wf(t)
    ensures Wf(Add(t, c, v))
    decreases |c|, 1, 0
  {
    if c != [] {
      AddInWf(t.branches, c, v);
    }
  }

  lemma {:induction false} AddInWf(bs: seq<Trie>, c: Clause, v: Ref)
    requires c != [] && WfIn(bs)
    ensures WfIn(AddIn(bs, c, v))
    ensures forall b :: b in AddIn(bs, c, v) ==> b.key == Some(c[0]) || exists i :: 0 <= i < |bs| && bs[i].key == b.key
    decreases |c|, 0, |bs|
  {
    if bs == [] {
      var leaf := Node(Some(c[0]), None, []);
      AddWf(leaf, c[1..], v);
      AddKey(leaf, c[1..], v);
    } else if bs[0].key == Some(c[0]) {
      AddWf(bs[0], c[1..], v);
      AddKey(bs[0], c[1..], v);
      assert AddIn(bs, c, v)[1..] == bs[1..];
    } else {
      AddInWf(bs[1..], c, v);
      assert AddIn(bs, c, v)[1..] == AddIn(bs[1..], c, v);
    }
  }

  lemma {:induction false} AddTidy(t: Trie, c: Clause, v: Ref)
    requires Tidy(t)
    ensures Tidy(Add(t, c, v))
    decreases |c|, 1, 0
  {
    if c != [] {
      AddInTidy(t.branches, c, v);
    }
  }

  lemma {:induction false} AddInTidy(bs: seq<Trie>, c: Clause, v: Ref)
    requires c != [] && TidyIn(bs)
    ensures TidyIn(AddIn(bs, c, v))
    decreases |c|, 0, |bs|
  {
    if bs == [] {
      var leaf := Node(Some(c[0]), None, []);
      AddTidy(leaf, c[1..], v);
      AddKey(leaf, c[1..], v);
    } else if bs[0].key == Some(c[0]) {
      AddTidy(bs[0], c[1..], v);
      AddKey(bs[0], c[1..], v);
      assert AddIn(bs, c, v)[1..] == bs[1..];
    } else {
      AddInTidy(bs[1..], c, v);
      assert AddIn(bs, c, v)[1..] == AddIn(bs[1..], c, v);
    }
  }

  // trieAdd hands back the trie it was given exactly when the clause was already there; this is
  // how dbInsertOrReuseStatement learns that it should reuse a statement.
  lemma {:induction false} AddSameIff(t: Trie, c: Clause, v: Ref)
    ensures Add(t, c, v) == t <==> Get(t, c).Some?
    decreases |c|, 1, 0
  {
    if Get(t, c).None? {
      AddGet(t, c, v, c);
    } else if c != [] {
      AddInSame(t.branches, c, v);
    }
  }

  lemma {:induction false} AddInSame(bs: seq<Trie>, c: Clause, v: Ref)
    requires c != [] && GetIn(bs, c).Some?
    ensures AddIn(bs, c, v) == bs
    decreases |c|, 0, |bs|
  {
    if bs[0].key == Some(c[0]) {
      AddSameIff(bs[0], c[1..], v);
    } else {
      AddInSame(bs[1..], c, v);
    }
  }

  // --- trieRemove -----------------------------------------------------------------------------------

  function Remove(t: Trie, c: Clause): Option<Trie>
    decreases t, 1
  {
    if c == [] then
      if t.value.Some? then None else Some(t)
    else
      var kept := RemoveIn(t.branches, c);
      if kept == [] then None else Some(t.(branches := kept))
  }

  function RemoveIn(bs: seq<Trie>, c: Clause): seq<Trie>
    requires c != []
    decreases bs, 0
  {
    if bs == [] then []
    else
      var rest := RemoveIn(bs[1..], c);
      if bs[0].key != Some(c[0]) then [bs[0]] + rest
      else match Remove(bs[0], c[1..])
           case None => rest
           case Some(b) => [b] + rest
  }

  // An entry strictly below c2 that removing c leaves alone.
  ghost predicate Keeps(t: Trie, c: Clause, c2: Clause, e: Clause) {
    && c2 < e
    && Get(t, e).Some?
    && (!Comparable(c, e) || (c < e && Get(t, c).None?))
  }

  // The value of c2 after removing c, in terms of the map before.
  ghost function AfterRemove(t: Trie, c: Clause, c2: Clause): Option<Ref> {
    if c2 == c then None
    else if c < c2 then if Get(t, c).Some? then None else Get(t, c2)
    else if c2 < c then if exists e :: Keeps(t, c, c2, e) then Get(t, c2) else None
    else Get(t, c2)
  }

  // What removal does to every clause, for every well-formed trie.
  lemma {:induction false} RemoveGet(t: Trie, c: Clause, c2: Clause)
    requires Wf(t) && Tidy(t)
    ensures GetRoot(Remove(t, c), c2) == AfterRemove(t, c, c2)
    decreases t, 1
  {
    if c == [] {
      assert c2 != [] ==> c < c2;
    } else if c2 == [] {
      assert c2 < c;
      if Remove(t, c).Some? {
        var e := RemoveLeaves(t, c);
        assert Keeps(t, c, c2, e);
      } else {
        forall e | Keeps(t, c, c2, e) ensures false {
          RemoveInGet(t.branches, c, e);
        }
      }
    } else {
      RemoveInGet(t.branches, c, c2);
      var u := Node(None, None, t.branches);
      assert forall e :: Keeps(t, c, c2, e) <==> Keeps(u, c, c2, e);
    }
  }

  lemma {:induction false} RemoveInGet(bs: seq<Trie>, c: Clause, c2: Clause)
    requires c != [] && c2 != [] && WfIn(bs) && TidyIn(bs)
    ensures GetIn(RemoveIn(bs, c), c2) == AfterRemove(Node(None, None, bs), c, c2)
    decreases bs, 0
  {
    if bs == [] {
    } else if bs[0].key == Some(c[0]) {
      RemoveInOther(bs[1..], c);
      RemoveKey(bs[0], c[1..]);
      if c2[0] == c[0] {
        RemoveGet(bs[0], c[1..], c2[1..]);
        AfterRemoveBelow(Node(None, None, bs), bs[0], c, c2);
        GetInAbsent(bs[1..], c2);
      } else {
        Incomparable(c, c2);
        assert AfterRemove(Node(None, None, bs), c, c2) == GetIn(bs, c2);
      }
    } else {
      RemoveInGet(bs[1..], c, c2);
      AfterRemoveSkip(bs, c, c2);
    }
  }

  lemma {:induction false} RemoveInOther(bs: seq<Trie>, c: Clause)
    requires c != [] && forall i :: 0 <= i < |bs| ==> bs[i].key != Some(c[0])
    ensures RemoveIn(bs, c) == bs
  {
    if bs != [] {
      RemoveInOther(bs[1..], c);
    }
  }

  lemma Incomparable(a: Clause, b: Clause)
    requires a != [] && b != [] && a[0] != b[0]
    ensures !Comparable(a, b) && a != b && !(a < b) && !(b < a)
  {
  }

  lemma RemoveKey(t: Trie, c: Clause)
    ensures Remove(t, c).Some? ==> Remove(t, c).value.key == t.key
  {
  }

  lemma {:induction false} GetInAbsent(bs: seq<Trie>, c: Clause)
    requires c != [] && forall i :: 0 <= i < |bs| ==> bs[i].key != Some(c[0])
    ensures GetIn(bs, c).None?
  {
    if bs != [] {
      GetInAbsent(bs[1..], c);
    }
  }

  // One level down: below the branch b of t that carries c's first term.
  lemma AfterRemoveBelow(t: Trie, b: Trie, c: Clause, c2: Clause)
    requires c != [] && c2 != [] && c[0] == c2[0]
    requires forall e :: e != [] && e[0] == c[0] ==> Get(t, e) == Get(b, e[1..])
    ensures AfterRemove(t, c, c2) == AfterRemove(b, c[1..], c2[1..])
  {
    assert c == [c[0]] + c[1..] && c2 == [c2[0]] + c2[1..];
    forall e | Keeps(t, c, c2, e) ensures Keeps(b, c[1..], c2[1..], e[1..]) {
      assert e == [e[0]] + e[1..];
    }
    forall e | Keeps(b, c[1..], c2[1..], e) ensures Keeps(t, c, c2, [c[0]] + e) {
      assert ([c[0]] + e)[1..] == e;
    }
    assert c2 < c <==> c2[1..] < c[1..];
  }

  // A branch with another key does not hold the clause.
  lemma GetSkip(bs: seq<Trie>, c: Clause)
    requires bs != [] && c != [] && bs[0].key != Some(c[0])
    ensures Get(Node(None, None, bs), c) == Get(Node(None, None, bs[1..]), c)
  {
    assert GetIn(bs, c) == GetIn(bs[1..], c);
  }

  // A branch with another key does not affect what removal does below the rest.
  lemma AfterRemoveSkip(bs: seq<Trie>, c: Clause, c2: Clause)
    requires bs != [] && c != [] && c2 != [] && bs[0].key != Some(c[0])
    ensures var rest := Node(None, None, bs[1..]);
            AfterRemove(Node(None, None, bs), c, c2) ==
            if bs[0].key == Some(c2[0]) then Get(bs[0], c2[1..]) else AfterRemove(rest, c, c2)
  {
    var t, rest := Node(None, None, bs), Node(None, None, bs[1..]);
    if bs[0].key == Some(c2[0]) {
      Incomparable(c, c2);
      assert AfterRemove(t, c, c2) == Get(t, c2);
      assert Get(t, c2) == GetIn(bs, c2);
    } else {
      GetSkip(bs, c2);
      GetSkip(bs, c);
      if c2 < c {
        forall e ensures Keeps(t, c, c2, e) <==> Keeps(rest, c, c2, e) {
          if c2 < e {
            assert e[0] == c[0];
            GetSkip(bs, e);
          }
        }
      }
    }
  }

  // A subtree that is there for a reason holds some clause.
  lemma {:induction false} SomeEntry(t: Trie) returns (e: Clause)
    requires Wf(t) && Tidy(t) && (t.value.Some? || t.branches != [])
    ensures Get(t, e).Some? && (t.value.None? ==> e != [])
  {
    if t.value.Some? {
      e := [];
    } else {
      var e1 := SomeEntry(t.branches[0]);
      e := [t.branches[0].key.value] + e1;
      assert e[1..] == e1;
    }
  }

  // If anything is left below a node, some clause there is untouched by the removal.
  lemma {:induction false} RemoveLeaves(t: Trie, c: Clause) returns (e: Clause)
    requires Wf(t) && Tidy(t) && c != [] && Remove(t, c).Some?
    ensures Keeps(t, c, [], e)
    decreases t, 1
  {
    e := RemoveInLeaves(t.branches, c);
  }

  lemma {:induction false} RemoveInLeaves(bs: seq<Trie>, c: Clause) returns (e: Clause)
    requires WfIn(bs) && TidyIn(bs) && c != [] && RemoveIn(bs, c) != []
    ensures e != [] && GetIn(bs, e).Some?
    ensures !Comparable(c, e) || (c < e && GetIn(bs, c).None?)
    decreases bs, 0
  {
    if bs[0].key != Some(c[0]) {
      var e1 := SomeEntry(bs[0]);
      e := [bs[0].key.value] + e1;
      assert e[1..] == e1;
    } else {
      RemoveInOther(bs[1..], c);
      if bs[1..] != [] {
        var e1 := SomeEntry(bs[1]);
        e := [bs[1].key.value] + e1;
        assert e[1..] == e1;
        assert GetIn(bs[1..], e) == Get(bs[1], e1);
      } else {
        var e1: Clause;
        assert c == [c[0]] + c[1..];
        if c[1..] == [] {
          e1 := SomeEntry(bs[0]);
        } else {
          e1 := RemoveLeaves(bs[0], c[1..]);
        }
        e := [c[0]] + e1;
        assert e[1..] == e1;
        assert c < e <==> c[1..] < e1;
        assert e < c <==> e1 < c[1..];
      }
    }
  }

  // The root disappears (is NULL afterwards) exactly if no entry is left alone by the removal; not only
  // when the last clause is removed.
  lemma RemoveNoneIff(t: Trie, c: Clause)
    requires Wf(t) && Tidy(t)
    ensures Remove(t, c).None? <==> if c == [] then Get(t, []).Some? else !exists e :: Keeps(t, c, [], e)
  {
    if c != [] {
      if Remove(t, c).Some? {
        var e := RemoveLeaves(t, c);
      } else {
        forall e ensures !Keeps(t, c, [], e) {
          if Keeps(t, c, [], e) {
            RemoveInGet(t.branches, c, e);
          }
        }
      }
    }
  }

  // For instance with another clause stored below the removed one.
  lemma RemoveLosesRoot()
    ensures var t := Add(Add(EMPTY, ["a"], 1), ["a", "b"], 2);
            Get(t, ["a", "b"]) == Some(2) && Remove(t, ["a"]).None?
  {
    var t1 := Add(EMPTY, ["a"], 1);
    var t := Add(t1, ["a", "b"], 2);
    AddWf(EMPTY, ["a"], 1); AddTidy(EMPTY, ["a"], 1);
    AddWf(t1, ["a", "b"], 2); AddTidy(t1, ["a", "b"], 2);
    AddGet(EMPTY, ["a"], 1, ["a"]); AddGet(t1, ["a", "b"], 2, ["a"]);
    AddGet(EMPTY, ["a"], 1, ["a", "b"]); AddGet(t1, ["a", "b"], 2, ["a", "b"]);
    forall e ensures !Keeps(t, ["a"], [], e) {
      AddGet(t1, ["a", "b"], 2, e);
      AddGet(EMPTY, ["a"], 1, e);
    }
    RemoveNoneIff(t, ["a"]);
  }

  // Removal is deletion of one clause exactly when nothing is stored below a present clause and
  // every stored proper prefix has another entry to live for.
  lemma RemoveExactIff(t: Trie, c: Clause)
    requires Wf(t) && Tidy(t)
    ensures (forall c2 :: GetRoot(Remove(t, c), c2) == if c2 == c then None else Get(t, c2))
       <==> && (forall e :: c < e && Get(t, c).Some? ==> Get(t, e).None?)
            && (forall c2 :: c2 < c && Get(t, c2).Some? ==> exists e :: Keeps(t, c, c2, e))
  {
    forall c2 ensures GetRoot(Remove(t, c), c2) == AfterRemove(t, c, c2) {
      RemoveGet(t, c, c2);
    }
  }

  // In particular on a prefix-free map that holds the clause.
  lemma RemoveExact(t: Trie, c: Clause, c2: Clause)
    requires Wf(t) && Tidy(t) && Get(t, c).Some?
    requires forall a, b :: Get(t, a).Some? && Get(t, b).Some? && a <= b ==> a == b
    ensures GetRoot(Remove(t, c), c2) == if c2 == c then None else Get(t, c2)
  {
    RemoveGet(t, c, c2);
  }

  // Otherwise a stored statement can vanish from the index: removing "the time" takes with it
  // "the time is now", and removing "the time is now" takes "the time".
  lemma RemoveTakesOthers()
    ensures var t := Add(Add(EMPTY, ["a"], 1), ["a", "b"], 2);
            && Wf(t) && Tidy(t)
            && Get(t, ["a"]) == Some(1) && GetRoot(Remove(t, ["a", "b"]), ["a"]).None?
            && Get(t, ["a", "b"]) == Some(2) && GetRoot(Remove(t, ["a"]), ["a", "b"]).None?
  {
    var t1 := Add(EMPTY, ["a"], 1);
    var t := Add(t1, ["a", "b"], 2);
    AddWf(EMPTY, ["a"], 1); AddTidy(EMPTY, ["a"], 1);
    AddWf(t1, ["a", "b"], 2); AddTidy(t1, ["a", "b"], 2);
    AddGet(EMPTY, ["a"], 1, ["a"]); AddGet(EMPTY, ["a"], 1, ["a", "b"]);
    AddGet(t1, ["a", "b"], 2, ["a"]); AddGet(t1, ["a", "b"], 2, ["a", "b"]);
    RemoveGet(t, ["a"], ["a", "b"]);
    RemoveGet(t, ["a", "b"], ["a"]);
    forall e | Keeps(t, ["a", "b"], ["a"], e) ensures false {
      AddGet(t1, ["a", "b"], 2, e);
      AddGet(EMPTY, ["a"], 1, e);
    }
  }

  lemma {:induction false} RemoveWf(t: Trie, c: Clause)
    requires Wf(t) && Tidy(t)
    ensures Remove(t, c).Some? ==>
            && Wf(Remove(t, c).value) && Tidy(Remove(t, c).value)
            && (Remove(t, c).value.value.Some? || Remove(t, c).value.branches != [] || c == [])
    decreases t, 1
  {
    if c != [] {
      RemoveInWf(t.branches, c);
    }
  }

  lemma {:induction false} RemoveInWf(bs: seq<Trie>, c: Clause)
    requires WfIn(bs) && TidyIn(bs) && c != []
    ensures WfIn(RemoveIn(bs, c)) && TidyIn(RemoveIn(bs, c))
    ensures forall b :: b in RemoveIn(bs, c) ==> exists i :: 0 <= i < |bs| && bs[i].key == b.key
    decreases bs, 0
  {
    if bs != [] {
      RemoveInWf(bs[1..], c);
      RemoveWf(bs[0], c[1..]);
      RemoveKey(bs[0], c[1..]);
      var kept := RemoveIn(bs, c);
      var rest := RemoveIn(bs[1..], c);
      assert kept == rest || kept[1..] == rest;
    }
  }

  // --- Enumeration ------------------------------------------------------------------------------------

  type Entry = (Clause, Ref)

  // The stored clauses below a node in the order trieLookupAll meets them.
  function Entries(t: Trie): seq<Entry>
    decreases t, 1
  {
    (if t.value.Some? then [([], t.value.value)] else []) + EntriesIn(t.branches)
  }

  function EntriesIn(bs: seq<Trie>): seq<Entry>
    decreases bs, 0
  {
    if bs == [] then []
    else (if bs[0].key.Some? then Under(bs[0].key.value, Entries(bs[0])) else []) + EntriesIn(bs[1..])
  }

  function Under(k: Term, es: seq<Entry>): (r: seq<Entry>)
    ensures |r| == |es|
    ensures forall i :: 0 <= i < |es| ==> r[i] == ([k] + es[i].0, es[i].1)
  {
    if es == [] then [] else [([k] + es[0].0, es[0].1)] + Under(k, es[1..])
  }

  // The enumeration lists exactly the map...
  lemma {:induction false} EntriesGet(t: Trie, c: Clause, v: Ref)
    requires Wf(t)
    ensures (c, v) in Entries(t) <==> Get(t, c) == Some(v)
    decreases t, 1
  {
    EntriesInGet(t.branches, c, v);
  }

  lemma {:induction false} EntriesInGet(bs: seq<Trie>, c: Clause, v: Ref)
    requires WfIn(bs)
    ensures (c, v) in EntriesIn(bs) <==> c != [] && GetIn(bs, c) == Some(v)
    decreases bs, 0
  {
    if bs != [] {
      EntriesInGet(bs[1..], c, v);
      var first := Under(bs[0].key.value, Entries(bs[0]));
      if c != [] && bs[0].key.value == c[0] {
        assert c == [c[0]] + c[1..];
        EntriesGet(bs[0], c[1..], v);
        GetInAbsent(bs[1..], c);
        if (c, v) in first {
          var i :| 0 <= i < |first| && first[i] == (c, v);
          assert Entries(bs[0])[i].0 == c[1..];
        }
        if (c[1..], v) in Entries(bs[0]) {
          var i :| 0 <= i < |first| && Entries(bs[0])[i] == (c[1..], v);
          assert first[i] == (c, v);
        }
      } else {
        assert forall i :: 0 <= i < |first| ==> first[i].0[0] == bs[0].key.value;
      }
    }
  }

  // ... and lists no clause twice.
  lemma {:induction false} EntriesDistinct(t: Trie)
    requires Wf(t)
    ensures forall i, j :: 0 <= i < j < |Entries(t)| ==> Entries(t)[i].0 != Entries(t)[j].0
    decreases t, 1
  {
    EntriesInDistinct(t.branches);
    forall i | 0 <= i < |EntriesIn(t.branches)| ensures EntriesIn(t.branches)[i].0 != [] {
      EntriesInGet(t.branches, EntriesIn(t.branches)[i].0, EntriesIn(t.branches)[i].1);
    }
  }

  lemma {:induction false} EntriesInDistinct(bs: seq<Trie>)
    requires WfIn(bs)
    ensures forall i, j :: 0 <= i < j < |EntriesIn(bs)| ==> EntriesIn(bs)[i].0 != EntriesIn(bs)[j].0
    decreases bs, 0
  {
    if bs != [] {
      EntriesDistinct(bs[0]);
      EntriesInDistinct(bs[1..]);
      var k := bs[0].key.value;
      var first, rest := Under(k, Entries(bs[0])), EntriesIn(bs[1..]);
      forall i, j | 0 <= i < |first| && 0 <= j < |rest| ensures first[i].0 != rest[j].0 {
        assert first[i].0[0] == k;
        EntriesInGet(bs[1..], rest[j].0, rest[j].1);
        if rest[j].0[0] == k {
          GetInAbsent(bs[1..], rest[j].0);
        }
      }
      forall i, j | 0 <= i < j < |first| ensures first[i].0 != first[j].0 {
        assert first[i].0[1..] == Entries(bs[0])[i].0;
        assert first[j].0[1..] == Entries(bs[0])[j].0;
      }
      assert EntriesIn(bs) == first + rest;
    }
  }
}
