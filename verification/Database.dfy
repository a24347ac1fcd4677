/**
 The database of db.c as an object: inserting, supporting and removing statements and matches.

 Each public method is one operation, run without interference (db.c notes open races between
 concurrent removers at lines 648 and 838).  Removal is the mutual recursion of the source:
 a statement that loses its last parent takes its matches with it, and they their statements.
 */
module Database {
  import opened Wrappers
  import opened Clauses
  import opened Tries
  import opened TrieLookup
  import opened SupportGraph
  import Keep

  datatype Source = FromAssert | FromHold | FromMatch(m: Mid)

  datatype Inserted =
    | Created(s: Sid)
    | Reused(s: Sid)
    | Aborted               // the parent match is gone
    | Crashed               // the index root is NULL

  datatype Op =
    | Assert(clause: Clause)
    | Hold(clause: Clause, keepMs: nat)
    | Say(m: Mid, clause: Clause, keepMs: nat)
    | Retract(s: Sid)
    | Unhold(s: Sid)
    | Fire(s: Sid)
    | InsertMatch(parents: seq<Sid>)
    | Pin(m: Mid)
    | Supersede(m: Mid)
    | Reap(m: Mid)

  datatype Retraction =
    | Retracted
    | TooMany               // the process exits
    | NoRoot                // ... or dies on the NULL root

  // The most results dbRetractStatements has room for, plus one.
  const RETRACT_MAX := 500

  // The clauses that a sequence of operations states.
  function Stated(ops: seq<Op>): set<Clause> {
    set i | 0 <= i < |ops| && (ops[i].Assert? || ops[i].Hold? || ops[i].Say?) :: ops[i].clause
  }

  // x is st with one assert, hold or timer fewer.
  predicate IsWithdrawal(st: Stmt, x: Stmt) {
    || (st.asserts > 0 && x == st.(asserts := st.asserts - 1))
    || (st.holds > 0 && x == st.(holds := st.holds - 1))
    || (st.timers > 0 && x == st.(timers := st.timers - 1))
  }

  // A statement with one more supporter.
  function Backed(st: Stmt, source: Source): Stmt {
    match source
    case FromAssert => st.(parentCount := st.parentCount + 1, asserts := st.asserts + 1)
    case FromHold => st.(parentCount := st.parentCount + 1, holds := st.holds + 1)
    case FromMatch(_) => st.(parentCount := st.parentCount + 1)
  }

  // A statement as it is made, with its first supporter.
  function NewStmt(clause: Clause, keepMs: int, source: Source): Stmt {
    Stmt(clause, true, 1, keepMs, [], if source.FromAssert? then 1 else 0, if source.FromHold? then 1 else 0, 0)
  }

  class Db {
    var statements: seq<Stmt>
    var matches: seq<Mtch>
    var index: Option<Trie>
    var crashed: bool
    ghost var seen: set<Clause>

    ghost function View(): Graph
      reads this
    {
      Graph(statements, matches, index, crashed, seen)
    }

    // In particular: the parentCount of every live statement is the number of edges from live matches,
    // outstanding asserts and holds, and scheduled removals; and the index is in order.
    ghost predicate Valid()
      reads this
    {
      Inv(View(), multiset{}, NOBODY) && NoOrphans(View())
    }

    // dbNew
    constructor ()
      ensures View() == INITIAL && Valid()
    {
      statements, matches, index, crashed, seen := [], [], Some(EMPTY), false, {};
      new;
      InitialInv();
    }

    // --- The cascade ------------------------------------------------------------------------------------

    // statementRemoveSelf
    method RemoveStatement(s: Sid, ghost pending: multiset<Sid>)
      requires Inv(View(), pending, s) && LiveStatement(View(), s) && statements[s].parentCount == 0
      modifies this
      ensures Inv(View(), pending, NOBODY)
      ensures Cascade(old(View()), View(), {}) && !LiveStatement(View(), s)
      ensures forall m :: m in old(statements[s].children) ==> Gone(View(), m)
      ensures Tidied(old(View()), View(), NOBODY)
      ensures Live(View()) < old(Live(View()))
      ensures old(statements[s].children) == [] ==> View() == KillStatement(old(View()), s)
      decreases Live(View()), 0
    {
      ghost var g := View();
      var children := statements[s].children;
      KillStatementInv(g, s, pending);
      CascadeKill(g, s);
      crashed := crashed || index.None?;
      index := RemoveRoot(index, statements[s].clause);
      statements := statements[s := statements[s].(alive := false)];
      assert View() == KillStatement(g, s);
      TidiedStep(g, View(), {}, s);
      RemoveMatches(s, children, pending, g);
    }

    // The loop of statementRemoveSelf over the matches of the statement s of g.
    method RemoveMatches(ghost s: Sid, children: seq<Mid>, ghost pending: multiset<Sid>, ghost g: Graph)
      requires Inv(View(), pending, NOBODY) && Cascade(g, View(), {}) && Tidied(g, View(), s)
      requires LiveStatement(g, s) && !LiveStatement(View(), s) && children == g.statements[s].children
      requires forall j :: 0 <= j < |children| ==> children[j] < |g.matches|
      modifies this
      ensures Inv(View(), pending, NOBODY) && Cascade(g, View(), {}) && !LiveStatement(View(), s)
      ensures forall j :: 0 <= j < |children| ==> Gone(View(), children[j])
      ensures Tidied(g, View(), NOBODY)
      ensures Live(View()) <= old(Live(View()))
      ensures children == [] ==> View() == old(View())
      decreases Live(View()), 3
    {
      for i := 0 to |children|
        invariant Inv(View(), pending, NOBODY) && Removing(g, View(), s, i)
        invariant Live(View()) <= old(Live(View())) && (i == 0 ==> View() == old(View()))
      {
        ghost var g1 := View();
        var m := children[i];
        if matches[m].alive {
          RemoveMatch(m, pending);
        } else {
          CascadeNone(g1, m);
        }
        CascadeRound(g, g1, View(), s, i);
      }
      TidiedAll(g, View(), s);
    }

    // matchRemoveSelf
    method RemoveMatch(m: Mid, ghost pending: multiset<Sid>)
      requires Inv(View(), pending, NOBODY) && LiveMatch(View(), m)
      modifies this
      ensures Inv(View(), pending, NOBODY)
      ensures Cascade(old(View()), View(), {m}) && Gone(View(), m) && Tidied(old(View()), View(), NOBODY)
      ensures LiveMatch(View(), m) <==> old(matches[m].pinned)
      ensures old(matches[m].pinned) ==>
                View() == SetM(old(View()), m, old(matches[m]).(parentWasRemoved := true))
      ensures Live(View()) <= old(Live(View()))
      decreases Live(View()), 2
    {
      ghost var g := View();
      if matches[m].pinned {
        // Left to the reaper of its atomically version.
        matches := matches[m := matches[m].(parentWasRemoved := true)];
        FlagInv(g, m, matches[m], pending);
        CascadeMatch(g, m, matches[m]);
        TidiedStep(g, View(), {m}, NOBODY);
        LiveMUpdate(g.matches, m, matches[m]);
        return;
      }
      var children := matches[m].children;
      KillMatchInv(g, m, pending);
      matches := matches[m := matches[m].(alive := false)];
      CascadeMatch(g, m, matches[m]);
      TidiedStep(g, View(), {m}, NOBODY);
      DecrParents(m, children, pending, g);
    }

    // The loop of matchRemoveSelf over the statements of the match m of g.
    method DecrParents(ghost m: Mid, children: seq<Sid>, ghost pending: multiset<Sid>, ghost g: Graph)
      requires Inv(View(), pending + multiset(children), NOBODY) && Cascade(g, View(), {m}) && Tidied(g, View(), NOBODY)
      requires LiveMatch(g, m) && !LiveMatch(View(), m)
      modifies this
      ensures Inv(View(), pending, NOBODY) && Cascade(g, View(), {m}) && !LiveMatch(View(), m)
      ensures Tidied(g, View(), NOBODY)
      ensures Live(View()) <= old(Live(View()))
      decreases Live(View()), 2
    {
      assert children[0..] == children;
      for i := 0 to |children|
        invariant Inv(View(), pending + multiset(children[i..]), NOBODY) && Cascade(g, View(), {m})
        invariant Live(View()) <= old(Live(View())) && Tidied(g, View(), NOBODY)
        invariant !LiveMatch(View(), m)
      {
        ghost var g1 := View();
        PendingFirst(pending, children, i);
        DecrParent(children[i], pending + multiset(children[i + 1..]));
        DecrParentRound(g, g1, View(), m);
      }
      assert pending + multiset(children[|children|..]) == pending;
    }

    // statementDecrParentCountAndMaybeRemoveSelf
    method DecrParent(s: Sid, ghost pending: multiset<Sid>)
      requires Inv(View(), pending + multiset{s}, NOBODY)
      modifies this
      ensures Inv(View(), pending, NOBODY)
      ensures Cascade(old(View()), View(), {}) && Tidied(old(View()), View(), NOBODY)
      ensures Live(View()) <= old(Live(View()))
      ensures old(LiveStatement(View(), s)) && |statements| == old(|statements|)
      ensures LiveStatement(View(), s) <==>
                old(statements[s].parentCount != 1 || statements[s].keepMs > 0)
      ensures !LiveStatement(View(), s) && old(statements[s].children) == [] ==>
                index == RemoveRoot(old(index), old(statements[s].clause))
      decreases Live(View()), 1
    {
      ghost var g := View();
      assert (pending + multiset{s})[s] > 0;
      assert LiveStatement(g, s);
      var st := statements[s];
      var loss := Keep.Decr(st.parentCount, st.keepMs);
      var x := st.(parentCount := loss.parentCount, keepMs := loss.keepMs,
                   timers := if loss.outcome.Schedule? then st.timers + 1 else st.timers);
      statements := statements[s := x];
      RecountInv(g, s, x, pending + multiset{s}, pending, if loss.outcome.Remove? then s else NOBODY);
      CascadeRecount(g, s, x);
      TidiedStep(g, View(), {}, NOBODY);
      if loss.outcome.Remove? {
        ghost var g1 := View();
        RemoveStatement(s, pending);
        CascadeTrans(g, g1, View(), {}, {});
        TidiedTrans(g, g1, View(), {}, NOBODY);
      }
    }

    // --- Inserting ----------------------------------------------------------------------------------------

    // dbInsertOrReuseStatement: the caller's support goes to the statement the index has for the clause,
    // or to a new one.
    method InsertOrReuse(clause: Clause, keepMs: nat, source: Source) returns (r: Inserted)
      requires Valid()
      modifies this
      ensures Valid()
      ensures r.Aborted? <==> source.FromMatch? && !old(LiveMatch(View(), source.m))
      ensures r.Aborted? ==> View() == old(View())
      ensures r.Crashed? <==> !r.Aborted? && old(index.None?)
      ensures r.Crashed? ==> View() == old(View()).(crashed := true)
      ensures r.Created? || r.Reused? ==>
                && LiveStatement(View(), r.s) && statements[r.s].clause == clause
                && GetRoot(index, clause) == Some(r.s) && seen == old(seen) + {clause} && crashed == old(crashed)
      ensures r.Created? ==>
                && old(GetRoot(index, clause).None?) && r.s == old(|statements|)
                && statements[r.s] == NewStmt(clause, keepMs, source)
                && index == Some(Add(old(index).value, clause, r.s))
      ensures r.Created? ==>
                && statements[..r.s] == old(statements) && |statements| == r.s + 1
                && statements[r.s].keepMs == keepMs && statements[r.s].parentCount == 1 && statements[r.s].children == []
                && statements[r.s].timers == 0 && statements[r.s].asserts == (if source.FromAssert? then 1 else 0)
                && statements[r.s].holds == (if source.FromHold? then 1 else 0)
      ensures r.Reused? ==>
                && old(GetRoot(index, clause)) == Some(r.s) && old(LiveStatement(View(), r.s)) && index == old(index)
                && statements == old(statements)[r.s := statements[r.s]]
                && var st := old(statements[r.s]);
                   statements[r.s] == st.(parentCount := st.parentCount + 1,
                                          asserts := if source.FromAssert? then st.asserts + 1 else st.asserts,
                                          holds := if source.FromHold? then st.holds + 1 else st.holds)
      ensures r.Created? || r.Reused? ==>
                matches == if source.FromMatch?
                           then old(matches)[source.m := old(matches[source.m]).(
                                               children := old(matches[source.m].children) + [r.s])]
                           else old(matches)
    {
      if source.FromMatch? && !(source.m < |matches| && matches[source.m].alive) {
        return Aborted;
      }
      ghost var g := View();
      if index.None? {
        crashed := true;
        SameFamiliesKeep(g, View());
        return Crashed;
      }
      var root := index.value;
      var ref := |statements|;
      var added := Add(root, clause, ref);
      AddSameIff(root, clause, ref);
      if added == root {
        var s := Reuse(clause, source);
        r := Reused(s);
      } else {
        Insert(clause, keepMs, source, added);
        r := Created(ref);
      }
    }

    // The literal lookup finds exactly one ref, and the statement can be acquired and still has parents:
    // the retry paths are for concurrent removers.
    method Reuse(clause: Clause, source: Source) returns (s: Sid)
      requires Valid() && GetRoot(index, clause).Some?
      requires source.FromMatch? ==> LiveMatch(View(), source.m)
      modifies this`statements, this`matches
      ensures Valid() && seen == old(seen) + {clause}
      ensures GetRoot(index, clause) == Some(s) && old(LiveStatement(View(), s)) && LiveStatement(View(), s)
      ensures statements == old(statements)[s := Backed(old(statements[s]), source)] && statements[s].clause == clause
      ensures matches == if source.FromMatch?
                         then old(matches)[source.m := old(matches[source.m]).(children := old(matches[source.m].children) + [s])]
                         else old(matches)
    {
      LookupLiteralIsGet(index.value, clause);
      var ref := Get(index.value, clause).value;
      IndexedIsLive(View(), clause, ref);
      s := ref;
      Support(s, source);
    }

    // The new statement and the extended index are committed.
    method Insert(clause: Clause, keepMs: nat, source: Source, added: Trie)
      requires Valid() && index.Some? && Get(index.value, clause).None? && added == Add(index.value, clause, |statements|)
      requires source.FromMatch? ==> LiveMatch(View(), source.m)
      modifies this
      ensures Valid()
      ensures |statements| == old(|statements|) + 1 && statements[..|statements| - 1] == old(statements)
      ensures matches == if source.FromMatch?
                         then old(matches)[source.m := old(matches[source.m]).(
                                             children := old(matches[source.m].children) + [old(|statements|)])]
                         else old(matches)
      ensures var s := old(|statements|);
              && LiveStatement(View(), s) && statements[s] == NewStmt(clause, keepMs, source) && index == Some(added)
              && GetRoot(index, clause) == Some(s) && seen == old(seen) + {clause} && crashed == old(crashed)
    {
      ghost var g := View();
      var root := index.value;
      var ref := |statements|;
      var asserts, holds := if source.FromAssert? then 1 else 0, if source.FromHold? then 1 else 0;
      NewStatementInv(g, clause, keepMs, asserts, holds, if source.FromMatch? then multiset{ref} else multiset{});
      statements := statements + [Stmt(clause, true, 1, keepMs, [], asserts, holds, 0)];
      index := Some(added);
      seen := seen + {clause};
      assert View() == NewStatement(g, clause, keepMs, asserts, holds);
      AddGet(root, clause, ref, clause);
      if source.FromMatch? {
        AddEdge(source.m, ref);
      }
      SameFamiliesKeep(g, View());
    }

    // tryReuseStatement
    method Support(s: Sid, source: Source)
      requires Valid() && LiveStatement(View(), s)
      requires source.FromMatch? ==> LiveMatch(View(), source.m)
      modifies this`statements, this`matches
      ensures Valid()
      ensures statements == old(statements)[s := Backed(old(statements[s]), source)]
      ensures matches == if source.FromMatch?
                         then old(matches)[source.m := old(matches[source.m]).(children := old(matches[source.m].children) + [s])]
                         else old(matches)
    {
      ghost var g := View();
      ghost var edge := if source.FromMatch? then multiset{s} else multiset{};
      statements := statements[s := Backed(statements[s], source)];
      RecountInv(g, s, statements[s], multiset{}, edge, NOBODY);
      assert View() == SetS(g, s, statements[s]);
      if source.FromMatch? {
        AddEdge(source.m, s);
      }
      SameFamiliesKeep(g, View());
    }

    // matchAddChildStatement
    method AddEdge(m: Mid, s: Sid)
      requires Inv(View(), multiset{s}, NOBODY) && LiveMatch(View(), m)
      modifies this`matches
      ensures Inv(View(), multiset{}, NOBODY)
      ensures matches == old(matches)[m := old(matches[m]).(children := old(matches[m].children) + [s])]
    {
      AddEdgeInv(View(), m, s);
      matches := matches[m := matches[m].(children := matches[m].children + [s])];
    }

    // dbInsertMatch: the match is inserted under all its parents, once per mention, or, if one of them is gone,
    // removed at once.
    method NewMatch(parents: seq<Sid>) returns (m: Mid, ok: bool)
      requires Valid()
      modifies this`statements, this`matches
      ensures Valid()
      ensures m == old(|matches|) && matches == old(matches) + [Mtch(ok, false, false, [], parents)]
      ensures ok <==> forall i :: 0 <= i < |parents| ==> old(LiveStatement(View(), parents[i]))
      ensures |statements| == old(|statements|)
      ensures forall s: Sid :: s < |statements| ==>
                statements[s] == old(statements[s]).(
                  children := old(statements[s].children) + if ok then seq(multiset(parents)[s], _ => m) else [])
    {
      m := |matches|;
      ok := true;
      for i := 0 to |parents|
        invariant ok <==> forall j :: 0 <= j < i ==> LiveStatement(View(), parents[j])
      {
        ok := ok && parents[i] < |statements| && statements[parents[i]].alive;
      }
      ghost var g := View();
      NewMatchInv(g, ok, parents);
      matches := matches + [Mtch(ok, false, false, [], parents)];
      if ok {
        Adopt(parents, m);
      }
      AdoptKeepsParents(g, View(), parents, ok);
    }

    // Its loop over the parents: statementAddChildMatch.
    method Adopt(parents: seq<Sid>, m: Mid)
      requires Inv(View(), multiset{}, NOBODY) && m < |matches|
      requires forall i :: 0 <= i < |parents| ==> LiveStatement(View(), parents[i])
      modifies this`statements
      ensures Inv(View(), multiset{}, NOBODY) && |statements| == old(|statements|)
      ensures forall s: Sid :: s < |statements| ==> statements[s] == Adopting(old(statements[s]), parents, s, m)
    {
      for i := 0 to |parents|
        invariant Inv(View(), multiset{}, NOBODY) && |statements| == old(|statements|)
        invariant forall s: Sid :: s < |statements| ==> statements[s] == Adopting(old(statements[s]), parents[..i], s, m)
      {
        var s := parents[i];
        assert LiveStatement(old(View()), s);
        ghost var before := statements;
        AddChildInv(View(), s, m);
        statements := statements[s := statements[s].(children := statements[s].children + [m])];
        AdoptOne(old(statements), before, statements, parents, i, m);
      }
      assert parents[..|parents|] == parents;
    }

    // --- Losing support --------------------------------------------------------------------------------------

    // One supporter of s, of a kind that is there, goes away: an assert (dbRetractStatements), a hold, or a
    // scheduled removal whose time has come (sysmon).
    method Withdraw(s: Sid, x: Stmt)
      requires Valid() && LiveStatement(View(), s)
      requires IsWithdrawal(statements[s], x)
      modifies this
      ensures Valid()
      ensures Cascade(SetS(old(View()), s, x), View(), {})
      ensures LiveStatement(View(), s) <==> old(statements[s].parentCount != 1 || statements[s].keepMs > 0)
      ensures !LiveStatement(View(), s) && old(statements[s].children) == [] ==>
                index == RemoveRoot(old(index), old(statements[s].clause))
    {
      ghost var g := View();
      statements := statements[s := x];
      RecountInv(g, s, x, multiset{}, multiset{s}, NOBODY);
      assert multiset{} + multiset{s} == multiset{s};
      SameFamiliesKeep(g, View());
      ghost var g1 := View();
      DecrParent(s, multiset{});
      CascadeKeepsParents(g1, View(), {});
    }

    // dbRetractStatements, for a pattern whose matches all have an outstanding assert.
    method RetractStatements(pattern: Clause) returns (r: Retraction)
      requires Valid()
      requires forall s: Sid :: Found(View(), pattern, s) ==> statements[s].asserts > 0
      modifies this
      ensures Valid()
      ensures r.NoRoot? <==> old(index.None?)
      ensures r.NoRoot? ==> View() == old(View()).(crashed := true)
      ensures r.TooMany? ==> View() == old(View())
      ensures !r.NoRoot? ==> (r.TooMany? <==> |Hits(false, pattern, Entries(old(index).value))| >= RETRACT_MAX)
      ensures |statements| == old(|statements|) && seen == old(seen)
      ensures r.Retracted? ==>
                forall s: Sid :: s < |statements| && old(statements[s].alive) && old(statements[s].asserts) > 0 ==>
                  statements[s].asserts ==
                  old(statements[s].asserts) - (if Found(old(View()), pattern, s) then 1 else 0)
    {
      if index.None? {
        ghost var g := View();
        crashed := true;
        SameFamiliesKeep(g, View());
        return Retraction.NoRoot;
      }
      var results := Hits(false, pattern, Entries(index.value));
      if |results| >= RETRACT_MAX {
        return Retraction.TooMany;
      }
      ResultsOk(View(), pattern, results);
      forall k | 0 <= k < |results| ensures statements[results[k]].asserts > 0 {
        assert results[k] in results;
        assert Found(View(), pattern, results[k]);
      }
      RetractEach(results);
      r := Retracted;
    }

    // One round of that loop for a statement on which no match hangs, whoever supports it: the code does not
    // ask for an assert.  What this leaves is AfterRetract.
    method RetractAnyway(s: Sid)
      requires LiveStatement(View(), s) && statements[s].children == []
      modifies this
      ensures View() == AfterRetract(old(View()), s)
    {
      var st := statements[s];
      var loss := Keep.Decr(st.parentCount, st.keepMs);
      statements := statements[s := Decremented(st)];
      if loss.outcome.Remove? {
        crashed := crashed || index.None?;
        index := RemoveRoot(index, statements[s].clause);
        statements := statements[s := statements[s].(alive := false)];
      }
    }

    // The loop of dbRetractStatements.
    method RetractEach(results: seq<Ref>)
      requires Valid()
      requires forall i, j :: 0 <= i < j < |results| ==> results[i] != results[j]
      requires forall k :: 0 <= k < |results| ==> LiveStatement(View(), results[k]) && statements[results[k]].asserts > 0
      modifies this
      ensures Valid() && RetractedSoFar(old(View()), View(), results)
    {
      ghost var g := View();
      assert RetractedSoFar(g, View(), results[..0]);
      for i := 0 to |results|
        invariant Valid() && RetractedSoFar(g, View(), results[..i])
      {
        assert LiveStatement(g, results[i]);
        RetractOne(results[i], g, results[..i]);
        assert results[..i + 1] == results[..i] + [results[i]];
      }
      assert results[..|results|] == results;
    }

    // One round, after those for done.
    method RetractOne(s: Sid, ghost g: Graph, ghost done: seq<Ref>)
      requires Valid() && RetractedSoFar(g, View(), done)
      requires s !in done && LiveStatement(g, s) && g.statements[s].asserts > 0
      modifies this
      ensures Valid() && RetractedSoFar(g, View(), done + [s])
    {
      ghost var g1 := View();
      Withdraw(s, statements[s].(asserts := statements[s].asserts - 1));
      RetractRound(g, g1, View(), s, done);
    }

    // --- Atomically roots and whole runs -----------------------------------------------------------------------

    // dbFreshAtomicallyVersionOnKey makes the match the root of a version.
    method PinMatch(m: Mid)
      requires Valid() && LiveMatch(View(), m)
      modifies this`matches
      ensures Valid() && View() == SetM(old(View()), m, old(matches[m]).(pinned := true))
    {
      ghost var g := View();
      matches := matches[m := matches[m].(pinned := true)];
      FlagInv(g, m, matches[m], multiset{});
      SameFamiliesKeep(g, View());
    }

    // A newer version of the same key has converged: from now on the match is removed like any other,
    // though it is still the root of its version.
    method SupersedeMatch(m: Mid)
      requires Valid() && LiveMatch(View(), m)
      modifies this`matches
      ensures Valid() && View() == SetM(old(View()), m, old(matches[m]).(pinned := false))
    {
      ghost var g := View();
      matches := matches[m := matches[m].(pinned := false)];
      FlagInv(g, m, matches[m], multiset{});
      SameFamiliesKeep(g, View());
    }

    // The reaper of dbAtomicallyReapAllVersions lets go of a root match, and removes it if one of its
    // parents went away in the meantime.  If the match is gone already it has nothing to do.
    method ReapMatch(m: Mid)
      requires Valid() && m < |matches|
      modifies this
      ensures Valid()
      ensures !old(matches[m].alive) ==> View() == old(View())
      ensures old(matches[m].alive) ==>
                && (LiveMatch(View(), m) <==> !old(matches[m].parentWasRemoved))
                && Cascade(SetM(old(View()), m, old(matches[m]).(pinned := false)), View(), {m})
      ensures seen == old(seen)
    {
      if !matches[m].alive {
        return;
      }
      ghost var g := View();
      matches := matches[m := matches[m].(pinned := false)];
      FlagInv(g, m, matches[m], multiset{});
      SameFamiliesKeep(g, View());
      if matches[m].parentWasRemoved {
        ghost var g1 := View();
        RemoveMatch(m, multiset{});
        CascadeKeepsParents(g1, View(), {m});
      } else {
        CascadeMatch(View(), m, matches[m]);
      }
    }

    // Any sequence of operations, each skipped if its subject is not there; a crash ends the run.
    method Run(ops: seq<Op>)
      requires Valid()
      modifies this
      ensures Valid() && seen <= old(seen) + Stated(ops)
      ensures forall m: Mid, p: Sid :: LiveMatch(View(), m) && !matches[m].parentWasRemoved && p in matches[m].parents ==>
                LiveStatement(View(), p)
    {
      RunFrom(ops);
      forall m: Mid, p: Sid | LiveMatch(View(), m) && !matches[m].parentWasRemoved && p in matches[m].parents
        ensures LiveStatement(View(), p)
      {
        ParentsAlive(View(), m, p);
      }
    }

    method RunFrom(ops: seq<Op>)
      requires Valid()
      modifies this
      ensures Valid() && seen <= old(seen) + Stated(ops)
    {
      for i := 0 to |ops|
        invariant Valid() && seen <= old(seen) + Stated(ops)
      {
        if crashed { return; }
        match ops[i] {
          case Assert(clause) => var _ := InsertOrReuse(clause, 0, FromAssert);
          case Hold(clause, keepMs) => var _ := InsertOrReuse(clause, keepMs, FromHold);
          case Say(m, clause, keepMs) => var _ := InsertOrReuse(clause, keepMs, FromMatch(m));
          case Retract(s) =>
            if s < |statements| && statements[s].alive && statements[s].asserts > 0 {
              Withdraw(s, statements[s].(asserts := statements[s].asserts - 1));
            }
          case Unhold(s) =>
            if s < |statements| && statements[s].alive && statements[s].holds > 0 {
              Withdraw(s, statements[s].(holds := statements[s].holds - 1));
            }
          case Fire(s) =>
            if s < |statements| && statements[s].alive && statements[s].timers > 0 {
              Withdraw(s, statements[s].(timers := statements[s].timers - 1));
            }
          case InsertMatch(parents) => var _, _ := NewMatch(parents);
          case Pin(m) => if m < |matches| && matches[m].alive { PinMatch(m); }
          case Supersede(m) => if m < |matches| && matches[m].alive { SupersedeMatch(m); }
          case Reap(m) => if m < |matches| { ReapMatch(m); }
        }
      }
    }
  }

  // The crash: once the only statement is retracted the root is NULL, and stating anything dereferences it.
  method CrashRun(c: Clause, d: Clause) returns (db: Db, r: Inserted)
    ensures fresh(db) && r.Crashed? && db.crashed
  {
    db := new Db();
    var first := db.InsertOrReuse(c, 0, FromAssert);
    OnlyEntry(c, first.s);
    db.Withdraw(first.s, db.statements[first.s].(asserts := 0));
    r := db.InsertOrReuse(d, 0, FromAssert);
  }

  lemma OnlyEntry(c: Clause, v: Ref)
    ensures Get(EMPTY, c).None? && Remove(Add(EMPTY, c, v), c).None?
  {
    var t := Add(EMPTY, c, v);
    AddWf(EMPTY, c, v);
    AddTidy(EMPTY, c, v);
    AddGet(EMPTY, c, v, c);
    forall e ensures !Keeps(t, c, [], e) {
      AddGet(EMPTY, c, v, e);
    }
    RemoveNoneIff(t, c);
  }

  lemma IndexedIsLive(g: Graph, clause: Clause, s: Ref)
    requires Inv(g, multiset{}, NOBODY) && GetRoot(g.index, clause) == Some(s)
    ensures 0 <= s && LiveStatement(g, s) && g.statements[s].clause == clause && g.seen == g.seen + {clause}
  {
    assert LiveStatement(g, s);
    assert clause in g.seen;
  }

  lemma PendingFirst(pending: multiset<Sid>, children: seq<Sid>, i: nat)
    requires i < |children|
    ensures pending + multiset(children[i..]) == (pending + multiset(children[i + 1..])) + multiset{children[i]}
  {
    assert children[i..] == [children[i]] + children[i + 1..];
  }

  lemma DecrParentRound(g: Graph, g1: Graph, g2: Graph, m: Mid)
    requires Cascade(g, g1, {m}) && Tidied(g, g1, NOBODY) && LiveMatch(g, m) && !LiveMatch(g1, m)
    requires Cascade(g1, g2, {}) && Tidied(g1, g2, NOBODY)
    ensures Cascade(g, g2, {m}) && Tidied(g, g2, NOBODY) && !LiveMatch(g2, m)
  {
    CascadeTrans(g, g1, g2, {m}, {});
    TidiedTrans(g, g1, g2, {}, NOBODY);
    assert {m} + {} == {m};
    assert MatchFate(g1.matches[m], g2.matches[m]);
  }

  // Removing a statement leaves a NULL root exactly if the removal leaves no entry alone.
  lemma KillLosesRootIff(g: Graph, s: Sid)
    requires IndexOk(g) && g.index.Some? && LiveStatement(g, s)
    ensures KillStatement(g, s).index.None? <==>
            if g.statements[s].clause == [] then Get(g.index.value, []).Some?
            else !exists e :: Keeps(g.index.value, g.statements[s].clause, [], e)
  {
    RemoveNoneIff(g.index.value, g.statements[s].clause);
  }

  // What statementDecrParentCountAndMaybeRemoveSelf makes of a statement that is retracted: an outstanding
  // assert, if there is one, is taken back.
  function Decremented(st: Stmt): Stmt {
    var loss := Keep.Decr(st.parentCount, st.keepMs);
    st.(parentCount := loss.parentCount, keepMs := loss.keepMs,
        timers := if loss.outcome.Schedule? then st.timers + 1 else st.timers,
        asserts := if st.asserts > 0 then st.asserts - 1 else 0)
  }

  // The database then, up to the removal of the matches that hang on a removed statement.
  function AfterRetract(g: Graph, s: Sid): Graph
    requires s < |g.statements|
  {
    var g1 := SetS(g, s, Decremented(g.statements[s]));
    if Keep.Decr(g.statements[s].parentCount, g.statements[s].keepMs).outcome.Remove? then KillStatement(g1, s) else g1
  }

  // Someone other than an assert supports s.
  predicate OtherwiseSupported(g: Graph, s: Sid)
    requires s < |g.statements|
  {
    Edges(g.matches, s) + g.statements[s].holds + g.statements[s].timers > 0
  }

  // What comes of a retraction, for every live statement: it removes one that something else still supports
  // exactly if no assert was outstanding, one supporter was left, and no grace period applies; and if it does
  // not remove it, the accounts hold again exactly if an assert was outstanding.
  lemma RetractNeedsAssert(g: Graph, s: Sid)
    requires Inv(g, multiset{}, NOBODY) && LiveStatement(g, s)
    ensures var st, g2 := g.statements[s], AfterRetract(g, s);
            && (!LiveStatement(g2, s) <==> st.parentCount == 1 && st.keepMs <= 0)
            && (!LiveStatement(g2, s) && OtherwiseSupported(g, s) <==>
                  st.asserts == 0 && st.parentCount == 1 && st.keepMs <= 0)
            && (LiveStatement(g2, s) ==> (Accounts(g2, multiset{}) <==> st.asserts > 0))
  {
    var st, g2 := g.statements[s], AfterRetract(g, s);
    assert st.parentCount == Edges(g.matches, s) + External(st);
    if LiveStatement(g2, s) {
      assert g2 == SetS(g, s, Decremented(st));
      assert forall r: Sid :: r != s ==> (LiveStatement(g2, r) <==> LiveStatement(g, r));
      forall r: Sid | r != s && LiveStatement(g, r) ensures g2.statements[r] == g.statements[r] {
      }
    }
  }

  // A run that gets there: a match says c, c is retracted, and c is gone while the live match still lists it.
  method RetractSaidRun(w: Clause, c: Clause) returns (db: Db, m: Mid, s: Sid)
    requires w != c
    ensures fresh(db) && !LiveStatement(db.View(), s) && s < |db.statements| && db.statements[s].clause == c
    ensures LiveMatch(db.View(), m) && s in db.matches[m].children
  {
    db, m, s := SayRun(w, c);
    SaidIsRemoved(db.View(), s);
    db.RetractAnyway(s);
  }

  lemma SaidIsRemoved(g: Graph, s: Sid)
    requires LiveStatement(g, s) && g.statements[s].parentCount == 1 && g.statements[s].keepMs == 0
    ensures var g2 := AfterRetract(g, s);
            && !LiveStatement(g2, s) && g2.matches == g.matches && s < |g2.statements|
            && g2.statements[s].clause == g.statements[s].clause
  {
  }

  // A new database in which w is asserted.
  method AssertRun(w: Clause) returns (db: Db, s: Sid)
    ensures fresh(db) && db.Valid() && LiveStatement(db.View(), s) && db.index == Some(Add(EMPTY, w, s))
  {
    db := new Db();
    var parent := db.InsertOrReuse(w, 0, FromAssert);
    s := parent.s;
    OnlyEntry(w, s);
  }

  // A match of the asserted w; nothing is indexed yet under any other clause c.
  method MatchRun(w: Clause, ghost c: Clause) returns (db: Db, m: Mid)
    requires w != c
    ensures fresh(db) && db.Valid() && LiveMatch(db.View(), m) && db.index.Some? && GetRoot(db.index, c).None?
  {
    var parent;
    db, parent := AssertRun(w);
    AddGet(EMPTY, w, parent, c);
    OnlyEntry(c, parent);
    var ok;
    m, ok := db.NewMatch([parent]);
    assert ok;
  }

  // The match says c; a retraction of c would find what it said.
  method SayRun(w: Clause, c: Clause) returns (db: Db, m: Mid, s: Sid)
    requires w != c
    ensures fresh(db) && LiveMatch(db.View(), m) && s in db.matches[m].children
    ensures LiveStatement(db.View(), s) && db.statements[s] == NewStmt(c, 0, FromMatch(m)) && Found(db.View(), c, s)
  {
    db, m := MatchRun(w, c);
    var said := db.InsertOrReuse(c, 0, FromMatch(m));
    s := said.s;
    MatchesItself(c);
  }

  // The index after any run of a new database on clauses none of which is a proper prefix of another: it
  // has a ref under a clause exactly if the ref is the live statement with that clause, and there is at
  // most one.  (Holds also deindex, which is not modelled.)
  method RunFromNew(ops: seq<Op>) returns (db: Db)
    requires PrefixFree(Stated(ops)) && forall i :: 0 <= i < |ops| ==> !ops[i].Hold?
    ensures fresh(db) && db.Valid() && db.seen <= Stated(ops)
    ensures forall c, s: Sid :: GetRoot(db.index, c) == Some(s) <==> LiveStatement(db.View(), s) && db.statements[s].clause == c
    ensures forall s: Sid, r: Sid ::
              LiveStatement(db.View(), s) && LiveStatement(db.View(), r) && db.statements[s].clause == db.statements[r].clause ==>
              s == r
  {
    db := new Db();
    db.Run(ops);
    forall c, s: Sid
      ensures GetRoot(db.index, c) == Some(s) <==> LiveStatement(db.View(), s) && db.statements[s].clause == c
    {
      IndexAgrees(db.View(), c, s, s);
    }
    forall s: Sid, r: Sid | LiveStatement(db.View(), s) && LiveStatement(db.View(), r)
      && db.statements[s].clause == db.statements[r].clause
      ensures s == r
    {
      IndexAgrees(db.View(), db.statements[s].clause, s, r);
    }
  }

  // On clauses none of which is a proper prefix of another, the index maps a clause to a ref exactly if
  // the ref is the live statement with that clause, and there is at most one such statement.
  lemma IndexAgrees(g: Graph, c: Clause, s: Sid, r: Sid)
    requires Inv(g, multiset{}, NOBODY) && PrefixFree(g.seen)
    ensures GetRoot(g.index, c) == Some(s) <==> LiveStatement(g, s) && g.statements[s].clause == c
    ensures LiveStatement(g, s) && LiveStatement(g, r) && g.statements[s].clause == g.statements[r].clause ==> s == r
  {
    if GetRoot(g.index, c) == Some(s) {
      assert LiveStatement(g, GetRoot(g.index, c).value);
    }
    if LiveStatement(g, s) && LiveStatement(g, r) {
      assert GetRoot(g.index, g.statements[s].clause) == Some(s);
      assert GetRoot(g.index, g.statements[r].clause) == Some(r);
    }
  }

  // Without that restriction, removing r can make the index forget another live statement s.  It keeps s
  // exactly if s is not below r, and, in case s is above r, if something else below s is kept.
  lemma IndexKeptIff(g: Graph, r: Sid, s: Sid)
    requires IndexOk(g) && LiveStatement(g, r) && LiveStatement(g, s) && r != s
    requires GetRoot(g.index, g.statements[r].clause) == Some(r)
    requires GetRoot(g.index, g.statements[s].clause) == Some(s)
    ensures LiveStatement(KillStatement(g, r), s)
    ensures GetRoot(KillStatement(g, r).index, g.statements[s].clause) == Some(s) <==>
            && !(g.statements[r].clause < g.statements[s].clause)
            && (g.statements[s].clause < g.statements[r].clause ==>
                  exists e :: Keeps(g.index.value, g.statements[r].clause, g.statements[s].clause, e))
  {
    RemoveGet(g.index.value, g.statements[r].clause, g.statements[s].clause);
  }

  // The index has s under a clause that matches the pattern.
  predicate Found(g: Graph, pattern: Clause, s: Sid) {
    && s < |g.statements|
    && GetRoot(g.index, g.statements[s].clause) == Some(s)
    && Matches(pattern, g.statements[s].clause)
  }

  // From g to g2 exactly the statements in done, if they had an assert, have lost one; those that still
  // have theirs are alive.
  ghost predicate RetractedSoFar(g: Graph, g2: Graph, done: seq<Ref>) {
    && |g2.statements| == |g.statements| && g2.seen == g.seen
    && forall s: Sid :: s < |g.statements| && g.statements[s].alive && g.statements[s].asserts > 0 ==>
         && g2.statements[s].asserts == g.statements[s].asserts - (if s in done then 1 else 0)
         && (s !in done ==> g2.statements[s].alive)
  }

  lemma RetractRound(g: Graph, g1: Graph, g2: Graph, s: Sid, done: seq<Ref>)
    requires RetractedSoFar(g, g1, done) && s !in done && LiveStatement(g, s) && g.statements[s].asserts > 0
    requires Cascade(SetS(g1, s, g1.statements[s].(asserts := g1.statements[s].asserts - 1)), g2, {})
    ensures RetractedSoFar(g, g2, done + [s])
  {
    var mid := SetS(g1, s, g1.statements[s].(asserts := g1.statements[s].asserts - 1));
    forall r: Sid | r < |g.statements| && g.statements[r].alive && g.statements[r].asserts > 0
      ensures g2.statements[r].asserts == g.statements[r].asserts - (if r in done + [s] then 1 else 0)
      ensures r !in done + [s] ==> g2.statements[r].alive
    {
      assert StatementFate(mid.statements[r], g2.statements[r]);
    }
  }

  // What a retract pattern finds: distinct live statements, exactly those the index has under a matching clause.
  lemma ResultsOk(g: Graph, pattern: Clause, results: seq<Ref>)
    requires IndexSound(g) && g.index.Some? && results == Hits(false, pattern, Entries(g.index.value))
    ensures forall i, j :: 0 <= i < j < |results| ==> results[i] != results[j]
    ensures forall k :: 0 <= k < |results| ==> LiveStatement(g, results[k])
    ensures forall s: Sid :: s in results <==> Found(g, pattern, s)
  {
    var t := g.index.value;
    var es := Entries(t);
    EntriesDistinct(t);
    forall i | 0 <= i < |es| ensures LiveStatement(g, es[i].1) && g.statements[es[i].1].clause == es[i].0 {
      EntriesGet(t, es[i].0, es[i].1);
      assert GetRoot(g.index, es[i].0) == Some(es[i].1);
    }
    HitsOnce(false, pattern, es);
    forall r: int ensures r in Hits(false, pattern, es) <==> exists c :: Get(t, c) == Some(r) && Matches(pattern, c) {
      LookupFinds(t, pattern, r);
    }
    forall r: int | r in Hits(false, pattern, es) ensures LiveStatement(g, r) && Found(g, pattern, r) {
      var c :| Get(t, c) == Some(r) && Matches(pattern, c);
      assert GetRoot(g.index, c) == Some(r);
    }
    forall k | 0 <= k < |Hits(false, pattern, es)| ensures LiveStatement(g, Hits(false, pattern, es)[k]) {
      assert Hits(false, pattern, es)[k] in Hits(false, pattern, es);
    }
    forall s: Sid | Found(g, pattern, s) ensures s in Hits(false, pattern, es) {
      assert Get(t, g.statements[s].clause) == Some(s);
    }
  }
}
