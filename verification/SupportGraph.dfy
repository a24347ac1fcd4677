/**
 The support graph of db.c as a value: statements with their parent counts, matches with the
 statements they support, and the index.  `Inv` is what every operation on it keeps.

 Refs are positions that are never reused; that a stale ref never reaches a reused slot is the
 subject of `GenRc`.
 */
module SupportGraph {
  import opened Wrappers
  import opened Clauses
  import opened Tries

  type Sid = nat
  type Mid = nat
  const NOBODY := -1

  // children: the matches in childMatches.  asserts, holds and timers count the supports that do not
  // come from a match: outstanding Assert!s and Hold!s, and scheduled removals.
  datatype Stmt = Stmt(
    clause: Clause, alive: bool, parentCount: int, keepMs: int, children: seq<Mid>,
    asserts: nat, holds: nat, timers: nat)

  // pinned: the root match of an atomically version that has not been superseded.  parents (history): the
  // statements it was inserted under.
  datatype Mtch = Mtch(alive: bool, pinned: bool, parentWasRemoved: bool, children: seq<Sid>, parents: seq<Sid>)

  // crashed: the code has dereferenced a NULL index root.  seen (history): every clause inserted.
  datatype Graph = Graph(
    statements: seq<Stmt>, matches: seq<Mtch>, index: Option<Trie>, crashed: bool, seen: set<Clause>)

  const INITIAL := Graph([], [], Some(EMPTY), false, {})

  // --- Support accounting -------------------------------------------------------------------------------

  predicate LiveStatement(g: Graph, s: int) {
    0 <= s < |g.statements| && g.statements[s].alive
  }

  predicate LiveMatch(g: Graph, m: int) {
    0 <= m < |g.matches| && g.matches[m].alive
  }

  // Edges to s from one match, with multiplicity.
  function EdgesFrom(m: Mtch, s: Sid): nat {
    if m.alive then multiset(m.children)[s] else 0
  }

  // Edges to s from all live matches.
  function Edges(ms: seq<Mtch>, s: Sid): nat {
    if ms == [] then 0 else EdgesFrom(ms[0], s) + Edges(ms[1..], s)
  }

  function External(st: Stmt): nat {
    st.asserts + st.holds + st.timers
  }

  // A live statement's parentCount is the number of its supporters.  `pending` are edges of matches that
  // are already dead and whose decrements are still to come.
  ghost predicate Accounts(g: Graph, pending: multiset<Sid>) {
    forall s: Sid ::
      if LiveStatement(g, s)
      then g.statements[s].parentCount == Edges(g.matches, s) + pending[s] + External(g.statements[s])
      else Edges(g.matches, s) == 0 && pending[s] == 0
  }

  // No live statement is without support, except one that is about to be removed.
  ghost predicate Supported(g: Graph, dying: int) {
    forall s: Sid :: LiveStatement(g, s) && s != dying ==> g.statements[s].parentCount > 0
  }

  ghost predicate ChildrenOk(g: Graph) {
    forall s: Sid, i: nat :: s < |g.statements| && i < |g.statements[s].children| ==>
      g.statements[s].children[i] < |g.matches|
  }

  // --- The index -------------------------------------------------------------------------------------------

  // Whatever the index maps a clause to is a live statement with that clause.
  ghost predicate IndexSound(g: Graph) {
    && (g.index.Some? ==> Wf(g.index.value) && Tidy(g.index.value))
    && forall c :: GetRoot(g.index, c).Some? ==>
         var r := GetRoot(g.index, c).value;
         LiveStatement(g, r) && g.statements[r].clause == c
  }

  // Conversely, as long as no inserted clause was a proper prefix of another one, every live statement
  // is what the index maps its clause to.
  ghost predicate IndexComplete(g: Graph) {
    forall s: Sid :: LiveStatement(g, s) ==> GetRoot(g.index, g.statements[s].clause) == Some(s)
  }

  ghost predicate IndexOk(g: Graph) {
    && IndexSound(g)
    && (forall s: Sid :: s < |g.statements| ==> g.statements[s].clause in g.seen)
    && (PrefixFree(g.seen) ==> IndexComplete(g))
  }

  ghost predicate Inv(g: Graph, pending: multiset<Sid>, dying: int) {
    Accounts(g, pending) && Supported(g, dying) && ChildrenOk(g) && IndexOk(g)
  }

  lemma InitialInv()
    ensures Inv(INITIAL, multiset{}, NOBODY)
  {
  }

  // --- Counting edges --------------------------------------------------------------------------------------

  lemma {:induction false} EdgesUpdate(ms: seq<Mtch>, m: Mid, x: Mtch, s: Sid)
    requires m < |ms|
    ensures Edges(ms[m := x], s) == Edges(ms, s) - EdgesFrom(ms[m], s) + EdgesFrom(x, s)
  {
    if m > 0 {
      EdgesUpdate(ms[1..], m - 1, x, s);
      assert ms[m := x][1..] == ms[1..][m - 1 := x];
    } else {
      assert ms[m := x][1..] == ms[1..];
    }
  }

  lemma {:induction false} EdgesAppend(ms: seq<Mtch>, x: Mtch, s: Sid)
    ensures Edges(ms + [x], s) == Edges(ms, s) + EdgesFrom(x, s)
  {
    if ms == [] {
      assert ms + [x] == [x];
      assert Edges([x], s) == EdgesFrom(x, s) + Edges([x][1..], s);
    } else {
      EdgesAppend(ms[1..], x, s);
      assert (ms + [x])[1..] == ms[1..] + [x];
    }
  }

  // --- Counting live nodes, for termination ------------------------------------------------------------------

  function LiveS(ss: seq<Stmt>): nat {
    if ss == [] then 0 else (if ss[0].alive then 1 else 0) + LiveS(ss[1..])
  }

  function LiveM(ms: seq<Mtch>): nat {
    if ms == [] then 0 else (if ms[0].alive then 1 else 0) + LiveM(ms[1..])
  }

  function Live(g: Graph): nat {
    LiveS(g.statements) + LiveM(g.matches)
  }

  lemma {:induction false} LiveSUpdate(ss: seq<Stmt>, s: Sid, x: Stmt)
    requires s < |ss|
    ensures LiveS(ss[s := x]) == LiveS(ss) - (if ss[s].alive then 1 else 0) + (if x.alive then 1 else 0)
  {
    if s > 0 {
      LiveSUpdate(ss[1..], s - 1, x);
      assert ss[s := x][1..] == ss[1..][s - 1 := x];
    } else {
      assert ss[s := x][1..] == ss[1..];
    }
  }

  lemma {:induction false} LiveMUpdate(ms: seq<Mtch>, m: Mid, x: Mtch)
    requires m < |ms|
    ensures LiveM(ms[m := x]) == LiveM(ms) - (if ms[m].alive then 1 else 0) + (if x.alive then 1 else 0)
  {
    if m > 0 {
      LiveMUpdate(ms[1..], m - 1, x);
      assert ms[m := x][1..] == ms[1..][m - 1 := x];
    } else {
      assert ms[m := x][1..] == ms[1..];
    }
  }

  // --- Steps of removal ----------------------------------------------------------------------------------------

  function SetS(g: Graph, s: Sid, x: Stmt): Graph
    requires s < |g.statements|
  {
    g.(statements := g.statements[s := x])
  }

  function SetM(g: Graph, m: Mid, x: Mtch): Graph
    requires m < |g.matches|
  {
    g.(matches := g.matches[m := x])
  }

  function RemoveRoot(root: Option<Trie>, c: Clause): Option<Trie> {
    if root.None? then None else Remove(root.value, c)
  }

  // statementRemoveSelf up to its loop: deindex the statement and mark it dead.
  function KillStatement(g: Graph, s: Sid): Graph
    requires s < |g.statements|
  {
    SetS(g, s, g.statements[s].(alive := false)).(
      index := RemoveRoot(g.index, g.statements[s].clause),
      crashed := g.crashed || g.index.None?)
  }

  lemma KillStatementIndex(g: Graph, s: Sid)
    requires IndexOk(g) && LiveStatement(g, s)
    ensures IndexOk(KillStatement(g, s))
    ensures PrefixFree(g.seen) ==> KillStatement(g, s).crashed == g.crashed
  {
    var g2 := KillStatement(g, s);
    var c := g.statements[s].clause;
    if g.index.Some? {
      RemoveWf(g.index.value, c);
      forall c2 ensures GetRoot(g2.index, c2) == AfterRemove(g.index.value, c, c2) {
        RemoveGet(g.index.value, c, c2);
      }
    }
    forall c2 | GetRoot(g2.index, c2).Some?
      ensures LiveStatement(g2, GetRoot(g2.index, c2).value) && g2.statements[GetRoot(g2.index, c2).value].clause == c2
    {
      assert GetRoot(g.index, c2) == GetRoot(g2.index, c2) && c2 != c;
    }
    if PrefixFree(g.seen) {
      assert GetRoot(g.index, c) == Some(s);
      forall r: Sid | LiveStatement(g2, r) ensures GetRoot(g2.index, g2.statements[r].clause) == Some(r) {
        var c2 := g.statements[r].clause;
        assert GetRoot(g.index, c2) == Some(r);
        RemoveExact(g.index.value, c, c2) by {
          forall a, b | Get(g.index.value, a).Some? && Get(g.index.value, b).Some? && a <= b ensures a == b {
            assert GetRoot(g.index, a).Some? && GetRoot(g.index, b).Some?;
          }
        }
      }
    }
  }

  lemma KillStatementInv(g: Graph, s: Sid, pending: multiset<Sid>)
    requires Inv(g, pending, s) && LiveStatement(g, s) && g.statements[s].parentCount == 0
    ensures Inv(KillStatement(g, s), pending, NOBODY)
    ensures Live(KillStatement(g, s)) < Live(g)
    ensures External(g.statements[s]) == 0
    ensures PrefixFree(g.seen) ==> KillStatement(g, s).crashed == g.crashed
  {
    KillStatementIndex(g, s);
    LiveSUpdate(g.statements, s, g.statements[s].(alive := false));
  }

  // matchRemoveSelf up to its loop: the match is dead and its edges are waiting to be taken back.
  function KillMatch(g: Graph, m: Mid): Graph
    requires m < |g.matches|
  {
    SetM(g, m, g.matches[m].(alive := false))
  }

  lemma KillMatchInv(g: Graph, m: Mid, pending: multiset<Sid>)
    requires Inv(g, pending, NOBODY) && LiveMatch(g, m)
    ensures Inv(KillMatch(g, m), pending + multiset(g.matches[m].children), NOBODY)
    ensures Live(KillMatch(g, m)) < Live(g)
  {
    var g2 := KillMatch(g, m);
    forall s: Sid ensures Edges(g2.matches, s) + multiset(g.matches[m].children)[s] == Edges(g.matches, s) {
      EdgesUpdate(g.matches, m, g2.matches[m], s);
    }
    LiveMUpdate(g.matches, m, g2.matches[m]);
  }

  // Changing the counters of a statement, nothing else.
  lemma RecountInv(g: Graph, s: Sid, x: Stmt, pending: multiset<Sid>, pending2: multiset<Sid>, dying: int)
    requires Inv(g, pending, NOBODY) && LiveStatement(g, s)
    requires x.alive && x.clause == g.statements[s].clause && x.children == g.statements[s].children
    requires forall r: Sid :: r != s ==> pending2[r] == pending[r]
    requires x.parentCount - External(x) - pending2[s] ==
             g.statements[s].parentCount - External(g.statements[s]) - pending[s]
    requires x.parentCount > 0 || dying == s
    ensures Inv(SetS(g, s, x), pending2, dying)
    ensures Live(SetS(g, s, x)) == Live(g)
  {
    var g2 := SetS(g, s, x);
    LiveSUpdate(g.statements, s, x);
    forall r: Sid ensures LiveStatement(g2, r) <==> LiveStatement(g, r) {
    }
    forall r: Sid | LiveStatement(g2, r) ensures g2.statements[r].clause == g.statements[r].clause {
    }
    assert IndexSound(g2);
    assert PrefixFree(g.seen) ==> IndexComplete(g2);
    assert ChildrenOk(g2) by {
      forall r: Sid, i: nat | r < |g2.statements| && i < |g2.statements[r].children|
        ensures g2.statements[r].children[i] < |g2.matches|
      {
        assert g2.statements[r].children == g.statements[r].children;
      }
    }
  }

  // --- How a cascade changes the graph ---------------------------------------------------------------------------

  // Nodes only die.  A statement dies only when no assert, hold or timer supports it; a match dies only
  // because it is in `killed` or because a statement it depends on died.
  ghost predicate Cascade(g: Graph, g2: Graph, killed: set<Mid>) {
    && |g2.statements| == |g.statements| && |g2.matches| == |g.matches| && g2.seen == g.seen
    && (PrefixFree(g.seen) ==> g2.crashed == g.crashed)
    && (forall s: Sid :: s < |g.statements| ==> StatementFate(g.statements[s], g2.statements[s]))
    && (forall m: Mid :: m < |g.matches| ==> MatchFate(g.matches[m], g2.matches[m]))
    && (forall m: Mid :: LiveMatch(g, m) && !LiveMatch(g2, m) ==> m in killed || LostParent(g, g2, m))
  }

  predicate StatementFate(a: Stmt, b: Stmt) {
    && b.clause == a.clause && b.children == a.children && b.asserts == a.asserts && b.holds == a.holds
    && (b.keepMs == a.keepMs || b.keepMs == -a.keepMs)
    && (b.alive ==> a.alive)
    && (!a.alive ==> b == a)
    && (a.alive && !b.alive ==> External(b) == 0)
  }

  predicate MatchFate(a: Mtch, b: Mtch) {
    && b.children == a.children && b.pinned == a.pinned && b.parents == a.parents
    && (b.alive ==> a.alive)
    && (a.parentWasRemoved ==> b.parentWasRemoved)
    && (a.pinned ==> b.alive == a.alive)
  }

  ghost predicate LostParent(g: Graph, g2: Graph, m: Mid) {
    exists s: Sid :: LiveStatement(g, s) && !LiveStatement(g2, s) && m in g.statements[s].children
  }

  lemma CascadeTrans(a: Graph, b: Graph, c: Graph, k1: set<Mid>, k2: set<Mid>)
    requires Cascade(a, b, k1) && Cascade(b, c, k2)
    ensures Cascade(a, c, k1 + k2)
  {
    forall s: Sid | s < |a.statements| ensures StatementFate(a.statements[s], c.statements[s]) {
      assert StatementFate(a.statements[s], b.statements[s]) && StatementFate(b.statements[s], c.statements[s]);
    }
    forall m: Mid | m < |a.matches| ensures MatchFate(a.matches[m], c.matches[m]) {
      assert MatchFate(a.matches[m], b.matches[m]) && MatchFate(b.matches[m], c.matches[m]);
    }
    forall m: Mid | LiveMatch(a, m) && !LiveMatch(c, m) ensures m in k1 + k2 || LostParent(a, c, m) {
      if LiveMatch(b, m) {
        if m !in k2 {
          var s: Sid :| LiveStatement(b, s) && !LiveStatement(c, s) && m in b.statements[s].children;
          assert StatementFate(a.statements[s], b.statements[s]);
          assert LiveStatement(a, s) && m in a.statements[s].children;
        }
      } else if m !in k1 {
        var s: Sid :| LiveStatement(a, s) && !LiveStatement(b, s) && m in a.statements[s].children;
        assert StatementFate(b.statements[s], c.statements[s]);
        assert !LiveStatement(c, s);
      }
    }
  }

  // A match that is dead, or that was spared because it is pinned and has been told so.
  predicate Gone(g: Graph, m: Mid) {
    m < |g.matches| && (!g.matches[m].alive || (g.matches[m].pinned && g.matches[m].parentWasRemoved))
  }

  lemma GoneStays(a: Graph, b: Graph, killed: set<Mid>, m: Mid)
    requires Cascade(a, b, killed) && Gone(a, m)
    ensures Gone(b, m)
  {
    assert MatchFate(a.matches[m], b.matches[m]);
  }

  lemma CascadeKill(g: Graph, s: Sid)
    requires LiveStatement(g, s) && External(g.statements[s]) == 0
    requires PrefixFree(g.seen) ==> KillStatement(g, s).crashed == g.crashed
    ensures Cascade(g, KillStatement(g, s), {})
  {
  }

  // A match killed because a statement it depends on has died needs no other reason.
  lemma CascadeChild(a: Graph, b: Graph, m: Mid, s: Sid)
    requires Cascade(a, b, {m})
    requires LiveStatement(a, s) && !LiveStatement(b, s) && m in a.statements[s].children
    ensures Cascade(a, b, {})
  {
    assert LostParent(a, b, m);
  }

  // One round of the loop that removes a dead statement's matches.
  // --- No match outlives a parent unnoticed ----------------------------------------------------------------------

  // The match is dead or has been told that a parent is.
  predicate Told(g: Graph, m: Mid) {
    m < |g.matches| && (!g.matches[m].alive || g.matches[m].parentWasRemoved)
  }

  ghost predicate ChildrenTold(g: Graph, s: Sid)
    requires s < |g.statements|
  {
    forall j :: 0 <= j < |g.statements[s].children| ==> Told(g, g.statements[s].children[j])
  }

  // Every statement that has died from g to g2, except one, has told its matches, and so has any that had
  // told them before.
  ghost predicate Tidied(g: Graph, g2: Graph, except: int) {
    && |g2.statements| == |g.statements|
    && forall s: Sid :: s < |g.statements| && s != except && !LiveStatement(g2, s) && (LiveStatement(g, s) || ChildrenTold(g, s)) ==>
         ChildrenTold(g2, s)
  }

  lemma ToldStays(g: Graph, g2: Graph, killed: set<Mid>, s: Sid)
    requires Cascade(g, g2, killed) && s < |g.statements| && ChildrenTold(g, s)
    ensures ChildrenTold(g2, s)
  {
    assert StatementFate(g.statements[s], g2.statements[s]);
    forall j | 0 <= j < |g2.statements[s].children| ensures Told(g2, g2.statements[s].children[j]) {
      var m := g.statements[s].children[j];
      assert Told(g, m);
      assert MatchFate(g.matches[m], g2.matches[m]);
    }
  }

  lemma TidiedTrans(a: Graph, b: Graph, c: Graph, killed: set<Mid>, except: int)
    requires Tidied(a, b, except) && Tidied(b, c, NOBODY) && Cascade(b, c, killed)
    ensures Tidied(a, c, except)
  {
    forall s: Sid | s < |a.statements| && s != except && !LiveStatement(c, s) && (LiveStatement(a, s) || ChildrenTold(a, s))
      ensures ChildrenTold(c, s)
    {
      if !LiveStatement(b, s) {
        ToldStays(b, c, killed, s);
      }
    }
  }

  // A step by which only s may die.
  lemma TidiedStep(g: Graph, g2: Graph, killed: set<Mid>, s: int)
    requires Cascade(g, g2, killed) && forall t: Sid :: LiveStatement(g, t) && t != s ==> LiveStatement(g2, t)
    ensures Tidied(g, g2, s)
    ensures (s < 0 || LiveStatement(g2, s) || s >= |g.statements| || !LiveStatement(g, s)) ==> Tidied(g, g2, NOBODY)
  {
    forall t: Sid | t < |g.statements| && ChildrenTold(g, t) ensures ChildrenTold(g2, t) {
      ToldStays(g, g2, killed, t);
    }
  }

  // The last of the tidying after the death of s.
  lemma TidiedAll(g: Graph, g2: Graph, s: Sid)
    requires LiveStatement(g, s) && Removing(g, g2, s, |g.statements[s].children|)
    ensures Tidied(g, g2, NOBODY)
  {
    assert StatementFate(g.statements[s], g2.statements[s]);
    forall j | 0 <= j < |g2.statements[s].children| ensures Told(g2, g2.statements[s].children[j]) {
      assert Gone(g2, g.statements[s].children[j]);
    }
  }

  // The match is listed by all the statements it was inserted under.
  ghost predicate ListedByAll(g: Graph, m: Mid)
    requires m < |g.matches|
  {
    forall p :: p in g.matches[m].parents ==> p < |g.statements| && m in g.statements[p].children
  }

  // Between operations: every dead statement has told its matches, and every live match is listed by all
  // the statements it was inserted under.
  ghost predicate NoOrphans(g: Graph) {
    && (forall s: Sid :: s < |g.statements| && !LiveStatement(g, s) ==> ChildrenTold(g, s))
    && (forall m: Mid :: LiveMatch(g, m) ==> ListedByAll(g, m))
  }

  // So a live match that has not been told has all its parents.
  lemma ParentsAlive(g: Graph, m: Mid, p: Sid)
    requires NoOrphans(g) && LiveMatch(g, m) && !g.matches[m].parentWasRemoved && p in g.matches[m].parents
    ensures LiveStatement(g, p)
  {
    assert ListedByAll(g, m);
    var j :| 0 <= j < |g.statements[p].children| && g.statements[p].children[j] == m;
    assert !Told(g, g.statements[p].children[j]);
  }

  lemma CascadeKeepsParents(g: Graph, g2: Graph, killed: set<Mid>)
    requires NoOrphans(g) && Cascade(g, g2, killed) && Tidied(g, g2, NOBODY)
    ensures NoOrphans(g2)
  {
    forall m: Mid | LiveMatch(g2, m) ensures ListedByAll(g2, m) {
      assert MatchFate(g.matches[m], g2.matches[m]);
      assert LiveMatch(g, m) && ListedByAll(g, m);
      forall p | p in g2.matches[m].parents ensures m in g2.statements[p].children {
        assert StatementFate(g.statements[p], g2.statements[p]);
      }
    }
    forall s: Sid | s < |g2.statements| && !LiveStatement(g2, s) ensures ChildrenTold(g2, s) {
      assert LiveStatement(g, s) || ChildrenTold(g, s);
    }
  }

  // Changes that do not touch who lives, who hangs on whom, and who has been told.
  ghost predicate SameFamilies(g: Graph, g2: Graph) {
    && |g.statements| <= |g2.statements| && |g2.matches| == |g.matches|
    && (forall s: Sid :: s < |g.statements| ==>
          g2.statements[s].alive == g.statements[s].alive && g2.statements[s].children == g.statements[s].children)
    && (forall s: Sid :: |g.statements| <= s < |g2.statements| ==> g2.statements[s].alive)
    && (forall m: Mid :: m < |g.matches| ==>
          && g2.matches[m].alive == g.matches[m].alive && g2.matches[m].parents == g.matches[m].parents
          && g2.matches[m].parentWasRemoved == g.matches[m].parentWasRemoved)
  }

  lemma SameFamiliesKeep(g: Graph, g2: Graph)
    requires NoOrphans(g) && SameFamilies(g, g2)
    ensures NoOrphans(g2)
  {
    forall s: Sid | s < |g2.statements| && !LiveStatement(g2, s) ensures ChildrenTold(g2, s) {
      assert !LiveStatement(g, s) && ChildrenTold(g, s);
      forall j | 0 <= j < |g2.statements[s].children| ensures Told(g2, g2.statements[s].children[j]) {
        assert Told(g, g.statements[s].children[j]);
      }
    }
    forall m: Mid | LiveMatch(g2, m) ensures ListedByAll(g2, m) {
      assert LiveMatch(g, m) && ListedByAll(g, m);
    }
  }

  // A statement's children after the match m was inserted under the given parents.
  function Adopting(st: Stmt, parents: seq<Sid>, s: Sid, m: Mid): Stmt {
    st.(children := st.children + seq(multiset(parents)[s], _ => m))
  }

  // One parent more.
  lemma AdoptOne(ss: seq<Stmt>, before: seq<Stmt>, after: seq<Stmt>, parents: seq<Sid>, i: nat, m: Mid)
    requires i < |parents| && parents[i] < |ss| && |before| == |ss|
    requires forall s: Sid :: s < |ss| ==> before[s] == Adopting(ss[s], parents[..i], s, m)
    requires after == before[parents[i] := before[parents[i]].(children := before[parents[i]].children + [m])]
    ensures |after| == |ss| && forall s: Sid :: s < |ss| ==> after[s] == Adopting(ss[s], parents[..i + 1], s, m)
  {
    var p := parents[i];
    assert parents[..i + 1] == parents[..i] + [p];
    forall s: Sid | s < |ss| ensures after[s] == Adopting(ss[s], parents[..i + 1], s, m) {
      var n := multiset(parents[..i])[s];
      assert multiset(parents[..i + 1])[s] == n + if s == p then 1 else 0;
      if s == p {
        assert ss[s].children + seq(n, _ => m) + [m] == ss[s].children + seq(n + 1, _ => m);
      }
    }
  }

  lemma AdoptKeepsParents(g: Graph, g2: Graph, parents: seq<Sid>, ok: bool)
    requires NoOrphans(g) && ChildrenOk(g)
    requires g2.matches == g.matches + [Mtch(ok, false, false, [], parents)] && |g2.statements| == |g.statements|
    requires ok ==> forall p :: p in parents ==> LiveStatement(g, p)
    requires forall s: Sid :: s < |g.statements| ==>
               g2.statements[s] == if ok then Adopting(g.statements[s], parents, s, |g.matches|) else g.statements[s]
    ensures NoOrphans(g2)
  {
    var m := |g.matches|;
    forall s: Sid | s < |g2.statements| && !LiveStatement(g2, s) ensures ChildrenTold(g2, s) {
      assert !LiveStatement(g, s) && ChildrenTold(g, s);
      assert ok ==> s !in multiset(parents);
      assert g2.statements[s].children == g.statements[s].children;
      forall j | 0 <= j < |g2.statements[s].children| ensures Told(g2, g2.statements[s].children[j]) {
        assert Told(g, g.statements[s].children[j]);
      }
    }
    forall x: Mid | LiveMatch(g2, x) ensures ListedByAll(g2, x) {
      if x < m {
        assert LiveMatch(g, x) && ListedByAll(g, x);
      } else {
        forall p | p in parents ensures p < |g2.statements| && m in g2.statements[p].children {
          assert p in multiset(parents) && LiveStatement(g, p);
          assert g2.statements[p].children[|g.statements[p].children|] == m;
        }
      }
    }
  }

  // The removal of statement s of g has come past its first i matches.
  ghost predicate Removing(g: Graph, g1: Graph, s: Sid, i: nat) {
    && LiveStatement(g, s) && i <= |g.statements[s].children|
    && Cascade(g, g1, {}) && !LiveStatement(g1, s) && Tidied(g, g1, s)
    && forall j :: 0 <= j < i ==> Gone(g1, g.statements[s].children[j])
  }

  lemma CascadeRound(g: Graph, g1: Graph, g2: Graph, s: Sid, i: nat)
    requires Removing(g, g1, s, i) && i < |g.statements[s].children|
    requires Cascade(g1, g2, {g.statements[s].children[i]}) && Gone(g2, g.statements[s].children[i])
    requires Tidied(g1, g2, NOBODY)
    ensures Removing(g, g2, s, i + 1)
  {
    var m := g.statements[s].children[i];
    CascadeTrans(g, g1, g2, {}, {m});
    TidiedTrans(g, g1, g2, {m}, s);
    assert {} + {m} == {m};
    assert StatementFate(g1.statements[s], g2.statements[s]);
    CascadeChild(g, g2, m, s);
    forall j | 0 <= j < i ensures Gone(g2, g.statements[s].children[j]) {
      GoneStays(g1, g2, {m}, g.statements[s].children[j]);
    }
  }

  lemma CascadeNone(g: Graph, m: Mid)
    requires m < |g.matches| && !LiveMatch(g, m)
    ensures Cascade(g, g, {m}) && Gone(g, m) && Tidied(g, g, NOBODY)
  {
  }

  lemma CascadeRecount(g: Graph, s: Sid, x: Stmt)
    requires LiveStatement(g, s) && x.alive && StatementFate(g.statements[s], x)
    ensures Cascade(g, SetS(g, s, x), {})
  {
  }

  lemma CascadeMatch(g: Graph, m: Mid, x: Mtch)
    requires LiveMatch(g, m) && MatchFate(g.matches[m], x)
    ensures Cascade(g, SetM(g, m, x), {m})
  {
  }

  // --- Insertion ---------------------------------------------------------------------------------------------------

  // dbInsertOrReuseStatement when the clause is not in the index: a new statement with one supporter.
  function NewStatement(g: Graph, clause: Clause, keepMs: int, asserts: nat, holds: nat): Graph
    requires g.index.Some?
  {
    var s := |g.statements|;
    g.(statements := g.statements + [Stmt(clause, true, 1, keepMs, [], asserts, holds, 0)],
       index := Some(Add(g.index.value, clause, s)),
       seen := g.seen + {clause})
  }

  lemma NewStatementInv(g: Graph, clause: Clause, keepMs: int, asserts: nat, holds: nat, pending: multiset<Sid>)
    requires Inv(g, multiset{}, NOBODY) && g.index.Some? && Get(g.index.value, clause).None?
    requires if asserts + holds == 1 then pending == multiset{} else asserts + holds == 0 && pending == multiset{|g.statements|}
    ensures Inv(NewStatement(g, clause, keepMs, asserts, holds), pending, NOBODY)
  {
    var s := |g.statements|;
    var g2 := NewStatement(g, clause, keepMs, asserts, holds);
    assert forall r: Sid :: r < s ==> g2.statements[r] == g.statements[r];
    assert Edges(g.matches, s) == 0 by { assert !LiveStatement(g, s); }
    assert Accounts(g2, pending) by {
      forall r: Sid
        ensures if LiveStatement(g2, r)
                then g2.statements[r].parentCount == Edges(g2.matches, r) + pending[r] + External(g2.statements[r])
                else Edges(g2.matches, r) == 0 && pending[r] == 0
      {
        if r != s {
          assert LiveStatement(g2, r) <==> LiveStatement(g, r);
        }
      }
    }
    assert ChildrenOk(g2) by {
      forall r: Sid, i: nat | r < |g2.statements| && i < |g2.statements[r].children|
        ensures g2.statements[r].children[i] < |g2.matches|
      {
        assert r != s && g2.statements[r] == g.statements[r];
      }
    }
    NewStatementIndex(g, clause, keepMs, asserts, holds);
  }

  lemma NewStatementIndex(g: Graph, clause: Clause, keepMs: int, asserts: nat, holds: nat)
    requires IndexOk(g) && g.index.Some? && Get(g.index.value, clause).None?
    ensures IndexOk(NewStatement(g, clause, keepMs, asserts, holds))
  {
    var s := |g.statements|;
    var g2 := NewStatement(g, clause, keepMs, asserts, holds);
    AddWf(g.index.value, clause, s);
    AddTidy(g.index.value, clause, s);
    forall c ensures GetRoot(g2.index, c) == if c == clause then Some(s) else GetRoot(g.index, c) {
      AddGet(g.index.value, clause, s, c);
    }
    forall c | GetRoot(g2.index, c).Some?
      ensures LiveStatement(g2, GetRoot(g2.index, c).value) && g2.statements[GetRoot(g2.index, c).value].clause == c
    {
      if c != clause {
        assert LiveStatement(g, GetRoot(g.index, c).value);
      }
    }
    forall r: Sid | r < |g2.statements| ensures g2.statements[r].clause in g2.seen {
      if r < s { assert g2.statements[r] == g.statements[r]; }
    }
    if PrefixFree(g2.seen) {
      assert PrefixFree(g.seen) by {
        forall a, b | a in g.seen && b in g.seen && a <= b ensures a == b {
          assert a in g2.seen && b in g2.seen;
        }
      }
      forall r: Sid | LiveStatement(g2, r) ensures GetRoot(g2.index, g2.statements[r].clause) == Some(r) {
        if r < s {
          assert LiveStatement(g, r) && GetRoot(g.index, g.statements[r].clause) == Some(r);
        }
      }
    }
  }

  // matchAddChildStatement: a supporter that was counted becomes an edge.
  lemma AddEdgeInv(g: Graph, m: Mid, s: Sid)
    requires Inv(g, multiset{s}, NOBODY) && LiveMatch(g, m)
    ensures Inv(SetM(g, m, g.matches[m].(children := g.matches[m].children + [s])), multiset{}, NOBODY)
  {
    var x := g.matches[m].(children := g.matches[m].children + [s]);
    var g2 := SetM(g, m, x);
    forall r: Sid ensures Edges(g2.matches, r) == Edges(g.matches, r) + multiset{s}[r] {
      EdgesUpdate(g.matches, m, x, r);
      assert multiset(x.children) == multiset(g.matches[m].children) + multiset{s};
    }
  }

  // A new match, alive or stillborn, without edges.
  lemma NewMatchInv(g: Graph, alive: bool, parents: seq<Sid>)
    requires Inv(g, multiset{}, NOBODY)
    ensures Inv(g.(matches := g.matches + [Mtch(alive, false, false, [], parents)]), multiset{}, NOBODY)
  {
    var x := Mtch(alive, false, false, [], parents);
    forall s: Sid ensures Edges(g.matches + [x], s) == Edges(g.matches, s) {
      EdgesAppend(g.matches, x, s);
    }
  }

  // Flags of a match do not matter to the accounts.
  lemma FlagInv(g: Graph, m: Mid, x: Mtch, pending: multiset<Sid>)
    requires Inv(g, pending, NOBODY) && m < |g.matches|
    requires x.alive == g.matches[m].alive && x.children == g.matches[m].children
    ensures Inv(SetM(g, m, x), pending, NOBODY)
  {
    forall s: Sid ensures Edges(SetM(g, m, x).matches, s) == Edges(g.matches, s) {
      EdgesUpdate(g.matches, m, x, s);
    }
  }

  // statementAddChildMatch
  lemma AddChildInv(g: Graph, s: Sid, m: Mid)
    requires Inv(g, multiset{}, NOBODY) && s < |g.statements| && m < |g.matches|
    ensures Inv(SetS(g, s, g.statements[s].(children := g.statements[s].children + [m])), multiset{}, NOBODY)
  {
    var g2 := SetS(g, s, g.statements[s].(children := g.statements[s].children + [m]));
    assert forall r: Sid :: LiveStatement(g2, r) <==> LiveStatement(g, r);
    assert forall r: Sid :: r < |g.statements| ==> g2.statements[r].clause == g.statements[r].clause;
    assert IndexSound(g2);
    forall r: Sid, i: nat | r < |g2.statements| && i < |g2.statements[r].children|
      ensures g2.statements[r].children[i] < |g2.matches|
    {
      if r != s || i < |g.statements[s].children| {
        assert g2.statements[r].children[i] == g.statements[r].children[i];
      }
    }
  }
}
