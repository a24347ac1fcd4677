/**
 Any number of threads insert statements and react to them at the same time (folk.c 1129-1256 on top of
 db.c 1244-1328).  A step is one insertion into the index, one query against a snapshot of it, or one push
 onto a work queue; other statements come and go in between.

 The point: each side of a matching pair queries only after it has been inserted, so whichever comes
 second sees the first.
 */
module NoMissedReaction {
  import opened Clauses
  import opened Reaction

  // Names a statement.
  type Handle = nat

  // A thread reacting to the statement it inserted: the queries still to run, and the results of the
  // last one that are still to be pushed.
  datatype Reactor = Reactor(todo: seq<Query>, findsStatements: bool, pend: set<Handle>)

  // A RUN_WHEN work item for a pair; `pusher` is the reactor that pushed it.  (A When with an empty
  // pattern also pushes an item for itself, with no statement.)
  datatype Item = Item(pusher: Handle, whenRef: Handle, stmt: Handle)

  // born (history): the order in which statements were inserted.
  datatype State = State(
    index: map<Handle, Clause>,
    reactors: map<Handle, Reactor>,
    pushed: multiset<Item>,
    born: map<Handle, nat>)

  const INITIAL := State(map[], map[], multiset{}, map[])

  datatype Action =
    | Insert(r: Handle, clause: Clause)        // the swap of the index root that adds the statement
    | RunQuery(r: Handle)
    | Push(r: Handle, x: Handle)
    | Skip(r: Handle, x: Handle)                  // x is gone by the time its result is handled
    | Remove(x: Handle)

  predicate Enabled(s: State, a: Action) {
    match a
    case Insert(r, clause) => r !in s.born && clause != [] && (clause[0] == "when" ==> |clause| >= 5)
    case RunQuery(r) => r in s.reactors && s.reactors[r].todo != [] && s.reactors[r].pend == {}
    case Push(r, x) => r in s.reactors && x in s.reactors[r].pend
    case Skip(r, x) => r in s.reactors && x in s.reactors[r].pend && x !in s.index
    case Remove(x) => x in s.index
  }

  function Results(index: map<Handle, Clause>, pattern: Clause): set<Handle> {
    set x | x in index && Matches(pattern, index[x])
  }

  function Next(s: State, a: Action): State
    requires Enabled(s, a)
  {
    match a
    case Insert(r, clause) =>
      s.(index := s.index[r := clause], reactors := s.reactors[r := Reactor(Plan(clause), false, {})],
         born := s.born[r := |s.born|])
    case RunQuery(r) =>
      var q := s.reactors[r].todo[0];
      s.(reactors := s.reactors[r := Reactor(s.reactors[r].todo[1..], q.findsStatements, Results(s.index, q.pattern))])
    case Push(r, x) =>
      var t := s.reactors[r];
      s.(reactors := s.reactors[r := t.(pend := t.pend - {x})],
         pushed := s.pushed + multiset{if t.findsStatements then Item(r, r, x) else Item(r, x, r)})
    case Skip(r, x) => s.(reactors := s.reactors[r := s.reactors[r].(pend := s.reactors[r].pend - {x})])
    case Remove(x) => s.(index := s.index - {x})
  }

  predicate Done(s: State, r: Handle) {
    r in s.reactors && s.reactors[r].todo == [] && s.reactors[r].pend == {}
  }

  // --- The pair we watch -----------------------------------------------------------------------------------------

  datatype Pair = Pair(w: Handle, s: Handle, wClause: Clause, sClause: Clause)

  predicate PairOk(p: Pair) {
    && p.w != p.s
    && IsWhen(p.wClause) && p.sClause != [] && (p.sClause[0] == "when" ==> |p.sClause| >= 5)
  }

  // What side r has contributed so far, pushed or about to be.
  function Pushes(s: State, p: Pair, r: Handle): nat {
    s.pushed[Item(r, p.w, p.s)]
    + (if r == p.w && r in s.reactors && s.reactors[r].findsStatements && p.s in s.reactors[r].pend then 1 else 0)
    + (if r == p.s && r in s.reactors && !s.reactors[r].findsStatements && p.w in s.reactors[r].pend then 1 else 0)
  }

  // The queries of side r that find the other side, and those of them that are still to run.
  function Total(p: Pair, r: Handle): nat
    requires PairOk(p)
  {
    if r == p.w then Finds(Plan(p.wClause), true, p.sClause) else Finds(Plan(p.sClause), false, p.wClause)
  }

  function Left(s: State, p: Pair, r: Handle): nat {
    if r !in s.reactors then 0
    else if r == p.w then Finds(s.reactors[r].todo, true, p.sClause) else Finds(s.reactors[r].todo, false, p.wClause)
  }

  // Side r pushes at most once per query that finds the other side; exactly once if the other side was
  // inserted before it.
  ghost predicate SideOk(s: State, p: Pair, r: Handle, other: Handle)
    requires PairOk(p)
  {
    && (r !in s.born || other !in s.born ==> Pushes(s, p, r) == 0)
    && (r in s.born ==>
          && r in s.reactors
          && Pushes(s, p, r) + Left(s, p, r) <= Total(p, r)
          && (other in s.born && s.born[other] < s.born[r] ==> Pushes(s, p, r) + Left(s, p, r) == Total(p, r)))
  }

  ghost predicate Inv(s: State, p: Pair) {
    && PairOk(p)
    && s.reactors.Keys == s.born.Keys
    && (forall r :: r in s.born ==> s.born[r] < |s.born|)
    && (forall r :: r in s.index ==> r in s.born)
    && (p.w in s.born ==> p.w in s.index && s.index[p.w] == p.wClause)
    && (p.s in s.born ==> p.s in s.index && s.index[p.s] == p.sClause)
    && (p.w in s.born && p.s in s.born ==> s.born[p.w] != s.born[p.s])
    && (forall i :: i in s.pushed ==> i.pusher == i.whenRef || i.pusher == i.stmt)
    && SideOk(s, p, p.w, p.s) && SideOk(s, p, p.s, p.w)
  }

  // The pair's own statements are inserted with their clauses and are never removed.
  predicate Respects(a: Action, p: Pair) {
    && (a.Insert? && a.r == p.w ==> a.clause == p.wClause)
    && (a.Insert? && a.r == p.s ==> a.clause == p.sClause)
    && (a.Remove? ==> a.x != p.w && a.x != p.s)
  }

  // --- Steps ------------------------------------------------------------------------------------------------------

  lemma BornSize(m: map<Handle, nat>, r: Handle, v: nat)
    requires r !in m
    ensures |m[r := v]| == |m| + 1
  {
    assert m[r := v].Keys == m.Keys + {r};
  }

  // One side of the pair and the other.
  predicate Sides(p: Pair, side: Handle, other: Handle) {
    (side == p.w && other == p.s) || (side == p.s && other == p.w)
  }

  lemma InsertKeepsSide(s: State, p: Pair, r: Handle, clause: Clause, side: Handle, other: Handle)
    requires Inv(s, p) && Enabled(s, Insert(r, clause)) && Respects(Insert(r, clause), p) && Sides(p, side, other)
    ensures SideOk(Next(s, Insert(r, clause)), p, side, other)
  {
    assert SideOk(s, p, side, other);
    var s2 := Next(s, Insert(r, clause));
    assert s2.pushed == s.pushed;
    if r == side {
      assert Left(s2, p, r) == Total(p, r);
    } else {
      assert Left(s2, p, side) == Left(s, p, side) && Pushes(s2, p, side) == Pushes(s, p, side);
    }
  }

  lemma InsertKeepsInv(s: State, p: Pair, r: Handle, clause: Clause)
    requires Inv(s, p) && Enabled(s, Insert(r, clause)) && Respects(Insert(r, clause), p)
    ensures Inv(Next(s, Insert(r, clause)), p)
  {
    BornSize(s.born, r, |s.born|);
    InsertKeepsSide(s, p, r, clause, p.w, p.s);
    InsertKeepsSide(s, p, r, clause, p.s, p.w);
    var s2 := Next(s, Insert(r, clause));
    assert s2.reactors.Keys == s.reactors.Keys + {r} && s2.born.Keys == s.born.Keys + {r};
  }

  lemma QueryKeepsSide(s: State, p: Pair, r: Handle, side: Handle, other: Handle)
    requires Inv(s, p) && Enabled(s, RunQuery(r)) && Sides(p, side, other)
    ensures SideOk(Next(s, RunQuery(r)), p, side, other)
  {
    var s2 := Next(s, RunQuery(r));
    assert SideOk(s, p, side, other);
    if r == side {
      var q := s.reactors[r].todo[0];
      assert other in s.index ==> (other in Results(s.index, q.pattern) <==> Matches(q.pattern, s.index[other]));
    }
  }

  lemma QueryKeepsInv(s: State, p: Pair, r: Handle)
    requires Inv(s, p) && Enabled(s, RunQuery(r))
    ensures Inv(Next(s, RunQuery(r)), p)
  {
    QueryKeepsSide(s, p, r, p.w, p.s);
    QueryKeepsSide(s, p, r, p.s, p.w);
    assert Next(s, RunQuery(r)).reactors.Keys == s.reactors.Keys;
  }

  lemma PushKeepsSide(s: State, p: Pair, a: Action, side: Handle, other: Handle)
    requires Inv(s, p) && Enabled(s, a) && (a.Push? || a.Skip?) && Sides(p, side, other)
    ensures SideOk(Next(s, a), p, side, other)
  {
    assert SideOk(s, p, side, other);
    var s2 := Next(s, a);
    assert Left(s2, p, side) == Left(s, p, side);
    assert Pushes(s2, p, side) == Pushes(s, p, side);
  }

  lemma PushKeepsInv(s: State, p: Pair, a: Action)
    requires Inv(s, p) && Enabled(s, a) && (a.Push? || a.Skip?)
    ensures Inv(Next(s, a), p)
  {
    PushKeepsSide(s, p, a, p.w, p.s);
    PushKeepsSide(s, p, a, p.s, p.w);
    assert Next(s, a).reactors.Keys == s.reactors.Keys;
  }

  lemma RemoveKeepsInv(s: State, p: Pair, x: Handle)
    requires Inv(s, p) && Enabled(s, Remove(x)) && Respects(Remove(x), p)
    ensures Inv(Next(s, Remove(x)), p)
  {
  }

  lemma StepKeepsInv(s: State, p: Pair, a: Action)
    requires Inv(s, p) && Enabled(s, a) && Respects(a, p)
    ensures Inv(Next(s, a), p)
  {
    match a
    case Insert(r, clause) => InsertKeepsInv(s, p, r, clause);
    case RunQuery(r) => QueryKeepsInv(s, p, r);
    case Push(_, _) => PushKeepsInv(s, p, a);
    case Skip(_, _) => PushKeepsInv(s, p, a);
    case Remove(x) => RemoveKeepsInv(s, p, x);
  }

  ghost predicate Leads(s: State, p: Pair, acts: seq<Action>, s2: State)
    decreases |acts|
  {
    if acts == [] then s2 == s
    else Enabled(s, acts[0]) && Respects(acts[0], p) && Leads(Next(s, acts[0]), p, acts[1..], s2)
  }

  lemma {:induction false} RunKeepsInv(s: State, p: Pair, acts: seq<Action>, s2: State)
    requires Inv(s, p) && Leads(s, p, acts, s2)
    ensures Inv(s2, p)
    decreases |acts|
  {
    if acts != [] {
      StepKeepsInv(s, p, acts[0]);
      RunKeepsInv(Next(s, acts[0]), p, acts[1..], s2);
    }
  }

  // How many RUN_WHEN items there are for the pair.
  function ItemsFor(s: State, p: Pair): nat {
    s.pushed[Item(p.w, p.w, p.s)] + s.pushed[Item(p.s, p.w, p.s)]
  }

  // A run in which both sides have been inserted and have reacted.
  ghost predicate Complete(p: Pair, acts: seq<Action>, s: State) {
    Leads(INITIAL, p, acts, s) && Done(s, p.w) && Done(s, p.s)
  }

  // Whatever the interleaving with any other insertions, reactions and removals: once both have been
  // inserted and have reacted, the pair has been queued at most as often as queries find the other side,
  // at least as often as those of the side that came second do, and by nobody but themselves.
  lemma ItemsBetween(p: Pair, acts: seq<Action>, s: State)
    requires PairOk(p) && Complete(p, acts, s)
    ensures Total(p, p.w) <= ItemsFor(s, p) || Total(p, p.s) <= ItemsFor(s, p)
    ensures ItemsFor(s, p) <= Total(p, p.w) + Total(p, p.s)
    ensures forall r :: r != p.w && r != p.s ==> s.pushed[Item(r, p.w, p.s)] == 0
  {
    RunKeepsInv(INITIAL, p, acts, s);
    assert SideOk(s, p, p.w, p.s) && SideOk(s, p, p.s, p.w);
  }

  // A pair whose sides find each other is queued once or twice.
  lemma NoneMissed(p: Pair, acts: seq<Action>, s: State)
    requires PairOk(p) && RestFree(p.wClause) && RestFree(p.sClause)
    requires Reacts(p.wClause, p.sClause) && Mutual(p.wClause, p.sClause)
    requires Complete(p, acts, s)
    ensures 1 <= ItemsFor(s, p) <= 2
    ensures forall r :: r != p.w && r != p.s ==> s.pushed[Item(r, p.w, p.s)] == 0
  {
    ItemsBetween(p, acts, s);
    EachSideFindsOther(p.wClause, p.sClause);
  }

  // --- Runs that miss a pair --------------------------------------------------------------------------------------

  lemma LeadsStep(s: State, p: Pair, a: Action, acts: seq<Action>, s2: State)
    requires Enabled(s, a) && Respects(a, p) && Leads(Next(s, a), p, acts, s2)
    ensures Leads(s, p, [a] + acts, s2)
  {
    assert ([a] + acts)[1..] == acts;
  }

  // r runs to the end of its reaction undisturbed.
  ghost predicate Finished(s: State, r: Handle, s2: State) {
    && s2.born == s.born && Done(s2, r)
    && (forall u :: u in s.reactors && u != r ==> u in s2.reactors && s2.reactors[u] == s.reactors[u])
    && (forall i: Item :: i.pusher != r ==> s2.pushed[i] == s.pushed[i])
  }

  lemma Finish(s: State, p: Pair, r: Handle) returns (acts: seq<Action>, s2: State)
    requires r in s.reactors
    ensures Leads(s, p, acts, s2) && Finished(s, r, s2)
    decreases |s.reactors[r].todo|, |s.reactors[r].pend|
  {
    if s.reactors[r].pend == {} && s.reactors[r].todo == [] {
      return [], s;
    }
    var a := RunQuery(r);
    var pend := s.reactors[r].pend;
    if pend != {} {
      var x :| x in pend;
      a := Push(r, x);
    }
    var more;
    more, s2 := Finish(Next(s, a), p, r);
    LeadsStep(s, p, a, more, s2);
    acts := [a] + more;
  }

  function ClauseOf(p: Pair, r: Handle): Clause {
    if r == p.w then p.wClause else p.sClause
  }

  // r is inserted and finishes.
  lemma InsertAndFinish(s: State, p: Pair, r: Handle) returns (acts: seq<Action>, s2: State)
    requires PairOk(p) && r !in s.born && (r == p.w || r == p.s)
    ensures Leads(s, p, acts, s2) && Done(s2, r) && s2.born == s.born[r := |s.born|]
    ensures forall u :: u in s.reactors && u != r ==> u in s2.reactors && s2.reactors[u] == s.reactors[u]
    ensures forall i: Item :: i.pusher != r ==> s2.pushed[i] == s.pushed[i]
  {
    var a := Insert(r, ClauseOf(p, r));
    var more;
    more, s2 := Finish(Next(s, a), p, r);
    LeadsStep(s, p, a, more, s2);
    acts := [a] + more;
  }

  // After r has finished, the other side is inserted and finishes: the items are those it finds.
  lemma ThenOther(s: State, p: Pair, r: Handle, other: Handle) returns (acts: seq<Action>, s2: State)
    requires Inv(s, p) && Sides(p, other, r) && Done(s, r) && other !in s.born
    ensures Leads(s, p, acts, s2) && Done(s2, r) && Done(s2, other) && ItemsFor(s2, p) == Total(p, other)
  {
    acts, s2 := InsertAndFinish(s, p, other);
    RunKeepsInv(s, p, acts, s2);
    assert SideOk(s, p, r, other) && SideOk(s2, p, other, r);
  }

  lemma FinishThenOther(s: State, p: Pair, r: Handle, other: Handle) returns (acts: seq<Action>, s2: State)
    requires Inv(s, p) && Sides(p, other, r) && r in s.reactors && other !in s.born
    ensures Leads(s, p, acts, s2) && Done(s2, r) && Done(s2, other) && ItemsFor(s2, p) == Total(p, other)
    decreases |s.reactors[r].todo|, |s.reactors[r].pend|
  {
    if Done(s, r) {
      acts, s2 := ThenOther(s, p, r, other);
      return;
    }
    var a := RunQuery(r);
    var pend := s.reactors[r].pend;
    if pend != {} {
      var x :| x in pend;
      a := Push(r, x);
    }
    StepKeepsInv(s, p, a);
    var more;
    more, s2 := FinishThenOther(Next(s, a), p, r, other);
    LeadsStep(s, p, a, more, s2);
    acts := [a] + more;
  }

  // One side is inserted and finishes, then the other.
  lemma SerialRun(p: Pair, first: Handle, second: Handle) returns (acts: seq<Action>, s: State)
    requires PairOk(p) && Sides(p, second, first)
    ensures Complete(p, acts, s) && ItemsFor(s, p) == Total(p, second)
  {
    var a := Insert(first, ClauseOf(p, first));
    InitialInv(p);
    StepKeepsInv(INITIAL, p, a);
    var more;
    more, s := FinishThenOther(Next(INITIAL, a), p, first, second);
    LeadsStep(INITIAL, p, a, more, s);
    acts := [a] + more;
  }

  lemma InitialInv(p: Pair)
    requires PairOk(p)
    ensures Inv(INITIAL, p)
  {
  }

  // A pair that is meant to react but whose sides do not both find each other is missed in some run.
  lemma Missed(p: Pair) returns (acts: seq<Action>, s: State)
    requires PairOk(p) && RestFree(p.wClause) && RestFree(p.sClause)
    requires Reacts(p.wClause, p.sClause) && !Mutual(p.wClause, p.sClause)
    ensures Complete(p, acts, s) && ItemsFor(s, p) == 0
  {
    WhenSideFinds(p.wClause, p.sClause);
    StatementSideFinds(p.wClause, p.sClause);
    EachSideFindsOther(p.wClause, p.sClause);
    if Total(p, p.w) == 0 {
      acts, s := SerialRun(p, p.s, p.w);
    } else {
      acts, s := SerialRun(p, p.w, p.s);
    }
  }

  // The runs go on where the process would die because another When has a pattern that claimizeClause
  // refuses (Reaction.ClaimizeRefusesIff); the runs of the code are those that do not get there.
  //
  // Over all pairs without rest variables that are meant to react: every run queues the pair once or
  // twice exactly if its sides find each other.
  lemma GuaranteedIff(p: Pair)
    requires PairOk(p) && RestFree(p.wClause) && RestFree(p.sClause) && Reacts(p.wClause, p.sClause)
    ensures (forall acts, s :: Complete(p, acts, s) ==> 1 <= ItemsFor(s, p) <= 2)
       <==> Mutual(p.wClause, p.sClause)
  {
    if Mutual(p.wClause, p.sClause) {
      forall acts, s | Complete(p, acts, s) ensures 1 <= ItemsFor(s, p) <= 2 {
        NoneMissed(p, acts, s);
      }
    } else {
      var acts, s := Missed(p);
    }
  }

  // A statement that starts with `subscribe` does not react: no run queues it for a When on its account,
  // and the run in which the When comes first does not queue it at all.
  lemma SubscribeIsMissed(p: Pair, acts: seq<Action>, s: State) returns (acts2: seq<Action>, s2: State)
    requires PairOk(p) && p.sClause[0] == "subscribe" && Leads(INITIAL, p, acts, s) && p.s in s.born
    ensures s.pushed[Item(p.s, p.w, p.s)] == 0
    ensures Complete(p, acts2, s2) && ItemsFor(s2, p) == 0
  {
    RunKeepsInv(INITIAL, p, acts, s);
    assert SideOk(s, p, p.s, p.w);
    assert Plan(p.sClause) == [];
    acts2, s2 := SerialRun(p, p.w, p.s);
  }

  // A member of each family that is missed: an empty pattern, a subscription, a verb left to a variable,
  // and a When without its environment.
  lemma MissedFamilies(i: nat) returns (p: Pair, acts: seq<Action>, s: State)
    requires i < 4
    ensures PairOk(p) && Reacts(p.wClause, p.sClause)
    ensures i == 0 ==> Unwhenize(p.wClause) == []
    ensures i == 1 ==> p.sClause[0] == "subscribe"
    ensures i == 2 ==> |p.sClause| >= 2 && IsVariable(p.sClause[1])
    ensures i == 3 ==> !HasEnvironment(p.wClause)
    ensures Complete(p, acts, s) && ItemsFor(s, p) == 0
  {
    StaticVariables();
    var ws := [["when", "b", "with", "environment", "e"],
               ["when", "subscribe", "b", "with", "environment", "e"],
               ["when", "x", "b", "with", "environment", "e"],
               ["when", "x", "b", "c", "d", "e"]];
    var ss := [["x", "claims"], ["subscribe"], ["y", "/someone/", "x"], ["x"]];
    p := Pair(1, 2, ws[i], ss[i]);
    FamilyReacts(i, p);
    acts, s := Missed(p);
  }

  lemma FamilyReacts(i: nat, p: Pair)
    requires i < 4
    requires p == Pair(1, 2,
                       [["when", "b", "with", "environment", "e"],
                        ["when", "subscribe", "b", "with", "environment", "e"],
                        ["when", "x", "b", "with", "environment", "e"],
                        ["when", "x", "b", "c", "d", "e"]][i],
                       [["x", "claims"], ["subscribe"], ["y", "/someone/", "x"], ["x"]][i])
    ensures RestFree(p.wClause) && RestFree(p.sClause)
    ensures Reacts(p.wClause, p.sClause) && !Mutual(p.wClause, p.sClause)
  {
    StaticVariables();
    var q := Unwhenize(p.wClause);
    if i == 0 {
      assert q == [] && Unclaimize(p.sClause) == [];
      ClaimizedMatches(q, p.sClause);
    } else if i == 2 {
      assert q == ["x"] && Unclaimize(p.sClause) == ["x"];
      MatchesItself(q);
      ClaimizedMatches(q, p.sClause);
      MatchesRestFree(q, p.sClause);
    } else {
      assert q == p.sClause;
      MatchesItself(q);
    }
  }
}
