/**
 Reaction dispatch (folk.c): how clauses are rewritten to find the Whens a statement fires and the
 statements a When fires on, and why concurrent insertion misses no pair.
 */
module Reaction {
  import opened Wrappers
  import opened Clauses

  // --- Rewriting ------------------------------------------------------------------------------------------

  // the time is 3 -> /someone/ claims the time is 3; not for clauses that already claim or wish
  function Claimize(c: Clause): Option<Clause> {
    if |c| >= 2 && (c[1] == "claims" || c[1] == "wishes") then None
    else Some(["/someone/", "claims"] + c)
  }

  function Unclaimize(c: Clause): Clause
    requires |c| >= 2
  {
    c[2..]
  }

  // the time is 3 -> when the time is 3 /__lambda/ with environment /__env/
  function Whenize(c: Clause): Clause {
    ["when"] + c + ["/__lambda/", "with", "environment", "/__env/"]
  }

  // when the time is /t/ <body> with environment <env> -> the time is /t/
  function Unwhenize(w: Clause): Clause
    requires |w| >= 5
  {
    w[1..|w| - 4]
  }

  // What reactToNewStatement takes for a When.
  predicate IsWhen(w: Clause) {
    |w| >= 5 && w[0] == "when"
  }

  // ... and what a statement's query for Whens asks of one besides: "with environment" before its last
  // term, or variables in those places.
  predicate HasEnvironment(w: Clause)
    requires |w| >= 5
  {
    Agree("with", w[|w| - 3]) && Agree("environment", w[|w| - 2])
  }

  lemma RewritesUndo(c: Clause)
    ensures IsWhen(Whenize(c)) && HasEnvironment(Whenize(c)) && Unwhenize(Whenize(c)) == c
    ensures Claimize(c).Some? ==> Unclaimize(Claimize(c).value) == c
  {
  }

  lemma StaticVariables()
    ensures IsPlainVariable("/__lambda/") && IsPlainVariable("/__env/") && IsPlainVariable("/someone/")
    ensures !IsVariable("claims") && !IsVariable("with") && !IsVariable("environment") && !IsVariable("when")
  {
    assert "/__lambda/"[1..9] == "__lambda" && "/__env/"[1..6] == "__env" && "/someone/"[1..8] == "someone";
    assert "..."[0] == '.';
  }

  // --- The two directions agree -----------------------------------------------------------------------------

  // Position by position, what the whenized statement meets in the When.
  lemma WhenizedAgreesAt(w: Clause, s: Clause, i: nat)
    requires IsWhen(w) && |w| == |s| + 5 && i < |w|
    ensures Agree(Whenize(s)[i], w[i]) <==>
            if 1 <= i <= |s| then Agree(Unwhenize(w)[i - 1], s[i - 1])
            else if i == |s| + 2 then Agree("with", w[i])
            else i == |s| + 3 ==> Agree("environment", w[i])
  {
    if i == 0 {
      assert Whenize(s)[0] == w[0];
    } else if i <= |s| {
      assert Whenize(s)[i] == s[i - 1] && Unwhenize(w)[i - 1] == w[i];
    } else {
      StaticVariables();
    }
  }

  lemma WhenizeRestFree(s: Clause)
    requires RestFree(s)
    ensures RestFree(Whenize(s))
  {
    StaticVariables();
  }

  // Agreement of the whole clauses is agreement of the pattern with the statement, and the suffix.
  lemma WhenizedAgrees(w: Clause, s: Clause)
    requires IsWhen(w) && |w| == |s| + 5
    ensures (forall i :: 0 <= i < |w| ==> Agree(Whenize(s)[i], w[i])) <==>
            HasEnvironment(w) && forall i :: 0 <= i < |s| ==> Agree(Unwhenize(w)[i], s[i])
  {
    if forall i :: 0 <= i < |w| ==> Agree(Whenize(s)[i], w[i]) {
      WhenizedAgreesAt(w, s, |s| + 2);
      WhenizedAgreesAt(w, s, |s| + 3);
      forall i | 0 <= i < |s| ensures Agree(Unwhenize(w)[i], s[i]) {
        WhenizedAgreesAt(w, s, i + 1);
      }
    }
    if HasEnvironment(w) && forall i :: 0 <= i < |s| ==> Agree(Unwhenize(w)[i], s[i]) {
      forall i | 0 <= i < |w| ensures Agree(Whenize(s)[i], w[i]) {
        WhenizedAgreesAt(w, s, i);
      }
    }
  }

  // The statement, made into a query for Whens, finds the When exactly if the When's pattern finds the
  // statement and the When has its environment.
  lemma DirectionsAgree(w: Clause, s: Clause)
    requires IsWhen(w) && RestFree(w) && RestFree(s)
    ensures Matches(Whenize(s), w) <==> HasEnvironment(w) && Matches(Unwhenize(w), s)
  {
    WhenizeRestFree(s);
    MatchesRestFree(Unwhenize(w), s);
    MatchesRestFree(Whenize(s), w);
    if |w| == |s| + 5 {
      WhenizedAgrees(w, s);
    }
  }

  // By way of `claims`, the When's query takes a variable for the verb, ...
  lemma ClaimizedMatches(p: Clause, s: Clause)
    requires RestFree(p) && RestFree(s) && Claimize(p).Some?
    ensures Matches(Claimize(p).value, s) <==>
            |s| >= 2 && (s[1] == "claims" || IsVariable(s[1])) && Matches(p, Unclaimize(s))
  {
    var cp := Claimize(p).value;
    StaticVariables();
    assert RestFree(cp);
    MatchesRestFree(cp, s);
    if |s| == |cp| {
      ClaimizedAgrees(p, s);
      MatchesRestFree(p, Unclaimize(s));
    } else if |s| >= 2 {
      MatchesRestFree(p, Unclaimize(s));
    }
  }

  lemma ClaimizedAgrees(p: Clause, s: Clause)
    requires |s| == |p| + 2 && RestFree(s)
    ensures (forall i :: 0 <= i < |s| ==> Agree((["/someone/", "claims"] + p)[i], s[i])) <==>
            (s[1] == "claims" || IsVariable(s[1])) && forall i :: 0 <= i < |p| ==> Agree(p[i], Unclaimize(s)[i])
  {
    var cp := ["/someone/", "claims"] + p;
    StaticVariables();
    assert forall i :: 0 <= i < |p| ==> cp[i + 2] == p[i] && Unclaimize(s)[i] == s[i + 2];
    if forall i :: 0 <= i < |s| ==> Agree(cp[i], s[i]) {
      assert Agree(cp[1], s[1]);
      forall i | 0 <= i < |p| ensures Agree(p[i], Unclaimize(s)[i]) {
        assert Agree(cp[i + 2], s[i + 2]);
      }
    }
    if (s[1] == "claims" || IsVariable(s[1])) && forall i :: 0 <= i < |p| ==> Agree(p[i], Unclaimize(s)[i]) {
      forall i | 0 <= i < |s| ensures Agree(cp[i], s[i]) {
        if i >= 2 {
          assert Agree(p[i - 2], Unclaimize(s)[i - 2]);
        }
      }
    }
  }

  // ... and the statement's query does not: the two directions agree exactly if no variable stands
  // there in a statement that would otherwise match.
  lemma ClaimDirectionsAgree(w: Clause, s: Clause)
    requires IsWhen(w) && HasEnvironment(w) && RestFree(w) && RestFree(s) && Claimize(Unwhenize(w)).Some?
    ensures (Matches(Claimize(Unwhenize(w)).value, s) <==>
             |s| >= 2 && s[1] == "claims" && Matches(Whenize(Unclaimize(s)), w))
       <==> !(|s| >= 2 && IsVariable(s[1]) && Matches(Unwhenize(w), Unclaimize(s)))
  {
    StaticVariables();
    ClaimizedMatches(Unwhenize(w), s);
    if |s| >= 2 {
      DirectionsAgree(w, Unclaimize(s));
    }
  }

  // The statement's claims query can find a When that claimizeClause refuses; reactToNewStatement then
  // hands the NULL pattern on and the process dies copying it.  It happens exactly for a pattern that
  // itself claims or wishes and matches what is claimed.
  lemma ClaimizeRefusesIff(w: Clause, s: Clause)
    requires IsWhen(w) && RestFree(w) && RestFree(s) && |s| >= 2 && s[1] == "claims"
    ensures Matches(Whenize(Unclaimize(s)), w) && Claimize(Unwhenize(w)).None? <==>
            var p := Unwhenize(w);
            HasEnvironment(w) && |p| >= 2 && (p[1] == "claims" || p[1] == "wishes") && Matches(p, Unclaimize(s))
  {
    DirectionsAgree(w, Unclaimize(s));
  }

  lemma ClaimizeRefusesExample()
    ensures var s := ["omar", "claims", "folk", "claims", "x"];
            var w := Whenize(["folk", "claims", "x"]);
            Matches(Whenize(Unclaimize(s)), w) && Claimize(Unwhenize(w)).None?
  {
    var s := ["omar", "claims", "folk", "claims", "x"];
    var p := ["folk", "claims", "x"];
    assert Unclaimize(s) == p;
    RewritesUndo(p);
    MatchesItself(Whenize(p));
  }

  // --- What a new statement asks the database ----------------------------------------------------------------

  // findsStatements: the new statement is the When and the results are statements for it; otherwise the
  // results are Whens for the new statement.
  datatype Query = Query(pattern: Clause, findsStatements: bool)

  // What a When asks for the statements it fires on...
  function AsWhen(c: Clause): seq<Query>
    requires c != [] && (c[0] == "when" ==> |c| >= 5)
  {
    if c[0] == "when" && Unwhenize(c) != [] then
      var p := Unwhenize(c);
      [Query(p, true)] + (if Claimize(p).Some? then [Query(Claimize(p).value, true)] else [])
    else []
  }

  // ... and what any statement asks for the Whens that fire on it.
  function AsStatement(c: Clause): seq<Query> {
    [Query(Whenize(c), false)]
    + (if |c| >= 2 && c[1] == "claims" then [Query(Whenize(Unclaimize(c)), false)] else [])
  }

  // The queries of reactToNewStatement, in order.
  function Plan(c: Clause): seq<Query>
    requires c != [] && (c[0] == "when" ==> |c| >= 5)
  {
    if c[0] == "subscribe" then [] else AsWhen(c) + AsStatement(c)
  }

  // How many of the queries find clause c.
  function Finds(qs: seq<Query>, findsStatements: bool, c: Clause): nat {
    if qs == [] then 0
    else (if qs[0].findsStatements == findsStatements && Matches(qs[0].pattern, c) then 1 else 0)
         + Finds(qs[1..], findsStatements, c)
  }

  lemma {:induction false} FindsConcat(a: seq<Query>, b: seq<Query>, f: bool, c: Clause)
    ensures Finds(a + b, f, c) == Finds(a, f, c) + Finds(b, f, c)
  {
    if a == [] {
      assert a + b == b;
    } else {
      assert (a + b)[1..] == a[1..] + b;
      FindsConcat(a[1..], b, f, c);
    }
  }

  lemma FindsOne(q: Query, f: bool, c: Clause)
    ensures Finds([q], f, c) == if q.findsStatements == f && Matches(q.pattern, c) then 1 else 0
  {
    assert [q][1..] == [];
  }

  lemma FindsTwo(q: Query, r: Query, f: bool, c: Clause)
    ensures Finds([q, r], f, c) ==
            (if q.findsStatements == f && Matches(q.pattern, c) then 1 else 0) +
            (if r.findsStatements == f && Matches(r.pattern, c) then 1 else 0)
  {
    assert [q, r] == [q] + [r];
    FindsConcat([q], [r], f, c);
    FindsOne(q, f, c);
    FindsOne(r, f, c);
  }

  // The When w is meant to run for statement s: its pattern matches, directly or as something claimed.
  predicate Reacts(w: Clause, s: Clause)
    requires |w| >= 5
  {
    var p := Unwhenize(w);
    Matches(p, s) || (Claimize(p).Some? && Matches(Claimize(p).value, s))
  }

  // A query of the statement s finds the When w: its pattern matches s, or what s claims.
  predicate Asks(w: Clause, s: Clause)
    requires |w| >= 5
  {
    var p := Unwhenize(w);
    HasEnvironment(w) && (Matches(p, s) || (|s| >= 2 && s[1] == "claims" && Matches(p, Unclaimize(s))))
  }

  lemma {:induction false} FindsKind(qs: seq<Query>, f: bool, c: Clause)
    requires forall i :: 0 <= i < |qs| ==> qs[i].findsStatements != f
    ensures Finds(qs, f, c) == 0
  {
    if qs != [] {
      FindsKind(qs[1..], f, c);
    }
  }

  lemma AsWhenFinds(w: Clause, s: Clause)
    requires IsWhen(w) && Unwhenize(w) != []
    ensures var p := Unwhenize(w);
            Finds(Plan(w), true, s) ==
            (if Matches(p, s) then 1 else 0) +
            (if Claimize(p).Some? && Matches(Claimize(p).value, s) then 1 else 0)
  {
    var p := Unwhenize(w);
    FindsConcat(AsWhen(w), AsStatement(w), true, s);
    FindsKind(AsStatement(w), true, s);
    if Claimize(p).Some? {
      assert AsWhen(w) == [Query(p, true), Query(Claimize(p).value, true)];
      FindsTwo(Query(p, true), Query(Claimize(p).value, true), true, s);
    } else {
      assert AsWhen(w) == [Query(p, true)];
      FindsOne(Query(p, true), true, s);
    }
  }

  lemma AsStatementFinds(s: Clause, w: Clause)
    requires s != [] && (s[0] == "when" ==> |s| >= 5) && s[0] != "subscribe"
    ensures Finds(Plan(s), false, w) ==
            (if Matches(Whenize(s), w) then 1 else 0) +
            (if |s| >= 2 && s[1] == "claims" && Matches(Whenize(Unclaimize(s)), w) then 1 else 0)
  {
    FindsConcat(AsWhen(s), AsStatement(s), false, w);
    FindsKind(AsWhen(s), false, w);
    if |s| >= 2 && s[1] == "claims" {
      assert AsStatement(s) == [Query(Whenize(s), false), Query(Whenize(Unclaimize(s)), false)];
      FindsTwo(Query(Whenize(s), false), Query(Whenize(Unclaimize(s)), false), false, w);
    } else {
      assert AsStatement(s) == [Query(Whenize(s), false)];
      FindsOne(Query(Whenize(s), false), false, w);
    }
  }

  // The claimized pattern is two terms longer, so both routes cannot lead to the same statement.
  lemma OneRouteOnly(p: Clause, s: Clause)
    requires RestFree(p) && RestFree(s) && |s| >= 2
    ensures !(Matches(p, s) && Matches(p, Unclaimize(s)))
  {
    MatchesRestFree(p, s);
    MatchesRestFree(p, Unclaimize(s));
  }

  // How often the When's queries find the statement: once if it is meant to run for it, unless the
  // pattern is empty, when there are no queries.
  lemma WhenSideFinds(w: Clause, s: Clause)
    requires IsWhen(w) && RestFree(w) && RestFree(s)
    ensures Finds(Plan(w), true, s) == if Unwhenize(w) != [] && Reacts(w, s) then 1 else 0
  {
    var p := Unwhenize(w);
    if p == [] {
      assert AsWhen(w) == [];
      FindsConcat(AsWhen(w), AsStatement(w), true, s);
      FindsKind(AsStatement(w), true, s);
    } else {
      AsWhenFinds(w, s);
      if Claimize(p).Some? {
        ClaimizedMatches(p, s);
      }
      if |s| >= 2 {
        OneRouteOnly(p, s);
      }
    }
  }

  // How often the statement's queries find the When.
  lemma StatementSideFinds(w: Clause, s: Clause)
    requires IsWhen(w) && RestFree(w) && RestFree(s) && s != [] && (s[0] == "when" ==> |s| >= 5)
    ensures Finds(Plan(s), false, w) == if s[0] != "subscribe" && Asks(w, s) then 1 else 0
  {
    if s[0] != "subscribe" {
      AsStatementFinds(s, w);
      DirectionsAgree(w, s);
      if |s| >= 2 {
        DirectionsAgree(w, Unclaimize(s));
        OneRouteOnly(Unwhenize(w), s);
      }
    }
  }

  // Both sides of a pair that is meant to react find each other: the pattern is not empty, the statement
  // is no subscription, the When has its environment, and a claim's verb is not left to a variable.
  predicate Mutual(w: Clause, s: Clause)
    requires |w| >= 5 && s != []
  {
    && Unwhenize(w) != [] && s[0] != "subscribe" && HasEnvironment(w)
    && (|s| >= 2 && IsVariable(s[1]) ==> Matches(Unwhenize(w), s))
  }

  lemma EachSideFindsOther(w: Clause, s: Clause)
    requires IsWhen(w) && RestFree(w) && RestFree(s) && s != [] && (s[0] == "when" ==> |s| >= 5) && Reacts(w, s)
    ensures Finds(Plan(w), true, s) == 1 && Finds(Plan(s), false, w) == 1 <==> Mutual(w, s)
  {
    WhenSideFinds(w, s);
    StatementSideFinds(w, s);
    StaticVariables();
    if Claimize(Unwhenize(w)).Some? {
      ClaimizedMatches(Unwhenize(w), s);
    }
  }
}
