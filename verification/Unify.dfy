/**
 Unification of a When's pattern with the statement it runs for (clauseUnify, folk.c 153-187): the loop,
 when it succeeds, and what its bindings say about the statement.
 */
module Unify {
  import opened Wrappers
  import opened Clauses
  import opened Reaction

  // A plain variable is bound to a term, a rest variable to the list of the remaining terms.
  datatype Value = One(term: Term) | Many(terms: seq<Term>)
  datatype Binding = Binding(name: string, value: Value)
  type Environment = seq<Binding>

  const NON_CAPTURING := ["someone", "something", "anyone", "anything", "any"]

  predicate Captures(t: Term) {
    IsVariable(t) && (IsRest(t) || VariableName(t) !in NON_CAPTURING)
  }

  function BoundName(t: Term): string
    requires IsVariable(t)
  {
    if IsRest(t) then VariableName(t)[3..] else VariableName(t)
  }

  // The variable v captures the first of the terms ts, all of them if it is a rest variable, or nothing.
  function BindOne(v: Term, ts: seq<Term>): Environment
    requires IsVariable(v) && ts != []
  {
    if Captures(v) then [Binding(BoundName(v), if IsRest(v) then Many(ts) else One(ts[0]))] else []
  }

  // What one position binds: the variable on a's side, or else the one on b's side.
  function BindAt(a: Clause, b: Clause, i: nat): Environment
    requires i < |a| && i < |b|
  {
    if IsVariable(a[i]) then BindOne(a[i], b[i..])
    else if IsVariable(b[i]) then BindOne(b[i], a[i..])
    else []
  }

  function Bindings(a: Clause, b: Clause, n: nat): Environment
    requires n <= |a| && n <= |b|
  {
    if n == 0 then [] else Bindings(a, b, n - 1) + BindAt(a, b, n - 1)
  }

  function Shared(a: Clause, b: Clause): nat {
    if |a| <= |b| then |a| else |b|
  }

  // Two different literals in the same place.
  predicate Conflict(a: Clause, b: Clause, i: nat) {
    i < |a| && i < |b| && !IsVariable(a[i]) && !IsVariable(b[i]) && a[i] != b[i]
  }

  method Bind(bindings: Environment, v: Term, ts: seq<Term>) returns (more: Environment)
    requires IsVariable(v) && ts != []
    ensures more == bindings + BindOne(v, ts)
  {
    more := bindings;
    if IsRest(v) {
      more := more + [Binding(VariableName(v)[3..], Many(ts))];
    } else if VariableName(v) !in NON_CAPTURING {
      more := more + [Binding(VariableName(v), One(ts[0]))];
    }
  }

  ghost predicate NoConflictBefore(a: Clause, b: Clause, n: nat) {
    forall i: nat :: i < n ==> !Conflict(a, b, i)
  }

  // One more place without a conflict.
  lemma OneMorePlace(a: Clause, b: Clause, i: nat)
    requires i < |a| && i < |b| && !Conflict(a, b, i) && NoConflictBefore(a, b, i)
    ensures NoConflictBefore(a, b, i + 1)
    ensures Bindings(a, b, i + 1) == Bindings(a, b, i) + BindAt(a, b, i)
  {
  }

  lemma NoConflictAtAll(a: Clause, b: Clause)
    requires NoConflictBefore(a, b, Shared(a, b))
    ensures !exists i: nat :: Conflict(a, b, i)
  {
  }

  // The body of clauseUnify's loop.
  method UnifyAt(a: Clause, b: Clause, i: nat, bindings: Environment) returns (ok: bool, more: Environment)
    requires i < |a| && i < |b|
    ensures ok <==> !Conflict(a, b, i)
    ensures ok ==> more == bindings + BindAt(a, b, i)
  {
    ok, more := true, bindings;
    if IsVariable(a[i]) {
      more := Bind(bindings, a[i], b[i..]);
    } else if IsVariable(b[i]) {
      more := Bind(bindings, b[i], a[i..]);
    } else if a[i] != b[i] {
      ok := false;
    }
  }

  // clauseUnify.  A name is the C string after the buffer is filled; names of the full buffer length
  // are as long as the buffer.
  method ClauseUnify(a: Clause, b: Clause) returns (env: Option<Environment>)
    ensures env.None? <==> exists i: nat :: Conflict(a, b, i)
    ensures env.Some? ==> env.value == Bindings(a, b, Shared(a, b))
  {
    var bindings: Environment := [];
    var i := 0;
    while i < |a| && i < |b|
      invariant 0 <= i <= Shared(a, b)
      invariant bindings == Bindings(a, b, i)
      invariant NoConflictBefore(a, b, i)
    {
      var ok, more := UnifyAt(a, b, i, bindings);
      if !ok {
        return None;
      }
      OneMorePlace(a, b, i);
      bindings := more;
      i := i + 1;
    }
    NoConflictAtAll(a, b);
    return Some(bindings);
  }

  // --- Agreement with the index -------------------------------------------------------------------------------

  predicate RestLast(c: Clause) {
    forall i :: 0 <= i < |c| - 1 ==> !IsRest(c[i])
  }

  // Whatever the index matches unifies, as long as rest variables come last.
  lemma MatchesUnify(a: Clause, b: Clause, i: nat)
    requires RestLast(a) && RestLast(b) && Matches(a, b)
    ensures !Conflict(a, b, i)
  {
    var n := MatchesSound(a, b);
    if i < n {
      assert Agree(a[i], b[i]);
    }
  }

  // A ground term other than t.
  function Other(t: Term): (r: Term)
    ensures r != t && !IsVariable(r)
  {
    if t == "x" then "y" else "x"
  }

  // The pattern with its variables filled in, and another term at i.
  function Spoiled(a: Clause, i: nat): (b: Clause)
    ensures |b| == |a| && IsGround(b)
    ensures forall j :: 0 <= j < |a| ==> b[j] == if j == i then Other(a[j]) else if IsVariable(a[j]) then "x" else a[j]
  {
    seq(|a|, j requires 0 <= j < |a| => if j == i then Other(a[j]) else if IsVariable(a[j]) then "x" else a[j])
  }

  // A literal after a rest variable is never looked at by the index.
  lemma SpoiledMatches(a: Clause, k: nat, i: nat)
    requires k < i < |a| && IsRest(a[k]) && !IsVariable(a[i])
    ensures Matches(a, Spoiled(a, i)) && Conflict(a, Spoiled(a, i), i)
  {
    if j :| 0 <= j < k && IsRest(a[j]) {
      SpoiledMatches(a, j, i);
    } else {
      assert MatchesUpTo(a, Spoiled(a, i), k);
      MatchesComplete(a, Spoiled(a, i), k);
    }
  }

  // Every ground clause a pattern matches unifies with it exactly if only variables follow a rest variable.
  lemma GroundUnifyIff(a: Clause)
    ensures (forall b, i: nat :: IsGround(b) && Matches(a, b) ==> !Conflict(a, b, i))
       <==> forall k, i :: 0 <= k < i < |a| && IsRest(a[k]) ==> IsVariable(a[i])
  {
    if k, i :| 0 <= k < i < |a| && IsRest(a[k]) && !IsVariable(a[i]) {
      SpoiledMatches(a, k, i);
    } else {
      forall b, i: nat | IsGround(b) && Matches(a, b) ensures !Conflict(a, b, i) {
        var n := MatchesSound(a, b);
        if i < n {
          assert Agree(a[i], b[i]);
        } else if n < i < |a| {
          assert IsRest(a[n]);
        }
      }
    }
  }

  // A clause with a rest variable at k and another term at i, both where a has literals.
  function Masked(a: Clause, k: nat, i: nat): (b: Clause)
    ensures |b| == |a|
    ensures forall j :: 0 <= j < |a| ==> b[j] == if j == i then Other(a[j]) else if j == k then "/...r/" else a[j]
  {
    seq(|a|, j requires 0 <= j < |a| => if j == i then Other(a[j]) else if j == k then "/...r/" else a[j])
  }

  lemma RestVariable()
    ensures IsRest("/...r/")
  {
    var t := "/...r/";
    assert t[1..5] == "...r";
    assert ' ' !in "...r" && "..." <= "...r";
  }

  lemma MaskedMatches(a: Clause, k: nat, i: nat)
    requires k < i < |a| && !IsVariable(a[i]) && !IsPlainVariable(a[k]) && forall j :: 0 <= j < k ==> !IsRest(a[j])
    ensures Matches(a, Masked(a, k, i)) && Conflict(a, Masked(a, k, i), i)
  {
    RestVariable();
    assert MatchesUpTo(a, Masked(a, k, i), k);
    MatchesComplete(a, Masked(a, k, i), k);
  }

  // With variables allowed on both sides, every clause a pattern matches unifies with it exactly if
  // its literals, but for the first term, come after plain variables only: a rest variable of the other
  // clause hides the rest from the index as well.
  lemma UnifyIff(a: Clause)
    ensures (forall b, i: nat :: Matches(a, b) ==> !Conflict(a, b, i))
       <==> forall k, i :: 0 <= k < i < |a| && !IsVariable(a[i]) ==> IsPlainVariable(a[k])
  {
    if k, i :| 0 <= k < i < |a| && !IsVariable(a[i]) && !IsPlainVariable(a[k]) {
      if j :| 0 <= j < k && IsRest(a[j]) {
        SpoiledMatches(a, j, i);
      } else {
        MaskedMatches(a, k, i);
      }
    } else {
      forall b, i: nat | Matches(a, b) ensures !Conflict(a, b, i) {
        var n := MatchesSound(a, b);
        if i < n {
          assert Agree(a[i], b[i]);
        }
      }
    }
  }

  // --- Whens found by a statement's query ------------------------------------------------------------------------

  // All literals of a clause, but for its first term, come after plain variables only.
  predicate LiteralsAfterPlain(a: Clause) {
    forall k, i :: 0 <= k < i < |a| && !IsVariable(a[i]) ==> IsPlainVariable(a[k])
  }

  // A When that the whenized statement finds unifies with the statement up to where the walk ended.
  lemma WhenizedUnifies(w: Clause, s: Clause, i: nat)
    requires IsWhen(w) && Matches(Whenize(s), w) && LiteralsAfterPlain(s)
    ensures !Conflict(Unwhenize(w), s, i)
  {
    var p, q := Unwhenize(w), Whenize(s);
    var n := MatchesSound(q, w);
    if i < |p| && i < |s| {
      assert q[i + 1] == s[i] && p[i] == w[i + 1];
      if i + 1 < n {
        assert Agree(q[i + 1], w[i + 1]);
      } else if 1 <= n <= i {
        assert q[n] == s[n - 1];
      }
    }
  }

  // The When with pattern p.
  function WhenFor(p: Clause): (w: Clause)
    ensures IsWhen(w) && Unwhenize(w) == p
  {
    ["when"] + p + ["b", "with", "environment", "e"]
  }

  // If a pattern made from s matches up to a rest variable on either side, so does its When.
  lemma WhenForMatches(s: Clause, p: Clause, k: nat)
    requires k < |s| && k < |p| && Absorbs(s[k], p[k]) && forall j :: 0 <= j < k ==> Agree(s[j], p[j])
    ensures Matches(Whenize(s), WhenFor(p))
  {
    var q, w := Whenize(s), WhenFor(p);
    assert forall j :: 0 <= j < |s| ==> q[j + 1] == s[j];
    assert forall j :: 0 <= j < |p| ==> w[j + 1] == p[j];
    forall j | 0 <= j < k + 1 ensures Agree(q[j], w[j]) {
      if j > 0 {
        assert Agree(s[j - 1], p[j - 1]);
      }
    }
    assert MatchesUpTo(q, w, k + 1);
    MatchesComplete(q, w, k + 1);
  }

  // Every When that a statement's query finds unifies with the statement exactly if the statement's literals,
  // but for the first term, come after plain variables only; so for every statement without variables and
  // with more than one term there is a When, with a rest variable in front of a literal, that does not.
  lemma WhenizedUnifyIff(s: Clause)
    ensures (forall w, i: nat :: IsWhen(w) && Matches(Whenize(s), w) ==> !Conflict(Unwhenize(w), s, i))
       <==> LiteralsAfterPlain(s)
  {
    if LiteralsAfterPlain(s) {
      forall w, i: nat | IsWhen(w) && Matches(Whenize(s), w) ensures !Conflict(Unwhenize(w), s, i) {
        WhenizedUnifies(w, s, i);
      }
    } else {
      var k, i :| 0 <= k < i < |s| && !IsVariable(s[i]) && !IsPlainVariable(s[k]);
      MaskedWhen(s, k, i);
    }
  }

  lemma MaskedWhen(s: Clause, k: nat, i: nat)
    requires k < i < |s| && !IsVariable(s[i]) && !IsPlainVariable(s[k])
    ensures exists w: Clause :: IsWhen(w) && Matches(Whenize(s), w) && Conflict(Unwhenize(w), s, i)
  {
    if j :| 0 <= j < k && IsRest(s[j]) {
      MaskedWhen(s, j, i);
    } else {
      RestVariable();
      WhenForMatches(s, Masked(s, k, i), k);
      assert Conflict(Unwhenize(WhenFor(Masked(s, k, i))), s, i);
    }
  }

  // A When found by way of claims is run with its claimized pattern, which unifies with the statement exactly
  // where the pattern unifies with what is claimed.
  lemma ClaimedUnify(p: Clause, s: Clause, i: nat)
    requires Claimize(p).Some? && |s| >= 2 && s[1] == "claims"
    ensures Conflict(Claimize(p).value, s, i) <==> i >= 2 && Conflict(p, Unclaimize(s), i - 2)
  {
    StaticVariables();
  }

  // --- Where index and unification disagree ---------------------------------------------------------------------

  // Otherwise the index stops looking at the rest variable and unification does not.
  lemma RestInFrontConflicts()
    ensures var a, b := ["/...r/", "x"], ["p", "q"];
            !RestLast(a) && Matches(a, b) && Conflict(a, b, 1)
  {
    RestVariable();
    assert ["/...r/", "x"][0] == "/...r/";
    assert !IsVariable("x") && !IsVariable("q");
  }

  // --- Instantiating the pattern -------------------------------------------------------------------------------

  // A later binding of the same name wins, as in the Tcl dictionary built from the list.
  function Lookup(env: Environment, name: string): Option<Value> {
    if env == [] then None
    else if env[|env| - 1].name == name then Some(env[|env| - 1].value)
    else Lookup(env[..|env| - 1], name)
  }

  lemma {:induction false} LookupConcat(env: Environment, more: Environment, name: string)
    ensures Lookup(env + more, name) == if Lookup(more, name).Some? then Lookup(more, name) else Lookup(env, name)
  {
    if more == [] {
      assert env + more == env;
    } else {
      assert (env + more)[..|env + more| - 1] == env + more[..|more| - 1];
      LookupConcat(env, more[..|more| - 1], name);
    }
  }

  // No two capturing variables of the pattern bind the same name.
  predicate DistinctNames(a: Clause) {
    forall i, j :: 0 <= i < j < |a| && Captures(a[i]) && Captures(a[j]) ==> BoundName(a[i]) != BoundName(a[j])
  }

  lemma {:induction false} LookupBinding(a: Clause, b: Clause, n: nat, i: nat)
    requires i < n <= |a| <= |b| && IsGround(b) && DistinctNames(a) && Captures(a[i])
    ensures Lookup(Bindings(a, b, n), BoundName(a[i])) ==
            Some(if IsRest(a[i]) then Many(b[i..]) else One(b[i]))
  {
    var last := BindAt(a, b, n - 1);
    LookupConcat(Bindings(a, b, n - 1), last, BoundName(a[i]));
    if i < n - 1 {
      LookupBinding(a, b, n - 1, i);
      assert Lookup(last, BoundName(a[i])).None? by {
        if last != [] {
          assert last[..|last| - 1] == [];
        }
      }
    } else {
      assert last == [last[0]];
    }
  }

  // The variable that binds at place i, the first side's or else the second's, and the terms it stands before.
  function Captor(a: Clause, b: Clause, i: nat): Option<(Term, seq<Term>)>
    requires i < |a| && i < |b|
  {
    if IsVariable(a[i]) then (if Captures(a[i]) then Some((a[i], b[i..])) else None)
    else if IsVariable(b[i]) && Captures(b[i]) then Some((b[i], a[i..]))
    else None
  }

  function Taken(v: Term, ts: seq<Term>): Value
    requires ts != []
  {
    if IsRest(v) then Many(ts) else One(ts[0])
  }

  // No name is bound at two places.
  predicate DistinctCaptors(a: Clause, b: Clause, n: nat)
    requires n <= |a| && n <= |b|
  {
    forall i, j :: 0 <= i < j < n && Captor(a, b, i).Some? && Captor(a, b, j).Some? ==>
      BoundName(Captor(a, b, i).value.0) != BoundName(Captor(a, b, j).value.0)
  }

  predicate BindsName(a: Clause, b: Clause, i: nat, name: string)
    requires i < |a| && i < |b|
  {
    Captor(a, b, i).Some? && BoundName(Captor(a, b, i).value.0) == name
  }

  // What the name is bound to by the last of the first n places that binds it.
  function LastBound(a: Clause, b: Clause, n: nat, name: string): Option<Value>
    requires n <= |a| && n <= |b|
  {
    if n == 0 then None
    else if BindsName(a, b, n - 1, name) then Some(Taken(Captor(a, b, n - 1).value.0, Captor(a, b, n - 1).value.1))
    else LastBound(a, b, n - 1, name)
  }

  // Whichever side the variable is on, its name is bound to the other side's term at its place, or to all its
  // terms from there on.
  lemma LookupCaptor(a: Clause, b: Clause, n: nat, i: nat)
    requires i < n <= |a| && n <= |b| && DistinctCaptors(a, b, n) && Captor(a, b, i).Some?
    ensures var (v, ts) := Captor(a, b, i).value;
            Lookup(Bindings(a, b, n), BoundName(v)) == Some(Taken(v, ts))
  {
    var name := BoundName(Captor(a, b, i).value.0);
    LookupIsLast(a, b, n, name);
    LastBoundAt(a, b, n, i, name);
  }

  lemma {:induction false} LastBoundAt(a: Clause, b: Clause, n: nat, i: nat, name: string)
    requires i < n <= |a| && n <= |b| && DistinctCaptors(a, b, n) && BindsName(a, b, i, name)
    ensures LastBound(a, b, n, name) == Some(Taken(Captor(a, b, i).value.0, Captor(a, b, i).value.1))
  {
    if i < n - 1 {
      assert !BindsName(a, b, n - 1, name);
      LastBoundAt(a, b, n - 1, i, name);
    }
  }

  lemma {:induction false} LookupIsLast(a: Clause, b: Clause, n: nat, name: string)
    requires n <= |a| && n <= |b|
    ensures Lookup(Bindings(a, b, n), name) == LastBound(a, b, n, name)
  {
    if n > 0 {
      LookupFurther(a, b, n, name);
      LookupIsLast(a, b, n - 1, name);
    }
  }

  lemma LookupFurther(a: Clause, b: Clause, n: nat, name: string)
    requires 0 < n <= |a| && n <= |b|
    ensures BindsName(a, b, n - 1, name) ==>
              Lookup(Bindings(a, b, n), name) == Some(Taken(Captor(a, b, n - 1).value.0, Captor(a, b, n - 1).value.1))
    ensures !BindsName(a, b, n - 1, name) ==> Lookup(Bindings(a, b, n), name) == Lookup(Bindings(a, b, n - 1), name)
  {
    LookupConcat(Bindings(a, b, n - 1), BindAt(a, b, n - 1), name);
    LookupPlace(a, b, n - 1, name);
  }

  // What one place binds, looked up.
  lemma LookupPlace(a: Clause, b: Clause, i: nat, name: string)
    requires i < |a| && i < |b|
    ensures Lookup(BindAt(a, b, i), name) ==
            match Captor(a, b, i)
            case None => None
            case Some((v, ts)) => if BoundName(v) == name then Some(Taken(v, ts)) else None
  {
    var here := BindAt(a, b, i);
    if here != [] {
      assert here == [here[0]] && here[..|here| - 1] == [];
    }
  }

  // In particular a variable of the second side, in front of the first side's literals.
  lemma SecondSideBinds(a: Clause, b: Clause, n: nat, i: nat)
    requires i < n <= |a| && n <= |b| && IsGround(a) && DistinctNames(b) && Captures(b[i])
    ensures Lookup(Bindings(a, b, n), BoundName(b[i])) == Some(if IsRest(b[i]) then Many(a[i..]) else One(a[i]))
  {
    LookupCaptor(a, b, n, i);
  }

  // The pattern with its variables replaced by what the environment has for them.
  function Instantiate(a: Clause, env: Environment): seq<Term> {
    if a == [] then []
    else (match if Captures(a[0]) then Lookup(env, BoundName(a[0])) else None
          case Some(One(t)) => [t]
          case Some(Many(ts)) => ts
          case None => [a[0]]) + Instantiate(a[1..], env)
  }

  // Position by position, for every ground clause at least as long as the pattern: literals are the
  // clause's own terms, and a captured variable names the term (or the terms) it stands for.
  lemma BindingsDescribe(a: Clause, b: Clause, i: nat)
    requires IsGround(b) && |a| <= |b| && DistinctNames(a) && i < |a|
    requires forall j: nat :: !Conflict(a, b, j)
    ensures var env := Bindings(a, b, |a|);
            && (!IsVariable(a[i]) ==> a[i] == b[i])
            && (Captures(a[i]) && !IsRest(a[i]) ==> Lookup(env, BoundName(a[i])) == Some(One(b[i])))
            && (IsRest(a[i]) ==> Lookup(env, BoundName(a[i])) == Some(Many(b[i..])))
  {
    assert !Conflict(a, b, i);
    if Captures(a[i]) {
      LookupBinding(a, b, |a|, i);
    }
  }

  // For a pattern that captures everything and that the index matched, instantiation gives back the clause.
  lemma InstantiateGivesBack(a: Clause, b: Clause)
    requires IsGround(b) && RestLast(a) && DistinctNames(a) && Matches(a, b)
    requires forall i :: 0 <= i < |a| && IsVariable(a[i]) ==> Captures(a[i])
    ensures |a| <= |b| && Instantiate(a, Bindings(a, b, |a|)) == b
  {
    var n := MatchesSound(a, b);
    forall j: nat ensures !Conflict(a, b, j) {
      MatchesUnify(a, b, j);
    }
    InstantiateFrom(a, b, 0);
    assert a[0..] == a && b[0..] == b;
  }

  // What the pattern's variable at i is replaced by.
  lemma InstantiateAt(a: Clause, b: Clause, i: nat)
    requires IsGround(b) && DistinctNames(a) && |a| <= |b| && i < |a|
    requires IsVariable(a[i]) ==> Captures(a[i])
    requires forall j: nat :: !Conflict(a, b, j)
    ensures var env := Bindings(a, b, |a|);
            Instantiate(a[i..], env) == (if IsRest(a[i]) then b[i..] else [b[i]]) + Instantiate(a[i + 1..], env)
  {
    BindingsDescribe(a, b, i);
    InstantiateStep(a, i, Bindings(a, b, |a|));
  }

  lemma {:induction false} InstantiateFrom(a: Clause, b: Clause, i: nat)
    requires IsGround(b) && RestLast(a) && DistinctNames(a) && |a| <= |b| && i <= |a|
    requires forall j :: 0 <= j < |a| && IsVariable(a[j]) ==> Captures(a[j])
    requires forall j: nat :: !Conflict(a, b, j)
    requires |a| == |b| || (a != [] && IsRest(a[|a| - 1]))
    ensures Instantiate(a[i..], Bindings(a, b, |a|)) == if i == |a| && |a| < |b| then [] else b[i..]
    decreases |a| - i
  {
    if i < |a| && IsRest(a[i]) {
      assert i + 1 == |a| && a[i + 1..] == [];
      InstantiateAt(a, b, i);
      assert b[i..] + [] == b[i..];
    } else if i < |a| {
      assert i + 1 == |a| ==> |a| == |b|;
      InstantiateFrom(a, b, i + 1);
      InstantiateAt(a, b, i);
      DropOne(b, i);
    }
  }

  lemma DropOne(b: Clause, i: nat)
    requires i < |b|
    ensures b[i..] == [b[i]] + b[i + 1..]
  {
  }

  lemma InstantiateStep(a: Clause, i: nat, env: Environment)
    requires i < |a|
    ensures var found := if Captures(a[i]) then Lookup(env, BoundName(a[i])) else None;
            Instantiate(a[i..], env) ==
            (match found
             case Some(One(t)) => [t]
             case Some(Many(ts)) => ts
             case None => [a[i]]) + Instantiate(a[i + 1..], env)
  {
    assert a[i..][0] == a[i] && a[i..][1..] == a[i + 1..];
  }
}
