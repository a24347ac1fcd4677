/**
 Terms and clauses of the Folk database (trie.c) and the match relation of its index.

 A clause is a sequence of terms.  A term written `/name/` is a variable; a variable whose name
 begins with `...` is a rest variable.  Statements stored in the index may contain variables too,
 so matching is between two clauses that may both be patterns.
 */
module Clauses {

  type Term = string
  type Clause = seq<Term>

  // The size of the name buffers that every caller of trieScanVariable passes.
  const VAR_NAME_MAX := 100

  // A term `/name/` whose name is 1 to VAR_NAME_MAX characters and has no space.
  predicate IsVariable(t: Term) {
    && 3 <= |t| <= VAR_NAME_MAX + 2
    && t[0] == '/' && t[|t| - 1] == '/'
    && ' ' !in t[1..|t| - 1]
  }

  function VariableName(t: Term): string
    requires IsVariable(t)
  {
    t[1..|t| - 1]
  }

  // `/...name/`: absorbs one or more terms.
  predicate IsRest(t: Term) {
    IsVariable(t) && "..." <= VariableName(t)
  }

  // `/name/`: stands for exactly one term.
  predicate IsPlainVariable(t: Term) {
    IsVariable(t) && !IsRest(t)
  }

  predicate IsGround(c: Clause) {
    forall i :: 0 <= i < |c| ==> !IsVariable(c[i])
  }

  predicate RestFree(c: Clause) {
    forall i :: 0 <= i < |c| ==> !IsRest(c[i])
  }

  // trieScanVariable: the checks, then the copy loop that gives up at the first space.  The terminator of
  // a name as long as the buffer goes one past its end: overrun.
  method ScanVariable(term: Term, outVarName: array<char>) returns (ok: bool, overrun: bool)
    requires outVarName.Length == VAR_NAME_MAX
    modifies outVarName
    ensures ok <==> IsVariable(term)
    ensures ok ==> outVarName[..|term| - 2] == VariableName(term)
    ensures overrun <==> ok && |term| - 2 == VAR_NAME_MAX
    ensures ok && !overrun ==> outVarName[|term| - 2] == '\0'
  {
    if |term| < 2 || term[0] != '/' || term[|term| - 1] != '/' {
      return false, false;
    }
    var varLen := |term| - 2;
    if varLen < 1 || varLen > VAR_NAME_MAX {
      return false, false;
    }
    for i := 0 to varLen
      invariant outVarName[..i] == term[1..1 + i]
      invariant ' ' !in term[1..1 + i]
    {
      if term[1 + i] == ' ' {
        assert term[1..|term| - 1][i] == ' ';
        return false, false;
      }
      outVarName[i] := term[1 + i];
    }
    ok, overrun := true, varLen == VAR_NAME_MAX;
    if !overrun {
      outVarName[varLen] := '\0';
    }
  }

  // A term whose name fills the buffer: it is recognised, and scanning it overruns the buffer.
  method OverrunExample() returns (term: Term, ok: bool, overrun: bool)
    ensures |term| == VAR_NAME_MAX + 2 && IsVariable(term) && ok && overrun
  {
    var name: string := seq(VAR_NAME_MAX, _ => 'a');
    term := "/" + name + "/";
    assert term[1..|term| - 1] == name;
    var buffer := new char[VAR_NAME_MAX](_ => '\0');
    ok, overrun := ScanVariable(term, buffer);
  }

  // --- Matching -----------------------------------------------------------------------------------

  // What the walk of trieLookupImpl decides about one stored clause c, one term at a time.
  // A rest variable on either side ends the walk with success, but only if there is a term for it.
  predicate Matches(p: Clause, c: Clause) {
    if p == [] then c == []
    else
      && c != []
      && if IsPlainVariable(p[0]) then Matches(p[1..], c[1..])
         else if IsRest(p[0]) then true
         else if IsRest(c[0]) then true
         else (IsPlainVariable(c[0]) || c[0] == p[0]) && Matches(p[1..], c[1..])
  }

  // The relation without the walk: the clauses agree up to some position where either both end or
  // one of them holds a rest variable that takes whatever follows.
  predicate Agree(a: Term, b: Term) {
    IsPlainVariable(a) || IsPlainVariable(b) || a == b
  }

  predicate Absorbs(a: Term, b: Term) {
    IsRest(a) || (!IsPlainVariable(a) && IsRest(b))
  }

  ghost predicate MatchesUpTo(p: Clause, c: Clause, n: nat) {
    && n <= |p| && n <= |c|
    && (forall i :: 0 <= i < n ==> Agree(p[i], c[i]))
    && ((n == |p| == |c|) || (n < |p| && n < |c| && Absorbs(p[n], c[n])))
  }

  lemma {:induction false} MatchesSound(p: Clause, c: Clause) returns (n: nat)
    requires Matches(p, c)
    ensures MatchesUpTo(p, c, n)
  {
    if p == [] || Absorbs(p[0], c[0]) {
      n := 0;
    } else {
      var m := MatchesSound(p[1..], c[1..]);
      n := m + 1;
      forall i | 0 <= i < n ensures Agree(p[i], c[i]) {
        if i > 0 { assert p[i] == p[1..][i - 1] && c[i] == c[1..][i - 1]; }
      }
    }
  }

  lemma {:induction false} MatchesComplete(p: Clause, c: Clause, n: nat)
    requires MatchesUpTo(p, c, n)
    ensures Matches(p, c)
  {
    if p != [] && !Absorbs(p[0], c[0]) {
      assert MatchesUpTo(p[1..], c[1..], n - 1) by {
        forall i | 0 <= i < n - 1 ensures Agree(p[1..][i], c[1..][i]) {
          assert Agree(p[i + 1], c[i + 1]);
        }
      }
      MatchesComplete(p[1..], c[1..], n - 1);
    }
  }

  // The walk decides exactly the positional relation.
  lemma MatchesIff(p: Clause, c: Clause)
    ensures Matches(p, c) <==> exists n: nat :: MatchesUpTo(p, c, n)
  {
    if Matches(p, c) {
      var n := MatchesSound(p, c);
    }
    forall n: nat | MatchesUpTo(p, c, n) ensures Matches(p, c) {
      MatchesComplete(p, c, n);
    }
  }

  // Without rest variables a match is positional agreement of clauses of the same length, and
  // therefore symmetric.
  lemma MatchesRestFree(p: Clause, c: Clause)
    requires RestFree(p) && RestFree(c)
    ensures Matches(p, c) <==> |p| == |c| && forall i :: 0 <= i < |p| ==> Agree(p[i], c[i])
  {
    MatchesIff(p, c);
    if |p| == |c| && forall i :: 0 <= i < |p| ==> Agree(p[i], c[i]) {
      assert MatchesUpTo(p, c, |p|);
    }
  }

  // A ground pattern finds a ground clause exactly when they are equal.
  lemma MatchesGround(p: Clause, c: Clause)
    requires IsGround(p) && IsGround(c)
    ensures Matches(p, c) <==> p == c
  {
    MatchesRestFree(p, c);
  }

  // Every clause matches itself.
  lemma {:induction false} MatchesItself(c: Clause)
    ensures Matches(c, c)
  {
    if c != [] {
      MatchesItself(c[1..]);
    }
  }

  // --- Prefixes -----------------------------------------------------------------------------------

  predicate Comparable(a: Clause, b: Clause) {
    a <= b || b <= a
  }

  // No clause of the set is a proper prefix of another.
  ghost predicate PrefixFree(cs: set<Clause>) {
    forall a, b :: a in cs && b in cs && a <= b ==> a == b
  }
}
