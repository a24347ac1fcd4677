/**
 Lookup in the trie (trie.c) and the database query built on it (db.c).

 The code walks the trie and fills a bounded buffer.  The specification is a linear scan: filter
 the stored clauses, in enumeration order, by the match relation, and cut at the buffer's size.
 */
module TrieLookup {
  import opened Wrappers
  import opened Clauses
  import opened Tries

  predicate Wanted(literal: bool, p: Clause, c: Clause) {
    if literal then p == c else Matches(p, c)
  }

  // The linear scan.
  function Hits(literal: bool, p: Clause, es: seq<Entry>): seq<Ref> {
    if es == [] then []
    else (if Wanted(literal, p, es[0].0) then [es[0].1] else []) + Hits(literal, p, es[1..])
  }

  function Values(es: seq<Entry>): seq<Ref> {
    if es == [] then [] else [es[0].1] + Values(es[1..])
  }

  // Appending results to a buffer that stops taking them when it is full.
  function Fill(have: seq<Ref>, more: seq<Ref>, max: nat): (r: seq<Ref>)
    requires |have| <= max
    ensures |r| <= max
  {
    have + more[..if |have| + |more| <= max then |more| else max - |have|]
  }

  lemma FillFill(have: seq<Ref>, a: seq<Ref>, b: seq<Ref>, max: nat)
    requires |have| <= max
    ensures Fill(Fill(have, a, max), b, max) == Fill(have, a + b, max)
  {
  }

  lemma {:induction false} HitsConcat(literal: bool, p: Clause, a: seq<Entry>, b: seq<Entry>)
    ensures Hits(literal, p, a + b) == Hits(literal, p, a) + Hits(literal, p, b)
  {
    if a == [] {
      assert a + b == b;
    } else {
      assert (a + b)[1..] == a[1..] + b;
      HitsConcat(literal, p, a[1..], b);
      var first := if Wanted(literal, p, a[0].0) then [a[0].1] else [];
      assert Hits(literal, p, a) == first + Hits(literal, p, a[1..]);
      assert Hits(literal, p, a + b) == first + Hits(literal, p, a[1..] + b);
    }
  }

  lemma {:induction false} ValuesConcat(a: seq<Entry>, b: seq<Entry>)
    ensures Values(a + b) == Values(a) + Values(b)
  {
    if a == [] {
      assert a + b == b;
    } else {
      assert (a + b)[1..] == a[1..] + b;
      ValuesConcat(a[1..], b);
    }
  }

  // What the scan finds below one branch, decided from the branch's key alone.
  function Below(literal: bool, p: Clause, k: Term, es: seq<Entry>): seq<Ref>
    requires p != []
  {
    if !literal && IsPlainVariable(p[0]) then Hits(literal, p[1..], es)
    else if !literal && (IsRest(p[0]) || IsRest(k)) then Values(es)
    else if (!literal && IsPlainVariable(k)) || k == p[0] then Hits(literal, p[1..], es)
    else []
  }

  lemma {:induction false} HitsUnder(literal: bool, p: Clause, k: Term, es: seq<Entry>)
    requires p != []
    ensures Hits(literal, p, Under(k, es)) == Below(literal, p, k, es)
  {
    if es != [] {
      HitsUnder(literal, p, k, es[1..]);
      assert Under(k, es)[1..] == Under(k, es[1..]);
      var c := [k] + es[0].0;
      assert c[1..] == es[0].0 && c[0] == k;
      assert p == [p[0]] + p[1..];
    }
  }

  lemma {:induction false} ValuesUnder(k: Term, es: seq<Entry>)
    ensures Values(Under(k, es)) == Values(es)
  {
    if es != [] {
      assert Under(k, es)[1..] == Under(k, es[1..]);
      ValuesUnder(k, es[1..]);
    }
  }

  lemma {:induction false} HitsEmptyPattern(literal: bool, bs: seq<Trie>)
    requires WfIn(bs)
    ensures Hits(literal, [], EntriesIn(bs)) == []
  {
    if bs != [] {
      HitsEmptyPattern(literal, bs[1..]);
      var es := Under(bs[0].key.value, Entries(bs[0]));
      HitsNone(literal, es);
      HitsConcat(literal, [], es, EntriesIn(bs[1..]));
    }
  }

  lemma {:induction false} HitsNone(literal: bool, es: seq<Entry>)
    requires forall i :: 0 <= i < |es| ==> es[i].0 != []
    ensures Hits(literal, [], es) == []
  {
    if es != [] {
      HitsNone(literal, es[1..]);
    }
  }

  // A node's own clause is the empty one; everything else is below its branches.
  lemma HitsAtNode(literal: bool, p: Clause, t: Trie)
    requires Wf(t)
    ensures Hits(literal, p, Entries(t)) ==
            if p == [] then (if t.value.Some? then [t.value.value] else [])
            else Hits(literal, p, EntriesIn(t.branches))
  {
    var own: seq<Entry> := if t.value.Some? then [([], t.value.value)] else [];
    HitsConcat(literal, p, own, EntriesIn(t.branches));
    if p == [] {
      HitsEmptyPattern(literal, t.branches);
    }
  }

  lemma FillBranch(literal: bool, p: Clause, bs: seq<Trie>, have: seq<Ref>, max: nat)
    requires p != [] && bs != [] && bs[0].key.Some? && |have| <= max
    ensures Fill(have, Hits(literal, p, EntriesIn(bs)), max) ==
            Fill(Fill(have, Below(literal, p, bs[0].key.value, Entries(bs[0])), max),
                 Hits(literal, p, EntriesIn(bs[1..])), max)
  {
    var key, es := bs[0].key.value, Entries(bs[0]);
    HitsUnder(literal, p, key, es);
    HitsConcat(literal, p, Under(key, es), EntriesIn(bs[1..]));
    FillFill(have, Below(literal, p, key, es), Hits(literal, p, EntriesIn(bs[1..])), max);
  }

  lemma AllBranch(bs: seq<Trie>, have: seq<Ref>, max: nat)
    requires bs != [] && bs[0].key.Some? && |have| <= max
    ensures Fill(have, Values(EntriesIn(bs)), max) ==
            Fill(Fill(have, Values(Entries(bs[0])), max), Values(EntriesIn(bs[1..])), max)
  {
    var key, es := bs[0].key.value, Entries(bs[0]);
    ValuesUnder(key, es);
    ValuesConcat(Under(key, es), EntriesIn(bs[1..]));
    FillFill(have, Values(es), Values(EntriesIn(bs[1..])), max);
  }

  function OwnValue(t: Trie): seq<Ref> {
    if t.value.Some? then [t.value.value] else []
  }

  lemma AllAtNode(t: Trie, have: seq<Ref>, max: nat)
    requires |have| <= max
    ensures Fill(have, Values(Entries(t)), max) ==
            Fill(Fill(have, OwnValue(t), max), Values(EntriesIn(t.branches)), max)
  {
    var own: seq<Entry> := if t.value.Some? then [([], t.value.value)] else [];
    ValuesConcat(own, EntriesIn(t.branches));
    assert Values(own) == OwnValue(t);
    FillFill(have, Values(own), Values(EntriesIn(t.branches)), max);
  }

  // A node's value goes into the buffer, if there is one and there is room.
  method StoreOwn(trie: Trie, results: array<Ref>, start: nat) returns (n: nat)
    requires start <= results.Length
    modifies results
    ensures start <= n <= results.Length
    ensures results[..n] == Fill(old(results[..start]), OwnValue(trie), results.Length)
  {
    n := start;
    if trie.value.Some? && n < results.Length {
      results[n] := trie.value.value;
      n := n + 1;
    }
  }

  // trieLookupAll
  method LookupAll(trie: Trie, results: array<Ref>, start: nat) returns (n: nat)
    requires Wf(trie) && start <= results.Length
    modifies results
    ensures start <= n <= results.Length
    ensures results[..n] == Fill(old(results[..start]), Values(Entries(trie)), results.Length)
    decreases trie
  {
    var max := results.Length;
    AllAtNode(trie, results[..start], max);
    n := StoreOwn(trie, results, start);
    ghost var own := results[..n];
    assert trie.branches[0..] == trie.branches;
    for j := 0 to |trie.branches|
      invariant start <= n <= max && WfIn(trie.branches[j..])
      invariant Fill(results[..n], Values(EntriesIn(trie.branches[j..])), max) ==
                Fill(own, Values(EntriesIn(trie.branches)), max)
    {
      ghost var rest := trie.branches[j..];
      assert rest[0] == trie.branches[j] && rest[1..] == trie.branches[j + 1..];
      AllBranch(rest, results[..n], max);
      n := LookupAll(trie.branches[j], results, n);
    }
  }

  // trieLookupImpl
  method LookupImpl(isLiteral: bool, trie: Trie, pattern: Clause, patternIdx: nat,
                    results: array<Ref>, start: nat) returns (n: nat)
    requires Wf(trie) && patternIdx <= |pattern| && start <= results.Length
    modifies results
    ensures start <= n <= results.Length
    ensures results[..n] ==
            Fill(old(results[..start]), Hits(isLiteral, pattern[patternIdx..], Entries(trie)), results.Length)
    decreases trie, 0
  {
    var max := results.Length;
    ghost var p := pattern[patternIdx..];
    ghost var goal := Fill(results[..start], Hits(isLiteral, p, Entries(trie)), max);
    HitsAtNode(isLiteral, p, trie);
    n := start;
    if patternIdx == |pattern| {
      n := StoreOwn(trie, results, start);
      return;
    }
    for j := 0 to |trie.branches|
      invariant start <= n <= max && WfIn(trie.branches[j..])
      invariant Fill(results[..n], Hits(isLiteral, p, EntriesIn(trie.branches[j..])), max) == goal
    {
      ghost var rest := trie.branches[j..];
      assert rest[0] == trie.branches[j] && rest[1..] == trie.branches[j + 1..];
      FillBranch(isLiteral, p, rest, results[..n], max);
      n := LookupBranch(isLiteral, trie.branches[j], pattern, patternIdx, results, n);
    }
  }

  // The body of its loop: how the term and the branch's key decide where the walk goes.
  method LookupBranch(isLiteral: bool, branch: Trie, pattern: Clause, patternIdx: nat,
                      results: array<Ref>, start: nat) returns (n: nat)
    requires Wf(branch) && branch.key.Some? && patternIdx < |pattern| && start <= results.Length
    modifies results
    ensures start <= n <= results.Length
    ensures results[..n] ==
            Fill(old(results[..start]),
                 Below(isLiteral, pattern[patternIdx..], branch.key.value, Entries(branch)), results.Length)
    decreases branch, 1
  {
    var term, key := pattern[patternIdx], branch.key.value;
    assert pattern[patternIdx..][1..] == pattern[patternIdx + 1..];
    n := start;
    if !isLiteral && IsPlainVariable(term) {
      n := LookupImpl(isLiteral, branch, pattern, patternIdx + 1, results, n);
    } else if !isLiteral && IsRest(term) {
      n := LookupAll(branch, results, n);
    } else if !isLiteral && IsVariable(key) {
      if IsRest(key) {
        n := LookupAll(branch, results, n);
      } else {
        n := LookupImpl(isLiteral, branch, pattern, patternIdx + 1, results, n);
      }
    } else if key == term {
      n := LookupImpl(isLiteral, branch, pattern, patternIdx + 1, results, n);
    }
  }

  // The room dbQuery makes for results, attempt by attempt.
  const ROOM := [500, 1000, 2000, 4000, 8000]

  // What a query comes to: the refs; more results than the process puts up with; or death on a NULL root.
  datatype Answer = Refs(refs: seq<Ref>) | TooMany | NoRoot

  // There is a root in attempt k, and its results do not fit.
  predicate Overflows(roots: seq<Option<Trie>>, pattern: Clause, k: nat)
    requires |roots| == |ROOM| && k < |ROOM|
  {
    roots[k].Some? && |Hits(false, pattern, Entries(roots[k].value))| >= ROOM[k]
  }

  // dbQuery: look up with room for 500 results and double the room until the answer fits; past 10000 the
  // process gives up.  Attempt k sees the root that was current when it ran.
  method DbQuery(roots: seq<Option<Trie>>, pattern: Clause) returns (answer: Answer, attempt: nat)
    requires |roots| == |ROOM| && forall k :: 0 <= k < |ROOM| && roots[k].Some? ==> Wf(roots[k].value)
    ensures answer.Refs? ==>
              attempt < |ROOM| && roots[attempt].Some? && answer.refs == Hits(false, pattern, Entries(roots[attempt].value))
    ensures answer.TooMany? <==> forall k :: 0 <= k < |ROOM| ==> Overflows(roots, pattern, k)
    ensures answer.NoRoot? <==> attempt < |ROOM| && roots[attempt].None?
    ensures forall k :: 0 <= k < attempt && k < |ROOM| ==> Overflows(roots, pattern, k)
  {
    var maxResults := 500;
    attempt := 0;
    while true
      invariant attempt < |ROOM| && maxResults == ROOM[attempt]
      invariant forall k :: 0 <= k < attempt ==> Overflows(roots, pattern, k)
      decreases |ROOM| - attempt
    {
      if roots[attempt].None? {
        assert !Overflows(roots, pattern, attempt);
        return NoRoot, attempt;
      }
      var results := new Ref[maxResults];
      var n := LookupImpl(false, roots[attempt].value, pattern, 0, results, 0);
      assert pattern[0..] == pattern;
      if n < maxResults {
        assert !Overflows(roots, pattern, attempt);
        return Refs(results[..n]), attempt;
      }
      maxResults := maxResults * 2;
      attempt := attempt + 1;
      if maxResults > 10 * 1000 {
        return TooMany, attempt;
      }
    }
  }

  // --- What a complete answer contains ------------------------------------------------------------------

  lemma {:induction false} HitsMember(literal: bool, p: Clause, es: seq<Entry>, v: Ref)
    ensures v in Hits(literal, p, es) <==> exists c :: (c, v) in es && Wanted(literal, p, c)
  {
    if es != [] {
      HitsMember(literal, p, es[1..], v);
      forall c | (c, v) in es && Wanted(literal, p, c) && es[0] != (c, v) ensures (c, v) in es[1..] {
      }
    }
  }

  // A complete answer holds exactly the refs of the stored clauses that match.
  lemma LookupFinds(t: Trie, p: Clause, v: Ref)
    requires Wf(t)
    ensures v in Hits(false, p, Entries(t)) <==> exists c :: Get(t, c) == Some(v) && Matches(p, c)
  {
    HitsMember(false, p, Entries(t), v);
    if v in Hits(false, p, Entries(t)) {
      var c :| (c, v) in Entries(t) && Wanted(false, p, c);
      EntriesGet(t, c, v);
    }
    forall c | Get(t, c) == Some(v) && Matches(p, c) ensures v in Hits(false, p, Entries(t)) {
      EntriesGet(t, c, v);
      assert Wanted(false, p, c);
    }
  }

  // No ref is listed twice when no two stored clauses share one.
  lemma {:induction false} HitsOnce(literal: bool, p: Clause, es: seq<Entry>)
    requires forall i, j :: 0 <= i < j < |es| ==> es[i].1 != es[j].1
    ensures forall i, j :: 0 <= i < j < |Hits(literal, p, es)| ==> Hits(literal, p, es)[i] != Hits(literal, p, es)[j]
  {
    if es != [] {
      HitsOnce(literal, p, es[1..]);
      HitsMember(literal, p, es[1..], es[0].1);
    }
  }

  // trieLookupLiteral returns the value of the clause itself and nothing else, so the "More than 1
  // statement with same clause" exit of dbInsertOrReuseStatement cannot be taken.
  lemma LookupLiteralIsGet(t: Trie, c: Clause)
    requires Wf(t)
    ensures Hits(true, c, Entries(t)) == if Get(t, c).Some? then [Get(t, c).value] else []
  {
    EntriesDistinct(t);
    HitsLiteral(c, Entries(t));
    forall v: Ref ensures (c, v) in Entries(t) <==> Get(t, c) == Some(v) {
      EntriesGet(t, c, v);
    }
    if Get(t, c).Some? {
      HitsMember(true, c, Entries(t), Get(t, c).value);
    } else if Hits(true, c, Entries(t)) != [] {
      HitsMember(true, c, Entries(t), Hits(true, c, Entries(t))[0]);
    }
  }

  lemma {:induction false} HitsLiteral(c: Clause, es: seq<Entry>)
    requires forall i, j :: 0 <= i < j < |es| ==> es[i].0 != es[j].0
    ensures |Hits(true, c, es)| <= 1
  {
    if es != [] {
      HitsLiteral(c, es[1..]);
      if es[0].0 == c && Hits(true, c, es[1..]) != [] {
        HitsMember(true, c, es[1..], Hits(true, c, es[1..])[0]);
      }
    }
  }
}
