/**
 The same trie with the addresses of its nodes and keys: which memory path copying allocates,
 keeps and retires (trie.c 142-212 and 337-441).

 `malloc` is any function from allocation counter to address; the building functions take the
 counter along and list what they hand to `retire`.  The laws are conservation laws: what was
 reachable before, plus what was allocated, is what is reachable afterwards, plus what was retired
 (plus, for removal, a leaked subtree).
 */
module TrieNodes {
  import opened Wrappers
  import opened Clauses
  import opened Tries
  import opened Epoch

  datatype Cell = Cell(addr: Ptr, keyAddr: Option<Ptr>, key: Option<Term>, value: Option<Ref>, branches: seq<Cell>)

  type Malloc = nat -> Ptr

  // What building leaves behind: the new tree, the allocation counter, the retired addresses.
  datatype Built = Built(trie: Option<Cell>, next: nat, retired: seq<Ptr>)
  datatype BuiltIn = BuiltIn(branches: seq<Cell>, next: nat, retired: seq<Ptr>, same: bool)

  // --- What the cells mean, and what memory they occupy ----------------------------------------------------

  function Erase(t: Cell): Trie
    decreases t, 1
  {
    Node(t.key, t.value, EraseIn(t.branches))
  }

  function EraseIn(bs: seq<Cell>): (r: seq<Trie>)
    ensures |r| == |bs|
    decreases bs, 0
  {
    if bs == [] then [] else [Erase(bs[0])] + EraseIn(bs[1..])
  }

  function Is(a: Ptr, x: Ptr): nat {
    if a == x then 1 else 0
  }

  // How often address x is reached from a cell: as a node or as a key.
  function Uses(t: Cell, x: Ptr): nat
    decreases t, 1
  {
    Is(t.addr, x) + (if t.keyAddr.Some? then Is(t.keyAddr.value, x) else 0) + UsesIn(t.branches, x)
  }

  function UsesIn(bs: seq<Cell>, x: Ptr): nat
    decreases bs, 0
  {
    if bs == [] then 0 else Uses(bs[0], x) + UsesIn(bs[1..], x)
  }

  function UsesRoot(root: Option<Cell>, x: Ptr): nat {
    if root.None? then 0 else Uses(root.value, x)
  }

  // The addresses reachable from a cell.
  function Addrs(t: Cell): set<Ptr>
    decreases t, 1
  {
    {t.addr} + (if t.keyAddr.Some? then {t.keyAddr.value} else {}) + AddrsIn(t.branches)
  }

  function AddrsIn(bs: seq<Cell>): set<Ptr>
    decreases bs, 0
  {
    if bs == [] then {} else Addrs(bs[0]) + AddrsIn(bs[1..])
  }

  function AddrsRoot(root: Option<Cell>): set<Ptr> {
    if root.None? then {} else Addrs(root.value)
  }

  lemma {:induction false} AddrsUses(t: Cell, x: Ptr)
    ensures x in Addrs(t) <==> Uses(t, x) > 0
    decreases t, 1
  {
    AddrsInUses(t.branches, x);
  }

  lemma {:induction false} AddrsInUses(bs: seq<Cell>, x: Ptr)
    ensures x in AddrsIn(bs) <==> UsesIn(bs, x) > 0
    decreases bs, 0
  {
    if bs != [] {
      AddrsUses(bs[0], x);
      AddrsInUses(bs[1..], x);
    }
  }

  // How often malloc returned address x in allocations a, .., b - 1, and the set of what it returned.
  function Given(malloc: Malloc, a: nat, b: nat, x: Ptr): nat
    decreases b - a
  {
    if a >= b then 0 else Given(malloc, a, b - 1, x) + Is(malloc(b - 1), x)
  }

  function Allocated(malloc: Malloc, a: nat, b: nat): set<Ptr> {
    set i | a <= i < b :: malloc(i)
  }

  lemma {:induction false} GivenSplit(malloc: Malloc, a: nat, m: nat, b: nat, x: Ptr)
    requires a <= m <= b
    ensures Given(malloc, a, b, x) == Given(malloc, a, m, x) + Given(malloc, m, b, x)
    decreases b - m
  {
    if m < b {
      GivenSplit(malloc, a, m, b - 1, x);
    }
  }

  // --- trieAddImpl ------------------------------------------------------------------------------------------

  function AddCell(t: Cell, malloc: Malloc, next: nat, c: Clause, v: Ref): (r: Built)
    ensures r.trie.Some?
    decreases |c|, 1, 0
  {
    if c == [] then
      if t.value.Some? then Built(Some(t), next, [])
      else Built(Some(Cell(malloc(next), t.keyAddr, t.key, Some(v), t.branches)), next + 1, [t.addr])
    else
      var r := AddCellIn(t.branches, malloc, next, c, v);
      if r.same then Built(Some(t), r.next, r.retired)
      else Built(Some(Cell(malloc(r.next), t.keyAddr, t.key, t.value, r.branches)), r.next + 1, r.retired + [t.addr])
  }

  function AddCellIn(bs: seq<Cell>, malloc: Malloc, next: nat, c: Clause, v: Ref): BuiltIn
    requires c != []
    decreases |c|, 0, |bs|
  {
    if bs == [] then
      // A placeholder branch is allocated, and its copy with the rest of the clause takes its place.
      var newBranch := Cell(malloc(next), Some(malloc(next + 1)), Some(c[0]), None, []);
      var r := AddCell(newBranch, malloc, next + 2, c[1..], v);
      if r.trie.value.addr == newBranch.addr then BuiltIn([], r.next, r.retired + [newBranch.addr], true)
      else BuiltIn([r.trie.value], r.next, r.retired, false)
    else if bs[0].key == Some(c[0]) then
      var r := AddCell(bs[0], malloc, next, c[1..], v);
      if r.trie.value.addr == bs[0].addr then BuiltIn(bs, r.next, r.retired, true)
      else BuiltIn([r.trie.value] + bs[1..], r.next, r.retired, false)
    else
      var r := AddCellIn(bs[1..], malloc, next, c, v);
      BuiltIn([bs[0]] + r.branches, r.next, r.retired, r.same)
  }

  // malloc never returns an address that is reachable in the old trie, nor the same one twice.
  ghost predicate GoodMalloc(malloc: Malloc, next: nat, inUse: set<Ptr>) {
    && (forall i: nat, j: nat :: i < j ==> malloc(i) != malloc(j))
    && (forall i: nat :: next <= i ==> malloc(i) !in inUse)
  }

  // The cells refine the value-level Add; the same cell comes back exactly when the clause was there.
  lemma {:induction false} AddRefines(t: Cell, malloc: Malloc, next: nat, c: Clause, v: Ref)
    requires GoodMalloc(malloc, next, Addrs(t))
    ensures var r := AddCell(t, malloc, next, c, v);
            && next <= r.next
            && Erase(r.trie.value) == Add(Erase(t), c, v)
            && (r.trie.value.addr == t.addr <==> Get(Erase(t), c).Some?)
            && (Get(Erase(t), c).Some? ==> r == Built(Some(t), next, []))
    decreases |c|, 1, 0
  {
    if c != [] {
      AddInRefines(t.branches, malloc, next, c, v);
      if Get(Erase(t), c).Some? {
        AddSameIff(Erase(t), c, v);
      }
    }
  }

  lemma {:induction false} AddInRefines(bs: seq<Cell>, malloc: Malloc, next: nat, c: Clause, v: Ref)
    requires c != [] && GoodMalloc(malloc, next, AddrsIn(bs))
    ensures var r := AddCellIn(bs, malloc, next, c, v);
            && next <= r.next
            && (r.same <==> GetIn(EraseIn(bs), c).Some?)
            && (r.same ==> r == BuiltIn(bs, next, [], true))
            && EraseIn(r.branches) == AddIn(EraseIn(bs), c, v)
    decreases |c|, 0, |bs|
  {
    var r := AddCellIn(bs, malloc, next, c, v);
    if bs == [] {
      var newBranch := Cell(malloc(next), Some(malloc(next + 1)), Some(c[0]), None, []);
      AddRefines(newBranch, malloc, next + 2, c[1..], v);
      assert Get(Erase(newBranch), c[1..]).None?;
      assert EraseIn(r.branches) == [Erase(r.branches[0])];
    } else if bs[0].key == Some(c[0]) {
      AddRefines(bs[0], malloc, next, c[1..], v);
      if r.same {
        AddSameIff(Erase(bs[0]), c[1..], v);
      } else {
        assert r.branches[1..] == bs[1..];
      }
    } else {
      AddInRefines(bs[1..], malloc, next, c, v);
      var rest := AddCellIn(bs[1..], malloc, next, c, v);
      assert r.branches[1..] == rest.branches;
      assert rest.same ==> [bs[0]] + bs[1..] == bs;
    }
  }

  lemma RetireMore(xs: seq<Ptr>, ys: seq<Ptr>, x: Ptr)
    ensures multiset(xs + ys)[x] == multiset(xs)[x] + multiset(ys)[x]
    ensures |ys| == 1 ==> multiset(ys)[x] == Is(ys[0], x)
  {
    if |ys| == 1 { assert ys == [ys[0]]; }
  }

  // A node is replaced by a copy with other branches, and retired.
  lemma CopyConserves(t: Cell, branches: seq<Cell>, malloc: Malloc, next: nat, mid: nat, retired: seq<Ptr>, x: Ptr)
    requires next <= mid
    requires UsesIn(t.branches, x) + Given(malloc, next, mid, x) == UsesIn(branches, x) + multiset(retired)[x]
    ensures Uses(t, x) + Given(malloc, next, mid + 1, x) ==
            Uses(Cell(malloc(mid), t.keyAddr, t.key, t.value, branches), x) + multiset(retired + [t.addr])[x]
  {
    RetireMore(retired, [t.addr], x);
  }

  // The value goes into a copy of the node itself.
  lemma AddHereConserves(t: Cell, malloc: Malloc, next: nat, v: Ref, x: Ptr)
    requires t.value.None?
    ensures var r := AddCell(t, malloc, next, [], v);
            Uses(t, x) + Given(malloc, next, r.next, x) == Uses(r.trie.value, x) + multiset(r.retired)[x]
  {
    assert AddCell(t, malloc, next, [], v) ==
           Built(Some(Cell(malloc(next), t.keyAddr, t.key, Some(v), t.branches)), next + 1, [t.addr]);
    assert Given(malloc, next, next + 1, x) == Is(malloc(next), x);
    assert multiset([t.addr])[x] == Is(t.addr, x);
  }

  // The clause goes below the node, into changed branches.
  lemma AddCopyConserves(t: Cell, malloc: Malloc, next: nat, c: Clause, v: Ref, r: BuiltIn, x: Ptr)
    requires c != [] && r == AddCellIn(t.branches, malloc, next, c, v) && !r.same && next <= r.next
    requires UsesIn(t.branches, x) + Given(malloc, next, r.next, x) == UsesIn(r.branches, x) + multiset(r.retired)[x]
    ensures var r2 := AddCell(t, malloc, next, c, v);
            Uses(t, x) + Given(malloc, next, r2.next, x) == Uses(r2.trie.value, x) + multiset(r2.retired)[x]
  {
    CopyConserves(t, r.branches, malloc, next, r.next, r.retired, x);
  }

  // Nothing is lost: for every address, old + allocated = new + retired.
  lemma {:induction false} AddConserves(t: Cell, malloc: Malloc, next: nat, c: Clause, v: Ref, x: Ptr)
    requires GoodMalloc(malloc, next, Addrs(t))
    ensures var r := AddCell(t, malloc, next, c, v);
            Uses(t, x) + Given(malloc, next, r.next, x) == Uses(r.trie.value, x) + multiset(r.retired)[x]
    decreases |c|, 1, 0
  {
    AddRefines(t, malloc, next, c, v);
    if Get(Erase(t), c).None? {
      if c == [] {
        AddHereConserves(t, malloc, next, v, x);
      } else {
        AddInRefines(t.branches, malloc, next, c, v);
        AddInConserves(t.branches, malloc, next, c, v, x);
        AddCopyConserves(t, malloc, next, c, v, AddCellIn(t.branches, malloc, next, c, v), x);
      }
    }
  }

  // The clause's first term is new here: a placeholder is allocated, copied and retired.
  lemma AddNewConserves(malloc: Malloc, next: nat, c: Clause, v: Ref, r: Built, x: Ptr)
    requires c != []
    requires var leaf := Cell(malloc(next), Some(malloc(next + 1)), Some(c[0]), None, []);
             && r == AddCell(leaf, malloc, next + 2, c[1..], v) && next + 2 <= r.next
             && r.trie.value.addr != leaf.addr
             && Uses(leaf, x) + Given(malloc, next + 2, r.next, x) == Uses(r.trie.value, x) + multiset(r.retired)[x]
    ensures AddCellIn([], malloc, next, c, v) == BuiltIn([r.trie.value], r.next, r.retired, false)
    ensures Given(malloc, next, r.next, x) == UsesIn([r.trie.value], x) + multiset(r.retired)[x]
  {
    GivenSplit(malloc, next, next + 2, r.next, x);
    assert Given(malloc, next, next + 2, x) == Given(malloc, next, next + 1, x) + Is(malloc(next + 1), x);
    assert Given(malloc, next, next + 1, x) == Is(malloc(next), x);
    assert UsesIn([r.trie.value], x) == Uses(r.trie.value, x);
  }

  lemma {:induction false} AddInConserves(bs: seq<Cell>, malloc: Malloc, next: nat, c: Clause, v: Ref, x: Ptr)
    requires c != [] && GoodMalloc(malloc, next, AddrsIn(bs)) && GetIn(EraseIn(bs), c).None?
    ensures var r := AddCellIn(bs, malloc, next, c, v);
            UsesIn(bs, x) + Given(malloc, next, r.next, x) == UsesIn(r.branches, x) + multiset(r.retired)[x]
    decreases |c|, 0, |bs|
  {
    AddInRefines(bs, malloc, next, c, v);
    if bs == [] {
      var newBranch := Cell(malloc(next), Some(malloc(next + 1)), Some(c[0]), None, []);
      AddRefines(newBranch, malloc, next + 2, c[1..], v);
      AddConserves(newBranch, malloc, next + 2, c[1..], v, x);
      AddNewConserves(malloc, next, c, v, AddCell(newBranch, malloc, next + 2, c[1..], v), x);
    } else if bs[0].key == Some(c[0]) {
      AddConserves(bs[0], malloc, next, c[1..], v, x);
      UsesFirst(AddCell(bs[0], malloc, next, c[1..], v).trie.value, bs[1..], x);
      UsesFirst(bs[0], bs[1..], x);
    } else {
      AddInConserves(bs[1..], malloc, next, c, v, x);
      UsesFirst(bs[0], AddCellIn(bs[1..], malloc, next, c, v).branches, x);
      UsesFirst(bs[0], bs[1..], x);
    }
  }

  lemma UsesFirst(b: Cell, bs: seq<Cell>, x: Ptr)
    ensures UsesIn([b] + bs, x) == Uses(b, x) + UsesIn(bs, x)
  {
    assert ([b] + bs)[1..] == bs;
  }

  // --- trieRemoveImpl, literal -------------------------------------------------------------------------------

  function OwnKey(t: Cell): seq<Ptr> {
    if t.keyAddr.Some? then [t.keyAddr.value] else []
  }

  function RemoveCell(t: Cell, malloc: Malloc, next: nat, c: Clause): Built
    decreases t, 1
  {
    if c == [] then
      if t.value.Some? then Built(None, next, OwnKey(t) + [t.addr]) else Built(Some(t), next, [])
    else
      var r := RemoveCellIn(t.branches, malloc, next, c);
      if r.branches == [] then Built(None, r.next, r.retired + OwnKey(t) + [t.addr])
      else Built(Some(Cell(malloc(r.next), t.keyAddr, t.key, t.value, r.branches)), r.next + 1, r.retired + [t.addr])
  }

  function RemoveCellIn(bs: seq<Cell>, malloc: Malloc, next: nat, c: Clause): BuiltIn
    requires c != []
    decreases bs, 0
  {
    if bs == [] then BuiltIn([], next, [], true)
    else if bs[0].key == Some(c[0]) then
      var first := RemoveCell(bs[0], malloc, next, c[1..]);
      var rest := RemoveCellIn(bs[1..], malloc, first.next, c);
      BuiltIn((if first.trie.Some? then [first.trie.value] else []) + rest.branches,
              rest.next, first.retired + rest.retired, false)
    else
      var rest := RemoveCellIn(bs[1..], malloc, next, c);
      BuiltIn([bs[0]] + rest.branches, rest.next, rest.retired, rest.same)
  }

  // How often x is dropped without being retired: everything below the removed clause's node.
  function Leaked(t: Cell, c: Clause, x: Ptr): nat
    decreases t, 1
  {
    if c == [] then if t.value.Some? then UsesIn(t.branches, x) else 0
    else LeakedIn(t.branches, c, x)
  }

  function LeakedIn(bs: seq<Cell>, c: Clause, x: Ptr): nat
    requires c != []
    decreases bs, 0
  {
    if bs == [] then 0
    else (if bs[0].key == Some(c[0]) then Leaked(bs[0], c[1..], x) else 0) + LeakedIn(bs[1..], c, x)
  }

  lemma {:induction false} RemoveRefines(t: Cell, malloc: Malloc, next: nat, c: Clause)
    ensures var r := RemoveCell(t, malloc, next, c);
            && next <= r.next
            && Remove(Erase(t), c) == if r.trie.None? then None else Some(Erase(r.trie.value))
    decreases t, 1
  {
    if c != [] {
      RemoveInRefines(t.branches, malloc, next, c);
    }
  }

  lemma {:induction false} RemoveInRefines(bs: seq<Cell>, malloc: Malloc, next: nat, c: Clause)
    requires c != []
    ensures var r := RemoveCellIn(bs, malloc, next, c);
            next <= r.next && EraseIn(r.branches) == RemoveIn(EraseIn(bs), c)
    decreases bs, 0
  {
    if bs != [] {
      var r := RemoveCellIn(bs, malloc, next, c);
      if bs[0].key == Some(c[0]) {
        RemoveRefines(bs[0], malloc, next, c[1..]);
        var first := RemoveCell(bs[0], malloc, next, c[1..]);
        RemoveInRefines(bs[1..], malloc, first.next, c);
        assert first.trie.Some? ==> r.branches[1..] == RemoveCellIn(bs[1..], malloc, first.next, c).branches;
        assert first.trie.None? ==> r.branches == RemoveCellIn(bs[1..], malloc, first.next, c).branches;
      } else {
        RemoveInRefines(bs[1..], malloc, next, c);
        assert r.branches[1..] == RemoveCellIn(bs[1..], malloc, next, c).branches;
      }
    }
  }

  // For every address, old + allocated = new + retired + leaked.
  lemma {:induction false} RemoveConserves(t: Cell, malloc: Malloc, next: nat, c: Clause, x: Ptr)
    ensures var r := RemoveCell(t, malloc, next, c);
            Uses(t, x) + Given(malloc, next, r.next, x) ==
            UsesRoot(r.trie, x) + multiset(r.retired)[x] + Leaked(t, c, x)
    decreases t, 1
  {
    if c == [] {
      if t.value.Some? {
        OwnUses(t, [], x);
      }
    } else {
      RemoveInConserves(t.branches, malloc, next, c, x);
      RemoveInRefines(t.branches, malloc, next, c);
      var r := RemoveCellIn(t.branches, malloc, next, c);
      if r.branches == [] {
        OwnUses(t, r.retired, x);
      } else {
        RetireMore(r.retired, [t.addr], x);
        assert Given(malloc, next, r.next + 1, x) == Given(malloc, next, r.next, x) + Is(malloc(r.next), x);
      }
    }
  }

  // Retiring a node together with its key.
  lemma OwnUses(t: Cell, xs: seq<Ptr>, x: Ptr)
    ensures multiset(xs + OwnKey(t) + [t.addr])[x] + UsesIn(t.branches, x) == multiset(xs)[x] + Uses(t, x)
    ensures [] + OwnKey(t) == OwnKey(t)
  {
    RetireMore(xs, OwnKey(t), x);
    RetireMore(xs + OwnKey(t), [t.addr], x);
  }

  lemma {:induction false} RemoveInConserves(bs: seq<Cell>, malloc: Malloc, next: nat, c: Clause, x: Ptr)
    requires c != []
    ensures var r := RemoveCellIn(bs, malloc, next, c);
            UsesIn(bs, x) + Given(malloc, next, r.next, x) ==
            UsesIn(r.branches, x) + multiset(r.retired)[x] + LeakedIn(bs, c, x)
    decreases bs, 0
  {
    if bs != [] {
      var r := RemoveCellIn(bs, malloc, next, c);
      if bs[0].key == Some(c[0]) {
        RemoveConserves(bs[0], malloc, next, c[1..], x);
        RemoveRefines(bs[0], malloc, next, c[1..]);
        var first := RemoveCell(bs[0], malloc, next, c[1..]);
        RemoveInConserves(bs[1..], malloc, first.next, c, x);
        RemoveInRefines(bs[1..], malloc, first.next, c);
        var rest := RemoveCellIn(bs[1..], malloc, first.next, c);
        GivenSplit(malloc, next, first.next, rest.next, x);
        assert first.trie.Some? ==> r.branches[1..] == rest.branches;
        assert first.trie.None? ==> r.branches == rest.branches;
      } else {
        RemoveInConserves(bs[1..], malloc, next, c, x);
        assert r.branches[1..] == RemoveCellIn(bs[1..], malloc, next, c).branches;
      }
    }
  }

  // --- What the conservation laws give the reclamation scheme -----------------------------------------------

  // No node or key is shared.
  ghost predicate IsTree(t: Cell) {
    forall x :: Uses(t, x) <= 1
  }

  lemma {:induction false} GivenFresh(malloc: Malloc, next: nat, b: nat, inUse: set<Ptr>, x: Ptr)
    requires next <= b && GoodMalloc(malloc, next, inUse)
    ensures Given(malloc, next, b, x) <= 1
    ensures Given(malloc, next, b, x) == 1 <==> x in Allocated(malloc, next, b)
    ensures x in inUse ==> Given(malloc, next, b, x) == 0
    decreases b - next
  {
    if next < b {
      GivenFresh(malloc, next, b - 1, inUse, x);
      assert Allocated(malloc, next, b) == Allocated(malloc, next, b - 1) + {malloc(b - 1)} by {
        assert malloc(b - 1) in Allocated(malloc, next, b);
      }
    }
  }

  lemma {:induction false} NoDupsOf(xs: seq<Ptr>)
    requires forall x :: multiset(xs)[x] <= 1
    ensures NoDups(xs)
  {
    if xs != [] {
      assert xs == [xs[0]] + xs[1..];
      forall x ensures multiset(xs[1..])[x] == multiset(xs)[x] - Is(xs[0], x) {
      }
      NoDupsOf(xs[1..]);
      forall j | 1 <= j < |xs| ensures xs[j] != xs[0] {
        assert xs[j] in multiset(xs[1..]) by { assert xs[j] == xs[1..][j - 1]; }
      }
      forall i, j | 0 <= i < j < |xs| ensures xs[i] != xs[j] {
        if i > 0 { assert xs[1..][i - 1] != xs[1..][j - 1]; }
      }
    }
  }

  // The root of a changed trie is new.
  lemma AddCopiesRoot(t: Cell, malloc: Malloc, next: nat, c: Clause, v: Ref)
    requires GoodMalloc(malloc, next, Addrs(t)) && AddCell(t, malloc, next, c, v).trie.value.addr != t.addr
    ensures var r := AddCell(t, malloc, next, c, v); r.trie.value.addr in Allocated(malloc, next, r.next)
  {
    var r := AddCell(t, malloc, next, c, v);
    if c != [] {
      AddInRefines(t.branches, malloc, next, c, v);
    }
    assert malloc(r.next - 1) == r.trie.value.addr;
  }

  lemma RemoveCopiesRoot(t: Cell, malloc: Malloc, next: nat, c: Clause)
    requires c != [] && RemoveCell(t, malloc, next, c).trie.Some?
    ensures var r := RemoveCell(t, malloc, next, c); r.trie.value.addr in Allocated(malloc, next, r.next)
  {
    RemoveInRefines(t.branches, malloc, next, c);
    assert malloc(RemoveCellIn(t.branches, malloc, next, c).next) == RemoveCell(t, malloc, next, c).trie.value.addr;
  }

  // Adding: the retired addresses are exactly those of the old trie and of the new allocations that
  // the new trie does not reach.  Each is retired once, and the new trie is again a tree.
  lemma AddRetires(t: Cell, malloc: Malloc, next: nat, c: Clause, v: Ref)
    requires IsTree(t) && GoodMalloc(malloc, next, Addrs(t))
    ensures var r := AddCell(t, malloc, next, c, v);
            var allocs := Allocated(malloc, next, r.next);
            && IsTree(r.trie.value)
            && NoDups(r.retired)
            && (forall x :: x in r.retired <==> (x in Addrs(t) || x in allocs) && x !in Addrs(r.trie.value))
            && PathCopy(Addrs(t), allocs, Addrs(r.trie.value), r.retired)
            && (r.trie.value.addr != t.addr ==> r.trie.value.addr in allocs)
            && r.trie.value.addr in Addrs(r.trie.value)
  {
    AddRefines(t, malloc, next, c, v);
    var r := AddCell(t, malloc, next, c, v);
    if r.trie.value.addr != t.addr {
      AddCopiesRoot(t, malloc, next, c, v);
    }
    forall x
      ensures Uses(r.trie.value, x) <= 1 && multiset(r.retired)[x] <= 1
      ensures x in r.retired <==> (x in Addrs(t) || x in Allocated(malloc, next, r.next)) && x !in Addrs(r.trie.value)
      ensures x in Addrs(r.trie.value) ==> x in Addrs(t) + Allocated(malloc, next, r.next)
    {
      AddConserves(t, malloc, next, c, v, x);
      GivenFresh(malloc, next, r.next, Addrs(t), x);
      AddrsUses(t, x);
      AddrsUses(r.trie.value, x);
      assert x in r.retired <==> multiset(r.retired)[x] > 0;
    }
    NoDupsOf(r.retired);
  }

  // Removing: nothing retired is reachable from the new root, each address is retired once, and what
  // is neither retired nor reachable is the leaked subtree.
  lemma RemoveRetires(t: Cell, malloc: Malloc, next: nat, c: Clause)
    requires IsTree(t) && GoodMalloc(malloc, next, Addrs(t))
    ensures var r := RemoveCell(t, malloc, next, c);
            var allocs := Allocated(malloc, next, r.next);
            && (r.trie.Some? ==> IsTree(r.trie.value))
            && NoDups(r.retired)
            && (forall x :: x in r.retired <==>
                  (x in Addrs(t) || x in allocs) && x !in AddrsRoot(r.trie) && Leaked(t, c, x) == 0)
            && PathCopy(Addrs(t), allocs, AddrsRoot(r.trie), r.retired)
            && (r.trie.Some? && r.trie.value.addr != t.addr ==> r.trie.value.addr in allocs)
            && (r.trie.Some? ==> r.trie.value.addr in AddrsRoot(r.trie))
  {
    RemoveRefines(t, malloc, next, c);
    var r := RemoveCell(t, malloc, next, c);
    if r.trie.Some? && c != [] {
      RemoveCopiesRoot(t, malloc, next, c);
    }
    forall x
      ensures UsesRoot(r.trie, x) <= 1 && multiset(r.retired)[x] <= 1
      ensures x in r.retired <==>
        (x in Addrs(t) || x in Allocated(malloc, next, r.next)) && x !in AddrsRoot(r.trie) && Leaked(t, c, x) == 0
      ensures x in AddrsRoot(r.trie) ==> x in Addrs(t) + Allocated(malloc, next, r.next)
    {
      RemoveConserves(t, malloc, next, c, x);
      GivenFresh(malloc, next, r.next, Addrs(t), x);
      AddrsUses(t, x);
      if r.trie.Some? { AddrsUses(r.trie.value, x); }
      assert x in r.retired <==> multiset(r.retired)[x] > 0;
    }
    NoDupsOf(r.retired);
    assert r.trie.Some? ==> forall x :: Uses(r.trie.value, x) == UsesRoot(r.trie, x);
  }

  // A thread that has built the new trie from the root it read may try its swap: what Epoch asks of one
  // is what adding and removing deliver.
  lemma AddFitsSwap(s: State, tid: Tid, t: Cell, malloc: Malloc, next: nat, c: Clause, v: Ref)
    requires IsTree(t) && GoodMalloc(malloc, next, Addrs(t)) && Get(Erase(t), c).None?
    requires IsThread(s, tid) && s.threads[tid].pc.Inside?
    requires var r, w := AddCell(t, malloc, next, c, v), s.threads[tid].pc.work;
             w.baseFoot == Addrs(t) && w.allocs == Allocated(malloc, next, r.next) && w.frees == r.retired && NULL !in w.allocs
    ensures var root := AddCell(t, malloc, next, c, v).trie.value; Enabled(s, Cas(tid, root.addr, Addrs(root)))
  {
    AddRefines(t, malloc, next, c, v);
    AddRetires(t, malloc, next, c, v);
  }

  // Removal copies the root unless the root goes (the new root pointer is then NULL); if it hands back the
  // same root there is no swap.
  lemma RemoveFitsSwap(s: State, tid: Tid, t: Cell, malloc: Malloc, next: nat, c: Clause)
    requires IsTree(t) && GoodMalloc(malloc, next, Addrs(t)) && RemoveCell(t, malloc, next, c).trie != Some(t)
    requires IsThread(s, tid) && s.threads[tid].pc.Inside?
    requires var r, w := RemoveCell(t, malloc, next, c), s.threads[tid].pc.work;
             w.baseFoot == Addrs(t) && w.allocs == Allocated(malloc, next, r.next) && w.frees == r.retired && NULL !in w.allocs
    ensures var root := RemoveCell(t, malloc, next, c).trie;
            Enabled(s, Cas(tid, if root.Some? then root.value.addr else NULL, AddrsRoot(root)))
  {
    RemoveRetires(t, malloc, next, c);
    if RemoveCell(t, malloc, next, c).trie.Some? {
      RemoveCopiesRoot(t, malloc, next, c);
    }
  }

  lemma LeakedBelow(bs: seq<Cell>, c: Clause, x: Ptr)
    requires c != [] && bs != [] && WfIn(EraseIn(bs))
    ensures LeakedIn(bs, c, x) ==
            if bs[0].key == Some(c[0]) then Leaked(bs[0], c[1..], x) else LeakedIn(bs[1..], c, x)
  {
    if bs[0].key == Some(c[0]) {
      forall i | 0 <= i < |bs[1..]| ensures bs[1..][i].key != Some(c[0]) {
        assert EraseIn(bs)[i + 1].key != EraseIn(bs)[0].key;
        EraseAt(bs, i + 1);
      }
      LeakedNone(bs[1..], c, x);
    }
  }

  lemma {:induction false} EraseAt(bs: seq<Cell>, i: nat)
    requires i < |bs|
    ensures EraseIn(bs)[i] == Erase(bs[i])
  {
    if i > 0 {
      EraseAt(bs[1..], i - 1);
    }
  }

  lemma {:induction false} LeakedNone(bs: seq<Cell>, c: Clause, x: Ptr)
    requires c != [] && forall i :: 0 <= i < |bs| ==> bs[i].key != Some(c[0])
    ensures LeakedIn(bs, c, x) == 0
  {
    if bs != [] {
      LeakedNone(bs[1..], c, x);
    }
  }

  // A clause longer than c is stored below it.
  ghost predicate HasBelow(t: Trie, c: Clause) {
    exists e :: c < e && Get(t, e).Some?
  }

  ghost predicate HasBelowIn(bs: seq<Trie>, c: Clause) {
    exists e :: c < e && GetIn(bs, e).Some?
  }

  lemma BelowNode(t: Trie, c: Clause)
    ensures HasBelow(t, c) <==> HasBelowIn(t.branches, c)
  {
    if e :| c < e && Get(t, e).Some? {
      assert GetIn(t.branches, e).Some?;
    }
    if e :| c < e && GetIn(t.branches, e).Some? {
      assert Get(t, e).Some?;
    }
  }

  lemma BelowBranch(bs: seq<Trie>, c: Clause)
    requires bs != [] && c != []
    ensures HasBelowIn(bs, c) <==>
            if bs[0].key == Some(c[0]) then HasBelow(bs[0], c[1..]) else HasBelowIn(bs[1..], c)
  {
    assert c == [c[0]] + c[1..];
    if e :| c < e && GetIn(bs, e).Some? {
      assert e[0] == c[0] && c[1..] < e[1..];
      assert if bs[0].key == Some(c[0]) then Get(bs[0], e[1..]).Some? else GetIn(bs[1..], e).Some?;
    }
    if bs[0].key == Some(c[0]) {
      if e :| c[1..] < e && Get(bs[0], e).Some? {
        assert ([c[0]] + e)[1..] == e;
        assert c < [c[0]] + e && GetIn(bs, [c[0]] + e).Some?;
      }
    } else if e :| c < e && GetIn(bs[1..], e).Some? {
      assert e[0] == c[0] && GetIn(bs, e).Some?;
    }
  }

  lemma BelowSome(bs: seq<Trie>)
    requires bs != [] && WfIn(bs) && TidyIn(bs)
    ensures HasBelowIn(bs, [])
  {
    var e := SomeEntry(bs[0]);
    assert ([bs[0].key.value] + e)[1..] == e;
    assert [] < [bs[0].key.value] + e && GetIn(bs, [bs[0].key.value] + e).Some?;
  }

  ghost predicate Leaks(t: Cell, c: Clause) {
    exists x :: Leaked(t, c, x) > 0
  }

  ghost predicate LeaksIn(bs: seq<Cell>, c: Clause)
    requires c != []
  {
    exists x :: LeakedIn(bs, c, x) > 0
  }

  lemma LeaksNode(t: Cell, c: Clause)
    ensures Leaks(t, c) <==>
            if c == [] then t.value.Some? && t.branches != [] else LeaksIn(t.branches, c)
  {
    if x :| Leaked(t, c, x) > 0 {
      assert c != [] ==> LeakedIn(t.branches, c, x) > 0;
    }
    if c == [] {
      if t.value.Some? && t.branches != [] {
        var x := t.branches[0].addr;
        assert Uses(t.branches[0], x) > 0;
        assert Leaked(t, c, x) > 0;
      }
    } else if x :| LeakedIn(t.branches, c, x) > 0 {
      assert Leaked(t, c, x) > 0;
    }
  }

  lemma LeaksBranch(bs: seq<Cell>, c: Clause)
    requires bs != [] && c != [] && WfIn(EraseIn(bs))
    ensures LeaksIn(bs, c) <==> if bs[0].key == Some(c[0]) then Leaks(bs[0], c[1..]) else LeaksIn(bs[1..], c)
  {
    if x :| LeakedIn(bs, c, x) > 0 {
      LeakedBelow(bs, c, x);
    }
    if bs[0].key == Some(c[0]) {
      if x :| Leaked(bs[0], c[1..], x) > 0 {
        LeakedBelow(bs, c, x);
        assert LeakedIn(bs, c, x) > 0;
      }
    } else if x :| LeakedIn(bs[1..], c, x) > 0 {
      LeakedBelow(bs, c, x);
      assert LeakedIn(bs, c, x) > 0;
    }
  }

  // Removal leaks memory exactly when it takes other clauses with it: the removed clause was stored
  // and so was a longer one below it.
  lemma {:induction false} LeaksIff(t: Cell, c: Clause)
    requires Wf(Erase(t)) && Tidy(Erase(t))
    ensures Leaks(t, c) <==> Get(Erase(t), c).Some? && HasBelow(Erase(t), c)
    decreases t, 1
  {
    LeaksNode(t, c);
    BelowNode(Erase(t), c);
    if c != [] {
      LeaksInIff(t.branches, c);
    } else if t.branches != [] {
      BelowSome(EraseIn(t.branches));
    }
  }

  lemma {:induction false} LeaksInIff(bs: seq<Cell>, c: Clause)
    requires c != [] && WfIn(EraseIn(bs)) && TidyIn(EraseIn(bs))
    ensures LeaksIn(bs, c) <==> GetIn(EraseIn(bs), c).Some? && HasBelowIn(EraseIn(bs), c)
    decreases bs, 0
  {
    if bs != [] {
      LeaksBranch(bs, c);
      BelowBranch(EraseIn(bs), c);
      if bs[0].key == Some(c[0]) {
        LeaksIff(bs[0], c[1..]);
      } else {
        LeaksInIff(bs[1..], c);
      }
    }
  }
}
