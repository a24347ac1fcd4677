/**
 Generational reference counts (db.c 36-97) and the life cycle of a pool slot (statementNew, statementDestroy,
 and their match counterparts), one slot shared by any number of clients.

 Steps are single atomic accesses.  A client is one use of the slot: a thread that acquires twice is
 two clients.  The packed word (rc, gen, alive) is compared and swapped as a whole.  rc and gen do not
 wrap around.
 */
module GenRc {

  datatype Word = Word(gen: int, rc: int, alive: bool)

  datatype Client =
    | Free
    // genRcAcquire with a ref of generation g
    | Acquire(g: int)
    | AcquireLoaded(g: int, word: Word)
    | Holding(g: int)
    // genRcRelease
    | Release(g: int)
    | ReleaseLoaded(g: int, word: Word)
    // genRcMarkAsDead, by a holder
    | Mark(g: int)
    | MarkLoaded(g: int, word: Word)
    // destroying as the last releaser; the last step stores the field that marks the slot as free
    | Destroying(g: int)
    // statementNew / matchNew: loaded a free word; saw the slot marked free; won it
    | NewLoaded(word: Word)
    | NewChecked(word: Word)
    | Creating(g: int)

  // full: the clause (or childStatements) field is not NULL.  issued: generations some ref names.
  // destroys and worker are history: the generations destroyed, in order, and the client that is
  // creating or destroying at the moment.
  datatype State = State(
    word: Word,
    full: bool,
    clients: seq<Client>,
    issued: set<int>,
    destroys: seq<int>,
    worker: int)

  const NOBODY := -1

  function Init(n: nat): State {
    State(Word(0, 0, false), false, seq(n, _ => Free), {}, [], NOBODY)
  }

  datatype Action =
    | StartAcquire(k: nat, g: int)
    | StartRelease(k: nat)
    | StartMark(k: nat)
    | StartNew(k: nat)
    | Go(k: nat)

  predicate Enabled(s: State, a: Action) {
    a.k < |s.clients| &&
    match a
    case StartAcquire(k, g) => s.clients[k].Free? && g in s.issued
    case StartRelease(k) => s.clients[k].Holding?
    case StartMark(k) => s.clients[k].Holding?
    case StartNew(k) => s.clients[k].Free?
    case Go(k) => !s.clients[k].Free? && !s.clients[k].Holding?
  }

  function Set(s: State, k: nat, c: Client): State
    requires k < |s.clients|
  {
    s.(clients := s.clients[k := c])
  }

  function GoNext(s: State, k: nat): State
    requires k < |s.clients|
  {
    match s.clients[k]
    case Free => s
    case Holding(g) => s
    case Acquire(g) => if s.word.gen != g then Set(s, k, Free) else Set(s, k, AcquireLoaded(g, s.word))
    case AcquireLoaded(g, w) =>
      if s.word == w then Set(s, k, Holding(g)).(word := w.(rc := w.rc + 1)) else Set(s, k, Acquire(g))
    case Release(g) => Set(s, k, ReleaseLoaded(g, s.word))
    case ReleaseLoaded(g, w) =>
      if s.word != w then Set(s, k, Release(g))
      else if !w.alive && w.rc - 1 == 0 then
        Set(s, k, Destroying(w.gen)).(word := Word(w.gen + 1, 0, false), destroys := s.destroys + [w.gen], worker := k)
      else Set(s, k, Free).(word := w.(rc := w.rc - 1))
    case Mark(g) => Set(s, k, MarkLoaded(g, s.word))
    case MarkLoaded(g, w) =>
      if s.word == w then Set(s, k, Holding(g)).(word := w.(alive := false)) else Set(s, k, Mark(g))
    case Destroying(g) => Set(s, k, Free).(full := false, worker := NOBODY)
    case NewLoaded(w) => if s.full then Set(s, k, Free) else Set(s, k, NewChecked(w))
    case NewChecked(w) =>
      if s.word == w then Set(s, k, Creating(w.gen)).(word := w.(alive := true), worker := k) else Set(s, k, Free)
    case Creating(g) => Set(s, k, Free).(full := true, issued := s.issued + {g}, worker := NOBODY)
  }

  function Next(s: State, a: Action): State
    requires Enabled(s, a)
  {
    match a
    case StartAcquire(k, g) => Set(s, k, Acquire(g))
    case StartRelease(k) => Set(s, k, Release(s.clients[k].g))
    case StartMark(k) => Set(s, k, Mark(s.clients[k].g))
    case StartNew(k) => if s.word.rc == 0 && !s.word.alive then Set(s, k, NewLoaded(s.word)) else s
    case Go(k) => GoNext(s, k)
  }

  // --- Invariant -----------------------------------------------------------------------------------------

  predicate Holds(c: Client) {
    c.Holding? || c.Release? || c.ReleaseLoaded? || c.Mark? || c.MarkLoaded?
  }

  function Holders(cs: seq<Client>): nat {
    if cs == [] then 0 else (if Holds(cs[0]) then 1 else 0) + Holders(cs[1..])
  }

  lemma {:induction false} HoldersUpdate(cs: seq<Client>, k: nat, c: Client)
    requires k < |cs|
    ensures Holders(cs[k := c]) == Holders(cs) - (if Holds(cs[k]) then 1 else 0) + (if Holds(c) then 1 else 0)
  {
    if k > 0 {
      HoldersUpdate(cs[1..], k - 1, c);
      assert cs[k := c][1..] == cs[1..][k - 1 := c];
    } else {
      assert cs[k := c][1..] == cs[1..];
    }
  }

  lemma {:induction false} HoldersSome(cs: seq<Client>, k: nat)
    requires k < |cs| && Holds(cs[k])
    ensures Holders(cs) >= 1
  {
    if k > 0 {
      HoldersSome(cs[1..], k - 1);
    }
  }

  // The five conditions a slot goes through, in this order, once per generation.
  predicate Vacant(s: State) {
    !s.word.alive && s.word.rc == 0 && !s.full && s.word.gen !in s.issued && s.worker == NOBODY
  }
  predicate BeingCreated(s: State) {
    s.word.alive && s.word.rc == 0 && !s.full && s.word.gen !in s.issued && s.worker != NOBODY
  }
  predicate Usable(s: State) {
    (s.word.alive || s.word.rc > 0) && s.full && s.word.gen in s.issued && s.worker == NOBODY
  }
  predicate BeingDestroyed(s: State) {
    !s.word.alive && s.word.rc == 0 && s.full && s.word.gen !in s.issued && s.worker != NOBODY
  }

  predicate ClientOk(s: State, k: nat)
    requires k < |s.clients|
  {
    var c := s.clients[k];
    && (Holds(c) ==> c.g == s.word.gen)
    && (c.Acquire? ==> c.g in s.issued)
    && (c.AcquireLoaded? ==> c.g in s.issued && c.word.gen == c.g)
    && (c.NewLoaded? || c.NewChecked? ==> !c.word.alive && c.word.rc == 0 && c.word.gen <= s.word.gen)
    && (c.NewChecked? && c.word.gen == s.word.gen ==> !BeingDestroyed(s))
    && (c.Creating? ==> s.worker == k && BeingCreated(s) && c.g == s.word.gen)
    && (c.Destroying? ==> s.worker == k && BeingDestroyed(s) && c.g == s.word.gen - 1)
  }

  ghost predicate Inv(s: State) {
    && (Vacant(s) || BeingCreated(s) || Usable(s) || BeingDestroyed(s))
    && s.word.gen >= 0
    && (forall g :: g in s.issued ==> g <= s.word.gen)
    && s.word.rc == Holders(s.clients)
    && |s.destroys| == s.word.gen && (forall i :: 0 <= i < |s.destroys| ==> s.destroys[i] == i)
    && (forall k :: 0 <= k < |s.clients| ==> ClientOk(s, k))
  }

  lemma {:induction false} NoHolders(n: nat)
    ensures Holders(seq(n, _ => Free)) == 0
  {
    if n > 0 {
      NoHolders(n - 1);
      assert seq(n, _ => Free)[1..] == seq(n - 1, _ => Free);
    }
  }

  lemma InitInv(n: nat)
    ensures Inv(Init(n))
  {
    NoHolders(n);
  }

  // Another holder keeps the count above what client k contributes.
  lemma HoldersOthers(cs: seq<Client>, k: nat, j: nat)
    requires k < |cs| && j < |cs| && j != k && Holds(cs[j])
    ensures Holders(cs) >= (if Holds(cs[k]) then 2 else 1)
  {
    HoldersUpdate(cs, k, Free);
    HoldersSome(cs[k := Free], j);
  }

  // A load, or a compare-and-swap that fails, changes only its own client.
  lemma QuietKeepsInv(s: State, k: nat, c: Client)
    requires Inv(s) && k < |s.clients| && Holds(c) == Holds(s.clients[k])
    requires ClientOk(Set(s, k, c), k)
    ensures Inv(Set(s, k, c))
  {
    HoldersUpdate(s.clients, k, c);
    forall j | 0 <= j < |s.clients| ensures ClientOk(Set(s, k, c), j) {
      assert ClientOk(s, j);
    }
  }

  lemma AcquireKeepsInv(s: State, k: nat)
    requires Inv(s) && k < |s.clients| && s.clients[k].AcquireLoaded? && s.clients[k].word == s.word
    ensures Inv(GoNext(s, k))
  {
    var s2 := GoNext(s, k);
    assert ClientOk(s, k);
    HoldersUpdate(s.clients, k, s2.clients[k]);
    forall j | 0 <= j < |s.clients| ensures ClientOk(s2, j) {
      assert ClientOk(s, j);
    }
  }

  lemma ReleaseKeepsInv(s: State, k: nat)
    requires Inv(s) && k < |s.clients| && s.clients[k].ReleaseLoaded? && s.clients[k].word == s.word
    ensures Inv(GoNext(s, k))
  {
    var s2 := GoNext(s, k);
    assert ClientOk(s, k);
    HoldersSome(s.clients, k);
    HoldersUpdate(s.clients, k, s2.clients[k]);
    forall j | 0 <= j < |s.clients| ensures ClientOk(s2, j) {
      assert ClientOk(s, j);
      if Holds(s.clients[j]) && j != k {
        HoldersOthers(s.clients, k, j);
      }
    }
  }

  lemma MarkKeepsInv(s: State, k: nat)
    requires Inv(s) && k < |s.clients| && s.clients[k].MarkLoaded? && s.clients[k].word == s.word
    ensures Inv(GoNext(s, k))
  {
    var s2 := GoNext(s, k);
    assert ClientOk(s, k);
    HoldersSome(s.clients, k);
    HoldersUpdate(s.clients, k, s2.clients[k]);
    forall j | 0 <= j < |s.clients| ensures ClientOk(s2, j) {
      assert ClientOk(s, j);
    }
  }

  lemma WorkKeepsInv(s: State, k: nat)
    requires Inv(s) && k < |s.clients|
    requires s.clients[k].Destroying? || s.clients[k].Creating? || (s.clients[k].NewChecked? && s.clients[k].word == s.word)
    ensures Inv(GoNext(s, k))
  {
    var s2 := GoNext(s, k);
    assert ClientOk(s, k);
    HoldersUpdate(s.clients, k, s2.clients[k]);
    forall j | 0 <= j < |s.clients| ensures ClientOk(s2, j) {
      assert ClientOk(s, j);
      if Holds(s.clients[j]) { HoldersSome(s.clients, j); }
    }
  }

  lemma GoKeepsInv(s: State, k: nat)
    requires Inv(s) && k < |s.clients|
    ensures Inv(GoNext(s, k))
  {
    var c := s.clients[k];
    assert ClientOk(s, k);
    if c.AcquireLoaded? && c.word == s.word { AcquireKeepsInv(s, k); }
    else if c.ReleaseLoaded? && c.word == s.word { ReleaseKeepsInv(s, k); }
    else if c.MarkLoaded? && c.word == s.word { MarkKeepsInv(s, k); }
    else if c.Destroying? || c.Creating? || (c.NewChecked? && c.word == s.word) { WorkKeepsInv(s, k); }
    else { StillKeepsInv(s, k); }
  }

  // All other steps change only the client.
  lemma StillKeepsInv(s: State, k: nat)
    requires Inv(s) && k < |s.clients|
    requires var c := s.clients[k];
             && !((c.AcquireLoaded? || c.ReleaseLoaded? || c.MarkLoaded?) && c.word == s.word)
             && !(c.Destroying? || c.Creating? || (c.NewChecked? && c.word == s.word))
    ensures Inv(GoNext(s, k))
  {
    assert ClientOk(s, k);
    QuietKeepsInv(s, k, GoNext(s, k).clients[k]);
  }

  lemma StepKeepsInv(s: State, a: Action)
    requires Inv(s) && Enabled(s, a)
    ensures Inv(Next(s, a))
  {
    if a.Go? {
      GoKeepsInv(s, a.k);
    } else {
      var s2 := Next(s, a);
      HoldersUpdate(s.clients, a.k, s2.clients[a.k]);
      assert s2.clients == s.clients[a.k := s2.clients[a.k]];
      forall j | 0 <= j < |s.clients| ensures ClientOk(s2, j) {
        assert ClientOk(s, j);
      }
    }
  }

  // --- Over whole runs -------------------------------------------------------------------------------------

  ghost predicate Leads(s: State, acts: seq<Action>, s2: State)
    decreases |acts|
  {
    if acts == [] then s2 == s else Enabled(s, acts[0]) && Leads(Next(s, acts[0]), acts[1..], s2)
  }

  lemma {:induction false} RunKeepsInv(s: State, acts: seq<Action>, s2: State)
    requires Inv(s) && Leads(s, acts, s2)
    ensures Inv(s2)
    decreases |acts|
  {
    if acts != [] {
      StepKeepsInv(s, acts[0]);
      RunKeepsInv(Next(s, acts[0]), acts[1..], s2);
    }
  }

  // From a successful acquire until its release, in every interleaving: the generation is the one of
  // the ref, the object is there, and nobody is creating or destroying in the slot.
  lemma HolderIsSafe(n: nat, acts: seq<Action>, s: State, k: nat)
    requires Leads(Init(n), acts, s) && k < |s.clients| && Holds(s.clients[k])
    ensures s.word.gen == s.clients[k].g && s.full && s.word.rc >= 1 && s.worker == NOBODY
    ensures forall j :: 0 <= j < |s.clients| ==> !s.clients[j].Creating? && !s.clients[j].Destroying?
  {
    InitInv(n);
    RunKeepsInv(Init(n), acts, s);
    assert ClientOk(s, k);
    HoldersSome(s.clients, k);
    forall j | 0 <= j < |s.clients| ensures !s.clients[j].Creating? && !s.clients[j].Destroying? {
      assert ClientOk(s, j);
    }
  }

  // Each generation that has ended was destroyed exactly once, in order.
  lemma DestroyedOnce(n: nat, acts: seq<Action>, s: State)
    requires Leads(Init(n), acts, s)
    ensures |s.destroys| == s.word.gen && forall i :: 0 <= i < |s.destroys| ==> s.destroys[i] == i
  {
    InitInv(n);
    RunKeepsInv(Init(n), acts, s);
  }

  // A slot is claimed for a new object only when nobody holds it and its last object has been
  // destroyed completely.
  lemma ReclaimedOnlyWhenVacant(n: nat, acts: seq<Action>, s: State, k: nat)
    requires Leads(Init(n), acts, s) && k < |s.clients|
    requires s.clients[k].NewChecked? && GoNext(s, k).clients[k].Creating?
    ensures Vacant(s)
    ensures forall j :: 0 <= j < |s.clients| ==>
              !Holds(s.clients[j]) && !s.clients[j].Destroying? && !s.clients[j].Creating?
  {
    InitInv(n);
    RunKeepsInv(Init(n), acts, s);
    assert ClientOk(s, k);
    forall j | 0 <= j < |s.clients|
      ensures !Holds(s.clients[j]) && !s.clients[j].Destroying? && !s.clients[j].Creating?
    {
      assert ClientOk(s, j);
      if Holds(s.clients[j]) { HoldersSome(s.clients, j); }
    }
  }

  // A ref whose generation is over never acquires again, whatever happens in between.
  lemma {:induction false} StaleNeverAcquires(s: State, acts: seq<Action>, s2: State, g: int, k: nat)
    requires Inv(s) && g < s.word.gen && Leads(s, acts, s2) && k < |s2.clients|
    ensures g < s2.word.gen && !(Holds(s2.clients[k]) && s2.clients[k].g == g)
    decreases |acts|
  {
    if acts == [] {
      assert ClientOk(s, k);
    } else {
      StepKeepsInv(s, acts[0]);
      GenGrows(s, acts[0]);
      StaleNeverAcquires(Next(s, acts[0]), acts[1..], s2, g, k);
    }
  }

  lemma GenGrows(s: State, a: Action)
    requires Inv(s) && Enabled(s, a)
    ensures Next(s, a).word.gen >= s.word.gen
  {
    assert ClientOk(s, a.k);
  }

  // --- What undisturbed clients come to -------------------------------------------------------------------

  // A ref can be acquired exactly if its generation is the slot's, whether or not the slot is marked.
  lemma AcquireAlone(s: State, k: nat, g: int)
    requires k < |s.clients| && s.clients[k].Free? && g in s.issued
    ensures var s1 := Next(s, StartAcquire(k, g));
            && Enabled(s1, Go(k)) && var s2 := Next(s1, Go(k));
            if g != s.word.gen then s2.clients[k] == Free && s2.word == s.word
            else && Enabled(s2, Go(k)) && var s3 := Next(s2, Go(k));
                 s3.clients[k] == Holding(g) && s3.word == s.word.(rc := s.word.rc + 1)
  {
  }

  // A holder that marks the slot leaves it dead, and holds on.
  lemma MarkAlone(s: State, k: nat)
    requires k < |s.clients| && s.clients[k].Holding?
    ensures var s1 := Next(s, StartMark(k));
            && Enabled(s1, Go(k)) && var s2 := Next(s1, Go(k));
            && Enabled(s2, Go(k)) && var s3 := Next(s2, Go(k));
            s3.clients[k] == s.clients[k] && s3.word == s.word.(alive := false)
  {
  }

  // A holder that releases the slot gives its count back, and exactly if it was the last one of a marked slot
  // goes on to destroy it: the generation ends, and the slot is free for the next.
  lemma ReleaseAlone(s: State, k: nat)
    requires Inv(s) && k < |s.clients| && s.clients[k].Holding?
    ensures var s1 := Next(s, StartRelease(k));
            && Enabled(s1, Go(k)) && var s2 := Next(s1, Go(k));
            && Enabled(s2, Go(k)) && var s3 := Next(s2, Go(k));
            if !s.word.alive && s.word.rc == 1
            then && s3.destroys == s.destroys + [s.word.gen] && Enabled(s3, Go(k))
                 && var s4 := Next(s3, Go(k));
                    s4.clients[k] == Free && Vacant(s4) && s4.word.gen == s.word.gen + 1
            else s3.clients[k] == Free && s3.word == s.word.(rc := s.word.rc - 1) && s3.destroys == s.destroys
  {
    assert ClientOk(s, k);
    HoldersSome(s.clients, k);
    assert s.word.gen + 1 !in s.issued;
  }

  // A client that wants a vacant slot gets it, and its ref is the slot's generation.
  lemma CreateAlone(s: State, k: nat)
    requires Inv(s) && Vacant(s) && k < |s.clients| && s.clients[k].Free?
    ensures var s1 := Next(s, StartNew(k));
            && Enabled(s1, Go(k)) && var s2 := Next(s1, Go(k));
            && Enabled(s2, Go(k)) && var s3 := Next(s2, Go(k));
            && Enabled(s3, Go(k)) && var s4 := Next(s3, Go(k));
            s4.clients[k] == Free && Usable(s4) && s4.word.alive && s4.word.gen == s.word.gen && s.word.gen in s4.issued
  {
  }

  // In every run the slot is vacant, being created, usable, or being destroyed, and its count is its holders';
  // so the four lemmas above apply wherever a run has come to.
  lemma AlwaysOne(n: nat, acts: seq<Action>, s: State)
    requires Leads(Init(n), acts, s)
    ensures Inv(s) && (Vacant(s) || BeingCreated(s) || Usable(s) || BeingDestroyed(s)) && s.word.rc == Holders(s.clients)
  {
    InitInv(n);
    RunKeepsInv(Init(n), acts, s);
  }
}
