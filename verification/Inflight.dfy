/**
 In-flight accounting of Atomically versions: statementNew, dbFreshAtomicallyVersionOnKey and the
 dbInflight functions of db.c, used by Say, pushRunWhenBlock and runWhenBlock of folk.c.

 Any number of workers; each step is one change of a counter, one acquire, or one queue operation.
 The queues of all workers are one collection of items.  A ref that cannot be acquired once can never
 be acquired again (GenRc.StaleNeverAcquires).
 */
module Inflight {
  import opened Wrappers

  type Version = nat
  type StatementId = nat

  // A statement's version never changes; live: its ref can still be acquired.
  datatype Statement = Statement(version: Option<Version>, live: bool)

  // A RUN_WHEN item; stmt is the null ref for an empty pattern.  whenToken and stmtToken are history:
  // the versions that were incremented for the two endpoints when the item was made.
  datatype Item = Item(whenRef: StatementId, stmtRef: Option<StatementId>, whenToken: Option<Version>, stmtToken: Option<Version>)

  // What a worker is doing inside Say.
  datatype Act =
    | Quiet
    // statementNew has returned x
    | Created(x: StatementId, token: Option<Version>)
    // x is in the database: inside reactToNewStatement
    | Reacting(x: StatementId, token: Option<Version>)
    // inside pushRunWhenBlock: acquiring, acquired one, acquired both, counted one, counted both
    | Acquire(x: StatementId, token: Option<Version>, item: Item)
    | AcquiredWhen(x: StatementId, token: Option<Version>, item: Item, gotWhen: bool)
    | AcquiredBoth(x: StatementId, token: Option<Version>, item: Item, gotWhen: bool, gotStmt: bool)
    | CountedWhen(x: StatementId, token: Option<Version>, item: Item, gotWhen: bool, gotStmt: bool)
    | CountedBoth(x: StatementId, token: Option<Version>, item: Item)

  // What a worker is doing inside runWhenBlock.
  datatype Block =
    | NoBlock
    | Taken(item: Item)
    | GotWhen(item: Item)
    | GotBoth(item: Item)
    // currentAtomicallyVersion is set and the match inserted, or not
    | Chosen(item: Item, current: Option<Version>, matched: bool)
    // incremented for the block; decremented for the when; decremented for the statement
    | Counted(item: Item, current: Option<Version>, matched: bool)
    | LeftWhen(item: Item, current: Option<Version>, matched: bool)
    // the block runs, or has no match; the item it came from is history by now, as is whether it has set a
    // version of its own
    | Running(item: Item, current: Option<Version>, own: bool)
    | Unmatched(item: Item, current: Option<Version>)

  datatype Worker = Worker(act: Act, block: Block)

  // count: inflightCount by version.  leaked is history: increments that will never be undone.
  datatype State = State(
    count: seq<int>,
    leaked: seq<nat>,
    stmts: seq<Statement>,
    queue: seq<Item>,
    workers: seq<Worker>)

  function Init(n: nat): State {
    State([], [], [], [], seq(n, _ => Worker(Quiet, NoBlock)))
  }

  datatype Action =
    // a statement is removed
    | Kill(x: StatementId)
    // statementNew under any version; then the clause turns out to be new, or known
    | SayNew(t: nat, version: Option<Version>)
    | SayInsert(t: nat)
    | SayReuse(t: nat)
    // reactToNewStatement found a pair; or has finished, and Say decrements
    | React(t: nat, whenRef: StatementId, stmtRef: Option<StatementId>)
    | SayDone(t: nat)
    // the next step of pushRunWhenBlock
    | PushGo(t: nat)
    | Take(t: nat, i: nat)
    // the next step of runWhenBlock; matched: dbInsertMatch succeeded
    | BlockGo(t: nat, matched: bool)
    // the block sets a fresh version on a key
    | FreshVersion(t: nat)

  predicate IsRef(s: State, x: StatementId) {
    x < |s.stmts|
  }

  predicate Enabled(s: State, a: Action) {
    if a.Kill? then IsRef(s, a.x) else a.t < |s.workers| && WorkerMay(s, s.workers[a.t], a)
  }

  predicate WorkerMay(s: State, w: Worker, a: Action) {
    match a
    case Kill(_) => false
    case SayNew(_, v) => w.act.Quiet? && (w.block.NoBlock? || w.block.Running?) && Known(s, v)
    case SayInsert(_) => w.act.Created?
    case SayReuse(_) => w.act.Created?
    case React(_, whenRef, stmtRef) => w.act.Reacting? && IsRef(s, whenRef) && (stmtRef.Some? ==> IsRef(s, stmtRef.value))
    case SayDone(_) => w.act.Reacting?
    case PushGo(_) => !w.act.Quiet? && !w.act.Created? && !w.act.Reacting?
    case Take(_, i) => w.act.Quiet? && w.block.NoBlock? && i < |s.queue|
    case BlockGo(_, _) => w.act.Quiet? && !w.block.NoBlock?
    case FreshVersion(_) => w.act.Quiet? && w.block.Running?
  }

  predicate Known(s: State, token: Option<Version>) {
    token.Some? ==> token.value < |s.count|
  }

  // The counters after adding n to that of v, if there is one.
  function Bump(count: seq<int>, v: Option<Version>, n: int): seq<int> {
    if v.Some? && v.value < |count| then count[v.value := count[v.value] + n] else count
  }

  function Leak(leaked: seq<nat>, v: Option<Version>): seq<nat> {
    if v.Some? && v.value < |leaked| then leaked[v.value := leaked[v.value] + 1] else leaked
  }

  function SetAct(s: State, t: nat, act: Act): State
    requires t < |s.workers|
  {
    s.(workers := s.workers[t := s.workers[t].(act := act)])
  }

  function SetBlock(s: State, t: nat, block: Block): State
    requires t < |s.workers|
  {
    s.(workers := s.workers[t := s.workers[t].(block := block)])
  }

  function VersionOf(s: State, x: Option<StatementId>): Option<Version> {
    if x.Some? && IsRef(s, x.value) then s.stmts[x.value].version else None
  }

  predicate Live(s: State, x: Option<StatementId>) {
    x.Some? && IsRef(s, x.value) && s.stmts[x.value].live
  }

  function Next(s: State, a: Action): State
    requires Enabled(s, a)
  {
    match a
    case Kill(x) => s.(stmts := s.stmts[x := s.stmts[x].(live := false)])
    case SayNew(t, v) =>
      SetAct(s, t, Created(|s.stmts|, v)).(
        stmts := s.stmts + [Statement(v, true)],
        count := Bump(s.count, v, 1))
    case SayInsert(t) => SetAct(s, t, Reacting(s.workers[t].act.x, s.workers[t].act.token))
    case SayReuse(t) => SetAct(s, t, Quiet).(leaked := Leak(s.leaked, s.workers[t].act.token))
    case React(t, whenRef, stmtRef) =>
      var act := s.workers[t].act;
      SetAct(s, t, Acquire(act.x, act.token, Item(whenRef, stmtRef, None, None)))
    case SayDone(t) =>
      SetAct(s, t, Quiet).(count := Bump(s.count, VersionOf(s, Some(s.workers[t].act.x)), -1))
    case PushGo(t) => PushNext(s, t)
    case Take(t, i) =>
      SetBlock(s, t, Taken(s.queue[i])).(queue := s.queue[..i] + s.queue[i + 1..])
    case BlockGo(t, matched) => BlockNext(s, t, matched)
    case FreshVersion(t) =>
      SetBlock(s, t, Running(s.workers[t].block.item, Some(|s.count|), true)).(
        count := s.count + [1],
        leaked := Leak(s.leaked, s.workers[t].block.current) + [0])
  }

  // pushRunWhenBlock acquires both endpoints, increments for each it got, and pushes the item.
  function PushNext(s: State, t: nat): State
    requires t < |s.workers|
  {
    match s.workers[t].act
    case Acquire(x, token, item) => SetAct(s, t, AcquiredWhen(x, token, item, Live(s, Some(item.whenRef))))
    case AcquiredWhen(x, token, item, gotWhen) =>
      SetAct(s, t, AcquiredBoth(x, token, item, gotWhen, Live(s, item.stmtRef)))
    case AcquiredBoth(x, token, item, gotWhen, gotStmt) =>
      var v := if gotWhen then VersionOf(s, Some(item.whenRef)) else None;
      SetAct(s, t, CountedWhen(x, token, item.(whenToken := v), gotWhen, gotStmt)).(count := Bump(s.count, v, 1))
    case CountedWhen(x, token, item, gotWhen, gotStmt) =>
      var v := if gotStmt then VersionOf(s, item.stmtRef) else None;
      SetAct(s, t, CountedBoth(x, token, item.(stmtToken := v))).(count := Bump(s.count, v, 1))
    case CountedBoth(x, token, item) => SetAct(s, t, Reacting(x, token)).(queue := s.queue + [item])
    case _ => s
  }

  // The version a block runs under: that of the statement, or else that of the When.
  function BlockVersion(s: State, item: Item): Option<Version> {
    if VersionOf(s, item.stmtRef).Some? then VersionOf(s, item.stmtRef) else VersionOf(s, Some(item.whenRef))
  }

  function BlockNext(s: State, t: nat, matched: bool): State
    requires t < |s.workers|
  {
    match s.workers[t].block
    case NoBlock => s
    case Taken(item) =>
      if Live(s, Some(item.whenRef)) then SetBlock(s, t, GotWhen(item)) else Dropped(s, t, item)
    case GotWhen(item) =>
      if item.stmtRef.None? || Live(s, item.stmtRef) then SetBlock(s, t, GotBoth(item)) else Dropped(s, t, item)
    case GotBoth(item) => SetBlock(s, t, Chosen(item, BlockVersion(s, item), matched))
    case Chosen(item, current, m) => SetBlock(s, t, Counted(item, current, m)).(count := Bump(s.count, current, 1))
    case Counted(item, current, m) =>
      SetBlock(s, t, LeftWhen(item, current, m)).(count := Bump(s.count, VersionOf(s, Some(item.whenRef)), -1))
    case LeftWhen(item, current, m) =>
      SetBlock(s, t, if m then Running(item, current, false) else Unmatched(item, current)).(
        count := Bump(s.count, VersionOf(s, item.stmtRef), -1))
    case Running(_, current, _) => SetBlock(s, t, NoBlock).(count := Bump(s.count, current, -1))
    case Unmatched(_, current) => SetBlock(s, t, NoBlock).(count := Bump(s.count, current, -1))
  }

  // The early return of runWhenBlock: the item is gone, what it counted stays counted.
  function Dropped(s: State, t: nat, item: Item): State
    requires t < |s.workers|
  {
    SetBlock(s, t, NoBlock).(leaked := Leak(Leak(s.leaked, item.whenToken), item.stmtToken))
  }

  ghost predicate Leads(s: State, acts: seq<Action>, s2: State)
    decreases |acts|
  {
    if acts == [] then s == s2 else Enabled(s, acts[0]) && Leads(Next(s, acts[0]), acts[1..], s2)
  }

  // ----- outstanding tokens -------------------------------------------------------

  function One(token: Option<Version>, v: Version): nat {
    if token == Some(v) then 1 else 0
  }

  // One for each endpoint of the item that was counted.
  function ItemTokens(item: Item, v: Version): nat {
    One(item.whenToken, v) + One(item.stmtToken, v)
  }

  // One for the statement being reacted to, and those of the item being made.
  function ActTokens(act: Act, v: Version): nat {
    match act
    case Quiet => 0
    case Created(_, token) => One(token, v)
    case Reacting(_, token) => One(token, v)
    case Acquire(_, token, item) => One(token, v) + ItemTokens(item, v)
    case AcquiredWhen(_, token, item, _) => One(token, v) + ItemTokens(item, v)
    case AcquiredBoth(_, token, item, _, _) => One(token, v) + ItemTokens(item, v)
    case CountedWhen(_, token, item, _, _) => One(token, v) + ItemTokens(item, v)
    case CountedBoth(_, token, item) => One(token, v) + ItemTokens(item, v)
  }

  // One for a running block, and those of the item it came from until they are given back.
  function BlockTokens(block: Block, v: Version): nat {
    match block
    case NoBlock => 0
    case Taken(item) => ItemTokens(item, v)
    case GotWhen(item) => ItemTokens(item, v)
    case GotBoth(item) => ItemTokens(item, v)
    case Chosen(item, _, _) => ItemTokens(item, v)
    case Counted(item, current, _) => One(current, v) + ItemTokens(item, v)
    case LeftWhen(item, current, _) => One(current, v) + One(item.stmtToken, v)
    case Running(_, current, _) => One(current, v)
    case Unmatched(_, current) => One(current, v)
  }

  function WorkerTokens(w: Worker, v: Version): nat {
    ActTokens(w.act, v) + BlockTokens(w.block, v)
  }

  function Working(ws: seq<Worker>, v: Version): nat {
    if ws == [] then 0 else WorkerTokens(ws[0], v) + Working(ws[1..], v)
  }

  function Queued(q: seq<Item>, v: Version): nat {
    if q == [] then 0 else ItemTokens(q[0], v) + Queued(q[1..], v)
  }

  // All tokens of version v: statements being reacted to, endpoints of items, running blocks.
  function Tokens(s: State, v: Version): nat {
    Working(s.workers, v) + Queued(s.queue, v)
  }

  lemma {:induction false} WorkingUpdate(ws: seq<Worker>, t: nat, w: Worker, v: Version)
    requires t < |ws|
    ensures Working(ws[t := w], v) + WorkerTokens(ws[t], v) == Working(ws, v) + WorkerTokens(w, v)
  {
    if t == 0 {
      assert ws[0 := w][1..] == ws[1..];
    } else {
      assert ws[t := w][1..] == ws[1..][t - 1 := w];
      WorkingUpdate(ws[1..], t - 1, w, v);
    }
  }

  lemma {:induction false} WorkingAtLeast(ws: seq<Worker>, t: nat, v: Version)
    requires t < |ws|
    ensures Working(ws, v) >= WorkerTokens(ws[t], v)
  {
    if t > 0 {
      WorkingAtLeast(ws[1..], t - 1, v);
    }
  }

  lemma {:induction false} QueuedConcat(a: seq<Item>, b: seq<Item>, v: Version)
    ensures Queued(a + b, v) == Queued(a, v) + Queued(b, v)
  {
    if a == [] {
      assert a + b == b;
    } else {
      assert (a + b)[1..] == a[1..] + b;
      QueuedConcat(a[1..], b, v);
    }
  }

  lemma QueuedWithout(q: seq<Item>, i: nat, v: Version)
    requires i < |q|
    ensures Queued(q, v) == Queued(q[..i] + q[i + 1..], v) + ItemTokens(q[i], v)
  {
    QueuedConcat(q[..i], q[i + 1..], v);
    QueuedConcat(q[..i], q[i..], v);
    assert q == q[..i] + q[i..];
    assert q[i..][1..] == q[i + 1..];
  }

  lemma {:induction false} NoTokens(n: nat, v: Version)
    ensures Working(seq(n, _ => Worker(Quiet, NoBlock)), v) == 0
  {
    if n > 0 {
      assert seq(n, _ => Worker(Quiet, NoBlock))[1..] == seq(n - 1, _ => Worker(Quiet, NoBlock));
      NoTokens(n - 1, v);
    }
  }

  // ----- the invariant ------------------------------------------------------------

  // Every counter is what is outstanding plus what was leaked.
  ghost predicate Balanced(s: State) {
    |s.leaked| == |s.count| &&
    forall v: nat :: v < |s.count| ==> s.count[v] == s.leaked[v] + Tokens(s, v)
  }

  // The endpoint's token is its version, or its ref had died before it could be counted.
  predicate EndpointOk(s: State, x: Option<StatementId>, token: Option<Version>) {
    (x.Some? ==> IsRef(s, x.value)) && (token == VersionOf(s, x) || (token == None && !Live(s, x)))
  }

  predicate ItemOk(s: State, item: Item) {
    EndpointOk(s, Some(item.whenRef), item.whenToken) && EndpointOk(s, item.stmtRef, item.stmtToken)
  }

  predicate WhenCounted(s: State, item: Item) {
    item.whenToken == VersionOf(s, Some(item.whenRef))
  }

  predicate StmtCounted(s: State, item: Item) {
    item.stmtToken == VersionOf(s, item.stmtRef)
  }

  // An item in the making has no tokens yet.
  predicate BareItem(s: State, item: Item) {
    IsRef(s, item.whenRef) && (item.stmtRef.Some? ==> IsRef(s, item.stmtRef.value))
    && item.stmtToken == None
  }

  predicate SayOk(s: State, x: StatementId, token: Option<Version>) {
    IsRef(s, x) && token == VersionOf(s, Some(x))
  }

  predicate ActOk(s: State, act: Act) {
    match act
    case Quiet => true
    case Created(x, token) => SayOk(s, x, token)
    case Reacting(x, token) => SayOk(s, x, token)
    case Acquire(x, token, item) => SayOk(s, x, token) && BareItem(s, item) && item.whenToken == None
    case AcquiredWhen(x, token, item, gotWhen) =>
      SayOk(s, x, token) && BareItem(s, item) && item.whenToken == None && (gotWhen || !Live(s, Some(item.whenRef)))
    case AcquiredBoth(x, token, item, gotWhen, gotStmt) =>
      SayOk(s, x, token) && BareItem(s, item) && item.whenToken == None && (gotWhen || !Live(s, Some(item.whenRef)))
      && (gotStmt || !Live(s, item.stmtRef))
    case CountedWhen(x, token, item, gotWhen, gotStmt) =>
      SayOk(s, x, token) && BareItem(s, item) && EndpointOk(s, Some(item.whenRef), item.whenToken)
      && (gotStmt || !Live(s, item.stmtRef))
    case CountedBoth(x, token, item) => SayOk(s, x, token) && ItemOk(s, item)
  }

  predicate BlockOk(s: State, block: Block) {
    match block
    case NoBlock => true
    case Taken(item) => ItemOk(s, item)
    case GotWhen(item) => ItemOk(s, item) && WhenCounted(s, item)
    case GotBoth(item) => ItemOk(s, item) && WhenCounted(s, item) && StmtCounted(s, item)
    case Chosen(item, current, _) =>
      ItemOk(s, item) && WhenCounted(s, item) && StmtCounted(s, item) && current == BlockVersion(s, item)
    case Counted(item, current, _) =>
      ItemOk(s, item) && WhenCounted(s, item) && StmtCounted(s, item) && current == BlockVersion(s, item)
    case LeftWhen(item, current, _) => ItemOk(s, item) && StmtCounted(s, item) && current == BlockVersion(s, item)
    case Running(item, current, own) => Known(s, current) && ItemOk(s, item) && (own || current == BlockVersion(s, item))
    case Unmatched(item, current) => ItemOk(s, item) && current == BlockVersion(s, item)
  }

  predicate WorkerOk(s: State, w: Worker) {
    ActOk(s, w.act) && BlockOk(s, w.block)
  }

  ghost predicate PartsOk(s: State) {
    && (forall x :: 0 <= x < |s.stmts| ==> Known(s, s.stmts[x].version))
    && (forall i :: 0 <= i < |s.queue| ==> ItemOk(s, s.queue[i]))
    && (forall t :: 0 <= t < |s.workers| ==> WorkerOk(s, s.workers[t]))
  }

  ghost predicate Inv(s: State) {
    Balanced(s) && PartsOk(s)
  }

  // ----- steps keep it ------------------------------------------------------------

  // Statements may be added and may die, and versions may be added; nothing else about them changes.
  ghost predicate Extends(s: State, s2: State) {
    && |s.count| <= |s2.count| && |s.stmts| <= |s2.stmts|
    && (forall x :: 0 <= x < |s.stmts| ==>
          s2.stmts[x].version == s.stmts[x].version && (s2.stmts[x].live ==> s.stmts[x].live))
  }

  lemma ItemStays(s: State, s2: State, item: Item)
    requires Extends(s, s2) && ItemOk(s, item)
    ensures ItemOk(s2, item)
    ensures WhenCounted(s, item) ==> WhenCounted(s2, item)
    ensures StmtCounted(s, item) ==> StmtCounted(s2, item)
  {
  }

  lemma ActStays(s: State, s2: State, act: Act)
    requires Extends(s, s2) && ActOk(s, act)
    ensures ActOk(s2, act)
  {
  }

  lemma BlockStays(s: State, s2: State, block: Block)
    requires Extends(s, s2) && BlockOk(s, block)
    ensures BlockOk(s2, block)
  {
    if !block.NoBlock? {
      ItemStays(s, s2, block.item);
    }
  }

  // A step that replaces worker t and leaves the queue.
  lemma PartsStay(s: State, s2: State, t: nat, w: Worker)
    requires PartsOk(s) && Extends(s, s2) && s2.queue == s.queue && t < |s.workers|
    requires s2.workers == s.workers[t := w] && WorkerOk(s2, w)
    requires forall x :: 0 <= x < |s2.stmts| ==> Known(s2, s2.stmts[x].version)
    ensures PartsOk(s2)
  {
    forall i | 0 <= i < |s2.queue| ensures ItemOk(s2, s2.queue[i]) {
      ItemStays(s, s2, s.queue[i]);
    }
    forall u | 0 <= u < |s2.workers| ensures WorkerOk(s2, s2.workers[u]) {
      if u != t {
        ActStays(s, s2, s.workers[u].act);
        BlockStays(s, s2, s.workers[u].block);
      }
    }
  }

  // The counter of v after one Bump.
  lemma Bumped(count: seq<int>, token: Option<Version>, n: int, v: nat)
    requires v < |count|
    ensures |Bump(count, token, n)| == |count| && Bump(count, token, n)[v] == count[v] + (if token == Some(v) then n else 0)
  {
  }

  // What worker t gains or loses in tokens is what the counters, less the leaks, gain or lose.
  ghost predicate Even(s: State, s2: State, t: nat)
    requires t < |s.workers| && t < |s2.workers|
  {
    && |s2.leaked| == |s2.count| == |s.count| == |s.leaked|
    && forall v: nat :: v < |s.count| ==>
         s2.count[v] - s2.leaked[v] - WorkerTokens(s2.workers[t], v)
         == s.count[v] - s.leaked[v] - WorkerTokens(s.workers[t], v)
  }

  lemma BalanceStays(s: State, s2: State, t: nat)
    requires Balanced(s) && t < |s.workers| == |s2.workers| && s2.queue == s.queue
    requires s2.workers == s.workers[t := s2.workers[t]] && Even(s, s2, t)
    ensures Balanced(s2)
  {
    forall v: nat | v < |s2.count| ensures s2.count[v] == s2.leaked[v] + Tokens(s2, v) {
      WorkingUpdate(s.workers, t, s2.workers[t], v);
    }
  }

  // A step of worker t that leaves the queue, the statements and the set of versions.
  lemma StepStays(s: State, s2: State, t: nat)
    requires Inv(s) && t < |s.workers| == |s2.workers| && s2.queue == s.queue && s2.stmts == s.stmts
    requires s2.workers == s.workers[t := s2.workers[t]] && Even(s, s2, t) && WorkerOk(s2, s2.workers[t])
    ensures Inv(s2)
  {
    BalanceStays(s, s2, t);
    PartsStay(s, s2, t, s2.workers[t]);
  }

  lemma KillKeepsInv(s: State, x: StatementId)
    requires Inv(s) && IsRef(s, x)
    ensures Inv(Next(s, Kill(x)))
  {
    var s2 := Next(s, Kill(x));
    assert Extends(s, s2);
    forall i | 0 <= i < |s2.queue| ensures ItemOk(s2, s2.queue[i]) {
      ItemStays(s, s2, s.queue[i]);
    }
    forall u | 0 <= u < |s2.workers| ensures WorkerOk(s2, s2.workers[u]) {
      ActStays(s, s2, s.workers[u].act);
      BlockStays(s, s2, s.workers[u].block);
    }
    assert forall v: nat :: Tokens(s2, v) == Tokens(s, v);
  }

  lemma SayNewKeepsInv(s: State, t: nat, v: Option<Version>)
    requires Inv(s) && Enabled(s, SayNew(t, v))
    ensures Inv(Next(s, SayNew(t, v)))
  {
    var s2 := Next(s, SayNew(t, v));
    var w := s2.workers[t];
    BlockStays(s, s2, s.workers[t].block);
    PartsStay(s, s2, t, w);
    BalanceStays(s, s2, t);
  }

  lemma FreshVersionKeepsInv(s: State, t: nat)
    requires Inv(s) && Enabled(s, FreshVersion(t))
    ensures Inv(Next(s, FreshVersion(t)))
  {
    var s2 := Next(s, FreshVersion(t));
    var w := s2.workers[t];
    PartsStay(s, s2, t, w);
    forall v: nat | v < |s2.count| ensures s2.count[v] == s2.leaked[v] + Tokens(s2, v) {
      WorkingUpdate(s.workers, t, w, v);
      if v == |s.count| {
        UnknownUnused(s, v);
      }
    }
  }

  // No token names a version that does not exist yet.
  lemma UnknownUnused(s: State, v: nat)
    requires PartsOk(s) && v >= |s.count|
    ensures Tokens(s, v) == 0
  {
    UnusedByWorkers(s, s.workers, v);
    UnusedInQueue(s, s.queue, v);
  }

  lemma {:induction false} UnusedByWorkers(s: State, ws: seq<Worker>, v: nat)
    requires v >= |s.count| && (forall x :: 0 <= x < |s.stmts| ==> Known(s, s.stmts[x].version))
    requires forall t :: 0 <= t < |ws| ==> WorkerOk(s, ws[t])
    ensures Working(ws, v) == 0
  {
    if ws != [] {
      assert WorkerOk(s, ws[0]);
      assert ActTokens(ws[0].act, v) == 0;
      assert BlockTokens(ws[0].block, v) == 0;
      UnusedByWorkers(s, ws[1..], v);
    }
  }

  lemma {:induction false} UnusedInQueue(s: State, q: seq<Item>, v: nat)
    requires v >= |s.count| && (forall x :: 0 <= x < |s.stmts| ==> Known(s, s.stmts[x].version))
    requires forall i :: 0 <= i < |q| ==> ItemOk(s, q[i])
    ensures Queued(q, v) == 0
  {
    if q != [] {
      assert ItemOk(s, q[0]);
      UnusedInQueue(s, q[1..], v);
    }
  }

  // The tokens of the item move from the queue to the worker.
  lemma TakeKeepsTokens(s: State, t: nat, i: nat, v: nat)
    requires Enabled(s, Take(t, i))
    ensures Tokens(Next(s, Take(t, i)), v) == Tokens(s, v)
  {
    WorkingUpdate(s.workers, t, Next(s, Take(t, i)).workers[t], v);
    QueuedWithout(s.queue, i, v);
  }

  lemma TakeKeepsParts(s: State, t: nat, i: nat)
    requires PartsOk(s) && Enabled(s, Take(t, i))
    ensures PartsOk(Next(s, Take(t, i)))
  {
    var s2 := Next(s, Take(t, i));
    assert Extends(s, s2) && ItemOk(s, s.queue[i]);
    ItemStays(s, s2, s.queue[i]);
    forall j | 0 <= j < |s2.queue| ensures ItemOk(s2, s2.queue[j]) {
      ItemStays(s, s2, s.queue[if j < i then j else j + 1]);
    }
    forall u | 0 <= u < |s2.workers| ensures WorkerOk(s2, s2.workers[u]) {
      ActStays(s, s2, s.workers[u].act);
      BlockStays(s, s2, s.workers[u].block);
    }
  }

  lemma TakeKeepsInv(s: State, t: nat, i: nat)
    requires Inv(s) && Enabled(s, Take(t, i))
    ensures Inv(Next(s, Take(t, i)))
  {
    TakeKeepsParts(s, t, i);
    forall v: nat ensures Tokens(Next(s, Take(t, i)), v) == Tokens(s, v) {
      TakeKeepsTokens(s, t, i, v);
    }
  }

  lemma EnqueueKeepsInv(s: State, t: nat)
    requires Inv(s) && t < |s.workers| && s.workers[t].act.CountedBoth?
    ensures Inv(PushNext(s, t))
  {
    var s2 := PushNext(s, t);
    var item := s.workers[t].act.item;
    assert WorkerOk(s, s.workers[t]);
    forall v: nat | v < |s2.count| ensures s2.count[v] == s2.leaked[v] + Tokens(s2, v) {
      WorkingUpdate(s.workers, t, s2.workers[t], v);
      QueuedConcat(s.queue, [item], v);
    }
    assert Extends(s, s2);
    forall i | 0 <= i < |s2.queue| ensures ItemOk(s2, s2.queue[i]) {
      ItemStays(s, s2, s2.queue[i]);
    }
    forall u | 0 <= u < |s2.workers| ensures WorkerOk(s2, s2.workers[u]) {
      ActStays(s, s2, s.workers[u].act);
      BlockStays(s, s2, s.workers[u].block);
    }
  }

  // What a step of worker t needs to know about the rest.
  ghost predicate LocalOk(s: State, t: nat) {
    && |s.leaked| == |s.count| && t < |s.workers| && WorkerOk(s, s.workers[t])
    && (forall x :: 0 <= x < |s.stmts| ==> Known(s, s.stmts[x].version))
  }

  // A counter goes up or down together with the worker's tokens.
  lemma BumpIsEven(s: State, s2: State, t: nat, token: Option<Version>, up: bool)
    requires t < |s.workers| == |s2.workers| && |s.leaked| == |s.count| && Known(s, token)
    requires s2.leaked == s.leaked && s2.count == Bump(s.count, token, if up then 1 else -1)
    requires forall v: nat :: WorkerTokens(s2.workers[t], v) ==
               (if up then WorkerTokens(s.workers[t], v) + One(token, v) else WorkerTokens(s.workers[t], v) - One(token, v))
    ensures Even(s, s2, t)
  {
    forall v: nat | v < |s.count|
      ensures s2.count[v] - s2.leaked[v] - WorkerTokens(s2.workers[t], v)
           == s.count[v] - s.leaked[v] - WorkerTokens(s.workers[t], v)
    {
      Bumped(s.count, token, if up then 1 else -1, v);
    }
  }

  lemma PushIsEven(s: State, t: nat)
    requires LocalOk(s, t) && !s.workers[t].act.CountedBoth?
    ensures Even(s, PushNext(s, t), t)
  {
    var s2 := PushNext(s, t);
    match s.workers[t].act
    case AcquiredBoth(_, _, item, gotWhen, _) =>
      BumpIsEven(s, s2, t, if gotWhen then VersionOf(s, Some(item.whenRef)) else None, true);
    case CountedWhen(_, _, item, _, gotStmt) =>
      BumpIsEven(s, s2, t, if gotStmt then VersionOf(s, item.stmtRef) else None, true);
    case _ =>
  }

  lemma PushOk(s: State, t: nat)
    requires LocalOk(s, t) && !s.workers[t].act.CountedBoth?
    ensures WorkerOk(PushNext(s, t), PushNext(s, t).workers[t])
  {
    BlockStays(s, PushNext(s, t), s.workers[t].block);
  }

  lemma PushKeepsInv(s: State, t: nat)
    requires Inv(s) && Enabled(s, PushGo(t))
    ensures Inv(PushNext(s, t))
  {
    if s.workers[t].act.CountedBoth? {
      EnqueueKeepsInv(s, t);
    } else {
      PushIsEven(s, t);
      PushOk(s, t);
      StepStays(s, PushNext(s, t), t);
    }
  }

  // The first half of runWhenBlock touches no counter, but may leak the item's tokens.
  predicate Early(block: Block) {
    block.NoBlock? || block.Taken? || block.GotWhen? || block.GotBoth?
  }

  lemma DroppedIsEven(s: State, t: nat, item: Item)
    requires LocalOk(s, t) && (s.workers[t].block == Taken(item) || s.workers[t].block == GotWhen(item))
    ensures Even(s, Dropped(s, t, item), t)
  {
    assert ItemOk(s, item) && Known(s, item.whenToken) && Known(s, item.stmtToken);
  }

  lemma EarlyBlockIsEven(s: State, t: nat, matched: bool)
    requires LocalOk(s, t) && Early(s.workers[t].block)
    ensures Even(s, BlockNext(s, t, matched), t)
  {
    if s.workers[t].block.Taken? || s.workers[t].block.GotWhen? {
      DroppedIsEven(s, t, s.workers[t].block.item);
    }
  }

  lemma LateBlockIsEven(s: State, t: nat, matched: bool)
    requires LocalOk(s, t) && !Early(s.workers[t].block)
    ensures Even(s, BlockNext(s, t, matched), t)
  {
    var s2 := BlockNext(s, t, matched);
    match s.workers[t].block
    case Chosen(item, current, _) => BumpIsEven(s, s2, t, current, true);
    case Counted(item, current, _) => BumpIsEven(s, s2, t, item.whenToken, false);
    case LeftWhen(item, current, _) => BumpIsEven(s, s2, t, item.stmtToken, false);
    case Running(_, current, _) => BumpIsEven(s, s2, t, current, false);
    case Unmatched(_, current) => BumpIsEven(s, s2, t, current, false);
  }

  lemma EarlyBlockOk(s: State, t: nat, matched: bool)
    requires LocalOk(s, t) && Early(s.workers[t].block)
    ensures WorkerOk(BlockNext(s, t, matched), BlockNext(s, t, matched).workers[t])
  {
    ActStays(s, BlockNext(s, t, matched), s.workers[t].act);
  }

  lemma LateBlockOk(s: State, t: nat, matched: bool)
    requires LocalOk(s, t) && !Early(s.workers[t].block)
    ensures WorkerOk(BlockNext(s, t, matched), BlockNext(s, t, matched).workers[t])
  {
    ActStays(s, BlockNext(s, t, matched), s.workers[t].act);
  }

  lemma BlockKeepsInv(s: State, t: nat, matched: bool)
    requires Inv(s) && Enabled(s, BlockGo(t, matched))
    ensures Inv(BlockNext(s, t, matched))
  {
    if Early(s.workers[t].block) {
      EarlyBlockIsEven(s, t, matched);
      EarlyBlockOk(s, t, matched);
    } else {
      LateBlockIsEven(s, t, matched);
      LateBlockOk(s, t, matched);
    }
    StepStays(s, BlockNext(s, t, matched), t);
  }

  lemma SayKeepsInv(s: State, a: Action)
    requires Inv(s) && Enabled(s, a) && (a.SayInsert? || a.SayReuse? || a.React? || a.SayDone?)
    ensures Inv(Next(s, a))
  {
    var s2 := Next(s, a);
    assert WorkerOk(s, s.workers[a.t]);
    BlockStays(s, s2, s.workers[a.t].block);
    StepStays(s, s2, a.t);
  }

  lemma StepKeepsInv(s: State, a: Action)
    requires Inv(s) && Enabled(s, a)
    ensures Inv(Next(s, a))
  {
    match a
    case Kill(x) => KillKeepsInv(s, x);
    case SayNew(t, v) => SayNewKeepsInv(s, t, v);
    case PushGo(t) => PushKeepsInv(s, t);
    case Take(t, i) => TakeKeepsInv(s, t, i);
    case BlockGo(t, matched) => BlockKeepsInv(s, t, matched);
    case FreshVersion(t) => FreshVersionKeepsInv(s, t);
    case _ => SayKeepsInv(s, a);
  }

  lemma InitInv(n: nat)
    ensures Inv(Init(n))
  {
  }

  lemma {:induction false} RunKeepsInv(s: State, acts: seq<Action>, s2: State)
    requires Inv(s) && Leads(s, acts, s2)
    ensures Inv(s2)
    decreases |acts|
  {
    if acts != [] {
      StepKeepsInv(s, acts[0]);
      RunKeepsInv(Next(s, acts[0]), acts[1..], s2);
    }
  }

  // ----- what holds of every run --------------------------------------------------

  // The counter never understates: it is the outstanding tokens plus the leaked increments.
  lemma CountCoversTokens(n: nat, acts: seq<Action>, s: State, v: nat)
    requires Leads(Init(n), acts, s) && v < |s.count|
    ensures |s.leaked| == |s.count| && s.count[v] == Tokens(s, v) + s.leaked[v]
    ensures s.count[v] >= Tokens(s, v)
  {
    InitInv(n);
    RunKeepsInv(Init(n), acts, s);
  }

  // ----- what leaks ---------------------------------------------------------------

  // runWhenBlock returns early: an endpoint of the item it holds cannot be acquired.
  predicate Drops(s: State, block: Block) {
    || (block.Taken? && !Live(s, Some(block.item.whenRef)))
    || (block.GotWhen? && block.item.stmtRef.Some? && !Live(s, block.item.stmtRef))
  }

  // The steps that leave an increment of v behind: a Say under v whose clause is there already, an item
  // dropped with an endpoint counted for v, and a fresh version in a block that runs under v.
  predicate LeavesOne(s: State, a: Action, v: Version)
    requires Enabled(s, a)
  {
    match a
    case SayReuse(t) => s.workers[t].act.token == Some(v)
    case BlockGo(t, _) =>
      var block := s.workers[t].block;
      Drops(s, block) && (block.item.whenToken == Some(v) || block.item.stmtToken == Some(v))
    case FreshVersion(t) => s.workers[t].block.current == Some(v)
    case _ => false
  }

  // Some step of the run does.
  ghost predicate SomeLeaves(s: State, acts: seq<Action>, v: Version)
    decreases |acts|
  {
    acts != [] && Enabled(s, acts[0]) && (LeavesOne(s, acts[0], v) || SomeLeaves(Next(s, acts[0]), acts[1..], v))
  }

  // What has been left behind of v, a version that may not exist yet.
  function LeftBehind(s: State, v: Version): nat {
    if v < |s.leaked| then s.leaked[v] else 0
  }

  lemma StepLeaves(s: State, a: Action, v: nat)
    requires Inv(s) && Enabled(s, a)
    ensures LeftBehind(Next(s, a), v) >= LeftBehind(s, v)
    ensures LeftBehind(Next(s, a), v) > LeftBehind(s, v) <==> LeavesOne(s, a, v)
  {
    if !a.Kill? {
      assert WorkerOk(s, s.workers[a.t]);
      if a.BlockGo? {
        BlockLeaves(s, a.t, a.matched, v);
      }
    }
  }

  lemma BlockLeaves(s: State, t: nat, matched: bool, v: nat)
    requires t < |s.workers| && WorkerOk(s, s.workers[t]) && |s.leaked| == |s.count|
    requires forall x :: 0 <= x < |s.stmts| ==> Known(s, s.stmts[x].version)
    ensures var block, s2 := s.workers[t].block, BlockNext(s, t, matched);
            && LeftBehind(s2, v) >= LeftBehind(s, v)
            && (LeftBehind(s2, v) > LeftBehind(s, v) <==>
                Drops(s, block) && (block.item.whenToken == Some(v) || block.item.stmtToken == Some(v)))
  {
    var block := s.workers[t].block;
    if block.Taken? || block.GotWhen? {
      assert ItemOk(s, block.item);
      assert Known(s, block.item.whenToken) && Known(s, block.item.stmtToken);
    }
  }

  lemma {:induction false} RunLeaves(s: State, acts: seq<Action>, s2: State, v: nat)
    requires Inv(s) && Leads(s, acts, s2)
    ensures LeftBehind(s2, v) >= LeftBehind(s, v)
    ensures LeftBehind(s2, v) > LeftBehind(s, v) <==> SomeLeaves(s, acts, v)
    decreases |acts|
  {
    if acts != [] {
      StepKeepsInv(s, acts[0]);
      StepLeaves(s, acts[0], v);
      RunLeaves(Next(s, acts[0]), acts[1..], s2, v);
    }
  }

  // An increment is left behind in exactly the runs with one of those steps.
  lemma LeakIff(n: nat, acts: seq<Action>, s: State, v: nat)
    requires Leads(Init(n), acts, s) && v < |s.count|
    ensures |s.leaked| == |s.count| && (s.leaked[v] == 0 <==> !SomeLeaves(Init(n), acts, v))
  {
    InitInv(n);
    RunKeepsInv(Init(n), acts, s);
    RunLeaves(Init(n), acts, s, v);
  }

  // A version reports convergence exactly when nothing of it is outstanding and no step has left an
  // increment of it behind.
  lemma ConvergesIff(n: nat, acts: seq<Action>, s: State, v: nat)
    requires Leads(Init(n), acts, s) && v < |s.count|
    ensures s.count[v] == 0 <==> Tokens(s, v) == 0 && !SomeLeaves(Init(n), acts, v)
    ensures |s.leaked| == |s.count| && (s.count[v] == 0 <==> Tokens(s, v) == 0 && s.leaked[v] == 0)
  {
    CountCoversTokens(n, acts, s, v);
    LeakIff(n, acts, s, v);
  }

  // ----- what a zero count means --------------------------------------------------

  // The item could still run, and one of its endpoints belongs to version v.
  predicate Pending(s: State, item: Item, v: Version) {
    || (Live(s, Some(item.whenRef)) && VersionOf(s, Some(item.whenRef)) == Some(v))
    || (Live(s, item.stmtRef) && VersionOf(s, item.stmtRef) == Some(v))
  }

  // Worker w is at work for version v: it has made a statement of v that it is inserting, reacting to or
  // pushing items for, runs a block under v, or has taken an item that could run for v.
  predicate AtWork(s: State, w: Worker, v: Version) {
    || (!w.act.Quiet? && VersionOf(s, Some(w.act.x)) == Some(v))
    || (match w.block
        case NoBlock => false
        case Taken(item) => Pending(s, item, v)
        case GotWhen(item) => Pending(s, item, v)
        case GotBoth(item) => Pending(s, item, v)
        case Chosen(item, _, _) => Pending(s, item, v)
        case Counted(item, current, _) => current == Some(v) || Pending(s, item, v)
        case LeftWhen(_, current, _) => current == Some(v)
        case Running(_, current, _) => current == Some(v)
        case Unmatched(_, current) => current == Some(v))
  }

  // In the middle of pushRunWhenBlock: the endpoints already counted belong to v.
  predicate Pushing(act: Act, v: Version) {
    (act.CountedWhen? || act.CountedBoth?) && (act.item.whenToken == Some(v) || act.item.stmtToken == Some(v))
  }

  // By its endpoints the item belongs to v: its statement does, or the When does while its statement, if there
  // is one, has no version.
  predicate Serves(s: State, item: Item, v: Version) {
    || VersionOf(s, item.stmtRef) == Some(v)
    || (VersionOf(s, item.stmtRef) == None && VersionOf(s, Some(item.whenRef)) == Some(v))
  }

  // The worker has both endpoints of an item that belongs to v and is about to run it, or runs it, not having
  // set a version of its own.
  predicate RunsFor(s: State, block: Block, v: Version) {
    && (block.GotBoth? || block.Chosen? || block.Counted? || block.LeftWhen? || block.Unmatched?
        || (block.Running? && !block.own))
    && Serves(s, block.item, v)
  }

  // No premature convergence: with a zero count no worker is at work for the version and no item
  // that could run for it is queued.
  lemma ZeroMeansQuiescent(n: nat, acts: seq<Action>, s: State, v: nat)
    requires Leads(Init(n), acts, s) && v < |s.count| && s.count[v] == 0
    ensures forall t :: 0 <= t < |s.workers| ==> !AtWork(s, s.workers[t], v) && !Pushing(s.workers[t].act, v)
    ensures forall t :: 0 <= t < |s.workers| ==> !RunsFor(s, s.workers[t].block, v)
    ensures forall i :: 0 <= i < |s.queue| ==> !Pending(s, s.queue[i], v)
  {
    InitInv(n);
    RunKeepsInv(Init(n), acts, s);
    forall t | 0 <= t < |s.workers|
      ensures !AtWork(s, s.workers[t], v) && !Pushing(s.workers[t].act, v) && !RunsFor(s, s.workers[t].block, v)
    {
      WorkingAtLeast(s.workers, t, v);
      assert WorkerOk(s, s.workers[t]);
    }
    forall i | 0 <= i < |s.queue| ensures !Pending(s, s.queue[i], v) {
      QueuedWithout(s.queue, i, v);
      assert ItemOk(s, s.queue[i]);
    }
  }

  lemma LeaksGrow(s: State, a: Action, v: nat)
    requires Enabled(s, a) && |s.leaked| == |s.count| && v < |s.count|
    ensures v < |Next(s, a).leaked| && Next(s, a).leaked[v] >= s.leaked[v]
  {
  }

  // A version that has leaked an increment never converges again.
  lemma {:induction false} LeakedNeverConverges(s: State, acts: seq<Action>, s2: State, v: nat)
    requires Inv(s) && Leads(s, acts, s2) && v < |s.count| && s.leaked[v] > 0
    ensures v < |s2.count| && s2.count[v] > 0
    decreases |acts|
  {
    if acts != [] {
      StepKeepsInv(s, acts[0]);
      LeaksGrow(s, acts[0], v);
      LeakedNeverConverges(Next(s, acts[0]), acts[1..], s2, v);
    }
  }

  // So one Say of a clause that is already there, under version v, keeps v from ever converging.
  lemma ReuseBlocksConvergence(n: nat, before: seq<Action>, s: State, t: nat, acts: seq<Action>, s2: State, v: nat)
    requires Leads(Init(n), before, s) && Enabled(s, SayReuse(t))
    requires v < |s.count| && s.workers[t].act.token == Some(v)
    requires Leads(Next(s, SayReuse(t)), acts, s2)
    ensures v < |s2.count| && s2.count[v] > 0
  {
    InitInv(n);
    RunKeepsInv(Init(n), before, s);
    StepKeepsInv(s, SayReuse(t));
    LeakedNeverConverges(Next(s, SayReuse(t)), acts, s2, v);
  }

  // ----- what undisturbed work comes to -------------------------------------------

  lemma LeadsStep(s: State, a: Action, acts: seq<Action>, s2: State)
    requires Enabled(s, a) && Leads(Next(s, a), acts, s2)
    ensures Leads(s, [a] + acts, s2)
  {
    assert ([a] + acts)[1..] == acts;
  }

  // From s0 to s worker t has come to w, and the statements and the other workers are as they were.
  ghost predicate CameTo(s0: State, s: State, t: nat, w: Worker) {
    t < |s0.workers| && s.workers == s0.workers[t := w] && s.stmts == s0.stmts && |s.count| == |s0.count|
  }

  // The counter of v has changed by n.
  ghost predicate Changed(s0: State, s: State, v: nat, n: int) {
    v < |s0.count| == |s.count| && s.count[v] == s0.count[v] + n
  }

  // What the worker has done to the counter of v when its block is at this stage.
  function Given(s: State, block: Block, v: Version): int {
    match block
    case Counted(_, current, _) => One(current, v)
    case LeftWhen(item, current, _) => One(current, v) - One(VersionOf(s, Some(item.whenRef)), v)
    case Running(item, current, _) => One(current, v) - One(VersionOf(s, Some(item.whenRef)), v) - One(VersionOf(s, item.stmtRef), v)
    case _ => 0
  }

  // The stages of a block that is not disturbed, under the version the endpoints say.
  function StageOf(item: Item, current: Option<Version>, i: nat): Block
    requires i <= 6
  {
    if i == 0 then Taken(item) else if i == 1 then GotWhen(item) else if i == 2 then GotBoth(item)
    else if i == 3 then Chosen(item, current, true) else if i == 4 then Counted(item, current, true)
    else if i == 5 then LeftWhen(item, current, true) else Running(item, current, false)
  }

  lemma StageMoves(s0: State, s: State, t: nat, item: Item, current: Option<Version>, i: nat)
    requires i < 6 && CameTo(s0, s, t, Worker(Quiet, StageOf(item, current, i)))
    requires Live(s0, Some(item.whenRef)) && (item.stmtRef.Some? ==> Live(s0, item.stmtRef))
    requires current == if VersionOf(s0, item.stmtRef).Some? then VersionOf(s0, item.stmtRef) else VersionOf(s0, Some(item.whenRef))
    ensures Enabled(s, BlockGo(t, true))
    ensures CameTo(s0, Next(s, BlockGo(t, true)), t, Worker(Quiet, StageOf(item, current, i + 1)))
    ensures Next(s, BlockGo(t, true)).queue == s.queue
  {
  }

  lemma StageCounts(s0: State, s: State, t: nat, item: Item, current: Option<Version>, i: nat, v: nat)
    requires i < 6 && CameTo(s0, s, t, Worker(Quiet, StageOf(item, current, i))) && v < |s0.count|
    requires CameTo(s0, BlockNext(s, t, true), t, Worker(Quiet, StageOf(item, current, i + 1)))
    requires Changed(s0, s, v, Given(s0, StageOf(item, current, i), v))
    ensures Changed(s0, BlockNext(s, t, true), v, Given(s0, StageOf(item, current, i + 1), v))
  {
    assert forall x :: VersionOf(s, x) == VersionOf(s0, x);
  }

  // An item whose endpoints can be acquired runs: under its statement's version, or else under the When's, which
  // is counted once for the block, while the endpoints are counted down.
  lemma BlockRuns(s: State, t: nat, item: Item, current: Option<Version>) returns (acts: seq<Action>, s2: State)
    requires t < |s.workers| && s.workers[t] == Worker(Quiet, Taken(item))
    requires Live(s, Some(item.whenRef)) && (item.stmtRef.Some? ==> Live(s, item.stmtRef))
    requires current == if VersionOf(s, item.stmtRef).Some? then VersionOf(s, item.stmtRef) else VersionOf(s, Some(item.whenRef))
    ensures (forall a :: a in acts ==> a == BlockGo(t, true)) && Leads(s, acts, s2)
    ensures CameTo(s, s2, t, Worker(Quiet, Running(item, current, false))) && s2.queue == s.queue
    ensures forall v: nat :: v < |s.count| ==>
              Changed(s, s2, v, One(current, v) - One(VersionOf(s, Some(item.whenRef)), v) - One(VersionOf(s, item.stmtRef), v))
  {
    assert CameTo(s, s, t, Worker(Quiet, StageOf(item, current, 0)));
    acts, s2 := StagesRun(s, s, t, item, current, 0);
    forall v: nat | v < |s.count|
      ensures Changed(s, s2, v, One(current, v) - One(VersionOf(s, Some(item.whenRef)), v) - One(VersionOf(s, item.stmtRef), v))
    {
      assert Changed(s, s2, v, Given(s, StageOf(item, current, 6), v));
    }
  }

  lemma StagesRun(s0: State, s: State, t: nat, item: Item, current: Option<Version>, i: nat)
    returns (acts: seq<Action>, s2: State)
    requires i <= 6 && CameTo(s0, s, t, Worker(Quiet, StageOf(item, current, i)))
    requires Live(s0, Some(item.whenRef)) && (item.stmtRef.Some? ==> Live(s0, item.stmtRef))
    requires current == if VersionOf(s0, item.stmtRef).Some? then VersionOf(s0, item.stmtRef) else VersionOf(s0, Some(item.whenRef))
    requires forall v: nat :: v < |s0.count| ==> Changed(s0, s, v, Given(s0, StageOf(item, current, i), v))
    ensures (forall a :: a in acts ==> a == BlockGo(t, true)) && Leads(s, acts, s2) && s2.queue == s.queue
    ensures CameTo(s0, s2, t, Worker(Quiet, StageOf(item, current, 6)))
    ensures forall v: nat :: v < |s0.count| ==> Changed(s0, s2, v, Given(s0, StageOf(item, current, 6), v))
    decreases 6 - i
  {
    if i == 6 {
      acts, s2 := [], s;
    } else {
      StageMoves(s0, s, t, item, current, i);
      var s1 := Next(s, BlockGo(t, true));
      var stage := StageOf(item, current, i + 1);
      forall v: nat | v < |s0.count| ensures Changed(s0, s1, v, Given(s0, stage, v)) {
        StageCounts(s0, s, t, item, current, i, v);
      }
      acts, s2 := StagesRun(s0, s1, t, item, current, i + 1);
      LeadsStep(s, BlockGo(t, true), acts, s2);
      acts := [BlockGo(t, true)] + acts;
    }
  }

  lemma BumpTwice(count: seq<int>, a: Option<Version>, b: Option<Version>, v: nat)
    requires v < |count|
    ensures |Bump(Bump(count, a, 1), b, 1)| == |count|
    ensures Bump(Bump(count, a, 1), b, 1)[v] == count[v] + One(a, v) + One(b, v)
  {
    Bumped(count, a, 1, v);
    Bumped(Bump(count, a, 1), b, 1, v);
  }

  // The version of an endpoint that can be acquired.
  function Counts(s: State, x: Option<StatementId>): Option<Version> {
    if Live(s, x) then VersionOf(s, x) else None
  }

  // A pair that the reaction found is queued as it was found, each endpoint that is there counted once.
  lemma PairIsQueued(s: State, t: nat, whenRef: StatementId, stmtRef: Option<StatementId>) returns (acts: seq<Action>, s2: State)
    requires t < |s.workers| && Enabled(s, React(t, whenRef, stmtRef))
    ensures Leads(s, acts, s2) && forall a :: a in acts ==> a == React(t, whenRef, stmtRef) || a == PushGo(t)
    ensures CameTo(s, s2, t, s.workers[t])
    ensures s2.queue == s.queue + [Item(whenRef, stmtRef, Counts(s, Some(whenRef)), Counts(s, stmtRef))]
    ensures forall v: nat :: v < |s.count| ==> Changed(s, s2, v, One(Counts(s, Some(whenRef)), v) + One(Counts(s, stmtRef), v))
  {
    var act := s.workers[t].act;
    var bare := Item(whenRef, stmtRef, None, None);
    var gotWhen, gotStmt := Live(s, Some(whenRef)), Live(s, stmtRef);
    var s1 := SetAct(s, t, Acquire(act.x, act.token, bare));
    var s3 := SetAct(s, t, AcquiredWhen(act.x, act.token, bare, gotWhen));
    var s4 := SetAct(s, t, AcquiredBoth(act.x, act.token, bare, gotWhen, gotStmt));
    PairSteps(s, t, whenRef, stmtRef, s1, s3, s4);
    acts, s2 := CountsAndQueues(s, s4, t, act.x, act.token, bare);
    Before(s3, PushGo(t), s4, acts, s2);
    acts := [PushGo(t)] + acts;
    Before(s1, PushGo(t), s3, acts, s2);
    acts := [PushGo(t)] + acts;
    Before(s, React(t, whenRef, stmtRef), s1, acts, s2);
    acts := [React(t, whenRef, stmtRef)] + acts;
  }

  lemma CountsAndQueues(s: State, s4: State, t: nat, x: StatementId, token: Option<Version>, bare: Item)
    returns (acts: seq<Action>, s2: State)
    requires t < |s.workers| && s.workers[t].act == Reacting(x, token) && bare.whenToken == None && bare.stmtToken == None
    requires s4 == SetAct(s, t, AcquiredBoth(x, token, bare, Live(s, Some(bare.whenRef)), Live(s, bare.stmtRef)))
    ensures Leads(s4, acts, s2) && forall a :: a in acts ==> a == PushGo(t)
    ensures CameTo(s, s2, t, s.workers[t])
    ensures s2.queue == s.queue + [Item(bare.whenRef, bare.stmtRef, Counts(s, Some(bare.whenRef)), Counts(s, bare.stmtRef))]
    ensures forall v: nat :: v < |s.count| ==> Changed(s, s2, v, One(Counts(s, Some(bare.whenRef)), v) + One(Counts(s, bare.stmtRef), v))
  {
    var gotWhen, gotStmt := Live(s, Some(bare.whenRef)), Live(s, bare.stmtRef);
    var vw, vs := Counts(s, Some(bare.whenRef)), Counts(s, bare.stmtRef);
    var item := Item(bare.whenRef, bare.stmtRef, vw, vs);
    var s5 := SetAct(s, t, CountedWhen(x, token, bare.(whenToken := vw), gotWhen, gotStmt)).(count := Bump(s.count, vw, 1));
    var s6 := SetAct(s, t, CountedBoth(x, token, item)).(count := Bump(Bump(s.count, vw, 1), vs, 1));
    CountSteps(s, t, x, token, bare, gotWhen, gotStmt, s4, s5, s6);
    s2 := QueueStep(s, s6, t, x, token, item);
    OneStep(s6, PushGo(t), s2);
    acts := [PushGo(t)];
    Before(s5, PushGo(t), s6, acts, s2);
    acts := [PushGo(t)] + acts;
    Before(s4, PushGo(t), s5, acts, s2);
    acts := [PushGo(t)] + acts;
    forall v: nat | v < |s.count| ensures Changed(s, s2, v, One(vw, v) + One(vs, v)) {
      BumpTwice(s.count, vw, vs, v);
    }
  }

  lemma QueueStep(s: State, s6: State, t: nat, x: StatementId, token: Option<Version>, item: Item) returns (s2: State)
    requires t < |s.workers| && s.workers[t].act == Reacting(x, token)
    requires s6.workers == s.workers[t := s.workers[t].(act := CountedBoth(x, token, item))]
    requires s6.stmts == s.stmts && s6.queue == s.queue && |s6.count| == |s.count|
    ensures Enabled(s6, PushGo(t)) && Next(s6, PushGo(t)) == s2
    ensures CameTo(s, s2, t, s.workers[t]) && s2.queue == s.queue + [item] && s2.count == s6.count
  {
    s2 := Next(s6, PushGo(t));
    assert s2.workers == s.workers[t := s.workers[t]];
  }

  lemma PairSteps(s: State, t: nat, whenRef: StatementId, stmtRef: Option<StatementId>, s1: State, s3: State, s4: State)
    requires t < |s.workers| && Enabled(s, React(t, whenRef, stmtRef))
    requires var act, bare := s.workers[t].act, Item(whenRef, stmtRef, None, None);
             && s1 == SetAct(s, t, Acquire(act.x, act.token, bare))
             && s3 == SetAct(s, t, AcquiredWhen(act.x, act.token, bare, Live(s, Some(whenRef))))
             && s4 == SetAct(s, t, AcquiredBoth(act.x, act.token, bare, Live(s, Some(whenRef)), Live(s, stmtRef)))
    ensures Next(s, React(t, whenRef, stmtRef)) == s1
    ensures Enabled(s1, PushGo(t)) && Next(s1, PushGo(t)) == s3
    ensures Enabled(s3, PushGo(t)) && Next(s3, PushGo(t)) == s4
  {
  }

  lemma CountSteps(s: State, t: nat, x: StatementId, token: Option<Version>, bare: Item, gotWhen: bool, gotStmt: bool,
                   s4: State, s5: State, s6: State)
    requires t < |s.workers| && bare.whenToken == None && bare.stmtToken == None
    requires var vw, vs := if gotWhen then VersionOf(s, Some(bare.whenRef)) else None, if gotStmt then VersionOf(s, bare.stmtRef) else None;
             && s4 == SetAct(s, t, AcquiredBoth(x, token, bare, gotWhen, gotStmt))
             && s5 == SetAct(s, t, CountedWhen(x, token, bare.(whenToken := vw), gotWhen, gotStmt)).(count := Bump(s.count, vw, 1))
             && s6 == SetAct(s, t, CountedBoth(x, token, Item(bare.whenRef, bare.stmtRef, vw, vs))).(
                        count := Bump(Bump(s.count, vw, 1), vs, 1))
    ensures Enabled(s4, PushGo(t)) && Next(s4, PushGo(t)) == s5
    ensures Enabled(s5, PushGo(t)) && Next(s5, PushGo(t)) == s6
  {
    assert forall r :: VersionOf(s4, r) == VersionOf(s, r) && VersionOf(s5, r) == VersionOf(s, r);
  }

  // ----- a run for each kind of leak ----------------------------------------------

  // A system with one worker.
  function Solo(count: seq<int>, leaked: seq<nat>, stmts: seq<Statement>, queue: seq<Item>, act: Act, block: Block): State {
    State(count, leaked, stmts, queue, [Worker(act, block)])
  }

  lemma Before(s: State, a: Action, s1: State, more: seq<Action>, s2: State)
    requires Enabled(s, a) && Next(s, a) == s1 && Leads(s1, more, s2)
    ensures Leads(s, [a] + more, s2)
  {
    assert ([a] + more)[1..] == more;
  }

  // The item of a When with an empty pattern, x, of version v.
  function EmptyItem(x: StatementId, v: Option<Version>): Item {
    Item(x, None, v, None)
  }

  // The middle of SayWhen below: pushRunWhenBlock counts and pushes, ...
  lemma CountAndPush(c: seq<int>, l: seq<nat>, st: seq<Statement>, x: nat, v: Option<Version>, b: Block,
                     more: seq<Action>, s2: State) returns (acts: seq<Action>)
    requires x < |st| && st[x] == Statement(v, true)
    requires Leads(Solo(Bump(c, v, 1), l, st, [EmptyItem(x, v)], Reacting(x, v), b), more, s2)
    ensures Leads(Solo(c, l, st, [], AcquiredBoth(x, v, EmptyItem(x, None), true, false), b), acts, s2)
  {
    var bare, item, c1 := EmptyItem(x, None), EmptyItem(x, v), Bump(c, v, 1);
    var d := Solo(c1, l, st, [], CountedBoth(x, v, item), b);
    assert [] + [item] == [item];
    Before(d, PushGo(0), Solo(c1, l, st, [item], Reacting(x, v), b), more, s2);
    acts := [PushGo(0)] + more;
    var k := Solo(c1, l, st, [], CountedWhen(x, v, item, true, false), b);
    Before(k, PushGo(0), d, acts, s2);
    acts := [PushGo(0)] + acts;
    Before(Solo(c, l, st, [], AcquiredBoth(x, v, bare, true, false), b), PushGo(0), k, acts, s2);
    acts := [PushGo(0)] + acts;
  }

  // ... after it has acquired the When.
  lemma PushWhen(c: seq<int>, l: seq<nat>, st: seq<Statement>, x: nat, v: Option<Version>, b: Block,
                 more: seq<Action>, s2: State) returns (acts: seq<Action>)
    requires x < |st| && st[x] == Statement(v, true)
    requires Leads(Solo(Bump(c, v, 1), l, st, [EmptyItem(x, v)], Reacting(x, v), b), more, s2)
    ensures Leads(Solo(c, l, st, [], Acquire(x, v, EmptyItem(x, None)), b), acts, s2)
  {
    var bare := EmptyItem(x, None);
    acts := CountAndPush(c, l, st, x, v, b, more, s2);
    var h := Solo(c, l, st, [], AcquiredBoth(x, v, bare, true, false), b);
    var g := Solo(c, l, st, [], AcquiredWhen(x, v, bare, true), b);
    Before(g, PushGo(0), h, acts, s2);
    acts := [PushGo(0)] + acts;
    Before(Solo(c, l, st, [], Acquire(x, v, bare), b), PushGo(0), g, acts, s2);
    acts := [PushGo(0)] + acts;
  }

  // A When with an empty pattern is said under version v: its item is queued, counted once.
  lemma SayWhen(c: seq<int>, l: seq<nat>, st: seq<Statement>, v: Option<Version>, b: Block,
                more: seq<Action>, s2: State) returns (acts: seq<Action>)
    requires (b.NoBlock? || b.Running?) && (v.Some? ==> v.value < |c|)
    requires Leads(Solo(Bump(Bump(Bump(c, v, 1), v, 1), v, -1), l, st + [Statement(v, true)], [EmptyItem(|st|, v)], Quiet, b), more, s2)
    ensures Leads(Solo(c, l, st, [], Quiet, b), acts, s2)
  {
    var x, st1, c1 := |st|, st + [Statement(v, true)], Bump(c, v, 1);
    var c2 := Bump(c1, v, 1);
    var e := Solo(c2, l, st1, [EmptyItem(x, v)], Reacting(x, v), b);
    Before(e, SayDone(0), Solo(Bump(c2, v, -1), l, st1, [EmptyItem(x, v)], Quiet, b), more, s2);
    acts := [SayDone(0)] + more;
    acts := PushWhen(c1, l, st1, x, v, b, acts, s2);
    var h := Solo(c1, l, st1, [], Reacting(x, v), b);
    Before(h, React(0, x, None), Solo(c1, l, st1, [], Acquire(x, v, EmptyItem(x, None)), b), acts, s2);
    acts := [React(0, x, None)] + acts;
    var g := Solo(c1, l, st1, [], Created(x, v), b);
    Before(g, SayInsert(0), h, acts, s2);
    acts := [SayInsert(0)] + acts;
    Before(Solo(c, l, st, [], Quiet, b), SayNew(0, v), g, acts, s2);
    acts := [SayNew(0, v)] + acts;
  }

  // The stages of runWhenBlock for the item of statement 0, under no version.
  function Stage(i: nat): Block
    requires i <= 6
  {
    var item := EmptyItem(0, None);
    if i == 0 then Taken(item) else if i == 1 then GotWhen(item) else if i == 2 then GotBoth(item)
    else if i == 3 then Chosen(item, None, true) else if i == 4 then Counted(item, None, true)
    else if i == 5 then LeftWhen(item, None, true) else Running(item, None, false)
  }

  function AtStage(i: nat): State
    requires i <= 6
  {
    Solo([], [], [Statement(None, true)], [], Quiet, Stage(i))
  }

  lemma StageStep(i: nat)
    requires i < 6
    ensures Enabled(AtStage(i), BlockGo(0, true)) && Next(AtStage(i), BlockGo(0, true)) == AtStage(i + 1)
  {
  }

  // Its item is taken, and its block starts, under no version.
  lemma StartBlock(more: seq<Action>, s2: State) returns (acts: seq<Action>)
    requires Leads(AtStage(6), more, s2)
    ensures Leads(Solo([], [], [Statement(None, true)], [EmptyItem(0, None)], Quiet, NoBlock), acts, s2)
  {
    acts := more;
    var i := 6;
    while i > 0
      invariant 0 <= i <= 6 && Leads(AtStage(i), acts, s2)
    {
      i := i - 1;
      StageStep(i);
      Before(AtStage(i), BlockGo(0, true), AtStage(i + 1), acts, s2);
      acts := [BlockGo(0, true)] + acts;
    }
    var item := EmptyItem(0, None);
    assert [item][..0] + [item][1..] == [];
    Before(Solo([], [], [Statement(None, true)], [item], Quiet, NoBlock), Take(0, 0), AtStage(0), acts, s2);
    acts := [Take(0, 0)] + acts;
  }

  // The block has set version v.
  function InBlock(v: Version): Block {
    Running(EmptyItem(0, None), Some(v), true)
  }

  // A block that has set a version and goes on running.
  function InVersion(): State {
    Solo([1], [0], [Statement(None, true)], [], Quiet, InBlock(0))
  }

  lemma ReachVersion(more: seq<Action>, s2: State) returns (acts: seq<Action>)
    requires Leads(InVersion(), more, s2)
    ensures Leads(Init(1), acts, s2)
  {
    var st := [Statement(None, true)];
    Before(Solo([], [], st, [], Quiet, Running(EmptyItem(0, None), None, false)), FreshVersion(0), InVersion(), more, s2);
    acts := StartBlock([FreshVersion(0)] + more, s2);
    assert [] + [Statement(None, true)] == st;
    acts := SayWhen([], [], [], None, NoBlock, acts, s2);
    assert Init(1) == Solo([], [], [], [], Quiet, NoBlock);
  }

  // A run leads to s, there a leaves an increment of version 0 behind, and in the end, with nothing
  // outstanding, the count of version 0 is still one.
  ghost predicate Stuck(before: seq<Action>, s: State, a: Action, after: seq<Action>, s2: State) {
    && Leads(Init(1), before, s) && |s.leaked| > 0 && s.leaked[0] == 0
    && Enabled(s, a) && LeavesOne(s, a, 0) && Leads(Next(s, a), after, s2)
    && |s2.count| > 0 && s2.count[0] == 1 && Tokens(s2, 0) == 0
  }

  lemma OneStep(s: State, a: Action, s1: State)
    requires Enabled(s, a) && Next(s, a) == s1
    ensures Leads(s, [a], s1)
  {
    assert [a][1..] == [];
  }

  lemma Idle(s: State)
    requires s.workers == [Worker(Quiet, NoBlock)] && s.queue == []
    ensures Tokens(s, 0) == 0
  {
    var w := Worker(Quiet, NoBlock);
    assert ActTokens(w.act, 0) == 0 && BlockTokens(w.block, 0) == 0;
    assert WorkerTokens(w, 0) == 0;
    assert s.workers[0] == w && s.workers[1..] == [];
    assert Working(s.workers, 0) == WorkerTokens(s.workers[0], 0) + Working(s.workers[1..], 0);
  }

  // The end of a block that runs under v.
  lemma EndBlock(c: seq<int>, l: seq<nat>, st: seq<Statement>, q: seq<Item>, v: Version)
    requires v < |c|
    ensures Leads(Solo(c, l, st, q, Quiet, InBlock(v)), [BlockGo(0, true)], Solo(Bump(c, Some(v), -1), l, st, q, Quiet, NoBlock))
  {
    OneStep(Solo(c, l, st, q, Quiet, InBlock(v)), BlockGo(0, true), Solo(Bump(c, Some(v), -1), l, st, q, Quiet, NoBlock));
  }

  // First kind: the block says, under its version, a clause that is there already.
  lemma ReuseRun() returns (before: seq<Action>, s: State, a: Action, after: seq<Action>, s2: State)
    ensures a.SayReuse? && Stuck(before, s, a, after, s2)
  {
    var st := [Statement(None, true)] + [Statement(Some(0), true)];
    s := Solo([2], [0], st, [], Created(1, Some(0)), InBlock(0));
    OneStep(InVersion(), SayNew(0, Some(0)), s);
    before := ReachVersion([SayNew(0, Some(0))], s);
    a := SayReuse(0);
    after := [BlockGo(0, true)];
    s2 := Solo(Bump([2], Some(0), -1), [1], st, [], Quiet, NoBlock);
    EndBlock([2], [1], st, [], 0);
    Idle(s2);
    ReuseLeaves(s, Solo([2], [1], st, [], Quiet, InBlock(0)), st);
  }

  lemma ReuseLeaves(s: State, s1: State, st: seq<Statement>)
    requires s == Solo([2], [0], st, [], Created(1, Some(0)), InBlock(0))
    requires s1 == Solo([2], [1], st, [], Quiet, InBlock(0))
    ensures Enabled(s, SayReuse(0)) && LeavesOne(s, SayReuse(0), 0) && Next(s, SayReuse(0)) == s1
  {
  }

  // Second kind: the block sets a second version.
  lemma SecondVersionRun() returns (before: seq<Action>, s: State, a: Action, after: seq<Action>, s2: State)
    ensures a.FreshVersion? && Stuck(before, s, a, after, s2)
  {
    var st := [Statement(None, true)];
    s := InVersion();
    before := ReachVersion([], s);
    a := FreshVersion(0);
    after := [BlockGo(0, true)];
    s2 := Solo(Bump([1, 1], Some(1), -1), [1, 0], st, [], Quiet, NoBlock);
    EndBlock([1, 1], [1, 0], st, [], 1);
    Idle(s2);
    SecondLeaves(Solo([1, 1], [1, 0], st, [], Quiet, InBlock(1)));
  }

  lemma SecondLeaves(s1: State)
    requires s1 == Solo([1, 1], [1, 0], [Statement(None, true)], [], Quiet, InBlock(1))
    ensures Enabled(InVersion(), FreshVersion(0)) && LeavesOne(InVersion(), FreshVersion(0), 0)
    ensures Next(InVersion(), FreshVersion(0)) == s1
  {
  }

  // Third kind: the block says a When under its version, and the When is gone when its item comes up.
  lemma DropRun() returns (before: seq<Action>, s: State, a: Action, after: seq<Action>, s2: State)
    ensures a.BlockGo? && Stuck(before, s, a, after, s2)
  {
    var dead := [Statement(None, true), Statement(Some(0), false)];
    s := Solo([1], [0], dead, [], Quiet, Taken(EmptyItem(1, Some(0))));
    before := ReachDrop(s);
    a := BlockGo(0, true);
    after := [];
    s2 := Solo([1], [1], dead, [], Quiet, NoBlock);
    Idle(s2);
    DropLeaves(s, s2, dead);
  }

  lemma ReachDrop(s: State) returns (before: seq<Action>)
    requires s == Solo([1], [0], [Statement(None, true), Statement(Some(0), false)], [], Quiet, Taken(EmptyItem(1, Some(0))))
    ensures Leads(Init(1), before, s)
  {
    var item := EmptyItem(1, Some(0));
    var st, dead := [Statement(None, true)] + [Statement(Some(0), true)], [Statement(None, true), Statement(Some(0), false)];
    assert [item][..0] + [item][1..] == [];
    OneStep(Solo([1], [0], dead, [item], Quiet, NoBlock), Take(0, 0), s);
    before := [Take(0, 0)];
    assert st[1 := st[1].(live := false)] == dead;
    Before(Solo([1], [0], st, [item], Quiet, NoBlock), Kill(1), Solo([1], [0], dead, [item], Quiet, NoBlock), before, s);
    before := [Kill(1)] + before;
    var running := Solo([2], [0], st, [item], Quiet, InBlock(0));
    Before(running, BlockGo(0, true), Solo([1], [0], st, [item], Quiet, NoBlock), before, s);
    before := [BlockGo(0, true)] + before;
    assert Bump(Bump(Bump([1], Some(0), 1), Some(0), 1), Some(0), -1) == [2];
    before := SayWhen([1], [0], [Statement(None, true)], Some(0), InBlock(0), before, s);
    before := ReachVersion(before, s);
  }

  lemma DropLeaves(s: State, s2: State, dead: seq<Statement>)
    requires dead == [Statement(None, true), Statement(Some(0), false)]
    requires s == Solo([1], [0], dead, [], Quiet, Taken(EmptyItem(1, Some(0)))) && s2 == Solo([1], [1], dead, [], Quiet, NoBlock)
    ensures Enabled(s, BlockGo(0, true)) && LeavesOne(s, BlockGo(0, true), 0) && Next(s, BlockGo(0, true)) == s2
  {
  }
}
