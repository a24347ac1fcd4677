/**
 Statements with a grace period (`keepMs`): what a loss of support does (db.c 619-660), the slots in
 which removals wait (sysmon.c 43-52, 296-318), the scan that carries them out (sysmon.c 83-102), and
 the time a kept statement outlives its last support.
 */
module Keep {
  import opened Wrappers

  const SYSMON_TICK_MS := 3

  // --- One loss of support ------------------------------------------------------------------------------

  datatype Outcome = Stay | Schedule | Remove
  datatype Loss = Loss(parentCount: int, keepMs: int, outcome: Outcome)

  // statementDecrParentCountAndMaybeRemoveSelf.  The sign of keepMs says whether a removal is scheduled;
  // the scheduled removal itself counts as a parent until it is carried out.
  function Decr(parentCount: int, keepMs: int): Loss {
    if keepMs > 0 then
      if parentCount - 1 == 0 then Loss(1, -keepMs, Schedule) else Loss(parentCount - 1, keepMs, Stay)
    else if keepMs < 0 then
      if parentCount - 1 == 0 then Loss(0, keepMs, Remove) else Loss(parentCount - 1, -keepMs, Stay)
    else
      if parentCount - 1 == 0 then Loss(0, 0, Remove) else Loss(parentCount - 1, 0, Stay)
  }

  // --- The remove-later slots ---------------------------------------------------------------------------

  // ref 0 is the null ref and marks an empty slot.
  datatype Slot = Slot(ref: nat, canRemoveAt: int)
  const NO_SLOT := Slot(0, 0)

  predicate Due(slot: Slot, tick: int) {
    slot.ref != 0 && slot.canRemoveAt > 0 && tick >= slot.canRemoveAt
  }

  // What sysmonScheduleRemoveAfter is asked for.
  datatype Request = Request(ref: nat, afterMs: nat)

  function Entry(r: Request, tick: int): Slot {
    Slot(r.ref, tick + r.afterMs / SYSMON_TICK_MS)
  }

  // The first empty slot; |slots| if there is none.
  function FirstEmpty(slots: seq<Slot>): (i: nat)
    ensures i <= |slots| && (i < |slots| ==> slots[i].ref == 0)
    ensures forall j :: 0 <= j < i ==> slots[j].ref != 0
  {
    if slots == [] || slots[0].ref == 0 then 0 else 1 + FirstEmpty(slots[1..])
  }

  // The slots after scheduling r; None when there is no room and the process exits.
  function Placed(slots: seq<Slot>, r: Request, tick: int): (after: Option<seq<Slot>>)
    ensures after.Some? ==> |after.value| == |slots|
  {
    var i := FirstEmpty(slots);
    if i < |slots| then Some(slots[i := Entry(r, tick)]) else None
  }

  // sysmonScheduleRemoveAfter
  method ScheduleRemoveAfter(slots: array<Slot>, r: Request, tick: int) returns (ok: bool)
    requires r.ref != 0
    modifies slots
    ensures ok <==> Placed(old(slots[..]), r, tick).Some?
    ensures slots[..] == if ok then Placed(old(slots[..]), r, tick).value else old(slots[..])
    ensures ok <==> exists i :: 0 <= i < slots.Length && old(slots[i]).ref == 0
    ensures ok ==> exists i :: 0 <= i < slots.Length && old(slots[i]).ref == 0 && (forall j :: 0 <= j < i ==> old(slots[j]).ref != 0)
                      && slots[i].ref == r.ref && slots[i].canRemoveAt == tick + Grace(r.afterMs)
                      && forall j :: 0 <= j < slots.Length && j != i ==> slots[j] == old(slots[j])
  {
    for i := 0 to slots.Length
      invariant slots[..] == old(slots[..])
      invariant forall j :: 0 <= j < i ==> slots[j].ref != 0
    {
      if slots[i].ref == 0 {
        assert slots[..][i].ref == 0;
        slots[i] := Entry(r, tick);
        return true;
      }
    }
    ok := false;
  }

  function PlacedAll(slots: seq<Slot>, rs: seq<Request>, tick: int): (after: Option<seq<Slot>>)
    ensures after.Some? ==> |after.value| == |slots|
    decreases |rs|
  {
    if rs == [] then Some(slots)
    else match Placed(slots, rs[0], tick)
      case None => None
      case Some(ss) => PlacedAll(ss, rs[1..], tick)
  }

  // What a scan comes to: it runs out of slots, or leaves slots, having fired and been asked for some.
  datatype Scanned = Exhausted | Scanned(slots: seq<Slot>, fired: seq<Slot>, made: seq<Slot>)

  function Entries(rs: seq<Request>, tick: int): (xs: seq<Slot>)
    ensures |xs| == |rs| && forall i :: 0 <= i < |rs| ==> xs[i] == Entry(rs[i], tick)
  {
    seq(|rs|, i requires 0 <= i < |rs| => Entry(rs[i], tick))
  }

  // The scan from slot i on.  Carrying out the removal in slot j asks for the removals asked[j] (the
  // statement itself again, or others that lose their last support), and only then is the slot emptied.
  function ScanFrom(slots: seq<Slot>, i: nat, tick: int, asked: seq<seq<Request>>): Scanned
    requires |asked| == |slots|
    decreases |slots| - i
  {
    if i >= |slots| then Scanned(slots, [], [])
    else if !Due(slots[i], tick) then ScanFrom(slots, i + 1, tick, asked)
    else match PlacedAll(slots, asked[i], tick)
      case None => Exhausted
      case Some(ss) =>
        match ScanFrom(ss[i := NO_SLOT], i + 1, tick, asked)
        case Exhausted => Exhausted
        case Scanned(after, fired, made) => Scanned(after, [slots[i]] + fired, Entries(asked[i], tick) + made)
  }

  predicate AllNamed(asked: seq<seq<Request>>) {
    forall j, k :: 0 <= j < |asked| && 0 <= k < |asked[j]| ==> asked[j][k].ref != 0
  }

  // The removal scan of sysmon.
  method Scan(slots: array<Slot>, tick: int, asked: seq<seq<Request>>) returns (ok: bool, fired: seq<nat>)
    requires |asked| == slots.Length && AllNamed(asked)
    modifies slots
    ensures ok <==> ScanFrom(old(slots[..]), 0, tick, asked).Scanned?
    ensures ok ==> slots[..] == ScanFrom(old(slots[..]), 0, tick, asked).slots
    ensures ok ==> fired == Refs(ScanFrom(old(slots[..]), 0, tick, asked).fired)
  {
    fired := [];
    ok := true;
    ghost var goal := ScanFrom(slots[..], 0, tick, asked);
    for i := 0 to slots.Length
      invariant ok
      invariant goal.Scanned? <==> ScanFrom(slots[..], i, tick, asked).Scanned?
      invariant goal.Scanned? ==> goal.slots == ScanFrom(slots[..], i, tick, asked).slots
      invariant goal.Scanned? ==> Refs(goal.fired) == fired + Refs(ScanFrom(slots[..], i, tick, asked).fired)
    {
      if slots[i].ref != 0 {
        var canRemoveAt := slots[i].canRemoveAt;
        if canRemoveAt > 0 && tick >= canRemoveAt {
          ghost var before := slots[..];
          ok := ScheduleEach(slots, asked[i], tick);
          if !ok {
            return;
          }
          PlacedAllKeeps(before, asked[i], tick, i);
          fired := fired + [slots[i].ref];
          slots[i] := NO_SLOT;
          assert slots[..] == PlacedAll(before, asked[i], tick).value[i := NO_SLOT];
        }
      }
    }
  }

  method ScheduleEach(slots: array<Slot>, rs: seq<Request>, tick: int) returns (ok: bool)
    requires forall k :: 0 <= k < |rs| ==> rs[k].ref != 0
    modifies slots
    ensures ok <==> PlacedAll(old(slots[..]), rs, tick).Some?
    ensures ok ==> slots[..] == PlacedAll(old(slots[..]), rs, tick).value
  {
    ok := true;
    ghost var goal := PlacedAll(slots[..], rs, tick);
    for k := 0 to |rs|
      invariant ok && goal == PlacedAll(slots[..], rs[k..], tick)
    {
      assert rs[k..][0] == rs[k] && rs[k..][1..] == rs[k + 1..];
      ok := ScheduleRemoveAfter(slots, rs[k], tick);
      if !ok {
        return;
      }
    }
  }

  function Refs(xs: seq<Slot>): (r: seq<nat>)
    ensures |r| == |xs| && forall i :: 0 <= i < |xs| ==> r[i] == xs[i].ref
  {
    if xs == [] then [] else [xs[0].ref] + Refs(xs[1..])
  }

  // Scheduling leaves occupied slots alone.
  lemma {:induction false} PlacedAllKeeps(slots: seq<Slot>, rs: seq<Request>, tick: int, j: nat)
    requires j < |slots| && slots[j].ref != 0 && PlacedAll(slots, rs, tick).Some?
    ensures PlacedAll(slots, rs, tick).value[j] == slots[j]
    decreases |rs|
  {
    if rs != [] {
      PlacedAllKeeps(Placed(slots, rs[0], tick).value, rs[1..], tick, j);
    }
  }

  // ... and what is in a slot afterwards was there before or is one of the new entries.
  lemma {:induction false} PlacedAllFrom(slots: seq<Slot>, rs: seq<Request>, tick: int, j: nat)
    requires j < |slots| && PlacedAll(slots, rs, tick).Some?
    ensures PlacedAll(slots, rs, tick).value[j] == slots[j] || PlacedAll(slots, rs, tick).value[j] in Entries(rs, tick)
    decreases |rs|
  {
    if rs != [] {
      PlacedAllFrom(Placed(slots, rs[0], tick).value, rs[1..], tick, j);
      assert Entries(rs, tick) == [Entry(rs[0], tick)] + Entries(rs[1..], tick);
    }
  }

  lemma {:induction false} PlacedAllCounts(slots: seq<Slot>, rs: seq<Request>, tick: int, x: Slot)
    requires x.ref != 0 && PlacedAll(slots, rs, tick).Some?
    ensures multiset(PlacedAll(slots, rs, tick).value)[x] == multiset(slots)[x] + multiset(Entries(rs, tick))[x]
    decreases |rs|
  {
    if rs != [] {
      var ss := Placed(slots, rs[0], tick).value;
      PlacedAllCounts(ss, rs[1..], tick, x);
      UpdateCount(slots, FirstEmpty(slots), Entry(rs[0], tick), x);
      assert Entries(rs, tick) == [Entry(rs[0], tick)] + Entries(rs[1..], tick);
    }
  }

  lemma UpdateCount(slots: seq<Slot>, i: nat, y: Slot, x: Slot)
    requires i < |slots|
    ensures multiset(slots[i := y])[x] + multiset([slots[i]])[x] == multiset(slots)[x] + multiset([y])[x]
  {
    assert slots == slots[..i] + [slots[i]] + slots[i + 1..];
    assert slots[i := y] == slots[..i] + [y] + slots[i + 1..];
  }

  // No removal is lost or carried out twice: what was in the slots and what the scan asked for is what
  // is in the slots now and what fired.
  lemma {:induction false} ScanConserves(slots: seq<Slot>, i: nat, tick: int, asked: seq<seq<Request>>, x: Slot)
    requires |asked| == |slots| && x.ref != 0 && ScanFrom(slots, i, tick, asked).Scanned?
    ensures var r := ScanFrom(slots, i, tick, asked);
            multiset(slots)[x] + multiset(r.made)[x] == multiset(r.slots)[x] + multiset(r.fired)[x]
    decreases |slots| - i
  {
    if i < |slots| {
      if Due(slots[i], tick) {
        var ss := PlacedAll(slots, asked[i], tick).value;
        PlacedAllCounts(slots, asked[i], tick, x);
        PlacedAllKeeps(slots, asked[i], tick, i);
        UpdateCount(ss, i, NO_SLOT, x);
        ScanConserves(ss[i := NO_SLOT], i + 1, tick, asked, x);
      } else {
        ScanConserves(slots, i + 1, tick, asked, x);
      }
    }
  }

  // Only due removals fire; a removal that is not due stays in its slot; and whatever is due afterwards
  // was asked for during the scan, with a delay of less than a tick.
  lemma {:induction false} ScanFires(slots: seq<Slot>, i: nat, tick: int, asked: seq<seq<Request>>, j: nat)
    requires |asked| == |slots| && i <= |slots| && ScanFrom(slots, i, tick, asked).Scanned? && j < |slots|
    ensures var r := ScanFrom(slots, i, tick, asked);
            && |r.slots| == |slots|
            && (forall k :: 0 <= k < |r.fired| ==> Due(r.fired[k], tick))
            && (slots[j].ref != 0 && (j < i || !Due(slots[j], tick)) ==> r.slots[j] == slots[j])
            && (Due(r.slots[j], tick) ==> r.slots[j] in r.made || (j < i && r.slots[j] == slots[j]))
    decreases |slots| - i
  {
    if i < |slots| {
      if Due(slots[i], tick) {
        var ss := PlacedAll(slots, asked[i], tick).value;
        if slots[j].ref != 0 {
          PlacedAllKeeps(slots, asked[i], tick, j);
        }
        PlacedAllFrom(slots, asked[i], tick, j);
        ScanFires(ss[i := NO_SLOT], i + 1, tick, asked, j);
      } else {
        ScanFires(slots, i + 1, tick, asked, j);
      }
    }
  }

  // --- The life of one kept statement --------------------------------------------------------------------

  // late: scheduled during the scan that is going on, which may have passed the slot already.
  datatype Timer = Timer(deadline: int, late: bool)

  // support: live matches and outstanding asserts behind the statement.  timers: its pending removals.
  // lastLoss and removedAt are history.
  datatype State = State(
    now: int,
    scanning: bool,
    support: nat,
    parentCount: int,
    keepMs: int,
    timers: seq<Timer>,
    lastLoss: int,
    removedAt: Option<int>)

  datatype Action =
    | Gain                      // statementTryIncrParentCount by a new parent
    | Lose                      // a parent goes away
    | Tick                      // sysmon raises the tick and begins its scan
    | Fire(i: nat)              // ... carries out a due removal
    | EndScan                   // ... and has carried out all that were due when it began

  function Init(now: int, keepMs: int): State {
    State(now, false, 1, 1, keepMs, [], now, None)
  }

  function Grace(keepMs: int): int {
    (if keepMs < 0 then -keepMs else keepMs) / SYSMON_TICK_MS
  }

  predicate Enabled(s: State, a: Action) {
    s.removedAt.None? &&
    match a
    case Gain => s.parentCount != 0
    case Lose => s.support > 0
    case Tick => !s.scanning
    case Fire(i) => s.scanning && i < |s.timers| && s.timers[i].deadline <= s.now
    case EndScan => s.scanning && forall i :: 0 <= i < |s.timers| && s.timers[i].deadline <= s.now ==> s.timers[i].late
  }

  function AfterLoss(s: State): State {
    var loss := Decr(s.parentCount, s.keepMs);
    var s1 := s.(parentCount := loss.parentCount, keepMs := loss.keepMs);
    match loss.outcome
    case Stay => s1
    case Schedule => s1.(timers := s.timers + [Timer(s.now + Grace(s.keepMs), s.scanning)])
    case Remove => s1.(removedAt := Some(s.now))
  }

  function Next(s: State, a: Action): State
    requires Enabled(s, a)
  {
    match a
    case Gain => s.(parentCount := s.parentCount + 1, support := s.support + 1)
    case Lose => AfterLoss(s.(support := s.support - 1, lastLoss := s.now))
    case Tick => s.(now := s.now + 1, scanning := true)
    case Fire(i) => AfterLoss(s.(timers := s.timers[..i] + s.timers[i + 1..]))
    case EndScan =>
      s.(scanning := false, timers := seq(|s.timers|, i requires 0 <= i < |s.timers| => s.timers[i].(late := false)))
  }

  // A removal that is due on scheduling waits for the next scan at the latest.
  function AtLeastOne(k: int): int {
    if k < 1 then 1 else k
  }

  // The last tick at which a removal can still be carried out.
  function Latest(s: State, t: Timer): int {
    if t.deadline > s.now then t.deadline
    else if s.scanning && !t.late then s.now
    else s.now + 1
  }

  predicate Inv(s: State) {
    var k := Grace(s.keepMs);
    && s.lastLoss <= s.now
    && (s.removedAt.Some? ==>
          && s.support == 0 && s.removedAt.value == s.now
          && s.lastLoss + k <= s.now <= s.lastLoss + 2 * AtLeastOne(k)
          && (s.keepMs == 0 ==> s.now == s.lastLoss))
    && (s.removedAt.None? ==>
          && s.parentCount == s.support + |s.timers| >= 1
          && |s.timers| <= (if s.keepMs == 0 then 0 else 1)
          && (s.keepMs < 0 ==> |s.timers| == 1)
          && (|s.timers| == 1 ==> TimerOk(s, s.timers[0])))
  }

  predicate TimerOk(s: State, t: Timer) {
    var k := Grace(s.keepMs);
    && t.deadline <= s.now + k
    && (t.late ==> s.scanning)
    && (s.support == 0 && s.keepMs < 0 ==> s.lastLoss + k <= t.deadline && Latest(s, t) <= s.lastLoss + 2 * AtLeastOne(k))
    && (s.support == 0 && s.keepMs > 0 ==> Latest(s, t) <= s.lastLoss + AtLeastOne(k))
  }

  lemma LossKeepsInv(s: State, a: Action)
    requires Inv(s) && Enabled(s, a) && (a.Lose? || a.Fire?)
    ensures Inv(Next(s, a)) && Grace(Next(s, a).keepMs) == Grace(s.keepMs)
    ensures Next(s, a).keepMs == 0 <==> s.keepMs == 0
  {
    if a.Fire? {
      assert s.timers[..a.i] + s.timers[a.i + 1..] == [];
    } else if s.timers == [] {
      assert forall t :: s.timers + [t] == [t];
    }
  }

  lemma StepKeepsInv(s: State, a: Action)
    requires Inv(s) && Enabled(s, a)
    ensures Inv(Next(s, a)) && Grace(Next(s, a).keepMs) == Grace(s.keepMs)
    ensures Next(s, a).keepMs == 0 <==> s.keepMs == 0
  {
    if a.Lose? || a.Fire? {
      LossKeepsInv(s, a);
    }
  }

  ghost predicate Leads(s: State, acts: seq<Action>, s2: State)
    decreases |acts|
  {
    if acts == [] then s2 == s else Enabled(s, acts[0]) && Leads(Next(s, acts[0]), acts[1..], s2)
  }

  lemma {:induction false} RunKeepsInv(s: State, acts: seq<Action>, s2: State)
    requires Inv(s) && Leads(s, acts, s2)
    ensures Inv(s2) && Grace(s2.keepMs) == Grace(s.keepMs)
    ensures s2.keepMs == 0 <==> s.keepMs == 0
    decreases |acts|
  {
    if acts != [] {
      StepKeepsInv(s, acts[0]);
      RunKeepsInv(Next(s, acts[0]), acts[1..], s2);
    }
  }

  // Through any history of losses, revivals and reschedules, for every keepMs: the statement is removed
  // only when it has no support, no sooner than one and no later than two grace periods after its last
  // loss (a grace period of no tick may take one), at once if it is not kept; and while it is unsupported
  // that time cannot pass without its removal.
  lemma GracePeriod(now: int, keepMs: nat, acts: seq<Action>, s: State)
    requires Leads(Init(now, keepMs), acts, s)
    ensures var k := keepMs / SYSMON_TICK_MS;
            && (s.removedAt.Some? ==> s.support == 0 && s.lastLoss + k <= s.removedAt.value <= s.lastLoss + 2 * AtLeastOne(k))
            && (s.removedAt.Some? && keepMs == 0 ==> s.removedAt.value == s.lastLoss)
            && (s.removedAt.None? && s.support == 0 ==> keepMs > 0 && s.now <= s.lastLoss + 2 * AtLeastOne(k))
            && (s.removedAt.None? ==> s.parentCount == s.support + |s.timers| && |s.timers| <= 1)
  {
    RunKeepsInv(Init(now, keepMs), acts, s);
  }
}
