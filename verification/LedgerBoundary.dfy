/** What the ledger still knows of the preparations it has forgotten. */
module LedgerBoundary {
  import opened Wrappers
  import opened Sums
  import opened ProgressLog
  import opened LedgerTypes
  import opened LedgerSteps
  import opened LedgerRuns

  ghost predicate HasTombstone(ts: seq<Tombstone>, id: Id, wall: nat) {
    exists i :: 0 <= i < |ts| && ts[i].id == id && ts[i].forgottenAtWall == wall
  }

  /** A preparation forgotten at this instant still has its tombstone, or lies within the noted boundary. */
  ghost predicate Remembered(w: World, id: Id, wall: nat) {
    HasTombstone(w.tombstones, id, wall) || (w.evictedThrough.Some? && wall <= w.evictedThrough.value)
  }

  lemma {:induction false} DropRemembers(ts: seq<Tombstone>, through: Option<nat>, id: Id, wall: nat)
    requires ts != []
    requires HasTombstone(ts, id, wall) || (through.Some? && wall <= through.value)
    ensures var through' := NoteEviction(through, ts[0]);
      HasTombstone(ts[1..], id, wall) || (through'.Some? && wall <= through'.value)
  {
    if HasTombstone(ts, id, wall) {
      var i :| 0 <= i < |ts| && ts[i].id == id && ts[i].forgottenAtWall == wall;
      if i > 0 { assert ts[1..][i - 1] == ts[i]; }
    }
  }

  lemma {:induction false} PushKeeps(ts: seq<Tombstone>, t: Tombstone, id: Id, wall: nat)
    requires HasTombstone(ts, id, wall)
    ensures HasTombstone(ts + [t], id, wall)
  {
    var i :| 0 <= i < |ts| && ts[i].id == id && ts[i].forgottenAtWall == wall;
    assert (ts + [t])[i] == ts[i];
  }

  predicate Unnoted(e: Event) { e.TombstoneDropped? && !e.noted }

  /** The last resort takes this very preparation's tombstone. */
  ghost predicate Takes(w: World, e: Event, id: Id) {
    Unnoted(e) && w.tombstones != [] && w.tombstones[0].id == id
  }

  lemma {:induction false} ForgetRemembers(w: World, e: Event, w': World, id: Id, wall: nat)
    requires e.Forgot? && e.id in w.records && w' == Forget(w, e.id, e.state, e.now, e.wall) && Remembered(w, id, wall)
    ensures Remembered(w', id, wall)
  {
    hide HasTombstone, NoteEviction;
    var ts := w.tombstones;
    var t := TombstoneOf(e.id, w.records[e.id], e.state, e.now, e.wall);
    if |ts| == MAX_TOMBSTONES {
      DropRemembers(ts, w.evictedThrough, id, wall);
      if HasTombstone(ts[1..], id, wall) { PushKeeps(ts[1..], t, id, wall); }
    } else if HasTombstone(ts, id, wall) {
      PushKeeps(ts, t, id, wall);
    }
  }

  lemma {:induction false} DropOther(ts: seq<Tombstone>, id: Id, wall: nat)
    requires ts != [] && ts[0].id != id && HasTombstone(ts, id, wall)
    ensures HasTombstone(ts[1..], id, wall)
  {
    var i :| 0 <= i < |ts| && ts[i].id == id && ts[i].forgottenAtWall == wall;
    assert ts[1..][i - 1] == ts[i];
  }

  lemma {:induction false} StepRemembers(c: Costs, w: World, e: Event, w': World, id: Id, wall: nat)
    requires Step(c, w, e, w') && Remembered(w, id, wall) && !Takes(w, e, id)
    ensures Remembered(w', id, wall)
  {
    hide Justified, HasTombstone, NoteEviction, LedgerSteps.Forget;
    if e.TombstoneDropped? {
      if e.noted {
        DropRemembers(w.tombstones, w.evictedThrough, id, wall);
      } else if HasTombstone(w.tombstones, id, wall) {
        DropOther(w.tombstones, id, wall);
      }
    } else if e.Forgot? {
      ForgetRemembers(w, e, w', id, wall);
    } else {
      hide Step;
      SameTombstones(c, w, e, w');
    }
  }

  lemma {:induction false} SameTombstones(c: Costs, w: World, e: Event, w': World)
    requires Step(c, w, e, w') && !e.Forgot? && !e.TombstoneDropped?
    ensures w'.tombstones == w.tombstones && w'.evictedThrough == w.evictedThrough
  {
    hide Step;
    if OnTokens(e) {
      TokensFrame(c, w, e, w');
    } else if OnRecord(e) {
      RecordFrame(c, w, e, w');
    } else {
      OthersFrame(c, w, e, w');
    }
  }

  lemma {:induction false} ForgottenIsRemembered(c: Costs, w: World, e: Event, w': World)
    requires Step(c, w, e, w') && e.Forgot?
    ensures Remembered(w', e.id, e.wall)
  {
    hide Justified;
    var ts := w'.tombstones;
    assert ts[|ts| - 1].id == e.id && ts[|ts| - 1].forgottenAtWall == e.wall;
  }

  // --- One tombstone at most, and none after the last ---

  ghost predicate DistinctIds(ts: seq<Tombstone>) {
    forall i, j :: 0 <= i < j < |ts| ==> ts[i].id != ts[j].id
  }

  ghost predicate NoTombstone(ts: seq<Tombstone>, id: Id) {
    forall i :: 0 <= i < |ts| ==> ts[i].id != id
  }

  lemma {:induction false} PushDistinct(ts: seq<Tombstone>, t: Tombstone)
    requires DistinctIds(ts) && NoTombstone(ts, t.id)
    ensures DistinctIds(PushTombstone(ts, t))
  {
    var kept := if |ts| == MAX_TOMBSTONES then ts[1..] else ts;
    forall i, j | 0 <= i < j < |kept| ensures kept[i].id != kept[j].id {
      if kept != ts { assert kept[i] == ts[i + 1] && kept[j] == ts[j + 1]; }
    }
    forall i | 0 <= i < |kept| ensures kept[i].id != t.id {
      if kept != ts { assert kept[i] == ts[i + 1]; }
    }
  }

  lemma {:induction false} NotForARecord(ts: seq<Tombstone>, records: Records, past: Pasts, id: Id)
    requires TombstonesInv(ts, records, past) && id in records
    ensures NoTombstone(ts, id)
  {
    forall i | 0 <= i < |ts| ensures ts[i].id != id { assert TombstoneInv(ts[i], records, past); }
  }

  lemma {:induction false} StepKeepsDistinct(c: Costs, w: World, e: Event, w': World)
    requires Step(c, w, e, w') && TombstonesInv(w.tombstones, w.records, w.past) && DistinctIds(w.tombstones)
    ensures DistinctIds(w'.tombstones)
  {
    hide Justified, DistinctIds, NoTombstone, TombstonesInv, NoteEviction, PushTombstone;
    if e.Forgot? {
      NotForARecord(w.tombstones, w.records, w.past, e.id);
      PushDistinct(w.tombstones, TombstoneOf(e.id, w.records[e.id], e.state, e.now, e.wall));
    } else if e.TombstoneDropped? {
      TailDistinct(w.tombstones);
    } else {
      hide Step;
      SameTombstones(c, w, e, w');
    }
  }

  lemma {:induction false} TailDistinct(ts: seq<Tombstone>)
    requires DistinctIds(ts) && ts != []
    ensures DistinctIds(ts[1..]) && NoTombstone(ts[1..], ts[0].id)
  {
    assert forall i :: 0 <= i < |ts| - 1 ==> ts[1..][i] == ts[i + 1];
  }

  lemma {:induction false} RunDistinct(c: Costs, states: seq<World>, events: seq<Event>, j: nat)
    requires IsRun(c, states, events) && j < |states|
    ensures DistinctIds(states[j].tombstones)
  {
    hide Step, RecordsInv, LogsInv, TombstonesInv, TokensConserved, WithinLimits;
    if j > 0 {
      hide DistinctIds;
      RunDistinct(c, states, events, j - 1);
      RunInv(c, states, events, j - 1);
      StepKeepsDistinct(c, states[j - 1], events[j - 1], states[j]);
    }
  }

  /** The preparation was here, and neither record nor tombstone is left of it. */
  ghost predicate Traceless(w: World, id: Id) {
    id in w.past && id !in w.records && NoTombstone(w.tombstones, id)
  }

  lemma {:induction false} StepKeepsTraceless(c: Costs, w: World, e: Event, w': World, id: Id)
    requires Step(c, w, e, w') && Traceless(w, id)
    ensures Traceless(w', id)
  {
    hide Justified, FindTombstone, NoteEviction, StoredBytes, PreparedCount, PushTombstone;
    if OnTokens(e) {
      hide Step;
      TokensFrame(c, w, e, w');
    } else if OnRecord(e) {
      StillKnown(c, w, e, w');
      RecordFrame(c, w, e, w');
      hide Step;
    } else {
      OthersFrame(c, w, e, w');
      if e.Forgot? { PushOther(w.tombstones, TombstoneOf(e.id, w.records[e.id], e.state, e.now, e.wall), id); }
    }
  }

  lemma {:induction false} StillKnown(c: Costs, w: World, e: Event, w': World)
    requires Step(c, w, e, w') && OnRecord(e)
    ensures w.past.Keys <= w'.past.Keys
  {
    hide Justified, FindTombstone, Append, DropFront, Clear, Accepts;
  }

  lemma {:induction false} PushOther(ts: seq<Tombstone>, t: Tombstone, id: Id)
    requires NoTombstone(ts, id)
    ensures t.id != id ==> NoTombstone(PushTombstone(ts, t), id)
  {
  }

  lemma {:induction false} TracelessForever(c: Costs, states: seq<World>, events: seq<Event>, i: nat, j: nat, id: Id)
    requires IsRun(c, states, events) && i <= j < |states| && Traceless(states[i], id)
    ensures Traceless(states[j], id)
  {
    hide Step, Traceless;
    if i < j {
      TracelessForever(c, states, events, i, j - 1, id);
      StepKeepsTraceless(c, states[j - 1], events[j - 1], states[j], id);
    }
  }

  lemma {:induction false} TakenIsTraceless(c: Costs, w: World, e: Event, w': World, id: Id)
    requires Step(c, w, e, w') && TombstonesInv(w.tombstones, w.records, w.past) && DistinctIds(w.tombstones)
    requires Takes(w, e, id)
    ensures Traceless(w', id)
  {
    hide Justified;
    assert TombstoneInv(w.tombstones[0], w.records, w.past);
    TailDistinct(w.tombstones);
  }

  // --- When a forgotten preparation is remembered ---

  ghost predicate TakenBetween(states: seq<World>, events: seq<Event>, i: nat, j: nat, id: Id)
    requires |states| == |events| + 1
  {
    exists k :: i < k < j && k < |events| && Takes(states[k], events[k], id)
  }

  lemma {:induction false} UntakenIsRemembered(c: Costs, states: seq<World>, events: seq<Event>, i: nat, j: nat)
    requires IsRun(c, states, events) && i < j < |states| && events[i].Forgot?
    requires !TakenBetween(states, events, i, j, events[i].id)
    ensures Remembered(states[j], events[i].id, events[i].wall)
  {
    hide Step, Remembered, Takes;
    if j == i + 1 {
      ForgottenIsRemembered(c, states[i], events[i], states[j]);
    } else {
      assert !Takes(states[j - 1], events[j - 1], events[i].id);
      UntakenIsRemembered(c, states, events, i, j - 1);
      StepRemembers(c, states[j - 1], events[j - 1], states[j], events[i].id, events[i].wall);
    }
  }

  lemma {:induction false} TakenIsGone(c: Costs, states: seq<World>, events: seq<Event>, i: nat, j: nat, id: Id)
    requires IsRun(c, states, events) && i < j < |states| && TakenBetween(states, events, i, j, id)
    ensures NoTombstone(states[j].tombstones, id)
  {
    hide Step, Takes, RecordsInv, LogsInv, TombstonesInv, TokensConserved, WithinLimits, DistinctIds;
    var k :| i < k < j && k < |events| && Takes(states[k], events[k], id);
    RunInv(c, states, events, k);
    RunDistinct(c, states, events, k);
    TakenIsTraceless(c, states[k], events[k], states[k + 1], id);
    TracelessForever(c, states, events, k + 1, j, id);
  }

  /**
   A forgotten preparation is remembered, by its tombstone or by the reported boundary, exactly when the last
   resort did not take its own tombstone in between, or the boundary has reached the instant it was forgotten.
   */
  lemma {:induction false} RememberedExactlyWhen(
      c: Costs, states: seq<World>, events: seq<Event>, i: nat, j: nat)
    requires IsRun(c, states, events) && i < j < |states| && events[i].Forgot?
    ensures var id, wall, through := events[i].id, events[i].wall, states[j].evictedThrough;
      Remembered(states[j], id, wall) <==>
        !TakenBetween(states, events, i, j, id) || (through.Some? && wall <= through.value)
  {
    hide Step, TakenBetween;
    if TakenBetween(states, events, i, j, events[i].id) {
      TakenIsGone(c, states, events, i, j, events[i].id);
    } else {
      UntakenIsRemembered(c, states, events, i, j);
    }
  }

  ghost predicate AllNoted(events: seq<Event>, i: nat, j: nat) {
    forall k :: i < k < j && k < |events| ==> !Unnoted(events[k])
  }

  /**
   In particular, as long as no tombstone is dropped unnoted, every forgotten preparation is. So a caller told that
   its preparation was never seen, and that the boundary lies before its own last contact, knows it was never
   prepared here.
   */
  lemma {:induction false} BoundaryCoversForgotten(c: Costs, states: seq<World>, events: seq<Event>, i: nat, j: nat)
    requires IsRun(c, states, events) && i < j < |states| && events[i].Forgot? && AllNoted(events, i, j)
    ensures Remembered(states[j], events[i].id, events[i].wall)
  {
    hide Step, Remembered;
    RememberedExactlyWhen(c, states, events, i, j);
  }

  /** The step that loses a preparation: over the ceiling, with nothing else left beside a record already stripped. */
  ghost predicate LosesAt(c: Costs, w: World, e: Event, id: Id) {
    && Takes(w, e, id) && OverCeiling(c, w) && w.finishing.Some? && w.finishing.value in w.records
    && SettlementOf(w.records[w.finishing.value]) == Settlement(Indeterminate, None)
    && NothingElse(w.records, w.finishing.value)
  }

  lemma {:induction false} LostOnlyByLastResort(c: Costs, states: seq<World>, events: seq<Event>, i: nat, j: nat)
    requires IsRun(c, states, events) && i < j < |states| && events[i].Forgot?
    requires !Remembered(states[j], events[i].id, events[i].wall)
    ensures exists k :: i < k < j && k < |events| && LosesAt(c, states[k], events[k], events[i].id)
  {
    RememberedExactlyWhen(c, states, events, i, j);
    var k :| i < k < j && k < |events| && Takes(states[k], events[k], events[i].id);
    assert Step(c, states[k], events[k], states[k + 1]);
    assert LosesAt(c, states[k], events[k], events[i].id);
  }

  // --- The other side of the boundary ---

  ghost predicate Ascending(ts: seq<Tombstone>) {
    forall i, j :: 0 <= i < j < |ts| ==> ts[i].forgottenAtWall <= ts[j].forgottenAtWall
  }

  ghost predicate Between(ts: seq<Tombstone>, low: nat, high: nat) {
    low <= high && forall i :: 0 <= i < |ts| ==> low <= ts[i].forgottenAtWall <= high
  }

  function Low(through: Option<nat>): nat { if through.None? then 0 else through.value }

  /** Tombstones stand in the order of their instants, none before the boundary and none after the last. */
  ghost predicate InOrder(w: World, last: nat) {
    Ascending(w.tombstones) && Between(w.tombstones, Low(w.evictedThrough), last)
  }

  lemma {:induction false} DropKeepsOrder(ts: seq<Tombstone>, through: Option<nat>, last: nat)
    requires ts != [] && Ascending(ts) && Between(ts, Low(through), last)
    ensures Ascending(ts[1..]) && Between(ts[1..], Low(through), last)
    ensures Between(ts[1..], Low(NoteEviction(through, ts[0])), last)
  {
    assert forall i :: 0 <= i < |ts| - 1 ==> ts[1..][i] == ts[i + 1];
  }

  lemma {:induction false} PushKeepsOrder(ts: seq<Tombstone>, low: nat, last: nat, t: Tombstone)
    requires Ascending(ts) && Between(ts, low, last) && last <= t.forgottenAtWall
    ensures Ascending(ts + [t]) && Between(ts + [t], low, t.forgottenAtWall)
  {
  }

  function LastWall(events: seq<Event>): nat {
    if events == [] then 0
    else if events[|events| - 1].Forgot? then events[|events| - 1].wall
    else LastWall(events[..|events| - 1])
  }

  /** The wall clock never runs backwards between two forgettings. */
  ghost predicate Monotone(events: seq<Event>) {
    forall i :: 0 <= i < |events| && events[i].Forgot? ==> LastWall(events[..i]) <= events[i].wall
  }

  lemma {:induction false} StepKeepsOrder(c: Costs, w: World, e: Event, w': World, last: nat)
    requires Step(c, w, e, w') && InOrder(w, last) && (e.Forgot? ==> last <= e.wall)
    ensures InOrder(w', if e.Forgot? then e.wall else last)
  {
    hide Justified, Ascending, Between, NoteEviction, Low;
    var ts := w.tombstones;
    if e.TombstoneDropped? {
      DropKeepsOrder(ts, w.evictedThrough, last);
    } else if e.Forgot? {
      var t := TombstoneOf(e.id, w.records[e.id], e.state, e.now, e.wall);
      if |ts| == MAX_TOMBSTONES {
        DropKeepsOrder(ts, w.evictedThrough, last);
        PushKeepsOrder(ts[1..], Low(NoteEviction(w.evictedThrough, ts[0])), last, t);
      } else {
        PushKeepsOrder(ts, Low(w.evictedThrough), last, t);
      }
    } else {
      hide Step;
      SameTombstones(c, w, e, w');
    }
  }

  lemma {:induction false} EmptyInOrder()
    ensures InOrder(EMPTY, 0)
  {
  }

  /** With a monotone wall clock, every surviving tombstone is from the boundary or later. */
  lemma {:induction false} SurvivorsAreNoOlder(c: Costs, states: seq<World>, events: seq<Event>, j: nat)
    requires IsRun(c, states, events) && j < |states| && Monotone(events)
    ensures InOrder(states[j], LastWall(events[..j]))
  {
    hide Step, InOrder;
    if j == 0 {
      EmptyInOrder();
    } else {
      SurvivorsAreNoOlder(c, states, events, j - 1);
      assert events[..j][..j - 1] == events[..j - 1];
      StepKeepsOrder(c, states[j - 1], events[j - 1], states[j], LastWall(events[..j - 1]));
    }
  }

  // --- A run in which the boundary fails ---

  /** Sizes like those of a 64-bit platform. */
  const SIZES: Costs := Costs(24, 512, 544, 144, 144, 40, 608, 96)
  const GONE: Id := "a"
  const KEPT: Id := "b"
  const CALL: Id := "i"
  const WALL: nat := 1_700_000_600
  const DONE: Outcome := Outcome(KindCompleted, false, "")

  /** An operation just large enough to fill the ledger beside one tombstone and the large reservation. */
  const OPERATION_BYTES: nat := 215_021
  const STORED_BYTES: nat := 216_735
  const RESIZED_BYTES: nat := 478_310
  const LEFT_BYTES: nat := 313
  const STARTED_BYTES: nat := 1_469

  function Ready(at: nat): Record {
    Record(true, OPERATION_BYTES, "", 0, at, at + RETENTION_TTL, None, None, Prepared, false, None, None, EMPTY_LOG)
  }

  const LEFT: Tombstone := TombstoneOf(GONE, Ready(0), Forgotten, RETENTION_TTL, WALL)

  /** The ledger after one more preparation, the only one it then holds. */
  function Holding(w: World, id: Id, r: Record, bytes: nat): World {
    w.(records := map[id := r], past := w.past[id := NO_PAST], counters := Counters(bytes, 0, 0, 0))
  }

  const FIRST: World := Holding(EMPTY, GONE, Ready(0), STORED_BYTES)
  const LAPSED: World := FIRST.(records := map[], tombstones := [LEFT])
  const EMPTIED: World := LAPSED.(counters := Counters(LEFT_BYTES, 0, 0, 0))
  const SECOND: World := Holding(EMPTIED, KEPT, Ready(RETENTION_TTL), LEFT_BYTES + STORED_BYTES)
  const FULL: World := Reserve(SECOND, 2, LargeReservation(SIZES))
  const STARTED: Record := StartedRecord(Ready(RETENTION_TTL), CALL)
  const LEASED: Past := NO_PAST.(invocation := Some(CALL), lease := Some(OPERATION_BYTES + SIZES.leaseOverhead))
  const RUNNING: World := FULL.(records := map[KEPT := STARTED], past := FULL.past[KEPT := LEASED],
    counters := FULL.counters.(runningBytes := OPERATION_BYTES + SIZES.leaseOverhead))
  const OVER: World := RUNNING.(counters := RUNNING.counters.(bytes := STARTED_BYTES))
  const SETTLED: World :=
    OVER.(records := map[KEPT := SettledRecord(STARTED, Some(DONE), RETENTION_TTL)], finishing := Some(KEPT))
  const STRIPPED: World :=
    SETTLED.(records := map[KEPT := StrippedRecord(SettledRecord(STARTED, Some(DONE), RETENTION_TTL))])
  const DROPPED: World := STRIPPED.(tombstones := [])

  lemma {:induction false} OneCharge(id: Id, r: Record)
    ensures SumOf(Charges(SIZES, map[id := r])) == RecordBytes(SIZES, id, r)
    ensures PreparedCount(map[id := r]) == if r.state.Prepared? then 1 else 0
  {
    hide SumOf;
    var none: Records := map[];
    SumPut(Charges(SIZES, none), id, RecordBytes(SIZES, id, r));
    assert Charges(SIZES, none) == map[];
    assert Charges(SIZES, map[id := r]) == Charges(SIZES, none)[id := RecordBytes(SIZES, id, r)];
    PreparedPut(none, id, r);
    assert none[id := r] == map[id := r];
    NonePrepared();
    assert SumOf<Id>(map[]) == 0 by { NoSum(); }
  }

  lemma {:induction false} NoSum()
    ensures SumOf<Id>(map[]) == 0
  {
  }

  lemma {:induction false} NonePrepared()
    ensures PreparedCount(map[]) == 0
  {
    var none: Records := map[];
    assert PreparedMarks(none) == map[];
  }

  lemma {:induction false} Weights(at: nat)
    ensures RecordBytes(SIZES, GONE, Ready(at)) == RecordBytes(SIZES, KEPT, Ready(at)) == STORED_BYTES
    ensures ReservationBytes(SIZES, GONE, Ready(at)) == ReservationBytes(SIZES, KEPT, Ready(at)) == RESIZED_BYTES
    ensures RecordBytes(SIZES, KEPT, STARTED) + LEFT_BYTES == STARTED_BYTES
    ensures OPERATION_BYTES <= MAX_PREPARED_OPERATION_BYTES
  {
  }

  lemma {:induction false} LeftWeighs()
    ensures TombstonesBytes(SIZES, [LEFT]) == LEFT_BYTES
  {
    assert TombstonesBytes(SIZES, [LEFT]) == TombstoneBytes(SIZES, LEFT) + TombstonesBytes(SIZES, [LEFT][1..]);
  }

  lemma {:induction false} ReservedStep(c: Costs, w: World, token: nat, bytes: nat)
    requires CanReserve(w, token) && TotalOf(c, Reserve(w, token, bytes)) <= MAX_LEDGER_BYTES
    ensures Step(c, w, Reserved(token, bytes), Reserve(w, token, bytes))
  {
  }

  lemma {:induction false} ResizedStep(c: Costs, w: World, token: nat, bytes: nat)
    requires HoldsToken(w, token) && TotalOf(c, Resize(w, token, bytes)) <= MAX_LEDGER_BYTES
    ensures Step(c, w, Resized(token, bytes), Resize(w, token, bytes))
  {
  }

  lemma {:induction false} CommittedStep(c: Costs, w: World, token: nat, id: Id, r: Record)
    requires CanCommit(w, token, id, r)
    ensures Step(c, w, Committed(token, id, r), Commit(w, token, id, r))
  {
  }

  lemma {:induction false} RefreshedStep(c: Costs, w: World, bytes: nat)
    requires bytes == StoredBytes(c, w.records, w.tombstones)
    ensures Step(c, w, Refreshed(bytes), Refresh(w, bytes))
  {
  }

  ghost predicate AtRest(w: World) {
    w.records == map[] && w.tokens == map[] && w.finishing.None? && w.counters == Counters(w.counters.bytes, 0, 0, 0)
  }

  /** One preparation as the server makes it: reserved small, resized to its record, committed and counted. */
  lemma {:induction false} PreparationSteps(w: World, token: nat, id: Id, r: Record, bytes: nat)
    requires AtRest(w) && w.counters.bytes <= LEFT_BYTES && id !in w.past && NewRecord(r)
    requires bytes == RecordBytes(SIZES, id, r) + TombstonesBytes(SIZES, w.tombstones)
    ensures var reserved := Reserve(w, token, SMALL_PREPARATION_RESERVATION_BYTES);
      var resized := Resize(reserved, token, RESIZED_BYTES);
      var committed := Commit(resized, token, id, r);
      && Step(SIZES, w, Reserved(token, SMALL_PREPARATION_RESERVATION_BYTES), reserved)
      && Step(SIZES, reserved, Resized(token, RESIZED_BYTES), resized)
      && Step(SIZES, resized, Committed(token, id, r), committed)
      && Step(SIZES, committed, Refreshed(bytes), Holding(w, id, r, bytes))
  {
    hide Step, SumOf, PreparedCount, Charges, RecordBytes, TombstonesBytes, NewRecord;
    NonePrepared();
    var reserved := Reserve(w, token, SMALL_PREPARATION_RESERVATION_BYTES);
    ReservedStep(SIZES, w, token, SMALL_PREPARATION_RESERVATION_BYTES);
    ResizedStep(SIZES, reserved, token, RESIZED_BYTES);
    var resized := Resize(reserved, token, RESIZED_BYTES);
    CommittedStep(SIZES, resized, token, id, r);
    var committed := Commit(resized, token, id, r);
    assert committed.records == map[id := r];
    OneCharge(id, r);
    RefreshedStep(SIZES, committed, bytes);
    assert committed.tokens == map[];
    assert Refresh(committed, bytes) == Holding(w, id, r, bytes);
  }

  function Last(states: seq<World>): World
    requires states != []
  {
    states[|states| - 1]
  }

  lemma {:induction false} Prepare(states: seq<World>, events: seq<Event>, token: nat, id: Id, r: Record, bytes: nat)
    returns (states': seq<World>, events': seq<Event>)
    requires IsRun(SIZES, states, events) && AtRest(Last(states)) && Last(states).counters.bytes <= LEFT_BYTES
    requires id !in Last(states).past && NewRecord(r)
    requires bytes == RecordBytes(SIZES, id, r) + TombstonesBytes(SIZES, Last(states).tombstones)
    ensures IsRun(SIZES, states', events') && Last(states') == Holding(Last(states), id, r, bytes)
    ensures events <= events' && |events'| == |events| + 4
  {
    hide Step, RecordBytes, TombstonesBytes, NewRecord, Commit, Holding;
    var w := Last(states);
    PreparationSteps(w, token, id, r, bytes);
    var reserved := Reserve(w, token, SMALL_PREPARATION_RESERVATION_BYTES);
    var resized := Resize(reserved, token, RESIZED_BYTES);
    var committed := Commit(resized, token, id, r);
    states' := states + [reserved, resized, committed, Holding(w, id, r, bytes)];
    events' := events + [Reserved(token, SMALL_PREPARATION_RESERVATION_BYTES), Resized(token, RESIZED_BYTES),
                         Committed(token, id, r), Refreshed(bytes)];
  }

  lemma {:induction false} FirstLapses()
    ensures Step(SIZES, FIRST, Forgot(GONE, Forgotten, RETENTION_TTL, WALL), LAPSED)
    ensures Step(SIZES, LAPSED, Refreshed(LEFT_BYTES), EMPTIED)
  {
    hide SumOf, TombstonesBytes;
    assert LAPSED == Forget(FIRST, GONE, Forgotten, RETENTION_TTL, WALL);
    LeftWeighs();
    NoSum();
    assert Charges(SIZES, LAPSED.records) == map[];
    RefreshedStep(SIZES, LAPSED, LEFT_BYTES);
  }

  lemma {:induction false} CeilingIsFilled()
    ensures Step(SIZES, SECOND, Reserved(2, LargeReservation(SIZES)), FULL)
    ensures TotalOf(SIZES, FULL) == MAX_LEDGER_BYTES
  {
    hide SumOf, PreparedCount, Step, Charges, RecordBytes;
    OneCharge(KEPT, Ready(RETENTION_TTL));
    assert |SECOND.records| == 1;
    assert CanReserve(SECOND, 2);
    ReservedStep(SIZES, SECOND, 2, LargeReservation(SIZES));
  }

  lemma {:induction false} SecondIsStarted()
    ensures Step(SIZES, FULL, Started(KEPT, CALL, "", RETENTION_TTL), RUNNING)
  {
    hide SumOf, PreparedCount, FindTombstone;
    assert RUNNING == BeginRun(SIZES, FULL, KEPT, CALL);
  }

  lemma {:induction false} RunningIsCounted()
    ensures Step(SIZES, RUNNING, Refreshed(STARTED_BYTES), OVER)
  {
    hide SumOf, TombstonesBytes, Step, RecordBytes, Charges, PreparedCount;
    OneCharge(KEPT, STARTED);
    LeftWeighs();
    Weights(0);
    RefreshedStep(SIZES, RUNNING, STARTED_BYTES);
  }

  lemma {:induction false} SecondIsSettled()
    ensures Step(SIZES, OVER, Settled(KEPT, CALL, Some(DONE), RETENTION_TTL), SETTLED)
  {
    assert SETTLED == Settle(OVER, KEPT, Some(DONE), RETENTION_TTL);
  }

  lemma {:induction false} OutcomeIsGivenUp()
    ensures Step(SIZES, SETTLED, Stripped(KEPT), STRIPPED)
  {
    assert ByTermination(SETTLED.records, KEPT) == map[];
    assert STRIPPED == Strip(SETTLED, KEPT);
  }

  lemma {:induction false} LastResortDrops()
    ensures Step(SIZES, STRIPPED, TombstoneDropped(false, RETENTION_TTL), DROPPED)
  {
    assert ByTermination(STRIPPED.records, KEPT) == map[];
    assert DROPPED == DropTombstone(STRIPPED, false);
  }

  lemma {:induction false} RunToEmptied() returns (states: seq<World>, events: seq<Event>)
    ensures IsRun(SIZES, states, events) && Last(states) == EMPTIED
    ensures |events| == 6 && events[4] == Forgot(GONE, Forgotten, RETENTION_TTL, WALL)
  {
    hide Step, RecordBytes, ReservationBytes, Holding;
    Weights(0);
    states, events := Prepare([EMPTY], [], 0, GONE, Ready(0), STORED_BYTES);
    FirstLapses();
    states := states + [LAPSED, EMPTIED];
    events := events + [Forgot(GONE, Forgotten, RETENTION_TTL, WALL), Refreshed(LEFT_BYTES)];
  }

  lemma {:induction false} RunToFull() returns (states: seq<World>, events: seq<Event>)
    ensures IsRun(SIZES, states, events) && Last(states) == FULL
    ensures |events| == 11 && events[4] == Forgot(GONE, Forgotten, RETENTION_TTL, WALL)
  {
    hide Step, RecordBytes, ReservationBytes, TombstonesBytes;
    states, events := RunToEmptied();
    Weights(RETENTION_TTL);
    LeftWeighs();
    states, events := Prepare(states, events, 1, KEPT, Ready(RETENTION_TTL), LEFT_BYTES + STORED_BYTES);
    CeilingIsFilled();
    states := states + [FULL];
    events := events + [Reserved(2, LargeReservation(SIZES))];
  }

  lemma {:induction false} RunToDropped() returns (states: seq<World>, events: seq<Event>)
    ensures IsRun(SIZES, states, events) && |states| == |events| + 1 && Last(states) == DROPPED
    ensures |events| == 16 && events[4] == Forgot(GONE, Forgotten, RETENTION_TTL, WALL)
  {
    hide Step, LargeReservation, Reserve;
    states, events := RunToFull();
    SecondIsStarted();
    RunningIsCounted();
    SecondIsSettled();
    OutcomeIsGivenUp();
    LastResortDrops();
    states := states + [RUNNING, OVER, SETTLED, STRIPPED, DROPPED];
    events := events + [Started(KEPT, CALL, "", RETENTION_TTL), Refreshed(STARTED_BYTES),
                        Settled(KEPT, CALL, Some(DONE), RETENTION_TTL), Stripped(KEPT),
                        TombstoneDropped(false, RETENTION_TTL)];
  }

  lemma {:induction false} DroppedRemembersNothing()
    ensures !Remembered(DROPPED, GONE, WALL)
  {
  }

  /**
   The last resort breaks the boundary: a preparation lapses, the next one fills the ledger beside the large
   reservation of a third, its start passes the ceiling, and its finish drops the only tombstone unnoted. Neither
   tombstone nor boundary remembers the first.
   */
  lemma {:induction false} LastResortForgetsUnnoted()
    ensures exists states: seq<World>, events: seq<Event>, i: nat ::
      && IsRun(SIZES, states, events) && i < |events| && |states| > 0 && events[i].Forgot?
      && !Remembered(states[|states| - 1], events[i].id, events[i].wall)
  {
    hide Step, IsRun, Remembered;
    var s, e := RunToDropped();
    DroppedRemembersNothing();
    assert e[4].Forgot?;
  }
}
