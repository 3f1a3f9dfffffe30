/**
 The ledger itself: fields updated in place, with its eviction loops.

 Every method extends `states` and `events`, the run so far, by exactly the steps it takes, so what
 `LedgerRuns` proves of every run holds of every sequence of calls. Between calls `Valid` also holds
 the byte account and the byte bound.
 */
module LedgerHost {
  import opened Wrappers
  import opened Sums
  import opened ProgressLog
  import opened LedgerTypes
  import opened LedgerSteps
  import opened LedgerRow
  import opened LedgerBare
  import opened LedgerRuns

  /** The earliest entry, as `min_by_key` over a filtered iterator finds it. */
  method Earliest(m: map<Id, nat>) returns (best: Option<Id>)
    ensures best.None? <==> m == map[]
    ensures best.Some? ==> EarliestIn(m, best.value)
  {
    best := None;
    var left := m.Keys;
    while left != {}
      invariant left <= m.Keys
      invariant best.Some? ==> best.value in m
      invariant best.None? ==> left == m.Keys
      invariant forall k :: k in m && k !in left ==> best.Some? && m[best.value] <= m[k]
      decreases |left|
    {
      var k :| k in left;
      if best.None? || m[k] < m[best.value] { best := Some(k); }
      left := left - {k};
    }
  }

  ghost function ProgressCounts(m: Records): map<Id, nat> { map id | id in m :: |m[id].log.events| }

  lemma {:induction false} ProgressShrinks(m: Records, id: Id, r: Record)
    requires id in m && |r.log.events| < |m[id].log.events|
    ensures SumOf(ProgressCounts(m[id := r])) < SumOf(ProgressCounts(m))
  {
    hide SumOf;
    SumPut(ProgressCounts(m), id, |r.log.events|);
    assert ProgressCounts(m[id := r]) == ProgressCounts(m)[id := |r.log.events|];
  }

  lemma {:induction false} ProgressBytesPop(c: Costs, l: Log)
    requires l.events != []
    ensures ProgressBytes(c, DropFront(l).events) <= ProgressBytes(c, l.events)
  {
  }

  lemma {:induction false} TombstoneIsNoDearer(c: Costs, id: Id, r: Record, t: Tombstone)
    requires ValidCosts(c) && t.id == id && t.invocation == r.invocation
    ensures TombstoneBytes(c, t) <= NetRecordBytes(c, id, r)
  {
  }

  /** Forgetting a record never raises the net total. */
  lemma {:induction false} ForgetShrinksNet(c: Costs, m: Records, ts: seq<Tombstone>, id: Id, t: Tombstone)
    requires ValidCosts(c) && id in m && t.id == id && t.invocation == m[id].invocation
    ensures NetBytes(c, m - {id}, PushTombstone(ts, t)) <= NetBytes(c, m, ts)
  {
    hide SumOf;
    NetRemove(c, m, id, ts);
    TombstoneIsNoDearer(c, id, m[id], t);
    TombstonesPush(c, if |ts| == MAX_TOMBSTONES then ts[1..] else ts, t);
  }

  lemma {:induction false} EmptySum(c: Costs)
    ensures SumOf(Charges(c, map[])) == 0
  {
    assert Charges(c, map[]) == map[];
  }

  lemma {:induction false} ChargesRemove(c: Costs, m: Records, id: Id)
    requires id in m
    ensures SumOf(Charges(c, m)) == RecordBytes(c, id, m[id]) + SumOf(Charges(c, m - {id}))
  {
    hide SumOf;
    SumRemove(Charges(c, m), id);
    assert Charges(c, m - {id}) == Charges(c, m) - {id};
  }

  /** Recomputes what every record and tombstone is charged. */
  method CountBytes(c: Costs, records: Records, tombstones: seq<Tombstone>) returns (total: nat)
    ensures total == StoredBytes(c, records, tombstones)
  {
    hide SumOf, RecordBytes, TombstoneBytes;
    var left := records;
    total := 0;
    while left != map[]
      invariant total + SumOf(Charges(c, left)) == SumOf(Charges(c, records))
      decreases |left|
    {
      var id :| id in left;
      ChargesRemove(c, left, id);
      total := total + RecordBytes(c, id, left[id]);
      left := left - {id};
    }
    EmptySum(c);
    var i := 0;
    while i < |tombstones|
      invariant 0 <= i <= |tombstones|
      invariant total + TombstonesBytes(c, tombstones[i..]) == StoredBytes(c, records, tombstones)
    {
      assert tombstones[i..][1..] == tombstones[i + 1..];
      total := total + TombstoneBytes(c, tombstones[i]);
      i := i + 1;
    }
  }

  /** The step `forget` takes, and that it never raises the net total. */
  lemma {:induction false} ForgotStep(c: Costs, w: World, id: Id, state: OperationState, now: nat, wall: nat)
    requires ValidCosts(c) && CanForget(w, id, state) && Justified(c, w, Forgot(id, state, now, wall))
    ensures Step(c, w, Forgot(id, state, now, wall), LedgerSteps.Forget(w, id, state, now, wall))
    ensures var w' := LedgerSteps.Forget(w, id, state, now, wall);
      NetBytes(c, w'.records, w'.tombstones) <= NetBytes(c, w.records, w.tombstones)
  {
    hide NetBytes, Justified;
    ForgetShrinksNet(c, w.records, w.tombstones, id, TombstoneOf(id, w.records[id], state, now, wall));
  }

  /** Records that differ from others at most in their progress logs. */
  ghost predicate OnlyLogsDiffer(m: Records, m': Records) {
    m'.Keys == m.Keys && forall id :: id in m ==> m'[id] == m[id].(log := m'[id].log)
  }

  lemma {:induction false} NoneByCreation(m: Records)
    requires ByCreation(m) == map[]
    ensures NoProgressLeft(m)
  {
    forall id | id in m ensures m[id].log.events == [] { assert id !in ByCreation(m); }
  }

  lemma {:induction false} SameLogsDiffer(m: Records)
    ensures OnlyLogsDiffer(m, m)
  {
  }

  lemma {:induction false} LogsDifferFurther(a: Records, b: Records, c: Records)
    requires OnlyLogsDiffer(a, b) && OnlyLogsDiffer(b, c)
    ensures OnlyLogsDiffer(a, c)
  {
    forall id | id in a ensures c[id] == a[id].(log := c[id].log) {
      assert b[id] == a[id].(log := b[id].log) && c[id] == b[id].(log := c[id].log);
    }
  }

  lemma {:induction false} BareLogsAreNoDearer(c: Costs, m: Records, m': Records, ts: seq<Tombstone>)
    requires OnlyLogsDiffer(m, m') && NoProgressLeft(m')
    ensures NetBytes(c, m', ts) <= NetBytes(c, m, ts)
  {
    hide SumOf;
    forall id | id in m' ensures NetRecordBytes(c, id, m'[id]) <= NetRecordBytes(c, id, m[id]) {
      assert m'[id] == m[id].(log := m'[id].log);
    }
    SumMonotone(NetCharges(c, m'), NetCharges(c, m));
  }

  lemma {:induction false} MarksRemove(m: Records, id: Id)
    requires id in m
    ensures PreparedCount(m) == PreparedCount(m - {id}) + (if m[id].state.Prepared? then 1 else 0)
  {
    hide SumOf;
    SumRemove(PreparedMarks(m), id);
    assert PreparedMarks(m - {id}) == PreparedMarks(m) - {id};
  }

  method CountPrepared(records: Records) returns (n: nat)
    ensures n == PreparedCount(records)
  {
    hide PreparedCount;
    var left := records;
    n := 0;
    while left != map[]
      invariant n + PreparedCount(left) == PreparedCount(records)
      decreases |left|
    {
      var id :| id in left;
      MarksRemove(left, id);
      if left[id].state.Prepared? { n := n + 1; }
      left := left - {id};
    }
    NothingPrepared();
  }

  lemma {:induction false} NothingPrepared()
    ensures PreparedCount(map[]) == 0
  {
    assert PreparedMarks(map[]) == map[];
  }

  /** The step `evict_oldest_progress` takes, and that it frees what it drops. */
  lemma {:induction false} ProgressDroppedStep(c: Costs, w: World, id: Id)
    requires HasProgress(w, id)
    ensures Justified(c, w, ProgressTrimmed(id)) ==> Step(c, w, ProgressTrimmed(id), DropProgress(w, id))
    ensures Justified(c, w, ProgressDropped(id)) ==> Step(c, w, ProgressDropped(id), DropProgress(w, id))
    ensures DropProgress(w, id) == w.(records := w.records[id := w.records[id].(log := DropFront(w.records[id].log))])
    ensures OnlyLogsDiffer(w.records, DropProgress(w, id).records)
    ensures NetBytes(c, DropProgress(w, id).records, w.tombstones) <= NetBytes(c, w.records, w.tombstones)
    ensures SumOf(ProgressCounts(DropProgress(w, id).records)) < SumOf(ProgressCounts(w.records))
  {
    hide NetBytes, SumOf, ProgressCounts, Justified;
    var r := w.records[id].(log := DropFront(w.records[id].log));
    assert w.past[id := w.past[id]] == w.past;
    ProgressBytesPop(c, w.records[id].log);
    NetPut(c, w.records, id, r, w.tombstones);
    ProgressShrinks(w.records, id, r);
  }

  /** The row of tombstones once everyone else has given way, and the recent end of it that is left. */
  ghost predicate RowLeft(m: Records, ts: seq<Tombstone>, row: seq<Tombstone>, left: seq<Tombstone>, protected: Id) {
    && |left| <= |row| && left == row[|row| - |left|..]
    && (ByTermination(m, protected) == map[] ==> row == ts)
    && RowFrom(ByTermination(m, protected), ts, row)
  }

  /** Tombstones that were there before, or were left by settled records giving way. */
  ghost predicate RowFrom(settled: map<Id, nat>, ts: seq<Tombstone>, row: seq<Tombstone>) {
    forall t :: t in row ==> t in ts || (t.id in settled && t.state.Indeterminate?)
  }

  lemma {:induction false} RowFromItself(settled: map<Id, nat>, ts: seq<Tombstone>)
    ensures RowFrom(settled, ts, ts)
  {
  }

  lemma {:induction false} RowFromPush(settled: map<Id, nat>, ts: seq<Tombstone>, row: seq<Tombstone>, t: Tombstone)
    requires RowFrom(settled, ts, row) && t.id in settled && t.state.Indeterminate?
    ensures RowFrom(settled, ts, PushTombstone(row, t))
  {
    forall u | u in PushTombstone(row, t) && u != t ensures u in row { }
  }

  lemma {:induction false} SurvivorTermination(m: Records, m': Records, protected: Id)
    requires Survive(m, m')
    ensures ByTermination(m', protected).Keys <= ByTermination(m, protected).Keys
  {
    forall id | id in m' ensures m'[id] == m[id].(log := m'[id].log) { }
  }

  lemma {:induction false} SettleKeepsOthers(m: Records, id: Id, outcome: Option<Outcome>, now: nat)
    requires id in m
    ensures ByTermination(m[id := SettledRecord(m[id], outcome, now)], id) == ByTermination(m, id)
  {
  }

  lemma {:induction false} SameTermination(m: Records, m': Records, protected: Id)
    requires OnlyLogsDiffer(m, m')
    ensures ByTermination(m', protected) == ByTermination(m, protected)
  {
    forall id | id in m ensures m'[id] == m[id].(log := m'[id].log) { }
  }

  lemma {:induction false} SurviveFurther(a: Records, b: Records, c: Records)
    requires Survive(a, b) && Survive(b, c)
    ensures Survive(a, c)
  {
    forall id | id in c ensures c[id] == a[id].(log := c[id].log) {
      assert b[id] == a[id].(log := b[id].log) && c[id] == b[id].(log := c[id].log);
    }
  }

  lemma {:induction false} SurvivesItself(m: Records)
    ensures Survive(m, m)
  {
  }

  lemma {:induction false} SurvivorState(a: Records, b: Records, id: Id)
    requires Survive(a, b) && id in b
    ensures id in a && a[id].state == b[id].state && a[id].outcome == b[id].outcome
  {
  }

  lemma {:induction false} RemovalSurvives(m: Records, id: Id)
    ensures Survive(m, m - {id})
  {
  }

  lemma {:induction false} LogChangeSurvives(m: Records, m': Records)
    requires OnlyLogsDiffer(m, m')
    ensures Survive(m, m') && m'.Keys == m.Keys
  {
  }

  lemma {:induction false} RemovalKeepsNoProgress(m: Records, id: Id)
    requires NoProgressLeft(m)
    ensures NoProgressLeft(m - {id})
  {
  }

  lemma {:induction false} CommittedStep(c: Costs, w: World, token: nat, id: Id, r: Record)
    requires Inv(w) && CanCommit(w, token, id, r)
    ensures Step(c, w, Committed(token, id, r), Commit(w, token, id, r))
    ensures w.counters.reservedBytes >= w.tokens[token] && w.counters.reservations >= 1
  {
    hide Inv, NewRecord;
    RollBackKeepsInv(w, token);
  }

  lemma {:induction false} SettledStep(c: Costs, w: World, id: Id, invocation: Id, outcome: Option<Outcome>, now: nat)
    requires IsRunning(w, id, invocation)
    ensures Step(c, w, Settled(id, invocation, outcome, now), Settle(w, id, outcome, now))
    ensures Settle(w, id, outcome, now)
      == w.(records := w.records[id := SettledRecord(w.records[id], outcome, now)], finishing := Some(id))
    ensures w.records[id].outcome.None? ==>
      NetBytes(c, Settle(w, id, outcome, now).records, w.tombstones)
      == NetBytes(c, w.records, w.tombstones) + OutcomeBytes(SettledRecord(w.records[id], outcome, now))
  {
    hide NetBytes, SumOf;
    assert w.past[id := w.past[id]] == w.past;
    NetPut(c, w.records, id, SettledRecord(w.records[id], outcome, now), w.tombstones);
  }

  lemma {:induction false} StartedStep(c: Costs, w: World, id: Id, invocation: Id, host: string, now: nat)
    requires CanStart(w, id, invocation, host, now)
    ensures Step(c, w, Started(id, invocation, host, now), BeginRun(c, w, id, invocation))
    ensures NetBytes(c, BeginRun(c, w, id, invocation).records, w.tombstones)
      + w.records[id].preparedBytes + c.leaseOverhead == NetBytes(c, w.records, w.tombstones)
    ensures w.records[id].execution.None? ==>
      Slack(c, BeginRun(c, w, id, invocation).records) == Slack(c, w.records) + 2 * IdBytes(c, invocation)
  {
    hide NetBytes, Slack, SumOf, FindTombstone;
    NetPut(c, w.records, id, StartedRecord(w.records[id], invocation), w.tombstones);
    SlackPut(c, w.records, id, StartedRecord(w.records[id], invocation));
  }

  lemma {:induction false} ProgressedStep(c: Costs, w: World, id: Id, invocation: Id, event: ProgressEvent)
    requires IsRunning(w, id, invocation) && Accepts(w.records[id].log, event)
    ensures Step(c, w, Progressed(id, invocation, event), LedgerSteps.Progress(w, id, event))
    ensures OnlyLogsDiffer(w.records, LedgerSteps.Progress(w, id, event).records)
  {
  }

  /** Nothing left to evict beside the protected record's own bare bookkeeping. */
  ghost predicate Exhausted(m: Records, ts: seq<Tombstone>, protected: Id) {
    NoProgressLeft(m) && ByTermination(m, protected) == map[] && ts == []
    && (protected in m ==> m[protected].outcome.None?)
  }

  lemma {:induction false} StripLeavesNothing(m: Records, protected: Id)
    requires protected in m && NoProgressLeft(m) && ByTermination(m, protected) == map[]
    ensures var m' := m[protected := StrippedRecord(m[protected])];
      NoProgressLeft(m') && ByTermination(m', protected) == map[]
  {
    var m' := m[protected := StrippedRecord(m[protected])];
    forall id | id in m' ensures id !in ByTermination(m', protected) {
      assert id !in ByTermination(m, protected);
    }
  }

  /** The step that takes a protected record's outcome and progress back. */
  lemma {:induction false} StrippedStep(c: Costs, w: World, id: Id)
    requires IsFinishing(w, id) && Justified(c, w, Stripped(id))
    ensures Step(c, w, Stripped(id), Strip(w, id))
    ensures Strip(w, id) == w.(records := w.records[id := StrippedRecord(w.records[id])])
    ensures NetBytes(c, Strip(w, id).records, w.tombstones) + OutcomeBytes(w.records[id])
      <= NetBytes(c, w.records, w.tombstones)
    ensures NoProgressLeft(w.records) ==> NoProgressLeft(Strip(w, id).records)
  {
    hide NetBytes, SumOf, Justified;
    assert w.past[id := w.past[id]] == w.past;
    NetPut(c, w.records, id, StrippedRecord(w.records[id]), w.tombstones);
  }

  /** Exactly the expired records are gone, and no token, lease or history with them. */
  ghost predicate PrunedTo(w: World, w': World, now: nat) {
    && w'.records == w.records - (set id | id in w.records && Expired(w.records[id], now))
    && w' == w.(records := w'.records, tombstones := w'.tombstones, evictedThrough := w'.evictedThrough,
                counters := w.counters.(bytes := w'.counters.bytes))
  }

  lemma {:induction false} AnyWall(c: Costs, w: World, id: Id, state: OperationState, now: nat, wall: nat)
    requires Justified(c, w, Forgot(id, state, now, 0))
    ensures Justified(c, w, Forgot(id, state, now, wall))
  {
  }

  lemma {:induction false} NothingIsNotOverfull(l: Log)
    ensures l.events == [] ==> !Overfull(l)
  {
  }

  datatype StatusReply =
    | StatusRefused
    | StatusIs(state: OperationState, outcome: Option<Outcome>, metadata: Metadata, progress: seq<ProgressEvent>)

  function StatusOf(records: Records, tombstones: seq<Tombstone>, id: Id, invocation: Option<Id>): StatusReply {
    if id in records then
      var r := records[id];
      if invocation.Some? && r.invocation != invocation then StatusRefused
      else StatusIs(r.state, r.outcome, MetadataOf(r.log), r.log.events)
    else
      var t := FindTombstone(tombstones, id);
      if t.None? then StatusIs(NeverSeen, None, Metadata(None, 1, false), [])
      else if invocation.Some? && t.value.invocation != invocation then StatusRefused
      else StatusIs(t.value.state, None, t.value.metadata, [])
  }

  function StatusAfterOf(records: Records, tombstones: seq<Tombstone>, id: Id, invocation: Option<Id>, cursor: nat)
    : StatusReply
  {
    var s := StatusOf(records, tombstones, id, invocation);
    if s.StatusRefused? then s
    else if cursor == U64_MAX || cursor >= s.metadata.next then StatusRefused
    else s.(progress := After(s.progress, cursor))
  }

  /** Retains the events after a cursor. */
  method KeepAfter(progress: seq<ProgressEvent>, cursor: nat) returns (kept: seq<ProgressEvent>)
    ensures kept == After(progress, cursor)
  {
    kept := [];
    var i := 0;
    while i < |progress|
      invariant 0 <= i <= |progress|
      invariant kept + After(progress[i..], cursor) == After(progress, cursor)
    {
      assert progress[i..][1..] == progress[i + 1..];
      if progress[i].sequence > cursor { kept := kept + [progress[i]]; }
      i := i + 1;
    }
  }

  class Ledger {
    const costs: Costs
    var records: Records
    var tombstones: seq<Tombstone>
    var bytes: nat
    var reservedBytes: nat
    var runningBytes: nat
    var reservations: nat
    var evictedThrough: Option<nat>

    ghost var tokens: map<nat, nat>
    ghost var past: Pasts
    ghost var finishing: Option<Id>
    ghost var states: seq<World>
    ghost var events: seq<Event>

    ghost function Now(): World
      reads this
    {
      World(records, tombstones, evictedThrough, Counters(bytes, reservedBytes, runningBytes, reservations),
            tokens, past, finishing)
    }

    /** The fields are the last state of a run of the transition system. */
    ghost predicate Coherent()
      reads this
    {
      ValidCosts(costs) && |states| > 0 && IsRun(costs, states, events) && states[|states| - 1] == Now() && Inv(Now())
    }

    ghost predicate Accounted()
      reads this
    {
      bytes == StoredBytes(costs, records, tombstones)
    }

    ghost function NetTotal(): nat
      reads this
    {
      NetBytes(costs, records, tombstones) + reservedBytes + runningBytes + reservations * costs.reservation
    }

    function TotalBytes(): nat
      reads this
    {
      bytes + reservedBytes + runningBytes + reservations * costs.reservation
    }

    /** The account is exact and exceeds the ceiling by no more than the ids invoked records hold. */
    ghost predicate Valid()
      reads this
    {
      Coherent() && Accounted() && finishing.None?
      && TotalBytes() <= MAX_LEDGER_BYTES + Slack(costs, records)
    }

    lemma {:induction false} TotalIsNetPlusSlack()
      requires Accounted()
      ensures TotalBytes() == NetTotal() + Slack(costs, records)
    {
      hide SumOf;
      StoredIsNetPlusSlack(costs, records, tombstones);
    }

    twostate predicate SameTokens()
      reads this
    {
      tokens == old(tokens) && past == old(past) && finishing == old(finishing)
      && reservedBytes == old(reservedBytes) && runningBytes == old(runningBytes)
      && reservations == old(reservations)
    }

    /** The run so far is only ever extended. */
    twostate predicate Extends()
      reads this
    {
      old(states) <= states && old(events) <= events
    }

    constructor (costs: Costs)
      requires ValidCosts(costs)
      ensures Valid() && this.costs == costs && Now() == EMPTY && events == []
    {
      this.costs := costs;
      records, tombstones, bytes, reservedBytes, runningBytes, reservations := map[], [], 0, 0, 0, 0;
      evictedThrough := None;
      tokens, past, finishing := map[], map[], None;
      states, events := [EMPTY], [];
      new;
      EmptyInv();
      assert Charges(costs, records) == map[];
    }

    /** Records the step just taken. */
    ghost method Note(before: World, e: Event)
      requires ValidCosts(costs) && IsRun(costs, states, events) && states[|states| - 1] == before && Inv(before)
      requires Step(costs, before, e, Now())
      modifies this`states, this`events
      ensures Coherent()
      ensures states == old(states) + [Now()] && events == old(events) + [e]
    {
      hide Inv, Step;
      StepKeepsInv(costs, before, e, Now());
      ExtendRun(costs, states, events, e, Now());
      states := states + [Now()];
      events := events + [e];
    }

    method RefreshBytes()
      requires Coherent()
      modifies this`bytes, this`states, this`events
      ensures Coherent() && Accounted() && Extends()
    {
      hide Inv, IsRun, SumOf, StoredBytes;
      ghost var before := Now();
      bytes := CountBytes(costs, records, tombstones);
      Note(before, Refreshed(bytes));
    }

    /** A record becomes a tombstone; a full row of them gives up its oldest, and notes it. */
    method Forget(id: Id, state: OperationState, now: nat) returns (wall: nat)
      requires Coherent() && CanForget(Now(), id, state) && Justified(costs, Now(), Forgot(id, state, now, 0))
      modifies this
      ensures Coherent() && Accounted() && Extends() && SameTokens()
      ensures records == old(records) - {id}
      ensures tombstones == PushTombstone(old(tombstones), TombstoneOf(id, old(records)[id], state, now, wall))
      ensures evictedThrough == ThroughAfter(old(evictedThrough), old(tombstones))
      ensures NetTotal() <= old(NetTotal())
    {
      hide Inv, IsRun, SumOf, NetBytes, StoredBytes, Justified, PushTombstone, TombstoneOf, ThroughAfter, CanForget;
      wall := Bury(id, state, now);
      RefreshBytes();
    }

    method Bury(id: Id, state: OperationState, now: nat) returns (wall: nat)
      requires Coherent() && CanForget(Now(), id, state) && Justified(costs, Now(), Forgot(id, state, now, 0))
      modifies this`records, this`tombstones, this`evictedThrough, this`states, this`events
      ensures Coherent() && Extends() && records == old(records) - {id}
      ensures tombstones == PushTombstone(old(tombstones), TombstoneOf(id, old(records)[id], state, now, wall))
      ensures evictedThrough == ThroughAfter(old(evictedThrough), old(tombstones))
      ensures NetTotal() <= old(NetTotal())
    {
      hide Inv, IsRun, SumOf, NetBytes, Step, NoteEviction, Justified;
      ghost var before := Now();
      wall := *;
      AnyWall(costs, before, id, state, now, wall);
      var t := TombstoneOf(id, records[id], state, now, wall);
      ForgotStep(costs, before, id, state, now, wall);
      if |tombstones| == MAX_TOMBSTONES {
        evictedThrough := NoteEviction(evictedThrough, tombstones[0]);
        tombstones := tombstones[1..];
      }
      tombstones := tombstones + [t];
      records := records - {id};
      Note(before, Forgot(id, state, now, wall));
    }

    /** Drops the oldest tombstone; every caller but the last resort notes the eviction. */
    method PopTombstone(noted: bool, now: nat)
      requires Coherent() && tombstones != [] && Justified(costs, Now(), TombstoneDropped(noted, now))
      modifies this`tombstones, this`evictedThrough, this`states, this`events
      ensures Coherent() && Extends() && tombstones == old(tombstones)[1..]
      ensures evictedThrough
        == if noted then NoteEviction(old(evictedThrough), old(tombstones)[0]) else old(evictedThrough)
      ensures NetTotal() <= old(NetTotal())
    {
      hide Inv, IsRun, SumOf;
      ghost var before := Now();
      if noted { evictedThrough := NoteEviction(evictedThrough, tombstones[0]); }
      tombstones := tombstones[1..];
      Note(before, TombstoneDropped(noted, now));
    }

    /** Every record the clock has run out on becomes a tombstone. */
    method ForgetExpired(now: nat)
      requires Coherent() && Accounted() && finishing.None?
      modifies this
      ensures Coherent() && Accounted() && Extends() && SameTokens()
      ensures records == old(records) - (set id | id in old(records) && Expired(old(records)[id], now))
      ensures NetTotal() <= old(NetTotal())
      ensures (forall id :: id in old(records) ==> !Expired(old(records)[id], now)) ==> Now() == old(Now())
      ensures RowKept(old(tombstones), old(evictedThrough), tombstones, evictedThrough, now)
    {
      hide Coherent, Accounted, Inv, IsRun, SumOf, StoredBytes, NetBytes, NetTotal, RowKept, Expired;
      var doomed := set id | id in records && Expired(records[id], now);
      var left := doomed;
      RowKeptItself(tombstones, evictedThrough, now);
      while left != {}
        invariant Coherent() && Accounted() && Extends() && SameTokens() && left <= doomed
        invariant records == old(records) - (doomed - left) && (doomed == {} ==> Now() == old(Now()))
        invariant NetTotal() <= old(NetTotal())
        invariant RowKept(old(tombstones), old(evictedThrough), tombstones, evictedThrough, now)
        decreases |left|
      {
        var id :| id in left;
        ForgetLapsed(id, now, old(tombstones), old(evictedThrough));
        left := left - {id};
      }
      assert doomed - left == doomed;
    }

    method ForgetLapsed(id: Id, now: nat, ghost ts: seq<Tombstone>, ghost through: Option<nat>)
      requires Coherent() && id in records && Expired(records[id], now) && finishing.None?
      requires RowKept(ts, through, tombstones, evictedThrough, now)
      modifies this
      ensures Coherent() && Accounted() && Extends() && SameTokens() && records == old(records) - {id}
      ensures NetTotal() <= old(NetTotal()) && RowKept(ts, through, tombstones, evictedThrough, now)
    {
      hide Inv, IsRun, SumOf, StoredBytes, NetBytes, NetTotal, RowKept, PushTombstone, ThroughAfter, Coherent,
        Accounted;
      ghost var was, noted := tombstones, evictedThrough;
      ghost var r := records[id];
      var wall := Forget(id, Forgotten, now);
      PushKeepsRow(was, noted, TombstoneOf(id, r, Forgotten, now, wall), now);
      KeptFurther(ts, through, was, noted, tombstones, evictedThrough, now);
    }

    /** Lapsed tombstones go from the front, and the oldest ones while the total is over the ceiling; each is noted. */
    method DropOldTombstones(now: nat)
      requires Coherent()
      modifies this
      ensures Coherent() && Accounted() && Extends() && SameTokens() && records == old(records)
      ensures NetTotal() <= old(NetTotal())
      ensures TotalBytes() <= MAX_LEDGER_BYTES || tombstones == []
      ensures DroppedNoted(old(tombstones), old(evictedThrough), tombstones, evictedThrough)
      ensures |tombstones| <= MAX_TOMBSTONES && (Timely(old(tombstones), now) ==> NoneLapsed(tombstones, now))
      ensures old(Idle(now)) && old(Accounted()) ==> Now() == old(Now())
    {
      hide Coherent, Inv, IsRun, SumOf, StoredBytes, NetBytes, DroppedNoted, Expired, Timely, NoneLapsed, Lapsed;
      DropLapsed(now);
      ghost var row := tombstones;
      LapsedAreGone(old(tombstones), old(evictedThrough), row, evictedThrough, now);
      RefreshBytes();
      DropToCeiling(now, old(tombstones), old(evictedThrough));
      assert Timely(old(tombstones), now) ==> NoneLapsed(row[|row| - |tombstones|..], now);
    }

    method DropLapsed(now: nat)
      requires Coherent()
      modifies this`tombstones, this`evictedThrough, this`states, this`events
      ensures Coherent() && Extends() && NetTotal() <= old(NetTotal())
      ensures DroppedNoted(old(tombstones), old(evictedThrough), tombstones, evictedThrough)
      ensures |tombstones| <= MAX_TOMBSTONES && (tombstones != [] ==> !Lapsed(tombstones[0], now))
      ensures |old(tombstones)| <= MAX_TOMBSTONES && (old(tombstones) != [] ==> !Lapsed(old(tombstones)[0], now)) ==>
        Now() == old(Now())
    {
      hide Coherent, Inv, IsRun, SumOf, NetBytes, DroppedNoted, NoteEviction;
      NoneDropped(tombstones, evictedThrough);
      while (tombstones != [] && Lapsed(tombstones[0], now)) || |tombstones| > MAX_TOMBSTONES
        invariant Coherent() && Extends() && NetTotal() <= old(NetTotal())
        invariant DroppedNoted(old(tombstones), old(evictedThrough), tombstones, evictedThrough)
        invariant
          |old(tombstones)| <= MAX_TOMBSTONES && (old(tombstones) != [] ==> !Lapsed(old(tombstones)[0], now)) ==>
            Now() == old(Now())
        decreases |tombstones|
      {
        OneMoreDropped(old(tombstones), old(evictedThrough), tombstones, evictedThrough);
        PopTombstone(true, now);
      }
    }

    method DropToCeiling(now: nat, ghost ts: seq<Tombstone>, ghost through: Option<nat>)
      requires Coherent() && Accounted() && DroppedNoted(ts, through, tombstones, evictedThrough)
      modifies this`tombstones, this`evictedThrough, this`bytes, this`states, this`events
      ensures Coherent() && Accounted() && Extends() && DroppedNoted(ts, through, tombstones, evictedThrough)
      ensures NetTotal() <= old(NetTotal())
      ensures TotalBytes() <= MAX_LEDGER_BYTES || tombstones == []
      ensures old(TotalBytes()) <= MAX_LEDGER_BYTES ==> Now() == old(Now())
      ensures |tombstones| <= |old(tombstones)| && tombstones == old(tombstones)[|old(tombstones)| - |tombstones|..]
    {
      hide Coherent, Accounted, Inv, IsRun, SumOf, StoredBytes, NetBytes, DroppedNoted;
      while TotalBytes() > MAX_LEDGER_BYTES && tombstones != []
        invariant Coherent() && Accounted() && Extends() && DroppedNoted(ts, through, tombstones, evictedThrough)
        invariant NetTotal() <= old(NetTotal()) && (old(TotalBytes()) <= MAX_LEDGER_BYTES ==> Now() == old(Now()))
        invariant |tombstones| <= |old(tombstones)| && tombstones == old(tombstones)[|old(tombstones)| - |tombstones|..]
        decreases |tombstones|
      {
        OneMoreDropped(ts, through, tombstones, evictedThrough);
        PopTombstone(true, now);
        RefreshBytes();
      }
    }

    /** Nothing has expired or lapsed and the total is within the ceiling: a prune has nothing to do. */
    ghost predicate Idle(now: nat)
      reads this
    {
      && (forall id :: id in records ==> !Expired(records[id], now))
      && |tombstones| <= MAX_TOMBSTONES && (tombstones != [] ==> !Lapsed(tombstones[0], now))
      && TotalBytes() <= MAX_LEDGER_BYTES
    }

    method Prune(now: nat)
      requires Valid()
      modifies this
      ensures Valid() && Extends() && SameTokens()
      ensures records == old(records) - (set id | id in old(records) && Expired(old(records)[id], now))
      ensures TotalBytes() <= MAX_LEDGER_BYTES || tombstones == []
      ensures |tombstones| <= MAX_TOMBSTONES
      ensures Covered(old(tombstones), old(evictedThrough), tombstones, evictedThrough)
      ensures Timely(old(tombstones), now) ==> Timely(tombstones, now) && NoneLapsed(tombstones, now)
      ensures old(Idle(now)) ==> Now() == old(Now())
    {
      hide Inv, IsRun, SumOf, StoredBytes, NetBytes, Expired, NetTotal, DroppedNoted, Covered, Timely, NoneLapsed;
      TotalIsNetPlusSlack();
      ForgetExpired(now);
      ghost var row, noted := tombstones, evictedThrough;
      DropOldTombstones(now);
      DroppedKeepsRow(row, noted, tombstones, evictedThrough, now);
      KeptFurther(old(tombstones), old(evictedThrough), row, noted, tombstones, evictedThrough, now);
      TotalIsNetPlusSlack();
    }

    method EvictOldestProgress() returns (evicted: bool)
      requires Coherent() && Accounted() && OverCeiling(costs, Now())
      modifies this`records, this`bytes, this`states, this`events
      ensures Coherent() && Accounted() && Extends() && OnlyLogsDiffer(old(records), records)
      ensures evicted ==> SumOf(ProgressCounts(records)) < old(SumOf(ProgressCounts(records)))
      ensures !evicted ==> records == old(records) && NoProgressLeft(records)
      ensures NetTotal() <= old(NetTotal())
    {
      hide Inv, IsRun, SumOf, NetBytes, StoredBytes, ByCreation, NoProgressLeft, OnlyLogsDiffer, ProgressCounts,
        EarliestIn;
      var candidate := Earliest(ByCreation(records));
      if candidate.None? {
        NoneByCreation(records);
        SameLogsDiffer(records);
        return false;
      }
      DropOldest(candidate.value);
      RefreshBytes();
      evicted := true;
    }

    method DropOldest(id: Id)
      requires Coherent() && OverCeiling(costs, Now()) && EarliestIn(ByCreation(records), id)
      modifies this`records, this`states, this`events
      ensures Coherent() && Extends() && OnlyLogsDiffer(old(records), records)
      ensures SumOf(ProgressCounts(records)) < old(SumOf(ProgressCounts(records)))
      ensures NetTotal() <= old(NetTotal())
    {
      hide Inv, IsRun, SumOf, NetBytes, Step, OnlyLogsDiffer, ProgressCounts;
      ghost var before := Now();
      KnownRecord(id);
      ProgressDroppedStep(costs, before, id);
      records := records[id := records[id].(log := DropFront(records[id].log))];
      Note(before, ProgressDropped(id));
    }

    lemma {:induction false} KnownRecord(id: Id)
      requires Inv(Now()) && id in records
      ensures id in past && RecordInv(records[id], past[id], finishing == Some(id))
    {
      hide LogInv, TombstoneInv, SumOf;
    }

    /** Evicts progress, oldest record first, until the ceiling holds or none is left. */
    method EvictProgress()
      requires Coherent() && Accounted()
      modifies this`records, this`bytes, this`states, this`events
      ensures Coherent() && Accounted() && Extends() && OnlyLogsDiffer(old(records), records)
      ensures NetTotal() <= old(NetTotal())
      ensures TotalBytes() <= MAX_LEDGER_BYTES || NoProgressLeft(records)
    {
      hide Coherent, Inv, IsRun, SumOf, NetBytes, StoredBytes, OnlyLogsDiffer, NoProgressLeft, ProgressCounts,
        Accounted;
      SameLogsDiffer(records);
      var more := true;
      while TotalBytes() > MAX_LEDGER_BYTES && more
        invariant Coherent() && Accounted() && Extends() && OnlyLogsDiffer(old(records), records)
        invariant NetTotal() <= old(NetTotal())
        invariant !more ==> NoProgressLeft(records)
        decreases more, SumOf(ProgressCounts(records))
      {
        ghost var was := records;
        more := EvictOldestProgress();
        LogsDifferFurther(old(records), was, records);
      }
    }

    /** Forgets settled records, longest settled first, until the ceiling holds or none is left. */
    method EvictTerminal(protected: Id, now: nat)
      requires Coherent() && Accounted() && finishing == Some(protected)
      requires NoProgressLeft(records)
      modifies this
      ensures Coherent() && Accounted() && Extends() && SameTokens() && Survive(old(records), records)
      ensures forall id :: id in old(records) && (id == protected || !old(records)[id].IsTerminal()) ==> id in records
      ensures NetTotal() <= old(NetTotal())
      ensures TotalBytes() <= MAX_LEDGER_BYTES || ByTermination(records, protected) == map[]
      ensures NoProgressLeft(records)
      ensures ByTermination(old(records), protected) == map[] ==> tombstones == old(tombstones)
      ensures RowFrom(ByTermination(old(records), protected), old(tombstones), tombstones)
    {
      hide Coherent, Accounted, Inv, IsRun, SumOf, NetBytes, StoredBytes, NoProgressLeft, Survive, ByTermination,
        Justified, CanForget, PushTombstone, ThroughAfter, EarliestIn, NetTotal, RowFrom;
      SurvivesItself(records);
      RowFromItself(ByTermination(records, protected), tombstones);
      var more := true;
      while TotalBytes() > MAX_LEDGER_BYTES && more
        invariant Coherent() && Accounted() && Extends() && SameTokens() && Survive(old(records), records)
        invariant forall id :: id in old(records) && (id == protected || !old(records)[id].IsTerminal()) ==>
          id in records
        invariant NetTotal() <= old(NetTotal())
        invariant NoProgressLeft(records)
        invariant ByTermination(old(records), protected) == map[] ==>
          tombstones == old(tombstones) && records == old(records)
        invariant RowFrom(ByTermination(old(records), protected), old(tombstones), tombstones)
        invariant !more ==> ByTermination(records, protected) == map[]
        decreases more, |records|
      {
        var candidate := Earliest(ByTermination(records, protected));
        if candidate.None? {
          more := false;
        } else {
          var id := candidate.value;
          SettledCandidate(protected, id, now);
          RemovalSurvives(records, id);
          SurviveFurther(old(records), records, records - {id});
          RemovalKeepsNoProgress(records, id);
          SurvivorState(old(records), records, id);
          SurvivorTermination(old(records), records, protected);
          assert (records - {id}).Keys == records.Keys - {id};
          ghost var row, r := tombstones, records[id];
          var wall := Forget(id, Indeterminate, now);
          RowFromPush(ByTermination(old(records), protected), old(tombstones), row,
                      TombstoneOf(id, r, Indeterminate, now, wall));
        }
      }
    }

    /** The longest settled record may be forgotten. */
    lemma {:induction false} SettledCandidate(protected: Id, id: Id, now: nat)
      requires finishing == Some(protected) && OverCeiling(costs, Now()) && NoProgressLeft(records)
      requires EarliestIn(ByTermination(records, protected), id)
      ensures id in records && id != protected && records[id].IsTerminal() && CanForget(Now(), id, Indeterminate)
      ensures Justified(costs, Now(), Forgot(id, Indeterminate, now, 0))
    {
    }

    /** The protected record gives up its outcome and progress. */
    method StripProtected(protected: Id)
      requires Coherent() && IsFinishing(Now(), protected) && Justified(costs, Now(), Stripped(protected))
      modifies this`records, this`bytes, this`states, this`events
      ensures Coherent() && Accounted() && Extends()
      ensures records == old(records)[protected := StrippedRecord(old(records)[protected])]
      ensures NetTotal() + OutcomeBytes(old(records)[protected]) <= old(NetTotal())
    {
      hide Inv, IsRun, SumOf, NetBytes, StoredBytes, Step, OutcomeBytes, Justified;
      ghost var before := Now();
      StrippedStep(costs, before, protected);
      records := records[protected := StrippedRecord(records[protected])];
      Note(before, Stripped(protected));
      RefreshBytes();
    }

    /** The last resort: tombstones go without their eviction being noted. */
    method DropTombstonesUnnoted(protected: Id)
      requires Coherent() && Accounted() && finishing == Some(protected) && protected in records
      requires OverCeiling(costs, Now()) ==>
        SettlementOf(records[protected]) == Settlement(Indeterminate, None) && NothingElse(records, protected)
      modifies this`tombstones, this`evictedThrough, this`bytes, this`states, this`events
      ensures Coherent() && Accounted() && Extends()
      ensures |tombstones| <= |old(tombstones)| && tombstones == old(tombstones)[|old(tombstones)| - |tombstones|..]
      ensures NetTotal() <= old(NetTotal())
      ensures TotalBytes() <= MAX_LEDGER_BYTES || tombstones == []
      ensures old(TotalBytes()) <= MAX_LEDGER_BYTES ==> TotalBytes() <= MAX_LEDGER_BYTES
    {
      hide Coherent, Accounted, Inv, IsRun, SumOf, NetBytes, StoredBytes, NothingElse;
      while TotalBytes() > MAX_LEDGER_BYTES && tombstones != []
        invariant Coherent() && Accounted() && Extends()
          && (old(TotalBytes()) <= MAX_LEDGER_BYTES ==> Now() == old(Now()))
        invariant |tombstones| <= |old(tombstones)| && tombstones == old(tombstones)[|old(tombstones)| - |tombstones|..]
        invariant NetTotal() <= old(NetTotal())
        invariant old(TotalBytes()) <= MAX_LEDGER_BYTES ==> TotalBytes() <= MAX_LEDGER_BYTES
        decreases |tombstones|
      {
        PopTombstone(false, 0);
        RefreshBytes();
      }
    }

    /** What no eviction takes away while this record is finished, leases and reservations included. */
    ghost function BareTotal(protected: Id): nat
      reads this
    {
      BareBytes(costs, records, protected) + reservedBytes + runningBytes + reservations * costs.reservation
    }

    lemma {:induction false} BareIsLeft(protected: Id)
      requires Accounted() && protected in records
      ensures
        BareTotal(protected) + OutcomeBytes(records[protected]) + TombstonesBytes(costs, tombstones) <= TotalBytes()
    {
      hide SumOf, BareBytes, Charges;
      BareAtMost(costs, records, protected);
    }

    lemma {:induction false} BareIsAllLeft(protected: Id)
      requires Coherent() && Accounted() && protected in records && NothingElse(records, protected)
      ensures TotalBytes()
        == BareTotal(protected) + OutcomeBytes(records[protected]) + TombstonesBytes(costs, tombstones)
    {
      hide SumOf, BareBytes, Charges, IsRun, NothingElse;
      forall id | id in records && records[id].outcome.Some? ensures records[id].IsTerminal() { KnownRecord(id); }
      BareExactly(costs, records, protected);
    }

    /**
     Brings the total under the ceiling, or leaves nothing that could still be evicted: no progress, no other
     settled record, no outcome of the protected one, no tombstone. It ends within the ceiling exactly when the
     bare total does, and the outcome is kept exactly when it fits beside the bare total and the row of tombstones
     there is once everyone else has given way. Under the ceiling it does nothing.
     */
    method EnforceCeiling(protected: Id, now: nat) returns (ghost row: seq<Tombstone>)
      requires Coherent() && Accounted() && IsFinishing(Now(), protected)
      requires NetTotal() <= MAX_LEDGER_BYTES + OutcomeBytes(records[protected])
      modifies this
      ensures Coherent() && Accounted() && Extends() && SameTokens() && protected in records
      ensures NetTotal() <= MAX_LEDGER_BYTES
      ensures TotalBytes() <= MAX_LEDGER_BYTES || Exhausted(records, tombstones, protected)
      ensures SettlementOf(records[protected])
        == if Fits(old(BareTotal(protected)), old(records)[protected], row) then SettlementOf(old(records)[protected])
           else Settlement(Indeterminate, None)
      ensures Fits(old(BareTotal(protected)), old(records)[protected], row) ==> tombstones == row
      ensures RowLeft(old(records), old(tombstones), row, tombstones, protected)
      ensures forall id :: id in old(records) && !old(records)[id].IsTerminal() ==> id in records
      ensures old(TotalBytes()) <= MAX_LEDGER_BYTES ==> Now() == old(Now()) && row == tombstones
      ensures BareTotal(protected) == old(BareTotal(protected))
      ensures TotalBytes() <= MAX_LEDGER_BYTES <==> old(BareTotal(protected)) <= MAX_LEDGER_BYTES
      ensures TotalBytes() > MAX_LEDGER_BYTES ==> TotalBytes() == old(BareTotal(protected))
    {
      hide Coherent, Accounted, Inv, IsRun, SumOf, NetBytes, StoredBytes, NoProgressLeft, Survive, NetTotal,
        ByTermination, Exhausted, BareBytes;
      BareIsLeft(protected);
      if TotalBytes() <= MAX_LEDGER_BYTES {
        TotalIsNetPlusSlack();
        row := tombstones;
        RowFromItself(ByTermination(records, protected), row);
        return;
      }
      hide Fits, TombstonesBytes;
      row := Cascade(protected, now);
    }

    /** Over the ceiling: everyone else gives way first, then the record being finished. */
    method Cascade(protected: Id, now: nat) returns (ghost row: seq<Tombstone>)
      requires Coherent() && Accounted() && IsFinishing(Now(), protected)
      requires NetTotal() <= MAX_LEDGER_BYTES + OutcomeBytes(records[protected])
      modifies this
      ensures Coherent() && Accounted() && Extends() && SameTokens() && protected in records
      ensures NetTotal() <= MAX_LEDGER_BYTES
      ensures TotalBytes() <= MAX_LEDGER_BYTES || Exhausted(records, tombstones, protected)
      ensures SettlementOf(records[protected])
        == if Fits(old(BareTotal(protected)), old(records)[protected], row) then SettlementOf(old(records)[protected])
           else Settlement(Indeterminate, None)
      ensures Fits(old(BareTotal(protected)), old(records)[protected], row) ==> tombstones == row
      ensures RowLeft(old(records), old(tombstones), row, tombstones, protected)
      ensures forall id :: id in old(records) && !old(records)[id].IsTerminal() ==> id in records
      ensures BareTotal(protected) == old(BareTotal(protected))
      ensures TotalBytes() <= MAX_LEDGER_BYTES <==> old(BareTotal(protected)) <= MAX_LEDGER_BYTES
      ensures TotalBytes() > MAX_LEDGER_BYTES ==> TotalBytes() == old(BareTotal(protected))
    {
      hide Coherent, Accounted, Inv, IsRun, SumOf, NetBytes, StoredBytes, NoProgressLeft, Survive, NetTotal,
        ByTermination, Exhausted, BareBytes, TombstonesBytes, Fits, NothingElse;
      EvictOthers(protected, now);
      SurvivorState(old(records), records, protected);
      SameBare(old(records), records, protected);
      row := tombstones;
      SameFit(BareTotal(protected), old(records)[protected], records[protected], row);
      GiveUpOutcome(protected);
    }

    lemma {:induction false} SameFit(bare: nat, r: Record, s: Record, row: seq<Tombstone>)
      requires r.state == s.state && r.outcome == s.outcome
      ensures Fits(bare, r, row) == Fits(bare, s, row) && OutcomeBytes(r) == OutcomeBytes(s)
      ensures SettlementOf(r) == SettlementOf(s)
    {
    }

    lemma {:induction false} SameBare(was: Records, now: Records, protected: Id)
      requires Survive(was, now) && protected in now
      requires forall id :: id in was && !was[id].IsTerminal() ==> id in now
      ensures BareBytes(costs, now, protected) == BareBytes(costs, was, protected)
    {
      hide Survive, SumOf;
      EvictionKeepsBare(was, now, protected);
    }

    /** The record's outcome fits under the ceiling beside the bare total and a row of tombstones. */
    ghost predicate Fits(bare: nat, r: Record, row: seq<Tombstone>) {
      bare + OutcomeBytes(r) + TombstonesBytes(costs, row) <= MAX_LEDGER_BYTES
    }

    /** Everyone else's progress, then everyone else's settled records. */
    method EvictOthers(protected: Id, now: nat)
      requires Coherent() && Accounted() && IsFinishing(Now(), protected)
      modifies this
      ensures Coherent() && Accounted() && Extends() && SameTokens() && Survive(old(records), records)
        && protected in records
      ensures NetTotal() <= old(NetTotal())
      ensures TotalBytes() <= MAX_LEDGER_BYTES || NothingElse(records, protected)
      ensures ByTermination(old(records), protected) == map[] ==> tombstones == old(tombstones)
      ensures RowFrom(ByTermination(old(records), protected), old(tombstones), tombstones)
      ensures forall id :: id in old(records) && !old(records)[id].IsTerminal() ==> id in records
    {
      hide Coherent, Accounted, Inv, IsRun, SumOf, NetBytes, StoredBytes, NoProgressLeft, Survive, OnlyLogsDiffer,
        NetTotal, ByTermination, RowFrom;
      RowFromItself(ByTermination(records, protected), tombstones);
      EvictProgress();
      LogChangeSurvives(old(records), records);
      SameTermination(old(records), records, protected);
      if TotalBytes() > MAX_LEDGER_BYTES {
        ghost var was := records;
        EvictTerminal(protected, now);
        SurviveFurther(old(records), was, records);
      }
    }

    /** With nothing else left to give up, the record being finished gives up its own outcome, then tombstones go. */
    method GiveUpOutcome(protected: Id)
      requires Coherent() && Accounted() && IsFinishing(Now(), protected)
      requires TotalBytes() <= MAX_LEDGER_BYTES || NothingElse(records, protected)
      requires NetTotal() <= MAX_LEDGER_BYTES + OutcomeBytes(records[protected])
      modifies this`records, this`tombstones, this`evictedThrough, this`bytes, this`states, this`events
      ensures Coherent() && Accounted() && Extends() && records.Keys == old(records).Keys && protected in records
      ensures |tombstones| <= |old(tombstones)| && tombstones == old(tombstones)[|old(tombstones)| - |tombstones|..]
      ensures NetTotal() <= MAX_LEDGER_BYTES
      ensures TotalBytes() <= MAX_LEDGER_BYTES || Exhausted(records, tombstones, protected)
      ensures SettlementOf(records[protected])
        == if Fits(old(BareTotal(protected)), old(records)[protected], old(tombstones))
           then SettlementOf(old(records)[protected]) else Settlement(Indeterminate, None)
      ensures Fits(old(BareTotal(protected)), old(records)[protected], old(tombstones)) ==>
        tombstones == old(tombstones)
      ensures BareTotal(protected) == old(BareTotal(protected))
      ensures TotalBytes() <= MAX_LEDGER_BYTES <==> old(BareTotal(protected)) <= MAX_LEDGER_BYTES
      ensures TotalBytes() > MAX_LEDGER_BYTES ==> TotalBytes() == old(BareTotal(protected))
    {
      hide Coherent, Accounted, Inv, IsRun, SumOf, NetBytes, StoredBytes, NoProgressLeft, NetTotal, ByTermination,
        BareBytes;
      BareIsLeft(protected);
      if TotalBytes() > MAX_LEDGER_BYTES {
        BareIsAllLeft(protected);
        GiveUpAll(protected);
      } else {
        TotalIsNetPlusSlack();
      }
    }

    method GiveUpAll(protected: Id)
      requires Coherent() && Accounted() && IsFinishing(Now(), protected)
      requires TotalBytes() > MAX_LEDGER_BYTES && NothingElse(records, protected)
      requires NetTotal() <= MAX_LEDGER_BYTES + OutcomeBytes(records[protected])
      modifies this`records, this`tombstones, this`evictedThrough, this`bytes, this`states, this`events
      ensures Coherent() && Accounted() && Extends() && records.Keys == old(records).Keys && protected in records
      ensures |tombstones| <= |old(tombstones)| && tombstones == old(tombstones)[|old(tombstones)| - |tombstones|..]
      ensures NetTotal() <= MAX_LEDGER_BYTES
      ensures TotalBytes() <= MAX_LEDGER_BYTES || Exhausted(records, tombstones, protected)
      ensures SettlementOf(records[protected]) == Settlement(Indeterminate, None)
      ensures BareTotal(protected) == old(BareTotal(protected))
      ensures TotalBytes() <= MAX_LEDGER_BYTES <==> old(BareTotal(protected)) <= MAX_LEDGER_BYTES
      ensures TotalBytes() > MAX_LEDGER_BYTES ==> TotalBytes() == old(BareTotal(protected))
    {
      hide Coherent, Accounted, Inv, IsRun, SumOf, NetBytes, StoredBytes, NoProgressLeft, NetTotal, ByTermination;
      ghost var was := records;
      StripProtected(protected);
      StripLeavesNothing(was, protected);
      StripKeepsBare(was, protected);
      hide BareBytes;
      DropTombstonesUnnoted(protected);
      BareIsLeft(protected);
      BareIsAllLeft(protected);
    }

    // --- The ledger's own operations ---

    method Reserve(amount: nat, now: nat, ghost token: nat) returns (granted: bool)
      requires Valid() && token !in tokens
      modifies this
      ensures Valid() && Extends()
      ensures granted ==> tokens == old(tokens)[token := amount] && reservations == old(reservations) + 1
      ensures !granted ==> tokens == old(tokens) && reservations == old(reservations)
      ensures granted ==> TotalBytes() <= MAX_LEDGER_BYTES
      ensures !granted ==>
        PreparedCount(records) + reservations >= MAX_PREPARATIONS || |records| + reservations >= MAX_OPERATIONS
        || bytes + reservedBytes + runningBytes + amount + (reservations + 1) * costs.reservation > MAX_LEDGER_BYTES
      ensures old(Idle(now)) ==> Now() == if granted then LedgerSteps.Reserve(old(Now()), token, amount) else old(Now())
    {
      hide Inv, IsRun, SumOf, StoredBytes, PreparedCount, Slack, Expired, Idle;
      Prune(now);
      var prepared := CountPrepared(records);
      if prepared + reservations >= MAX_PREPARATIONS || |records| + reservations >= MAX_OPERATIONS
         || bytes + reservedBytes + runningBytes + amount + (reservations + 1) * costs.reservation > MAX_LEDGER_BYTES {
        return false;
      }
      Grant(amount, token);
      granted := true;
    }

    method Grant(amount: nat, ghost token: nat)
      requires Coherent() && Accounted() && finishing.None? && token !in tokens
      requires PreparedCount(records) + reservations < MAX_PREPARATIONS && |records| + reservations < MAX_OPERATIONS
      requires
        bytes + reservedBytes + runningBytes + amount + (reservations + 1) * costs.reservation <= MAX_LEDGER_BYTES
      modifies this`reservations, this`reservedBytes, this`tokens, this`states, this`events
      ensures Valid() && Extends() && TotalBytes() <= MAX_LEDGER_BYTES
      ensures Now() == LedgerSteps.Reserve(old(Now()), token, amount)
    {
      hide Inv, IsRun, SumOf, StoredBytes, PreparedCount, Slack;
      ghost var before := Now();
      reservations := reservations + 1;
      reservedBytes := reservedBytes + amount;
      tokens := tokens[token := amount];
      Note(before, Reserved(token, amount));
    }

    method RollbackReservation(amount: nat, ghost token: nat)
      requires Valid() && token in tokens && tokens[token] == amount
      modifies this
      ensures Valid() && Extends() && tokens == old(tokens) - {token}
      ensures reservations == old(reservations) - 1 && reservedBytes == old(reservedBytes) - amount
      ensures records == old(records) && tombstones == old(tombstones) && runningBytes == old(runningBytes)
      ensures TotalBytes() + amount + costs.reservation == old(TotalBytes())
    {
      hide IsRun, SumOf, StoredBytes, RecordsInv, LogsInv, TombstonesInv, WithinLimits, Slack;
      ghost var before := Now();
      RollBackKeepsInv(before, token);
      reservations := SatSub(reservations, 1);
      reservedBytes := SatSub(reservedBytes, amount);
      tokens := tokens - {token};
      FewerSlots(reservations, costs.reservation);
      Note(before, RolledBack(token));
    }

    static lemma {:induction false} FewerSlots(n: nat, slot: nat)
      ensures n * slot <= (n + 1) * slot
    {
    }

    method ResizeReservation(previous: nat, amount: nat, now: nat, ghost token: nat) returns (granted: bool)
      requires Valid() && token in tokens && tokens[token] == previous
      modifies this
      ensures Valid() && Extends() && reservations == old(reservations)
      ensures granted ==> tokens == old(tokens)[token := amount] && TotalBytes() <= MAX_LEDGER_BYTES
      ensures !granted ==> tokens == old(tokens)
      ensures !granted ==>
        bytes + SatSub(reservedBytes, previous) + runningBytes + amount + reservations * costs.reservation
          > MAX_LEDGER_BYTES
      ensures old(Idle(now)) ==> Now() == if granted then Resize(old(Now()), token, amount) else old(Now())
    {
      hide IsRun, SumOf, StoredBytes, RecordsInv, LogsInv, TombstonesInv, WithinLimits, Slack, Expired;
      Prune(now);
      if bytes + SatSub(reservedBytes, previous) + runningBytes + amount + reservations * costs.reservation
         > MAX_LEDGER_BYTES {
        return false;
      }
      ghost var before := Now();
      reservedBytes := SatSub(reservedBytes, previous) + amount;
      tokens := tokens[token := amount];
      Note(before, Resized(token, amount));
      granted := true;
    }

    /** Turns a reservation into a record, or gives it back when the record does not fit after all. */
    method InsertReserved(id: Id, record: Record, amount: nat, now: nat, ghost token: nat) returns (inserted: bool)
      requires Valid() && token in tokens && tokens[token] == amount
      requires NewRecord(record) && id !in past
      modifies this
      ensures Valid() && Extends()
      ensures tokens == old(tokens) - {token} && reservations == old(reservations) - 1
      ensures reservedBytes == old(reservedBytes) - amount
      ensures inserted <==> id in records
      ensures inserted ==> records[id] == record && TotalBytes() <= MAX_LEDGER_BYTES
      ensures !inserted ==>
        |records| >= MAX_OPERATIONS || TotalBytes() + amount + costs.reservation > MAX_LEDGER_BYTES
        || TotalWith(id, record) > MAX_LEDGER_BYTES
      ensures old(Idle(now)) ==>
        && records == (if inserted then old(records)[id := record] else old(records))
        && tombstones == old(tombstones) && runningBytes == old(runningBytes)
    {
      hide Inv, IsRun, SumOf, StoredBytes, Slack, Expired, Coherent, TotalBytes, TotalWith, TotalWithout, TotalLess,
        Accounted, Idle;
      Prune(now);
      inserted := Place(id, record, amount, token);
    }

    /** The same, of a pruned ledger. */
    method Place(id: Id, record: Record, amount: nat, ghost token: nat) returns (inserted: bool)
      requires Valid() && token in tokens && tokens[token] == amount && NewRecord(record) && id !in past
      modifies this
      ensures Valid() && Extends() && id !in old(records)
      ensures tokens == old(tokens) - {token} && reservations == old(reservations) - 1
      ensures reservedBytes == old(reservedBytes) - amount && runningBytes == old(runningBytes)
      ensures records == (if inserted then old(records)[id := record] else old(records))
        && tombstones == old(tombstones)
      ensures inserted ==> TotalBytes() <= MAX_LEDGER_BYTES
      ensures !inserted ==>
        |records| >= MAX_OPERATIONS || TotalBytes() + amount + costs.reservation > MAX_LEDGER_BYTES
        || TotalWith(id, record) > MAX_LEDGER_BYTES
    {
      hide Inv, IsRun, SumOf, StoredBytes, Slack, Expired, Coherent, TotalBytes, TotalWith, TotalWithout, TotalLess,
        Accounted;
      UnknownRecord(id);
      if |records| >= MAX_OPERATIONS || TotalBytes() > MAX_LEDGER_BYTES {
        RollbackReservation(amount, token);
        return false;
      }
      AmountIsReserved(token);
      CommitAndCheck(id, record, amount, token);
      inserted := KeepIfItFits(id);
    }

    /** A live reservation is one of those counted, and its amount part of the sum. */
    lemma {:induction false} AmountIsReserved(token: nat)
      requires Coherent() && token in tokens && TotalBytes() <= MAX_LEDGER_BYTES
      ensures reservations >= 1 && tokens[token] <= reservedBytes && TotalLess(tokens[token]) <= MAX_LEDGER_BYTES
    {
      hide IsRun, SumOf, RecordsInv, LogsInv, TombstonesInv, WithinLimits;
      SumRemove(tokens, token);
      assert tokens.Keys != {} by { assert token in tokens.Keys; }
      LessReserved(bytes, reservedBytes, runningBytes, reservations, costs.reservation, tokens[token]);
    }

    /** The total once a reservation of this amount is given back. */
    ghost function TotalLess(amount: nat): int
      reads this
    {
      bytes + (reservedBytes - amount) + runningBytes + (reservations - 1) * costs.reservation
    }

    /** The total if a record were put in. */
    ghost function TotalWith(id: Id, record: Record): int
      reads this
    {
      StoredBytes(costs, records[id := record], tombstones) + reservedBytes + runningBytes
      + reservations * costs.reservation
    }

    /** The total once a record is taken out. */
    ghost function TotalWithout(id: Id): int
      reads this
    {
      StoredBytes(costs, records - {id}, tombstones) + reservedBytes + runningBytes + reservations * costs.reservation
    }

    static lemma {:induction false} LessReserved(
        stored: nat, reserved: nat, running: nat, n: nat, slot: nat, amount: nat)
      requires n >= 1 && amount <= reserved && stored + reserved + running + n * slot <= MAX_LEDGER_BYTES
      ensures stored + (reserved - amount) + running + (n - 1) * slot <= MAX_LEDGER_BYTES
    {
      assert n * slot == (n - 1) * slot + slot;
    }

    method CommitAndCheck(id: Id, record: Record, amount: nat, ghost token: nat)
      requires Coherent() && Accounted() && finishing.None? && token in tokens && tokens[token] == amount
      requires CanCommit(Now(), token, id, record) && id !in records && reservations >= 1 && amount <= reservedBytes
      requires TotalLess(amount) <= MAX_LEDGER_BYTES
      modifies this
      ensures Coherent() && Accounted() && Extends() && finishing.None?
      ensures records == old(records)[id := record] && id in records
      ensures tombstones == old(tombstones) && runningBytes == old(runningBytes)
      ensures tokens == old(tokens) - {token} && reservations == old(reservations) - 1
      ensures reservedBytes == old(reservedBytes) - amount
      ensures TotalWithout(id) <= MAX_LEDGER_BYTES
    {
      hide Inv, IsRun, SumOf, StoredBytes, Coherent, CanCommit, TotalBytes;
      ghost var was := records;
      CommitRecord(id, record, amount, token);
      assert records - {id} == was;
    }

    /** Takes the record just committed out again if with it the total passes the ceiling. */
    method KeepIfItFits(id: Id) returns (kept: bool)
      requires Coherent() && Accounted() && finishing.None? && id in records && records[id].state.Prepared?
      requires TotalWithout(id) <= MAX_LEDGER_BYTES
      modifies this
      ensures Valid() && Extends() && SameTokens() && TotalBytes() <= MAX_LEDGER_BYTES
      ensures records == if kept then old(records) else old(records) - {id}
      ensures tombstones == old(tombstones)
      ensures !kept ==> TotalWith(id, old(records)[id]) > MAX_LEDGER_BYTES
    {
      hide Inv, IsRun, SumOf, StoredBytes, Slack, Coherent;
      if TotalBytes() > MAX_LEDGER_BYTES {
        WithdrawRecord(id);
        assert records[id := old(records)[id]] == old(records);
        return false;
      }
      kept := true;
    }

    lemma {:induction false} UnknownRecord(id: Id)
      requires Coherent() && id !in past
      ensures id !in records
    {
      hide LogInv, RecordInv, TombstoneInv, SumOf;
    }

    method CommitRecord(id: Id, record: Record, amount: nat, ghost token: nat)
      requires Coherent() && finishing.None? && token in tokens && tokens[token] == amount
      requires CanCommit(Now(), token, id, record)
      modifies this
      ensures Coherent() && Accounted() && Extends() && finishing.None?
      ensures records == old(records)[id := record] && tombstones == old(tombstones)
      ensures tokens == old(tokens) - {token} && reservations == old(reservations) - 1
      ensures reservedBytes == old(reservedBytes) - amount && runningBytes == old(runningBytes)
    {
      hide IsRun, SumOf, StoredBytes, Inv, NewRecord, Step, CanCommit, TotalBytes;
      ghost var before := Now();
      CommittedStep(costs, before, token, id, record);
      records := records[id := record];
      reservations := SatSub(reservations, 1);
      reservedBytes := SatSub(reservedBytes, amount);
      tokens := tokens - {token};
      past := past[id := NO_PAST];
      Note(before, Committed(token, id, record));
      RefreshBytes();
    }

    method WithdrawRecord(id: Id)
      requires Coherent() && finishing.None? && id in records && records[id].state.Prepared?
      modifies this
      ensures Coherent() && Accounted() && Extends() && SameTokens()
      ensures records == old(records) - {id} && tombstones == old(tombstones)
    {
      hide Inv, IsRun, SumOf, StoredBytes;
      ghost var before := Now();
      records := records - {id};
      Note(before, Withdrawn(id));
      RefreshBytes();
    }

    /** Whatever the calls so far, a fixed margin over the ceiling is never exceeded. */
    lemma {:induction false} TotalIsBounded()
      requires Valid()
      ensures TotalBytes() <= MAX_LEDGER_BYTES + MAX_OPERATIONS * (2 * (costs.idHead + MAX_ID_BYTES))
    {
      hide RecordsInv, LogsInv, TombstonesInv, TokensConserved, PreparedCount, Slack, IsRun;
      SlackIsBounded(costs, records);
    }

    /** `e` is among the steps this call took. */
    twostate predicate Took(e: Event)
      reads this
    {
      exists i :: |old(events)| <= i < |events| && events[i] == e
    }

    /**
     Starts the prepared operation, or answers what became of it. Having just pruned, it never
     answers that the preparation expired or lost its operation. A start ends within the ceiling exactly when
     the pruned total plus two ids does.
     */
    method Begin(id: Id, invocation: Id, host: string, now: nat)
      returns (reply: BeginReply, lease: nat, ghost pruned: World)
      requires Valid()
      modifies this
      ensures Valid() && Extends()
      ensures pruned in states && PrunedTo(old(Now()), pruned, now) && (old(Idle(now)) ==> pruned == old(Now()))
      ensures !reply.ReplyExpired? && !reply.ReplyInternal?
      ensures reply == ReplyTo(pruned.records, pruned.tombstones, id, invocation, host, now)
      ensures reply.ReplyStart? ==>
        Took(Started(id, invocation, host, now)) && id in past && past[id].lease == Some(lease)
        && id in records && records[id].state.Running? && records[id].invocation == Some(invocation)
      ensures reply.ReplyStart? ==>
        (TotalBytes() <= MAX_LEDGER_BYTES <==>
          TotalOf(costs, pruned) + 2 * IdBytes(costs, invocation) <= MAX_LEDGER_BYTES)
      ensures reply.ReplyStart? ==> TotalBytes() == TotalOf(costs, pruned) + 2 * IdBytes(costs, invocation)
      ensures reply.ReplyStart? ==>
        && id in pruned.records && records == pruned.records[id := StartedRecord(pruned.records[id], invocation)]
        && tombstones == pruned.tombstones
      ensures !reply.ReplyStart? ==> Took(Replied(id, invocation, host, now, reply)) && Now() == pruned
    {
      hide Coherent, Accounted, Inv, IsRun, SumOf, StoredBytes, Slack, ReplyTo, Expired, Idle;
      Prune(now);
      pruned := Now();
      IsLast();
      assert forall k :: k in records ==> !Expired(records[k], now);
      reply, lease := Answer(id, invocation, host, now);
    }

    lemma {:induction false} IsLast()
      requires Coherent()
      ensures Now() in states
    {
      hide IsRun, Inv;
      assert states[|states| - 1] == Now();
    }

    /** The answer of a pruned ledger. */
    method Answer(id: Id, invocation: Id, host: string, now: nat) returns (reply: BeginReply, lease: nat)
      requires Valid() && forall k :: k in records ==> !Expired(records[k], now)
      modifies this
      ensures Valid() && Extends()
      ensures !reply.ReplyExpired? && !reply.ReplyInternal?
      ensures reply == ReplyTo(old(records), old(tombstones), id, invocation, host, now)
      ensures reply.ReplyStart? ==>
        Took(Started(id, invocation, host, now)) && id in past && past[id].lease == Some(lease)
        && id in records && records[id].state.Running? && records[id].invocation == Some(invocation)
      ensures reply.ReplyStart? ==> TotalBytes() == old(TotalBytes()) + 2 * IdBytes(costs, invocation)
      ensures reply.ReplyStart? ==>
        && id in old(records) && records == old(records)[id := StartedRecord(old(records)[id], invocation)]
        && tombstones == old(tombstones)
      ensures !reply.ReplyStart? ==> Took(Replied(id, invocation, host, now, reply)) && Now() == old(Now())
    {
      hide Inv, IsRun, SumOf, StoredBytes, Slack, ReplyTo, Expired;
      PrunedBegin(id, invocation, host, now);
      reply := ReplyTo(records, tombstones, id, invocation, host, now);
      lease := 0;
      if reply.ReplyStart? {
        lease := StartRecord(id, invocation, host, now);
      } else {
        ghost var before := Now();
        Note(before, Replied(id, invocation, host, now, reply));
        assert events[|events| - 1] == Replied(id, invocation, host, now, reply);
      }
    }

    lemma {:induction false} PrunedBegin(id: Id, invocation: Id, host: string, now: nat)
      requires Coherent() && finishing.None?
      requires forall k :: k in records ==> !Expired(records[k], now)
      ensures !ReplyTo(records, tombstones, id, invocation, host, now).ReplyExpired?
      ensures !ReplyTo(records, tombstones, id, invocation, host, now).ReplyInternal?
      ensures ReplyTo(records, tombstones, id, invocation, host, now).ReplyStart? ==>
        CanStart(Now(), id, invocation, host, now)
    {
      hide RecordInv, LogInv, TombstonesInv, TokensConserved, WithinLimits, Expired, FindTombstone;
      PrunedBeginNeverExpires(Now(), id, invocation, host, now);
    }

    lemma {:induction false} StartingRecord(id: Id, invocation: Id, host: string, now: nat)
      requires CanStart(Now(), id, invocation, host, now)
      requires RecordInv(records[id], past[id], false)
      ensures records[id].execution.None?
    {
      hide FindTombstone;
    }

    /** Starting adds the invocation and execution ids to the account, whatever the ceiling says. */
    method StartRecord(id: Id, invocation: Id, host: string, now: nat) returns (lease: nat)
      requires Valid() && CanStart(Now(), id, invocation, host, now)
      modifies this
      ensures Valid() && Extends() && Took(Started(id, invocation, host, now))
      ensures id in past && past[id].lease == Some(lease)
      ensures id in records && records[id].state.Running? && records[id].invocation == Some(invocation)
      ensures TotalBytes() == old(TotalBytes()) + 2 * IdBytes(costs, invocation) && tokens == old(tokens)
      ensures records == old(records)[id := StartedRecord(old(records)[id], invocation)]
        && tombstones == old(tombstones)
    {
      hide Inv, IsRun, SumOf, StoredBytes, NetBytes, Slack, Step, ReplyTo;
      TotalIsNetPlusSlack();
      KnownRecord(id);
      StartingRecord(id, invocation, host, now);
      ghost var before := Now();
      StartedStep(costs, before, id, invocation, host, now);
      lease := records[id].preparedBytes + costs.leaseOverhead;
      records := records[id := StartedRecord(records[id], invocation)];
      runningBytes := runningBytes + lease;
      past := past[id := past[id].(invocation := Some(invocation), lease := Some(lease))];
      Note(before, Started(id, invocation, host, now));
      ghost var at := |events| - 1;
      RefreshBytes();
      assert events[at] == Started(id, invocation, host, now);
      TotalIsNetPlusSlack();
    }

    /**
     Settles a running record and makes room for what it retains. The outcome stays, or the record is
     downgraded to Indeterminate when the ceiling leaves no room for it; a call that names no running
     invocation changes nothing.
     */
    method SettleWith(id: Id, invocation: Id, outcome: Option<Outcome>, now: nat) returns (ghost row: seq<Tombstone>)
      requires Valid()
      modifies this
      ensures Valid() && Extends()
      ensures !old(IsRunning(Now(), id, invocation)) ==> Now() == old(Now()) && events == old(events)
      ensures old(IsRunning(Now(), id, invocation)) ==>
        && Took(Settled(id, invocation, outcome, now)) && id in records
        && SettlementOf(records[id]) == (if Keeps(old(BareTotal(id)), outcome, row)
                                         then Settlement(TerminalState(outcome), outcome)
                                         else Settlement(Indeterminate, None))
        && (Keeps(old(BareTotal(id)), outcome, row) ==> tombstones == row)
        && RowLeft(old(records), old(tombstones), row, tombstones, id)
        && (TotalBytes() <= MAX_LEDGER_BYTES || Exhausted(records, tombstones, id))
        && (TotalBytes() <= MAX_LEDGER_BYTES <==> old(BareTotal(id)) <= MAX_LEDGER_BYTES)
        && (TotalBytes() > MAX_LEDGER_BYTES ==> TotalBytes() == old(BareTotal(id)))
      ensures forall k :: k in old(records) && k != id && !old(records)[k].IsTerminal() ==> k in records
      ensures id in old(past) ==> id in past && past[id].lease == old(past)[id].lease
      ensures runningBytes == old(runningBytes)
    {
      hide Coherent, Inv, IsRun, SumOf, StoredBytes, NetBytes, NetTotal, Slack, Exhausted, SettledRecord, Accounted,
        TerminalState, BareBytes, ByTermination;
      row := tombstones;
      if id !in records || records[id].invocation != Some(invocation) || !records[id].state.Running? {
        return;
      }
      RunningRecord(id);
      MarkSettled(id, invocation, outcome, now);
      ghost var at := |old(events)|;
      row := EnforceCeiling(id, now);
      EndFinish(id);
      assert events[at] == Settled(id, invocation, outcome, now);
    }

    /** The outcome fits under the ceiling beside the bare total and a row of tombstones. */
    ghost predicate Keeps(bare: nat, outcome: Option<Outcome>, row: seq<Tombstone>) {
      bare + (if outcome.Some? then |outcome.value.payload| else 0) + TombstonesBytes(costs, row) <= MAX_LEDGER_BYTES
    }

    lemma {:induction false} RunningRecord(id: Id)
      requires Coherent() && finishing.None? && id in records && records[id].state.Running?
      ensures id in past && records[id].outcome.None?
    {
      hide IsRun;
      KnownRecord(id);
    }

    method MarkSettled(id: Id, invocation: Id, outcome: Option<Outcome>, now: nat)
      requires Valid() && IsRunning(Now(), id, invocation) && records[id].outcome.None?
      modifies this
      ensures Coherent() && Accounted() && Extends() && finishing == Some(id) && past == old(past)
      ensures records == old(records)[id := SettledRecord(old(records)[id], outcome, now)]
      ensures SettlementOf(records[id]) == Settlement(TerminalState(outcome), outcome)
      ensures runningBytes == old(runningBytes) && BareTotal(id) == old(BareTotal(id)) && records[id].outcome == outcome
      ensures tombstones == old(tombstones) && ByTermination(records, id) == ByTermination(old(records), id)
      ensures NetTotal() <= MAX_LEDGER_BYTES + OutcomeBytes(records[id])
      ensures |events| > |old(events)| && events[|old(events)|] == Settled(id, invocation, outcome, now)
    {
      hide Inv, IsRun, SumOf, StoredBytes, NetBytes, Slack, Step;
      TotalIsNetPlusSlack();
      ghost var before := Now();
      SettledStep(costs, before, id, invocation, outcome, now);
      SettleKeepsBare(records, id, outcome, now);
      SettleKeepsOthers(records, id, outcome, now);
      hide BareRecords, ByTermination;
      records := records[id := SettledRecord(records[id], outcome, now)];
      finishing := Some(id);
      Note(before, Settled(id, invocation, outcome, now));
      RefreshBytes();
    }

    /** The call returns: the settlement is now what later calls report. */
    method EndFinish(id: Id)
      requires Coherent() && Accounted() && IsFinishing(Now(), id) && NetTotal() <= MAX_LEDGER_BYTES
      modifies this`past, this`finishing, this`states, this`events
      ensures Valid() && Extends()
      ensures past == old(past)[id := old(past)[id].(settled := Some(SettlementOf(records[id])))]
    {
      hide Inv, IsRun, SumOf, StoredBytes, NetBytes, Slack;
      TotalIsNetPlusSlack();
      ghost var before := Now();
      assert records[id := records[id]] == records;
      past := past[id := past[id].(settled := Some(SettlementOf(records[id])))];
      finishing := None;
      Note(before, SettleDone(id));
    }

    /**
     A running record keeps its outcome exactly when that fits beside the bare total and the row of tombstones, and
     is downgraded to Indeterminate otherwise; the total ends within the ceiling exactly when the bare total is.
     */
    method Finish(id: Id, invocation: Id, outcome: Outcome, now: nat) returns (ghost row: seq<Tombstone>)
      requires Valid()
      modifies this
      ensures Valid() && Extends()
      ensures !old(IsRunning(Now(), id, invocation)) ==> Now() == old(Now())
      ensures old(IsRunning(Now(), id, invocation)) ==>
        && id in records
        && SettlementOf(records[id]) == (if Keeps(old(BareTotal(id)), Some(outcome), row)
                                         then Settlement(TerminalState(Some(outcome)), Some(outcome))
                                         else Settlement(Indeterminate, None))
        && (Keeps(old(BareTotal(id)), Some(outcome), row) ==> tombstones == row)
        && RowLeft(old(records), old(tombstones), row, tombstones, id)
        && (TotalBytes() <= MAX_LEDGER_BYTES <==> old(BareTotal(id)) <= MAX_LEDGER_BYTES)
        && (TotalBytes() > MAX_LEDGER_BYTES ==> TotalBytes() == old(BareTotal(id)))
    {
      hide Inv, IsRun, SumOf, StoredBytes, NetBytes, Slack, BareBytes, Keeps, TerminalState, Coherent, Accounted,
        RowLeft;
      row := SettleWith(id, invocation, Some(outcome), now);
    }

    method FinishIndeterminate(id: Id, invocation: Id, now: nat)
      requires Valid()
      modifies this
      ensures Valid() && Extends()
      ensures !old(IsRunning(Now(), id, invocation)) ==> Now() == old(Now())
      ensures old(IsRunning(Now(), id, invocation)) ==>
        id in records && SettlementOf(records[id]) == Settlement(Indeterminate, None)
      ensures id in old(past) ==> id in past && past[id].lease == old(past)[id].lease
      ensures runningBytes == old(runningBytes)
    {
      hide Inv, IsRun, SumOf, StoredBytes, NetBytes, Slack, BareBytes;
      ghost var _ := SettleWith(id, invocation, None, now);
    }

    /** A lease is released once, whatever became of its execution; none outlives its running record. */
    method DropLease(id: Id, invocation: Id, amount: nat, now: nat)
      requires Valid() && id in past
      requires past[id].lease == Some(amount) && past[id].invocation == Some(invocation)
      modifies this
      ensures Valid() && Extends()
      ensures id in past && past[id].lease.None? && runningBytes == old(runningBytes) - amount
      ensures id in records ==> !records[id].state.Running?
    {
      hide IsRun, SumOf, StoredBytes, Slack, Inv, NetBytes;
      if id in records && records[id].state.Running? {
        KnownRecord(id);
        FinishIndeterminate(id, invocation, now);
      }
      ReleaseLease(id, amount);
    }

    method ReleaseLease(id: Id, amount: nat)
      requires Valid() && CanDropLease(Now(), id) && past[id].lease == Some(amount)
      modifies this`runningBytes, this`past, this`states, this`events
      ensures Valid() && Extends()
      ensures past == old(past)[id := old(past)[id].(lease := None)] && runningBytes == old(runningBytes) - amount
    {
      hide IsRun, SumOf, StoredBytes, Slack, Inv;
      ghost var before := Now();
      DropLeaseKeepsInv(before, id);
      runningBytes := SatSub(runningBytes, amount);
      past := past[id := past[id].(lease := None)];
      Note(before, LeaseDropped(id));
    }

    /** Accepts one progress event and trims the log, then everyone's, to what may be retained. */
    method CaptureProgress(id: Id, invocation: Id, event: ProgressEvent)
      requires Valid()
      modifies this
      ensures Valid() && Extends() && tombstones == old(tombstones)
      ensures runningBytes == old(runningBytes) && tokens == old(tokens)
      ensures OnlyLogsDiffer(old(records), records)
      ensures old(IsRunning(Now(), id, invocation) && Accepts(records[id].log, event)) ==>
        id in past && past == old(past)[id := old(past)[id].(accepted := old(past)[id].accepted + [event])]
      ensures !old(IsRunning(Now(), id, invocation) && Accepts(records[id].log, event)) ==> Now() == old(Now())
    {
      hide Inv, IsRun, SumOf, StoredBytes, NetBytes, Slack, OnlyLogsDiffer, NoProgressLeft, Accepts;
      SameLogsDiffer(records);
      if id !in records || records[id].invocation != Some(invocation) || !records[id].state.Running?
         || !Accepts(records[id].log, event) {
        return;
      }
      TotalIsNetPlusSlack();
      KnownRecord(id);
      AppendProgress(id, invocation, event);
      ghost var appended := records;
      EvictProgress();
      LogsDifferFurther(old(records), appended, records);
      NetAfterEviction(old(records), old(tombstones), old(NetTotal()));
      TotalIsNetPlusSlack();
    }

    lemma {:induction false} NetAfterEviction(was: Records, ts: seq<Tombstone>, net: nat)
      requires Accounted() && tombstones == ts && OnlyLogsDiffer(was, records)
      requires net == NetBytes(costs, was, ts) + reservedBytes + runningBytes + reservations * costs.reservation
      requires net <= MAX_LEDGER_BYTES
      requires TotalBytes() <= MAX_LEDGER_BYTES || NoProgressLeft(records)
      ensures NetTotal() <= MAX_LEDGER_BYTES
    {
      hide NetBytes, SumOf, OnlyLogsDiffer, NoProgressLeft;
      if NoProgressLeft(records) {
        BareLogsAreNoDearer(costs, was, records, ts);
      } else {
        TotalIsNetPlusSlack();
      }
    }

    method AppendProgress(id: Id, invocation: Id, event: ProgressEvent)
      requires Coherent() && IsRunning(Now(), id, invocation) && Accepts(records[id].log, event)
      modifies this`records, this`past, this`bytes, this`states, this`events
      ensures Coherent() && Accounted() && Extends()
      ensures OnlyLogsDiffer(old(records), records)
      ensures past == old(past)[id := old(past)[id].(accepted := old(past)[id].accepted + [event])]
    {
      hide Inv, IsRun, SumOf, StoredBytes, Step, OnlyLogsDiffer, Accepts, Append;
      PushProgress(id, invocation, event);
      ghost var appended := records;
      TrimLog(id);
      LogsDifferFurther(old(records), appended, records);
      RefreshBytes();
    }

    method PushProgress(id: Id, invocation: Id, event: ProgressEvent)
      requires Coherent() && IsRunning(Now(), id, invocation) && Accepts(records[id].log, event)
      modifies this`records, this`past, this`states, this`events
      ensures Coherent() && Extends() && Known(Now(), id) && OnlyLogsDiffer(old(records), records)
      ensures past == old(past)[id := old(past)[id].(accepted := old(past)[id].accepted + [event])]
    {
      hide Inv, IsRun, SumOf, StoredBytes, Step, OnlyLogsDiffer, Accepts, Append;
      ghost var before := Now();
      ProgressedStep(costs, before, id, invocation, event);
      records := records[id := records[id].(log := Append(records[id].log, event))];
      past := past[id := past[id].(accepted := past[id].accepted + [event])];
      Note(before, Progressed(id, invocation, event));
    }

    /** Drops a log's oldest events until it fits its own limits. */
    method TrimLog(id: Id)
      requires Coherent() && Known(Now(), id)
      modifies this`records, this`states, this`events
      ensures Coherent() && Extends() && OnlyLogsDiffer(old(records), records)
      ensures id in records && records[id].log == Trimmed(old(records)[id].log)
    {
      hide Inv, IsRun, SumOf, NetBytes, Step, OnlyLogsDiffer, PayloadBytes;
      SameLogsDiffer(records);
      while Overfull(records[id].log)
        invariant Coherent() && Extends() && OnlyLogsDiffer(old(records), records) && Known(Now(), id)
        invariant Trimmed(records[id].log) == Trimmed(old(records)[id].log)
        decreases |records[id].log.events|
      {
        NothingIsNotOverfull(records[id].log);
        ghost var was := records;
        DropOne(id);
        LogsDifferFurther(old(records), was, records);
      }
    }

    method DropOne(id: Id)
      requires Coherent() && Known(Now(), id) && records[id].log.events != [] && Overfull(records[id].log)
      modifies this`records, this`states, this`events
      ensures Coherent() && Known(Now(), id) && Extends() && OnlyLogsDiffer(old(records), records)
      ensures records == old(records)[id := old(records)[id].(log := DropFront(old(records)[id].log))]
    {
      hide Inv, IsRun, SumOf, NetBytes, Step, OnlyLogsDiffer, PayloadBytes;
      ghost var before := Now();
      ProgressDroppedStep(costs, before, id);
      records := records[id := records[id].(log := DropFront(records[id].log))];
      Note(before, ProgressTrimmed(id));
    }

    // --- Questions, each after a prune ---

    method Status(id: Id, invocation: Option<Id>, now: nat) returns (reply: StatusReply)
      requires Valid()
      modifies this
      ensures Valid() && Extends() && SameTokens()
      ensures reply == StatusOf(records, tombstones, id, invocation)
    {
      hide Inv, IsRun, SumOf, StoredBytes, Slack, Expired;
      Prune(now);
      reply := StatusOf(records, tombstones, id, invocation);
    }

    /** Status with the progress after a cursor; a cursor not yet issued is refused. */
    method StatusAfter(id: Id, invocation: Option<Id>, cursor: nat, now: nat) returns (reply: StatusReply)
      requires Valid()
      modifies this
      ensures Valid() && Extends() && SameTokens()
      ensures reply == StatusAfterOf(records, tombstones, id, invocation, cursor)
      ensures reply.StatusIs? && id in records ==>
        && id in past && |records[id].log.events| <= |past[id].accepted|
        && (reply.progress == After(past[id].accepted, cursor) <==>
              NoneNewer(Lost(records[id].log, past[id].accepted), cursor))
    {
      hide Inv, IsRun, SumOf, StoredBytes, Slack, NoneNewer, After, Lost;
      reply := Status(id, invocation, now);
      if reply.StatusRefused? { return; }
      if cursor == U64_MAX || cursor >= reply.metadata.next { return StatusRefused; }
      var kept := KeepAfter(reply.progress, cursor);
      reply := reply.(progress := kept);
      if id in records { ReplayOf(id, cursor); }
    }

    lemma {:induction false} ReplayOf(id: Id, cursor: nat)
      requires Coherent() && id in records
      ensures id in past && |records[id].log.events| <= |past[id].accepted|
      ensures After(records[id].log.events, cursor) == After(past[id].accepted, cursor)
        <==> NoneNewer(Lost(records[id].log, past[id].accepted), cursor)
    {
      hide IsRun, RecordsInv, TombstonesInv, TokensConserved, WithinLimits;
      KnownRecord(id);
      assert LogInv(records[id].log, past[id].accepted);
      hide LogsInv;
      ReplayLosesNothing(records[id].log, past[id].accepted, cursor);
    }

    method Release(id: Id, invocation: Option<Id>, now: nat) returns (reply: StatusReply, released: bool)
      requires Valid()
      modifies this
      ensures Valid() && Extends() && SameTokens()
      ensures released ==> id !in records && reply.StatusIs? && !reply.state.Running?
      ensures released ==> exists t :: t in tombstones && t.id == id
    {
      hide Inv, IsRun, SumOf, StoredBytes, Slack, StatusOf, Expired, NetTotal;
      Prune(now);
      reply, released := StatusOf(records, tombstones, id, invocation), false;
      if reply.StatusRefused? || id !in records { return; }
      if records[id].state.Running? { return StatusRefused, false; }
      reply := StatusIs(records[id].state, records[id].outcome, MetadataOf(records[id].log), records[id].log.events);
      TotalIsNetPlusSlack();
      var _ := Forget(id, Forgotten, now);
      TotalIsNetPlusSlack();
      released := true;
    }
  }

  // --- A start that passes the ceiling ---

  const WAITING_ID: Id := "p"
  const STARTING_ID: Id := "i"

  /** A waiting record's own charge, its prepared operation aside. */
  function BareWaiting(c: Costs): nat { c.record + c.mapSlot + 2 * (c.idHead + 1) + c.leaseOverhead }

  /** Sizes under which a small record and the large reservation leave room for one another. */
  predicate Roomy(c: Costs) {
    && ValidCosts(c) && c.reservation <= PREPARATION_BOOKKEEPING_BYTES
    && LargeReservation(c) >= MAX_LEDGER_BYTES - MAX_PREPARED_OPERATION_BYTES
    && BareWaiting(c) + c.reservation <= TombstoneRowBytes(c) + PREPARATION_BOOKKEEPING_BYTES
  }

  /** An operation just large enough that its record and the large reservation fill the ledger. */
  function WaitingOperation(c: Costs): nat
    requires Roomy(c)
  {
    TombstoneRowBytes(c) + PREPARATION_BOOKKEEPING_BYTES - BareWaiting(c) - c.reservation
  }

  function Waiting(c: Costs): Record
    requires Roomy(c)
  {
    Record(true, WaitingOperation(c), "", 0, 0, RETENTION_TTL, None, None, Prepared, false, None, None, EMPTY_LOG)
  }

  lemma {:induction false} OneWaiting(c: Costs)
    requires Roomy(c)
    ensures Waiting(c).preparedBytes <= MAX_PREPARED_OPERATION_BYTES
    ensures StoredBytes(c, map[WAITING_ID := Waiting(c)], []) == RecordBytes(c, WAITING_ID, Waiting(c))
    ensures RecordBytes(c, WAITING_ID, Waiting(c)) + LargeReservation(c) + c.reservation == MAX_LEDGER_BYTES
    ensures PreparedCount(map[WAITING_ID := Waiting(c)]) == 1
  {
    hide SumOf, TombstoneRowBytes;
    var m: Records, w := map[], Waiting(c);
    EmptySum(c);
    SumPut(Charges(c, m), WAITING_ID, RecordBytes(c, WAITING_ID, w));
    assert Charges(c, map[WAITING_ID := w]) == Charges(c, m)[WAITING_ID := RecordBytes(c, WAITING_ID, w)];
    PreparedPut(m, WAITING_ID, w);
    NothingPrepared();
    assert m[WAITING_ID := w] == map[WAITING_ID := w];
  }

  /** A preparation under way: reserved small, then resized to what its record needs. */
  method PreparingLedger(costs: Costs) returns (ledger: Ledger, amount: nat)
    requires Roomy(costs)
    ensures fresh(ledger) && ledger.Valid() && ledger.costs == costs
    ensures amount == ReservationBytes(costs, WAITING_ID, Waiting(costs))
    ensures ledger.Now()
      == EMPTY.(counters := Counters(0, amount, 0, 1), tokens := map[0 := amount])
  {
    hide Inv, IsRun, SumOf, StoredBytes, Slack, PreparedCount, TombstoneRowBytes, Ledger.Coherent, Ledger.Accounted,
      RecordBytes;
    ledger := new Ledger(costs);
    NothingPrepared();
    OneWaiting(costs);
    PlainSizes(costs);
    amount := ReservationBytes(costs, WAITING_ID, Waiting(costs));
    var granted := ledger.Reserve(SMALL_PREPARATION_RESERVATION_BYTES, 0, 0);
    assert granted;
    granted := ledger.ResizeReservation(SMALL_PREPARATION_RESERVATION_BYTES, amount, 0, 0);
    assert granted;
  }

  lemma {:induction false} PlainSizes(c: Costs)
    requires Roomy(c)
    ensures 0 <= ReservationBytes(c, WAITING_ID, Waiting(c))
    ensures ReservationBytes(c, WAITING_ID, Waiting(c)) + c.reservation <= MAX_LEDGER_BYTES
    ensures SMALL_PREPARATION_RESERVATION_BYTES + c.reservation <= MAX_LEDGER_BYTES
  {
    hide TombstoneRowBytes;
  }

  /** A ledger with one record waiting for its start. */
  method WaitingLedger(costs: Costs) returns (ledger: Ledger)
    requires Roomy(costs)
    ensures fresh(ledger) && ledger.Valid() && ledger.costs == costs
    ensures ledger.records == map[WAITING_ID := Waiting(costs)] && ledger.tombstones == [] && ledger.tokens == map[]
    ensures ledger.reservations == 0 && ledger.reservedBytes == 0 && ledger.runningBytes == 0
    ensures ledger.bytes == RecordBytes(costs, WAITING_ID, Waiting(costs))
  {
    hide Inv, IsRun, SumOf, StoredBytes, Slack, Ledger.Coherent, RecordBytes, TombstoneRowBytes;
    var amount;
    ledger, amount := PreparingLedger(costs);
    OneWaiting(costs);
    PlainSizes(costs);
    hide PreparedCount, ReservationBytes;
    var inserted := ledger.InsertReserved(WAITING_ID, Waiting(costs), amount, 0, 0);
    assert ledger.records[WAITING_ID := Waiting(costs)] == map[WAITING_ID := Waiting(costs)];
    assert inserted;
  }

  /** One record runs, beside the large reservation of another preparation: two ids above the ceiling. */
  method OverfullLedger(costs: Costs) returns (ledger: Ledger)
    requires Roomy(costs)
    ensures fresh(ledger) && ledger.Valid() && ledger.costs == costs
    ensures ledger.records == map[WAITING_ID := StartedRecord(Waiting(costs), STARTING_ID)] && ledger.tombstones == []
    ensures ledger.finishing.None? && WAITING_ID in ledger.past
    ensures ledger.TotalBytes() == MAX_LEDGER_BYTES + 2 * IdBytes(costs, STARTING_ID)
  {
    hide Inv, IsRun, SumOf, StoredBytes, Slack, PreparedCount, FindTombstone, RecordBytes, TombstoneRowBytes;
    ledger := WaitingLedger(costs);
    OneWaiting(costs);
    var granted := ledger.Reserve(LargeReservation(costs), 0, 1);
    assert granted && ledger.TotalBytes() == MAX_LEDGER_BYTES;
    var reply, _, _ := ledger.Begin(WAITING_ID, STARTING_ID, "", 0);
  }

  /**
   The sizes the server itself reserves reach a total above the ceiling: a small preparation waits, a large one is
   being made, and the first is started.
   */
  method CeilingPassed(costs: Costs) returns (total: nat)
    requires Roomy(costs)
    ensures total == MAX_LEDGER_BYTES + 2 * IdBytes(costs, STARTING_ID) && total > MAX_LEDGER_BYTES
  {
    hide TombstoneRowBytes, RecordBytes;
    var ledger := OverfullLedger(costs);
    total := ledger.TotalBytes();
  }

  /**
   From there a finish has nothing to evict and ends just as far above, though the program asserts, in debug
   builds, that it never does.
   */
  method FinishAboveCeiling(costs: Costs, outcome: Outcome) returns (total: nat)
    requires Roomy(costs)
    ensures total == MAX_LEDGER_BYTES + 2 * IdBytes(costs, STARTING_ID) && total > MAX_LEDGER_BYTES
  {
    hide Inv, IsRun, SumOf, StoredBytes, Slack, RecordBytes, TombstoneRowBytes, BareBytes, Ledger.Coherent,
      Ledger.Accounted;
    var ledger := OverfullLedger(costs);
    ledger.BareIsAllLeft(WAITING_ID);
    ghost var _ := ledger.Finish(WAITING_ID, STARTING_ID, outcome, 0);
    total := ledger.TotalBytes();
  }
}
