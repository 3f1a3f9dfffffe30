/**
 The ledger as a transition system.

 A `World` is the ledger's own fields beside the history no program variable holds: the live
 reservation tokens, and each preparation's `Past` - which invocation started it, its live lease,
 how it settled, and every progress event it accepted. An `Event` is one step a ledger method takes
 while it holds the lock; `finishing` names the record a `finish` call has settled but not released.
 */
module LedgerSteps {
  import opened Wrappers
  import opened Sums
  import opened ProgressLog
  import opened LedgerTypes

  datatype Counters = Counters(bytes: nat, reservedBytes: nat, runningBytes: nat, reservations: nat)

  datatype Settlement = Settlement(state: OperationState, outcome: Option<Outcome>)

  datatype Past = Past(
    invocation: Option<Id>, lease: Option<nat>, settled: Option<Settlement>, accepted: seq<ProgressEvent>)

  type Pasts = map<Id, Past>

  datatype World = World(
    records: Records, tombstones: seq<Tombstone>, evictedThrough: Option<nat>, counters: Counters,
    tokens: map<nat, nat>, past: Pasts, finishing: Option<Id>)

  datatype BeginReply =
    | ReplyStart
    | ReplyRunning
    | ReplyTerminal(settlement: Settlement)
    | ReplyNotFound
    | ReplyForgotten
    | ReplyBindingMismatch
    | ReplyInvocationMismatch
    | ReplyExpired
    | ReplyInternal

  datatype Event =
    | Reserved(token: nat, bytes: nat)
    | Resized(token: nat, bytes: nat)
    | RolledBack(token: nat)
    | Committed(token: nat, id: Id, record: Record)
    | Started(id: Id, invocation: Id, host: string, now: nat)
    | Replied(id: Id, invocation: Id, host: string, now: nat, reply: BeginReply)
    | Progressed(id: Id, invocation: Id, event: ProgressEvent)
    | ProgressTrimmed(id: Id)
    | ProgressDropped(id: Id)
    | Settled(id: Id, invocation: Id, outcome: Option<Outcome>, now: nat)
    | Stripped(id: Id)
    | SettleDone(id: Id)
    | Withdrawn(id: Id)
    | Forgot(id: Id, state: OperationState, now: nat, wall: nat)
    | TombstoneDropped(noted: bool, now: nat)
    | Refreshed(bytes: nat)
    | LeaseDropped(id: Id)

  const EMPTY: World := World(map[], [], None, Counters(0, 0, 0, 0), map[], map[], None)

  // --- Records through their life ---

  predicate NewRecord(r: Record) {
    r.holdsOperation && r.invocation.None? && r.execution.None? && r.state.Prepared? && !r.cancellable
    && r.outcome.None? && r.terminalAt.None? && r.log == EMPTY_LOG
  }

  function TerminalState(outcome: Option<Outcome>): OperationState {
    if outcome.None? || outcome.value.sideEffectsPossible then Indeterminate
    else match outcome.value.kind
      case KindCompleted => Completed
      case KindFailed => Failed
      case KindCancelled => Cancelled
  }

  function StartedRecord(r: Record, invocation: Id): Record {
    r.(holdsOperation := false, invocation := Some(invocation), execution := Some(invocation),
       state := Running, cancellable := true)
  }

  function SettledRecord(r: Record, outcome: Option<Outcome>, now: nat): Record {
    r.(state := TerminalState(outcome), cancellable := false, outcome := outcome, terminalAt := Some(now))
  }

  function StrippedRecord(r: Record): Record {
    r.(state := Indeterminate, outcome := None, log := Clear(r.log))
  }

  function FindTombstone(ts: seq<Tombstone>, id: Id): (t: Option<Tombstone>)
    ensures t.Some? ==> t.value in ts && t.value.id == id
    ensures t.None? ==> forall i :: 0 <= i < |ts| ==> ts[i].id != id
  {
    if ts == [] then None else if ts[0].id == id then Some(ts[0]) else FindTombstone(ts[1..], id)
  }

  /** What `begin` answers for this request in this state, in the order it asks. */
  function ReplyTo(records: Records, tombstones: seq<Tombstone>, id: Id, invocation: Id, host: string, now: nat)
    : BeginReply
  {
    if id !in records then
      var t := FindTombstone(tombstones, id);
      if t.None? then ReplyNotFound
      else if t.value.invocation.Some? && t.value.invocation.value != invocation then ReplyInvocationMismatch
      else ReplyForgotten
    else
      var r := records[id];
      if r.host != host then ReplyBindingMismatch
      else if r.invocation.Some? then
        if r.invocation.value != invocation then ReplyInvocationMismatch
        else if r.state.Running? then ReplyRunning
        else ReplyTerminal(Settlement(r.state, r.outcome))
      else if now >= r.expiresAt then ReplyExpired
      else if !r.holdsOperation then ReplyInternal
      else ReplyStart
  }

  // --- The steps: when each may happen, and what it leaves ---

  ghost predicate CanReserve(w: World, token: nat) {
    w.finishing.None? && token !in w.tokens
    && PreparedCount(w.records) + w.counters.reservations < MAX_PREPARATIONS
    && |w.records| + w.counters.reservations < MAX_OPERATIONS
  }

  function Reserve(w: World, token: nat, bytes: nat): World {
    var k := w.counters;
    w.(counters := k.(reservations := k.reservations + 1, reservedBytes := k.reservedBytes + bytes),
       tokens := w.tokens[token := bytes])
  }

  predicate HoldsToken(w: World, token: nat) {
    w.finishing.None? && token in w.tokens
  }

  function Resize(w: World, token: nat, bytes: nat): World
    requires token in w.tokens
  {
    var k := w.counters;
    w.(counters := k.(reservedBytes := SatSub(k.reservedBytes, w.tokens[token]) + bytes),
       tokens := w.tokens[token := bytes])
  }

  function Release(k: Counters, bytes: nat): Counters {
    k.(reservations := SatSub(k.reservations, 1), reservedBytes := SatSub(k.reservedBytes, bytes))
  }

  function RollBack(w: World, token: nat): World
    requires token in w.tokens
  {
    w.(counters := Release(w.counters, w.tokens[token]), tokens := w.tokens - {token})
  }

  const NO_PAST: Past := Past(None, None, None, [])

  predicate CanCommit(w: World, token: nat, id: Id, r: Record) {
    HoldsToken(w, token) && id !in w.past && id !in w.records && NewRecord(r) && |w.records| < MAX_OPERATIONS
  }

  function Commit(w: World, token: nat, id: Id, r: Record): World
    requires token in w.tokens
  {
    RollBack(w, token).(records := w.records[id := r], past := w.past[id := NO_PAST])
  }

  /** Replaces one record and its past. */
  function Touch(w: World, id: Id, r: Record, p: Past, finishing: Option<Id>): World {
    w.(records := w.records[id := r], past := w.past[id := p], finishing := finishing)
  }

  predicate Known(w: World, id: Id) {
    id in w.records && id in w.past
  }

  predicate CanStart(w: World, id: Id, invocation: Id, host: string, now: nat) {
    w.finishing.None? && Known(w, id)
    && ReplyTo(w.records, w.tombstones, id, invocation, host, now).ReplyStart?
  }

  function BeginRun(c: Costs, w: World, id: Id, invocation: Id): World
    requires Known(w, id)
  {
    var bytes := w.records[id].preparedBytes + c.leaseOverhead;
    Touch(w, id, StartedRecord(w.records[id], invocation),
          w.past[id].(invocation := Some(invocation), lease := Some(bytes)), None)
    .(counters := w.counters.(runningBytes := w.counters.runningBytes + bytes))
  }

  predicate IsRunning(w: World, id: Id, invocation: Id) {
    w.finishing.None? && Known(w, id) && w.records[id].state.Running?
    && w.records[id].invocation == Some(invocation)
  }

  function Progress(w: World, id: Id, event: ProgressEvent): World
    requires Known(w, id)
  {
    Touch(w, id, w.records[id].(log := Append(w.records[id].log, event)),
          w.past[id].(accepted := w.past[id].accepted + [event]), w.finishing)
  }

  predicate HasProgress(w: World, id: Id) {
    Known(w, id) && w.records[id].log.events != []
  }

  function DropProgress(w: World, id: Id): World
    requires HasProgress(w, id)
  {
    Touch(w, id, w.records[id].(log := DropFront(w.records[id].log)), w.past[id], w.finishing)
  }

  function Settle(w: World, id: Id, outcome: Option<Outcome>, now: nat): World
    requires Known(w, id)
  {
    Touch(w, id, SettledRecord(w.records[id], outcome, now), w.past[id], Some(id))
  }

  predicate IsFinishing(w: World, id: Id) {
    w.finishing == Some(id) && Known(w, id)
  }

  function Strip(w: World, id: Id): World
    requires Known(w, id)
  {
    Touch(w, id, StrippedRecord(w.records[id]), w.past[id], w.finishing)
  }

  function SettlementOf(r: Record): Settlement { Settlement(r.state, r.outcome) }

  function EndSettle(w: World, id: Id): World
    requires Known(w, id)
  {
    Touch(w, id, w.records[id], w.past[id].(settled := Some(SettlementOf(w.records[id]))), None)
  }

  /** A commit that turns out not to fit takes its record back out. */
  function Withdraw(w: World, id: Id): World { w.(records := w.records - {id}) }

  predicate CanForget(w: World, id: Id, state: OperationState) {
    id in w.records && !w.records[id].state.Running? && w.finishing != Some(id)
    && (state.Forgotten? || state.Indeterminate?)
  }

  function PushTombstone(ts: seq<Tombstone>, t: Tombstone): seq<Tombstone> {
    (if |ts| == MAX_TOMBSTONES then ts[1..] else ts) + [t]
  }

  function Forget(w: World, id: Id, state: OperationState, now: nat, wall: nat): World
    requires id in w.records
  {
    w.(records := w.records - {id},
       tombstones := PushTombstone(w.tombstones, TombstoneOf(id, w.records[id], state, now, wall)),
       evictedThrough := if |w.tombstones| == MAX_TOMBSTONES
                         then NoteEviction(w.evictedThrough, w.tombstones[0]) else w.evictedThrough)
  }

  function DropTombstone(w: World, noted: bool): World
    requires w.tombstones != []
  {
    w.(tombstones := w.tombstones[1..],
       evictedThrough := if noted then NoteEviction(w.evictedThrough, w.tombstones[0]) else w.evictedThrough)
  }

  function Refresh(w: World, bytes: nat): World { w.(counters := w.counters.(bytes := bytes)) }

  predicate CanDropLease(w: World, id: Id) {
    w.finishing.None? && id in w.past && w.past[id].lease.Some?
    && !(id in w.records && w.records[id].state.Running?)
  }

  function DropLease(w: World, id: Id): World
    requires id in w.past && w.past[id].lease.Some?
  {
    w.(counters := w.counters.(runningBytes := SatSub(w.counters.runningBytes, w.past[id].lease.value)),
       past := w.past[id := w.past[id].(lease := None)])
  }

  // --- Why a step that gives something up is taken ---

  function TotalOf(c: Costs, w: World): nat {
    w.counters.bytes + w.counters.reservedBytes + w.counters.runningBytes + w.counters.reservations * c.reservation
  }

  predicate OverCeiling(c: Costs, w: World) { TotalOf(c, w) > MAX_LEDGER_BYTES }

  /** The records that still hold progress, by when they were created. */
  function ByCreation(m: Records): map<Id, nat> {
    map id | id in m && m[id].log.events != [] :: m[id].createdAt
  }

  /** The terminal records other than the protected one, by when they settled. */
  function ByTermination(m: Records, protected: Id): map<Id, nat> {
    map id | id in m && id != protected && m[id].IsTerminal() ::
      if m[id].terminalAt.Some? then m[id].terminalAt.value else 0
  }

  ghost predicate EarliestIn(m: map<Id, nat>, id: Id) {
    id in m && forall k :: k in m ==> m[id] <= m[k]
  }

  ghost predicate NoProgressLeft(m: Records) {
    forall id :: id in m ==> m[id].log.events == []
  }

  /** Nothing but tombstones and unsettled records is left beside the protected one. */
  ghost predicate NothingElse(m: Records, protected: Id) {
    NoProgressLeft(m) && ByTermination(m, protected) == map[]
  }

  predicate Lapsed(t: Tombstone, now: nat) { now >= t.forgottenAt + RETENTION_TTL }

  /**
   Reservations stay within the ceiling. Over the ceiling, and only then, progress goes oldest record first;
   with no progress left, settled records go longest settled first; with none left but the one being
   finished, its outcome goes; and only then tombstones, unnoted.
   */
  ghost predicate Justified(c: Costs, w: World, e: Event) {
    match e
    case Reserved(token, bytes) => TotalOf(c, Reserve(w, token, bytes)) <= MAX_LEDGER_BYTES
    case Resized(token, bytes) => HoldsToken(w, token) && TotalOf(c, Resize(w, token, bytes)) <= MAX_LEDGER_BYTES
    case ProgressTrimmed(id) => id in w.records && Overfull(w.records[id].log)
    case ProgressDropped(id) => OverCeiling(c, w) && EarliestIn(ByCreation(w.records), id)
    case Forgot(id, state, _, _) =>
      state.Indeterminate? ==>
        && OverCeiling(c, w) && w.finishing.Some? && NoProgressLeft(w.records)
        && EarliestIn(ByTermination(w.records, w.finishing.value), id)
    case Stripped(id) => OverCeiling(c, w) && NothingElse(w.records, id)
    case TombstoneDropped(noted, now) =>
      if noted then
        w.tombstones != [] && (Lapsed(w.tombstones[0], now) || |w.tombstones| > MAX_TOMBSTONES || OverCeiling(c, w))
      else
        && OverCeiling(c, w) && w.finishing.Some? && w.finishing.value in w.records
        && SettlementOf(w.records[w.finishing.value]) == Settlement(Indeterminate, None)
        && NothingElse(w.records, w.finishing.value)
    case _ => true
  }

  ghost predicate Step(c: Costs, w: World, e: Event, w': World) {
    Justified(c, w, e) &&
    match e
    case Reserved(token, bytes) => CanReserve(w, token) && w' == Reserve(w, token, bytes)
    case Resized(token, bytes) => HoldsToken(w, token) && w' == Resize(w, token, bytes)
    case RolledBack(token) => HoldsToken(w, token) && w' == RollBack(w, token)
    case Committed(token, id, r) => CanCommit(w, token, id, r) && w' == Commit(w, token, id, r)
    case Started(id, invocation, host, now) =>
      CanStart(w, id, invocation, host, now) && w' == BeginRun(c, w, id, invocation)
    case Replied(id, invocation, host, now, reply) =>
      w.finishing.None? && !reply.ReplyStart? && w' == w
      && reply == ReplyTo(w.records, w.tombstones, id, invocation, host, now)
    case Progressed(id, invocation, event) =>
      IsRunning(w, id, invocation) && Accepts(w.records[id].log, event) && w' == Progress(w, id, event)
    case ProgressTrimmed(id) => HasProgress(w, id) && w' == DropProgress(w, id)
    case ProgressDropped(id) => HasProgress(w, id) && w' == DropProgress(w, id)
    case Settled(id, invocation, outcome, now) =>
      IsRunning(w, id, invocation) && w' == Settle(w, id, outcome, now)
    case Stripped(id) => IsFinishing(w, id) && w' == Strip(w, id)
    case SettleDone(id) => IsFinishing(w, id) && w' == EndSettle(w, id)
    case Withdrawn(id) =>
      w.finishing.None? && id in w.records && w.records[id].state.Prepared? && w' == Withdraw(w, id)
    case Forgot(id, state, now, wall) => CanForget(w, id, state) && w' == Forget(w, id, state, now, wall)
    case TombstoneDropped(noted, _) => w.tombstones != [] && w' == DropTombstone(w, noted)
    case Refreshed(bytes) => bytes == StoredBytes(c, w.records, w.tombstones) && w' == Refresh(w, bytes)
    case LeaseDropped(id) => CanDropLease(w, id) && w' == DropLease(w, id)
  }

  // --- What a step leaves alone ---

  predicate OnTokens(e: Event) {
    e.Reserved? || e.Resized? || e.RolledBack? || e.Replied? || e.Refreshed?
  }

  predicate OnRecord(e: Event) {
    e.Started? || e.Progressed? || e.ProgressTrimmed? || e.ProgressDropped? || e.Settled? || e.Stripped?
      || e.SettleDone?
  }

  lemma {:induction false} TokensFrame(c: Costs, w: World, e: Event, w': World)
    requires Step(c, w, e, w') && OnTokens(e)
    ensures w'.records == w.records && w'.past == w.past && w'.finishing == w.finishing
    ensures w'.tombstones == w.tombstones && w'.evictedThrough == w.evictedThrough
  {
    hide Justified, FindTombstone, ReplyTo, StoredBytes, PreparedCount, SatSub;
  }

  lemma {:induction false} RecordFrame(c: Costs, w: World, e: Event, w': World)
    requires Step(c, w, e, w') && OnRecord(e)
    ensures Known(w, e.id) && e.id in w'.records
    ensures w'.records == w.records[e.id := w'.records[e.id]] && w'.records[e.id].host == w.records[e.id].host
    ensures w'.tombstones == w.tombstones && w'.evictedThrough == w.evictedThrough
  {
    hide Justified, FindTombstone, Append, DropFront, Clear, Accepts;
  }

  lemma {:induction false} RecordPastFrame(c: Costs, w: World, e: Event, w': World)
    requires Step(c, w, e, w') && OnRecord(e) && !e.Started? && !e.SettleDone?
    ensures Known(w, e.id) && e.id in w'.past && w'.past == w.past[e.id := w'.past[e.id]]
    ensures w'.past[e.id].invocation == w.past[e.id].invocation && w'.past[e.id].settled == w.past[e.id].settled
    ensures w.past[e.id].accepted <= w'.past[e.id].accepted
  {
    hide Justified, Append, DropFront, Clear, Accepts, SettledRecord, StrippedRecord;
  }

  /** Once bound, a record changes in its state, its outcome and its log, but not in whose it is. */
  lemma {:induction false} RecordStaysBound(c: Costs, w: World, e: Event, w': World)
    requires Step(c, w, e, w') && OnRecord(e) && e.id in w.records && w.records[e.id].invocation.Some?
    ensures e.id in w'.records && w'.records[e.id].invocation == w.records[e.id].invocation
  {
    hide Justified, FindTombstone, Append, DropFront, Clear, Accepts;
  }

  lemma {:induction false} OthersFrame(c: Costs, w: World, e: Event, w': World)
    requires Step(c, w, e, w') && !OnTokens(e) && !OnRecord(e)
    ensures e.Committed? || e.LeaseDropped? || w'.past == w.past
    ensures e.Forgot? || e.TombstoneDropped? || (w'.tombstones == w.tombstones && w'.evictedThrough == w.evictedThrough)
    ensures e.Committed? || e.Withdrawn? || e.Forgot? || w'.records == w.records
  {
    hide Justified, SatSub, PushTombstone, TombstoneOf, NoteEviction, NewRecord;
  }

  // --- The invariant ---

  ghost predicate RecordInv(r: Record, p: Past, finishing: bool) {
    && (r.state.Prepared? || r.state.Running? || r.IsTerminal())
    && (r.state.Prepared? <==> r.holdsOperation)
    && (r.state.Prepared? <==> r.invocation.None?)
    && r.execution == r.invocation
    && (r.state.Running? <==> r.cancellable)
    && (r.IsTerminal() <==> r.terminalAt.Some?)
    && (r.outcome.Some? ==> r.IsTerminal())
    && p.invocation == r.invocation
    && (r.state.Running? ==> p.lease.Some?)
    && (r.IsTerminal() && !finishing ==> p.settled == Some(SettlementOf(r)))
    && (!r.IsTerminal() || finishing ==> p.settled == None)
    && (finishing ==> r.IsTerminal())
  }

  predicate PastInv(p: Past) {
    p.invocation.None? ==> p.lease.None? && p.settled.None?
  }

  ghost predicate RecordsInv(records: Records, past: Pasts, finishing: Option<Id>) {
    && (finishing.Some? ==> finishing.value in records)
    && (forall id :: id in records ==> id in past && RecordInv(records[id], past[id], finishing == Some(id)))
    && (forall id :: id in past ==> PastInv(past[id]))
  }

  ghost predicate LogsInv(records: Records, past: Pasts) {
    forall id :: id in records && id in past ==> LogInv(records[id].log, past[id].accepted)
  }

  ghost predicate TombstoneInv(t: Tombstone, records: Records, past: Pasts) {
    t.id !in records && t.id in past && past[t.id].invocation == t.invocation
    && (t.state.Forgotten? || t.state.Indeterminate?)
  }

  ghost predicate TombstonesInv(tombstones: seq<Tombstone>, records: Records, past: Pasts) {
    forall i :: 0 <= i < |tombstones| ==> TombstoneInv(tombstones[i], records, past)
  }

  ghost function Leases(past: Pasts): map<Id, nat> {
    map id | id in past && past[id].lease.Some? :: past[id].lease.value
  }

  /** Every counter equals the count or sum of the live tokens it stands for. */
  ghost predicate TokensConserved(k: Counters, tokens: map<nat, nat>, past: Pasts) {
    && k.reservations == |tokens|
    && k.reservedBytes == SumOf(tokens)
    && k.runningBytes == SumOf(Leases(past))
  }

  ghost predicate WithinLimits(records: Records, reservations: nat) {
    && PreparedCount(records) + reservations <= MAX_PREPARATIONS
    && |records| + reservations <= MAX_OPERATIONS
  }

  ghost predicate Inv(w: World) {
    && RecordsInv(w.records, w.past, w.finishing)
    && LogsInv(w.records, w.past)
    && TombstonesInv(w.tombstones, w.records, w.past)
    && TokensConserved(w.counters, w.tokens, w.past)
    && WithinLimits(w.records, w.counters.reservations)
  }

  // --- One change at a time ---

  lemma {:induction false} RecordReplaced(
      records: Records, past: Pasts, finishing: Option<Id>, id: Id, r: Record, p: Past, finishing': Option<Id>)
    requires RecordsInv(records, past, finishing) && id in records
    requires finishing == finishing'
      || ((finishing.None? || finishing == Some(id)) && (finishing'.None? || finishing' == Some(id)))
    requires RecordInv(r, p, finishing' == Some(id)) && PastInv(p)
    ensures RecordsInv(records[id := r], past[id := p], finishing')
  {
  }

  lemma {:induction false} LogReplaced(records: Records, past: Pasts, id: Id, r: Record, p: Past)
    requires LogsInv(records, past) && LogInv(r.log, p.accepted)
    ensures LogsInv(records[id := r], past[id := p])
  {
    hide LogInv;
    var records', past' := records[id := r], past[id := p];
    forall k | k in records' && k in past' ensures LogInv(records'[k].log, past'[k].accepted) {
      if k != id { assert LogInv(records[k].log, past[k].accepted); }
    }
  }

  lemma {:induction false} TombstonesUntouched(
      ts: seq<Tombstone>, records: Records, past: Pasts, id: Id, r: Record, p: Past)
    requires TombstonesInv(ts, records, past) && (id in records || id !in past)
    ensures TombstonesInv(ts, records[id := r], past[id := p])
  {
    forall i | 0 <= i < |ts| ensures TombstoneInv(ts[i], records[id := r], past[id := p]) {
      assert TombstoneInv(ts[i], records, past);
    }
  }

  lemma {:induction false} LimitsAfterReplace(records: Records, id: Id, r: Record)
    requires id in records && (r.state.Prepared? ==> records[id].state.Prepared?)
    ensures PreparedCount(records[id := r]) <= PreparedCount(records)
    ensures |records[id := r]| == |records|
  {
    PreparedPut(records, id, r);
    assert records[id := r].Keys == records.Keys;
  }

  lemma {:induction false} LimitsAfterInsert(records: Records, id: Id, r: Record)
    requires id !in records
    ensures PreparedCount(records[id := r]) <= PreparedCount(records) + 1
    ensures |records[id := r]| == |records| + 1
  {
    PreparedPut(records, id, r);
    assert records[id := r].Keys == records.Keys + {id};
  }

  lemma {:induction false} LeasesUntouched(past: Pasts, id: Id, p: Past)
    requires p.lease == (if id in past then past[id].lease else None)
    ensures Leases(past[id := p]) == Leases(past)
  {
  }

  lemma {:induction false} LeaseAdded(past: Pasts, id: Id, p: Past)
    requires p.lease.Some? && (id in past ==> past[id].lease.None?)
    ensures SumOf(Leases(past[id := p])) == SumOf(Leases(past)) + p.lease.value
  {
    SumPut(Leases(past), id, p.lease.value);
    assert Leases(past[id := p]) == Leases(past)[id := p.lease.value];
  }

  lemma {:induction false} LeaseRemoved(past: Pasts, id: Id, p: Past)
    requires p.lease.None? && id in past && past[id].lease.Some?
    ensures SumOf(Leases(past)) == SumOf(Leases(past[id := p])) + past[id].lease.value
  {
    SumRemove(Leases(past), id);
    assert Leases(past[id := p]) == Leases(past) - {id};
  }

  /** A step that replaces one record and its past, leaving leases alone, keeps the invariant. */
  lemma {:induction false} TouchKeepsInv(w: World, id: Id, r: Record, p: Past, finishing: Option<Id>)
    requires Inv(w) && Known(w, id)
    requires w.finishing == finishing
      || ((w.finishing.None? || w.finishing == Some(id)) && (finishing.None? || finishing == Some(id)))
    requires RecordInv(r, p, finishing == Some(id)) && PastInv(p) && LogInv(r.log, p.accepted)
    requires r.state.Prepared? ==> w.records[id].state.Prepared?
    requires p.lease == w.past[id].lease
    ensures Inv(Touch(w, id, r, p, finishing))
  {
    hide RecordInv, LogInv, TombstoneInv, PastInv, SumOf;
    RecordReplaced(w.records, w.past, w.finishing, id, r, p, finishing);
    LogReplaced(w.records, w.past, id, r, p);
    TombstonesUntouched(w.tombstones, w.records, w.past, id, r, p);
    LimitsAfterReplace(w.records, id, r);
    LeasesUntouched(w.past, id, p);
  }

  lemma {:induction false} TokenRemoved(tokens: map<nat, nat>, token: nat)
    requires token in tokens
    ensures |tokens - {token}| == |tokens| - 1
    ensures SumOf(tokens) == tokens[token] + SumOf(tokens - {token})
  {
    SumRemove(tokens, token);
    assert (tokens - {token}).Keys == tokens.Keys - {token};
  }

  // --- Preservation, one event at a time ---

  lemma {:induction false} ReserveKeepsInv(w: World, token: nat, bytes: nat)
    requires Inv(w) && CanReserve(w, token)
    ensures Inv(Reserve(w, token, bytes))
  {
    hide LogInv, SumOf;
    SumPut(w.tokens, token, bytes);
  }

  /** Resizing gives back no more than is reserved: the saturating subtraction never saturates. */
  lemma {:induction false} ResizeKeepsInv(w: World, token: nat, bytes: nat)
    requires Inv(w) && HoldsToken(w, token)
    ensures Inv(Resize(w, token, bytes))
    ensures w.counters.reservedBytes >= w.tokens[token]
  {
    hide LogInv;
    SumPut(w.tokens, token, bytes);
    TokenRemoved(w.tokens, token);
    assert w.tokens[token := bytes].Keys == w.tokens.Keys;
    assert |w.tokens[token := bytes]| == |w.tokens|;
  }

  lemma {:induction false} RollBackKeepsInv(w: World, token: nat)
    requires Inv(w) && HoldsToken(w, token)
    ensures Inv(RollBack(w, token))
    ensures w.counters.reservedBytes >= w.tokens[token] && w.counters.reservations >= 1
  {
    hide LogInv;
    TokenRemoved(w.tokens, token);
  }

  lemma {:induction false} NewRecordFacts(r: Record)
    requires NewRecord(r)
    ensures RecordInv(r, NO_PAST, false) && PastInv(NO_PAST) && LogInv(r.log, NO_PAST.accepted)
  {
  }

  lemma {:induction false} CommitKeepsInv(w: World, token: nat, id: Id, r: Record)
    requires Inv(w) && CanCommit(w, token, id, r)
    ensures Inv(Commit(w, token, id, r))
  {
    hide RecordInv, LogInv, TombstoneInv, PastInv, SumOf;
    RollBackKeepsInv(w, token);
    NewRecordFacts(r);
    CommitKeepsRecords(w.records, w.past, id, r);
    LogReplaced(w.records, w.past, id, r, NO_PAST);
    TombstonesUntouched(w.tombstones, w.records, w.past, id, r, NO_PAST);
    LimitsAfterInsert(w.records, id, r);
    LeasesUntouched(w.past, id, NO_PAST);
  }

  lemma {:induction false} CommitKeepsRecords(records: Records, past: Pasts, id: Id, r: Record)
    requires RecordsInv(records, past, None) && id !in records
    requires RecordInv(r, NO_PAST, false) && PastInv(NO_PAST)
    ensures RecordsInv(records[id := r], past[id := NO_PAST], None)
  {
  }

  lemma {:induction false} StartedRecordFacts(r: Record, p: Past, invocation: Id, bytes: nat)
    requires RecordInv(r, p, false) && PastInv(p) && r.invocation.None?
    ensures p.invocation.None? && p.lease.None?
    ensures var p' := p.(invocation := Some(invocation), lease := Some(bytes));
      RecordInv(StartedRecord(r, invocation), p', false) && PastInv(p')
  {
  }

  lemma {:induction false} BeginRunKeepsInv(c: Costs, w: World, id: Id, invocation: Id)
    requires Inv(w) && w.finishing.None? && Known(w, id) && w.records[id].invocation.None?
    ensures Inv(BeginRun(c, w, id, invocation))
    ensures w.past[id].invocation.None?
  {
    hide RecordInv, LogInv, TombstoneInv, PastInv, SumOf;
    var r, p := w.records[id], w.past[id];
    var bytes := r.preparedBytes + c.leaseOverhead;
    var r', p' := StartedRecord(r, invocation), p.(invocation := Some(invocation), lease := Some(bytes));
    RecordFacts(w, id);
    StartedRecordFacts(r, p, invocation, bytes);
    RecordReplaced(w.records, w.past, w.finishing, id, r', p', None);
    LogReplaced(w.records, w.past, id, r', p');
    TombstonesUntouched(w.tombstones, w.records, w.past, id, r', p');
    LimitsAfterReplace(w.records, id, r');
    LeaseAdded(w.past, id, p');
  }

  lemma {:induction false} DropLeaseKeepsInv(w: World, id: Id)
    requires Inv(w) && CanDropLease(w, id)
    ensures Inv(DropLease(w, id))
    ensures w.counters.runningBytes >= w.past[id].lease.value
  {
    hide LogInv;
    var p' := w.past[id].(lease := None);
    assert PastInv(w.past[id]);
    LeaseDropKeepsRecords(w.records, w.past, id, p');
    LeaseDropKeepsTombstones(w.tombstones, w.records, w.past, id, p');
    LeaseDropKeepsLogs(w.records, w.past, id, p');
    LeaseRemoved(w.past, id, p');
  }

  lemma {:induction false} LeaseDropKeepsRecords(records: Records, past: Pasts, id: Id, p: Past)
    requires RecordsInv(records, past, None) && id in past && p == past[id].(lease := None)
    requires id in records ==> !records[id].state.Running?
    ensures RecordsInv(records, past[id := p], None)
  {
  }

  lemma {:induction false} LeaseDropKeepsTombstones(ts: seq<Tombstone>, records: Records, past: Pasts, id: Id, p: Past)
    requires TombstonesInv(ts, records, past) && id in past && p == past[id].(lease := None)
    ensures TombstonesInv(ts, records, past[id := p])
  {
    forall i | 0 <= i < |ts| ensures TombstoneInv(ts[i], records, past[id := p]) {
      assert TombstoneInv(ts[i], records, past);
    }
  }

  lemma {:induction false} LeaseDropKeepsLogs(records: Records, past: Pasts, id: Id, p: Past)
    requires LogsInv(records, past) && id in past && p == past[id].(lease := None)
    ensures LogsInv(records, past[id := p])
  {
    hide LogInv;
    forall k | k in records && k in past[id := p]
      ensures LogInv(records[k].log, past[id := p][k].accepted)
    {
      assert LogInv(records[k].log, past[k].accepted);
    }
  }

  lemma {:induction false} ForgetKeepsTombstones(w: World, id: Id, t: Tombstone)
    requires TombstonesInv(w.tombstones, w.records, w.past)
    requires TombstoneInv(t, w.records - {id}, w.past)
    ensures TombstonesInv(PushTombstone(w.tombstones, t), w.records - {id}, w.past)
  {
    var ts := PushTombstone(w.tombstones, t);
    forall i | 0 <= i < |ts| ensures TombstoneInv(ts[i], w.records - {id}, w.past) {
      var shift := if |w.tombstones| == MAX_TOMBSTONES then 1 else 0;
      if i < |ts| - 1 {
        assert ts[i] == w.tombstones[i + shift];
        assert TombstoneInv(w.tombstones[i + shift], w.records, w.past);
      }
    }
  }

  lemma {:induction false} ForgetKeepsRecords(records: Records, past: Pasts, finishing: Option<Id>, id: Id)
    requires RecordsInv(records, past, finishing) && finishing != Some(id)
    ensures RecordsInv(records - {id}, past, finishing)
  {
  }

  lemma {:induction false} ForgetKeepsLogs(records: Records, past: Pasts, id: Id)
    requires LogsInv(records, past)
    ensures LogsInv(records - {id}, past)
  {
    hide LogInv;
    forall k | k in records - {id} && k in past ensures LogInv((records - {id})[k].log, past[k].accepted) {
      assert LogInv(records[k].log, past[k].accepted);
    }
  }

  lemma {:induction false} TombstonesOfFewer(ts: seq<Tombstone>, records: Records, past: Pasts, id: Id)
    requires TombstonesInv(ts, records, past)
    ensures TombstonesInv(ts, records - {id}, past)
  {
    forall i | 0 <= i < |ts| ensures TombstoneInv(ts[i], records - {id}, past) {
      assert TombstoneInv(ts[i], records, past);
    }
  }

  lemma {:induction false} LimitsAfterRemove(records: Records, id: Id)
    requires id in records
    ensures PreparedCount(records - {id}) <= PreparedCount(records)
    ensures |records - {id}| == |records| - 1
  {
    PreparedRemove(records, id);
    assert (records - {id}).Keys == records.Keys - {id};
  }

  lemma {:induction false} WithdrawKeepsInv(w: World, id: Id)
    requires Inv(w) && id in w.records && w.finishing != Some(id)
    ensures Inv(Withdraw(w, id))
  {
    hide RecordInv, LogInv, TombstoneInv, PastInv, SumOf;
    TombstonesOfFewer(w.tombstones, w.records, w.past, id);
    ForgetKeepsRecords(w.records, w.past, w.finishing, id);
    ForgetKeepsLogs(w.records, w.past, id);
    LimitsAfterRemove(w.records, id);
  }

  lemma {:induction false} ForgetKeepsInv(w: World, id: Id, state: OperationState, now: nat, wall: nat)
    requires Inv(w) && CanForget(w, id, state)
    ensures Inv(Forget(w, id, state, now, wall))
  {
    hide LogInv;
    var t := TombstoneOf(id, w.records[id], state, now, wall);
    assert TombstoneInv(t, w.records - {id}, w.past) by {
      assert RecordInv(w.records[id], w.past[id], false);
    }
    ForgetKeepsTombstones(w, id, t);
    ForgetKeepsRecords(w.records, w.past, w.finishing, id);
    ForgetKeepsLogs(w.records, w.past, id);
    LimitsAfterRemove(w.records, id);
  }

  lemma {:induction false} DropTombstoneKeepsInv(w: World, noted: bool)
    requires Inv(w) && w.tombstones != []
    ensures Inv(DropTombstone(w, noted))
  {
    hide LogInv;
    var ts := w.tombstones[1..];
    forall i | 0 <= i < |ts| ensures TombstoneInv(ts[i], w.records, w.past) {
      assert TombstoneInv(w.tombstones[i + 1], w.records, w.past);
    }
  }

  /** What the invariant says of one retained record. */
  lemma {:induction false} RecordFacts(w: World, id: Id)
    requires RecordsInv(w.records, w.past, w.finishing) && LogsInv(w.records, w.past) && Known(w, id)
    ensures RecordInv(w.records[id], w.past[id], w.finishing == Some(id))
    ensures PastInv(w.past[id]) && LogInv(w.records[id].log, w.past[id].accepted)
  {
    hide LogInv;
  }

  lemma {:induction false} ProgressKeepsInv(w: World, id: Id, invocation: Id, event: ProgressEvent)
    requires Inv(w) && IsRunning(w, id, invocation) && Accepts(w.records[id].log, event)
    ensures Inv(Progress(w, id, event))
  {
    hide LogInv;
    RecordFacts(w, id);
    var r, p := w.records[id], w.past[id];
    AppendKeepsLog(r.log, p.accepted, event);
    TouchKeepsInv(w, id, r.(log := Append(r.log, event)), p.(accepted := p.accepted + [event]), w.finishing);
  }

  lemma {:induction false} DropProgressKeepsInv(w: World, id: Id)
    requires Inv(w) && HasProgress(w, id)
    ensures Inv(DropProgress(w, id))
  {
    hide LogInv;
    RecordFacts(w, id);
    var r, p := w.records[id], w.past[id];
    DropKeepsLog(r.log, p.accepted);
    TouchKeepsInv(w, id, r.(log := DropFront(r.log)), p, w.finishing);
  }

  lemma {:induction false} SettleKeepsInv(w: World, id: Id, invocation: Id, outcome: Option<Outcome>, now: nat)
    requires Inv(w) && IsRunning(w, id, invocation)
    ensures Inv(Settle(w, id, outcome, now))
  {
    hide LogInv;
    RecordFacts(w, id);
    TouchKeepsInv(w, id, SettledRecord(w.records[id], outcome, now), w.past[id], Some(id));
  }

  lemma {:induction false} StripKeepsInv(w: World, id: Id)
    requires Inv(w) && IsFinishing(w, id)
    ensures Inv(Strip(w, id))
  {
    hide LogInv;
    RecordFacts(w, id);
    DropKeepsLog(w.records[id].log, w.past[id].accepted);
    TouchKeepsInv(w, id, StrippedRecord(w.records[id]), w.past[id], w.finishing);
  }

  lemma {:induction false} EndSettleKeepsInv(w: World, id: Id)
    requires Inv(w) && IsFinishing(w, id)
    ensures Inv(EndSettle(w, id))
  {
    hide LogInv;
    RecordFacts(w, id);
    var r := w.records[id];
    TouchKeepsInv(w, id, r, w.past[id].(settled := Some(SettlementOf(r))), None);
  }

  lemma {:induction false} RefreshKeepsInv(w: World, bytes: nat)
    requires Inv(w)
    ensures Inv(Refresh(w, bytes))
  {
    hide LogInv, RecordInv, TombstoneInv;
  }

  /** Every step a ledger method takes keeps the whole invariant. */
  lemma {:induction false} StepKeepsInv(c: Costs, w: World, e: Event, w': World)
    requires Inv(w) && Step(c, w, e, w')
    ensures Inv(w')
  {
    hide Inv, FindTombstone, Reserve, Resize, RollBack, Commit, BeginRun, Progress, DropProgress, Settle, Strip,
      EndSettle, Withdraw, Forget, DropTombstone, DropLease, Justified;
    match e
    case Reserved(token, bytes) => ReserveKeepsInv(w, token, bytes);
    case Resized(token, bytes) => ResizeKeepsInv(w, token, bytes);
    case RolledBack(token) => RollBackKeepsInv(w, token);
    case Committed(token, id, r) => CommitKeepsInv(w, token, id, r);
    case Started(id, invocation, host, now) => BeginRunKeepsInv(c, w, id, invocation);
    case Progressed(id, invocation, event) => ProgressKeepsInv(w, id, invocation, event);
    case ProgressTrimmed(id) => DropProgressKeepsInv(w, id);
    case ProgressDropped(id) => DropProgressKeepsInv(w, id);
    case Settled(id, invocation, outcome, now) => SettleKeepsInv(w, id, invocation, outcome, now);
    case Stripped(id) => StripKeepsInv(w, id);
    case SettleDone(id) => EndSettleKeepsInv(w, id);
    case Withdrawn(id) => WithdrawKeepsInv(w, id);
    case Forgot(id, state, now, wall) => ForgetKeepsInv(w, id, state, now, wall);
    case TombstoneDropped(noted, _) => DropTombstoneKeepsInv(w, noted);
    case LeaseDropped(id) => DropLeaseKeepsInv(w, id);
    case Replied(_, _, _, _, _) =>
    case Refreshed(bytes) => RefreshKeepsInv(w, bytes);
  }
}
