/** The remote operation ledger's data: records, tombstones, and what they are charged. */
module LedgerTypes {
  import opened Wrappers
  import opened Sums
  import opened ProgressLog

  const MAX_PREPARATIONS := 64
  const MAX_OPERATIONS := 128
  const MAX_LEDGER_BYTES := 32 * 1024 * 1024
  const MAX_TOMBSTONES := 256
  const RETENTION_TTL := 600
  const MAX_ID_BYTES := 128

  type Id = s: string | |s| <= MAX_ID_BYTES

  datatype OperationState =
    NeverSeen | Prepared | Running | Completed | Failed | Cancelled | Forgotten | Indeterminate

  datatype OutcomeKind = KindCompleted | KindFailed | KindCancelled

  /** `payload` stands for everything else a structured outcome retains. */
  datatype Outcome = Outcome(kind: OutcomeKind, sideEffectsPossible: bool, payload: string)

  datatype Record = Record(
    holdsOperation: bool, preparedBytes: nat, host: string, bindingBytes: nat,
    createdAt: nat, expiresAt: nat, invocation: Option<Id>, execution: Option<Id>,
    state: OperationState, cancellable: bool, outcome: Option<Outcome>, terminalAt: Option<nat>,
    log: Log)
  {
    predicate IsTerminal() {
      state.Completed? || state.Failed? || state.Cancelled? || state.Indeterminate?
    }
  }

  datatype Tombstone = Tombstone(
    id: Id, invocation: Option<Id>, state: OperationState, metadata: Metadata,
    forgottenAt: nat, forgottenAtWall: nat)

  /** Sizes the host platform fixes. Map and deque slots are charged per element. */
  datatype Costs = Costs(
    idHead: nat, record: nat, mapSlot: nat, tombstone: nat, dequeSlot: nat,
    reservation: nat, leaseOverhead: nat, eventSlot: nat)

  /** A tombstone, with the longest id it can hold, is no dearer than a bare record. */
  predicate ValidCosts(c: Costs) {
    c.tombstone + c.dequeSlot + c.idHead + MAX_ID_BYTES <= c.record + c.mapSlot
  }

  function IdBytes(c: Costs, id: Id): nat { c.idHead + |id| }

  // --- What the server reserves for a preparation ---

  const SMALL_PREPARATION_RESERVATION_BYTES := 4 * 1024 * 1024
  const MAX_PREPARED_OPERATION_BYTES := MAX_LEDGER_BYTES - 2 * 1024 * 1024
  const PREPARATION_BOOKKEEPING_BYTES := 64 * 1024
  const HASH_TABLE_GROWTH_ALLOWANCE := 256 * 1024

  /** A full row of tombstones with the longest ids. */
  function TombstoneRowBytes(c: Costs): nat {
    MAX_TOMBSTONES * (c.tombstone + c.dequeSlot + 2 * (c.idHead + MAX_ID_BYTES))
  }

  /** The large reservation: the whole ledger but for a row of tombstones and some bookkeeping. */
  function LargeReservation(c: Costs): int {
    MAX_LEDGER_BYTES - TombstoneRowBytes(c) - PREPARATION_BOOKKEEPING_BYTES
  }

  function OptIdBytes(c: Costs, id: Option<Id>): nat {
    if id.Some? then IdBytes(c, id.value) else 0
  }

  function ProgressBytes(c: Costs, p: seq<ProgressEvent>): nat {
    if p == [] then 0 else p[0].retained + c.eventSlot + ProgressBytes(c, p[1..])
  }

  /** Everything a record is charged except its invocation and execution ids. */
  function NetRecordBytes(c: Costs, id: Id, r: Record): nat {
    c.record + c.mapSlot + 2 * IdBytes(c, id) + r.bindingBytes
    + (if r.outcome.Some? then |r.outcome.value.payload| else 0)
    + (if r.holdsOperation then r.preparedBytes + c.leaseOverhead else 0)
    + ProgressBytes(c, r.log.events)
  }

  /** The invocation and execution ids, which `begin` adds without consulting the ceiling. */
  function SlackBytes(c: Costs, r: Record): nat {
    OptIdBytes(c, r.invocation) + OptIdBytes(c, r.execution)
  }

  function RecordBytes(c: Costs, id: Id, r: Record): nat {
    NetRecordBytes(c, id, r) + SlackBytes(c, r)
  }

  /** What a preparation's reservation is resized to: the record itself, and room for the table to grow. */
  function ReservationBytes(c: Costs, id: Id, r: Record): int {
    RecordBytes(c, id, r) - c.mapSlot - IdBytes(c, id) + HASH_TABLE_GROWTH_ALLOWANCE
  }

  function TombstoneBytes(c: Costs, t: Tombstone): nat {
    c.tombstone + c.dequeSlot + IdBytes(c, t.id) + OptIdBytes(c, t.invocation)
  }

  function TombstonesBytes(c: Costs, ts: seq<Tombstone>): nat {
    if ts == [] then 0 else TombstoneBytes(c, ts[0]) + TombstonesBytes(c, ts[1..])
  }

  type Records = map<Id, Record>

  ghost function Charges(c: Costs, m: Records): map<Id, nat> { map id | id in m :: RecordBytes(c, id, m[id]) }
  ghost function NetCharges(c: Costs, m: Records): map<Id, nat> { map id | id in m :: NetRecordBytes(c, id, m[id]) }
  ghost function SlackCharges(c: Costs, m: Records): map<Id, nat> { map id | id in m :: SlackBytes(c, m[id]) }

  /** What `refresh_bytes` recomputes. */
  ghost function StoredBytes(c: Costs, m: Records, ts: seq<Tombstone>): nat {
    SumOf(Charges(c, m)) + TombstonesBytes(c, ts)
  }

  /** The invocation and execution ids currently held by records. */
  ghost function Slack(c: Costs, m: Records): nat { SumOf(SlackCharges(c, m)) }

  ghost function NetBytes(c: Costs, m: Records, ts: seq<Tombstone>): nat {
    SumOf(NetCharges(c, m)) + TombstonesBytes(c, ts)
  }

  lemma {:induction false} StoredIsNetPlusSlack(c: Costs, m: Records, ts: seq<Tombstone>)
    ensures StoredBytes(c, m, ts) == NetBytes(c, m, ts) + Slack(c, m)
  {
    hide SumOf;
    SumOfSums(NetCharges(c, m), SlackCharges(c, m), Charges(c, m));
  }

  lemma {:induction false} TombstonesPush(c: Costs, ts: seq<Tombstone>, t: Tombstone)
    ensures TombstonesBytes(c, ts + [t]) == TombstonesBytes(c, ts) + TombstoneBytes(c, t)
  {
    if ts == [] {
      assert ts + [t] == [t];
    } else {
      assert (ts + [t])[1..] == ts[1..] + [t];
      TombstonesPush(c, ts[1..], t);
    }
  }

  /** Replacing one record moves the net total by the difference of the two charges. */
  lemma {:induction false} NetPut(c: Costs, m: Records, id: Id, r: Record, ts: seq<Tombstone>)
    ensures id !in m ==> NetBytes(c, m[id := r], ts) == NetBytes(c, m, ts) + NetRecordBytes(c, id, r)
    ensures id in m ==>
      NetBytes(c, m[id := r], ts) + NetRecordBytes(c, id, m[id]) == NetBytes(c, m, ts) + NetRecordBytes(c, id, r)
  {
    hide SumOf;
    SumPut(NetCharges(c, m), id, NetRecordBytes(c, id, r));
    assert NetCharges(c, m[id := r]) == NetCharges(c, m)[id := NetRecordBytes(c, id, r)];
  }

  lemma {:induction false} NetRemove(c: Costs, m: Records, id: Id, ts: seq<Tombstone>)
    requires id in m
    ensures NetBytes(c, m, ts) == NetBytes(c, m - {id}, ts) + NetRecordBytes(c, id, m[id])
  {
    hide SumOf;
    SumRemove(NetCharges(c, m), id);
    assert NetCharges(c, m - {id}) == NetCharges(c, m) - {id};
  }

  lemma {:induction false} SlackPut(c: Costs, m: Records, id: Id, r: Record)
    requires id in m
    ensures Slack(c, m[id := r]) + SlackBytes(c, m[id]) == Slack(c, m) + SlackBytes(c, r)
  {
    hide SumOf;
    SumPut(SlackCharges(c, m), id, SlackBytes(c, r));
    assert SlackCharges(c, m[id := r]) == SlackCharges(c, m)[id := SlackBytes(c, r)];
  }

  lemma {:induction false} SlackIsBounded(c: Costs, m: Records)
    requires |m| <= MAX_OPERATIONS
    ensures Slack(c, m) <= MAX_OPERATIONS * (2 * (c.idHead + MAX_ID_BYTES))
  {
    hide SumOf;
    assert SlackCharges(c, m).Keys == m.Keys;
    SumBounded(SlackCharges(c, m), MAX_OPERATIONS, 2 * (c.idHead + MAX_ID_BYTES));
  }

  /** The tombstone a forgotten record leaves behind. */
  function TombstoneOf(id: Id, r: Record, state: OperationState, now: nat, wall: nat): Tombstone {
    Tombstone(id, r.invocation, state,
              Metadata(None, r.log.next, r.log.gap || r.log.next != 1), now, wall)
  }

  function NoteEviction(through: Option<nat>, t: Tombstone): Option<nat> {
    if through.Some? && through.value >= t.forgottenAtWall then through else Some(t.forgottenAtWall)
  }

  predicate Expired(r: Record, now: nat) {
    (r.state.Prepared? && now >= r.expiresAt)
    || (r.IsTerminal() && r.terminalAt.Some? && now - r.terminalAt.value >= RETENTION_TTL)
  }

  ghost function PreparedMarks(m: Records): map<Id, nat> {
    map id | id in m :: if m[id].state.Prepared? then 1 else 0
  }

  /** How many records still hold an operation nobody has begun. */
  ghost function PreparedCount(m: Records): nat { SumOf(PreparedMarks(m)) }

  lemma {:induction false} PreparedPut(m: Records, id: Id, r: Record)
    ensures id in m && (r.state.Prepared? ==> m[id].state.Prepared?) ==>
      PreparedCount(m[id := r]) <= PreparedCount(m)
    ensures id !in m ==> PreparedCount(m[id := r]) == PreparedCount(m) + (if r.state.Prepared? then 1 else 0)
  {
    hide SumOf;
    var n := if r.state.Prepared? then 1 else 0;
    SumPut(PreparedMarks(m), id, n);
    assert PreparedMarks(m[id := r]) == PreparedMarks(m)[id := n];
  }

  lemma {:induction false} PreparedRemove(m: Records, id: Id)
    requires id in m
    ensures PreparedCount(m - {id}) <= PreparedCount(m)
  {
    hide SumOf;
    SumRemove(PreparedMarks(m), id);
    assert PreparedMarks(m - {id}) == PreparedMarks(m) - {id};
  }
}
