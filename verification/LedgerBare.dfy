/** What no eviction can take away while one record is being finished. */
module LedgerBare {
  import opened Wrappers
  import opened Sums
  import opened ProgressLog
  import opened LedgerTypes
  import opened LedgerSteps

  /** A record without its progress and outcome; the one being finished also without how and when it settled. */
  function BareRecord(r: Record, protected: bool): Record {
    var bare := r.(log := EMPTY_LOG, outcome := None);
    if protected then bare.(state := Indeterminate, cancellable := false, terminalAt := None) else bare
  }

  /** The unsettled records and the one being finished, each bare. */
  function BareRecords(m: Records, protected: Id): Records {
    map id | id in m && (id == protected || !m[id].IsTerminal()) :: BareRecord(m[id], id == protected)
  }

  ghost function BareBytes(c: Costs, m: Records, protected: Id): nat { SumOf(Charges(c, BareRecords(m, protected))) }

  function OutcomeBytes(r: Record): nat {
    if r.outcome.Some? then |r.outcome.value.payload| else 0
  }

  // --- Evictions leave it alone ---

  /** Records left after evictions: fewer, and none of the survivors changed except in its log. */
  ghost predicate Survive(m: Records, m': Records) {
    m'.Keys <= m.Keys && forall id :: id in m' ==> m'[id] == m[id].(log := m'[id].log)
  }

  lemma {:induction false} EvictionKeepsBare(m: Records, m': Records, protected: Id)
    requires Survive(m, m') && (protected in m ==> protected in m')
    requires forall id :: id in m && !m[id].IsTerminal() ==> id in m'
    ensures BareRecords(m', protected) == BareRecords(m, protected)
  {
    forall id | id in m' ensures m'[id].IsTerminal() == m[id].IsTerminal() { }
  }

  lemma {:induction false} StripKeepsBare(m: Records, protected: Id)
    requires protected in m
    ensures BareRecords(m[protected := StrippedRecord(m[protected])], protected) == BareRecords(m, protected)
  {
  }

  lemma {:induction false} SettleKeepsBare(m: Records, protected: Id, outcome: Option<Outcome>, now: nat)
    requires protected in m
    ensures BareRecords(m[protected := SettledRecord(m[protected], outcome, now)], protected)
      == BareRecords(m, protected)
  {
  }

  // --- And it is what is left when all else is gone ---

  lemma {:induction false} BareIsCheaper(c: Costs, id: Id, r: Record, protected: bool)
    ensures RecordBytes(c, id, BareRecord(r, protected)) + OutcomeBytes(r) <= RecordBytes(c, id, r)
    ensures r.log.events == [] ==>
      RecordBytes(c, id, BareRecord(r, protected)) + OutcomeBytes(r) == RecordBytes(c, id, r)
  {
  }

  /** The bare charges with the outcome of the record being finished on top. */
  ghost function WithOutcome(c: Costs, m: Records, protected: Id): map<Id, nat>
    requires protected in m
  {
    var bare := Charges(c, BareRecords(m, protected));
    bare[protected := RecordBytes(c, protected, BareRecord(m[protected], true)) + OutcomeBytes(m[protected])]
  }

  lemma {:induction false} OutcomeOnTop(c: Costs, m: Records, protected: Id)
    requires protected in m
    ensures SumOf(WithOutcome(c, m, protected)) == BareBytes(c, m, protected) + OutcomeBytes(m[protected])
  {
    hide SumOf, RecordBytes;
    var bare := Charges(c, BareRecords(m, protected));
    SumPut(bare, protected, WithOutcome(c, m, protected)[protected]);
  }

  lemma {:induction false} BareAtMost(c: Costs, m: Records, protected: Id)
    requires protected in m
    ensures BareBytes(c, m, protected) + OutcomeBytes(m[protected]) <= SumOf(Charges(c, m))
  {
    hide SumOf, RecordBytes, BareRecord;
    OutcomeOnTop(c, m, protected);
    forall id | id in m ensures RecordBytes(c, id, BareRecord(m[id], id == protected)) <= RecordBytes(c, id, m[id]) {
      BareIsCheaper(c, id, m[id], id == protected);
    }
    BareIsCheaper(c, protected, m[protected], true);
    SumOfPart(WithOutcome(c, m, protected), Charges(c, m));
  }

  lemma {:induction false} BareExactly(c: Costs, m: Records, protected: Id)
    requires protected in m && NothingElse(m, protected)
    requires forall id :: id in m && m[id].outcome.Some? ==> m[id].IsTerminal()
    ensures BareBytes(c, m, protected) + OutcomeBytes(m[protected]) == SumOf(Charges(c, m))
  {
    hide SumOf, RecordBytes, BareRecord;
    OutcomeOnTop(c, m, protected);
    forall id | id in m ensures id == protected || !m[id].IsTerminal() {
      assert id !in ByTermination(m, protected);
    }
    forall id | id in m ensures WithOutcome(c, m, protected)[id] == Charges(c, m)[id] {
      BareIsCheaper(c, id, m[id], id == protected);
    }
    assert WithOutcome(c, m, protected) == Charges(c, m);
  }
}
