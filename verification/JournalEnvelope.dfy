/** The size envelope a directory reservation must fit, so that no later rewrite of its record is too long. */
module JournalEnvelope {
  import opened Wrappers
  import opened JournalSteps

  const MAX_ID_BYTES := 128
  const MAX_JSON_ID_BYTES := 6 * MAX_ID_BYTES + 2
  const U64_MAX: nat := 0xFFFF_FFFF_FFFF_FFFF

  type Byte = b: nat | b < 256

  /** How many characters one byte of a string takes in JSON. */
  function Escaped(b: Byte): nat {
    if b in {0x22, 0x5C, 0x08, 0x0C, 0x0A, 0x0D, 0x09} then 2 else if b < 0x20 then 6 else 1
  }

  function EscapedAll(s: seq<Byte>): nat {
    if s == [] then 0 else Escaped(s[0]) + EscapedAll(s[1..])
  }

  function Digits(n: nat): nat {
    if n < 10 then 1 else 1 + Digits(n / 10)
  }

  function NameOf(s: State): string {
    match s
    case Prepared => "prepared"
    case Publishing => "publishing"
    case Completed => "completed"
    case Failed => "failed"
    case Cancelled => "cancelled"
    case Indeterminate => "indeterminate"
  }

  /** A directory's record as it is encoded; `fixed` covers the keys and every field no rewrite changes. */
  datatype Encoding = Encoding(
    fixed: nat, state: State, updatedAt: nat, expiresAt: nat,
    preparation: Option<seq<Byte>>, invocation: Option<seq<Byte>>, receipt: Option<nat>)

  const NULL_BYTES := 4

  function IdBytes(id: Option<seq<Byte>>): nat {
    if id.None? then NULL_BYTES else EscapedAll(id.value) + 2
  }

  function EncodedBytes(e: Encoding): nat {
    e.fixed + |NameOf(e.state)| + 2 + Digits(e.updatedAt) + Digits(e.expiresAt)
    + IdBytes(e.preparation) + IdBytes(e.invocation) + (if e.receipt.None? then NULL_BYTES else e.receipt.value)
  }

  /** What a reservation is charged: the longest state, the longest times, two ids and the receipt. */
  function Envelope(reserved: Encoding, receiptBound: nat): nat {
    EncodedBytes(reserved.(state := Indeterminate, updatedAt := U64_MAX, expiresAt := U64_MAX))
    + 2 * MAX_JSON_ID_BYTES + receiptBound
  }

  /** A record that later puts may make of a reservation. */
  predicate Rewrites(reserved: Encoding, e: Encoding, receiptBound: nat) {
    && e.fixed == reserved.fixed && e.updatedAt <= U64_MAX && e.expiresAt <= U64_MAX
    && (e.preparation.Some? ==> |e.preparation.value| <= MAX_ID_BYTES)
    && (e.invocation.Some? ==> |e.invocation.value| <= MAX_ID_BYTES)
    && (e.receipt.Some? ==> e.receipt.value <= receiptBound)
  }

  lemma {:induction false} EscapedBound(s: seq<Byte>)
    ensures EscapedAll(s) <= 6 * |s|
  {
    if s != [] { EscapedBound(s[1..]); }
  }

  lemma {:induction false} DigitsMonotone(a: nat, b: nat)
    requires a <= b
    ensures Digits(a) <= Digits(b)
  {
    if b >= 10 && a >= 10 { DigitsMonotone(a / 10, b / 10); }
  }

  /** Every record an admitted directory reservation can become fits one journal file. */
  lemma {:induction false} AdmittedAlwaysFits(reserved: Encoding, e: Encoding, receiptBound: nat)
    requires reserved.preparation.None? && reserved.invocation.None? && reserved.receipt.None?
    requires Envelope(reserved, receiptBound) <= MAX_JOURNAL_BYTES
    requires Rewrites(reserved, e, receiptBound)
    ensures EncodedBytes(e) <= MAX_JOURNAL_BYTES
  {
    DigitsMonotone(e.updatedAt, U64_MAX);
    DigitsMonotone(e.expiresAt, U64_MAX);
    if e.preparation.Some? { EscapedBound(e.preparation.value); }
    if e.invocation.Some? { EscapedBound(e.invocation.value); }
    assert |NameOf(e.state)| <= |NameOf(Indeterminate)|;
  }

  /** An identifier is short, trimmed and printable: in particular no control character is in it. */
  predicate IsIdentifier(s: seq<Byte>) {
    0 < |s| <= MAX_ID_BYTES && s[0] != 0x20 && s[|s| - 1] != 0x20
    && forall i :: 0 <= i < |s| ==> s[i] >= 0x20 && s[i] != 0x7F
  }

  predicate NamesIdentifiers(e: Encoding) {
    && (e.preparation.Some? ==> IsIdentifier(e.preparation.value))
    && (e.invocation.Some? ==> IsIdentifier(e.invocation.value))
  }

  lemma {:induction false} PrintableBound(s: seq<Byte>)
    requires forall i :: 0 <= i < |s| ==> s[i] >= 0x20
    ensures EscapedAll(s) <= 2 * |s|
  {
    if s != [] { PrintableBound(s[1..]); }
  }

  /** What no identifier can use up: four characters for every byte of two ids, and the three nulls. */
  const UNUSED_BYTES := 2 * 4 * MAX_ID_BYTES + 3 * NULL_BYTES

  lemma {:induction false} EnvelopeLeaves(reserved: Encoding, e: Encoding, receiptBound: nat)
    requires reserved.preparation.None? && reserved.invocation.None? && reserved.receipt.None?
    requires Rewrites(reserved, e, receiptBound) && NamesIdentifiers(e)
    ensures e.receipt.Some? || receiptBound >= NULL_BYTES ==>
      EncodedBytes(e) + UNUSED_BYTES <= Envelope(reserved, receiptBound)
  {
    DigitsMonotone(e.updatedAt, U64_MAX);
    DigitsMonotone(e.expiresAt, U64_MAX);
    hide Digits, EscapedAll;
    if e.preparation.Some? { PrintableBound(e.preparation.value); }
    if e.invocation.Some? { PrintableBound(e.invocation.value); }
    assert |NameOf(e.state)| <= |NameOf(Indeterminate)|;
  }

  /** Two characters for each byte. */
  function Quotes(n: nat): seq<Byte> { seq(n, i => 0x22) }

  lemma {:induction false} QuotesEscape(n: nat)
    ensures EscapedAll(Quotes(n)) == 2 * n
  {
    if n > 0 {
      assert Quotes(n)[1..] == Quotes(n - 1);
      QuotesEscape(n - 1);
    }
  }

  /** The remainder is exact: some record leaves no more than that. */
  lemma {:induction false} EnvelopeLeavesNoMore(reserved: Encoding, receiptBound: nat)
    requires reserved.preparation.None? && reserved.invocation.None? && reserved.receipt.None?
    ensures exists e ::
      Rewrites(reserved, e, receiptBound) && NamesIdentifiers(e)
      && EncodedBytes(e) + UNUSED_BYTES == Envelope(reserved, receiptBound)
  {
    var id := Quotes(MAX_ID_BYTES);
    var e := reserved.(state := Indeterminate, updatedAt := U64_MAX, expiresAt := U64_MAX,
                       preparation := Some(id), invocation := Some(id), receipt := Some(receiptBound));
    QuotesEscape(MAX_ID_BYTES);
    hide Digits, EscapedAll;
    assert Rewrites(reserved, e, receiptBound) && NamesIdentifiers(e);
  }
}
