/** The bounded progress log of one operation, against everything it ever accepted. */
module ProgressLog {
  import opened Wrappers

  const MAX_PROGRESS_EVENTS := 256
  const MAX_PROGRESS_BYTES := 64 * 1024
  const U64_MAX := 0xFFFF_FFFF_FFFF_FFFF

  /** `encoded` is the event's serialized length, `retained` the memory it holds. */
  datatype ProgressEvent = ProgressEvent(sequence: nat, chunk: string, encoded: nat, retained: nat)

  datatype Log = Log(events: seq<ProgressEvent>, next: nat, gap: bool)

  datatype Metadata = Metadata(first: Option<nat>, next: nat, gap: bool)

  const EMPTY_LOG := Log([], 1, false)

  function MetadataOf(l: Log): Metadata {
    Metadata(if l.events == [] then None else Some(l.events[0].sequence), l.next, l.gap)
  }

  /** Stale or exhausted sequence numbers are ignored. */
  predicate Accepts(l: Log, e: ProgressEvent) {
    l.next <= e.sequence < U64_MAX
  }

  function Append(l: Log, e: ProgressEvent): Log {
    Log(l.events + [e], if e.sequence + 1 > l.next then e.sequence + 1 else l.next,
        l.gap || e.sequence != l.next)
  }

  function DropFront(l: Log): Log
    requires l.events != []
  {
    Log(l.events[1..], l.next, true)
  }

  function Clear(l: Log): Log {
    Log([], l.next, l.gap || l.events != [])
  }

  function PayloadBytes(p: seq<ProgressEvent>): nat {
    if p == [] then 0 else p[0].encoded + PayloadBytes(p[1..])
  }

  predicate Overfull(l: Log) {
    |l.events| > MAX_PROGRESS_EVENTS || PayloadBytes(l.events) > MAX_PROGRESS_BYTES
  }

  /** The longest recent end of a log that fits its own limits. */
  function Trimmed(l: Log): Log
    decreases |l.events|
  {
    if Overfull(l) && l.events != [] then Trimmed(DropFront(l)) else l
  }

  /** The events a poll with this cursor returns. */
  function After(p: seq<ProgressEvent>, cursor: nat): seq<ProgressEvent> {
    if p == [] then []
    else (if p[0].sequence > cursor then [p[0]] else []) + After(p[1..], cursor)
  }

  // --- What a log owes to its history ---

  ghost predicate Increasing(s: seq<ProgressEvent>) {
    forall i, j :: 0 <= i < j < |s| ==> s[i].sequence < s[j].sequence
  }

  ghost predicate Contiguous(s: seq<ProgressEvent>) {
    forall i :: 0 <= i < |s| ==> s[i].sequence == i + 1
  }

  ghost predicate IsSuffix(p: seq<ProgressEvent>, s: seq<ProgressEvent>) {
    |p| <= |s| && p == s[|s| - |p|..]
  }

  ghost predicate LogInv(l: Log, accepted: seq<ProgressEvent>) {
    && IsSuffix(l.events, accepted)
    && Increasing(accepted)
    && (accepted != [] ==> accepted[0].sequence >= 1)
    && l.next == (if accepted == [] then 1 else accepted[|accepted| - 1].sequence + 1)
    && (l.gap <==> !(|l.events| == |accepted| && Contiguous(accepted)))
  }

  lemma {:induction false} AppendKeepsIncreasing(s: seq<ProgressEvent>, e: ProgressEvent)
    requires Increasing(s) && (s != [] ==> s[|s| - 1].sequence < e.sequence)
    ensures Increasing(s + [e])
  {
    forall i, j | 0 <= i < j < |s + [e]| ensures (s + [e])[i].sequence < (s + [e])[j].sequence {
      if j == |s| && i < |s| - 1 { assert s[i].sequence < s[|s| - 1].sequence; }
    }
  }

  lemma {:induction false} AppendKeepsContiguous(s: seq<ProgressEvent>, e: ProgressEvent)
    ensures Contiguous(s + [e]) <==> Contiguous(s) && e.sequence == |s| + 1
  {
    var all := s + [e];
    if Contiguous(all) {
      assert all[|s|] == e;
      forall i | 0 <= i < |s| ensures s[i].sequence == i + 1 { assert all[i] == s[i]; }
    }
  }

  lemma {:induction false} AppendKeepsLog(l: Log, accepted: seq<ProgressEvent>, e: ProgressEvent)
    requires LogInv(l, accepted) && Accepts(l, e)
    ensures LogInv(Append(l, e), accepted + [e])
  {
    var all := accepted + [e];
    AppendKeepsIncreasing(accepted, e);
    AppendKeepsContiguous(accepted, e);
    assert IsSuffix(l.events + [e], all) by {
      assert l.events + [e] == all[|all| - |l.events| - 1..];
    }
    if Contiguous(accepted) && accepted != [] {
      assert accepted[|accepted| - 1].sequence == |accepted|;
    }
  }

  lemma {:induction false} DropKeepsLog(l: Log, accepted: seq<ProgressEvent>)
    requires LogInv(l, accepted)
    ensures l.events != [] ==> LogInv(DropFront(l), accepted)
    ensures LogInv(Clear(l), accepted)
  {
    if l.events != [] {
      assert l.events[1..] == accepted[|accepted| - |l.events| + 1..];
    }
  }

  lemma {:induction false} IncreasingIsAtLeastItsIndex(s: seq<ProgressEvent>, i: nat)
    requires Increasing(s) && i < |s| && s[0].sequence >= 1
    ensures s[i].sequence >= i + 1
  {
    if i > 0 { IncreasingIsAtLeastItsIndex(s, i - 1); }
  }

  /** No gap is reported exactly when the retained sequences are 1 .. next - 1. */
  lemma {:induction false} GapMeansLoss(l: Log, accepted: seq<ProgressEvent>)
    requires LogInv(l, accepted)
    ensures !l.gap <==> |l.events| == l.next - 1 && Contiguous(l.events)
  {
    if accepted != [] {
      IncreasingIsAtLeastItsIndex(accepted, |accepted| - 1);
    }
    if |l.events| == |accepted| { assert l.events == accepted; }
  }

  lemma {:induction false} AfterSplits(p: seq<ProgressEvent>, q: seq<ProgressEvent>, cursor: nat)
    ensures After(p + q, cursor) == After(p, cursor) + After(q, cursor)
  {
    if p == [] {
      assert p + q == q;
    } else {
      assert (p + q)[1..] == p[1..] + q;
      AfterSplits(p[1..], q, cursor);
    }
  }

  ghost predicate NoneNewer(p: seq<ProgressEvent>, cursor: nat) {
    forall i :: 0 <= i < |p| ==> p[i].sequence <= cursor
  }

  lemma {:induction false} AfterIsEmpty(p: seq<ProgressEvent>, cursor: nat)
    ensures After(p, cursor) == [] <==> NoneNewer(p, cursor)
  {
    if p != [] {
      AfterIsEmpty(p[1..], cursor);
      assert p == [p[0]] + p[1..];
    }
  }

  /** The events the log no longer retains. */
  ghost function Lost(l: Log, accepted: seq<ProgressEvent>): seq<ProgressEvent>
    requires |l.events| <= |accepted|
  {
    accepted[..|accepted| - |l.events|]
  }

  lemma {:induction false} LostIsOlder(l: Log, accepted: seq<ProgressEvent>, cursor: nat)
    requires LogInv(l, accepted)
    ensures l.events != [] && cursor + 1 >= l.events[0].sequence ==> NoneNewer(Lost(l, accepted), cursor)
    ensures !l.gap ==> Lost(l, accepted) == []
  {
    if l.events != [] && cursor + 1 >= l.events[0].sequence {
      var n := |accepted| - |l.events|;
      assert l.events[0] == accepted[n];
      forall i | 0 <= i < n ensures accepted[i].sequence <= cursor {
        assert accepted[i].sequence < accepted[n].sequence;
      }
    }
  }

  lemma {:induction false} PrefixAbsorbed(a: seq<ProgressEvent>, b: seq<ProgressEvent>)
    ensures b == a + b <==> a == []
  {
    if a == [] { assert b == a + b; } else { assert |a + b| > |b|; }
  }

  /**
   A poll loses nothing exactly when no dropped event is newer than its cursor, and a cursor at
   or after the event just before the retained front is always such a cursor.
   */
  lemma {:induction false} ReplayLosesNothing(l: Log, accepted: seq<ProgressEvent>, cursor: nat)
    requires LogInv(l, accepted)
    ensures After(l.events, cursor) == After(accepted, cursor) <==> NoneNewer(Lost(l, accepted), cursor)
    ensures l.events != [] && cursor + 1 >= l.events[0].sequence ==>
      After(l.events, cursor) == After(accepted, cursor)
    ensures !l.gap ==> After(l.events, cursor) == After(accepted, cursor)
  {
    LostIsOlder(l, accepted, cursor);
    LostSplits(l, accepted, cursor);
  }

  lemma {:induction false} LostSplits(l: Log, accepted: seq<ProgressEvent>, cursor: nat)
    requires IsSuffix(l.events, accepted)
    ensures After(l.events, cursor) == After(accepted, cursor) <==> NoneNewer(Lost(l, accepted), cursor)
  {
    var lost := Lost(l, accepted);
    assert accepted == lost + l.events;
    AfterSplits(lost, l.events, cursor);
    AfterIsEmpty(lost, cursor);
    PrefixAbsorbed(After(lost, cursor), After(l.events, cursor));
  }
}
