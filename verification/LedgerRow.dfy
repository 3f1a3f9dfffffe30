/** The row of tombstones: what pushing and dropping leave of it, and of the boundary noted beside it. */
module LedgerRow {
  import opened Wrappers
  import opened LedgerTypes
  import opened LedgerSteps

  /** The noted boundary once a tombstone is pushed. */
  function ThroughAfter(through: Option<nat>, ts: seq<Tombstone>): Option<nat> {
    if |ts| == MAX_TOMBSTONES then NoteEviction(through, ts[0]) else through
  }

  function NotedAll(through: Option<nat>, ts: seq<Tombstone>): Option<nat> {
    if ts == [] then through else NoteEviction(NotedAll(through, ts[..|ts| - 1]), ts[|ts| - 1])
  }

  /** What is left is a recent end, and every tombstone before it is noted in the boundary. */
  ghost predicate DroppedNoted(ts: seq<Tombstone>, through: Option<nat>, ts': seq<Tombstone>, through': Option<nat>) {
    && |ts'| <= |ts| && ts' == ts[|ts| - |ts'|..]
    && through' == NotedAll(through, ts[..|ts| - |ts'|])
  }

  lemma {:induction false} NoneDropped(ts: seq<Tombstone>, through: Option<nat>)
    ensures DroppedNoted(ts, through, ts, through)
  {
    assert ts[..0] == [];
  }

  lemma {:induction false} OneMoreDropped(
      ts: seq<Tombstone>, through: Option<nat>, ts': seq<Tombstone>, through': Option<nat>)
    requires DroppedNoted(ts, through, ts', through') && ts' != []
    ensures DroppedNoted(ts, through, ts'[1..], NoteEviction(through', ts'[0]))
  {
    var n := |ts| - |ts'|;
    assert ts[..n + 1][..n] == ts[..n] && ts'[0] == ts[n] && ts'[1..] == ts[n + 1..];
  }

  // --- Nothing is lost from the row without the boundary reaching it ---

  predicate Within(wall: nat, through: Option<nat>) { through.Some? && wall <= through.value }

  /** Every tombstone is still there or within the boundary, and the boundary has not gone back. */
  ghost predicate Covered(ts: seq<Tombstone>, through: Option<nat>, ts': seq<Tombstone>, through': Option<nat>) {
    && (forall t :: t in ts ==> t in ts' || Within(t.forgottenAtWall, through'))
    && (through.Some? ==> Within(through.value, through'))
  }

  /** Tombstones stand in the order they were left, none of them later than now. */
  ghost predicate Timely(ts: seq<Tombstone>, now: nat) {
    && (forall i, j :: 0 <= i < j < |ts| ==> ts[i].forgottenAt <= ts[j].forgottenAt)
    && (forall i :: 0 <= i < |ts| ==> ts[i].forgottenAt <= now)
  }

  ghost predicate RowKept(
      ts: seq<Tombstone>, through: Option<nat>, ts': seq<Tombstone>, through': Option<nat>, now: nat)
  {
    Covered(ts, through, ts', through') && (Timely(ts, now) ==> Timely(ts', now))
  }

  lemma {:induction false} RowKeptItself(ts: seq<Tombstone>, through: Option<nat>, now: nat)
    ensures RowKept(ts, through, ts, through, now)
  {
  }

  lemma {:induction false} CoveredFurther(
      ts: seq<Tombstone>, through: Option<nat>, ts1: seq<Tombstone>, through1: Option<nat>,
      ts2: seq<Tombstone>, through2: Option<nat>)
    requires Covered(ts, through, ts1, through1) && Covered(ts1, through1, ts2, through2)
    ensures Covered(ts, through, ts2, through2)
  {
  }

  lemma {:induction false} KeptFurther(
      ts: seq<Tombstone>, through: Option<nat>, ts1: seq<Tombstone>, through1: Option<nat>,
      ts2: seq<Tombstone>, through2: Option<nat>, now: nat)
    requires RowKept(ts, through, ts1, through1, now) && RowKept(ts1, through1, ts2, through2, now)
    ensures RowKept(ts, through, ts2, through2, now)
  {
    hide Covered, Timely;
    CoveredFurther(ts, through, ts1, through1, ts2, through2);
  }

  lemma {:induction false} FrontCovered(ts: seq<Tombstone>, through: Option<nat>, now: nat)
    requires ts != []
    ensures RowKept(ts, through, ts[1..], NoteEviction(through, ts[0]), now)
  {
    forall t | t in ts && t != ts[0] ensures t in ts[1..] {
      var i :| 0 <= i < |ts| && ts[i] == t;
      assert ts[1..][i - 1] == t;
    }
    assert forall i :: 0 <= i < |ts| - 1 ==> ts[1..][i] == ts[i + 1];
  }

  lemma {:induction false} EndKept(ts: seq<Tombstone>, through: Option<nat>, t: Tombstone, now: nat)
    requires t.forgottenAt == now
    ensures RowKept(ts, through, ts + [t], through, now)
  {
  }

  /** Forgetting a record now keeps the row. */
  lemma {:induction false} PushKeepsRow(ts: seq<Tombstone>, through: Option<nat>, t: Tombstone, now: nat)
    requires t.forgottenAt == now
    ensures RowKept(ts, through, PushTombstone(ts, t), ThroughAfter(through, ts), now)
  {
    hide RowKept, NoteEviction;
    if |ts| == MAX_TOMBSTONES {
      FrontCovered(ts, through, now);
      EndKept(ts[1..], NoteEviction(through, ts[0]), t, now);
      KeptFurther(ts, through, ts[1..], NoteEviction(through, ts[0]), PushTombstone(ts, t),
                  NoteEviction(through, ts[0]), now);
    } else {
      EndKept(ts, through, t, now);
    }
  }

  /** Dropping from the front with every eviction noted keeps the row. */
  lemma {:induction false} DroppedKeepsRow(
      ts: seq<Tombstone>, through: Option<nat>, ts': seq<Tombstone>, through': Option<nat>, now: nat)
    requires DroppedNoted(ts, through, ts', through')
    ensures RowKept(ts, through, ts', through', now)
    decreases |ts| - |ts'|
  {
    hide RowKept, NoteEviction;
    var n := |ts| - |ts'|;
    if n == 0 {
      RowKeptItself(ts, through, now);
    } else {
      var before, noted := ts[n - 1..], NotedAll(through, ts[..n - 1]);
      assert ts[..n][..n - 1] == ts[..n - 1] && before[0] == ts[n - 1] && before[1..] == ts';
      DroppedKeepsRow(ts, through, before, noted, now);
      FrontCovered(before, noted, now);
      KeptFurther(ts, through, before, noted, ts', through', now);
    }
  }

  ghost predicate NoneLapsed(ts: seq<Tombstone>, now: nat) {
    forall i :: 0 <= i < |ts| ==> !Lapsed(ts[i], now)
  }

  /** In a timely row whose front has time left, everyone has. */
  lemma {:induction false} FrontSpeaksForAll(ts: seq<Tombstone>, now: nat)
    requires Timely(ts, now) && (ts != [] ==> !Lapsed(ts[0], now))
    ensures NoneLapsed(ts, now)
  {
    forall i | 0 <= i < |ts| ensures !Lapsed(ts[i], now) {
      if i > 0 { assert ts[0].forgottenAt <= ts[i].forgottenAt; }
    }
  }

  /** Once a timely row has been dropped down to a front with time left, none of its recent ends has a lapsed one. */
  lemma {:induction false} LapsedAreGone(
      ts: seq<Tombstone>, through: Option<nat>, ts': seq<Tombstone>, through': Option<nat>, now: nat)
    requires DroppedNoted(ts, through, ts', through') && (ts' != [] ==> !Lapsed(ts'[0], now))
    ensures Timely(ts, now) ==> forall k :: 0 <= k <= |ts'| ==> NoneLapsed(ts'[k..], now)
  {
    hide DroppedNoted, Timely, Covered, Lapsed;
    DroppedKeepsRow(ts, through, ts', through', now);
    if Timely(ts, now) { FrontSpeaksForAll(ts', now); }
  }
}
