/** One watch subscription: its retained events, its cursors, and the stream a client reads from it. */
module WatchStream {
  import opened Wrappers

  const MAX_WATCH_RETAINED_EVENTS := 256
  const MAX_WATCH_RETAINED_BYTES := 512 * 1024
  const MAX_WATCH_LIFETIME_EVENTS := 4096

  type Cursor = string

  datatype WatchEvent = WatchEvent(sequence: nat, kind: string, path: string)

  /** `bytes` is the event's encoded length. */
  datatype Retained = Retained(event: WatchEvent, cursor: Cursor, bytes: nat)

  /** A reported change; `encoded` is its length once numbered, or nothing if it cannot be encoded. */
  datatype Pending = Pending(kind: string, path: string, encoded: Option<nat>)

  datatype Subscription = Subscription(
    binding: string, expiresAt: nat, events: seq<Retained>, retainedBytes: nat,
    cursors: map<Cursor, nat>, next: nat)

  function Opened(binding: string, expiresAt: nat, cursor: Cursor): Subscription {
    Subscription(binding, expiresAt, [], 0, map[cursor := 0], 1)
  }

  // --- Appending ---

  predicate Oversized(s: Subscription) {
    |s.events| > MAX_WATCH_RETAINED_EVENTS || s.retainedBytes > MAX_WATCH_RETAINED_BYTES
  }

  function PopFront(s: Subscription): Subscription
    requires s.events != []
  {
    s.(events := s.events[1..],
       retainedBytes := if s.retainedBytes >= s.events[0].bytes then s.retainedBytes - s.events[0].bytes else 0)
  }

  function Trim(s: Subscription): Subscription
    decreases |s.events|
  {
    if Oversized(s) && s.events != [] then Trim(PopFront(s)) else s
  }

  predicate Appendable(s: Subscription, p: Pending) {
    s.next <= MAX_WATCH_LIFETIME_EVENTS && p.encoded.Some? && p.encoded.value <= MAX_WATCH_RETAINED_BYTES
  }

  function Numbered(s: Subscription, p: Pending, cursor: Cursor): Retained
    requires p.encoded.Some?
  {
    Retained(WatchEvent(s.next, p.kind, p.path), cursor, p.encoded.value)
  }

  function Pushed(s: Subscription, r: Retained): Subscription {
    s.(cursors := s.cursors[r.cursor := r.event.sequence], next := s.next + 1,
       retainedBytes := s.retainedBytes + r.bytes, events := s.events + [r])
  }

  /** The subscription after a batch, or nothing once an event cannot be retained. */
  function Appended(s: Subscription, batch: seq<Pending>, names: seq<Cursor>): Option<Subscription>
    requires |batch| == |names|
    decreases |batch|
  {
    if batch == [] then Some(s)
    else if !Appendable(s, batch[0]) then None
    else Appended(Trim(Pushed(s, Numbered(s, batch[0], names[0]))), batch[1..], names[1..])
  }

  // --- Polling ---

  datatype ResyncReason =
    CursorInvalid | RetentionLost | Overflow | BackendError | SubscriptionExpired | SubscriptionClosed

  datatype PollReply =
    | Current(events: seq<WatchEvent>, cursor: Cursor, first: Option<nat>, next: nat)
    | FullResync(reason: ResyncReason)
    | BindingMismatch

  /** The longest run of events after a cursor that fits the request. */
  function Window(events: seq<Retained>, after: nat, maxEvents: nat, maxBytes: nat): seq<Retained> {
    if events == [] then []
    else if events[0].event.sequence <= after then Window(events[1..], after, maxEvents, maxBytes)
    else if maxEvents == 0 || events[0].bytes > maxBytes then []
    else [events[0]] + Window(events[1..], after, maxEvents - 1, maxBytes - events[0].bytes)
  }

  function EventsOf(rs: seq<Retained>): seq<WatchEvent> {
    if rs == [] then [] else [rs[0].event] + EventsOf(rs[1..])
  }

  function PollOf(s: Subscription, cursor: Cursor, maxEvents: nat, maxBytes: nat): PollReply {
    if cursor !in s.cursors then FullResync(CursorInvalid)
    else
      var after := s.cursors[cursor];
      var first := if s.events == [] then None else Some(s.events[0].event.sequence);
      if first.Some? && after + 1 < first.value then FullResync(RetentionLost)
      else
        var window := Window(s.events, after, maxEvents, maxBytes);
        Current(EventsOf(window), if window == [] then cursor else window[|window| - 1].cursor, first, s.next)
  }

  // --- What a subscription owes to everything ever appended to it ---

  function TotalBytes(rs: seq<Retained>): nat {
    if rs == [] then 0 else rs[0].bytes + TotalBytes(rs[1..])
  }

  ghost predicate NumberedFrom(rs: seq<Retained>, first: nat) {
    forall i :: 0 <= i < |rs| ==> rs[i].event.sequence == first + i
  }

  ghost predicate CursorsKnown(cursors: map<Cursor, nat>, log: seq<Retained>) {
    && (forall i :: 0 <= i < |log| ==> log[i].cursor in cursors && cursors[log[i].cursor] == i + 1)
    && (forall k :: k in cursors ==> cursors[k] <= |log|)
  }

  /** The log splits into what retention dropped and what is kept, and the newest event is always kept. */
  ghost predicate SubInv(s: Subscription, log: seq<Retained>) {
    && |s.events| <= |log| && s.events == log[|log| - |s.events|..]
    && (log != [] ==> s.events != [])
    && NumberedFrom(log, 1)
    && s.next == |log| + 1
    && s.retainedBytes == TotalBytes(s.events)
    && !Oversized(s)
    && CursorsKnown(s.cursors, log)
  }

  lemma {:induction false} TotalPush(rs: seq<Retained>, r: Retained)
    ensures TotalBytes(rs + [r]) == TotalBytes(rs) + r.bytes
  {
    if rs == [] {
      assert rs + [r] == [r];
    } else {
      assert (rs + [r])[1..] == rs[1..] + [r];
      TotalPush(rs[1..], r);
    }
  }

  /** Trimming drops from the front only, and never the newest event, which fits by itself. */
  lemma {:induction false} TrimKeepsNewest(s: Subscription)
    requires s.events != [] && s.retainedBytes == TotalBytes(s.events)
    requires s.events[|s.events| - 1].bytes <= MAX_WATCH_RETAINED_BYTES
    ensures var t := Trim(s);
      && t.events != [] && |t.events| <= |s.events| && t.events == s.events[|s.events| - |t.events|..]
      && t.retainedBytes == TotalBytes(t.events) && !Oversized(t)
      && t == s.(events := t.events, retainedBytes := t.retainedBytes)
    decreases |s.events|
  {
    if Oversized(s) && |s.events| > 1 {
      var p := PopFront(s);
      TrimKeepsNewest(p);
      var t := Trim(s);
      assert p.events[|p.events| - |t.events|..] == s.events[|s.events| - |t.events|..];
    }
  }

  lemma {:induction false} PushedCursors(cursors: map<Cursor, nat>, log: seq<Retained>, r: Retained)
    requires CursorsKnown(cursors, log) && r.cursor !in cursors && r.event.sequence == |log| + 1
    ensures CursorsKnown(cursors[r.cursor := |log| + 1], log + [r])
  {
    var cursors', log' := cursors[r.cursor := |log| + 1], log + [r];
    forall i | 0 <= i < |log'| ensures log'[i].cursor in cursors' && cursors'[log'[i].cursor] == i + 1 {
      if i < |log| { assert log'[i] == log[i]; }
    }
  }

  lemma {:induction false} PushKeepsInv(s: Subscription, log: seq<Retained>, p: Pending, cursor: Cursor)
    requires SubInv(s, log) && Appendable(s, p) && cursor !in s.cursors
    ensures SubInv(Trim(Pushed(s, Numbered(s, p, cursor))), log + [Numbered(s, p, cursor)])
  {
    hide CursorsKnown, NumberedFrom, TotalBytes, Trim;
    var r := Numbered(s, p, cursor);
    var pushed, log' := Pushed(s, r), log + [r];
    TotalPush(s.events, r);
    TrimKeepsNewest(pushed);
    var t := Trim(pushed);
    PushedCursors(s.cursors, log, r);
    SuffixOfSuffix(s.events, log, r, t.events);
    NumberedPush(log, r);
  }

  lemma {:induction false} NumberedPush(log: seq<Retained>, r: Retained)
    requires NumberedFrom(log, 1) && r.event.sequence == |log| + 1
    ensures NumberedFrom(log + [r], 1)
  {
    forall i | 0 <= i < |log + [r]| ensures (log + [r])[i].event.sequence == 1 + i {
      if i < |log| { assert (log + [r])[i] == log[i]; }
    }
  }

  lemma {:induction false} SuffixOfSuffix(kept: seq<Retained>, log: seq<Retained>, r: Retained, t: seq<Retained>)
    requires |kept| <= |log| && kept == log[|log| - |kept|..]
    requires |t| <= |kept + [r]| && t == (kept + [r])[|kept + [r]| - |t|..]
    ensures |t| <= |log + [r]| && t == (log + [r])[|log + [r]| - |t|..]
  {
    var all := log + [r];
    assert kept + [r] == all[|all| - |kept| - 1..];
  }

  /** Distinct names no cursor bears yet, as UUIDs are. */
  ghost predicate FreshNames(cursors: map<Cursor, nat>, names: seq<Cursor>) {
    && (forall i :: 0 <= i < |names| ==> names[i] !in cursors)
    && (forall i, j :: 0 <= i < j < |names| ==> names[i] != names[j])
  }

  ghost predicate CursorsGrow(a: map<Cursor, nat>, b: map<Cursor, nat>) {
    forall k :: k in a ==> k in b && b[k] == a[k]
  }

  /** The events a batch becomes, numbered on from the subscription's next sequence. */
  function Numbering(batch: seq<Pending>, names: seq<Cursor>, next: nat): seq<Retained>
    requires |batch| == |names|
  {
    if batch == [] then []
    else
      [Retained(WatchEvent(next, batch[0].kind, batch[0].path), names[0],
                if batch[0].encoded.Some? then batch[0].encoded.value else 0)]
      + Numbering(batch[1..], names[1..], next + 1)
  }

  /** A batch extends the log by exactly its events, in order; it forgets and renumbers nothing. */
  lemma {:induction false} AppendExtendsLog(
      s: Subscription, log: seq<Retained>, batch: seq<Pending>, names: seq<Cursor>)
    requires SubInv(s, log) && |batch| == |names| && FreshNames(s.cursors, names)
    requires Appended(s, batch, names).Some?
    ensures SubInv(Appended(s, batch, names).value, log + Numbering(batch, names, s.next))
    ensures CursorsGrow(s.cursors, Appended(s, batch, names).value.cursors)
    decreases |batch|
  {
    hide SubInv, FreshNames, Trim, Oversized;
    if batch == [] {
      assert log + [] == log;
    } else {
      var r := Numbered(s, batch[0], names[0]);
      var t := Trim(Pushed(s, r));
      FirstIsFresh(s.cursors, names);
      PushKeepsInv(s, log, batch[0], names[0]);
      TrimKeepsCursors(Pushed(s, r));
      FreshTail(s.cursors, names, r.event.sequence);
      AppendExtendsLog(t, log + [r], batch[1..], names[1..]);
      assert log + [r] + Numbering(batch[1..], names[1..], s.next + 1) == log + Numbering(batch, names, s.next);
    }
  }

  lemma {:induction false} FirstIsFresh(cursors: map<Cursor, nat>, names: seq<Cursor>)
    requires FreshNames(cursors, names) && names != []
    ensures names[0] !in cursors
  {
  }

  lemma {:induction false} TrimKeepsCursors(s: Subscription)
    ensures Trim(s).cursors == s.cursors && Trim(s).next == s.next
    decreases |s.events|
  {
    if Oversized(s) && s.events != [] { TrimKeepsCursors(PopFront(s)); }
  }

  lemma {:induction false} FreshTail(cursors: map<Cursor, nat>, names: seq<Cursor>, n: nat)
    requires FreshNames(cursors, names) && names != []
    ensures FreshNames(cursors[names[0] := n], names[1..])
  {
    forall i | 0 <= i < |names[1..]| ensures names[1..][i] !in cursors[names[0] := n] {
      assert names[1..][i] == names[i + 1] && names[0] != names[i + 1];
    }
    forall i, j | 0 <= i < j < |names[1..]| ensures names[1..][i] != names[1..][j] {
      assert names[i + 1] != names[j + 1];
    }
  }

  // --- The stream a client reads ---

  lemma {:induction false} NumberedTail(rs: seq<Retained>, first: nat)
    requires NumberedFrom(rs, first) && rs != []
    ensures NumberedFrom(rs[1..], first + 1)
  {
  }

  /** A window is a contiguous run of events that starts right after the cursor. */
  lemma {:induction false} WindowIsSlice(events: seq<Retained>, base: nat, after: nat, maxEvents: nat, maxBytes: nat)
    requires NumberedFrom(events, base + 1) && base <= after <= base + |events|
    ensures var w := Window(events, after, maxEvents, maxBytes);
      |w| <= |events| - (after - base) && w == events[after - base..after - base + |w|]
    decreases |events|
  {
    var w := Window(events, after, maxEvents, maxBytes);
    if events == [] {
    } else if events[0].event.sequence <= after {
      NumberedTail(events, base + 1);
      WindowIsSlice(events[1..], base + 1, after, maxEvents, maxBytes);
      assert events[1..][after - base - 1..after - base - 1 + |w|] == events[after - base..after - base + |w|];
    } else if maxEvents == 0 || events[0].bytes > maxBytes {
    } else {
      NumberedTail(events, base + 1);
      assert after == base;
      WindowIsSlice(events[1..], base + 1, after + 1, maxEvents - 1, maxBytes - events[0].bytes);
      WindowPastStart(events[1..], base + 1, maxEvents - 1, maxBytes - events[0].bytes);
      assert w == [events[0]] + events[1..][..|w| - 1];
    }
  }

  lemma {:induction false} WindowPastStart(events: seq<Retained>, base: nat, maxEvents: nat, maxBytes: nat)
    requires NumberedFrom(events, base + 1) && base >= 1
    ensures Window(events, base - 1, maxEvents, maxBytes) == Window(events, base, maxEvents, maxBytes)
    decreases |events|
  {
    if events != [] && maxEvents > 0 && events[0].bytes <= maxBytes {
      NumberedTail(events, base + 1);
      SkipIsHarmless(events[1..], base + 1, base - 1, base, maxEvents - 1, maxBytes - events[0].bytes);
    }
  }

  /** Cursors before the first event all select the same window. */
  lemma {:induction false} SkipIsHarmless(
      events: seq<Retained>, base: nat, a: nat, b: nat, maxEvents: nat, maxBytes: nat)
    requires NumberedFrom(events, base + 1) && a <= base && b <= base
    ensures Window(events, a, maxEvents, maxBytes) == Window(events, b, maxEvents, maxBytes)
    decreases |events|
  {
    if events != [] && maxEvents > 0 && events[0].bytes <= maxBytes {
      NumberedTail(events, base + 1);
      SkipIsHarmless(events[1..], base + 1, a, b, maxEvents - 1, maxBytes - events[0].bytes);
    }
  }

  lemma {:induction false} EventsOfSplits(a: seq<Retained>, b: seq<Retained>)
    ensures EventsOf(a + b) == EventsOf(a) + EventsOf(b)
  {
    if a == [] {
      assert a + b == b;
    } else {
      assert (a + b)[1..] == a[1..] + b;
      EventsOfSplits(a[1..], b);
    }
  }

  /** A cursor behind retention, or unknown, is told to resynchronise; every other cursor is served. */
  lemma {:induction false} ResyncExactlyWhenLost(
      s: Subscription, log: seq<Retained>, cursor: Cursor, maxEvents: nat, maxBytes: nat)
    requires SubInv(s, log)
    ensures PollOf(s, cursor, maxEvents, maxBytes).FullResync?
      <==> cursor !in s.cursors || s.cursors[cursor] < |log| - |s.events|
  {
    hide CursorsKnown, NumberedFrom, Window, EventsOf, TotalBytes, Oversized;
    if s.events != [] { FirstRetained(s.events, log); }
  }

  lemma {:induction false} FirstRetained(events: seq<Retained>, log: seq<Retained>)
    requires 0 < |events| <= |log| && events == log[|log| - |events|..] && NumberedFrom(log, 1)
    ensures events[0].event.sequence == |log| - |events| + 1
  {
    assert events[0] == log[|log| - |events|];
  }

  /** One poll returns exactly the events between its cursor and the one it hands back. */
  lemma {:induction false} PollIsGapless(
      s: Subscription, log: seq<Retained>, cursor: Cursor, maxEvents: nat, maxBytes: nat)
    requires SubInv(s, log) && PollOf(s, cursor, maxEvents, maxBytes).Current?
    ensures var reply := PollOf(s, cursor, maxEvents, maxBytes);
      && cursor in s.cursors && reply.cursor in s.cursors
      && s.cursors[cursor] <= s.cursors[reply.cursor] <= |log|
      && EventsOf(log[..s.cursors[reply.cursor]]) == EventsOf(log[..s.cursors[cursor]]) + reply.events
  {
    hide CursorsKnown, Window, NumberedFrom, TotalBytes;
    var after := s.cursors[cursor];
    var base := |log| - |s.events|;
    ResyncExactlyWhenLost(s, log, cursor, maxEvents, maxBytes);
    RetainedAreNumbered(s.events, log);
    CursorsPoint(s.cursors, log, cursor);
    WindowIsSlice(s.events, base, after, maxEvents, maxBytes);
    var w := Window(s.events, after, maxEvents, maxBytes);
    SliceOfSuffix(s.events, log, after - base, w);
    EventsOfSplits(log[..after], w);
    if w != [] { CursorsName(s.cursors, log, after + |w| - 1); } else { assert log[..after] + w == log[..after]; }
  }

  // --- How far one poll gets ---

  /** The events from one position to another fit the request. */
  ghost predicate Fits(log: seq<Retained>, from: nat, to: nat, maxEvents: nat, maxBytes: nat)
    requires from <= to <= |log|
  {
    to - from <= maxEvents && TotalBytes(log[from..to]) <= maxBytes
  }

  lemma {:induction false} FitsFromNext(log: seq<Retained>, from: nat, to: nat, maxEvents: nat, maxBytes: nat)
    requires from < to <= |log|
    ensures Fits(log, from, to, maxEvents, maxBytes)
      <==> maxEvents > 0 && log[from].bytes <= maxBytes
           && Fits(log, from + 1, to, maxEvents - 1, maxBytes - log[from].bytes)
  {
    assert log[from..to][1..] == log[from + 1..to];
  }

  /** The position a poll reaches: the last one up to which everything fits. */
  ghost predicate Furthest(log: seq<Retained>, from: nat, to: nat, maxEvents: nat, maxBytes: nat)
    requires from <= to <= |log|
  {
    && Fits(log, from, to, maxEvents, maxBytes)
    && forall n :: to < n <= |log| ==> !Fits(log, from, n, maxEvents, maxBytes)
  }

  lemma {:induction false} WindowIsLongest(events: seq<Retained>, base: nat, after: nat, maxEvents: nat, maxBytes: nat)
    requires NumberedFrom(events, base + 1) && after <= base
    ensures var n := |Window(events, after, maxEvents, maxBytes)|;
      n <= |events| && Furthest(events, 0, n, maxEvents, maxBytes)
    decreases |events|
  {
    hide Fits;
    if events == [] || maxEvents == 0 || events[0].bytes > maxBytes {
      NothingFits(events, maxEvents, maxBytes);
    } else {
      NumberedTail(events, base + 1);
      WindowIsLongest(events[1..], base + 1, after, maxEvents - 1, maxBytes - events[0].bytes);
      FurthestFromNext(events, |Window(events, after, maxEvents, maxBytes)|, maxEvents, maxBytes);
    }
  }

  lemma {:induction false} NothingFits(events: seq<Retained>, maxEvents: nat, maxBytes: nat)
    requires events == [] || maxEvents == 0 || events[0].bytes > maxBytes
    ensures Furthest(events, 0, 0, maxEvents, maxBytes)
  {
    forall n | 0 < n <= |events| ensures !Fits(events, 0, n, maxEvents, maxBytes) {
      FitsFromNext(events, 0, n, maxEvents, maxBytes);
    }
  }

  lemma {:induction false} TailFits(events: seq<Retained>, n: nat, maxEvents: nat, maxBytes: nat)
    requires events != [] && n < |events|
    ensures Fits(events[1..], 0, n, maxEvents, maxBytes) <==> Fits(events, 1, n + 1, maxEvents, maxBytes)
  {
    assert events[1..][..n] == events[1..n + 1];
  }

  lemma {:induction false} FurthestFromNext(events: seq<Retained>, n: nat, maxEvents: nat, maxBytes: nat)
    requires 0 < n <= |events| && maxEvents > 0 && events[0].bytes <= maxBytes
    requires Furthest(events[1..], 0, n - 1, maxEvents - 1, maxBytes - events[0].bytes)
    ensures Furthest(events, 0, n, maxEvents, maxBytes)
  {
    hide Fits;
    forall k | n <= k <= |events|
      ensures Fits(events, 0, k, maxEvents, maxBytes)
        <==> Fits(events[1..], 0, k - 1, maxEvents - 1, maxBytes - events[0].bytes)
    {
      FitsFromNext(events, 0, k, maxEvents, maxBytes);
      TailFits(events, k - 1, maxEvents - 1, maxBytes - events[0].bytes);
    }
  }

  /** Events at or before the cursor are passed over. */
  lemma {:induction false} WindowSkips(events: seq<Retained>, base: nat, after: nat, maxEvents: nat, maxBytes: nat)
    requires NumberedFrom(events, base + 1) && base <= after <= base + |events|
    ensures NumberedFrom(events[after - base..], after + 1)
    ensures Window(events, after, maxEvents, maxBytes) == Window(events[after - base..], after, maxEvents, maxBytes)
    decreases |events|
  {
    if base == after {
      assert events[0..] == events;
    } else {
      NumberedTail(events, base + 1);
      WindowSkips(events[1..], base + 1, after, maxEvents, maxBytes);
      assert events[1..][after - base - 1..] == events[after - base..];
    }
  }

  lemma {:induction false} FurthestInLog(log: seq<Retained>, from: nat, n: nat, maxEvents: nat, maxBytes: nat)
    requires from + n <= |log| && Furthest(log[from..], 0, n, maxEvents, maxBytes)
    ensures Furthest(log, from, from + n, maxEvents, maxBytes)
  {
    assert log[from..][..n] == log[from..from + n];
    forall k | from + n < k <= |log| ensures !Fits(log, from, k, maxEvents, maxBytes) {
      assert log[from..][..k - from] == log[from..k];
      assert !Fits(log[from..], 0, k - from, maxEvents, maxBytes);
    }
  }

  /** One poll goes as far as its two limits allow, and no further. */
  lemma {:induction false} PollIsLongest(
      s: Subscription, log: seq<Retained>, cursor: Cursor, maxEvents: nat, maxBytes: nat)
    requires SubInv(s, log) && PollOf(s, cursor, maxEvents, maxBytes).Current?
    ensures var reply := PollOf(s, cursor, maxEvents, maxBytes);
      && cursor in s.cursors && reply.cursor in s.cursors
      && s.cursors[cursor] <= s.cursors[reply.cursor] <= |log|
      && Furthest(log, s.cursors[cursor], s.cursors[reply.cursor], maxEvents, maxBytes)
  {
    hide CursorsKnown, Window, NumberedFrom, TotalBytes, Furthest, EventsOf;
    var after := s.cursors[cursor];
    var base := |log| - |s.events|;
    ResyncExactlyWhenLost(s, log, cursor, maxEvents, maxBytes);
    RetainedAreNumbered(s.events, log);
    CursorsPoint(s.cursors, log, cursor);
    WindowSkips(s.events, base, after, maxEvents, maxBytes);
    var rest := s.events[after - base..];
    assert rest == log[after..];
    WindowIsLongest(rest, after, after, maxEvents, maxBytes);
    var w := Window(s.events, after, maxEvents, maxBytes);
    FurthestInLog(log, after, |w|, maxEvents, maxBytes);
    WindowIsSlice(s.events, base, after, maxEvents, maxBytes);
    SliceOfSuffix(s.events, log, after - base, w);
    if w != [] { CursorsName(s.cursors, log, after + |w| - 1); }
  }

  /** A poll stands still exactly when nothing is left, or its limits do not admit even the next event. */
  lemma {:induction false} StalledExactlyWhen(
      s: Subscription, log: seq<Retained>, cursor: Cursor, maxEvents: nat, maxBytes: nat)
    requires SubInv(s, log) && PollOf(s, cursor, maxEvents, maxBytes).Current?
    ensures cursor in s.cursors && s.cursors[cursor] <= |log|
    ensures var reply, from := PollOf(s, cursor, maxEvents, maxBytes), s.cursors[cursor];
      && (reply.events == [] <==> from == |log| || maxEvents == 0 || log[from].bytes > maxBytes)
      && (reply.events == [] ==> reply.cursor == cursor)
  {
    hide SubInv, PollOf, Fits, TotalBytes;
    PollIsLongest(s, log, cursor, maxEvents, maxBytes);
    PollIsGapless(s, log, cursor, maxEvents, maxBytes);
    var reply := PollOf(s, cursor, maxEvents, maxBytes);
    var from, to := s.cursors[cursor], s.cursors[reply.cursor];
    EventsLength(log[..from]);
    EventsLength(log[..to]);
    if from < |log| { OneFits(log, from, maxEvents, maxBytes); }
    if from < to { FitsFromNext(log, from, to, maxEvents, maxBytes); }
    StillMeansSame(s, cursor, maxEvents, maxBytes);
  }

  lemma {:induction false} OneFits(log: seq<Retained>, from: nat, maxEvents: nat, maxBytes: nat)
    requires from < |log|
    ensures Fits(log, from, from + 1, maxEvents, maxBytes) <==> maxEvents > 0 && log[from].bytes <= maxBytes
  {
    FitsFromNext(log, from, from + 1, maxEvents, maxBytes);
    assert log[from + 1..from + 1] == [];
  }

  lemma {:induction false} EventsLength(rs: seq<Retained>)
    ensures |EventsOf(rs)| == |rs|
  {
    if rs != [] { EventsLength(rs[1..]); }
  }

  lemma {:induction false} StillMeansSame(s: Subscription, cursor: Cursor, maxEvents: nat, maxBytes: nat)
    ensures var reply := PollOf(s, cursor, maxEvents, maxBytes);
      reply.Current? && reply.events == [] ==> reply.cursor == cursor
  {
    hide Window;
    if cursor in s.cursors { EventsLength(Window(s.events, s.cursors[cursor], maxEvents, maxBytes)); }
  }

  lemma {:induction false} RetainedAreNumbered(events: seq<Retained>, log: seq<Retained>)
    requires |events| <= |log| && events == log[|log| - |events|..] && NumberedFrom(log, 1)
    ensures NumberedFrom(events, |log| - |events| + 1)
  {
    var base := |log| - |events|;
    forall i | 0 <= i < |events| ensures events[i].event.sequence == base + 1 + i {
      assert events[i] == log[base + i];
    }
  }

  lemma {:induction false} CursorsPoint(cursors: map<Cursor, nat>, log: seq<Retained>, cursor: Cursor)
    requires CursorsKnown(cursors, log) && cursor in cursors
    ensures cursors[cursor] <= |log|
  {
  }

  lemma {:induction false} CursorsName(cursors: map<Cursor, nat>, log: seq<Retained>, i: nat)
    requires CursorsKnown(cursors, log) && i < |log|
    ensures log[i].cursor in cursors && cursors[log[i].cursor] == i + 1
  {
  }

  lemma {:induction false} SliceOfSuffix(events: seq<Retained>, log: seq<Retained>, at: nat, w: seq<Retained>)
    requires |events| <= |log| && events == log[|log| - |events|..]
    requires at + |w| <= |events| && w == events[at..at + |w|]
    ensures var from := |log| - |events| + at;
      log[..from + |w|] == log[..from] + w && (w != [] ==> w[|w| - 1] == log[from + |w| - 1])
  {
    var from := |log| - |events| + at;
    assert w == log[from..from + |w|];
  }

  /** A client and the subscription it follows. */
  datatype Client = Client(s: Subscription, log: seq<Retained>, cursor: Cursor, received: seq<WatchEvent>)

  datatype Action =
    | Arrived(batch: seq<Pending>, names: seq<Cursor>)
    | Polled(maxEvents: nat, maxBytes: nat)

  /** A batch arrives through anyone's poll, or this client polls and follows the cursor it is given. */
  ghost predicate ClientStep(c: Client, a: Action, c': Client) {
    match a
    case Arrived(batch, names) =>
      |batch| == |names| && FreshNames(c.s.cursors, names)
      && Appended(c.s, batch, names) == Some(c'.s)
      && c' == Client(c'.s, c.log + Numbering(batch, names, c.s.next), c.cursor, c.received)
    case Polled(maxEvents, maxBytes) =>
      var reply := PollOf(c.s, c.cursor, maxEvents, maxBytes);
      reply.Current? && c' == Client(c.s, c.log, reply.cursor, c.received + reply.events)
  }

  ghost predicate Following(c: Client) {
    SubInv(c.s, c.log) && c.cursor in c.s.cursors && c.s.cursors[c.cursor] <= |c.log|
    && c.received == EventsOf(c.log[..c.s.cursors[c.cursor]])
  }

  lemma {:induction false} StepKeepsFollowing(c: Client, a: Action, c': Client)
    requires Following(c) && ClientStep(c, a, c')
    ensures Following(c')
  {
    hide SubInv;
    match a
    case Arrived(batch, names) =>
      var k := c.s.cursors[c.cursor];
      AppendExtendsLog(c.s, c.log, batch, names);
      assert c'.log[..k] == c.log[..k];
    case Polled(maxEvents, maxBytes) =>
      PollIsGapless(c.s, c.log, c.cursor, maxEvents, maxBytes);
  }

  ghost predicate IsChain(clients: seq<Client>, actions: seq<Action>) {
    && |clients| == |actions| + 1
    && clients[0].log == [] && clients[0].received == []
    && SubInv(clients[0].s, []) && clients[0].cursor in clients[0].s.cursors
    && forall i :: 0 <= i < |actions| ==> ClientStep(clients[i], actions[i], clients[i + 1])
  }

  lemma {:induction false} ChainFollows(clients: seq<Client>, actions: seq<Action>, i: nat)
    requires IsChain(clients, actions) && i < |clients|
    ensures Following(clients[i])
  {
    hide ClientStep, SubInv, Following;
    if i == 0 {
      FirstFollows(clients[0]);
    } else {
      ChainFollows(clients, actions, i - 1);
      StepKeepsFollowing(clients[i - 1], actions[i - 1], clients[i]);
    }
  }

  lemma {:induction false} FirstFollows(c: Client)
    requires c.log == [] && c.received == [] && SubInv(c.s, []) && c.cursor in c.s.cursors
    ensures Following(c)
  {
  }

  /**
   Along any chain of polls that follow the returned cursors, with any batches arriving in between,
   what the client has received is exactly the first events ever appended: none lost, none twice.
   */
  lemma {:induction false} StreamIsGapless(clients: seq<Client>, actions: seq<Action>, i: nat)
    requires IsChain(clients, actions) && i < |clients|
    ensures exists k :: 0 <= k <= |clients[i].log| && clients[i].received == EventsOf(clients[i].log[..k])
  {
    ChainFollows(clients, actions, i);
    var c := clients[i];
    assert c.received == EventsOf(c.log[..c.s.cursors[c.cursor]]) by { hide SubInv, ClientStep; }
  }

  /** The limits admit an event of this length. */
  predicate Admits(a: Action, bytes: nat) {
    a.Polled? && a.maxEvents > 0 && bytes <= a.maxBytes
  }

  /** How far into the log this client has read. */
  ghost function Position(c: Client): nat
    requires Following(c)
  {
    c.s.cursors[c.cursor]
  }

  ghost predicate Waiting(c: Client, next: Retained) {
    Following(c) && Position(c) < |c.log| && c.log[Position(c)] == next
  }

  lemma {:induction false} SmallPollStands(c: Client, a: Action, c': Client, next: Retained)
    requires Waiting(c, next) && ClientStep(c, a, c') && !Admits(a, next.bytes)
    ensures Waiting(c', next) && c'.cursor == c.cursor && c'.received == c.received
  {
    hide SubInv, PollOf;
    StepKeepsFollowing(c, a, c');
    match a
    case Arrived(batch, names) => AppendExtendsLog(c.s, c.log, batch, names);
    case Polled(maxEvents, maxBytes) => StalledExactlyWhen(c.s, c.log, c.cursor, maxEvents, maxBytes);
  }

  /**
   A client whose limits never admit the next event never moves, whatever arrives: its replies stay current and
   empty, with the same cursor, until retention has passed it by.
   */
  lemma {:induction false} SmallPollsNeverAdvance(
      clients: seq<Client>, actions: seq<Action>, i: nat, j: nat, next: Retained)
    requires IsChain(clients, actions) && i <= j < |clients| && Waiting(clients[i], next)
    requires forall k :: i <= k < j ==> !Admits(actions[k], next.bytes)
    ensures Waiting(clients[j], next)
    ensures clients[j].cursor == clients[i].cursor && clients[j].received == clients[i].received
  {
    hide ClientStep, Waiting, SubInv;
    if i < j {
      SmallPollsNeverAdvance(clients, actions, i, j - 1, next);
      SmallPollStands(clients[j - 1], actions[j - 1], clients[j], next);
    }
  }

  lemma {:induction false} OpenedInv(binding: string, expiresAt: nat, cursor: Cursor)
    ensures SubInv(Opened(binding, expiresAt, cursor), [])
  {
  }
}
