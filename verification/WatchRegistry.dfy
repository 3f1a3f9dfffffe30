/** The registry of watch subscriptions, with bounded tombstones for the ones that ended. */
module WatchHost {
  import opened Wrappers
  import opened WatchStream

  const MAX_WATCH_SUBSCRIPTIONS := 8
  const MAX_WATCH_TOMBSTONES := 32
  const WATCH_TOMBSTONE_TTL := 600

  datatype WatchTombstone = WatchTombstone(binding: string, reason: ResyncReason, retainedUntil: nat)

  ghost predicate Distinct(s: seq<string>) {
    forall i, j :: 0 <= i < j < |s| ==> s[i] != s[j]
  }

  /** `order` lists exactly the tombstones, oldest first. */
  ghost predicate Listed(order: seq<string>, tombstones: map<string, WatchTombstone>) {
    Distinct(order) && forall id :: id in order <==> id in tombstones
  }

  lemma {:induction false} ListedPush(order: seq<string>, m: map<string, WatchTombstone>, id: string, t: WatchTombstone)
    requires Listed(order, m) && id !in m
    ensures Listed(order + [id], m[id := t])
  {
    assert forall k :: k in order + [id] <==> k in order || k == id;
  }

  lemma {:induction false} ListedPop(order: seq<string>, m: map<string, WatchTombstone>)
    requires Listed(order, m) && order != []
    ensures order[0] in m && Listed(order[1..], m - {order[0]})
  {
    assert order[0] in order;
    forall k ensures k in order[1..] <==> k in m - {order[0]} {
      if k in order[1..] {
        var i :| 0 <= i < |order[1..]| && order[1..][i] == k;
        assert order[0] != order[i + 1];
        assert k in order;
      }
    }
  }

  /** Every live subscription is the retained end of its log. */
  ghost predicate Backed(subscriptions: map<string, Subscription>, logs: map<string, seq<Retained>>) {
    forall id :: id in subscriptions ==> id in logs && SubInv(subscriptions[id], logs[id])
  }

  ghost predicate Buried(
      tombstones: map<string, WatchTombstone>, subscriptions: map<string, Subscription>,
      logs: map<string, seq<Retained>>)
  {
    forall id :: id in tombstones ==> id in logs && id !in subscriptions
  }

  /** Logs only grow. */
  ghost predicate LogsGrow(a: map<string, seq<Retained>>, b: map<string, seq<Retained>>) {
    forall id :: id in a ==> id in b && a[id] <= b[id]
  }

  /** A subscription that has ended never comes back. */
  ghost predicate NoneRevived(
      logs: map<string, seq<Retained>>, before: map<string, Subscription>, after: map<string, Subscription>)
  {
    forall id :: id in logs && id in after ==> id in before
  }

  predicate LiveFor(s: Subscription, binding: string, now: nat) {
    s.expiresAt > now && s.binding == binding
  }

  lemma {:induction false} LogsStay(logs: map<string, seq<Retained>>)
    ensures LogsGrow(logs, logs)
  {
  }

  lemma {:induction false} RemoveOne(
      subscriptions: map<string, Subscription>, tombstones: map<string, WatchTombstone>,
      logs: map<string, seq<Retained>>, id: string, t: WatchTombstone)
    requires Backed(subscriptions, logs) && Buried(tombstones, subscriptions, logs) && id in subscriptions
    ensures Backed(subscriptions - {id}, logs) && Buried(tombstones[id := t], subscriptions - {id}, logs)
    ensures |subscriptions - {id}| < |subscriptions| && id !in tombstones
  {
    hide SubInv;
    assert (subscriptions - {id}).Keys == subscriptions.Keys - {id};
  }

  lemma {:induction false} OpenOne(
      subscriptions: map<string, Subscription>, tombstones: map<string, WatchTombstone>,
      logs: map<string, seq<Retained>>, id: string, s: Subscription)
    requires Backed(subscriptions, logs) && Buried(tombstones, subscriptions, logs) && id !in logs && SubInv(s, [])
    ensures Backed(subscriptions[id := s], logs[id := []]) && Buried(tombstones, subscriptions[id := s], logs[id := []])
    ensures |subscriptions[id := s]| == |subscriptions| + 1
    ensures LogsGrow(logs, logs[id := []]) && NoneRevived(logs, subscriptions, subscriptions[id := s])
  {
    hide SubInv;
    assert subscriptions[id := s].Keys == subscriptions.Keys + {id};
  }

  lemma {:induction false} AppendOne(
      subscriptions: map<string, Subscription>, tombstones: map<string, WatchTombstone>,
      logs: map<string, seq<Retained>>, id: string, s: Subscription, log: seq<Retained>)
    requires Backed(subscriptions, logs) && Buried(tombstones, subscriptions, logs)
    requires id in subscriptions && id in logs && SubInv(s, log) && logs[id] <= log
    ensures Backed(subscriptions[id := s], logs[id := log])
      && Buried(tombstones, subscriptions[id := s], logs[id := log])
    ensures |subscriptions[id := s]| == |subscriptions|
    ensures LogsGrow(logs, logs[id := log]) && NoneRevived(logs, subscriptions, subscriptions[id := s])
  {
    hide SubInv;
    assert subscriptions[id := s].Keys == subscriptions.Keys;
  }

  ghost predicate Fewer(a: map<string, WatchTombstone>, b: map<string, WatchTombstone>) {
    forall k :: k in a ==> k in b && a[k] == b[k]
  }

  /** The longest recent end there is room for. */
  function RecentEnd(order: seq<string>): seq<string> {
    if |order| > MAX_WATCH_TOMBSTONES then order[|order| - MAX_WATCH_TOMBSTONES..] else order
  }

  /** Drops the oldest tombstones while there are too many, and no more than that. */
  method DropExcess(order0: seq<string>, tombstones0: map<string, WatchTombstone>)
    returns (order: seq<string>, tombstones: map<string, WatchTombstone>)
    requires Listed(order0, tombstones0)
    ensures Listed(order, tombstones) && Fewer(tombstones, tombstones0)
    ensures order == RecentEnd(order0)
    ensures order0 != [] ==> order0[|order0| - 1] in tombstones
  {
    hide Listed;
    order, tombstones := order0, tombstones0;
    while |order| > MAX_WATCH_TOMBSTONES
      invariant Listed(order, tombstones) && Fewer(tombstones, tombstones0)
      invariant |order| <= |order0| && order == order0[|order0| - |order|..]
      invariant |order| >= MAX_WATCH_TOMBSTONES || order == order0
      decreases |order|
    {
      ListedPop(order, tombstones);
      tombstones := tombstones - {order[0]};
      order := order[1..];
    }
    if order0 != [] { LastIsListed(order, tombstones); }
  }

  lemma {:induction false} LastIsListed(order: seq<string>, m: map<string, WatchTombstone>)
    requires Listed(order, m) && order != []
    ensures order[|order| - 1] in m && order[0] in m
  {
    assert order[|order| - 1] in order && order[0] in order;
  }

  ghost predicate AllLapsed(ids: seq<string>, tombstones: map<string, WatchTombstone>, now: nat) {
    forall i :: 0 <= i < |ids| ==> ids[i] in tombstones && tombstones[ids[i]].retainedUntil <= now
  }

  /** Drops tombstones from the front for as long as the oldest has lapsed, and no longer. */
  method DropLapsed(order0: seq<string>, tombstones0: map<string, WatchTombstone>, now: nat)
    returns (order: seq<string>, tombstones: map<string, WatchTombstone>)
    requires Listed(order0, tombstones0)
    ensures Listed(order, tombstones) && Fewer(tombstones, tombstones0)
    ensures |order| <= |order0| && order == order0[|order0| - |order|..]
    ensures AllLapsed(order0[..|order0| - |order|], tombstones0, now)
    ensures order != [] ==> order[0] in tombstones && tombstones[order[0]].retainedUntil > now
  {
    hide Listed;
    order, tombstones := order0, tombstones0;
    while order != [] && order[0] in tombstones && tombstones[order[0]].retainedUntil <= now
      invariant Listed(order, tombstones) && Fewer(tombstones, tombstones0)
      invariant |order| <= |order0| && order == order0[|order0| - |order|..]
      invariant AllLapsed(order0[..|order0| - |order|], tombstones0, now)
      decreases |order|
    {
      ghost var dropped := |order0| - |order|;
      assert order0[..dropped + 1] == order0[..dropped] + [order[0]];
      ListedPop(order, tombstones);
      tombstones := tombstones - {order[0]};
      order := order[1..];
    }
    if order != [] { LastIsListed(order, tombstones); }
  }

  /** Appends one batch to one subscription, trimming as it goes. */
  method AppendBatch(s0: Subscription, batch: seq<Pending>, names: seq<Cursor>, ghost log0: seq<Retained>)
    returns (s: Subscription, ok: bool, ghost log: seq<Retained>)
    requires |batch| == |names| && SubInv(s0, log0) && FreshNames(s0.cursors, names)
    ensures ok <==> Appended(s0, batch, names).Some?
    ensures ok ==> s == Appended(s0, batch, names).value && log == log0 + Numbering(batch, names, s0.next)
    ensures SubInv(s, log) && log0 <= log
  {
    hide SubInv, FreshNames, Trim, Oversized;
    s, ok, log := s0, true, log0;
    var i := 0;
    assert batch[0..] == batch && names[0..] == names;
    while i < |batch|
      invariant 0 <= i <= |batch| && SubInv(s, log) && log0 <= log
      invariant FreshNames(s.cursors, names[i..])
      invariant Appended(s0, batch, names) == Appended(s, batch[i..], names[i..])
      invariant log + Numbering(batch[i..], names[i..], s.next) == log0 + Numbering(batch, names, s0.next)
    {
      assert batch[i..][1..] == batch[i + 1..] && names[i..][1..] == names[i + 1..];
      if !Appendable(s, batch[i]) { return s, false, log; }
      FirstIsFresh(s.cursors, names[i..]);
      var r := Numbered(s, batch[i], names[i]);
      PushKeepsInv(s, log, batch[i], names[i]);
      FreshTail(s.cursors, names[i..], r.event.sequence);
      TrimKeepsCursors(Pushed(s, r));
      log := log + [r];
      s := TrimInPlace(Pushed(s, r));
      i := i + 1;
    }
    assert batch[i..] == [] && log + [] == log;
  }

  method TrimInPlace(s0: Subscription) returns (s: Subscription)
    ensures s == Trim(s0)
  {
    s := s0;
    while Oversized(s) && s.events != []
      invariant Trim(s) == Trim(s0)
      decreases |s.events|
    {
      s := PopFront(s);
    }
  }

  /** Collects the events after a cursor that fit the request. */
  method CollectWindow(events: seq<Retained>, after: nat, maxEvents: nat, maxBytes: nat)
    returns (window: seq<Retained>)
    ensures window == Window(events, after, maxEvents, maxBytes)
  {
    window := [];
    var used, i := 0, 0;
    while i < |events|
      invariant 0 <= i <= |events| && |window| <= maxEvents && used <= maxBytes
      invariant window + Window(events[i..], after, maxEvents - |window|, maxBytes - used)
        == Window(events, after, maxEvents, maxBytes)
    {
      assert events[i..][1..] == events[i + 1..];
      if events[i].event.sequence > after {
        if |window| >= maxEvents || used + events[i].bytes > maxBytes { return; }
        used := used + events[i].bytes;
        window := window + [events[i]];
      }
      i := i + 1;
    }
  }

  class WatchRegistry {
    var subscriptions: map<string, Subscription>
    var tombstones: map<string, WatchTombstone>
    var order: seq<string>
    /** Everything ever appended, for every subscription ever opened. */
    ghost var logs: map<string, seq<Retained>>

    ghost predicate Valid()
      reads this
    {
      && |subscriptions| <= MAX_WATCH_SUBSCRIPTIONS && |order| <= MAX_WATCH_TOMBSTONES
      && Listed(order, tombstones)
      && Backed(subscriptions, logs) && Buried(tombstones, subscriptions, logs)
    }

    twostate predicate Onward()
      reads this
    {
      LogsGrow(old(logs), logs) && NoneRevived(old(logs), old(subscriptions), subscriptions)
    }

    constructor ()
      ensures Valid() && subscriptions == map[] && logs == map[]
    {
      subscriptions, tombstones, order, logs := map[], map[], [], map[];
    }

    /** Ends a subscription; its tombstone remembers why and for whom. */
    method Remove(id: string, reason: ResyncReason, now: nat)
      requires Valid()
      modifies this`subscriptions, this`tombstones, this`order
      ensures Valid() && Onward() && subscriptions == old(subscriptions) - {id}
      ensures id in old(subscriptions) ==>
        && id in tombstones && order == RecentEnd(old(order) + [id])
        && tombstones[id] == WatchTombstone(old(subscriptions)[id].binding, reason, now + WATCH_TOMBSTONE_TTL)
    {
      hide Backed, Listed, LogsGrow;
      LogsStay(logs);
      if id !in subscriptions {
        assert subscriptions - {id} == subscriptions;
        return;
      }
      var t := WatchTombstone(subscriptions[id].binding, reason, now + WATCH_TOMBSTONE_TTL);
      RemoveOne(subscriptions, tombstones, logs, id, t);
      ListedPush(order, tombstones, id, t);
      subscriptions := subscriptions - {id};
      assert (order + [id])[|order|] == id;
      order, tombstones := DropExcess(order + [id], tombstones[id := t]);
    }

    method ExpireSubscriptions(now: nat)
      requires Valid()
      modifies this`subscriptions, this`tombstones, this`order
      ensures Valid() && Onward()
      ensures forall id :: id in subscriptions <==> id in old(subscriptions) && old(subscriptions)[id].expiresAt > now
      ensures forall id :: id in subscriptions ==> subscriptions[id] == old(subscriptions)[id]
    {
      hide Backed, Listed, LogsGrow, Buried;
      LogsStay(logs);
      var left := set id | id in subscriptions && subscriptions[id].expiresAt <= now;
      while left != {}
        invariant Valid() && Onward()
        invariant left == set id | id in subscriptions && subscriptions[id].expiresAt <= now
        invariant forall id :: id in old(subscriptions) && old(subscriptions)[id].expiresAt > now ==>
          id in subscriptions
        invariant forall id :: id in subscriptions ==>
          id in old(subscriptions) && subscriptions[id] == old(subscriptions)[id]
        decreases |left|
      {
        var id :| id in left;
        Remove(id, SubscriptionExpired, now);
        left := left - {id};
      }
      forall id | id in subscriptions ensures subscriptions[id].expiresAt > now {
        assert id !in left;
      }
    }

    method Expire(now: nat)
      requires Valid()
      modifies this`subscriptions, this`tombstones, this`order
      ensures Valid() && Onward()
      ensures forall id :: id in subscriptions <==> id in old(subscriptions) && old(subscriptions)[id].expiresAt > now
      ensures forall id :: id in subscriptions ==> subscriptions[id] == old(subscriptions)[id]
      ensures order != [] ==> order[0] in tombstones && tombstones[order[0]].retainedUntil > now
    {
      hide Backed, Listed, LogsGrow;
      ExpireSubscriptions(now);
      order, tombstones := DropLapsed(order, tombstones, now);
    }

    /** Subscription ids and cursors are fresh, as UUIDs are. */
    method Open(id: string, binding: string, cursor: Cursor, ttl: nat, now: nat) returns (ok: bool)
      requires Valid() && id !in logs
      modifies this
      ensures Valid() && Onward()
      ensures ok ==> id in subscriptions && id in logs && logs[id] == []
      ensures ok ==> subscriptions[id] == Opened(binding, now + ttl, cursor)
      ensures !ok ==> |subscriptions| == MAX_WATCH_SUBSCRIPTIONS && logs == old(logs)
    {
      hide SubInv, Backed, Listed, Buried;
      Expire(now);
      if |subscriptions| >= MAX_WATCH_SUBSCRIPTIONS { return false; }
      OpenedInv(binding, now + ttl, cursor);
      OpenOne(subscriptions, tombstones, logs, id, Opened(binding, now + ttl, cursor));
      subscriptions := subscriptions[id := Opened(binding, now + ttl, cursor)];
      logs := logs[id := []];
      ok := true;
    }

    /** What a poll of a subscription that is gone is told. */
    method ResyncFor(id: string, binding: string) returns (reply: PollReply)
      requires Valid() && id !in subscriptions
      ensures reply.FullResync? || (reply.BindingMismatch? && id in tombstones && tombstones[id].binding != binding)
    {
      if id in tombstones {
        if tombstones[id].binding != binding { return BindingMismatch; }
        return FullResync(tombstones[id].reason);
      }
      reply := FullResync(CursorInvalid);
    }

    /** Answers from one live subscription, ending it when the cursor cannot be served. */
    method PollResponse(id: string, cursor: Cursor, maxEvents: nat, maxBytes: nat, now: nat)
      returns (reply: PollReply)
      requires Valid() && id in subscriptions
      modifies this`subscriptions, this`tombstones, this`order
      ensures Valid() && Onward()
      ensures reply == PollOf(old(subscriptions)[id], cursor, maxEvents, maxBytes)
      ensures reply.Current? ==> subscriptions == old(subscriptions)
      ensures reply.FullResync? ==> subscriptions == old(subscriptions) - {id}
    {
      hide SubInv, Listed, Backed, Buried, Window;
      var s := subscriptions[id];
      if cursor !in s.cursors {
        Remove(id, CursorInvalid, now);
        return FullResync(CursorInvalid);
      }
      var after := s.cursors[cursor];
      var first := if s.events == [] then None else Some(s.events[0].event.sequence);
      if first.Some? && after + 1 < first.value {
        Remove(id, RetentionLost, now);
        return FullResync(RetentionLost);
      }
      var window := CollectWindow(s.events, after, maxEvents, maxBytes);
      reply := Current(EventsOf(window), if window == [] then cursor else window[|window| - 1].cursor, first, s.next);
    }

    /**
     A whole poll: expire, take in the watcher's batch, answer. A Current answer carries exactly the
     events between the request's cursor and the one returned, out of everything ever appended.
     */
    method FinishPoll(id: string, binding: string, cursor: Cursor, maxEvents: nat, maxBytes: nat,
                      batch: seq<Pending>, names: seq<Cursor>, failure: Option<ResyncReason>, now: nat)
      returns (reply: PollReply)
      requires Valid() && |batch| == |names|
      requires id in subscriptions ==> FreshNames(subscriptions[id].cursors, names)
      modifies this
      ensures Valid() && Onward()
      ensures id !in old(subscriptions) || old(subscriptions)[id].expiresAt <= now ==> !reply.Current?
      ensures id in old(subscriptions) && LiveFor(old(subscriptions)[id], binding, now) && failure.None? ==>
        var after := Appended(old(subscriptions)[id], batch, names);
        reply == if after.Some? then PollOf(after.value, cursor, maxEvents, maxBytes) else FullResync(Overflow)
      ensures reply.FullResync? ==> id !in subscriptions
      ensures reply.Current? ==>
        && id in subscriptions && cursor in subscriptions[id].cursors && reply.cursor in subscriptions[id].cursors
        && logs[id] == old(logs)[id] + Numbering(batch, names, old(subscriptions)[id].next)
        && subscriptions[id].cursors[cursor] <= subscriptions[id].cursors[reply.cursor] <= |logs[id]|
        && EventsOf(logs[id][..subscriptions[id].cursors[reply.cursor]])
           == EventsOf(logs[id][..subscriptions[id].cursors[cursor]]) + reply.events
    {
      hide SubInv, FreshNames, PollOf, Appended, Numbering, Listed, Buried;
      Expire(now);
      if id !in subscriptions {
        reply := ResyncFor(id, binding);
        return;
      }
      if subscriptions[id].binding != binding { return BindingMismatch; }
      if failure.Some? {
        Remove(id, failure.value, now);
        return FullResync(failure.value);
      }
      var ok := Append(id, batch, names);
      if !ok {
        Remove(id, Overflow, now);
        return FullResync(Overflow);
      }
      ghost var s, log := subscriptions[id], logs[id];
      reply := PollResponse(id, cursor, maxEvents, maxBytes, now);
      if reply.Current? { PollIsGapless(s, log, cursor, maxEvents, maxBytes); }
    }

    method Append(id: string, batch: seq<Pending>, names: seq<Cursor>) returns (ok: bool)
      requires Valid() && |batch| == |names| && id in subscriptions && FreshNames(subscriptions[id].cursors, names)
      modifies this`subscriptions, this`logs
      ensures Valid() && Onward() && subscriptions.Keys == old(subscriptions).Keys
      ensures ok <==> Appended(old(subscriptions)[id], batch, names).Some?
      ensures ok ==> subscriptions == old(subscriptions)[id := Appended(old(subscriptions)[id], batch, names).value]
      ensures ok ==> logs == old(logs)[id := old(logs)[id] + Numbering(batch, names, old(subscriptions)[id].next)]
    {
      hide SubInv, FreshNames, Appended, Numbering, Listed, Buried, LogsGrow;
      var s;
      ghost var log;
      s, ok, log := AppendBatch(subscriptions[id], batch, names, logs[id]);
      AppendOne(subscriptions, tombstones, logs, id, s, log);
      subscriptions := subscriptions[id := s];
      logs := logs[id := log];
    }
  }
}
