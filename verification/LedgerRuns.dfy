/** What holds over every run of the ledger, from its creation onward. */
module LedgerRuns {
  import opened Wrappers
  import opened Sums
  import opened ProgressLog
  import opened LedgerTypes
  import opened LedgerSteps

  ghost predicate IsRun(c: Costs, states: seq<World>, events: seq<Event>) {
    && |states| == |events| + 1
    && states[0] == EMPTY
    && forall i :: 0 <= i < |events| ==> Step(c, states[i], events[i], states[i + 1])
  }

  lemma {:induction false} EmptyInv()
    ensures Inv(EMPTY)
  {
  }

  /** Every state of every run satisfies the invariant. */
  lemma {:induction false} RunInv(c: Costs, states: seq<World>, events: seq<Event>, i: nat)
    requires IsRun(c, states, events) && i < |states|
    ensures Inv(states[i])
  {
    hide Inv, Step;
    if i == 0 {
      EmptyInv();
    } else {
      RunInv(c, states, events, i - 1);
      StepKeepsInv(c, states[i - 1], events[i - 1], states[i]);
    }
  }

  lemma {:induction false} ExtendRun(c: Costs, states: seq<World>, events: seq<Event>, e: Event, w: World)
    requires IsRun(c, states, events) && Step(c, states[|states| - 1], e, w)
    ensures IsRun(c, states + [w], events + [e])
  {
    hide Step;
    forall i | 0 <= i < |events + [e]| ensures Step(c, (states + [w])[i], (events + [e])[i], (states + [w])[i + 1]) {
      if i < |events| {
        assert Step(c, states[i], events[i], states[i + 1]);
      }
    }
  }

  // --- History only grows ---

  ghost predicate PastGrows(p: Past, q: Past) {
    && (p.invocation.Some? ==> q.invocation == p.invocation)
    && (p.settled.Some? ==> q.settled == p.settled)
    && p.accepted <= q.accepted
  }

  ghost predicate PastsGrow(p: Pasts, q: Pasts) {
    forall id :: id in p ==> id in q && PastGrows(p[id], q[id])
  }

  lemma {:induction false} OnePastGrows(past: Pasts, id: Id, p: Past)
    requires id in past ==> PastGrows(past[id], p)
    ensures PastsGrow(past, past[id := p])
  {
  }

  lemma {:induction false} SettleDoneGrowsPast(w: World, id: Id)
    requires RecordsInv(w.records, w.past, w.finishing) && IsFinishing(w, id)
    ensures PastsGrow(w.past, EndSettle(w, id).past)
  {
    assert RecordInv(w.records[id], w.past[id], true);
    OnePastGrows(w.past, id, EndSettle(w, id).past[id]);
  }

  lemma {:induction false} StartGrowsPast(c: Costs, w: World, id: Id, invocation: Id, host: string, now: nat)
    requires RecordsInv(w.records, w.past, w.finishing) && CanStart(w, id, invocation, host, now)
    ensures w.past[id].invocation.None? && PastsGrow(w.past, BeginRun(c, w, id, invocation).past)
  {
    hide FindTombstone;
    assert RecordInv(w.records[id], w.past[id], false);
    OnePastGrows(w.past, id, BeginRun(c, w, id, invocation).past[id]);
  }

  lemma {:induction false} StepGrowsPast(c: Costs, w: World, e: Event, w': World)
    requires RecordsInv(w.records, w.past, w.finishing) && Step(c, w, e, w')
    ensures PastsGrow(w.past, w'.past)
  {
    hide RecordsInv, FindTombstone, LogInv, BeginRun, EndSettle, PastsGrow, Justified;
    if OnTokens(e) {
      TokensFrame(c, w, e, w');
      SamePastGrows(w.past);
    } else if OnRecord(e) {
      RecordStepGrowsPast(c, w, e, w');
    } else {
      OthersFrame(c, w, e, w');
      if e.Committed? || e.LeaseDropped? { OtherGrowsPast(c, w, e, w'); } else { SamePastGrows(w.past); }
    }
  }

  lemma {:induction false} OtherGrowsPast(c: Costs, w: World, e: Event, w': World)
    requires Step(c, w, e, w') && (e.Committed? || e.LeaseDropped?)
    ensures PastsGrow(w.past, w'.past)
  {
    hide PastsGrow, Justified, NewRecord, SatSub;
    OnePastGrows(w.past, e.id, w'.past[e.id]);
  }

  lemma {:induction false} RecordStepGrowsPast(c: Costs, w: World, e: Event, w': World)
    requires RecordsInv(w.records, w.past, w.finishing) && Step(c, w, e, w') && OnRecord(e)
    ensures PastsGrow(w.past, w'.past)
  {
    hide RecordsInv, FindTombstone, ReplyTo, LogInv, BeginRun, EndSettle, PastsGrow, Justified;
    if e.Started? {
      StartGrowsPast(c, w, e.id, e.invocation, e.host, e.now);
    } else if e.SettleDone? {
      SettleDoneGrowsPast(w, e.id);
    } else {
      hide Step;
      RecordPastFrame(c, w, e, w');
      OnePastGrows(w.past, e.id, w'.past[e.id]);
    }
  }

  lemma {:induction false} SamePastGrows(past: Pasts)
    ensures PastsGrow(past, past)
  {
  }

  lemma {:induction false} RunGrowsPast(c: Costs, states: seq<World>, events: seq<Event>, i: nat, j: nat)
    requires IsRun(c, states, events) && i <= j < |states|
    ensures PastsGrow(states[i].past, states[j].past)
  {
    hide Step, LogInv, RecordInv;
    if i < j {
      RunGrowsPast(c, states, events, i, j - 1);
      RunInv(c, states, events, j - 1);
      StepGrowsPast(c, states[j - 1], events[j - 1], states[j]);
    }
  }

  // --- At most one execution ---

  lemma {:induction false} StartIsFirst(c: Costs, w: World, e: Event, w': World)
    requires RecordsInv(w.records, w.past, w.finishing) && Step(c, w, e, w') && e.Started?
    ensures e.id in w.past && w.past[e.id].invocation.None?
    ensures e.id in w'.past && w'.past[e.id].invocation == Some(e.invocation)
  {
    hide FindTombstone;
    assert RecordInv(w.records[e.id], w.past[e.id], false);
  }

  /** Over every run each preparation id yields at most one start. */
  lemma {:induction false} AtMostOneStart(c: Costs, states: seq<World>, events: seq<Event>, i: nat, j: nat)
    requires IsRun(c, states, events) && i < j < |events|
    requires events[i].Started? && events[j].Started?
    ensures events[i].id != events[j].id
  {
    hide Step, LogInv, RecordInv;
    RunInv(c, states, events, i);
    RunInv(c, states, events, j);
    StartIsFirst(c, states[i], events[i], states[i + 1]);
    StartIsFirst(c, states[j], events[j], states[j + 1]);
    RunGrowsPast(c, states, events, i + 1, j);
  }

  lemma {:induction false} ReplyIsTruthful(c: Costs, w: World, e: Event, w': World)
    requires Step(c, w, e, w') && e.Replied?
    ensures w.finishing.None? && e.reply == ReplyTo(w.records, w.tombstones, e.id, e.invocation, e.host, e.now)
    ensures !e.reply.ReplyStart?
  {
  }

  /** What any answer to `begin` reveals about the preparation's past. */
  lemma {:induction false} ReplyTellsThePast(w: World, id: Id, invocation: Id, host: string, now: nat)
    requires RecordsInv(w.records, w.past, w.finishing) && w.finishing.None?
    requires TombstonesInv(w.tombstones, w.records, w.past)
    ensures var reply := ReplyTo(w.records, w.tombstones, id, invocation, host, now);
      && !reply.ReplyInternal?
      && (reply.ReplyRunning? ==>
            id in w.past && w.past[id].invocation == Some(invocation) && w.past[id].settled.None?)
      && (reply.ReplyTerminal? ==>
            id in w.past && w.past[id].invocation == Some(invocation)
            && w.past[id].settled == Some(reply.settlement))
      && (reply.ReplyExpired? || reply.ReplyStart? ==> id in w.past && w.past[id].invocation.None?)
      && (reply.ReplyForgotten? && id in w.past && w.past[id].invocation.Some? ==>
            w.past[id].invocation == Some(invocation))
      && (reply.ReplyInvocationMismatch? ==>
            id in w.past && w.past[id].invocation.Some? && w.past[id].invocation != Some(invocation))
  {
    if id in w.records {
      assert RecordInv(w.records[id], w.past[id], false);
    } else if FindTombstone(w.tombstones, id).Some? {
      var i :| 0 <= i < |w.tombstones| && w.tombstones[i] == FindTombstone(w.tombstones, id).value;
      assert TombstoneInv(w.tombstones[i], w.records, w.past);
    }
  }

  /** The record is bound to this invocation, for requests from this host. */
  predicate BoundTo(w: World, id: Id, invocation: Id, host: string) {
    id in w.records && w.records[id].invocation == Some(invocation) && w.records[id].host == host
  }

  /** Only forgetting takes a started record away or out of its invocation's hands. */
  lemma {:induction false} StepKeepsBound(
      c: Costs, w: World, e: Event, w': World, id: Id, invocation: Id, host: string)
    requires RecordsInv(w.records, w.past, w.finishing) && Step(c, w, e, w') && BoundTo(w, id, invocation, host)
    requires !(e.Forgot? && e.id == id)
    ensures BoundTo(w', id, invocation, host)
  {
    hide FindTombstone, Justified;
    assert RecordInv(w.records[id], w.past[id], w.finishing == Some(id));
    hide RecordsInv;
    if OnTokens(e) {
      hide Step;
      TokensFrame(c, w, e, w');
    } else if OnRecord(e) {
      hide Step;
      RecordFrame(c, w, e, w');
      if e.id == id { RecordStaysBound(c, w, e, w'); }
    } else {
      OthersFrame(c, w, e, w');
    }
  }

  lemma {:induction false} StartBinds(c: Costs, w: World, e: Event, w': World)
    requires Step(c, w, e, w') && e.Started?
    ensures BoundTo(w', e.id, e.invocation, e.host)
  {
    hide FindTombstone, Justified;
  }

  ghost predicate NotForgotten(events: seq<Event>, i: nat, j: nat, id: Id) {
    forall k :: i < k < j && k < |events| ==> !(events[k].Forgot? && events[k].id == id)
  }

  lemma {:induction false} BoundUntilForgotten(c: Costs, states: seq<World>, events: seq<Event>, i: nat, j: nat)
    requires IsRun(c, states, events) && i < j < |states| && events[i].Started?
    requires NotForgotten(events, i, j, events[i].id)
    ensures BoundTo(states[j], events[i].id, events[i].invocation, events[i].host)
  {
    hide Step, LogInv, RecordInv, TombstoneInv, TokensConserved, WithinLimits, BoundTo;
    if j == i + 1 {
      StartBinds(c, states[i], events[i], states[j]);
    } else {
      BoundUntilForgotten(c, states, events, i, j - 1);
      RunInv(c, states, events, j - 1);
      StepKeepsBound(
        c, states[j - 1], events[j - 1], states[j], events[i].id, events[i].invocation, events[i].host);
    }
  }

  lemma {:induction false} BoundReply(w: World, id: Id, invocation: Id, host: string, other: Id, now: nat)
    requires RecordsInv(w.records, w.past, w.finishing) && w.finishing.None? && BoundTo(w, id, invocation, host)
    ensures id in w.past
    ensures ReplyTo(w.records, w.tombstones, id, other, host, now)
      == if other != invocation then ReplyInvocationMismatch
         else if w.past[id].settled.None? then ReplyRunning
         else ReplyTerminal(w.past[id].settled.value)
  {
    hide FindTombstone;
    assert RecordInv(w.records[id], w.past[id], false);
  }

  /**
   Once an invocation has started, every later `begin` for that preparation either names the same
   invocation and sees it running, settled or forgotten, or is refused. Until the record is forgotten the
   answer is exact: running until it is settled and from then on how it settled, a mismatch for every other
   invocation.
   */
  lemma {:induction false} StartedIsBound(c: Costs, states: seq<World>, events: seq<Event>, i: nat, j: nat)
    requires IsRun(c, states, events) && i < j < |events|
    requires events[i].Started? && events[j].Replied? && events[j].id == events[i].id
    ensures var reply := events[j].reply;
      if events[j].invocation == events[i].invocation then
        reply.ReplyRunning? || reply.ReplyTerminal? || reply.ReplyForgotten? || reply.ReplyNotFound?
        || reply.ReplyBindingMismatch?
      else
        reply.ReplyInvocationMismatch? || reply.ReplyNotFound? || reply.ReplyBindingMismatch?
    ensures events[i].id in states[j].past
    ensures NotForgotten(events, i, j, events[i].id) && events[j].host == events[i].host ==>
      var settled := states[j].past[events[i].id].settled;
      events[j].reply == if events[j].invocation != events[i].invocation then ReplyInvocationMismatch
                         else if settled.None? then ReplyRunning
                         else ReplyTerminal(settled.value)
  {
    hide Step, LogInv, RecordInv, TombstoneInv, TokensConserved, WithinLimits, ReplyTo, NotForgotten, BoundTo;
    RunInv(c, states, events, i);
    RunInv(c, states, events, j);
    StartIsFirst(c, states[i], events[i], states[i + 1]);
    RunGrowsPast(c, states, events, i + 1, j);
    var d, e := events[i], events[j];
    ReplyIsTruthful(c, states[j], e, states[j + 1]);
    ReplyTellsThePast(states[j], e.id, e.invocation, e.host, e.now);
    if NotForgotten(events, i, j, d.id) && e.host == d.host {
      BoundUntilForgotten(c, states, events, i, j);
      BoundReply(states[j], d.id, d.invocation, d.host, e.invocation, e.now);
    }
  }

  /** Terminal answers never change, and nothing is reported running again after one. */
  lemma {:induction false} TerminalAnswersAgree(c: Costs, states: seq<World>, events: seq<Event>, i: nat, j: nat)
    requires IsRun(c, states, events) && i < j < |events|
    requires events[i].Replied? && events[j].Replied? && events[j].id == events[i].id
    requires events[i].reply.ReplyTerminal?
    ensures !events[j].reply.ReplyRunning? && !events[j].reply.ReplyExpired?
    ensures events[j].reply.ReplyTerminal? ==>
      events[j].invocation == events[i].invocation && events[j].reply == events[i].reply
  {
    hide Step, LogInv, RecordInv, TombstoneInv, TokensConserved, WithinLimits, ReplyTo;
    RunInv(c, states, events, i);
    RunInv(c, states, events, j);
    RunGrowsPast(c, states, events, i, j);
    var d, e := events[i], events[j];
    ReplyIsTruthful(c, states[i], d, states[i + 1]);
    ReplyIsTruthful(c, states[j], e, states[j + 1]);
    ReplyTellsThePast(states[i], d.id, d.invocation, d.host, d.now);
    ReplyTellsThePast(states[j], e.id, e.invocation, e.host, e.now);
  }

  /** A `begin` that has just pruned never answers Expired or Internal. */
  lemma {:induction false} PrunedBeginNeverExpires(w: World, id: Id, invocation: Id, host: string, now: nat)
    requires RecordsInv(w.records, w.past, w.finishing) && w.finishing.None?
    requires forall k :: k in w.records ==> !Expired(w.records[k], now)
    ensures !ReplyTo(w.records, w.tombstones, id, invocation, host, now).ReplyExpired?
    ensures !ReplyTo(w.records, w.tombstones, id, invocation, host, now).ReplyInternal?
  {
    hide FindTombstone;
    if id in w.records { assert RecordInv(w.records[id], w.past[id], false); }
  }

  // --- Tokens ---

  /** Every running record owns a live lease, so with no live lease nothing runs and nothing is charged. */
  lemma {:induction false} NoLeaseNothingRuns(w: World)
    requires Inv(w) && (forall id :: id in w.past ==> w.past[id].lease.None?)
    ensures forall id :: id in w.records ==> !w.records[id].state.Running?
    ensures w.counters.runningBytes == 0
  {
    hide LogInv;
    forall id | id in w.records ensures !w.records[id].state.Running? {
      assert RecordInv(w.records[id], w.past[id], w.finishing == Some(id));
    }
    assert Leases(w.past) == map[];
  }

  // --- What is given up, and in which order ---

  /**
   Nothing is evicted within the ceiling. Over it, progress goes first and from the oldest record that has any; a
   settled record goes only when no progress is left, the longest settled first; the outcome just recorded only
   when no other settled record is left; and a tombstone unnoted only when that outcome is gone as well.
   */
  lemma {:induction false} GivenUpInOrder(c: Costs, states: seq<World>, events: seq<Event>, i: nat)
    requires IsRun(c, states, events) && i < |events|
    ensures var w, e := states[i], events[i];
      && (e.ProgressDropped? ==> OverCeiling(c, w) && EarliestIn(ByCreation(w.records), e.id))
      && (e.Forgot? && e.state.Indeterminate? ==>
            && OverCeiling(c, w) && NoProgressLeft(w.records) && w.finishing.Some?
            && EarliestIn(ByTermination(w.records, w.finishing.value), e.id))
      && (e.Stripped? ==> OverCeiling(c, w) && NothingElse(w.records, e.id))
      && (e.TombstoneDropped? && !e.noted ==>
            && OverCeiling(c, w) && w.finishing.Some? && w.finishing.value in w.records
            && NothingElse(w.records, w.finishing.value) && w.records[w.finishing.value].outcome.None?)
  {
    assert Step(c, states[i], events[i], states[i + 1]);
  }

  // --- Progress ---

  /**
   In every state of every run, a record's retained progress is a suffix of all it accepted, in
   increasing order below the next sequence, and a gap is reported exactly when something is missing.
   */
  lemma {:induction false} ProgressOverRuns(c: Costs, states: seq<World>, events: seq<Event>, i: nat, id: Id)
    requires IsRun(c, states, events) && i < |states| && id in states[i].records
    ensures id in states[i].past
    ensures var l, accepted := states[i].records[id].log, states[i].past[id].accepted;
      && IsSuffix(l.events, accepted)
      && Increasing(l.events)
      && (forall k :: 0 <= k < |l.events| ==> 1 <= l.events[k].sequence < l.next)
      && (!l.gap <==> |l.events| == l.next - 1 && Contiguous(l.events))
  {
    RunInv(c, states, events, i);
    assert id in states[i].past by { hide LogInv, RecordInv; }
    LogIsOrdered(states[i].records[id].log, states[i].past[id].accepted) by {
      hide LogInv;
    }
  }

  lemma {:induction false} LogIsOrdered(l: Log, accepted: seq<ProgressEvent>)
    requires LogInv(l, accepted)
    ensures IsSuffix(l.events, accepted)
    ensures Increasing(l.events)
    ensures forall k :: 0 <= k < |l.events| ==> 1 <= l.events[k].sequence < l.next
    ensures !l.gap <==> |l.events| == l.next - 1 && Contiguous(l.events)
  {
    GapMeansLoss(l, accepted);
    var n := |accepted| - |l.events|;
    forall k | 0 <= k < |l.events| ensures 1 <= l.events[k].sequence < l.next {
      assert l.events[k] == accepted[n + k];
      IncreasingIsAtLeastItsIndex(accepted, n + k);
      if n + k < |accepted| - 1 { assert accepted[n + k].sequence < accepted[|accepted| - 1].sequence; }
    }
    forall i, j | 0 <= i < j < |l.events| ensures l.events[i].sequence < l.events[j].sequence {
      assert accepted[n + i].sequence < accepted[n + j].sequence;
    }
  }
}
