/** What holds over every run of the journal, whatever crashes, failures and interleavings it contains. */
module JournalRuns {
  import opened Wrappers
  import opened JournalSteps
  import opened JournalSafety

  ghost predicate IsRun(states: seq<World>, events: seq<Event>) {
    && |states| == |events| + 1 && states[0] == FRESH
    && forall i :: 0 <= i < |events| ==> Step(states[i], events[i], states[i + 1])
  }

  lemma {:induction false} FreshInv()
    ensures Inv(FRESH)
  {
    forall id, v | Holds(FRESH, id, v) ensures v == None { }
  }

  lemma {:induction false} RunInv(states: seq<World>, events: seq<Event>, i: nat)
    requires IsRun(states, events) && i < |states|
    ensures Inv(states[i])
  {
    hide Inv, Step;
    if i == 0 {
      FreshInv();
    } else {
      RunInv(states, events, i - 1);
      StepKeepsInv(states[i - 1], events[i - 1], states[i]);
    }
  }

  lemma {:induction false} ExtendRun(states: seq<World>, events: seq<Event>, e: Event, w: World)
    requires IsRun(states, events) && Step(states[|states| - 1], e, w)
    ensures IsRun(states + [w], events + [e])
  {
    hide Step;
    forall i | 0 <= i < |events + [e]|
      ensures Step((states + [w])[i], (events + [e])[i], (states + [w])[i + 1])
    {
      if i < |events| { assert Step(states[i], events[i], states[i + 1]); }
    }
  }

  // --- Crash consistency ---

  /**
   Whatever value a record has, or would have after a crash at this very point: Completed means the
   effect took place, Cancelled and Failed mean it did not, Prepared means it was never admitted.
   */
  lemma {:induction false} EveryValueIsHonest(states: seq<World>, events: seq<Event>, i: nat, id: Id, r: Rec)
    requires IsRun(states, events) && i < |states| && Holds(states[i], id, Some(r))
    ensures var key, fx := Key(id, r.generation), states[i].fx;
      && (r.state.Completed? ==> key in fx.happened)
      && (r.state.Cancelled? || r.state.Failed? ==> key !in fx.happened)
      && (r.state.Prepared? ==> key !in fx.started)
  {
    hide IsRun, Step, Holds;
    RunInv(states, events, i);
  }

  /** The effect of this reservation has not happened and can no longer happen. */
  ghost predicate Ruled(w: World, key: Key) {
    && key !in w.fx.happened && key !in w.fx.inFlight && key.generation < w.fx.next
    && forall v :: Holds(w, key.id, v) && v.Some? && v.value.generation == key.generation ==> !v.value.state.Prepared?
  }

  lemma {:induction false} ReportedIsRuled(w: World, id: Id)
    requires Inv(w) && w.process.Up? && id in w.process.records
    requires w.process.records[id].state in {Cancelled, Failed}
    ensures Ruled(w, Key(id, w.process.records[id].generation))
  {
    assert Holds(w, id, Some(w.process.records[id]));
    assert Fits(w.fx, id, Some(w.process.records[id]));
    hide Holds, Fits, Fenced;
  }

  /** A Prepared value is either there already or belongs to a reservation made by this step. */
  lemma {:induction false} NoNewPrepared(w: World, e: Event, w': World, id: Id, v: Option<Rec>)
    requires Inv(w) && Step(w, e, w') && Holds(w', id, v) && v.Some? && v.value.state.Prepared?
    ensures v.value.generation >= w.fx.next
      || exists u :: Holds(w, id, u) && u.Some? && u.value.state.Prepared? && u.value.generation == v.value.generation
  {
    hide ValuesFit, NoWayBack, EffectsInv, ObjectsInv, DiskInv;
    if e.PutSync? {
      SyncedValues(w, w', id, v);
      assert Holds(w, id, v);
    } else if e.RecordBegin? {
      var u := Some(w.process.records[e.id]);
      assert Holds(w, e.id, u);
    } else if e.SettleBegin? {
      SettledIsNotPrepared(w, e.obj);
      assert Holds(w, id, v);
    } else if !Holds(w, id, v) {
      NewValues(w, e, w', id, v);
    }
  }

  lemma {:induction false} SettledIsNotPrepared(w: World, o: nat)
    requires Inv(w) && o in w.objects && w.objects[o].Settling?
    ensures !w.objects[o].rec.state.Prepared?
  {
    hide ValuesFit, NoWayBack, DiskInv, PutInv, EffectsInv;
    assert w.process.Up? ==> StageInv(w.process.records, w.fx, w.objects[o]);
  }

  predicate TouchesDisk(e: Event) {
    e.PruneUnlink? || e.PruneSync? || e.PutCreate? || e.PutWrite? || e.PutRename? || e.PutFail? || e.Crash?
  }

  lemma {:induction false} DiskStepsInventNothing(w: World, e: Event, w': World, id: Id, v: Option<Rec>)
    requires Step(w, e, w') && TouchesDisk(e) && Holds(w', id, v) && v.Some?
    ensures Holds(w, id, v)
  {
    if v in Possible(w'.disk, id) && e.PruneSync? { CertainHolds(w.disk, id, v); }
    if e.Crash? {
      assert v == Get(w'.disk.shown, id);
    }
  }

  /** The only record a step makes up is the one it begins to write. */
  lemma {:induction false} NewValues(w: World, e: Event, w': World, id: Id, v: Option<Rec>)
    requires Inv(w) && Step(w, e, w') && Holds(w', id, v) && v.Some? && !Holds(w, id, v) && !e.PutSync?
    ensures w.put.None? && w'.put.Some? && id == w'.put.value.id && v == Some(w'.put.value.rec)
  {
    hide Inv;
    if TouchesDisk(e) {
      DiskStepsInventNothing(w, e, w', id, v);
    } else {
      hide Recovered, Settled, CanOpen, Truthful;
    }
  }

  lemma {:induction false} StepKeepsRuled(w: World, e: Event, w': World, key: Key)
    requires Inv(w) && Step(w, e, w') && Ruled(w, key)
    ensures Ruled(w', key)
  {
    forall v | Holds(w', key.id, v) && v.Some? && v.value.generation == key.generation
      ensures !v.value.state.Prepared?
    {
      if v.value.state.Prepared? {
        NoNewPrepared(w, e, w', key.id, v);
      }
    }
    assert key !in w'.fx.inFlight by {
      if e.PutSync? && w.put.value.caller.ForFence? {
        PutSyncEffects(w, w');
        var p := w.put.value;
        assert Holds(w, p.id, Some(w.process.records[p.id]));
      } else {
        hide ValuesFit, NoWayBack, EffectsInv, ObjectsInv, DiskInv, Holds;
      }
    }
  }

  lemma {:induction false} RuledForever(states: seq<World>, events: seq<Event>, i: nat, j: nat, key: Key)
    requires IsRun(states, events) && i <= j < |states| && Ruled(states[i], key)
    ensures Ruled(states[j], key)
  {
    hide Inv, Step, Ruled;
    if i < j {
      RuledForever(states, events, i, j - 1, key);
      RunInv(states, events, j - 1);
      StepKeepsRuled(states[j - 1], events[j - 1], states[j], key);
    }
  }

  /** A reported Cancelled or Failed is final: through every later crash or retry the effect never happens. */
  lemma {:induction false} CleanReportIsFinal(states: seq<World>, events: seq<Event>, i: nat, j: nat, id: Id)
    requires IsRun(states, events) && i <= j < |states|
    requires states[i].process.Up? && id in states[i].process.records
    requires states[i].process.records[id].state in {Cancelled, Failed}
    ensures Key(id, states[i].process.records[id].generation) !in states[j].fx.happened
  {
    hide IsRun, Inv, Step;
    RunInv(states, events, i);
    ReportedIsRuled(states[i], id);
    RuledForever(states, events, i, j, Key(id, states[i].process.records[id].generation));
  }

  /** Once open succeeds, every record says Completed, Failed, Cancelled or Indeterminate. */
  lemma {:induction false} OpenSettlesEverything(states: seq<World>, events: seq<Event>, i: nat, id: Id)
    requires IsRun(states, events) && i < |events| && events[i].OpenDone?
    requires id in states[i + 1].process.records
    ensures states[i + 1].process.records[id].state !in {Prepared, Publishing}
  {
    RunInv(states, events, i);
    assert Step(states[i], events[i], states[i + 1]);
    hide IsRun, ValuesFit, ObjectsInv, PutInv, NoWayBack, EffectsInv;
  }

  // --- The replay fence ---

  /** The step by which an object becomes entitled to run the effect. */
  ghost predicate Starts(w: World, e: Event, key: Key) {
    && e.PutSync? && w.put.Some? && w.put.value.caller.ForFence?
    && key == Key(w.put.value.id, w.put.value.rec.generation)
  }

  ghost predicate Prunes(w: World, e: Event, key: Key) {
    && e.PruneUnlink? && e.id == key.id && !w.process.Down? && key.id in w.process.records
    && w.process.records[key.id].generation == key.generation && Prunable(w.process.records[key.id], e.now)
  }

  lemma {:induction false} StepPrunes(w: World, e: Event, w': World, key: Key)
    requires Inv(w) && Step(w, e, w') && Live(w.fx, key)
    ensures Live(w'.fx, key) || Prunes(w, e, key)
  {
    if e.PutSync? { PutSyncEffects(w, w'); }
    hide Inv, Holds;
  }

  /** A started effect stays fenced until the moment its settled, outdated record is pruned. */
  lemma {:induction false} LiveUntilPruned(states: seq<World>, events: seq<Event>, i: nat, j: nat, key: Key)
    requires IsRun(states, events) && i <= j < |states| && Live(states[i].fx, key)
    ensures Live(states[j].fx, key) || exists k :: i <= k < j && Prunes(states[k], events[k], key)
  {
    hide Inv, Step, Prunes, Live;
    if i < j {
      LiveUntilPruned(states, events, i, j - 1, key);
      if Live(states[j - 1].fx, key) {
        RunInv(states, events, j - 1);
        StepPrunes(states[j - 1], events[j - 1], states[j], key);
      }
    }
  }

  /**
   Between two starts for one publication id, file or directory, the first one's record was pruned,
   settled and a day old. So no crash, reopening or second object makes an effect start twice.
   */
  lemma {:induction false} StartsOnceUntilPruned(
      states: seq<World>, events: seq<Event>, i: nat, j: nat, first: Key, second: Key)
    requires IsRun(states, events) && i < j < |events| && first.id == second.id
    requires Starts(states[i], events[i], first) && Starts(states[j], events[j], second)
    ensures exists k :: i < k < j && Prunes(states[k], events[k], first)
    ensures first.generation != second.generation
  {
    RunInv(states, events, i);
    RunInv(states, events, j);
    assert Step(states[i], events[i], states[i + 1]);
    PutSyncKeepsPruned(states[i], states[i + 1]);
    FenceIsFirst(states[j]);
    LiveUntilPruned(states, events, i + 1, j, first);
    hide Inv, Step, Prunes;
    StartedStays(states, events, i + 1, j, first);
  }

  lemma {:induction false} StartedStays(states: seq<World>, events: seq<Event>, i: nat, j: nat, key: Key)
    requires IsRun(states, events) && i <= j < |states| && key in states[i].fx.started
    ensures key in states[j].fx.started
  {
    hide Step, Inv;
    if i < j {
      StartedStays(states, events, i, j - 1, key);
      StartedGrows(states[j - 1], events[j - 1], states[j]);
    }
  }

  lemma {:induction false} StartedGrows(w: World, e: Event, w': World)
    requires Step(w, e, w')
    ensures w.fx.started <= w'.fx.started && w.fx.happened <= w'.fx.happened
  {
  }

  /** Happened effects stay happened, so a reported Completed stays true. */
  lemma {:induction false} CompletedStaysTrue(states: seq<World>, events: seq<Event>, i: nat, j: nat, id: Id, r: Rec)
    requires IsRun(states, events) && i <= j < |states| && Holds(states[i], id, Some(r)) && r.state.Completed?
    ensures Key(id, r.generation) in states[j].fx.happened
  {
    hide Step, Inv, Holds;
    if i == j {
      EveryValueIsHonest(states, events, i, id, r);
    } else {
      CompletedStaysTrue(states, events, i, j - 1, id, r);
      StartedGrows(states[j - 1], events[j - 1], states[j]);
    }
  }

  // --- Indeterminate is forever ---

  /** Every value of the record is Indeterminate and nobody is left who could settle it. */
  ghost predicate Stuck(w: World, id: Id) {
    && (forall v :: Holds(w, id, v) ==> v.Some? && v.value.state.Indeterminate?)
    && (forall o :: o in w.objects && Executes(w.objects[o]) ==> w.objects[o].id != id)
  }

  /** An Indeterminate record written with no executor left, as recovery does for an interrupted one, is stuck. */
  lemma {:induction false} IndeterminateSticks(w: World, w': World)
    requires Inv(w) && Step(w, PutSync, w') && w.put.value.rec.state.Indeterminate?
    requires forall o :: o in w'.objects && Executes(w'.objects[o]) ==> w'.objects[o].id != w.put.value.id
    ensures Stuck(w', w.put.value.id)
  {
    var p := w.put.value;
    hide Inv, Step, Holds;
    forall v | Holds(w', p.id, v) ensures v.Some? && v.value.state.Indeterminate? {
      SyncedValues(w, w', p.id, v);
    }
  }

  lemma {:induction false} StuckObjects(w: World, e: Event, w': World, id: Id)
    requires Inv(w) && Step(w, e, w') && Stuck(w, id)
    ensures forall o :: o in w'.objects && Executes(w'.objects[o]) ==> w'.objects[o].id != id
  {
    hide ValuesFit, EffectsInv, ObjectsInv, DiskInv, NoWayBack;
    if e.PutSync? && w.put.value.caller.ForFence? {
      assert Holds(w, w.put.value.id, Some(w.process.records[w.put.value.id]));
    }
    hide Holds;
  }

  lemma {:induction false} StuckValues(w: World, e: Event, w': World, id: Id, v: Option<Rec>)
    requires Inv(w) && Step(w, e, w') && Stuck(w, id) && Holds(w', id, v)
    ensures v.Some? && v.value.state.Indeterminate?
  {
    if e.PutSync? {
      SyncedValues(w, w', id, v);
      assert v == Some(w.put.value.rec) && id == w.put.value.id ==> Holds(w, id, v);
    } else if v.None? {
      StuckIsPresent(w, e, w', id);
    } else if !Holds(w, id, v) {
      NewValues(w, e, w', id, v);
      StuckBegins(w, e, w', id);
    }
  }

  lemma {:induction false} StuckBegins(w: World, e: Event, w': World, id: Id)
    requires Step(w, e, w') && Stuck(w, id) && w.put.None? && w'.put.Some? && w'.put.value.id == id
    ensures w'.put.value.rec.state.Indeterminate?
  {
    if w.process.Up? { assert Holds(w, id, Get(w.process.records, id)); }
    if w.process.Opening? && id in w.process.todo { assert Holds(w, id, Some(w.process.todo[id])); }
    hide Holds;
  }

  /** A record is lost to view only by pruning. */
  lemma {:induction false} DiskAbsence(w: World, e: Event, w': World, id: Id)
    requires Step(w, e, w') && TouchesDisk(e) && Holds(w', id, None)
    ensures Holds(w, id, None) || (e.PruneUnlink? && e.id == id)
  {
    if None in Possible(w'.disk, id) && e.PruneSync? { CertainHolds(w.disk, id, None); }
    if e.Crash? {
      assert None == Get(w'.disk.shown, id);
    }
  }

  lemma {:induction false} OtherAbsence(w: World, e: Event, w': World, id: Id)
    requires DiskInv(w) && Step(w, e, w') && !TouchesDisk(e) && !e.PutSync? && Holds(w', id, None)
    ensures Holds(w, id, None)
  {
    hide Recovered, Settled, CanOpen, Truthful;
    if e.OpenDone? {
    } else {
      hide DiskInv;
    }
  }

  lemma {:induction false} StuckIsPresent(w: World, e: Event, w': World, id: Id)
    requires Inv(w) && Step(w, e, w') && Stuck(w, id) && !e.PutSync?
    ensures !Holds(w', id, None)
  {
    hide ValuesFit, EffectsInv, ObjectsInv, NoWayBack, PutInv, DiskInv, Holds;
    if Holds(w', id, None) {
      StuckIsKept(w, e, w', id);
      if TouchesDisk(e) { DiskAbsence(w, e, w', id); } else { OtherAbsence(w, e, w', id); }
    }
  }

  lemma {:induction false} StuckIsKept(w: World, e: Event, w': World, id: Id)
    requires Step(w, e, w') && Stuck(w, id)
    ensures !(e.ReserveBegin? && e.id == id) && !(e.PruneUnlink? && e.id == id)
  {
    assert w.process.Up? ==> Holds(w, id, Get(w.process.records, id));
    assert w.process.Opening? && id in w.process.records ==> Holds(w, id, Some(w.process.records[id]));
    hide Holds;
  }

  lemma {:induction false} StepKeepsStuck(w: World, e: Event, w': World, id: Id)
    requires Inv(w) && Step(w, e, w') && Stuck(w, id)
    ensures Stuck(w', id) && !(e.ReserveBegin? && e.id == id) && !(e.PruneUnlink? && e.id == id)
  {
    hide Inv, Step, Holds;
    StuckObjects(w, e, w', id);
    StuckIsKept(w, e, w', id);
    forall v | Holds(w', id, v) ensures v.Some? && v.value.state.Indeterminate? {
      StuckValues(w, e, w', id, v);
    }
  }

  /** Such an id is never pruned, never reserved again and never started again, in the rest of any run. */
  lemma {:induction false} StuckForever(states: seq<World>, events: seq<Event>, i: nat, j: nat, id: Id)
    requires IsRun(states, events) && i <= j < |states| && Stuck(states[i], id)
    ensures Stuck(states[j], id)
    ensures forall k :: i <= k < j ==>
      && !(events[k].ReserveBegin? && events[k].id == id) && !(events[k].PruneUnlink? && events[k].id == id)
  {
    hide Inv, Step, Stuck;
    if i < j {
      StuckForever(states, events, i, j - 1, id);
      RunInv(states, events, j - 1);
      StepKeepsStuck(states[j - 1], events[j - 1], states[j], id);
    }
  }
}
