/** What every step of the journal keeps: each value a record has, or may come back with, is honest. */
module JournalSafety {
  import opened Wrappers
  import opened JournalSteps

  /** Every value the record of `id` has in memory, on disk, in a put under way, or may have after a crash. */
  ghost predicate Holds(w: World, id: Id, v: Option<Rec>) {
    || v == Get(w.disk.shown, id)
    || v in Possible(w.disk, id)
    || (w.process.Up? && v == Get(w.process.records, id))
    || (w.process.Opening? && v.Some? && (v == Get(w.process.todo, id) || v == Get(w.process.records, id)))
    || (w.put.Some? && w.put.value.id == id && v == Some(w.put.value.rec))
  }

  /** What a record claims about its effect is true of it. */
  ghost predicate Honest(fx: Effects, id: Id, r: Rec) {
    var key := Key(id, r.generation);
    && r.generation < fx.next
    && (r.state.Completed? ==> key in fx.happened)
    && (r.state.Cancelled? || r.state.Failed? ==> key !in fx.happened && key !in fx.inFlight)
    && (r.state.Prepared? ==> key !in fx.started && key !in fx.pruned)
  }

  predicate Live(fx: Effects, key: Key) { key in fx.started && key !in fx.pruned }

  /** While an effect was started and its record not pruned, the record is there, is its own, and is past Prepared. */
  ghost predicate Fenced(fx: Effects, id: Id, v: Option<Rec>) {
    forall g :: Live(fx, Key(id, g)) ==> v.Some? && v.value.generation == g && !v.value.state.Prepared?
  }

  ghost predicate Fits(fx: Effects, id: Id, v: Option<Rec>) {
    (v.Some? ==> Honest(fx, id, v.value)) && Fenced(fx, id, v)
  }

  ghost predicate ValuesFit(w: World) {
    forall id, v :: Holds(w, id, v) ==> Fits(w.fx, id, v)
  }

  ghost predicate EffectsInv(fx: Effects) {
    && fx.inFlight <= fx.started && fx.happened <= fx.started
    && (forall k :: k in fx.started || k in fx.pruned ==> k.generation < fx.next)
  }

  predicate Executes(s: Stage) { s.Effecting? || s.Settling? }

  predicate Unsettled(s: State) { s.Publishing? || s.Indeterminate? }

  /** An executing object works for the record in memory, which nobody else has settled. */
  ghost predicate StageInv(records: map<Id, Rec>, fx: Effects, s: Stage) {
    Executes(s) ==>
      && s.id in records && records[s.id].generation == s.rec.generation && Unsettled(records[s.id].state)
      && Live(fx, Key(s.id, s.rec.generation)) && Fits(fx, s.id, Some(s.rec))
      && (s.Effecting? ==> s.rec.state.Publishing?)
      && (s.Settling? ==> !s.rec.state.Prepared?)
  }

  ghost predicate OneExecutor(objects: map<nat, Stage>) {
    forall o, q ::
      (o in objects && q in objects && Executes(objects[o]) && Executes(objects[q]) && objects[o].id == objects[q].id)
      ==> o == q
  }

  ghost predicate ObjectsInv(w: World) {
    && (!w.process.Up? ==> w.objects == map[])
    && (w.process.Up? ==> forall o :: o in w.objects ==> StageInv(w.process.records, w.fx, w.objects[o]))
    && OneExecutor(w.objects)
  }

  /** How the record being written relates to the one in memory, which the lock keeps still. */
  ghost predicate Grounded(records: map<Id, Rec>, objects: map<nat, Stage>, p: Put) {
    match p.caller
    case ForReserve(o) => p.id !in records && o !in objects && p.rec.state.Prepared?
    case ForRecord => Same(records, p.id, p.rec) && records[p.id].state == p.rec.state
    case ForExpiry => Follows(records, p.id, p.rec) && p.rec.state.Cancelled?
    case ForFence(o) =>
      && Follows(records, p.id, p.rec) && p.rec.state.Publishing?
      && o in objects && objects[o].Ready? && objects[o].id == p.id
    case ForSettle(o) => o in objects && objects[o] == Settling(p.id, p.rec)
    case ForDrop(o) =>
      && o in objects && objects[o] == Dropping(p.id) && Same(records, p.id, p.rec)
      && p.rec.state == (if records[p.id].state.Prepared? then Cancelled else Indeterminate)
      && Open(records[p.id].state)
    case ForRecovery => false
  }

  ghost predicate PutInv(w: World) {
    w.put.Some? ==>
      var p := w.put.value;
      (p.phase.Renamed? ==> Get(w.disk.shown, p.id) == Some(p.rec)) &&
      if p.caller.ForRecovery? then
        w.process.Opening? && p.id in w.process.todo && p.rec == Recovered(w.process.todo[p.id])
      else w.process.Up? && Grounded(w.process.records, w.objects, p)
  }

  predicate Same(records: map<Id, Rec>, id: Id, r: Rec) {
    id in records && records[id].generation == r.generation
  }

  /** The record in memory is Prepared and of the same reservation. */
  predicate Follows(records: map<Id, Rec>, id: Id, r: Rec) {
    Same(records, id, r) && records[id].state.Prepared?
  }

  ghost predicate DiskInv(w: World) {
    && (forall id :: Get(w.disk.shown, id) in Possible(w.disk, id))
    && (w.process.Opening? ==> w.disk.shown.Keys == w.process.todo.Keys + w.process.records.Keys)
    && (w.process.Opening? ==> w.process.todo.Keys !! w.process.records.Keys)
    && (w.process.Opening? ==> forall id :: id in w.process.records ==> !Open(w.process.records[id].state))
  }

  predicate Open(s: State) { s.Prepared? || s.Publishing? }

  /** Once the record in memory has left Prepared, no value of that reservation is Prepared. */
  predicate PastPrepared(records: map<Id, Rec>, id: Id, v: Option<Rec>) {
    v.Some? && Same(records, id, v.value) && v.value.state.Prepared? ==> records[id].state.Prepared?
  }

  ghost predicate NoWayBack(w: World) {
    !w.process.Down? ==> forall id, v :: Holds(w, id, v) ==> PastPrepared(w.process.records, id, v)
  }

  ghost predicate Inv(w: World) {
    ValuesFit(w) && EffectsInv(w.fx) && ObjectsInv(w) && PutInv(w) && DiskInv(w) && NoWayBack(w)
  }

  // --- Values: what a step may add, and what a change of effects leaves true ---

  /** Every value held after a step was held before, or is the one new value. */
  ghost predicate Adds(w: World, w': World, id: Id, v: Option<Rec>) {
    forall i, u :: Holds(w', i, u) ==> Holds(w, i, u) || (i == id && u == v)
  }

  lemma {:induction false} BeginAdds(w: World, id: Id, rec: Rec, name: nat, caller: Caller)
    requires w.put.None?
    ensures Adds(w, Begin(w, id, rec, name, caller), id, Some(rec))
  {
  }

  lemma {:induction false} CertainHolds(d: Disk, id: Id, v: Option<Rec>)
    requires v in Possible(Sync(d), id)
    ensures v == Get(d.shown, id)
  {
  }

  /** A begun put adds one value, honest and in its place, and disturbs nothing else. */
  lemma {:induction false} BeginKeepsInv(w: World, id: Id, rec: Rec, name: nat, caller: Caller, w': World)
    requires Inv(w) && w.put.None? && !w.process.Down?
    requires w' == Begin(w, id, rec, name, caller).(fx := w'.fx)
    requires w'.fx.next >= w.fx.next && w'.fx == w.fx.(next := w'.fx.next)
    requires Fits(w'.fx, id, Some(rec)) && PastPrepared(w.process.records, id, Some(rec)) && PutInv(w')
    ensures Inv(w')
  {
    BeginAdds(w, id, rec, name, caller);
    forall i, v | Holds(w', i, v) ensures Fits(w'.fx, i, v) && PastPrepared(w.process.records, i, v) {
      if !(i == id && v == Some(rec)) { assert Holds(w, i, v); }
    }
    assert ObjectsInv(w') by {
      forall o | o in w.objects && w.process.Up? ensures StageInv(w.process.records, w'.fx, w.objects[o]) {
        assert StageInv(w.process.records, w.fx, w.objects[o]);
      }
    }
  }

  lemma {:induction false} RecoverKeepsInv(w: World, id: Id, name: nat, w': World)
    requires Inv(w) && Step(w, RecoverBegin(id, name), w')
    ensures Inv(w')
  {
    hide NoWayBack, ObjectsInv, DiskInv;
    var r := w.process.todo[id];
    assert Holds(w, id, Some(r));
    BeginKeepsInv(w, id, Recovered(r), name, ForRecovery, w');
  }

  lemma {:induction false} ReserveKeepsInv(w: World, e: Event, w': World)
    requires Inv(w) && e.ReserveBegin? && Step(w, e, w')
    ensures Inv(w')
  {
    hide NoWayBack, ObjectsInv, DiskInv;
    var rec := w'.put.value.rec;
    assert Holds(w, e.id, None);
    BeginKeepsInv(w, e.id, rec, e.name, ForReserve(e.obj), w');
  }

  /** Record, expiry and fence all rewrite the record in memory. */
  lemma {:induction false} RewriteKeepsInv(w: World, e: Event, w': World)
    requires Inv(w) && (e.RecordBegin? || e.ExpireBegin? || e.FenceBegin?) && Step(w, e, w')
    ensures Inv(w')
  {
    hide NoWayBack, ObjectsInv, DiskInv;
    var p := w'.put.value;
    assert Holds(w, p.id, Some(w.process.records[p.id]));
    BeginKeepsInv(w, p.id, p.rec, p.name, p.caller, w');
  }

  lemma {:induction false} SettleKeepsInv(w: World, obj: nat, name: nat, w': World)
    requires Inv(w) && Step(w, SettleBegin(obj, name), w')
    ensures Inv(w')
  {
    hide NoWayBack, DiskInv;
    var s := w.objects[obj];
    assert StageInv(w.process.records, w.fx, s);
    BeginKeepsInv(w, s.id, s.rec, name, ForSettle(obj), w');
  }

  lemma {:induction false} DropKeepsInv(w: World, e: Event, w': World)
    requires Inv(w) && e.DropBegin? && Step(w, e, w')
    ensures Inv(w')
  {
    var id := w.objects[e.obj].id;
    if w'.put.Some? {
      hide NoWayBack, ObjectsInv, DiskInv;
      assert Holds(w, id, Some(w.process.records[id]));
      BeginKeepsInv(w, id, w'.put.value.rec, e.name, ForDrop(e.obj), w');
    } else {
      SameValues(w, w');
    }
  }

  /** A step that touches neither records nor effects keeps what was true of them. */
  lemma {:induction false} SameValues(w: World, w': World)
    requires ValuesFit(w) && NoWayBack(w) && w'.fx == w.fx && w'.process == w.process
    requires w'.disk.shown == w.disk.shown && w'.disk.maybe == w.disk.maybe
    requires w'.put.Some? ==> w.put.Some? && w'.put.value.id == w.put.value.id && w'.put.value.rec == w.put.value.rec
    ensures ValuesFit(w') && NoWayBack(w')
  {
    hide Fits;
    forall id, v | Holds(w', id, v) ensures Holds(w, id, v) { }
  }

  lemma {:induction false} OpenBeginKeepsInv(w: World, w': World)
    requires Inv(w) && Step(w, OpenBegin, w')
    ensures Inv(w')
  {
    hide Fits;
    forall id, v | Holds(w', id, v) ensures Holds(w, id, v) { }
  }

  lemma {:induction false} OpenEndKeepsInv(w: World, e: Event, w': World)
    requires Inv(w) && (e.OpenFail? || e.OpenDone?) && Step(w, e, w')
    ensures Inv(w')
  {
    hide Fits;
    forall id, v | Holds(w', id, v) ensures Holds(w, id, v) {
      if e.OpenDone? && v == Get(w'.process.records, id) && v.None? { assert id !in w.disk.shown; }
    }
  }

  lemma {:induction false} PruneSyncKeepsInv(w: World, w': World)
    requires Inv(w) && Step(w, PruneSync, w')
    ensures Inv(w')
  {
    hide Fits;
    forall id, v | Holds(w', id, v) ensures Holds(w, id, v) {
      if v in Possible(w'.disk, id) { CertainHolds(w.disk, id, v); }
    }
  }

  lemma {:induction false} CrashKeepsInv(w: World, w': World)
    requires Inv(w) && Step(w, Crash, w')
    ensures Inv(w')
  {
    forall id, v | Holds(w', id, v) ensures Fits(w'.fx, id, v) {
      assert v == Get(w'.disk.shown, id);
      assert Holds(w, id, v);
      assert Fits(w.fx, id, v);
    }
  }

  lemma {:induction false} GiveUpKeepsInv(w: World, obj: nat, w': World)
    requires Inv(w) && Step(w, GiveUp(obj), w')
    ensures Inv(w')
  {
    SameValues(w, w');
    hide Fits;
  }

  lemma {:induction false} HappenKeepsInv(w: World, key: Key, w': World)
    requires Inv(w) && Step(w, Happen(key), w')
    ensures Inv(w')
  {
    forall id, v | Holds(w', id, v) ensures Fits(w'.fx, id, v) {
      assert Holds(w, id, v);
      HappenFits(w.fx, key, id, v);
    }
    assert NoWayBack(w') by {
      hide Fits;
      forall id, v | Holds(w', id, v) ensures Holds(w, id, v) { }
    }
    assert ObjectsInv(w') by {
      forall o | o in w.objects && w.process.Up? ensures StageInv(w.process.records, w'.fx, w.objects[o]) {
        assert StageInv(w.process.records, w.fx, w.objects[o]);
        if Executes(w.objects[o]) { HappenFits(w.fx, key, w.objects[o].id, Some(w.objects[o].rec)); }
      }
    }
  }

  lemma {:induction false} HappenFits(fx: Effects, key: Key, id: Id, v: Option<Rec>)
    requires Fits(fx, id, v) && key in fx.inFlight
    ensures Fits(fx.(happened := fx.happened + {key}), id, v)
  {
    var fx' := fx.(happened := fx.happened + {key});
    forall g | Live(fx', Key(id, g)) ensures v.Some? && v.value.generation == g && !v.value.state.Prepared? {
      assert Live(fx, Key(id, g));
    }
  }

  lemma {:induction false} LandFits(fx: Effects, key: Key, id: Id, v: Option<Rec>)
    requires Fits(fx, id, v)
    ensures Fits(fx.(inFlight := fx.inFlight - {key}), id, v)
  {
    var fx' := fx.(inFlight := fx.inFlight - {key});
    forall g | Live(fx', Key(id, g)) ensures v.Some? && v.value.generation == g && !v.value.state.Prepared? {
      assert Live(fx, Key(id, g));
    }
  }

  /** The result a truthful call returns settles the record honestly. */
  lemma {:induction false} SettledFits(fx: Effects, s: Stage, outcome: Outcome, now: nat)
    requires s.Effecting? && s.rec.state.Publishing? && Fits(fx, s.id, Some(s.rec))
    requires Truthful(outcome, Key(s.id, s.rec.generation) in fx.happened)
    requires Key(s.id, s.rec.generation) !in fx.inFlight
    ensures Fits(fx, s.id, Some(Settled(s.rec, outcome, now)))
  {
  }

  lemma {:induction false} ReturnKeepsObjects(w: World, e: Event, w': World)
    requires Inv(w) && e.Return? && Step(w, e, w')
    ensures ObjectsInv(w')
  {
    hide ValuesFit, NoWayBack, DiskInv, PutInv;
    var s := w.objects[e.obj];
    var key := Key(s.id, s.rec.generation);
    forall o | o in w'.objects && w'.process.Up? ensures StageInv(w'.process.records, w'.fx, w'.objects[o]) {
      var t := w.objects[o];
      assert StageInv(w.process.records, w.fx, t);
      if Executes(t) { LandFits(w.fx, key, t.id, Some(t.rec)); }
      if o == e.obj { SettledFits(w'.fx, s, e.outcome, e.now); }
    }
  }

  lemma {:induction false} ReturnKeepsInv(w: World, e: Event, w': World)
    requires Inv(w) && e.Return? && Step(w, e, w')
    ensures Inv(w')
  {
    ReturnKeepsObjects(w, e, w');
    hide ObjectsInv, Fits;
    var s := w.objects[e.obj];
    forall id, v | Holds(w', id, v) ensures Fits(w'.fx, id, v) && Holds(w, id, v) {
      LandFits(w.fx, Key(s.id, s.rec.generation), id, v);
    }
  }

  lemma {:induction false} UnlinkKeepsValues(w: World, id: Id, now: nat, w': World)
    requires Inv(w) && Step(w, PruneUnlink(id, now), w')
    ensures ValuesFit(w') && NoWayBack(w')
  {
    var r := w.process.records[id];
    assert Holds(w, id, Some(r));
    hide Fits, ObjectsInv, DiskInv, PutInv, EffectsInv;
    forall i, v | Holds(w', i, v)
      ensures Fits(w'.fx, i, v) && PastPrepared(w'.process.records, i, v)
    {
      if Holds(w, i, v) {
        PruneFits(w.fx, Key(id, r.generation), i, v);
      } else {
        PrunedFits(w.fx, id, r);
      }
    }
  }

  lemma {:induction false} UnlinkKeepsDisk(w: World, id: Id, now: nat, w': World)
    requires Inv(w) && Step(w, PruneUnlink(id, now), w')
    ensures DiskInv(w') && PutInv(w')
  {
    hide ValuesFit, NoWayBack, ObjectsInv, EffectsInv;
    if w.process.Opening? {
      assert w'.disk.shown.Keys == w.disk.shown.Keys - {id};
      assert w'.process.records.Keys == w.process.records.Keys - {id};
      assert w.process.todo.Keys == {};
    }
    forall i ensures Get(w'.disk.shown, i) in Possible(w'.disk, i) {
      assert Get(w.disk.shown, i) in Possible(w.disk, i);
    }
  }

  lemma {:induction false} UnlinkKeepsInv(w: World, id: Id, now: nat, w': World)
    requires Inv(w) && Step(w, PruneUnlink(id, now), w')
    ensures Inv(w')
  {
    UnlinkKeepsValues(w, id, now, w');
    UnlinkKeepsDisk(w, id, now, w');
    UnlinkKeepsObjects(w, id, now, w');
    assert w.process.records[id].generation < w.fx.next by {
      assert Holds(w, id, Some(w.process.records[id]));
    }
    hide ValuesFit, NoWayBack, ObjectsInv, DiskInv, PutInv;
  }

  lemma {:induction false} PruneFits(fx: Effects, key: Key, id: Id, v: Option<Rec>)
    requires Fits(fx, id, v)
    requires v.Some? && v.value.state.Prepared? ==> key != Key(id, v.value.generation)
    ensures Fits(fx.(pruned := fx.pruned + {key}), id, v)
  {
    var fx' := fx.(pruned := fx.pruned + {key});
    forall g | Live(fx', Key(id, g)) ensures v.Some? && v.value.generation == g && !v.value.state.Prepared? {
      assert Live(fx, Key(id, g));
    }
  }

  lemma {:induction false} PrunedFits(fx: Effects, id: Id, r: Rec)
    requires Fits(fx, id, Some(r))
    ensures Fits(fx.(pruned := fx.pruned + {Key(id, r.generation)}), id, None)
  {
    var fx' := fx.(pruned := fx.pruned + {Key(id, r.generation)});
    forall g ensures !Live(fx', Key(id, g)) {
      if Live(fx', Key(id, g)) { assert Live(fx, Key(id, g)); }
    }
  }

  lemma {:induction false} UnlinkKeepsObjects(w: World, id: Id, now: nat, w': World)
    requires Inv(w) && Step(w, PruneUnlink(id, now), w')
    ensures ObjectsInv(w')
  {
    hide ValuesFit, NoWayBack, DiskInv, PutInv;
    var key := Key(id, w.process.records[id].generation);
    forall o | o in w.objects && w.process.Up? ensures StageInv(w'.process.records, w'.fx, w.objects[o]) {
      var t := w.objects[o];
      assert StageInv(w.process.records, w.fx, t);
      if Executes(t) { PruneFits(w.fx, key, t.id, Some(t.rec)); }
    }
  }

  lemma {:induction false} PutCreateKeepsInv(w: World, e: Event, w': World)
    requires Inv(w) && (e.PutCreate? || e.PutWrite?) && Step(w, e, w')
    ensures Inv(w')
  {
    SameValues(w, w');
    hide Fits;
  }

  lemma {:induction false} PutRenameKeepsDisk(w: World, w': World)
    requires Inv(w) && Step(w, PutRename, w')
    ensures DiskInv(w') && PutInv(w')
  {
    hide ValuesFit, NoWayBack, ObjectsInv, EffectsInv;
    var p := w.put.value;
    assert w'.disk.shown.Keys == w.disk.shown.Keys + {p.id};
    forall id ensures Get(w'.disk.shown, id) in Possible(w'.disk, id) {
      assert Get(w.disk.shown, id) in Possible(w.disk, id);
    }
  }

  lemma {:induction false} PutRenameKeepsInv(w: World, w': World)
    requires Inv(w) && Step(w, PutRename, w')
    ensures Inv(w')
  {
    PutRenameKeepsDisk(w, w');
    hide Fits, DiskInv, PutInv, StageInv;
    forall id, v | Holds(w', id, v) ensures Holds(w, id, v) { }
  }

  lemma {:induction false} PutFailKeepsObjects(w: World, w': World)
    requires Inv(w) && Step(w, PutFail, w')
    ensures ObjectsInv(w') && DiskInv(w') && PutInv(w')
  {
    hide ValuesFit, NoWayBack, EffectsInv, Fits;
  }

  lemma {:induction false} PutFailKeepsInv(w: World, w': World)
    requires Inv(w) && Step(w, PutFail, w')
    ensures Inv(w')
  {
    PutFailKeepsObjects(w, w');
    hide Fits, ObjectsInv, DiskInv, PutInv;
    forall id, v | Holds(w', id, v) ensures Holds(w, id, v) { }
  }

  // --- A put that succeeds ---

  /** After the directory sync only the new record is left of its id, and what was shown of every other. */
  lemma {:induction false} SyncedValues(w: World, w': World, id: Id, v: Option<Rec>)
    requires Inv(w) && Step(w, PutSync, w') && Holds(w', id, v)
    ensures if id == w.put.value.id then v == Some(w.put.value.rec) else Holds(w, id, v)
    ensures !w'.process.Down? && w'.put.None?
  {
    hide ValuesFit, NoWayBack, ObjectsInv, EffectsInv, Grounded;
    if v in Possible(w'.disk, id) { CertainHolds(w.disk, id, v); }
  }

  lemma {:induction false} PutSyncKeepsDisk(w: World, w': World)
    requires Inv(w) && Step(w, PutSync, w')
    ensures DiskInv(w') && PutInv(w')
  {
    hide ValuesFit, NoWayBack, ObjectsInv, EffectsInv, Grounded;
    forall id ensures Get(w'.disk.shown, id) in Possible(w'.disk, id) { }
  }

  /** Starting an effect: its record is the only value left, and it is past Prepared. */
  lemma {:induction false} StartFits(fx: Effects, key: Key, id: Id, v: Option<Rec>)
    requires Fits(fx, id, v) && EffectsInv(fx) && key !in fx.started
    requires id == key.id ==> v.Some? && v.value.generation == key.generation && v.value.state.Publishing?
    requires id == key.id ==> forall g :: !Live(fx, Key(id, g))
    ensures Fits(fx.(started := fx.started + {key}, inFlight := fx.inFlight + {key}), id, v)
  {
    var fx' := fx.(started := fx.started + {key}, inFlight := fx.inFlight + {key});
    forall g | Live(fx', Key(id, g)) ensures v.Some? && v.value.generation == g && !v.value.state.Prepared? {
      if Key(id, g) != key { assert Live(fx, Key(id, g)); }
    }
  }

  lemma {:induction false} FenceIsFirst(w: World)
    requires Inv(w) && w.put.Some? && w.put.value.caller.ForFence?
    ensures Key(w.put.value.id, w.put.value.rec.generation) !in w.fx.started + w.fx.pruned
    ensures forall g :: !Live(w.fx, Key(w.put.value.id, g))
  {
    hide ObjectsInv, DiskInv, NoWayBack;
    var p := w.put.value;
    assert Holds(w, p.id, Some(w.process.records[p.id]));
  }

  lemma {:induction false} PutSyncEffects(w: World, w': World)
    requires Inv(w) && Step(w, PutSync, w')
    ensures var p := w.put.value; var key := Key(p.id, p.rec.generation);
      w'.fx == if p.caller.ForFence? then w.fx.(started := w.fx.started + {key}, inFlight := w.fx.inFlight + {key})
               else w.fx
  {
    hide ObjectsInv, DiskInv, NoWayBack, ValuesFit, EffectsInv;
  }

  lemma {:induction false} PutSyncFits(w: World, w': World, id: Id, v: Option<Rec>)
    requires Inv(w) && Step(w, PutSync, w') && Fits(w.fx, id, v)
    requires id == w.put.value.id ==> v == Some(w.put.value.rec)
    ensures Fits(w'.fx, id, v)
  {
    var p := w.put.value;
    PutSyncEffects(w, w');
    if p.caller.ForFence? {
      FenceIsFirst(w);
      hide Step, ObjectsInv, DiskInv, NoWayBack, ValuesFit;
      StartFits(w.fx, Key(p.id, p.rec.generation), id, v);
    }
  }

  lemma {:induction false} PutSyncKeepsValues(w: World, w': World)
    requires Inv(w) && Step(w, PutSync, w')
    ensures ValuesFit(w') && NoWayBack(w') && EffectsInv(w'.fx)
  {
    PutSyncEffects(w, w');
    var p := w.put.value;
    assert Holds(w, p.id, Some(p.rec));
    assert w'.process == Remember(w.process, p.id, p.rec);
    hide Step, ObjectsInv, DiskInv, PutInv, Fits, Holds;
    assert Fits(w.fx, p.id, Some(p.rec));
    forall id, v | Holds(w', id, v) ensures Fits(w'.fx, id, v) && PastPrepared(w'.process.records, id, v) {
      SyncedValues(w, w', id, v);
      PutSyncFits(w, w', id, v);
    }
    FitsIsHonest(w.fx, p.id, p.rec);
  }

  lemma {:induction false} FitsIsHonest(fx: Effects, id: Id, r: Rec)
    requires Fits(fx, id, Some(r))
    ensures Honest(fx, id, r)
  {
  }

  /** Writing any record but an executor's own leaves the executor's record of the same reservation unsettled. */
  lemma {:induction false} OtherStages(w: World, w': World, o: nat)
    requires Inv(w) && Step(w, PutSync, w') && w.process.Up? && o in w.objects && Executes(w.objects[o])
    requires w.put.value.caller != ForSettle(o)
    ensures w'.process.Up? && StageInv(w'.process.records, w'.fx, w.objects[o])
    ensures w.put.value.caller.ForFence? ==> w.put.value.id != w.objects[o].id
  {
    var p, s := w.put.value, w.objects[o];
    assert StageInv(w.process.records, w.fx, s);
    PutSyncEffects(w, w');
    hide ValuesFit, NoWayBack, DiskInv, EffectsInv, Fits;
    if p.id == s.id {
      assert !p.caller.ForFence? && !p.caller.ForSettle?;
    } else {
      PutSyncFits(w, w', s.id, Some(s.rec));
    }
  }

  lemma {:induction false} PutSyncKeepsObjects(w: World, w': World)
    requires Inv(w) && Step(w, PutSync, w')
    ensures ObjectsInv(w')
  {
    var p := w.put.value;
    assert Holds(w, p.id, Some(p.rec));
    PutSyncFits(w, w', p.id, Some(p.rec));
    hide ValuesFit, NoWayBack, DiskInv, EffectsInv, Fits, StageInv;
    forall o | w'.process.Up? && o in w'.objects ensures StageInv(w'.process.records, w'.fx, w'.objects[o]) {
      if !Executes(w'.objects[o]) {
        IdleStage(w'.process.records, w'.fx, w'.objects[o]);
      } else if p.caller == ForFence(o) {
        StartedStage(w, w', o);
      } else {
        OtherStages(w, w', o);
      }
    }
    if w.process.Up? { PutSyncOneExecutor(w, w'); }
  }

  lemma {:induction false} IdleStage(records: map<Id, Rec>, fx: Effects, s: Stage)
    requires !Executes(s)
    ensures StageInv(records, fx, s)
  {
  }

  lemma {:induction false} StartedStage(w: World, w': World, o: nat)
    requires Inv(w) && Step(w, PutSync, w') && w.put.value.caller == ForFence(o)
    requires Fits(w'.fx, w.put.value.id, Some(w.put.value.rec))
    ensures w'.process.Up? && o in w'.objects && StageInv(w'.process.records, w'.fx, w'.objects[o])
  {
    PutSyncKeepsPruned(w, w');
    hide ValuesFit, NoWayBack, DiskInv, Fits, ObjectsInv;
  }

  lemma {:induction false} PutSyncKeepsPruned(w: World, w': World)
    requires Inv(w) && Step(w, PutSync, w') && w.put.value.caller.ForFence?
    ensures Live(w'.fx, Key(w.put.value.id, w.put.value.rec.generation))
  {
    PutSyncEffects(w, w');
    FenceIsFirst(w);
  }

  lemma {:induction false} PutSyncOneExecutor(w: World, w': World)
    requires Inv(w) && Step(w, PutSync, w') && w.process.Up?
    ensures OneExecutor(w'.objects)
  {
    hide ValuesFit, NoWayBack, DiskInv, EffectsInv, Fits, StageInv;
    var p := w.put.value;
    forall o, q | o in w'.objects && q in w'.objects && Executes(w'.objects[o]) && Executes(w'.objects[q])
        && w'.objects[o].id == w'.objects[q].id
      ensures o == q
    {
      if p.caller == ForFence(o) && o != q { OtherStages(w, w', q); }
      if p.caller == ForFence(q) && o != q { OtherStages(w, w', o); }
    }
  }

  lemma {:induction false} PutSyncKeepsInv(w: World, w': World)
    requires Inv(w) && Step(w, PutSync, w')
    ensures Inv(w')
  {
    PutSyncKeepsDisk(w, w');
    PutSyncKeepsValues(w, w');
    PutSyncKeepsObjects(w, w');
    hide ValuesFit, NoWayBack, DiskInv, EffectsInv, ObjectsInv, PutInv, Step;
  }

  lemma {:induction false} StepKeepsInv(w: World, e: Event, w': World)
    requires Inv(w) && Step(w, e, w')
    ensures Inv(w')
  {
    hide Inv;
    match e {
      case OpenBegin => OpenBeginKeepsInv(w, w');
      case RecoverBegin(id, name) => RecoverKeepsInv(w, id, name, w');
      case OpenFail => OpenEndKeepsInv(w, e, w');
      case OpenDone => OpenEndKeepsInv(w, e, w');
      case PruneUnlink(id, now) => UnlinkKeepsInv(w, id, now, w');
      case PruneSync => PruneSyncKeepsInv(w, w');
      case ReserveBegin(_, _, _, _, _, _) => ReserveKeepsInv(w, e, w');
      case RecordBegin(_, _, _, _) => RewriteKeepsInv(w, e, w');
      case ExpireBegin(_, _, _) => RewriteKeepsInv(w, e, w');
      case FenceBegin(_, _, _, _, _) => RewriteKeepsInv(w, e, w');
      case GiveUp(obj) => GiveUpKeepsInv(w, obj, w');
      case Happen(key) => HappenKeepsInv(w, key, w');
      case Return(_, _, _) => ReturnKeepsInv(w, e, w');
      case SettleBegin(obj, name) => SettleKeepsInv(w, obj, name, w');
      case DropBegin(_, _, _) => DropKeepsInv(w, e, w');
      case PutCreate => PutCreateKeepsInv(w, e, w');
      case PutWrite => PutCreateKeepsInv(w, e, w');
      case PutRename => PutRenameKeepsInv(w, w');
      case PutSync => PutSyncKeepsInv(w, w');
      case PutFail => PutFailKeepsInv(w, w');
      case Crash => CrashKeepsInv(w, w');
    }
  }
}
