/** The journal store itself. Every disk operation it performs is a step of a run, so what holds of runs holds of it. */
module JournalHost {
  import opened Wrappers
  import opened JournalSteps
  import opened JournalSafety
  import opened JournalRuns

  const MAX_JOURNAL_STORAGE_BYTES := MAX_TRANSFER_JOURNALS * MAX_JOURNAL_BYTES

  /** Where the operating system makes a put fail, if it does. */
  datatype Fault = NoFault | AtCreate | AtWrite | AtRename | AtSync

  datatype Refusal = Storage | Limit | Replay

  datatype Reply = Done | Refused(why: Refusal)

  lemma {:induction false} SuccessKeeps(w: World, p: Put)
    ensures var w' := AfterSuccess(w, p); w'.process == w.process && w'.disk == w.disk && w'.put == w.put
  {
  }

  lemma {:induction false} FailureIgnoresPhase(w: World, p: Put)
    requires w.put.None?
    ensures AfterFailure(w, p) == AfterFailure(w, p.(phase := Begun))
    ensures var w' := AfterFailure(w, p);
      w'.put.None? && w'.disk == w.disk && (w'.process == w.process || w'.process.Down?)
  {
  }

  lemma {:induction false} ExpiredShrinks(records: map<Id, Rec>, now: nat, id: Id)
    requires id in records && Prunable(records[id], now)
    ensures Expired(records - {id}, now) == Expired(records, now) - {id}
  {
  }

  /** Part of the way through recovery: the listed records are either still to do or recovered. */
  ghost predicate Recovering(todo: map<Id, Rec>, records: map<Id, Rec>, listed: map<Id, Rec>) {
    && todo.Keys + records.Keys == listed.Keys && todo.Keys !! records.Keys
    && (forall id :: id in todo ==> id in listed && todo[id] == listed[id])
    && (forall id :: id in records ==> id in listed && records[id] == Recovered(listed[id]))
  }

  lemma {:induction false} RecoverFirst(listed: map<Id, Rec>)
    ensures Recovering(listed, map[], listed)
  {
  }

  lemma {:induction false} RecoverNext(todo: map<Id, Rec>, records: map<Id, Rec>, listed: map<Id, Rec>, id: Id)
    requires Recovering(todo, records, listed) && id in todo
    ensures Recovering(todo - {id}, records[id := Recovered(todo[id])], listed) && id in listed
    ensures (todo - {id}).Keys == todo.Keys - {id}
  {
    hide Recovered;
    assert (todo - {id}).Keys == todo.Keys - {id};
    assert records[id := Recovered(todo[id])].Keys == records.Keys + {id};
  }

  lemma {:induction false} RoomForNext(todo: map<Id, Rec>, records: map<Id, Rec>, listed: map<Id, Rec>, id: Id)
    requires todo.Keys + records.Keys == listed.Keys && todo.Keys !! records.Keys && id in todo
    ensures |records| < |listed|
  {
    Fewer(records.Keys, listed.Keys, id);
    assert |records| == |records.Keys| && |listed| == |listed.Keys|;
  }

  lemma {:induction false} RecoveringCounts(todo: map<Id, Rec>, records: map<Id, Rec>, listed: map<Id, Rec>, id: Id)
    requires Recovering(todo, records, listed) && id in todo
    ensures |records| < |listed|
  {
    RoomForNext(todo, records, listed, id);
  }

  /**
   What an opened store holds: each record is its file's with an interruption made plain, none of them
   Prepared or Publishing, and only settled ones past retention are missing.
   */
  ghost predicate OpenedFrom(shown: map<Id, Rec>, records: map<Id, Rec>, now: nat) {
    && (forall id :: id in records ==>
          && id in shown && records[id] == Recovered(shown[id])
          && !records[id].state.Prepared? && !records[id].state.Publishing? && !Prunable(records[id], now))
    && (forall id :: id in shown && id !in records ==> Prunable(Recovered(shown[id]), now))
  }

  lemma {:induction false} RecoveredThenPruned(
      listed: map<Id, Rec>, recovered: map<Id, Rec>, records: map<Id, Rec>, now: nat)
    requires Recovering(map[], recovered, listed)
    requires forall id :: id in records ==>
      id in recovered && records[id] == recovered[id] && !Prunable(records[id], now)
    requires forall id :: id in recovered && id !in records ==> Prunable(recovered[id], now)
    ensures OpenedFrom(listed, records, now)
  {
    hide Prunable;
    forall id | id in listed ensures id in recovered { assert id in listed.Keys; }
  }

  lemma {:induction false} Fewer(a: set<Id>, b: set<Id>, id: Id)
    requires a <= b && id in b && id !in a
    ensures |a| < |b|
  {
    FewerOrSame(a, b - {id});
  }

  lemma {:induction false} FewerOrSame(a: set<Id>, b: set<Id>)
    requires a <= b
    ensures |a| <= |b|
  {
    if a != {} {
      var x :| x in a;
      FewerOrSame(a - {x}, b - {x});
    }
  }

  predicate AllFit(sizes: map<Id, nat>) { forall id :: id in sizes ==> sizes[id] <= MAX_JOURNAL_BYTES }

  lemma {:induction false} FewFiles(d: Disk)
    ensures CanOpen(d) ==> |d.shown| <= MAX_TRANSFER_JOURNALS
  {
  }

  function Expired(records: map<Id, Rec>, now: nat): set<Id> {
    set id | id in records && Prunable(records[id], now)
  }

  class JournalStore {
    var records: map<Id, Rec>
    var disk: Disk
    ghost var states: seq<World>
    ghost var events: seq<Event>

    ghost predicate Valid()
      reads this
    {
      && |states| > 0 && IsRun(states, events) && Now().disk == disk
      && (!Now().process.Down? ==> records == Now().process.records)
    }

    ghost function Now(): World
      reads this
      requires |states| > 0
    {
      states[|states| - 1]
    }

    constructor ()
      ensures Valid() && Now() == FRESH
    {
      records, disk := map[], Disk(map[], map[], map[], map[]);
      states, events := [FRESH], [];
    }

    ghost method Advance(e: Event, w: World)
      requires IsRun(states, events) && Step(Now(), e, w)
      modifies this`states, this`events
      ensures IsRun(states, events) && Now() == w && states == old(states) + [w] && events == old(events) + [e]
    {
      hide Step;
      ExtendRun(states, events, e, w);
      states, events := states + [w], events + [e];
    }

    /** One operation of the put under way takes effect. */
    ghost method Progress(e: Event, w: World)
      requires IsRun(states, events) && Now().put.Some? && w == AfterOp(Now(), e)
      requires (e.PutCreate? && Now().put.value.phase.Begun? && Now().put.value.name !in Now().disk.pending)
        || (e.PutWrite? && Now().put.value.phase.Created?) || (e.PutRename? && Now().put.value.phase.Written?)
        || (e.PutSync? && Now().put.value.phase.Renamed?) || e.PutFail?
      modifies this`states, this`events
      ensures IsRun(states, events) && Now() == w && states == old(states) + [w] && events == old(events) + [e]
    {
      hide IsRun;
      Advance(e, w);
    }

    ghost predicate Writing(p: Put, phase: Phase)
      reads this
    {
      && |states| > 0 && !Now().process.Down? && Now().put == Some(p.(phase := phase))
    }

    /** Gives the put up: whatever is left of its pending file is removed, and memory stays as it was. */
    method Fail(ghost p: Put, name: nat, created: bool)
      requires Valid() && |states| > 0 && Now().put == Some(p) && p.name == name && created == !p.phase.Begun?
      modifies this`disk, this`states, this`events
      ensures Valid() && old(states) <= states && Now().put.None?
      ensures disk == if created then Discard(old(disk), name) else old(disk)
      ensures Now() == AfterFailure(old(Now()).(put := None, disk := disk), p.(phase := Begun))
    {
      hide IsRun, Step;
      FailureIgnoresPhase(old(Now()).(put := None, disk := if created then Discard(disk, name) else disk), p);
      hide AfterFailure;
      Progress(PutFail, AfterOp(Now(), PutFail));
      if created { disk := Discard(disk, name); }
    }

    /** Creates the pending file, writes it and syncs it. */
    method WritePending(ghost p: Put, name: nat, fault: Fault) returns (ok: bool)
      requires Valid() && Writing(p, Begun) && p.name == name && name !in disk.pending
      modifies this`disk, this`states, this`events
      ensures Valid() && old(states) <= states
      ensures ok == !(fault.AtCreate? || fault.AtWrite?)
      ensures ok ==> Writing(p, Written) && Now() == old(Now()).(put := Now().put, disk := disk)
      ensures !ok ==> Now() == AfterFailure(old(Now()).(put := None, disk := disk), p.(phase := Begun))
      ensures !ok ==> Now().put.None?
      ensures disk.pending == if ok then old(disk).pending[name := Whole] else old(disk).pending
      ensures disk.shown == old(disk).shown && disk.maybe == old(disk).maybe
    {
      hide IsRun, Step, AfterFailure;
      if fault.AtCreate? {
        Fail(Now().put.value, name, false);
        return false;
      }
      disk := Create(disk, name);
      Progress(PutCreate, AfterOp(Now(), PutCreate));
      if fault.AtWrite? {
        Fail(Now().put.value, name, true);
        return false;
      }
      disk := Fill(disk, name);
      Progress(PutWrite, AfterOp(Now(), PutWrite));
      ok := true;
    }

    /** Syncs the directory after the rename and only then remembers the record. */
    method Remembered(ghost p: Put, id: Id, rec: Rec)
      requires Valid() && Writing(p, Renamed) && p.id == id && p.rec == rec
      modifies this
      ensures Valid() && old(states) <= states && disk == Sync(old(disk)) && records == old(records)[id := rec]
      ensures Now().put.None? && Now() == AfterSuccess(
        old(Now()).(put := None, disk := disk, process := Remember(old(Now()).process, id, rec)), p.(phase := Renamed))
    {
      hide IsRun, Step, AfterSuccess, Certain;
      SuccessKeeps(
        Now().(put := None, disk := Sync(disk), process := Remember(Now().process, id, rec)), p.(phase := Renamed));
      Progress(PutSync, AfterOp(Now(), PutSync));
      disk := Sync(disk);
      records := records[id := rec];
    }

    /** Renames the pending file over the record's and syncs the directory. */
    method Publish(ghost p: Put, id: Id, rec: Rec, name: nat, fault: Fault) returns (ok: bool)
      requires Valid() && Writing(p, Written) && p.name == name && p.id == id && p.rec == rec
      modifies this
      ensures Valid() && old(states) <= states && Now().put.None?
      ensures ok == !(fault.AtRename? || fault.AtSync?)
      ensures ok ==> records == old(records)[id := rec] && disk.shown == old(disk).shown[id := rec]
      ensures ok ==> disk.maybe == Certain(disk.shown) && disk.pending == old(disk).pending - {name}
      ensures ok ==> Now() == AfterSuccess(
        old(Now()).(put := None, disk := disk, process := Remember(old(Now()).process, id, rec)), p.(phase := Renamed))
      ensures !ok ==> records == old(records) && disk.pending == old(disk).pending - {name}
      ensures !ok ==> Now() == AfterFailure(old(Now()).(put := None, disk := disk), p.(phase := Begun))
    {
      hide IsRun, Step, AfterSuccess, AfterFailure, Certain, Possible, Remember;
      if fault.AtRename? {
        Fail(Now().put.value, name, true);
        return false;
      }
      disk := Rename(disk, name, id, rec);
      Progress(PutRename, AfterOp(Now(), PutRename));
      if fault.AtSync? {
        Fail(Now().put.value, name, true);
        return false;
      }
      Remembered(p, id, rec);
      ok := true;
    }

    /**
     Writes a record: pending file, file sync, rename, directory sync, then memory. Memory changes exactly
     when all of them succeeded, and then the record is the only value a crash can leave.
     */
    method Put(id: Id, rec: Rec, name: nat, bytes: nat, fault: Fault, ghost caller: Caller) returns (reply: Reply)
      requires Valid() && Writing(JournalSteps.Put(id, rec, name, Begun, caller), Begun) && name !in disk.pending
      modifies this
      ensures Valid() && old(states) <= states && Now().put.None?
      ensures !Fitting(old(records), id, bytes) ==> reply == Refused(Limit)
      ensures Fitting(old(records), id, bytes) ==> reply == if fault.NoFault? then Done else Refused(Storage)
      ensures reply.Done? ==> records == old(records)[id := rec] && disk.shown == old(disk).shown[id := rec]
      ensures reply.Done? ==> disk.maybe == Certain(disk.shown) && OnlyDurable(disk, id, rec)
      ensures disk.pending == old(disk).pending
      ensures reply.Done? ==> Now() == AfterSuccess(
        old(Now()).(put := None, disk := disk, process := Remember(old(Now()).process, id, rec)),
        JournalSteps.Put(id, rec, name, Renamed, caller))
      ensures reply.Refused? ==> records == old(records)
      ensures reply.Refused? ==> Now() == AfterFailure(
        old(Now()).(put := None, disk := disk), JournalSteps.Put(id, rec, name, Begun, caller))
    {
      hide IsRun, Step, AfterSuccess, AfterFailure, Remember, Certain, OnlyDurable;
      ghost var p := JournalSteps.Put(id, rec, name, Begun, caller);
      if bytes > MAX_JOURNAL_BYTES
        || (id !in records && (|records| + 1) * MAX_JOURNAL_BYTES > MAX_JOURNAL_STORAGE_BYTES)
      {
        Fail(p, name, false);
        return Refused(Limit);
      }
      var ok := WritePending(p, name, fault);
      if !ok { return Refused(Storage); }
      ok := Publish(p, id, rec, name, fault);
      if ok { SyncedIsOnly(disk, id); }
      reply := if ok then Done else Refused(Storage);
    }

    /** Unlinks one settled record that has outlived its retention. */
    method UnlinkOne(id: Id, now: nat)
      requires Valid() && Pruning() && id in records && Prunable(records[id], now)
      modifies this
      ensures Valid() && Pruning() && old(states) <= states && records == old(records) - {id}
      ensures disk == Unlink(old(disk), id) && Now().process.Up? == old(Now()).process.Up?
      ensures Now().objects == old(Now()).objects && Now().fx.next == old(Now()).fx.next
    {
      hide IsRun;
      ghost var w := Now();
      Advance(PruneUnlink(id, now),
        w.(process := w.process.(records := w.process.records - {id}), disk := Unlink(w.disk, id),
           fx := w.fx.(pruned := w.fx.pruned + {Key(id, w.process.records[id].generation)})));
      disk := Unlink(disk, id);
      records := records - {id};
    }

    ghost predicate Pruning()
      reads this
    {
      && |states| > 0 && !Now().process.Down? && Now().put.None?
      && (Now().process.Opening? ==> Now().process.todo == map[])
    }

    /**
     Forgets every settled record past its retention and nothing else, and then makes that durable.
     `failAt` is how many unlinks succeed before one fails, if one does.
     */
    method Prune(now: nat, failAt: Option<nat>, syncFails: bool) returns (ok: bool)
      requires Valid() && Pruning()
      modifies this
      ensures Valid() && Pruning() && old(states) <= states && Now().process.Up? == old(Now()).process.Up?
      ensures Now().objects == old(Now()).objects && Now().fx.next == old(Now()).fx.next
      ensures disk.pending == old(disk).pending
      ensures forall id :: id in records ==> id in old(records) && records[id] == old(records)[id]
      ensures forall id :: id in old(records) && id !in records ==> Prunable(old(records)[id], now)
      ensures ok <==> !syncFails && (failAt.Some? ==> failAt.value >= |Expired(old(records), now)|)
      ensures ok ==> forall id :: id in records ==> !Prunable(records[id], now)
      ensures ok ==> disk.maybe == Certain(disk.shown)
    {
      hide IsRun, Step, Prunable, Certain, Possible;
      var left, done := Expired(records, now), 0;
      while left != {}
        invariant Valid() && Pruning() && old(states) <= states && left == Expired(records, now)
        invariant Now().process.Up? == old(Now()).process.Up? && disk.pending == old(disk).pending
        invariant done + |left| == |Expired(old(records), now)| && (failAt.Some? ==> failAt.value >= done)
        invariant Now().objects == old(Now()).objects && Now().fx.next == old(Now()).fx.next
        invariant forall id :: id in records ==> id in old(records) && records[id] == old(records)[id]
        invariant forall id :: id in old(records) && id !in records ==> Prunable(old(records)[id], now)
        decreases |left|
      {
        if failAt == Some(done) { return false; }
        var id :| id in left;
        ExpiredShrinks(records, now, id);
        UnlinkOne(id, now);
        left, done := left - {id}, done + 1;
      }
      forall id | id in records ensures !Prunable(records[id], now) {
        assert id !in left;
      }
      if syncFails { return false; }
      SyncPruned();
      ok := true;
    }

    method SyncPruned()
      requires Valid() && Pruning()
      modifies this`disk, this`states, this`events
      ensures Valid() && Pruning() && old(states) <= states && disk == Sync(old(disk))
      ensures Now() == old(Now()).(disk := disk)
    {
      hide IsRun;
      Advance(PruneSync, Now().(disk := Sync(Now().disk)));
      disk := Sync(disk);
    }

    /**
     Admits a publication id: prune, refuse an id that still has a record, refuse beyond the ceiling,
     and make the Prepared record durable before the caller gets anything to execute.
     */
    method Reserve(id: Id, name: nat, obj: nat, directory: bool, now: nat, expiresAt: nat, envelope: nat, bytes: nat,
                   failAt: Option<nat>, syncFails: bool, fault: Fault, generation: nat)
      returns (reply: Reply, ghost pruned: map<Id, Rec>)
      requires Valid() && Pruning() && Now().process.Up? && name !in disk.pending && obj !in Now().objects
      requires generation == Now().fx.next
      modifies this
      ensures Valid() && old(states) <= states
      ensures forall i :: i in pruned ==> i in old(records) && pruned[i] == old(records)[i]
      ensures forall i :: i in old(records) && i !in pruned ==> Prunable(old(records)[i], now)
      ensures failAt.None? && !syncFails ==>
        && (forall i :: i in pruned ==> !Prunable(pruned[i], now))
        && reply == ReserveReply(pruned, id, directory, envelope, bytes, fault)
      ensures reply.Refused? ==> records == pruned
      ensures reply.Done? ==>
        && id !in pruned && |pruned| < MAX_TRANSFER_JOURNALS && (directory ==> envelope <= MAX_JOURNAL_BYTES)
        && id in records && records == pruned[id := records[id]] && disk.maybe == Certain(disk.shown)
        && records[id].state.Prepared? && records[id].directory == directory && records[id].expiresAt == expiresAt
        && obj in Now().objects && Now().objects[obj] == Ready(id, directory)
    {
      hide IsRun, Step, Certain, Possible, Prunable;
      var ok := Prune(now, failAt, syncFails);
      pruned := records;
      if !ok { return Refused(Storage), pruned; }
      if id in records { return Refused(Replay), pruned; }
      if |records| >= MAX_TRANSFER_JOURNALS { return Refused(Limit), pruned; }
      if directory && envelope > MAX_JOURNAL_BYTES { return Refused(Limit), pruned; }
      var rec := Rec(Prepared, generation, directory, now, expiresAt, None, None);
      BeginReserve(id, rec, name, obj);
      reply := Put(id, rec, name, bytes, fault, ForReserve(obj));
    }

    ghost method BeginReserve(id: Id, rec: Rec, name: nat, obj: nat)
      requires Valid() && Idle(Now()) && id !in records && |records| < MAX_TRANSFER_JOURNALS && obj !in Now().objects
      requires rec == Rec(Prepared, Now().fx.next, rec.directory, rec.updatedAt, rec.expiresAt, None, None)
      modifies this`states, this`events
      ensures Valid() && old(states) <= states
      ensures Writing(JournalSteps.Put(id, rec, name, Begun, ForReserve(obj)), Begun)
      ensures Now().process == old(Now()).process && Now().objects == old(Now()).objects
    {
      hide IsRun;
      var w := Now();
      Advance(ReserveBegin(id, name, obj, rec.directory, rec.updatedAt, rec.expiresAt),
              Begin(w, id, rec, name, ForReserve(obj)).(fx := w.fx.(next := w.fx.next + 1)));
    }

    ghost method BeginRecover(id: Id, name: nat)
      requires Valid() && Now().process.Opening? && Now().put.None? && id in Now().process.todo
      modifies this`states, this`events
      ensures Valid() && old(states) <= states && Now().process == old(Now()).process
      ensures Writing(JournalSteps.Put(id, Recovered(Now().process.todo[id]), name, Begun, ForRecovery), Begun)
    {
      hide IsRun;
      var w := Now();
      Advance(RecoverBegin(id, name), Begin(w, id, Recovered(w.process.todo[id]), name, ForRecovery));
    }

    /** Lists the store and refuses it before touching anything unless every file in it is whole. */
    method List() returns (ok: bool)
      requires Valid() && Now().process.Down? && Now().put.None?
      modifies this
      ensures Valid() && old(states) <= states && ok == CanOpen(old(disk))
      ensures !ok ==> disk == old(disk) && states == old(states)
      ensures ok ==> Now().process == Opening(old(disk).shown, map[]) && Now().put.None? && records == map[]
      ensures ok ==> disk == Swept(old(disk))
    {
      hide IsRun, CanOpen;
      ok := CanOpen(disk);
      if ok {
        Advance(OpenBegin, Now().(process := Opening(disk.shown, map[]), disk := Swept(disk)));
        disk := Swept(disk);
        records := map[];
      }
    }

    /** Rewrites one listed record to what an interrupted publication can honestly claim. */
    method RecoverOne(id: Id, rec: Rec, name: nat, bytes: nat, fault: Fault) returns (ok: bool)
      requires Valid() && Now().process.Opening? && Now().put.None? && id in Now().process.todo && name !in disk.pending
      requires rec == Now().process.todo[id]
      modifies this
      ensures Valid() && old(states) <= states && Now().put.None?
      ensures ok ==> Now().process == Opening(old(Now()).process.todo - {id}, old(records)[id := Recovered(rec)])
      ensures ok ==> disk.pending == old(disk).pending && records == old(records)[id := Recovered(rec)]
      ensures !ok ==> Now().process.Down?
      ensures ok <==> fault.NoFault? && Fitting(old(records), id, bytes)
    {
      hide IsRun, Step, Certain, Possible;
      BeginRecover(id, name);
      var reply := Put(id, Recovered(rec), name, bytes, fault, ForRecovery);
      ok := reply.Done?;
    }

    /** Recovers every listed record, in some order. `failAt` is how many puts succeed before one fails. */
    method RecoverAll(listed: map<Id, Rec>, sizes: map<Id, nat>, failAt: Option<nat>, fault: Fault) returns (ok: bool)
      requires Valid() && Now().process == Opening(listed, map[]) && records == map[] && Now().put.None?
      requires disk.pending == map[] && listed.Keys <= sizes.Keys
      modifies this
      ensures Valid() && old(states) <= states
      ensures ok ==> Pruning() && Now().process.Opening? && disk.pending == map[] && Recovering(map[], records, listed)
      ensures !ok ==> Now().process.Down? && Now().put.None?
      ensures failAt.None? && |listed| <= MAX_TRANSFER_JOURNALS && AllFit(sizes) ==> ok
    {
      hide IsRun, Step, Certain, Possible, Recovered, Recovering;
      RecoverFirst(listed);
      var todo, done := listed, 0;
      while todo.Keys != {}
        invariant Valid() && old(states) <= states && Now().process == Opening(todo, records) && Now().put.None?
        invariant disk.pending == map[] && Recovering(todo, records, listed)
        decreases |todo.Keys|
      {
        var id :| id in todo.Keys;
        RecoverNext(todo, records, listed, id);
        RecoveringCounts(todo, records, listed, id);
        assert AllFit(sizes) ==> sizes[id] <= MAX_JOURNAL_BYTES;
        ok := RecoverOne(id, todo[id], 0, sizes[id], if failAt == Some(done) then fault else NoFault);
        if !ok { return; }
        todo, done := todo - {id}, done + 1;
      }
      assert todo == map[];
      ok := true;
    }

    ghost method Finish(e: Event)
      requires Valid() && Now().process.Opening? && Now().put.None?
      requires e.OpenFail? || (e.OpenDone? && Now().process.todo == map[])
      modifies this`states, this`events
      ensures Valid() && old(states) <= states && Now().put.None?
      ensures Now().process == if e.OpenDone? then Up(records) else Down
    {
      hide IsRun;
      Advance(e, Now().(process := if e.OpenDone? then Up(records) else Down));
    }

    /**
     Opens the store: refuse it untouched unless it is whole, recover every record, prune. On success no
     record is Prepared or Publishing, and each is its file's record with an interruption made plain.
     */
    method Open(now: nat, sizes: map<Id, nat>, failAt: Option<nat>, fault: Fault, unlinkFails: Option<nat>,
                syncFails: bool)
      returns (ok: bool)
      requires Valid() && Now().process.Down? && Now().put.None? && disk.shown.Keys <= sizes.Keys
      modifies this
      ensures Valid() && old(states) <= states && ok == Now().process.Up?
      ensures !CanOpen(old(disk)) ==> !ok && disk == old(disk)
      ensures CanOpen(old(disk)) && failAt.None? && unlinkFails.None? && !syncFails && AllFit(sizes) ==> ok
      ensures ok ==> OpenedFrom(old(disk).shown, records, now)
      ensures ok ==> disk.maybe == Certain(disk.shown)
    {
      hide IsRun, Step, Certain, Possible, CanOpen, Prunable, Recovering, OpenedFrom, AllFit;
      var listed := disk.shown;
      FewFiles(disk);
      ok := List();
      if !ok { return; }
      ok := RecoverAll(listed, sizes, failAt, fault);
      if !ok { return; }
      ghost var recovered := records;
      ok := Prune(now, unlinkFails, syncFails);
      if ok { RecoveredThenPruned(listed, recovered, records, now); }
      Finish(if ok then OpenDone else OpenFail);
    }

    // --- The callers of put, each under the lock ---

    ghost method Begins(e: Event, w: World)
      requires Valid() && Step(Now(), e, w) && w.disk == Now().disk && w.process == Now().process
      modifies this`states, this`events
      ensures Valid() && old(states) <= states && Now() == w
    {
      hide Step, IsRun;
      Advance(e, w);
    }

    /** A prepared publication past its time is durably cancelled before it is reported so. */
    method Status(id: Id, name: nat, a: Attempt) returns (reply: Reply, state: Option<State>)
      requires Valid() && Idle(Now()) && name !in disk.pending
      modifies this
      ensures Valid() && old(states) <= states && Idle(Now())
      ensures reply.Refused? ==> records == old(records) && state.None? && !Goes(a)
      ensures reply.Done? ==> state == if id in records then Some(records[id].state) else None
      ensures reply.Done? && Outdated(old(records), id, a.now) ==>
        && records == old(records)[id := old(records)[id].(state := Cancelled, updatedAt := a.now)]
        && OnlyDurable(disk, id, records[id])
      ensures !Outdated(old(records), id, a.now) ==> reply.Done? && records == old(records) && disk == old(disk)
    {
      hide IsRun, Certain, OnlyDurable;
      if !Outdated(records, id, a.now) {
        return Done, if id in records then Some(records[id].state) else None;
      }
      var rec := records[id].(state := Cancelled, updatedAt := a.now);
      Begins(ExpireBegin(id, name, a.now), Begin(Now(), id, rec, name, ForExpiry));
      hide Step;
      reply := Put(id, rec, name, a.bytes, a.fault, ForExpiry);
      state := if reply.Done? then Some(Cancelled) else None;
    }

    /** The durable fence: only once Publishing is on disk may the object start the effect. */
    method Fence(obj: nat, id: Id, directory: bool, preparation: Id, invocation: Id, name: nat, a: Attempt)
      returns (reply: Reply, rec: Rec)
      requires Valid() && Idle(Now()) && name !in disk.pending
      requires obj in Now().objects && Now().objects[obj] == Ready(id, directory)
      requires Admissible(records, id, a.now)
      modifies this
      ensures Valid() && old(states) <= states && Idle(Now()) && disk.pending == old(disk).pending
      ensures rec.state.Publishing? && rec.generation == old(records)[id].generation
        && rec.directory == old(records)[id].directory
      ensures reply.Done? <==> Goes(a)
      ensures reply.Done? ==>
        && records == old(records)[id := rec] && OnlyDurable(disk, id, rec)
        && Now().objects == old(Now()).objects[obj := Effecting(id, directory, rec)]
        && Now().fx == old(Now()).fx.(started := old(Now()).fx.started + {Key(id, rec.generation)},
                                      inFlight := old(Now()).fx.inFlight + {Key(id, rec.generation)})
      ensures reply.Refused? ==>
        records == old(records) && Now().objects == old(Now()).objects[obj := Dropping(id)] && Now().fx == old(Now()).fx
    {
      hide IsRun, Certain, OnlyDurable;
      rec := records[id].(state := Publishing, updatedAt := a.now, preparation := Some(preparation),
                          invocation := Some(invocation));
      Begins(FenceBegin(obj, name, preparation, invocation, a.now), Begin(Now(), id, rec, name, ForFence(obj)));
      hide Step;
      reply := Put(id, rec, name, a.bytes, a.fault, ForFence(obj));
    }

    /** Makes the effect's result durable. */
    method Settle(obj: nat, id: Id, rec: Rec, name: nat, bytes: nat, fault: Fault) returns (reply: Reply)
      requires Valid() && Idle(Now()) && name !in disk.pending
      requires obj in Now().objects && Now().objects[obj] == Settling(id, rec)
      modifies this
      ensures reply.Done? <==> fault.NoFault? && Fitting(old(records), id, bytes)
      ensures Valid() && old(states) <= states && Idle(Now()) && disk.pending == old(disk).pending
      ensures Now().objects == old(Now()).objects[obj := Dropping(id)] && Now().fx == old(Now()).fx
      ensures records == if reply.Done? then old(records)[id := rec] else old(records)
      ensures reply.Done? ==> OnlyDurable(disk, id, rec)
    {
      hide IsRun, Certain, OnlyDurable;
      Begins(SettleBegin(obj, name), Begin(Now(), id, rec, name, ForSettle(obj)));
      hide Step;
      reply := Put(id, rec, name, bytes, fault, ForSettle(obj));
    }

    /** Dropping an object: Prepared becomes Cancelled, Publishing becomes Indeterminate, anything else stays. */
    method DropObject(obj: nat, id: Id, name: nat, a: Attempt)
      requires Valid() && Idle(Now()) && name !in disk.pending
      requires obj in Now().objects && Now().objects[obj] == Dropping(id)
      modifies this
      ensures Valid() && old(states) <= states && Idle(Now())
      ensures Now().objects == old(Now()).objects - {obj} && Now().fx == old(Now()).fx
      ensures id in old(records) && JournalSafety.Open(old(records)[id].state) && Goes(a) ==>
        && records == old(records)[id := Recovered(old(records)[id]).(updatedAt := a.now)]
        && OnlyDurable(disk, id, records[id])
      ensures id in old(records) && JournalSafety.Open(old(records)[id].state) && !Goes(a) ==> records == old(records)
      ensures !(id in old(records) && JournalSafety.Open(old(records)[id].state)) ==>
        records == old(records) && disk == old(disk)
    {
      hide IsRun, Certain, OnlyDurable;
      ghost var w := Now();
      if id in records && JournalSafety.Open(records[id].state) {
        var rec := Recovered(records[id]).(updatedAt := a.now);
        Begins(DropBegin(obj, name, a.now), Begin(w, id, rec, name, ForDrop(obj)));
        hide Step;
        var _ := Put(id, rec, name, a.bytes, a.fault, ForDrop(obj));
      } else {
        Begins(DropBegin(obj, name, a.now), w.(objects := w.objects - {obj}));
      }
    }

    /** The effect runs between two steps of the store: it may take place, and then it returns. */
    ghost method RunEffect(obj: nat, id: Id, directory: bool, rec: Rec, happens: bool, outcome: Outcome, now: nat)
      requires Valid() && Idle(Now()) && obj in Now().objects && Now().objects[obj] == Effecting(id, directory, rec)
      requires Key(id, rec.generation) in Now().fx.inFlight && Key(id, rec.generation) !in Now().fx.happened
      requires Truthful(outcome, happens)
      modifies this`states, this`events
      ensures Valid() && old(states) <= states && Idle(Now()) && Now().process == old(Now()).process
      ensures Now().fx.started == old(Now()).fx.started
      ensures Now().fx.happened == old(Now()).fx.happened + if happens then {Key(id, rec.generation)} else {}
      ensures Now().objects == old(Now()).objects[obj :=
        if Carries(directory, rec.directory, outcome) then Settling(id, Settled(rec, outcome, now)) else Dropping(id)]
    {
      hide IsRun;
      var key := Key(id, rec.generation);
      if happens { Begins(Happen(key), Now().(fx := Now().fx.(happened := Now().fx.happened + {key}))); }
      var w := Now();
      Begins(Return(obj, outcome, now),
        w.(fx := w.fx.(inFlight := w.fx.inFlight - {key}),
           objects := if directory && outcome.EffectOk? && !rec.directory then ToDropping(w.objects, obj)
                      else w.objects[obj := Settling(id, Settled(rec, outcome, now))]));
    }

    /** Somewhere in this run the effect had not yet happened and its Publishing record was the only durable one. */
    ghost predicate FencedBefore(id: Id, generation: nat, happened: set<Key>)
      reads this
    {
      exists r: Rec :: r.generation == generation && FencedIn(states, id, r, happened)
    }

    /**
     Executes a prepared publication and drops it. The effect is run only behind a durable fence; the answer is
     given only once the result is durable; and however the puts fail, a record left behind never claims more
     than is known.
     */
    method Execute(obj: nat, id: Id, directory: bool, preparation: Id, invocation: Id, refused: bool, happens: bool,
                   outcome: Outcome, name: nat, fence: Attempt, settle: Attempt, drop: Attempt)
      returns (result: Executed)
      requires Valid() && Idle(Now()) && name !in disk.pending && Truthful(outcome, happens)
      requires obj in Now().objects && Now().objects[obj] == Ready(id, directory)
      modifies this
      ensures Valid() && old(states) <= states && Idle(Now()) && obj !in Now().objects
      ensures !result.NotAdmitted? <==> !refused && Admissible(old(records), id, fence.now) && Goes(fence)
      ensures result.NotAdmitted? ==>
        Now().fx.started == old(Now()).fx.started && Now().fx.happened == old(Now()).fx.happened
      ensures !result.NotAdmitted? ==>
        && var key := Key(id, old(records)[id].generation);
        && key !in old(Now()).fx.started && Now().fx.started == old(Now()).fx.started + {key}
        && Now().fx.happened == old(Now()).fx.happened + (if happens then {key} else {})
        && FencedBefore(id, old(records)[id].generation, old(Now()).fx.happened)
      ensures result.Answered? <==>
        !result.NotAdmitted? && Goes(settle) && Carries(directory, old(records)[id].directory, outcome)
      ensures result.Answered? ==>
        && result.outcome == outcome && id in records && records[id].state == OutcomeState(outcome)
        && OnlyDurable(disk, id, records[id])
      ensures result.Unknown? && Goes(drop) ==>
        id in records && records[id].state.Indeterminate? && OnlyDurable(disk, id, records[id])
      ensures result.NotAdmitted? && id in old(records) && Goes(drop) ==>
        id in records && !records[id].state.Prepared? && !records[id].state.Publishing?
    {
      hide IsRun, Step, Certain, Possible, Recovered, OnlyDurable, FencedBefore, Carries;
      RecoveredIsClosed();
      if refused || !Admissible(records, id, fence.now) {
        Abandon(obj, id, directory);
        DropObject(obj, id, name, drop);
        return NotAdmitted;
      }
      FenceIsNew(id);
      var reply, rec := Fence(obj, id, directory, preparation, invocation, name, fence);
      if reply.Refused? {
        DropObject(obj, id, name, drop);
        return NotAdmitted;
      }
      IsFenced(id, rec);
      ghost var fenced := states;
      RunEffect(obj, id, directory, rec, happens, outcome, settle.now);
      result := Conclude(obj, id, directory, rec, outcome, name, settle, drop);
      StillFenced(fenced, id, rec, old(Now()).fx.happened);
    }

    lemma {:induction false} IsFenced(id: Id, rec: Rec)
      requires Valid() && rec.state.Publishing? && OnlyDurable(disk, id, rec)
        && Key(id, rec.generation) in Now().fx.started
      ensures FencedIn(states, id, rec, Now().fx.happened)
    {
      hide IsRun, OnlyDurable;
      assert Now() in states;
    }

    lemma {:induction false} StillFenced(earlier: seq<World>, id: Id, rec: Rec, happened: set<Key>)
      requires earlier <= states && FencedIn(earlier, id, rec, happened)
      ensures FencedBefore(id, rec.generation, happened)
    {
      hide Fencing;
      var w :| w in earlier && Fencing(w, id, rec, happened);
      assert w in states;
      assert FencedIn(states, id, rec, happened);
    }

    /** Writes the result down, if the record can carry it, and drops the object. */
    method Conclude(obj: nat, id: Id, directory: bool, rec: Rec, outcome: Outcome, name: nat, settle: Attempt,
                    drop: Attempt)
      returns (result: Executed)
      requires Valid() && Idle(Now()) && name !in disk.pending && obj in Now().objects
      requires id in records && records[id] == rec && rec.state.Publishing?
      requires Now().objects[obj] ==
        if Carries(directory, rec.directory, outcome) then Settling(id, Settled(rec, outcome, settle.now))
        else Dropping(id)
      modifies this
      ensures Valid() && old(states) <= states && Idle(Now()) && obj !in Now().objects && Now().fx == old(Now()).fx
      ensures result ==
        if Goes(settle) && Carries(directory, rec.directory, outcome) then Answered(outcome) else Unknown
      ensures result.Answered? ==>
        id in records && records[id].state == OutcomeState(outcome) && OnlyDurable(disk, id, records[id])
      ensures result.Unknown? && Goes(drop) ==>
        id in records && records[id].state.Indeterminate? && OnlyDurable(disk, id, records[id])
    {
      hide IsRun, Step, Certain, Possible, OnlyDurable, Carries;
      result := Unknown;
      if Carries(directory, rec.directory, outcome) {
        var reply := Settle(obj, id, Settled(rec, outcome, settle.now), name, settle.bytes, settle.fault);
        if reply.Done? { result := Answered(outcome); }
      }
      DropObject(obj, id, name, drop);
    }

    /** A fenced reservation has not been started before. */
    lemma {:induction false} FenceIsNew(id: Id)
      requires Valid() && Idle(Now()) && id in records && records[id].state.Prepared?
      ensures var key := Key(id, records[id].generation); key !in Now().fx.started && key !in Now().fx.happened
    {
      RunInv(states, events, |states| - 1);
      assert Holds(Now(), id, Some(records[id]));
      hide IsRun, Step, ObjectsInv, PutInv, DiskInv, NoWayBack;
    }

    ghost method Abandon(obj: nat, id: Id, directory: bool)
      requires Valid() && Idle(Now()) && obj in Now().objects && Now().objects[obj] == Ready(id, directory)
      modifies this`states, this`events
      ensures Valid() && old(states) <= states
        && Now() == old(Now()).(objects := old(Now()).objects[obj := Dropping(id)])
    {
      hide IsRun;
      var w := Now();
      Begins(GiveUp(obj), w.(objects := ToDropping(w.objects, obj)));
    }
  }

  /** One put, as its caller finds it: the time, the encoded size, and where it fails if it does. */
  datatype Attempt = Attempt(now: nat, bytes: nat, fault: Fault)

  predicate Goes(a: Attempt) { a.fault.NoFault? && a.bytes <= MAX_JOURNAL_BYTES }

  /** The record is the only value a crash can leave for this id. */
  ghost predicate OnlyDurable(d: Disk, id: Id, r: Rec) { Possible(d, id) == {Some(r)} }

  lemma {:induction false} SyncedIsOnly(d: Disk, id: Id)
    requires d.maybe == Certain(d.shown) && id in d.shown
    ensures OnlyDurable(d, id, d.shown[id])
  {
  }

  ghost predicate Fencing(w: World, id: Id, rec: Rec, happened: set<Key>) {
    && w.fx.happened == happened && Key(id, rec.generation) in w.fx.started
    && rec.state.Publishing? && OnlyDurable(w.disk, id, rec)
  }

  ghost predicate FencedIn(states: seq<World>, id: Id, rec: Rec, happened: set<Key>) {
    exists w :: w in states && Fencing(w, id, rec, happened)
  }

  /** A directory's success needs a record that can hold a receipt; every other result goes into any record. */
  predicate Carries(directory: bool, record: bool, outcome: Outcome) { directory && outcome.EffectOk? ==> record }

  predicate Outdated(records: map<Id, Rec>, id: Id, now: nat) {
    id in records && records[id].state.Prepared? && now >= records[id].expiresAt
  }

  /** What the caller of execute learns. */
  datatype Executed = NotAdmitted | Answered(outcome: Outcome) | Unknown

  function OutcomeState(outcome: Outcome): State {
    match outcome
    case EffectOk => Completed
    case EffectIndeterminate => Indeterminate
    case EffectCancelled => Cancelled
    case EffectError => Failed
  }

  lemma {:induction false} RecoveredIsClosed()
    ensures forall r: Rec :: !Recovered(r).state.Prepared? && !Recovered(r).state.Publishing?
  {
  }

  /** The record is still waiting for its execution. */
  predicate Admissible(records: map<Id, Rec>, id: Id, now: nat) {
    id in records && records[id].state.Prepared? && now < records[id].expiresAt
  }

  /** How a reservation is answered once pruning has succeeded. */
  function ReserveReply(records: map<Id, Rec>, id: Id, directory: bool, envelope: nat, bytes: nat, fault: Fault)
    : Reply
  {
    if id in records then Refused(Replay)
    else if |records| >= MAX_TRANSFER_JOURNALS || (directory && envelope > MAX_JOURNAL_BYTES) then Refused(Limit)
    else if !Fitting(records, id, bytes) then Refused(Limit)
    else if fault.NoFault? then Done else Refused(Storage)
  }

  predicate Fitting(records: map<Id, Rec>, id: Id, bytes: nat) {
    bytes <= MAX_JOURNAL_BYTES && (id in records || |records| < MAX_TRANSFER_JOURNALS)
  }

  /** The world after one operation of the put under way. */
  function AfterOp(w: World, e: Event): World
    requires w.put.Some?
  {
    var p := w.put.value;
    match e
    case PutCreate => w.(put := Some(p.(phase := Created)), disk := Create(w.disk, p.name))
    case PutWrite => w.(put := Some(p.(phase := Written)), disk := Fill(w.disk, p.name))
    case PutRename => w.(put := Some(p.(phase := Renamed)), disk := Rename(w.disk, p.name, p.id, p.rec))
    case PutSync => AfterSuccess(w.(put := None, disk := Sync(w.disk), process := Remember(w.process, p.id, p.rec)), p)
    case PutFail =>
      AfterFailure(w.(put := None, disk := if p.phase.Begun? then w.disk else Discard(w.disk, p.name)), p)
    case _ => w
  }
}
