/**
 The publication journal: records in memory, their files on a disk that may crash at any point,
 the prepared objects that execute against it, and the effects they start.
 */
module JournalSteps {
  import opened Wrappers

  const MAX_TRANSFER_JOURNALS := 256
  const MAX_JOURNAL_BYTES := 32 * 1024
  const TRANSFER_OUTCOME_RETENTION_MS := 24 * 60 * 60 * 1000

  type Id = string

  datatype State = Prepared | Publishing | Completed | Failed | Cancelled | Indeterminate

  /** `generation` numbers the reservation a record descends from; the program does not store it. */
  datatype Rec = Rec(
    state: State, generation: nat, directory: bool, updatedAt: nat, expiresAt: nat,
    preparation: Option<Id>, invocation: Option<Id>)

  // --- The disk ---

  /** A pending file is readable once it has been written and synced. */
  datatype Content = Half | Whole

  /**
   `shown` is what the directory lists now; `maybe` is what each name may hold after a crash, a name
   it does not mention being certainly absent. Removed pending files may come back until a sync.
   */
  datatype Disk = Disk(
    shown: map<Id, Rec>, maybe: map<Id, set<Option<Rec>>>,
    pending: map<nat, Content>, removed: map<nat, Content>)

  function Get(m: map<Id, Rec>, id: Id): Option<Rec> {
    if id in m then Some(m[id]) else None
  }

  function Possible(d: Disk, id: Id): set<Option<Rec>> {
    if id in d.maybe then d.maybe[id] else {None}
  }

  function Certain(shown: map<Id, Rec>): map<Id, set<Option<Rec>>> {
    map id | id in shown :: {Some(shown[id])}
  }

  function Create(d: Disk, name: nat): Disk { d.(pending := d.pending[name := Half]) }

  function Fill(d: Disk, name: nat): Disk { d.(pending := d.pending[name := Whole]) }

  function Discard(d: Disk, name: nat): Disk {
    if name in d.pending then
      d.(pending := d.pending - {name}, removed := d.removed[name := d.pending[name]])
    else d
  }

  function Rename(d: Disk, name: nat, id: Id, rec: Rec): Disk {
    Discard(d, name).(shown := d.shown[id := rec], maybe := d.maybe[id := Possible(d, id) + {Some(rec)}])
  }

  function Unlink(d: Disk, id: Id): Disk {
    d.(shown := d.shown - {id}, maybe := d.maybe[id := Possible(d, id) + {None}])
  }

  function Sync(d: Disk): Disk { d.(maybe := Certain(d.shown), removed := map[]) }

  function Swept(d: Disk): Disk { d.(pending := map[], removed := d.removed + d.pending) }

  ghost predicate Survives(d: Disk, e: Disk) {
    && (forall id :: Get(e.shown, id) in Possible(d, id))
    && e.maybe == Certain(e.shown)
    && e.removed == map[]
    && (forall n :: n in e.pending ==> n in d.pending + d.removed && e.pending[n] == (d.pending + d.removed)[n])
  }

  // --- The process ---

  datatype Process =
    | Down
    | Opening(todo: map<Id, Rec>, records: map<Id, Rec>)
    | Up(records: map<Id, Rec>)

  /** What a put is for: its caller decides what happens once it succeeds or fails. */
  datatype Caller =
    | ForReserve(obj: nat)
    | ForRecord
    | ForExpiry
    | ForFence(obj: nat)
    | ForSettle(obj: nat)
    | ForDrop(obj: nat)
    | ForRecovery

  datatype Phase = Begun | Created | Written | Renamed

  datatype Put = Put(id: Id, rec: Rec, name: nat, phase: Phase, caller: Caller)

  /** A prepared publication, of a file or of a directory. */
  datatype Stage =
    | Ready(id: Id, directory: bool)
    | Effecting(id: Id, directory: bool, rec: Rec)
    | Settling(id: Id, rec: Rec)
    | Dropping(id: Id)

  datatype Key = Key(id: Id, generation: nat)

  /** Which effects were admitted, which took place, which may still take place, and whose records were pruned. */
  datatype Effects = Effects(started: set<Key>, happened: set<Key>, inFlight: set<Key>, pruned: set<Key>, next: nat)

  datatype World = World(process: Process, put: Option<Put>, disk: Disk, objects: map<nat, Stage>, fx: Effects)

  const FRESH: World :=
    World(Down, None, Disk(map[], map[], map[], map[]), map[], Effects({}, {}, {}, {}, 0))

  // --- Steps ---

  datatype Outcome = EffectOk | EffectIndeterminate | EffectCancelled | EffectError

  datatype Event =
    | OpenBegin
    | RecoverBegin(id: Id, name: nat)
    | OpenFail
    | OpenDone
    | PruneUnlink(id: Id, now: nat)
    | PruneSync
    | ReserveBegin(id: Id, name: nat, obj: nat, directory: bool, now: nat, expiresAt: nat)
    | RecordBegin(id: Id, name: nat, preparation: Id, expiresAt: nat)
    | ExpireBegin(id: Id, name: nat, now: nat)
    | FenceBegin(obj: nat, name: nat, preparation: Id, invocation: Id, now: nat)
    | GiveUp(obj: nat)
    | Happen(key: Key)
    | Return(obj: nat, outcome: Outcome, now: nat)
    | SettleBegin(obj: nat, name: nat)
    | DropBegin(obj: nat, name: nat, now: nat)
    | PutCreate
    | PutWrite
    | PutRename
    | PutSync
    | PutFail
    | Crash

  predicate Terminal(s: State) { s.Completed? || s.Failed? || s.Cancelled? }

  predicate Prunable(r: Rec, now: nat) {
    Terminal(r.state) && now > r.updatedAt + TRANSFER_OUTCOME_RETENTION_MS
  }

  function Recovered(r: Rec): Rec {
    match r.state
    case Publishing => r.(state := Indeterminate)
    case Prepared => r.(state := Cancelled)
    case _ => r
  }

  function Settled(r: Rec, outcome: Outcome, now: nat): Rec {
    r.(updatedAt := now,
       state := match outcome
                case EffectOk => Completed
                case EffectIndeterminate => Indeterminate
                case EffectCancelled => Cancelled
                case EffectError => Failed)
  }

  function Begin(w: World, id: Id, rec: Rec, name: nat, caller: Caller): World {
    w.(put := Some(Put(id, rec, name, Begun, caller)))
  }

  predicate Idle(w: World) { w.process.Up? && w.put.None? }

  /** What the effect call promises about its result. */
  predicate Truthful(outcome: Outcome, happened: bool) {
    match outcome
    case EffectOk => happened
    case EffectIndeterminate => true
    case _ => !happened
  }

  predicate CanOpen(d: Disk) {
    && (forall n :: n in d.pending ==> d.pending[n].Whole?)
    && |d.pending| + |d.shown| + 1 <= 2 * MAX_TRANSFER_JOURNALS + 1
    && |d.shown| <= MAX_TRANSFER_JOURNALS
  }

  function ToDropping(objects: map<nat, Stage>, o: nat): map<nat, Stage>
    requires o in objects
  {
    objects[o := Dropping(objects[o].id)]
  }

  function AfterSuccess(w: World, p: Put): World {
    match p.caller
    case ForReserve(o) => w.(objects := w.objects[o := Ready(p.id, p.rec.directory)])
    case ForFence(o) =>
      if o !in w.objects then w
      else
        w.(objects := w.objects[o := Effecting(p.id, w.objects[o].Ready? && w.objects[o].directory, p.rec)],
           fx := w.fx.(started := w.fx.started + {Key(p.id, p.rec.generation)},
                       inFlight := w.fx.inFlight + {Key(p.id, p.rec.generation)}))
    case ForSettle(o) => if o in w.objects then w.(objects := ToDropping(w.objects, o)) else w
    case ForDrop(o) => w.(objects := w.objects - {o})
    case _ => w
  }

  function AfterFailure(w: World, p: Put): World {
    match p.caller
    case ForFence(o) => if o in w.objects then w.(objects := ToDropping(w.objects, o)) else w
    case ForSettle(o) => if o in w.objects then w.(objects := ToDropping(w.objects, o)) else w
    case ForDrop(o) => w.(objects := w.objects - {o})
    case ForRecovery => w.(process := Down)
    case _ => w
  }

  function Remember(p: Process, id: Id, rec: Rec): Process {
    match p
    case Down => Down
    case Opening(todo, records) => Opening(todo - {id}, records[id := rec])
    case Up(records) => Up(records[id := rec])
  }

  ghost predicate Step(w: World, e: Event, w': World) {
    match e
    case OpenBegin =>
      && w.process.Down? && CanOpen(w.disk)
      && w' == w.(process := Opening(w.disk.shown, map[]), disk := Swept(w.disk))
    case RecoverBegin(id, name) =>
      && w.process.Opening? && w.put.None? && id in w.process.todo
      && w' == Begin(w, id, Recovered(w.process.todo[id]), name, ForRecovery)
    case OpenFail =>
      w.process.Opening? && w.put.None? && w' == w.(process := Down)
    case OpenDone =>
      && w.process.Opening? && w.put.None? && w.process.todo == map[]
      && w' == w.(process := Up(w.process.records))
    case PruneUnlink(id, now) =>
      && !w.process.Down? && w.put.None? && (w.process.Opening? ==> w.process.todo == map[])
      && id in w.process.records && Prunable(w.process.records[id], now)
      && w' == w.(process := w.process.(records := w.process.records - {id}), disk := Unlink(w.disk, id),
                  fx := w.fx.(pruned := w.fx.pruned + {Key(id, w.process.records[id].generation)}))
    case PruneSync =>
      !w.process.Down? && w.put.None? && w' == w.(disk := Sync(w.disk))
    case ReserveBegin(id, name, obj, directory, now, expiresAt) =>
      && Idle(w) && id !in w.process.records && |w.process.records| < MAX_TRANSFER_JOURNALS && obj !in w.objects
      && w' == Begin(w, id, Rec(Prepared, w.fx.next, directory, now, expiresAt, None, None), name, ForReserve(obj))
               .(fx := w.fx.(next := w.fx.next + 1))
    case RecordBegin(id, name, preparation, expiresAt) =>
      && Idle(w) && id in w.process.records
      && w' == Begin(w, id, w.process.records[id].(preparation := Some(preparation), expiresAt := expiresAt),
                     name, ForRecord)
    case ExpireBegin(id, name, now) =>
      && Idle(w) && id in w.process.records && w.process.records[id].state.Prepared?
      && now >= w.process.records[id].expiresAt
      && w' == Begin(w, id, w.process.records[id].(state := Cancelled, updatedAt := now), name, ForExpiry)
    case FenceBegin(obj, name, preparation, invocation, now) =>
      && Idle(w) && obj in w.objects && w.objects[obj].Ready?
      && var id := w.objects[obj].id;
      && id in w.process.records && w.process.records[id].state.Prepared? && now < w.process.records[id].expiresAt
      && w' == Begin(w, id, w.process.records[id].(state := Publishing, updatedAt := now,
                     preparation := Some(preparation), invocation := Some(invocation)), name, ForFence(obj))
    case GiveUp(obj) =>
      && obj in w.objects && (w.objects[obj].Ready? || w.objects[obj].Effecting?) && !Busy(w, obj)
      && w' == w.(objects := ToDropping(w.objects, obj))
    case Happen(key) =>
      key in w.fx.inFlight && w' == w.(fx := w.fx.(happened := w.fx.happened + {key}))
    case Return(obj, outcome, now) =>
      && obj in w.objects && w.objects[obj].Effecting?
      && var s := w.objects[obj];
      && var key := Key(s.id, s.rec.generation);
      && Truthful(outcome, key in w.fx.happened)
      && w' == w.(fx := w.fx.(inFlight := w.fx.inFlight - {key}),
                  objects := if s.directory && outcome.EffectOk? && !s.rec.directory then ToDropping(w.objects, obj)
                             else w.objects[obj := Settling(s.id, Settled(s.rec, outcome, now))])
    case SettleBegin(obj, name) =>
      && Idle(w) && obj in w.objects && w.objects[obj].Settling?
      && w' == Begin(w, w.objects[obj].id, w.objects[obj].rec, name, ForSettle(obj))
    case DropBegin(obj, name, now) =>
      && Idle(w) && obj in w.objects && w.objects[obj].Dropping?
      && var id := w.objects[obj].id;
      w' == if id in w.process.records && w.process.records[id].state in {Prepared, Publishing} then
              Begin(w, id, Recovered(w.process.records[id]).(updatedAt := now), name, ForDrop(obj))
            else w.(objects := w.objects - {obj})
    case PutCreate =>
      && w.put.Some? && w.put.value.phase.Begun? && w.put.value.name !in w.disk.pending
      && w' == w.(put := Some(w.put.value.(phase := Created)), disk := Create(w.disk, w.put.value.name))
    case PutWrite =>
      && w.put.Some? && w.put.value.phase.Created?
      && w' == w.(put := Some(w.put.value.(phase := Written)), disk := Fill(w.disk, w.put.value.name))
    case PutRename =>
      && w.put.Some? && w.put.value.phase.Written?
      && w' == w.(put := Some(w.put.value.(phase := Renamed)),
                  disk := Rename(w.disk, w.put.value.name, w.put.value.id, w.put.value.rec))
    case PutSync =>
      && w.put.Some? && w.put.value.phase.Renamed?
      && var p := w.put.value;
      w' == AfterSuccess(w.(put := None, disk := Sync(w.disk), process := Remember(w.process, p.id, p.rec)), p)
    case PutFail =>
      && w.put.Some?
      && var p := w.put.value;
      w' == AfterFailure(w.(put := None, disk := if p.phase.Begun? then w.disk else Discard(w.disk, p.name)), p)
    case Crash =>
      && Survives(w.disk, w'.disk)
      && w' == World(Down, None, w'.disk, map[], w.fx.(inFlight := {}))
  }

  /** The object is waiting for its own put. */
  predicate Busy(w: World, obj: nat) {
    w.put.Some? &&
    match w.put.value.caller
    case ForFence(o) => o == obj
    case ForSettle(o) => o == obj
    case ForDrop(o) => o == obj
    case _ => false
  }
}
