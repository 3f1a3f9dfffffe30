/**
 Staged uploads: slots that a registry and any number of requests hold on to, the private file each
 upload fills, and the quota that is given back only when the last holder lets go.
 */
module Staging {
  import opened Sums

  const MAX_TRANSFER_STAGES := 32
  const MAX_TRANSFER_RESERVED_BYTES := 512 * 1024 * 1024

  type Id = string
  type Bytes = seq<int>

  /** The host's digest function and its own limit on one file. */
  datatype Host = Host(digest: Bytes -> string, maximum: nat)

  datatype Data =
    | Empty
    | Uploading
    | Uploaded(file: nat, digest: string, size: nat)
    | Sealed(file: nat)
    | Claimed
    | Download

  datatype Slot = Slot(size: nat, digest: string, cancelled: bool, data: Data)

  /** What a request under way holds: a charge, a slot, a slot and the file it writes, or a prepared publication. */
  datatype Task =
    | Admitting(size: nat, digest: string, download: bool)
    | Holding(slot: nat)
    | Writing(slot: nat, file: nat)
    | Prepared(slot: nat, file: nat, size: nat, digest: string)

  /** `fileOf` and `claimed` are history: the file each slot was ever given, and the slots ever claimed. */
  datatype World = World(
    registry: map<Id, nat>, slots: map<nat, Slot>, tasks: map<nat, Task>, files: map<nat, Bytes>,
    count: int, bytes: int, nextSlot: nat, nextFile: nat, fileOf: map<nat, nat>, claimed: set<nat>)

  const UNUSED: World := World(map[], map[], map[], map[], 0, 0, 0, 0, map[], {})

  datatype Event =
    | Charge(task: nat, size: nat, digest: string, download: bool)
    | Insert(task: nat, id: Id)
    | Lookup(task: nat, id: Id)
    | StartUpload(task: nat)
    | Chunk(task: nat, chunk: Bytes)
    | UploadDone(task: nat)
    | UploadFailed(task: nat)
    | UploadGone(task: nat)
    | Seal(task: nat)
    | Claim(task: nat, size: nat, digest: string)
    | LetGo(task: nat)
    | Release(id: Id)
    | DropSlot(slot: nat)

  ghost predicate Referenced(w: World, s: nat) {
    || (exists id :: id in w.registry && w.registry[id] == s)
    || (exists t :: t in w.tasks && !w.tasks[t].Admitting? && w.tasks[t].slot == s)
  }

  predicate Holds(w: World, t: nat) {
    t in w.tasks && w.tasks[t].Holding? && w.tasks[t].slot in w.slots
  }

  predicate Writes(w: World, t: nat) {
    t in w.tasks && w.tasks[t].Writing? && w.tasks[t].slot in w.slots && w.tasks[t].file in w.files
  }

  function SetData(w: World, s: nat, d: Data): World
    requires s in w.slots
  {
    w.(slots := w.slots[s := w.slots[s].(data := d)])
  }

  function SealedData(s: Slot): Data {
    if s.data.Uploaded? then
      if s.data.digest == s.digest && s.data.size == s.size then Sealed(s.data.file) else Claimed
    else s.data
  }

  ghost predicate Step(h: Host, w: World, e: Event, w': World) {
    match e
    case Charge(t, size, d, download) =>
      && t !in w.tasks && size <= h.maximum && w.count < MAX_TRANSFER_STAGES
      && w.bytes + size <= MAX_TRANSFER_RESERVED_BYTES
      && w' == w.(count := w.count + 1, bytes := w.bytes + size, tasks := w.tasks[t := Admitting(size, d, download)])
    case Insert(t, id) =>
      && t in w.tasks && w.tasks[t].Admitting? && id !in w.registry
      && var slot := Slot(w.tasks[t].size, w.tasks[t].digest, false, if w.tasks[t].download then Download else Empty);
      && w' == w.(slots := w.slots[w.nextSlot := slot], registry := w.registry[id := w.nextSlot],
                  nextSlot := w.nextSlot + 1, tasks := w.tasks - {t})
    case Lookup(t, id) =>
      && t !in w.tasks && id in w.registry && w.registry[id] in w.slots && !w.slots[w.registry[id]].cancelled
      && w' == w.(tasks := w.tasks[t := Holding(w.registry[id])])
    case StartUpload(t) =>
      && Holds(w, t) && w.slots[w.tasks[t].slot].data.Empty?
      && var s := w.tasks[t].slot;
      && w' == SetData(w, s, Uploading).(tasks := w.tasks[t := Writing(s, w.nextFile)],
           files := w.files[w.nextFile := []], fileOf := w.fileOf[s := w.nextFile], nextFile := w.nextFile + 1)
    case Chunk(t, chunk) =>
      && Writes(w, t)
      && var k := w.tasks[t];
      && |w.files[k.file]| + |chunk| <= w.slots[k.slot].size
      && w' == w.(files := w.files[k.file := w.files[k.file] + chunk])
    case UploadDone(t) =>
      && Writes(w, t)
      && var k := w.tasks[t];
      && !w.slots[k.slot].cancelled
      && var content := w.files[k.file];
      && w' == SetData(w, k.slot, Uploaded(k.file, h.digest(content), |content|))
               .(tasks := w.tasks[t := Holding(k.slot)])
    case UploadFailed(t) =>
      && Writes(w, t)
      && w' == SetData(w, w.tasks[t].slot, Data.Claimed).(tasks := w.tasks[t := Holding(w.tasks[t].slot)])
    case UploadGone(t) =>
      && Writes(w, t)
      && w' == w.(tasks := w.tasks[t := Holding(w.tasks[t].slot)])
    case Seal(t) =>
      && Holds(w, t)
      && var s := w.tasks[t].slot;
      && w' == SetData(w, s, SealedData(w.slots[s]))
    case Claim(t, size, d) =>
      && Holds(w, t)
      && var s := w.tasks[t].slot;
      && w.slots[s].digest == d && w.slots[s].size == size && w.slots[s].data.Sealed?
      && w' == SetData(w, s, Data.Claimed).(
           tasks := w.tasks[t := Prepared(s, w.slots[s].data.file, size, d)], claimed := w.claimed + {s})
    case LetGo(t) =>
      && t in w.tasks && (w.tasks[t].Holding? || w.tasks[t].Prepared?)
      && w' == w.(tasks := w.tasks - {t})
    case Release(id) =>
      && id in w.registry && w.registry[id] in w.slots
      && var s := w.registry[id];
      && w' == w.(registry := w.registry - {id}, slots := w.slots[s := w.slots[s].(cancelled := true)])
    case DropSlot(s) =>
      && s in w.slots && !Referenced(w, s)
      && w' == w.(slots := w.slots - {s}, count := w.count - 1, bytes := w.bytes - w.slots[s].size)
  }

  // --- References and contents ---

  ghost predicate RefsInv(w: World) {
    && (forall id :: id in w.registry ==> w.registry[id] in w.slots)
    && (forall t :: t in w.tasks && !w.tasks[t].Admitting? ==> w.tasks[t].slot in w.slots)
    && (forall s :: s in w.slots ==> s < w.nextSlot)
    && (forall s :: s in w.fileOf ==> s < w.nextSlot && w.fileOf[s] < w.nextFile && w.fileOf[s] in w.files)
    && (forall s, r :: s in w.fileOf && r in w.fileOf && w.fileOf[s] == w.fileOf[r] ==> s == r)
    && (forall s :: s in w.claimed ==> s < w.nextSlot)
  }

  ghost predicate Matches(h: Host, content: Bytes, size: nat, d: string) {
    |content| == size && h.digest(content) == d
  }

  /** What a slot's data says about the one file the slot was ever given. */
  ghost predicate SlotInv(h: Host, w: World, s: nat)
    requires s in w.slots
  {
    var slot := w.slots[s];
    && (s in w.claimed ==> slot.data.Claimed?)
    && match slot.data
       case Empty => s !in w.fileOf
       case Download => s !in w.fileOf
       case Uploading => s in w.fileOf
       case Uploaded(f, d, size) => Owns(w, s, f) && Matches(h, w.files[f], size, d)
       case Sealed(f) => Owns(w, s, f) && Matches(h, w.files[f], slot.size, slot.digest)
       case Claimed => s in w.fileOf
  }

  predicate Owns(w: World, s: nat, f: nat) { s in w.fileOf && w.fileOf[s] == f && f in w.files }

  ghost predicate TaskInv(h: Host, w: World, t: nat)
    requires t in w.tasks
  {
    match w.tasks[t]
    case Writing(s, f) => s in w.slots && w.slots[s].data.Uploading? && Owns(w, s, f)
    case Prepared(s, f, size, d) =>
      && s in w.slots && s in w.claimed && Owns(w, s, f) && Matches(h, w.files[f], size, d)
    case _ => true
  }

  ghost predicate DataInv(h: Host, w: World) {
    && (forall s :: s in w.slots ==> SlotInv(h, w, s))
    && (forall t :: t in w.tasks ==> TaskInv(h, w, t))
  }

  predicate Rivals(a: Task, b: Task) {
    ((a.Writing? && b.Writing?) || (a.Prepared? && b.Prepared?)) && a.slot == b.slot
  }

  /** At most one request writes a slot's file, and at most one has claimed it. */
  ghost predicate Exclusive(w: World) {
    forall t, u :: t in w.tasks && u in w.tasks && Rivals(w.tasks[t], w.tasks[u]) ==> t == u
  }

  // --- The quota ---

  function Ones(slots: map<nat, Slot>): map<nat, nat> { map s | s in slots :: 1 }

  function Sizes(slots: map<nat, Slot>): map<nat, nat> { map s | s in slots :: slots[s].size }

  function AdmittingOnes(tasks: map<nat, Task>): map<nat, nat> {
    map t | t in tasks :: if tasks[t].Admitting? then 1 else 0
  }

  function AdmittingSizes(tasks: map<nat, Task>): map<nat, nat> {
    map t | t in tasks :: if tasks[t].Admitting? then tasks[t].size else 0
  }

  /** The counters are the slots alive plus those being admitted, and stay within the quota. */
  ghost predicate UsageInv(w: World) {
    && w.count == SumOf(Ones(w.slots)) + SumOf(AdmittingOnes(w.tasks))
    && w.bytes == SumOf(Sizes(w.slots)) + SumOf(AdmittingSizes(w.tasks))
    && w.count <= MAX_TRANSFER_STAGES && w.bytes <= MAX_TRANSFER_RESERVED_BYTES
  }

  ghost predicate Inv(h: Host, w: World) {
    RefsInv(w) && DataInv(h, w) && Exclusive(w) && UsageInv(w)
  }

  lemma {:induction false} PutTask(tasks: map<nat, Task>, t: nat, k: Task)
    ensures SumOf(AdmittingOnes(tasks[t := k])) == SumOf(AdmittingOnes(tasks - {t})) + (if k.Admitting? then 1 else 0)
    ensures SumOf(AdmittingSizes(tasks[t := k]))
      == SumOf(AdmittingSizes(tasks - {t})) + (if k.Admitting? then k.size else 0)
  {
    var tasks' := tasks[t := k];
    SumRemove(AdmittingOnes(tasks'), t);
    SumRemove(AdmittingSizes(tasks'), t);
    assert AdmittingOnes(tasks') - {t} == AdmittingOnes(tasks - {t});
    assert AdmittingSizes(tasks') - {t} == AdmittingSizes(tasks - {t});
  }

  lemma {:induction false} RemoveTask(tasks: map<nat, Task>, t: nat)
    requires t in tasks
    ensures SumOf(AdmittingOnes(tasks)) == SumOf(AdmittingOnes(tasks - {t})) + (if tasks[t].Admitting? then 1 else 0)
    ensures SumOf(AdmittingSizes(tasks))
         == SumOf(AdmittingSizes(tasks - {t})) + (if tasks[t].Admitting? then tasks[t].size else 0)
  {
    assert tasks[t := tasks[t]] == tasks;
    PutTask(tasks, t, tasks[t]);
  }

  /** Replacing one request's state by another that admits nothing leaves the account alone. */
  lemma {:induction false} SwapTask(tasks: map<nat, Task>, t: nat, k: Task)
    requires !k.Admitting? && (t in tasks ==> !tasks[t].Admitting?)
    ensures SumOf(AdmittingOnes(tasks[t := k])) == SumOf(AdmittingOnes(tasks))
    ensures SumOf(AdmittingSizes(tasks[t := k])) == SumOf(AdmittingSizes(tasks))
  {
    PutTask(tasks, t, k);
    if t in tasks { RemoveTask(tasks, t); } else { assert tasks - {t} == tasks; }
  }

  lemma {:induction false} PutSlot(slots: map<nat, Slot>, s: nat, slot: Slot)
    ensures SumOf(Ones(slots[s := slot])) == SumOf(Ones(slots - {s})) + 1
    ensures SumOf(Sizes(slots[s := slot])) == SumOf(Sizes(slots - {s})) + slot.size
  {
    var slots' := slots[s := slot];
    SumRemove(Ones(slots'), s);
    SumRemove(Sizes(slots'), s);
    assert Ones(slots') - {s} == Ones(slots - {s});
    assert Sizes(slots') - {s} == Sizes(slots - {s});
  }

  /** Changing a slot in place, its size aside, leaves the account alone. */
  lemma {:induction false} SameSizes(slots: map<nat, Slot>, s: nat, slot: Slot)
    requires s in slots && slot.size == slots[s].size
    ensures SumOf(Ones(slots[s := slot])) == SumOf(Ones(slots)) && SumOf(Sizes(slots[s := slot])) == SumOf(Sizes(slots))
  {
    PutSlot(slots, s, slot);
    PutSlot(slots, s, slots[s]);
    assert slots[s := slots[s]] == slots;
  }

  lemma {:induction false} NotThere<V>(m: map<nat, V>, k: nat)
    requires k !in m
    ensures m - {k} == m
  {
  }

  lemma {:induction false} AlreadyThere<V>(m: map<nat, V>, k: nat)
    requires k in m
    ensures m[k := m[k]] == m
  {
  }

  lemma {:induction false} AdmissionKeepsUsage(h: Host, w: World, e: Event, w': World)
    requires UsageInv(w) && RefsInv(w) && Step(h, w, e, w') && (e.Charge? || e.Insert?)
    ensures UsageInv(w')
  {
    hide SumOf, Ones, Sizes, AdmittingOnes, AdmittingSizes;
    if e.Charge? {
      PutTask(w.tasks, e.task, w'.tasks[e.task]);
      NotThere(w.tasks, e.task);
    } else {
      RemoveTask(w.tasks, e.task);
      assert w.nextSlot !in w.slots;
      hide RefsInv;
      PutSlot(w.slots, w.nextSlot, w'.slots[w.nextSlot]);
      NotThere(w.slots, w.nextSlot);
    }
  }

  lemma {:induction false} DepartureKeepsUsage(h: Host, w: World, e: Event, w': World)
    requires UsageInv(w) && Step(h, w, e, w') && (e.LetGo? || e.DropSlot?)
    ensures UsageInv(w')
  {
    hide SumOf, Referenced, Ones, Sizes, AdmittingOnes, AdmittingSizes;
    if e.LetGo? {
      RemoveTask(w.tasks, e.task);
    } else {
      PutSlot(w.slots, e.slot, w.slots[e.slot]);
      AlreadyThere(w.slots, e.slot);
    }
  }

  lemma {:induction false} WorkKeepsUsage(h: Host, w: World, e: Event, w': World)
    requires UsageInv(w) && Step(h, w, e, w') && !(e.Charge? || e.Insert? || e.LetGo? || e.DropSlot?)
    ensures UsageInv(w')
  {
    hide SumOf;
    if e.Release? {
      SameSizes(w.slots, w.registry[e.id], w'.slots[w.registry[e.id]]);
    } else {
      if e.task in w'.tasks && w'.tasks != w.tasks { SwapTask(w.tasks, e.task, w'.tasks[e.task]); }
      if w'.slots != w.slots {
        var s := w.tasks[e.task].slot;
        SameSizes(w.slots, s, w'.slots[s]);
      }
    }
  }

  lemma {:induction false} StepKeepsRefs(h: Host, w: World, e: Event, w': World)
    requires Inv(h, w) && Step(h, w, e, w')
    ensures RefsInv(w')
  {
    hide DataInv, Exclusive, UsageInv;
  }

  lemma {:induction false} StepKeepsExclusive(h: Host, w: World, e: Event, w': World)
    requires Inv(h, w) && Step(h, w, e, w')
    ensures Exclusive(w')
  {
    hide RefsInv, UsageInv, Referenced;
    if e.StartUpload? || e.Claim? {
      var s := w.tasks[e.task].slot;
      assert SlotInv(h, w, s);
      forall u | u in w.tasks && u != e.task ensures !Rivals(w'.tasks[e.task], w.tasks[u]) {
        assert TaskInv(h, w, u);
      }
    } else {
      hide DataInv;
    }
  }

  // --- Contents through every step ---

  /** The slot and everything history says of it and its file are as they were. */
  ghost predicate SameStory(w: World, w': World, s: nat) {
    && (s in w.slots <==> s in w'.slots)
    && (s in w.slots ==> w'.slots[s].(cancelled := w.slots[s].cancelled) == w.slots[s])
    && (s in w.fileOf <==> s in w'.fileOf) && (s in w.fileOf ==> w'.fileOf[s] == w.fileOf[s])
    && (s in w.claimed <==> s in w'.claimed)
    && (s in w.fileOf && w.fileOf[s] in w.files ==>
          w.fileOf[s] in w'.files && w'.files[w.fileOf[s]] == w.files[w.fileOf[s]])
  }

  lemma {:induction false} SameStoryKeeps(h: Host, w: World, w': World, s: nat)
    requires SameStory(w, w', s) && s in w.slots && SlotInv(h, w, s)
    ensures SlotInv(h, w', s)
  {
  }

  lemma {:induction false} SameStoryTask(h: Host, w: World, w': World, t: nat)
    requires t in w.tasks && t in w'.tasks && w.tasks[t] == w'.tasks[t] && TaskInv(h, w, t)
    requires w.tasks[t].Admitting? || SameStory(w, w', w.tasks[t].slot)
    ensures TaskInv(h, w', t)
  {
  }

  /** The slot a step works on, if it works on one. */
  ghost predicate Untouched(w: World, e: Event, s: nat) {
    match e
    case Insert(_, _) => s != w.nextSlot
    case DropSlot(r) => s != r
    case Release(_) => true
    case Charge(_, _, _, _) => true
    case Lookup(_, _) => true
    case _ => e.task !in w.tasks || w.tasks[e.task].Admitting? || s != w.tasks[e.task].slot
  }

  lemma {:induction false} OthersStay(h: Host, w: World, e: Event, w': World, s: nat)
    requires RefsInv(w) && Step(h, w, e, w') && Untouched(w, e, s)
    requires e.Chunk? ==> TaskInv(h, w, e.task)
    ensures SameStory(w, w', s)
  {
    hide Referenced;
  }

  lemma {:induction false} TouchedSlot(h: Host, w: World, e: Event, w': World, s: nat)
    requires RefsInv(w) && DataInv(h, w) && Step(h, w, e, w') && !Untouched(w, e, s) && s in w'.slots
    ensures SlotInv(h, w', s)
  {
    hide Referenced;
    if e.Insert? {
    } else {
      assert SlotInv(h, w, s) && TaskInv(h, w, e.task);
      hide RefsInv, DataInv;
    }
  }

  lemma {:induction false} TouchedTask(h: Host, w: World, e: Event, w': World, t: nat)
    requires Inv(h, w) && Step(h, w, e, w') && t in w'.tasks
    requires !w'.tasks[t].Admitting? && !Untouched(w, e, w'.tasks[t].slot)
    ensures TaskInv(h, w', t)
  {
    hide UsageInv;
    var s := w'.tasks[t].slot;
    if s in w.slots { assert SlotInv(h, w, s); }
    if t in w.tasks { assert TaskInv(h, w, t); }
    if e.Chunk? || e.UploadDone? || e.UploadFailed? || e.UploadGone? {
      assert TaskInv(h, w, e.task);
      assert t in w.tasks && Rivals(w.tasks[t], w.tasks[e.task]) ==> t == e.task;
    }
    hide DataInv, Exclusive;
  }

  lemma {:induction false} StepKeepsData(h: Host, w: World, e: Event, w': World)
    requires Inv(h, w) && Step(h, w, e, w')
    ensures DataInv(h, w')
  {
    hide Step, Referenced, UsageInv, Exclusive, SlotInv, TaskInv, Untouched, SameStory;
    forall s | s in w'.slots ensures SlotInv(h, w', s) {
      if Untouched(w, e, s) { UntouchedSlot(h, w, e, w', s); } else { TouchedSlot(h, w, e, w', s); }
    }
    forall t | t in w'.tasks ensures TaskInv(h, w', t) {
      if !w'.tasks[t].Admitting? && !Untouched(w, e, w'.tasks[t].slot) {
        TouchedTask(h, w, e, w', t);
      } else {
        UntouchedTask(h, w, e, w', t);
      }
    }
  }

  lemma {:induction false} UntouchedSlot(h: Host, w: World, e: Event, w': World, s: nat)
    requires RefsInv(w) && DataInv(h, w) && Step(h, w, e, w') && Untouched(w, e, s) && s in w'.slots
    ensures SlotInv(h, w', s)
  {
    assert e.Chunk? ==> TaskInv(h, w, e.task);
    OthersStay(h, w, e, w', s);
    assert s in w.slots;
    hide Step, Untouched, RefsInv;
    SameStoryKeeps(h, w, w', s);
  }

  lemma {:induction false} UntouchedTask(h: Host, w: World, e: Event, w': World, t: nat)
    requires RefsInv(w) && DataInv(h, w) && Step(h, w, e, w') && t in w'.tasks
    requires w'.tasks[t].Admitting? || Untouched(w, e, w'.tasks[t].slot)
    ensures TaskInv(h, w', t)
  {
    hide Referenced;
    if w'.tasks[t].Writing? || w'.tasks[t].Prepared? {
      assert t in w.tasks && w'.tasks[t] == w.tasks[t];
      assert e.Chunk? ==> TaskInv(h, w, e.task);
      OthersStay(h, w, e, w', w.tasks[t].slot);
      hide Step, Untouched, RefsInv;
      SameStoryTask(h, w, w', t);
    }
  }

  lemma {:induction false} StepKeepsInv(h: Host, w: World, e: Event, w': World)
    requires Inv(h, w) && Step(h, w, e, w')
    ensures Inv(h, w')
  {
    hide Step, RefsInv, DataInv, Exclusive, UsageInv;
    StepKeepsRefs(h, w, e, w');
    StepKeepsData(h, w, e, w');
    StepKeepsExclusive(h, w, e, w');
    if e.Charge? || e.Insert? {
      AdmissionKeepsUsage(h, w, e, w');
    } else if e.LetGo? || e.DropSlot? {
      DepartureKeepsUsage(h, w, e, w');
    } else {
      WorkKeepsUsage(h, w, e, w');
    }
  }
}
