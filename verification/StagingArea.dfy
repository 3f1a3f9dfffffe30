/** The staging area itself. Every change it makes is a step of a run, so what holds of runs holds of it. */
module StagingHost {
  import opened Wrappers
  import opened Sums
  import opened Staging
  import opened StagingRuns

  lemma {:induction false} ExtendRun(h: Host, states: seq<World>, events: seq<Event>, e: Event, w: World)
    requires IsRun(h, states, events) && Step(h, states[|states| - 1], e, w)
    ensures IsRun(h, states + [w], events + [e])
  {
    hide Step;
    forall i | 0 <= i < |events + [e]|
      ensures Step(h, (states + [w])[i], (events + [e])[i], (states + [w])[i + 1])
    {
      if i < |events| { assert Step(h, states[i], events[i], states[i + 1]); }
    }
  }

  /** A slot that can still be uploaded to. */
  predicate Open(s: Slot) { !s.cancelled && s.data.Empty? }

  /** How a body ends: it arrives, breaks off after some chunks, or its slot is released meanwhile or at the end. */
  datatype Fate =
    | Arrives
    | BreaksAfter(n: nat)
    | ReleasedAfter(n: nat, id: Id)
    | ReleasedAtEnd(id: Id)
  {
    predicate Releases() { ReleasedAfter? || ReleasedAtEnd? }

    function Taken(chunks: seq<Bytes>): seq<Bytes> {
      if (BreaksAfter? || ReleasedAfter?) && n < |chunks| then chunks[..n] else chunks
    }
  }

  class StagingArea {
    const host: Host
    var registry: map<Id, nat>
    var slots: map<nat, Slot>
    var files: map<nat, Bytes>
    var count: int
    var bytes: int
    var nextSlot: nat
    var nextFile: nat
    /** What the requests under way hold, and what slots were ever given and claimed. */
    ghost var tasks: map<nat, Task>
    ghost var fileOf: map<nat, nat>
    ghost var claimed: set<nat>
    ghost var states: seq<World>
    ghost var events: seq<Event>

    ghost function Now(): World
      reads this
    {
      World(registry, slots, tasks, files, count, bytes, nextSlot, nextFile, fileOf, claimed)
    }

    ghost predicate Valid()
      reads this
    {
      |states| > 0 && IsRun(host, states, events) && states[|states| - 1] == Now()
    }

    constructor (host: Host)
      ensures Valid() && this.host == host && Now() == UNUSED
    {
      this.host := host;
      registry, slots, files, count, bytes, nextSlot, nextFile := map[], map[], map[], 0, 0, 0, 0;
      tasks, fileOf, claimed, states, events := map[], map[], {}, [UNUSED], [];
    }

    ghost method Note(before: World, e: Event)
      requires |states| > 0 && IsRun(host, states, events) && states[|states| - 1] == before
        && Step(host, before, e, Now())
      modifies this`states, this`events
      ensures Valid() && states == old(states) + [Now()] && events == old(events) + [e]
    {
      hide Step;
      ExtendRun(host, states, events, e, Now());
      states, events := states + [Now()], events + [e];
    }

    /** Charges the quota first, and registers the slot only once it is charged. */
    method Stage(id: Id, size: nat, digest: string, download: bool, ghost task: nat) returns (ok: bool)
      requires Valid() && id !in registry && task !in tasks
      modifies this
      ensures Valid() && old(states) <= states && tasks == old(tasks)
      ensures ok <==>
        size <= host.maximum && old(count) < MAX_TRANSFER_STAGES && old(bytes) + size <= MAX_TRANSFER_RESERVED_BYTES
      ensures !ok ==> Now() == old(Now())
      ensures ok ==>
        && id in registry && registry[id] == old(nextSlot) && registry[id] in slots
        && slots[registry[id]] == Slot(size, digest, false, if download then Download else Empty)
        && count == old(count) + 1 && bytes == old(bytes) + size
    {
      hide IsRun, Step;
      if size > host.maximum || count >= MAX_TRANSFER_STAGES
        || bytes + size > MAX_TRANSFER_RESERVED_BYTES
      {
        return false;
      }
      ChargeFor(size, digest, download, task);
      Register(id, size, digest, download, task);
      assert tasks == old(tasks);
      ok := true;
    }

    method ChargeFor(size: nat, digest: string, download: bool, ghost task: nat)
      requires Valid() && task !in tasks
      requires size <= host.maximum && count < MAX_TRANSFER_STAGES && bytes + size <= MAX_TRANSFER_RESERVED_BYTES
      modifies this`count, this`bytes, this`tasks, this`states, this`events
      ensures Valid() && old(states) <= states && count == old(count) + 1 && bytes == old(bytes) + size
      ensures tasks == old(tasks)[task := Admitting(size, digest, download)]
    {
      hide IsRun;
      ghost var before := Now();
      count, bytes := count + 1, bytes + size;
      tasks := tasks[task := Admitting(size, digest, download)];
      Note(before, Charge(task, size, digest, download));
    }

    method Register(id: Id, size: nat, digest: string, download: bool, ghost task: nat)
      requires Valid() && id !in registry && task in tasks && tasks[task] == Admitting(size, digest, download)
      modifies this`registry, this`slots, this`nextSlot, this`tasks, this`states, this`events
      ensures Valid() && old(states) <= states && tasks == old(tasks) - {task}
      ensures registry == old(registry)[id := old(nextSlot)]
      ensures slots == old(slots)[old(nextSlot) := Slot(size, digest, false, if download then Download else Empty)]
    {
      hide IsRun;
      ghost var before := Now();
      slots := slots[nextSlot := Slot(size, digest, false, if download then Download else Empty)];
      registry := registry[id := nextSlot];
      nextSlot := nextSlot + 1;
      tasks := tasks - {task};
      Note(before, Insert(task, id));
    }

    /** Takes an empty slot for an upload, with a private file of its own. */
    method StartUpload(slot: nat, ghost task: nat) returns (file: Option<nat>)
      requires Valid() && task in tasks && tasks[task] == Holding(slot) && slot in slots
      modifies this
      ensures Valid() && old(states) <= states && registry == old(registry)
      ensures file.Some? <==> old(slots)[slot].data.Empty?
      ensures file.None? ==> Now() == old(Now())
      ensures file.Some? ==>
        && file.value == old(nextFile) && files == old(files)[file.value := []]
        && tasks == old(tasks)[task := Writing(slot, file.value)]
        && slots == old(slots)[slot := old(slots)[slot].(data := Uploading)]
    {
      hide IsRun;
      if !slots[slot].data.Empty? { return None; }
      ghost var before := Now();
      slots := slots[slot := slots[slot].(data := Uploading)];
      file := Some(nextFile);
      files := files[nextFile := []];
      tasks := tasks[task := Writing(slot, nextFile)];
      fileOf := fileOf[slot := nextFile];
      nextFile := nextFile + 1;
      Note(before, Event.StartUpload(task));
    }

    method Append(slot: nat, file: nat, chunk: Bytes, ghost task: nat)
      requires Valid() && task in tasks && tasks[task] == Writing(slot, file) && slot in slots && file in files
      requires |files[file]| + |chunk| <= slots[slot].size
      modifies this`files, this`states, this`events
      ensures Valid() && old(states) <= states && files == old(files)[file := old(files)[file] + chunk]
    {
      hide IsRun;
      ghost var before := Now();
      files := files[file := files[file] + chunk];
      Note(before, Chunk(task, chunk));
    }

    /** The upload ends: kept with its digest and size, or spoiled for good. */
    method EndUpload(slot: nat, file: nat, kept: bool, ghost task: nat)
      requires Valid() && task in tasks && tasks[task] == Writing(slot, file) && slot in slots && file in files
      requires kept ==> !slots[slot].cancelled
      modifies this`slots, this`tasks, this`states, this`events
      ensures Valid() && old(states) <= states && tasks == old(tasks)[task := Holding(slot)]
      ensures slots == old(slots)[slot := old(slots)[slot].(data :=
        if kept then Uploaded(file, host.digest(files[file]), |files[file]|) else Data.Claimed)]
    {
      hide IsRun;
      ghost var before := Now();
      slots := slots[slot := slots[slot].(data :=
        if kept then Uploaded(file, host.digest(files[file]), |files[file]|) else Data.Claimed)];
      tasks := tasks[task := Holding(slot)];
      Note(before, if kept then UploadDone(task) else UploadFailed(task));
    }

    /** Takes the slot out of the registry and tells whoever still holds it. */
    method ReleaseSlot(id: Id)
      requires Valid() && id in registry && registry[id] in slots
      modifies this`registry, this`slots, this`states, this`events
      ensures Valid() && old(states) <= states && registry == old(registry) - {id}
      ensures slots == old(slots)[old(registry)[id] := old(slots)[old(registry)[id]].(cancelled := true)]
    {
      hide IsRun;
      ghost var before := Now();
      slots := slots[registry[id] := slots[registry[id]].(cancelled := true)];
      registry := registry - {id};
      Note(before, Release(id));
    }

    /** The request gives up without a word: the slot stays as an upload nobody finishes. */
    ghost method Leave(slot: nat, file: nat, task: nat)
      requires Valid() && task in tasks && tasks[task] == Writing(slot, file) && slot in slots && file in files
      modifies this`tasks, this`states, this`events
      ensures Valid() && old(states) <= states && tasks == old(tasks)[task := Holding(slot)]
    {
      hide IsRun;
      var before := Now();
      tasks := tasks[task := Holding(slot)];
      Note(before, UploadGone(task));
    }

    /**
     A whole upload, chunk by chunk. A body within the declared size that arrives whole ends up in the slot, with
     its own digest and length. One that is longer, breaks off, or is overtaken by a release spoils the slot for
     good; one released just as it ends leaves the slot unfinished. A slot released or not empty is left alone.
     */
    method Upload(slot: nat, chunks: seq<Bytes>, fate: Fate, ghost task: nat) returns (ok: bool)
      requires Valid() && task in tasks && tasks[task] == Holding(slot) && slot in slots
      requires fate.Releases() ==> fate.id in registry && registry[fate.id] == slot
      modifies this
      ensures Valid() && old(states) <= states && tasks == old(tasks)
      ensures ok <==> Open(old(slots)[slot]) && fate.Arrives? && |Joined(chunks)| <= old(slots)[slot].size
      ensures !Open(old(slots)[slot]) ==> Now() == old(Now())
      ensures Open(old(slots)[slot]) ==>
        && registry == (if fate.Releases() then old(registry) - {fate.id} else old(registry))
        && slots == old(slots)[slot := old(slots)[slot].(cancelled := fate.Releases(), data :=
             if ok then Uploaded(old(nextFile), host.digest(Joined(chunks)), |Joined(chunks)|)
             else if fate.ReleasedAtEnd? && |Joined(chunks)| <= old(slots)[slot].size then Uploading
             else Data.Claimed)]
      ensures ok ==> old(nextFile) in files && files[old(nextFile)] == Joined(chunks)
    {
      hide IsRun, Step, Joined;
      if slots[slot].cancelled { return false; }
      var started := StartUpload(slot, task);
      if started.None? { return false; }
      var file := started.value;
      var fits := FillFile(slot, file, fate.Taken(chunks), task);
      if fate.Releases() { ReleaseSlot(fate.id); }
      ok := fits && fate.Arrives?;
      EndBody(slot, file, ok, fate.ReleasedAtEnd? && fits, task);
      assert tasks == old(tasks);
    }

    method EndBody(slot: nat, file: nat, kept: bool, gone: bool, ghost task: nat)
      requires Valid() && task in tasks && tasks[task] == Writing(slot, file) && slot in slots && file in files
      requires kept ==> !slots[slot].cancelled && !gone
      modifies this`slots, this`tasks, this`states, this`events
      ensures Valid() && old(states) <= states && tasks == old(tasks)[task := Holding(slot)]
      ensures slots == old(slots)[slot := old(slots)[slot].(data :=
        if kept then Uploaded(file, host.digest(files[file]), |files[file]|)
        else if gone then old(slots)[slot].data else Data.Claimed)]
    {
      hide IsRun, Step;
      if gone {
        Leave(slot, file, task);
        assert slots[slot := slots[slot]] == slots;
      } else {
        EndUpload(slot, file, kept, task);
      }
    }

    /** Writes the chunks to the upload's file, and stops at the first that passes the declared size. */
    method FillFile(slot: nat, file: nat, chunks: seq<Bytes>, ghost task: nat) returns (fits: bool)
      requires Valid() && task in tasks && tasks[task] == Writing(slot, file) && slot in slots
      requires file in files && files[file] == []
      modifies this`files, this`states, this`events
      ensures Valid() && old(states) <= states && file in files
      ensures fits <==> |Joined(chunks)| <= slots[slot].size
      ensures fits ==> files[file] == Joined(chunks)
    {
      hide IsRun, Step;
      assert Joined(chunks[..0]) == [];
      hide Joined;
      var i := 0;
      while i < |chunks|
        invariant 0 <= i <= |chunks| && Valid() && old(states) <= states && file in files
        invariant files[file] == Joined(chunks[..i]) && |files[file]| <= slots[slot].size
      {
        assert chunks[..i + 1] == chunks[..i] + [chunks[i]];
        JoinedPush(chunks[..i], chunks[i]);
        JoinedPrefix(chunks, i + 1);
        if |files[file]| + |chunks[i]| > slots[slot].size { return false; }
        Append(slot, file, chunks[i], task);
        i := i + 1;
      }
      assert chunks[..i] == chunks;
      fits := true;
    }

    /** Sealing succeeds exactly on a file with the declared digest and size; a mismatch spoils the slot. */
    method SealSlot(slot: nat, ghost task: nat) returns (ok: bool)
      requires Valid() && task in tasks && tasks[task] == Holding(slot) && slot in slots
      modifies this`slots, this`states, this`events
      ensures Valid() && old(states) <= states
      ensures slots == old(slots)[slot := old(slots)[slot].(data := SealedData(old(slots)[slot]))]
      ensures ok <==> slots[slot].data.Sealed?
      ensures ok ==> slots[slot].data.file in files && |files[slots[slot].data.file]| == slots[slot].size
      ensures ok ==> host.digest(files[slots[slot].data.file]) == slots[slot].digest
    {
      hide IsRun;
      ghost var before := Now();
      slots := slots[slot := slots[slot].(data := SealedData(slots[slot]))];
      ok := slots[slot].data.Sealed?;
      Note(before, Seal(task));
      if ok { SealedMatches(slot); }
    }

    /** A sealed file has the size and the digest its slot declares. */
    lemma {:induction false} SealedMatches(slot: nat)
      requires Valid() && slot in slots && slots[slot].data.Sealed?
      ensures slots[slot].data.file in files && |files[slots[slot].data.file]| == slots[slot].size
      ensures host.digest(files[slots[slot].data.file]) == slots[slot].digest
    {
      RunInv(host, states, events, |states| - 1);
      assert SlotInv(host, Now(), slot);
      hide IsRun, UsageInv, RefsInv, Exclusive;
    }

    /** Hands the sealed file to one publication whose request names its digest and size. */
    method ClaimSlot(slot: nat, size: nat, digest: string, ghost task: nat) returns (file: Option<nat>)
      requires Valid() && task in tasks && tasks[task] == Holding(slot) && slot in slots
      modifies this`slots, this`tasks, this`claimed, this`states, this`events
      ensures Valid() && old(states) <= states
      ensures file.Some? <==>
        old(slots)[slot].data.Sealed? && old(slots)[slot].digest == digest && old(slots)[slot].size == size
      ensures file.None? ==> Now() == old(Now())
      ensures file.Some? ==>
        file.value in files && |files[file.value]| == size && host.digest(files[file.value]) == digest
      ensures file.Some? ==> tasks == old(tasks)[task := Prepared(slot, file.value, size, digest)]
      ensures file.Some? ==> slots == old(slots)[slot := old(slots)[slot].(data := Data.Claimed)]
    {
      hide IsRun;
      var s := slots[slot];
      if !s.data.Sealed? || s.digest != digest || s.size != size { return None; }
      ghost var before := Now();
      slots := slots[slot := s.(data := Data.Claimed)];
      tasks := tasks[task := Prepared(slot, s.data.file, size, digest)];
      claimed := claimed + {slot};
      Note(before, Claim(task, size, digest));
      HandedOverIntact(host, states, events, |states| - 1, task);
      file := Some(s.data.file);
    }

    lemma {:induction false} CanBear(slot: nat)
      requires Valid() && slot in slots
      ensures count >= 1 && bytes >= slots[slot].size
    {
      hide IsRun, SumOf;
      QuotaHolds(host, states, events, |states| - 1);
    }

    /** The last holder is gone: the slot gives its charge back, which the counters can always bear. */
    method FreeSlot(slot: nat)
      requires Valid() && slot in slots && !Referenced(Now(), slot)
      modifies this`slots, this`count, this`bytes, this`states, this`events
      ensures Valid() && old(states) <= states && slots == old(slots) - {slot}
      ensures count == old(count) - 1 && bytes == old(bytes) - old(slots)[slot].size && count >= 0 && bytes >= 0
    {
      hide IsRun, Referenced;
      CanBear(slot);
      ghost var before := Now();
      count, bytes := count - 1, bytes - slots[slot].size;
      slots := slots - {slot};
      Note(before, DropSlot(slot));
    }
  }
}
