/** Stores that open refuses, though every call on them was an ordinary one. */
module JournalLockout {
  import opened Wrappers
  import opened JournalSteps
  import opened JournalRuns

  // --- A half-written file ---

  const NO_RECORDS: map<Id, Rec> := map[]
  const OPENED: World := FRESH.(process := Up(NO_RECORDS))
  const RESERVING: World := OPENED.(
    put := Some(Put("p", Rec(Prepared, 0, false, 0, 600, None, None), 7, Begun, ForReserve(0))),
    fx := Effects({}, {}, {}, {}, 1))
  const HALF_WRITTEN: World :=
    RESERVING.(put := Some(RESERVING.put.value.(phase := Created)), disk := Create(FRESH.disk, 7))
  const LOCKED_OUT: World := World(Down, None, HALF_WRITTEN.disk, map[], HALF_WRITTEN.fx)

  lemma {:induction false} LockOutOpens()
    ensures Step(FRESH, OpenBegin, FRESH.(process := Opening(NO_RECORDS, NO_RECORDS)))
    ensures Step(FRESH.(process := Opening(NO_RECORDS, NO_RECORDS)), OpenDone, OPENED)
  {
    assert Swept(FRESH.disk) == FRESH.disk;
  }

  lemma {:induction false} LockOutReserves()
    ensures Step(OPENED, ReserveBegin("p", 7, 0, false, 0, 600), RESERVING)
    ensures Step(RESERVING, PutCreate, HALF_WRITTEN)
  {
  }

  lemma {:induction false} LockOutCrashes()
    ensures Step(HALF_WRITTEN, Crash, LOCKED_OUT) && !CanOpen(LOCKED_OUT.disk)
  {
    assert HALF_WRITTEN.disk.maybe == Certain(HALF_WRITTEN.disk.shown);
    assert 7 in LOCKED_OUT.disk.pending && LOCKED_OUT.disk.pending[7].Half?;
  }

  /** A crash between creating and writing a pending file can leave a store that open refuses. */
  lemma {:induction false} CrashMayLockOut()
    ensures exists states: seq<World>, events :: IsRun(states, events) && !CanOpen(states[|states| - 1].disk)
  {
    var opening := FRESH.(process := Opening(NO_RECORDS, NO_RECORDS));
    var states := [FRESH, opening, OPENED, RESERVING, HALF_WRITTEN, LOCKED_OUT];
    var events := [OpenBegin, OpenDone, ReserveBegin("p", 7, 0, false, 0, 600), PutCreate, Crash];
    LockOutOpens();
    LockOutReserves();
    LockOutCrashes();
    hide Step, CanOpen;
    assert states[|states| - 1] == LOCKED_OUT;
    assert IsRun(states, events);
  }

  // --- Too many files ---

  function NameOf(n: nat): Id { seq(n, i => 'x') }

  function RecOf(n: nat): Rec { Rec(Prepared, n, false, 0, 600, None, None) }

  /** The files that n failed reservations leave behind. */
  function Stranded(n: nat): map<Id, Rec> {
    if n == 0 then map[] else Stranded(n - 1)[NameOf(n - 1) := RecOf(n - 1)]
  }

  lemma {:induction false} StrandedCounts(n: nat, k: nat)
    ensures |Stranded(n)| == n && (k >= n ==> NameOf(k) !in Stranded(n))
  {
    if n > 0 {
      StrandedCounts(n - 1, k);
      StrandedCounts(n - 1, n - 1);
      assert |NameOf(k)| == k && |NameOf(n - 1)| == n - 1;
      hide NameOf;
      OneMore(Stranded(n - 1), NameOf(n - 1), RecOf(n - 1));
    }
  }

  lemma {:induction false} OneMore(m: map<Id, Rec>, id: Id, r: Rec)
    requires id !in m
    ensures |m[id := r]| == |m| + 1
  {
    assert m[id := r].Keys == m.Keys + {id};
  }

  /** n reservations have failed at their last step; memory knows none of them. */
  function After(n: nat): World {
    World(Up(NO_RECORDS), None, Disk(Stranded(n), Certain(Stranded(n)), map[], map[]), map[],
          Effects({}, {}, {}, {}, n))
  }

  function Writing(n: nat, phase: Phase): World {
    After(n).(put := Some(Put(NameOf(n), RecOf(n), 0, phase, ForReserve(0))), fx := Effects({}, {}, {}, {}, n + 1))
  }

  function Renaming(n: nat): World {
    Writing(n, Renamed).(disk := Disk(Stranded(n + 1), Certain(Stranded(n))[NameOf(n) := {None, Some(RecOf(n))}],
                                      map[], map[0 := Whole]))
  }

  function Failed(n: nat): World { Renaming(n).(put := None) }

  lemma {:induction false} BeginsAndCreates(n: nat)
    ensures Step(After(n), ReserveBegin(NameOf(n), 0, 0, false, 0, 600), Writing(n, Begun))
    ensures Step(Writing(n, Begun), PutCreate, Writing(n, Created).(disk := Create(After(n).disk, 0)))
  {
    hide Stranded, NameOf, Certain;
  }

  lemma {:induction false} Writes(n: nat)
    ensures Step(Writing(n, Created).(disk := Create(After(n).disk, 0)), PutWrite,
                 Writing(n, Written).(disk := Fill(After(n).disk, 0)))
  {
    hide Stranded, NameOf, Certain;
    assert Fill(Create(After(n).disk, 0), 0) == Fill(After(n).disk, 0);
  }

  lemma {:induction false} RenamedDisk(n: nat)
    ensures JournalSteps.Rename(Fill(After(n).disk, 0), 0, NameOf(n), RecOf(n)) == Renaming(n).disk
  {
    StrandedCounts(n, n);
    var d := Fill(After(n).disk, 0);
    assert Possible(d, NameOf(n)) == {None};
    assert {None} + {Some(RecOf(n))} == {None, Some(RecOf(n))};
    assert Discard(d, 0).pending == map[] && Discard(d, 0).removed == map[0 := Whole];
  }

  lemma {:induction false} Renames(n: nat)
    ensures Step(Writing(n, Written).(disk := Fill(After(n).disk, 0)), PutRename, Renaming(n))
  {
    hide Stranded, NameOf, Certain, JournalSteps.Rename, Fill;
    RenamedDisk(n);
  }

  lemma {:induction false} FailsAndSyncs(n: nat)
    ensures Step(Renaming(n), PutFail, Failed(n)) && Step(Failed(n), PruneSync, After(n + 1))
  {
    hide Stranded, NameOf, Certain;
  }

  lemma {:induction false} OneMoreFails(states: seq<World>, events: seq<Event>, n: nat)
    returns (s: seq<World>, e: seq<Event>)
    requires |states| > 0 && IsRun(states, events) && states[|states| - 1] == After(n)
    ensures |s| > 0 && IsRun(s, e) && s[|s| - 1] == After(n + 1)
  {
    hide IsRun, Step, After, Writing, Renaming, Failed;
    BeginsAndCreates(n);
    Writes(n);
    Renames(n);
    FailsAndSyncs(n);
    s, e := states, events;
    s, e := Extended(s, e, ReserveBegin(NameOf(n), 0, 0, false, 0, 600), Writing(n, Begun));
    s, e := Extended(s, e, PutCreate, Writing(n, Created).(disk := Create(After(n).disk, 0)));
    s, e := Extended(s, e, PutWrite, Writing(n, Written).(disk := Fill(After(n).disk, 0)));
    s, e := Extended(s, e, PutRename, Renaming(n));
    s, e := Extended(s, e, PutFail, Failed(n));
    s, e := Extended(s, e, PruneSync, After(n + 1));
  }

  lemma {:induction false} Extended(states: seq<World>, events: seq<Event>, event: Event, w: World)
    returns (s: seq<World>, e: seq<Event>)
    requires |states| > 0 && IsRun(states, events) && Step(states[|states| - 1], event, w)
    ensures |s| > 0 && IsRun(s, e) && s[|s| - 1] == w
  {
    hide IsRun, Step;
    ExtendRun(states, events, event, w);
    s, e := states + [w], events + [event];
  }

  lemma {:induction false} RunToAfter(n: nat) returns (s: seq<World>, e: seq<Event>)
    ensures |s| > 0 && IsRun(s, e) && s[|s| - 1] == After(n)
  {
    if n == 0 {
      LockOutOpens();
      s, e := [FRESH, FRESH.(process := Opening(NO_RECORDS, NO_RECORDS)), OPENED], [OpenBegin, OpenDone];
      assert After(0) == OPENED;
      hide Step;
    } else {
      hide IsRun, Step, After;
      s, e := RunToAfter(n - 1);
      s, e := OneMoreFails(s, e, n - 1);
    }
  }

  /**
   Reservations that fail only at the directory sync leave files memory does not count. Once there are more than
   256 of them, open refuses the store after the next crash, and every file in it is whole.
   */
  lemma {:induction false} FailuresMayLockOut(n: nat)
    requires n > MAX_TRANSFER_JOURNALS
    ensures exists states: seq<World>, events: seq<Event> ::
      && IsRun(states, events) && |states| > 0 && states[|states| - 1].process.Down?
      && states[|states| - 1].disk.pending == map[] && !CanOpen(states[|states| - 1].disk)
  {
    var s, e := RunToAfter(n);
    StrandedCounts(n, n);
    var down := World(Down, None, After(n).disk, map[], After(n).fx);
    assert Step(After(n), Crash, down);
    s, e := Extended(s, e, Crash, down);
  }
}
