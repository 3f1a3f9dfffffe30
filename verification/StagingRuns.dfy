/** What holds over every run of the staging area. */
module StagingRuns {
  import opened Sums
  import opened Staging

  ghost predicate IsRun(h: Host, states: seq<World>, events: seq<Event>) {
    && |states| == |events| + 1 && states[0] == UNUSED
    && forall i :: 0 <= i < |events| ==> Step(h, states[i], events[i], states[i + 1])
  }

  lemma {:induction false} RunInv(h: Host, states: seq<World>, events: seq<Event>, i: nat)
    requires IsRun(h, states, events) && i < |states|
    ensures Inv(h, states[i])
  {
    hide Step;
    if i == 0 {
      assert Inv(h, UNUSED);
    } else {
      hide Inv;
      RunInv(h, states, events, i - 1);
      StepKeepsInv(h, states[i - 1], events[i - 1], states[i]);
    }
  }

  /** A file in the hands of a publication has exactly the size and the digest that were reviewed. */
  lemma {:induction false} HandedOverIntact(h: Host, states: seq<World>, events: seq<Event>, i: nat, t: nat)
    requires IsRun(h, states, events) && i < |states| && t in states[i].tasks && states[i].tasks[t].Prepared?
    ensures var k := states[i].tasks[t];
      && k.file in states[i].files && |states[i].files[k.file]| == k.size
      && h.digest(states[i].files[k.file]) == k.digest
      && k.slot in states[i].slots && states[i].slots[k.slot].data.Claimed?
  {
    hide IsRun, Step;
    RunInv(h, states, events, i);
    assert TaskInv(h, states[i], t);
    assert SlotInv(h, states[i], states[i].tasks[t].slot);
  }

  lemma {:induction false} HistoryGrows(h: Host, w: World, e: Event, w': World)
    requires Inv(h, w) && Step(h, w, e, w')
    ensures w.claimed <= w'.claimed
    ensures forall s :: s in w.fileOf ==> s in w'.fileOf && w'.fileOf[s] == w.fileOf[s]
  {
    hide UsageInv, Exclusive, RefsInv, Referenced;
    if e.StartUpload? { assert SlotInv(h, w, w.tasks[e.task].slot); }
    hide DataInv;
  }

  ghost predicate Given(w: World, s: nat, f: nat) { s in w.fileOf && w.fileOf[s] == f }

  lemma {:induction false} HistoryLasts(h: Host, states: seq<World>, events: seq<Event>, i: nat, j: nat, s: nat, f: nat)
    requires IsRun(h, states, events) && i <= j < |states|
    ensures s in states[i].claimed ==> s in states[j].claimed
    ensures Given(states[i], s, f) ==> Given(states[j], s, f)
  {
    hide Step, Inv;
    if i < j {
      HistoryLasts(h, states, events, i, j - 1, s, f);
      RunInv(h, states, events, j - 1);
      HistoryGrows(h, states[j - 1], events[j - 1], states[j]);
    }
  }

  /** The slot a request is working on when it takes a step. */
  ghost predicate On(w: World, e: Event, s: nat) {
    (e.StartUpload? || e.Claim?) && e.task in w.tasks && w.tasks[e.task].Holding? && w.tasks[e.task].slot == s
  }

  /** However long slots are held and however requests interleave, a slot is uploaded to at most once. */
  lemma {:induction false} UploadedOnce(h: Host, states: seq<World>, events: seq<Event>, i: nat, j: nat, s: nat)
    requires IsRun(h, states, events) && i < j < |events|
    requires events[i].StartUpload? && On(states[i], events[i], s)
    ensures !(events[j].StartUpload? && On(states[j], events[j], s))
  {
    assert Step(h, states[i], events[i], states[i + 1]);
    assert Step(h, states[j], events[j], states[j + 1]);
    var f := states[i].nextFile;
    assert Given(states[i + 1], s, f);
    HistoryLasts(h, states, events, i + 1, j, s, f);
    RunInv(h, states, events, j);
    hide IsRun, UsageInv, Exclusive, RefsInv;
    if s in states[j].slots { assert SlotInv(h, states[j], s); }
  }

  /** A staged file is claimed by at most one preparation, ever. */
  lemma {:induction false} ClaimedOnce(h: Host, states: seq<World>, events: seq<Event>, i: nat, j: nat, s: nat)
    requires IsRun(h, states, events) && i < j < |events|
    requires events[i].Claim? && On(states[i], events[i], s)
    ensures !(events[j].Claim? && On(states[j], events[j], s))
  {
    assert Step(h, states[i], events[i], states[i + 1]);
    assert Step(h, states[j], events[j], states[j + 1]);
    assert s in states[i + 1].claimed;
    HistoryLasts(h, states, events, i + 1, j, s, 0);
    RunInv(h, states, events, j);
    hide IsRun, UsageInv, Exclusive, RefsInv;
    if s in states[j].slots { assert SlotInv(h, states[j], s); }
  }

  /** Two publications never hold the same file, though their slots may have been released long before. */
  lemma {:induction false} NeverShared(h: Host, states: seq<World>, events: seq<Event>, i: nat, t: nat, u: nat)
    requires IsRun(h, states, events) && i < |states| && t in states[i].tasks && u in states[i].tasks && t != u
    requires states[i].tasks[t].Prepared? && states[i].tasks[u].Prepared?
    ensures states[i].tasks[t].file != states[i].tasks[u].file
  {
    RunInv(h, states, events, i);
    hide IsRun, Step, UsageInv;
    assert TaskInv(h, states[i], t) && TaskInv(h, states[i], u);
    assert Rivals(states[i].tasks[t], states[i].tasks[u]) ==> t == u;
  }

  /** The counters never pass the quota, and giving a slot back never takes either below zero. */
  lemma {:induction false} QuotaHolds(h: Host, states: seq<World>, events: seq<Event>, i: nat)
    requires IsRun(h, states, events) && i < |states|
    ensures var w := states[i];
      && 0 <= w.count <= MAX_TRANSFER_STAGES && 0 <= w.bytes <= MAX_TRANSFER_RESERVED_BYTES
      && w.count == SumOf(Ones(w.slots)) + SumOf(AdmittingOnes(w.tasks))
      && w.bytes == SumOf(Sizes(w.slots)) + SumOf(AdmittingSizes(w.tasks))
      && forall s :: s in w.slots ==> w.count >= 1 && w.bytes >= w.slots[s].size
  {
    hide IsRun, Step, RefsInv, DataInv, Exclusive, SumOf;
    RunInv(h, states, events, i);
    var w := states[i];
    forall s | s in w.slots ensures w.count >= 1 && w.bytes >= w.slots[s].size {
      PutSlot(w.slots, s, w.slots[s]);
      AlreadyThere(w.slots, s);
    }
  }

  // --- Receiving an upload ---

  function Joined(chunks: seq<Bytes>): Bytes {
    if chunks == [] then [] else chunks[0] + Joined(chunks[1..])
  }

  lemma {:induction false} JoinedPush(chunks: seq<Bytes>, chunk: Bytes)
    ensures Joined(chunks + [chunk]) == Joined(chunks) + chunk
  {
    if chunks == [] {
      assert chunks + [chunk] == [chunk];
    } else {
      assert (chunks + [chunk])[1..] == chunks[1..] + [chunk];
      JoinedPush(chunks[1..], chunk);
    }
  }

  lemma {:induction false} JoinedPrefix(chunks: seq<Bytes>, n: nat)
    requires n <= |chunks|
    ensures |Joined(chunks[..n])| <= |Joined(chunks)|
  {
    if n == 0 {
    } else {
      assert chunks[..n][1..] == chunks[1..][..n - 1];
      JoinedPrefix(chunks[1..], n - 1);
    }
  }
}
