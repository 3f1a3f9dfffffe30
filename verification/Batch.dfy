/** Batch extraction by workers that claim positions from one shared counter. */
module Batch {
  import opened Wrappers

  /** A worker's results so far, the position it is extracting, and whether it has run out of work. */
  datatype Worker<F> = Worker(local: seq<(nat, F)>, current: Option<nat>, done: bool)

  /** `log` is history: which worker each value of the counter went to. */
  datatype World<F> = World(next: nat, workers: seq<Worker<F>>, log: seq<nat>)

  datatype Event = Claim(worker: nat) | Finish(worker: nat)

  ghost predicate Step<I(!new), F(!new)>(items: seq<I>, f: I -> F, w: World<F>, e: Event, w': World<F>) {
    && e.worker < |w.workers|
    && var k := w.workers[e.worker];
    match e
    case Claim(i) =>
      && k.current.None? && !k.done
      && w' == World(w.next + 1,
                     w.workers[i := if w.next < |items| then k.(current := Some(w.next)) else k.(done := true)],
                     w.log + [i])
    case Finish(i) =>
      && k.current.Some? && k.current.value < |items|
      && w' == w.(workers :=
        w.workers[i := k.(local := k.local + [(k.current.value, f(items[k.current.value]))], current := None)])
  }

  ghost predicate Starts<F(!new)>(w: World<F>, threads: nat) {
    && w.next == 0 && w.log == [] && |w.workers| == threads
    && forall i :: 0 <= i < threads ==> w.workers[i] == Worker([], None, false)
  }

  ghost predicate IsRun<I(!new), F(!new)>(
      items: seq<I>, f: I -> F, threads: nat, states: seq<World<F>>, events: seq<Event>)
  {
    && |states| == |events| + 1 && Starts(states[0], threads)
    && forall i :: 0 <= i < |events| ==> Step(items, f, states[i], events[i], states[i + 1])
  }

  ghost predicate Finished<F(!new)>(w: World<F>) {
    forall i :: 0 <= i < |w.workers| ==> w.workers[i].done && w.workers[i].current.None?
  }

  /** The positions a worker has claimed, in the order it claimed them. */
  function ClaimedBy(log: seq<nat>, worker: nat, n: nat): seq<nat> {
    if log == [] then []
    else
      var last, rest := |log| - 1, ClaimedBy(log[..|log| - 1], worker, n);
      if log[last] == worker && last < n then rest + [last] else rest
  }

  function Indices<F>(local: seq<(nat, F)>): seq<nat> {
    seq(|local|, i requires 0 <= i < |local| => local[i].0)
  }

  function Taken<F>(k: Worker<F>): seq<nat> {
    if k.current.Some? then Indices(k.local) + [k.current.value] else Indices(k.local)
  }

  /** What a worker holds is exactly what it claimed, and every result is the item's own. */
  ghost predicate WorkerInv<I(!new), F(!new)>(items: seq<I>, f: I -> F, w: World<F>, i: nat)
    requires i < |w.workers|
  {
    var k := w.workers[i];
    && Taken(k) == ClaimedBy(w.log, i, |items|)
    && (forall p :: 0 <= p < |k.local| ==> k.local[p].0 < |items| && k.local[p].1 == f(items[k.local[p].0]))
    && (k.done ==> w.next >= |items| && k.current.None?)
  }

  ghost predicate Inv<I(!new), F(!new)>(items: seq<I>, f: I -> F, threads: nat, w: World<F>) {
    && |w.workers| == threads && |w.log| == w.next
    && (forall p :: 0 <= p < |w.log| ==> w.log[p] < threads)
    && forall i :: 0 <= i < threads ==> WorkerInv(items, f, w, i)
  }

  lemma {:induction false} StepKeepsInv<I(!new), F(!new)>(
      items: seq<I>, f: I -> F, threads: nat, w: World<F>, e: Event, w': World<F>)
    requires Inv(items, f, threads, w) && Step(items, f, w, e, w')
    ensures Inv(items, f, threads, w')
  {
    forall i | 0 <= i < threads ensures WorkerInv(items, f, w', i) {
      assert WorkerInv(items, f, w, i);
      if e.Claim? { assert (w.log + [e.worker])[..|w.log|] == w.log; }
      if e.worker == i && e.Finish? {
        var k, k' := w.workers[i], w'.workers[i];
        assert Indices(k'.local) == Indices(k.local) + [k.current.value];
      }
    }
  }

  lemma {:induction false} RunInv<I(!new), F(!new)>(
      items: seq<I>, f: I -> F, threads: nat, states: seq<World<F>>, events: seq<Event>, i: nat)
    requires IsRun(items, f, threads, states, events) && i < |states|
    ensures Inv(items, f, threads, states[i])
  {
    if i > 0 {
      hide Inv, Step;
      RunInv(items, f, threads, states, events, i - 1);
      StepKeepsInv(items, f, threads, states[i - 1], events[i - 1], states[i]);
    }
  }

  lemma {:induction false} ClaimedByHolds(log: seq<nat>, worker: nat, n: nat, p: nat)
    ensures p in ClaimedBy(log, worker, n) <==> p < |log| && log[p] == worker && p < n
    ensures multiset(ClaimedBy(log, worker, n))[p] <= 1
  {
    if log != [] {
      ClaimedByHolds(log[..|log| - 1], worker, n, p);
      ClaimedByHolds(log[..|log| - 1], worker, n, |log| - 1);
    }
  }

  /**
   Under every interleaving, once the workers are done each position is in the results of exactly one
   worker, there exactly once.
   */
  lemma {:induction false} EachClaimedOnce<I(!new), F(!new)>(
      items: seq<I>, f: I -> F, threads: nat, states: seq<World<F>>, events: seq<Event>, p: nat)
    requires IsRun(items, f, threads, states, events) && Finished(states[|states| - 1]) && threads > 0 && p < |items|
    ensures var w := states[|states| - 1];
      && p < |w.log| && w.log[p] < |w.workers|
      && forall i :: 0 <= i < |w.workers| ==> multiset(Indices(w.workers[i].local))[p] == if i == w.log[p] then 1 else 0
  {
    var w := states[|states| - 1];
    RunInv(items, f, threads, states, events, |states| - 1);
    hide IsRun, Step;
    assert WorkerInv(items, f, w, 0);
    forall i | 0 <= i < |w.workers|
      ensures multiset(Indices(w.workers[i].local))[p] == if i == w.log[p] then 1 else 0
    {
      assert WorkerInv(items, f, w, i);
      ClaimedByHolds(w.log, i, |items|, p);
      assert p in ClaimedBy(w.log, i, |items|) <==> p in multiset(ClaimedBy(w.log, i, |items|));
    }
  }

  // --- Collecting ---

  function Flatten<T>(parts: seq<seq<T>>): seq<T> {
    if parts == [] then [] else parts[0] + Flatten(parts[1..])
  }

  function LocalsOf<F>(workers: seq<Worker<F>>): seq<seq<(nat, F)>> {
    seq(|workers|, i requires 0 <= i < |workers| => workers[i].local)
  }

  lemma {:induction false} FlattenHolds<T(!new)>(parts: seq<seq<T>>, x: T)
    ensures x in Flatten(parts) <==> exists i :: 0 <= i < |parts| && x in parts[i]
  {
    if parts != [] {
      FlattenHolds(parts[1..], x);
      if x in Flatten(parts[1..]) {
        var i :| 0 <= i < |parts[1..]| && x in parts[1..][i];
        assert x in parts[i + 1];
      }
      if exists i :: 0 <= i < |parts| && x in parts[i] {
        var i :| 0 <= i < |parts| && x in parts[i];
        if i > 0 { assert parts[1..][i - 1] == parts[i]; }
      }
    }
  }

  /** Every entry tells the truth about its position, and every position has an entry. */
  ghost predicate Covers<I(!new), F(!new)>(items: seq<I>, f: I -> F, entries: seq<(nat, F)>) {
    && (forall k :: 0 <= k < |entries| ==> entries[k].0 < |items| && entries[k].1 == f(items[entries[k].0]))
    && (forall p :: 0 <= p < |items| ==> HasEntry(entries, p))
  }

  ghost predicate HasEntry<F(!new)>(entries: seq<(nat, F)>, p: nat) {
    exists k :: 0 <= k < |entries| && entries[k].0 == p
  }

  lemma {:induction false} FinishedCovers<I(!new), F(!new)>(
      items: seq<I>, f: I -> F, threads: nat, states: seq<World<F>>, events: seq<Event>)
    requires IsRun(items, f, threads, states, events) && Finished(states[|states| - 1]) && threads > 0
    ensures Covers(items, f, Flatten(LocalsOf(states[|states| - 1].workers)))
  {
    var w := states[|states| - 1];
    var parts := LocalsOf(w.workers);
    var entries := Flatten(parts);
    RunInv(items, f, threads, states, events, |states| - 1);
    forall k | 0 <= k < |entries| ensures entries[k].0 < |items| && entries[k].1 == f(items[entries[k].0]) {
      FlattenHolds(parts, entries[k]);
      var i :| 0 <= i < |parts| && entries[k] in parts[i];
      assert WorkerInv(items, f, w, i);
    }
    forall p | 0 <= p < |items| ensures HasEntry(entries, p) {
      EachClaimedOnce(items, f, threads, states, events, p);
      var local := w.workers[w.log[p]].local;
      assert p in multiset(Indices(local));
      var q :| 0 <= q < |local| && Indices(local)[q] == p;
      assert local[q] in parts[w.log[p]];
      FlattenHolds(parts, local[q]);
    }
  }

  /** Writes every entry to its position in a vector of empty results. */
  method Collect<I(!new), R(!new)>(items: seq<I>, ghost f: I -> Option<R>, entries: seq<(nat, Option<R>)>)
    returns (facts: seq<Option<R>>)
    requires Covers(items, f, entries)
    ensures facts == seq(|items|, i requires 0 <= i < |items| => f(items[i]))
  {
    facts := seq(|items|, i => None);
    var k := 0;
    while k < |entries|
      invariant 0 <= k <= |entries| && |facts| == |items|
      invariant forall q :: 0 <= q < k ==> facts[entries[q].0] == f(items[entries[q].0])
    {
      facts := facts[entries[k].0 := entries[k].1];
      k := k + 1;
    }
    forall p | 0 <= p < |items| ensures facts[p] == f(items[p]) {
      assert HasEntry(entries, p);
      var q :| 0 <= q < |entries| && entries[q].0 == p;
    }
  }

  // --- Running the workers ---

  lemma {:induction false} ExtendRun<I(!new), F(!new)>(
      items: seq<I>, f: I -> F, threads: nat, states: seq<World<F>>, events: seq<Event>, e: Event, w: World<F>)
    requires IsRun(items, f, threads, states, events) && Step(items, f, states[|states| - 1], e, w)
    ensures IsRun(items, f, threads, states + [w], events + [e])
  {
    hide Step;
    forall i | 0 <= i < |events + [e]|
      ensures Step(items, f, (states + [w])[i], (events + [e])[i], (states + [w])[i + 1])
    {
      if i < |events| { assert Step(items, f, states[i], events[i], states[i + 1]); }
    }
  }

  function Remaining(next: nat, n: nat): nat { if next < n then n - next else 0 }

  /** One worker's next action: extract what it has claimed, or claim the next position. */
  method Act<I(!new), F(!new)>(
      items: seq<I>, f: I -> F, threads: nat, i: nat, next0: nat, workers0: seq<Worker<F>>,
      ghost states0: seq<World<F>>, ghost events0: seq<Event>)
    returns (next: nat, workers: seq<Worker<F>>, ghost states: seq<World<F>>, ghost events: seq<Event>)
    requires IsRun(items, f, threads, states0, events0) && i < |workers0| && !workers0[i].done
    requires states0[|states0| - 1] == World(next0, workers0, states0[|states0| - 1].log)
    ensures IsRun(items, f, threads, states, events)
    ensures states[|states| - 1] == World(next, workers, states[|states| - 1].log)
    ensures |workers| == |workers0| && forall k :: 0 <= k < |workers| && k != i ==> workers[k] == workers0[k]
    ensures Remaining(next, |items|) < Remaining(next0, |items|)
      || (Remaining(next, |items|) == Remaining(next0, |items|) && workers[i].done)
      || (Remaining(next, |items|) == Remaining(next0, |items|) && !workers[i].done
          && workers0[i].current.Some? && workers[i].current.None?)
  {
    ghost var w := states0[|states0| - 1];
    RunInv(items, f, threads, states0, events0, |states0| - 1);
    assert WorkerInv(items, f, w, i);
    var k := workers0[i];
    next, workers := next0, workers0;
    if k.current.Some? {
      ClaimedIsItem(items, f, threads, w, i);
      var p := k.current.value;
      workers := workers[i := k.(local := k.local + [(p, f(items[p]))], current := None)];
      ghost var w' := w.(workers := workers);
      ExtendRun(items, f, threads, states0, events0, Finish(i), w');
      states, events := states0 + [w'], events0 + [Finish(i)];
    } else {
      workers := workers[i := if next < |items| then k.(current := Some(next)) else k.(done := true)];
      next := next + 1;
      ghost var w' := World(next, workers, w.log + [i]);
      ExtendRun(items, f, threads, states0, events0, Claim(i), w');
      states, events := states0 + [w'], events0 + [Claim(i)];
    }
  }

  lemma {:induction false} ClaimedIsItem<I(!new), F(!new)>(
      items: seq<I>, f: I -> F, threads: nat, w: World<F>, i: nat)
    requires Inv(items, f, threads, w) && i < |w.workers| && w.workers[i].current.Some?
    ensures w.workers[i].current.value < |items|
  {
    var k := w.workers[i];
    assert WorkerInv(items, f, w, i);
    assert Taken(k)[|k.local|] == k.current.value;
    ClaimedByHolds(w.log, i, |items|, k.current.value);
  }

  /** Every worker runs until the counter is exhausted, in the order the schedule says and then one by one. */
  method RunWorkers<I(!new), F(!new)>(items: seq<I>, f: I -> F, threads: nat, schedule: seq<nat>)
    returns (workers: seq<Worker<F>>, ghost states: seq<World<F>>, ghost events: seq<Event>)
    ensures IsRun(items, f, threads, states, events) && Finished(states[|states| - 1])
    ensures workers == states[|states| - 1].workers
  {
    var next: nat := 0;
    workers := seq(threads, i => Worker([], None, false));
    states, events := [World(0, workers, [])], [];
    var s := 0;
    while s < |schedule|
      invariant IsRun(items, f, threads, states, events) && |workers| == threads
      invariant states[|states| - 1] == World(next, workers, states[|states| - 1].log)
    {
      if schedule[s] < threads && !workers[schedule[s]].done {
        next, workers, states, events := Act(items, f, threads, schedule[s], next, workers, states, events);
      }
      s := s + 1;
    }
    var i := 0;
    while i < threads
      invariant IsRun(items, f, threads, states, events) && |workers| == threads && i <= threads
      invariant states[|states| - 1] == World(next, workers, states[|states| - 1].log)
      invariant forall k :: 0 <= k < i ==> workers[k].done
    {
      while !workers[i].done
        invariant IsRun(items, f, threads, states, events) && |workers| == threads
        invariant states[|states| - 1] == World(next, workers, states[|states| - 1].log)
        invariant forall k :: 0 <= k < i ==> workers[k].done
        decreases Remaining(next, |items|), if workers[i].done then 0 else 1, if workers[i].current.Some? then 1 else 0
      {
        next, workers, states, events := Act(items, f, threads, i, next, workers, states, events);
      }
      i := i + 1;
    }
    RunInv(items, f, threads, states, events, |states| - 1);
    forall k | 0 <= k < threads ensures workers[k].current.None? {
      assert WorkerInv(items, f, states[|states| - 1], k);
    }
  }

  /** The batch is the sequential map, whatever the worker count and however the workers interleave. */
  method ExtractBatch<I(!new), R(!new)>(items: seq<I>, f: I -> Option<R>, threads: nat, schedule: seq<nat>)
    returns (facts: seq<Option<R>>)
    ensures facts == seq(|items|, i requires 0 <= i < |items| => f(items[i]))
  {
    if threads <= 1 || |items| <= 1 {
      facts := [];
      var i := 0;
      while i < |items|
        invariant 0 <= i <= |items| && |facts| == i
        invariant forall p :: 0 <= p < i ==> facts[p] == f(items[p])
      {
        facts := facts + [f(items[i])];
        i := i + 1;
      }
      return;
    }
    hide IsRun;
    var workers;
    ghost var states, events;
    workers, states, events := RunWorkers(items, f, threads, schedule);
    FinishedCovers(items, f, threads, states, events);
    facts := Collect(items, f, Flatten(LocalsOf(workers)));
  }

  /** How many workers a batch gets: what the machine and the host allow, no more than items, at least one. */
  function WorkerThreads(parallelism: nat, ceiling: nat, items: nat): (n: nat)
    ensures n >= 1 && (n > 1 ==> n <= parallelism && n <= ceiling && n <= items)
  {
    var a := if parallelism < ceiling then parallelism else ceiling;
    var b := if a < items then a else items;
    if b < 1 then 1 else b
  }
}
