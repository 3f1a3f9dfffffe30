/**
 How a remote execution's result becomes the outcome the ledger keeps, and why a clean failure it
 reports can be believed.
 */
module Execution {
  import opened Wrappers
  import opened Sums
  import opened ProgressLog
  import opened LedgerTypes
  import opened LedgerSteps
  import opened LedgerRuns

  /** What a failure of each operation kind may have left behind. */
  datatype Policy =
    ReadOnly | FileMutation | Shell | WorkspaceMutation | ScmMutation | ChangesRevert | ChangesCleanup
    | TransferPublication

  /** A tool's answer; `encodable` says whether the neutral envelope can retain it. */
  datatype ToolResult =
    | ProtocolError
    | Answered(isError: bool, code: Option<string>, effectHint: Option<bool>, encodable: bool)

  function ErrorCode(result: ToolResult): Option<string> {
    if result.Answered? then result.code else None
  }

  function EffectHint(result: ToolResult): Option<bool> {
    if result.Answered? then result.effectHint else None
  }

  predicate HasFailed(result: ToolResult) {
    result.Answered? ==> result.isError
  }

  function SideEffectsPossible(policy: Policy, result: ToolResult): bool {
    var code := ErrorCode(result);
    if !HasFailed(result) then !policy.ReadOnly?
    else match policy
      case ReadOnly => false
      case TransferPublication => code == Some("transferIndeterminate") || code == None
      case FileMutation => code != Some("stale_resource")
      case Shell => true
      case WorkspaceMutation => code == Some("partial_failure") || code == None
      case ScmMutation =>
        if EffectHint(result).Some? then EffectHint(result).value
        else code == Some("cancelled") || code == Some("timed_out") || code == Some("operation_failed") || code == None
      case ChangesRevert => true
      case ChangesCleanup => code == Some("cancelled") || code == Some("operation_failed") || code == None
  }

  function CancelledOutcome(sideEffects: bool, payload: string): Outcome {
    Outcome(KindCancelled, sideEffects, payload)
  }

  function FailedOutcome(sideEffects: bool, payload: string): Outcome {
    Outcome(KindFailed, sideEffects, payload)
  }

  function ExecutionOutcome(result: ToolResult, sideEffects: bool, payload: string): Outcome {
    match result
    case ProtocolError => FailedOutcome(sideEffects, payload)
    case Answered(isError, _, _, encodable) =>
      if !encodable then FailedOutcome(sideEffects, payload)
      else Outcome(if isError then KindFailed else KindCompleted, isError && sideEffects, payload)
  }

  /** The ways `run_remote_execution` returns. */
  datatype RunShape =
    | CancelledBefore
    | ResultFirst(result: ToolResult, cancelled: bool)
    | CancelledDuring(result: ToolResult)

  function RunOutcome(policy: Policy, shape: RunShape, payload: string): Outcome {
    match shape
    case CancelledBefore => CancelledOutcome(false, payload)
    case ResultFirst(result, cancelled) =>
      var sideEffects := SideEffectsPossible(policy, result);
      if cancelled && HasFailed(result) then CancelledOutcome(sideEffects, payload)
      else ExecutionOutcome(result, sideEffects, payload)
    case CancelledDuring(result) => CancelledOutcome(SideEffectsPossible(policy, result), payload)
  }

  // --- What each operation kind promises about its own failures ---

  /** The error codes that each kind documents as "nothing was changed". */
  predicate CleanFailure(policy: Policy, result: ToolResult) {
    result.Answered? && result.isError
    && match policy
       case ReadOnly => true
       case FileMutation => result.code == Some("stale_resource")
       case Shell => false
       case WorkspaceMutation => result.code.Some? && result.code != Some("partial_failure")
       case ScmMutation =>
         result.effectHint == Some(false)
         || (result.effectHint.None? && result.code.Some?
             && result.code.value !in {"cancelled", "timed_out", "operation_failed"})
       case ChangesRevert => false
       case ChangesCleanup => result.code.Some? && result.code.value !in {"cancelled", "operation_failed"}
       case TransferPublication => result.code.Some? && result.code != Some("transferIndeterminate")
  }

  /** A kind keeps its promise: read-only kinds change nothing, clean failures changed nothing. */
  predicate KeepsPromise(policy: Policy, shape: RunShape, effect: bool) {
    match shape
    case CancelledBefore => !effect
    case ResultFirst(result, _) => effect ==> !policy.ReadOnly? && !CleanFailure(policy, result)
    case CancelledDuring(result) => effect ==> !policy.ReadOnly? && !CleanFailure(policy, result)
  }

  /** The code tables agree: effects are declared impossible exactly for read-only kinds and clean failures. */
  lemma {:induction false} EffectsPossibleUnlessClean(policy: Policy, result: ToolResult)
    ensures SideEffectsPossible(policy, result)
      <==> !policy.ReadOnly? && !CleanFailure(policy, result)
  {
    if result.ProtocolError? {
      assert ErrorCode(result) == None && EffectHint(result) == None;
    }
  }

  /** A terminal state that claims nothing happened. */
  predicate ClaimsNoEffect(state: OperationState) {
    state.Failed? || state.Cancelled?
  }

  /** Every way a run returns, an outcome that claims no effect is believable. */
  lemma {:induction false} OutcomeIsHonest(policy: Policy, shape: RunShape, payload: string, effect: bool)
    requires KeepsPromise(policy, shape, effect)
    ensures ClaimsNoEffect(TerminalState(Some(RunOutcome(policy, shape, payload)))) ==> !effect
  {
    if !shape.CancelledBefore? { EffectsPossibleUnlessClean(policy, shape.result); }
  }

  // --- Executions interleaved with everything else the ledger does ---

  /** `tasks` are the live executions; `lost` those whose task panicked or was aborted. */
  datatype System = System(w: World, tasks: map<Id, Policy>, lost: set<Id>, effects: set<Id>)

  datatype SystemEvent =
    | TaskStarted(id: Id, invocation: Id, host: string, now: nat, policy: Policy)
    | EffectHappened(id: Id)
    | TaskSettled(id: Id, invocation: Id, shape: RunShape, payload: string, now: nat)
    | TaskLost(id: Id, invocation: Id, now: nat)
    | LedgerStep(e: Event)

  /**
   Only an execution's own guard settles it. An abandoned task may still have its effect later, so
   `lost` executions stay able to.
   */
  ghost predicate SystemStep(c: Costs, s: System, e: SystemEvent, s': System) {
    match e
    case TaskStarted(id, invocation, host, now, policy) =>
      Step(c, s.w, Started(id, invocation, host, now), s'.w)
      && s' == System(s'.w, s.tasks[id := policy], s.lost, s.effects)
    case EffectHappened(id) =>
      (id in s.tasks || id in s.lost) && s' == s.(effects := s.effects + {id})
    case TaskSettled(id, invocation, shape, payload, now) =>
      id in s.tasks && KeepsPromise(s.tasks[id], shape, id in s.effects)
      && Step(c, s.w, Settled(id, invocation, Some(RunOutcome(s.tasks[id], shape, payload)), now), s'.w)
      && s' == System(s'.w, s.tasks - {id}, s.lost, s.effects)
    case TaskLost(id, invocation, now) =>
      Step(c, s.w, Settled(id, invocation, None, now), s'.w)
      && s' == System(s'.w, s.tasks - {id}, s.lost + {id}, s.effects)
    case LedgerStep(e) =>
      !e.Started? && !e.Settled? && Step(c, s.w, e, s'.w) && s' == System(s'.w, s.tasks, s.lost, s.effects)
  }

  ghost predicate IsSystemRun(c: Costs, states: seq<System>, events: seq<SystemEvent>) {
    && |states| == |events| + 1
    && states[0] == System(EMPTY, map[], {}, {})
    && forall i :: 0 <= i < |events| ==> SystemStep(c, states[i], events[i], states[i + 1])
  }

  // --- One preparation at a time ---

  /** Everything honesty depends on, for one preparation. */
  datatype View = View(
    state: Option<OperationState>, known: bool, invoked: bool, settled: Option<OperationState>,
    task: bool, lost: bool, effect: bool)

  ghost function ViewOf(s: System, id: Id): View {
    var p := if id in s.w.past then s.w.past[id] else NO_PAST;
    View(if id in s.w.records then Some(s.w.records[id].state) else None,
         id in s.w.past, p.invocation.Some?,
         if p.settled.Some? then Some(p.settled.value.state) else None,
         id in s.tasks, id in s.lost, id in s.effects)
  }

  predicate May(v: View) {
    v.task || v.lost || v.effect
  }

  /** Whatever may still have an effect was started, and nothing that claims a clean failure may. */
  predicate HonestView(v: View) {
    && (May(v) ==> v.invoked)
    && (v.task && v.state.Some? ==> v.state == Some(Running))
    && (v.lost && v.state.Some? ==> v.state == Some(Indeterminate))
    && (v.settled.Some? ==> !v.task)
    && (v.state.Some? && ClaimsNoEffect(v.state.value) ==> !May(v))
    && (v.settled.Some? && ClaimsNoEffect(v.settled.value) ==> !May(v))
  }

  ghost predicate Honest(s: System) {
    forall id :: HonestView(ViewOf(s, id))
  }

  /** What the invariant adds to a view before a step. */
  ghost predicate SoundView(v: View) {
    && (!v.invoked ==> v.settled.None?)
    && (v.state.Some? ==> v.known)
    && (v.state == Some(Running) ==> v.invoked && v.settled.None?)
  }

  lemma {:induction false} ViewIsSound(s: System, id: Id)
    requires RecordsInv(s.w.records, s.w.past, s.w.finishing)
    ensures SoundView(ViewOf(s, id))
  {
    if id in s.w.past { assert PastInv(s.w.past[id]); }
    if id in s.w.records { assert RecordInv(s.w.records[id], s.w.past[id], s.w.finishing == Some(id)); }
  }

  lemma {:induction false} StartView(c: Costs, s: System, e: SystemEvent, s': System, k: Id)
    requires RecordsInv(s.w.records, s.w.past, s.w.finishing) && SystemStep(c, s, e, s') && e.TaskStarted?
    requires HonestView(ViewOf(s, k))
    ensures HonestView(ViewOf(s', k))
  {
    hide FindTombstone, RecordInv;
    ViewIsSound(s, k);
    StartGrowsPast(c, s.w, e.id, e.invocation, e.host, e.now) by { hide RecordsInv; }
  }

  lemma {:induction false} SettleView(c: Costs, s: System, e: SystemEvent, s': System, k: Id)
    requires RecordsInv(s.w.records, s.w.past, s.w.finishing) && SystemStep(c, s, e, s')
    requires e.TaskSettled? || e.TaskLost?
    requires HonestView(ViewOf(s, k))
    ensures HonestView(ViewOf(s', k))
  {
    hide RecordsInv, RunOutcome, KeepsPromise;
    ViewIsSound(s, k);
    if e.TaskSettled? {
      OutcomeIsHonest(s.tasks[e.id], e.shape, e.payload, e.id in s.effects);
    }
  }

  /** How the remaining ledger steps may change one view: claims are kept or withdrawn, never added. */
  predicate ClaimKept(v: View, v': View) {
    && v' == v.(state := v'.state, settled := v'.settled, known := v'.known)
    && (v'.state == v.state || v'.state.None? || (v'.state == Some(Prepared) && !v.known)
        || (v'.state == Some(Indeterminate) && v.state.Some? && v.state != Some(Running)))
    && (v'.settled == v.settled || (v'.settled == v.state && v.state.Some? && v.state != Some(Running)))
  }

  /** The steps that leave every record alone. */
  predicate IsBookkeeping(e: Event) {
    e.Reserved? || e.Resized? || e.RolledBack? || e.Replied? || e.Refreshed? || e.TombstoneDropped? || e.LeaseDropped?
  }

  lemma {:induction false} BookkeepingView(c: Costs, s: System, e: Event, s': System, k: Id)
    requires Step(c, s.w, e, s'.w) && IsBookkeeping(e) && s' == s.(w := s'.w)
    ensures ViewOf(s', k) == ViewOf(s, k)
  {
    hide FindTombstone, ReplyTo, StoredBytes, PreparedCount, NoteEviction, Justified;
  }

  lemma {:induction false} RecordView(c: Costs, s: System, e: Event, s': System, k: Id)
    requires Step(c, s.w, e, s'.w) && !IsBookkeeping(e) && !e.Started? && !e.Settled? && s' == s.(w := s'.w)
    requires (e.Stripped? || e.SettleDone?) && IsFinishing(s.w, e.id) ==> s.w.records[e.id].IsTerminal()
    ensures ClaimKept(ViewOf(s, k), ViewOf(s', k))
  {
    hide Justified, PushTombstone, NoteEviction, TombstoneOf, Accepts, ProgressLog.Append, ProgressLog.DropFront,
      ProgressLog.Clear, SatSub;
  }

  lemma {:induction false} ClaimKeptIsHonest(v: View, v': View)
    requires HonestView(v) && SoundView(v) && ClaimKept(v, v')
    requires !v.known ==> !v.invoked
    ensures HonestView(v')
  {
  }

  lemma {:induction false} FinishingIsTerminal(w: World, id: Id)
    requires RecordsInv(w.records, w.past, w.finishing) && IsFinishing(w, id)
    ensures w.records[id].IsTerminal()
  {
    assert RecordInv(w.records[id], w.past[id], true);
  }

  lemma {:induction false} LedgerStepKeepsHonest(c: Costs, s: System, e: SystemEvent, s': System, k: Id)
    requires RecordsInv(s.w.records, s.w.past, s.w.finishing) && SystemStep(c, s, e, s') && e.LedgerStep?
    requires HonestView(ViewOf(s, k))
    ensures HonestView(ViewOf(s', k))
  {
    hide RecordsInv, Step, HonestView, SoundView, ClaimKept;
    ViewIsSound(s, k);
    if (e.e.Stripped? || e.e.SettleDone?) && IsFinishing(s.w, e.e.id) { FinishingIsTerminal(s.w, e.e.id); }
    if IsBookkeeping(e.e) {
      BookkeepingView(c, s, e.e, s', k);
    } else {
      RecordView(c, s, e.e, s', k);
      ClaimKeptIsHonest(ViewOf(s, k), ViewOf(s', k));
    }
  }

  lemma {:induction false} SystemStepKeepsHonest(c: Costs, s: System, e: SystemEvent, s': System)
    requires Inv(s.w) && Honest(s) && SystemStep(c, s, e, s')
    ensures Honest(s')
  {
    hide RecordsInv, LogsInv, TombstonesInv, TokensConserved, WithinLimits, Step, HonestView;
    forall k ensures HonestView(ViewOf(s', k)) {
      assert HonestView(ViewOf(s, k));
      match e
      case TaskStarted(_, _, _, _, _) => StartView(c, s, e, s', k);
      case EffectHappened(id) => EffectView(s, id, k);
      case TaskSettled(_, _, _, _, _) => SettleView(c, s, e, s', k);
      case TaskLost(_, _, _) => SettleView(c, s, e, s', k);
      case LedgerStep(_) => LedgerStepKeepsHonest(c, s, e, s', k);
    }
  }

  lemma {:induction false} EffectView(s: System, id: Id, k: Id)
    requires HonestView(ViewOf(s, k)) && (id in s.tasks || id in s.lost)
    ensures HonestView(ViewOf(s.(effects := s.effects + {id}), k))
  {
  }

  lemma {:induction false} SystemStepKeepsInv(c: Costs, s: System, e: SystemEvent, s': System)
    requires Inv(s.w) && SystemStep(c, s, e, s')
    ensures Inv(s'.w)
  {
    hide Inv, Step;
    match e
    case TaskStarted(id, invocation, host, now, _) =>
      StepKeepsInv(c, s.w, Started(id, invocation, host, now), s'.w);
    case EffectHappened(id) =>
    case TaskSettled(id, invocation, shape, payload, now) =>
      StepKeepsInv(c, s.w, Settled(id, invocation, Some(RunOutcome(s.tasks[id], shape, payload)), now), s'.w);
    case TaskLost(id, invocation, now) => StepKeepsInv(c, s.w, Settled(id, invocation, None, now), s'.w);
    case LedgerStep(l) => StepKeepsInv(c, s.w, l, s'.w);
  }

  lemma {:induction false} RunIsHonest(c: Costs, states: seq<System>, events: seq<SystemEvent>, i: nat)
    requires IsSystemRun(c, states, events) && i < |states|
    ensures Inv(states[i].w) && Honest(states[i])
  {
    hide Inv, SystemStep;
    if i == 0 {
      EmptyInv();
    } else {
      hide Honest;
      RunIsHonest(c, states, events, i - 1);
      SystemStepKeepsHonest(c, states[i - 1], events[i - 1], states[i]);
      SystemStepKeepsInv(c, states[i - 1], events[i - 1], states[i]);
    }
  }

  lemma {:induction false} SystemStepGrowsPast(c: Costs, s: System, e: SystemEvent, s': System)
    requires Inv(s.w) && SystemStep(c, s, e, s')
    ensures PastsGrow(s.w.past, s'.w.past)
  {
    hide LogInv, RecordInv, TombstoneInv, TokensConserved, WithinLimits, Step, PastsGrow;
    match e
    case TaskStarted(id, invocation, host, now, _) =>
      StepGrowsPast(c, s.w, Started(id, invocation, host, now), s'.w);
    case EffectHappened(_) => SamePastGrows(s.w.past);
    case TaskSettled(id, invocation, shape, payload, now) =>
      StepGrowsPast(c, s.w, Settled(id, invocation, Some(RunOutcome(s.tasks[id], shape, payload)), now), s'.w);
    case TaskLost(id, invocation, now) => StepGrowsPast(c, s.w, Settled(id, invocation, None, now), s'.w);
    case LedgerStep(l) => StepGrowsPast(c, s.w, l, s'.w);
  }

  lemma {:induction false} SystemRunGrowsPast(c: Costs, states: seq<System>, events: seq<SystemEvent>, i: nat, j: nat)
    requires IsSystemRun(c, states, events) && i <= j < |states|
    ensures PastsGrow(states[i].w.past, states[j].w.past)
  {
    hide SystemStep, Inv, Honest;
    if i == j {
      SamePastGrows(states[i].w.past);
    } else {
      SystemRunGrowsPast(c, states, events, i, j - 1);
      RunIsHonest(c, states, events, j - 1);
      SystemStepGrowsPast(c, states[j - 1], events[j - 1], states[j]);
    }
  }

  /**
   Whatever interleaving of starts, effects, results, cancellations, panics, aborts, retention and
   eviction led here: once a settled record reports Failed or Cancelled, its operation's effect has
   not happened, and never will in any later state.
   */
  lemma {:induction false} CleanReportsAreTrue(
      c: Costs, states: seq<System>, events: seq<SystemEvent>, i: nat, j: nat, id: Id)
    requires IsSystemRun(c, states, events) && i <= j < |states|
    requires id in states[i].w.records && ClaimsNoEffect(states[i].w.records[id].state)
    requires states[i].w.finishing.None?
    ensures id !in states[i].effects && id !in states[j].effects
  {
    hide SystemStep, Inv;
    RunIsHonest(c, states, events, i);
    RunIsHonest(c, states, events, j);
    SettledAsReported(states[i].w, id);
    SystemRunGrowsPast(c, states, events, i, j);
    assert HonestView(ViewOf(states[i], id));
    assert HonestView(ViewOf(states[j], id));
  }

  lemma {:induction false} SettledAsReported(w: World, id: Id)
    requires Inv(w) && id in w.records && w.records[id].IsTerminal() && w.finishing.None?
    ensures id in w.past && w.past[id].settled == Some(SettlementOf(w.records[id]))
  {
    hide LogInv, TombstoneInv, TokensConserved, WithinLimits;
    RecordFacts(w, id) by { assert id in w.past; }
  }

  /** Nothing the ledger still remembers only as a tombstone claims a clean failure. */
  lemma {:induction false} TombstonesClaimNothing(c: Costs, states: seq<System>, events: seq<SystemEvent>, i: nat)
    requires IsSystemRun(c, states, events) && i < |states|
    ensures forall k :: 0 <= k < |states[i].w.tombstones| ==> !ClaimsNoEffect(states[i].w.tombstones[k].state)
  {
    hide SystemStep, LogInv, RecordInv, TokensConserved, WithinLimits;
    RunIsHonest(c, states, events, i);
    var w := states[i].w;
    forall k | 0 <= k < |w.tombstones| ensures !ClaimsNoEffect(w.tombstones[k].state) {
      assert TombstoneInv(w.tombstones[k], w.records, w.past);
    }
  }
}
