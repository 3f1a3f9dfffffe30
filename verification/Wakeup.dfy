/** Waiting for a preparation slot: register for the notification, check under the lock, park. */
module Wakeup {
  import opened Sums

  /** `seen` is which reservations were outstanding when the waiter was turned away. */
  datatype Waiter =
    | Starting
    | Registered(notified: bool)
    | Parked(notified: bool, seen: set<nat>)

  /** A reservation is given up under the lock, by rollback or commit, and only afterwards notifies. */
  datatype Holder = Holding | GivenUp

  datatype World = World(waiters: map<nat, Waiter>, holders: map<nat, Holder>, reservations: nat)

  const QUIET: World := World(map[], map[], 0)

  datatype Event =
    | Arrive(w: nat)
    | Register(w: nat)
    | Admit(w: nat, h: nat)
    | TurnAway(w: nat)
    | Refuse(w: nat)
    | Resume(w: nat)
    | Leave(w: nat)
    | Reserve(h: nat)
    | GiveUp(h: nat)
    | Notify(h: nat)

  function Outstanding(holders: map<nat, Holder>): set<nat> { set h | h in holders && holders[h].Holding? }

  function Weights(holders: map<nat, Holder>): map<nat, nat> {
    map h | h in holders :: if holders[h].Holding? then 1 else 0
  }

  /** Every waiter registered by now is woken. */
  function Woken(k: Waiter): Waiter {
    match k
    case Starting => Starting
    case Registered(_) => Registered(true)
    case Parked(_, seen) => Parked(true, seen)
  }

  function NotifyAll(waiters: map<nat, Waiter>): map<nat, Waiter> {
    map w | w in waiters :: Woken(waiters[w])
  }

  ghost predicate Step(s: World, e: Event, s': World) {
    match e
    case Arrive(w) => w !in s.waiters && s' == s.(waiters := s.waiters[w := Starting])
    case Register(w) =>
      w in s.waiters && s.waiters[w].Starting? && s' == s.(waiters := s.waiters[w := Registered(false)])
    case Admit(w, h) =>
      && w in s.waiters && s.waiters[w].Registered? && h !in s.holders
      && s' == World(s.waiters - {w}, s.holders[h := Holding], s.reservations + 1)
    case TurnAway(w) =>
      && w in s.waiters && s.waiters[w].Registered? && s.reservations > 0
      && s' == s.(waiters := s.waiters[w := Parked(s.waiters[w].notified, Outstanding(s.holders))])
    case Refuse(w) =>
      && w in s.waiters && s.waiters[w].Registered? && s.reservations == 0
      && s' == s.(waiters := s.waiters - {w})
    case Resume(w) =>
      && w in s.waiters && s.waiters[w].Parked? && s.waiters[w].notified
      && s' == s.(waiters := s.waiters[w := Starting])
    case Leave(w) => w in s.waiters && s' == s.(waiters := s.waiters - {w})
    case Reserve(h) =>
      h !in s.holders && s' == s.(holders := s.holders[h := Holding], reservations := s.reservations + 1)
    case GiveUp(h) =>
      && h in s.holders && s.holders[h].Holding?
      && s' == s.(holders := s.holders[h := GivenUp], reservations := SatSub(s.reservations, 1))
    case Notify(h) =>
      && h in s.holders && s.holders[h].GivenUp?
      && s' == s.(holders := s.holders - {h}, waiters := NotifyAll(s.waiters))
  }

  /** Of the reservations a sleeping waiter was turned away for, none has finished without waking it. */
  ghost predicate WaiterInv(k: Waiter, holders: map<nat, Holder>) {
    k.Parked? && !k.notified ==> k.seen != {} && k.seen <= holders.Keys
  }

  ghost predicate Inv(s: World) {
    && s.reservations == SumOf(Weights(s.holders))
    && forall w :: w in s.waiters ==> WaiterInv(s.waiters[w], s.holders)
  }

  lemma {:induction false} SomeoneHolds(holders: map<nat, Holder>)
    requires SumOf(Weights(holders)) > 0
    ensures Outstanding(holders) != {}
  {
    if Outstanding(holders) == {} {
      assert forall h :: h in holders ==> h !in Outstanding(holders);
      SumBounded(Weights(holders), |Weights(holders).Keys|, 0);
      assert false;
    }
  }

  lemma {:induction false} PutHolder(holders: map<nat, Holder>, h: nat, k: Holder)
    ensures SumOf(Weights(holders[h := k])) == SumOf(Weights(holders - {h})) + (if k.Holding? then 1 else 0)
  {
    var m := holders[h := k];
    SumRemove(Weights(m), h);
    assert Weights(m) - {h} == Weights(holders - {h});
  }

  lemma {:induction false} StepKeepsCount(s: World, e: Event, s': World)
    requires Inv(s) && Step(s, e, s')
    ensures s'.reservations == SumOf(Weights(s'.holders))
  {
    hide SumOf, WaiterInv, Weights;
    match e {
      case Admit(w, h) => PutHolder(s.holders, h, Holding); assert s.holders - {h} == s.holders;
      case Reserve(h) => PutHolder(s.holders, h, Holding); assert s.holders - {h} == s.holders;
      case GiveUp(h) =>
        PutHolder(s.holders, h, GivenUp);
        PutHolder(s.holders, h, Holding);
        assert s.holders[h := Holding] == s.holders;
      case Notify(h) =>
        PutHolder(s.holders, h, GivenUp);
        assert s.holders[h := GivenUp] == s.holders;
      case _ =>
    }
  }

  lemma {:induction false} StepKeepsInv(s: World, e: Event, s': World)
    requires Inv(s) && Step(s, e, s')
    ensures Inv(s')
  {
    StepKeepsCount(s, e, s');
    if e.TurnAway? { SomeoneHolds(s.holders); }
    hide SumOf;
    forall w | w in s'.waiters ensures WaiterInv(s'.waiters[w], s'.holders) {
      if w in s.waiters { assert WaiterInv(s.waiters[w], s.holders); }
    }
  }

  ghost predicate IsRun(states: seq<World>, events: seq<Event>) {
    && |states| == |events| + 1 && states[0] == QUIET
    && forall i :: 0 <= i < |events| ==> Step(states[i], events[i], states[i + 1])
  }

  lemma {:induction false} RunInv(states: seq<World>, events: seq<Event>, i: nat)
    requires IsRun(states, events) && i < |states|
    ensures Inv(states[i])
  {
    hide Step;
    if i == 0 {
      assert Weights(QUIET.holders) == map[];
    } else {
      hide Inv;
      RunInv(states, events, i - 1);
      StepKeepsInv(states[i - 1], events[i - 1], states[i]);
    }
  }

  /**
   No lost wakeup: whoever sleeps unnotified was turned away for reservations all of which are still
   held or have yet to notify. Once every reservation is gone, nobody sleeps.
   */
  lemma {:induction false} NoLostWakeup(states: seq<World>, events: seq<Event>, i: nat, w: nat)
    requires IsRun(states, events) && i < |states| && w in states[i].waiters
    requires states[i].waiters[w].Parked? && !states[i].waiters[w].notified
    ensures states[i].waiters[w].seen != {}
    ensures forall h :: h in states[i].waiters[w].seen ==> h in states[i].holders
    ensures states[i].holders != map[]
  {
    hide IsRun, Step;
    RunInv(states, events, i);
    assert WaiterInv(states[i].waiters[w], states[i].holders);
    var h :| h in states[i].waiters[w].seen;
    assert h in states[i].holders;
  }

  /** The counter the check reads is the number of reservations outstanding, so it never saturates. */
  lemma {:induction false} CountIsExact(states: seq<World>, events: seq<Event>, i: nat)
    requires IsRun(states, events) && i < |states|
    ensures states[i].reservations == SumOf(Weights(states[i].holders))
    ensures states[i].reservations == 0 <==> Outstanding(states[i].holders) == {}
  {
    hide IsRun, Step;
    RunInv(states, events, i);
    var holders := states[i].holders;
    if SumOf(Weights(holders)) > 0 { SomeoneHolds(holders); }
    if Outstanding(holders) != {} {
      var h :| h in Outstanding(holders);
      SumRemove(Weights(holders), h);
    }
  }
}
