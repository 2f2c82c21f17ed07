/** The queue drains: a weighted sum over the live messages shrinks with every claim, outcome,
    bounce, crash and recovery, and grows only with a submission. */
module QueueDrain {
  import opened Wrappers
  import opened QueueModel
  import opened DeliveryErrors
  import opened QueueRuns

  function AttemptsLeft(cfg: Config, m: Message): nat {
    if m.attempts < cfg.maxRetries then cfg.maxRetries - m.attempts else 0
  }

  /** What may still happen to a bounce that is yet to be queued. */
  function OwedWeight(cfg: Config): nat
    requires cfg.maxRetries >= 1
  {
    3 * cfg.maxRetries + 1
  }

  /** What a bounce of the message weighs, if its sender gets one. */
  function BounceWeight(cfg: Config, m: Message): nat
    requires cfg.maxRetries >= 1
  {
    if ShouldBounce(m.sender) then OwedWeight(cfg) else 0
  }

  /** A live message pays for each attempt left and for the present one. If every Fail command goes
      through (`once`), it also pays for one bounce; otherwise each attempt pays for one. */
  function Weight(cfg: Config, once: bool, s: Slot): nat
    requires cfg.maxRetries >= 1
  {
    var m := s.record;
    var b := BounceWeight(cfg, m);
    var rest := if once then 3 * AttemptsLeft(cfg, m) + (if b > 0 then b + 1 else 0) else AttemptsLeft(cfg, m) * (3 + b);
    if m.status.Pending? || m.status.Deferred? then rest
    else if m.status.Sending? then rest + (if !s.held then 1 else if once then 2 else 2 + b)
    else 0
  }

  function WeightAt(cfg: Config, once: bool, w: World, id: Id): nat
    requires cfg.maxRetries >= 1
  {
    if id in w.db.messages then Weight(cfg, once, SlotOf(w, id)) else 0
  }

  ghost function Total(cfg: Config, once: bool, w: World, ids: set<Id>): nat
    requires cfg.maxRetries >= 1
  {
    if ids == {} then 0
    else
      var id :| id in ids;
      WeightAt(cfg, once, w, id) + Total(cfg, once, w, ids - {id})
  }

  ghost function Measure(cfg: Config, once: bool, w: World): nat
    requires cfg.maxRetries >= 1
  {
    Total(cfg, once, w, w.db.messages.Keys) + |w.owed| * OwedWeight(cfg)
  }

  lemma {:induction false} TotalSplit(cfg: Config, once: bool, w: World, ids: set<Id>, id: Id)
    requires cfg.maxRetries >= 1 && id in ids
    ensures Total(cfg, once, w, ids) == WeightAt(cfg, once, w, id) + Total(cfg, once, w, ids - {id})
    decreases |ids|
  {
    hide WeightAt;
    var first :| first in ids && Total(cfg, once, w, ids) == WeightAt(cfg, once, w, first) + Total(cfg, once, w, ids - {first});
    if first != id {
      TotalSplit(cfg, once, w, ids - {first}, id);
      TotalSplit(cfg, once, w, ids - {id}, first);
      assert ids - {first} - {id} == ids - {id} - {first};
    }
  }

  lemma {:induction false} TotalSame(cfg: Config, once: bool, w: World, w': World, ids: set<Id>)
    requires cfg.maxRetries >= 1
    requires forall id :: id in ids ==> WeightAt(cfg, once, w, id) == WeightAt(cfg, once, w', id)
    ensures Total(cfg, once, w, ids) == Total(cfg, once, w', ids)
    decreases |ids|
  {
    hide WeightAt;
    if ids != {} {
      var id :| id in ids;
      TotalSplit(cfg, once, w, ids, id);
      TotalSplit(cfg, once, w', ids, id);
      TotalSame(cfg, once, w, w', ids - {id});
    }
  }

  /** Only one message changes weight. */
  lemma TotalMoved(cfg: Config, once: bool, w: World, w': World, ids: set<Id>, id: Id)
    requires cfg.maxRetries >= 1 && id in ids
    requires forall other :: other in ids && other != id ==> WeightAt(cfg, once, w, other) == WeightAt(cfg, once, w', other)
    ensures Total(cfg, once, w', ids) - WeightAt(cfg, once, w', id) == Total(cfg, once, w, ids) - WeightAt(cfg, once, w, id)
  {
    hide WeightAt;
    TotalSplit(cfg, once, w, ids, id);
    TotalSplit(cfg, once, w', ids, id);
    TotalSame(cfg, once, w, w', ids - {id});
  }

  // ----- one step -----

  /** The event makes a bounce of its message due. */
  predicate StartsBounce(s: Slot, e: Event) {
    (e.FailLost? || (e.Finish? && e.outcome.Permanent?)) && ShouldBounce(s.record.sender)
  }

  /** The weight with one bounce a message is for runs in which every Fail command goes through. */
  predicate Covers(once: bool, e: Event) {
    once ==> !e.FailLost?
  }

  lemma OneAttemptLess(left: nat, b: nat)
    requires left >= 1
    ensures left * (3 + b) == (left - 1) * (3 + b) + 3 + b
  {
  }

  lemma ClaimLighter(cfg: Config, once: bool, s: Slot, e: Event, clock: int)
    requires cfg.maxRetries >= 1 && SlotOk(cfg, s, clock) && Fits(s, e) && e.Claim?
    ensures Weight(cfg, once, SlotStep(cfg, s, e)) < Weight(cfg, once, s)
  {
    hide ShouldBounce, Timed;
    OneAttemptLess(AttemptsLeft(cfg, s.record), BounceWeight(cfg, s.record));
  }

  lemma SlotLighter(cfg: Config, once: bool, s: Slot, e: Event, clock: int)
    requires cfg.maxRetries >= 1 && SlotOk(cfg, s, clock) && Fits(s, e) && !e.Sweep? && Covers(once, e)
    ensures Weight(cfg, once, SlotStep(cfg, s, e)) + (if StartsBounce(s, e) then OwedWeight(cfg) else 0) < Weight(cfg, once, s)
  {
    hide Backoff, ShouldBounce, Timed;
    if e.Claim? {
      hide SlotStep, Weight, SlotOk, Fits;
      ClaimLighter(cfg, once, s, e, clock);
    }
  }

  lemma OwedAfter(cfg: Config, hold: int, w: World, e: Event)
    requires Setup(cfg, hold) && Legal(hold, w, e) && Inv(cfg, w)
    ensures Target(e).Some? ==> e.id in w.db.messages
    ensures |Step(cfg, hold, w, e).owed| ==
            if e.Bounce? then |w.owed| - 1
            else if Target(e).Some? && StartsBounce(SlotOf(w, e.id), e) then |w.owed| + 1 else |w.owed|
  {
    hide Step, Legal, ShouldBounce, Conserved, Known, AllOk, OweOk, Tells;
    EventKnown(hold, w, e);
    OwesAfter(cfg, hold, w, e);
    if Target(e).Some? {
      TargetFits(cfg, hold, w, e);
      if DueAt(w, e) != {} {
        OweStarts(cfg, hold, w, e, Owe(e.id, w.db.messages[e.id].attempts));
      }
    }
  }

  /** An event about one message already there. */
  lemma TotalStep(cfg: Config, once: bool, hold: int, w: World, e: Event)
    requires Setup(cfg, hold) && Legal(hold, w, e) && Inv(cfg, w) && Target(e).Some?
    ensures e.id in w.db.messages
    ensures Total(cfg, once, Step(cfg, hold, w, e), w.db.messages.Keys) - Weight(cfg, once, SlotStep(cfg, SlotOf(w, e.id), e))
            == Total(cfg, once, w, w.db.messages.Keys) - Weight(cfg, once, SlotOf(w, e.id))
  {
    hide Legal, Step, SlotStep, Weight, AllOk, Known, Conserved, Families;
    TargetFits(cfg, hold, w, e);
    StepSlotwise(cfg, hold, w, e);
    TotalMoved(cfg, once, w, Step(cfg, hold, w, e), w.db.messages.Keys, e.id);
  }

  /** A message is added, the others stay. */
  lemma TotalAdded(cfg: Config, once: bool, hold: int, w: World, e: Event)
    requires Setup(cfg, hold) && Legal(hold, w, e) && Inv(cfg, w) && Added(e).Some?
    ensures var w' := Step(cfg, hold, w, e); var id := Added(e).value;
            && id in w'.db.messages
            && Total(cfg, once, w', w'.db.messages.Keys) == Weight(cfg, once, SlotOf(w', id)) + Total(cfg, once, w', w.db.messages.Keys)
  {
    hide Legal, Step, Weight, AllOk, Known, Conserved, Families;
    var w' := Step(cfg, hold, w, e);
    KeyAdded(cfg, hold, w, e);
    var id := Added(e).value;
    TotalSplit(cfg, once, w', w'.db.messages.Keys, id);
    assert w'.db.messages.Keys - {id} == w.db.messages.Keys;
  }

  /** The most a submission adds. */
  function Allowance(cfg: Config, once: bool): nat
    requires cfg.maxRetries >= 1
  {
    if once then 6 * cfg.maxRetries + 2 else cfg.maxRetries * (3 * cfg.maxRetries + 4)
  }

  /** What a new message weighs; one with the null sender weighs less than the bounce that was due. */
  lemma NewWeight(cfg: Config, once: bool, m: Message, id: Id, at: int)
    requires cfg.maxRetries >= 1 && Unsent(m)
    ensures Weight(cfg, once, NewSlot(cfg, m, id, at)) <= Allowance(cfg, once)
    ensures m.sender == "" ==> Weight(cfg, once, NewSlot(cfg, m, id, at)) < OwedWeight(cfg)
  {
    NullSenderSilent();
    hide ShouldBounce;
    var mr := cfg.maxRetries;
    assert mr * (3 + (3 * mr + 1)) == mr * (3 * mr + 4);
    assert mr * 3 <= mr * (3 * mr + 4);
  }

  lemma SubmitAdds(cfg: Config, once: bool, hold: int, w: World, e: Event)
    requires Setup(cfg, hold) && Legal(hold, w, e) && Inv(cfg, w) && e.Submit?
    ensures Measure(cfg, once, Step(cfg, hold, w, e)) <= Measure(cfg, once, w) + Allowance(cfg, once)
  {
    hide Step, Weight, AllOk, Known, Conserved, Families, InTime, ShouldBounce, Total, Allowance;
    var w' := Step(cfg, hold, w, e);
    TotalAdded(cfg, once, hold, w, e);
    NewSlotOk(cfg, hold, w, e);
    NewWeight(cfg, once, e.m, e.id, e.at);
    OthersSame(cfg, once, hold, w, e);
    OwedAfter(cfg, hold, w, e);
  }

  /** Submissions and bounces leave the messages already there as they are. */
  lemma OthersSame(cfg: Config, once: bool, hold: int, w: World, e: Event)
    requires Setup(cfg, hold) && Legal(hold, w, e) && Inv(cfg, w) && (e.Submit? || e.Bounce?)
    ensures Total(cfg, once, Step(cfg, hold, w, e), w.db.messages.Keys) == Total(cfg, once, w, w.db.messages.Keys)
  {
    hide Legal, Step, Weight, AllOk, Known, Conserved, Families;
    StepSlotwise(cfg, hold, w, e);
    TotalSame(cfg, once, w, Step(cfg, hold, w, e), w.db.messages.Keys);
  }

  lemma SweepSame(cfg: Config, once: bool, hold: int, w: World, e: Event)
    requires Setup(cfg, hold) && Legal(hold, w, e) && e.Sweep?
    ensures Measure(cfg, once, Step(cfg, hold, w, e)) == Measure(cfg, once, w)
  {
    hide InTime, ShouldBounce, AttemptsLeft;
    TotalSame(cfg, once, w, Step(cfg, hold, w, e), w.db.messages.Keys);
  }

  lemma BounceLighter(cfg: Config, once: bool, hold: int, w: World, e: Event)
    requires Setup(cfg, hold) && Legal(hold, w, e) && Inv(cfg, w) && e.Bounce?
    ensures Measure(cfg, once, Step(cfg, hold, w, e)) < Measure(cfg, once, w)
  {
    hide Step, Weight, AllOk, Known, Conserved, Families, InTime, Total, OwedWeight, Allowance;
    var w' := Step(cfg, hold, w, e);
    OthersSame(cfg, once, hold, w, e);
    OwedAfter(cfg, hold, w, e);
    OneOwedLess(cfg, w, w');
    OwedPositive(cfg);
    if e.done {
      TotalAdded(cfg, once, hold, w, e);
      NewSlotOk(cfg, hold, w, e);
      NewWeight(cfg, once, BounceFor(w.db.messages[e.owe.id], e.path, e.size), e.newId, e.at);
    } else {
      KeysKept(cfg, hold, w, e);
    }
  }

  lemma OneOwedLess(cfg: Config, w: World, w': World)
    requires cfg.maxRetries >= 1 && |w'.owed| == |w.owed| - 1
    ensures |w'.owed| * OwedWeight(cfg) + OwedWeight(cfg) == |w.owed| * OwedWeight(cfg)
  {
    var k := OwedWeight(cfg);
    assert (|w.owed| - 1) * k == |w.owed| * k - k;
  }

  lemma WorkLighter(cfg: Config, once: bool, hold: int, w: World, e: Event)
    requires Setup(cfg, hold) && Legal(hold, w, e) && Inv(cfg, w) && Target(e).Some? && Covers(once, e)
    ensures Measure(cfg, once, Step(cfg, hold, w, e)) < Measure(cfg, once, w)
  {
    hide Step, Weight, SlotStep, AllOk, Known, Conserved, Families, InTime, Total, OwedWeight, StartsBounce, Covers;
    var w' := Step(cfg, hold, w, e);
    TotalStep(cfg, once, hold, w, e);
    TargetFits(cfg, hold, w, e);
    SlotKnown(cfg, w, e.id);
    SlotLighter(cfg, once, SlotOf(w, e.id), e, w.clock);
    OwedAfter(cfg, hold, w, e);
    KeysKept(cfg, hold, w, e);
    if StartsBounce(SlotOf(w, e.id), e) { OneOwedMore(cfg, w, w'); }
  }

  lemma OneOwedMore(cfg: Config, w: World, w': World)
    requires cfg.maxRetries >= 1 && |w'.owed| == |w.owed| + 1
    ensures |w'.owed| * OwedWeight(cfg) == |w.owed| * OwedWeight(cfg) + OwedWeight(cfg)
  {
    var k := OwedWeight(cfg);
    assert (|w.owed| + 1) * k == |w.owed| * k + k;
  }

  // ----- the queue drains -----

  /** Every claim, outcome, bounce, crash and recovery brings the measure down, even a permanent
      failure that will queue a bounce, and, with a bounce paid for each attempt, even one whose
      Fail command errs; a cleanup leaves it, and a submission adds no more than its allowance. */
  lemma Drain(cfg: Config, once: bool, hold: int, w: World, e: Event)
    requires Setup(cfg, hold) && Legal(hold, w, e) && Inv(cfg, w) && Covers(once, e)
    ensures !e.Submit? && !e.Sweep? ==> Measure(cfg, once, Step(cfg, hold, w, e)) < Measure(cfg, once, w)
    ensures e.Sweep? ==> Measure(cfg, once, Step(cfg, hold, w, e)) == Measure(cfg, once, w)
    ensures e.Submit? ==> Measure(cfg, once, Step(cfg, hold, w, e)) <= Measure(cfg, once, w) + Allowance(cfg, once)
  {
    hide Legal, Step, Measure, Inv, Covers;
    match e
    case Submit(_, _, _) => SubmitAdds(cfg, once, hold, w, e);
    case Sweep(_, _) => SweepSame(cfg, once, hold, w, e);
    case Bounce(_, _, _, _, _, _) => BounceLighter(cfg, once, hold, w, e);
    case Claim(_, _) => WorkLighter(cfg, once, hold, w, e);
    case Finish(_, _, _, _) => WorkLighter(cfg, once, hold, w, e);
    case Drop(_, _, _) => WorkLighter(cfg, once, hold, w, e);
    case FailLost(_, _) => WorkLighter(cfg, once, hold, w, e);
    case Recover(_, _, _) => WorkLighter(cfg, once, hold, w, e);
  }

  function Submissions(events: seq<Event>): nat {
    if events == [] then 0
    else Submissions(events[..|events| - 1]) + (if events[|events| - 1].Submit? then 1 else 0)
  }

  /** The events that are neither submissions nor cleanups. */
  function Work(events: seq<Event>): nat {
    if events == [] then 0
    else Work(events[..|events| - 1])
         + (if events[|events| - 1].Submit? || events[|events| - 1].Sweep? then 0 else 1)
  }

  predicate AllCovered(once: bool, events: seq<Event>) {
    forall e :: e in events ==> Covers(once, e)
  }

  /** All the work of a run is bounded by its submissions: by 6 * MaxRetries + 2 each if every Fail
      command goes through, by MaxRetries * (3 * MaxRetries + 4) each in any case. */
  lemma {:induction false} WorkBounded(cfg: Config, once: bool, hold: int, events: seq<Event>)
    requires Setup(cfg, hold) && Run(cfg, hold, events).Some? && AllCovered(once, events)
    ensures Work(events) + Measure(cfg, once, Run(cfg, hold, events).value) <= Submissions(events) * Allowance(cfg, once)
  {
    hide Legal, Step, Measure, Inv, Covers, Allowance;
    if events == [] {
      NothingYet(cfg, once);
    } else {
      var front, last := events[..|events| - 1], events[|events| - 1];
      var w := Run(cfg, hold, front).value;
      assert last in events && forall e :: e in front ==> e in events;
      WorkBounded(cfg, once, hold, front);
      InvAlways(cfg, hold, front);
      Drain(cfg, once, hold, w, last);
      OneMoreTimes(Submissions(front), Allowance(cfg, once));
    }
  }

  lemma NothingYet(cfg: Config, once: bool)
    requires cfg.maxRetries >= 1
    ensures Measure(cfg, once, START) == 0
  {
  }

  /** The measure is zero exactly when no message waits or is processed and no bounce is owed. */
  lemma DrainedMeans(cfg: Config, once: bool, hold: int, events: seq<Event>)
    requires Setup(cfg, hold) && Run(cfg, hold, events).Some?
    ensures var w := Run(cfg, hold, events).value;
            Measure(cfg, once, w) == 0 <==> w.db.pending == map[] && w.db.processing == {} && w.owed == {}
  {
    hide Run, AllOk, Conserved, Families, Weight, Placed;
    InvAlways(cfg, hold, events);
    var w := Run(cfg, hold, events).value;
    var ids := w.db.messages.Keys;
    forall id | id in ids
      ensures WeightAt(cfg, once, w, id) == 0 <==> id !in w.db.pending && id !in w.db.processing
    {
      SlotKnown(cfg, w, id);
      LiveWeighs(cfg, once, SlotOf(w, id), w.clock);
    }
    TotalZero(cfg, once, w, ids);
    OwedZero(cfg, once, w);
    if Total(cfg, once, w, ids) == 0 {
      assert w.db.pending.Keys == {} && w.db.processing == {};
    }
  }

  lemma OwedPositive(cfg: Config)
    requires cfg.maxRetries >= 1
    ensures OwedWeight(cfg) >= 1
  {
  }

  lemma OwedZero(cfg: Config, once: bool, w: World)
    requires cfg.maxRetries >= 1
    ensures Measure(cfg, once, w) == 0 <==> Total(cfg, once, w, w.db.messages.Keys) == 0 && w.owed == {}
  {
    hide Total, OwedWeight;
    OwedPositive(cfg);
    if w.owed != {} { assert |w.owed| * OwedWeight(cfg) >= 1 * OwedWeight(cfg); }
  }

  lemma LiveWeighs(cfg: Config, once: bool, s: Slot, clock: int)
    requires cfg.maxRetries >= 1 && SlotOk(cfg, s, clock)
    ensures Weight(cfg, once, s) == 0 <==> s.score.None? && !s.processing
  {
    hide ShouldBounce, Timed;
    var left, b := AttemptsLeft(cfg, s.record), BounceWeight(cfg, s.record);
    if left >= 1 { OneAttemptLess(left, b); }
  }

  lemma {:induction false} TotalZero(cfg: Config, once: bool, w: World, ids: set<Id>)
    requires cfg.maxRetries >= 1
    ensures Total(cfg, once, w, ids) == 0 <==> forall id :: id in ids ==> WeightAt(cfg, once, w, id) == 0
    decreases |ids|
  {
    hide WeightAt;
    if ids != {} {
      var id :| id in ids;
      TotalSplit(cfg, once, w, ids, id);
      TotalZero(cfg, once, w, ids - {id});
    }
  }

  // ----- and does not get stuck -----

  lemma {:induction false} LeastOf(pending: map<Id, int>, ids: set<Id>) returns (id: Id)
    requires ids <= pending.Keys && ids != {}
    ensures id in ids && forall other :: other in ids ==> pending[id] <= pending[other]
    decreases |ids|
  {
    id :| id in ids;
    if ids != {id} {
      var rest := LeastOf(pending, ids - {id});
      if pending[rest] < pending[id] { id := rest; }
    }
  }

  /** A held message was claimed just now, or was held before with the same record. */
  lemma SlotHeld(cfg: Config, s: Slot, e: Event, clock: int)
    requires SlotOk(cfg, s, clock) && Fits(s, e) && SlotStep(cfg, s, e).held
    ensures if e.Claim? then SlotStep(cfg, s, e).record.lastAttempt == Some(e.at)
            else s.held && SlotStep(cfg, s, e).record == s.record
  {
    hide Backoff, ShouldBounce, Timed;
  }

  lemma HeldOne(cfg: Config, hold: int, w: World, e: Event, id: Id)
    requires Setup(cfg, hold) && hold >= 0 && Legal(hold, w, e) && Inv(cfg, w) && !e.Sweep?
    requires id in w.db.messages && id in Step(cfg, hold, w, e).held
    ensures var w' := Step(cfg, hold, w, e);
            && id in w'.db.messages && w'.db.messages[id].lastAttempt.Some?
            && e.at - w'.db.messages[id].lastAttempt.value <= hold
  {
    hide Step, Conserved, Families, AllOk, SlotStep, Known;
    var w' := Step(cfg, hold, w, e);
    StepSlotwise(cfg, hold, w, e);
    assert SlotOf(w', id).record == w'.db.messages[id] && SlotOf(w', id).held;
    if Target(e) == Some(id) {
      TargetFits(cfg, hold, w, e);
      SlotKnown(cfg, w, id);
      SlotHeld(cfg, SlotOf(w, id), e, w.clock);
    }
  }

  lemma HeldStep(cfg: Config, hold: int, w: World, e: Event)
    requires Setup(cfg, hold) && hold >= 0 && Legal(hold, w, e) && Inv(cfg, w)
    ensures InTime(Step(cfg, hold, w, e), hold, e.at)
  {
    if e.Sweep? {
      hide Inv;
      SweepMessages(cfg, hold, w, e);
    } else {
      hide Step, Inv, Legal;
      var w' := Step(cfg, hold, w, e);
      NewNotHeld(cfg, hold, w, e);
      forall id | id in w'.held
        ensures id in w'.db.messages && w'.db.messages[id].lastAttempt.Some?
        ensures e.at - w'.db.messages[id].lastAttempt.value <= hold
      {
        HeldOne(cfg, hold, w, e, id);
      }
    }
  }

  lemma NewNotHeld(cfg: Config, hold: int, w: World, e: Event)
    requires Legal(hold, w, e) && Inv(cfg, w)
    ensures Step(cfg, hold, w, e).held <= w.db.messages.Keys
  {
    hide InTime, Retried, EnqueueTx, ShouldBounce, Completed, GivenUp, Claimed, AllOk, Conserved, Families, Due, ExtractDomain;
  }

  lemma {:induction false} HeldInTime(cfg: Config, hold: int, events: seq<Event>)
    requires Setup(cfg, hold) && hold >= 0 && Run(cfg, hold, events).Some?
    ensures var w := Run(cfg, hold, events).value; InTime(w, hold, w.clock)
  {
    if events == [] {
    } else {
      hide Legal, Step, Inv, InTime;
      var front, last := events[..|events| - 1], events[|events| - 1];
      var w := Run(cfg, hold, front).value;
      InvAlways(cfg, hold, front);
      HeldStep(cfg, hold, w, last);
      ClockSet(cfg, hold, w, last);
    }
  }

  lemma BounceLegal(cfg: Config, hold: int, w: World, owe: Owe, freshId: Id)
    requires Inv(cfg, w) && owe in w.owed && FreshId(w, freshId) && InTime(w, hold, w.clock)
    ensures Legal(hold, w, Bounce(owe, freshId, "", 0, true, w.clock))
  {
    hide InTime, AllOk, Conserved, Known;
  }

  /** While anything is live some worker or the recovery can act, if only the clock moves on. */
  lemma NeverStuck(cfg: Config, once: bool, hold: int, events: seq<Event>, freshId: Id) returns (e: Event)
    requires Setup(cfg, hold) && hold >= 0 && Run(cfg, hold, events).Some?
    requires FreshId(Run(cfg, hold, events).value, freshId)
    requires Measure(cfg, once, Run(cfg, hold, events).value) > 0
    ensures Legal(hold, Run(cfg, hold, events).value, e) && !e.Submit? && !e.Sweep?
  {
    hide Run, Measure, Conserved, Families, SlotOk, FreshId;
    DrainedMeans(cfg, once, hold, events);
    InvAlways(cfg, hold, events);
    HeldInTime(cfg, hold, events);
    var w := Run(cfg, hold, events).value;
    if w.held != {} {
      var id :| id in w.held;
      e := Finish(id, Accepted, 0, w.clock);
    } else if w.owed != {} {
      var owe :| owe in w.owed;
      BounceLegal(cfg, hold, w, owe, freshId);
      e := Bounce(owe, freshId, "", 0, true, w.clock);
    } else if w.db.processing != {} {
      var id :| id in w.db.processing;
      SlotKnown(cfg, w, id);
      e := Recover(id, 0, StaleTime(w, id));
    } else {
      var id := LeastOf(w.db.pending, w.db.pending.Keys);
      e := Claim(id, if w.db.pending[id] < w.clock then w.clock else w.db.pending[id]);
    }
  }

  /** A moment, not before now, at which a message in processing is stale. */
  function StaleTime(w: World, id: Id): int
    requires id in w.db.messages
  {
    var last := w.db.messages[id].lastAttempt;
    if last.None? || last.value + STALE_AFTER < w.clock then w.clock else last.value + STALE_AFTER + 1
  }
}
