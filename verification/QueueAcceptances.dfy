/** How often one message can be accepted by a server: once if every delivery that is accepted is
    also closed, and otherwise again after each close that is lost. */
module QueueAcceptances {
  import opened Wrappers
  import opened QueueModel
  import opened QueueRuns
  import opened QueueBounces

  /** A server accepts the message; `lost` says that the worker dies or its Complete command errs
      before the message is closed. */
  predicate AcceptsFor(e: Event, id: Id, lost: bool) {
    if lost then e.Drop? && e.accepted && e.id == id else e.Finish? && e.outcome.Accepted? && e.id == id
  }

  function Acceptances(events: seq<Event>, id: Id, lost: bool): nat {
    if events == [] then 0
    else Acceptances(events[..|events| - 1], id, lost) + (if AcceptsFor(events[|events| - 1], id, lost) then 1 else 0)
  }

  predicate Held(w: World, id: Id) {
    id in w.held
  }

  /** Each acceptance ends an attempt, and the one that closes the message is the last. */
  ghost predicate AcceptancesTold(w: World, events: seq<Event>, id: Id) {
    var lost, final := Acceptances(events, id, true), Acceptances(events, id, false);
    if id in w.db.messages then
      && lost + final + (if Held(w, id) then 1 else 0) <= w.db.messages[id].attempts
      && final == if w.db.messages[id].status.Sent? then 1 else 0
    else lost == 0 && final == 0
  }

  lemma SlotAccepts(cfg: Config, s: Slot, e: Event)
    requires Placed(s) && Fits(s, e) && !e.Sweep?
    ensures var t := SlotStep(cfg, s, e);
            && !s.record.status.Sent? && (t.record.status.Sent? <==> e.Finish? && e.outcome.Accepted?)
            && t.record.attempts == s.record.attempts + (if e.Claim? then 1 else 0)
            && (e.Claim? ==> !s.held && t.held)
            && (e.Finish? || e.Drop? || e.FailLost? ==> s.held && !t.held)
            && (e.Recover? ==> t.held == s.held)
  {
    hide Backoff;
  }

  /** What an event means for one message there: for the one it is about, and for any other. */
  lemma AcceptStep(cfg: Config, hold: int, w: World, e: Event, id: Id)
    requires Setup(cfg, hold) && Legal(hold, w, e) && Inv(cfg, w) && id in w.db.messages
    ensures var w' := Step(cfg, hold, w, e);
            && id in w'.db.messages
            && var m, m' := w.db.messages[id], w'.db.messages[id];
            var accepts := AcceptsFor(e, id, true) || AcceptsFor(e, id, false);
            && (accepts ==> Held(w, id) && !Held(w', id))
            && (m'.status.Sent? <==> m.status.Sent? || AcceptsFor(e, id, false))
            && (AcceptsFor(e, id, false) ==> !m.status.Sent?)
            && m'.attempts - (if Held(w', id) then 1 else 0) >= m.attempts - (if Held(w, id) then 1 else 0)
            && m'.attempts >= m.attempts
  {
    hide Step, InTime, Known, Conserved, Families, SlotStep, AllOk, Counted, Timed;
    if e.Sweep? {
      SweepMessages(cfg, hold, w, e);
      SweepHeld(cfg, hold, w, e);
    } else {
      var w' := Step(cfg, hold, w, e);
      StepSlotwise(cfg, hold, w, e);
      assert SlotOf(w', id).record == w'.db.messages[id] && SlotOf(w', id).held == Held(w', id);
      assert SlotOf(w, id).held == Held(w, id);
      if Target(e) == Some(id) {
        TargetFits(cfg, hold, w, e);
        SlotKnown(cfg, w, id);
        SlotAccepts(cfg, SlotOf(w, id), e);
      }
    }
  }

  lemma SweepHeld(cfg: Config, hold: int, w: World, e: Event)
    requires Legal(hold, w, e) && e.Sweep?
    ensures Step(cfg, hold, w, e).held == w.held
  {
    hide InTime;
  }

  lemma AcceptsKnown(hold: int, w: World, e: Event, id: Id)
    requires Legal(hold, w, e) && Known(w) && (AcceptsFor(e, id, true) || AcceptsFor(e, id, false))
    ensures id in w.db.messages
  {
  }

  lemma OneKindOfAccept(e: Event, id: Id)
    ensures !(AcceptsFor(e, id, true) && AcceptsFor(e, id, false))
  {
  }

  lemma NewNotHeldYet(cfg: Config, hold: int, w: World, e: Event, id: Id)
    requires Setup(cfg, hold) && Legal(hold, w, e) && Inv(cfg, w) && id !in w.db.messages
    ensures !Held(Step(cfg, hold, w, e), id)
  {
    hide InTime, Retried, EnqueueTx, Completed, GivenUp, Claimed, AllOk, Conserved, Families, Due;
  }

  lemma AcceptancesStep(cfg: Config, hold: int, w: World, events: seq<Event>, e: Event, id: Id)
    requires Setup(cfg, hold) && Legal(hold, w, e) && Inv(cfg, w) && AcceptancesTold(w, events, id)
    ensures AcceptancesTold(Step(cfg, hold, w, e), events + [e], id)
  {
    hide Legal, Step, Known, AllOk, Conserved, Families, AcceptsFor, Held;
    assert (events + [e])[..|events|] == events;
    OneKindOfAccept(e, id);
    NewOrKept(cfg, hold, w, e, id);
    if id in w.db.messages {
      AcceptStep(cfg, hold, w, e, id);
    } else {
      NewNotHeldYet(cfg, hold, w, e, id);
      if AcceptsFor(e, id, true) || AcceptsFor(e, id, false) {
        AcceptsKnown(hold, w, e, id);
        assert false;
      }
    }
  }

  lemma NothingAccepted(id: Id)
    ensures AcceptancesTold(START, [], id)
  {
  }

  lemma {:induction false} EveryAcceptanceTold(cfg: Config, hold: int, events: seq<Event>, id: Id)
    requires Setup(cfg, hold) && Run(cfg, hold, events).Some?
    ensures AcceptancesTold(Run(cfg, hold, events).value, events, id)
  {
    hide Legal, Step, Inv, AcceptancesTold;
    if events == [] {
      NothingAccepted(id);
    } else {
      var front, last := events[..|events| - 1], events[|events| - 1];
      EveryAcceptanceTold(cfg, hold, front, id);
      InvAlways(cfg, hold, front);
      AcceptancesStep(cfg, hold, Run(cfg, hold, front).value, front, last, id);
      assert front + [last] == events;
    }
  }

  // ----- the first acceptance and another -----

  /** A close that is lost after an acceptance, and a later acceptance. */
  ghost predicate LostThenAccepted(events: seq<Event>, id: Id) {
    exists i: nat, j: nat ::
      i < j < |events| && AcceptsFor(events[i], id, true) && (AcceptsFor(events[j], id, true) || AcceptsFor(events[j], id, false))
  }

  function Total(events: seq<Event>, id: Id): nat {
    Acceptances(events, id, true) + Acceptances(events, id, false)
  }

  lemma {:induction false} SomeAcceptance(events: seq<Event>, id: Id, lost: bool) returns (i: nat)
    requires Acceptances(events, id, lost) > 0
    ensures i < |events| && AcceptsFor(events[i], id, lost)
  {
    hide AcceptsFor;
    i := |events| - 1;
    if !AcceptsFor(events[i], id, lost) { i := SomeAcceptance(events[..|events| - 1], id, lost); }
  }

  lemma {:induction false} AcceptanceCounted(events: seq<Event>, id: Id, lost: bool, i: nat)
    requires i < |events| && AcceptsFor(events[i], id, lost)
    ensures Acceptances(events, id, lost) > 0
  {
    hide AcceptsFor;
    if i < |events| - 1 { AcceptanceCounted(events[..|events| - 1], id, lost, i); }
  }

  lemma LostThenMore(front: seq<Event>, last: Event, id: Id)
    ensures LostThenAccepted(front + [last], id) <==>
            || LostThenAccepted(front, id)
            || ((AcceptsFor(last, id, true) || AcceptsFor(last, id, false)) && Acceptances(front, id, true) > 0)
  {
    hide AcceptsFor, Acceptances;
    var events := front + [last];
    if LostThenAccepted(events, id) {
      var i: nat, j: nat :|
        i < j < |events| && AcceptsFor(events[i], id, true) && (AcceptsFor(events[j], id, true) || AcceptsFor(events[j], id, false));
      AcceptanceCounted(front, id, true, i);
      assert j < |front| ==> front[j] == events[j] && front[i] == events[i];
    }
    if LostThenAccepted(front, id) {
      var i: nat, j: nat :|
        i < j < |front| && AcceptsFor(front[i], id, true) && (AcceptsFor(front[j], id, true) || AcceptsFor(front[j], id, false));
      assert front[j] == events[j] && front[i] == events[i];
    }
    if (AcceptsFor(last, id, true) || AcceptsFor(last, id, false)) && Acceptances(front, id, true) > 0 {
      var i := SomeAcceptance(front, id, true);
      assert events[i] == front[i] && events[|front|] == last;
    }
  }

  /** Once accepted and closed, a message is not accepted again. */
  lemma ClosedForGood(cfg: Config, hold: int, front: seq<Event>, last: Event, id: Id)
    requires Setup(cfg, hold) && Run(cfg, hold, front).Some? && Legal(hold, Run(cfg, hold, front).value, last)
    requires AcceptsFor(last, id, true) || AcceptsFor(last, id, false)
    ensures Acceptances(front, id, false) == 0
  {
    hide Run, Legal, Known, AllOk, Conserved, Families, AcceptsFor, Acceptances, SlotOk;
    EveryAcceptanceTold(cfg, hold, front, id);
    InvAlways(cfg, hold, front);
    var w := Run(cfg, hold, front).value;
    AcceptsKnown(hold, w, last, id);
    AcceptStep(cfg, hold, w, last, id);
    HeldSending(cfg, w, id);
  }

  lemma HeldSending(cfg: Config, w: World, id: Id)
    requires Inv(cfg, w) && Held(w, id) && id in w.db.messages
    ensures w.db.messages[id].status.Sending?
  {
    HeldAttempted(cfg, w, id);
  }

  lemma {:induction false} TwiceExactly(cfg: Config, hold: int, events: seq<Event>, id: Id)
    requires Setup(cfg, hold) && Run(cfg, hold, events).Some?
    ensures Total(events, id) > 1 <==> LostThenAccepted(events, id)
  {
    if events == [] {
    } else {
      hide Legal, Step, LostThenAccepted, AcceptsFor;
      var front, last := events[..|events| - 1], events[|events| - 1];
      assert front + [last] == events;
      TwiceExactly(cfg, hold, front, id);
      LostThenMore(front, last, id);
      OneKindOfAccept(last, id);
      if AcceptsFor(last, id, true) || AcceptsFor(last, id, false) { ClosedForGood(cfg, hold, front, last, id); }
    }
  }

  /** A message is accepted at most MaxRetries times, and more than once exactly when a close that was
      lost after an acceptance is followed by another acceptance. */
  lemma AcceptedExactly(cfg: Config, hold: int, events: seq<Event>, id: Id)
    requires Setup(cfg, hold) && Run(cfg, hold, events).Some?
    ensures Total(events, id) <= cfg.maxRetries && Acceptances(events, id, false) <= 1
    ensures Total(events, id) > 1 <==> LostThenAccepted(events, id)
  {
    hide Run, Known, AllOk, Conserved, Families, Acceptances, LostThenAccepted;
    TwiceExactly(cfg, hold, events, id);
    EveryAcceptanceTold(cfg, hold, events, id);
    InvAlways(cfg, hold, events);
    var w := Run(cfg, hold, events).value;
    if id in w.db.messages { SlotKnown(cfg, w, id); }
  }

  /** The Complete command of an accepted delivery errs, and the recovered message is accepted
      again. */
  lemma AcceptedTwice(cfg: Config, hold: int, m: Message, id: Id, nano: nat)
    requires Setup(cfg, hold) && hold >= 0 && cfg.maxRetries >= 2 && cfg.retryMaxAge > STALE_AFTER
    requires Unsent(m) && id != ""
    ensures var again := STALE_AFTER + 1; var due := again + Backoff(1, nano);
            var events := [Submit(m, id, 0), Claim(id, 0)] + [Drop(id, true, 0)] + [Recover(id, nano, again)]
                          + [Claim(id, due)] + [Finish(id, Accepted, 0, due)];
            Run(cfg, hold, events).Some? && Total(events, id) == 2
  {
    hide Run, Backoff;
    BackoffNearTier(1, nano);
    var again := STALE_AFTER + 1;
    var due := again + Backoff(1, nano);
    FirstClaim(cfg, hold, m, id, 0);
    var one := [Submit(m, id, 0), Claim(id, 0)];
    var two := one + [Drop(id, true, 0)];
    Follow(cfg, hold, one, Drop(id, true, 0));
    var three := two + [Recover(id, nano, again)];
    Follow(cfg, hold, two, Recover(id, nano, again));
    var four := three + [Claim(id, due)];
    Follow(cfg, hold, three, Claim(id, due));
    Follow(cfg, hold, four, Finish(id, Accepted, 0, due));
    CountedTwice(one, id, nano, again, due);
  }

  lemma CountedTwice(one: seq<Event>, id: Id, nano: nat, again: int, due: int)
    requires |one| == 2 && one[0].Submit? && one[1].Claim?
    ensures Total(one + [Drop(id, true, 0)] + [Recover(id, nano, again)] + [Claim(id, due)] + [Finish(id, Accepted, 0, due)], id)
            == 2
  {
    More(one, Drop(id, true, 0), id);
    var two := one + [Drop(id, true, 0)];
    More(two, Recover(id, nano, again), id);
    More(two + [Recover(id, nano, again)], Claim(id, due), id);
    More(two + [Recover(id, nano, again)] + [Claim(id, due)], Finish(id, Accepted, 0, due), id);
    assert one == [] + [one[0]] + [one[1]];
    More([], one[0], id);
    More([] + [one[0]], one[1], id);
  }

  lemma More(events: seq<Event>, e: Event, id: Id)
    ensures forall lost ::
              Acceptances(events + [e], id, lost) == Acceptances(events, id, lost) + (if AcceptsFor(e, id, lost) then 1 else 0)
  {
    assert (events + [e])[..|events|] == events;
  }
}
