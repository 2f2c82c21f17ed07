/** Attempts and reports: which attempts a message causes, which bounces become due, and which
    failed messages are never reported. */
module QueueBounces {
  import opened Wrappers
  import opened QueueModel
  import opened DeliveryErrors
  import opened QueueRuns

  // ----- attempts -----

  function Claims(events: seq<Event>, ids: set<Id>): nat {
    if events == [] then 0
    else
      var last := events[|events| - 1];
      Claims(events[..|events| - 1], ids) + (if last.Claim? && last.id in ids then 1 else 0)
  }

  /** Every message there was there before, or is new without attempts. */
  lemma NewOrKept(cfg: Config, hold: int, w: World, e: Event, id: Id)
    requires Setup(cfg, hold) && Legal(hold, w, e) && Inv(cfg, w)
    ensures var w' := Step(cfg, hold, w, e);
            && id !in w.db.messages && id in w'.db.messages ==>
                 Added(e) == Some(id) && w'.db.messages[id].attempts == 0 && w'.db.messages[id].status.Pending?
    ensures e.Claim? && e.id == id ==> id in w.db.messages
  {
    hide Step, SlotOk, InTime, Conserved, Families, Known, ShouldBounce, ExtractDomain;
    var w' := Step(cfg, hold, w, e);
    if Added(e).Some? {
      KeyAdded(cfg, hold, w, e);
      NewSlotOk(cfg, hold, w, e);
      assert SlotOf(w', Added(e).value).record == w'.db.messages[Added(e).value];
    } else {
      KeysKept(cfg, hold, w, e);
    }
  }

  /** The attempts on record are the claims that were made. */
  lemma {:induction false} ClaimsAreAttempts(cfg: Config, hold: int, events: seq<Event>, id: Id)
    requires Setup(cfg, hold) && Run(cfg, hold, events).Some?
    ensures var messages := Run(cfg, hold, events).value.db.messages;
            Claims(events, {id}) == if id in messages then messages[id].attempts else 0
  {
    if events == [] {
    } else {
      hide Legal, Step, Inv;
      var front, last := events[..|events| - 1], events[|events| - 1];
      var w := Run(cfg, hold, front).value;
      ClaimsAreAttempts(cfg, hold, front, id);
      InvAlways(cfg, hold, front);
      NewOrKept(cfg, hold, w, last, id);
      if id in w.db.messages { RecordsHold(cfg, hold, w, last, id); }
    }
  }

  lemma {:induction false} ClaimsUnion(events: seq<Event>, ids: set<Id>, id: Id)
    requires id !in ids
    ensures Claims(events, ids + {id}) == Claims(events, ids) + Claims(events, {id})
  {
    if events != [] {
      ClaimsUnion(events[..|events| - 1], ids, id);
    }
  }

  lemma {:induction false} ClaimsNone(events: seq<Event>)
    ensures Claims(events, {}) == 0
  {
    if events != [] {
      ClaimsNone(events[..|events| - 1]);
    }
  }

  lemma ClaimsOfOne(cfg: Config, hold: int, events: seq<Event>, id: Id)
    requires Setup(cfg, hold) && Run(cfg, hold, events).Some?
    ensures Claims(events, {id}) <= cfg.maxRetries
  {
    hide Run, Conserved, Known, Families, Timed, Placed;
    InvAlways(cfg, hold, events);
    ClaimsAreAttempts(cfg, hold, events, id);
    var w := Run(cfg, hold, events).value;
    if id in w.db.messages { assert SlotOk(cfg, SlotOf(w, id), w.clock); }
  }

  lemma {:induction false} ClaimsOfAll(cfg: Config, hold: int, events: seq<Event>, ids: set<Id>)
    requires Setup(cfg, hold) && Run(cfg, hold, events).Some?
    ensures Claims(events, ids) <= |ids| * cfg.maxRetries
    decreases |ids|
  {
    hide Run, Claims;
    if ids == {} {
      ClaimsNone(events);
    } else {
      var id :| id in ids;
      ClaimsOfAll(cfg, hold, events, ids - {id});
      ClaimsUnion(events, ids - {id}, id);
      ClaimsOfOne(cfg, hold, events, id);
      assert ids - {id} + {id} == ids;
      OneMoreTimes(|ids - {id}|, cfg.maxRetries);
    }
  }

  // ----- permanent failures and the bounces they make due -----

  /** The worker that holds the message judges its failure permanent; `lost` says that the Fail
      command then errs. */
  predicate FailsFor(e: Event, id: Id, lost: bool) {
    if lost then e.FailLost? && e.id == id else e.Finish? && e.outcome.Permanent? && e.id == id
  }

  function Failures(events: seq<Event>, id: Id, lost: bool): nat {
    if events == [] then 0
    else Failures(events[..|events| - 1], id, lost) + (if FailsFor(events[|events| - 1], id, lost) then 1 else 0)
  }

  /** The bounces of one message that were ever due. */
  function Reports(w: World, id: Id): set<Owe> {
    set o | o in w.issued && o.id == id
  }

  /** What is known of the permanent failures of a message: each made one bounce due, if its sender
      gets any; one whose Fail command went through is the last; and only a message given up on
      for its attempts or its age fails without one. */
  ghost predicate FailuresTold(w: World, events: seq<Event>, id: Id) {
    var lost, final := Failures(events, id, true), Failures(events, id, false);
    if id in w.db.messages then
      var m := w.db.messages[id];
      && |Reports(w, id)| == (if ShouldBounce(m.sender) then lost + final else 0)
      && final <= 1 && (final == 1 ==> m.status.Failed?)
      && (m.status.Failed? && final == 0 ==> m.lastError == "max attempts exceeded" || m.lastError == "message expired")
    else lost == 0 && final == 0 && Reports(w, id) == {}
  }

  lemma ReportsAfter(cfg: Config, hold: int, w: World, e: Event, id: Id)
    requires Setup(cfg, hold) && Legal(hold, w, e) && Inv(cfg, w)
    ensures FailsFor(e, id, true) || FailsFor(e, id, false) ==> id in w.db.messages
    ensures |Reports(Step(cfg, hold, w, e), id)|
            == |Reports(w, id)| + (if id in w.db.messages && ShouldBounce(w.db.messages[id].sender)
                                      && (FailsFor(e, id, true) || FailsFor(e, id, false)) then 1 else 0)
    ensures id !in w.db.messages ==> Reports(w, id) == {}
  {
    hide Legal, Step, Known, AllOk, Conserved, ShouldBounce, Tells;
    EventKnown(hold, w, e);
    OwesAfter(cfg, hold, w, e);
    var w' := Step(cfg, hold, w, e);
    if DueAt(w, e) != {} && e.id == id {
      var o := Owe(id, w.db.messages[id].attempts);
      OweStarts(cfg, hold, w, e, o);
      assert Reports(w', id) == Reports(w, id) + {o};
    } else {
      assert Reports(w', id) == Reports(w, id);
    }
  }

  /** A failed message is not touched again, and one that fails says why. */
  lemma FailedStays(cfg: Config, hold: int, w: World, e: Event, id: Id)
    requires Setup(cfg, hold) && Legal(hold, w, e) && Inv(cfg, w) && id in w.db.messages
    ensures var m := w.db.messages[id];
            && id in Step(cfg, hold, w, e).db.messages
            && var m' := Step(cfg, hold, w, e).db.messages[id];
            && (m.status.Failed? ==> m'.status.Failed? && m'.lastError == m.lastError && !FailsFor(e, id, false))
            && (FailsFor(e, id, false) ==> m'.status.Failed?)
            && (!m.status.Failed? && m'.status.Failed? && !FailsFor(e, id, false) ==>
                  m'.lastError == "max attempts exceeded" || m'.lastError == "message expired")
  {
    hide Step, InTime, Known, Conserved, Families, SlotStep, AllOk, Counted, Timed, ShouldBounce;
    if e.Sweep? {
      SweepMessages(cfg, hold, w, e);
    } else {
      var w' := Step(cfg, hold, w, e);
      StepSlotwise(cfg, hold, w, e);
      assert SlotOf(w', id).record == w'.db.messages[id];
      if Target(e) == Some(id) {
        TargetFits(cfg, hold, w, e);
        SlotKnown(cfg, w, id);
        SlotFails(cfg, SlotOf(w, id), e);
      }
    }
  }

  lemma SlotFails(cfg: Config, s: Slot, e: Event)
    requires Placed(s) && Fits(s, e) && !e.Sweep?
    ensures !s.record.status.Failed?
    ensures var m' := SlotStep(cfg, s, e).record;
            if e.Finish? && e.outcome.Permanent? then m'.status.Failed?
            else m'.status.Failed? ==> m'.lastError == "max attempts exceeded" || m'.lastError == "message expired"
  {
    hide Backoff, ShouldBounce;
  }

  lemma RecordsHold(cfg: Config, hold: int, w: World, e: Event, id: Id)
    requires Setup(cfg, hold) && Legal(hold, w, e) && Inv(cfg, w) && id in w.db.messages
    ensures id in Step(cfg, hold, w, e).db.messages
    ensures Step(cfg, hold, w, e).db.messages[id].sender == w.db.messages[id].sender
    ensures Step(cfg, hold, w, e).db.messages[id].attempts
            == w.db.messages[id].attempts + (if e.Claim? && e.id == id then 1 else 0)
  {
    hide Legal, Step, Known, AllOk, Conserved, Families;
    RecordsKept(cfg, hold, w, e, id);
  }

  lemma ToldStep(cfg: Config, hold: int, w: World, events: seq<Event>, e: Event, id: Id)
    requires Setup(cfg, hold) && Legal(hold, w, e) && Inv(cfg, w) && FailuresTold(w, events, id)
    ensures FailuresTold(Step(cfg, hold, w, e), events + [e], id)
  {
    hide Legal, Step, Inv, FailsFor, Reports, ShouldBounce;
    assert (events + [e])[..|events|] == events;
    InvKept(cfg, hold, w, e);
    OneKind(e, id);
    ReportsAfter(cfg, hold, w, e, id);
    NewOrKept(cfg, hold, w, e, id);
    if id in w.db.messages {
      RecordsHold(cfg, hold, w, e, id);
      FailedStays(cfg, hold, w, e, id);
    } else if id in Step(cfg, hold, w, e).db.messages {
      assert Step(cfg, hold, w, e).db.messages[id].status.Pending?;
    }
  }

  lemma NothingTold(id: Id)
    ensures FailuresTold(START, [], id)
  {
  }

  lemma {:induction false} EveryFailureTold(cfg: Config, hold: int, events: seq<Event>, id: Id)
    requires Setup(cfg, hold) && Run(cfg, hold, events).Some?
    ensures FailuresTold(Run(cfg, hold, events).value, events, id)
  {
    hide Legal, Step, Inv, FailuresTold;
    if events == [] {
      NothingTold(id);
    } else {
      var front, last := events[..|events| - 1], events[|events| - 1];
      EveryFailureTold(cfg, hold, front, id);
      InvAlways(cfg, hold, front);
      ToldStep(cfg, hold, Run(cfg, hold, front).value, front, last, id);
      assert front + [last] == events;
    }
  }

  lemma OneKind(e: Event, id: Id)
    ensures !(FailsFor(e, id, true) && FailsFor(e, id, false))
  {
  }

  /** A message has as many bounces as its deliveries failed for good, and at most one failure
      closes it; so it has at most one bounce exactly when no lost Fail command is followed by
      another permanent failure, in particular when none is lost. */
  lemma BouncesExact(cfg: Config, hold: int, events: seq<Event>, id: Id)
    requires Setup(cfg, hold) && Run(cfg, hold, events).Some? && id in Run(cfg, hold, events).value.db.messages
    ensures var w := Run(cfg, hold, events).value;
            var lost, final := Failures(events, id, true), Failures(events, id, false);
            && final <= 1
            && |Reports(w, id)| == (if ShouldBounce(w.db.messages[id].sender) then lost + final else 0)
            && (|Reports(w, id)| > 1 <==>
                  ShouldBounce(w.db.messages[id].sender) && (lost > 1 || (lost == 1 && final == 1)))
  {
    hide Run, Failures, ShouldBounce, Reports;
    EveryFailureTold(cfg, hold, events, id);
  }

  /** For which failed messages a bounce was ever due: those some delivery of which failed for good,
      if their sender gets bounces. The others were given up on for their attempts or their age. */
  lemma DueExactly(cfg: Config, hold: int, events: seq<Event>, id: Id)
    requires Setup(cfg, hold) && Run(cfg, hold, events).Some?
    requires id in Run(cfg, hold, events).value.db.messages
    requires Run(cfg, hold, events).value.db.messages[id].status.Failed?
    ensures var w := Run(cfg, hold, events).value; var m := w.db.messages[id];
            && (Reports(w, id) != {} <==>
                  ShouldBounce(m.sender) && Failures(events, id, true) + Failures(events, id, false) > 0)
            && (Reports(w, id) == {} && ShouldBounce(m.sender) ==>
                  m.lastError == "max attempts exceeded" || m.lastError == "message expired")
  {
    hide Run, Failures, ShouldBounce, Reports;
    EveryFailureTold(cfg, hold, events, id);
  }

  // ----- the bounces that were queued -----

  /** The bounces queued for a message. */
  function BouncesOf(w: World, id: Id): set<Id> {
    set b | b in w.parent && w.parent[b].id == id
  }

  /** The bounces of a message still to be queued. */
  function OwedOf(w: World, id: Id): set<Owe> {
    set o | o in w.owed && o.id == id
  }

  /** The worker tries to queue a bounce of the message. */
  predicate BouncesFor(e: Event, id: Id, done: bool) {
    e.Bounce? && e.owe.id == id && e.done == done
  }

  function Bounces(events: seq<Event>, id: Id, done: bool): nat {
    if events == [] then 0
    else Bounces(events[..|events| - 1], id, done) + (if BouncesFor(events[|events| - 1], id, done) then 1 else 0)
  }

  ghost predicate BouncesTold(w: World, events: seq<Event>, id: Id) {
    && |BouncesOf(w, id)| == Bounces(events, id, true)
    && |Reports(w, id)| == |OwedOf(w, id)| + Bounces(events, id, true) + Bounces(events, id, false)
  }

  lemma OwedLess(w: World, w': World, owe: Owe, id: Id)
    requires owe in w.owed && w'.owed == w.owed - {owe}
    ensures |OwedOf(w', id)| == |OwedOf(w, id)| - (if owe.id == id then 1 else 0)
  {
    if owe.id == id {
      assert OwedOf(w', id) == OwedOf(w, id) - {owe};
    } else {
      assert OwedOf(w', id) == OwedOf(w, id);
    }
  }

  lemma OwedMore(w: World, w': World, owe: Owe, id: Id)
    requires owe !in w.owed && w'.owed == w.owed + {owe}
    ensures |OwedOf(w', id)| == |OwedOf(w, id)| + (if owe.id == id then 1 else 0)
  {
    if owe.id == id {
      assert OwedOf(w', id) == OwedOf(w, id) + {owe};
    } else {
      assert OwedOf(w', id) == OwedOf(w, id);
    }
  }

  lemma QueuedMore(w: World, w': World, b: Id, owe: Owe, id: Id)
    requires b !in w.parent && w'.parent == w.parent[b := owe]
    ensures |BouncesOf(w', id)| == |BouncesOf(w, id)| + (if owe.id == id then 1 else 0)
  {
    if owe.id == id {
      assert BouncesOf(w', id) == BouncesOf(w, id) + {b};
    } else {
      assert BouncesOf(w', id) == BouncesOf(w, id);
    }
  }

  lemma BounceSets(cfg: Config, hold: int, w: World, e: Event, id: Id)
    requires Setup(cfg, hold) && Legal(hold, w, e) && Inv(cfg, w) && e.Bounce?
    ensures var w' := Step(cfg, hold, w, e);
            && |OwedOf(w', id)| == |OwedOf(w, id)| - (if e.owe.id == id then 1 else 0)
            && |BouncesOf(w', id)| == |BouncesOf(w, id)| + (if BouncesFor(e, id, true) then 1 else 0)
            && Reports(w', id) == Reports(w, id)
  {
    hide Legal, Step, Known, AllOk, Conserved, Tells, OweOk, OwedOf, BouncesOf;
    EventKnown(hold, w, e);
    OwesAfter(cfg, hold, w, e);
    var w' := Step(cfg, hold, w, e);
    OwedLess(w, w', e.owe, id);
    assert w'.issued == w.issued;
    if e.done {
      BounceStarts(cfg, hold, w, e);
      if e.newId in w.parent { TellsKnown(w, e.newId, w.parent[e.newId].id); }
      QueuedMore(w, w', e.newId, e.owe, id);
    } else {
      QueuedSame(w, w', id);
    }
  }

  lemma QueuedSame(w: World, w': World, id: Id)
    requires w'.parent == w.parent
    ensures BouncesOf(w', id) == BouncesOf(w, id)
  {
  }

  lemma OtherSets(cfg: Config, hold: int, w: World, e: Event, id: Id)
    requires Setup(cfg, hold) && Legal(hold, w, e) && Inv(cfg, w) && !e.Bounce?
    ensures var w' := Step(cfg, hold, w, e);
            && BouncesOf(w', id) == BouncesOf(w, id)
            && |Reports(w', id)| - |OwedOf(w', id)| == |Reports(w, id)| - |OwedOf(w, id)|
  {
    hide Legal, Step, Known, AllOk, Conserved, Tells, OweOk, OwedOf, ShouldBounce;
    EventKnown(hold, w, e);
    OwesAfter(cfg, hold, w, e);
    var w' := Step(cfg, hold, w, e);
    if DueAt(w, e) != {} {
      var o := Owe(e.id, w.db.messages[e.id].attempts);
      OweStarts(cfg, hold, w, e, o);
      OwedMore(w, w', o, id);
      ReportsMore(w, w', o, id);
    } else {
      SameSets(w, w', id);
    }
  }

  lemma SameSets(w: World, w': World, id: Id)
    requires w'.issued == w.issued + {} && w'.owed == w.owed + {}
    ensures Reports(w', id) == Reports(w, id) && OwedOf(w', id) == OwedOf(w, id)
  {
  }

  lemma ReportsMore(w: World, w': World, o: Owe, id: Id)
    requires o !in w.issued && w'.issued == w.issued + {o}
    ensures |Reports(w', id)| == |Reports(w, id)| + (if o.id == id then 1 else 0)
  {
    if o.id == id {
      assert Reports(w', id) == Reports(w, id) + {o};
    } else {
      assert Reports(w', id) == Reports(w, id);
    }
  }

  lemma {:induction false} EveryBounceTold(cfg: Config, hold: int, events: seq<Event>, id: Id)
    requires Setup(cfg, hold) && Run(cfg, hold, events).Some?
    ensures BouncesTold(Run(cfg, hold, events).value, events, id)
  {
    if events == [] {
    } else {
      hide Legal, Step, Inv, Reports, OwedOf, BouncesOf;
      var front, last := events[..|events| - 1], events[|events| - 1];
      var w := Run(cfg, hold, front).value;
      EveryBounceTold(cfg, hold, front, id);
      InvAlways(cfg, hold, front);
      if last.Bounce? { BounceSets(cfg, hold, w, last, id); } else { OtherSets(cfg, hold, w, last, id); }
    }
  }

  /** The i-th event is the permanent failure that makes this bounce due. */
  ghost predicate Causes(cfg: Config, hold: int, events: seq<Event>, i: nat, o: Owe) {
    && i < |events| && (FailsFor(events[i], o.id, true) || FailsFor(events[i], o.id, false))
    && var run := Run(cfg, hold, events[..i]);
       run.Some? && o.id in run.value.db.messages && run.value.db.messages[o.id].attempts == o.attempt
  }

  lemma CausesLater(cfg: Config, hold: int, events: seq<Event>, e: Event, i: nat, o: Owe)
    requires Causes(cfg, hold, events, i, o)
    ensures Causes(cfg, hold, events + [e], i, o)
  {
    hide Run, FailsFor;
    assert (events + [e])[..i] == events[..i];
  }

  lemma {:induction false} IssuedCaused(cfg: Config, hold: int, events: seq<Event>, o: Owe) returns (i: nat)
    requires Setup(cfg, hold) && Run(cfg, hold, events).Some? && o in Run(cfg, hold, events).value.issued
    ensures Causes(cfg, hold, events, i, o)
  {
    if events == [] {
      assert false;
    } else {
      hide Legal, Step, Causes, ShouldBounce;
      var front, last := events[..|events| - 1], events[|events| - 1];
      assert front + [last] == events;
      var w := Run(cfg, hold, front).value;
      EventKnown(hold, w, last);
      OwesAfter(cfg, hold, w, last);
      if o in w.issued {
        i := IssuedCaused(cfg, hold, front, o);
        CausesLater(cfg, hold, front, last, i, o);
      } else {
        i := |front|;
        CausesNow(cfg, hold, events, i, o);
      }
    }
  }

  lemma CausesNow(cfg: Config, hold: int, events: seq<Event>, i: nat, o: Owe)
    requires i < |events| && Run(cfg, hold, events[..i]).Some?
    requires events[i].Finish? || events[i].FailLost? ==> events[i].id in Run(cfg, hold, events[..i]).value.db.messages
    requires o in DueAt(Run(cfg, hold, events[..i]).value, events[i])
    ensures Causes(cfg, hold, events, i, o)
  {
    hide Run, ShouldBounce;
  }

  /** A permanent failure of the message is followed by its bounce, which is queued. */
  ghost predicate FailedThenTold(cfg: Config, hold: int, events: seq<Event>, id: Id) {
    exists i: nat, j: nat ::
      i < j < |events| && BouncesFor(events[j], id, true) && Causes(cfg, hold, events, i, events[j].owe)
  }

  lemma {:induction false} SomeBounce(events: seq<Event>, id: Id) returns (j: nat)
    requires Bounces(events, id, true) > 0
    ensures j < |events| && BouncesFor(events[j], id, true)
  {
    hide BouncesFor;
    j := |events| - 1;
    if !BouncesFor(events[j], id, true) { j := SomeBounce(events[..|events| - 1], id); }
  }

  lemma {:induction false} BounceCounted(events: seq<Event>, id: Id, j: nat)
    requires j < |events| && BouncesFor(events[j], id, true)
    ensures Bounces(events, id, true) > 0
  {
    hide BouncesFor;
    if j < |events| - 1 { BounceCounted(events[..|events| - 1], id, j); }
  }

  /** What the run did before its j-th event was legal too. */
  lemma {:induction false} RunBefore(cfg: Config, hold: int, events: seq<Event>, j: nat)
    requires Run(cfg, hold, events).Some? && j < |events|
    ensures Run(cfg, hold, events[..j]).Some? && Legal(hold, Run(cfg, hold, events[..j]).value, events[j])
  {
    hide Legal, Step;
    var front := events[..|events| - 1];
    if j < |front| {
      RunBefore(cfg, hold, front, j);
      assert front[..j] == events[..j];
    }
  }

  lemma BounceFollows(cfg: Config, hold: int, events: seq<Event>, id: Id, j: nat)
    requires Setup(cfg, hold) && Run(cfg, hold, events).Some? && j < |events| && BouncesFor(events[j], id, true)
    ensures FailedThenTold(cfg, hold, events, id)
  {
    hide Run, Legal, Known, AllOk, Conserved, Causes;
    RunBefore(cfg, hold, events, j);
    InvAlways(cfg, hold, events[..j]);
    EventKnown(hold, Run(cfg, hold, events[..j]).value, events[j]);
    var i := IssuedCaused(cfg, hold, events[..j], events[j].owe);
    CausesIn(cfg, hold, events, i, j, events[j].owe);
  }

  lemma CausesIn(cfg: Config, hold: int, events: seq<Event>, i: nat, j: nat, o: Owe)
    requires j < |events| && Causes(cfg, hold, events[..j], i, o)
    ensures i < j && Causes(cfg, hold, events, i, o)
  {
    hide Run, FailsFor;
    assert events[..j][..i] == events[..i];
  }

  /** Which messages are reported to their sender: those with a permanent failure that is followed
      by its bounce, file and command going through. Of the bounces ever due all others are owed
      still or were lost. */
  lemma ReportedExactly(cfg: Config, hold: int, events: seq<Event>, id: Id)
    requires Setup(cfg, hold) && Run(cfg, hold, events).Some?
    ensures var w := Run(cfg, hold, events).value;
            && (BouncesOf(w, id) != {} <==> FailedThenTold(cfg, hold, events, id))
            && |BouncesOf(w, id)| == |Reports(w, id)| - |OwedOf(w, id)| - Bounces(events, id, false)
  {
    hide Run, Bounces, Reports, OwedOf, Causes;
    EveryBounceTold(cfg, hold, events, id);
    if Bounces(events, id, true) > 0 {
      var j := SomeBounce(events, id);
      BounceFollows(cfg, hold, events, id, j);
    }
    if FailedThenTold(cfg, hold, events, id) {
      var i: nat, j: nat :|
        i < j < |events| && BouncesFor(events[j], id, true) && Causes(cfg, hold, events, i, events[j].owe);
      BounceCounted(events, id, j);
    }
  }

  // ----- the attempts one submission can cause -----

  /** A submitted message and the bounces that report it. */
  function Family(w: World, id: Id): set<Id> {
    {id} + BouncesOf(w, id)
  }

  lemma {:induction false} FewerBounces(parent: map<Id, Owe>, bounces: set<Id>, reports: set<Owe>)
    requires forall b :: b in bounces ==> b in parent && parent[b] in reports
    requires forall b, c :: b in bounces && c in bounces && parent[b] == parent[c] ==> b == c
    ensures |bounces| <= |reports|
    decreases |bounces|
  {
    if bounces != {} {
      var b :| b in bounces;
      FewerBounces(parent, bounces - {b}, reports - {parent[b]});
    }
  }

  lemma {:induction false} FewReports(reports: set<Owe>, id: Id, attempts: nat)
    requires forall o :: o in reports ==> o.id == id && 1 <= o.attempt <= attempts
    ensures |reports| <= attempts
  {
    if attempts == 0 {
      if o :| o in reports { assert false; }
    } else {
      FewReports(reports - {Owe(id, attempts)}, id, attempts - 1);
      assert |reports| <= |reports - {Owe(id, attempts)}| + 1;
    }
  }

  lemma BouncesCounted(cfg: Config, w: World, id: Id)
    requires Inv(cfg, w) && id in w.db.messages
    ensures |BouncesOf(w, id)| <= |Reports(w, id)| <= w.db.messages[id].attempts <= cfg.maxRetries
    ensures id !in BouncesOf(w, id)
    ensures id in w.parent ==> !ShouldBounce(w.db.messages[id].sender)
  {
    hide Known, Conserved, AllOk, ShouldBounce;
    SlotKnown(cfg, w, id);
    FewerBounces(w.parent, BouncesOf(w, id), Reports(w, id));
    FewReports(Reports(w, id), id, w.db.messages[id].attempts);
    NullSenderSilent();
  }

  lemma AtMostTimes(n: nat, limit: nat, k: nat)
    requires n <= limit
    ensures n * k <= limit * k
  {
  }

  /** The attempts a submitted message causes, its own and those of its bounces, are at most
      MaxRetries for each member of the family: MaxRetries + MaxRetries^2 in all, 2 * MaxRetries if
      no Fail command of it is lost, MaxRetries alone for a bounce or a sender that gets none. */
  lemma FamilyAttempts(cfg: Config, hold: int, events: seq<Event>, id: Id)
    requires Setup(cfg, hold) && Run(cfg, hold, events).Some? && id in Run(cfg, hold, events).value.db.messages
    ensures var w := Run(cfg, hold, events).value;
            && Claims(events, Family(w, id)) <= (1 + cfg.maxRetries) * cfg.maxRetries
            && (Failures(events, id, true) == 0 ==> Claims(events, Family(w, id)) <= 2 * cfg.maxRetries)
            && (id in w.parent || !ShouldBounce(w.db.messages[id].sender) ==>
                  Family(w, id) == {id} && Claims(events, Family(w, id)) <= cfg.maxRetries)
  {
    hide Run, ShouldBounce, Inv, Claims, Failures, Reports;
    InvAlways(cfg, hold, events);
    var w := Run(cfg, hold, events).value;
    BouncesCounted(cfg, w, id);
    BouncesExact(cfg, hold, events, id);
    ClaimsOfAll(cfg, hold, events, Family(w, id));
    var n := |BouncesOf(w, id)|;
    assert |Family(w, id)| == 1 + n;
    AtMostTimes(1 + n, 1 + cfg.maxRetries, cfg.maxRetries);
    if Failures(events, id, true) == 0 { AtMostTimes(1 + n, 2, cfg.maxRetries); }
  }

  // ----- runs that show the exceptions -----

  lemma Follow(cfg: Config, hold: int, events: seq<Event>, e: Event)
    requires Run(cfg, hold, events).Some? && Legal(hold, Run(cfg, hold, events).value, e)
    ensures Run(cfg, hold, events + [e]) == Some(Step(cfg, hold, Run(cfg, hold, events).value, e))
    ensures forall id, lost ::
              Failures(events + [e], id, lost) == Failures(events, id, lost) + (if FailsFor(e, id, lost) then 1 else 0)
  {
    hide Legal, Step, FailsFor;
    assert (events + [e])[..|events|] == events;
  }

  lemma FirstClaim(cfg: Config, hold: int, m: Message, id: Id, at: int)
    requires Unsent(m) && id != "" && at >= 0
    ensures var run := Run(cfg, hold, [Submit(m, id, 0), Claim(id, at)]);
            && run.Some? && var w := run.value;
            && w.held == {id} && w.owed == {} && w.issued == {} && w.clock == at && w.db.pending == map[]
            && w.db.processing == {id} && w.db.messages.Keys == {id}
            && w.db.messages[id] == Started(Prepared(cfg, m, id, 0), at)
    ensures forall lost :: Failures([Submit(m, id, 0), Claim(id, at)], id, lost) == 0
  {
    var submit, claim := Submit(m, id, 0), Claim(id, at);
    assert [] + [submit] == [submit] && [submit] + [claim] == [submit, claim];
    Follow(cfg, hold, [], submit);
    Follow(cfg, hold, [submit], claim);
  }

  /** A message whose first temporary failure comes after its maximum age fails, and its sender is
      not told, whatever the message. */
  lemma GivenUpUnheard(cfg: Config, hold: int, m: Message, id: Id, text: string, nano: nat)
    requires Setup(cfg, hold) && hold >= 0 && Unsent(m) && id != "" && ShouldBounce(m.sender)
    ensures var late := cfg.retryMaxAge + 1;
            var run := Run(cfg, hold, [Submit(m, id, 0), Claim(id, late), Finish(id, Temporary(text), nano, late)]);
            && run.Some? && var w := run.value;
            && id in w.db.messages && w.db.messages[id].status.Failed? && id in w.db.failed
            && w.db.pending == map[] && w.db.processing == {} && Reports(w, id) == {}
  {
    hide ShouldBounce, Run;
    var late := cfg.retryMaxAge + 1;
    FirstClaim(cfg, hold, m, id, late);
    var events, finish := [Submit(m, id, 0), Claim(id, late)], Finish(id, Temporary(text), nano, late);
    Follow(cfg, hold, events, finish);
    assert events + [finish] == [Submit(m, id, 0), Claim(id, late), finish];
  }

  function FailedTwice(m: Message, id: Id, text: string, nano: nat): seq<Event> {
    var again := STALE_AFTER + 1;
    var due := again + Backoff(1, nano);
    [Submit(m, id, 0), Claim(id, 0), FailLost(id, 0), Recover(id, nano, again), Claim(id, due),
     Finish(id, Permanent(text), 0, due)]
  }

  /** A message that fails for good and whose bounce is lost, by its file or its command, is closed
      and its sender is not told either. */
  lemma FailedUntold(cfg: Config, hold: int, m: Message, id: Id, text: string, b: Id, path: string, size: int)
    requires Setup(cfg, hold) && hold >= 0 && Unsent(m) && id != "" && ShouldBounce(m.sender) && b != "" && b != id
    ensures var events := [Submit(m, id, 0), Claim(id, 0)] + [Finish(id, Permanent(text), 0, 0)]
                          + [Bounce(Owe(id, 1), b, path, size, false, 0)];
            var run := Run(cfg, hold, events);
            && run.Some? && var w := run.value;
            && id in w.db.messages && w.db.messages[id].status.Failed? && w.db.pending == map[] && w.db.processing == {}
            && |Reports(w, id)| == 1 && w.owed == {} && BouncesOf(w, id) == {}
  {
    hide ShouldBounce, Run, Reports, BouncesOf;
    FirstClaim(cfg, hold, m, id, 0);
    var claimed, finish := [Submit(m, id, 0), Claim(id, 0)], Finish(id, Permanent(text), 0, 0);
    Follow(cfg, hold, claimed, finish);
    var failed, bounce := claimed + [finish], Bounce(Owe(id, 1), b, path, size, false, 0);
    Follow(cfg, hold, failed, bounce);
    BouncesExact(cfg, hold, failed + [bounce], id);
    NoneQueued(cfg, hold, failed, bounce);
  }

  lemma NoneQueued(cfg: Config, hold: int, events: seq<Event>, e: Event)
    requires Setup(cfg, hold) && Run(cfg, hold, events + [e]).Some? && e.Bounce? && !e.done
    requires forall f :: f in events ==> !f.Bounce?
    ensures BouncesOf(Run(cfg, hold, events + [e]).value, e.owe.id) == {}
  {
    hide Run, BouncesOf;
    EveryBounceTold(cfg, hold, events + [e], e.owe.id);
    assert (events + [e])[..|events|] == events;
    NoBounces(events, e.owe.id);
  }

  lemma {:induction false} NoBounces(events: seq<Event>, id: Id)
    requires forall f :: f in events ==> !f.Bounce?
    ensures Bounces(events, id, true) == 0
  {
    if events != [] {
      assert events[|events| - 1] in events;
      NoBounces(events[..|events| - 1], id);
    }
  }

  lemma RecoveredAfterFail(cfg: Config, hold: int, m: Message, id: Id, nano: nat)
    requires Setup(cfg, hold) && hold >= 0 && cfg.maxRetries >= 2 && cfg.retryMaxAge > STALE_AFTER
    requires Unsent(m) && id != "" && ShouldBounce(m.sender)
    ensures var again := STALE_AFTER + 1;
            var events := [Submit(m, id, 0), Claim(id, 0)] + [FailLost(id, 0)] + [Recover(id, nano, again)];
            var run := Run(cfg, hold, events);
            && run.Some? && var w := run.value;
            && w.held == {} && w.clock == again && id in w.db.messages
            && w.db.messages[id].id == id && w.db.messages[id].sender == m.sender
            && w.db.pending == map[id := again + Backoff(1, nano)]
            && Failures(events, id, true) == 1 && Failures(events, id, false) == 0
  {
    hide ShouldBounce, Run, Backoff;
    FirstClaim(cfg, hold, m, id, 0);
    var one := [Submit(m, id, 0), Claim(id, 0)];
    Follow(cfg, hold, one, FailLost(id, 0));
    Follow(cfg, hold, one + [FailLost(id, 0)], Recover(id, nano, STALE_AFTER + 1));
  }

  /** The Fail command of the first attempt errs, the recovered message fails for good at the
      second: two bounces are due. */
  lemma ReportedTwice(cfg: Config, hold: int, m: Message, id: Id, text: string, nano: nat)
    requires Setup(cfg, hold) && hold >= 0 && cfg.maxRetries >= 2 && cfg.retryMaxAge > STALE_AFTER
    requires Unsent(m) && id != "" && ShouldBounce(m.sender)
    ensures var run := Run(cfg, hold, FailedTwice(m, id, text, nano));
            run.Some? && |Reports(run.value, id)| == 2
  {
    hide ShouldBounce, Run, Backoff;
    BackoffNearTier(1, nano);
    var again := STALE_AFTER + 1;
    var due := again + Backoff(1, nano);
    var one := [Submit(m, id, 0), Claim(id, 0)];
    var three := one + [FailLost(id, 0)] + [Recover(id, nano, again)];
    RecoveredAfterFail(cfg, hold, m, id, nano);
    var four := three + [Claim(id, due)];
    Follow(cfg, hold, three, Claim(id, due));
    Follow(cfg, hold, four, Finish(id, Permanent(text), 0, due));
    assert four + [Finish(id, Permanent(text), 0, due)] == FailedTwice(m, id, text, nano);
    BouncesExact(cfg, hold, FailedTwice(m, id, text, nano), id);
  }

  /** Recovery takes a message from a worker that still holds it. */
  ghost predicate MayTakeHeld(cfg: Config, hold: int) {
    exists events, id, nano, at ::
      Run(cfg, hold, events).Some? && id in Run(cfg, hold, events).value.held
      && Legal(hold, Run(cfg, hold, events).value, Recover(id, nano, at))
  }

  /** Whether a message can go to two workers at once, by the recovery of one that is still at it:
      exactly when workers may keep a message longer than the threshold of staleness. */
  lemma TakesHeldExactly(cfg: Config, hold: int)
    ensures MayTakeHeld(cfg, hold) <==> hold > STALE_AFTER
  {
    hide Run;
    if MayTakeHeld(cfg, hold) && hold <= STALE_AFTER {
      var events, id', nano, at :|
        Run(cfg, hold, events).Some? && id' in Run(cfg, hold, events).value.held
        && Legal(hold, Run(cfg, hold, events).value, Recover(id', nano, at));
      HeldNotStale(hold, Run(cfg, hold, events).value, Recover(id', nano, at));
      assert false;
    } else if hold > STALE_AFTER {
      var m := Message("", "", [], "", 0, 0, 0, None, None, "", Pending, None, "");
      FirstClaim(cfg, hold, m, "a", 0);
      var w := Run(cfg, hold, [Submit(m, "a", 0), Claim("a", 0)]).value;
      assert Legal(hold, w, Recover("a", 0, STALE_AFTER + 1));
    }
  }
}
