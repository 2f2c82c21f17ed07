/** Where a message of the queue is, read off the events about it alone. */
module QueueFates {
  import opened Wrappers
  import opened QueueModel
  import opened DeliveryErrors
  import opened QueueRuns

  /** A message is not there, waits for an attempt that is due between two moments, is being
      attempted, was accepted, or was given up. */
  datatype Place = Absent | Waiting(earliest: int, latest: int) | Working | Received | Abandoned

  /** With the time it was queued and the number of its attempts so far. */
  datatype Fate = Fate(place: Place, born: int, attempts: nat)

  /** The minutes to wait after so many attempts. */
  function Minutes(attempts: nat): nat {
    match attempts
    case 0 => 5
    case 1 => 5
    case 2 => 15
    case 3 => 30
    case 4 => 60
    case 5 => 120
    case 6 => 240
    case 7 => 480
    case 8 => 960
    case _ => 1440
  }

  /** Five percent of a minute, times the minutes to wait. */
  function Slack(attempts: nat): nat {
    Minutes(attempts) * 3_000_000_000
  }

  /** A temporary failure, or a worker that is overdue: the message waits for its next attempt unless
      all its attempts are used up or it is too old. */
  function Again(cfg: Config, f: Fate, at: int): Fate {
    if f.attempts >= cfg.maxRetries || at - f.born > cfg.retryMaxAge then f.(place := Abandoned)
    else
      var due := at + Minutes(f.attempts) * 60_000_000_000;
      f.(place := Waiting(due - Slack(f.attempts), due + Slack(f.attempts)))
  }

  function FateAfter(cfg: Config, f: Fate, e: Event, id: Id): Fate {
    match e
    case Submit(_, newId, at) => if newId == id then Fate(Waiting(at, at), at, 0) else f
    case Bounce(_, newId, _, _, done, at) => if done && newId == id then Fate(Waiting(at, at), at, 0) else f
    case Claim(other, _) => if other == id then f.(place := Working, attempts := f.attempts + 1) else f
    case Finish(other, outcome, _, at) =>
      if other != id then f
      else (match outcome
        case Accepted => f.(place := Received)
        case Temporary(_) => Again(cfg, f, at)
        case Permanent(_) => f.(place := Abandoned))
    case Recover(other, _, at) => if other == id then Again(cfg, f, at) else f
    case Drop(_, _, _) => f
    case FailLost(_, _) => f
    case Sweep(_, _) => f
  }

  function FateOf(cfg: Config, events: seq<Event>, id: Id): Fate {
    if events == [] then Fate(Absent, 0, 0)
    else FateAfter(cfg, FateOf(cfg, events[..|events| - 1], id), events[|events| - 1], id)
  }

  // ----- the state agrees -----

  predicate Matches(s: Slot, f: Fate) {
    && s.record.createdAt == Some(f.born) && s.record.attempts == f.attempts
    && match f.place
       case Absent => false
       case Waiting(earliest, latest) => s.score.Some? && earliest <= s.score.value <= latest && !s.processing
       case Working => s.processing && s.score.None?
       case Received => s.record.status.Sent? && s.score.None? && !s.processing
       case Abandoned => s.record.status.Failed? && s.score.None? && !s.processing
  }

  predicate Agrees(w: World, id: Id, f: Fate) {
    if id in w.db.messages then Matches(SlotOf(w, id), f) else f == Fate(Absent, 0, 0)
  }

  lemma TierMinutes(attempts: nat)
    ensures INTERVALS[Tier(attempts)] == Minutes(attempts) * MINUTE
  {
  }

  lemma WaitNear(attempts: nat, nano: nat)
    ensures var wait := Minutes(attempts) * MINUTE;
            wait - Slack(attempts) <= Backoff(attempts, nano) <= wait + Slack(attempts)
  {
    hide Backoff;
    BackoffNearTier(attempts, nano);
    TierMinutes(attempts);
  }

  lemma RetryMatches(cfg: Config, s: Slot, f: Fate, text: string, at: int, nano: nat)
    requires Matches(s, f) && s.processing && s.record.maxAttempts == cfg.maxRetries
    ensures Matches(SlotRetried(cfg, s, text, at, nano), Again(cfg, f, at))
  {
    hide Backoff, Minutes, Slack;
    WaitNear(f.attempts, nano);
  }

  lemma SlotMatches(cfg: Config, s: Slot, f: Fate, e: Event, id: Id, clock: int)
    requires Matches(s, f) && SlotOk(cfg, s, clock) && Fits(s, e) && Target(e) == Some(id)
    ensures Matches(SlotStep(cfg, s, e), FateAfter(cfg, f, e, id))
  {
    hide SlotRetried, Again;
    match e
    case Finish(_, Temporary(text), nano, at) =>
      HeldMatches(s, f);
      RetryMatches(cfg, s.(held := false), f, text, at, nano);
    case Recover(_, nano, at) => RetryMatches(cfg, s, f, "worker timeout", at, nano);
    case _ =>
  }

  lemma HeldMatches(s: Slot, f: Fate)
    requires Matches(s, f)
    ensures Matches(s.(held := false), f)
  {
  }

  lemma SweepMatches(cfg: Config, hold: int, w: World, e: Event, id: Id, f: Fate)
    requires Legal(hold, w, e) && e.Sweep? && Agrees(w, id, f)
    ensures Agrees(Step(cfg, hold, w, e), id, f)
  {
    hide InTime;
  }

  lemma StepAgrees(cfg: Config, hold: int, w: World, e: Event, id: Id, f: Fate)
    requires Setup(cfg, hold) && Legal(hold, w, e) && Inv(cfg, w) && Agrees(w, id, f)
    ensures Agrees(Step(cfg, hold, w, e), id, FateAfter(cfg, f, e, id))
  {
    hide Legal, Step, Conserved, Families, Matches, SlotOk, SlotStep, FateAfter;
    if e.Sweep? {
      SweepMatches(cfg, hold, w, e, id, f);
      NotAbout(cfg, f, e, id);
    } else {
      StepSlotwise(cfg, hold, w, e);
      if id in w.db.messages {
        if Target(e) == Some(id) {
          TargetFits(cfg, hold, w, e);
          SlotMatches(cfg, SlotOf(w, id), f, e, id, w.clock);
        } else {
          AddedNew(hold, w, e);
          NotAbout(cfg, f, e, id);
        }
      } else {
        NewAgrees(cfg, hold, w, e, id, f);
      }
    }
  }

  lemma AddedNew(hold: int, w: World, e: Event)
    requires Legal(hold, w, e)
    ensures Added(e).Some? ==> Added(e).value !in w.db.messages
    ensures Target(e).Some? && (e.Finish? || e.Claim? || e.Recover?) ==> Target(e).value in w.db.messages
  {
    hide InTime;
  }

  lemma NotAbout(cfg: Config, f: Fate, e: Event, id: Id)
    requires Target(e) != Some(id) && Added(e) != Some(id)
    ensures FateAfter(cfg, f, e, id) == f
  {
  }

  lemma NewAgrees(cfg: Config, hold: int, w: World, e: Event, id: Id, f: Fate)
    requires Setup(cfg, hold) && Legal(hold, w, e) && Inv(cfg, w) && !e.Sweep?
    requires id !in w.db.messages && Agrees(w, id, f)
    ensures Agrees(Step(cfg, hold, w, e), id, FateAfter(cfg, f, e, id))
  {
    hide Legal, Step, Conserved, Families, AllOk, SlotOk;
    AddedNew(hold, w, e);
    if Added(e).Some? {
      KeyAdded(cfg, hold, w, e);
      if Added(e).value == id {
        NewSlotOk(cfg, hold, w, e);
        FreshRecord(hold, w, e);
      } else {
        NotAbout(cfg, f, e, id);
      }
    } else {
      KeysKept(cfg, hold, w, e);
      Unmoved(cfg, f, e, id, w);
    }
  }

  lemma FreshRecord(hold: int, w: World, e: Event)
    requires Legal(hold, w, e)
    ensures e.Submit? ==> e.m.attempts == 0 && e.m.createdAt.None?
    ensures e.Bounce? ==> e.owe.id in w.db.messages
  {
    hide InTime;
  }

  lemma Unmoved(cfg: Config, f: Fate, e: Event, id: Id, w: World)
    requires Added(e).None? && (Target(e) == Some(id) ==> e.Drop? || e.FailLost?)
    ensures FateAfter(cfg, f, e, id) == f
  {
  }

  /** In every run the message is where its own events say, with the attempts they make: waiting and
      due when they say, being attempted, accepted or given up; no event about others matters. A
      temporary failure gives up exactly on a message without attempts left or beyond its age. */
  lemma {:induction false} FateAgrees(cfg: Config, hold: int, events: seq<Event>, id: Id)
    requires Setup(cfg, hold) && Run(cfg, hold, events).Some?
    ensures Agrees(Run(cfg, hold, events).value, id, FateOf(cfg, events, id))
  {
    if events == [] {
    } else {
      hide Legal, Step, Inv, Agrees, FateAfter;
      var front, last := events[..|events| - 1], events[|events| - 1];
      FateAgrees(cfg, hold, front, id);
      InvAlways(cfg, hold, front);
      StepAgrees(cfg, hold, Run(cfg, hold, front).value, last, id, FateOf(cfg, front, id));
    }
  }

  /** The same on the keys of the queue, and so: no attempt is made before the message has waited for
      its tier, less five percent. */
  lemma FateExactly(cfg: Config, hold: int, events: seq<Event>, id: Id)
    requires Setup(cfg, hold) && Run(cfg, hold, events).Some?
    ensures var w, f := Run(cfg, hold, events).value, FateOf(cfg, events, id);
            && (id in w.db.messages <==> !f.place.Absent?)
            && (id in w.db.pending <==> f.place.Waiting?) && (id in w.db.processing <==> f.place.Working?)
            && (f.place.Waiting? ==> f.place.earliest <= w.db.pending[id] <= f.place.latest)
            && (id in w.db.messages ==>
                  var m := w.db.messages[id];
                  && m.attempts == f.attempts && m.createdAt == Some(f.born)
                  && (m.status.Sent? <==> f.place.Received?) && (m.status.Failed? <==> f.place.Abandoned?))
            && (id in w.db.sent ==> f.place.Received?) && (id in w.db.failed ==> f.place.Abandoned?)
            && (forall at :: Legal(hold, w, Claim(id, at)) ==> f.place.Waiting? && f.place.earliest <= at)
  {
    hide Run, FateOf, Families, Conserved, Counted, Timed, InTime;
    InvAlways(cfg, hold, events);
    FateAgrees(cfg, hold, events, id);
    var w := Run(cfg, hold, events).value;
    if id in w.db.messages { assert SlotOk(cfg, SlotOf(w, id), w.clock); }
  }
}
