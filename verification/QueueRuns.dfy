/** Runs of the delivery engine over the queue: any number of workers that claim atomically, stale
    recovery, crashes and cleanups, on a clock that never goes back. What an event does is seen in
    two ways: as a change of the whole queue, and as a change of what the state says about one
    message. */
module QueueRuns {
  import opened Wrappers
  import opened QueueModel
  import opened DeliveryErrors

  /** The threshold with which the engine recovers stale messages. */
  const STALE_AFTER := 10 * MINUTE

  /** How a delivery attempt ends. */
  datatype Outcome = Accepted | Temporary(text: string) | Permanent(text: string)

  /** A bounce that is due because this attempt of this message ended for good. */
  datatype Owe = Owe(id: Id, attempt: int)

  /** Drop is a worker that dies, or whose closing command fails, while it holds a message, perhaps
      after a server has accepted it; FailLost is a permanent failure whose Fail command errs, after
      which the worker goes on to bounce; a Bounce that is not done is one whose file or command
      fails. */
  datatype Event =
    | Submit(m: Message, id: Id, at: int)
    | Claim(id: Id, at: int)
    | Finish(id: Id, outcome: Outcome, nano: nat, at: int)
    | Drop(id: Id, accepted: bool, at: int)
    | FailLost(id: Id, at: int)
    | Bounce(owe: Owe, newId: Id, path: string, size: int, done: bool, at: int)
    | Recover(id: Id, nano: nat, at: int)
    | Sweep(threshold: int, at: int)

  /** held: claimed by a worker still at it. owed: bounces still to be queued. issued: all bounces
      ever due. parent: what each queued bounce is for. */
  datatype World = World(db: Db, held: set<Id>, owed: set<Owe>, issued: set<Owe>, parent: map<Id, Owe>, clock: int)

  const START := World(EMPTY, {}, {}, {}, map[], 0)

  /** A record as Engine.Enqueue and sendBounce build it: no id, no times, no attempts. */
  predicate Unsent(m: Message) {
    m.id == "" && m.attempts == 0 && m.maxAttempts == 0 && m.lastAttempt.None? && m.nextAttempt.None? && m.createdAt.None?
  }

  function BounceFor(m: Message, path: string, size: int): Message {
    Message("", "", [m.sender], path, size, 0, 0, None, None, "", Pending, None, ExtractDomain(m.sender))
  }

  /** A worker keeps a message no longer than `hold`. */
  predicate InTime(w: World, hold: int, at: int) {
    forall id :: id in w.held ==>
      && id in w.db.messages
      && w.db.messages[id].lastAttempt.Some? && at - w.db.messages[id].lastAttempt.value <= hold
  }

  predicate FreshId(w: World, id: Id) {
    id != "" && id !in w.db.messages
  }

  predicate Legal(hold: int, w: World, e: Event) {
    && w.clock <= e.at && InTime(w, hold, e.at)
    && match e
       case Submit(m, id, _) => Unsent(m) && FreshId(w, id)
       case Claim(id, at) => Next(w.db, id, at) && id in w.db.messages
       case Finish(id, _, _, _) => id in w.held && id in w.db.messages
       case Drop(id, _, _) => id in w.held
       case FailLost(id, _) => id in w.held && id in w.db.messages
       case Bounce(owe, newId, _, _, _, _) => owe in w.owed && owe.id in w.db.messages && FreshId(w, newId)
       case Recover(id, _, at) =>
         id in w.db.processing && id in w.db.messages && Stale(w.db.messages[id], STALE_AFTER, at)
       case Sweep(_, _) => true
  }

  /** The bounce a permanent failure makes due, if the sender gets one. */
  function Due(w: World, id: Id): set<Owe>
    requires id in w.db.messages
  {
    if ShouldBounce(w.db.messages[id].sender) then {Owe(id, w.db.messages[id].attempts)} else {}
  }

  function Finished(cfg: Config, w: World, id: Id, outcome: Outcome, nano: nat, at: int): World
    requires id in w.db.messages
  {
    var w' := w.(held := w.held - {id}, clock := at);
    match outcome
    case Accepted => w'.(db := Completed(w.db, id, at))
    case Temporary(text) => w'.(db := Retried(cfg, w.db, id, text, at, nano))
    case Permanent(text) =>
      w'.(db := GivenUp(w.db, id, text, at), owed := w.owed + Due(w, id), issued := w.issued + Due(w, id))
  }

  function FailedInVain(w: World, id: Id, at: int): World
    requires id in w.db.messages
  {
    w.(held := w.held - {id}, owed := w.owed + Due(w, id), issued := w.issued + Due(w, id), clock := at)
  }

  function Bounced(cfg: Config, w: World, owe: Owe, newId: Id, path: string, size: int, done: bool, at: int): World
    requires owe.id in w.db.messages
  {
    var w' := w.(owed := w.owed - {owe}, clock := at);
    if !done then w'
    else w'.(db := EnqueueTx(w.db, Prepared(cfg, BounceFor(w.db.messages[owe.id], path, size), newId, at)),
             parent := w.parent[newId := owe])
  }

  function Step(cfg: Config, hold: int, w: World, e: Event): World
    requires Legal(hold, w, e)
  {
    match e
    case Submit(m, id, at) => w.(db := EnqueueTx(w.db, Prepared(cfg, m, id, at)), clock := at)
    case Claim(id, at) => w.(db := Claimed(w.db, id, at), held := w.held + {id}, clock := at)
    case Finish(id, outcome, nano, at) => Finished(cfg, w, id, outcome, nano, at)
    case Drop(id, _, at) => w.(held := w.held - {id}, clock := at)
    case FailLost(id, at) => FailedInVain(w, id, at)
    case Bounce(owe, newId, path, size, done, at) => Bounced(cfg, w, owe, newId, path, size, done, at)
    case Recover(id, nano, at) => w.(db := Retried(cfg, w.db, id, "worker timeout", at, nano), clock := at)
    case Sweep(threshold, at) => w.(db := CleanFailedTx(CleanSentTx(w.db, threshold), threshold), clock := at)
  }

  /** The states of a run, or none if some event was not legal. */
  function Run(cfg: Config, hold: int, events: seq<Event>): Option<World> {
    if events == [] then Some(START)
    else
      var before := Run(cfg, hold, events[..|events| - 1]);
      if before.Some? && Legal(hold, before.value, events[|events| - 1])
      then Some(Step(cfg, hold, before.value, events[|events| - 1])) else None
  }

  // ----- one message -----

  /** Everything the state says about one message. */
  datatype Slot = Slot(record: Message, score: Option<int>, processing: bool, sent: bool, failed: bool, held: bool)

  function SlotOf(w: World, id: Id): Slot
    requires id in w.db.messages
  {
    Slot(w.db.messages[id], if id in w.db.pending then Some(w.db.pending[id]) else None, id in w.db.processing,
         id in w.db.sent, id in w.db.failed, id in w.held)
  }

  /** The latest moment for which a message may be scheduled: 25.2 hours after it gets too old. */
  function Horizon(cfg: Config, created: int): int {
    created + cfg.retryMaxAge + 25 * HOUR + HOUR / 5
  }

  /** The record agrees with the sets: its status names the one set it is in. */
  predicate Placed(s: Slot) {
    && (s.score.Some? <==> s.record.status.Pending? || s.record.status.Deferred?)
    && (s.processing <==> s.record.status.Sending?)
    && (s.sent ==> s.record.status.Sent?)
    && (s.failed ==> s.record.status.Failed?)
    && !s.record.status.Bounced?
    && (s.held ==> s.processing)
  }

  predicate Counted(cfg: Config, s: Slot) {
    && s.record.maxAttempts == cfg.maxRetries
    && 0 <= s.record.attempts <= cfg.maxRetries
    && (s.score.Some? ==> s.record.attempts < cfg.maxRetries)
    && (s.processing ==> s.record.lastAttempt.Some? && s.record.attempts >= 1)
  }

  predicate Timed(cfg: Config, s: Slot, clock: int) {
    && s.record.createdAt.Some? && s.record.createdAt.value <= clock
    && (s.score.Some? ==> s.record.nextAttempt == s.score && s.score.value <= Horizon(cfg, s.record.createdAt.value))
  }

  predicate SlotOk(cfg: Config, s: Slot, clock: int) {
    Placed(s) && Counted(cfg, s) && Timed(cfg, s, clock)
  }

  predicate Setup(cfg: Config, hold: int) {
    cfg.maxRetries >= 1 && cfg.retryMaxAge >= 0 && hold <= STALE_AFTER
  }

  // ----- the invariant -----

  predicate Known(w: World) {
    && w.db.pending.Keys <= w.db.messages.Keys && w.db.processing <= w.db.messages.Keys
    && w.db.sent.Keys <= w.db.messages.Keys && w.db.failed.Keys <= w.db.messages.Keys
    && w.held <= w.db.messages.Keys
  }

  predicate AllOk(cfg: Config, w: World) {
    forall id :: id in w.db.messages ==> w.db.messages[id].id == id && SlotOk(cfg, SlotOf(w, id), w.clock)
  }

  /** Every message is waiting, being processed, or counted as sent or failed. */
  predicate Conserved(db: Db) {
    && |db.pending.Keys| + |db.processing| + db.stats.sent + db.stats.failed == db.stats.enqueued
    && db.stats.enqueued == |db.messages.Keys|
  }

  /** A bounce due is for an attempt of a message with a sender that gets bounces, and not for one
      that is still going on. */
  predicate OweOk(w: World, o: Owe) {
    && o.id in w.db.messages && ShouldBounce(w.db.messages[o.id].sender)
    && 1 <= o.attempt <= w.db.messages[o.id].attempts
    && (o.id in w.held ==> o.attempt < w.db.messages[o.id].attempts)
  }

  predicate SameEnvelope(m: Message, m': Message) {
    m.sender == m'.sender && m.recipients == m'.recipients && m.domain == m'.domain
  }

  /** A bounce goes from the null sender to the sender of the message it is for, and to nobody else. */
  predicate Tells(w: World, b: Id, o: Id) {
    && b in w.db.messages && o in w.db.messages && w.db.messages[b].sender == ""
    && w.db.messages[b].recipients == [w.db.messages[o].sender]
    && w.db.messages[b].domain == ExtractDomain(w.db.messages[o].sender)
  }

  /** Each bounce due is queued at most once, and tells the sender it is due to. */
  predicate Families(w: World) {
    && (forall o :: o in w.issued ==> OweOk(w, o))
    && w.owed <= w.issued
    && (forall b :: b in w.parent ==> Tells(w, b, w.parent[b].id) && w.parent[b] in w.issued && w.parent[b] !in w.owed)
    && (forall b, c :: b in w.parent && c in w.parent && w.parent[b] == w.parent[c] ==> b == c)
  }

  predicate Inv(cfg: Config, w: World) {
    Known(w) && AllOk(cfg, w) && Conserved(w.db) && Families(w)
  }

  // ----- what an event does to each message -----

  /** The message whose slot an event changes. */
  function Target(e: Event): Option<Id> {
    match e
    case Submit(_, _, _) => None
    case Claim(id, _) => Some(id)
    case Finish(id, _, _, _) => Some(id)
    case Drop(id, _, _) => Some(id)
    case FailLost(id, _) => Some(id)
    case Bounce(_, _, _, _, _, _) => None
    case Recover(id, _, _) => Some(id)
    case Sweep(_, _) => None
  }

  function SlotRetried(cfg: Config, s: Slot, text: string, at: int, nano: nat): Slot {
    var s' := s.(record := Rescheduled(cfg, s.record, text, at, nano), processing := false);
    if Hopeless(cfg, s.record, at) then s'.(failed := true)
    else s'.(score := Some(at + Backoff(s.record.attempts, nano)))
  }

  function SlotStep(cfg: Config, s: Slot, e: Event): Slot {
    match e
    case Submit(_, _, _) => s
    case Claim(_, at) => s.(record := Started(s.record, at), score := None, processing := true, held := true)
    case Finish(_, Accepted, _, _) =>
      s.(record := s.record.(status := Sent), processing := false, sent := true, held := false)
    case Finish(_, Temporary(text), nano, at) => SlotRetried(cfg, s.(held := false), text, at, nano)
    case Finish(_, Permanent(text), _, _) =>
      s.(record := s.record.(status := Failed, lastError := text), processing := false, failed := true, held := false)
    case Drop(_, _, _) => s.(held := false)
    case FailLost(_, _) => s.(held := false)
    case Bounce(_, _, _, _, _, _) => s
    case Recover(_, nano, at) => SlotRetried(cfg, s, "worker timeout", at, nano)
    case Sweep(threshold, _) => s
  }

  /** An event acts on the slot of the message it is about and on no other. */
  predicate Slotwise(cfg: Config, w: World, w': World, e: Event) {
    forall id :: id in w.db.messages ==>
      id in w'.db.messages
      && SlotOf(w', id) == if Target(e) == Some(id) then SlotStep(cfg, SlotOf(w, id), e) else SlotOf(w, id)
  }

  lemma ClaimSlotwise(cfg: Config, hold: int, w: World, e: Event)
    requires Legal(hold, w, e) && e.Claim? && AllOk(cfg, w)
    ensures Slotwise(cfg, w, Step(cfg, hold, w, e), e)
  {
    hide InTime, SlotOk;
  }

  lemma AcceptedSlotwise(cfg: Config, hold: int, w: World, e: Event)
    requires Legal(hold, w, e) && e.Finish? && e.outcome.Accepted?
    ensures Slotwise(cfg, w, Step(cfg, hold, w, e), e)
  {
    hide InTime;
  }

  lemma RetrySlotwise(cfg: Config, w: World, id: Id, text: string, at: int, nano: nat, other: Id)
    requires id in w.db.messages && other in w.db.messages
    ensures var w' := w.(db := Retried(cfg, w.db, id, text, at, nano));
            && other in w'.db.messages
            && SlotOf(w', other) == if other == id then SlotRetried(cfg, SlotOf(w, id), text, at, nano) else SlotOf(w, other)
  {
    hide Retried, Backoff, Hopeless, Rescheduled;
    RetriedParts(cfg, w.db, id, text, at, nano);
  }

  lemma TemporarySlotwise(cfg: Config, hold: int, w: World, e: Event)
    requires Legal(hold, w, e) && e.Finish? && e.outcome.Temporary?
    ensures Slotwise(cfg, w, Step(cfg, hold, w, e), e)
  {
    hide InTime, SlotRetried, Retried;
    var let := w.(held := w.held - {e.id}, clock := e.at);
    forall other | other in w.db.messages
      ensures other in Step(cfg, hold, w, e).db.messages
      ensures SlotOf(Step(cfg, hold, w, e), other)
              == if other == e.id then SlotStep(cfg, SlotOf(w, e.id), e) else SlotOf(w, other)
    {
      RetrySlotwise(cfg, let, e.id, e.outcome.text, e.at, e.nano, other);
    }
  }

  lemma PermanentSlotwise(cfg: Config, hold: int, w: World, e: Event)
    requires Legal(hold, w, e) && e.Finish? && e.outcome.Permanent?
    ensures Slotwise(cfg, w, Step(cfg, hold, w, e), e)
  {
    hide InTime, Due;
  }

  lemma RecoverSlotwise(cfg: Config, hold: int, w: World, e: Event)
    requires Legal(hold, w, e) && e.Recover?
    ensures Slotwise(cfg, w, Step(cfg, hold, w, e), e)
  {
    hide InTime, SlotRetried, Retried;
    forall other | other in w.db.messages
      ensures other in Step(cfg, hold, w, e).db.messages
      ensures SlotOf(Step(cfg, hold, w, e), other)
              == if other == e.id then SlotStep(cfg, SlotOf(w, e.id), e) else SlotOf(w, other)
    {
      RetrySlotwise(cfg, w.(clock := e.at), e.id, "worker timeout", e.at, e.nano, other);
    }
  }

  lemma SubmitSlotwise(cfg: Config, hold: int, w: World, e: Event)
    requires Legal(hold, w, e) && e.Submit?
    ensures Slotwise(cfg, w, Step(cfg, hold, w, e), e)
  {
    hide InTime;
  }

  lemma DropSlotwise(cfg: Config, hold: int, w: World, e: Event)
    requires Legal(hold, w, e) && (e.Drop? || e.FailLost?)
    ensures Slotwise(cfg, w, Step(cfg, hold, w, e), e)
  {
    hide InTime, Due;
  }

  lemma BounceSlotwise(cfg: Config, hold: int, w: World, e: Event)
    requires Legal(hold, w, e) && e.Bounce?
    ensures Slotwise(cfg, w, Step(cfg, hold, w, e), e)
  {
    hide InTime, ExtractDomain, ShouldBounce;
  }

  lemma StepSlotwise(cfg: Config, hold: int, w: World, e: Event)
    requires Legal(hold, w, e) && AllOk(cfg, w) && !e.Sweep?
    ensures Slotwise(cfg, w, Step(cfg, hold, w, e), e)
  {
    hide Step, Slotwise, AllOk;
    match e
    case Claim(_, _) => ClaimSlotwise(cfg, hold, w, e);
    case Finish(_, Accepted, _, _) => AcceptedSlotwise(cfg, hold, w, e);
    case Finish(_, Temporary(_), _, _) => TemporarySlotwise(cfg, hold, w, e);
    case Finish(_, Permanent(_), _, _) => PermanentSlotwise(cfg, hold, w, e);
    case Recover(_, _, _) => RecoverSlotwise(cfg, hold, w, e);
    case Submit(_, _, _) => SubmitSlotwise(cfg, hold, w, e);
    case Drop(_, _, _) => DropSlotwise(cfg, hold, w, e);
    case FailLost(_, _) => DropSlotwise(cfg, hold, w, e);
    case Bounce(_, _, _, _, _, _) => BounceSlotwise(cfg, hold, w, e);
    case Sweep(_, _) =>
  }

  // ----- the invariant is kept -----

  /** The message is where the event needs it. */
  predicate Fits(s: Slot, e: Event) {
    match e
    case Submit(_, _, _) => false
    case Claim(_, _) => s.score.Some?
    case Finish(_, _, _, _) => s.held
    case Drop(_, _, _) => s.held
    case FailLost(_, _) => s.held
    case Bounce(_, _, _, _, _, _) => false
    case Recover(_, _, _) => s.processing && !s.held
    case Sweep(_, _) => true
  }

  lemma SlotLater(cfg: Config, s: Slot, clock: int, clock': int)
    requires SlotOk(cfg, s, clock) && clock <= clock'
    ensures SlotOk(cfg, s, clock')
  {
  }

  lemma SlotStepOk(cfg: Config, s: Slot, e: Event, clock: int)
    requires cfg.maxRetries >= 1 && cfg.retryMaxAge >= 0 && clock <= e.at
    requires SlotOk(cfg, s, clock) && Fits(s, e)
    ensures SlotOk(cfg, SlotStep(cfg, s, e), e.at)
    ensures SlotStep(cfg, s, e).record.id == s.record.id && SameEnvelope(SlotStep(cfg, s, e).record, s.record)
    ensures var t := SlotStep(cfg, s, e);
            && (s.record.status.Failed? ==> t.record.status.Failed?)
            && t.record.attempts == s.record.attempts + (if e.Claim? then 1 else 0)
            && (t.held ==> e.Claim? || s.held)
  {
    hide Backoff, ShouldBounce;
    if e.Finish? || e.Recover? { BackoffNearTier(s.record.attempts, e.nano); }
  }

  /** Recovery never takes a message from a worker that is still in time. */
  lemma HeldNotStale(hold: int, w: World, e: Event)
    requires hold <= STALE_AFTER && Legal(hold, w, e) && e.Recover?
    ensures e.id !in w.held
  {
  }

  lemma TargetFits(cfg: Config, hold: int, w: World, e: Event)
    requires Setup(cfg, hold) && Legal(hold, w, e) && Target(e).Some?
    ensures e.id in w.db.messages && Fits(SlotOf(w, e.id), e)
  {
    if e.Recover? { HeldNotStale(hold, w, e); }
  }

  /** The slot of a message just enqueued. */
  function NewSlot(cfg: Config, m: Message, id: Id, at: int): Slot {
    Slot(Prepared(cfg, m, id, at), Some(at), false, false, false, false)
  }

  function Added(e: Event): Option<Id> {
    match e
    case Submit(_, id, _) => Some(id)
    case Bounce(_, newId, _, _, done, _) => if done then Some(newId) else None
    case Claim(_, _) => None
    case Finish(_, _, _, _) => None
    case Drop(_, _, _) => None
    case FailLost(_, _) => None
    case Recover(_, _, _) => None
    case Sweep(_, _) => None
  }

  lemma KeysKept(cfg: Config, hold: int, w: World, e: Event)
    requires Legal(hold, w, e) && AllOk(cfg, w) && Added(e).None?
    ensures Step(cfg, hold, w, e).db.messages.Keys == w.db.messages.Keys
  {
    hide InTime, Retried, SlotOk, Due, ExtractDomain;
    if e.Recover? {
      RetriedSets(cfg, w.db, e.id, "worker timeout", e.at, e.nano);
    } else if e.Finish? && e.outcome.Temporary? {
      RetriedSets(cfg, w.db, e.id, e.outcome.text, e.at, e.nano);
    }
  }

  lemma KeyAdded(cfg: Config, hold: int, w: World, e: Event)
    requires Legal(hold, w, e) && Added(e).Some?
    ensures Step(cfg, hold, w, e).db.messages.Keys == w.db.messages.Keys + {Added(e).value}
    ensures Added(e).value !in w.db.messages
  {
    hide InTime, ShouldBounce, ExtractDomain;
  }

  lemma NewSlotOk(cfg: Config, hold: int, w: World, e: Event)
    requires Setup(cfg, hold) && Legal(hold, w, e) && Known(w) && Added(e).Some?
    ensures var w' := Step(cfg, hold, w, e); var id := Added(e).value;
            && id in w'.db.messages && w'.db.messages[id].id == id && SlotOk(cfg, SlotOf(w', id), e.at)
            && w'.db.messages[id].sender == (if e.Submit? then e.m.sender else "")
            && SlotOf(w', id) ==
               NewSlot(cfg, if e.Submit? then e.m else BounceFor(w.db.messages[e.owe.id], e.path, e.size), id, e.at)
  {
    hide InTime, ShouldBounce, ExtractDomain;
  }

  lemma AllOkKept(cfg: Config, hold: int, w: World, e: Event)
    requires Setup(cfg, hold) && Legal(hold, w, e) && Known(w) && AllOk(cfg, w) && !e.Sweep?
    ensures AllOk(cfg, Step(cfg, hold, w, e))
  {
    hide Legal, Step, SlotOk, SlotStep;
    StepSlotwise(cfg, hold, w, e);
    ClockSet(cfg, hold, w, e);
    var w' := Step(cfg, hold, w, e);
    if Added(e).Some? {
      KeyAdded(cfg, hold, w, e);
      NewSlotOk(cfg, hold, w, e);
    } else {
      KeysKept(cfg, hold, w, e);
    }
    forall id | id in w.db.messages ensures w'.db.messages[id].id == id && SlotOk(cfg, SlotOf(w', id), e.at) {
      if Target(e) == Some(id) {
        TargetFits(cfg, hold, w, e);
        SlotStepOk(cfg, SlotOf(w, id), e, w.clock);
      } else {
        SlotLater(cfg, SlotOf(w, id), w.clock, e.at);
      }
      assert SlotOf(w', id).record == w'.db.messages[id];
    }
  }

  lemma ClockSet(cfg: Config, hold: int, w: World, e: Event)
    requires Legal(hold, w, e)
    ensures w.clock <= e.at && Step(cfg, hold, w, e).clock == e.at
  {
    hide InTime, Retried;
  }

  lemma SizeLess(ids: set<Id>, id: Id)
    requires id in ids
    ensures |ids - {id}| == |ids| - 1
  {
  }

  lemma SizeMore(ids: set<Id>, id: Id)
    requires id !in ids
    ensures |ids + {id}| == |ids| + 1
  {
  }

  lemma RetriedSets(cfg: Config, db: Db, id: Id, text: string, at: int, nano: nat)
    requires id in db.messages
    ensures var db' := Retried(cfg, db, id, text, at, nano);
            && db'.messages.Keys == db.messages.Keys && db'.processing == db.processing - {id}
            && if Hopeless(cfg, db.messages[id], at)
               then db'.pending == db.pending && db'.stats == db.stats.(failed := db.stats.failed + 1)
               else db'.pending.Keys == db.pending.Keys + {id} && db'.stats == db.stats.(retried := db.stats.retried + 1)
  {
    hide Retried, Rescheduled, Hopeless, Backoff;
    RetriedParts(cfg, db, id, text, at, nano);
  }

  lemma AccountsRetried(cfg: Config, db: Db, id: Id, text: string, at: int, nano: nat)
    requires id in db.messages && id in db.processing && id !in db.pending && Conserved(db)
    ensures Conserved(Retried(cfg, db, id, text, at, nano))
  {
    hide Retried, Hopeless;
    RetriedSets(cfg, db, id, text, at, nano);
    SizeLess(db.processing, id);
    SizeMore(db.pending.Keys, id);
  }

  lemma AccountsClaimed(db: Db, id: Id, at: int)
    requires id in db.messages && db.messages[id].id == id
    requires id in db.pending && id !in db.processing && Conserved(db)
    ensures Conserved(Claimed(db, id, at))
  {
    var db' := Claimed(db, id, at);
    assert db'.messages.Keys == db.messages.Keys;
    assert db'.pending.Keys == db.pending.Keys - {id};
  }

  lemma AccountsEnded(db: Db, id: Id, text: string, at: int)
    requires id in db.messages && id in db.processing && Conserved(db)
    ensures Conserved(Completed(db, id, at)) && Conserved(GivenUp(db, id, text, at))
  {
    assert Completed(db, id, at).messages.Keys == db.messages.Keys;
    assert GivenUp(db, id, text, at).messages.Keys == db.messages.Keys;
  }

  lemma EnqueuedWaits(db: Db, m: Message)
    requires m.id !in db.pending
    ensures |EnqueueTx(db, m).pending.Keys| == |db.pending.Keys| + 1
  {
    assert EnqueueTx(db, m).pending.Keys == db.pending.Keys + {m.id};
  }

  lemma EnqueuedCounts(db: Db, m: Message)
    requires m.id !in db.messages
    ensures |EnqueueTx(db, m).messages.Keys| == |db.messages.Keys| + 1
    ensures EnqueueTx(db, m).processing == db.processing
    ensures EnqueueTx(db, m).stats == db.stats.(enqueued := db.stats.enqueued + 1)
  {
    assert EnqueueTx(db, m).messages.Keys == db.messages.Keys + {m.id};
  }

  lemma AccountsEnqueued(db: Db, m: Message)
    requires m.id !in db.messages && m.id !in db.pending && Conserved(db)
    ensures Conserved(EnqueueTx(db, m))
  {
    hide EnqueueTx;
    EnqueuedWaits(db, m);
    EnqueuedCounts(db, m);
  }

  lemma ConservedKept(cfg: Config, hold: int, w: World, e: Event)
    requires Legal(hold, w, e) && Known(w) && AllOk(cfg, w) && Conserved(w.db)
    ensures Conserved(Step(cfg, hold, w, e).db)
  {
    hide Conserved, InTime, Retried, Claimed, Completed, GivenUp, EnqueueTx, Due, ExtractDomain;
    if e.Claim? {
      assert SlotOk(cfg, SlotOf(w, e.id), w.clock);
      AccountsClaimed(w.db, e.id, e.at);
    } else if e.Finish? {
      assert SlotOk(cfg, SlotOf(w, e.id), w.clock);
      match e.outcome
      case Accepted => AccountsEnded(w.db, e.id, "", e.at);
      case Permanent(text) => AccountsEnded(w.db, e.id, text, e.at);
      case Temporary(text) => AccountsRetried(cfg, w.db, e.id, text, e.at, e.nano);
    } else if e.Recover? {
      assert SlotOk(cfg, SlotOf(w, e.id), w.clock);
      AccountsRetried(cfg, w.db, e.id, "worker timeout", e.at, e.nano);
    } else if e.Submit? {
      AccountsEnqueued(w.db, Prepared(cfg, e.m, e.id, e.at));
    } else if e.Bounce? {
      if e.done {
        AccountsEnqueued(w.db, Prepared(cfg, BounceFor(w.db.messages[e.owe.id], e.path, e.size), e.newId, e.at));
      }
    } else if e.Sweep? {
      AccountsSwept(w.db, e.threshold);
    }
  }

  lemma AccountsSwept(db: Db, threshold: int)
    requires Conserved(db)
    ensures Conserved(CleanFailedTx(CleanSentTx(db, threshold), threshold))
  {
  }

  lemma KnownRetried(cfg: Config, w: World, id: Id, text: string, at: int, nano: nat)
    requires id in w.db.messages && Known(w)
    ensures Known(w.(db := Retried(cfg, w.db, id, text, at, nano)))
  {
    hide Retried, Rescheduled, Hopeless, Backoff;
    RetriedParts(cfg, w.db, id, text, at, nano);
  }

  lemma KnownFinished(cfg: Config, w: World, id: Id, outcome: Outcome, nano: nat, at: int)
    requires id in w.db.messages && Known(w)
    ensures Known(Finished(cfg, w, id, outcome, nano, at))
  {
    hide Retried, Due;
    if outcome.Temporary? { KnownRetried(cfg, w, id, outcome.text, at, nano); }
  }

  lemma KnownEnqueued(w: World, m: Message)
    requires Known(w)
    ensures Known(w.(db := EnqueueTx(w.db, m)))
  {
  }

  lemma KnownKept(cfg: Config, hold: int, w: World, e: Event)
    requires Legal(hold, w, e) && Known(w) && AllOk(cfg, w)
    ensures Known(Step(cfg, hold, w, e))
  {
    hide InTime, Retried, Finished, EnqueueTx, ExtractDomain, SlotOk, Due;
    match e
    case Finish(id, outcome, nano, at) => KnownFinished(cfg, w, id, outcome, nano, at);
    case Recover(id, nano, at) => KnownRetried(cfg, w, id, "worker timeout", at, nano);
    case Submit(m, id, at) => KnownEnqueued(w, Prepared(cfg, m, id, at));
    case Bounce(owe, newId, path, size, done, at) =>
      if done { KnownEnqueued(w, Prepared(cfg, BounceFor(w.db.messages[owe.id], path, size), newId, at)); }
    case Claim(_, _) =>
    case Drop(_, _, _) =>
    case FailLost(_, _) =>
    case Sweep(_, _) =>
  }

  lemma SweepOk(cfg: Config, hold: int, w: World, e: Event)
    requires Legal(hold, w, e) && AllOk(cfg, w) && e.Sweep?
    ensures AllOk(cfg, Step(cfg, hold, w, e))
  {
    hide InTime;
    var w' := Step(cfg, hold, w, e);
    forall id | id in w.db.messages ensures SlotOk(cfg, SlotOf(w', id), e.at) {
      assert SlotOk(cfg, SlotOf(w, id), w.clock);
    }
  }

  /** Records keep their envelope, failed ones stay failed, attempts count the claims, and only a
      claim starts to hold a message. */
  lemma RecordsKept(cfg: Config, hold: int, w: World, e: Event, id: Id)
    requires Setup(cfg, hold) && Legal(hold, w, e) && Known(w) && AllOk(cfg, w) && id in w.db.messages
    ensures var w' := Step(cfg, hold, w, e);
            && id in w'.db.messages && SameEnvelope(w'.db.messages[id], w.db.messages[id])
            && (w.db.messages[id].status.Failed? ==> w'.db.messages[id].status.Failed?)
            && w'.db.messages[id].attempts == w.db.messages[id].attempts + (if e.Claim? && e.id == id then 1 else 0)
            && (id in w'.held ==> id in w.held || e == Claim(id, e.at))
  {
    hide SlotOk, SlotStep, InTime, Retried, EnqueueTx, Claimed, Completed, GivenUp, Due;
    var w' := Step(cfg, hold, w, e);
    if e.Sweep? {
    } else {
      StepSlotwise(cfg, hold, w, e);
      assert SlotOf(w', id).record == w'.db.messages[id] && SlotOf(w', id).held == (id in w'.held);
      if Target(e) == Some(id) {
        TargetFits(cfg, hold, w, e);
        SlotStepOk(cfg, SlotOf(w, id), e, w.clock);
      }
    }
  }

  /** The bounce an event makes due. */
  function DueAt(w: World, e: Event): set<Owe>
    requires e.Finish? || e.FailLost? ==> e.id in w.db.messages
  {
    if e.FailLost? || (e.Finish? && e.outcome.Permanent?) then Due(w, e.id) else {}
  }

  lemma OwesAfter(cfg: Config, hold: int, w: World, e: Event)
    requires Legal(hold, w, e)
    ensures var w' := Step(cfg, hold, w, e);
            && w'.issued == w.issued + DueAt(w, e)
            && w'.owed == (if e.Bounce? then w.owed - {e.owe} else w.owed + DueAt(w, e))
            && w'.parent == (if e.Bounce? && e.done then w.parent[e.newId := e.owe] else w.parent)
            && (e.FailLost? || e.Finish? ==> e.id in w.held && e.id !in w'.held)
  {
    hide InTime, Retried, EnqueueTx, Due, GivenUp, Completed, Claimed;
  }

  lemma OweStays(cfg: Config, hold: int, w: World, e: Event, o: Owe)
    requires Setup(cfg, hold) && Legal(hold, w, e) && Known(w) && AllOk(cfg, w) && OweOk(w, o)
    ensures OweOk(Step(cfg, hold, w, e), o)
  {
    hide Legal, Step, AllOk, ShouldBounce, Known;
    RecordsKept(cfg, hold, w, e, o.id);
  }

  /** A bounce that becomes due was not due before. */
  lemma OweStarts(cfg: Config, hold: int, w: World, e: Event, o: Owe)
    requires Setup(cfg, hold) && Legal(hold, w, e) && Known(w) && AllOk(cfg, w) && o in DueAt(w, e)
    ensures OweOk(Step(cfg, hold, w, e), o) && !OweOk(w, o)
  {
    hide Legal, Step, SlotOk, ShouldBounce;
    OwesAfter(cfg, hold, w, e);
    RecordsKept(cfg, hold, w, e, e.id);
    HeldAttempted(cfg, w, e.id);
  }

  lemma HeldAttempted(cfg: Config, w: World, id: Id)
    requires AllOk(cfg, w) && id in w.held && id in w.db.messages
    ensures w.db.messages[id].attempts >= 1 && w.db.messages[id].status.Sending?
  {
    assert SlotOk(cfg, SlotOf(w, id), w.clock);
  }

  lemma FamiliesKept(cfg: Config, hold: int, w: World, e: Event)
    requires Setup(cfg, hold) && Legal(hold, w, e) && Known(w) && AllOk(cfg, w) && Families(w)
    ensures Families(Step(cfg, hold, w, e))
  {
    hide Legal, Step, AllOk, Known, OweOk, Tells, DueAt;
    EventKnown(hold, w, e);
    OwesAfter(cfg, hold, w, e);
    var w' := Step(cfg, hold, w, e);
    forall o | o in w.issued ensures OweOk(w', o) {
      OweStays(cfg, hold, w, e, o);
    }
    forall o | o in DueAt(w, e) ensures OweOk(w', o) && o !in w.issued {
      OweStarts(cfg, hold, w, e, o);
    }
    forall b | b in w.parent ensures Tells(w', b, w.parent[b].id) && w.parent[b] in w.issued && w.parent[b] !in w.owed {
      TellsStays(cfg, hold, w, e, b, w.parent[b].id);
    }
    if e.Bounce? && e.done {
      BounceStarts(cfg, hold, w, e);
      forall b | b in w.parent ensures b != e.newId {
        TellsKnown(w, b, w.parent[b].id);
      }
    }
  }

  lemma EventKnown(hold: int, w: World, e: Event)
    requires Legal(hold, w, e)
    ensures e.Finish? || e.FailLost? ==> e.id in w.db.messages
    ensures e.Bounce? ==> e.owe in w.owed
  {
  }

  lemma TellsKnown(w: World, b: Id, o: Id)
    requires Tells(w, b, o)
    ensures b in w.db.messages
  {
  }

  lemma TellsStays(cfg: Config, hold: int, w: World, e: Event, b: Id, o: Id)
    requires Setup(cfg, hold) && Legal(hold, w, e) && Known(w) && AllOk(cfg, w) && Tells(w, b, o)
    ensures Tells(Step(cfg, hold, w, e), b, o)
  {
    hide Legal, Step, AllOk, Known, ExtractDomain;
    RecordsKept(cfg, hold, w, e, b);
    RecordsKept(cfg, hold, w, e, o);
  }

  lemma BounceStarts(cfg: Config, hold: int, w: World, e: Event)
    requires Setup(cfg, hold) && Legal(hold, w, e) && Known(w) && AllOk(cfg, w) && e.Bounce? && e.done
    ensures e.owe.id in w.db.messages && e.newId !in w.db.messages
    ensures Tells(Step(cfg, hold, w, e), e.newId, e.owe.id)
  {
    hide Step, InTime, Known, AllOk, ExtractDomain, SlotOk;
    NewSlotOk(cfg, hold, w, e);
    RecordsKept(cfg, hold, w, e, e.owe.id);
    var w' := Step(cfg, hold, w, e);
    assert SlotOf(w', e.newId).record == w'.db.messages[e.newId];
  }

  lemma InvKept(cfg: Config, hold: int, w: World, e: Event)
    requires Setup(cfg, hold) && Legal(hold, w, e) && Inv(cfg, w)
    ensures Inv(cfg, Step(cfg, hold, w, e))
  {
    hide Legal, Step, Known, AllOk, Conserved, Families;
    KnownKept(cfg, hold, w, e);
    ConservedKept(cfg, hold, w, e);
    FamiliesKept(cfg, hold, w, e);
    if e.Sweep? { SweepOk(cfg, hold, w, e); } else { AllOkKept(cfg, hold, w, e); }
  }

  lemma {:induction false} InvAlways(cfg: Config, hold: int, events: seq<Event>)
    requires Setup(cfg, hold) && Run(cfg, hold, events).Some?
    ensures Inv(cfg, Run(cfg, hold, events).value)
  {
    if events == [] {
    } else {
      hide Legal, Step, Inv;
      InvAlways(cfg, hold, events[..|events| - 1]);
      InvKept(cfg, hold, Run(cfg, hold, events[..|events| - 1]).value, events[|events| - 1]);
    }
  }

  // ----- small facts about steps and weights -----

  lemma SweepMessages(cfg: Config, hold: int, w: World, e: Event)
    requires Legal(hold, w, e) && e.Sweep?
    ensures Step(cfg, hold, w, e).db.messages == w.db.messages
  {
    hide InTime;
  }

  lemma SlotKnown(cfg: Config, w: World, id: Id)
    requires Inv(cfg, w) && id in w.db.messages
    ensures SlotOk(cfg, SlotOf(w, id), w.clock)
  {
  }

  lemma NullSenderSilent()
    ensures !ShouldBounce("")
  {
  }

  lemma OneMoreTimes(n: nat, k: nat)
    ensures (n + 1) * k == n * k + k
  {
  }

  // ----- what every run guarantees -----

  lemma SetsDisjoint(cfg: Config, w: World)
    requires Known(w) && AllOk(cfg, w)
    ensures w.db.pending.Keys !! w.db.processing !! w.db.sent.Keys !! w.db.failed.Keys
  {
    hide Counted, Timed, ShouldBounce;
    forall id | id in w.db.messages ensures Placed(SlotOf(w, id)) {
      assert SlotOk(cfg, SlotOf(w, id), w.clock);
    }
  }

  /** Conservation: nothing is counted twice or lost, the four sets are disjoint, the stored status
      names the set, a waiting message has attempts left, and none exceeds its limit. */
  lemma QueueConservation(cfg: Config, hold: int, events: seq<Event>)
    requires Setup(cfg, hold) && Run(cfg, hold, events).Some?
    ensures var db := Run(cfg, hold, events).value.db;
            && |db.pending.Keys| + |db.processing| + db.stats.sent + db.stats.failed == db.stats.enqueued
            && db.pending.Keys !! db.processing !! db.sent.Keys !! db.failed.Keys
            && (forall id :: id in db.messages ==>
                  var m := db.messages[id];
                  && (id in db.pending <==> m.status.Pending? || m.status.Deferred?)
                  && (id in db.processing <==> m.status.Sending?)
                  && (id in db.sent ==> m.status.Sent?) && (id in db.failed ==> m.status.Failed?)
                  && (id in db.pending ==> m.attempts < m.maxAttempts)
                  && m.attempts <= m.maxAttempts == cfg.maxRetries)
  {
    hide Run, Timed, Families, ShouldBounce, Known;
    InvAlways(cfg, hold, events);
    var w := Run(cfg, hold, events).value;
    SetsDisjoint(cfg, w);
    forall id | id in w.db.messages ensures SlotOk(cfg, SlotOf(w, id), w.clock) && Placed(SlotOf(w, id)) {
    }
  }

  /** No message is claimed before its next attempt is due. */
  lemma NoEarlyClaim(cfg: Config, hold: int, events: seq<Event>, id: Id, at: int)
    requires Setup(cfg, hold) && Run(cfg, hold, events).Some?
    requires Legal(hold, Run(cfg, hold, events).value, Claim(id, at))
    ensures var m := Run(cfg, hold, events).value.db.messages[id]; m.nextAttempt.Some? && m.nextAttempt.value <= at
  {
    hide Run, Families, Conserved;
    InvAlways(cfg, hold, events);
    var w := Run(cfg, hold, events).value;
    assert SlotOk(cfg, SlotOf(w, id), w.clock);
  }

  /** However often it is retried, a waiting message is due no later than 25.2 hours after the
      maximum age. */
  lemma ScheduleBounded(cfg: Config, hold: int, events: seq<Event>, id: Id)
    requires Setup(cfg, hold) && Run(cfg, hold, events).Some? && id in Run(cfg, hold, events).value.db.pending
    ensures var db := Run(cfg, hold, events).value.db;
            && id in db.messages && db.messages[id].createdAt.Some? && db.messages[id].nextAttempt == Some(db.pending[id])
            && 10 * (db.pending[id] - db.messages[id].createdAt.value - cfg.retryMaxAge) <= 252 * HOUR
  {
    hide Run, Families, Conserved;
    InvAlways(cfg, hold, events);
    var w := Run(cfg, hold, events).value;
    assert SlotOk(cfg, SlotOf(w, id), w.clock);
  }

  /** In every run each queued bounce goes from the null sender to exactly one recipient: the sender
      of the message that failed, in whose domain it is delivered. */
  lemma BouncesTellTheSender(cfg: Config, hold: int, events: seq<Event>, b: Id)
    requires Setup(cfg, hold) && Run(cfg, hold, events).Some? && b in Run(cfg, hold, events).value.parent
    ensures var w := Run(cfg, hold, events).value;
            && b in w.db.messages && w.parent[b].id in w.db.messages
            && var failed := w.db.messages[w.parent[b].id];
            && w.db.messages[b].sender == "" && w.db.messages[b].recipients == [failed.sender]
            && w.db.messages[b].domain == ExtractDomain(failed.sender) && ShouldBounce(failed.sender)
  {
    hide Run, Known, AllOk, Conserved, ShouldBounce, ExtractDomain;
    InvAlways(cfg, hold, events);
    var w := Run(cfg, hold, events).value;
    assert OweOk(w, w.parent[b]);
  }
}
