/** Messages, the Redis keys of the queue, its transactions and the retry schedule
    (internal/queue/redis.go). Times are nanoseconds; None is Go's zero time. */
module QueueModel {
  import opened Wrappers

  type Id = string

  datatype Status = Pending | Sending | Sent | Failed | Deferred | Bounced

  datatype Message = Message(id: Id, sender: string, recipients: seq<string>, path: string, size: int,
                             attempts: int, maxAttempts: int, lastAttempt: Option<int>, nextAttempt: Option<int>,
                             lastError: string, status: Status, createdAt: Option<int>, domain: string)

  datatype Stats = Stats(enqueued: int, sent: int, failed: int, retried: int)

  /** Sorted sets map members to scores. */
  datatype Db = Db(pending: map<Id, int>, processing: set<Id>, sent: map<Id, int>, failed: map<Id, int>,
                   messages: map<Id, Message>, stats: Stats)

  const EMPTY := Db(map[], {}, map[], map[], map[], Stats(0, 0, 0, 0))

  datatype Config = Config(maxRetries: int, retryMaxAge: int)

  const MINUTE: nat := 60_000_000_000
  const HOUR: nat := 60 * MINUTE

  // ----- transactions -----

  function Score(m: Message): int {
    if m.nextAttempt.Some? then m.nextAttempt.value else 0
  }

  function EnqueueTx(db: Db, m: Message): Db {
    db.(messages := db.messages[m.id := m], pending := db.pending[m.id := Score(m)],
        stats := db.stats.(enqueued := db.stats.enqueued + 1))
  }

  function ClaimTx(db: Db, id: Id): Db {
    db.(pending := db.pending - {id}, processing := db.processing + {id})
  }

  function RollbackTx(db: Db, id: Id, score: int): Db {
    db.(processing := db.processing - {id}, pending := db.pending[id := score])
  }

  function UpdateTx(db: Db, m: Message): Db {
    db.(messages := db.messages[m.id := m])
  }

  function CompleteTx(db: Db, id: Id, m: Message, now: int): Db {
    db.(processing := db.processing - {id}, sent := db.sent[id := now], messages := db.messages[id := m],
        stats := db.stats.(sent := db.stats.sent + 1))
  }

  function RetryTx(db: Db, id: Id, m: Message): Db {
    db.(processing := db.processing - {id}, pending := db.pending[id := Score(m)],
        messages := db.messages[id := m], stats := db.stats.(retried := db.stats.retried + 1))
  }

  function FailTx(db: Db, id: Id, m: Message, now: int): Db {
    db.(processing := db.processing - {id}, failed := db.failed[id := now], messages := db.messages[id := m],
        stats := db.stats.(failed := db.stats.failed + 1))
  }

  function CleanSentTx(db: Db, threshold: int): Db {
    db.(sent := map id | id in db.sent && db.sent[id] > threshold :: db.sent[id])
  }

  function CleanFailedTx(db: Db, threshold: int): Db {
    db.(failed := map id | id in db.failed && db.failed[id] > threshold :: db.failed[id])
  }

  /** Undoing a claim of a message nobody was processing restores the queue exactly. */
  lemma RollbackRestores(db: Db, id: Id)
    requires id in db.pending && id !in db.processing
    ensures RollbackTx(ClaimTx(db, id), id, db.pending[id]) == db
  {
    assert (db.pending - {id})[id := db.pending[id]] == db.pending;
    assert db.processing + {id} - {id} == db.processing;
  }

  // ----- operations -----

  /** The message as Enqueue stores it. */
  function Prepared(cfg: Config, m: Message, freshId: Id, now: int): Message {
    m.(id := if m.id == "" then freshId else m.id,
       createdAt := if m.createdAt.None? then Some(now) else m.createdAt,
       nextAttempt := if m.nextAttempt.None? then Some(now) else m.nextAttempt,
       maxAttempts := if m.maxAttempts == 0 then cfg.maxRetries else m.maxAttempts,
       status := Pending)
  }

  /** The candidate Dequeue reads: due, and none is due earlier. */
  predicate Next(db: Db, id: Id, now: int) {
    id in db.pending && db.pending[id] <= now && forall other :: other in db.pending ==> db.pending[id] <= db.pending[other]
  }

  function Started(m: Message, now: int): Message {
    m.(status := Sending, attempts := m.attempts + 1, lastAttempt := Some(now))
  }

  function Claimed(db: Db, id: Id, now: int): Db
    requires id in db.messages
  {
    UpdateTx(ClaimTx(db, id), Started(db.messages[id], now))
  }

  function Completed(db: Db, id: Id, now: int): Db
    requires id in db.messages
  {
    CompleteTx(db, id, db.messages[id].(status := Sent), now)
  }

  function GivenUp(db: Db, id: Id, reason: string, now: int): Db
    requires id in db.messages
  {
    FailTx(db, id, db.messages[id].(status := Failed, lastError := reason), now)
  }

  predicate Exhausted(m: Message) {
    m.attempts >= m.maxAttempts
  }

  predicate Expired(cfg: Config, m: Message, now: int) {
    m.createdAt.None? || now - m.createdAt.value > cfg.retryMaxAge
  }

  /** Retry gives up on an exhausted or expired message. */
  function Retried(cfg: Config, db: Db, id: Id, error: string, now: int, nano: nat): Db
    requires id in db.messages
  {
    var m := db.messages[id];
    if Exhausted(m) then GivenUp(db, id, "max attempts exceeded", now)
    else if Expired(cfg, m, now) then GivenUp(db, id, "message expired", now)
    else RetryTx(db, id, m.(lastError := error, nextAttempt := Some(now + Backoff(m.attempts, nano)), status := Deferred))
  }

  predicate Stale(m: Message, threshold: int, now: int) {
    m.lastAttempt.None? || now - m.lastAttempt.value > threshold
  }

  predicate Hopeless(cfg: Config, m: Message, now: int) {
    Exhausted(m) || Expired(cfg, m, now)
  }

  /** The record of a message after a retry or the failure that takes its place. */
  function Rescheduled(cfg: Config, m: Message, error: string, now: int, nano: nat): Message {
    if Exhausted(m) then m.(status := Failed, lastError := "max attempts exceeded")
    else if Expired(cfg, m, now) then m.(status := Failed, lastError := "message expired")
    else m.(lastError := error, nextAttempt := Some(now + Backoff(m.attempts, nano)), status := Deferred)
  }

  /** Those of a set of messages that a retry fails for good. */
  function Lost(cfg: Config, messages: map<Id, Message>, ids: set<Id>, now: int): set<Id>
    requires ids <= messages.Keys
  {
    set id | id in ids && Hopeless(cfg, messages[id], now)
  }

  function RescheduledAll(cfg: Config, messages: map<Id, Message>, ids: set<Id>, error: string, now: int,
                          nanos: Id -> nat): map<Id, Message>
  {
    map id | id in messages ::
      if id in ids then Rescheduled(cfg, messages[id], error, now, nanos(id)) else messages[id]
  }

  function PendingAll(cfg: Config, db: Db, ids: set<Id>, now: int, nanos: Id -> nat): map<Id, int>
    requires ids <= db.messages.Keys
  {
    db.pending + map id | id in ids - Lost(cfg, db.messages, ids, now)
                 :: now + Backoff(db.messages[id].attempts, nanos(id))
  }

  function FailedAll(cfg: Config, db: Db, ids: set<Id>, now: int): map<Id, int>
    requires ids <= db.messages.Keys
  {
    db.failed + map id | id in Lost(cfg, db.messages, ids, now) :: now
  }

  function StatsAll(cfg: Config, db: Db, ids: set<Id>, now: int): Stats
    requires ids <= db.messages.Keys
  {
    var lost := Lost(cfg, db.messages, ids, now);
    db.stats.(failed := db.stats.failed + |lost|, retried := db.stats.retried + |ids - lost|)
  }

  /** Retrying a set of messages, all at once. */
  function RetriedAll(cfg: Config, db: Db, ids: set<Id>, error: string, now: int, nanos: Id -> nat): Db
    requires ids <= db.messages.Keys
  {
    Db(PendingAll(cfg, db, ids, now, nanos), db.processing - ids, db.sent, FailedAll(cfg, db, ids, now),
       RescheduledAll(cfg, db.messages, ids, error, now, nanos), StatsAll(cfg, db, ids, now))
  }

  lemma RetriedNone(cfg: Config, db: Db, error: string, now: int, nanos: Id -> nat)
    ensures RetriedAll(cfg, db, {}, error, now, nanos) == db
  {
    hide Hopeless, Rescheduled, Backoff;
    assert db.processing - {} == db.processing;
  }

  lemma RescheduledOneMore(cfg: Config, messages: map<Id, Message>, ids: set<Id>, id: Id, error: string, now: int,
                           nanos: Id -> nat)
    requires id in messages && id !in ids
    ensures var some := RescheduledAll(cfg, messages, ids, error, now, nanos);
            && some.Keys == messages.Keys && some[id] == messages[id]
            && some[id := Rescheduled(cfg, messages[id], error, now, nanos(id))]
               == RescheduledAll(cfg, messages, ids + {id}, error, now, nanos)
  {
    hide Rescheduled;
  }

  lemma LostOneMore(cfg: Config, messages: map<Id, Message>, ids: set<Id>, id: Id, now: int)
    requires ids <= messages.Keys && id in messages && id !in ids
    ensures var lost, lost' := Lost(cfg, messages, ids, now), Lost(cfg, messages, ids + {id}, now);
            && lost' == (if Hopeless(cfg, messages[id], now) then lost + {id} else lost)
            && (ids + {id}) - lost' == (if Hopeless(cfg, messages[id], now) then ids - lost else ids - lost + {id})
            && id !in lost && lost <= ids
  {
    hide Hopeless;
  }

  lemma PendingOneMore(cfg: Config, db: Db, ids: set<Id>, id: Id, now: int, nanos: Id -> nat)
    requires ids <= db.messages.Keys && id in db.messages && id !in ids
    ensures PendingAll(cfg, db, ids + {id}, now, nanos) ==
            var before := PendingAll(cfg, db, ids, now, nanos);
            if Hopeless(cfg, db.messages[id], now) then before
            else before[id := now + Backoff(db.messages[id].attempts, nanos(id))]
  {
    hide Backoff, Lost, Hopeless;
    LostOneMore(cfg, db.messages, ids, id, now);
  }

  lemma FailedOneMore(cfg: Config, db: Db, ids: set<Id>, id: Id, now: int)
    requires ids <= db.messages.Keys && id in db.messages && id !in ids
    ensures FailedAll(cfg, db, ids + {id}, now) ==
            var before := FailedAll(cfg, db, ids, now);
            if Hopeless(cfg, db.messages[id], now) then before[id := now] else before
  {
    hide Lost, Hopeless;
    LostOneMore(cfg, db.messages, ids, id, now);
  }

  lemma StatsOneMore(cfg: Config, db: Db, ids: set<Id>, id: Id, now: int)
    requires ids <= db.messages.Keys && id in db.messages && id !in ids
    ensures StatsAll(cfg, db, ids + {id}, now) ==
            var before := StatsAll(cfg, db, ids, now);
            if Hopeless(cfg, db.messages[id], now) then before.(failed := before.failed + 1)
            else before.(retried := before.retried + 1)
  {
    hide Lost, Hopeless;
    LostOneMore(cfg, db.messages, ids, id, now);
  }

  lemma RetriedParts(cfg: Config, db: Db, id: Id, error: string, now: int, nano: nat)
    requires id in db.messages
    ensures Retried(cfg, db, id, error, now, nano) ==
            var messages := db.messages[id := Rescheduled(cfg, db.messages[id], error, now, nano)];
            if Hopeless(cfg, db.messages[id], now) then
              Db(db.pending, db.processing - {id}, db.sent, db.failed[id := now], messages,
                 db.stats.(failed := db.stats.failed + 1))
            else
              Db(db.pending[id := now + Backoff(db.messages[id].attempts, nano)], db.processing - {id}, db.sent,
                 db.failed, messages, db.stats.(retried := db.stats.retried + 1))
  {
    hide Backoff;
  }

  /** Retrying one more is retrying it after the others, so the order does not matter. */
  lemma RetriedOneMore(cfg: Config, db: Db, ids: set<Id>, id: Id, error: string, now: int, nanos: Id -> nat)
    requires ids <= db.messages.Keys && id in db.messages && id !in ids
    ensures var some := RetriedAll(cfg, db, ids, error, now, nanos);
            && some.messages.Keys == db.messages.Keys && some.messages[id] == db.messages[id]
            && Retried(cfg, some, id, error, now, nanos(id)) == RetriedAll(cfg, db, ids + {id}, error, now, nanos)
  {
    hide Backoff, RescheduledAll, Rescheduled, PendingAll, FailedAll, StatsAll, Hopeless, Retried;
    RescheduledOneMore(cfg, db.messages, ids, id, error, now, nanos);
    PendingOneMore(cfg, db, ids, id, now, nanos);
    FailedOneMore(cfg, db, ids, id, now);
    StatsOneMore(cfg, db, ids, id, now);
    RetriedParts(cfg, RetriedAll(cfg, db, ids, error, now, nanos), id, error, now, nanos(id));
    assert db.processing - ids - {id} == db.processing - (ids + {id});
  }

  // ----- retry schedule -----

  const INTERVALS: seq<nat> :=
    [5 * MINUTE, 15 * MINUTE, 30 * MINUTE, 1 * HOUR, 2 * HOUR, 4 * HOUR, 8 * HOUR, 16 * HOUR, 24 * HOUR]

  function Tier(attempts: int): (idx: nat)
    ensures idx < |INTERVALS|
  {
    if attempts - 1 < 0 then 0 else if attempts - 1 >= |INTERVALS| then |INTERVALS| - 1 else attempts - 1
  }

  /** The delay before the next attempt; `nano` is the clock reading that supplies the jitter. */
  function Backoff(attempts: int, nano: nat): int {
    var base := INTERVALS[Tier(attempts)];
    var jitterRange := base / 10;
    if jitterRange > 0 then base + (nano % jitterRange - jitterRange / 2) else base
  }

  /** A delay is within five percent of its tier. */
  lemma BackoffNearTier(attempts: int, nano: nat)
    ensures var base := INTERVALS[Tier(attempts)];
            95 * base <= 100 * Backoff(attempts, nano) <= 105 * base
    ensures 0 < Backoff(attempts, nano) <= 25 * HOUR + HOUR / 5
  {
    var base := INTERVALS[Tier(attempts)];
    TierRange(Tier(attempts));
    assert 0 <= nano % (base / 10) < base / 10;
  }

  lemma TierRange(t: nat)
    requires t < |INTERVALS|
    ensures 5 * MINUTE <= INTERVALS[t] <= 24 * HOUR && INTERVALS[t] % 20 == 0
  {
  }

  /** Whatever the jitter, a later tier waits longer; past the last tier the tier stays. */
  lemma BackoffGrows(attempts: int, more: int, nano: nat, nano': nat)
    requires attempts < more
    ensures Tier(attempts) < Tier(more) ==> Backoff(attempts, nano) < Backoff(more, nano')
    ensures Tier(attempts) == Tier(more) <==> more <= 1 || attempts >= |INTERVALS|
  {
    hide Backoff;
    BackoffNearTier(attempts, nano);
    BackoffNearTier(more, nano');
    if Tier(attempts) < Tier(more) {
      TiersApart(Tier(attempts), Tier(more));
    }
  }

  lemma TiersApart(t: nat, u: nat)
    requires t < u < |INTERVALS|
    ensures 105 * INTERVALS[t] < 95 * INTERVALS[u]
  {
  }
}
