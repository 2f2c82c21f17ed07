/** The queue operations, each against the transactions it commits (internal/queue/redis.go). */
module RedisQueue {
  import opened Wrappers
  import opened QueueModel

  datatype QueueError = Closed | NotFound | RedisError

  /** How the execution of a pipeline ends; an error leaves the keys as they were. */
  datatype Exec = Done | Transient | Hard

  /** Which steps of a Dequeue fail. */
  datatype Faults = Faults(query: bool, move: bool, get: bool, update: bool, rollback: bool)

  const MAX_TRIES := 3

  /** One of the tries succeeds, and every earlier one fails in a way worth repeating. */
  predicate EventuallyDone(exec: nat -> Exec) {
    exists k: nat | k < MAX_TRIES :: exec(k).Done? && forall j: nat | j < k :: exec(j).Transient?
  }

  /** An enqueue survives up to two transient errors in a row. */
  lemma ThreeTries(exec: nat -> Exec)
    ensures EventuallyDone(exec) <==>
            exec(0).Done? || (exec(0).Transient? && (exec(1).Done? || (exec(1).Transient? && exec(2).Done?)))
  {
    assert MAX_TRIES == 3;
    assert exec(2).Done? ==> 2 < MAX_TRIES;
  }

  /** The members of processing that RecoverStale puts back. */
  function Stuck(db: Db, threshold: int, now: int, fails: Id -> bool): set<Id> {
    set id | id in db.processing && id in db.messages && Stale(db.messages[id], threshold, now) && !fails(id)
  }

  /** Looking at one more member, which may be stuck. */
  lemma StuckOneMore(db: Db, threshold: int, now: int, fails: Id -> bool, left: set<Id>, id: Id)
    requires id in left && left <= db.processing
    ensures var stuck := Stuck(db, threshold, now, fails);
            && id !in stuck - left && id !in left - {id}
            && stuck - (left - {id}) ==
               if id in db.messages && !fails(id) && Stale(db.messages[id], threshold, now) then stuck - left + {id}
               else stuck - left
  {
    hide Stale;
  }

  lemma StuckKnown(db: Db, threshold: int, now: int, fails: Id -> bool)
    ensures Stuck(db, threshold, now, fails) <= db.messages.Keys
    ensures Stuck(db, threshold, now, fails) <= db.processing
  {
  }

  lemma RetriedOthers(cfg: Config, db: Db, ids: set<Id>, id: Id, error: string, now: int, nanos: Id -> nat)
    requires ids <= db.messages.Keys && id !in ids
    ensures var db' := RetriedAll(cfg, db, ids, error, now, nanos);
            && db'.messages.Keys == db.messages.Keys && (id in db.messages ==> db'.messages[id] == db.messages[id])
            && db'.processing == db.processing - ids
  {
    hide Rescheduled;
  }

  class RedisQueue {
    const config: Config
    var closed: bool
    var pending: map<Id, int>
    var processing: set<Id>
    var sent: map<Id, int>
    var failed: map<Id, int>
    var messages: map<Id, Message>
    var stats: Stats

    constructor (config: Config)
      ensures this.config == config && !closed && View() == EMPTY
    {
      this.config := config;
      closed := false;
      pending, processing, sent, failed, messages := map[], {}, map[], map[], map[];
      stats := Stats(0, 0, 0, 0);
    }

    function View(): Db
      reads this
    {
      Db(pending, processing, sent, failed, messages, stats)
    }

    /** On success the transaction ran exactly once, on an error not at all. */
    method Enqueue(m: Message, freshId: Id, now: int, exec: nat -> Exec) returns (r: Result<Message, QueueError>)
      modifies this
      ensures closed == old(closed)
      ensures r.Ok? <==> !closed && EventuallyDone(exec)
      ensures r.Ok? ==> r.value == Prepared(config, m, freshId, now) && View() == EnqueueTx(old(View()), r.value)
      ensures r.Err? ==> View() == old(View())
    {
      if closed {
        return Err(Closed);
      }
      var msg := m;
      if msg.id == "" {
        msg := msg.(id := freshId);
      }
      if msg.createdAt.None? {
        msg := msg.(createdAt := Some(now));
      }
      if msg.nextAttempt.None? {
        msg := msg.(nextAttempt := Some(now));
      }
      if msg.maxAttempts == 0 {
        msg := msg.(maxAttempts := config.maxRetries);
      }
      msg := msg.(status := Pending);
      for attempt: nat := 0 to MAX_TRIES
        invariant View() == old(View()) && closed == old(closed)
        invariant forall j: nat | j < attempt :: exec(j).Transient?
      {
        var outcome := exec(attempt);
        if outcome == Done {
          messages := messages[msg.id := msg];
          pending := pending[msg.id := Score(msg)];
          stats := stats.(enqueued := stats.enqueued + 1);
          return Ok(msg);
        }
        if outcome != Transient {
          return Err(RedisError);
        }
      }
      r := Err(RedisError);
    }

    /** The earliest due message moves to processing and is marked; a failure on the way is
        rolled back, and only a failing rollback leaves the message in processing. */
    method Dequeue(now: int, faults: Faults) returns (r: Result<Option<Message>, QueueError>)
      modifies this
      ensures closed == old(closed)
      ensures r.Ok? && r.value.Some? ==>
                exists id :: Next(old(View()), id, now) && id in old(messages)
                             && View() == Claimed(old(View()), id, now) && r.value.value == Started(old(messages)[id], now)
      ensures r.Ok? && r.value.None? ==> View() == old(View()) && forall id :: id in pending ==> pending[id] > now
      ensures r.Err? ==>
                || View() == old(View())
                || exists id :: Next(old(View()), id, now)
                                && View() == if faults.rollback then ClaimTx(old(View()), id)
                                             else RollbackTx(ClaimTx(old(View()), id), id, old(pending)[id])
      ensures closed ==> r == Err(Closed)
      ensures !closed && faults == Faults(false, false, false, false, false) && pending.Keys <= messages.Keys ==> r.Ok?
    {
      hide Started;
      if closed {
        return Err(Closed);
      }
      if faults.query {
        return Err(RedisError);
      }
      var candidate := First(now);
      if candidate.None? {
        return Ok(None);
      }
      var msgId := candidate.value;
      var score := pending[msgId];
      if faults.move {
        return Err(RedisError);
      }
      pending, processing := pending - {msgId}, processing + {msgId};
      if faults.get || msgId !in messages {
        if !faults.rollback {
          processing, pending := processing - {msgId}, pending[msgId := score];
        }
        return Err(if faults.get then RedisError else NotFound);
      }
      var msg := Started(messages[msgId], now);
      if faults.update {
        if !faults.rollback {
          processing, pending := processing - {msgId}, pending[msgId := score];
        }
        return Err(RedisError);
      }
      messages := messages[msg.id := msg];
      r := Ok(Some(msg));
    }

    /** The member of least score, if that is due. */
    method First(now: int) returns (r: Option<Id>)
      ensures r.Some? ==> Next(View(), r.value, now)
      ensures r.None? ==> forall id :: id in pending ==> pending[id] > now
    {
      r := None;
      var left := pending.Keys;
      while left != {}
        invariant left <= pending.Keys
        invariant r.Some? ==>
                    r.value in pending && pending[r.value] <= now
                    && forall id :: id in pending && id !in left ==> pending[r.value] <= pending[id]
        invariant r.None? ==> forall id :: id in pending && id !in left ==> pending[id] > now
        decreases |left|
      {
        var id :| id in left;
        left := left - {id};
        if pending[id] <= now && (r.None? || pending[id] < pending[r.value]) {
          r := Some(id);
        }
      }
    }

    method Complete(id: Id, now: int, getFails: bool, execFails: bool) returns (r: Result<(), QueueError>)
      modifies this
      ensures closed == old(closed)
      ensures r.Ok? <==> !closed && !getFails && id in old(messages) && !execFails
      ensures View() == if r.Ok? then Completed(old(View()), id, now) else old(View())
    {
      if closed {
        return Err(Closed);
      }
      if getFails || id !in messages {
        return Err(if getFails then RedisError else NotFound);
      }
      var msg := messages[id].(status := Sent);
      if execFails {
        return Err(RedisError);
      }
      processing := processing - {id};
      sent := sent[id := now];
      stats := stats.(sent := stats.sent + 1);
      messages := messages[id := msg];
      r := Ok(());
    }

    /** Fail does not look at the closed flag. */
    method Fail(id: Id, reason: string, now: int, getFails: bool, execFails: bool) returns (r: Result<(), QueueError>)
      modifies this
      ensures closed == old(closed)
      ensures r.Ok? <==> !getFails && id in old(messages) && !execFails
      ensures View() == if r.Ok? then GivenUp(old(View()), id, reason, now) else old(View())
    {
      if getFails || id !in messages {
        return Err(if getFails then RedisError else NotFound);
      }
      var msg := messages[id].(status := Failed, lastError := reason);
      if execFails {
        return Err(RedisError);
      }
      processing := processing - {id};
      failed := failed[id := now];
      stats := stats.(failed := stats.failed + 1);
      messages := messages[id := msg];
      r := Ok(());
    }

    /** Retry does not look at the closed flag either. */
    method Retry(id: Id, error: string, now: int, nano: nat, getFails: bool, execFails: bool)
      returns (r: Result<(), QueueError>)
      modifies this
      ensures closed == old(closed)
      ensures r.Ok? <==> !getFails && id in old(messages) && !execFails
      ensures View() == if r.Ok? then Retried(config, old(View()), id, error, now, nano) else old(View())
    {
      if getFails || id !in messages {
        return Err(if getFails then RedisError else NotFound);
      }
      var msg := messages[id].(lastError := error);
      if msg.attempts >= msg.maxAttempts {
        r := Fail(id, "max attempts exceeded", now, getFails, execFails);
        return;
      }
      if msg.createdAt.None? || now - msg.createdAt.value > config.retryMaxAge {
        r := Fail(id, "message expired", now, getFails, execFails);
        return;
      }
      var delay := CalculateNextRetry(msg.attempts, nano);
      msg := msg.(nextAttempt := Some(now + delay), status := Deferred);
      if execFails {
        return Err(RedisError);
      }
      processing := processing - {id};
      pending := pending[id := Score(msg)];
      stats := stats.(retried := stats.retried + 1);
      messages := messages[id := msg];
      r := Ok(());
    }

    method CalculateNextRetry(attempts: int, nano: nat) returns (delay: int)
      ensures delay == Backoff(attempts, nano)
    {
      var intervals := INTERVALS;
      var idx := attempts - 1;
      if idx < 0 {
        idx := 0;
      }
      if idx >= |intervals| {
        idx := |intervals| - 1;
      }
      delay := intervals[idx];
      var jitterRange := delay / 10;
      if jitterRange > 0 {
        var jitter := nano % jitterRange - jitterRange / 2;
        delay := delay + jitter;
      }
    }

    /** Every stale message whose commands go through is retried, whatever order the members come in. */
    method RecoverStale(threshold: int, now: int, nanos: Id -> nat, listFails: bool, fails: Id -> bool)
      returns (r: Result<int, QueueError>)
      modifies this
      ensures closed == old(closed)
      ensures r.Err? <==> listFails
      ensures r.Err? ==> View() == old(View())
      ensures r.Ok? ==>
                var stuck := Stuck(old(View()), threshold, now, fails);
                View() == RetriedAll(config, old(View()), stuck, "worker timeout", now, nanos) && r.value == |stuck|
    {
      hide RetriedAll, Retried, Stuck, Stale;
      if listFails {
        return Err(RedisError);
      }
      ghost var start := View();
      ghost var stuck := Stuck(start, threshold, now, fails);
      StuckKnown(start, threshold, now, fails);
      RetriedNone(config, start, "worker timeout", now, nanos);
      var left := processing;
      var recovered := 0;
      assert stuck - left == {};
      while left != {}
        invariant closed == old(closed) && recovered == |stuck - left|
        invariant left <= start.processing
        invariant View() == RetriedAll(config, start, stuck - left, "worker timeout", now, nanos)
        decreases |left|
      {
        var id :| id in left;
        StuckOneMore(start, threshold, now, fails, left, id);
        var again := RecoverOne(id, threshold, now, nanos, fails(id), start, stuck - left);
        left := left - {id};
        recovered := recovered + if again then 1 else 0;
      }
      assert stuck - left == stuck;
      r := Ok(recovered);
    }

    /** One member of processing, after others were retried. */
    method RecoverOne(id: Id, threshold: int, now: int, nanos: Id -> nat, fails: bool, ghost start: Db, ghost done: set<Id>)
      returns (again: bool)
      requires done <= start.messages.Keys && id !in done
      requires View() == RetriedAll(config, start, done, "worker timeout", now, nanos)
      modifies this
      ensures closed == old(closed)
      ensures again <==> !fails && id in start.messages && Stale(start.messages[id], threshold, now)
      ensures View() == RetriedAll(config, start, if again then done + {id} else done, "worker timeout", now, nanos)
    {
      hide RetriedAll, Retried;
      RetriedOthers(config, start, done, id, "worker timeout", now, nanos);
      again := false;
      if !fails && id in messages {
        if messages[id].lastAttempt.None? || now - messages[id].lastAttempt.value > threshold {
          RetriedOneMore(config, start, done, id, "worker timeout", now, nanos);
          var retried := Retry(id, "worker timeout", now, nanos(id), false, false);
          again := true;
        }
      }
    }

    method Cleanup(olderThan: int, now: int, sentFails: bool, failedFails: bool) returns (r: Result<(), QueueError>)
      modifies this
      ensures closed == old(closed)
      ensures r.Ok? <==> !closed && !sentFails && !failedFails
      ensures View() ==
              var threshold := now - olderThan;
              if closed || sentFails then old(View())
              else if failedFails then CleanSentTx(old(View()), threshold)
              else CleanFailedTx(CleanSentTx(old(View()), threshold), threshold)
    {
      if closed {
        return Err(Closed);
      }
      var threshold := now - olderThan;
      if sentFails {
        return Err(RedisError);
      }
      sent := map id | id in sent && !(sent[id] <= threshold) :: sent[id];
      if failedFails {
        return Err(RedisError);
      }
      failed := map id | id in failed && !(failed[id] <= threshold) :: failed[id];
      r := Ok(());
    }
  }
}
