/** No message is lost: any interleaving of single Redis transactions, by workers, recovery and
    administrators, with crashes between any two of them. */
module QueueNoLoss {
  import opened QueueModel

  /** One transaction, with whatever record and score its sender had computed. */
  datatype Tx =
    | Enqueue(m: Message)
    | Claim(id: Id)
    | Rollback(id: Id, score: int)
    | Update(m: Message)
    | Complete(id: Id, m: Message, now: int)
    | Retry(id: Id, m: Message)
    | Fail(id: Id, m: Message, now: int)
    | CleanSent(threshold: int)
    | CleanFailed(threshold: int)

  function Apply(db: Db, tx: Tx): Db {
    match tx
    case Enqueue(m) => EnqueueTx(db, m)
    case Claim(id) => ClaimTx(db, id)
    case Rollback(id, score) => RollbackTx(db, id, score)
    case Update(m) => UpdateTx(db, m)
    case Complete(id, m, now) => CompleteTx(db, id, m, now)
    case Retry(id, m) => RetryTx(db, id, m)
    case Fail(id, m, now) => FailTx(db, id, m, now)
    case CleanSent(threshold) => CleanSentTx(db, threshold)
    case CleanFailed(threshold) => CleanFailedTx(db, threshold)
  }

  function After(txs: seq<Tx>): Db {
    if txs == [] then EMPTY else Apply(After(txs[..|txs| - 1]), txs[|txs| - 1])
  }

  predicate Tracked(db: Db, id: Id) {
    id in db.pending || id in db.processing || id in db.sent || id in db.failed
  }

  /** The transaction is a cleanup that drops the message, which is on record as sent or failed
      at least as long ago as the threshold. */
  predicate Drops(db: Db, tx: Tx, id: Id) {
    || (tx.CleanSent? && id in db.sent && db.sent[id] <= tx.threshold)
    || (tx.CleanFailed? && id in db.failed && db.failed[id] <= tx.threshold)
  }

  lemma OnlyCleanupDrops(db: Db, tx: Tx, id: Id)
    requires Tracked(db, id) && !Tracked(Apply(db, tx), id)
    ensures Drops(db, tx, id)
  {
  }

  /** The message was recorded sent or failed by an earlier transaction. */
  predicate Ended(txs: seq<Tx>, id: Id) {
    exists k | 0 <= k < |txs| :: Ends(txs[k], id)
  }

  predicate Ends(tx: Tx, id: Id) {
    (tx.Complete? && tx.id == id) || (tx.Fail? && tx.id == id)
  }

  predicate Recorded(db: Db, id: Id) {
    id in db.sent || id in db.failed
  }

  lemma RecordedStep(db: Db, tx: Tx, id: Id)
    requires Recorded(Apply(db, tx), id) && !Ends(tx, id)
    ensures Recorded(db, id)
  {
  }

  lemma {:induction false} RecordedMeansEnded(txs: seq<Tx>, id: Id)
    requires Recorded(After(txs), id)
    ensures Ended(txs, id)
  {
    if txs == [] {
      assert false;
    } else {
      hide Apply, Recorded;
      var front, last := txs[..|txs| - 1], txs[|txs| - 1];
      assert last == txs[|txs| - 1];
      if !Ends(last, id) {
        RecordedStep(After(front), last, id);
        RecordedMeansEnded(front, id);
        var k :| 0 <= k < |front| && Ends(front[k], id);
        assert Ends(txs[k], id);
      }
    }
  }

  /** An id that was tracked after i transactions and is no more was dropped by a cleanup in
      between, and until then never missing, and on record as completed or failed. */
  lemma {:induction false} NoLoss(txs: seq<Tx>, i: nat, id: Id) returns (j: nat)
    requires i <= |txs| && Tracked(After(txs[..i]), id) && !Tracked(After(txs), id)
    ensures i <= j < |txs| && Drops(After(txs[..j]), txs[j], id) && Ended(txs[..j], id)
    ensures forall k :: i <= k <= j ==> Tracked(After(txs[..k]), id)
    decreases |txs| - i
  {
    hide Apply, Tracked, Drops, Ended;
    assert txs[..|txs|] == txs;
    assert txs[..i + 1][..i] == txs[..i];
    if Tracked(After(txs[..i + 1]), id) {
      j := NoLoss(txs, i + 1, id);
    } else {
      j := i;
      OnlyCleanupDrops(After(txs[..i]), txs[i], id);
      DroppedMeansEnded(txs[..i], txs[i], id);
    }
  }

  lemma DroppedMeansEnded(txs: seq<Tx>, tx: Tx, id: Id)
    requires Drops(After(txs), tx, id)
    ensures Ended(txs, id)
  {
    hide After, Ended;
    RecordedMeansEnded(txs, id);
  }

  /** An enqueued message is tracked from the moment it is enqueued, and its record stays. */
  lemma EnqueuedTracked(txs: seq<Tx>, i: nat)
    requires i < |txs| && txs[i].Enqueue?
    ensures Tracked(After(txs[..i + 1]), txs[i].m.id)
    ensures forall k :: i < k <= |txs| ==> txs[i].m.id in After(txs[..k]).messages
  {
    assert txs[..i + 1][..i] == txs[..i];
    forall k | i < k <= |txs| ensures txs[i].m.id in After(txs[..k]).messages {
      RecordsStay(txs, i, k);
    }
  }

  lemma RecordKept(db: Db, tx: Tx, id: Id)
    requires id in db.messages || (tx.Enqueue? && tx.m.id == id)
    ensures id in Apply(db, tx).messages
  {
  }

  lemma {:induction false} RecordsStay(txs: seq<Tx>, i: nat, k: nat)
    requires i < k <= |txs| && txs[i].Enqueue?
    ensures txs[i].m.id in After(txs[..k]).messages
    decreases k
  {
    hide Apply;
    assert txs[..k][..k - 1] == txs[..k - 1];
    if i < k - 1 {
      RecordsStay(txs, i, k - 1);
    }
    RecordKept(After(txs[..k - 1]), txs[k - 1], txs[i].m.id);
  }

  // ----- when the four sets stay disjoint -----

  predicate Disjoint(db: Db) {
    db.pending.Keys !! db.processing !! db.sent.Keys !! db.failed.Keys
  }

  /** The sets in which the transaction's message must not be when it commits. */
  predicate Safe(db: Db, tx: Tx) {
    match tx
    case Enqueue(m) => m.id !in db.processing && !Recorded(db, m.id)
    case Claim(id) => !Recorded(db, id)
    case Rollback(id, _) => !Recorded(db, id)
    case Retry(id, _) => !Recorded(db, id)
    case Complete(id, _, _) => id !in db.pending && id !in db.failed
    case Fail(id, _, _) => id !in db.pending && id !in db.sent
    case Update(_) => true
    case CleanSent(_) => true
    case CleanFailed(_) => true
  }

  /** Of each transaction, exactly when it keeps a message from being in two sets at once. */
  lemma DisjointStep(db: Db, tx: Tx)
    requires Disjoint(db)
    ensures Disjoint(Apply(db, tx)) <==> Safe(db, tx)
  {
    var db' := Apply(db, tx);
    match tx
    case Enqueue(m) => assert m.id in db'.pending;
    case Claim(id) => assert id in db'.processing;
    case Rollback(id, _) => assert id in db'.pending;
    case Retry(id, _) => assert id in db'.pending;
    case Complete(id, _, _) => assert id in db'.sent;
    case Fail(id, _, _) => assert id in db'.failed;
    case Update(_) =>
    case CleanSent(_) =>
    case CleanFailed(_) =>
  }

  /** The sets are disjoint after every transaction of the run. */
  predicate AlwaysDisjoint(txs: seq<Tx>) {
    Disjoint(After(txs)) && (txs == [] || AlwaysDisjoint(txs[..|txs| - 1]))
  }

  /** Every transaction of the run finds its message where it may take it from. */
  predicate AlwaysSafe(txs: seq<Tx>) {
    txs == [] || (AlwaysSafe(txs[..|txs| - 1]) && Safe(After(txs[..|txs| - 1]), txs[|txs| - 1]))
  }

  /** In any interleaving, no message is ever in two sets exactly when every transaction commits
      while its message is where that transaction may take it from. */
  lemma {:induction false} DisjointExactly(txs: seq<Tx>)
    ensures AlwaysDisjoint(txs) <==> AlwaysSafe(txs)
  {
    if txs == [] {
    } else {
      hide Disjoint, Safe, Apply;
      var front, last := txs[..|txs| - 1], txs[|txs| - 1];
      DisjointExactly(front);
      if AlwaysDisjoint(front) { DisjointStep(After(front), last); }
    }
  }

  // ----- two runs in which they do not -----

  lemma AfterOne(txs: seq<Tx>, tx: Tx)
    ensures After(txs + [tx]) == Apply(After(txs), tx)
  {
    assert (txs + [tx])[..|txs|] == txs;
  }

  /** Two workers read one candidate; the second moves it after the first has completed it, and
      the message is recorded sent and in processing again. */
  lemma LateClaimTakesSentMessage(m: Message, now: int)
    ensures var db := After([Enqueue(m)] + [Claim(m.id)] + [Complete(m.id, m, now)] + [Claim(m.id)]);
            m.id in db.sent && m.id in db.processing
  {
    hide After;
    AfterOne([Enqueue(m)], Claim(m.id));
    AfterOne([Enqueue(m)] + [Claim(m.id)], Complete(m.id, m, now));
    AfterOne([Enqueue(m)] + [Claim(m.id)] + [Complete(m.id, m, now)], Claim(m.id));
  }

  /** An administrator's retry of a failed message leaves it in failed while it waits again. */
  lemma AdminRetryInTwoSets(m: Message, now: int)
    ensures var db := After([Enqueue(m)] + [Claim(m.id)] + [Fail(m.id, m, now)] + [Enqueue(m)]);
            m.id in db.failed && m.id in db.pending
  {
    hide After;
    AfterOne([Enqueue(m)], Claim(m.id));
    AfterOne([Enqueue(m)] + [Claim(m.id)], Fail(m.id, m, now));
    AfterOne([Enqueue(m)] + [Claim(m.id)] + [Fail(m.id, m, now)], Enqueue(m));
  }

  // ----- the operations are such transactions -----

  /** What a successful operation leaves behind is reached by transactions of the run. */
  lemma OperationsAreTransactions(cfg: Config, db: Db, id: Id, text: string, now: int, nano: nat)
    requires id in db.messages
    ensures var m := db.messages[id];
            && Claimed(db, id, now) == Apply(Apply(db, Claim(id)), Update(Started(m, now)))
            && Completed(db, id, now) == Apply(db, Complete(id, m.(status := Sent), now))
            && GivenUp(db, id, text, now) == Apply(db, Fail(id, m.(status := Failed, lastError := text), now))
            && Retried(cfg, db, id, text, now, nano) ==
               var m' := Rescheduled(cfg, m, text, now, nano);
               Apply(db, if Hopeless(cfg, m, now) then Fail(id, m', now) else Retry(id, m'))
  {
    hide Backoff;
  }

  /** Recovery of stale messages drops nothing, and puts each of them in pending or failed. */
  lemma RecoveryKeeps(cfg: Config, db: Db, ids: set<Id>, text: string, now: int, nanos: Id -> nat, id: Id)
    requires ids <= db.messages.Keys
    ensures var db' := RetriedAll(cfg, db, ids, text, now, nanos);
            && (Tracked(db, id) ==> Tracked(db', id))
            && (id in ids ==> id !in db'.processing && (id in db'.pending || id in db'.failed))
  {
    hide Backoff, Hopeless, Rescheduled;
  }
}
