/** The outbound delivery engine (internal/smtp/delivery/delivery.go): one attempt, and what it
    does to the queue, the breaker of the domain, the files and the counters. */
module Delivery {
  import opened Wrappers
  import opened Strings
  import CB = CircuitBreaker
  import opened DeliveryErrors
  import MX = MxResolver
  import opened QueueModel
  import opened RedisQueue
  import QueueRuns

  // ----- the walk over the hosts -----

  function AddressesOf(h: MX.MXHost): seq<(string, string)> {
    seq(|h.addresses|, i requires 0 <= i < |h.addresses| => (h.addresses[i], h.host))
  }

  /** All addresses with their hosts, in the order of the hosts. */
  function Flat(hosts: seq<MX.MXHost>): seq<(string, string)> {
    if hosts == [] then [] else Flat(hosts[..|hosts| - 1]) + AddressesOf(hosts[|hosts| - 1])
  }

  /** An outcome that ends the walk: None is an accepted message. */
  predicate Decisive(outcome: Option<GoError>) {
    outcome.None? || IsPermanentError(outcome.value)
  }

  /** What comes of a contact, given how many came before it, the address and the host. */
  type Contact = (nat, string, string) -> Option<GoError>

  function Answer(route: seq<(string, string)>, deliver: Contact, j: nat): Option<GoError>
    requires j < |route|
  {
    deliver(j, route[j].0, route[j].1)
  }

  /** The walk made so many contacts along the route, stopping at the first decisive outcome. */
  predicate Walked(route: seq<(string, string)>, deliver: Contact, err: Option<GoError>, contacts: nat) {
    && contacts <= |route|
    && (forall j: nat | j + 1 < contacts :: !Decisive(Answer(route, deliver, j)))
    && if contacts > 0 && Decisive(Answer(route, deliver, contacts - 1)) then err == Answer(route, deliver, contacts - 1)
       else contacts == |route|
            && err == Some(AllFailed(if route == [] then None else Answer(route, deliver, |route| - 1)))
  }

  /** No contact so far was decisive, and the last failure is remembered. */
  predicate Undecided(route: seq<(string, string)>, deliver: Contact, contacts: nat, lastErr: Option<GoError>) {
    && contacts <= |route|
    && (forall j: nat | j < contacts :: !Decisive(Answer(route, deliver, j)))
    && lastErr == if contacts == 0 then None else Answer(route, deliver, contacts - 1)
  }

  lemma OneMoreContact(route: seq<(string, string)>, deliver: Contact, contacts: nat, lastErr: Option<GoError>)
    requires Undecided(route, deliver, contacts, lastErr) && contacts < |route|
    ensures var answer := Answer(route, deliver, contacts);
            && (Decisive(answer) ==> Walked(route, deliver, answer, contacts + 1))
            && (!Decisive(answer) ==> Undecided(route, deliver, contacts + 1, answer))
  {
    hide Decisive, Answer;
  }

  lemma NoMoreContacts(route: seq<(string, string)>, deliver: Contact, lastErr: Option<GoError>)
    requires Undecided(route, deliver, |route|, lastErr)
    ensures Walked(route, deliver, Some(AllFailed(lastErr)), |route|)
  {
    hide Decisive, Answer;
  }

  method TryHosts(hosts: seq<MX.MXHost>, deliver: Contact)
    returns (err: Option<GoError>, tried: seq<(string, string)>)
    ensures tried <= Flat(hosts) && Walked(Flat(hosts), deliver, err, |tried|)
  {
    hide Undecided, Walked, IsPermanentError, Flat;
    tried := [];
    var lastErr: Option<GoError> := None;
    ghost var route := Flat(hosts);
    NoContact(route, deliver);
    for i := 0 to |hosts|
      invariant tried == Flat(hosts[..i])
      invariant Undecided(route, deliver, |tried|, lastErr)
    {
      var mx := hosts[i];
      FlatNext(hosts, i);
      ghost var before := tried;
      for k := 0 to |mx.addresses|
        invariant tried == before + AddressesOf(mx)[..k]
        invariant Undecided(route, deliver, |tried|, lastErr)
      {
        assert route[|tried|] == (before + AddressesOf(mx))[|tried|] == (mx.addresses[k], mx.host);
        OneMoreContact(route, deliver, |tried|, lastErr);
        lastErr := deliver(|tried|, mx.addresses[k], mx.host);
        tried := tried + [(mx.addresses[k], mx.host)];
        assert tried == before + AddressesOf(mx)[..k + 1];
        assert before + AddressesOf(mx)[..k + 1] <= before + AddressesOf(mx) <= route;
        if lastErr.None? {
          return None, tried;
        }
        if IsPermanentError(lastErr.value) {
          return lastErr, tried;
        }
      }
    }
    assert hosts[..|hosts|] == hosts;
    NoMoreContacts(route, deliver, lastErr);
    err := Some(AllFailed(lastErr));
  }

  lemma NoContact(route: seq<(string, string)>, deliver: Contact)
    ensures Undecided(route, deliver, 0, None) && Flat([]) == []
  {
  }

  lemma FlatNext(hosts: seq<MX.MXHost>, i: nat)
    requires i < |hosts|
    ensures Flat(hosts[..i + 1]) == Flat(hosts[..i]) + AddressesOf(hosts[i])
    ensures Flat(hosts[..i + 1]) <= Flat(hosts)
    decreases |hosts| - i
  {
    assert hosts[..i + 1][..i] == hosts[..i];
    if i + 1 < |hosts| {
      FlatNext(hosts, i + 1);
    } else {
      assert hosts[..i + 1] == hosts;
    }
  }

  /** Delivery succeeds exactly when some address accepts after only temporary failures, and fails
      for good exactly when the first outcome that is not a temporary failure is permanent; failing
      everywhere is itself temporary. */
  lemma WalkExact(route: seq<(string, string)>, deliver: Contact, err: Option<GoError>, contacts: nat)
    requires Walked(route, deliver, err, contacts)
    ensures err.None? <==>
            exists k: nat | k < |route| :: Answer(route, deliver, k).None? && AllTemporary(route, deliver, k)
    ensures err.Some? && IsPermanentError(err.value) <==>
            exists k: nat | k < |route| ::
              && Answer(route, deliver, k).Some? && IsPermanentError(Answer(route, deliver, k).value)
              && AllTemporary(route, deliver, k)
  {
    hide IsPermanentError, Answer;
    if contacts > 0 && Decisive(Answer(route, deliver, contacts - 1)) {
      assert AllTemporary(route, deliver, contacts - 1);
      assert forall k: nat | k < |route| && Decisive(Answer(route, deliver, k)) && AllTemporary(route, deliver, k)
          :: k == contacts - 1;
    } else {
      AllFailedJudged(if route == [] then None else Answer(route, deliver, |route| - 1));
      assert forall k: nat | k < |route| :: !Decisive(Answer(route, deliver, k));
    }
  }

  /** The first k contacts fail temporarily. */
  predicate AllTemporary(route: seq<(string, string)>, deliver: Contact, k: nat)
    requires k <= |route|
  {
    forall j: nat | j < k :: !Decisive(Answer(route, deliver, j))
  }

  // ----- the engine -----

  const BREAKER_CONFIG := CB.Config(5, 2, 5 * MINUTE, 2, None)
  const CIRCUIT_OPEN := GoError("circuit breaker is open", {})
  const CIRCUIT_OPEN_DOMAIN := "circuit breaker open for domain"

  /** The world of one attempt: how reading the message fails if its file is gone, the relay and
      its answer, the name server, what comes of each contact, and the error that replaces
      the result when the attempt is cut short. */
  datatype Net = Net(readText: string, relay: Option<Option<GoError>>, dns: MX.Dns, lookupText: string,
                     deliver: Contact, cut: Option<GoError>)

  /** The clock before and after the attempt, the jitter, whether the queue commands after it fail,
      and the file, id and commands of a bounce. */
  datatype Close = Close(before: int, after: int, nano: nat, queueDown: bool, bounceWritten: bool, bouncePath: string,
                         bounceSize: int, bounceId: Id, exec: nat -> Exec)

  datatype EngineError = NoFile | TooLarge | QueueFailed(domain: string, error: QueueError)

  /** How DeliverMessage ends. */
  datatype Delivered = Crashed | Ended(err: Option<GoError>, attempted: bool)

  function NewBreaker(now: int): CB.Breaker {
    CB.Breaker(CB.Closed, 0, 0, 0, 0, now)
  }

  /** The breaker after Execute. */
  function Called(cfg: CB.Config, b: CB.Breaker, failed: bool, c: Close): CB.Breaker {
    var (b', admitted) := CB.Before(cfg, b, c.before);
    if admitted then CB.After(cfg, b', failed, c.after) else b'
  }

  /** The breaker after a delivery: an open one is not even asked. */
  function BreakerAfter(cfg: CB.Config, b: CB.Breaker, failed: bool, c: Close): CB.Breaker {
    if b.state.Open? then b else Called(cfg, b, failed, c)
  }

  predicate Admitted(cfg: CB.Config, b: CB.Breaker, c: Close) {
    !b.state.Open? && CB.Before(cfg, b, c.before).1
  }

  predicate BounceQueued(closed: bool, m: Message, c: Close) {
    ShouldBounce(m.sender) && c.bounceWritten && !closed && EventuallyDone(c.exec)
  }

  /** What the outcome of an attempt makes of the queue. */
  function Dispatched(cfg: QueueModel.Config, db: Db, closed: bool, m: Message, err: Option<GoError>, c: Close): Db {
    var reachable := !c.queueDown && m.id in db.messages;
    if err.None? then
      if reachable && !closed then Completed(db, m.id, c.after) else db
    else if !IsPermanentError(err.value) then
      if reachable then Retried(cfg, db, m.id, err.value.text, c.after, c.nano) else db
    else
      var db' := if reachable then GivenUp(db, m.id, err.value.text, c.after) else db;
      if BounceQueued(closed, m, c)
      then EnqueueTx(db', Prepared(cfg, QueueRuns.BounceFor(m, c.bouncePath, c.bounceSize), c.bounceId, c.after)) else db'
  }

  function LeftInQueue(cfg: QueueModel.Config, db: Db, closed: bool, m: Message, r: Delivered, c: Close): Db {
    if r.Crashed? then db else Dispatched(cfg, db, closed, m, r.err, c)
  }

  /** The file of a message goes when its delivery ends, if it lies where queued files may lie. */
  predicate Removable(queuePath: string, path: string) {
    path != "" && (queuePath == "" || HasPrefix(path, queuePath))
  }

  function FilesAfter(queuePath: string, files: map<string, int>, closed: bool, m: Message, err: Option<GoError>,
                      c: Close): map<string, int>
  {
    if err.Some? && !IsPermanentError(err.value) then files
    else
      var files' := if err.Some? && ShouldBounce(m.sender) && c.bounceWritten then
                      if BounceQueued(closed, m, c) then files[c.bouncePath := c.bounceSize] else files - {c.bouncePath}
                    else files;
      if Removable(queuePath, m.path) then files' - {m.path} else files'
  }

  datatype Totals = Totals(sent: int, failed: int, retried: int, bounced: int)

  function TotalsAfter(t: Totals, closed: bool, m: Message, err: Option<GoError>, c: Close): Totals {
    if err.None? then t.(sent := t.sent + 1)
    else if !IsPermanentError(err.value) then t.(retried := t.retried + 1)
    else t.(failed := t.failed + 1, bounced := if BounceQueued(closed, m, c) then t.bounced + 1 else t.bounced)
  }

  /** How an attempt that is not cut short may end, given the files and the exchangers on record. */
  predicate Attempted(files: map<string, int>, cache: map<string, MX.CachedMX>, m: Message, net: Net,
                      err: Option<GoError>)
  {
    if m.path !in files then err == Some(GoError("failed to prepare message: " + net.readText, {}))
    else if net.relay.Some? then err == net.relay.value
    else
      var domain := Lower(TrimSpace(m.domain));
      var hosts := if domain != "" && domain in cache then MX.Hosts(cache[domain].records, net.dns) else [];
      if hosts == [] then err == Some(GoError("MX lookup failed: " + net.lookupText, {}))
      else TriedSome(hosts, net.deliver, err)
  }

  predicate TriedSome(hosts: seq<MX.MXHost>, deliver: Contact, err: Option<GoError>) {
    exists contacts: nat | contacts <= |Flat(hosts)| :: Walked(Flat(hosts), deliver, err, contacts)
  }

  lemma WalkTried(hosts: seq<MX.MXHost>, deliver: Contact, err: Option<GoError>, contacts: nat)
    requires Walked(Flat(hosts), deliver, err, contacts)
    ensures TriedSome(hosts, deliver, err)
  {
  }

  // ----- submission -----

  /** The recipients in a domain, in their order. */
  function Recipients(recipients: seq<string>, domain: string): seq<string> {
    if recipients == [] then []
    else
      var rest := Recipients(recipients[..|recipients| - 1], domain);
      var rcpt := recipients[|recipients| - 1];
      if ExtractDomain(rcpt) == domain then rest + [rcpt] else rest
  }

  function Domains(recipients: seq<string>): set<string> {
    set r | r in recipients && ExtractDomain(r) != "" :: ExtractDomain(r)
  }

  /** The queue entry of one domain. */
  function Entry(cfg: QueueModel.Config, s: Submission, domain: string): Message {
    Prepared(cfg, Message("", s.sender, Recipients(s.recipients, domain), s.path, s.size, 0, 0, None, None, "", Pending,
                          None, domain), s.ids(domain), s.now)
  }

  datatype Submission = Submission(sender: string, recipients: seq<string>, path: string, size: int, now: int,
                                   ids: string -> Id)

  /** The ids generated for the domains are new and all different. */
  predicate FreshIds(db: Db, s: Submission) {
    Distinct(s) && forall d :: d in Domains(s.recipients) ==>
                     s.ids(d) != "" && s.ids(d) !in db.messages && s.ids(d) !in db.pending
  }

  predicate Distinct(s: Submission) {
    forall d, e :: d in Domains(s.recipients) && e in Domains(s.recipients) && s.ids(d) == s.ids(e) ==> d == e
  }

  function Entries(cfg: QueueModel.Config, s: Submission, domains: set<string>): map<Id, Message>
    requires Distinct(s) && domains <= Domains(s.recipients)
  {
    map d | d in domains :: s.ids(d) := Entry(cfg, s, d)
  }

  function DueTimes(s: Submission, domains: set<string>): map<Id, int>
    requires Distinct(s) && domains <= Domains(s.recipients)
  {
    map d | d in domains :: s.ids(d) := s.now
  }

  /** The queue with the entries of some of the domains added. */
  function Queued(cfg: QueueModel.Config, db: Db, s: Submission, domains: set<string>): Db
    requires Distinct(s) && domains <= Domains(s.recipients)
  {
    db.(messages := db.messages + Entries(cfg, s, domains), pending := db.pending + DueTimes(s, domains),
        stats := db.stats.(enqueued := db.stats.enqueued + |domains|))
  }

  lemma QueuedNone(cfg: QueueModel.Config, db: Db, s: Submission)
    requires Distinct(s)
    ensures Queued(cfg, db, s, {}) == db
  {
    hide Distinct, Entry;
    assert db.messages + Entries(cfg, s, {}) == db.messages;
    assert db.pending + DueTimes(s, {}) == db.pending;
  }

  lemma EntriesOneMore(cfg: QueueModel.Config, s: Submission, domains: set<string>, d: string)
    requires Distinct(s) && domains <= Domains(s.recipients) && d in Domains(s.recipients)
    ensures Entries(cfg, s, domains + {d}) == Entries(cfg, s, domains)[s.ids(d) := Entry(cfg, s, d)]
    ensures DueTimes(s, domains + {d}) == DueTimes(s, domains)[s.ids(d) := s.now]
  {
    hide Entry, Domains;
  }

  lemma QueuedOneMore(cfg: QueueModel.Config, db: Db, s: Submission, domains: set<string>, d: string)
    requires Distinct(s) && domains <= Domains(s.recipients) && d in Domains(s.recipients) && d !in domains
    ensures EnqueueTx(Queued(cfg, db, s, domains), Entry(cfg, s, d)) == Queued(cfg, db, s, domains + {d})
  {
    EntryMeans(cfg, s, d);
    hide Domains, Entry, Entries, DueTimes, Distinct, Prepared, Score;
    EntriesOneMore(cfg, s, domains, d);
    MergeOneMore(db.messages, Entries(cfg, s, domains), s.ids(d), Entry(cfg, s, d));
    MergeOneMore(db.pending, DueTimes(s, domains), s.ids(d), s.now);
  }

  lemma MergeOneMore<K, V>(m: map<K, V>, n: map<K, V>, k: K, v: V)
    ensures (m + n)[k := v] == m + n[k := v]
  {
  }

  lemma EntryMeans(cfg: QueueModel.Config, s: Submission, domain: string)
    ensures Entry(cfg, s, domain) ==
            Prepared(cfg, Message("", s.sender, Recipients(s.recipients, domain), s.path, s.size, 0, 0, None, None, "",
                                  Pending, None, domain), s.ids(domain), s.now)
    ensures Entry(cfg, s, domain).id == s.ids(domain)
    ensures Score(Entry(cfg, s, domain)) == s.now
    ensures Entry(cfg, s, domain).recipients == Recipients(s.recipients, domain)
  {
  }

  lemma OneMoreRecipient(recipients: seq<string>, rcpt: string)
    ensures Domains(recipients + [rcpt])
            == Domains(recipients) + (if ExtractDomain(rcpt) != "" then {ExtractDomain(rcpt)} else {})
    ensures ExtractDomain(rcpt) !in Domains(recipients) && ExtractDomain(rcpt) != "" ==>
              Recipients(recipients, ExtractDomain(rcpt)) == []
  {
    hide ExtractDomain;
    if ExtractDomain(rcpt) !in Domains(recipients) && ExtractDomain(rcpt) != "" {
      NobodyThere(recipients, ExtractDomain(rcpt));
    }
  }

  lemma {:induction false} NobodyThere(recipients: seq<string>, domain: string)
    requires forall r :: r in recipients ==> ExtractDomain(r) != domain
    ensures Recipients(recipients, domain) == []
  {
    hide ExtractDomain;
    if recipients != [] {
      assert forall r :: r in recipients[..|recipients| - 1] ==> r in recipients;
      NobodyThere(recipients[..|recipients| - 1], domain);
    }
  }

  function Occurrences(recipients: seq<string>, r: string): nat {
    if recipients == [] then 0
    else Occurrences(recipients[..|recipients| - 1], r) + (if recipients[|recipients| - 1] == r then 1 else 0)
  }

  lemma OccurrencesMore(recipients: seq<string>, last: string, r: string)
    ensures Occurrences(recipients + [last], r) == Occurrences(recipients, r) + (if last == r then 1 else 0)
  {
    assert (recipients + [last])[..|recipients|] == recipients;
  }

  lemma {:induction false} RecipientsKept(recipients: seq<string>, r: string, d: string)
    ensures Occurrences(Recipients(recipients, d), r) == if ExtractDomain(r) == d then Occurrences(recipients, r) else 0
  {
    if recipients == [] {
    } else {
      hide ExtractDomain;
      var front, last := recipients[..|recipients| - 1], recipients[|recipients| - 1];
      RecipientsKept(front, r, d);
      OccurrencesMore(Recipients(front, d), last, r);
    }
  }

  /** A submission that succeeds queues every recipient that has a domain exactly as often as it
      was given, in the entry of its domain and in no other, with the sender and the file of the submission, due
      at once; the rest are dropped without an error. */
  lemma RecipientsPartitioned(cfg: QueueModel.Config, db: Db, s: Submission, r: string, d: string)
    requires FreshIds(db, s) && d in Domains(s.recipients)
    ensures var db' := Queued(cfg, db, s, Domains(s.recipients));
            && s.ids(d) in db'.messages && s.ids(d) !in db.messages
            && var entry := db'.messages[s.ids(d)];
            && Occurrences(entry.recipients, r) == (if ExtractDomain(r) == d then Occurrences(s.recipients, r) else 0)
            && entry.sender == s.sender && entry.path == s.path && entry.size == s.size && entry.domain == d
            && entry.attempts == 0 && db'.pending[s.ids(d)] == s.now
    ensures r in s.recipients && ExtractDomain(r) != "" ==> ExtractDomain(r) in Domains(s.recipients)
  {
    hide ExtractDomain, Entry;
    EntryMeans(cfg, s, d);
    RecipientsKept(s.recipients, r, d);
    var entries := Entries(cfg, s, Domains(s.recipients));
    assert s.ids(d) in entries && entries[s.ids(d)] == Entry(cfg, s, d);
  }

  class Engine {
    const queuePath: string
    const maxMessageSize: int
    const queue: RedisQueue
    const mxResolver: MX.MXResolver
    var breakers: map<string, CB.CircuitBreaker>
    var files: map<string, int>
    var totals: Totals

    constructor (queuePath: string, maxMessageSize: int, queue: RedisQueue, mxResolver: MX.MXResolver)
      ensures this.queuePath == queuePath && this.maxMessageSize == maxMessageSize
      ensures this.queue == queue && this.mxResolver == mxResolver
      ensures Valid() && breakers == map[] && files == map[] && totals == Totals(0, 0, 0, 0)
    {
      this.queuePath, this.maxMessageSize, this.queue, this.mxResolver := queuePath, maxMessageSize, queue, mxResolver;
      breakers, files, totals := map[], map[], Totals(0, 0, 0, 0);
    }

    /** Every domain has a breaker of its own. */
    ghost predicate Valid()
      reads this
    {
      && "" !in breakers && (forall d :: d in breakers ==> breakers[d].config == BREAKER_CONFIG)
      && (forall d, e :: d in breakers && e in breakers && breakers[d] == breakers[e] ==> d == e)
    }

    /** One entry a domain; when a command fails the entries made before it stay. */
    method Enqueue(s: Submission, exec: string -> (nat -> Exec)) returns (r: Result<(), EngineError>)
      requires FreshIds(queue.View(), s)
      requires s.path in files ==> s.size == files[s.path]
      modifies queue
      ensures queue.closed == old(queue.closed)
      ensures s.path !in files ==> r == Err(NoFile)
      ensures s.path in files && s.size > maxMessageSize ==> r == Err(TooLarge)
      ensures r.Ok? <==> s.path in files && s.size <= maxMessageSize
                         && forall d :: d in Domains(s.recipients) ==> !queue.closed && EventuallyDone(exec(d))
      ensures r.Ok? ==> queue.View() == Queued(queue.config, old(queue.View()), s, Domains(s.recipients))
      ensures r.Err? && !r.error.QueueFailed? ==> queue.View() == old(queue.View())
      ensures r.Err? && r.error.QueueFailed? ==>
                exists done :: done <= Domains(s.recipients) - {r.error.domain}
                               && queue.View() == Queued(queue.config, old(queue.View()), s, done)
    {
      hide Queued, EventuallyDone, Entry, Domains, Prepared, EnqueueTx;
      if s.path !in files {
        return Err(NoFile);
      }
      if s.size > maxMessageSize {
        return Err(TooLarge);
      }
      var byDomain := GroupByDomain(s.recipients);
      r := EnqueueEntries(s, byDomain, exec);
    }

    method EnqueueEntries(s: Submission, byDomain: map<string, seq<string>>, exec: string -> (nat -> Exec))
      returns (r: Result<(), EngineError>)
      requires Distinct(s) && byDomain.Keys == Domains(s.recipients)
      requires forall d :: d in byDomain ==> byDomain[d] == Recipients(s.recipients, d)
      modifies queue
      ensures queue.closed == old(queue.closed)
      ensures r.Ok? <==> forall d :: d in byDomain ==> !queue.closed && EventuallyDone(exec(d))
      ensures r.Ok? ==> queue.View() == Queued(queue.config, old(queue.View()), s, Domains(s.recipients))
      ensures r.Err? ==>
                && r.error.QueueFailed?
                && exists done :: done <= Domains(s.recipients) - {r.error.domain}
                                  && queue.View() == Queued(queue.config, old(queue.View()), s, done)
    {
      hide Queued, EventuallyDone, Entry, Domains, Prepared, EnqueueTx, Distinct;
      ghost var db, domains := queue.View(), Domains(s.recipients);
      var left := byDomain.Keys;
      QueuedNone(queue.config, db, s);
      assert domains - left == {};
      while left != {}
        invariant queue.closed == old(queue.closed) && left <= domains
        invariant queue.View() == Queued(queue.config, db, s, domains - left)
        invariant forall d :: d in domains && d !in left ==> !queue.closed && EventuallyDone(exec(d))
        decreases |left|
      {
        var domain :| domain in left;
        var msg := Message("", s.sender, byDomain[domain], s.path, s.size, 0, 0, None, None, "", Pending, None, domain);
        QueuedOneMore(queue.config, db, s, domains - left, domain);
        EntryMeans(queue.config, s, domain);
        var queued := queue.Enqueue(msg, s.ids(domain), s.now, exec(domain));
        if queued.Err? {
          assert domains - left <= domains - {domain};
          return Err(QueueFailed(domain, queued.error));
        }
        assert domains - left + {domain} == domains - (left - {domain});
        left := left - {domain};
      }
      assert domains - left == domains;
      r := Ok(());
    }

    static method GroupByDomain(recipients: seq<string>) returns (byDomain: map<string, seq<string>>)
      ensures byDomain.Keys == Domains(recipients)
      ensures forall d :: d in byDomain ==> byDomain[d] == Recipients(recipients, d)
    {
      hide ExtractDomain;
      byDomain := map[];
      for i := 0 to |recipients|
        invariant byDomain.Keys == Domains(recipients[..i])
        invariant forall d :: d in byDomain ==> byDomain[d] == Recipients(recipients[..i], d)
      {
        var rcpt := recipients[i];
        var domain := ExtractDomain(rcpt);
        assert recipients[..i + 1] == recipients[..i] + [rcpt] && recipients[..i + 1][..i] == recipients[..i];
        OneMoreRecipient(recipients[..i], rcpt);
        if domain == "" {
          continue;
        }
        byDomain := byDomain[domain := (if domain in byDomain then byDomain[domain] else []) + [rcpt]];
      }
      assert recipients[..|recipients|] == recipients;
    }

    /** The registry: one breaker a key, closed when new, none for the empty key. */
    method Breaker(key: string, now: int) returns (b: Option<CB.CircuitBreaker>)
      modifies this`breakers
      ensures key == "" ==> b.None? && breakers == old(breakers)
      ensures key != "" ==> b.Some? && breakers == old(breakers)[key := b.value]
      ensures key in old(breakers) && key != "" ==> b.value == old(breakers)[key]
      ensures key !in old(breakers) && key != "" ==>
                fresh(b.value) && b.value.config == BREAKER_CONFIG
                && b.value.View() == NewBreaker(now)
    {
      if key == "" {
        return None;
      }
      if key in breakers {
        return Some(breakers[key]);
      }
      var cb := new CB.CircuitBreaker(BREAKER_CONFIG, now);
      breakers := breakers[key := cb];
      b := Some(cb);
    }

    method AttemptDelivery(m: Message, now: int, net: Net) returns (err: Option<GoError>)
      requires mxResolver.Valid()
      modifies mxResolver
      ensures mxResolver.Valid()
      ensures Attempted(files, mxResolver.cache, m, net, err)
    {
      if m.path !in files {
        return Some(GoError("failed to prepare message: " + net.readText, {}));
      }
      if net.relay.Some? {
        return net.relay.value;
      }
      var mxHosts := mxResolver.LookupWithFallback(m.domain, now, net.dns);
      if mxHosts.Err? {
        return Some(GoError("MX lookup failed: " + net.lookupText, {}));
      }
      hide TriedSome, Walked;
      var tried;
      err, tried := TryHosts(mxHosts.value, net.deliver);
      WalkTried(mxHosts.value, net.deliver, err, |tried|);
    }

    /** The attempt inside the breaker's Execute. */
    method Execute(m: Message, breaker: CB.CircuitBreaker, net: Net, c: Close)
      returns (err: Option<GoError>, attempted: bool)
      requires mxResolver.Valid()
      modifies breaker, mxResolver
      ensures mxResolver.Valid()
      ensures attempted == CB.Before(breaker.config, old(breaker.View()), c.before).1
      ensures !attempted ==> err == Some(CIRCUIT_OPEN)
      ensures attempted ==> if net.cut.Some? then err == net.cut else Attempted(files, mxResolver.cache, m, net, err)
      ensures breaker.View() ==
              Called(breaker.config, old(breaker.View()),
                     CB.IsFailure(breaker.config, if err.None? then None else Some(err.value.text)), c)
    {
      hide CB.Before, CB.After, CB.IsFailure, Attempted;
      attempted := breaker.BeforeRequest(c.before);
      if !attempted {
        return Some(CIRCUIT_OPEN), false;
      }
      err := AttemptDelivery(m, c.before, net);
      if net.cut.Some? {
        err := net.cut;
      }
      breaker.AfterRequest(if err.None? then None else Some(err.value.text), c.after);
    }

    /** The part of a delivery that follows a permanent failure. */
    method GiveUp(m: Message, err: GoError, c: Close)
      requires IsPermanentError(err)
      modifies this`files, this`totals, queue
      ensures queue.closed == old(queue.closed)
      ensures queue.View() == Dispatched(queue.config, old(queue.View()), old(queue.closed), m, Some(err), c)
      ensures files == FilesAfter(queuePath, old(files), old(queue.closed), m, Some(err), c)
      ensures totals == TotalsAfter(old(totals), old(queue.closed), m, Some(err), c)
    {
      hide GivenUp, EnqueueTx, ShouldBounce, EventuallyDone, QueueRuns.BounceFor, Prepared, Removable;
      var r := queue.Fail(m.id, err.text, c.after, c.queueDown, false);
      totals := totals.(failed := totals.failed + 1);
      if ShouldBounce(m.sender) {
        var sent := SendBounce(m, c);
        if sent {
          totals := totals.(bounced := totals.bounced + 1);
        }
      }
      CleanupMessageFile(m.path);
    }

    /** One delivery of a claimed message through the breaker of its domain. */
    method DeliverThrough(m: Message, breaker: CB.CircuitBreaker, net: Net, c: Close)
      returns (err: Option<GoError>, attempted: bool)
      requires mxResolver.Valid()
      modifies this`files, this`totals, queue, breaker, mxResolver
      ensures mxResolver.Valid() && queue.closed == old(queue.closed)
      ensures attempted == Admitted(breaker.config, old(breaker.View()), c)
      ensures !attempted ==> err.Some? && !IsPermanentError(err.value)
      ensures attempted ==> if net.cut.Some? then err == net.cut else Attempted(old(files), mxResolver.cache, m, net, err)
      ensures breaker.View() ==
              BreakerAfter(breaker.config, old(breaker.View()),
                           CB.IsFailure(breaker.config, if err.None? then None else Some(err.value.text)), c)
      ensures queue.View() == Dispatched(queue.config, old(queue.View()), old(queue.closed), m, err, c)
      ensures files == FilesAfter(queuePath, old(files), old(queue.closed), m, err, c)
      ensures totals == TotalsAfter(old(totals), old(queue.closed), m, err, c)
    {
      hide Retried, Completed, GivenUp, EnqueueTx, ShouldBounce, IsPermanentError, CB.Before, CB.After, CB.IsFailure,
           BounceQueued, QueueRuns.BounceFor, Prepared, Removable, Attempted;
      NotPermanent();
      if breaker.state == CB.Open {
        var r := queue.Retry(m.id, CIRCUIT_OPEN_DOMAIN, c.after, c.nano, c.queueDown, false);
        totals := totals.(retried := totals.retried + 1);
        return Some(GoError(CIRCUIT_OPEN_DOMAIN, {})), false;
      }
      err, attempted := Execute(m, breaker, net, c);
      if err.Some? {
        if IsPermanentError(err.value) {
          GiveUp(m, err.value, c);
        } else {
          var r := queue.Retry(m.id, err.value.text, c.after, c.nano, c.queueDown, false);
          totals := totals.(retried := totals.retried + 1);
        }
        return;
      }
      var r := queue.Complete(m.id, c.after, c.queueDown, false);
      totals := totals.(sent := totals.sent + 1);
      CleanupMessageFile(m.path);
    }

    /** One delivery of a claimed message. A message without a domain has no breaker, and asking for
        its state crashes the server before anything is done. */
    method DeliverMessage(m: Message, net: Net, c: Close) returns (r: Delivered)
      requires Valid() && mxResolver.Valid()
      modifies this, queue, mxResolver, breakers.Values
      ensures Valid() && mxResolver.Valid() && queue.closed == old(queue.closed)
      ensures r.Crashed? <==> m.domain == ""
      ensures r.Ended? && !r.attempted ==> r.err.Some? && !IsPermanentError(r.err.value)
      ensures r.Ended? && r.attempted ==>
                if net.cut.Some? then r.err == net.cut else Attempted(old(files), mxResolver.cache, m, net, r.err)
      ensures breakers.Keys == old(breakers).Keys + (if r.Ended? then {m.domain} else {})
      ensures forall d :: d in old(breakers) ==> breakers[d] == old(breakers)[d]
      ensures forall d :: d in old(breakers) && d != m.domain ==> breakers[d].View() == old(breakers[d].View())
      ensures r.Ended? ==>
                var b := if m.domain in old(breakers) then old(breakers[m.domain].View()) else NewBreaker(c.before);
                && r.attempted == Admitted(BREAKER_CONFIG, b, c)
                && breakers[m.domain].View() == BreakerAfter(BREAKER_CONFIG, b, r.err.Some?, c)
      ensures queue.View() == LeftInQueue(queue.config, old(queue.View()), old(queue.closed), m, r, c)
      ensures files == if r.Ended? then FilesAfter(queuePath, old(files), old(queue.closed), m, r.err, c) else old(files)
      ensures totals == if r.Ended? then TotalsAfter(old(totals), old(queue.closed), m, r.err, c) else old(totals)
    {
      hide BreakerAfter, Admitted, Attempted, Dispatched, FilesAfter, TotalsAfter, IsPermanentError, MX.MXResolver.Valid;
      var breaker := Breaker(m.domain, c.before);
      if breaker.None? {
        return Crashed;
      }
      assert forall d :: d in old(breakers) && d != m.domain ==> breakers[d] != breaker.value;
      var err, attempted := DeliverThrough(m, breaker.value, net, c);
      r := Ended(err, attempted);
    }

    method SendBounce(m: Message, c: Close) returns (sent: bool)
      modifies this`files, queue
      ensures queue.closed == old(queue.closed)
      ensures sent <==> c.bounceWritten && !queue.closed && EventuallyDone(c.exec)
      ensures queue.View() ==
              if sent then EnqueueTx(old(queue.View()), Prepared(queue.config, QueueRuns.BounceFor(m, c.bouncePath, c.bounceSize),
                                                                 c.bounceId, c.after))
              else old(queue.View())
      ensures files == if !c.bounceWritten then old(files)
                       else if sent then old(files)[c.bouncePath := c.bounceSize] else old(files) - {c.bouncePath}
    {
      hide EnqueueTx, EventuallyDone;
      if !c.bounceWritten {
        return false;
      }
      files := files[c.bouncePath := c.bounceSize];
      var bounceMsg := Message("", "", [m.sender], c.bouncePath, c.bounceSize, 0, 0, None, None, "", Pending, None,
                               ExtractDomain(m.sender));
      var r := queue.Enqueue(bounceMsg, c.bounceId, c.after, c.exec);
      if r.Err? {
        files := files - {c.bouncePath};
        return false;
      }
      sent := true;
    }

    method CleanupMessageFile(path: string)
      modifies this`files
      ensures files == if Removable(queuePath, path) then old(files) - {path} else old(files)
      ensures files == if path != "" && exists name :: path == queuePath + name then old(files) - {path} else old(files)
    {
      PathInside(queuePath, path);
      if path == "" {
        return;
      }
      if queuePath != "" && !HasPrefix(path, queuePath) {
        return;
      }
      files := files - {path};
    }
  }

  lemma PathInside(queuePath: string, path: string)
    ensures Removable(queuePath, path) <==> path != "" && exists name :: path == queuePath + name
  {
    if HasPrefix(path, queuePath) {
      assert path == queuePath + path[|queuePath|..];
    }
  }

  /** Neither refusal of the breaker is permanent. */
  lemma NotPermanent()
    ensures !IsPermanentError(CIRCUIT_OPEN) && !IsPermanentError(GoError(CIRCUIT_OPEN_DOMAIN, {}))
  {
    NoCodeWithoutFive(CIRCUIT_OPEN.text);
    NoCodeWithoutFive(CIRCUIT_OPEN_DOMAIN);
    PermanentMeans(CIRCUIT_OPEN);
    PermanentMeans(GoError(CIRCUIT_OPEN_DOMAIN, {}));
  }

  // ----- a delivery is a step of the runs -----

  /** The event of the runs that the queue command of a delivery amounts to. */
  function EventOf(closed: bool, db: Db, m: Message, r: Delivered, c: Close): QueueRuns.Event {
    var reachable := !c.queueDown && m.id in db.messages;
    match r
    case Crashed => QueueRuns.Drop(m.id, false, c.after)
    case Ended(err, _) =>
      if err.None? then
        if reachable && !closed then QueueRuns.Finish(m.id, QueueRuns.Accepted, c.nano, c.after)
        else QueueRuns.Drop(m.id, true, c.after)
      else if !IsPermanentError(err.value) then
        if reachable then QueueRuns.Finish(m.id, QueueRuns.Temporary(err.value.text), c.nano, c.after)
        else QueueRuns.Drop(m.id, false, c.after)
      else if reachable then QueueRuns.Finish(m.id, QueueRuns.Permanent(err.value.text), c.nano, c.after)
      else QueueRuns.FailLost(m.id, c.after)
  }

  predicate FailedForGood(r: Delivered) {
    r.Ended? && r.err.Some? && IsPermanentError(r.err.value)
  }

  /** What a delivery leaves in the queue, whether its commands go through or not and whether the
      queue is open or closed, is one event of the runs, followed after a permanent failure of a
      message with a sender to tell by the bounce that event makes due. */
  lemma DeliveryIsRunStep(cfg: QueueModel.Config, hold: int, w: QueueRuns.World, closed: bool, m: Message, r: Delivered,
                          c: Close)
    requires QueueRuns.Known(w) && m.id in w.held && m.id in w.db.messages && w.db.messages[m.id].sender == m.sender
    requires w.clock <= c.after && QueueRuns.InTime(w, hold, c.after)
    ensures var e := EventOf(closed, w.db, m, r, c);
            && QueueRuns.Legal(hold, w, e)
            && var w' := QueueRuns.Step(cfg, hold, w, e);
            && m.id in w'.db.messages
            && if FailedForGood(r) && ShouldBounce(m.sender) then
                 var owe := QueueRuns.Owe(m.id, w.db.messages[m.id].attempts);
                 && owe in w'.owed
                 && LeftInQueue(cfg, w.db, closed, m, r, c)
                    == QueueRuns.Bounced(cfg, w', owe, c.bounceId, c.bouncePath, c.bounceSize, BounceQueued(closed, m, c),
                                         c.after).db
               else LeftInQueue(cfg, w.db, closed, m, r, c) == w'.db
  {
    hide Retried, EnqueueTx, ShouldBounce, IsPermanentError, EventuallyDone, ExtractDomain, QueueRuns.InTime,
         QueueRuns.Known;
    if r.Ended? && r.err.Some? && !IsPermanentError(r.err.value) {
      QueueRuns.RetriedSets(cfg, w.db, m.id, r.err.value.text, c.after, c.nano);
    }
  }

  /** Where a delivery leaves its message: in processing if the closing command erred, in sent if it
      was accepted, in failed after a permanent error or if no attempt or time is left, and back in
      pending otherwise. */
  lemma OutcomeExactly(cfg: QueueModel.Config, db: Db, closed: bool, m: Message, err: Option<GoError>, c: Close)
    requires m.id in db.messages && m.id in db.processing && c.bounceId != m.id
    requires m.id !in db.pending && m.id !in db.sent && m.id !in db.failed
    ensures var db' := Dispatched(cfg, db, closed, m, err, c);
            var kept := db.messages[m.id];
            var closing := !c.queueDown && (err.None? ==> !closed);
            var hopeless := || kept.attempts >= kept.maxAttempts || kept.createdAt.None?
                            || c.after - kept.createdAt.value > cfg.retryMaxAge;
            && (m.id in db'.processing <==> !closing)
            && (m.id in db'.sent <==> closing && err.None?)
            && (m.id in db'.failed <==> closing && err.Some? && (IsPermanentError(err.value) || hopeless))
            && (m.id in db'.pending <==> closing && err.Some? && !IsPermanentError(err.value) && !hopeless)
  {
    hide IsPermanentError, BounceQueued, Rescheduled, Retried, ExtractDomain, Backoff;
    if err.Some? { RetriedParts(cfg, db, m.id, err.value.text, c.after, c.nano); }
  }

  /** A delivery leaves all files alone but that of its message and that of its bounce; the bounce has
      its file afterwards exactly if it was queued, whatever failed. Each delivery is counted once. */
  lemma FilesAndCounts(queuePath: string, files: map<string, int>, t: Totals, closed: bool, m: Message,
                       err: Option<GoError>, c: Close)
    requires c.bouncePath !in files && c.bouncePath != m.path
    ensures var files', t' := FilesAfter(queuePath, files, closed, m, err, c), TotalsAfter(t, closed, m, err, c);
            var permanent := err.Some? && IsPermanentError(err.value);
            && (forall p :: p != m.path && p != c.bouncePath ==>
                  (p in files' <==> p in files) && (p in files ==> files'[p] == files[p]))
            && (c.bouncePath in files' <==> permanent && BounceQueued(closed, m, c))
            && (c.bouncePath in files' ==> files'[c.bouncePath] == c.bounceSize && t'.bounced == t.bounced + 1)
            && t'.sent + t'.failed + t'.retried == t.sent + t.failed + t.retried + 1
            && (t'.sent == t.sent + 1 <==> err.None?) && (t'.failed == t.failed + 1 <==> permanent)
            && (t'.bounced != t.bounced ==> c.bouncePath in files')
  {
    hide IsPermanentError, ShouldBounce, EventuallyDone, Removable;
  }

  /** A delivery leaves its message in processing, to be recovered and tried again, and yet queues a
      bounce for it, exactly when it failed for good and only its Fail command erred. */
  lemma BounceBeforeTheEnd(cfg: QueueModel.Config, db: Db, closed: bool, m: Message, err: Option<GoError>, c: Close)
    requires m.id in db.messages && m.id in db.processing && c.bounceId !in db.pending && c.bounceId != ""
    requires c.bounceId != m.id && forall id :: id in db.messages ==> db.messages[id].id == id
    ensures var db' := Dispatched(cfg, db, closed, m, err, c);
            m.id in db'.processing && c.bounceId in db'.pending
            <==> err.Some? && IsPermanentError(err.value) && c.queueDown && BounceQueued(closed, m, c)
  {
    hide IsPermanentError, BounceQueued, Rescheduled, Hopeless, Retried, ExtractDomain, Backoff;
    if err.Some? { RetriedParts(cfg, db, m.id, err.value.text, c.after, c.nano); }
  }

  /** A bounce has no domain, and its own delivery crashes the server, exactly when the sender it
      reports to has no at sign before its last character. */
  lemma BounceWithoutDomain(cfg: QueueModel.Config, m: Message, c: Close)
    ensures Prepared(cfg, QueueRuns.BounceFor(m, c.bouncePath, c.bounceSize), c.bounceId, c.after).domain == ""
            <==> forall i :: 0 <= i < |m.sender| - 1 ==> m.sender[i] != '@'
  {
    NoDomainMeans(m.sender);
  }

  lemma NoDomainMeans(email: string)
    ensures ExtractDomain(email) == "" <==> forall i :: 0 <= i < |email| - 1 ==> email[i] != '@'
  {
    var at := Index(email, "@");
    forall i | 0 <= i < |email| ensures email[i] == '@' <==> HasPrefix(email[i..], "@") {
      assert email[i..][0] == email[i];
    }
    if at.None? {
      forall i | 0 <= i < |email| ensures email[i] != '@' {
        assert !HasPrefix(email[i..], "@");
      }
    } else {
      assert |Lower(email[at.value + 1..])| == |email| - at.value - 1;
      assert email[at.value] == '@';
    }
  }
}
