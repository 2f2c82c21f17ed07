/** One message file for many queue entries: each domain has an entry, and the first delivery that
    ends removes the file of all. */
module SharedFiles {
  import opened Wrappers
  import opened Strings
  import opened DeliveryErrors
  import opened QueueModel
  import MX = MxResolver
  import opened RedisQueue
  import opened Delivery

  /** One delivery of the entry of a domain, with what it met and how it ended. */
  datatype Attempt = Attempt(domain: string, closed: bool, cache: map<string, MX.CachedMX>, net: Net,
                             err: Option<GoError>, close: Close)

  /** The delivery is over for good, accepted or failed, and not put off. */
  predicate Ends(a: Attempt) {
    a.err.None? || IsPermanentError(a.err.value)
  }

  /** And the command that closes its entry goes through. */
  predicate Closes(a: Attempt) {
    Ends(a) && !a.close.queueDown && (a.err.None? ==> !a.closed)
  }

  /** What a delivery that ends leaves of its entry: in processing, to be recovered and tried again,
      exactly if its closing command errs. */
  lemma ClosesMeans(cfg: QueueModel.Config, db: Db, m: Message, a: Attempt)
    requires Ends(a) && m.id in db.messages && m.id in db.processing
    ensures m.id in Dispatched(cfg, db, a.closed, m, a.err, a.close).processing <==> !Closes(a)
  {
    hide IsPermanentError, BounceQueued, Prepared, ExtractDomain;
  }

  /** What DeliverMessage promises of the outcome, given the files it finds. */
  ghost predicate Possible(cfg: QueueModel.Config, s: Submission, files: map<string, int>, a: Attempt) {
    || !Ends(a)
    || (if a.net.cut.Some? then a.err == a.net.cut else Attempted(files, a.cache, Entry(cfg, s, a.domain), a.net, a.err))
  }

  /** The file goes with the delivery, unless that is put off or the file lies elsewhere. */
  lemma FileStaysExactly(queuePath: string, files: map<string, int>, closed: bool, m: Message, err: Option<GoError>,
                         c: Close)
    requires m.path in files && c.bouncePath != m.path
    ensures m.path in FilesAfter(queuePath, files, closed, m, err, c)
            <==> (err.Some? && !IsPermanentError(err.value)) || !Removable(queuePath, m.path)
  {
    hide IsPermanentError, ShouldBounce, BounceQueued, Removable;
  }

  lemma FileStaysGone(queuePath: string, files: map<string, int>, closed: bool, m: Message, err: Option<GoError>, c: Close)
    requires m.path !in files && c.bouncePath != m.path
    ensures m.path !in FilesAfter(queuePath, files, closed, m, err, c)
  {
    hide IsPermanentError, ShouldBounce, BounceQueued, Removable;
  }

  /** The files after deliveries of the entries of one submission, in any order. */
  function FilesAfterAll(cfg: QueueModel.Config, queuePath: string, files: map<string, int>, s: Submission,
                         attempts: seq<Attempt>): map<string, int>
  {
    if attempts == [] then files
    else
      var a := attempts[|attempts| - 1];
      FilesAfter(queuePath, FilesAfterAll(cfg, queuePath, files, s, attempts[..|attempts| - 1]), a.closed,
                 Entry(cfg, s, a.domain), a.err, a.close)
  }

  /** Each delivery is of an entry that is not yet over, makes no bounce over the message file, and
      ends as it can with the files there are. */
  ghost predicate Series(cfg: QueueModel.Config, queuePath: string, files: map<string, int>, s: Submission,
                   attempts: seq<Attempt>)
  {
    attempts == [] ||
    var front, a := attempts[..|attempts| - 1], attempts[|attempts| - 1];
    && Series(cfg, queuePath, files, s, front)
    && a.domain in Domains(s.recipients) && !Over(front, a.domain) && a.close.bouncePath != s.path
    && Possible(cfg, s, FilesAfterAll(cfg, queuePath, files, s, front), a)
  }

  ghost predicate Over(attempts: seq<Attempt>, domain: string) {
    exists a :: a in attempts && a.domain == domain && Closes(a)
  }

  /** The entry still waits for its delivery, but its file is gone. */
  ghost predicate FileLost(cfg: QueueModel.Config, queuePath: string, files: map<string, int>, s: Submission,
                     attempts: seq<Attempt>, domain: string)
  {
    && domain in Domains(s.recipients) && !Over(attempts, domain)
    && s.path !in FilesAfterAll(cfg, queuePath, files, s, attempts)
  }

  lemma {:induction false} FileGoneExactly(cfg: QueueModel.Config, queuePath: string, files: map<string, int>, s: Submission,
                                           attempts: seq<Attempt>)
    requires s.path in files && Series(cfg, queuePath, files, s, attempts)
    ensures s.path !in FilesAfterAll(cfg, queuePath, files, s, attempts)
            <==> Removable(queuePath, s.path) && exists a :: a in attempts && Ends(a)
  {
    if attempts == [] {
    } else {
      hide Possible, Ends, Removable, FilesAfter, Entry, Domains, Over;
      var front, a := attempts[..|attempts| - 1], attempts[|attempts| - 1];
      FileGoneExactly(cfg, queuePath, files, s, front);
      OneMoreAttempt(cfg, queuePath, FilesAfterAll(cfg, queuePath, files, s, front), s, a);
      assert forall b :: b in attempts <==> b in front || b == a;
    }
  }

  lemma OneMoreAttempt(cfg: QueueModel.Config, queuePath: string, files: map<string, int>, s: Submission, a: Attempt)
    requires a.close.bouncePath != s.path
    ensures s.path in FilesAfter(queuePath, files, a.closed, Entry(cfg, s, a.domain), a.err, a.close)
            <==> s.path in files && (!Ends(a) || !Removable(queuePath, s.path))
  {
    hide IsPermanentError, FilesAfter, Removable, Entry;
    EntryPath(cfg, s, a.domain);
    if s.path in files {
      FileStaysExactly(queuePath, files, a.closed, Entry(cfg, s, a.domain), a.err, a.close);
    } else {
      FileStaysGone(queuePath, files, a.closed, Entry(cfg, s, a.domain), a.err, a.close);
    }
  }

  lemma EntryPath(cfg: QueueModel.Config, s: Submission, domain: string)
    ensures Entry(cfg, s, domain).path == s.path
  {
  }

  /** In a series, an entry that is not over has lost its file exactly when the file lies where the
      engine removes files and a delivery has ended: one of another entry, or one of its own whose
      closing command erred. */
  lemma FileLostExactly(cfg: QueueModel.Config, queuePath: string, files: map<string, int>, s: Submission,
                        attempts: seq<Attempt>, domain: string)
    requires s.path in files && Series(cfg, queuePath, files, s, attempts)
    requires domain in Domains(s.recipients) && !Over(attempts, domain)
    ensures FileLost(cfg, queuePath, files, s, attempts, domain)
            <==> && Removable(queuePath, s.path)
                 && exists a :: a in attempts && Ends(a) && (a.domain != domain || !Closes(a))
  {
    hide Series, Ends, Closes, Removable, FilesAfterAll, Domains;
    FileGoneExactly(cfg, queuePath, files, s, attempts);
  }

  /** An entry without its file is never delivered: each further attempt fails. */
  lemma LostNeverAccepted(cfg: QueueModel.Config, queuePath: string, files: map<string, int>, s: Submission,
                          attempts: seq<Attempt>, a: Attempt)
    requires FileLost(cfg, queuePath, files, s, attempts, a.domain) && Series(cfg, queuePath, files, s, attempts + [a])
    ensures a.err.Some?
  {
    hide IsPermanentError, FilesAfterAll, Over, TriedSome;
    assert (attempts + [a])[..|attempts|] == attempts;
    EntryPath(cfg, s, a.domain);
  }

  ghost predicate MayLoseFile(cfg: QueueModel.Config, queuePath: string, files: map<string, int>, s: Submission) {
    exists attempts, domain ::
      Series(cfg, queuePath, files, s, attempts) && FileLost(cfg, queuePath, files, s, attempts, domain)
  }

  ghost predicate AllClose(attempts: seq<Attempt>) {
    forall a :: a in attempts && Ends(a) ==> Closes(a)
  }

  /** The same if every closing command goes through. */
  ghost predicate MayLoseFileClosing(cfg: QueueModel.Config, queuePath: string, files: map<string, int>, s: Submission) {
    exists attempts, domain ::
      && Series(cfg, queuePath, files, s, attempts) && AllClose(attempts)
      && FileLost(cfg, queuePath, files, s, attempts, domain)
  }

  /** A relay accepts the entry of a domain; `down` says that the Complete command errs. */
  function Accepted(s: Submission, domain: string, dns: MX.Dns, down: bool): Attempt {
    Attempt(domain, false, map[], Net("", Some(None), dns, "", (_, _, _) => None, None), None,
            Close(0, 0, 0, down, false, s.path + "x", 0, "", _ => Done))
  }

  /** It takes the file from every entry but its own, and from its own too if that is not closed. */
  lemma OneAccepted(cfg: QueueModel.Config, queuePath: string, files: map<string, int>, s: Submission, dns: MX.Dns,
                    first: string, other: string, down: bool)
    requires s.path in files && first in Domains(s.recipients) && other in Domains(s.recipients)
    requires (first != other || down) && Removable(queuePath, s.path)
    ensures var attempts := [Accepted(s, first, dns, down)];
            && Series(cfg, queuePath, files, s, attempts) && FileLost(cfg, queuePath, files, s, attempts, other)
            && (!down ==> AllClose(attempts))
  {
    hide Domains, Entry, Removable, Attempted;
    var a := Accepted(s, first, dns, down);
    EntryPath(cfg, s, first);
    AcceptedPossible(cfg, files, s, dns, first, down);
    assert [a][..0] == [];
    assert Series(cfg, queuePath, files, s, []);
    assert FilesAfterAll(cfg, queuePath, files, s, []) == files;
    assert |s.path + "x"| != |s.path|;
  }

  lemma AcceptedPossible(cfg: QueueModel.Config, files: map<string, int>, s: Submission, dns: MX.Dns, domain: string,
                         down: bool)
    requires s.path in files
    ensures Possible(cfg, s, files, Accepted(s, domain, dns, down))
  {
    hide IsPermanentError;
    EntryPath(cfg, s, domain);
  }

  lemma TwoOf(domains: set<string>) returns (d: string, e: string)
    requires |domains| >= 2
    ensures d in domains && e in domains && d != e
  {
    d :| d in domains;
    assert |domains - {d}| == |domains| - 1;
    e :| e in domains - {d};
  }

  lemma AtLeastTwo(domains: set<string>, d: string, e: string)
    requires d in domains && e in domains && d != e
    ensures |domains| >= 2
  {
    assert {d, e} <= domains;
    assert domains == {d, e} + (domains - {d, e});
  }

  /** A submission may leave an entry without its file exactly when a recipient has a domain and the
      file lies where the engine removes files: one lost Complete command is enough. */
  lemma MayLoseFileExactly(cfg: QueueModel.Config, queuePath: string, files: map<string, int>, s: Submission, dns: MX.Dns)
    requires s.path in files
    ensures MayLoseFile(cfg, queuePath, files, s) <==> Domains(s.recipients) != {} && Removable(queuePath, s.path)
  {
    hide Domains, Series, FileLost, Removable, Ends, Closes;
    if Domains(s.recipients) != {} && Removable(queuePath, s.path) {
      var domain :| domain in Domains(s.recipients);
      OneAccepted(cfg, queuePath, files, s, dns, domain, domain, true);
    }
    if MayLoseFile(cfg, queuePath, files, s) {
      var attempts, domain :|
        Series(cfg, queuePath, files, s, attempts) && FileLost(cfg, queuePath, files, s, attempts, domain);
      LostMeans(cfg, queuePath, files, s, attempts, domain);
      FileLostExactly(cfg, queuePath, files, s, attempts, domain);
    }
  }

  /** As long as every closing command goes through, it takes recipients in two domains. */
  lemma MayLoseFileClosingExactly(cfg: QueueModel.Config, queuePath: string, files: map<string, int>, s: Submission,
                                  dns: MX.Dns)
    requires s.path in files
    ensures MayLoseFileClosing(cfg, queuePath, files, s) <==> |Domains(s.recipients)| >= 2 && Removable(queuePath, s.path)
  {
    hide Domains, Series, FileLost, Removable, Ends, Closes;
    if |Domains(s.recipients)| >= 2 && Removable(queuePath, s.path) {
      var first, other := TwoOf(Domains(s.recipients));
      OneAccepted(cfg, queuePath, files, s, dns, first, other, false);
    }
    if MayLoseFileClosing(cfg, queuePath, files, s) {
      var attempts, domain :|
        && Series(cfg, queuePath, files, s, attempts) && AllClose(attempts)
        && FileLost(cfg, queuePath, files, s, attempts, domain);
      LostMeans(cfg, queuePath, files, s, attempts, domain);
      FileLostExactly(cfg, queuePath, files, s, attempts, domain);
      var a: Attempt :| a in attempts && Ends(a) && (a.domain != domain || !Closes(a));
      SeriesDomains(cfg, queuePath, files, s, attempts, a);
      AtLeastTwo(Domains(s.recipients), domain, a.domain);
    }
  }

  lemma LostMeans(cfg: QueueModel.Config, queuePath: string, files: map<string, int>, s: Submission,
                  attempts: seq<Attempt>, domain: string)
    requires FileLost(cfg, queuePath, files, s, attempts, domain)
    ensures domain in Domains(s.recipients) && !Over(attempts, domain)
  {
  }

  lemma {:induction false} SeriesDomains(cfg: QueueModel.Config, queuePath: string, files: map<string, int>, s: Submission,
                                         attempts: seq<Attempt>, a: Attempt)
    requires Series(cfg, queuePath, files, s, attempts) && a in attempts
    ensures a.domain in Domains(s.recipients)
  {
    hide Domains, Possible, FilesAfterAll, Over;
    var front, last := attempts[..|attempts| - 1], attempts[|attempts| - 1];
    assert attempts == front + [last];
    if a != last { SeriesDomains(cfg, queuePath, files, s, front, a); }
  }

  /** Mail to two domains: once the first is served the other entry fails for good or for ever, with
      every command going through. */
  lemma TwoDomainsLose(cfg: QueueModel.Config, dns: MX.Dns, now: int, ids: string -> Id)
    ensures var s := Submission("s@x", ["a@x", "b@y"], "q/1", 1, now, ids);
            && Domains(s.recipients) == {"x", "y"}
            && MayLoseFileClosing(cfg, "q/", map["q/1" := 1], s)
  {
    var s := Submission("s@x", ["a@x", "b@y"], "q/1", 1, now, ids);
    TwoDomains("a@x", "b@y");
    AtLeastTwo({"x", "y"}, "x", "y");
    assert Removable("q/", "q/1");
    hide Domains, MayLoseFileClosing, Removable;
    MayLoseFileClosingExactly(cfg, "q/", map["q/1" := 1], s, dns);
  }

  /** Mail to one domain, accepted, whose Complete command errs: its entry waits again, without its
      file. */
  lemma LostCompleteLoses(cfg: QueueModel.Config, queuePath: string, files: map<string, int>, s: Submission, dns: MX.Dns,
                          domain: string, db: Db)
    requires s.path in files && domain in Domains(s.recipients) && Removable(queuePath, s.path)
    requires s.ids(domain) in db.messages && s.ids(domain) in db.processing
    ensures var a := Accepted(s, domain, dns, true); var m := Entry(cfg, s, domain);
            && Possible(cfg, s, files, a) && a.err.None?
            && m.id in Dispatched(cfg, db, a.closed, m, a.err, a.close).processing
            && FileLost(cfg, queuePath, files, s, [a], domain)
  {
    hide Domains, Entry, Removable, FileLost, Series, Possible, Dispatched;
    var a := Accepted(s, domain, dns, true);
    EntryMeans(cfg, s, domain);
    AcceptedPossible(cfg, files, s, dns, domain, true);
    OneAccepted(cfg, queuePath, files, s, dns, domain, domain, true);
    ClosesMeans(cfg, db, Entry(cfg, s, domain), a);
  }

  lemma TwoDomains(a: string, b: string)
    requires |a| == 3 && 'a' <= a[0] <= 'z' && a[1] == '@' && 'a' <= a[2] <= 'z'
    requires |b| == 3 && 'a' <= b[0] <= 'z' && b[1] == '@' && 'a' <= b[2] <= 'z'
    ensures Domains([a, b]) == {[a[2]], [b[2]]}
  {
    hide ExtractDomain;
    DomainOf(a);
    DomainOf(b);
    assert a in [a, b] && b in [a, b];
  }

  lemma DomainOf(email: string)
    requires |email| == 3 && 'a' <= email[0] <= 'z' && email[1] == '@' && 'a' <= email[2] <= 'z'
    ensures ExtractDomain(email) == [email[2]]
  {
    assert email[1..][0] == '@' && HasPrefix(email[1..], "@");
    assert Index(email[1..], "@") == Some(0);
    assert Index(email, "@") == Some(1);
    assert email[2..] == [email[2]];
    assert Lower(email[2..]) == [email[2]];
  }
}
