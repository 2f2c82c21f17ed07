/** Delivery to one local recipient: from the result of the recipient's script to what becomes of
    the message (deliverToLocalRecipient in internal/smtp/backend.go). */
module LocalDelivery {
  import opened Wrappers
  import opened SieveSyntax
  import SieveParser
  import SieveLimits
  import opened SieveConditions
  import opened SieveVacation
  import opened SieveExec
  import opened SieveOutcome
  import opened DeliveryErrors

  /** What the address resolves to. */
  datatype Alias = Unresolved | Local | External(address: string)

  datatype User = User(id: int, quota: int, used: int)

  /** The script store has an error, no active script, or a text. */
  datatype ScriptState = StoreFails | NoScript | Active(content: string)

  /** How everything outside answers: the alias table, the user table, the delivery engine and its
      queue file and commands (with the domains reached before a failing one), the script filter and
      the mailbox store. */
  datatype Surroundings = Surroundings(
    cancelled: bool, alias: Alias, user: Option<User>,
    engine: bool, queueFile: Option<string>, enqueueFails: bool, reached: set<string>,
    sieve: Option<ScriptState>, env: Env,
    createFails: bool, appendFails: bool)

  datatype DeliveryError = Cancelled | AliasFailed | SaveFailed | EnqueueFailed | NoUser | Rejected(message: string)
                         | NoInbox | QuotaExceeded | AppendFailed

  const INBOX := "INBOX"

  // ----- the script's verdict -----

  /** The result of the filter; None is an error, which counts as no filter. */
  function Filtered(sieve: Option<ScriptState>, records: Responses, env: Env): Option<Outcome> {
    if sieve.None? || sieve.value.StoreFails? then None
    else if sieve.value.NoScript? then Some(DEFAULT_OUTCOME)
    else
      var parsed := SieveParser.ParseText(sieve.value.content);
      if parsed.Err? then Some(DEFAULT_OUTCOME) else Some(Execution(parsed.value, records, env).0)
  }

  function RecordsKept(sieve: Option<ScriptState>, records: Responses, env: Env): Responses {
    if sieve.None? || !sieve.value.Active? then records
    else
      var parsed := SieveParser.ParseText(sieve.value.content);
      if parsed.Err? then records else Execution(parsed.value, records, env).1
  }

  method RunFilter(executor: Executor, state: ScriptState, env: Env) returns (o: Option<Outcome>)
    modifies executor.store
    ensures o == Filtered(Some(state), old(executor.store.responses), env)
    ensures executor.store.responses == RecordsKept(Some(state), old(executor.store.responses), env)
  {
    hide Execution, SieveParser.ParseText;
    match state
    case StoreFails => o := None;
    case NoScript => o := Some(DEFAULT_OUTCOME);
    case Active(content) =>
      var parsed := SieveParser.Parse(content);
      if parsed.Err? {
        return Some(DEFAULT_OUTCOME);
      }
      var result := executor.ExecuteScript(parsed.value, env);
      o := Some(result.View());
  }

  // ----- what becomes of the message -----

  /** The addresses the engine makes queue entries for. */
  function Routable(addresses: seq<string>): seq<string> {
    if addresses == [] then []
    else
      var rest := Routable(addresses[..|addresses| - 1]);
      var last := addresses[|addresses| - 1];
      if ExtractDomain(last) != "" then rest + [last] else rest
  }

  /** The addresses for which a failing engine made entries all the same. */
  function Stranded(addresses: seq<string>, reached: set<string>): seq<string> {
    if addresses == [] then []
    else
      var rest := Stranded(addresses[..|addresses| - 1], reached);
      var last := addresses[|addresses| - 1];
      if ExtractDomain(last) != "" && ExtractDomain(last) in reached then rest + [last] else rest
  }

  /** What the queue gets for these addresses. */
  function QueuedFor(path: string, addresses: seq<string>): seq<(string, seq<string>)> {
    if addresses == [] then [] else [(path, addresses)]
  }

  /** The end of a delivery: its error, the mailbox that got the message, the addresses it was
      queued for. */
  datatype End = End(error: Option<DeliveryError>, stored: Option<string>, forwarded: seq<string>)

  /** The message was neither stored nor queued with its file, and the sender is told all is well. */
  predicate Vanished(e: End) {
    e.error.None? && e.stored.None? && e.forwarded == []
  }

  function Queueable(s: Surroundings, data: string): bool {
    data != "" && s.queueFile.Some?
  }

  /** The store, given the folders of the user and the target. */
  function Stored(s: Surroundings, user: User, folders: set<string>, target: string, data: string,
                  forwarded: seq<string>): End
  {
    var place := if target in folders then Some(target)
                 else if target != INBOX && !s.createFails then Some(target)
                 else if target != INBOX && INBOX in folders then Some(INBOX)
                 else None;
    if place.None? then End(Some(NoInbox), None, forwarded)
    else if user.quota > 0 && user.used + |data| > user.quota then End(Some(QuotaExceeded), None, forwarded)
    else if s.appendFails then End(Some(AppendFailed), None, forwarded)
    else End(None, place, forwarded)
  }

  function Target(o: Outcome): string {
    if o.filed && o.fileInto != "" then o.fileInto else INBOX
  }

  function Disposed(s: Surroundings, user: User, folders: set<string>, o: Outcome, data: string): End {
    if o.discarded then End(None, None, [])
    else if o.rejected then End(Some(Rejected(o.rejectMsg)), None, [])
    else if !(o.redirected && o.redirectTo != []) then Stored(s, user, folders, Target(o), data, [])
    else if s.engine && !Queueable(s, data) then End(Some(SaveFailed), None, [])
    else
      var forwarded := if s.engine && !s.enqueueFails then Routable(o.redirectTo) else [];
      if !o.keep then End(None, None, forwarded)
      else Stored(s, user, folders, Target(o), data, forwarded)
  }

  function Delivered(s: Surroundings, folders: set<string>, records: Responses, data: string): End {
    if s.cancelled then End(Some(Cancelled), None, [])
    else if s.alias.Unresolved? then End(Some(AliasFailed), None, [])
    else if s.alias.External? then
      if !s.engine then End(None, None, [])
      else if !Queueable(s, data) then End(Some(SaveFailed), None, [])
      else if s.enqueueFails then End(Some(EnqueueFailed), None, [])
      else End(None, None, Routable([s.alias.address]))
    else if s.user.None? then End(Some(NoUser), None, [])
    else
      var o := Filtered(s.sieve, records, s.env);
      if o.None? then Stored(s, s.user.value, folders, INBOX, data, [])
      else Disposed(s, s.user.value, folders, o.value, data)
  }

  /** The addresses whose queue entries a failing engine leaves behind, without their file. */
  function LeftBehind(s: Surroundings, o: Outcome, data: string): seq<string> {
    if o.discarded || o.rejected || !o.redirected || o.redirectTo == [] then []
    else if s.engine && Queueable(s, data) && s.enqueueFails then Stranded(o.redirectTo, s.reached) else []
  }

  function LeftInQueue(s: Surroundings, records: Responses, data: string): seq<string> {
    if s.cancelled || !s.alias.Local? || s.user.None? then []
    else
      var o := Filtered(s.sieve, records, s.env);
      if o.None? then [] else LeftBehind(s, o.value, data)
  }

  lemma NobodyStranded(address: string)
    ensures Stranded([address], {}) == []
  {
  }

  /** What a backend holds: messages by user and mailbox, queued messages with their addresses, and
      the files that stand for them. */
  class Backend {
    const executor: Executor
    var mailboxes: map<(int, string), seq<string>>
    var queued: seq<(string, seq<string>)>
    var queueFiles: set<string>

    constructor (executor: Executor)
      ensures this.executor == executor && mailboxes == map[] && queued == [] && queueFiles == {}
    {
      this.executor := executor;
      mailboxes, queued, queueFiles := map[], [], {};
    }

    function Folders(user: int): set<string>
      reads this
    {
      set k | k in mailboxes && k.0 == user :: k.1
    }

    /** The engine makes entries for the routable addresses; a failed command leaves those of the
        domains reached before it, and no file. */
    method Forward(path: string, addresses: seq<string>, fails: bool, reached: set<string>) returns (ok: bool)
      modifies this`queued, this`queueFiles
      ensures ok == !fails
      ensures queued == old(queued) + QueuedFor(path, if ok then Routable(addresses) else Stranded(addresses, reached))
      ensures queueFiles == if ok then old(queueFiles) + {path} else old(queueFiles) - {path}
    {
      hide ExtractDomain;
      queueFiles := queueFiles + {path};
      var routable: seq<string> := [];
      for i := 0 to |addresses|
        invariant routable == if fails then Stranded(addresses[..i], reached) else Routable(addresses[..i])
        invariant queueFiles == old(queueFiles) + {path} && queued == old(queued)
      {
        assert addresses[..i + 1][..i] == addresses[..i];
        var domain := ExtractDomain(addresses[i]);
        if domain != "" && (!fails || domain in reached) {
          routable := routable + [addresses[i]];
        }
      }
      assert addresses[..|addresses|] == addresses;
      queued := queued + QueuedFor(path, routable);
      if fails {
        queueFiles := queueFiles - {path};
      }
      ok := !fails;
    }

    method Store(s: Surroundings, user: User, target: string, data: string, ghost forwarded: seq<string>)
      returns (error: Option<DeliveryError>, ghost end: End)
      modifies this`mailboxes
      ensures end == Stored(s, user, old(Folders(user.id)), target, data, forwarded) && error == end.error
      ensures MailboxLeft(old(mailboxes), user.id, end.stored, data)
    {
      end := Stored(s, user, Folders(user.id), target, data, forwarded);
      FolderKnown(user.id, target);
      FolderKnown(user.id, INBOX);
      var place := target;
      if (user.id, target) !in mailboxes {
        if target == INBOX {
          return Some(NoInbox), end;
        }
        if !s.createFails {
          mailboxes := mailboxes[(user.id, target) := []];
        } else {
          if (user.id, INBOX) !in mailboxes {
            return Some(NoInbox), end;
          }
          place := INBOX;
        }
      }
      if user.quota > 0 {
        if user.used + |data| > user.quota {
          return Some(QuotaExceeded), end;
        }
      }
      if s.appendFails {
        return Some(AppendFailed), end;
      }
      mailboxes := mailboxes[(user.id, place) := mailboxes[(user.id, place)] + [data]];
      error := None;
    }

    lemma FolderKnown(user: int, folder: string)
      ensures folder in Folders(user) <==> (user, folder) in mailboxes
    {
      if (user, folder) in mailboxes {
        assert (user, folder).0 == user && (user, folder).1 == folder;
      }
    }

    /** What becomes of a message whose filter gave this result. */
    method Dispose(s: Surroundings, user: User, o: Outcome, data: string) returns (error: Option<DeliveryError>, ghost end: End)
      modifies this`mailboxes, this`queued, this`queueFiles
      ensures end == Disposed(s, user, old(Folders(user.id)), o, data) && error == end.error
      ensures QueueLeft(old(queued), s, end.forwarded, LeftBehind(s, o, data))
      ensures MailboxLeft(old(mailboxes), user.id, end.stored, data)
    {
      hide Stored, Routable, Stranded, ExtractDomain;
      ghost var folders := Folders(user.id);
      end := Disposed(s, user, folders, o, data);
      if o.discarded {
        return None, end;
      }
      if o.rejected {
        return Some(Rejected(o.rejectMsg)), end;
      }
      ghost var forwarded: seq<string> := [];
      if o.redirected && |o.redirectTo| > 0 {
        if s.engine {
          if data == "" || s.queueFile.None? {
            return Some(SaveFailed), end;
          }
          var ok := Forward(s.queueFile.value, o.redirectTo, s.enqueueFails, s.reached);
          if ok { forwarded := Routable(o.redirectTo); }
        }
        if !o.keep {
          return None, end;
        }
      }
      var target := INBOX;
      if o.filed && o.fileInto != "" {
        target := o.fileInto;
      }
      ghost var end';
      error, end' := Store(s, user, target, data, forwarded);
      StoredForwards(s, user, folders, target, data, forwarded);
    }

    /** The queue got the forwarded addresses, with their file, or those a failing engine left. */
    ghost predicate QueueLeft(before: seq<(string, seq<string>)>, s: Surroundings, forwarded: seq<string>, left: seq<string>)
      reads this
    {
      && (forwarded == [] && left == [] ==> queued == before)
      && (forwarded != [] ==>
            s.queueFile.Some? && queued == before + [(s.queueFile.value, forwarded)] && s.queueFile.value in queueFiles)
      && (forwarded == [] && left != [] ==>
            s.queueFile.Some? && queued == before + [(s.queueFile.value, left)] && s.queueFile.value !in queueFiles)
    }

    /** The mailbox that got the message has it at its end; no other mailbox changed. */
    ghost predicate MailboxLeft(before: map<(int, string), seq<string>>, user: int, stored: Option<string>, data: string)
      reads this
    {
      && (stored.Some? ==>
            var k := (user, stored.value);
            k in mailboxes && mailboxes[k] == (if k in before then before[k] else []) + [data])
      && (forall k :: k in before && (stored.None? || k != (user, stored.value)) ==> k in mailboxes && mailboxes[k] == before[k])
    }

    /** The message ends as the specification says: that is the error returned, one more entry in
        the queue if it was forwarded, one more message in the mailbox if it was stored. */
    method DeliverToLocalRecipient(s: Surroundings, data: string) returns (error: Option<DeliveryError>, ghost end: End)
      modifies this, executor.store
      ensures end == Delivered(s, if s.user.Some? then old(Folders(s.user.value.id)) else {}, old(executor.store.responses), data)
      ensures error == end.error
      ensures executor.store.responses ==
              if !s.cancelled && s.alias.Local? && s.user.Some?
              then RecordsKept(s.sieve, old(executor.store.responses), s.env) else old(executor.store.responses)
      ensures QueueLeft(old(queued), s, end.forwarded, LeftInQueue(s, old(executor.store.responses), data))
      ensures end.stored.Some? ==> s.user.Some?
      ensures if s.user.Some? then MailboxLeft(old(mailboxes), s.user.value.id, end.stored, data) else mailboxes == old(mailboxes)
    {
      hide Filtered, RecordsKept, Stored, Routable, LeftBehind, ExtractDomain;
      end := Delivered(s, if s.user.Some? then Folders(s.user.value.id) else {}, executor.store.responses, data);
      if s.cancelled {
        return Some(Cancelled), end;
      }
      match s.alias
      case Unresolved => return Some(AliasFailed), end;
      case External(address) =>
        error := ForwardExternal(s, address, data);
        return;
      case Local =>
      if s.user.None? {
        return Some(NoUser), end;
      }
      var user := s.user.value;
      ghost var end';
      if s.sieve.Some? {
        var result := RunFilter(executor, s.sieve.value, s.env);
        if result.Some? {
          error, end' := Dispose(s, user, result.value, data);
          return;
        }
      } else {
        NoFilter(executor.store.responses, s.env);
      }
      error, end' := Store(s, user, INBOX, data, []);
      StoredForwards(s, user, old(Folders(user.id)), INBOX, data, []);
    }

    method ForwardExternal(s: Surroundings, address: string, data: string) returns (error: Option<DeliveryError>)
      modifies this`queued, this`queueFiles
      ensures s.engine && Queueable(s, data) && !s.enqueueFails ==>
                && error == None
                && queued == old(queued) + (if Routable([address]) != [] then [(s.queueFile.value, Routable([address]))] else [])
                && s.queueFile.value in queueFiles
      ensures s.engine && Queueable(s, data) && s.enqueueFails ==> error == Some(EnqueueFailed) && queued == old(queued)
      ensures s.engine && !Queueable(s, data) ==> error == Some(SaveFailed) && queued == old(queued)
      ensures !s.engine ==> error == None && queued == old(queued)
    {
      if !s.engine {
        return None;
      }
      if data == "" || s.queueFile.None? {
        return Some(SaveFailed);
      }
      var ok := Forward(s.queueFile.value, [address], s.enqueueFails, {});
      NobodyStranded(address);
      error := if ok then None else Some(EnqueueFailed);
    }
  }

  lemma NoFilter(records: Responses, env: Env)
    ensures Filtered(None, records, env) == None && RecordsKept(None, records, env) == records
  {
  }

  lemma StoredForwards(s: Surroundings, user: User, folders: set<string>, target: string, data: string, forwarded: seq<string>)
    ensures Stored(s, user, folders, target, data, forwarded).forwarded == forwarded
  {
  }

  // ----- nothing vanishes silently, except -----

  /** The actions of the matching rules of the active script; none without a script that parses. */
  function Taken(sieve: Option<ScriptState>, env: Env): seq<Action> {
    if sieve.None? || !sieve.value.Active? then []
    else
      var parsed := SieveParser.ParseText(sieve.value.content);
      if parsed.Ok? then EffectiveActions(parsed.value.rules, env.msg) else []
  }

  function TakenActions(s: Surroundings): seq<Action> {
    Taken(s.sieve, s.env)
  }

  /** The actions send the message on and keep no copy. */
  predicate OnlyRedirect(actions: seq<Action>) {
    Redirects(actions) != [] && !KeptAtEnd(actions)
  }

  lemma FilterTakes(s: Surroundings, folders: set<string>, records: Responses, data: string) returns (o: Outcome)
    requires !s.cancelled && s.alias.Local? && s.user.Some?
    ensures Disposes(TakenActions(s), o)
    ensures Delivered(s, folders, records, data) == Disposed(s, s.user.value, folders, o, data)
    ensures LeftInQueue(s, records, data) == LeftBehind(s, o, data)
  {
    hide SieveParser.ParseText, Execution, EffectiveActions, Disposes, Stored, Stranded;
    DefaultDisposes();
    o := DEFAULT_OUTCOME;
    if s.sieve.Some? && s.sieve.value.Active? {
      var parsed := SieveParser.ParseText(s.sieve.value.content);
      if parsed.Ok? {
        ImplicitKeep(parsed.value, records, s.env);
        o := Execution(parsed.value, records, s.env).0;
      }
    }
  }

  lemma DefaultDisposes()
    ensures Disposes([], DEFAULT_OUTCOME)
  {
  }

  lemma DisposesMeans(actions: seq<Action>, o: Outcome)
    requires Disposes(actions, o)
    ensures OnlyRedirect(actions) <==> o.redirected && o.redirectTo != [] && !o.keep
    ensures o.redirectTo == Redirects(actions) && (o.redirected <==> o.redirectTo != []) && o.keep == KeptAtEnd(actions)
    ensures o.discarded == (DiscardAction in actions)
    ensures LastReject(actions) == if o.rejected then Some(o.rejectMsg) else None
    ensures LastFolder(actions) == if o.filed then Some(o.fileInto) else None
  {
  }

  /** The engine queues no entry for the addresses, although a file could be written. */
  predicate ForwardLost(s: Surroundings, addresses: seq<string>, data: string) {
    !s.engine || (Queueable(s, data) && (s.enqueueFails || NoneRoutable(addresses)))
  }

  /** No address has a domain. */
  predicate NoneRoutable(addresses: seq<string>) {
    forall a :: a in addresses ==> ExtractDomain(a) == ""
  }

  lemma {:induction false} RoutableMeans(addresses: seq<string>)
    ensures Routable(addresses) == [] <==> NoneRoutable(addresses)
  {
    hide ExtractDomain;
    if addresses != [] {
      hide NoneRoutable;
      var front, last := addresses[..|addresses| - 1], addresses[|addresses| - 1];
      RoutableMeans(front);
      NoneRoutableMore(front, last);
      assert addresses == front + [last];
    }
  }

  /** Routable keeps every address with a domain, in order, and no other. */
  lemma {:induction false} RoutableCat(xs: seq<string>, ys: seq<string>)
    ensures Routable(xs + ys) == Routable(xs) + Routable(ys)
  {
    hide ExtractDomain;
    if ys == [] {
      assert xs + ys == xs;
    } else {
      assert (xs + ys)[..|xs + ys| - 1] == xs + ys[..|ys| - 1];
      RoutableCat(xs, ys[..|ys| - 1]);
    }
  }

  lemma RoutableOne(address: string)
    ensures Routable([address]) == if ExtractDomain(address) == "" then [] else [address]
  {
    hide ExtractDomain;
    assert [address][..0] == [] && Routable([]) == [];
  }

  lemma NoneRoutableMore(front: seq<string>, last: string)
    ensures NoneRoutable(front + [last]) <==> NoneRoutable(front) && ExtractDomain(last) == ""
  {
    hide ExtractDomain;
    assert forall a :: a in front + [last] <==> a in front || a == last;
  }

  /** Exactly when the sender is told all is well and the message is gone: the script discarded it,
      or it was only to be forwarded, by the script or by an alias, and no queue entry was made. A
      user without a script that parses so never loses a message this way. */
  lemma VanishesExactly(s: Surroundings, folders: set<string>, records: Responses, data: string)
    ensures Vanished(Delivered(s, folders, records, data)) <==>
            && !s.cancelled
            && match s.alias
               case Unresolved => false
               case External(address) =>
                 !s.engine || (Queueable(s, data) && !s.enqueueFails && ExtractDomain(address) == "")
               case Local =>
                 && s.user.Some?
                 && var actions := TakenActions(s);
                    || DiscardAction in actions
                    || (LastReject(actions).None? && OnlyRedirect(actions) && ForwardLost(s, Redirects(actions), data))
  {
    if s.alias.External? {
      hide ExtractDomain, NoneRoutable;
      RoutableMeans([s.alias.address]);
      OneAddress(s.alias.address);
    } else if s.alias.Local? && s.user.Some? && !s.cancelled {
      hide TakenActions, Delivered, Disposes, Disposed, ExtractDomain, NoneRoutable, OnlyRedirect, Redirects, LastReject;
      var o := FilterTakes(s, folders, records, data);
      RoutableMeans(o.redirectTo);
      DisposedVanishes(s, s.user.value, folders, o, data);
      DisposesMeans(TakenActions(s), o);
    }
  }

  lemma DisposedVanishes(s: Surroundings, user: User, folders: set<string>, o: Outcome, data: string)
    ensures Vanished(Disposed(s, user, folders, o, data)) <==>
            o.discarded || (!o.rejected && o.redirected && o.redirectTo != [] && !o.keep && ForwardLost(s, o.redirectTo, data))
  {
    hide Routable, Target, ExtractDomain, NoneRoutable;
    RoutableMeans(o.redirectTo);
  }

  lemma OneAddress(address: string)
    ensures NoneRoutable([address]) <==> ExtractDomain(address) == ""
  {
    hide ExtractDomain;
    assert address in [address];
  }

  /** Queue commands and the mailbox store do their part. */
  predicate Healthy(s: Surroundings, folders: set<string>, data: string) {
    && !s.cancelled && s.alias.Local? && s.user.Some?
    && s.engine && Queueable(s, data) && !s.enqueueFails
    && INBOX in folders && !s.appendFails
    && !OverQuota(s.user.value, data)
  }

  predicate OverQuota(user: User, data: string) {
    user.quota > 0 && user.used + |data| > user.quota
  }

  /** Without a script filter, when its store fails, without an active script, and with one that does
      not parse, a message goes to INBOX. */
  lemma StoredWithoutScript(s: Surroundings, folders: set<string>, records: Responses, data: string)
    requires !s.cancelled && s.alias.Local? && s.user.Some?
    requires || s.sieve.None? || s.sieve.value.StoreFails? || s.sieve.value.NoScript?
             || SieveParser.ParseText(s.sieve.value.content).Err?
    ensures var e := Delivered(s, folders, records, data);
            && e.forwarded == [] && (e.stored == if e.error.None? then Some(INBOX) else None)
            && (e.error.None? <==> INBOX in folders && !OverQuota(s.user.value, data) && !s.appendFails)
            && (Healthy(s, folders, data) ==> e.stored == Some(INBOX) && e.error == None)
  {
    hide SieveParser.ParseText;
  }

  /** In healthy surroundings a message is stored or queued unless the actions taken discard or
      reject it, or do nothing but redirect it to addresses without a domain. */
  lemma StoredOrForwarded(s: Surroundings, folders: set<string>, records: Responses, data: string)
    requires Healthy(s, folders, data)
    ensures var actions := TakenActions(s);
            var e := Delivered(s, folders, records, data);
            (e.stored.Some? || e.forwarded != [])
            <==> && DiscardAction !in actions && LastReject(actions).None?
                 && !(OnlyRedirect(actions) && NoneRoutable(Redirects(actions)))
  {
    hide Delivered, TakenActions, Routable, KeptAtEnd, LastReject, Redirects, Target, NoneRoutable, Disposes, OnlyRedirect;
    var o := FilterTakes(s, folders, records, data);
    DisposesMeans(TakenActions(s), o);
    RoutableMeans(o.redirectTo);
  }

  /** In any surroundings: actions that neither discard nor reject the message and keep it at the end
      or never redirect it end in a stored message or an error. With an error it is nowhere else. */
  lemma FilingScriptsStore(s: Surroundings, folders: set<string>, records: Responses, data: string)
    requires !s.cancelled && s.alias.Local? && s.user.Some?
    ensures var actions := TakenActions(s);
            var e := Delivered(s, folders, records, data);
            && (e.stored.Some? ==> e.error.None?)
            && (DiscardAction !in actions && LastReject(actions).None? && !OnlyRedirect(actions)
                ==> e.error.Some? || e.stored.Some?)
  {
    hide Delivered, TakenActions, Routable, KeptAtEnd, LastReject, Redirects, Target, Disposes, OnlyRedirect;
    var o := FilterTakes(s, folders, records, data);
    DisposesMeans(TakenActions(s), o);
  }

  /** In healthy surroundings a message is stored exactly when the actions taken neither discard nor
      reject it and either keep it at the end or never redirect it; and it is queued for the addresses
      they redirect to that have a domain. A redirect without a later keep so overrides every
      fileinto. */
  lemma StoredExactly(s: Surroundings, folders: set<string>, records: Responses, data: string)
    requires Healthy(s, folders, data)
    ensures var actions := TakenActions(s);
            var e := Delivered(s, folders, records, data);
            var dropped := DiscardAction in actions || LastReject(actions).Some?;
            && (e.stored.Some? <==> !dropped && (KeptAtEnd(actions) || Redirects(actions) == []))
            && e.forwarded == (if dropped then [] else Routable(Redirects(actions)))
            && e.error == (if LastReject(actions).Some? && DiscardAction !in actions
                           then Some(Rejected(LastReject(actions).value)) else None)
  {
    hide Delivered, TakenActions, Routable, KeptAtEnd, LastReject, Redirects, Target, Disposes;
    var o := FilterTakes(s, folders, records, data);
    DisposesMeans(TakenActions(s), o);
    NothingRoutable();
  }

  lemma NothingRoutable()
    ensures Routable([]) == []
  {
  }

  /** In any surroundings: a message only redirected is never stored, without an error, and every
      other result of a script ends in a stored message, in the folder it names, or in an error. */
  lemma RedirectOverridesFileinto(s: Surroundings, user: User, folders: set<string>, o: Outcome, data: string)
    requires !o.discarded && !o.rejected && (s.engine ==> Queueable(s, data))
    ensures var e := Disposed(s, user, folders, o, data);
            var onlyRedirected := o.redirected && o.redirectTo != [] && !o.keep;
            && (onlyRedirected ==> e.stored.None? && e.error.None?)
            && (!onlyRedirected ==> e.error.Some? || e.stored.Some?)
            && (e.error.None? && e.stored.Some? && (Target(o) in folders || !s.createFails) && Target(o) != INBOX
                ==> e.stored == Some(Target(o)))
  {
    hide Routable, Target;
  }

  /** In any surroundings: a stored message is in the folder of the last fileinto of the actions
      taken, or in INBOX if there is none or it is missing and cannot be made, and within the quota;
      a message that can be stored there is. */
  lemma FiledWhere(s: Surroundings, folders: set<string>, records: Responses, data: string)
    requires !s.cancelled && s.alias.Local? && s.user.Some?
    ensures var actions := TakenActions(s);
            var e := Delivered(s, folders, records, data);
            var place := match LastFolder(actions)
                         case None => INBOX
                         case Some(folder) => if folder in folders || !s.createFails then folder else INBOX;
            && (e.stored.Some? ==>
                  && e.stored.value == place && (place == INBOX ==> INBOX in folders)
                  && !OverQuota(s.user.value, data) && !s.appendFails)
            && (DiscardAction !in actions && LastReject(actions).None? && Redirects(actions) == []
                && (place == INBOX ==> INBOX in folders) ==>
                  e.error == if OverQuota(s.user.value, data) then Some(QuotaExceeded)
                             else if s.appendFails then Some(AppendFailed) else None)
  {
    hide Delivered, TakenActions, Routable, KeptAtEnd, LastReject, Redirects, LastFolder, Disposes;
    var o := FilterTakes(s, folders, records, data);
    DisposesMeans(TakenActions(s), o);
    FoldersNamed(s);
  }

  /** An address that does not lead to a user here: nothing is stored, and the message is queued for
      an external alias with a domain or the sender is told otherwise, but for two exceptions. */
  lemma ElsewhereExactly(s: Surroundings, folders: set<string>, records: Responses, data: string)
    requires s.cancelled || !s.alias.Local? || s.user.None?
    ensures var e := Delivered(s, folders, records, data);
            && e.stored == None && LeftInQueue(s, records, data) == []
            && (e.forwarded != [] ==>
                  && s.alias.External? && e.forwarded == [s.alias.address] && e.error == None
                  && ExtractDomain(s.alias.address) != "")
            && (e.forwarded == [] ==>
                  (e.error == None <==>
                   !s.cancelled && s.alias.External?
                   && (!s.engine || (Queueable(s, data) && !s.enqueueFails && ExtractDomain(s.alias.address) == ""))))
  {
    hide ExtractDomain, Routable;
    if s.alias.External? { RoutableOne(s.alias.address); }
  }

  /** Only a failing queue command leaves entries behind: those of the redirect addresses whose domain
      it had reached. */
  lemma LeftExactly(s: Surroundings, records: Responses, data: string)
    requires !s.cancelled && s.alias.Local? && s.user.Some?
    ensures var actions := TakenActions(s);
            LeftInQueue(s, records, data)
            == if DiscardAction !in actions && LastReject(actions).None? && s.engine && Queueable(s, data) && s.enqueueFails
               then Stranded(Redirects(actions), s.reached) else []
  {
    hide TakenActions, Stranded, LastReject, Redirects, Disposes, Queueable;
    var o := FilterTakes(s, {}, records, data);
    DisposesMeans(TakenActions(s), o);
    NothingStranded(s.reached);
  }

  lemma NothingStranded(reached: set<string>)
    ensures Stranded([], reached) == []
  {
  }

  /** Stranded keeps, in order, the addresses with a domain that was reached. */
  lemma {:induction false} StrandedCat(xs: seq<string>, ys: seq<string>, reached: set<string>)
    ensures Stranded(xs + ys, reached) == Stranded(xs, reached) + Stranded(ys, reached)
  {
    hide ExtractDomain;
    if ys == [] {
      assert xs + ys == xs;
    } else {
      assert (xs + ys)[..|xs + ys| - 1] == xs + ys[..|ys| - 1];
      StrandedCat(xs, ys[..|ys| - 1], reached);
    }
  }

  lemma StrandedOne(address: string, reached: set<string>)
    ensures Stranded([address], reached) ==
            if ExtractDomain(address) != "" && ExtractDomain(address) in reached then [address] else []
  {
    hide ExtractDomain;
    assert [address][..0] == [] && Stranded([], reached) == [];
  }

  lemma {:induction false} EffectiveFrom(rules: seq<Rule>, msg: Message, a: Action)
    requires a in EffectiveActions(rules, msg)
    ensures exists rule :: rule in rules && a in rule.actions
  {
    hide RuleMatches, HasTerminal;
    if rules == [] {
      assert false;
    } else if a in rules[0].actions {
      assert rules[0] in rules;
    } else {
      EffectiveFrom(rules[1..], msg, a);
      var rule :| rule in rules[1..] && a in rule.actions;
      assert rule in rules;
    }
  }

  lemma {:induction false} LastFolderFrom(actions: seq<Action>)
    ensures LastFolder(actions).Some? ==> FileIntoAction(LastFolder(actions).value) in actions
  {
    if actions != [] {
      LastFolderFrom(actions[..|actions| - 1]);
    }
  }

  /** The parser lets no fileinto without a folder through. */
  lemma FoldersNamed(s: Surroundings)
    ensures LastFolder(TakenActions(s)) != Some("")
  {
    hide SieveParser.ParseText, EffectiveActions;
    var actions := TakenActions(s);
    if actions != [] {
      LastFolderFrom(actions);
      SieveLimits.AcceptedScripts(s.sieve.value.content);
      if LastFolder(actions) == Some("") {
        EffectiveFrom(SieveParser.ParseText(s.sieve.value.content).value.rules, s.env.msg, FileIntoAction(""));
      }
    }
  }
}
