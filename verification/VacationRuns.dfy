/** Vacation answers of whole deliveries: what one execution puts on record, and how far apart the
    answers to one sender are in any run of arrivals and cleanups. */
module VacationRuns {
  import opened Wrappers
  import opened Strings
  import opened SieveSyntax
  import SieveParser
  import SieveLimits
  import opened SieveConditions
  import opened SieveMeanings
  import opened SieveVacation
  import opened SieveExec
  import opened SieveOutcome
  import opened LocalDelivery

  // ----- one execution -----

  function Row(env: Env): Key {
    SenderKey(env.user, env.msg.from)
  }

  /** The row is that of the user and the bare address, whatever its case and the name before it. */
  lemma RowOfSender(env: Env, name: string, local: string, domain: string, after: string)
    requires '@' !in domain && Bare(local + "@" + domain)
    requires || (env.msg.from == local + "@" + domain && '<' !in local + domain)
             || (env.msg.from == name + "<" + (local + "@" + domain) + ">" + after
                 && '<' !in name && '>' !in name + local + domain)
    ensures Row(env) == (env.user, Lower(local + "@" + domain))
  {
    hide ExtractAddressPart, Bare, Lower;
    if env.msg.from == local + "@" + domain && '<' !in local + domain {
      AddressAlone(local, domain, "all");
    } else {
      AddressInBrackets(name, local, domain, after, "all");
    }
  }

  /** The answer is that of the action, and the sender's row is the present second; no other changed. */
  predicate Answers(a: Action, records: Responses, env: Env, o: Outcome, records': Responses) {
    && a.VacationAction? && o.vacation && o.vacationTo == env.msg.from && o.vacationBody == a.body
    && (o.vacationSubject == if a.subject == "" then "Re: " + env.msg.subject else a.subject)
    && (Row(env) in records ==> env.now - records[Row(env)] > Interval(a.days))
    && records' == records[Row(env) := Truncate(env.now)]
  }

  predicate NoneResponds(actions: seq<Action>, records: Responses, env: Env) {
    forall a :: a in actions && a.VacationAction? ==> !Responds(a, records, env)
  }

  lemma NoneRespondsCut(actions: seq<Action>, records: Responses, env: Env)
    requires actions != []
    ensures NoneResponds(actions, records, env) <==>
            (actions[0].VacationAction? ==> !Responds(actions[0], records, env)) && NoneResponds(actions[1..], records, env)
  {
    hide Responds;
    assert actions == [actions[0]] + actions[1..];
  }

  predicate SameAnswer(o: Outcome, o': Outcome) {
    && o'.vacation == o.vacation && o'.vacationTo == o.vacationTo
    && o'.vacationSubject == o.vacationSubject && o'.vacationBody == o.vacationBody
  }

  lemma NotDue(a: Action, o: Outcome, records: Responses, env: Env)
    requires a.VacationAction? ==> !Responds(a, records, env)
    ensures SameAnswer(o, Applied(a, o, records, env)) && RecordsAfter(a, records, env) == records
  {
    hide Responds;
  }

  /** Actions of which none is due leave the vacation fields and the records alone. */
  lemma {:induction false} NoneAnswers(actions: seq<Action>, o: Outcome, records: Responses, env: Env)
    requires NoneResponds(actions, records, env)
    ensures var (o', records') := AppliedAll(actions, o, records, env); records' == records && SameAnswer(o, o')
    decreases |actions|
  {
    if actions != [] {
      hide Responds, NoneResponds, Applied, RecordsAfter;
      NoneRespondsCut(actions, records, env);
      NotDue(actions[0], o, records, env);
      NoneAnswers(actions[1..], Applied(actions[0], o, records, env), records, env);
    }
  }

  /** After an answer nothing more is due at the same moment. */
  lemma NothingMoreDue(actions: seq<Action>, records: Responses, env: Env)
    ensures NoneResponds(actions, records[Row(env) := Truncate(env.now)], env)
  {
    hide ShouldSkipVacation, SenderKey;
  }

  /** The first action that is due answers, and it alone. */
  lemma {:induction false} FirstAnswers(actions: seq<Action>, o: Outcome, records: Responses, env: Env) returns (a: Action)
    requires !NoneResponds(actions, records, env)
    ensures a in actions
    ensures var (o', records') := AppliedAll(actions, o, records, env); Answers(a, records, env, o', records')
    decreases |actions|
  {
    hide NoneResponds, SenderKey, ShouldSkipVacation;
    if actions == [] {
      NothingResponds(records, env);
      a := NilAction;
    } else {
      a := actions[0];
      var o1, records1 := Applied(a, o, records, env), RecordsAfter(a, records, env);
      if a.VacationAction? && Responds(a, records, env) {
        NothingMoreDue(actions[1..], records, env);
        NoneAnswers(actions[1..], o1, records1, env);
      } else {
        NoneRespondsCut(actions, records, env);
        a := FirstAnswers(actions[1..], o1, records, env);
      }
    }
  }

  lemma NothingResponds(records: Responses, env: Env)
    ensures NoneResponds([], records, env)
  {
  }

  /** An execution answers exactly when an action taken is a vacation that is due: the message is not
      from a machine or a list, the database works, and the sender's row is missing or older than the
      interval. Then the row is the present second; otherwise no row changes. */
  lemma ExecutionAnswers(script: Script, records: Responses, env: Env)
    ensures var (o, records') := Execution(script, records, env);
            var actions := EffectiveActions(script.rules, env.msg);
            && (o.vacation <==>
                && !ShouldSkipVacation(env.msg) && !env.queryFails && !env.recordFails
                && exists a :: a in actions && a.VacationAction?
                               && (Row(env) in records ==> env.now - records[Row(env)] > Interval(a.days)))
            && (o.vacation ==> exists a :: a in actions && Answers(a, records, env, o, records'))
            && (!o.vacation ==> records' == records)
  {
    hide AppliedAll, Execution, EffectiveActions, ShouldSkipVacation, SenderKey;
    var actions := EffectiveActions(script.rules, env.msg);
    ExecutionIsSequential(script, records, env);
    if NoneResponds(actions, records, env) {
      NoneAnswers(actions, DEFAULT_OUTCOME, records, env);
    } else {
      var a := FirstAnswers(actions, DEFAULT_OUTCOME, records, env);
    }
  }

  const MACHINES := ["noreply@", "no-reply@", "donotreply@", "do-not-reply@", "mailer-daemon@", "postmaster@", "bounces@",
                     "bounce@"]

  /** A sender that names a machine, in any case and anywhere, gets no answer. */
  lemma MachinesSkipped(msg: Message, before: string, sender: string, after: string)
    requires msg.from == before + sender + after && Lower(sender) in MACHINES
    ensures ShouldSkipVacation(msg)
  {
    LowerTwice(sender);
    AroundMatches(msg.from, before, sender, after, Lower(sender));
  }

  lemma LowerTwice(s: string)
    ensures Lower(Lower(s)) == Lower(s)
  {
  }

  /** Nor does a mailing list or anything that says it is automatic. */
  lemma ListsSkipped(msg: Message, values: seq<string>)
    requires || ("List-Id", values) in msg.headers || ("List-Unsubscribe", values) in msg.headers
             || ("X-Auto-Response-Suppress", values) in msg.headers
    ensures ShouldSkipVacation(msg)
  {
    ExactMeans(msg.headers, "List-Id");
    ExactMeans(msg.headers, "List-Unsubscribe");
    ExactMeans(msg.headers, "X-Auto-Response-Suppress");
  }

  lemma EveryMachine()
    ensures "noreply@" in MACHINES && "no-reply@" in MACHINES && "donotreply@" in MACHINES && "do-not-reply@" in MACHINES
    ensures "mailer-daemon@" in MACHINES && "postmaster@" in MACHINES && "bounces@" in MACHINES && "bounce@" in MACHINES
  {
  }

  /** Everyone else does, without such headers. */
  lemma PeopleAnswered(msg: Message)
    requires forall m :: m in MACHINES ==> !Contains(Lower(msg.from), m)
    requires forall h :: h in msg.headers ==>
               h.0 !in ["Precedence", "List-Id", "List-Unsubscribe", "Auto-Submitted", "X-Auto-Response-Suppress"]
    ensures !ShouldSkipVacation(msg)
  {
    hide Contains, Lower;
    EveryMachine();
    ExactMeans(msg.headers, "Precedence");
    ExactMeans(msg.headers, "List-Id");
    ExactMeans(msg.headers, "List-Unsubscribe");
    ExactMeans(msg.headers, "Auto-Submitted");
    ExactMeans(msg.headers, "X-Auto-Response-Suppress");
  }

  // ----- runs -----

  /** A message that reaches the filter of a user, or a cleanup. */
  datatype Event = Arrival(sieve: Option<ScriptState>, env: Env) | Sweep(maxAge: int, at: int)

  function Time(e: Event): int {
    if e.Arrival? then e.env.now else e.at
  }

  function Step(records: Responses, e: Event): Responses {
    match e
    case Arrival(sieve, env) => RecordsKept(sieve, records, env)
    case Sweep(maxAge, at) => Cleaned(records, maxAge, at)
  }

  function After(events: seq<Event>): Responses {
    if events == [] then map[] else Step(After(events[..|events| - 1]), events[|events| - 1])
  }

  predicate InOrder(events: seq<Event>) {
    forall i, j :: 0 <= i < j < |events| ==> Time(events[i]) <= Time(events[j])
  }

  /** The sender of the i-th arrival is answered. */
  predicate Answered(events: seq<Event>, i: nat)
    requires i < |events|
  {
    && events[i].Arrival?
    && var o := Filtered(events[i].sieve, After(events[..i]), events[i].env);
       o.Some? && o.value.vacation
  }

  /** Cleanups keep rows for the limit, and no vacation action taken asks for a longer interval. */
  predicate Patient(events: seq<Event>, limit: int) {
    forall e :: e in events ==>
      if e.Sweep? then e.maxAge >= limit
      else forall a :: a in Taken(e.sieve, e.env) && a.VacationAction? ==> Interval(a.days) <= limit
  }

  /** What an arrival does to the records. */
  lemma ArrivalAnswers(sieve: Option<ScriptState>, records: Responses, env: Env)
    ensures var o, records' := Filtered(sieve, records, env), RecordsKept(sieve, records, env);
            if o.Some? && o.value.vacation
            then exists a :: a in Taken(sieve, env) && Answers(a, records, env, o.value, records')
            else records' == records
  {
    hide SieveParser.ParseText, Execution, EffectiveActions, Answers, Taken;
    if sieve.Some? && sieve.value.Active? {
      var parsed := SieveParser.ParseText(sieve.value.content);
      if parsed.Ok? { ParsedAnswers(sieve, records, env, parsed.value); }
    }
  }

  lemma ParsedAnswers(sieve: Option<ScriptState>, records: Responses, env: Env, script: Script)
    requires sieve.Some? && sieve.value.Active? && SieveParser.ParseText(sieve.value.content) == Ok(script)
    ensures var (o, records') := Execution(script, records, env);
            if o.vacation then exists a :: a in Taken(sieve, env) && Answers(a, records, env, o, records')
            else records' == records
  {
    hide SieveParser.ParseText, Execution, EffectiveActions, Answers, ShouldSkipVacation;
    ExecutionAnswers(script, records, env);
  }

  lemma PatientAt(events: seq<Event>, limit: int, i: nat)
    requires Patient(events, limit) && i < |events|
    ensures events[i].Sweep? ==> events[i].maxAge >= limit
    ensures events[i].Arrival? ==>
              forall a :: a in Taken(events[i].sieve, events[i].env) && a.VacationAction? ==> Interval(a.days) <= limit
  {
    hide Taken, Interval;
    assert events[i] in events;
  }

  lemma Earlier(events: seq<Event>, i: nat, j: nat)
    requires InOrder(events) && i <= j < |events|
    ensures Time(events[i]) <= Time(events[j])
  {
  }

  /** A run without its last events. */
  lemma Shorter(events: seq<Event>, n: nat, i: nat, limit: int)
    requires InOrder(events) && Patient(events, limit) && i < n <= |events|
    ensures InOrder(events[..n]) && Patient(events[..n], limit)
    ensures events[..n][i] == events[i] && (Answered(events[..n], i) <==> Answered(events, i))
  {
    hide Taken, Interval, Filtered, After;
    assert events[..n][..i] == events[..i];
    assert forall e :: e in events[..n] ==> e in events;
  }

  lemma AnsweredArrives(events: seq<Event>, i: nat)
    requires i < |events| && Answered(events, i)
    ensures events[i].Arrival?
    ensures var sieve, records, env := events[i].sieve, After(events[..i]), events[i].env;
            && Filtered(sieve, records, env).Some?
            && exists a :: a in Taken(sieve, env)
                           && Answers(a, records, env, Filtered(sieve, records, env).value, Step(records, events[i]))
  {
    hide Filtered, RecordsKept, Taken, Answers;
    ArrivalAnswers(events[i].sieve, After(events[..i]), events[i].env);
  }

  /** One event keeps an answer remembered. */
  lemma StillRemembered(records: Responses, e: Event, key: Key, time: int, limit: int, now: int)
    requires Remembered(records, key, time, limit, now) && time <= now <= Time(e)
    requires e.Sweep? ==> e.maxAge >= limit
    ensures Remembered(Step(records, e), key, time, limit, Time(e))
  {
    hide Filtered, RecordsKept, Taken, Truncate, Interval, SenderKey;
    TruncateMonotone(time, Time(e));
    if e.Arrival? { ArrivalAnswers(e.sieve, records, e.env); }
  }

  lemma RememberedAtOnce(records: Responses, env: Env, a: Action, o: Outcome, records': Responses, limit: int)
    requires Answers(a, records, env, o, records')
    ensures Remembered(records', Row(env), env.now, limit, env.now)
  {
    hide SenderKey, Truncate, Interval;
  }

  lemma {:induction false} AnswerRemembered(events: seq<Event>, i: nat, limit: int)
    requires InOrder(events) && Patient(events, limit) && i < |events| && Answered(events, i)
    ensures events[i].Arrival?
    ensures Remembered(After(events), Row(events[i].env), Time(events[i]), limit, Time(events[|events| - 1]))
  {
    hide Step, Remembered, InOrder, Patient, Answered, Answers, Filtered, RecordsKept, Taken, Row;
    var n := |events| - 1;
    AnsweredArrives(events, i);
    if i < n {
      Shorter(events, n, i, limit);
      AnswerRemembered(events[..n], i, limit);
      Earlier(events, i, n - 1);
      Earlier(events, n - 1, n);
      PatientAt(events, limit, n);
      StillRemembered(After(events[..n]), events[n], Row(events[i].env), Time(events[i]), limit, Time(events[n - 1]));
    } else {
      var sieve, records, env := events[i].sieve, After(events[..i]), events[i].env;
      var a :| a in Taken(sieve, env)
               && Answers(a, records, env, Filtered(sieve, records, env).value, Step(records, events[i]));
      RememberedAtOnce(records, env, a, Filtered(sieve, records, env).value, Step(records, events[i]), limit);
    }
  }

  /** Two answers to one sender for one user are more than the interval of the later vacation apart,
      counted from the second in which the first was recorded. */
  lemma AnswersSpaced(events: seq<Event>, i: nat, j: nat, limit: int) returns (a: Action)
    requires InOrder(events) && Patient(events, limit) && i < j < |events|
    requires Answered(events, i) && Answered(events, j)
    requires Row(events[i].env) == Row(events[j].env)
    ensures a in Taken(events[j].sieve, events[j].env)
    ensures var o := Filtered(events[j].sieve, After(events[..j]), events[j].env).value;
            Answers(a, After(events[..j]), events[j].env, o, Step(After(events[..j]), events[j]))
    ensures Time(events[j]) - Truncate(Time(events[i])) > Interval(a.days)
    ensures Time(events[j]) - Time(events[i]) > Interval(a.days) - SECOND
  {
    hide Step, InOrder, Patient, Answered, Filtered, RecordsKept, Taken, Row, Truncate, Interval;
    Shorter(events, j, i, limit);
    AnswerRemembered(events[..j], i, limit);
    AnsweredArrives(events, j);
    Earlier(events, j - 1, j);
    PatientAt(events, limit, j);
    var records, env := After(events[..j]), events[j].env;
    var o := Filtered(events[j].sieve, records, env).value;
    a :| a in Taken(events[j].sieve, env) && Answers(a, records, env, o, Step(records, events[j]));
    Spaced(records, Row(env), Time(events[i]), a.days, env.now, limit, Time(events[j - 1]));
  }

  /** The parser lets no vacation through that is longer than a year, so cleanups that keep rows for a
      year space the answers in every run, whatever the scripts. */
  lemma YearSuffices(events: seq<Event>)
    requires forall e :: e in events && e.Sweep? ==> e.maxAge >= MAX_VACATION_DAYS * DAY
    ensures Patient(events, MAX_VACATION_DAYS * DAY)
  {
    hide Taken;
    forall e | e in events && e.Arrival?
      ensures forall a :: a in Taken(e.sieve, e.env) && a.VacationAction? ==> Interval(a.days) <= MAX_VACATION_DAYS * DAY
    {
      forall a | a in Taken(e.sieve, e.env) && a.VacationAction? ensures Interval(a.days) <= MAX_VACATION_DAYS * DAY {
        WithinAYear(e.sieve, e.env, a);
      }
    }
  }

  lemma WithinAYear(sieve: Option<ScriptState>, env: Env, a: Action)
    requires a in Taken(sieve, env) && a.VacationAction?
    ensures 0 <= a.days <= MAX_VACATION_DAYS && Interval(a.days) <= MAX_VACATION_DAYS * DAY
    ensures Interval(a.days) == (if a.days == 0 then 7 else a.days) * 86_400_000_000_000
  {
    hide SieveParser.ParseText, EffectiveActions;
    SieveLimits.AcceptedScripts(sieve.value.content);
    EffectiveFrom(SieveParser.ParseText(sieve.value.content).value.rules, env.msg, a);
  }
}
