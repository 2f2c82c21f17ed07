/** Execution of a parsed script (internal/sieve/sieve.go, internal/sieve/actions.go). */
module SieveExec {
  import opened Strings
  import opened SieveSyntax
  import opened SieveConditions
  import opened SieveVacation

  /** The fields of a Result. */
  datatype Outcome = Outcome(keep: bool, discarded: bool, rejected: bool, rejectMsg: string,
                             filed: bool, fileInto: string, redirected: bool, redirectTo: seq<string>,
                             vacation: bool, vacationTo: string, vacationSubject: string, vacationBody: string)

  const DEFAULT_OUTCOME := Outcome(true, false, false, "", false, "", false, [], false, "", "", "")

  /** What an execution runs against: the message, its owner, the time, and whether the vacation
      database fails on a query or on a write. */
  datatype Env = Env(msg: Message, user: int, now: int, queryFails: bool, recordFails: bool)

  // ----- vacation -----

  /** A header of a mailing list, an automatic sender, or a system address. */
  predicate ShouldSkipVacation(msg: Message) {
    var from := Lower(msg.from);
    || Contains(from, "noreply@") || Contains(from, "no-reply@")
    || Contains(from, "donotreply@") || Contains(from, "do-not-reply@")
    || Contains(from, "mailer-daemon@") || Contains(from, "postmaster@")
    || Contains(from, "bounces@") || Contains(from, "bounce@")
    || HasValue(msg, "Precedence", v => Lower(v) == "bulk" || Lower(v) == "list" || Lower(v) == "junk")
    || ExactHeader(msg.headers, "List-Id").Some?
    || ExactHeader(msg.headers, "List-Unsubscribe").Some?
    || HasValue(msg, "Auto-Submitted", v => Lower(v) != "no")
    || ExactHeader(msg.headers, "X-Auto-Response-Suppress").Some?
  }

  predicate HasValue(msg: Message, name: string, p: string -> bool) {
    ExactHeader(msg.headers, name).Some? && exists v :: v in ExactHeader(msg.headers, name).value && p(v)
  }

  function Days(a: Action): (d: int)
    requires a.VacationAction?
    ensures d > 0
  {
    if a.days <= 0 then DEFAULT_VACATION_DAYS else a.days
  }

  lemma DaysInterval(a: Action, records: Responses, key: Key, now: int)
    requires a.VacationAction?
    ensures MayRespond(records, key, Days(a), now) <==> MayRespond(records, key, a.days, now)
  {
  }

  /** The vacation action is due: not suppressed, permitted, and on record from now on. */
  predicate Responds(a: Action, records: Responses, env: Env)
    requires a.VacationAction?
  {
    && !ShouldSkipVacation(env.msg)
    && !env.queryFails && !env.recordFails
    && MayRespond(records, SenderKey(env.user, env.msg.from), a.days, env.now)
  }

  // ----- one action -----

  /** What Apply does to the result. */
  function Applied(a: Action, o: Outcome, records: Responses, env: Env): Outcome {
    match a
    case NilAction => o
    case KeepAction => o.(keep := true)
    case FileIntoAction(folder) => o.(filed := true, fileInto := folder, keep := false)
    case RedirectAction(address) =>
      o.(redirected := true, redirectTo := o.redirectTo + [address], keep := false)
    case DiscardAction => o.(discarded := true, keep := false)
    case RejectAction(message) => o.(rejected := true, rejectMsg := message, keep := false)
    case StopAction => o
    case VacationAction(_, subject, _, body, _) =>
      if Responds(a, records, env) then
        o.(vacation := true, vacationTo := env.msg.from,
           vacationSubject := if subject == "" then "Re: " + env.msg.subject else subject,
           vacationBody := body)
      else o
  }

  /** What Apply does to the vacation records. */
  function RecordsAfter(a: Action, records: Responses, env: Env): Responses {
    if a.VacationAction? && Responds(a, records, env)
    then Recorded(records, SenderKey(env.user, env.msg.from), env.now)
    else records
  }

  /** A result and the records, after a list of actions. */
  function AppliedAll(actions: seq<Action>, o: Outcome, records: Responses, env: Env): (Outcome, Responses) {
    if actions == [] then (o, records)
    else AppliedAll(actions[1..], Applied(actions[0], o, records, env), RecordsAfter(actions[0], records, env), env)
  }

  // ----- rules -----

  /** All tests, or some test, of a rule holds; nil tests do not count, and a rule without
      tests always matches. */
  predicate RuleMatches(conditions: seq<Condition>, allOf: bool, msg: Message) {
    || conditions == []
    || (allOf && forall c :: c in conditions && !c.NilCondition? ==> Evaluate(c, msg))
    || (!allOf && exists c :: c in conditions && !c.NilCondition? && Evaluate(c, msg))
  }

  predicate Decided(o: Outcome) {
    o.discarded || o.rejected || o.filed || o.redirected
  }

  function RunRules(rules: seq<Rule>, o: Outcome, records: Responses, env: Env): (Outcome, Responses) {
    if rules == [] then (o, records)
    else if !RuleMatches(rules[0].conditions, rules[0].allOf, env.msg) then RunRules(rules[1..], o, records, env)
    else
      var (o', records') := AppliedAll(rules[0].actions, o, records, env);
      if rules[0].stop || Decided(o') then (o', records') else RunRules(rules[1..], o', records', env)
  }

  function Execution(script: Script, records: Responses, env: Env): (Outcome, Responses) {
    RunRules(script.rules, DEFAULT_OUTCOME, records, env)
  }

  // ----- the executor -----

  class Result {
    var keep: bool
    var discarded: bool
    var rejected: bool
    var rejectMsg: string
    var filed: bool
    var fileInto: string
    var redirected: bool
    var redirectTo: seq<string>
    var vacation: bool
    var vacationTo: string
    var vacationSubject: string
    var vacationBody: string

    constructor ()
      ensures View() == DEFAULT_OUTCOME
    {
      keep, discarded, rejected, rejectMsg := true, false, false, "";
      filed, fileInto, redirected, redirectTo := false, "", false, [];
      vacation, vacationTo, vacationSubject, vacationBody := false, "", "", "";
    }

    function View(): Outcome
      reads this
    {
      Outcome(keep, discarded, rejected, rejectMsg, filed, fileInto, redirected, redirectTo,
              vacation, vacationTo, vacationSubject, vacationBody)
    }
  }

  class Executor {
    const store: VacationStore

    constructor (store: VacationStore)
      ensures this.store == store
    {
      this.store := store;
    }

    /** Apply; an error leaves the result as it was. */
    method Apply(a: Action, result: Result, env: Env)
      modifies result, store
      ensures result.View() == Applied(a, old(result.View()), old(store.responses), env)
      ensures store.responses == RecordsAfter(a, old(store.responses), env)
    {
      hide Responds, Recorded, SenderKey;
      match a
      case NilAction =>
      case StopAction =>
      case KeepAction =>
        result.keep := true;
      case FileIntoAction(folder) =>
        result.filed := true;
        result.fileInto := folder;
        result.keep := false;
      case RedirectAction(address) =>
        result.redirected := true;
        result.redirectTo := result.redirectTo + [address];
        result.keep := false;
      case DiscardAction =>
        result.discarded := true;
        result.keep := false;
      case RejectAction(message) =>
        result.rejected := true;
        result.rejectMsg := message;
        result.keep := false;
      case VacationAction(_, _, _, _, _) =>
        ApplyVacation(a, result, env);
    }

    method ApplyVacation(a: Action, result: Result, env: Env)
      requires a.VacationAction?
      modifies result, store
      ensures result.View() == Applied(a, old(result.View()), old(store.responses), env)
      ensures store.responses == RecordsAfter(a, old(store.responses), env)
    {
      hide ShouldSkipVacation, MayRespond, SenderKey, Recorded;
      DaysInterval(a, store.responses, SenderKey(env.user, env.msg.from), env.now);
      if ShouldSkipVacation(env.msg) {
        return;
      }
      var days := Days(a);
      var should := store.ShouldRespond(env.user, env.msg.from, days, env.now, env.queryFails);
      if should.Err? || !should.value {
        return;
      }
      var recorded := store.RecordResponse(env.user, env.msg.from, env.now, env.recordFails);
      if recorded.Err? {
        return;
      }
      result.vacation := true;
      result.vacationTo := env.msg.from;
      result.vacationSubject := a.subject;
      if result.vacationSubject == "" {
        result.vacationSubject := "Re: " + env.msg.subject;
      }
      result.vacationBody := a.body;
    }

    method EvaluateConditions(conditions: seq<Condition>, allOf: bool, msg: Message) returns (matched: bool)
      ensures matched == RuleMatches(conditions, allOf, msg)
    {
      hide Evaluate;
      if |conditions| == 0 {
        return true;
      }
      for i := 0 to |conditions|
        invariant forall k :: 0 <= k < i && !conditions[k].NilCondition? ==> Evaluate(conditions[k], msg) == allOf
      {
        var cond := conditions[i];
        if cond.NilCondition? {
          continue;
        }
        var matches := Evaluate(cond, msg);
        if allOf && !matches {
          return false;
        }
        if !allOf && matches {
          return true;
        }
      }
      matched := allOf;
    }

    method ApplyActions(actions: seq<Action>, result: Result, env: Env)
      modifies result, store
      ensures (result.View(), store.responses)
              == AppliedAll(actions, old(result.View()), old(store.responses), env)
    {
      hide Applied, RecordsAfter;
      var i := 0;
      assert actions[0..] == actions;
      while i < |actions|
        invariant i <= |actions|
        invariant AppliedAll(actions[i..], result.View(), store.responses, env)
                  == AppliedAll(actions, old(result.View()), old(store.responses), env)
      {
        Apply(actions[i], result, env);
        assert actions[i..][1..] == actions[i + 1..];
        i := i + 1;
      }
    }

    method ExecuteScript(script: Script, env: Env) returns (result: Result)
      modifies store
      ensures fresh(result)
      ensures (result.View(), store.responses) == Execution(script, old(store.responses), env)
    {
      hide RuleMatches, AppliedAll;
      result := new Result();
      var rules := script.rules;
      var i := 0;
      assert rules[0..] == rules;
      while i < |rules|
        invariant i <= |rules| && fresh(result)
        invariant RunRules(rules[i..], result.View(), store.responses, env)
                  == Execution(script, old(store.responses), env)
      {
        var rule := rules[i];
        assert rules[i..][1..] == rules[i + 1..];
        var matched := EvaluateConditions(rule.conditions, rule.allOf, env.msg);
        if matched {
          ApplyActions(rule.actions, result, env);
          if rule.stop || result.discarded || result.rejected || result.filed || result.redirected {
            break;
          }
        }
        i := i + 1;
      }
    }
  }
}
