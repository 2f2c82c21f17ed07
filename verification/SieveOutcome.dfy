/** What a script decides: the effect of its rules as one list of actions, and when a message is
    kept, filed, forwarded or dropped. */
module SieveOutcome {
  import opened Wrappers
  import opened SieveSyntax
  import opened SieveConditions
  import opened SieveVacation
  import opened SieveExec

  /** An action that decides where the message goes. */
  predicate IsTerminal(a: Action) {
    a.FileIntoAction? || a.RedirectAction? || a.DiscardAction? || a.RejectAction?
  }

  predicate HasTerminal(actions: seq<Action>) {
    exists a :: a in actions && IsTerminal(a)
  }

  /** Under allof each test that means anything must hold, and no test is no condition; under anyof
      one must, and a rule without tests matches all the same. */
  lemma MatchesByTests(c: Condition, cs: seq<Condition>, msg: Message)
    ensures RuleMatches([], true, msg) && RuleMatches([], false, msg)
    ensures RuleMatches([c], false, msg) <==> !c.NilCondition? && Evaluate(c, msg)
    ensures RuleMatches([c] + cs, true, msg) <==> (c.NilCondition? || Evaluate(c, msg)) && RuleMatches(cs, true, msg)
    ensures cs != [] ==>
              (RuleMatches([c] + cs, false, msg) <==> RuleMatches([c], false, msg) || RuleMatches(cs, false, msg))
  {
    hide Evaluate;
    assert forall x :: x in [c] + cs <==> x == c || x in cs;
    assert c in [c];
  }

  /** All actions of matching rules, up to and including the first matching rule that holds a
      terminal action or has its stop flag set. */
  function EffectiveActions(rules: seq<Rule>, msg: Message): seq<Action> {
    if rules == [] then []
    else if !RuleMatches(rules[0].conditions, rules[0].allOf, msg) then EffectiveActions(rules[1..], msg)
    else if rules[0].stop || HasTerminal(rules[0].actions) then rules[0].actions
    else rules[0].actions + EffectiveActions(rules[1..], msg)
  }

  lemma {:induction false} AppliedCat(xs: seq<Action>, ys: seq<Action>, o: Outcome, records: Responses, env: Env)
    ensures AppliedAll(xs + ys, o, records, env) ==
            var (o', records') := AppliedAll(xs, o, records, env); AppliedAll(ys, o', records', env)
    decreases |xs|
  {
    hide Applied, RecordsAfter;
    if xs == [] {
      assert xs + ys == ys;
    } else {
      assert (xs + ys)[1..] == xs[1..] + ys;
      AppliedCat(xs[1..], ys, Applied(xs[0], o, records, env), RecordsAfter(xs[0], records, env), env);
    }
  }

  lemma {:induction false} DecidedByTerminal(actions: seq<Action>, o: Outcome, records: Responses, env: Env)
    ensures Decided(AppliedAll(actions, o, records, env).0) <==> Decided(o) || HasTerminal(actions)
    decreases |actions|
  {
    if actions != [] {
      hide Applied, RecordsAfter;
      var o' := Applied(actions[0], o, records, env);
      AppliedFields(actions[0], o, records, env);
      DecidedByTerminal(actions[1..], o', RecordsAfter(actions[0], records, env), env);
      assert Decided(o') <==> Decided(o) || IsTerminal(actions[0]);
      assert actions == [actions[0]] + actions[1..];
    }
  }

  lemma {:induction false} RunIsEffective(rules: seq<Rule>, o: Outcome, records: Responses, env: Env)
    requires !Decided(o)
    ensures RunRules(rules, o, records, env) == AppliedAll(EffectiveActions(rules, env.msg), o, records, env)
    decreases |rules|
  {
    hide RuleMatches, AppliedAll, Decided, HasTerminal;
    if rules == [] {
      AppliedNone(o, records, env);
    } else if !RuleMatches(rules[0].conditions, rules[0].allOf, env.msg) {
      RunIsEffective(rules[1..], o, records, env);
    } else {
      DecidedByTerminal(rules[0].actions, o, records, env);
      if !rules[0].stop && !HasTerminal(rules[0].actions) {
        var (o', records') := AppliedAll(rules[0].actions, o, records, env);
        RunIsEffective(rules[1..], o', records', env);
        AppliedCat(rules[0].actions, EffectiveActions(rules[1..], env.msg), o, records, env);
      }
    }
  }

  lemma AppliedNone(o: Outcome, records: Responses, env: Env)
    ensures AppliedAll([], o, records, env) == (o, records)
  {
  }

  /** Executing a script is applying its effective actions in order to the default outcome. */
  lemma ExecutionIsSequential(script: Script, records: Responses, env: Env)
    ensures Execution(script, records, env)
            == AppliedAll(EffectiveActions(script.rules, env.msg), DEFAULT_OUTCOME, records, env)
  {
    RunIsEffective(script.rules, DEFAULT_OUTCOME, records, env);
  }

  // ----- the outcome of a list of actions -----

  function Redirects(actions: seq<Action>): seq<string> {
    if actions == [] then []
    else
      var last := actions[|actions| - 1];
      Redirects(actions[..|actions| - 1]) + (if last.RedirectAction? then [last.address] else [])
  }

  /** The folder of the last fileinto. */
  function LastFolder(actions: seq<Action>): Option<string> {
    if actions == [] then None
    else
      var last := actions[|actions| - 1];
      if last.FileIntoAction? then Some(last.folder) else LastFolder(actions[..|actions| - 1])
  }

  /** The message of the last reject. */
  function LastReject(actions: seq<Action>): Option<string> {
    if actions == [] then None
    else
      var last := actions[|actions| - 1];
      if last.RejectAction? then Some(last.message) else LastReject(actions[..|actions| - 1])
  }

  /** Of the keep and terminal actions the last one decides; without any, the message is kept. */
  predicate KeptAtEnd(actions: seq<Action>) {
    if actions == [] then true
    else
      var last := actions[|actions| - 1];
      last.KeepAction? || (!IsTerminal(last) && KeptAtEnd(actions[..|actions| - 1]))
  }

  /** The fields that dispose of the message, as the actions determine them. */
  predicate Disposes(actions: seq<Action>, o: Outcome) {
    && o.keep == KeptAtEnd(actions)
    && o.discarded == (DiscardAction in actions)
    && (if o.rejected then Some(o.rejectMsg) else None) == LastReject(actions)
    && (if o.filed then Some(o.fileInto) else None) == LastFolder(actions)
    && o.redirectTo == Redirects(actions)
    && o.redirected == (Redirects(actions) != [])
  }

  lemma {:induction false} ActionsDispose(actions: seq<Action>, records: Responses, env: Env)
    ensures Disposes(actions, AppliedAll(actions, DEFAULT_OUTCOME, records, env).0)
    decreases |actions|
  {
    if actions != [] {
      hide Responds, Disposes;
      var front, last := actions[..|actions| - 1], actions[|actions| - 1];
      assert actions == front + [last];
      ActionsDispose(front, records, env);
      AppliedCat(front, [last], DEFAULT_OUTCOME, records, env);
      var (o, records') := AppliedAll(front, DEFAULT_OUTCOME, records, env);
      AppliedOne(last, o, records', env);
      DisposesStep(actions, o, records', env);
    }
  }

  lemma AppliedOne(a: Action, o: Outcome, records: Responses, env: Env)
    ensures AppliedAll([a], o, records, env).0 == Applied(a, o, records, env)
  {
    assert [a][1..] == [];
  }

  lemma FromTheEnd(front: seq<Action>, last: Action)
    ensures KeptAtEnd(front + [last]) <==> last.KeepAction? || (!IsTerminal(last) && KeptAtEnd(front))
    ensures LastReject(front + [last]) == if last.RejectAction? then Some(last.message) else LastReject(front)
    ensures LastFolder(front + [last]) == if last.FileIntoAction? then Some(last.folder) else LastFolder(front)
    ensures Redirects(front + [last]) == Redirects(front) + (if last.RedirectAction? then [last.address] else [])
    ensures DiscardAction in front + [last] <==> DiscardAction in front || last == DiscardAction
  {
    assert (front + [last])[..|front|] == front;
  }

  /** The disposing fields of the result after one action. */
  lemma AppliedFields(a: Action, o: Outcome, records: Responses, env: Env)
    ensures var r := Applied(a, o, records, env);
            && r.keep == (a.KeepAction? || (!IsTerminal(a) && o.keep))
            && r.discarded == (o.discarded || a.DiscardAction?)
            && r.rejected == (o.rejected || a.RejectAction?)
            && r.rejectMsg == (if a.RejectAction? then a.message else o.rejectMsg)
            && r.filed == (o.filed || a.FileIntoAction?)
            && r.fileInto == (if a.FileIntoAction? then a.folder else o.fileInto)
            && r.redirected == (o.redirected || a.RedirectAction?)
            && r.redirectTo == o.redirectTo + (if a.RedirectAction? then [a.address] else [])
  {
    hide Responds;
  }

  lemma DisposesStep(actions: seq<Action>, o: Outcome, records: Responses, env: Env)
    requires actions != [] && Disposes(actions[..|actions| - 1], o)
    ensures Disposes(actions, Applied(actions[|actions| - 1], o, records, env))
  {
    hide Applied, IsTerminal, KeptAtEnd, LastReject, LastFolder, Redirects;
    var front, last := actions[..|actions| - 1], actions[|actions| - 1];
    assert actions == front + [last];
    AppliedFields(last, o, records, env);
    FromTheEnd(front, last);
  }

  /** The outcome of a script is that of its effective actions; in particular the default keep
      is lost only to a fileinto, redirect, discard or reject. */
  lemma ImplicitKeep(script: Script, records: Responses, env: Env)
    ensures var o := Execution(script, records, env).0;
            Disposes(EffectiveActions(script.rules, env.msg), o) && (!o.keep ==> Decided(o))
  {
    hide Disposes;
    var actions := EffectiveActions(script.rules, env.msg);
    ExecutionIsSequential(script, records, env);
    ActionsDispose(actions, records, env);
    DecidedByTerminal(actions, DEFAULT_OUTCOME, records, env);
    if !HasTerminal(actions) { KeptWithoutTerminal(actions); }
    DisposesKeep(actions, Execution(script, records, env).0);
  }

  lemma DisposesKeep(actions: seq<Action>, o: Outcome)
    requires Disposes(actions, o)
    ensures o.keep == KeptAtEnd(actions)
  {
  }

  lemma {:induction false} KeptWithoutTerminal(actions: seq<Action>)
    requires !HasTerminal(actions)
    ensures KeptAtEnd(actions)
  {
    if actions != [] {
      assert !IsTerminal(actions[|actions| - 1]);
      assert forall a :: a in actions[..|actions| - 1] ==> a in actions;
      KeptWithoutTerminal(actions[..|actions| - 1]);
    }
  }
}
