/** Parsing a written script, however it is written and laid out, gives the script it means. */
module SieveWritten {
  import opened Wrappers
  import opened SieveSyntax
  import opened SieveLexer
  import opened SieveGrammar
  import opened SieveParser
  import opened SievePrinter
  import opened SieveRoundTrip
  import opened SieveReparse

  // ----- the round trip -----

  /** Parsing a written script gives the script it means, in whatever way it is written (lists of one
      name with or without brackets, modifiers in any order or left out, units, a rule's single test
      with or without allof, parameters, semicolons, strings and bodies left out, tokens that mean
      nothing) and however it is laid out (blanks, comments, the case of its words). */
  lemma ParsePrint(ws: seq<WStatement>, style: Style)
    requires WellWritten(ws, style)
    ensures ParseText(Print(ws, style)) == Ok(ScriptOf(ws))
  {
    hide Tokenize, Statements, TokensOf, GoodStatements, GoodStyle;
    StatementsGood(ws);
    TokenizeRender(PutStatements(ws), style);
    StatementsReadBack(ws, 0);
  }

  // ----- every script can be written -----

  lemma {:induction false} TestCanonical(c: Condition, outer: nat)
    requires WellFormedTest(c, outer)
    ensures NoNil(c) && SizesNatural(c) && GoodTest(CanonicalTest(c), outer) && TestOf(CanonicalTest(c)) == c
    decreases c
  {
    hide PrintableList, Printable;
    match c
    case NotCondition(inner) => TestCanonical(inner, outer + 1);
    case HeaderCondition(_, _, _, _, _, _) => HeaderCanonical(c, outer);
    case SizeCondition(size, _) => assert size * UnitOf("") == size;
    case ExistsCondition(_) =>
    case TrueCondition =>
    case FalseCondition =>
  }

  lemma HeaderCanonical(c: Condition, outer: nat)
    requires WellFormedTest(c, outer) && c.HeaderCondition?
    ensures GoodTest(CanonicalTest(c), outer) && TestOf(CanonicalTest(c)) == c
  {
    hide PrintableList, Printable, ModsAfter;
    var none, comparator, matched := Mods("", "", ""), Comparator(c.comparator), Match(c.matchType);
    var part: seq<Modifier> := if c.addressPart == "" then [] else [Part(c.addressPart)];
    var m := none.(comparator := c.comparator, matchType := c.matchType);
    assert [comparator, matched] + part == [comparator] + ([matched] + part);
    Modify(none, comparator, [matched] + part);
    Modify(none.(comparator := c.comparator), matched, part);
    if part != [] {
      assert part == part + [];
      Modify(m, part[0], []);
    }
    NoModifiers(m);
    NoModifiers(m.(addressPart := c.addressPart));
  }

  lemma Modify(m: Mods, x: Modifier, xs: seq<Modifier>)
    ensures ModsAfter(m, [x] + xs) == ModsAfter(Modified(m, x), xs)
  {
    assert ([x] + xs)[1..] == xs;
  }

  lemma NoModifiers(m: Mods)
    ensures ModsAfter(m, []) == m
  {
  }

  lemma {:induction false} TestsCanonical(cs: seq<Condition>) returns (ws: seq<WTest>)
    requires forall c :: c in cs ==> WellFormedTest(c, 2)
    ensures |ws| == |cs| && TestsOf(ws) == cs && forall w :: w in ws ==> GoodTest(w, 2)
  {
    hide WellFormedTest, GoodTest, TestOf;
    if cs == [] {
      ws := [];
    } else {
      TestCanonical(cs[0], 2);
      var rest := TestsCanonical(cs[1..]);
      ws := [CanonicalTest(cs[0])] + rest;
      assert ws[1..] == rest && cs == [cs[0]] + cs[1..];
    }
  }

  lemma ActionCanonical(a: Action, next: TokenType)
    requires WellFormedAction(a)
    ensures GoodAction(CanonicalAction(a), next) && ActionOf(CanonicalAction(a)) == [a]
  {
    hide PrintableList, Printable, VacationMeant;
    if a.VacationAction? { VacationCanonical(a); }
  }

  lemma VacationCanonical(a: Action)
    requires a.VacationAction? && a.days >= 0
    ensures VacationMeant([Days(a.days), Subject(a.subject), From(a.from), Addresses(a.addresses)], Some(a.body)) == a
  {
    var from, addresses := From(a.from), Addresses(a.addresses);
    var p0 := Settings(7, "", "", []);
    var p1 := p0.(days := a.days);
    var p2 := p1.(subject := a.subject);
    var p3 := p2.(from := a.from);
    Settle(p0, Days(a.days), [Subject(a.subject), from, addresses]);
    Settle(p1, Subject(a.subject), [from, addresses]);
    Settle(p2, from, [addresses]);
    Settle(p3, addresses, []);
    assert [] + a.addresses == a.addresses;
    assert [Days(a.days)] + [Subject(a.subject), from, addresses] == [Days(a.days), Subject(a.subject), from, addresses];
    assert [Subject(a.subject)] + [from, addresses] == [Subject(a.subject), from, addresses];
    assert [from] + [addresses] == [from, addresses] && [addresses] + [] == [addresses];
  }

  lemma Settle(p: Settings, x: Param, xs: seq<Param>)
    ensures SettingsAfter(p, [x] + xs) == SettingsAfter(Set(p, x), xs)
  {
    assert ([x] + xs)[1..] == xs;
  }

  lemma {:induction false} ActionsCanonical(actions: seq<Action>, t: Text) returns (ws: seq<WAction>)
    requires forall a :: a in actions ==> WellFormedAction(a)
    ensures |ws| == |actions| && ActionsOf(ws) == actions && GoodActions(ws, t)
  {
    hide WellFormedAction, GoodAction, ActionOf, NextType;
    if actions == [] {
      ws := [];
    } else {
      var rest := ActionsCanonical(actions[1..], t);
      ActionCanonical(actions[0], NextType(PutActions(rest, t)));
      ws := [CanonicalAction(actions[0])] + rest;
      assert ws[1..] == rest && actions == [actions[0]] + actions[1..];
    }
  }

  lemma RuleCanonical(r: Rule, t: Text) returns (w: WStatement)
    requires WellFormedRule(r)
    ensures GoodStatement(w, t) && StatementOf(w) == Script([], [r])
  {
    hide WellFormedTest, WellFormedAction, GoodTest, GoodActions;
    var tests := TestsCanonical(r.conditions);
    var actions := ActionsCanonical(r.actions, Then(Mark('}'), t));
    w := WIf(Many(r.allOf, tests), actions);
    assert Rule(TestsOf(tests), ActionsOf(actions), r.allOf, false) == r;
  }

  lemma {:induction false} RulesCanonical(rules: seq<Rule>) returns (ws: seq<WStatement>)
    requires forall r :: r in rules ==> WellFormedRule(r)
    ensures GoodStatements(ws) && ScriptOf(ws) == Script([], rules)
  {
    hide WellFormedRule, GoodStatement, StatementOf;
    if rules == [] {
      ws := [];
    } else {
      var rest := RulesCanonical(rules[1..]);
      var w := RuleCanonical(rules[0], PutStatements(rest));
      ws := [w] + rest;
      assert ws[1..] == rest && rules == [rules[0]] + rules[1..];
    }
  }

  /** Every well-formed script is what some way of writing means. */
  lemma EveryScriptWritten(s: Script) returns (ws: seq<WStatement>)
    requires WellFormed(s)
    ensures GoodStatements(ws) && ScriptOf(ws) == s
  {
    hide WellFormedRule;
    var rest := RulesCanonical(s.rules);
    if s.require_ == [] {
      ws := rest;
    } else {
      ws := [WRequire(Brackets(s.require_), true)] + rest;
      assert ws[1..] == rest && s.require_ + [] == s.require_ && [] + s.rules == s.rules;
    }
  }
}
