/** The parser object (internal/sieve/parser.go): `pos` walks over `tokens` and `depth` counts
    nesting. Every method is proved to agree with the grammar functions, branch by branch. */
module SieveParser {
  import opened Wrappers
  import opened Strings
  import opened SieveSyntax
  import opened SieveLexer
  import opened SieveGrammar
  import opened SieveTokenizer

  lemma PrependAssoc<T>(xs: seq<T>, ys: seq<T>, r: Parsed<seq<T>>)
    ensures Prepend(xs, Prepend(ys, r)) == Prepend(xs + ys, r)
  {
    if r.Ok? { assert xs + (ys + r.value.0) == xs + ys + r.value.0; }
  }

  // One round of each loop, and the ways the loop ends, on the specification side.

  lemma ArrayItemsRound(toks: seq<Token>, count: nat, checked: bool)
    requires Cur(toks).typ != TRBracket && Cur(toks).typ != TEOF && count < MAX_ARRAY_SIZE
    requires !(Cur(toks).typ == TString && checked && TooLong(Cur(toks).val))
    ensures ArrayItems(toks, count, checked)
            == Prepend(StringItem(Cur(toks)), ArrayItems(Adv(toks), count + 1, checked))
    ensures |Adv(toks)| < |toks|
  {
  }

  lemma ArrayItemsStop(toks: seq<Token>, count: nat, checked: bool)
    ensures Cur(toks).typ == TRBracket || Cur(toks).typ == TEOF ==>
      ArrayItems(toks, count, checked) == Ok(([], toks))
    ensures Cur(toks).typ != TRBracket && Cur(toks).typ != TEOF && count >= MAX_ARRAY_SIZE ==>
      ArrayItems(toks, count, checked) == Err(ArrayTooLarge)
    ensures Cur(toks).typ == TString && count < MAX_ARRAY_SIZE && checked && TooLong(Cur(toks).val) ==>
      ArrayItems(toks, count, checked) == Err(StringTooLong)
  {
  }

  lemma HeaderModsRound(toks: seq<Token>, count: nat, m: Mods, m': Mods, rest: seq<Token>)
    requires Cur(toks).typ == TColon && count < MAX_MODIFIERS
    requires (m', rest) == ApplyMod(m, Cur(Adv(toks)).val, Adv(Adv(toks)))
    ensures HeaderMods(toks, count, m) == HeaderMods(rest, count + 1, m')
    ensures |rest| < |toks|
  {
  }

  lemma HeaderModsStop(toks: seq<Token>, count: nat, m: Mods)
    ensures Cur(toks).typ != TColon ==> HeaderMods(toks, count, m) == Ok((m, toks))
    ensures Cur(toks).typ == TColon && count >= MAX_MODIFIERS ==>
      HeaderMods(toks, count, m) == Err(InvalidInput(Modifiers))
  {
  }

  lemma TestItemsRound(toks: seq<Token>, count: nat, depth: nat, c: Condition, rest: seq<Token>)
    requires Cur(toks).typ != TRParen && Cur(toks).typ != TEOF && count < MAX_ARRAY_SIZE
    requires SingleTest(toks, depth) == Ok((c, rest))
    ensures TestItems(toks, count, depth) == Prepend(Kept(c), TestItems(SkipIf(rest, TComma), count + 1, depth))
    ensures |SkipIf(rest, TComma)| < |toks|
  {
  }

  lemma TestItemsStop(toks: seq<Token>, count: nat, depth: nat)
    ensures Cur(toks).typ == TRParen || Cur(toks).typ == TEOF ==> TestItems(toks, count, depth) == Ok(([], toks))
    ensures Cur(toks).typ != TRParen && Cur(toks).typ != TEOF && count >= MAX_ARRAY_SIZE ==>
      TestItems(toks, count, depth) == Err(ArrayTooLarge)
    ensures Cur(toks).typ != TRParen && Cur(toks).typ != TEOF && count < MAX_ARRAY_SIZE ==>
      SingleTest(toks, depth).Err? ==> TestItems(toks, count, depth) == Err(SingleTest(toks, depth).error)
  {
  }

  lemma ParamsRound(toks: seq<Token>, count: nat, p: Settings, p': Settings, rest: seq<Token>)
    requires Cur(toks).typ == TColon && count < MAX_VACATION_PARAMS
    requires ApplyParam(p, Cur(Adv(toks)).val, Adv(Adv(toks))) == Ok((p', rest))
    ensures Params(toks, count, p) == Params(rest, count + 1, p')
    ensures |rest| < |toks|
  {
  }

  lemma ParamsStop(toks: seq<Token>, count: nat, p: Settings)
    ensures Cur(toks).typ != TColon ==> Params(toks, count, p) == Ok((p, toks))
    ensures Cur(toks).typ == TColon && count >= MAX_VACATION_PARAMS ==>
      Params(toks, count, p) == Err(InvalidInput(VacationParams))
    ensures Cur(toks).typ == TColon && count < MAX_VACATION_PARAMS ==>
      var r := ApplyParam(p, Cur(Adv(toks)).val, Adv(Adv(toks)));
      r.Err? ==> Params(toks, count, p) == Err(r.error)
  {
  }

  lemma ActionItemsRound(toks: seq<Token>, count: nat, a: Action, rest: seq<Token>)
    requires Cur(toks).typ != TRBrace && Cur(toks).typ != TEOF && count < MAX_ARRAY_SIZE
    requires ActionAt(toks) == Ok((a, rest))
    ensures ActionItems(toks, count) == Prepend(KeptAction(a), ActionItems(rest, count + 1))
    ensures |rest| < |toks|
  {
  }

  lemma ActionItemsStop(toks: seq<Token>, count: nat)
    ensures Cur(toks).typ == TRBrace || Cur(toks).typ == TEOF ==> ActionItems(toks, count) == Ok(([], toks))
    ensures Cur(toks).typ != TRBrace && Cur(toks).typ != TEOF && count >= MAX_ARRAY_SIZE ==>
      ActionItems(toks, count) == Err(ArrayTooLarge)
    ensures Cur(toks).typ != TRBrace && Cur(toks).typ != TEOF && count < MAX_ARRAY_SIZE ==>
      ActionAt(toks).Err? ==> ActionItems(toks, count) == Err(ActionAt(toks).error)
  {
  }

  lemma StatementsRound(toks: seq<Token>, iterations: nat, depth: nat, s: Script, rest: seq<Token>)
    requires toks != [] && iterations < MAX_TOKENS && Cur(toks).typ != TEOF
    requires StatementAt(toks, depth) == Ok((s, rest))
    ensures Statements(toks, iterations, depth) == PrependScript(s, Statements(rest, iterations + 1, depth))
    ensures |rest| < |toks|
  {
  }

  lemma StatementsStop(toks: seq<Token>, iterations: nat, depth: nat)
    ensures toks == [] ==> Statements(toks, iterations, depth) == Ok(NO_SCRIPT)
    ensures toks != [] && iterations >= MAX_TOKENS ==>
      Statements(toks, iterations, depth) == Err(InvalidInput(ParseIterations))
    ensures iterations < MAX_TOKENS && Cur(toks).typ == TEOF ==> Statements(toks, iterations, depth) == Ok(NO_SCRIPT)
    ensures toks != [] && iterations < MAX_TOKENS && Cur(toks).typ != TEOF ==>
      StatementAt(toks, depth).Err? ==> Statements(toks, iterations, depth) == Err(StatementAt(toks, depth).error)
  {
  }

  lemma PrependEnds<T>(xs: seq<T>, r: Parsed<seq<T>>)
    ensures Prepend([], r) == r
    ensures r.Err? ==> Prepend(xs, r) == r
    ensures r.Ok? && r.value.0 == [] ==> Prepend(xs, r) == Ok((xs, r.value.1))
  {
    if r.Ok? {
      assert [] + r.value.0 == r.value.0 && xs + [] == xs;
    }
  }

  lemma PrependScripts(a: Script, b: Script, r: Result<Script, Error>)
    ensures PrependScript(a, PrependScript(b, r))
            == PrependScript(Script(a.require_ + b.require_, a.rules + b.rules), r)
  {
    if r.Ok? {
      assert a.require_ + (b.require_ + r.value.require_) == a.require_ + b.require_ + r.value.require_;
      assert a.rules + (b.rules + r.value.rules) == a.rules + b.rules + r.value.rules;
    }
  }

  const NO_SCRIPT := Script([], [])

  lemma PrependNoScript(s: Script, r: Result<Script, Error>)
    ensures PrependScript(NO_SCRIPT, r) == r
    ensures r.Err? ==> PrependScript(s, r) == r
    ensures PrependScript(s, Ok(NO_SCRIPT)) == Ok(s)
  {
    if r.Ok? {
      assert [] + r.value.require_ == r.value.require_ && [] + r.value.rules == r.value.rules;
    }
    assert s.require_ + [] == s.require_ && s.rules + [] == s.rules;
  }

  class Parser {
    var input: string
    var pos: nat
    var tokens: seq<Token>
    var depth: nat

    constructor (script: string)
      ensures input == script && pos == 0 && tokens == [] && depth == 0
    {
      input, pos, tokens, depth := script, 0, [], 0;
    }

    ghost predicate Valid()
      reads this`pos, this`tokens
    {
      pos <= |tokens|
    }

    /** The tokens that remain. */
    ghost function Rest(): seq<Token>
      reads this`pos, this`tokens
      requires Valid()
    {
      tokens[pos..]
    }

    /** A method's result as the grammar functions report it. */
    ghost function Seen<T>(r: Result<T, Error>): Parsed<T>
      reads this`pos, this`tokens
      requires Valid()
    {
      if r.Ok? then Ok((r.value, Rest())) else Err(r.error)
    }

    function Current(): (t: Token)
      reads this`pos, this`tokens
      requires Valid()
      ensures t == Cur(Rest())
    {
      if pos >= |tokens| then EOF_TOKEN else tokens[pos]
    }

    method Advance()
      requires Valid()
      modifies this`pos
      ensures Valid() && Rest() == Adv(old(Rest()))
    {
      if pos < |tokens| {
        pos := pos + 1;
      }
    }

    method AdvanceIf(typ: TokenType)
      requires Valid()
      modifies this`pos
      ensures Valid() && Rest() == SkipIf(old(Rest()), typ)
    {
      if Current().typ == typ {
        Advance();
      }
    }

    // ----- lists and strings -----

    method ParseArray(checked: bool) returns (r: Result<seq<string>, Error>)
      requires Valid()
      modifies this`pos
      ensures Valid() && Seen(r) == Array(old(Rest()), checked)
    {
      hide Current, Rest, Cur, Adv, SkipIf, ArrayItems;
      Advance();
      var items :- ParseArrayItems(checked);
      AdvanceIf(TRBracket);
      r := Ok(items);
    }

    method ParseArrayItems(checked: bool) returns (r: Result<seq<string>, Error>)
      requires Valid()
      modifies this`pos
      ensures Valid() && Seen(r) == ArrayItems(old(Rest()), 0, checked)
    {
      hide Current, Rest, Cur, Adv, SkipIf, ArrayItems, Prepend;
      var items: seq<string>, count := [], 0;
      PrependEnds([], ArrayItems(Rest(), 0, checked));
      while Current().typ != TRBracket && Current().typ != TEOF
        invariant Valid()
        invariant ArrayItems(old(Rest()), 0, checked) == Prepend(items, ArrayItems(Rest(), count, checked))
        decreases |Rest()|
      {
        ghost var before := Rest();
        ArrayItemsStop(before, count, checked);
        PrependEnds(items, ArrayItems(before, count, checked));
        count := count + 1;
        if count > MAX_ARRAY_SIZE {
          return Err(ArrayTooLarge);
        }
        var tok := Current();
        if tok.typ == TString && checked && TooLong(tok.val) {
          return Err(StringTooLong);
        }
        Advance();
        ArrayItemsRound(before, count - 1, checked);
        PrependAssoc(items, StringItem(tok), ArrayItems(Rest(), count, checked));
        items := items + StringItem(tok);
      }
      ArrayItemsStop(Rest(), count, checked);
      PrependEnds(items, ArrayItems(Rest(), count, checked));
      r := Ok(items);
    }

    method ParseStringList(checked: bool) returns (r: Result<seq<string>, Error>)
      requires Valid()
      modifies this`pos
      ensures Valid() && Seen(r) == StringList(old(Rest()), checked)
    {
      hide Current, Rest, Cur, Adv, SkipIf, Array;
      var tok := Current();
      if tok.typ == TLBracket {
        r := ParseArray(checked);
      } else if tok.typ == TString {
        if checked && TooLong(tok.val) {
          return Err(StringTooLong);
        }
        Advance();
        r := Ok([tok.val]);
      } else {
        r := Ok([]);
      }
    }

    method ParseOptionalString(default: string) returns (r: Result<string, Error>)
      requires Valid()
      modifies this`pos
      ensures Valid() && Seen(r) == OptionalString(old(Rest()), default)
    {
      hide Current, Rest, Cur, Adv, SkipIf;
      var tok := Current();
      if tok.typ == TString {
        if TooLong(tok.val) {
          return Err(StringTooLong);
        }
        Advance();
        r := Ok(tok.val);
      } else {
        r := Ok(default);
      }
    }

    // ----- tests -----

    method ParseModifiers() returns (r: Result<Mods, Error>)
      requires Valid()
      modifies this`pos
      ensures Valid() && Seen(r) == HeaderMods(old(Rest()), 0, Mods("", "", ""))
    {
      hide Current, Rest, Cur, Adv, SkipIf, ApplyMod, HeaderMods;
      var mods := Mods("", "", "");
      var modCount := 0;
      while Current().typ == TColon
        invariant Valid()
        invariant HeaderMods(old(Rest()), 0, Mods("", "", "")) == HeaderMods(Rest(), modCount, mods)
        decreases |Rest()|
      {
        ghost var before := Rest();
        HeaderModsStop(before, modCount, mods);
        modCount := modCount + 1;
        if modCount > MAX_MODIFIERS {
          return Err(InvalidInput(Modifiers));
        }
        Advance();
        var mod := Current().val;
        Advance();
        var mods' := ParseModifier(mods, mod);
        HeaderModsRound(before, modCount - 1, mods, mods', Rest());
        mods := mods';
      }
      HeaderModsStop(Rest(), modCount, mods);
      r := Ok(mods);
    }

    method ParseModifier(mods: Mods, mod: string) returns (r: Mods)
      requires Valid()
      modifies this`pos
      ensures Valid() && (r, Rest()) == ApplyMod(mods, mod, old(Rest()))
    {
      hide Current, Rest, Cur, Adv, SkipIf;
      if mod == "contains" || mod == "is" || mod == "matches" {
        r := mods.(matchType := mod);
      } else if mod == "localpart" || mod == "domain" || mod == "all" {
        r := mods.(addressPart := mod);
      } else if mod == "comparator" && Current().typ == TString {
        r := mods.(comparator := Current().val);
        Advance();
      } else {
        r := mods;
      }
    }

    method ParseHeaderCondition(isAddress: bool) returns (r: Result<Condition, Error>)
      requires Valid()
      modifies this`pos
      ensures Valid() && Seen(r) == HeaderTest(old(Rest()), isAddress)
    {
      hide Current, Rest, Cur, Adv, SkipIf, HeaderMods, StringList;
      Advance();
      var mods :- ParseModifiers();
      var headers :- ParseStringList(true);
      var values :- ParseStringList(true);
      var matchType := if mods.matchType == "" then "is" else mods.matchType;
      r := Ok(HeaderCondition(headers, values, matchType, mods.comparator, isAddress, mods.addressPart));
    }

    method ParseSizeCondition() returns (r: Result<Condition, Error>)
      requires Valid()
      modifies this`pos
      ensures Valid() && Seen(r) == SizeTest(old(Rest()))
    {
      hide Current, Rest, Cur, Adv, SkipIf, ParseSize;
      Advance();
      var over := false;
      if Current().typ == TColon {
        Advance();
        if Current().typ == TOver {
          over := true;
        }
        Advance();
      }
      var size := 0;
      if Current().typ == TNumber {
        size :- ParseSize(Current().val);
        Advance();
      }
      r := Ok(SizeCondition(size, over));
    }

    method ParseExistsCondition() returns (r: Result<Condition, Error>)
      requires Valid()
      modifies this`pos
      ensures Valid() && Seen(r) == ExistsTest(old(Rest()))
    {
      hide Current, Rest, Cur, Adv, SkipIf, StringList;
      Advance();
      var headers :- ParseStringList(true);
      r := Ok(ExistsCondition(headers));
    }

    method ParseSingleCondition() returns (r: Result<Condition, Error>)
      requires Valid()
      modifies this`pos, this`depth
      ensures Valid() && Seen(r) == SingleTest(old(Rest()), old(depth))
      ensures r.Ok? ==> depth == old(depth)
      decreases |Rest()|
    {
      hide Current, SkipIf, PlainTest;
      depth := depth + 1;
      if depth > MAX_CONDITION_DEPTH {
        return Err(NestingTooDeep);
      }
      if Current().typ == TNot {
        Advance();
        var inner :- ParseSingleCondition();
        r := Ok(NotCondition(inner));
      } else {
        r := ParsePlainCondition();
      }
      depth := depth - 1;
    }

    method ParsePlainCondition() returns (r: Result<Condition, Error>)
      requires Valid()
      modifies this`pos
      ensures Valid() && Seen(r) == PlainTest(old(Rest()))
    {
      hide Current, Rest, Cur, Adv, SkipIf, HeaderTest, SizeTest, ExistsTest;
      var typ := Current().typ;
      if typ == TAddress || typ == THeader {
        r := ParseHeaderCondition(typ == TAddress);
      } else if typ == TSize {
        r := ParseSizeCondition();
      } else if typ == TExists {
        r := ParseExistsCondition();
      } else {
        Advance();
        r := Ok(if typ == TTrue then TrueCondition else if typ == TFalse then FalseCondition else NilCondition);
      }
    }

    /** The parenthesised tests after allof and anyof. */
    method ParseTestList() returns (r: Result<seq<Condition>, Error>)
      requires Valid()
      modifies this`pos, this`depth
      ensures Valid() && Seen(r) == TestList(old(Rest()), old(depth))
      ensures r.Ok? ==> depth == old(depth)
    {
      hide Current, Rest, Cur, Adv, SkipIf, TestItems;
      if Current().typ != TLParen {
        return Ok([]);
      }
      Advance();
      var conditions :- ParseTestItems();
      AdvanceIf(TRParen);
      r := Ok(conditions);
    }

    method ParseTestItems() returns (r: Result<seq<Condition>, Error>)
      requires Valid()
      modifies this`pos, this`depth
      ensures Valid() && Seen(r) == TestItems(old(Rest()), 0, old(depth))
      ensures r.Ok? ==> depth == old(depth)
    {
      hide Current, Rest, Cur, Adv, SkipIf, SingleTest, TestItems, Prepend;
      var conditions: seq<Condition>, condCount := [], 0;
      PrependEnds([], TestItems(Rest(), 0, depth));
      while Current().typ != TRParen && Current().typ != TEOF
        invariant Valid() && depth == old(depth)
        invariant TestItems(old(Rest()), 0, depth) == Prepend(conditions, TestItems(Rest(), condCount, depth))
        decreases |Rest()|
      {
        ghost var before := Rest();
        TestItemsStop(before, condCount, depth);
        PrependEnds(conditions, TestItems(before, condCount, depth));
        condCount := condCount + 1;
        if condCount > MAX_ARRAY_SIZE {
          return Err(ArrayTooLarge);
        }
        var cond :- ParseSingleCondition();
        TestItemsRound(before, condCount - 1, depth, cond, Rest());
        AdvanceIf(TComma);
        PrependAssoc(conditions, Kept(cond), TestItems(Rest(), condCount, depth));
        conditions := conditions + Kept(cond);
      }
      TestItemsStop(Rest(), condCount, depth);
      PrependEnds(conditions, TestItems(Rest(), condCount, depth));
      r := Ok(conditions);
    }

    method ParseCondition() returns (r: Result<(seq<Condition>, bool), Error>)
      requires Valid()
      modifies this`pos, this`depth
      ensures Valid() && Seen(r) == Test(old(Rest()), old(depth))
      ensures r.Ok? ==> depth == old(depth)
    {
      hide Current, Rest, Cur, Adv, SkipIf, SingleTest, TestList;
      depth := depth + 1;
      if depth > MAX_CONDITION_DEPTH {
        return Err(NestingTooDeep);
      }
      var typ := Current().typ;
      if typ == TAllof || typ == TAnyof {
        Advance();
        var conditions :- ParseTestList();
        r := Ok((conditions, typ == TAllof));
      } else if typ == TTrue || typ == TFalse {
        Advance();
        r := Ok(([if typ == TTrue then TrueCondition else FalseCondition], true));
      } else {
        var cond :- ParseSingleCondition();
        r := Ok((if cond == NilCondition then [] else [cond], true));
      }
      depth := depth - 1;
    }

    // ----- actions -----

    method ParseVacationAction() returns (r: Result<Action, Error>)
      requires Valid()
      modifies this`pos
      ensures Valid() && Seen(r) == Vacation(old(Rest()))
    {
      hide Current, Rest, Cur, Adv, SkipIf, Params, ApplyParam, OptionalString;
      Advance();
      ghost var start := Rest();
      var settings := DEFAULT_SETTINGS;
      var paramCount := 0;
      while Current().typ == TColon
        invariant Valid()
        invariant Params(start, 0, DEFAULT_SETTINGS) == Params(Rest(), paramCount, settings)
        decreases |Rest()|
      {
        ParamsStop(Rest(), paramCount, settings);
        ghost var before := Rest();
        paramCount := paramCount + 1;
        if paramCount > MAX_VACATION_PARAMS {
          return Err(InvalidInput(VacationParams));
        }
        Advance();
        var param := Current().val;
        Advance();
        var settings' :- ParseVacationParam(settings, param);
        ParamsRound(before, paramCount - 1, settings, settings', Rest());
        settings := settings';
      }
      ParamsStop(Rest(), paramCount, settings);
      var body :- ParseOptionalString("");
      AdvanceIf(TSemi);
      r := Ok(VacationAction(settings.days, settings.subject, settings.from, body, settings.addresses));
    }

    method ParseVacationParam(settings: Settings, param: string) returns (r: Result<Settings, Error>)
      requires Valid()
      modifies this`pos
      ensures Valid() && Seen(r) == ApplyParam(settings, param, old(Rest()))
    {
      hide Current, Rest, Cur, Adv, SkipIf, Array, OptionalString, ParseInt64;
      if param == "days" {
        if Current().typ != TNumber {
          return Ok(settings);
        }
        match ParseInt64(Current().val)
        case None => return Err(BadNumber);
        case Some(days) =>
          if days < 0 || days > MAX_VACATION_DAYS {
            return Err(VacationDaysRange);
          }
          Advance();
          r := Ok(settings.(days := days));
      } else if param == "subject" {
        var v :- ParseOptionalString(settings.subject);
        r := Ok(settings.(subject := v));
      } else if param == "from" {
        var v :- ParseOptionalString(settings.from);
        r := Ok(settings.(from := v));
      } else if param == "addresses" {
        if Current().typ != TLBracket {
          return Ok(settings);
        }
        var items :- ParseArray(true);
        r := Ok(settings.(addresses := settings.addresses + items));
      } else {
        r := Ok(settings);
      }
    }

    method ParseAction() returns (r: Result<Action, Error>)
      requires Valid()
      modifies this`pos
      ensures Valid() && Seen(r) == ActionAt(old(Rest()))
    {
      hide Current, Rest, Cur, Adv, SkipIf, OptionalString, Vacation;
      var typ := Current().typ;
      if typ == TFileinto {
        Advance();
        var folder :- ParseOptionalString("");
        AdvanceIf(TSemi);
        r := if folder == "" then Err(MissingFolder) else Ok(FileIntoAction(folder));
      } else if typ == TRedirect {
        Advance();
        var address :- ParseOptionalString("");
        AdvanceIf(TSemi);
        r := if address == "" then Err(MissingAddress) else Ok(RedirectAction(address));
      } else if typ == TReject {
        Advance();
        var message :- ParseOptionalString("");
        AdvanceIf(TSemi);
        r := Ok(RejectAction(message));
      } else if typ == TVacation {
        r := ParseVacationAction();
      } else if typ == TKeep || typ == TDiscard || typ == TStop {
        Advance();
        AdvanceIf(TSemi);
        r := Ok(if typ == TKeep then KeepAction else if typ == TDiscard then DiscardAction else StopAction);
      } else {
        Advance();
        r := Ok(NilAction);
      }
    }

    // ----- rules and scripts -----

    method ParseRule() returns (r: Result<Rule, Error>)
      requires Valid()
      modifies this`pos, this`depth
      ensures Valid() && Seen(r) == RuleAt(old(Rest()), old(depth))
      ensures r.Ok? ==> depth == old(depth)
    {
      hide Current, Rest, Cur, Adv, SkipIf, Test, ActionItems;
      depth := depth + 1;
      if depth > MAX_PARSE_DEPTH {
        return Err(NestingTooDeep);
      }
      Advance();
      var test :- ParseCondition();
      if Current().typ != TLBrace {
        return Err(ExpectedBrace(Current().typ));
      }
      Advance();
      var actions :- ParseActionItems();
      AdvanceIf(TRBrace);
      depth := depth - 1;
      r := Ok(Rule(test.0, actions, test.1, false));
    }

    method ParseActionItems() returns (r: Result<seq<Action>, Error>)
      requires Valid()
      modifies this`pos
      ensures Valid() && Seen(r) == ActionItems(old(Rest()), 0)
    {
      hide Current, Rest, Cur, Adv, SkipIf, ActionAt, ActionItems, Prepend;
      var actions: seq<Action>, actionCount := [], 0;
      PrependEnds([], ActionItems(Rest(), 0));
      while Current().typ != TRBrace && Current().typ != TEOF
        invariant Valid()
        invariant ActionItems(old(Rest()), 0) == Prepend(actions, ActionItems(Rest(), actionCount))
        decreases |Rest()|
      {
        ghost var before := Rest();
        ActionItemsStop(before, actionCount);
        PrependEnds(actions, ActionItems(before, actionCount));
        actionCount := actionCount + 1;
        if actionCount > MAX_ARRAY_SIZE {
          return Err(ArrayTooLarge);
        }
        var action :- ParseAction();
        ActionItemsRound(before, actionCount - 1, action, Rest());
        PrependAssoc(actions, KeptAction(action), ActionItems(Rest(), actionCount));
        actions := actions + KeptAction(action);
      }
      ActionItemsStop(Rest(), actionCount);
      PrependEnds(actions, ActionItems(Rest(), actionCount));
      r := Ok(actions);
    }

    method ParseRequire() returns (r: Result<seq<string>, Error>)
      requires Valid()
      modifies this`pos
      ensures Valid() && Seen(r) == RequireAt(old(Rest()))
    {
      hide Current, Rest, Cur, Adv, SkipIf, StringList;
      Advance();
      var reqs :- ParseStringList(false);
      AdvanceIf(TSemi);
      r := Ok(reqs);
    }

    method ParseStatement() returns (r: Result<Script, Error>)
      requires Valid()
      modifies this`pos, this`depth
      ensures Valid() && Seen(r) == StatementAt(old(Rest()), old(depth))
      ensures r.Ok? ==> depth == old(depth)
    {
      hide Current, Rest, Cur, Adv, SkipIf, RequireAt, RuleAt;
      var typ := Current().typ;
      if typ == TRequire {
        var reqs :- ParseRequire();
        r := Ok(Script(reqs, []));
      } else if typ == TIf {
        var rule :- ParseRule();
        r := Ok(Script([], [rule]));
      } else {
        Advance();
        r := Ok(Script([], []));
      }
    }

    method ParseTokens() returns (r: Result<Script, Error>)
      requires Valid()
      modifies this`pos, this`depth
      ensures Valid() && r == Statements(old(Rest()), 0, old(depth))
    {
      hide Current, Rest, Cur, Adv, SkipIf, StatementAt, Statements, PrependScript;
      var script := NO_SCRIPT;
      var iterations := 0;
      PrependNoScript(script, Statements(Rest(), 0, depth));
      while pos < |tokens| && (iterations >= MAX_TOKENS || Current().typ != TEOF)
        invariant Valid() && depth == old(depth)
        invariant Statements(old(Rest()), 0, depth) == PrependScript(script, Statements(Rest(), iterations, depth))
        decreases |Rest()|
      {
        RestEmpty();
        ghost var before := Rest();
        StatementsStop(before, iterations, depth);
        PrependNoScript(script, Statements(before, iterations, depth));
        iterations := iterations + 1;
        if iterations > MAX_TOKENS {
          return Err(InvalidInput(ParseIterations));
        }
        var statement :- ParseStatement();
        StatementsRound(before, iterations - 1, depth, statement, Rest());
        PrependScripts(script, statement, Statements(Rest(), iterations, depth));
        script := Script(script.require_ + statement.require_, script.rules + statement.rules);
      }
      RestEmpty();
      StatementsStop(Rest(), iterations, depth);
      PrependNoScript(script, Statements(Rest(), iterations, depth));
      r := Ok(script);
    }

    lemma RestEmpty()
      requires Valid()
      ensures Rest() == [] <==> pos == |tokens|
    {
    }

    /** tokenize: fills the token list of a new parser. */
    method TokenizeInput() returns (r: Result<(), Error>)
      requires Valid() && tokens == []
      modifies this`tokens
      ensures Valid()
      ensures Tokenize(input) == if r.Ok? then Ok(tokens) else Err(r.error)
    {
      var list :- TokenizeText(input);
      tokens := list;
      r := Ok(());
    }
  }

  /** Parse: the specification of the package's entry point. */
  function ParseText(script: string): Result<Script, Error> {
    if |script| > MAX_SCRIPT_SIZE then Err(ScriptTooLarge)
    else
      var tokens :- Tokenize(script);
      Statements(tokens, 0, 0)
  }

  method Parse(script: string) returns (r: Result<Script, Error>)
    ensures r == ParseText(script)
  {
    hide Tokenize, Statements;
    if |script| > MAX_SCRIPT_SIZE {
      return Err(ScriptTooLarge);
    }
    var p := new Parser(script);
    var _ :- p.TokenizeInput();
    r := p.ParseTokens();
  }
}
