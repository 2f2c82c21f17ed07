/** The limits of the tokenizer and the parser (internal/sieve/parser.go): which of them can fire and
    when, and what every accepted script satisfies. The lemmas go through the grammar function by
    function, since the bounds on a script are those on its rules, tests, actions and strings. */
module SieveLimits {
  import opened Wrappers
  import opened Strings
  import opened SieveSyntax
  import opened SieveConditions
  import opened SieveLexer
  import opened SieveTokenizer
  import opened SieveGrammar
  import opened SieveParser
  import opened SieveRoundTrip

  // ----- the tokenizer -----

  /** Tokens as the tokenizer leaves them: one EOF, at the end. */
  predicate TokenList(toks: seq<Token>) {
    && toks != []
    && toks[|toks| - 1] == EOF_TOKEN
    && forall i :: 0 <= i < |toks| - 1 ==> toks[i].typ != TEOF
  }

  /** The errors tokenize can report; the safety limit of its loop is not among them. */
  predicate LexError(e: Error) {
    e in {TooManyTokens, StringTooLong, UnterminatedString, InvalidInput(NumberLength), InvalidInput(WordLength)}
  }

  lemma NextTokenNotEOF(s: string)
    requires s != "" && NextToken(s).Ok? && NextToken(s).value.0.Some?
    ensures NextToken(s).value.0.value.typ != TEOF
  {
  }

  lemma {:induction false} LexShape(s: string, count: nat, iterations: nat, maxIterations: nat)
    requires iterations + |s| <= maxIterations && count <= MAX_TOKENS
    ensures match Lex(s, count, iterations, maxIterations)
            case Ok(toks) => TokenList(toks) && count + |toks| - 1 <= MAX_TOKENS
            case Err(e) => LexError(e)
    decreases |s|
  {
    hide Lex, NextToken, TokenList;
    LexStop(s, count, iterations, maxIterations);
    TokenListEnd();
    if s != "" && count < MAX_TOKENS && TrimLeft(s) != "" {
      var t := TrimLeft(s);
      NextTokenErrors(t);
      if NextToken(t).Ok? {
        var (token, rest) := NextToken(t).value;
        LexRound(s, count, iterations, maxIterations, t, token, rest);
        LexShape(rest, count + |Item(token)|, iterations + 1, maxIterations);
        PrependTokensAssoc([], [], Lex(rest, count, iterations + 1, maxIterations));
        if token.Some? && Lex(rest, count + 1, iterations + 1, maxIterations).Ok? {
          NextTokenNotEOF(t);
          TokenListCons(token.value, Lex(rest, count + 1, iterations + 1, maxIterations).value);
        }
      }
    }
  }

  lemma TokenListEnd()
    ensures TokenList([EOF_TOKEN])
    ensures forall toks :: TokenList(toks) ==> toks != []
  {
  }

  lemma TokenListCons(t: Token, toks: seq<Token>)
    requires TokenList(toks) && t.typ != TEOF
    ensures TokenList([t] + toks)
  {
  }

  lemma NextTokenErrors(s: string)
    requires s != ""
    ensures NextToken(s).Err? ==> LexError(NextToken(s).error)
  {
    if s[0] == '"' { ScanErrors(s[1..], 0); }
  }

  lemma {:induction false} ScanErrors(s: string, iterations: nat)
    ensures ScanString(s, iterations).Err? ==> LexError(ScanString(s, iterations).error)
    decreases |s|
  {
    if s != "" && s[0] != '"' && iterations < MAX_STRING_LENGTH {
      ScanErrors(s[AfterRaw(s, 0)..], iterations + 1);
    }
  }

  /** The safety limit of the token loop never fires, and at most MAX_TOKENS tokens precede EOF. */
  lemma TokenizeShape(input: string)
    ensures match Tokenize(input)
            case Ok(toks) => TokenList(toks) && |toks| - 1 <= MAX_TOKENS
            case Err(e) => LexError(e)
  {
    var s := StripComments(input);
    LexShape(s, 0, 0, |s| + 1000);
  }

  // ----- the iteration limit of the parser -----

  predicate NotIterations(e: Error) {
    e != InvalidInput(ParseIterations)
  }

  lemma ArrayErrors(toks: seq<Token>, count: nat, checked: bool)
    ensures ArrayItems(toks, count, checked).Err? ==> NotIterations(ArrayItems(toks, count, checked).error)
  {
  }

  lemma ModsErrors(toks: seq<Token>, count: nat, m: Mods)
    ensures HeaderMods(toks, count, m).Err? ==> NotIterations(HeaderMods(toks, count, m).error)
    decreases |toks|
  {
  }

  lemma StringListErrors(toks: seq<Token>, checked: bool)
    ensures StringList(toks, checked).Err? ==> NotIterations(StringList(toks, checked).error)
  {
    ArrayErrors(Adv(toks), 0, checked);
  }

  lemma HeaderErrors(toks: seq<Token>, isAddress: bool)
    ensures HeaderTest(toks, isAddress).Err? ==> NotIterations(HeaderTest(toks, isAddress).error)
  {
    hide StringList, HeaderMods;
    ModsErrors(Adv(toks), 0, Mods("", "", ""));
    forall t { StringListErrors(t, true); }
  }

  lemma SingleErrors(toks: seq<Token>, depth: nat)
    ensures SingleTest(toks, depth).Err? ==> NotIterations(SingleTest(toks, depth).error)
    decreases |toks|
  {
    hide HeaderTest, StringList, ParseSize;
    if depth < MAX_CONDITION_DEPTH {
      if Cur(toks).typ == TNot {
        SingleErrors(Adv(toks), depth + 1);
      } else {
        HeaderErrors(toks, true);
        HeaderErrors(toks, false);
        StringListErrors(Adv(toks), true);
        forall s { SizeErrors(s); }
      }
    }
  }

  lemma SizeErrors(s: string)
    ensures ParseSize(s).Err? ==> NotIterations(ParseSize(s).error)
  {
  }

  lemma {:induction false} TestItemsErrors(toks: seq<Token>, count: nat, depth: nat)
    ensures TestItems(toks, count, depth).Err? ==> NotIterations(TestItems(toks, count, depth).error)
    decreases |toks|
  {
    hide SingleTest;
    SingleErrors(toks, depth);
    if Cur(toks).typ != TRParen && Cur(toks).typ != TEOF && count < MAX_ARRAY_SIZE && SingleTest(toks, depth).Ok? {
      TestItemsErrors(SkipIf(SingleTest(toks, depth).value.1, TComma), count + 1, depth);
    }
  }

  lemma TestErrors(toks: seq<Token>, depth: nat)
    ensures Test(toks, depth).Err? ==> NotIterations(Test(toks, depth).error)
  {
    hide SingleTest, TestItems;
    SingleErrors(toks, depth + 1);
    TestItemsErrors(Adv(Adv(toks)), 0, depth + 1);
  }

  lemma ParamErrors(p: Settings, name: string, toks: seq<Token>)
    ensures ApplyParam(p, name, toks).Err? ==> NotIterations(ApplyParam(p, name, toks).error)
  {
    hide ArrayItems;
    ArrayErrors(Adv(toks), 0, true);
  }

  lemma {:induction false} ParamsErrors(toks: seq<Token>, count: nat, p: Settings)
    ensures Params(toks, count, p).Err? ==> NotIterations(Params(toks, count, p).error)
    decreases |toks|
  {
    hide ApplyParam;
    if Cur(toks).typ == TColon && count < MAX_VACATION_PARAMS {
      var r := ApplyParam(p, Cur(Adv(toks)).val, Adv(Adv(toks)));
      ParamErrors(p, Cur(Adv(toks)).val, Adv(Adv(toks)));
      if r.Ok? { ParamsErrors(r.value.1, count + 1, r.value.0); }
    }
  }

  lemma ActionErrors(toks: seq<Token>)
    ensures ActionAt(toks).Err? ==> NotIterations(ActionAt(toks).error)
  {
    hide Params;
    ParamsErrors(Adv(toks), 0, DEFAULT_SETTINGS);
  }

  lemma {:induction false} ActionItemsErrors(toks: seq<Token>, count: nat)
    ensures ActionItems(toks, count).Err? ==> NotIterations(ActionItems(toks, count).error)
    decreases |toks|
  {
    hide ActionAt;
    ActionErrors(toks);
    if Cur(toks).typ != TRBrace && Cur(toks).typ != TEOF && count < MAX_ARRAY_SIZE && ActionAt(toks).Ok? {
      ActionItemsErrors(ActionAt(toks).value.1, count + 1);
    }
  }

  lemma StatementErrors(toks: seq<Token>, depth: nat)
    ensures StatementAt(toks, depth).Err? ==> NotIterations(StatementAt(toks, depth).error)
  {
    hide Test, ActionItems, StringList;
    TestErrors(Adv(toks), depth + 1);
    StringListErrors(Adv(toks), false);
    forall t { ActionItemsErrors(t, 0); }
  }

  /** The statement at the front uses up this token alone. */
  predicate SingleStatement(toks: seq<Token>)
    requires toks != []
  {
    && toks[0].typ != TIf
    && (toks[0].typ == TRequire ==> !(Cur(toks[1..]).typ in {TLBracket, TString, TSemi}))
  }

  /** Every token before EOF makes a statement of its own. */
  predicate AllSingle(toks: seq<Token>) {
    forall i :: 0 <= i < |toks| - 1 ==> SingleStatement(toks[i..])
  }

  lemma StatementLength(toks: seq<Token>, depth: nat)
    requires toks != []
    ensures SingleStatement(toks) ==> StatementAt(toks, depth).Ok? && StatementAt(toks, depth).value.1 == toks[1..]
    ensures !SingleStatement(toks) && StatementAt(toks, depth).Ok? ==>
      |StatementAt(toks, depth).value.1| <= |toks| - 2 || toks[1..] == []
  {
    hide Test, ActionItems, ArrayItems;
  }

  lemma {:induction false} StatementsNoGuard(toks: seq<Token>, iterations: nat, depth: nat)
    requires iterations + |toks| <= MAX_TOKENS
    ensures Statements(toks, iterations, depth) != Err(InvalidInput(ParseIterations))
    decreases |toks|
  {
    hide StatementAt;
    if toks != [] && toks[0].typ != TEOF {
      StatementErrors(toks, depth);
      var r := StatementAt(toks, depth);
      if r.Ok? { StatementsNoGuard(r.value.1, iterations + 1, depth); }
    }
  }

  lemma {:induction false} StatementsGuard(toks: seq<Token>, iterations: nat, depth: nat)
    requires TokenList(toks) && iterations + |toks| - 1 <= MAX_TOKENS
    ensures Statements(toks, iterations, depth) == Err(InvalidInput(ParseIterations))
            <==> iterations + |toks| - 1 == MAX_TOKENS && AllSingle(toks)
    decreases |toks|
  {
    hide StatementAt;
    if iterations + |toks| - 1 < MAX_TOKENS {
      StatementsNoGuard(toks, iterations, depth);
    } else if toks[0].typ != TEOF {
      assert toks[0..] == toks && (AllSingle(toks) ==> SingleStatement(toks[0..]));
      StatementErrors(toks, depth);
      StatementLength(toks, depth);
      var r := StatementAt(toks, depth);
      if SingleStatement(toks) {
        StatementsGuard(toks[1..], iterations + 1, depth);
        AllSingleTail(toks);
      } else if r.Ok? {
        StatementsNoGuard(r.value.1, iterations + 1, depth);
      }
    }
  }

  lemma AllSingleTail(toks: seq<Token>)
    requires |toks| >= 2 && SingleStatement(toks)
    ensures AllSingle(toks) <==> AllSingle(toks[1..])
  {
    assert toks[0..] == toks;
    assert forall i :: 0 <= i < |toks| - 1 ==> toks[1..][i..] == toks[i + 1..];
    if AllSingle(toks[1..]) {
      forall i | 0 <= i < |toks| - 1 ensures SingleStatement(toks[i..]) {
        if i > 0 { assert SingleStatement(toks[1..][i - 1..]); }
      }
    }
    if AllSingle(toks) {
      forall i | 0 <= i < |toks[1..]| - 1 ensures SingleStatement(toks[1..][i..]) {
        assert SingleStatement(toks[i + 1..]);
      }
    }
  }

  /** The iteration limit of parse fires exactly on MAX_TOKENS tokens that are all skipped one
      by one; with fewer tokens it cannot fire. */
  lemma IterationLimit(input: string)
    requires |input| <= MAX_SCRIPT_SIZE
    ensures ParseText(input) == Err(InvalidInput(ParseIterations))
            <==> Tokenize(input).Ok? && |Tokenize(input).value| - 1 == MAX_TOKENS && AllSingle(Tokenize(input).value)
  {
    hide Tokenize, Statements, AllSingle;
    TokenizeShape(input);
    if Tokenize(input).Ok? {
      StatementsGuard(Tokenize(input).value, 0, 0);
    }
  }

  function Semicolons(n: nat): string {
    if n == 0 then "" else ";" + Semicolons(n - 1)
  }

  lemma {:induction false} LexSemicolons(n: nat, count: nat, iterations: nat, maxIterations: nat)
    requires count + n <= MAX_TOKENS && iterations + n <= maxIterations
    ensures |Semicolons(n)| == n && Clean(Semicolons(n))
    ensures match Lex(Semicolons(n), count, iterations, maxIterations)
            case Ok(toks) => |toks| == n + 1 && forall i :: 0 <= i < n ==> toks[i].typ == TSemi
            case Err(_) => false
  {
    hide Lex, NextToken;
    var s := Semicolons(n);
    LexStop(s, count, iterations, maxIterations);
    if n > 0 {
      var rest := Semicolons(n - 1);
      LexSemicolons(n - 1, count + 1, iterations + 1, maxIterations);
      SemicolonToken(rest);
      LexRound(s, count, iterations, maxIterations, s, Some(Token(TSemi, ";")), rest);
    }
  }

  lemma SemicolonToken(rest: string)
    ensures NextToken(";" + rest) == Ok((Some(Token(TSemi, ";")), rest))
    ensures TrimLeft(";" + rest) == ";" + rest
  {
    assert (";" + rest)[1..] == rest;
  }

  lemma TokenizeSemicolons(n: nat)
    requires n <= MAX_TOKENS
    ensures Tokenize(Semicolons(n)).Ok? && |Semicolons(n)| == n
    ensures var toks := Tokenize(Semicolons(n)).value; |toks| == n + 1 && forall i :: 0 <= i < n ==> toks[i].typ == TSemi
  {
    hide Lex, Semicolons;
    LexSemicolons(n, 0, 0, n + 1000);
    CleanText(Semicolons(n));
  }

  lemma SemicolonsSingle(toks: seq<Token>)
    requires toks != [] && forall i :: 0 <= i < |toks| - 1 ==> toks[i].typ == TSemi
    ensures AllSingle(toks)
  {
    forall i | 0 <= i < |toks| - 1 ensures SingleStatement(toks[i..]) {
      assert toks[i..][0] == toks[i];
    }
  }

  /** The limit is reachable: a text of MAX_TOKENS semicolons is refused, though every token of
      it is one that parse would skip. */
  lemma IterationLimitReached(n: nat)
    requires n == MAX_TOKENS
    ensures ParseText(Semicolons(n)) == Err(InvalidInput(ParseIterations))
  {
    hide Tokenize, Statements, AllSingle, Semicolons, ParseText;
    TokenizeSemicolons(n);
    IterationLimit(Semicolons(n));
    SemicolonsSingle(Tokenize(Semicolons(n)).value);
  }

  // ----- accepted scripts -----

  /** Sizes and lists are in range, under however many negations. */
  predicate InRange(c: Condition) {
    match c
    case NotCondition(inner) => InRange(inner)
    case SizeCondition(size, _) => 0 <= size <= MAX_SIZE_VALUE
    case HeaderCondition(headers, values, _, _, _, _) => |headers| <= MAX_ARRAY_SIZE && |values| <= MAX_ARRAY_SIZE
    case ExistsCondition(names) => |names| <= MAX_ARRAY_SIZE
    case _ => true
  }

  /** Below `outer` levels of nesting, a test is there, in range, and negated few enough times. */
  predicate AcceptedTest(c: Condition, outer: nat) {
    !c.NilCondition? && InRange(c) && (Nots(c) == 0 || outer + Nots(c) <= MAX_CONDITION_DEPTH)
  }

  /** The test below all negations. */
  function Core(c: Condition): Condition {
    if c.NotCondition? then Core(c.inner) else c
  }

  /** The token after all the nots. */
  function AfterNots(toks: seq<Token>): TokenType {
    if Cur(toks).typ == TNot then AfterNots(Adv(toks)) else Cur(toks).typ
  }

  predicate StartsTest(typ: TokenType) {
    typ == TAddress || typ == THeader || typ == TSize || typ == TExists || typ == TTrue || typ == TFalse
  }

  /** A negation can hold a nil, and does exactly when the token after its nots starts no test. It
      then says nothing about the message: it matches every message or none, as the number of
      nots is odd or even. */
  lemma NilUnderNot(toks: seq<Token>, depth: nat, msg: Message)
    requires SingleTest(toks, depth).Ok?
    ensures var c := SingleTest(toks, depth).value.0;
            && (Core(c).NilCondition? <==> !StartsTest(AfterNots(toks)))
            && (c.NotCondition? && Core(c).NilCondition? ==> (Evaluate(c, msg) <==> Nots(c) % 2 == 1))
  {
    hide SingleTest, AfterNots, StartsTest, Evaluate, Nots, Core;
    NilWhere(toks, depth);
    var c := SingleTest(toks, depth).value.0;
    if c.NotCondition? && Core(c).NilCondition? { NilMatches(c, msg); }
  }

  lemma {:induction false} NilMatches(c: Condition, msg: Message)
    requires c.NotCondition? && Core(c).NilCondition?
    ensures Evaluate(c, msg) <==> Nots(c) % 2 == 1
  {
    hide AnyMatch, HeaderValues, HeaderExists;
    if c.inner.NotCondition? { NilMatches(c.inner, msg); }
  }

  lemma {:induction false} NilWhere(toks: seq<Token>, depth: nat)
    requires SingleTest(toks, depth).Ok?
    ensures Core(SingleTest(toks, depth).value.0).NilCondition? <==> !StartsTest(AfterNots(toks))
    decreases |toks|
  {
    hide PlainTest, StartsTest;
    if Cur(toks).typ == TNot {
      NilWhere(Adv(toks), depth + 1);
    } else {
      PlainKind(toks);
    }
  }

  lemma PlainKind(toks: seq<Token>)
    ensures var r := PlainTest(toks); r.Ok? ==> (r.value.0.NilCondition? <==> !StartsTest(Cur(toks).typ))
  {
    hide HeaderMods, StringList, ParseSize;
  }

  /** Folders and addresses are present and vacation intervals are in range. */
  predicate AcceptedAction(a: Action) {
    match a
    case NilAction => false
    case FileIntoAction(folder) => 0 < |folder| <= MAX_STRING_LENGTH
    case RedirectAction(address) => 0 < |address| <= MAX_STRING_LENGTH
    case RejectAction(message) => |message| <= MAX_STRING_LENGTH
    case VacationAction(days, subject, from, body, _) =>
      0 <= days <= MAX_VACATION_DAYS && |subject| <= MAX_STRING_LENGTH
      && |from| <= MAX_STRING_LENGTH && |body| <= MAX_STRING_LENGTH
    case _ => true
  }

  predicate AcceptedRule(r: Rule, outer: nat) {
    && !r.stop
    && |r.conditions| <= MAX_ARRAY_SIZE && |r.actions| <= MAX_ARRAY_SIZE
    && (forall c :: c in r.conditions ==> AcceptedTest(c, outer))
    && (forall a :: a in r.actions ==> AcceptedAction(a))
  }

  lemma {:induction false} ArrayAccepted(toks: seq<Token>, count: nat, checked: bool)
    requires count <= MAX_ARRAY_SIZE
    ensures var r := ArrayItems(toks, count, checked); r.Ok? ==> count + |r.value.0| <= MAX_ARRAY_SIZE
  {
    if Cur(toks).typ != TRBracket && Cur(toks).typ != TEOF && count < MAX_ARRAY_SIZE {
      ArrayAccepted(Adv(toks), count + 1, checked);
    }
  }

  lemma StringListAccepted(toks: seq<Token>, checked: bool)
    ensures var r := StringList(toks, checked); r.Ok? ==> |r.value.0| <= MAX_ARRAY_SIZE
  {
    hide ArrayItems;
    ArrayAccepted(Adv(toks), 0, checked);
  }

  lemma {:induction false} SingleAccepted(toks: seq<Token>, depth: nat)
    ensures var r := SingleTest(toks, depth); r.Ok? && r.value.0 != NilCondition ==> AcceptedTest(r.value.0, depth + 1)
    ensures var r := SingleTest(toks, depth); r.Ok? ==> InRange(r.value.0)
    ensures var r := SingleTest(toks, depth); r.Ok? ==> depth + 1 + Nots(r.value.0) <= MAX_CONDITION_DEPTH
    decreases |toks|
  {
    if depth < MAX_CONDITION_DEPTH {
      if Cur(toks).typ == TNot {
        hide PlainTest;
        SingleAccepted(Adv(toks), depth + 1);
      } else {
        PlainAccepted(toks, depth + 1);
      }
    }
  }

  lemma PlainAccepted(toks: seq<Token>, outer: nat)
    ensures var r := PlainTest(toks); r.Ok? && r.value.0 != NilCondition ==> AcceptedTest(r.value.0, outer)
    ensures var r := PlainTest(toks); r.Ok? ==> Nots(r.value.0) == 0 && InRange(r.value.0)
  {
    hide HeaderMods, StringList, ParseSize;
    forall t { StringListAccepted(t, true); }
    forall s { SizeAccepted(s); }
  }

  lemma SizeAccepted(s: string)
    ensures ParseSize(s).Ok? ==> 0 <= ParseSize(s).value <= MAX_SIZE_VALUE
  {
  }

  lemma {:induction false} TestItemsAccepted(toks: seq<Token>, count: nat, depth: nat)
    requires count <= MAX_ARRAY_SIZE
    ensures var r := TestItems(toks, count, depth);
            r.Ok? ==> count + |r.value.0| <= MAX_ARRAY_SIZE
                      && forall c :: c in r.value.0 ==> AcceptedTest(c, depth + 1)
    decreases |toks|
  {
    hide SingleTest, AcceptedTest;
    SingleAccepted(toks, depth);
    if Cur(toks).typ != TRParen && Cur(toks).typ != TEOF && count < MAX_ARRAY_SIZE && SingleTest(toks, depth).Ok? {
      TestItemsAccepted(SkipIf(SingleTest(toks, depth).value.1, TComma), count + 1, depth);
    }
  }

  lemma TestAccepted(toks: seq<Token>, depth: nat)
    ensures var r := Test(toks, depth);
            r.Ok? ==> |r.value.0.0| <= MAX_ARRAY_SIZE
                      && forall c :: c in r.value.0.0 ==> AcceptedTest(c, depth + 2)
  {
    hide SingleTest, TestItems;
    SingleAccepted(toks, depth + 1);
    TestItemsAccepted(Adv(Adv(toks)), 0, depth + 1);
  }

  predicate AcceptedSettings(p: Settings) {
    0 <= p.days <= MAX_VACATION_DAYS && |p.subject| <= MAX_STRING_LENGTH && |p.from| <= MAX_STRING_LENGTH
  }

  lemma {:induction false} ParamsAccepted(toks: seq<Token>, count: nat, p: Settings)
    requires AcceptedSettings(p)
    ensures var r := Params(toks, count, p); r.Ok? ==> AcceptedSettings(r.value.0)
    decreases |toks|
  {
    if Cur(toks).typ == TColon && count < MAX_VACATION_PARAMS {
      var r := ApplyParam(p, Cur(Adv(toks)).val, Adv(Adv(toks)));
      if r.Ok? {
        ParamAccepted(p, Cur(Adv(toks)).val, Adv(Adv(toks)));
        hide ApplyParam;
        ParamsAccepted(r.value.1, count + 1, r.value.0);
      }
    }
  }

  lemma ParamAccepted(p: Settings, name: string, toks: seq<Token>)
    requires AcceptedSettings(p)
    ensures var r := ApplyParam(p, name, toks); r.Ok? ==> AcceptedSettings(r.value.0)
  {
    hide Array;
  }

  lemma ActionAccepted(toks: seq<Token>)
    ensures var r := ActionAt(toks); r.Ok? && r.value.0 != NilAction ==> AcceptedAction(r.value.0)
  {
    hide Params;
    ParamsAccepted(Adv(toks), 0, DEFAULT_SETTINGS);
  }

  lemma {:induction false} ActionItemsAccepted(toks: seq<Token>, count: nat)
    requires count <= MAX_ARRAY_SIZE
    ensures var r := ActionItems(toks, count);
            r.Ok? ==> count + |r.value.0| <= MAX_ARRAY_SIZE && forall a :: a in r.value.0 ==> AcceptedAction(a)
    decreases |toks|
  {
    hide ActionAt, AcceptedAction;
    ActionAccepted(toks);
    if Cur(toks).typ != TRBrace && Cur(toks).typ != TEOF && count < MAX_ARRAY_SIZE && ActionAt(toks).Ok? {
      ActionItemsAccepted(ActionAt(toks).value.1, count + 1);
    }
  }

  lemma RuleAccepted(toks: seq<Token>, depth: nat)
    ensures var r := RuleAt(toks, depth); r.Ok? ==> AcceptedRule(r.value.0, depth + 3)
  {
    hide Test, ActionItems, AcceptedTest, AcceptedAction;
    TestAccepted(Adv(toks), depth + 1);
    forall t { ActionItemsAccepted(t, 0); }
  }

  lemma {:induction false} StatementsAccepted(toks: seq<Token>, iterations: nat, depth: nat)
    ensures var r := Statements(toks, iterations, depth);
            r.Ok? ==> forall rule :: rule in r.value.rules ==> AcceptedRule(rule, depth + 3)
    decreases |toks|
  {
    hide Statements, RuleAt, AcceptedRule;
    StatementsStop(toks, iterations, depth);
    if toks != [] && iterations < MAX_TOKENS && Cur(toks).typ != TEOF && StatementAt(toks, depth).Ok? {
      var (s, rest) := StatementAt(toks, depth).value;
      RuleAccepted(toks, depth);
      StatementsRound(toks, iterations, depth, s, rest);
      StatementsAccepted(rest, iterations + 1, depth);
    }
  }

  /** Every script Parse accepts: no test or action of a rule is nil, at most 47 negations are
      nested, targets are present, sizes, days and lists are in range under any negation, and no
      rule has its stop flag set. Only a negation may hold a nil (NilUnderNot). */
  lemma AcceptedScripts(input: string)
    ensures ParseText(input).Ok? ==> forall rule :: rule in ParseText(input).value.rules ==> AcceptedRule(rule, 3)
  {
    hide Tokenize, Statements, AcceptedRule;
    if |input| <= MAX_SCRIPT_SIZE && Tokenize(input).Ok? {
      StatementsAccepted(Tokenize(input).value, 0, 0);
    }
  }
}
