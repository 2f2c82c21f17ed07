/** What the parser refuses: a flaw behind statements that can be read gives its own error, and so does
    a lexeme behind any text. The flaws are those with an error of their own in the grammar; what
    stands behind them is any text that does not repair them. */
module SieveRefusals {
  import opened Wrappers
  import opened Strings
  import opened SieveSyntax
  import opened SieveLexer
  import opened SieveTokenizer
  import opened SieveGrammar
  import opened SieveParser
  import opened SievePrinter
  import opened SieveRoundTrip
  import opened SieveReparse

  /** A rule without a brace, a test nested too deep, a size beyond the limit, an action without its
      target, a vacation longer than a year, a list of too many names. What comes after it is any
      text, as long as it does not repair the flaw. */
  datatype Flaw =
    | NoBrace(tests: WTests)
    | TooNested(nots: nat, test: WTest)
    | TooLarge(tag: Tag, n: nat, unit: string)
    | NoTarget(tests: WTests, actions: seq<WAction>, redirect: bool)
    | TooManyDays(tests: WTests, actions: seq<WAction>, params: seq<Param>, n: nat)
    | TooManyNames(xs: seq<string>)

  function Nested(nots: nat, test: WTest): WTest {
    if nots == 0 then test else WNot(Nested(nots - 1, test))
  }

  function PutRuleStart(tests: WTests, actions: seq<WAction>, t: Text): Text {
    Then(Word("if"), PutConditions(tests, Then(Mark('{'), PutActions(actions, t))))
  }

  function PutDays(params: seq<Param>, n: nat, t: Text): Text {
    Then(Word("vacation"), PutParams(params, PutMod("days", Then(Num(n, ""), t))))
  }

  function PutFlaw(f: Flaw, t: Text): Text {
    match f
    case NoBrace(tests) => Then(Word("if"), PutConditions(tests, t))
    case TooNested(nots, test) => Then(Word("if"), PutTest(Nested(nots, test), t))
    case TooLarge(tag, n, unit) => Then(Word("if"), PutTest(WSize(tag, n, unit), t))
    case NoTarget(tests, actions, redirect) =>
      PutRuleStart(tests, actions, Then(Word(if redirect then "redirect" else "fileinto"), t))
    case TooManyDays(tests, actions, params, n) => PutRuleStart(tests, actions, PutDays(params, n, t))
    case TooManyNames(xs) => Then(Word("require"), PutArray(xs, t))
  }

  function ErrorOf(f: Flaw, t: Text): Error {
    match f
    case NoBrace(_) => ExpectedBrace(NextType(t))
    case TooNested(_, _) => NestingTooDeep
    case TooLarge(_, _, _) => InvalidSize
    case NoTarget(_, _, redirect) => if redirect then MissingAddress else MissingFolder
    case TooManyDays(_, _, _, _) => VacationDaysRange
    case TooManyNames(_) => ArrayTooLarge
  }

  predicate IsFlaw(f: Flaw, t: Text) {
    match f
    case NoBrace(tests) => GoodConditions(tests) && NextType(t) != TLBrace
    case TooNested(nots, test) => nots + 3 > MAX_CONDITION_DEPTH
    case TooLarge(_, n, unit) => IsUnit(unit) && n <= MAX_INT64 && n * UnitOf(unit) > MAX_SIZE_VALUE
    case NoTarget(tests, actions, redirect) =>
      && GoodConditions(tests) && |actions| < MAX_ARRAY_SIZE && NextType(t) != TString
      && GoodActions(actions, Then(Word(if redirect then "redirect" else "fileinto"), t))
    case TooManyDays(tests, actions, params, n) =>
      && GoodConditions(tests) && |actions| < MAX_ARRAY_SIZE && GoodActions(actions, PutDays(params, n, t))
      && |params| < MAX_VACATION_PARAMS && (forall x :: x in params ==> GoodParam(x))
      && MAX_VACATION_DAYS < n <= MAX_INT64
    case TooManyNames(xs) => |xs| > MAX_ARRAY_SIZE / 2 && forall x :: x in xs ==> Printable(x)
  }

  // ----- each flaw -----

  lemma {:induction false} NestedTooDeep(nots: nat, test: WTest, t: Text, outer: nat)
    requires outer + nots + 1 > MAX_CONDITION_DEPTH
    ensures SingleTest(TokensOf(PutTest(Nested(nots, test), t)), outer) == Err(NestingTooDeep)
    decreases nots
  {
    hide TokensOf, Cur, Adv, WordToken, PlainTest;
    if nots > 0 && outer + 1 <= MAX_CONDITION_DEPTH {
      NotWord();
      NestedTooDeep(nots - 1, test, t, outer + 1);
    }
  }

  lemma SizeTooLarge(tag: Tag, n: nat, unit: string, t: Text)
    requires IsUnit(unit) && n <= MAX_INT64 && n * UnitOf(unit) > MAX_SIZE_VALUE
    ensures SingleTest(TokensOf(PutTest(WSize(tag, n, unit), t)), 2) == Err(InvalidSize)
  {
    hide TokensOf, Cur, Adv, WordToken, ParseSize, Decimal, UnitOf;
    SizeExistsWords();
    OverUnderWords();
    LargeSize(n, unit);
  }

  lemma LargeSize(n: nat, unit: string)
    requires IsUnit(unit) && n <= MAX_INT64 && n * UnitOf(unit) > MAX_SIZE_VALUE
    ensures ParseSize(Decimal(n) + unit) == Err(InvalidSize)
  {
    hide ParseSize;
    if unit == "" {
      PlainLarge(n);
      assert Decimal(n) + unit == Decimal(n);
    } else {
      UnitMultiplies(unit);
      SizeSuffix(n, unit[0]);
      assert Decimal(n) + unit == Decimal(n) + [unit[0]];
    }
  }

  lemma PlainLarge(n: nat)
    requires MAX_SIZE_VALUE < n <= MAX_INT64
    ensures ParseSize(Decimal(n)) == Err(InvalidSize)
  {
    hide ParseInt64, TrimSpace, Decimal;
    var d := Decimal(n);
    assert IsDigit(d[0]) && IsDigit(d[|d| - 1]);
    TrimDigits(d);
    ParseDecimal(n);
  }

  /** A single test that is refused. */
  lemma TestRefused(w: WTest, t: Text, e: Error)
    requires SingleTest(TokensOf(PutTest(w, t)), 2) == Err(e)
    ensures StatementAt(TokensOf(Then(Word("if"), PutTest(w, t))), 0) == Err(e)
    ensures NextType(Then(Word("if"), PutTest(w, t))) == TIf
  {
    hide TokensOf, Cur, Adv, WordToken, SingleTest, PutTest;
    IfRequireWords();
    TestStart(w, t);
    TrueFalseNeverRefused(w, t);
  }

  lemma TrueFalseNeverRefused(w: WTest, t: Text)
    ensures w.WTrue? || w.WFalse? ==> SingleTest(TokensOf(PutTest(w, t)), 2).Ok?
  {
    hide TokensOf, Cur, Adv, WordToken;
    TrueFalseWords();
  }

  lemma BraceMissing(tests: WTests, t: Text)
    requires GoodConditions(tests) && NextType(t) != TLBrace
    ensures StatementAt(TokensOf(Then(Word("if"), PutConditions(tests, t))), 0) == Err(ExpectedBrace(NextType(t)))
    ensures NextType(Then(Word("if"), PutConditions(tests, t))) == TIf
  {
    hide TokensOf, Cur, Adv, WordToken, Test, PutConditions, ConditionsOf, GoodConditions, ActionItems;
    IfRequireWords();
    ConditionsReadBack(tests, t);
  }

  lemma {:induction false} ActionsRefused(ws: seq<WAction>, t: Text, count: nat, e: Error)
    requires GoodActions(ws, t) && count + |ws| < MAX_ARRAY_SIZE
    requires ActionAt(TokensOf(t)) == Err(e) && NextType(t) != TRBrace && NextType(t) != TEOF
    ensures ActionItems(TokensOf(PutActions(ws, t)), count) == Err(e)
    decreases |ws|
  {
    hide TokensOf, Cur, Adv, PutAction, GoodAction, ActionOf, ActionAt, NextType;
    if ws == [] {
      ActionsStopAt(t, count, e);
    } else {
      hide ActionItems;
      ActionItemReadBack(ws[0], PutActions(ws[1..], t), count);
      ActionsRefused(ws[1..], t, count + 1, e);
    }
  }

  lemma ActionsStopAt(t: Text, count: nat, e: Error)
    requires ActionAt(TokensOf(t)) == Err(e) && NextType(t) != TRBrace && NextType(t) != TEOF && count < MAX_ARRAY_SIZE
    ensures ActionItems(TokensOf(t), count) == Err(e)
  {
    hide TokensOf, Cur, Adv, ActionAt;
  }

  lemma RuleRefused(tests: WTests, actions: seq<WAction>, t: Text, e: Error)
    requires GoodConditions(tests) && GoodActions(actions, t) && |actions| < MAX_ARRAY_SIZE
    requires ActionAt(TokensOf(t)) == Err(e) && NextType(t) != TRBrace && NextType(t) != TEOF
    ensures StatementAt(TokensOf(PutRuleStart(tests, actions, t)), 0) == Err(e)
    ensures NextType(PutRuleStart(tests, actions, t)) == TIf
  {
    hide TokensOf, Cur, Adv, WordToken, Test, PutConditions, ConditionsOf, GoodConditions, ActionItems, ActionAt, PutActions,
         GoodActions;
    IfRequireWords();
    ConditionsReadBack(tests, Then(Mark('{'), PutActions(actions, t)));
    ActionsRefused(actions, t, 0, e);
  }

  lemma TargetMissing(redirect: bool, t: Text)
    requires NextType(t) != TString
    ensures var text := Then(Word(if redirect then "redirect" else "fileinto"), t);
            && ActionAt(TokensOf(text)) == Err(if redirect then MissingAddress else MissingFolder)
            && NextType(text) != TRBrace && NextType(text) != TEOF
  {
    hide TokensOf, Cur, Adv, WordToken, OptionalString, Vacation;
    FileRedirectWords();
    NoStringReadBack(t, "");
  }

  lemma DaysBeyond(n: nat, t: Text, count: nat, p: Settings)
    requires count < MAX_VACATION_PARAMS && MAX_VACATION_DAYS < n <= MAX_INT64
    ensures Params(TokensOf(PutMod("days", Then(Num(n, ""), t))), count, p) == Err(VacationDaysRange)
  {
    hide TokensOf, Cur, Adv, ParseInt64, Decimal, WordToken;
    ParamWords("days");
    ParseDecimal(n);
    assert Decimal(n) + "" == Decimal(n);
  }

  lemma {:induction false} DaysRefused(xs: seq<Param>, n: nat, t: Text, count: nat, p: Settings)
    requires (forall x :: x in xs ==> GoodParam(x)) && count + |xs| < MAX_VACATION_PARAMS && MAX_VACATION_DAYS < n <= MAX_INT64
    ensures Params(TokensOf(PutParams(xs, PutMod("days", Then(Num(n, ""), t)))), count, p) == Err(VacationDaysRange)
    decreases |xs|
  {
    hide Params, TokensOf, Cur, Adv, PutParam, PutMod, Set, GoodParam;
    if xs == [] {
      DaysBeyond(n, t, count, p);
    } else {
      AnyParamReadBack(xs[0], PutParams(xs[1..], PutMod("days", Then(Num(n, ""), t))), count, p);
      DaysRefused(xs[1..], n, t, count + 1, Set(p, xs[0]));
    }
  }

  lemma VacationRefused(xs: seq<Param>, n: nat, t: Text)
    requires (forall x :: x in xs ==> GoodParam(x)) && |xs| < MAX_VACATION_PARAMS && MAX_VACATION_DAYS < n <= MAX_INT64
    ensures ActionAt(TokensOf(PutDays(xs, n, t))) == Err(VacationDaysRange)
    ensures NextType(PutDays(xs, n, t)) != TRBrace && NextType(PutDays(xs, n, t)) != TEOF
  {
    hide TokensOf, Cur, Adv, WordToken, OptionalString, Params, PutParams, GoodParam;
    VacationWord();
    DaysRefused(xs, n, t, 0, DEFAULT_SETTINGS);
  }

  /** The strings and commas of a list count alike, so five hundred strings are the most. */
  lemma {:induction false} NamesRefused(xs: seq<string>, t: Text, count: nat)
    requires (forall x :: x in xs ==> Printable(x)) && count <= MAX_ARRAY_SIZE && count + 2 * |xs| > MAX_ARRAY_SIZE + 1
    ensures ArrayItems(TokensOf(PutItems(xs, t)), count, false) == Err(ArrayTooLarge)
    decreases |xs|
  {
    hide ArrayItems, TokensOf, TokenOf, Prepend, Printable, Cur, Adv;
    if count == MAX_ARRAY_SIZE {
      FullBefore(xs[0], if |xs| == 1 then t else Then(Mark(','), PutItems(xs[1..], t)));
    } else if |xs| == 1 {
      assert false;
    } else {
      var tail := PutItems(xs[1..], t);
      ItemReadBack(xs[0], Then(Mark(','), tail), count, false);
      if count + 1 == MAX_ARRAY_SIZE {
        FullBeforeComma(tail);
        PrependRefused([xs[0]], ArrayTooLarge);
      } else {
        CommaReadBack(tail, count + 1, false);
        NamesRefused(xs[1..], t, count + 2);
        PrependRefused([xs[0]], ArrayTooLarge);
      }
    }
  }

  lemma PrependRefused(xs: seq<string>, e: Error)
    ensures Prepend(xs, Err(e)) == Err(e)
  {
  }

  lemma FullBefore(x: string, t: Text)
    ensures ArrayItems(TokensOf(Then(Quoted(x), t)), MAX_ARRAY_SIZE, false) == Err(ArrayTooLarge)
  {
    hide ArrayItems, TokensOf, Cur, Adv;
    ArrayItemsStop(TokensOf(Then(Quoted(x), t)), MAX_ARRAY_SIZE, false);
  }

  lemma FullBeforeComma(t: Text)
    ensures ArrayItems(TokensOf(Then(Mark(','), t)), MAX_ARRAY_SIZE, false) == Err(ArrayTooLarge)
  {
    hide ArrayItems, TokensOf, Cur, Adv;
    ArrayItemsStop(TokensOf(Then(Mark(','), t)), MAX_ARRAY_SIZE, false);
  }

  lemma RequireRefused(xs: seq<string>, t: Text)
    requires |xs| > MAX_ARRAY_SIZE / 2 && forall x :: x in xs ==> Printable(x)
    ensures StatementAt(TokensOf(Then(Word("require"), PutArray(xs, t))), 0) == Err(ArrayTooLarge)
    ensures NextType(Then(Word("require"), PutArray(xs, t))) == TRequire
  {
    hide TokensOf, Cur, Adv, WordToken, ArrayItems, PutItems, Printable;
    IfRequireWords();
    NamesRefused(xs, Then(Mark(']'), t), 0);
  }

  lemma FlawRefused(f: Flaw, t: Text)
    requires IsFlaw(f, t)
    ensures StatementAt(TokensOf(PutFlaw(f, t)), 0) == Err(ErrorOf(f, t))
    ensures NextType(PutFlaw(f, t)) != TEOF
  {
    hide TokensOf, StatementAt, NextType, PutTest, PutConditions, PutRuleStart, PutArray, PutDays, GoodConditions, GoodActions,
         Printable, GoodParam, UnitOf;
    match f
    case NoBrace(tests) => BraceMissing(tests, t);
    case TooNested(nots, test) =>
      NestedTooDeep(nots, test, t, 2);
      TestRefused(Nested(nots, test), t, NestingTooDeep);
    case TooLarge(tag, n, unit) =>
      SizeTooLarge(tag, n, unit, t);
      TestRefused(WSize(tag, n, unit), t, InvalidSize);
    case NoTarget(tests, actions, redirect) =>
      TargetMissing(redirect, t);
      RuleRefused(tests, actions, Then(Word(if redirect then "redirect" else "fileinto"), t), ErrorOf(f, t));
    case TooManyDays(tests, actions, params, n) =>
      VacationRefused(params, n, t);
      RuleRefused(tests, actions, PutDays(params, n, t), VacationDaysRange);
    case TooManyNames(xs) => RequireRefused(xs, t);
  }

  // ----- behind statements that can be read -----

  function PutBefore(ws: seq<WStatement>, t: Text): Text {
    if ws == [] then t else PutStatement(ws[0], PutBefore(ws[1..], t))
  }

  predicate GoodBefore(ws: seq<WStatement>, t: Text) {
    ws == [] || (GoodStatement(ws[0], PutBefore(ws[1..], t)) && GoodBefore(ws[1..], t))
  }

  lemma {:induction false} BeforeRefused(ws: seq<WStatement>, t: Text, iterations: nat, e: Error)
    requires GoodBefore(ws, t) && iterations + |ws| < MAX_TOKENS
    requires StatementAt(TokensOf(t), 0) == Err(e) && NextType(t) != TEOF
    ensures Statements(TokensOf(PutBefore(ws, t)), iterations, 0) == Err(e)
    decreases |ws|
  {
    hide TokensOf, Cur, Adv, StatementAt, PutStatement, GoodStatement, StatementOf, NextType;
    if ws == [] {
      StatementsStopAt(t, iterations, e);
    } else {
      hide Statements;
      var rest := PutBefore(ws[1..], t);
      StatementReadBack(ws[0], rest);
      NextMeans(PutStatement(ws[0], rest));
      StatementsRound(TokensOf(PutStatement(ws[0], rest)), iterations, 0, StatementOf(ws[0]), TokensOf(rest));
      BeforeRefused(ws[1..], t, iterations + 1, e);
    }
  }

  lemma NextMeans(t: Text)
    ensures NextType(t) == Cur(TokensOf(t)).typ && TokensOf(t) != []
  {
  }

  lemma StatementsStopAt(t: Text, iterations: nat, e: Error)
    requires StatementAt(TokensOf(t), 0) == Err(e) && NextType(t) != TEOF && iterations < MAX_TOKENS
    ensures Statements(TokensOf(t), iterations, 0) == Err(e)
  {
    hide TokensOf, Cur, Adv, StatementAt;
  }

  lemma {:induction false} BeforeGood(ws: seq<WStatement>, t: Text)
    requires GoodBefore(ws, t) && GoodText(t)
    ensures GoodText(PutBefore(ws, t)) && Length(PutBefore(ws, t)) >= |ws| + Length(t)
    decreases |ws|
  {
    hide GoodStatement, PutStatement, GoodText, Length;
    if ws != [] {
      BeforeGood(ws[1..], t);
      StatementGood(ws[0], PutBefore(ws[1..], t));
    }
  }

  /** A flaw behind any statements that can be read, and before any text, is refused with its error,
      however the text is laid out. */
  lemma Refused(ws: seq<WStatement>, f: Flaw, t: Text, style: Style)
    requires IsFlaw(f, t) && GoodText(PutFlaw(f, t)) && GoodBefore(ws, PutFlaw(f, t))
    requires GoodStyle(style, PutBefore(ws, PutFlaw(f, t)))
    requires |Render(PutBefore(ws, PutFlaw(f, t)), style)| <= MAX_SCRIPT_SIZE && Length(PutBefore(ws, PutFlaw(f, t))) < MAX_TOKENS
    ensures ParseText(Render(PutBefore(ws, PutFlaw(f, t)), style)) == Err(ErrorOf(f, t))
  {
    hide Tokenize, Statements, TokensOf, GoodBefore, GoodStyle, PutFlaw, PutBefore, IsFlaw, ErrorOf, StatementAt;
    FlawRefused(f, t);
    BeforeGood(ws, PutFlaw(f, t));
    TokenizeRender(PutBefore(ws, PutFlaw(f, t)), style);
    BeforeRefused(ws, PutFlaw(f, t), 0, ErrorOf(f, t));
  }

  // ----- lexemes that are refused -----

  /** A string that is not closed, or that is too long, and words and numbers that are too long; the
      two last end where `after` starts. */
  datatype BadLexeme =
    | Unclosed(value: string)
    | LongString(value: string, after: string)
    | LongWord(word: string, after: string)
    | LongNumber(digits: string, after: string)

  function SpellBad(b: BadLexeme): string {
    match b
    case Unclosed(value) => "\"" + Escape(value)
    case LongString(value, after) => "\"" + (Escape(value) + "\"" + after)
    case LongWord(word, after) => word + after
    case LongNumber(digits, after) => digits + after
  }

  function LexErrorOf(b: BadLexeme): Error {
    match b
    case Unclosed(_) => UnterminatedString
    case LongString(_, _) => StringTooLong
    case LongWord(_, _) => InvalidInput(WordLength)
    case LongNumber(_, _) => InvalidInput(NumberLength)
  }

  predicate IsBad(b: BadLexeme) {
    match b
    case Unclosed(value) => |value| <= MAX_STRING_LENGTH
    case LongString(value, _) => |Escape(value)| > MAX_STRING_LENGTH
    case LongWord(word, after) =>
      && |word| > MAX_WORD_LENGTH && IsWordStart(word[0]) && (forall i :: 0 <= i < |word| ==> IsWordChar(word[i]))
      && (after != "" ==> !IsWordChar(after[0]))
    case LongNumber(digits, after) =>
      && |digits| > MAX_NUMBER_LENGTH && IsDigit(digits[0]) && (forall i :: 0 <= i < |digits| ==> IsNumberChar(digits[i]))
      && (after != "" ==> !IsNumberChar(after[0]))
  }

  lemma {:induction false} ScanUnclosed(v: string, iterations: nat)
    requires iterations + |v| <= MAX_STRING_LENGTH
    ensures ScanString(Escape(v), iterations) == Err(UnterminatedString)
  {
    var s := Escape(v);
    if v != "" {
      var tail := Escape(v[1..]);
      var k := |s| - |tail|;
      assert s[k..] == tail;
      assert AfterRaw(s, 0) == k;
      ScanUnclosed(v[1..], iterations + 1);
    }
  }

  lemma {:induction false} ScanLong(v: string, rest: string, iterations: nat)
    requires iterations <= MAX_STRING_LENGTH
    ensures ScanString(Escape(v) + "\"" + rest, iterations)
            == if iterations + |v| <= MAX_STRING_LENGTH then Ok(|Escape(v)|) else Err(StringTooLong)
  {
    var s := Escape(v) + "\"" + rest;
    if v != "" && iterations < MAX_STRING_LENGTH {
      var tail := Escape(v[1..]);
      var k := |Escape(v)| - |tail|;
      assert s[k..] == tail + "\"" + rest;
      assert AfterRaw(s, 0) == k;
      ScanLong(v[1..], rest, iterations + 1);
    }
  }

  lemma BadRefused(b: BadLexeme)
    requires IsBad(b)
    ensures SpellBad(b) != "" && !IsSpace(SpellBad(b)[0]) && NextToken(SpellBad(b)) == Err(LexErrorOf(b))
  {
    hide ScanString, Escape;
    var s := SpellBad(b);
    match b
    case Unclosed(v) =>
      ScanUnclosed(v, 0);
      assert s[1..] == Escape(v);
    case LongString(v, after) =>
      ScanLong(v, after, 0);
      assert s[1..] == Escape(v) + "\"" + after;
    case LongWord(word, after) =>
      WordRunAll(word, after);
      assert s[0] == word[0];
    case LongNumber(digits, after) =>
      NumberRunAll(digits, after);
      assert s[0] == digits[0];
  }

  lemma {:induction false} LexRefused(t: Text, style: Style, bad: string, count: nat, iterations: nat, maxIterations: nat,
                                      e: Error)
    requires GoodText(t) && GoodStyle(style, t) && count + Length(t) < MAX_TOKENS
    requires iterations + |RenderWith(t, style, false, false)| + 1 <= maxIterations
    requires bad != "" && !IsSpace(bad[0]) && NextToken(bad) == Err(e)
    ensures Lex(RenderWith(t, style, false, false) + (" " + bad), count, iterations, maxIterations) == Err(e)
    decreases t
  {
    hide Lex, NextToken, Spell, TokenOf, Laid, Styled, GoodLexeme, WordLike, GoodStyle;
    var s := RenderWith(t, style, false, false) + (" " + bad);
    var gap := Laid(style.gap(Length(t)), false, false);
    LexStop(s, count, iterations, maxIterations);
    GapsGood(style, t);
    GapBlank(style.gap(Length(t)));
    if t.End? {
      TrimGap(gap + " ", bad);
      assert s == gap + " " + bad;
    } else {
      var l, tail := Styled(style, t), RenderWith(t.rest, style, false, false) + (" " + bad);
      StyledGood(style, t);
      RestApart(t, style);
      StillApart(t.first, l, RenderWith(t.rest, style, false, false), bad);
      StyleInside(style, t);
      ReadBack(l, tail);
      TrimGap(gap, Spell(l) + tail);
      assert s == gap + (Spell(l) + tail);
      LexRound(s, count, iterations, maxIterations, Spell(l) + tail, Some(TokenOf(l)), tail);
      LexRefused(t.rest, style, bad, count + 1, iterations + 1, maxIterations, e);
    }
  }

  lemma StillApart(l: Lexeme, l': Lexeme, rest: string, bad: string)
    requires Apart(l, rest) && RunsOn(l') == RunsOn(l)
    ensures Apart(l', rest + (" " + bad))
  {
  }

  /** A bad lexeme behind any text is refused with its own error, however that text is laid out and
      whatever the comments among it. */
  lemma LexemeRefused(t: Text, style: Style, b: BadLexeme, input: string)
    requires GoodText(t) && GoodStyle(style, t) && Length(t) < MAX_TOKENS && IsBad(b)
    requires StripComments(input) == RenderWith(t, style, false, false) + (" " + SpellBad(b)) && |input| <= MAX_SCRIPT_SIZE
    ensures ParseText(input) == Err(LexErrorOf(b))
  {
    hide Lex, NextToken, SpellBad, GoodStyle, StripComments, IsBad;
    BadRefused(b);
    LexRefused(t, style, SpellBad(b), 0, 0, |StripComments(input)| + 1000, LexErrorOf(b));
  }
}
