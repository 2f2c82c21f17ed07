/** The grammar reads the lexemes of a script back as the script, construct by construct and in
    whatever way it is written: words and strings first, then lists, modifiers and single tests,
    then the tests of a rule, its actions, whole rules and the require line. Each lemma is about a
    construct in front of any text that may follow it, so the lemma of a larger construct only puts
    those of its parts together; what comes of it for whole texts is in SieveWritten, and what the
    grammar makes of flaws is in SieveRefusals. */
module SieveReparse {
  import opened Wrappers
  import opened Strings
  import opened SieveSyntax
  import opened SieveLexer
  import opened SieveGrammar
  import opened SieveParser
  import opened SievePrinter
  import opened SieveRoundTrip

  // ----- words -----

  lemma LowerPlain(w: string)
    requires forall i :: 0 <= i < |w| ==> LowerChar(w[i]) == w[i]
    ensures Lower(w) == w
  {
  }

  lemma KeywordOf(w: string)
    requires w in KEYWORDS && PlainWord(w)
    ensures TokenOf(Word(w)) == Token(KEYWORDS[w], w)
  {
    LowerPlain(w);
  }

  lemma ModifierWords(w: string)
    requires w == "contains" || w == "is" || w == "matches" || w == "localpart" || w == "domain" || w == "all"
    ensures PlainWord(w) && TokenOf(Word(w)).val == w
  {
    LowerPlain(w);
  }

  lemma ComparatorWord()
    ensures PlainWord("comparator") && TokenOf(Word("comparator")).val == "comparator"
  {
    LowerPlain("comparator");
  }

  lemma ParamWords(w: string)
    requires w == "days" || w == "subject" || w == "from" || w == "addresses"
    ensures PlainWord(w) && TokenOf(Word(w)).val == w
  {
    LowerPlain(w);
  }

  lemma TrueFalseWords()
    ensures PlainWord("true") && TokenOf(Word("true")) == Token(TTrue, "true")
    ensures PlainWord("false") && TokenOf(Word("false")) == Token(TFalse, "false")
  {
    KeywordOf("true");
    KeywordOf("false");
  }

  lemma NotWord()
    ensures PlainWord("not") && TokenOf(Word("not")) == Token(TNot, "not")
  {
    KeywordOf("not");
  }

  lemma SizeExistsWords()
    ensures PlainWord("size") && TokenOf(Word("size")) == Token(TSize, "size")
    ensures PlainWord("exists") && TokenOf(Word("exists")) == Token(TExists, "exists")
  {
    KeywordOf("size");
    KeywordOf("exists");
  }

  lemma HeaderWords()
    ensures PlainWord("header") && TokenOf(Word("header")) == Token(THeader, "header")
    ensures PlainWord("address") && TokenOf(Word("address")) == Token(TAddress, "address")
  {
    KeywordOf("header");
    KeywordOf("address");
  }

  lemma OverUnderWords()
    ensures PlainWord("over") && TokenOf(Word("over")) == Token(TOver, "over")
    ensures PlainWord("under") && TokenOf(Word("under")) == Token(TUnder, "under")
  {
    KeywordOf("over");
    KeywordOf("under");
  }

  lemma KeepStopWords()
    ensures PlainWord("keep") && TokenOf(Word("keep")) == Token(TKeep, "keep")
    ensures PlainWord("stop") && TokenOf(Word("stop")) == Token(TStop, "stop")
  {
    KeywordOf("keep");
    KeywordOf("stop");
  }

  lemma FileRedirectWords()
    ensures PlainWord("fileinto") && TokenOf(Word("fileinto")) == Token(TFileinto, "fileinto")
    ensures PlainWord("redirect") && TokenOf(Word("redirect")) == Token(TRedirect, "redirect")
  {
    KeywordOf("fileinto");
    KeywordOf("redirect");
  }

  lemma DiscardRejectWords()
    ensures PlainWord("discard") && TokenOf(Word("discard")) == Token(TDiscard, "discard")
    ensures PlainWord("reject") && TokenOf(Word("reject")) == Token(TReject, "reject")
  {
    KeywordOf("discard");
    KeywordOf("reject");
  }

  lemma VacationWord()
    ensures PlainWord("vacation") && TokenOf(Word("vacation")) == Token(TVacation, "vacation")
  {
    KeywordOf("vacation");
  }

  lemma AllofAnyofWords()
    ensures PlainWord("allof") && TokenOf(Word("allof")) == Token(TAllof, "allof")
    ensures PlainWord("anyof") && TokenOf(Word("anyof")) == Token(TAnyof, "anyof")
  {
    KeywordOf("allof");
    KeywordOf("anyof");
  }

  lemma IfRequireWords()
    ensures PlainWord("if") && TokenOf(Word("if")) == Token(TIf, "if")
    ensures PlainWord("require") && TokenOf(Word("require")) == Token(TRequire, "require")
  {
    KeywordOf("if");
    KeywordOf("require");
  }

  // ----- numbers -----

  lemma TrimDigits(d: string)
    requires d != "" && !IsSpace(d[0]) && !IsSpace(d[|d| - 1])
    ensures TrimSpace(d) == d
  {
  }

  lemma SizeReadBack(n: nat)
    requires n <= MAX_SIZE_VALUE
    ensures ParseSize(Decimal(n)) == Ok(n)
  {
    hide ParseInt64, TrimSpace, Decimal;
    var d := Decimal(n);
    assert IsDigit(d[0]) && IsDigit(d[|d| - 1]);
    TrimDigits(d);
    ParseDecimal(n);
  }

  function Multiplier(suffix: char): nat {
    match LowerChar(suffix)
    case 'k' => 1024
    case 'm' => 1024 * 1024
    case 'g' => 1024 * 1024 * 1024
    case _ => 1
  }

  /** K, M and G multiply, and a product above the limit is refused, not wrapped. */
  lemma SizeSuffix(n: nat, suffix: char)
    requires suffix in {'K', 'M', 'G', 'k', 'm', 'g'} && n <= MAX_INT64
    ensures ParseSize(Decimal(n) + [suffix])
            == if n * Multiplier(suffix) <= MAX_SIZE_VALUE then Ok(n * Multiplier(suffix)) else Err(InvalidSize)
  {
    hide ParseInt64, TrimSpace, Decimal;
    var d := Decimal(n) + [suffix];
    assert IsDigit(d[0]) && d[|d| - 1] == suffix;
    TrimDigits(d);
    assert d[..|d| - 1] == Decimal(n);
    ParseDecimal(n);
  }

  lemma UnitReadBack(n: nat, unit: string)
    requires IsUnit(unit) && n * UnitOf(unit) <= MAX_SIZE_VALUE
    ensures ParseSize(Decimal(n) + unit) == Ok(n * UnitOf(unit))
  {
    hide ParseSize;
    if unit == "" {
      SizeReadBack(n);
      assert Decimal(n) + unit == Decimal(n);
    } else {
      UnitMultiplies(unit);
      assert n <= n * UnitOf(unit);
      SizeSuffix(n, unit[0]);
      assert Decimal(n) + unit == Decimal(n) + [unit[0]];
    }
  }

  lemma UnitMultiplies(unit: string)
    requires IsUnit(unit) && unit != ""
    ensures |unit| == 1 && unit[0] in {'K', 'M', 'G', 'k', 'm', 'g'} && Multiplier(unit[0]) == UnitOf(unit) >= 1
  {
  }

  // ----- lists -----

  lemma {:induction false} EscapeLonger(v: string)
    ensures |v| <= |Escape(v)|
  {
    if v != "" { EscapeLonger(v[1..]); }
  }

  lemma PrintableShort(v: string)
    requires Printable(v)
    ensures !TooLong(v)
  {
    EscapeLonger(v);
  }

  lemma ItemReadBack(x: string, t: Text, count: nat, checked: bool)
    requires Printable(x) && count < MAX_ARRAY_SIZE
    ensures ArrayItems(TokensOf(Then(Quoted(x), t)), count, checked)
            == Prepend([x], ArrayItems(TokensOf(t), count + 1, checked))
  {
    hide ArrayItems, TokensOf, Prepend, Cur, Adv;
    PrintableShort(x);
    ArrayItemsRound(TokensOf(Then(Quoted(x), t)), count, checked);
  }

  lemma CommaReadBack(t: Text, count: nat, checked: bool)
    requires count < MAX_ARRAY_SIZE
    ensures ArrayItems(TokensOf(Then(Mark(','), t)), count, checked) == ArrayItems(TokensOf(t), count + 1, checked)
  {
    hide ArrayItems, TokensOf, Prepend, Cur, Adv;
    ArrayItemsRound(TokensOf(Then(Mark(','), t)), count, checked);
    PrependEnds([], ArrayItems(TokensOf(t), count + 1, checked));
  }

  lemma BracketReadBack(t: Text, count: nat, checked: bool)
    requires t.Then? && t.first == Mark(']')
    ensures ArrayItems(TokensOf(t), count, checked) == Ok(([], TokensOf(t)))
  {
    hide ArrayItems, TokensOf, Cur, Adv;
    ArrayItemsStop(TokensOf(t), count, checked);
  }

  lemma {:induction false} ItemsReadBack(xs: seq<string>, t: Text, count: nat, checked: bool)
    requires forall x :: x in xs ==> Printable(x)
    requires t.Then? && t.first == Mark(']')
    requires count + 2 * |xs| <= MAX_ARRAY_SIZE + 1
    ensures ArrayItems(TokensOf(PutItems(xs, t)), count, checked) == Ok((xs, TokensOf(t)))
  {
    hide ArrayItems, TokensOf, TokenOf, Prepend, Printable, Cur, Adv;
    if xs == [] {
      BracketReadBack(t, count, checked);
    } else if |xs| == 1 {
      ItemReadBack(xs[0], t, count, checked);
      BracketReadBack(t, count + 1, checked);
      PrependSingle(xs, TokensOf(t));
    } else {
      var tail := PutItems(xs[1..], t);
      ItemReadBack(xs[0], Then(Mark(','), tail), count, checked);
      CommaReadBack(tail, count + 1, checked);
      ItemsReadBack(xs[1..], t, count + 2, checked);
      PrependSingle(xs, TokensOf(t));
    }
  }

  lemma PrependSingle<T>(xs: seq<T>, rest: seq<Token>)
    requires xs != []
    ensures Prepend([xs[0]], Ok((xs[1..], rest))) == Ok((xs, rest))
    ensures |xs| == 1 ==> xs[1..] == []
  {
    assert xs == [xs[0]] + xs[1..];
  }

  lemma ArrayReadBack(xs: seq<string>, t: Text, checked: bool)
    requires PrintableList(xs)
    ensures StringList(TokensOf(PutArray(xs, t)), checked) == Ok((xs, TokensOf(t)))
    ensures Array(TokensOf(PutArray(xs, t)), checked) == Ok((xs, TokensOf(t)))
    ensures Cur(TokensOf(PutArray(xs, t))).typ == TLBracket
  {
    hide ArrayItems, TokensOf, Cur, Adv;
    ItemsReadBack(xs, Then(Mark(']'), t), 0, checked);
  }

  lemma BareReadBack(x: string, t: Text, checked: bool)
    requires Printable(x)
    ensures StringList(TokensOf(Then(Quoted(x), t)), checked) == Ok(([x], TokensOf(t)))
  {
    hide Array, TokensOf, Cur, Adv;
    PrintableShort(x);
  }

  lemma NamesReadBack(names: Names, t: Text, checked: bool)
    requires GoodNames(names)
    ensures StringList(TokensOf(PutNames(names, t)), checked) == Ok((NamesOf(names), TokensOf(t)))
    ensures NextType(PutNames(names, t)) == TLBracket || NextType(PutNames(names, t)) == TString
  {
    hide StringList, TokensOf, Cur, Adv, PutArray, Printable, Array;
    match names
    case Brackets(xs) => ArrayReadBack(xs, t, checked);
    case Bare(x) => BareReadBack(x, t, checked);
  }

  // ----- tests -----

  lemma ModReadBack(name: string, t: Text, count: nat, m: Mods, m': Mods, rest: seq<Token>)
    requires TokenOf(Word(name)).val == name && count < MAX_MODIFIERS
    requires ApplyMod(m, name, TokensOf(t)) == (m', rest)
    ensures HeaderMods(TokensOf(PutMod(name, t)), count, m) == HeaderMods(rest, count + 1, m')
  {
    hide HeaderMods, TokensOf, Cur, Adv, ApplyMod, WordToken;
    HeaderModsRound(TokensOf(PutMod(name, t)), count, m, m', rest);
  }

  lemma ModifierReadBack(x: Modifier, t: Text, count: nat, m: Mods)
    requires GoodModifier(x) && count < MAX_MODIFIERS
    ensures HeaderMods(TokensOf(PutModifier(x, t)), count, m) == HeaderMods(TokensOf(t), count + 1, Modified(m, x))
  {
    hide HeaderMods, TokensOf, Cur, Adv, TokenOf;
    match x
    case Match(name) =>
      ModifierWords(name);
      ModReadBack(name, t, count, m, m.(matchType := name), TokensOf(t));
    case Part(name) =>
      ModifierWords(name);
      ModReadBack(name, t, count, m, m.(addressPart := name), TokensOf(t));
    case Comparator(value) => ComparatorReadBack(t, count, m, value);
  }

  lemma ComparatorReadBack(t: Text, count: nat, m: Mods, value: string)
    requires count < MAX_MODIFIERS
    ensures HeaderMods(TokensOf(PutMod("comparator", Then(Quoted(value), t))), count, m)
            == HeaderMods(TokensOf(t), count + 1, m.(comparator := value))
  {
    hide HeaderMods, TokensOf, Cur, Adv, WordToken;
    ComparatorWord();
    ModReadBack("comparator", Then(Quoted(value), t), count, m, m.(comparator := value), TokensOf(t));
  }

  lemma {:induction false} ModifiersReadBack(xs: seq<Modifier>, t: Text, count: nat, m: Mods)
    requires (forall x :: x in xs ==> GoodModifier(x)) && count + |xs| <= MAX_MODIFIERS && NextType(t) != TColon
    ensures HeaderMods(TokensOf(PutModifiers(xs, t)), count, m) == Ok((ModsAfter(m, xs), TokensOf(t)))
    decreases |xs|
  {
    hide HeaderMods, TokensOf, Cur, Adv, PutModifier, Modified, GoodModifier;
    if xs == [] {
      HeaderModsStop(TokensOf(t), count, m);
    } else {
      ModifierReadBack(xs[0], PutModifiers(xs[1..], t), count, m);
      ModifiersReadBack(xs[1..], t, count + 1, Modified(m, xs[0]));
    }
  }

  lemma HeaderReadBack(w: WTest, t: Text, outer: nat)
    requires GoodTest(w, outer) && w.WHeader?
    ensures HeaderTest(TokensOf(PutTest(w, t)), w.isAddress) == Ok((TestOf(w), TokensOf(t)))
  {
    hide HeaderMods, StringList, TokensOf, Cur, Adv, WordToken, GoodNames, NamesOf, PutNames, PutModifiers, ModsAfter;
    var t1 := PutNames(w.values, t);
    var t2 := PutNames(w.headers, t1);
    NamesReadBack(w.values, t, true);
    NamesReadBack(w.headers, t1, true);
    ModifiersReadBack(w.mods, t2, 0, Mods("", "", ""));
  }

  lemma SizeTestReadBack(w: WTest, t: Text)
    requires w.WSize? && IsUnit(w.unit) && w.n * UnitOf(w.unit) <= MAX_SIZE_VALUE
    ensures SizeTest(TokensOf(PutTest(w, t))) == Ok((TestOf(w), TokensOf(t)))
  {
    hide TokensOf, Cur, Adv, WordToken, ParseSize, Decimal, UnitOf;
    OverUnderWords();
    UnitReadBack(w.n, w.unit);
  }

  lemma ExistsReadBack(w: WTest, t: Text)
    requires w.WExists? && GoodNames(w.names)
    ensures ExistsTest(TokensOf(PutTest(w, t))) == Ok((TestOf(w), TokensOf(t)))
  {
    hide TokensOf, Cur, Adv, WordToken, StringList, PutNames, NamesOf, GoodNames;
    NamesReadBack(w.names, t, true);
  }

  /** The first token of a written test tells which test it is. */
  lemma TestStart(w: WTest, t: Text)
    ensures NextType(PutTest(w, t)) ==
            match w
            case WTrue => TTrue
            case WFalse => TFalse
            case WNot(_) => TNot
            case WHeader(isAddress, _, _, _) => if isAddress then TAddress else THeader
            case WSize(_, _, _) => TSize
            case WExists(_) => TExists
  {
    hide TokensOf, Cur, Adv, WordToken;
    TrueFalseWords();
    NotWord();
    SizeExistsWords();
    HeaderWords();
  }

  lemma PlainReadBack(w: WTest, t: Text, outer: nat)
    requires GoodTest(w, outer) && !w.WNot?
    ensures PlainTest(TokensOf(PutTest(w, t))) == Ok((TestOf(w), TokensOf(t)))
  {
    hide TokensOf, Cur, Adv, WordToken, HeaderTest, SizeTest, ExistsTest, HeaderMeant, UnitOf;
    TestStart(w, t);
    match w
    case WHeader(_, _, _, _) => HeaderReadBack(w, t, outer);
    case WSize(_, _, _) => SizeTestReadBack(w, t);
    case WExists(_) => ExistsReadBack(w, t);
    case WTrue =>
    case WFalse =>
  }

  lemma {:induction false} TestReadBack(w: WTest, t: Text, outer: nat)
    requires GoodTest(w, outer)
    ensures SingleTest(TokensOf(PutTest(w, t)), outer) == Ok((TestOf(w), TokensOf(t)))
    decreases w
  {
    hide TokensOf, Cur, Adv, WordToken, PlainTest, HeaderMeant, UnitOf;
    TestStart(w, t);
    if w.WNot? {
      TestReadBack(w.inner, t, outer + 1);
    } else {
      PlainReadBack(w, t, outer);
    }
  }

  lemma NeverNil(w: WTest)
    ensures !TestOf(w).NilCondition?
  {
  }

  lemma TestItemReadBack(w: WTest, t: Text, count: nat, outer: nat)
    requires GoodTest(w, outer) && count < MAX_ARRAY_SIZE
    ensures TestItems(TokensOf(PutTest(w, t)), count, outer)
            == Prepend([TestOf(w)], TestItems(SkipIf(TokensOf(t), TComma), count + 1, outer))
  {
    hide TokensOf, Cur, Adv, SingleTest, TestItems, Prepend, PutTest, TestOf;
    TestReadBack(w, t, outer);
    NeverNil(w);
    TestStart(w, t);
    TestItemsRound(TokensOf(PutTest(w, t)), count, outer, TestOf(w), TokensOf(t));
  }

  lemma ParenReadBack(t: Text, count: nat, outer: nat)
    requires t.Then? && t.first == Mark(')')
    ensures TestItems(TokensOf(t), count, outer) == Ok(([], TokensOf(t)))
    ensures SkipIf(TokensOf(t), TComma) == TokensOf(t)
  {
    hide TokensOf, Cur, Adv, TestItems;
    TestItemsStop(TokensOf(t), count, outer);
  }

  /** A separator mark is skipped where it stands and nowhere else. */
  lemma SkipMark(c: char, t: Text, typ: TokenType)
    requires Punctuation(c) == Some(typ)
    ensures SkipIf(TokensOf(Then(Mark(c), t)), typ) == TokensOf(t)
  {
    hide TokensOf, Cur, Adv;
  }

  lemma {:induction false} TestsReadBack(ws: seq<WTest>, t: Text, count: nat, outer: nat)
    requires forall w :: w in ws ==> GoodTest(w, outer)
    requires t.Then? && t.first == Mark(')') && count + |ws| <= MAX_ARRAY_SIZE
    ensures TestItems(TokensOf(PutTests(ws, t)), count, outer) == Ok((TestsOf(ws), TokensOf(t)))
    decreases |ws|
  {
    hide TokensOf, TokenOf, TestItems, Prepend, GoodTest, PutTest, TestOf, Cur, Adv;
    if ws == [] {
      ParenReadBack(t, count, outer);
    } else if |ws| == 1 {
      TestItemReadBack(ws[0], t, count, outer);
      ParenReadBack(t, count + 1, outer);
      PrependTo([TestOf(ws[0])], [], TokensOf(t));
      assert TestsOf(ws[1..]) == [];
    } else {
      TestItemReadBack(ws[0], Then(Mark(','), PutTests(ws[1..], t)), count, outer);
      SkipMark(',', PutTests(ws[1..], t), TComma);
      TestsReadBack(ws[1..], t, count + 1, outer);
      PrependTo([TestOf(ws[0])], TestsOf(ws[1..]), TokensOf(t));
    }
  }

  lemma PrependTo<T>(xs: seq<T>, ys: seq<T>, rest: seq<Token>)
    ensures Prepend(xs, Ok((ys, rest))) == Ok((xs + ys, rest))
  {
  }

  // ----- actions -----

  lemma StringReadBack(v: string, t: Text, default: string)
    requires Printable(v)
    ensures OptionalString(TokensOf(Then(Quoted(v), t)), default) == Ok((v, TokensOf(t)))
  {
    hide TokensOf, Cur, Adv;
    PrintableShort(v);
  }

  lemma ParamReadBack(name: string, t: Text, count: nat, p: Settings, p': Settings, rest: Text)
    requires TokenOf(Word(name)).val == name && count < MAX_VACATION_PARAMS
    requires ApplyParam(p, name, TokensOf(t)) == Ok((p', TokensOf(rest)))
    ensures Params(TokensOf(PutMod(name, t)), count, p) == Params(TokensOf(rest), count + 1, p')
  {
    hide Params, TokensOf, Cur, Adv, ApplyParam, WordToken;
    ParamsRound(TokensOf(PutMod(name, t)), count, p, p', TokensOf(rest));
  }

  lemma DaysReadBack(days: nat, t: Text, count: nat, p: Settings)
    requires days <= MAX_VACATION_DAYS && count < MAX_VACATION_PARAMS
    ensures Params(TokensOf(PutParam(Days(days), t)), count, p) == Params(TokensOf(t), count + 1, p.(days := days))
  {
    hide Params, TokensOf, Cur, Adv, WordToken, ParseInt64, Decimal;
    ParamWords("days");
    ParseDecimal(days);
    assert Decimal(days) + "" == Decimal(days);
    ParamReadBack("days", Then(Num(days, ""), t), count, p, p.(days := days), t);
  }

  lemma AnyParamReadBack(x: Param, t: Text, count: nat, p: Settings)
    requires GoodParam(x) && count < MAX_VACATION_PARAMS
    ensures Params(TokensOf(PutParam(x, t)), count, p) == Params(TokensOf(t), count + 1, Set(p, x))
  {
    hide Params, TokensOf, Cur, Adv, TokenOf, OptionalString, Array, PutArray, Printable;
    match x
    case Days(n) => DaysReadBack(n, t, count, p);
    case Subject(v) =>
      ParamWords("subject");
      StringReadBack(v, t, p.subject);
      ParamReadBack("subject", Then(Quoted(v), t), count, p, p.(subject := v), t);
    case From(v) =>
      ParamWords("from");
      StringReadBack(v, t, p.from);
      ParamReadBack("from", Then(Quoted(v), t), count, p, p.(from := v), t);
    case Addresses(xs) =>
      ParamWords("addresses");
      ArrayReadBack(xs, t, true);
      ParamReadBack("addresses", PutArray(xs, t), count, p, p.(addresses := p.addresses + xs), t);
  }

  lemma {:induction false} ParamsReadBack(xs: seq<Param>, t: Text, count: nat, p: Settings)
    requires (forall x :: x in xs ==> GoodParam(x)) && count + |xs| <= MAX_VACATION_PARAMS && NextType(t) != TColon
    ensures Params(TokensOf(PutParams(xs, t)), count, p) == Ok((SettingsAfter(p, xs), TokensOf(t)))
    decreases |xs|
  {
    hide Params, TokensOf, Cur, Adv, PutParam, Set, GoodParam;
    if xs == [] {
      ParamsStop(TokensOf(t), count, p);
    } else {
      AnyParamReadBack(xs[0], PutParams(xs[1..], t), count, p);
      ParamsReadBack(xs[1..], t, count + 1, Set(p, xs[0]));
    }
  }

  /** The semicolon is skipped if it is there, and nothing else is. */
  lemma SemiReadBack(semi: bool, t: Text)
    requires semi || NextType(t) != TSemi
    ensures SkipIf(TokensOf(PutSemi(semi, t)), TSemi) == TokensOf(t)
    ensures NextType(PutSemi(semi, t)) == if semi then TSemi else NextType(t)
  {
    hide TokensOf, Cur, Adv;
  }

  lemma NoStringReadBack(t: Text, default: string)
    requires NextType(t) != TString
    ensures OptionalString(TokensOf(t), default) == Ok((default, TokensOf(t)))
  {
  }

  lemma VacationReadBack(w: WAction, t: Text)
    requires w.WVacation? && GoodAction(w, NextType(t))
    ensures Vacation(TokensOf(PutAction(w, t))) == Ok((VacationMeant(w.params, w.body), TokensOf(t)))
  {
    hide Params, TokensOf, Cur, Adv, WordToken, OptionalString, PutParams, PutSemi, SettingsAfter, SkipIf, Printable, GoodParam;
    var end := PutSemi(w.semi, t);
    var t1 := if w.body.Some? then Then(Quoted(w.body.value), end) else end;
    SemiReadBack(w.semi, t);
    QuotedNext(w.body, end);
    ParamsReadBack(w.params, t1, 0, DEFAULT_SETTINGS);
    if w.body.Some? { StringReadBack(w.body.value, end, ""); } else { NoStringReadBack(end, ""); }
  }

  lemma QuotedNext(body: Option<string>, t: Text)
    ensures body.Some? ==> NextType(Then(Quoted(body.value), t)) == TString
  {
  }

  lemma KeepStopReadBack(a: Action, semi: bool, t: Text)
    requires (a.KeepAction? || a.StopAction?) && (semi || NextType(t) != TSemi)
    ensures ActionAt(TokensOf(PutPlain(a, PutSemi(semi, t)))) == Ok((a, TokensOf(t)))
    ensures StartsAction(NextType(PutPlain(a, PutSemi(semi, t))))
  {
    hide TokensOf, Cur, Adv, WordToken, OptionalString, Vacation, SkipIf, PutSemi, PlainWord;
    SemiReadBack(semi, t);
    KeepStopWords();
  }

  lemma DiscardReadBack(semi: bool, t: Text)
    requires semi || NextType(t) != TSemi
    ensures ActionAt(TokensOf(PutPlain(DiscardAction, PutSemi(semi, t)))) == Ok((DiscardAction, TokensOf(t)))
    ensures StartsAction(NextType(PutPlain(DiscardAction, PutSemi(semi, t))))
  {
    hide TokensOf, Cur, Adv, WordToken, OptionalString, Vacation, SkipIf, PutSemi, PlainWord;
    SemiReadBack(semi, t);
    DiscardRejectWords();
  }

  lemma TargetReadBack(a: Action, semi: bool, t: Text)
    requires (a.FileIntoAction? || a.RedirectAction?) && GoodPlain(a) && (semi || NextType(t) != TSemi)
    ensures ActionAt(TokensOf(PutPlain(a, PutSemi(semi, t)))) == Ok((a, TokensOf(t)))
    ensures StartsAction(NextType(PutPlain(a, PutSemi(semi, t))))
  {
    hide TokensOf, Cur, Adv, WordToken, OptionalString, Vacation, SkipIf, PutSemi, Printable;
    SemiReadBack(semi, t);
    FileRedirectWords();
    StringReadBack(if a.FileIntoAction? then a.folder else a.address, PutSemi(semi, t), "");
  }

  lemma RejectReadBack(a: Action, semi: bool, t: Text)
    requires a.RejectAction? && GoodPlain(a) && (semi || NextType(t) != TSemi)
    ensures ActionAt(TokensOf(PutPlain(a, PutSemi(semi, t)))) == Ok((a, TokensOf(t)))
    ensures StartsAction(NextType(PutPlain(a, PutSemi(semi, t))))
  {
    hide TokensOf, Cur, Adv, WordToken, OptionalString, Vacation, SkipIf, PutSemi, Printable;
    SemiReadBack(semi, t);
    DiscardRejectWords();
    StringReadBack(a.message, PutSemi(semi, t), "");
  }

  lemma BareRejectReadBack(semi: bool, t: Text)
    requires semi || (NextType(t) != TSemi && NextType(t) != TString)
    ensures ActionAt(TokensOf(Then(Word("reject"), PutSemi(semi, t)))) == Ok((RejectAction(""), TokensOf(t)))
    ensures StartsAction(NextType(Then(Word("reject"), PutSemi(semi, t))))
  {
    hide TokensOf, Cur, Adv, WordToken, OptionalString, Vacation, SkipIf, PutSemi;
    SemiReadBack(semi, t);
    DiscardRejectWords();
    NoStringReadBack(PutSemi(semi, t), "");
  }

  lemma VacationActionReadBack(w: WAction, t: Text)
    requires w.WVacation? && GoodAction(w, NextType(t))
    ensures ActionAt(TokensOf(PutAction(w, t))) == Ok((VacationMeant(w.params, w.body), TokensOf(t)))
    ensures StartsAction(NextType(PutAction(w, t)))
  {
    hide TokensOf, Cur, Adv, WordToken, Vacation, PutParams, PutSemi, VacationMeant;
    VacationReadBack(w, t);
    VacationWord();
  }

  lemma StrayReadBack(l: Lexeme, t: Text)
    requires !StartsAction(TokenOf(l).typ)
    ensures ActionAt(TokensOf(Then(l, t))) == Ok((NilAction, TokensOf(t)))
    ensures NextType(Then(l, t)) == TokenOf(l).typ
  {
    hide TokensOf, Cur, Adv, TokenOf;
  }

  /** What the parser takes an action to be: nil for a token it skips. */
  function ActionRead(w: WAction): Action {
    match w
    case WPlain(action, _) => action
    case WReject(_) => RejectAction("")
    case WVacation(params, body, _) => VacationMeant(params, body)
    case WStray(_) => NilAction
  }

  lemma ActionReadBack(w: WAction, t: Text)
    requires GoodAction(w, NextType(t))
    ensures ActionAt(TokensOf(PutAction(w, t))) == Ok((ActionRead(w), TokensOf(t)))
    ensures NextType(PutAction(w, t)) != TRBrace && NextType(PutAction(w, t)) != TEOF
    ensures KeptAction(ActionRead(w)) == ActionOf(w)
  {
    hide TokensOf, Cur, Adv, Printable, ActionAt, PutPlain, PutSemi, PutParams, TokenOf, NextType;
    match w
    case WPlain(action, semi) =>
      if action.KeepAction? || action.StopAction? { KeepStopReadBack(action, semi, t); }
      else if action.DiscardAction? { DiscardReadBack(semi, t); }
      else if action.RejectAction? { RejectReadBack(action, semi, t); }
      else { TargetReadBack(action, semi, t); }
    case WReject(semi) => BareRejectReadBack(semi, t);
    case WVacation(_, _, _) => VacationActionReadBack(w, t);
    case WStray(stray) => StrayReadBack(stray, t);
  }

  lemma ActionItemReadBack(w: WAction, t: Text, count: nat)
    requires GoodAction(w, NextType(t)) && count < MAX_ARRAY_SIZE
    ensures ActionItems(TokensOf(PutAction(w, t)), count) == Prepend(ActionOf(w), ActionItems(TokensOf(t), count + 1))
  {
    hide TokensOf, Cur, Adv, ActionAt, ActionItems, Prepend, PutAction, TokenOf, Printable, KeptAction, GoodAction, ActionOf,
         ActionRead;
    ActionReadBack(w, t);
    ActionItemsRound(TokensOf(PutAction(w, t)), count, ActionRead(w), TokensOf(t));
  }

  lemma {:induction false} ActionsReadBack(ws: seq<WAction>, t: Text, count: nat)
    requires GoodActions(ws, t) && t.Then? && t.first == Mark('}') && count + |ws| <= MAX_ARRAY_SIZE
    ensures ActionItems(TokensOf(PutActions(ws, t)), count) == Ok((ActionsOf(ws), TokensOf(t)))
    decreases |ws|
  {
    hide TokensOf, Cur, Adv, ActionItems, Prepend, PutAction, GoodAction, ActionOf, NextType;
    if ws == [] {
      ActionItemsStop(TokensOf(t), count);
    } else {
      ActionItemReadBack(ws[0], PutActions(ws[1..], t), count);
      ActionsReadBack(ws[1..], t, count + 1);
      PrependTo(ActionOf(ws[0]), ActionsOf(ws[1..]), TokensOf(t));
    }
  }

  // ----- rules and scripts -----

  lemma ManyReadBack(ws: seq<WTest>, t: Text, allOf: bool)
    requires (forall w :: w in ws ==> GoodTest(w, 2)) && |ws| <= MAX_ARRAY_SIZE
    ensures Test(TokensOf(PutConditions(Many(allOf, ws), t)), 1) == Ok(((TestsOf(ws), allOf), TokensOf(t)))
  {
    hide TokensOf, Cur, Adv, WordToken, TestItems, PutTests, SkipIf, GoodTest, SingleTest, TestsOf;
    AllofAnyofWords();
    TestsReadBack(ws, Then(Mark(')'), t), 0, 2);
    SkipMark(')', t, TRParen);
  }

  lemma SingleReadBack(w: WTest, t: Text)
    requires GoodTest(w, 2)
    ensures Test(TokensOf(PutTest(w, t)), 1) == Ok((([TestOf(w)], true), TokensOf(t)))
  {
    hide TokensOf, Cur, Adv, WordToken, TestItems, GoodTest, SingleTest, HeaderMeant, UnitOf;
    TestStart(w, t);
    TestReadBack(w, t, 2);
    NeverNil(w);
  }

  lemma ConditionsReadBack(ws: WTests, t: Text)
    requires GoodConditions(ws)
    ensures Test(TokensOf(PutConditions(ws, t)), 1) == Ok((ConditionsOf(ws), TokensOf(t)))
  {
    hide TokensOf, Test, GoodTest, TestsOf, TestOf, PutTests, PutTest;
    match ws
    case Many(allOf, tests) => ManyReadBack(tests, t, allOf);
    case Single(test) => SingleReadBack(test, t);
  }

  lemma IfReadBack(w: WStatement, t: Text)
    requires w.WIf? && GoodStatement(w, t)
    ensures var (conditions, allOf) := ConditionsOf(w.tests);
            RuleAt(TokensOf(PutStatement(w, t)), 0) == Ok((Rule(conditions, ActionsOf(w.actions), allOf, false), TokensOf(t)))
    ensures NextType(PutStatement(w, t)) == TIf
  {
    hide TokensOf, Cur, Adv, WordToken, Test, ActionItems, PutConditions, PutActions, SkipIf, GoodConditions, GoodActions,
         ConditionsOf, ActionsOf;
    IfRequireWords();
    var t1 := Then(Mark('}'), t);
    ConditionsReadBack(w.tests, Then(Mark('{'), PutActions(w.actions, t1)));
    ActionsReadBack(w.actions, t1, 0);
    SkipMark('}', t, TRBrace);
  }

  lemma RequireReadBack(w: WStatement, t: Text)
    requires w.WRequire? && GoodStatement(w, t)
    ensures StatementAt(TokensOf(PutStatement(w, t)), 0) == Ok((StatementOf(w), TokensOf(t)))
    ensures NextType(PutStatement(w, t)) == TRequire
  {
    hide PutNames, NamesOf, SkipIf, RuleAt, WordToken, StringList, Cur, Adv, TokensOf, GoodNames, PutSemi;
    IfRequireWords();
    NamesReadBack(w.names, PutSemi(w.semi, t), false);
    SemiReadBack(w.semi, t);
  }

  lemma OtherReadBack(w: WStatement, t: Text)
    requires w.WOther? && GoodStatement(w, t)
    ensures StatementAt(TokensOf(PutStatement(w, t)), 0) == Ok((Script([], []), TokensOf(t)))
    ensures NextType(PutStatement(w, t)) != TEOF
  {
    hide TokensOf, Cur, Adv, TokenOf, RuleAt, RequireAt, GoodLexeme;
  }

  lemma StatementReadBack(w: WStatement, t: Text)
    requires GoodStatement(w, t)
    ensures StatementAt(TokensOf(PutStatement(w, t)), 0) == Ok((StatementOf(w), TokensOf(t)))
    ensures NextType(PutStatement(w, t)) != TEOF
  {
    hide TokensOf, Cur, Adv, RuleAt, RequireAt, PutStatement, GoodStatement, ConditionsOf, ActionsOf, NamesOf;
    match w
    case WRequire(_, _) => RequireReadBack(w, t);
    case WIf(_, _) => IfReadBack(w, t);
    case WOther(_) => OtherReadBack(w, t);
  }

  lemma PrependStatement(first: Script, rest: Script)
    ensures PrependScript(first, Ok(rest)) == Ok(Script(first.require_ + rest.require_, first.rules + rest.rules))
  {
  }

  lemma {:induction false} StatementsReadBack(ws: seq<WStatement>, iterations: nat)
    requires GoodStatements(ws) && iterations + |ws| < MAX_TOKENS
    ensures Statements(TokensOf(PutStatements(ws)), iterations, 0) == Ok(ScriptOf(ws))
    decreases |ws|
  {
    hide TokensOf, Cur, Adv, StatementAt, Statements, PutStatement, GoodStatement, PrependScript, StatementOf;
    if ws == [] {
      StatementsStop(TokensOf(End), iterations, 0);
    } else {
      var rest := PutStatements(ws[1..]);
      StatementReadBack(ws[0], rest);
      StatementsRound(TokensOf(PutStatements(ws)), iterations, 0, StatementOf(ws[0]), TokensOf(rest));
      StatementsReadBack(ws[1..], iterations + 1);
      PrependStatement(StatementOf(ws[0]), ScriptOf(ws[1..]));
    }
  }

  // ----- every written text is made of good lexemes -----

  /** Good text that has grown in front of t. */
  predicate Grown(text: Text, t: Text) {
    GoodText(text) && Length(text) >= Length(t)
  }

  lemma GoodThen(l: Lexeme, t: Text)
    requires GoodLexeme(l) && GoodText(t)
    ensures GoodText(Then(l, t)) && Length(Then(l, t)) == 1 + Length(t)
  {
  }

  lemma GoodMark(c: char, t: Text)
    requires Punctuation(c).Some? && GoodText(t)
    ensures GoodText(Then(Mark(c), t)) && Length(Then(Mark(c), t)) == 1 + Length(t)
  {
  }

  lemma {:induction false} ItemsGood(xs: seq<string>, t: Text)
    requires (forall x :: x in xs ==> Printable(x)) && GoodText(t)
    ensures Grown(PutItems(xs, t), t)
  {
    hide Printable, GoodText, Length;
    if |xs| == 1 {
      GoodThen(Quoted(xs[0]), t);
    } else if |xs| > 1 {
      ItemsGood(xs[1..], t);
      GoodMark(',', PutItems(xs[1..], t));
      GoodThen(Quoted(xs[0]), Then(Mark(','), PutItems(xs[1..], t)));
    }
  }

  lemma ArrayGood(xs: seq<string>, t: Text)
    requires PrintableList(xs) && GoodText(t)
    ensures Grown(PutArray(xs, t), t)
  {
    hide Printable, GoodText, Length, PutItems;
    GoodMark(']', t);
    ItemsGood(xs, Then(Mark(']'), t));
    GoodMark('[', PutItems(xs, Then(Mark(']'), t)));
  }

  lemma NamesGood(names: Names, t: Text)
    requires GoodNames(names) && GoodText(t)
    ensures Grown(PutNames(names, t), t)
  {
    hide Printable, GoodText, Length, PutArray;
    match names
    case Brackets(xs) => ArrayGood(xs, t);
    case Bare(x) => GoodThen(Quoted(x), t);
  }

  lemma ModGood(name: string, t: Text)
    requires PlainWord(name) && GoodText(t)
    ensures Grown(PutMod(name, t), t)
  {
    hide PlainWord, GoodText, Length;
    GoodThen(Word(name), t);
    GoodMark(':', Then(Word(name), t));
  }

  lemma {:induction false} ModifiersGood(xs: seq<Modifier>, t: Text)
    requires (forall x :: x in xs ==> GoodModifier(x)) && GoodText(t)
    ensures Grown(PutModifiers(xs, t), t)
    decreases |xs|
  {
    hide PlainWord, GoodText, Length, Printable, PutMod, MatchName, PartName;
    if xs != [] {
      var rest := PutModifiers(xs[1..], t);
      ModifiersGood(xs[1..], t);
      assert GoodModifier(xs[0]);
      match xs[0]
      case Match(name) => ModifierNames(name); ModGood(name, rest);
      case Part(name) => ModifierNames(name); ModGood(name, rest);
      case Comparator(value) =>
        GoodThen(Quoted(value), rest);
        ComparatorWord();
        ModGood("comparator", Then(Quoted(value), rest));
    }
  }

  lemma ModifierNames(name: string)
    requires MatchName(name) || PartName(name)
    ensures PlainWord(name)
  {
    ModifierWords(name);
  }

  lemma HeaderGood(w: WTest, t: Text, outer: nat)
    requires GoodTest(w, outer) && w.WHeader? && GoodText(t)
    ensures Grown(PutTest(w, t), t)
  {
    hide PutNames, GoodNames, PlainWord, WordToken, PutModifiers, GoodText, Length, GoodModifier;
    HeaderWords();
    var t1 := PutNames(w.values, t);
    var t2 := PutNames(w.headers, t1);
    NamesGood(w.values, t);
    NamesGood(w.headers, t1);
    ModifiersGood(w.mods, t2);
    GoodThen(Word(if w.isAddress then "address" else "header"), PutModifiers(w.mods, t2));
  }

  lemma SizeTestGood(w: WTest, t: Text)
    requires w.WSize? && IsUnit(w.unit) && w.n * UnitOf(w.unit) <= MAX_SIZE_VALUE && GoodText(t)
    ensures Grown(PutTest(w, t), t)
  {
    hide PlainWord, WordToken, Decimal, GoodText, Length, PutMod;
    SizeExistsWords();
    OverUnderWords();
    if w.unit != "" { UnitMultiplies(w.unit); }
    assert w.n <= w.n * UnitOf(w.unit);
    SizeLength(w.n);
    var number := Num(w.n, w.unit);
    GoodThen(number, t);
    if w.tag == Over { ModGood("over", Then(number, t)); }
    if w.tag == Under { ModGood("under", Then(number, t)); }
    GoodThen(Word("size"), PutTag(w.tag, Then(number, t)));
  }

  lemma {:induction false} TestGood(w: WTest, t: Text, outer: nat)
    requires GoodTest(w, outer) && GoodText(t)
    ensures Grown(PutTest(w, t), t)
    decreases w
  {
    hide PutNames, GoodNames, PlainWord, WordToken, Decimal, GoodText, Length, PutModifiers, PutTag, UnitOf;
    match w
    case WNot(inner) =>
      NotWord();
      TestGood(inner, t, outer + 1);
      GoodThen(Word("not"), PutTest(inner, t));
    case WHeader(_, _, _, _) => HeaderGood(w, t, outer);
    case WSize(_, _, _) => SizeTestGood(w, t);
    case WExists(names) =>
      SizeExistsWords();
      NamesGood(names, t);
      GoodThen(Word("exists"), PutNames(names, t));
    case WTrue => TrueFalseWords(); GoodThen(Word("true"), t);
    case WFalse => TrueFalseWords(); GoodThen(Word("false"), t);
  }

  lemma SizeLength(n: nat)
    requires n <= MAX_SIZE_VALUE
    ensures |Decimal(n)| <= 12
  {
    assert Pow10(2) == 100 && Pow10(4) == 10000 && Pow10(6) == 1000000;
    assert Pow10(8) == 100000000 && Pow10(10) == 10000000000 && Pow10(12) == 1000000000000;
    DecimalLength(n, 12);
  }

  lemma {:induction false} TestsGood(ws: seq<WTest>, t: Text, outer: nat)
    requires (forall w :: w in ws ==> GoodTest(w, outer)) && GoodText(t)
    ensures Grown(PutTests(ws, t), t)
    decreases |ws|
  {
    hide GoodTest, PutTest, GoodText, Length;
    if |ws| == 1 {
      TestGood(ws[0], t, outer);
    } else if |ws| > 1 {
      TestsGood(ws[1..], t, outer);
      GoodMark(',', PutTests(ws[1..], t));
      TestGood(ws[0], Then(Mark(','), PutTests(ws[1..], t)), outer);
    }
  }

  lemma ConditionsGood(ws: WTests, t: Text)
    requires GoodConditions(ws) && GoodText(t)
    ensures Grown(PutConditions(ws, t), t)
  {
    hide GoodTest, PutTest, PutTests, GoodText, Length, PlainWord, WordToken;
    match ws
    case Single(test) => TestGood(test, t, 2);
    case Many(allOf, tests) =>
      AllofAnyofWords();
      var t1 := Then(Mark(')'), t);
      GoodMark(')', t);
      TestsGood(tests, t1, 2);
      GoodMark('(', PutTests(tests, t1));
      GoodThen(Word(if allOf then "allof" else "anyof"), Then(Mark('('), PutTests(tests, t1)));
  }

  lemma ParamGood(x: Param, t: Text)
    requires GoodParam(x) && GoodText(t)
    ensures Grown(PutParam(x, t), t)
  {
    hide PlainWord, Printable, GoodText, Length, PutMod, PutArray, Decimal, WordToken;
    ParamWords("days"); ParamWords("subject"); ParamWords("from"); ParamWords("addresses");
    match x
    case Days(n) =>
      SizeLength(n);
      GoodThen(Num(n, ""), t);
      ModGood("days", Then(Num(n, ""), t));
    case Subject(v) => GoodThen(Quoted(v), t); ModGood("subject", Then(Quoted(v), t));
    case From(v) => GoodThen(Quoted(v), t); ModGood("from", Then(Quoted(v), t));
    case Addresses(xs) => ArrayGood(xs, t); ModGood("addresses", PutArray(xs, t));
  }

  lemma {:induction false} ParamsGood(xs: seq<Param>, t: Text)
    requires (forall x :: x in xs ==> GoodParam(x)) && GoodText(t)
    ensures Grown(PutParams(xs, t), t)
    decreases |xs|
  {
    hide GoodParam, PutParam, GoodText, Length;
    if xs != [] {
      ParamsGood(xs[1..], t);
      ParamGood(xs[0], PutParams(xs[1..], t));
    }
  }

  lemma SemiGood(semi: bool, t: Text)
    requires GoodText(t)
    ensures Grown(PutSemi(semi, t), t)
  {
    hide GoodText, Length;
    GoodMark(';', t);
  }

  lemma PlainGood(a: Action, t: Text)
    requires GoodPlain(a) && GoodText(t)
    ensures Grown(PutPlain(a, t), t)
  {
    hide PlainWord, WordToken, Printable, GoodText, Length;
    KeepStopWords();
    FileRedirectWords();
    DiscardRejectWords();
    match a
    case KeepAction => GoodThen(Word("keep"), t);
    case StopAction => GoodThen(Word("stop"), t);
    case DiscardAction => GoodThen(Word("discard"), t);
    case FileIntoAction(folder) => TargetGood("fileinto", folder, t);
    case RedirectAction(address) => TargetGood("redirect", address, t);
    case RejectAction(message) => TargetGood("reject", message, t);
  }

  lemma TargetGood(word: string, v: string, t: Text)
    requires PlainWord(word) && Printable(v) && GoodText(t)
    ensures Grown(Then(Word(word), Then(Quoted(v), t)), t)
  {
    hide PlainWord, Printable, GoodText, Length;
    GoodThen(Quoted(v), t);
    GoodThen(Word(word), Then(Quoted(v), t));
  }

  lemma ActionGood(w: WAction, t: Text, next: TokenType)
    requires GoodAction(w, next) && GoodText(t)
    ensures Grown(PutAction(w, t), t)
  {
    hide PlainWord, WordToken, Printable, GoodText, Length, PutPlain, PutSemi, PutParams, GoodParam, GoodPlain;
    match w
    case WPlain(action, semi) =>
      PlainKinds(action);
      SemiGood(semi, t);
      PlainGood(action, PutSemi(semi, t));
    case WReject(semi) =>
      DiscardRejectWords();
      SemiGood(semi, t);
      GoodThen(Word("reject"), PutSemi(semi, t));
    case WVacation(params, body, semi) =>
      VacationWord();
      SemiGood(semi, t);
      var end := PutSemi(semi, t);
      if body.Some? { GoodThen(Quoted(body.value), end); }
      var t1 := if body.Some? then Then(Quoted(body.value), end) else end;
      ParamsGood(params, t1);
      GoodThen(Word("vacation"), PutParams(params, t1));
    case WStray(stray) => GoodThen(stray, t);
  }

  lemma PlainKinds(a: Action)
    requires GoodPlain(a)
    ensures !a.NilAction? && !a.VacationAction?
  {
  }

  lemma {:induction false} ActionsGood(ws: seq<WAction>, t: Text)
    requires GoodActions(ws, t) && GoodText(t)
    ensures Grown(PutActions(ws, t), t)
    decreases |ws|
  {
    hide PutAction, GoodAction, GoodText, Length, NextType;
    if ws != [] {
      ActionsGood(ws[1..], t);
      ActionGood(ws[0], PutActions(ws[1..], t), NextType(PutActions(ws[1..], t)));
    }
  }

  lemma StatementGood(w: WStatement, t: Text)
    requires GoodStatement(w, t) && GoodText(t)
    ensures GoodText(PutStatement(w, t)) && Length(PutStatement(w, t)) > Length(t)
  {
    hide GoodActions, GoodConditions, PutConditions, PutActions, PutNames, GoodNames, PlainWord, WordToken, GoodText, Length,
         PutSemi, TokenOf, GoodLexeme;
    IfRequireWords();
    match w
    case WRequire(names, semi) =>
      SemiGood(semi, t);
      NamesGood(names, PutSemi(semi, t));
      WordGood("require", PutNames(names, PutSemi(semi, t)));
    case WIf(tests, actions) =>
      var t1 := Then(Mark('}'), t);
      var t2 := PutActions(actions, t1);
      var t3 := Then(Mark('{'), t2);
      GoodMark('}', t);
      ActionsGood(actions, t1);
      GoodMark('{', t2);
      ConditionsGood(tests, t3);
      WordGood("if", PutConditions(tests, t3));
    case WOther(other) => GoodThen(other, t);
  }

  lemma WordGood(word: string, t: Text)
    requires PlainWord(word) && GoodText(t)
    ensures GoodText(Then(Word(word), t)) && Length(Then(Word(word), t)) == 1 + Length(t)
  {
  }

  lemma {:induction false} StatementsGood(ws: seq<WStatement>)
    requires GoodStatements(ws)
    ensures GoodText(PutStatements(ws)) && Length(PutStatements(ws)) >= |ws|
    decreases |ws|
  {
    hide GoodStatement, PutStatement;
    if ws != [] {
      hide GoodText, Length;
      StatementsGood(ws[1..]);
      StatementGood(ws[0], PutStatements(ws[1..]));
    }
  }
}
