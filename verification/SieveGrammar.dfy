/** Specification of the recursive-descent parser (internal/sieve/parser.go). Every function maps the
    tokens that remain to a value and the tokens that then remain; its contract says that it uses
    some of them up, which is what ends the recursion. SieveParser proves the methods against these
    functions, and SieveReparse reads written scripts back with them. */
module SieveGrammar {
  import opened Wrappers
  import opened Strings
  import opened SieveSyntax

  type Parsed<+T> = Result<(T, seq<Token>), Error>

  /** current(): EOF stands for running out of tokens. */
  function Cur(toks: seq<Token>): Token {
    if toks == [] then EOF_TOKEN else toks[0]
  }

  /** advance(): does nothing at the end. */
  function Adv(toks: seq<Token>): seq<Token> {
    if toks == [] then [] else toks[1..]
  }

  function SkipIf(toks: seq<Token>, typ: TokenType): seq<Token> {
    if Cur(toks).typ == typ then Adv(toks) else toks
  }

  predicate TooLong(val: string) {
    |val| > MAX_STRING_LENGTH
  }

  // ----- lists and strings -----

  /** Puts values read earlier in front of a parsed list. */
  function Prepend<T>(xs: seq<T>, r: Parsed<seq<T>>): Parsed<seq<T>> {
    if r.Ok? then Ok((xs + r.value.0, r.value.1)) else r
  }

  function StringItem(t: Token): seq<string> {
    if t.typ == TString then [t.val] else []
  }

  /** The items of a bracketed list; every token of the list counts towards the limit. */
  function ArrayItems(toks: seq<Token>, count: nat, checked: bool): (r: Parsed<seq<string>>)
    ensures r.Ok? ==> |r.value.1| <= |toks|
  {
    if Cur(toks).typ == TRBracket || Cur(toks).typ == TEOF then Ok(([], toks))
    else if count + 1 > MAX_ARRAY_SIZE then Err(ArrayTooLarge)
    else if Cur(toks).typ == TString && checked && TooLong(Cur(toks).val) then Err(StringTooLong)
    else
      Prepend(StringItem(Cur(toks)), ArrayItems(Adv(toks), count + 1, checked))
  }

  /** A bracketed list, standing at its opening bracket. */
  function Array(toks: seq<Token>, checked: bool): (r: Parsed<seq<string>>)
    ensures r.Ok? ==> |r.value.1| <= |Adv(toks)|
  {
    var (items, rest) :- ArrayItems(Adv(toks), 0, checked);
    Ok((items, SkipIf(rest, TRBracket)))
  }

  /** A bracketed list, one string, or nothing. */
  function StringList(toks: seq<Token>, checked: bool): (r: Parsed<seq<string>>)
    ensures r.Ok? ==> |r.value.1| <= |toks|
  {
    if Cur(toks).typ == TLBracket then Array(toks, checked)
    else if Cur(toks).typ == TString then
      if checked && TooLong(Cur(toks).val) then Err(StringTooLong)
      else Ok(([Cur(toks).val], Adv(toks)))
    else Ok(([], toks))
  }

  /** A string if one stands here, or the default. */
  function OptionalString(toks: seq<Token>, default: string): (r: Parsed<string>)
    ensures r.Ok? ==> |r.value.1| <= |toks|
  {
    if Cur(toks).typ != TString then Ok((default, toks))
    else if TooLong(Cur(toks).val) then Err(StringTooLong)
    else Ok((Cur(toks).val, Adv(toks)))
  }

  /** parseSize: digits with an optional K, M or G. */
  function ParseSize(text: string): Result<int, Error>
  {
    var s := TrimSpace(text);
    if s == "" then Ok(0)
    else
      var last := LowerChar(s[|s| - 1]);
      var multiplier := match last
        case 'k' => 1024
        case 'm' => 1024 * 1024
        case 'g' => 1024 * 1024 * 1024
        case _ => 1;
      var digits := if last == 'k' || last == 'm' || last == 'g' then s[..|s| - 1] else s;
      match ParseInt64(digits)
      case None => Err(BadNumber)
      case Some(n) =>
        if n < 0 then Err(InvalidSize)
        else if multiplier > 1 && n > MAX_SIZE_VALUE / multiplier then Err(InvalidSize)
        else if n * multiplier > MAX_SIZE_VALUE then Err(InvalidSize)
        else Ok(n * multiplier)
  }

  // ----- tests -----

  datatype Mods = Mods(matchType: string, comparator: string, addressPart: string)

  /** One modifier of a header test, after its name has been read. */
  function ApplyMod(m: Mods, name: string, toks: seq<Token>): (r: (Mods, seq<Token>))
    ensures |r.1| <= |toks|
  {
    if name == "contains" || name == "is" || name == "matches" then (m.(matchType := name), toks)
    else if name == "localpart" || name == "domain" || name == "all" then (m.(addressPart := name), toks)
    else if name == "comparator" && Cur(toks).typ == TString then (m.(comparator := Cur(toks).val), Adv(toks))
    else (m, toks)
  }

  function HeaderMods(toks: seq<Token>, count: nat, m: Mods): (r: Parsed<Mods>)
    ensures r.Ok? ==> |r.value.1| <= |toks|
    decreases |toks|
  {
    if Cur(toks).typ != TColon then Ok((m, toks))
    else if count + 1 > MAX_MODIFIERS then Err(InvalidInput(Modifiers))
    else
      var (m', rest) := ApplyMod(m, Cur(Adv(toks)).val, Adv(Adv(toks)));
      HeaderMods(rest, count + 1, m')
  }

  function HeaderTest(toks: seq<Token>, isAddress: bool): (r: Parsed<Condition>)
    ensures r.Ok? ==> |r.value.1| <= |Adv(toks)| && r.value.0.HeaderCondition?
  {
    var (m, t1) :- HeaderMods(Adv(toks), 0, Mods("", "", ""));
    var (headers, t2) :- StringList(t1, true);
    var (values, t3) :- StringList(t2, true);
    Ok((HeaderCondition(headers, values, if m.matchType == "" then "is" else m.matchType,
                        m.comparator, isAddress, m.addressPart), t3))
  }

  function SizeTest(toks: seq<Token>): (r: Parsed<Condition>)
    ensures r.Ok? ==> |r.value.1| <= |Adv(toks)| && r.value.0.SizeCondition?
  {
    var t1 := Adv(toks);
    var over := Cur(t1).typ == TColon && Cur(Adv(t1)).typ == TOver;
    var t2 := if Cur(t1).typ == TColon then Adv(Adv(t1)) else t1;
    if Cur(t2).typ == TNumber then
      var size :- ParseSize(Cur(t2).val);
      Ok((SizeCondition(size, over), Adv(t2)))
    else Ok((SizeCondition(0, over), t2))
  }

  function ExistsTest(toks: seq<Token>): (r: Parsed<Condition>)
    ensures r.Ok? ==> |r.value.1| <= |Adv(toks)| && r.value.0.ExistsCondition?
  {
    var (headers, rest) :- StringList(Adv(toks), true);
    Ok((ExistsCondition(headers), rest))
  }

  /** parseSingleCondition, called at nesting depth `depth`. */
  function SingleTest(toks: seq<Token>, depth: nat): (r: Parsed<Condition>)
    ensures r.Ok? ==> |r.value.1| <= |Adv(toks)|
    decreases |toks|
  {
    if depth + 1 > MAX_CONDITION_DEPTH then Err(NestingTooDeep)
    else if Cur(toks).typ == TNot then
      var (inner, rest) :- SingleTest(Adv(toks), depth + 1);
      Ok((NotCondition(inner), rest))
    else PlainTest(toks)
  }

  /** The tests that hold no other test. */
  function PlainTest(toks: seq<Token>): (r: Parsed<Condition>)
    ensures r.Ok? ==> |r.value.1| <= |Adv(toks)| && !r.value.0.NotCondition?
  {
    var typ := Cur(toks).typ;
    if typ == TAddress || typ == THeader then HeaderTest(toks, typ == TAddress)
    else if typ == TSize then SizeTest(toks)
    else if typ == TExists then ExistsTest(toks)
    else if typ == TTrue then Ok((TrueCondition, Adv(toks)))
    else if typ == TFalse then Ok((FalseCondition, Adv(toks)))
    else Ok((NilCondition, Adv(toks)))
  }

  /** A parsed test is kept unless it is nil. */
  function Kept(c: Condition): seq<Condition> {
    if c.NilCondition? then [] else [c]
  }

  /** The tests between the parentheses of allof and anyof. */
  function TestItems(toks: seq<Token>, count: nat, depth: nat): (r: Parsed<seq<Condition>>)
    ensures r.Ok? ==> |r.value.1| <= |toks|
    decreases |toks|
  {
    if Cur(toks).typ == TRParen || Cur(toks).typ == TEOF then Ok(([], toks))
    else if count + 1 > MAX_ARRAY_SIZE then Err(ArrayTooLarge)
    else
      var (c, t1) :- SingleTest(toks, depth);
      Prepend(Kept(c), TestItems(SkipIf(t1, TComma), count + 1, depth))
  }

  /** parseCondition: the tests of a rule and whether all of them must hold. */
  function Test(toks: seq<Token>, depth: nat): (r: Parsed<(seq<Condition>, bool)>)
    ensures r.Ok? ==> |r.value.1| <= |Adv(toks)|
  {
    if depth + 1 > MAX_CONDITION_DEPTH then Err(NestingTooDeep)
    else
      var typ := Cur(toks).typ;
      if typ == TAllof || typ == TAnyof then
        var (cs, rest) :- TestList(Adv(toks), depth + 1);
        Ok(((cs, typ == TAllof), rest))
      else if typ == TTrue then Ok((([TrueCondition], true), Adv(toks)))
      else if typ == TFalse then Ok((([FalseCondition], true), Adv(toks)))
      else
        var (c, rest) :- SingleTest(toks, depth + 1);
        Ok(((Kept(c), true), rest))
  }

  /** What follows allof or anyof. */
  function TestList(toks: seq<Token>, depth: nat): (r: Parsed<seq<Condition>>)
    ensures r.Ok? ==> |r.value.1| <= |toks|
  {
    if Cur(toks).typ == TLParen then
      var (cs, rest) :- TestItems(Adv(toks), 0, depth);
      Ok((cs, SkipIf(rest, TRParen)))
    else Ok(([], toks))
  }

  // ----- actions -----

  datatype Settings = Settings(days: int, subject: string, from: string, addresses: seq<string>)

  /** One parameter of the vacation action, after its name has been read. */
  function ApplyParam(p: Settings, name: string, toks: seq<Token>): (r: Parsed<Settings>)
    ensures r.Ok? ==> |r.value.1| <= |toks|
  {
    match name
    case "days" =>
      if Cur(toks).typ != TNumber then Ok((p, toks))
      else (match ParseInt64(Cur(toks).val)
        case None => Err(BadNumber)
        case Some(days) =>
          if days < 0 || days > MAX_VACATION_DAYS then Err(VacationDaysRange)
          else Ok((p.(days := days), Adv(toks))))
    case "subject" =>
      var (v, rest) :- OptionalString(toks, p.subject);
      Ok((p.(subject := v), rest))
    case "from" =>
      var (v, rest) :- OptionalString(toks, p.from);
      Ok((p.(from := v), rest))
    case "addresses" =>
      if Cur(toks).typ != TLBracket then Ok((p, toks))
      else
        var (items, rest) :- Array(toks, true);
        Ok((p.(addresses := p.addresses + items), rest))
    case _ => Ok((p, toks))
  }

  function Params(toks: seq<Token>, count: nat, p: Settings): (r: Parsed<Settings>)
    ensures r.Ok? ==> |r.value.1| <= |toks|
    decreases |toks|
  {
    if Cur(toks).typ != TColon then Ok((p, toks))
    else if count + 1 > MAX_VACATION_PARAMS then Err(InvalidInput(VacationParams))
    else
      var (p', rest) :- ApplyParam(p, Cur(Adv(toks)).val, Adv(Adv(toks)));
      Params(rest, count + 1, p')
  }

  const DEFAULT_SETTINGS := Settings(DEFAULT_VACATION_DAYS, "", "", [])

  function Vacation(toks: seq<Token>): (r: Parsed<Action>)
    ensures r.Ok? ==> |r.value.1| <= |Adv(toks)|
  {
    var (p, t1) :- Params(Adv(toks), 0, DEFAULT_SETTINGS);
    var (body, t2) :- OptionalString(t1, "");
    Ok((VacationAction(p.days, p.subject, p.from, body, p.addresses), SkipIf(t2, TSemi)))
  }

  /** parseAction: the default branch skips one token. */
  function ActionAt(toks: seq<Token>): (r: Parsed<Action>)
    ensures r.Ok? ==> |r.value.1| <= |Adv(toks)|
  {
    var typ := Cur(toks).typ;
    if typ == TKeep then Ok((KeepAction, SkipIf(Adv(toks), TSemi)))
    else if typ == TFileinto then
      var (folder, rest) :- OptionalString(Adv(toks), "");
      if folder == "" then Err(MissingFolder) else Ok((FileIntoAction(folder), SkipIf(rest, TSemi)))
    else if typ == TRedirect then
      var (address, rest) :- OptionalString(Adv(toks), "");
      if address == "" then Err(MissingAddress) else Ok((RedirectAction(address), SkipIf(rest, TSemi)))
    else if typ == TDiscard then Ok((DiscardAction, SkipIf(Adv(toks), TSemi)))
    else if typ == TReject then
      var (message, rest) :- OptionalString(Adv(toks), "");
      Ok((RejectAction(message), SkipIf(rest, TSemi)))
    else if typ == TVacation then Vacation(toks)
    else if typ == TStop then Ok((StopAction, SkipIf(Adv(toks), TSemi)))
    else Ok((NilAction, Adv(toks)))
  }

  function KeptAction(a: Action): seq<Action> {
    if a.NilAction? then [] else [a]
  }

  /** The actions of a rule, up to its closing brace. */
  function ActionItems(toks: seq<Token>, count: nat): (r: Parsed<seq<Action>>)
    ensures r.Ok? ==> |r.value.1| <= |toks|
    decreases |toks|
  {
    if Cur(toks).typ == TRBrace || Cur(toks).typ == TEOF then Ok(([], toks))
    else if count + 1 > MAX_ARRAY_SIZE then Err(ArrayTooLarge)
    else
      var (a, t1) :- ActionAt(toks);
      Prepend(KeptAction(a), ActionItems(t1, count + 1))
  }

  // ----- rules and scripts -----

  /** parseRule, standing at `if`. */
  function RuleAt(toks: seq<Token>, depth: nat): (r: Parsed<Rule>)
    ensures r.Ok? ==> |r.value.1| <= |Adv(toks)|
    ensures r.Ok? ==> !r.value.0.stop
  {
    if depth + 1 > MAX_PARSE_DEPTH then Err(NestingTooDeep)
    else
      var ((conditions, allOf), t1) :- Test(Adv(toks), depth + 1);
      if Cur(t1).typ != TLBrace then Err(ExpectedBrace(Cur(t1).typ))
      else
        var (actions, t2) :- ActionItems(Adv(t1), 0);
        Ok((Rule(conditions, actions, allOf, false), SkipIf(t2, TRBrace)))
  }

  /** parseRequire, standing at `require`. */
  function RequireAt(toks: seq<Token>): (r: Parsed<seq<string>>)
    ensures r.Ok? ==> |r.value.1| <= |Adv(toks)|
  {
    var (reqs, rest) :- StringList(Adv(toks), false);
    Ok((reqs, SkipIf(rest, TSemi)))
  }

  /** Puts the statements read earlier in front of a parsed script. */
  function PrependScript(s: Script, r: Result<Script, Error>): Result<Script, Error> {
    if r.Ok? then Ok(Script(s.require_ + r.value.require_, s.rules + r.value.rules)) else r
  }

  /** One top-level statement: anything but require and if is a single skipped token. */
  function StatementAt(toks: seq<Token>, depth: nat): (r: Parsed<Script>)
    ensures r.Ok? ==> |r.value.1| <= |Adv(toks)|
  {
    if Cur(toks).typ == TRequire then
      var (reqs, rest) :- RequireAt(toks);
      Ok((Script(reqs, []), rest))
    else if Cur(toks).typ == TIf then
      var (rule, rest) :- RuleAt(toks, depth);
      Ok((Script([], [rule]), rest))
    else Ok((Script([], []), Adv(toks)))
  }

  /** parse: the loop over the whole token list. */
  function Statements(toks: seq<Token>, iterations: nat, depth: nat): (r: Result<Script, Error>)
    decreases |toks|
  {
    if toks == [] then Ok(Script([], []))
    else if iterations + 1 > MAX_TOKENS then Err(InvalidInput(ParseIterations))
    else if Cur(toks).typ == TEOF then Ok(Script([], []))
    else
      var (statement, rest) :- StatementAt(toks, depth);
      PrependScript(statement, Statements(rest, iterations + 1, depth))
  }
}
