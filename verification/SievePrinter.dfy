/** The ways to write a Sieve script, and the script that each of them means. */
module SievePrinter {
  import opened Strings
  import opened SieveSyntax
  import opened SieveLexer
  import opened SieveGrammar
  import opened Wrappers

  // ----- pieces of text -----

  /** A number may end in a unit. */
  datatype Lexeme = Mark(c: char) | Word(word: string) | Quoted(value: string) | Num(n: nat, unit: string)

  datatype Text = End | Then(first: Lexeme, rest: Text)

  /** What may stand between two lexemes: blanks, line comments and block comments. */
  datatype Piece = Blank(c: char) | Line(text: string) | Block(text: string)

  /** How a text is laid out: what stands before the lexeme that is so many from the end, and how
      its letters are cased if it is a word. */
  datatype Style = Style(gap: nat -> seq<Piece>, cased: (nat, string) -> string)

  /** One blank before each lexeme, and lower case. */
  const PLAIN_STYLE := Style(_ => [Blank(' ')], (_, word) => word)

  /** A string between quotes: quotes and backslashes are escaped. */
  function Escape(v: string): string {
    if v == "" then ""
    else if v[0] == '"' then "\\\"" + Escape(v[1..])
    else if v[0] == '\\' then "\\\\" + Escape(v[1..])
    else [v[0]] + Escape(v[1..])
  }

  function Spell(l: Lexeme): string {
    match l
    case Mark(c) => [c]
    case Word(word) => word
    case Quoted(value) => "\"" + Escape(value) + "\""
    case Num(n, unit) => Decimal(n) + unit
  }

  function Length(t: Text): nat {
    if t.End? then 0 else 1 + Length(t.rest)
  }

  /** The lexeme as the style writes it. */
  function Styled(style: Style, t: Text): Lexeme
    requires t.Then?
  {
    if t.first.Word? then Word(style.cased(Length(t), t.first.word)) else t.first
  }

  /** A piece, with its comments or with what is left of them: `lines` and `blocks` say whether the
      line and the block comments are still there. */
  function Shown(p: Piece, lines: bool, blocks: bool): string {
    match p
    case Blank(c) => [c]
    case Line(text) => if lines then "#" + text + "\n" else "\n"
    case Block(text) => if blocks then "/*" + text + "*/" else ""
  }

  function Laid(gap: seq<Piece>, lines: bool, blocks: bool): string {
    if gap == [] then "" else Shown(gap[0], lines, blocks) + Laid(gap[1..], lines, blocks)
  }

  function RenderWith(t: Text, style: Style, lines: bool, blocks: bool): string {
    Laid(style.gap(Length(t)), lines, blocks)
    + if t.End? then "" else Spell(Styled(style, t)) + RenderWith(t.rest, style, lines, blocks)
  }

  function Render(t: Text, style: Style): string {
    RenderWith(t, style, true, true)
  }

  function TokenOf(l: Lexeme): Token {
    match l
    case Mark(c) => Token(if Punctuation(c).Some? then Punctuation(c).value else TEOF, [c])
    case Word(word) => WordToken(word)
    case Quoted(value) => Token(TString, value)
    case Num(n, unit) => Token(TNumber, Decimal(n) + unit)
  }

  function TokensOf(t: Text): (toks: seq<Token>)
    ensures toks != []
    ensures t.End? ==> Cur(toks) == EOF_TOKEN
    ensures t.Then? ==> Cur(toks) == TokenOf(t.first) && Adv(toks) == TokensOf(t.rest)
  {
    if t.End? then [EOF_TOKEN] else [TokenOf(t.first)] + TokensOf(t.rest)
  }

  /** The literal survives comment removal and the length limit. */
  predicate Printable(v: string) {
    && |Escape(v)| <= MAX_STRING_LENGTH
    && '#' !in v
    && !Contains(v, "/*")
  }

  predicate WordLike(w: string) {
    && 0 < |w| <= MAX_WORD_LENGTH
    && IsWordStart(w[0])
    && forall i :: 0 <= i < |w| ==> IsWordChar(w[i])
  }

  /** A lower-case word. */
  predicate PlainWord(w: string) {
    WordLike(w) && forall i :: 0 <= i < |w| ==> LowerChar(w[i]) == w[i]
  }

  predicate IsUnit(unit: string) {
    unit == "" || unit == "K" || unit == "M" || unit == "G"
  }

  predicate GoodLexeme(l: Lexeme) {
    match l
    case Mark(c) => Punctuation(c).Some?
    case Word(word) => PlainWord(word)
    case Quoted(value) => Printable(value)
    case Num(n, unit) => IsUnit(unit) && |Decimal(n) + unit| <= MAX_NUMBER_LENGTH
  }

  predicate GoodText(t: Text) {
    t.End? || (GoodLexeme(t.first) && GoodText(t.rest))
  }

  predicate GoodPiece(p: Piece) {
    match p
    case Blank(c) => IsSpace(c)
    case Line(text) => '\n' !in text
    case Block(text) => '#' !in text && !Contains(text, "*/")
  }

  /** The letters of words may be cased at will, gaps are made of good pieces, and a gap parts words
      and numbers that would otherwise run together. */
  ghost predicate GoodStyle(style: Style, t: Text) {
    && (forall n: nat, p :: p in style.gap(n) ==> GoodPiece(p))
    && (forall n: nat, w: string :: Lower(style.cased(n, w)) == Lower(w))
    && Parted(style, t)
  }

  predicate RunsOn(l: Lexeme) {
    l.Word? || l.Num?
  }

  predicate Parted(style: Style, t: Text) {
    t.Then? && t.rest.Then? ==>
      && Parted(style, t.rest)
      && (RunsOn(t.first) && RunsOn(t.rest.first) ==> Laid(style.gap(Length(t.rest)), false, false) != "")
  }

  // ----- the ways to write a construct, and what they mean -----

  /** One name may be written without brackets. */
  datatype Names = Brackets(xs: seq<string>) | Bare(x: string)

  function NamesOf(names: Names): seq<string> {
    match names
    case Brackets(xs) => xs
    case Bare(x) => [x]
  }

  /** Modifiers stand in any order, and a later one wins. */
  datatype Modifier = Match(name: string) | Part(name: string) | Comparator(value: string)

  function Modified(m: Mods, x: Modifier): Mods {
    match x
    case Match(name) => m.(matchType := name)
    case Part(name) => m.(addressPart := name)
    case Comparator(value) => m.(comparator := value)
  }

  function ModsAfter(m: Mods, xs: seq<Modifier>): Mods
    decreases |xs|
  {
    if xs == [] then m else ModsAfter(Modified(m, xs[0]), xs[1..])
  }

  /** Without a match type a header test is meant to be `is`. */
  function HeaderMeant(isAddress: bool, xs: seq<Modifier>, headers: Names, values: Names): Condition {
    var m := ModsAfter(Mods("", "", ""), xs);
    HeaderCondition(NamesOf(headers), NamesOf(values), if m.matchType == "" then "is" else m.matchType, m.comparator,
                    isAddress, m.addressPart)
  }

  datatype Tag = Over | Under | NoTag

  datatype WTest =
    | WTrue
    | WFalse
    | WNot(inner: WTest)
    | WHeader(isAddress: bool, mods: seq<Modifier>, headers: Names, values: Names)
    | WSize(tag: Tag, n: nat, unit: string)
    | WExists(names: Names)

  function UnitOf(unit: string): nat {
    if unit == "K" then 1024 else if unit == "M" then 1024 * 1024 else if unit == "G" then 1024 * 1024 * 1024 else 1
  }

  function TestOf(w: WTest): Condition {
    match w
    case WTrue => TrueCondition
    case WFalse => FalseCondition
    case WNot(inner) => NotCondition(TestOf(inner))
    case WHeader(isAddress, mods, headers, values) => HeaderMeant(isAddress, mods, headers, values)
    case WSize(tag, n, unit) => SizeCondition(n * UnitOf(unit), tag == Over)
    case WExists(names) => ExistsCondition(NamesOf(names))
  }

  function TestsOf(ws: seq<WTest>): seq<Condition> {
    if ws == [] then [] else [TestOf(ws[0])] + TestsOf(ws[1..])
  }

  /** A rule has a list of tests under allof or anyof, or a single test. */
  datatype WTests = Many(allOf: bool, tests: seq<WTest>) | Single(test: WTest)

  function ConditionsOf(ws: WTests): (seq<Condition>, bool) {
    match ws
    case Many(allOf, tests) => (TestsOf(tests), allOf)
    case Single(test) => ([TestOf(test)], true)
  }

  datatype Param = Days(n: nat) | Subject(value: string) | From(value: string) | Addresses(xs: seq<string>)

  /** A later parameter wins, but addresses add up; without days they are seven. */
  function Set(p: Settings, x: Param): Settings {
    match x
    case Days(n) => p.(days := n)
    case Subject(value) => p.(subject := value)
    case From(value) => p.(from := value)
    case Addresses(xs) => p.(addresses := p.addresses + xs)
  }

  function SettingsAfter(p: Settings, xs: seq<Param>): Settings
    decreases |xs|
  {
    if xs == [] then p else SettingsAfter(Set(p, xs[0]), xs[1..])
  }

  /** The semicolon may be left out, as may the text of a reject and the body of a vacation; a token
      that starts no action is skipped. */
  datatype WAction =
    | WPlain(action: Action, semi: bool)
    | WReject(semi: bool)
    | WVacation(params: seq<Param>, body: Option<string>, semi: bool)
    | WStray(stray: Lexeme)

  function VacationMeant(params: seq<Param>, body: Option<string>): Action {
    var p := SettingsAfter(Settings(7, "", "", []), params);
    VacationAction(p.days, p.subject, p.from, if body.Some? then body.value else "", p.addresses)
  }

  function ActionOf(w: WAction): seq<Action> {
    match w
    case WPlain(action, _) => [action]
    case WReject(_) => [RejectAction("")]
    case WVacation(params, body, _) => [VacationMeant(params, body)]
    case WStray(_) => []
  }

  function ActionsOf(ws: seq<WAction>): seq<Action> {
    if ws == [] then [] else ActionOf(ws[0]) + ActionsOf(ws[1..])
  }

  /** At top level too a token that starts no statement is skipped. */
  datatype WStatement =
    | WRequire(names: Names, semi: bool)
    | WIf(tests: WTests, actions: seq<WAction>)
    | WOther(other: Lexeme)

  function StatementOf(w: WStatement): Script {
    match w
    case WRequire(names, _) => Script(NamesOf(names), [])
    case WIf(tests, actions) =>
      Script([], [Rule(ConditionsOf(tests).0, ActionsOf(actions), ConditionsOf(tests).1, false)])
    case WOther(_) => Script([], [])
  }

  function ScriptOf(ws: seq<WStatement>): Script {
    if ws == [] then Script([], [])
    else
      var first, rest := StatementOf(ws[0]), ScriptOf(ws[1..]);
      Script(first.require_ + rest.require_, first.rules + rest.rules)
  }

  // ----- writing a construct, in front of the text that follows -----

  function PutItems(xs: seq<string>, t: Text): Text {
    if xs == [] then t
    else if |xs| == 1 then Then(Quoted(xs[0]), t)
    else Then(Quoted(xs[0]), Then(Mark(','), PutItems(xs[1..], t)))
  }

  function PutArray(xs: seq<string>, t: Text): Text {
    Then(Mark('['), PutItems(xs, Then(Mark(']'), t)))
  }

  function PutNames(names: Names, t: Text): Text {
    match names
    case Brackets(xs) => PutArray(xs, t)
    case Bare(x) => Then(Quoted(x), t)
  }

  function PutMod(name: string, t: Text): Text {
    Then(Mark(':'), Then(Word(name), t))
  }

  function PutModifier(x: Modifier, t: Text): Text {
    match x
    case Match(name) => PutMod(name, t)
    case Part(name) => PutMod(name, t)
    case Comparator(value) => PutMod("comparator", Then(Quoted(value), t))
  }

  function PutModifiers(xs: seq<Modifier>, t: Text): Text {
    if xs == [] then t else PutModifier(xs[0], PutModifiers(xs[1..], t))
  }

  function PutTag(tag: Tag, t: Text): Text {
    match tag
    case Over => PutMod("over", t)
    case Under => PutMod("under", t)
    case NoTag => t
  }

  function PutTest(w: WTest, t: Text): Text {
    match w
    case WTrue => Then(Word("true"), t)
    case WFalse => Then(Word("false"), t)
    case WNot(inner) => Then(Word("not"), PutTest(inner, t))
    case WHeader(isAddress, mods, headers, values) =>
      Then(Word(if isAddress then "address" else "header"), PutModifiers(mods, PutNames(headers, PutNames(values, t))))
    case WSize(tag, n, unit) => Then(Word("size"), PutTag(tag, Then(Num(n, unit), t)))
    case WExists(names) => Then(Word("exists"), PutNames(names, t))
  }

  function PutTests(ws: seq<WTest>, t: Text): Text {
    if ws == [] then t
    else if |ws| == 1 then PutTest(ws[0], t)
    else PutTest(ws[0], Then(Mark(','), PutTests(ws[1..], t)))
  }

  function PutConditions(ws: WTests, t: Text): Text {
    match ws
    case Many(allOf, tests) =>
      Then(Word(if allOf then "allof" else "anyof"), Then(Mark('('), PutTests(tests, Then(Mark(')'), t))))
    case Single(test) => PutTest(test, t)
  }

  function PutParam(x: Param, t: Text): Text {
    match x
    case Days(n) => PutMod("days", Then(Num(n, ""), t))
    case Subject(value) => PutMod("subject", Then(Quoted(value), t))
    case From(value) => PutMod("from", Then(Quoted(value), t))
    case Addresses(xs) => PutMod("addresses", PutArray(xs, t))
  }

  function PutParams(xs: seq<Param>, t: Text): Text {
    if xs == [] then t else PutParam(xs[0], PutParams(xs[1..], t))
  }

  function PutSemi(semi: bool, t: Text): Text {
    if semi then Then(Mark(';'), t) else t
  }

  function PutPlain(a: Action, t: Text): Text
    requires !a.NilAction? && !a.VacationAction?
  {
    match a
    case KeepAction => Then(Word("keep"), t)
    case FileIntoAction(folder) => Then(Word("fileinto"), Then(Quoted(folder), t))
    case RedirectAction(address) => Then(Word("redirect"), Then(Quoted(address), t))
    case DiscardAction => Then(Word("discard"), t)
    case RejectAction(message) => Then(Word("reject"), Then(Quoted(message), t))
    case StopAction => Then(Word("stop"), t)
  }

  function PutAction(w: WAction, t: Text): Text {
    match w
    case WPlain(action, semi) =>
      if action.NilAction? || action.VacationAction? then t else PutPlain(action, PutSemi(semi, t))
    case WReject(semi) => Then(Word("reject"), PutSemi(semi, t))
    case WVacation(params, body, semi) =>
      var end := PutSemi(semi, t);
      Then(Word("vacation"), PutParams(params, if body.Some? then Then(Quoted(body.value), end) else end))
    case WStray(stray) => Then(stray, t)
  }

  function PutActions(ws: seq<WAction>, t: Text): Text {
    if ws == [] then t else PutAction(ws[0], PutActions(ws[1..], t))
  }

  function PutStatement(w: WStatement, t: Text): Text {
    match w
    case WRequire(names, semi) => Then(Word("require"), PutNames(names, PutSemi(semi, t)))
    case WIf(tests, actions) =>
      Then(Word("if"), PutConditions(tests, Then(Mark('{'), PutActions(actions, Then(Mark('}'), t)))))
    case WOther(other) => Then(other, t)
  }

  function PutStatements(ws: seq<WStatement>): Text {
    if ws == [] then End else PutStatement(ws[0], PutStatements(ws[1..]))
  }

  // ----- what can be written and read back -----

  predicate PrintableList(xs: seq<string>) {
    && |xs| <= MAX_ARRAY_SIZE / 2
    && forall x :: x in xs ==> Printable(x)
  }

  predicate GoodNames(names: Names) {
    match names
    case Brackets(xs) => PrintableList(xs)
    case Bare(x) => Printable(x)
  }

  predicate MatchName(name: string) {
    name == "contains" || name == "is" || name == "matches"
  }

  predicate PartName(name: string) {
    name == "localpart" || name == "domain" || name == "all"
  }

  predicate GoodModifier(x: Modifier) {
    match x
    case Match(name) => MatchName(name)
    case Part(name) => PartName(name)
    case Comparator(value) => Printable(value)
  }

  predicate GoodModifiers(xs: seq<Modifier>) {
    |xs| <= MAX_MODIFIERS && forall x :: x in xs ==> GoodModifier(x)
  }

  /** A test that can be read back below `outer` levels of nesting. */
  predicate GoodTest(w: WTest, outer: nat) {
    && outer + 1 <= MAX_CONDITION_DEPTH
    && match w
       case WTrue => true
       case WFalse => true
       case WNot(inner) => GoodTest(inner, outer + 1)
       case WHeader(_, mods, headers, values) => GoodModifiers(mods) && GoodNames(headers) && GoodNames(values)
       case WSize(_, n, unit) => IsUnit(unit) && n * UnitOf(unit) <= MAX_SIZE_VALUE
       case WExists(names) => GoodNames(names)
  }

  predicate GoodConditions(ws: WTests) {
    match ws
    case Many(_, tests) => |tests| <= MAX_ARRAY_SIZE && forall w :: w in tests ==> GoodTest(w, 2)
    case Single(test) => GoodTest(test, 2)
  }

  predicate GoodParam(x: Param) {
    match x
    case Days(n) => n <= MAX_VACATION_DAYS
    case Subject(value) => Printable(value)
    case From(value) => Printable(value)
    case Addresses(xs) => PrintableList(xs)
  }

  predicate GoodPlain(a: Action) {
    match a
    case NilAction => false
    case VacationAction(_, _, _, _, _) => false
    case FileIntoAction(folder) => folder != "" && Printable(folder)
    case RedirectAction(address) => address != "" && Printable(address)
    case RejectAction(message) => Printable(message)
    case _ => true
  }

  predicate StartsAction(typ: TokenType) {
    typ == TKeep || typ == TFileinto || typ == TRedirect || typ == TDiscard || typ == TReject || typ == TVacation || typ == TStop
  }

  /** The action in front of a token of this type: what is left out must not be what follows. */
  predicate GoodAction(w: WAction, next: TokenType) {
    match w
    case WPlain(action, semi) => GoodPlain(action) && (semi || next != TSemi)
    case WReject(semi) => semi || (next != TSemi && next != TString)
    case WVacation(params, body, semi) =>
      && |params| <= MAX_VACATION_PARAMS && (forall x :: x in params ==> GoodParam(x))
      && (body.Some? ==> Printable(body.value))
      && (semi || (next != TSemi && (body.None? ==> next != TString && next != TColon)))
    case WStray(stray) =>
      GoodLexeme(stray) && var typ := TokenOf(stray).typ; !StartsAction(typ) && typ != TRBrace && typ != TEOF
  }

  function NextType(t: Text): TokenType {
    Cur(TokensOf(t)).typ
  }

  predicate GoodActions(ws: seq<WAction>, t: Text) {
    ws == [] || (GoodAction(ws[0], NextType(PutActions(ws[1..], t))) && GoodActions(ws[1..], t))
  }

  predicate GoodStatement(w: WStatement, t: Text) {
    match w
    case WRequire(names, semi) => GoodNames(names) && (semi || NextType(t) != TSemi)
    case WIf(tests, actions) =>
      GoodConditions(tests) && |actions| <= MAX_ARRAY_SIZE && GoodActions(actions, Then(Mark('}'), t))
    case WOther(other) =>
      GoodLexeme(other) && var typ := TokenOf(other).typ; typ != TRequire && typ != TIf && typ != TEOF
  }

  predicate GoodStatements(ws: seq<WStatement>) {
    ws == [] || (GoodStatement(ws[0], PutStatements(ws[1..])) && GoodStatements(ws[1..]))
  }

  function Print(ws: seq<WStatement>, style: Style): string {
    Render(PutStatements(ws), style)
  }

  /** The script can be written in this way and layout, within the limits on its size. */
  ghost predicate WellWritten(ws: seq<WStatement>, style: Style) {
    && GoodStatements(ws) && GoodStyle(style, PutStatements(ws))
    && |Print(ws, style)| <= MAX_SCRIPT_SIZE
    && Length(PutStatements(ws)) < MAX_TOKENS
  }

  // ----- one way to write each script -----

  function CanonicalTest(c: Condition): WTest
    requires NoNil(c) && SizesNatural(c)
  {
    match c
    case TrueCondition => WTrue
    case FalseCondition => WFalse
    case NotCondition(inner) => WNot(CanonicalTest(inner))
    case HeaderCondition(headers, values, matchType, comparator, isAddress, addressPart) =>
      var part := if addressPart == "" then [] else [Part(addressPart)];
      WHeader(isAddress, [Comparator(comparator), Match(matchType)] + part, Brackets(headers), Brackets(values))
    case SizeCondition(size, over) => WSize(if over then Over else Under, size, "")
    case ExistsCondition(names) => WExists(Brackets(names))
  }

  predicate NoNil(c: Condition) {
    match c
    case NilCondition => false
    case NotCondition(inner) => NoNil(inner)
    case _ => true
  }

  predicate SizesNatural(c: Condition) {
    match c
    case NotCondition(inner) => SizesNatural(inner)
    case SizeCondition(size, _) => 0 <= size
    case _ => true
  }

  /** A test that can be written and read back below `outer` levels of nesting. */
  predicate WellFormedTest(c: Condition, outer: nat) {
    && outer + 1 <= MAX_CONDITION_DEPTH
    && match c
       case NilCondition => false
       case NotCondition(inner) => WellFormedTest(inner, outer + 1)
       case HeaderCondition(headers, values, matchType, comparator, _, addressPart) =>
         && PrintableList(headers) && PrintableList(values) && Printable(comparator)
         && MatchName(matchType) && (addressPart == "" || PartName(addressPart))
       case SizeCondition(size, _) => 0 <= size <= MAX_SIZE_VALUE
       case ExistsCondition(names) => PrintableList(names)
       case _ => true
  }

  predicate WellFormedAction(a: Action) {
    match a
    case NilAction => false
    case VacationAction(days, subject, from, body, addresses) =>
      && 0 <= days <= MAX_VACATION_DAYS
      && Printable(subject) && Printable(from) && Printable(body) && PrintableList(addresses)
    case _ => GoodPlain(a)
  }

  function CanonicalAction(a: Action): WAction
    requires WellFormedAction(a)
  {
    match a
    case VacationAction(days, subject, from, body, addresses) =>
      WVacation([Days(days), Subject(subject), From(from), Addresses(addresses)], Some(body), true)
    case _ => WPlain(a, true)
  }

  predicate WellFormedRule(r: Rule) {
    && !r.stop
    && |r.conditions| <= MAX_ARRAY_SIZE && |r.actions| <= MAX_ARRAY_SIZE
    && (forall c :: c in r.conditions ==> WellFormedTest(c, 2))
    && (forall a :: a in r.actions ==> WellFormedAction(a))
  }

  predicate WellFormed(s: Script) {
    PrintableList(s.require_) && forall r :: r in s.rules ==> WellFormedRule(r)
  }
}
