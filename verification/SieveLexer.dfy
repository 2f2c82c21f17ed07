/** Specification of Parser.tokenize (internal/sieve/parser.go): comment removal, then a
    token at a time from the remaining text. */
module SieveLexer {
  import opened Wrappers
  import opened Strings
  import opened SieveSyntax

  // ----- comments -----

  /** The text from its first newline on. */
  function FromNewline(s: string): (r: string)
    ensures |r| <= |s|
  {
    if s == "" || s[0] == '\n' then s else FromNewline(s[1..])
  }

  /** Removes every match of #[^\n]*. */
  function StripLineComments(s: string): string
    decreases |s|
  {
    if s == "" then ""
    else if s[0] == '#' then StripLineComments(FromNewline(s[1..]))
    else [s[0]] + StripLineComments(s[1..])
  }

  /** Removes every leftmost, shortest match of a block comment. */
  function StripBlockComments(s: string): string
    decreases |s|
  {
    if s == "" then ""
    else if HasPrefix(s, "/*") then
      match Index(s[2..], "*/")
      case None => s
      case Some(k) => StripBlockComments(s[2 + k + 2..])
    else [s[0]] + StripBlockComments(s[1..])
  }

  function StripComments(s: string): string {
    StripBlockComments(StripLineComments(s))
  }

  // ----- one token -----

  predicate IsNumberChar(c: char) {
    IsDigit(c) || c == 'K' || c == 'M' || c == 'G'
  }

  predicate IsWordStart(c: char) {
    'a' <= c <= 'z' || 'A' <= c <= 'Z' || c == '_'
  }

  predicate IsWordChar(c: char) {
    IsWordStart(c) || IsDigit(c)
  }

  /** Length of the longest prefix of number characters. */
  function NumberRun(s: string): (k: nat)
    ensures k <= |s|
  {
    if s != "" && IsNumberChar(s[0]) then 1 + NumberRun(s[1..]) else 0
  }

  /** Length of the longest prefix of word characters. */
  function WordRun(s: string): (k: nat)
    ensures k <= |s|
  {
    if s != "" && IsWordChar(s[0]) then 1 + WordRun(s[1..]) else 0
  }

  /** A length found in a suffix, counted from k characters before it. */
  function Shift(k: nat, r: Result<nat, Error>): Result<nat, Error> {
    if r.Ok? then Ok(k + r.value) else r
  }

  /** Index after the raw character, or escaped pair, at i. */
  function AfterRaw(s: string, i: nat): (j: nat)
    requires i < |s|
    ensures i < j <= |s|
  {
    if s[i] == '\\' && i + 1 < |s| then i + 2 else i + 1
  }

  /** Length of the raw text of a string literal, s starting after its opening quote. */
  function ScanString(s: string, iterations: nat): (r: Result<nat, Error>)
    ensures r.Ok? ==> r.value < |s| && s[r.value] == '"'
    decreases |s|
  {
    if s == "" then Err(UnterminatedString)
    else if s[0] == '"' then Ok(0)
    else if iterations + 1 > MAX_STRING_LENGTH then Err(StringTooLong)
    else
      Shift(AfterRaw(s, 0), ScanString(s[AfterRaw(s, 0)..], iterations + 1))
  }

  /** The two replacements that turn the raw text of a literal into its value. */
  function Unescape(raw: string): string {
    ReplaceAll(ReplaceAll(raw, "\\\"", "\""), "\\\\", "\\")
  }

  type Lexed = Result<(Option<Token>, string), Error>

  /** A string literal, s starting at its opening quote. */
  function StringToken(s: string): (r: Lexed)
    requires s != ""
    ensures r.Ok? ==> |r.value.1| < |s|
  {
    var k :- ScanString(s[1..], 0);
    if k > MAX_STRING_LENGTH then Err(StringTooLong)
    else Ok((Some(Token(TString, Unescape(s[1..][..k]))), s[1..][k + 1..]))
  }

  function NumberToken(s: string): (r: Lexed)
    requires s != "" && IsDigit(s[0])
    ensures r.Ok? ==> |r.value.1| < |s|
  {
    var k := NumberRun(s);
    if k > MAX_NUMBER_LENGTH then Err(InvalidInput(NumberLength))
    else Ok((Some(Token(TNumber, s[..k])), s[k..]))
  }

  function KeywordToken(s: string): (r: Lexed)
    requires s != "" && IsWordStart(s[0])
    ensures r.Ok? ==> |r.value.1| < |s|
  {
    var k := WordRun(s);
    if k > MAX_WORD_LENGTH then Err(InvalidInput(WordLength))
    else Ok((Some(WordToken(s[..k])), s[k..]))
  }

  /** Reads one token, or skips one unknown character, at a character that is not a space. */
  function NextToken(s: string): (r: Lexed)
    requires s != ""
    ensures r.Ok? ==> |r.value.1| < |s|
  {
    if Punctuation(s[0]).Some? then Ok((Some(Token(Punctuation(s[0]).value, [s[0]])), s[1..]))
    else if s[0] == '"' then StringToken(s)
    else if IsDigit(s[0]) then NumberToken(s)
    else if IsWordStart(s[0]) then KeywordToken(s)
    else Ok((None, s[1..]))
  }

  /** A word is a keyword, whatever its case, or else a string. */
  function WordToken(word: string): Token {
    var w := Lower(word);
    if w in KEYWORDS then Token(KEYWORDS[w], w) else Token(TString, w)
  }

  // ----- the token loop -----

  function Item(token: Option<Token>): seq<Token> {
    if token.Some? then [token.value] else []
  }

  /** Puts tokens read earlier in front of the tokens of the remaining text. */
  function PrependTokens(xs: seq<Token>, r: Result<seq<Token>, Error>): Result<seq<Token>, Error> {
    if r.Ok? then Ok(xs + r.value) else r
  }

  /** The tokens of the remaining text s, with `count` tokens read before in `iterations` rounds. */
  function Lex(s: string, count: nat, iterations: nat, maxIterations: nat): (r: Result<seq<Token>, Error>)
    decreases |s|
  {
    if s == "" then Ok([EOF_TOKEN])
    else if iterations + 1 > maxIterations then Err(InvalidInput(LexIterations))
    else if count >= MAX_TOKENS then Err(TooManyTokens)
    else
      var t := TrimLeft(s);
      if t == "" then Ok([EOF_TOKEN])
      else
        var (token, rest) :- NextToken(t);
        PrependTokens(Item(token), Lex(rest, count + |Item(token)|, iterations + 1, maxIterations))
  }

  function Tokenize(input: string): Result<seq<Token>, Error> {
    var s := StripComments(input);
    Lex(s, 0, 0, |s| + 1000)
  }
}
