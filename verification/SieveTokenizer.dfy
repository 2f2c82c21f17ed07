/** The character loops of Parser.tokenize (internal/sieve/parser.go), each an index walking
    over the comment-free text, proved to compute the lexer functions of the rest of the text. */
module SieveTokenizer {
  import opened Wrappers
  import opened Strings
  import opened SieveSyntax
  import opened SieveLexer

  method SkipSpaces(s: string, start: nat) returns (i: nat)
    requires start <= |s|
    ensures start <= i <= |s| && s[i..] == TrimLeft(s[start..])
  {
    i := start;
    while i < |s| && IsSpace(s[i])
      invariant start <= i <= |s|
      invariant TrimLeft(s[start..]) == TrimLeft(s[i..])
    {
      i := i + 1;
    }
  }

  lemma ScanStep(s: string, i: nat, iterations: nat)
    requires i < |s| && s[i] != '"'
    ensures ScanString(s[i..], iterations) ==
            if iterations >= MAX_STRING_LENGTH then Err(StringTooLong)
            else Shift(AfterRaw(s, i) - i, ScanString(s[AfterRaw(s, i)..], iterations + 1))
  {
    assert s[i..][AfterRaw(s, i) - i..] == s[AfterRaw(s, i)..];
  }

  lemma ShiftShift(j: nat, k: nat, r: Result<nat, Error>)
    ensures Shift(j, Shift(k, r)) == Shift(j + k, r)
  {
  }

  lemma ScanEnd(s: string, i: nat, iterations: nat)
    requires i <= |s| && (i < |s| ==> s[i] == '"')
    ensures ScanString(s[i..], iterations) == if i >= |s| then Err(UnterminatedString) else Ok(0)
  {
  }

  /** From the character after the opening quote to the closing one. */
  method FindClosingQuote(s: string, start: nat) returns (r: Result<nat, Error>)
    requires start <= |s|
    ensures r == ScanString(s[start..], 0)
  {
    hide ScanString;
    var i, iterations := start, 0;
    ghost var goal := ScanString(s[start..], 0);
    ghost var ahead := goal;
    while i < |s| && s[i] != '"'
      invariant start <= i <= |s|
      invariant goal == Shift(i - start, ahead)
      invariant ahead == ScanString(s[i..], iterations)
    {
      ScanStep(s, i, iterations);
      iterations := iterations + 1;
      if iterations > MAX_STRING_LENGTH {
        return Err(StringTooLong);
      }
      ghost var next := ScanString(s[AfterRaw(s, i)..], iterations);
      ShiftShift(i - start, AfterRaw(s, i) - i, next);
      i, ahead := AfterRaw(s, i), next;
    }
    ScanEnd(s, i, iterations);
    r := if i >= |s| then Err(UnterminatedString) else Ok(i - start);
  }

  /** What a token method reports: the token and the index of the text that remains. */
  ghost predicate Read(r: Result<(Option<Token>, nat), Error>, s: string, i: nat, spec: Lexed)
  {
    match r
    case Ok((token, end)) => i < end <= |s| && spec == Ok((token, s[end..]))
    case Err(e) => spec == Err(e)
  }

  method ReadString(s: string, i: nat) returns (r: Result<(Option<Token>, nat), Error>)
    requires i < |s|
    ensures Read(r, s, i, StringToken(s[i..]))
  {
    var len :- FindClosingQuote(s, i + 1);
    if len > MAX_STRING_LENGTH {
      return Err(StringTooLong);
    }
    assert s[i..][1..] == s[i + 1..] && s[i + 1..][..len] == s[i + 1..i + 1 + len];
    r := Ok((Some(Token(TString, Unescape(s[i + 1..i + 1 + len]))), i + 1 + len + 1));
  }

  method ReadNumber(s: string, start: nat) returns (r: Result<(Option<Token>, nat), Error>)
    requires start < |s| && IsDigit(s[start])
    ensures Read(r, s, start, NumberToken(s[start..]))
  {
    var i, numLen := start, 0;
    while i < |s| && IsNumberChar(s[i])
      invariant start <= i <= |s| && numLen == i - start <= MAX_NUMBER_LENGTH
      invariant NumberRun(s[start..]) == numLen + NumberRun(s[i..])
    {
      numLen := numLen + 1;
      if numLen > MAX_NUMBER_LENGTH {
        return Err(InvalidInput(NumberLength));
      }
      i := i + 1;
    }
    assert s[start..][..i - start] == s[start..i];
    r := Ok((Some(Token(TNumber, s[start..i])), i));
  }

  method ReadWord(s: string, start: nat) returns (r: Result<(Option<Token>, nat), Error>)
    requires start < |s| && IsWordStart(s[start])
    ensures Read(r, s, start, KeywordToken(s[start..]))
  {
    hide WordToken;
    var i, identLen := start, 0;
    while i < |s| && IsWordChar(s[i])
      invariant start <= i <= |s| && identLen == i - start <= MAX_WORD_LENGTH
      invariant WordRun(s[start..]) == identLen + WordRun(s[i..])
    {
      identLen := identLen + 1;
      if identLen > MAX_WORD_LENGTH {
        return Err(InvalidInput(WordLength));
      }
      i := i + 1;
    }
    assert s[start..][..i - start] == s[start..i];
    r := Ok((Some(WordToken(s[start..i])), i));
  }

  /** One token, or nothing for an unknown character, and the index after it. */
  method ReadToken(s: string, i: nat) returns (r: Result<(Option<Token>, nat), Error>)
    requires i < |s|
    ensures Read(r, s, i, NextToken(s[i..]))
  {
    hide StringToken, NumberToken, KeywordToken;
    var ch := s[i];
    assert s[i..][0] == ch && s[i..][1..] == s[i + 1..];
    if Punctuation(ch).Some? {
      r := Ok((Some(Token(Punctuation(ch).value, [ch])), i + 1));
    } else if ch == '"' {
      r := ReadString(s, i);
    } else if IsDigit(ch) {
      r := ReadNumber(s, i);
    } else if IsWordStart(ch) {
      r := ReadWord(s, i);
    } else {
      r := Ok((None, i + 1));
    }
  }

  lemma PrependTokensAssoc(xs: seq<Token>, ys: seq<Token>, r: Result<seq<Token>, Error>)
    ensures PrependTokens(xs, PrependTokens(ys, r)) == PrependTokens(xs + ys, r)
    ensures PrependTokens([], r) == r
    ensures r.Err? ==> PrependTokens(xs, r) == r
    ensures r == Ok(ys) ==> PrependTokens(xs, r) == Ok(xs + ys)
  {
    if r.Ok? {
      assert xs + (ys + r.value) == xs + ys + r.value;
      assert [] + r.value == r.value;
    }
  }

  /** One round of the token loop, on the specification side. */
  lemma LexRound(s: string, count: nat, iterations: nat, maxIterations: nat, t: string, token: Option<Token>, rest: string)
    requires s != "" && iterations + 1 <= maxIterations && count < MAX_TOKENS
    requires t == TrimLeft(s) && t != "" && NextToken(t) == Ok((token, rest))
    ensures Lex(s, count, iterations, maxIterations)
            == PrependTokens(Item(token), Lex(rest, count + |Item(token)|, iterations + 1, maxIterations))
  {
  }

  /** The ways the token loop ends, on the specification side. */
  lemma LexStop(s: string, count: nat, iterations: nat, maxIterations: nat)
    ensures s == "" ==> Lex(s, count, iterations, maxIterations) == Ok([EOF_TOKEN])
    ensures s != "" && iterations >= maxIterations ==>
      Lex(s, count, iterations, maxIterations) == Err(InvalidInput(LexIterations))
    ensures s != "" && iterations < maxIterations && count >= MAX_TOKENS ==>
      Lex(s, count, iterations, maxIterations) == Err(TooManyTokens)
    ensures s != "" && iterations < maxIterations && count < MAX_TOKENS && TrimLeft(s) == "" ==>
      Lex(s, count, iterations, maxIterations) == Ok([EOF_TOKEN])
    ensures s != "" && iterations < maxIterations && count < MAX_TOKENS && TrimLeft(s) != "" ==>
      NextToken(TrimLeft(s)).Err? ==>
      Lex(s, count, iterations, maxIterations) == Err(NextToken(TrimLeft(s)).error)
  {
  }

  /** A character that starts no token is skipped, in a round of its own. */
  lemma UnknownSkipped(c: char, s: string, count: nat, iterations: nat, maxIterations: nat)
    requires Punctuation(c).None? && c != '"' && !IsDigit(c) && !IsWordStart(c) && !IsSpace(c)
    requires iterations < maxIterations && count < MAX_TOKENS
    ensures Lex([c] + s, count, iterations, maxIterations) == Lex(s, count, iterations + 1, maxIterations)
  {
    hide Lex;
    assert ([c] + s)[1..] == s;
    LexRound([c] + s, count, iterations, maxIterations, [c] + s, None, s);
    PrependNothing(Lex(s, count, iterations + 1, maxIterations));
  }

  lemma PrependNothing(r: Result<seq<Token>, Error>)
    ensures PrependTokens([], r) == r
  {
    if r.Ok? { assert [] + r.value == r.value; }
  }

  method TokenizeText(input: string) returns (r: Result<seq<Token>, Error>)
    ensures r == Tokenize(input)
  {
    hide Lex, NextToken, StripComments, PrependTokens;
    var s := StripComments(input);
    var tokens: seq<Token> := [];
    var i, iterations := 0, 0;
    var maxIterations := |s| + 1000;
    assert s[0..] == s;
    ghost var ahead := Lex(s, 0, 0, maxIterations);
    ghost var count := 0;
    PrependTokensAssoc([], [], ahead);
    while i < |s|
      invariant 0 <= i <= |s|
      invariant count == |tokens| && ahead == Lex(s[i..], count, iterations, maxIterations)
      invariant Tokenize(input) == PrependTokens(tokens, ahead)
    {
      LexStop(s[i..], count, iterations, maxIterations);
      PrependTokensAssoc(tokens, [EOF_TOKEN], ahead);
      iterations := iterations + 1;
      if iterations > maxIterations {
        return Err(InvalidInput(LexIterations));
      }
      if |tokens| >= MAX_TOKENS {
        return Err(TooManyTokens);
      }
      var j := SkipSpaces(s, i);
      if j >= |s| {
        return Ok(tokens + [EOF_TOKEN]);
      }
      var token := ReadToken(s, j);
      if token.Err? {
        return Err(token.error);
      }
      var item := Item(token.value.0);
      ghost var next := Lex(s[token.value.1..], count + |item|, iterations, maxIterations);
      LexRound(s[i..], count, iterations - 1, maxIterations, s[j..], token.value.0, s[token.value.1..]);
      PrependTokensAssoc(tokens, item, next);
      i, tokens, count, ahead := token.value.1, tokens + item, count + |item|, next;
    }
    LexStop(s[i..], count, iterations, maxIterations);
    PrependTokensAssoc(tokens, [EOF_TOKEN], ahead);
    r := Ok(tokens + [EOF_TOKEN]);
  }
}
