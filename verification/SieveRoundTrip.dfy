/** Reading a written text back as its lexemes. Comments are removed first, so the first half shows
    that the two expressions remove exactly the comments of a text, whatever its strings and gaps;
    the second half then reads one lexeme after the other, each up to where it must end. Escaping
    and unescaping of strings, the runs of words and numbers and the blanks in between have their
    lemmas of their own. */
module SieveRoundTrip {
  import opened Wrappers
  import opened Strings
  import opened SieveSyntax
  import opened SieveLexer
  import opened SieveTokenizer
  import opened SievePrinter

  // ----- string literals -----

  /** Escape without the quotes: what the first replacement leaves. */
  function Doubled(v: string): string {
    if v == "" then ""
    else if v[0] == '\\' then "\\\\" + Doubled(v[1..])
    else [v[0]] + Doubled(v[1..])
  }

  lemma EscapeStart(v: string)
    ensures v != "" ==> Escape(v) != "" && Escape(v)[0] != '"'
    ensures v == "" ==> Escape(v) == ""
  {
  }

  lemma {:induction false} UnescapeQuotes(v: string)
    ensures ReplaceAll(Escape(v), "\\\"", "\"") == Doubled(v)
  {
    hide ReplaceAll;
    if v == "" {
      ReplaceEmpty("\\\"", "\"");
    } else {
      var tail := Escape(v[1..]);
      UnescapeQuotes(v[1..]);
      if v[0] == '"' {
        ReplaceFound("\\\"", tail, "\"");
        assert Escape(v) == "\\\"" + tail;
      } else if v[0] == '\\' {
        EscapeStart(v[1..]);
        ReplaceCopies('\\', tail, "\\\"", "\"");
        ReplaceCopies('\\', ['\\'] + tail, "\\\"", "\"");
        assert Escape(v) == ['\\'] + (['\\'] + tail);
        assert Doubled(v) == ['\\'] + (['\\'] + Doubled(v[1..]));
      } else {
        ReplaceCopies(v[0], tail, "\\\"", "\"");
      }
    }
  }

  lemma ReplaceEmpty(pat: string, sub: string)
    requires pat != ""
    ensures ReplaceAll("", pat, sub) == ""
  {
  }

  lemma {:induction false} UnescapeBackslashes(v: string)
    ensures ReplaceAll(Doubled(v), "\\\\", "\\") == v
  {
    hide ReplaceAll;
    if v == "" {
      ReplaceEmpty("\\\\", "\\");
    } else {
      var tail := Doubled(v[1..]);
      UnescapeBackslashes(v[1..]);
      assert v == [v[0]] + v[1..];
      if v[0] == '\\' {
        ReplaceFound("\\\\", tail, "\\");
      } else {
        ReplaceCopies(v[0], tail, "\\\\", "\\");
      }
    }
  }

  /** The two replacements of the tokenizer undo Escape on every string. */
  lemma UnescapeEscape(v: string)
    ensures Unescape(Escape(v)) == v
  {
    UnescapeQuotes(v);
    UnescapeBackslashes(v);
  }

  /** The scan for the closing quote ends exactly after the escaped text. */
  lemma {:induction false} ScanEscaped(v: string, rest: string, iterations: nat)
    requires iterations + |Escape(v)| <= MAX_STRING_LENGTH
    ensures ScanString(Escape(v) + "\"" + rest, iterations) == Ok(|Escape(v)|)
  {
    var s := Escape(v) + "\"" + rest;
    if v != "" {
      var tail := Escape(v[1..]);
      var k := |Escape(v)| - |tail|;
      assert s[k..] == tail + "\"" + rest;
      assert AfterRaw(s, 0) == k;
      ScanEscaped(v[1..], rest, iterations + 1);
    }
  }

  // ----- comments -----

  lemma {:induction false} NoLineComments(s: string)
    requires '#' !in s
    ensures StripLineComments(s) == s
  {
    if s != "" { NoLineComments(s[1..]); }
  }

  lemma {:induction false} NoBlockComments(s: string)
    requires !Contains(s, "/*")
    ensures StripBlockComments(s) == s
  {
    if s != "" {
      assert s[0..] == s && !HasPrefix(s[0..], "/*");
      assert forall k :: 0 <= k <= |s[1..]| ==> s[1..][k..] == s[k + 1..];
      NoBlockComments(s[1..]);
    }
  }

  lemma {:induction false} SkipsToNewline(c: string, s: string)
    requires '\n' !in c
    ensures FromNewline(c + "\n" + s) == "\n" + s
  {
    if c != "" {
      assert (c + "\n" + s)[1..] == c[1..] + "\n" + s;
      SkipsToNewline(c[1..], s);
    } else {
      assert c + "\n" + s == "\n" + s;
    }
  }

  /** A line comment disappears, all but its newline; the rest of the text is unaffected. */
  lemma LineCommentRemoved(c: string, s: string)
    requires '\n' !in c
    ensures StripComments("#" + c + "\n" + s) == "\n" + StripComments(s)
  {
    var text := "#" + c + "\n" + s;
    assert text[1..] == c + "\n" + s;
    SkipsToNewline(c, s);
    var rest := StripLineComments(s);
    assert ("\n" + s)[1..] == s && StripLineComments("\n" + s) == "\n" + rest;
    assert ("\n" + rest)[1..] == rest;
  }

  /** A block comment disappears up to the first terminator after its opening. */
  lemma BlockCommentRemoved(c: string, s: string)
    requires Index(c + "*/" + s, "*/") == Some(|c|)
    ensures StripBlockComments("/*" + c + "*/" + s) == StripBlockComments(s)
  {
    var text := "/*" + c + "*/" + s;
    assert text[..2] == "/*" && text[2..] == c + "*/" + s;
    assert text[2 + |c| + 2..] == s;
  }

  /** No comment can start in this text. */
  predicate Clean(s: string) {
    && (forall i :: 0 <= i < |s| ==> s[i] != '#')
    && (forall i :: 0 <= i < |s| - 1 ==> s[i] == '/' ==> s[i + 1] != '*')
  }

  lemma CleanText(s: string)
    requires Clean(s)
    ensures StripComments(s) == s
  {
    NoLineComments(s);
    forall k | 0 <= k <= |s| ensures !HasPrefix(s[k..], "/*") {
      if k + 1 < |s| { assert s[k..][0] == s[k] && s[k..][1] == s[k + 1]; }
    }
    NoBlockComments(s);
  }

  lemma PrintableClean(v: string)
    requires Printable(v)
    ensures Clean(v)
  {
    forall i | 0 <= i < |v| - 1 && v[i] == '/' ensures v[i + 1] != '*' {
      assert v[i..][..2] == [v[i], v[i + 1]] && !HasPrefix(v[i..], "/*");
    }
  }

  lemma {:induction false} CleanEscape(v: string)
    requires Clean(v)
    ensures Clean(Escape(v))
    ensures v != "" && v[0] != '*' ==> Escape(v)[0] != '*'
  {
    if v != "" {
      assert forall i :: 0 <= i < |v| - 1 ==> v[1..][i] == v[i + 1];
      CleanEscape(v[1..]);
    }
  }

  lemma CleanSpell(l: Lexeme)
    requires (l.Word? && WordLike(l.word)) || GoodLexeme(l)
    ensures Clean(Spell(l)) && Spell(l) != "" && Spell(l)[|Spell(l)| - 1] != '/' && Spell(l)[0] != '*'
  {
    match l
    case Mark(c) =>
    case Word(word) =>
    case Quoted(value) => CleanQuoted(value);
    case Num(n, unit) =>
  }

  lemma CleanQuoted(value: string)
    requires Printable(value)
    ensures var s := Spell(Quoted(value)); Clean(s) && s != "" && s[|s| - 1] != '/'
  {
    PrintableClean(value);
    CleanEscape(value);
    var e := Escape(value);
    assert Spell(Quoted(value)) == "\"" + (e + "\"");
  }

  /** A word in any case. */
  lemma CasedWord(w: string, u: string)
    requires PlainWord(w) && Lower(u) == Lower(w)
    ensures WordLike(u) && WordToken(u) == WordToken(w)
  {
    forall i | 0 <= i < |u| ensures IsWordChar(u[i]) && (IsWordStart(w[i]) ==> IsWordStart(u[i])) {
      assert LowerChar(u[i]) == Lower(u)[i] == LowerChar(w[i]) == w[i];
    }
    assert |Lower(u)| == |u| && |Lower(w)| == |w|;
  }

  // ----- comments between lexemes disappear -----

  lemma {:induction false} LineCat(a: string, b: string)
    requires '#' !in a
    ensures StripLineComments(a + b) == a + StripLineComments(b)
  {
    if a == "" {
      assert a + b == b;
    } else {
      assert (a + b)[1..] == a[1..] + b && (a + b)[0] == a[0];
      LineCat(a[1..], b);
      assert a + StripLineComments(b) == [a[0]] + (a[1..] + StripLineComments(b));
    }
  }

  lemma LineGone(c: string, s: string)
    requires '\n' !in c
    ensures StripLineComments("#" + c + "\n" + s) == "\n" + StripLineComments(s)
  {
    var text := "#" + c + "\n" + s;
    assert text[1..] == c + "\n" + s;
    SkipsToNewline(c, s);
    assert ("\n" + s)[1..] == s;
  }

  lemma BlockStep(c: char, s: string)
    requires c == '/' && s != "" ==> s[0] != '*'
    ensures StripBlockComments([c] + s) == [c] + StripBlockComments(s)
  {
    var t := [c] + s;
    assert t[1..] == s && t[0] == c;
    assert |t| >= 2 ==> t[..2] == [t[0], t[1]];
  }

  lemma CleanTail(a: string)
    requires Clean(a) && a != ""
    ensures Clean(a[1..]) && (|a| > 1 && a[0] == '/' ==> a[1] != '*')
  {
    assert forall i :: 0 <= i < |a| - 1 ==> a[1..][i] == a[i + 1];
  }

  lemma {:induction false} BlockCat(a: string, b: string)
    requires Clean(a) && (a != "" && a[|a| - 1] == '/' && b != "" ==> b[0] != '*')
    ensures StripBlockComments(a + b) == a + StripBlockComments(b)
  {
    hide StripBlockComments, Clean;
    if a == "" {
      assert a + b == b;
    } else {
      CleanTail(a);
      var rest := a[1..] + b;
      assert a + b == [a[0]] + rest;
      assert a[1..] != "" ==> rest[0] == a[1] && a[1..][|a| - 2] == a[|a| - 1];
      BlockStep(a[0], rest);
      BlockCat(a[1..], b);
      assert a + StripBlockComments(b) == [a[0]] + (a[1..] + StripBlockComments(b));
    }
  }

  /** The first terminator is the one after the text. */
  lemma {:induction false} FirstTerminator(c: string, s: string)
    requires !Contains(c, "*/")
    ensures Index(c + "*/" + s, "*/") == Some(|c|)
  {
    var t := c + "*/" + s;
    if c == "" {
      assert t[..2] == "*/";
    } else {
      assert !HasPrefix(t, "*/") by {
        assert c[0..] == c && !HasPrefix(c[0..], "*/");
        if |c| >= 2 { assert t[..2] == c[..2]; } else { assert t[1] == '*'; }
      }
      assert t[1..] == c[1..] + "*/" + s;
      forall k | 0 <= k <= |c[1..]| ensures !HasPrefix(c[1..][k..], "*/") {
        assert c[1..][k..] == c[k + 1..];
      }
      FirstTerminator(c[1..], s);
    }
  }

  lemma BlockGone(c: string, s: string)
    requires !Contains(c, "*/")
    ensures StripBlockComments("/*" + c + "*/" + s) == StripBlockComments(s)
  {
    FirstTerminator(c, s);
    BlockCommentRemoved(c, s);
  }

  predicate GoodGap(gap: seq<Piece>) {
    forall p :: p in gap ==> GoodPiece(p)
  }

  lemma PieceLines(p: Piece, s: string)
    requires GoodPiece(p)
    ensures StripLineComments(Shown(p, true, true) + s) == Shown(p, false, true) + StripLineComments(s)
  {
    hide StripLineComments;
    match p
    case Blank(c) => LineCat([c], s);
    case Line(text) => LineGone(text, s);
    case Block(text) => LineCat("/*" + text + "*/", s);
  }

  lemma {:induction false} GapLines(gap: seq<Piece>, s: string)
    requires GoodGap(gap)
    ensures StripLineComments(Laid(gap, true, true) + s) == Laid(gap, false, true) + StripLineComments(s)
  {
    hide StripLineComments, Shown, GoodPiece;
    if gap == [] {
      assert Laid(gap, true, true) + s == s;
    } else {
      assert gap[0] in gap;
      GapLines(gap[1..], s);
      PieceLines(gap[0], Laid(gap[1..], true, true) + s);
      Regroup(Shown(gap[0], true, true), Laid(gap[1..], true, true), s);
      Regroup(Shown(gap[0], false, true), Laid(gap[1..], false, true), StripLineComments(s));
    }
  }

  lemma Regroup(a: string, b: string, c: string)
    ensures a + b + c == a + (b + c)
  {
  }

  lemma PieceBlocks(p: Piece, s: string)
    requires GoodPiece(p)
    ensures StripBlockComments(Shown(p, false, true) + s) == Shown(p, false, false) + StripBlockComments(s)
  {
    hide StripBlockComments;
    match p
    case Blank(c) => BlockCat([c], s);
    case Line(text) => BlockCat("\n", s);
    case Block(text) => BlockGone(text, s);
  }

  lemma {:induction false} GapBlocks(gap: seq<Piece>, s: string)
    requires GoodGap(gap)
    ensures StripBlockComments(Laid(gap, false, true) + s) == Laid(gap, false, false) + StripBlockComments(s)
  {
    hide StripBlockComments, Shown, GoodPiece;
    if gap == [] {
      assert Laid(gap, false, true) + s == s;
    } else {
      assert gap[0] in gap;
      GapBlocks(gap[1..], s);
      PieceBlocks(gap[0], Laid(gap[1..], false, true) + s);
      Regroup(Shown(gap[0], false, true), Laid(gap[1..], false, true), s);
      Regroup(Shown(gap[0], false, false), Laid(gap[1..], false, false), StripBlockComments(s));
    }
  }

  lemma StyledGood(style: Style, t: Text)
    requires t.Then? && GoodText(t) && forall n: nat, w: string :: Lower(style.cased(n, w)) == Lower(w)
    ensures var l := Styled(style, t);
            (if l.Word? then WordLike(l.word) else GoodLexeme(l)) && TokenOf(l) == TokenOf(t.first)
    ensures RunsOn(Styled(style, t)) == RunsOn(t.first)
  {
    if t.first.Word? {
      var w := t.first.word;
      assert Lower(style.cased(Length(t), w)) == Lower(w);
      CasedWord(w, style.cased(Length(t), w));
    }
  }

  lemma NoHash(s: string)
    requires Clean(s)
    ensures '#' !in s
  {
  }

  lemma {:induction false} LinesRemoved(t: Text, style: Style)
    requires GoodText(t) && forall n: nat, p :: p in style.gap(n) ==> GoodPiece(p)
    requires forall n: nat, w: string :: Lower(style.cased(n, w)) == Lower(w)
    ensures StripLineComments(RenderWith(t, style, true, true)) == RenderWith(t, style, false, true)
  {
    hide Laid, Styled, Spell, Clean, GoodLexeme, GoodPiece, StripLineComments, WordLike;
    var gap := style.gap(Length(t));
    if t.End? {
      GapLines(gap, "");
      LineCat("", "");
      NothingLeft();
    } else {
      StyledGood(style, t);
      CleanSpell(Styled(style, t));
      NoHash(Spell(Styled(style, t)));
      LinesRemoved(t.rest, style);
      var rest := RenderWith(t.rest, style, true, true);
      GapLines(gap, Spell(Styled(style, t)) + rest);
      LineCat(Spell(Styled(style, t)), rest);
    }
  }

  lemma NothingLeft()
    ensures StripLineComments("") == "" && StripBlockComments("") == ""
  {
  }

  lemma {:induction false} BlocksRemoved(t: Text, style: Style)
    requires GoodText(t) && forall n: nat, p :: p in style.gap(n) ==> GoodPiece(p)
    requires forall n: nat, w: string :: Lower(style.cased(n, w)) == Lower(w)
    ensures StripBlockComments(RenderWith(t, style, false, true)) == RenderWith(t, style, false, false)
  {
    hide Laid, Styled, Spell, Clean, GoodLexeme, GoodPiece, StripBlockComments, WordLike;
    var gap := style.gap(Length(t));
    if t.End? {
      GapBlocks(gap, "");
      NothingLeft();
    } else {
      StyledGood(style, t);
      CleanSpell(Styled(style, t));
      BlocksRemoved(t.rest, style);
      var rest := RenderWith(t.rest, style, false, true);
      GapBlocks(gap, Spell(Styled(style, t)) + rest);
      BlockCat(Spell(Styled(style, t)), rest);
    }
  }

  /** However a text is laid out, its comments go and nothing else does. */
  lemma CommentsRemoved(t: Text, style: Style)
    requires GoodText(t) && GoodStyle(style, t)
    ensures StripComments(Render(t, style)) == RenderWith(t, style, false, false)
  {
    hide StripLineComments, StripBlockComments, RenderWith, Parted;
    LinesRemoved(t, style);
    BlocksRemoved(t, style);
  }

  // ----- reading one lexeme back -----

  lemma {:induction false} NumberRunAll(a: string, b: string)
    requires forall i :: 0 <= i < |a| ==> IsNumberChar(a[i])
    requires b != "" ==> !IsNumberChar(b[0])
    ensures NumberRun(a + b) == |a|
  {
    if a != "" {
      assert (a + b)[1..] == a[1..] + b;
      NumberRunAll(a[1..], b);
    } else {
      assert a + b == b;
    }
  }

  lemma {:induction false} WordRunAll(a: string, b: string)
    requires forall i :: 0 <= i < |a| ==> IsWordChar(a[i])
    requires b != "" ==> !IsWordChar(b[0])
    ensures WordRun(a + b) == |a|
  {
    if a != "" {
      assert (a + b)[1..] == a[1..] + b;
      WordRunAll(a[1..], b);
    } else {
      assert a + b == b;
    }
  }

  lemma ReadMark(c: char, rest: string)
    requires Punctuation(c).Some?
    ensures NextToken([c] + rest) == Ok((Some(TokenOf(Mark(c))), rest))
    ensures !IsSpace(c)
  {
    assert ([c] + rest)[1..] == rest;
  }

  lemma ReadWordBack(w: string, rest: string)
    requires WordLike(w) && (rest != "" ==> !IsWordChar(rest[0]))
    ensures NextToken(w + rest) == Ok((Some(WordToken(w)), rest))
    ensures !IsSpace(w[0])
  {
    hide WordToken;
    var s := w + rest;
    assert s[0] == w[0];
    WordRunAll(w, rest);
    assert s[..|w|] == w && s[|w|..] == rest;
  }

  lemma ReadQuotedBack(v: string, rest: string)
    requires Printable(v)
    ensures NextToken("\"" + Escape(v) + "\"" + rest) == Ok((Some(Token(TString, v)), rest))
  {
    hide Unescape, Escape, ScanString;
    var s, e := "\"" + Escape(v) + "\"" + rest, Escape(v);
    assert s[1..] == e + "\"" + rest && s[0] == '"';
    ScanEscaped(v, rest, 0);
    UnescapeEscape(v);
    assert s[1..][..|e|] == e && s[1..][|e| + 1..] == rest;
  }

  lemma ReadNumBack(n: nat, unit: string, rest: string)
    requires GoodLexeme(Num(n, unit)) && (rest != "" ==> !IsNumberChar(rest[0]))
    ensures NextToken(Decimal(n) + unit + rest) == Ok((Some(Token(TNumber, Decimal(n) + unit)), rest))
    ensures !IsSpace((Decimal(n) + unit)[0])
  {
    var d := Decimal(n) + unit;
    assert IsDigit(Decimal(n)[0]);
    NumberRunAll(d, rest);
    var s := d + rest;
    assert s[..|d|] == d && s[|d|..] == rest && s[0] == d[0];
  }

  predicate Apart(l: Lexeme, rest: string) {
    RunsOn(l) && rest != "" ==> !IsWordChar(rest[0])
  }

  lemma ReadBack(l: Lexeme, rest: string)
    requires (if l.Word? then WordLike(l.word) else GoodLexeme(l)) && Apart(l, rest)
    ensures NextToken(Spell(l) + rest) == Ok((Some(TokenOf(l)), rest))
    ensures Spell(l) != "" && !IsSpace(Spell(l)[0])
  {
    hide NextToken;
    match l
    case Mark(c) => ReadMark(c, rest);
    case Word(w) => ReadWordBack(w, rest);
    case Quoted(v) => ReadQuotedBack(v, rest);
    case Num(n, unit) => ReadNumBack(n, unit, rest);
  }

  // ----- reading a text back -----

  lemma {:induction false} GapBlank(gap: seq<Piece>)
    requires GoodGap(gap)
    ensures forall i :: 0 <= i < |Laid(gap, false, false)| ==> IsSpace(Laid(gap, false, false)[i])
  {
    if gap != [] {
      assert gap[0] in gap && GoodPiece(gap[0]);
      GapBlank(gap[1..]);
    }
  }

  lemma {:induction false} TrimGap(gap: string, s: string)
    requires forall i :: 0 <= i < |gap| ==> IsSpace(gap[i])
    requires s != "" ==> !IsSpace(s[0])
    ensures TrimLeft(gap + s) == s
  {
    if gap == "" {
      assert gap + s == s;
    } else {
      assert (gap + s)[1..] == gap[1..] + s && (gap + s)[0] == gap[0];
      TrimGap(gap[1..], s);
    }
  }

  /** What follows a word or a number does not go on with it. */
  lemma RestApart(t: Text, style: Style)
    requires t.Then? && GoodText(t) && GoodStyle(style, t)
    ensures Apart(t.first, RenderWith(t.rest, style, false, false))
  {
    var rest := t.rest;
    var gap := Laid(style.gap(Length(rest)), false, false);
    GapBlank(style.gap(Length(rest)));
    if RunsOn(t.first) {
      if gap != "" {
        assert RenderWith(rest, style, false, false)[0] == gap[0];
      } else if rest.Then? {
        assert rest.first.Mark? || rest.first.Quoted?;
        assert RenderWith(rest, style, false, false)[0] == Spell(rest.first)[0];
      }
    }
  }

  lemma PartedEnd(style: Style)
    ensures Parted(style, End)
  {
  }

  lemma StyleInside(style: Style, t: Text)
    requires t.Then? && GoodText(t) && GoodStyle(style, t)
    ensures GoodStyle(style, t.rest) && GoodText(t.rest)
  {
    if t.rest.Then? { assert Parted(style, t.rest); } else { assert t.rest == End; PartedEnd(style); }
  }

  lemma {:induction false} LexRender(t: Text, style: Style, count: nat, iterations: nat, maxIterations: nat)
    requires GoodText(t) && GoodStyle(style, t)
    requires count + Length(t) < MAX_TOKENS
    requires iterations + |RenderWith(t, style, false, false)| <= maxIterations
    ensures Lex(RenderWith(t, style, false, false), count, iterations, maxIterations) == Ok(TokensOf(t))
    decreases t
  {
    hide Lex, NextToken, Spell, TokenOf, Laid, Styled, GoodLexeme, WordLike, GoodStyle;
    var s := RenderWith(t, style, false, false);
    var gap := Laid(style.gap(Length(t)), false, false);
    LexStop(s, count, iterations, maxIterations);
    GapsGood(style, t);
    GapBlank(style.gap(Length(t)));
    if t.End? {
      TrimGap(gap, "");
    } else {
      var l, tail := Styled(style, t), RenderWith(t.rest, style, false, false);
      StyledGood(style, t);
      RestApart(t, style);
      StyleInside(style, t);
      ReadBack(l, tail);
      TrimGap(gap, Spell(l) + tail);
      assert s == gap + (Spell(l) + tail);
      LexRound(s, count, iterations, maxIterations, Spell(l) + tail, Some(TokenOf(l)), tail);
      LexRender(t.rest, style, count + 1, iterations + 1, maxIterations);
    }
  }

  lemma GapsGood(style: Style, t: Text)
    requires GoodStyle(style, t)
    ensures GoodGap(style.gap(Length(t)))
    ensures forall n: nat, w: string :: Lower(style.cased(n, w)) == Lower(w)
  {
  }

  /** The tokenizer reads a text back as the tokens of its lexemes, however it is laid out: with any
      blanks and comments between the lexemes, and its words in any case. */
  lemma TokenizeRender(t: Text, style: Style)
    requires GoodText(t) && GoodStyle(style, t) && Length(t) < MAX_TOKENS
    ensures Tokenize(Render(t, style)) == Ok(TokensOf(t))
  {
    hide Lex, Render, RenderWith, GoodStyle;
    CommentsRemoved(t, style);
    LexRender(t, style, 0, 0, |RenderWith(t, style, false, false)| + 1000);
  }
}
