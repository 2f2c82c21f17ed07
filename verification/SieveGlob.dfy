/** Glob patterns compiled to regular-expression text (internal/sieve/conditions.go): quoting and
    two global replacements yield an expression that means exactly what the glob means. */
module SieveGlob {
  import opened Strings

  // ----- the code -----

  /** Characters regexp.QuoteMeta escapes. */
  predicate IsMeta(c: char) {
    || c == '\\' || c == '.' || c == '+' || c == '*' || c == '?' || c == '(' || c == ')' || c == '|'
    || c == '[' || c == ']' || c == '{' || c == '}' || c == '^' || c == '$'
  }

  function QuoteMeta(s: string): string {
    if s == "" then ""
    else (if IsMeta(s[0]) then ['\\', s[0]] else [s[0]]) + QuoteMeta(s[1..])
  }

  function GlobBody(pattern: string): string {
    ReplaceAll(ReplaceAll(QuoteMeta(pattern), "\\*", ".*"), "\\?", ".")
  }

  function GlobToRegex(pattern: string): string {
    "^" + GlobBody(pattern) + "$"
  }

  // ----- what the expression means -----

  /** The fragment of regular expressions globToRegex can write. */
  datatype Item = Lit(c: char) | Dot | DotStar

  /** Reads expression text between its anchors: an escaped character, a dot with or without a
      star, or a plain character. */
  function ReadRegex(re: string): seq<Item>
  {
    if re == "" then []
    else if re[0] == '\\' && |re| > 1 then [Lit(re[1])] + ReadRegex(re[2..])
    else if re[0] == '.' && |re| > 1 && re[1] == '*' then [DotStar] + ReadRegex(re[2..])
    else if re[0] == '.' then [Dot] + ReadRegex(re[1..])
    else [Lit(re[0])] + ReadRegex(re[1..])
  }

  predicate NoNewline(s: string) {
    '\n' !in s
  }

  /** The items match all of s: a star takes some prefix free of newlines. */
  predicate Accepts(items: seq<Item>, s: string)
    decreases |items|
  {
    if items == [] then s == ""
    else match items[0]
      case Lit(c) => s != "" && s[0] == c && Accepts(items[1..], s[1..])
      case Dot => s != "" && s[0] != '\n' && Accepts(items[1..], s[1..])
      case DotStar => exists k :: 0 <= k <= |s| && NoNewline(s[..k]) && Accepts(items[1..], s[k..])
  }

  /** MatchString on an anchored expression. */
  predicate RegexMatch(re: string, s: string) {
    && |re| >= 2 && re[0] == '^' && re[|re| - 1] == '$'
    && Accepts(ReadRegex(re[1..|re| - 1]), s)
  }

  // ----- what a glob means -----

  /** Direct matching: * is any run and ? any one character, neither across a newline. */
  predicate GlobMatch(p: string, s: string)
    decreases |p| + |s|
  {
    if p == "" then s == ""
    else if p[0] == '*' then
      GlobMatch(p[1..], s) || (s != "" && s[0] != '\n' && GlobMatch(p, s[1..]))
    else if p[0] == '?' then s != "" && s[0] != '\n' && GlobMatch(p[1..], s[1..])
    else s != "" && s[0] == p[0] && GlobMatch(p[1..], s[1..])
  }

  // ----- the replacements act character by character -----

  /** The text one pattern character becomes, `stars` and `marks` saying which replacements are done. */
  function Piece(c: char, stars: bool, marks: bool): string {
    if c == '*' && stars then ".*"
    else if c == '?' && marks then "."
    else if IsMeta(c) then ['\\', c]
    else [c]
  }

  function Pieces(p: string, stars: bool, marks: bool): string {
    if p == "" then "" else Piece(p[0], stars, marks) + Pieces(p[1..], stars, marks)
  }

  /** A piece never starts with the second character of a pair being replaced. */
  lemma PiecesStart(p: string, stars: bool, marks: bool)
    ensures Pieces(p, stars, marks) != "" ==> Pieces(p, stars, marks)[0] != '*' && Pieces(p, stars, marks)[0] != '?'
    ensures p == "" ==> Pieces(p, stars, marks) == ""
  {
  }

  lemma {:induction false} QuoteIsPieces(p: string)
    ensures QuoteMeta(p) == Pieces(p, false, false)
  {
    if p != "" { QuoteIsPieces(p[1..]); }
  }

  lemma ReplaceCopiesTwo(a: char, b: char, tail: string, pat: string, sub: string)
    requires |pat| == 2 && b != pat[1] && (tail == "" || tail[0] != pat[1])
    ensures ReplaceAll([a, b] + tail, pat, sub) == [a, b] + ReplaceAll(tail, pat, sub)
  {
    hide ReplaceAll;
    ReplaceCopies(b, tail, pat, sub);
    ReplaceCopies(a, [b] + tail, pat, sub);
    assert [a, b] + tail == [a] + ([b] + tail);
    assert [a, b] + ReplaceAll(tail, pat, sub) == [a] + ([b] + ReplaceAll(tail, pat, sub));
  }

  lemma {:induction false} ReplaceStars(p: string)
    ensures ReplaceAll(Pieces(p, false, false), "\\*", ".*") == Pieces(p, true, false)
  {
    if p != "" {
      hide ReplaceAll, IsMeta;
      var c, tail := p[0], Pieces(p[1..], false, false);
      ReplaceStars(p[1..]);
      PiecesStart(p[1..], false, false);
      if c == '*' {
        assert IsMeta('*') by { StarAndMarkAreMeta(); }
        ReplaceFound("\\*", tail, ".*");
      } else if IsMeta(c) {
        ReplaceCopiesTwo('\\', c, tail, "\\*", ".*");
      } else {
        BackslashIsMeta();
        ReplaceCopies(c, tail, "\\*", ".*");
      }
    }
  }

  lemma StarAndMarkAreMeta()
    ensures IsMeta('*') && IsMeta('?')
  {
  }

  lemma BackslashIsMeta()
    ensures IsMeta('\\')
  {
  }

  lemma {:induction false} ReplaceMarks(p: string)
    ensures ReplaceAll(Pieces(p, true, false), "\\?", ".") == Pieces(p, true, true)
  {
    if p != "" {
      hide ReplaceAll, IsMeta;
      var c, tail := p[0], Pieces(p[1..], true, false);
      ReplaceMarks(p[1..]);
      PiecesStart(p[1..], true, false);
      if c == '?' {
        StarAndMarkAreMeta();
        ReplaceFound("\\?", tail, ".");
      } else if c == '*' {
        ReplaceCopiesTwo('.', '*', tail, "\\?", ".");
      } else if IsMeta(c) {
        ReplaceCopiesTwo('\\', c, tail, "\\?", ".");
      } else {
        BackslashIsMeta();
        ReplaceCopies(c, tail, "\\?", ".");
      }
    }
  }

  /** Quoting and two global replacements translate the pattern one character at a time. */
  lemma GlobBodyByCharacter(p: string)
    ensures GlobBody(p) == Pieces(p, true, true)
  {
    QuoteIsPieces(p);
    ReplaceStars(p);
    ReplaceMarks(p);
  }

  // ----- reading the expression back -----

  function ItemOf(c: char): Item {
    if c == '*' then DotStar else if c == '?' then Dot else Lit(c)
  }

  function Items(p: string): seq<Item> {
    if p == "" then [] else [ItemOf(p[0])] + Items(p[1..])
  }

  lemma {:induction false} ReadPieces(p: string)
    ensures ReadRegex(Pieces(p, true, true)) == Items(p)
  {
    if p != "" {
      var re, tail := Pieces(p, true, true), Pieces(p[1..], true, true);
      ReadPieces(p[1..]);
      PiecesStart(p[1..], true, true);
      if p[0] == '*' || (IsMeta(p[0]) && p[0] != '?') {
        assert re[2..] == tail;
      } else {
        assert re[1..] == tail;
      }
    }
  }

  // ----- both matchers agree -----

  /** A star may take nothing, or one more character. */
  lemma StarGrows(items: seq<Item>, s: string)
    requires items != [] && items[0] == DotStar
    ensures Accepts(items[1..], s) ==> Accepts(items, s)
    ensures s != "" && s[0] != '\n' && Accepts(items, s[1..]) ==> Accepts(items, s)
  {
    if Accepts(items[1..], s) {
      assert s[0..] == s && NoNewline(s[..0]);
    }
    if s != "" && s[0] != '\n' && Accepts(items, s[1..]) {
      var k :| 0 <= k <= |s[1..]| && NoNewline(s[1..][..k]) && Accepts(items[1..], s[1..][k..]);
      assert s[..k + 1] == [s[0]] + s[1..][..k] && s[k + 1..] == s[1..][k..];
      assert NoNewline(s[..k + 1]);
    }
  }

  lemma StarShrinks(items: seq<Item>, s: string)
    requires items != [] && items[0] == DotStar && Accepts(items, s)
    ensures Accepts(items[1..], s) || (s != "" && s[0] != '\n' && Accepts(items, s[1..]))
  {
    var k :| 0 <= k <= |s| && NoNewline(s[..k]) && Accepts(items[1..], s[k..]);
    if k == 0 {
      assert s[0..] == s;
    } else {
      assert s[0] in s[..k];
      assert s[1..][..k - 1] == s[..k][1..] && s[1..][k - 1..] == s[k..];
      assert NoNewline(s[1..][..k - 1]);
    }
  }

  lemma {:induction false} ItemsMatchGlob(p: string, s: string)
    ensures Accepts(Items(p), s) <==> GlobMatch(p, s)
    decreases |p| + |s|
  {
    if p != "" {
      assert Items(p)[1..] == Items(p[1..]);
      if p[0] == '*' {
        StarGrows(Items(p), s);
        if Accepts(Items(p), s) { StarShrinks(Items(p), s); }
        ItemsMatchGlob(p[1..], s);
        if s != "" { ItemsMatchGlob(p, s[1..]); }
      } else if s != "" {
        ItemsMatchGlob(p[1..], s[1..]);
      }
    }
  }

  /** The compiled expression accepts a value exactly when the glob matches it. */
  lemma GlobCompiles(pattern: string, value: string)
    ensures RegexMatch(GlobToRegex(pattern), value) <==> GlobMatch(pattern, value)
  {
    var re := GlobToRegex(pattern);
    assert re[1..|re| - 1] == GlobBody(pattern);
    GlobBodyByCharacter(pattern);
    ReadPieces(pattern);
    ItemsMatchGlob(pattern, value);
  }
}
