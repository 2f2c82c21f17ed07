/** Flags as comma-joined text, and the SQL patterns that query it
    (internal/storage/maildir/maildir.go). */
module MaildirFlags {
  import opened Wrappers
  import opened Strings

  type Flag = string

  const SEEN: Flag := "\\Seen"
  const ANSWERED: Flag := "\\Answered"
  const FLAGGED: Flag := "\\Flagged"
  const DELETED: Flag := "\\Deleted"
  const DRAFT: Flag := "\\Draft"
  const RECENT: Flag := "\\Recent"

  predicate IsSystem(f: Flag) {
    f == SEEN || f == ANSWERED || f == FLAGGED || f == DELETED || f == DRAFT || f == RECENT
  }

  // ----- encoding -----

  /** flagsToString. */
  function Join(flags: seq<Flag>): string {
    if flags == [] then "" else if |flags| == 1 then flags[0] else flags[0] + "," + Join(flags[1..])
  }

  /** strings.Split at commas. */
  function Split(s: string): (parts: seq<string>)
    ensures parts != []
  {
    var at := Index(s, ",");
    if at.None? then [s] else [s[..at.value]] + Split(s[at.value + 1..])
  }

  /** stringToFlags. */
  function Flags(s: string): seq<Flag> {
    if s == "" then [] else Split(s)
  }

  method FlagsToString(flags: seq<Flag>) returns (s: string)
    ensures s == Join(flags)
  {
    s := "";
    var i := |flags|;
    while i > 0
      invariant 0 <= i <= |flags|
      invariant s == Join(flags[i..])
    {
      i := i - 1;
      assert flags[i..][1..] == flags[i + 1..];
      s := if i + 1 == |flags| then flags[i] else flags[i] + "," + s;
    }
  }

  /** buildMaildirFlags: one letter for each flag that has one. */
  function Letter(f: Flag): string {
    if f == SEEN then "S" else if f == ANSWERED then "R" else if f == FLAGGED then "F"
    else if f == DELETED then "T" else if f == DRAFT then "D" else ""
  }

  function Suffix(flags: seq<Flag>): string {
    if flags == [] then "" else Suffix(flags[..|flags| - 1]) + Letter(flags[|flags| - 1])
  }

  lemma LetterUnique(f: Flag, g: Flag)
    requires Letter(f) != "" && Letter(f) == Letter(g)
    ensures f == g
  {
    assert Letter(f)[0] == Letter(g)[0];
  }

  lemma {:induction false} SuffixHas(flags: seq<Flag>, f: Flag, c: char)
    requires Letter(f) == [c]
    ensures c in Suffix(flags) <==> f in flags
  {
    if flags == [] {
    } else {
      hide Letter;
      var front, last := flags[..|flags| - 1], flags[|flags| - 1];
      SuffixHas(front, f, c);
      LetterSize(last);
      assert c in Letter(last) <==> Letter(last) == [c];
      if Letter(last) == [c] { LetterUnique(f, last); }
      assert flags == front + [last];
    }
  }

  lemma LetterSize(f: Flag)
    ensures |Letter(f)| <= 1
  {
  }

  /** The letters name the same set of flags as the list. */
  lemma SuffixDecodes(flags: seq<Flag>)
    ensures 'S' in Suffix(flags) <==> SEEN in flags
    ensures 'R' in Suffix(flags) <==> ANSWERED in flags
    ensures 'F' in Suffix(flags) <==> FLAGGED in flags
    ensures 'T' in Suffix(flags) <==> DELETED in flags
    ensures 'D' in Suffix(flags) <==> DRAFT in flags
  {
    hide Suffix;
    SuffixHas(flags, SEEN, 'S');
    SuffixHas(flags, ANSWERED, 'R');
    SuffixHas(flags, FLAGGED, 'F');
    SuffixHas(flags, DELETED, 'T');
    SuffixHas(flags, DRAFT, 'D');
  }

  // ----- decoding undoes encoding -----

  lemma {:induction false} NoComma(s: string)
    requires ',' !in s
    ensures Index(s, ",").None?
  {
    if s != "" {
      assert s[0] in s && s == [s[0]] + s[1..];
      NoComma(s[1..]);
    }
  }

  lemma {:induction false} CommaAfter(a: string, b: string)
    requires ',' !in a
    ensures Index(a + "," + b, ",") == Some(|a|)
  {
    if a == "" {
      assert a + "," + b == "," + b;
    } else {
      assert a[0] in a && a == [a[0]] + a[1..];
      CommaAfter(a[1..], b);
      var s := a + "," + b;
      assert s[0] == a[0] && !HasPrefix(s, ",") && s != "";
      assert s[1..] == a[1..] + "," + b;
    }
  }

  lemma SplitStep(a: string, b: string)
    requires ',' !in a
    ensures Split(a) == [a] && Split(a + "," + b) == [a] + Split(b)
  {
    NoComma(a);
    CommaAfter(a, b);
    var s := a + "," + b;
    assert s[..|a|] == a && s[|a| + 1..] == b;
  }

  lemma {:induction false} SplitJoin(flags: seq<Flag>)
    requires flags != [] && forall f :: f in flags ==> ',' !in f
    ensures Split(Join(flags)) == flags
  {
    hide Split;
    SplitStep(flags[0], Join(flags[1..]));
    if |flags| == 1 {
      assert flags == [flags[0]];
    } else {
      SplitJoin(flags[1..]);
      assert flags == [flags[0]] + flags[1..];
    }
  }

  function Commas(s: string): nat {
    if s == "" then 0 else Commas(s[1..]) + (if s[0] == ',' then 1 else 0)
  }

  lemma {:induction false} CommasCat(a: string, b: string)
    ensures Commas(a + b) == Commas(a) + Commas(b)
  {
    if a == "" {
      assert a + b == b;
    } else {
      assert (a + b)[1..] == a[1..] + b;
      CommasCat(a[1..], b);
    }
  }

  lemma {:induction false} NoCommas(s: string)
    ensures Commas(s) == 0 <==> ',' !in s
  {
    if s != "" {
      NoCommas(s[1..]);
      assert s == [s[0]] + s[1..];
    }
  }

  lemma NoCommaFound(s: string)
    requires Index(s, ",").None?
    ensures ',' !in s
  {
    forall k | 0 <= k < |s| ensures s[k] != ',' {
      assert !HasPrefix(s[k..], ",");
    }
  }

  lemma NoCommaBefore(s: string, n: nat)
    requires Index(s, ",") == Some(n)
    ensures ',' !in s[..n] && s[n..][0] == ','
  {
    forall k | 0 <= k < n ensures s[k] != ',' {
      assert !HasPrefix(s[k..], ",");
    }
  }

  lemma {:induction false} SplitSize(s: string)
    ensures |Split(s)| == Commas(s) + 1
    decreases |s|
  {
    var at := Index(s, ",");
    if at.None? {
      NoCommaFound(s);
      NoCommas(s);
    } else {
      NoCommaBefore(s, at.value);
      hide Index;
      var a, b := s[..at.value], s[at.value + 1..];
      SplitSize(b);
      assert s == a + ("," + b);
      CommasCat(a, "," + b);
      assert Commas("," + b) == Commas(b) + 1 by { assert ("," + b)[1..] == b; }
      NoCommas(a);
    }
  }

  lemma {:induction false} JoinCommas(flags: seq<Flag>)
    requires flags != []
    ensures Commas(Join(flags)) >= |flags| - 1
    ensures Commas(Join(flags)) == |flags| - 1 ==> forall f :: f in flags ==> ',' !in f
  {
    NoCommas(flags[0]);
    if |flags| > 1 {
      JoinCommas(flags[1..]);
      CommasCat(flags[0] + ",", Join(flags[1..]));
      CommasCat(flags[0], ",");
      assert Commas(",") == 1 by { assert ","[1..] == ""; }
      assert flags == [flags[0]] + flags[1..];
    }
  }

  /** Decoding gives the list back exactly when no flag has a comma and the list is not the one
      empty flag. */
  lemma FlagsRoundTrip(flags: seq<Flag>)
    ensures Flags(Join(flags)) == flags <==> (forall f :: f in flags ==> ',' !in f) && flags != [""]
  {
    if flags == [] {
    } else {
      JoinCommas(flags);
      SplitSize(Join(flags));
      if forall f :: f in flags ==> ',' !in f {
        SplitJoin(flags);
        if Join(flags) == "" { JoinEmpty(flags); }
      }
    }
  }

  lemma JoinEmpty(flags: seq<Flag>)
    requires flags != [] && Join(flags) == ""
    ensures flags == [""]
  {
  }

  // ----- LIKE -----

  /** SQL LIKE without an escape character: % any run, _ any one, letters in either case. */
  predicate Like(pattern: string, text: string)
    decreases |pattern| + |text|
  {
    if pattern == "" then text == ""
    else if pattern[0] == '%' then Like(pattern[1..], text) || (text != "" && Like(pattern, text[1..]))
    else
      && text != "" && (pattern[0] == '_' || LowerChar(pattern[0]) == LowerChar(text[0]))
      && Like(pattern[1..], text[1..])
  }

  predicate Plain(s: string) {
    '%' !in s && '_' !in s
  }

  lemma {:induction false} LikeRest(text: string)
    ensures Like("%", text)
  {
    assert "%"[1..] == "";
    if text != "" { LikeRest(text[1..]); }
  }

  lemma {:induction false} LikePrefix(sub: string, text: string)
    requires Plain(sub)
    ensures Like(sub + "%", text) <==> HasPrefix(Lower(text), Lower(sub))
  {
    if sub == "" {
      assert sub + "%" == "%";
      LikeRest(text);
    } else {
      assert (sub + "%")[1..] == sub[1..] + "%";
      if text != "" {
        LikePrefix(sub[1..], text[1..]);
        assert Lower(text) == [LowerChar(text[0])] + Lower(text[1..]);
        assert Lower(sub) == [LowerChar(sub[0])] + Lower(sub[1..]);
      }
    }
  }

  /** A pattern %X% without wildcards in X finds X anywhere, in either case. */
  lemma {:induction false} LikeContains(sub: string, text: string)
    requires Plain(sub)
    ensures Like("%" + sub + "%", text) <==> Contains(Lower(text), Lower(sub))
    decreases |text|
  {
    var p := "%" + sub + "%";
    assert p[1..] == sub + "%";
    LikePrefix(sub, text);
    assert Lower(text)[0..] == Lower(text);
    if text != "" {
      LikeContains(sub, text[1..]);
      assert Lower(text) == [LowerChar(text[0])] + Lower(text[1..]);
      ContainsTail(LowerChar(text[0]), Lower(text[1..]), Lower(sub));
    }
  }

  lemma ContainsTail(c: char, s: string, sub: string)
    ensures Contains([c] + s, sub) <==> HasPrefix([c] + s, sub) || Contains(s, sub)
  {
    var t := [c] + s;
    assert t[0..] == t;
    if Contains(t, sub) {
      var k :| 0 <= k <= |t| && HasPrefix(t[k..], sub);
      if k > 0 { assert t[k..] == s[k - 1..]; }
    }
    if Contains(s, sub) {
      var k :| 0 <= k <= |s| && HasPrefix(s[k..], sub);
      assert t[k + 1..] == s[k..];
    }
  }

  // ----- a query on the text is a query on the set -----

  lemma OccurrenceAt(s: string, k: nat, sub: string, j: nat)
    requires k <= |s| && HasPrefix(s[k..], sub) && k <= j < k + |sub|
    ensures j < |s| && s[j] in sub
  {
    assert s[k..][j - k] == sub[j - k];
  }

  lemma ContainsInPart(a: string, b: string, sub: string)
    requires Contains(a, sub) || Contains(b, sub)
    ensures Contains(a + "," + b, sub)
  {
    var s := a + "," + b;
    if Contains(a, sub) {
      var k :| 0 <= k <= |a| && HasPrefix(a[k..], sub);
      assert s[k..] == a[k..] + ("," + b);
      assert HasPrefix(s[k..], sub);
    } else {
      var k :| 0 <= k <= |b| && HasPrefix(b[k..], sub);
      assert s[|a| + 1 + k..] == b[k..];
    }
  }

  lemma ContainsJoined(a: string, b: string, sub: string)
    requires sub != "" && ',' !in sub
    ensures Contains(a + "," + b, sub) <==> Contains(a, sub) || Contains(b, sub)
  {
    var s := a + "," + b;
    if Contains(s, sub) {
      var k :| 0 <= k <= |s| && HasPrefix(s[k..], sub);
      if k <= |a| < k + |sub| {
        OccurrenceAt(s, k, sub, |a|);
      } else if k <= |a| {
        assert a[k..] == s[k..][..|a| - k];
        assert HasPrefix(a[k..], sub);
      } else {
        assert s[k..] == b[k - |a| - 1..];
      }
    }
    if Contains(a, sub) || Contains(b, sub) { ContainsInPart(a, b, sub); }
  }

  lemma LowerCat(a: string, b: string)
    ensures Lower(a + "," + b) == Lower(a) + "," + Lower(b)
  {
  }

  lemma LowerComma(s: string)
    ensures ',' in Lower(s) <==> ',' in s
  {
    forall i | 0 <= i < |s| ensures Lower(s)[i] == ',' <==> s[i] == ',' {
    }
  }

  /** A wildcard-free, comma-free text is found in the joined flags exactly when it is found in one
      of them, in either case. */
  lemma {:induction false} LikeFindsSubstring(flags: seq<Flag>, sub: string)
    requires Plain(sub) && sub != "" && ',' !in sub
    ensures Like("%" + sub + "%", Join(flags)) <==> exists f :: f in flags && Contains(Lower(f), Lower(sub))
  {
    hide Like, Contains, Lower;
    LikeContains(sub, Join(flags));
    if flags == [] {
      NothingInEmpty(sub);
    } else if |flags| == 1 {
      assert flags[0] in flags;
    } else {
      var rest := flags[1..];
      LikeFindsSubstring(rest, sub);
      LikeContains(sub, Join(rest));
      LowerCat(flags[0], Join(rest));
      LowerComma(sub);
      ContainsJoined(Lower(flags[0]), Lower(Join(rest)), Lower(sub));
      assert flags == [flags[0]] + rest && flags[0] in flags;
    }
  }

  lemma NothingInEmpty(sub: string)
    requires sub != ""
    ensures !Contains(Lower(""), Lower(sub))
  {
  }

  /** A flag the server may hold: a system flag, or a keyword that is neither empty nor has a
      backslash or a comma. */
  predicate Allowed(f: Flag) {
    IsSystem(f) || (f != "" && '\\' !in f && ',' !in f)
  }

  lemma LowerBackslash(f: string)
    requires '\\' !in f
    ensures '\\' !in Lower(f)
  {
  }

  lemma SystemFlagsApart(f: Flag, g: Flag)
    requires IsSystem(f) && IsSystem(g)
    ensures HasPrefix(Lower(g), Lower(f)) ==> f == g
  {
    if HasPrefix(Lower(g), Lower(f)) {
      assert Lower(g)[1] == Lower(f)[1] && Lower(g)[2] == Lower(f)[2];
    }
  }

  lemma FoundOnlyInItself(f: Flag, g: Flag)
    requires IsSystem(f) && Allowed(g)
    ensures Contains(Lower(g), Lower(f)) <==> f == g
  {
    assert Lower(f)[0] == '\\';
    assert Lower(g)[0..] == Lower(g);
    if Contains(Lower(g), Lower(f)) {
      var k :| 0 <= k <= |Lower(g)| && HasPrefix(Lower(g)[k..], Lower(f));
      assert Lower(g)[k] == Lower(g)[k..][0] == '\\';
      if IsSystem(g) {
        OneBackslash(g, k);
        SystemFlagsApart(f, g);
      } else {
        LowerBackslash(g);
      }
    }
  }

  lemma OneBackslash(g: Flag, k: nat)
    requires IsSystem(g) && k < |g| && Lower(g)[k] == '\\'
    ensures k == 0
  {
    assert LowerChar(g[k]) == '\\';
  }

  /** The queries for system flags on the joined text decide membership in the set of flags. */
  lemma LikeIsMembership(flags: seq<Flag>, f: Flag)
    requires IsSystem(f) && forall g :: g in flags ==> Allowed(g)
    ensures Like("%" + f + "%", Join(flags)) <==> f in flags
  {
    hide Like, Contains, Lower, Allowed;
    LikeFindsSubstring(flags, f);
    forall g | g in flags ensures Contains(Lower(g), Lower(f)) <==> f == g {
      FoundOnlyInItself(f, g);
    }
  }

  // ----- queries for keywords -----

  predicate AllAllowed(flags: seq<Flag>) {
    forall f :: f in flags ==> Allowed(f)
  }

  /** A pattern that starts as the text goes on where the text does; wildcards stand for themselves. */
  lemma {:induction false} LikeSame(a: string, p: string, text: string)
    requires Like(p, text)
    ensures Like(a + p, a + text)
  {
    if a == "" {
      assert a + p == p && a + text == text;
    } else {
      LikeSame(a[1..], p, text);
      assert (a + p)[1..] == a[1..] + p && (a + text)[1..] == a[1..] + text;
      if a[0] == '%' { LikeLater(a[1..] + p, [a[0]], a[1..] + text); }
    }
  }

  /** After a % any part of the text may be skipped. */
  lemma {:induction false} LikeLater(p: string, skipped: string, text: string)
    requires Like(p, text)
    ensures Like("%" + p, skipped + text)
  {
    assert ("%" + p)[1..] == p;
    if skipped == "" {
      assert skipped + text == text;
    } else {
      LikeLater(p, skipped[1..], text);
      assert (skipped + text)[1..] == skipped[1..] + text;
    }
  }

  lemma {:induction false} LikeFolded(p: string, text: string, other: string)
    requires Lower(text) == Lower(other)
    ensures Like(p, text) <==> Like(p, other)
    decreases |p| + |text|
  {
    assert |text| == |Lower(text)| && |other| == |Lower(other)|;
    if p != "" {
      if text != "" {
        assert LowerChar(text[0]) == Lower(text)[0] == LowerChar(other[0]);
        assert Lower(text)[1..] == Lower(text[1..]) && Lower(other)[1..] == Lower(other[1..]);
        LikeFolded(p[1..], text[1..], other[1..]);
        if p[0] == '%' { LikeFolded(p, text[1..], other[1..]); }
      }
      if p[0] == '%' { LikeFolded(p[1..], text, other); }
    }
  }

  /** Whatever its wildcards, a query finds a text that has it as a part, in either case. */
  lemma LikeContained(q: string, text: string)
    requires Contains(Lower(text), Lower(q))
    ensures Like("%" + q + "%", text)
  {
    var k :| 0 <= k <= |Lower(text)| && HasPrefix(Lower(text)[k..], Lower(q));
    var rest := text[k + |q|..];
    LowerAround(text, q, k);
    hide Like, Lower;
    LikeRest(rest);
    LikeSame(q, "%", rest);
    LikeLater(q + "%", text[..k], q + rest);
    assert "%" + (q + "%") == "%" + q + "%";
    LikeFolded("%" + q + "%", text[..k] + (q + rest), text);
  }

  lemma LowerAround(text: string, q: string, k: nat)
    requires k <= |text| && HasPrefix(Lower(text)[k..], Lower(q))
    ensures k + |q| <= |text| && Lower(text[..k] + (q + text[k + |q|..])) == Lower(text)
  {
    var rest := text[k + |q|..];
    assert Lower(text) == Lower(text[..k]) + Lower(q) + Lower(rest);
    LowerParts(text[..k], q, rest);
  }

  lemma LowerParts(a: string, b: string, c: string)
    ensures Lower(a + (b + c)) == Lower(a) + Lower(b) + Lower(c)
  {
  }

  lemma {:induction false} FlagInJoined(flags: seq<Flag>, f: Flag, sub: string)
    requires f in flags && Contains(Lower(f), sub)
    ensures Contains(Lower(Join(flags)), sub)
  {
    hide Contains, Lower;
    if |flags| > 1 {
      LowerCat(flags[0], Join(flags[1..]));
      if f != flags[0] {
        assert flags == [flags[0]] + flags[1..];
        FlagInJoined(flags[1..], f, sub);
      }
      ContainsInPart(Lower(flags[0]), Lower(Join(flags[1..])), sub);
    }
  }

  /** A query for a keyword finds every list with a flag that has the keyword as a part, whether or
      not the keyword itself is in the list. */
  lemma KeywordQueryFindsMore(flags: seq<Flag>, q: Flag, f: Flag)
    requires f in flags && Contains(Lower(f), Lower(q))
    ensures Like("%" + q + "%", Join(flags))
  {
    hide Contains, Lower, Like;
    FlagInJoined(flags, f, Lower(q));
    LikeContained(q, Join(flags));
  }

  /** On lists of allowed flags the query decides membership. */
  ghost predicate DecidesMembership(q: Flag) {
    forall flags: seq<Flag> :: AllAllowed(flags) ==> (Like("%" + q + "%", Join(flags)) <==> q in flags)
  }

  /** Queries decide membership for exactly the system flags. */
  lemma MembershipExactly(q: Flag)
    requires Allowed(q)
    ensures DecidesMembership(q) <==> IsSystem(q)
  {
    hide Like, Join;
    if IsSystem(q) {
      forall flags: seq<Flag> | AllAllowed(flags) ensures Like("%" + q + "%", Join(flags)) <==> q in flags {
        LikeIsMembership(flags, q);
      }
    } else {
      var f := q + "x";
      assert Lower(f)[0..] == Lower(f) && HasPrefix(Lower(f), Lower(q));
      KeywordQueryFindsMore([f], q, f);
      assert AllAllowed([f]) && |f| != |q|;
    }
  }

  /** On lists of allowed flags the query finds exactly those with a flag that has it as a part. */
  ghost predicate FindsParts(q: Flag) {
    forall flags: seq<Flag> ::
      AllAllowed(flags) ==> (Like("%" + q + "%", Join(flags)) <==> exists f :: f in flags && Contains(Lower(f), Lower(q)))
  }

  /** The text with another letter for each wildcard. */
  function Filled(q: string): (f: string)
    ensures |f| == |q|
    ensures forall i :: 0 <= i < |q| ==> f[i] == if q[i] == '%' || q[i] == '_' then 'z' else q[i]
  {
    seq(|q|, i requires 0 <= i < |q| => if q[i] == '%' || q[i] == '_' then 'z' else q[i])
  }

  lemma {:induction false} LikeFilled(q: string)
    ensures Like(q + "%", Filled(q))
  {
    if q == "" {
      assert q + "%" == "%";
      LikeRest("");
    } else {
      LikeFilled(q[1..]);
      assert (q + "%")[1..] == q[1..] + "%";
      assert Filled(q)[1..] == Filled(q[1..]);
      if q[0] == '%' {
        LikeLater(q[1..] + "%", "z", Filled(q[1..]));
        assert "%" + (q[1..] + "%") == q + "%" && "z" + Filled(q[1..]) == Filled(q);
      }
    }
  }

  lemma SameSizePart(s: string, sub: string)
    requires |s| == |sub|
    ensures Contains(s, sub) ==> s == sub
  {
  }

  /** Queries find exactly the flags they are a part of, in either case, if and only if they have no
      wildcard: one with a wildcard finds what is filled in for it. */
  lemma PartsExactly(q: Flag)
    requires Allowed(q)
    ensures FindsParts(q) <==> Plain(q)
  {
    hide Like, Join, Contains;
    if Plain(q) {
      forall flags: seq<Flag> | AllAllowed(flags)
        ensures Like("%" + q + "%", Join(flags)) <==> exists f :: f in flags && Contains(Lower(f), Lower(q))
      {
        LikeFindsSubstring(flags, q);
      }
    } else {
      var f := Filled(q);
      FilledFound(q);
      FilledApart(q);
      SameSizePart(Lower(f), Lower(q));
      assert AllAllowed([f]);
    }
  }

  lemma FilledFound(q: string)
    ensures Like("%" + q + "%", Join([Filled(q)]))
  {
    LikeFilled(q);
    LikeLater(q + "%", "", Filled(q));
    assert "%" + (q + "%") == "%" + q + "%" && "" + Filled(q) == Filled(q);
  }

  lemma SystemPlain(q: Flag)
    requires IsSystem(q)
    ensures Plain(q)
  {
  }

  lemma FilledApart(q: Flag)
    requires Allowed(q) && !Plain(q)
    ensures Lower(Filled(q)) != Lower(q) && Allowed(Filled(q))
  {
    if IsSystem(q) { SystemPlain(q); }
    hide IsSystem;
    var i :| 0 <= i < |q| && (q[i] == '%' || q[i] == '_');
    assert Lower(Filled(q))[i] == 'z' && Lower(q)[i] == q[i];
  }

  /** A wildcard even stands for the comma between two flags, neither of which is like the query. */
  lemma WildcardFindsAcross(a: string, b: string, x: string, y: string)
    requires '_' !in x + a && '_' !in b + y
    ensures Like("%" + (a + "_" + b) + "%", Join([x + a, b + y]))
    ensures forall f :: f in [x + a, b + y] ==> !Contains(Lower(f), Lower(a + "_" + b))
  {
    NoUnderscore(x + a, a, b);
    NoUnderscore(b + y, a, b);
    hide Contains, Lower;
    FoundAcross(a, b, x, y);
  }

  lemma FoundAcross(a: string, b: string, x: string, y: string)
    ensures Like("%" + (a + "_" + b) + "%", Join([x + a, b + y]))
  {
    LikeRest(y);
    LikeSame(b, "%", y);
    var p, text := "_" + (b + "%"), "," + (b + y);
    assert p[1..] == b + "%" && text[1..] == b + y;
    assert Like(p, text);
    LikeSame(a, p, text);
    LikeLater(a + p, x, a + text);
    assert "%" + (a + p) == "%" + (a + "_" + b) + "%";
    assert x + (a + text) == Join([x + a, b + y]);
  }

  lemma NoUnderscore(f: Flag, a: string, b: string)
    requires '_' !in f
    ensures !Contains(Lower(f), Lower(a + "_" + b))
  {
    LowerUnderscore(f);
    LowerUnderscore(a + "_" + b);
    PartHas(Lower(f), Lower(a + "_" + b), '_');
    assert (a + "_" + b)[|a|] == '_';
  }

  lemma LowerUnderscore(s: string)
    ensures '_' in Lower(s) <==> '_' in s
  {
    forall i | 0 <= i < |s| ensures Lower(s)[i] == '_' <==> s[i] == '_' {
    }
  }

  lemma PartHas(s: string, sub: string, c: char)
    ensures Contains(s, sub) && c in sub ==> c in s
  {
    if Contains(s, sub) && c in sub {
      var k :| 0 <= k <= |s| && HasPrefix(s[k..], sub);
      assert c in s[k..];
    }
  }
}
