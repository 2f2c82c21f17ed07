/** What the tests of a script decide, on messages and addresses put together from their parts. */
module SieveMeanings {
  import opened Wrappers
  import opened Strings
  import opened SieveSyntax
  import opened SieveConditions

  // ----- texts -----

  /** A header test without `contains` or `matches` compares whole values, whatever their case. */
  lemma IsMeans(value: string, pattern: string)
    ensures MatchValue("is", value, pattern) <==>
            |value| == |pattern| && forall i :: 0 <= i < |value| ==> LowerChar(value[i]) == LowerChar(pattern[i])
  {
    var v, p := Lower(value), Lower(pattern);
    assert v == p <==> |v| == |p| && forall i :: 0 <= i < |v| ==> v[i] == p[i];
    assert forall i | 0 <= i < |value| :: v[i] == LowerChar(value[i]);
    assert forall i | 0 <= i < |pattern| :: p[i] == LowerChar(pattern[i]);
  }

  /** The value is a text before, the pattern in some case, and a text after. */
  predicate Around(value: string, before: string, middle: string, after: string, pattern: string) {
    value == before + middle + after && Lower(middle) == Lower(pattern)
  }

  lemma ContainsMeans(value: string, pattern: string)
    ensures MatchValue("contains", value, pattern) <==>
            exists before, middle, after :: Around(value, before, middle, after, pattern)
  {
    if MatchValue("contains", value, pattern) {
      SplitAround(value, pattern);
    }
    if exists before, middle, after :: Around(value, before, middle, after, pattern) {
      var before, middle, after :| Around(value, before, middle, after, pattern);
      AroundMatches(value, before, middle, after, pattern);
    }
  }

  lemma SplitAround(value: string, pattern: string)
    requires Contains(Lower(value), Lower(pattern))
    ensures exists before, middle, after :: Around(value, before, middle, after, pattern)
  {
    hide Lower;
    var v, p := Lower(value), Lower(pattern);
    var k :| 0 <= k <= |v| && HasPrefix(v[k..], p);
    var m := k + |p|;
    LowerSlice(value, k, m);
    assert p == v[k..][..|p|] == v[k..m];
    Cut(value, k, m);
    assert Around(value, value[..k], value[k..m], value[m..], pattern);
  }

  lemma LowerSlice(s: string, k: nat, m: nat)
    requires k <= m <= |s|
    ensures Lower(s[k..m]) == Lower(s)[k..m]
  {
  }

  lemma Cut(s: string, k: nat, m: nat)
    requires k <= m <= |s|
    ensures s == s[..k] + s[k..m] + s[m..]
  {
  }

  lemma AroundMatches(value: string, before: string, middle: string, after: string, pattern: string)
    requires Around(value, before, middle, after, pattern)
    ensures Contains(Lower(value), Lower(pattern))
  {
    var v, p := Lower(value), Lower(pattern);
    assert v[|before|..][..|p|] == Lower(middle);
    assert HasPrefix(v[|before|..], p);
  }

  // ----- sizes -----

  /** A message of exactly the size is neither over nor under it; every other is one of the two. */
  lemma OverUnderExactly(size: int, msg: Message)
    ensures var over, under := Evaluate(SizeCondition(size, true), msg), Evaluate(SizeCondition(size, false), msg);
            && (msg.size == size <==> !over && !under) && !(over && under)
            && (over <==> !Evaluate(SizeCondition(size + 1, false), msg))
            && (msg.size == size + 1 ==> over) && (msg.size == size - 1 ==> under)
  {
  }

  // ----- headers -----

  /** Where the values of a name are found. */
  predicate LookupKey(headers: seq<(string, seq<string>)>, name: string, k: nat) {
    && k < |headers|
    && (|| (headers[k].0 == name && forall i :: 0 <= i < k ==> headers[i].0 != name)
        || (EqualFold(headers[k].0, name) && (forall i :: 0 <= i < |headers| ==> headers[i].0 != name)
            && forall i :: 0 <= i < k ==> !EqualFold(headers[i].0, name)))
  }

  /** A key with exactly the name wins, wherever it stands; else the first that differs only in case. */
  lemma LookupExactly(headers: seq<(string, seq<string>)>, name: string, k: nat)
    requires LookupKey(headers, name, k)
    ensures LookupHeader(headers, name) == Some(headers[k].1)
  {
    ExactMeans(headers, name);
    FoldedMeans(headers, name);
    if headers[k].0 == name {
      ExactFirst(headers, name, k);
    } else {
      FoldedFirst(headers, name, k);
    }
  }

  lemma LookupNone(headers: seq<(string, seq<string>)>, name: string)
    ensures LookupHeader(headers, name) == None <==> forall h :: h in headers ==> !EqualFold(h.0, name)
  {
    ExactMeans(headers, name);
    FoldedMeans(headers, name);
  }

  lemma {:induction false} ExactMeans(headers: seq<(string, seq<string>)>, name: string)
    ensures ExactHeader(headers, name) == None <==> forall h :: h in headers ==> h.0 != name
  {
    if headers != [] {
      ExactMeans(headers[1..], name);
      assert headers == [headers[0]] + headers[1..];
    }
  }

  lemma {:induction false} FoldedMeans(headers: seq<(string, seq<string>)>, name: string)
    ensures FoldedHeader(headers, name) == None <==> forall h :: h in headers ==> !EqualFold(h.0, name)
  {
    if headers != [] {
      FoldedMeans(headers[1..], name);
      assert headers == [headers[0]] + headers[1..];
    }
  }

  lemma {:induction false} ExactFirst(headers: seq<(string, seq<string>)>, name: string, k: nat)
    requires k < |headers| && headers[k].0 == name && forall i :: 0 <= i < k ==> headers[i].0 != name
    ensures ExactHeader(headers, name) == Some(headers[k].1)
  {
    if k > 0 {
      ExactFirst(headers[1..], name, k - 1);
    }
  }

  lemma {:induction false} FoldedFirst(headers: seq<(string, seq<string>)>, name: string, k: nat)
    requires k < |headers| && EqualFold(headers[k].0, name) && forall i :: 0 <= i < k ==> !EqualFold(headers[i].0, name)
    ensures FoldedHeader(headers, name) == Some(headers[k].1)
  {
    if k > 0 {
      FoldedFirst(headers[1..], name, k - 1);
    }
  }

  /** A test on a header other than from, to and subject holds if a value under the name matches. */
  lemma HeaderMatches(c: Condition, msg: Message, k: nat)
    requires c.HeaderCondition? && !c.isAddress && |c.headers| == 1 && Lower(c.headers[0]) !in ["from", "to", "subject"]
    requires LookupKey(msg.headers, c.headers[0], k)
    ensures Evaluate(c, msg) <==>
            exists v, p :: v in msg.headers[k].1 && p in c.values && MatchValue(c.matchType, v, p)
  {
    hide MatchValue, LookupHeader, Lower;
    var name := c.headers[0];
    LookupExactly(msg.headers, name, k);
    assert HeaderValues(c, msg, name) == msg.headers[k].1;
    assert Evaluate(c, msg) <==> AnyMatch(c.matchType, HeaderValues(c, msg, name), c.values);
  }

  /** An exists test wants a header of every name, in whatever case, and a sender, a recipient or a
      subject for those three. */
  lemma ExistsMatches(names: seq<string>, msg: Message)
    ensures Evaluate(ExistsCondition(names), msg) <==>
            forall n :: n in names ==>
              if Lower(n) == "from" then msg.from != ""
              else if Lower(n) == "to" then msg.to != []
              else if Lower(n) == "subject" then msg.subject != ""
              else exists h :: h in msg.headers && EqualFold(h.0, n)
  {
    hide LookupHeader, Lower, EqualFold;
    forall n | n in names ensures LookupHeader(msg.headers, n).Some? <==> exists h :: h in msg.headers && EqualFold(h.0, n) {
      LookupNone(msg.headers, n);
    }
  }

  /** A negated test holds exactly when the test does not, however deep. */
  lemma {:induction false} NotsAlternate(c: Condition, msg: Message)
    ensures c.NotCondition? && !c.inner.NilCondition? ==> (Evaluate(c, msg) <==> !Evaluate(c.inner, msg))
    ensures !Innermost(c).NilCondition? ==> (Evaluate(c, msg) <==> Evaluate(Innermost(c), msg) == (Nots(c) % 2 == 0))
  {
    if c.NotCondition? { NotsAlternate(c.inner, msg); }
  }

  function Innermost(c: Condition): Condition {
    if c.NotCondition? then Innermost(c.inner) else c
  }

  // ----- addresses -----

  predicate Bare(s: string) {
    s != "" && !IsSpace(s[0]) && !IsSpace(s[|s| - 1])
  }

  lemma TrimBare(s: string)
    requires Bare(s)
    ensures TrimSpace(s) == s
  {
  }

  lemma {:induction false} LastAt(local: string, domain: string)
    requires '@' !in domain
    ensures LastIndexOf(local + "@" + domain, '@') == Some(|local|)
    decreases |domain|
  {
    var s := local + "@" + domain;
    if domain != "" {
      LastAt(local, domain[..|domain| - 1]);
      assert s[|s| - 1] == domain[|domain| - 1];
      assert s[..|s| - 1] == local + "@" + domain[..|domain| - 1];
    }
  }

  lemma {:induction false} NoAt(s: string)
    requires '@' !in s
    ensures LastIndexOf(s, '@') == None
  {
    if s != "" { NoAt(s[..|s| - 1]); }
  }

  /** What stands before the last at sign and what after it. */
  function PartOf(local: string, domain: string, part: string): string {
    if part == "localpart" then local else if part == "domain" then domain else local + "@" + domain
  }

  lemma PartsOfAddress(local: string, domain: string, part: string)
    requires '@' !in domain && Bare(local + "@" + domain)
    ensures PartOfTrimmed(TrimSpace(local + "@" + domain), part) == PartOf(local, domain, part)
  {
    hide TrimSpace, LastIndexOf, Bare;
    var a := local + "@" + domain;
    TrimBare(a);
    LastAt(local, domain);
    assert a[..|local|] == local && a[|local| + 1..] == domain;
  }

  /** An address by itself. */
  lemma AddressAlone(local: string, domain: string, part: string)
    requires '@' !in domain && Bare(local + "@" + domain) && '<' !in local + domain
    ensures ExtractAddressPart(local + "@" + domain, part) == PartOf(local, domain, part)
  {
    hide TrimSpace, LastIndexOf, Bare, Index, PartOf;
    var a := local + "@" + domain;
    assert '<' !in a;
    NoneOf(a, '<');
    PartsOfAddress(local, domain, part);
  }

  /** An address between angle brackets, behind a name and before anything. */
  lemma AddressInBrackets(name: string, local: string, domain: string, after: string, part: string)
    requires '@' !in domain && Bare(local + "@" + domain) && '<' !in name && '>' !in name + local + domain
    ensures ExtractAddressPart(name + "<" + (local + "@" + domain) + ">" + after, part) == PartOf(local, domain, part)
  {
    hide TrimSpace, LastIndexOf, Bare, Index, PartOf;
    var a := local + "@" + domain;
    var s := name + "<" + a + ">" + after;
    BracketsFound(name, a, after);
    assert s[|name| + 1..|name| + 1 + |a|] == a;
    PartsOfAddress(local, domain, part);
  }

  lemma BracketsFound(name: string, a: string, after: string)
    requires '<' !in name && '>' !in name && '>' !in a
    ensures Index(name + "<" + a + ">" + after, "<") == Some(|name|)
    ensures Index(name + "<" + a + ">" + after, ">") == Some(|name| + 1 + |a|)
  {
    hide Index;
    var s := name + "<" + a + ">" + after;
    assert s == name + "<" + (a + ">" + after);
    FirstOf(name, '<', a + ">" + after);
    assert s == (name + "<" + a) + ">" + after;
    assert '>' !in name + "<" + a;
    FirstOf(name + "<" + a, '>', after);
  }

  /** Without an at sign every part is the whole. */
  lemma AddressWithoutAt(a: string, part: string)
    requires '@' !in a && '<' !in a && Bare(a)
    ensures ExtractAddressPart(a, part) == a
  {
    NoneOf(a, '<');
    TrimBare(a);
    NoAt(a);
  }

  /** A test on the sender, the recipients or the subject: the part of the address for an address
      test, the whole text otherwise; a subject is never taken apart. */
  lemma EnvelopeMatches(c: Condition, msg: Message)
    requires c.HeaderCondition? && |c.headers| == 1
    ensures var name := Lower(c.headers[0]);
            && (name == "subject" ==>
                  (Evaluate(c, msg) <==> exists p :: p in c.values && MatchValue(c.matchType, msg.subject, p)))
            && (name == "from" ==>
                  (Evaluate(c, msg) <==> exists p :: p in c.values && MatchValue(c.matchType, Compared(c, msg.from), p)))
            && (name == "to" ==>
                  (Evaluate(c, msg) <==>
                   exists a, p :: a in msg.to && p in c.values && MatchValue(c.matchType, Compared(c, a), p)))
  {
    hide MatchValue, ExtractAddressPart;
    var name := c.headers[0];
    assert Evaluate(c, msg) <==> AnyMatch(c.matchType, HeaderValues(c, msg, name), c.values);
    PartsEach(msg.to, c.addressPart);
    PartsEach([msg.from], c.addressPart);
    if Lower(name) == "to" { RecipientsMatch(c, msg); }
  }

  lemma RecipientsMatch(c: Condition, msg: Message)
    requires c.HeaderCondition? && |c.headers| == 1 && Lower(c.headers[0]) == "to"
    ensures AnyMatch(c.matchType, HeaderValues(c, msg, c.headers[0]), c.values) <==>
            exists a, p :: a in msg.to && p in c.values && MatchValue(c.matchType, Compared(c, a), p)
  {
    hide MatchValue, ExtractAddressPart;
    var found := HeaderValues(c, msg, c.headers[0]);
    PartsEach(msg.to, c.addressPart);
    assert |found| == |msg.to| && forall i | 0 <= i < |found| :: found[i] == Compared(c, msg.to[i]);
    if AnyMatch(c.matchType, found, c.values) {
      var v, p :| v in found && p in c.values && MatchValue(c.matchType, v, p);
      var i :| 0 <= i < |found| && found[i] == v;
      assert msg.to[i] in msg.to && MatchValue(c.matchType, Compared(c, msg.to[i]), p);
    }
    if exists a, p :: a in msg.to && p in c.values && MatchValue(c.matchType, Compared(c, a), p) {
      var a, p :| a in msg.to && p in c.values && MatchValue(c.matchType, Compared(c, a), p);
      var i :| 0 <= i < |msg.to| && msg.to[i] == a;
      assert found[i] in found;
    }
  }

  function Compared(c: Condition, address: string): string
    requires c.HeaderCondition?
  {
    if c.isAddress then ExtractAddressPart(address, c.addressPart) else address
  }

  lemma {:induction false} PartsEach(values: seq<string>, part: string)
    ensures forall i :: 0 <= i < |values| ==> AddressParts(values, part)[i] == ExtractAddressPart(values[i], part)
  {
    hide ExtractAddressPart;
    if values != [] { PartsEach(values[1..], part); }
  }
}
