/** The few functions of Go's strings and strconv packages the mail server uses.
    A char stands for one byte, and case folding is ASCII only. */
module Strings {
  import opened Wrappers

  function LowerChar(c: char): char {
    if 'A' <= c <= 'Z' then (c as int + 32) as char else c
  }

  function Lower(s: string): (r: string)
    ensures |r| == |s|
    ensures forall i :: 0 <= i < |s| ==> r[i] == LowerChar(s[i])
  {
    seq(|s|, i requires 0 <= i < |s| => LowerChar(s[i]))
  }

  predicate HasPrefix(s: string, prefix: string) {
    prefix <= s
  }

  predicate Contains(s: string, sub: string) {
    exists k :: 0 <= k <= |s| && HasPrefix(s[k..], sub)
  }

  /** Position of the first occurrence of sub in s. */
  function Index(s: string, sub: string): (r: Option<nat>)
    ensures r.Some? ==> r.value + |sub| <= |s| && HasPrefix(s[r.value..], sub)
    ensures r.Some? ==> forall k :: 0 <= k < r.value ==> !HasPrefix(s[k..], sub)
    ensures r.None? ==> !Contains(s, sub)
  {
    if HasPrefix(s, sub) then
      assert s[0..] == s;
      Some(0)
    else if s == "" then
      None
    else
      var rest := Index(s[1..], sub);
      assert forall k :: 1 <= k <= |s| ==> s[k..] == s[1..][k - 1..];
      assert s[0..] == s;
      if rest.None? then None else Some(rest.value + 1)
  }

  lemma {:induction false} FirstOf(before: string, c: char, after: string)
    requires c !in before
    ensures Index(before + [c] + after, [c]) == Some(|before|)
  {
    var s := before + [c] + after;
    if before == "" {
      assert s[0] == c;
    } else {
      assert s[0] == before[0] && before[0] in before;
      assert s[1..] == before[1..] + [c] + after;
      FirstOf(before[1..], c, after);
    }
  }

  lemma {:induction false} NoneOf(s: string, c: char)
    requires c !in s
    ensures Index(s, [c]) == None
  {
    if s != "" {
      assert s[0] in s;
      NoneOf(s[1..], c);
    }
  }

  /** strings.ReplaceAll: leftmost, non-overlapping. */
  function ReplaceAll(s: string, old_: string, new_: string): string
    requires old_ != ""
  {
    if s == "" then ""
    else if HasPrefix(s, old_) then new_ + ReplaceAll(s[|old_|..], old_, new_)
    else [s[0]] + ReplaceAll(s[1..], old_, new_)
  }

  lemma ReplaceFound(pat: string, tail: string, sub: string)
    requires pat != ""
    ensures ReplaceAll(pat + tail, pat, sub) == sub + ReplaceAll(tail, pat, sub)
  {
    assert (pat + tail)[..|pat|] == pat && (pat + tail)[|pat|..] == tail;
  }

  /** A character that starts no occurrence of the pair is copied. */
  lemma ReplaceCopies(c: char, tail: string, pat: string, sub: string)
    requires |pat| == 2 && (c != pat[0] || tail == "" || tail[0] != pat[1])
    ensures ReplaceAll([c] + tail, pat, sub) == [c] + ReplaceAll(tail, pat, sub)
  {
    assert ([c] + tail)[1..] == tail;
  }

  predicate IsSpace(c: char) {
    c == ' ' || c == '\t' || c == '\n' || c == '\r'
  }

  function TrimLeft(s: string): (r: string)
    ensures |r| <= |s|
  {
    if s != "" && IsSpace(s[0]) then TrimLeft(s[1..]) else s
  }

  function TrimRight(s: string): string
  {
    if s != "" && IsSpace(s[|s| - 1]) then TrimRight(s[..|s| - 1]) else s
  }

  function TrimSpace(s: string): string {
    TrimRight(TrimLeft(s))
  }

  // ----- decimal numbers -----

  predicate IsDigit(c: char) {
    '0' <= c <= '9'
  }

  function DigitValue(c: char): (d: nat)
    requires IsDigit(c)
    ensures d < 10
  {
    c as int - '0' as int
  }

  function DigitChar(d: nat): (c: char)
    requires d < 10
    ensures IsDigit(c) && DigitValue(c) == d
  {
    ('0' as int + d) as char
  }

  predicate AllDigits(s: string) {
    forall i :: 0 <= i < |s| ==> IsDigit(s[i])
  }

  function DigitsValue(s: string): nat
    requires AllDigits(s)
  {
    if s == "" then 0 else 10 * DigitsValue(s[..|s| - 1]) + DigitValue(s[|s| - 1])
  }

  function Decimal(n: nat): (s: string)
    ensures s != "" && AllDigits(s)
  {
    if n < 10 then [DigitChar(n)] else Decimal(n / 10) + [DigitChar(n % 10)]
  }

  lemma {:induction false} DecimalValue(n: nat)
    ensures DigitsValue(Decimal(n)) == n
  {
    if n < 10 {
      assert Decimal(n)[..0] == "";
    } else {
      DecimalValue(n / 10);
      assert Decimal(n)[..|Decimal(n)| - 1] == Decimal(n / 10);
    }
  }

  function Pow10(k: nat): (r: nat)
    ensures r >= 1
  {
    if k == 0 then 1 else 10 * Pow10(k - 1)
  }

  lemma {:induction false} DecimalLength(n: nat, k: nat)
    requires n < Pow10(k) && k >= 1
    ensures |Decimal(n)| <= k
  {
    if n >= 10 {
      DecimalLength(n / 10, k - 1);
    }
  }

  const MAX_INT64: int := 0x7fff_ffff_ffff_ffff

  /** strconv.ParseInt(s, 10, 64): an optional sign and at least one digit, within range. */
  function ParseInt64(s: string): Option<int>
  {
    var neg := s != "" && s[0] == '-';
    var digits := if s != "" && (s[0] == '-' || s[0] == '+') then s[1..] else s;
    if digits == "" || !AllDigits(digits) then None
    else
      var magnitude: int := DigitsValue(digits);
      var v := if neg then -magnitude else magnitude;
      if -MAX_INT64 - 1 <= v <= MAX_INT64 then Some(v) else None
  }

  lemma ParseDecimal(n: nat)
    requires n <= MAX_INT64
    ensures ParseInt64(Decimal(n)) == Some(n)
  {
    DecimalValue(n);
    assert IsDigit(Decimal(n)[0]);
  }
}
