/** Addresses and the judging of delivery errors (internal/smtp/delivery/delivery.go,
    internal/smtp/delivery/bounce.go). */
module DeliveryErrors {
  import opened Wrappers
  import opened Strings

  /** The part after the first at sign, in lower case. */
  function ExtractDomain(email: string): string {
    var at := Index(email, "@");
    if at.None? then "" else Lower(email[at.value + 1..])
  }

  predicate ShouldBounce(sender: string) {
    && sender != ""
    && !HasPrefix(Lower(sender), "postmaster@") && !HasPrefix(Lower(sender), "mailer-daemon@")
    && !HasPrefix(Lower(sender), "noreply@") && !HasPrefix(Lower(sender), "no-reply@")
  }

  /** The domain of an address put together from its parts. */
  lemma DomainOf(local: string, domain: string)
    requires '@' !in local
    ensures ExtractDomain(local + "@" + domain) == Lower(domain)
  {
    FirstOf(local, '@', domain);
    assert (local + "@" + domain)[|local| + 1..] == domain;
  }

  /** Senders of machines get no bounce, in any case and whatever follows; every other sender does. */
  const SILENT := ["postmaster@", "mailer-daemon@", "noreply@", "no-reply@"]

  lemma BouncesExactly(sender: string)
    ensures ShouldBounce(sender) <==> sender != "" && forall k :: 0 <= k <= |sender| ==> Lower(sender[..k]) !in SILENT
  {
    hide Lower, HasPrefix;
    forall p | p in SILENT ensures HasPrefix(Lower(sender), p) <==> exists k :: 0 <= k <= |sender| && Lower(sender[..k]) == p {
      StartsWith(sender, p);
    }
    assert SILENT[0] in SILENT && SILENT[1] in SILENT && SILENT[2] in SILENT && SILENT[3] in SILENT;
  }

  lemma StartsWith(sender: string, p: string)
    ensures HasPrefix(Lower(sender), p) <==> exists k :: 0 <= k <= |sender| && Lower(sender[..k]) == p
  {
    if HasPrefix(Lower(sender), p) {
      assert Lower(sender[..|p|]) == p;
    }
  }

  datatype Sentinel = PermanentFailure | TemporaryFailure | AllMXFailed | MessageTooLarge | InvalidRecipient

  /** The text of an error and the sentinel errors it wraps. */
  datatype GoError = GoError(text: string, wraps: set<Sentinel>)

  const CODES: seq<string> := ["550", "551", "552", "553", "554"]

  predicate NamesCode(text: string) {
    exists i | 0 <= i < |CODES| :: Contains(text, CODES[i])
  }

  predicate IsPermanentError(err: GoError) {
    || Contains(err.text, "550") || Contains(err.text, "551") || Contains(err.text, "552")
    || Contains(err.text, "553") || Contains(err.text, "554")
    || PermanentFailure in err.wraps || InvalidRecipient in err.wraps || MessageTooLarge in err.wraps
  }

  const PERMANENT_TEXT := "permanent delivery failure"
  const TEMPORARY_TEXT := "temporary delivery failure"
  const ALL_FAILED_TEXT := "all MX servers failed"

  function ClassifyError(err: GoError): GoError {
    if HasPrefix(err.text, "5") || Contains(err.text, " 5")
    then GoError(PERMANENT_TEXT + ": " + err.text, {PermanentFailure})
    else GoError(TEMPORARY_TEXT + ": " + err.text, {TemporaryFailure})
  }

  /** The error after all hosts failed; the last error survives only as text. */
  function AllFailed(last: Option<GoError>): GoError {
    GoError(ALL_FAILED_TEXT + ": " + (if last.Some? then last.value.text else "<nil>"), {AllMXFailed})
  }

  /** A prefix without the first character of what is looked for does not add an occurrence. */
  lemma ContainsAfter(prefix: string, s: string, sub: string)
    requires sub != "" && sub[0] !in prefix
    ensures Contains(prefix + s, sub) <==> Contains(s, sub)
  {
    var t := prefix + s;
    assert forall i | 0 <= i < |prefix| :: t[i] == prefix[i] && prefix[i] in prefix;
    if Contains(t, sub) {
      var k :| 0 <= k <= |t| && HasPrefix(t[k..], sub);
      FirstMatched(t, sub, k);
      TailOf(prefix, s, k - |prefix|);
    }
    if Contains(s, sub) {
      var k :| 0 <= k <= |s| && HasPrefix(s[k..], sub);
      TailOf(prefix, s, k);
    }
  }

  lemma TailOf(prefix: string, s: string, k: nat)
    requires k <= |s|
    ensures (prefix + s)[|prefix| + k..] == s[k..]
  {
  }

  lemma FirstMatched(t: string, sub: string, k: nat)
    requires sub != "" && k <= |t| && HasPrefix(t[k..], sub)
    ensures k < |t| && t[k] == sub[0]
  {
    assert t[k..][0] == t[k];
  }

  lemma NamesCodeAfter(prefix: string, s: string)
    requires '5' !in prefix
    ensures NamesCode(prefix + s) <==> NamesCode(s)
  {
    hide Contains;
    forall i | 0 <= i < |CODES| ensures Contains(prefix + s, CODES[i]) <==> Contains(s, CODES[i]) {
      ContainsAfter(prefix, s, CODES[i]);
    }
  }

  lemma PermanentMeans(err: GoError)
    ensures IsPermanentError(err) <==>
            NamesCode(err.text) || PermanentFailure in err.wraps || InvalidRecipient in err.wraps || MessageTooLarge in err.wraps
  {
    hide Contains;
    assert CODES[0] == "550" && CODES[1] == "551" && CODES[2] == "552" && CODES[3] == "553" && CODES[4] == "554";
  }

  /** When every host failed temporarily the wrapped error is temporary too; it is permanent
      exactly when the text of the last error names one of the codes. */
  lemma AllFailedJudged(last: Option<GoError>)
    ensures IsPermanentError(AllFailed(last)) <==> last.Some? && NamesCode(last.value.text)
    ensures last.Some? && !IsPermanentError(last.value) ==> !IsPermanentError(AllFailed(last))
  {
    hide NamesCode, IsPermanentError;
    PermanentMeans(AllFailed(last));
    var text := if last.Some? then last.value.text else "<nil>";
    NamesCodeAfter(ALL_FAILED_TEXT + ": ", text);
    if last.None? {
      NoCodeWithoutFive("<nil>");
    } else {
      PermanentMeans(last.value);
    }
  }

  lemma NoCodeWithoutFive(s: string)
    requires '5' !in s
    ensures !NamesCode(s)
  {
    NamesCodeAfter(s, "");
    assert s + "" == s;
  }

  /** A classified error is judged permanent exactly when its text starts with a 5, has a 5 after
      a blank, or names one of the codes anywhere. */
  lemma ClassifiedJudged(err: GoError)
    ensures IsPermanentError(ClassifyError(err)) <==>
            HasPrefix(err.text, "5") || Contains(err.text, " 5") || NamesCode(err.text)
  {
    hide NamesCode, IsPermanentError, Contains;
    PermanentMeans(ClassifyError(err));
    NamesCodeAfter(TEMPORARY_TEXT + ": ", err.text);
  }

  /** A reply with a code of 5xx is permanent; one with 4xx can still be judged permanent by what
      its text happens to say. */
  lemma TemporaryReplyJudgedPermanent()
    ensures IsPermanentError(ClassifyError(GoError("450 see 1550", {})))
  {
    var text := "450 see 1550";
    assert text[9..] == "550" && HasPrefix(text[9..], "550");
    assert Contains(text, CODES[0]);
    ClassifiedJudged(GoError(text, {}));
  }
}
