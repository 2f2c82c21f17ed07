/** Evaluation of Sieve tests against a message (internal/sieve/conditions.go). */
module SieveConditions {
  import opened Wrappers
  import opened Strings
  import opened SieveSyntax
  import opened SieveGlob

  /** The headers come in the order in which the header map is iterated; no key occurs twice. */
  datatype Message = Message(from: string, to: seq<string>, subject: string,
                             headers: seq<(string, seq<string>)>, size: int)

  predicate EqualFold(a: string, b: string) {
    Lower(a) == Lower(b)
  }

  /** The values under exactly this name. */
  function ExactHeader(headers: seq<(string, seq<string>)>, name: string): Option<seq<string>> {
    if headers == [] then None
    else if headers[0].0 == name then Some(headers[0].1)
    else ExactHeader(headers[1..], name)
  }

  /** The values under the first name that differs only in case. */
  function FoldedHeader(headers: seq<(string, seq<string>)>, name: string): Option<seq<string>> {
    if headers == [] then None
    else if EqualFold(headers[0].0, name) then Some(headers[0].1)
    else FoldedHeader(headers[1..], name)
  }

  function LookupHeader(headers: seq<(string, seq<string>)>, name: string): Option<seq<string>> {
    if ExactHeader(headers, name).Some? then ExactHeader(headers, name) else FoldedHeader(headers, name)
  }

  function LastIndexOf(s: string, c: char): (r: Option<nat>)
    ensures r.Some? ==> r.value < |s| && s[r.value] == c
  {
    if s == "" then None
    else if s[|s| - 1] == c then Some(|s| - 1)
    else LastIndexOf(s[..|s| - 1], c)
  }

  /** extractAddressPart: the address inside angle brackets, or one half of it. */
  function ExtractAddressPart(addr: string, part: string): string
  {
    var open, close := Index(addr, "<"), Index(addr, ">");
    var bare := if open.Some? && close.Some? && close.value > open.value
                then addr[open.value + 1..close.value] else addr;
    PartOfTrimmed(TrimSpace(bare), part)
  }

  function PartOfTrimmed(a: string, part: string): string {
    match LastIndexOf(a, '@')
    case None => a
    case Some(at) =>
      if part == "localpart" then a[..at] else if part == "domain" then a[at + 1..] else a
  }

  function AddressParts(values: seq<string>, part: string): (r: seq<string>)
    ensures |r| == |values|
  {
    if values == [] then [] else [ExtractAddressPart(values[0], part)] + AddressParts(values[1..], part)
  }

  function HeaderValues(c: Condition, msg: Message, name: string): seq<string>
    requires c.HeaderCondition?
  {
    var n := Lower(name);
    if n == "from" then if c.isAddress then AddressParts([msg.from], c.addressPart) else [msg.from]
    else if n == "to" then if c.isAddress then AddressParts(msg.to, c.addressPart) else msg.to
    else if n == "subject" then [msg.subject]
    else match LookupHeader(msg.headers, name)
      case None => []
      case Some(values) => if c.isAddress then AddressParts(values, c.addressPart) else values
  }

  predicate MatchValue(matchType: string, value: string, pattern: string) {
    var v, p := Lower(value), Lower(pattern);
    if matchType == "contains" then Contains(v, p)
    else if matchType == "matches" then RegexMatch(GlobToRegex(p), v)
    else v == p
  }

  /** Some header value matches some test value. */
  predicate AnyMatch(matchType: string, found: seq<string>, values: seq<string>) {
    exists v, p :: v in found && p in values && MatchValue(matchType, v, p)
  }

  /** What `matches` means: the glob itself, case folded. */
  lemma MatchesMeansGlob(value: string, pattern: string)
    ensures MatchValue("matches", value, pattern) <==> GlobMatch(Lower(pattern), Lower(value))
  {
    GlobCompiles(Lower(pattern), Lower(value));
  }

  predicate HeaderExists(msg: Message, name: string) {
    var n := Lower(name);
    if n == "from" then msg.from != ""
    else if n == "to" then |msg.to| > 0
    else if n == "subject" then msg.subject != ""
    else LookupHeader(msg.headers, name).Some?
  }

  /** Evaluate. A nil inner test makes a negation true. */
  predicate Evaluate(c: Condition, msg: Message)
  {
    match c
    case NilCondition => true
    case TrueCondition => true
    case FalseCondition => false
    case NotCondition(inner) => inner.NilCondition? || !Evaluate(inner, msg)
    case HeaderCondition(headers, values, matchType, _, _, _) =>
      exists h :: h in headers && AnyMatch(matchType, HeaderValues(c, msg, h), values)
    case SizeCondition(size, over) => if over then msg.size > size else msg.size < size
    case ExistsCondition(names) => forall n :: n in names ==> HeaderExists(msg, n)
  }
}
