/** Vacation responses and the records that space them (internal/sieve/actions.go). Times are
    nanoseconds on a clock that never goes back; the database keeps whole seconds. */
module SieveVacation {
  import opened Wrappers
  import opened Strings
  import opened SieveSyntax
  import opened SieveConditions

  const SECOND: nat := 1_000_000_000
  const DAY: nat := 24 * 3600 * SECOND

  /** One row per user and normalised sender address. */
  type Key = (int, string)
  type Responses = map<Key, int>

  function SenderKey(user: int, sender: string): Key {
    (user, Lower(ExtractAddressPart(sender, "all")))
  }

  /** CURRENT_TIMESTAMP drops the fraction of the second. */
  function Truncate(now: int): (t: int)
    ensures t <= now < t + SECOND
  {
    now - now % SECOND
  }

  function Interval(days: int): int {
    (if days <= 0 then DEFAULT_VACATION_DAYS else days) * DAY
  }

  predicate MayRespond(responses: Responses, key: Key, days: int, now: int) {
    key in responses ==> now - responses[key] > Interval(days)
  }

  function Recorded(responses: Responses, key: Key, now: int): Responses {
    responses[key := Truncate(now)]
  }

  /** Rows older than the cutoff are deleted. */
  function Cleaned(responses: Responses, maxAge: int, now: int): Responses {
    map k | k in responses && responses[k] >= now - maxAge :: responses[k]
  }

  class VacationStore {
    var responses: Responses

    constructor ()
      ensures responses == map[]
    {
      responses := map[];
    }

    /** `fails` is a database error. The caller has already replaced non-positive days. */
    method ShouldRespond(user: int, sender: string, days: int, now: int, fails: bool) returns (r: Result<bool, ()>)
      requires days > 0
      ensures r == if fails then Err(()) else Ok(MayRespond(responses, SenderKey(user, sender), days, now))
    {
      if fails {
        return Err(());
      }
      var key := SenderKey(user, sender);
      if key !in responses {
        return Ok(true);
      }
      var minInterval := days * DAY;
      r := Ok(now - responses[key] > minInterval);
    }

    method RecordResponse(user: int, sender: string, now: int, fails: bool) returns (r: Result<(), ()>)
      modifies this
      ensures r.Err? <==> fails
      ensures responses == if fails then old(responses) else Recorded(old(responses), SenderKey(user, sender), now)
    {
      if fails {
        return Err(());
      }
      responses := responses[SenderKey(user, sender) := Truncate(now)];
      r := Ok(());
    }

    method CleanupOldResponses(maxAge: int, now: int)
      modifies this
      ensures responses == Cleaned(old(responses), maxAge, now)
    {
      var cutoff := now - maxAge;
      responses := map k | k in responses && !(responses[k] < cutoff) :: responses[k];
    }
  }

  // ----- runs -----

  /** A vacation action asking to respond at a time, or a cleanup. */
  datatype Event = Ask(key: Key, days: int, now: int) | Cleanup(maxAge: int, now: int)

  predicate InOrder(events: seq<Event>) {
    forall i, j :: 0 <= i < j < |events| ==> events[i].now <= events[j].now
  }

  function Step(records: Responses, e: Event): Responses {
    match e
    case Ask(key, days, now) => if MayRespond(records, key, days, now) then Recorded(records, key, now) else records
    case Cleanup(maxAge, now) => Cleaned(records, maxAge, now)
  }

  /** The records after a run. */
  function After(events: seq<Event>): Responses {
    if events == [] then map[] else Step(After(events[..|events| - 1]), events[|events| - 1])
  }

  /** The i-th event is a request that was granted. */
  predicate Granted(events: seq<Event>, i: nat)
    requires i < |events|
  {
    events[i].Ask? && MayRespond(After(events[..i]), events[i].key, events[i].days, events[i].now)
  }

  /** Cleanups keep rows at least as long as any vacation interval. */
  predicate PatientCleanups(events: seq<Event>, limit: int) {
    forall e :: e in events ==> if e.Cleanup? then e.maxAge >= limit else Interval(e.days) <= limit
  }

  /** A granted response is still on record, or a later one is, or it is older than the limit. */
  predicate Remembered(records: Responses, key: Key, time: int, limit: int, now: int) {
    if key in records then records[key] >= Truncate(time) else Truncate(time) < now - limit
  }

  lemma TruncateMonotone(a: int, b: int)
    requires a <= b
    ensures Truncate(a) <= Truncate(b)
  {
  }

  /** One event keeps a granted response remembered. */
  lemma RememberedStep(records: Responses, e: Event, key: Key, time: int, limit: int, now: int)
    requires Remembered(records, key, time, limit, now) && time <= now <= e.now
    requires if e.Cleanup? then e.maxAge >= limit else Interval(e.days) <= limit
    ensures Remembered(Step(records, e), key, time, limit, e.now)
  {
    hide Truncate, Interval;
    TruncateMonotone(time, e.now);
  }

  lemma Earlier(events: seq<Event>, i: nat, j: nat)
    requires InOrder(events) && i <= j < |events|
    ensures events[i].now <= events[j].now
  {
  }

  /** A run without its last events. */
  lemma Shorter(events: seq<Event>, n: nat, i: nat, limit: int)
    requires InOrder(events) && PatientCleanups(events, limit) && i < n <= |events|
    ensures InOrder(events[..n]) && PatientCleanups(events[..n], limit)
    ensures events[..n][i] == events[i] && (Granted(events[..n], i) <==> Granted(events, i))
  {
    hide MayRespond, Interval;
    assert events[..n][..i] == events[..i];
    assert forall e :: e in events[..n] ==> e in events;
  }

  lemma PatientAt(events: seq<Event>, limit: int, i: nat)
    requires PatientCleanups(events, limit) && i < |events|
    ensures if events[i].Cleanup? then events[i].maxAge >= limit else Interval(events[i].days) <= limit
  {
    assert events[i] in events;
  }

  lemma {:induction false} GrantRemembered(events: seq<Event>, i: nat, limit: int)
    requires InOrder(events) && PatientCleanups(events, limit)
    requires i < |events| && Granted(events, i)
    ensures Remembered(After(events), events[i].key, events[i].now, limit, events[|events| - 1].now)
  {
    hide Truncate, Interval, Step, Remembered, InOrder, PatientCleanups, Granted;
    var n := |events| - 1;
    if i < n {
      Shorter(events, n, i, limit);
      GrantedAsks(events, i);
      GrantRemembered(events[..n], i, limit);
      Earlier(events, i, n - 1);
      Earlier(events, n - 1, n);
      PatientAt(events, limit, n);
      RememberedStep(After(events[..n]), events[n], events[i].key, events[i].now, limit, events[n - 1].now);
    } else {
      GrantedAsks(events, i);
      GrantRecorded(After(events[..n]), events[i].key, events[i].days, events[i].now, limit);
    }
  }

  lemma GrantedAsks(events: seq<Event>, i: nat)
    requires i < |events| && Granted(events, i)
    ensures events[i].Ask? && MayRespond(After(events[..i]), events[i].key, events[i].days, events[i].now)
  {
  }

  lemma GrantRecorded(records: Responses, key: Key, days: int, now: int, limit: int)
    requires MayRespond(records, key, days, now)
    ensures Remembered(Step(records, Ask(key, days, now)), key, now, limit, now)
  {
  }

  /** Two responses granted to one user and sender are more than the later action's interval
      apart, counted from the whole second in which the earlier one was recorded. */
  lemma ResponsesSpaced(events: seq<Event>, i: nat, j: nat, limit: int)
    requires InOrder(events) && PatientCleanups(events, limit)
    requires i < j < |events| && events[i].Ask? && events[j].Ask? && events[i].key == events[j].key
    requires Granted(events, i) && Granted(events, j)
    ensures events[j].now - Truncate(events[i].now) > Interval(events[j].days)
    ensures events[j].now - events[i].now > Interval(events[j].days) - SECOND
  {
    hide Step, InOrder, PatientCleanups, Granted, Interval, Truncate;
    Shorter(events, j, i, limit);
    GrantRemembered(events[..j], i, limit);
    GrantedAsks(events, j);
    Earlier(events, j - 1, j);
    PatientAt(events, limit, j);
    Spaced(After(events[..j]), events[i].key, events[i].now, events[j].days, events[j].now, limit, events[j - 1].now);
  }

  lemma Spaced(records: Responses, key: Key, time: int, days: int, now: int, limit: int, before: int)
    requires Remembered(records, key, time, limit, before) && MayRespond(records, key, days, now)
    requires before <= now && Interval(days) <= limit
    ensures now - Truncate(time) > Interval(days) && now - time > Interval(days) - SECOND
  {
  }

  // ----- exactly when spacing fails -----

  lemma TwoAsks(key: Key, days: int, time: int, later: int)
    requires time <= later
    ensures var events := [Ask(key, days, time), Ask(key, days, later)];
            && InOrder(events) && Granted(events, 0)
            && (Granted(events, 1) <==> later - Truncate(time) > Interval(days))
  {
    hide Truncate, Interval;
    var events := [Ask(key, days, time), Ask(key, days, later)];
    assert events[..0] == [] && After(events[..0]) == map[];
    assert events[..1][..0] == [] && events[..1][0] == events[0];
    assert After(events[..1]) == Recorded(map[], key, time);
  }

  /** Every response granted at `time` is more than the interval of each later one before it. */
  ghost predicate SpacedFrom(time: int, limit: int) {
    forall events: seq<Event>, i: nat, j: nat ::
      InOrder(events) && PatientCleanups(events, limit) && i < j < |events|
      && Granted(events, i) && Granted(events, j) && events[i].key == events[j].key && events[i].now == time
      ==> events[j].now - time > Interval(events[j].days)
  }

  /** Counted from the response itself and not from its second, spacing holds exactly for the
      responses given at a whole second: the stored time has lost its fraction. (With a limit below
      one day no response is ever asked for.) */
  lemma SpacedFromExactly(time: int, limit: int)
    ensures SpacedFrom(time, limit) <==> time % SECOND == 0 || limit < DAY
  {
    if time % SECOND == 0 {
      forall events: seq<Event>, i: nat, j: nat |
        InOrder(events) && PatientCleanups(events, limit) && i < j < |events|
        && Granted(events, i) && Granted(events, j) && events[i].key == events[j].key && events[i].now == time
        ensures events[j].now - time > Interval(events[j].days)
      {
        ResponsesSpaced(events, i, j, limit);
      }
    } else if limit < DAY {
      forall events: seq<Event>, i: nat | PatientCleanups(events, limit) && i < |events| ensures events[i].Cleanup? {
        AtLeastADay(events[i]);
        PatientAt(events, limit, i);
      }
    } else {
      var later := Truncate(time) + DAY + 1;
      var events := [Ask((0, ""), 1, time), Ask((0, ""), 1, later)];
      TwoAsks((0, ""), 1, time, later);
      assert PatientCleanups(events, limit);
      assert events[0].key == events[1].key && events[0].now == time && events[1].now - time <= Interval(events[1].days);
      assert !SpacedFrom(time, limit);
    }
  }

  lemma AtLeastADay(e: Event)
    ensures e.Ask? ==> Interval(e.days) >= DAY
  {
  }

  /** A server that cleans up with one age while its scripts ask for intervals up to a longest. */
  predicate Policy(events: seq<Event>, maxAge: int, longest: int) {
    forall e :: e in events ==> if e.Cleanup? then e.maxAge == maxAge else Interval(e.days) <= longest
  }

  ghost predicate AlwaysSpaced(maxAge: int, longest: int) {
    forall events: seq<Event>, i: nat, j: nat ::
      InOrder(events) && Policy(events, maxAge, longest) && i < j < |events|
      && Granted(events, i) && Granted(events, j) && events[i].key == events[j].key
      ==> events[j].now - Truncate(events[i].now) > Interval(events[j].days)
  }

  /** A response, and the same again as soon as a cleanup with this age has dropped its row. */
  function AroundCleanup(key: Key, days: int, maxAge: int): seq<Event> {
    var late := if maxAge < 0 then 0 else maxAge + 1;
    [Ask(key, days, 0), Cleanup(maxAge, late), Ask(key, days, late)]
  }

  /** Every cleanup age short of an interval lets some sender have two responses within it. */
  lemma EarlyCleanupBreaksSpacing(key: Key, days: int, maxAge: int)
    requires maxAge < Interval(days)
    ensures var events := AroundCleanup(key, days, maxAge);
            && InOrder(events) && Granted(events, 0) && Granted(events, 2)
            && events[2].now - events[0].now <= Interval(days)
  {
    var events := AroundCleanup(key, days, maxAge);
    assert events[..0] == [] && After(events[..0]) == map[];
    assert events[..1][..0] == [] && events[..1][0] == events[0];
    assert After(events[..1]) == Recorded(map[], key, 0);
    assert events[..2][..1] == events[..1] && events[..2][1] == events[1];
    assert After(events[..2]) == Cleaned(After(events[..1]), maxAge, events[1].now);
    assert key !in After(events[..2]);
  }

  /** Responses are spaced in every run of such a server exactly when its cleanups keep rows for
      the longest interval in use. */
  lemma AlwaysSpacedExactly(maxAge: int, days: int)
    ensures AlwaysSpaced(maxAge, Interval(days)) <==> maxAge >= Interval(days)
  {
    hide InOrder, MayRespond;
    if maxAge >= Interval(days) {
      forall events: seq<Event>, i: nat, j: nat |
        InOrder(events) && Policy(events, maxAge, Interval(days)) && i < j < |events|
        && Granted(events, i) && Granted(events, j) && events[i].key == events[j].key
        ensures events[j].now - Truncate(events[i].now) > Interval(events[j].days)
      {
        GrantedAsks(events, i);
        GrantedAsks(events, j);
        ResponsesSpaced(events, i, j, maxAge);
      }
    } else {
      var events := AroundCleanup((0, ""), days, maxAge);
      EarlyCleanupBreaksSpacing((0, ""), days, maxAge);
      assert Policy(events, maxAge, Interval(days));
      assert events[0].key == events[2].key && Truncate(events[0].now) == 0;
      assert !AlwaysSpaced(maxAge, Interval(days));
    }
  }
}
