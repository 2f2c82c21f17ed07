/** Runs of one circuit breaker under any interleaving of overlapping calls and resets. */
module BreakerRuns {
  import opened Wrappers
  import opened CircuitBreaker

  datatype Event =
    | Begin(id: int, at: int)
    | End(id: int, err: Option<string>, at: int)
    | Force(at: int)

  /** What happened, in order: a call was admitted or refused, a call finished, a reset closed a
      breaker that was not closed. */
  datatype Note =
    | Admit(id: int, at: int)
    | Refuse(id: int, at: int)
    | Finish(id: int, failed: bool, at: int)
    | Forced(at: int)

  /** `entry` is the length of the trace right after the latest change of state. */
  datatype World = World(breaker: Breaker, running: set<int>, trace: seq<Note>, entry: nat, clock: int)

  function Start(now: int): World {
    World(Breaker(Closed, 0, 0, 0, 0, now), {}, [], 0, now)
  }

  predicate Legal(w: World, e: Event) {
    && w.clock <= e.at
    && (e.Begin? ==> e.id !in w.running)
    && (e.End? ==> e.id in w.running)
  }

  function Noted(w: World, b: Breaker, running: set<int>, note: Note): World {
    World(b, running, w.trace + [note], if b.state == w.breaker.state then w.entry else |w.trace| + 1, note.at)
  }

  function Step(cfg: Config, w: World, e: Event): World {
    match e
    case Begin(id, at) =>
      var (b, admitted) := Before(cfg, w.breaker, at);
      if admitted then Noted(w, b, w.running + {id}, Admit(id, at)) else Noted(w, b, w.running, Refuse(id, at))
    case End(id, err, at) =>
      var failed := IsFailure(cfg, err);
      Noted(w, After(cfg, w.breaker, failed, at), w.running - {id}, Finish(id, failed, at))
    case Force(at) =>
      if w.breaker.state.Closed? then w.(clock := at)
      else Noted(w, Moved(w.breaker, Closed, at), w.running, Forced(at))
  }

  predicate LegalRun(cfg: Config, now: int, events: seq<Event>) {
    events == [] ||
    (LegalRun(cfg, now, events[..|events| - 1])
     && Legal(Reached(cfg, now, events[..|events| - 1]), events[|events| - 1]))
  }

  function Reached(cfg: Config, now: int, events: seq<Event>): World {
    if events == [] then Start(now)
    else Step(cfg, Reached(cfg, now, events[..|events| - 1]), events[|events| - 1])
  }

  // ----- readings of a trace -----

  /** Length of the run of failures at the end of the completions; a forced close ends it. */
  function TrailingFailures(trace: seq<Note>): nat {
    if trace == [] then 0
    else
      var rest, last := trace[..|trace| - 1], trace[|trace| - 1];
      match last
      case Finish(_, failed, _) => if failed then TrailingFailures(rest) + 1 else 0
      case Forced(_) => 0
      case Admit(_, _) => TrailingFailures(rest)
      case Refuse(_, _) => TrailingFailures(rest)
  }

  function Admissions(trace: seq<Note>): nat {
    if trace == [] then 0
    else Admissions(trace[..|trace| - 1]) + (if trace[|trace| - 1].Admit? then 1 else 0)
  }

  function Completions(trace: seq<Note>): nat {
    if trace == [] then 0
    else Completions(trace[..|trace| - 1]) + (if trace[|trace| - 1].Finish? then 1 else 0)
  }

  predicate IsFailed(n: Note) {
    n.Finish? && n.failed
  }

  /** The calls admitted in a stretch of the trace. */
  function AdmittedIds(trace: seq<Note>): set<int> {
    set n | n in trace && n.Admit? :: n.id
  }

  /** What happened since the latest change of state. */
  function Period(w: World): seq<Note>
    requires w.entry <= |w.trace|
  {
    w.trace[w.entry..]
  }

  /** The calls of the present half-open period: the probe that opened it and those admitted since. */
  function PeriodCalls(w: World): set<int>
    requires 1 <= w.entry <= |w.trace|
  {
    AdmittedIds(w.trace[w.entry - 1..])
  }

  // ----- the invariant -----

  predicate ClosedInv(cfg: Config, w: World) {
    && w.breaker.successCount == 0 && w.breaker.halfOpenCalls == 0
    && w.breaker.failureCount == TrailingFailures(w.trace) < cfg.failureThreshold
  }

  predicate OpenInv(w: World) {
    && w.breaker.failureCount == 0 && w.breaker.successCount == 0 && w.breaker.halfOpenCalls == 0
    && exists n :: n in w.trace && IsFailed(n)
  }

  predicate HalfOpenInv(cfg: Config, w: World) {
    && 1 <= w.entry <= |w.trace| && w.trace[w.entry - 1].Admit?
    && w.breaker.failureCount == 0
    && w.breaker.successCount == Completions(Period(w)) < cfg.successThreshold
    && (forall n :: n in Period(w) ==> !IsFailed(n))
    && w.breaker.halfOpenCalls == Admissions(Period(w)) - Completions(Period(w)) <= cfg.halfOpenMaxCalls
  }

  /** The breaker remembers the time of the latest failure of the whole trace. */
  predicate FailureInv(w: World) {
    && (forall n :: n in w.trace ==> n.at <= w.clock)
    && (forall n :: n in w.trace && IsFailed(n) ==> n.at <= w.breaker.lastFailureTime)
    && ((exists n :: n in w.trace && IsFailed(n))
        ==> exists n :: n in w.trace && IsFailed(n) && n.at == w.breaker.lastFailureTime)
  }

  predicate Inv(cfg: Config, w: World) {
    && w.entry <= |w.trace|
    && FailureInv(w)
    && match w.breaker.state
       case Closed => ClosedInv(cfg, w)
       case Open => OpenInv(w)
       case HalfOpen => HalfOpenInv(cfg, w)
  }

  lemma TrailingGrows(trace: seq<Note>, n: Note)
    ensures TrailingFailures(trace + [n]) ==
            if n.Finish? then (if n.failed then TrailingFailures(trace) + 1 else 0)
            else if n.Forced? then 0 else TrailingFailures(trace)
  {
    assert (trace + [n])[..|trace|] == trace;
  }

  lemma CountsGrow(trace: seq<Note>, n: Note)
    ensures Admissions(trace + [n]) == Admissions(trace) + (if n.Admit? then 1 else 0)
    ensures Completions(trace + [n]) == Completions(trace) + (if n.Finish? then 1 else 0)
  {
    assert (trace + [n])[..|trace|] == trace;
  }

  lemma FailureKept(cfg: Config, w: World, e: Event)
    requires Legal(w, e) && FailureInv(w)
    ensures FailureInv(Step(cfg, w, e))
  {
    var w' := Step(cfg, w, e);
    if w'.trace != w.trace {
      var n := w'.trace[|w.trace|];
      assert w'.trace == w.trace + [n];
      assert forall m :: m in w'.trace ==> m in w.trace || m == n;
      assert IsFailed(n) ==> n in w'.trace && w'.breaker.lastFailureTime == n.at;
      assert !IsFailed(n) ==> w'.breaker.lastFailureTime == w.breaker.lastFailureTime;
    }
  }

  lemma ClosedKept(cfg: Config, w: World, e: Event)
    requires Usable(cfg) && Legal(w, e) && Inv(cfg, w) && w.breaker.state.Closed?
    ensures Inv(cfg, Step(cfg, w, e))
  {
    hide TrailingFailures, Admissions, Completions, FailureInv;
    FailureKept(cfg, w, e);
    var w' := Step(cfg, w, e);
    if w'.trace != w.trace {
      var n := w'.trace[|w.trace|];
      TrailingGrows(w.trace, n);
      assert n in w'.trace;
    }
  }

  lemma OpenKept(cfg: Config, w: World, e: Event)
    requires Usable(cfg) && Legal(w, e) && Inv(cfg, w) && w.breaker.state.Open?
    ensures Inv(cfg, Step(cfg, w, e))
  {
    hide Admissions, Completions, FailureInv;
    FailureKept(cfg, w, e);
    var w' := Step(cfg, w, e);
    NothingCounted();
    assert forall n :: n in w.trace ==> n in w'.trace;
    assert w'.trace[|w'.trace|..] == [];
  }

  lemma HalfOpenKept(cfg: Config, w: World, e: Event)
    requires Usable(cfg) && Legal(w, e) && Inv(cfg, w) && w.breaker.state.HalfOpen?
    ensures Inv(cfg, Step(cfg, w, e))
  {
    hide TrailingFailures, Admissions, Completions, FailureInv;
    FailureKept(cfg, w, e);
    var w' := Step(cfg, w, e);
    var n := w'.trace[|w.trace|];
    assert w'.trace[w.entry..] == w.trace[w.entry..] + [n];
    CountsGrow(w.trace[w.entry..], n);
    TrailingGrows(w.trace, n);
    assert n in w'.trace;
  }

  lemma InvKept(cfg: Config, w: World, e: Event)
    requires Usable(cfg) && Legal(w, e) && Inv(cfg, w)
    ensures Inv(cfg, Step(cfg, w, e))
  {
    hide Inv, Step;
    match w.breaker.state
    case Closed => ClosedKept(cfg, w, e);
    case Open => OpenKept(cfg, w, e);
    case HalfOpen => HalfOpenKept(cfg, w, e);
  }

  lemma NothingCounted()
    ensures Admissions([]) == 0 && Completions([]) == 0
  {
  }

  lemma {:induction false} InvAlways(cfg: Config, now: int, events: seq<Event>)
    requires Usable(cfg) && LegalRun(cfg, now, events)
    ensures Inv(cfg, Reached(cfg, now, events))
  {
    if events == [] {
    } else {
      hide Step, Legal, Inv;
      InvAlways(cfg, now, events[..|events| - 1]);
      InvKept(cfg, Reached(cfg, now, events[..|events| - 1]), events[|events| - 1]);
    }
  }

  // ----- what every run guarantees -----

  lemma {:induction false} AdmittedCount(trace: seq<Note>)
    ensures |AdmittedIds(trace)| <= Admissions(trace)
  {
    if trace == [] {
    } else {
      var rest, last := trace[..|trace| - 1], trace[|trace| - 1];
      assert trace == rest + [last];
      AdmittedCount(rest);
      assert AdmittedIds(trace) == AdmittedIds(rest) + (if last.Admit? then {last.id} else {});
    }
  }

  lemma SubsetSize(a: set<int>, b: set<int>)
    requires a <= b
    ensures |a| <= |b|
  {
    assert b == a + (b - a);
  }

  /** In a half-open period the counter is what was admitted and counted less what completed, so
      the calls admitted in the whole period, the uncounted probe included, never exceed
      HalfOpenMaxCalls + SuccessThreshold, whatever calls are left over from before. */
  lemma HalfOpenBound(cfg: Config, now: int, events: seq<Event>)
    requires Usable(cfg) && LegalRun(cfg, now, events)
    requires Reached(cfg, now, events).breaker.state.HalfOpen?
    ensures var w := Reached(cfg, now, events);
            && 1 <= w.entry <= |w.trace|
            && w.breaker.halfOpenCalls == Admissions(Period(w)) - Completions(Period(w))
            && |PeriodCalls(w)| <= cfg.halfOpenMaxCalls + cfg.successThreshold
            && |PeriodCalls(w) * w.running| <= cfg.halfOpenMaxCalls + cfg.successThreshold
  {
    hide Reached, Admissions, Completions, FailureInv, AdmittedIds;
    InvAlways(cfg, now, events);
    var w := Reached(cfg, now, events);
    AdmittedCount(Period(w));
    ProbeAdded(w);
    SubsetSize(PeriodCalls(w) * w.running, PeriodCalls(w));
  }

  lemma ProbeAdded(w: World)
    requires 1 <= w.entry <= |w.trace| && w.trace[w.entry - 1].Admit?
    ensures |PeriodCalls(w)| <= |AdmittedIds(Period(w))| + 1
  {
    var probe := w.trace[w.entry - 1];
    assert w.trace[w.entry - 1..] == [probe] + Period(w);
    assert PeriodCalls(w) == {probe.id} + AdmittedIds(Period(w));
  }

  /** The counters are readings of the history: closed counts the failures since the latest
      success, half-open the successes since the probe, and no other counter is in use. */
  lemma HistoryRefined(cfg: Config, now: int, events: seq<Event>)
    requires Usable(cfg) && LegalRun(cfg, now, events)
    ensures var w := Reached(cfg, now, events); var b := w.breaker;
            match b.state
            case Closed =>
              && b.failureCount == TrailingFailures(w.trace) < cfg.failureThreshold
              && b.successCount == 0 && b.halfOpenCalls == 0
            case Open => b.failureCount == 0 && b.successCount == 0 && b.halfOpenCalls == 0
            case HalfOpen =>
              && b.failureCount == 0
              && w.entry <= |w.trace| && b.successCount == Completions(Period(w)) < cfg.successThreshold
              && forall n :: n in Period(w) ==> !IsFailed(n)
  {
    hide Reached, TrailingFailures, Completions, FailureInv;
    InvAlways(cfg, now, events);
  }

  /** Every failure of the whole history is at least the timeout old. */
  predicate Rested(cfg: Config, w: World, at: int) {
    forall n :: n in w.trace && IsFailed(n) ==> at - n.at >= cfg.timeout
  }

  /** A call is admitted exactly when the history allows it: always by a closed breaker, by an
      open one when it has rested, by a half-open one while fewer than HalfOpenMaxCalls counted
      admissions are unmatched by completions. */
  lemma AdmissionExact(cfg: Config, now: int, events: seq<Event>, at: int)
    requires Usable(cfg) && LegalRun(cfg, now, events)
    ensures var w := Reached(cfg, now, events);
            w.entry <= |w.trace|
            && (Before(cfg, w.breaker, at).1 <==>
                match w.breaker.state
                case Closed => true
                case Open => Rested(cfg, w, at)
                case HalfOpen => Admissions(Period(w)) < Completions(Period(w)) + cfg.halfOpenMaxCalls)
  {
    hide Reached, Admissions, Completions;
    InvAlways(cfg, now, events);
  }

  /** The state changes along the four documented edges, or by a reset, and exactly when the
      history says so. */
  lemma EdgesExact(cfg: Config, now: int, events: seq<Event>, e: Event)
    requires Usable(cfg) && LegalRun(cfg, now, events) && Legal(Reached(cfg, now, events), e)
    ensures var w := Reached(cfg, now, events); var w' := Step(cfg, w, e);
            var failed := e.End? && IsFailure(cfg, e.err);
            match w.breaker.state
            case Closed =>
              w'.breaker.state ==
              if failed && TrailingFailures(w.trace) + 1 == cfg.failureThreshold then Open else Closed
            case Open =>
              w'.breaker.state ==
              if e.Begin? && Rested(cfg, w, e.at) then HalfOpen else if e.Force? then Closed else Open
            case HalfOpen =>
              w.entry <= |w.trace| &&
              w'.breaker.state ==
              if failed then Open
              else if e.Force? || (e.End? && Completions(Period(w)) + 1 == cfg.successThreshold) then Closed
              else HalfOpen
  {
    hide Reached, TrailingFailures, Completions, FailureInv, Rested;
    InvAlways(cfg, now, events);
    if Reached(cfg, now, events).breaker.state.Open? {
      AdmissionExact(cfg, now, events, e.at);
    }
  }

  // ----- the bound is reached -----

  ghost predicate Reachable(cfg: Config, now: int, w: World) {
    exists events :: LegalRun(cfg, now, events) && Reached(cfg, now, events) == w
  }

  lemma StepReachable(cfg: Config, now: int, w: World, e: Event)
    requires Reachable(cfg, now, w) && Legal(w, e)
    ensures Reachable(cfg, now, Step(cfg, w, e))
  {
    var events :| LegalRun(cfg, now, events) && Reached(cfg, now, events) == w;
    var longer := events + [e];
    assert longer[..|longer| - 1] == events;
    assert LegalRun(cfg, now, longer) && Reached(cfg, now, longer) == Step(cfg, w, e);
  }

  function Ids(lo: int, hi: int): (s: set<int>)
    ensures forall i :: i in s <==> lo <= i < hi
    decreases hi - lo
  {
    if lo >= hi then {} else Ids(lo, hi - 1) + {hi - 1}
  }

  lemma {:induction false} IdsSize(lo: int, hi: int)
    requires lo <= hi
    ensures |Ids(lo, hi)| == hi - lo
    decreases hi - lo
  {
    if lo < hi {
      IdsSize(lo, hi - 1);
    }
  }

  lemma IdsShift(lo: int, hi: int)
    requires lo < hi
    ensures Ids(lo, hi) + {hi} == Ids(lo, hi + 1)
    ensures Ids(lo, hi) - {lo} + {hi} == Ids(lo + 1, hi + 1)
  {
  }

  /** A closed breaker with calls 0 .. n running. */
  lemma ManyRunning(cfg: Config, n: nat) returns (w: World)
    requires Usable(cfg)
    ensures Reachable(cfg, 0, w) && w.clock == 0
    ensures w.breaker == Breaker(Closed, 0, 0, 0, 0, 0) && w.running == Ids(0, n)
  {
    hide Reachable;
    w := Start(0);
    StartReachable(cfg);
    for i := 0 to n
      invariant Reachable(cfg, 0, w) && w.clock == 0
      invariant w.breaker == Breaker(Closed, 0, 0, 0, 0, 0) && w.running == Ids(0, i)
    {
      StepReachable(cfg, 0, w, Begin(i, 0));
      w := Step(cfg, w, Begin(i, 0));
      assert Ids(0, i) + {i} == Ids(0, i + 1);
    }
  }

  lemma StartReachable(cfg: Config)
    ensures Reachable(cfg, 0, Start(0))
  {
    assert LegalRun(cfg, 0, []) && Reached(cfg, 0, []) == Start(0);
  }

  /** The first calls fail and open the breaker, SuccessThreshold - 1 are left running, and a
      probe follows. */
  lemma ProbeAfterFailures(cfg: Config, err: string) returns (w: World)
    requires Usable(cfg) && IsFailure(cfg, Some(err))
    ensures var n := cfg.failureThreshold + cfg.successThreshold - 1;
            && Reachable(cfg, 0, w) && w.clock == cfg.timeout
            && w.breaker == Breaker(HalfOpen, 0, 0, 0, 0, cfg.timeout)
            && w.running == Ids(cfg.failureThreshold, n + 1)
            && w.entry == |w.trace| >= 1 && w.trace[w.entry - 1] == Admit(n, cfg.timeout)
  {
    hide Reachable;
    var n := cfg.failureThreshold + cfg.successThreshold - 1;
    w := ManyRunning(cfg, n);
    for i := 0 to cfg.failureThreshold
      invariant Reachable(cfg, 0, w) && w.clock == 0 && w.running == Ids(i, n)
      invariant w.breaker == if i < cfg.failureThreshold then Breaker(Closed, i, 0, 0, 0, 0)
                             else Breaker(Open, 0, 0, 0, 0, 0)
    {
      StepReachable(cfg, 0, w, End(i, Some(err), 0));
      w := Step(cfg, w, End(i, Some(err), 0));
      assert Ids(i, n) - {i} == Ids(i + 1, n);
    }
    StepReachable(cfg, 0, w, Begin(n, cfg.timeout));
    w := Step(cfg, w, Begin(n, cfg.timeout));
    assert Ids(cfg.failureThreshold, n) + {n} == Ids(cfg.failureThreshold, n + 1);
  }

  /** In a half-open period a call is admitted and joins the running calls of the period. */
  lemma OneMore(cfg: Config, w: World, id: int)
    requires w.breaker.state.HalfOpen? && w.breaker.halfOpenCalls < cfg.halfOpenMaxCalls
    requires 1 <= w.entry <= |w.trace|
    ensures var w' := Step(cfg, w, Begin(id, w.clock));
            w'.entry == w.entry && |w'.trace| >= |w.trace| && PeriodCalls(w') == PeriodCalls(w) + {id}
  {
    var w' := Step(cfg, w, Begin(id, w.clock));
    assert w'.trace[w.entry - 1..] == w.trace[w.entry - 1..] + [Admit(id, w.clock)];
  }

  lemma OneLess(cfg: Config, w: World, id: int)
    requires w.breaker.state.HalfOpen? && w.breaker.successCount + 1 < cfg.successThreshold
    requires 1 <= w.entry <= |w.trace|
    ensures var w' := Step(cfg, w, End(id, None, w.clock));
            w'.entry == w.entry && |w'.trace| >= |w.trace| && PeriodCalls(w') == PeriodCalls(w)
  {
    var w' := Step(cfg, w, End(id, None, w.clock));
    assert w'.trace[w.entry - 1..] == w.trace[w.entry - 1..] + [Finish(id, false, w.clock)];
  }

  lemma FillPeriod(cfg: Config, err: string) returns (w: World)
    requires Usable(cfg) && IsFailure(cfg, Some(err))
    ensures var n := cfg.failureThreshold + cfg.successThreshold - 1;
            && Reachable(cfg, 0, w) && 1 <= w.entry <= |w.trace|
            && w.breaker == Breaker(HalfOpen, 0, 0, cfg.halfOpenMaxCalls, 0, cfg.timeout)
            && w.running == Ids(cfg.failureThreshold, n + 1 + cfg.halfOpenMaxCalls)
            && PeriodCalls(w) == Ids(n, n + 1 + cfg.halfOpenMaxCalls)
  {
    hide Reachable, PeriodCalls;
    var n := cfg.failureThreshold + cfg.successThreshold - 1;
    w := ProbeAfterFailures(cfg, err);
    ProbeAlone(w);
    for i := 0 to cfg.halfOpenMaxCalls
      invariant Reachable(cfg, 0, w) && 1 <= w.entry <= |w.trace|
      invariant w.breaker == Breaker(HalfOpen, 0, 0, i, 0, cfg.timeout)
      invariant w.running == Ids(cfg.failureThreshold, n + 1 + i)
      invariant PeriodCalls(w) == Ids(n, n + 1 + i)
    {
      var e := Begin(n + 1 + i, w.clock);
      StepReachable(cfg, 0, w, e);
      OneMore(cfg, w, e.id);
      w := Step(cfg, w, e);
      assert Ids(cfg.failureThreshold, n + 1 + i) + {e.id} == Ids(cfg.failureThreshold, n + 2 + i);
      assert Ids(n, n + 1 + i) + {e.id} == Ids(n, n + 2 + i);
    }
  }

  lemma ProbeAlone(w: World)
    requires w.entry == |w.trace| >= 1 && w.trace[w.entry - 1].Admit?
    ensures var id := w.trace[w.entry - 1].id; PeriodCalls(w) == Ids(id, id + 1)
  {
    var probe := w.trace[w.entry - 1];
    assert w.trace[w.entry - 1..] == [probe];
    assert PeriodCalls(w) == {probe.id};
  }

  /** The half-open bound is exact: for every configuration some run has HalfOpenMaxCalls +
      SuccessThreshold calls of one half-open period running at once. */
  lemma HalfOpenBoundReached(cfg: Config, err: string) returns (w: World)
    requires Usable(cfg) && IsFailure(cfg, Some(err))
    ensures Reachable(cfg, 0, w) && w.breaker.state.HalfOpen? && 1 <= w.entry <= |w.trace|
    ensures |PeriodCalls(w) * w.running| == cfg.halfOpenMaxCalls + cfg.successThreshold
  {
    hide Reachable, PeriodCalls, Ids;
    var n := cfg.failureThreshold + cfg.successThreshold - 1;
    var width := cfg.halfOpenMaxCalls + cfg.successThreshold;
    w := FillPeriod(cfg, err);
    for left := cfg.failureThreshold to n
      invariant Reachable(cfg, 0, w) && 1 <= w.entry <= |w.trace|
      invariant w.breaker ==
                Breaker(HalfOpen, 0, left - cfg.failureThreshold, cfg.halfOpenMaxCalls, 0, cfg.timeout)
      invariant w.running == Ids(left, left + width) && PeriodCalls(w) == Ids(n, left + width)
    {
      IdsShift(left, left + width);
      IdsShift(n, left + width);
      w := Exchange(cfg, w, left, left + width);
    }
    assert PeriodCalls(w) * w.running == w.running;
    IdsSize(n, n + width);
  }

  /** A call left over from before the period succeeds, which makes room for one more. */
  lemma Exchange(cfg: Config, w: World, left: int, next: int) returns (w': World)
    requires Reachable(cfg, 0, w) && 1 <= w.entry <= |w.trace|
    requires w.breaker.state.HalfOpen? && w.breaker.halfOpenCalls == cfg.halfOpenMaxCalls
    requires w.breaker.successCount + 1 < cfg.successThreshold
    requires left in w.running && next !in w.running
    ensures Reachable(cfg, 0, w') && 1 <= w'.entry <= |w'.trace|
    ensures w'.breaker == w.breaker.(successCount := w.breaker.successCount + 1)
    ensures w'.running == w.running - {left} + {next} && PeriodCalls(w') == PeriodCalls(w) + {next}
  {
    hide Reachable, PeriodCalls;
    StepReachable(cfg, 0, w, End(left, None, w.clock));
    OneLess(cfg, w, left);
    var mid := Step(cfg, w, End(left, None, w.clock));
    StepReachable(cfg, 0, mid, Begin(next, mid.clock));
    OneMore(cfg, mid, next);
    w' := Step(cfg, mid, Begin(next, mid.clock));
  }
}
