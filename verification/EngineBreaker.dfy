/** The breaker of one domain as the delivery engine uses it: deliverMessage looks at the state, and
    only later asks the breaker to start. */
module EngineBreaker {
  import opened Wrappers
  import opened CircuitBreaker
  import Runs = BreakerRuns
  import opened Delivery

  // ----- one delivery after the other -----

  /** The breaker of a domain after a series of deliveries, one after the other. */
  function BreakerAfterAll(cfg: Config, b: Breaker, deliveries: seq<(bool, Close)>): Breaker {
    if deliveries == [] then b
    else
      var last := deliveries[|deliveries| - 1];
      BreakerAfter(cfg, BreakerAfterAll(cfg, b, deliveries[..|deliveries| - 1]), last.0, last.1)
  }

  /** The length of the run of failures a series ends in. */
  function Trailing(deliveries: seq<(bool, Close)>): nat {
    if deliveries == [] || !deliveries[|deliveries| - 1].0 then 0 else Trailing(deliveries[..|deliveries| - 1]) + 1
  }

  /** Some prefix of the series ends in so many failures in a row. */
  ghost predicate RowOfFailures(deliveries: seq<(bool, Close)>, threshold: int) {
    exists k :: 0 <= k <= |deliveries| && Trailing(deliveries[..k]) >= threshold
  }

  lemma RowLasts(deliveries: seq<(bool, Close)>, last: (bool, Close), threshold: int)
    requires RowOfFailures(deliveries, threshold)
    ensures RowOfFailures(deliveries + [last], threshold)
  {
    hide Trailing;
    var k :| 0 <= k <= |deliveries| && Trailing(deliveries[..k]) >= threshold;
    assert (deliveries + [last])[..k] == deliveries[..k];
  }

  lemma RowBefore(deliveries: seq<(bool, Close)>, last: (bool, Close), threshold: int)
    requires RowOfFailures(deliveries + [last], threshold) && Trailing(deliveries + [last]) < threshold
    ensures RowOfFailures(deliveries, threshold)
  {
    hide Trailing;
    var longer := deliveries + [last];
    var k :| 0 <= k <= |longer| && Trailing(longer[..k]) >= threshold;
    assert longer[..|longer|] == longer;
    assert longer[..k] == deliveries[..k];
  }

  lemma RowNow(deliveries: seq<(bool, Close)>, threshold: int)
    requires Trailing(deliveries) >= threshold
    ensures RowOfFailures(deliveries, threshold)
  {
    hide Trailing;
    assert deliveries[..|deliveries|] == deliveries;
  }

  lemma RowGrows(deliveries: seq<(bool, Close)>, last: (bool, Close), threshold: int)
    ensures RowOfFailures(deliveries + [last], threshold)
            <==> RowOfFailures(deliveries, threshold) || Trailing(deliveries + [last]) >= threshold
  {
    hide Trailing, RowOfFailures;
    if Trailing(deliveries + [last]) >= threshold {
      RowNow(deliveries + [last], threshold);
    } else if RowOfFailures(deliveries, threshold) {
      RowLasts(deliveries, last, threshold);
    } else if RowOfFailures(deliveries + [last], threshold) {
      RowBefore(deliveries, last, threshold);
    }
  }

  /** A fresh breaker is open after a series of deliveries exactly when FailureThreshold of them
      failed in a row at some point; else it is closed and counts the failures the series ends in.
      Once open, it admits no delivery ever again, however long the Timeout has passed. */
  lemma {:induction false} ShutExactly(cfg: Config, now: int, deliveries: seq<(bool, Close)>)
    requires Usable(cfg)
    ensures var b := BreakerAfterAll(cfg, NewBreaker(now), deliveries);
            && (b.state.Open? <==> RowOfFailures(deliveries, cfg.failureThreshold))
            && (!b.state.Open? ==> b.state.Closed? && b.failureCount == Trailing(deliveries) < cfg.failureThreshold)
            && (b.state.Open? ==> forall c: Close :: !Admitted(cfg, b, c))
  {
    if deliveries == [] {
    } else {
      hide RowOfFailures;
      var front, last := deliveries[..|deliveries| - 1], deliveries[|deliveries| - 1];
      assert front + [last] == deliveries;
      ShutExactly(cfg, now, front);
      RowGrows(front, last, cfg.failureThreshold);
    }
  }

  /** Whatever follows, an open breaker stays as it is. */
  lemma {:induction false} OpenForever(cfg: Config, b: Breaker, deliveries: seq<(bool, Close)>)
    requires b.state.Open?
    ensures BreakerAfterAll(cfg, b, deliveries) == b
  {
    if deliveries != [] {
      OpenForever(cfg, b, deliveries[..|deliveries| - 1]);
    }
  }

  // ----- deliveries that overlap -----

  datatype Event =
    | Look(id: int, at: int)
    | Call(id: int, at: int)
    | End(id: int, err: Option<string>, at: int)

  /** When a delivery saw the breaker not open: how much of the trace there was, and the time. */
  datatype Pass = Pass(seen: nat, at: int)

  /** passed: the deliveries between their look at the state and their call. */
  datatype World = World(runs: Runs.World, passed: map<int, Pass>, clock: int)

  predicate Legal(w: World, e: Event) {
    && w.clock <= e.at
    && match e
       case Look(id, _) => id !in w.passed && id !in w.runs.running
       case Call(id, _) => id in w.passed
       case End(id, _, _) => id in w.runs.running
  }

  function Step(cfg: Config, w: World, e: Event): World {
    match e
    case Look(id, at) =>
      if w.runs.breaker.state.Open? then w.(clock := at)
      else w.(passed := w.passed[id := Pass(|w.runs.trace|, at)], clock := at)
    case Call(id, at) => World(Runs.Step(cfg, w.runs, Runs.Begin(id, at)), w.passed - {id}, at)
    case End(id, err, at) => World(Runs.Step(cfg, w.runs, Runs.End(id, err, at)), w.passed, at)
  }

  function Reached(cfg: Config, now: int, events: seq<Event>): World {
    if events == [] then World(Runs.Start(now), map[], now)
    else Step(cfg, Reached(cfg, now, events[..|events| - 1]), events[|events| - 1])
  }

  predicate LegalRun(cfg: Config, now: int, events: seq<Event>) {
    events == [] ||
    (LegalRun(cfg, now, events[..|events| - 1])
     && Legal(Reached(cfg, now, events[..|events| - 1]), events[|events| - 1]))
  }

  /** The events the breaker itself sees. */
  function Calls(events: seq<Event>): seq<Runs.Event> {
    if events == [] then []
    else
      var calls := Calls(events[..|events| - 1]);
      match events[|events| - 1]
      case Look(_, _) => calls
      case Call(id, at) => calls + [Runs.Begin(id, at)]
      case End(id, err, at) => calls + [Runs.End(id, err, at)]
  }

  /** Who passed is not running; who passed before an opening did so before it in the trace and in
      time, and the latest failure is no older than the opening. */
  predicate Inv(w: World) {
    && w.runs.clock <= w.clock && w.runs.breaker.lastStateChange <= w.clock
    && w.passed.Keys !! w.runs.running
    && (forall id :: id in w.passed ==> w.passed[id].seen <= |w.runs.trace| && w.passed[id].at <= w.clock)
    && (w.runs.breaker.state.Open? ==>
          && w.runs.breaker.lastStateChange <= w.runs.breaker.lastFailureTime
          && forall id :: id in w.passed ==>
               w.passed[id].seen < w.runs.entry && w.passed[id].at <= w.runs.breaker.lastStateChange)
  }

  lemma InvKept(cfg: Config, w: World, e: Event)
    requires Legal(w, e) && Inv(w)
    ensures Inv(Step(cfg, w, e))
  {
  }

  /** The breaker goes through a run of its own, so everything proved of those runs holds here. */
  lemma {:induction false} RunRefines(cfg: Config, now: int, events: seq<Event>)
    requires LegalRun(cfg, now, events)
    ensures Inv(Reached(cfg, now, events))
    ensures Runs.LegalRun(cfg, now, Calls(events))
    ensures Runs.Reached(cfg, now, Calls(events)) == Reached(cfg, now, events).runs
  {
    if events == [] {
    } else {
      hide Inv, Runs.Step, Runs.Legal;
      var front, last := events[..|events| - 1], events[|events| - 1];
      var w := Reached(cfg, now, front);
      RunRefines(cfg, now, front);
      InvKept(cfg, w, last);
      if !last.Look? {
        var call := if last.Call? then Runs.Begin(last.id, last.at) else Runs.End(last.id, last.err, last.at);
        assert Calls(events) == Calls(front) + [call];
        assert (Calls(front) + [call])[..|Calls(front)|] == Calls(front);
        CallLegal(w, last, call);
      }
    }
  }

  lemma CallLegal(w: World, e: Event, call: Runs.Event)
    requires Inv(w) && Legal(w, e)
    requires (e.Call? && call == Runs.Begin(e.id, e.at)) || (e.End? && call == Runs.End(e.id, e.err, e.at))
    ensures Runs.Legal(w.runs, call)
  {
  }

  /** An open breaker is left exactly by a delivery that calls when every failure is at least the
      Timeout old; such a delivery looked at the state before the breaker opened, and so waited at
      least the Timeout between its look and its call. */
  lemma ProbeExactly(cfg: Config, now: int, events: seq<Event>, e: Event)
    requires Usable(cfg) && LegalRun(cfg, now, events) && Legal(Reached(cfg, now, events), e)
    requires Reached(cfg, now, events).runs.breaker.state.Open?
    ensures var w := Reached(cfg, now, events); var state := Step(cfg, w, e).runs.breaker.state;
            && (!state.Open? <==> e.Call? && Runs.Rested(cfg, w.runs, e.at))
            && (!state.Open? ==>
                  && state.HalfOpen? && w.passed[e.id].seen < w.runs.entry
                  && w.passed[e.id].at <= w.runs.breaker.lastStateChange
                  && e.at - w.passed[e.id].at >= cfg.timeout)
  {
    hide Reached, Runs.Reached, Runs.Rested, Runs.Admissions, Runs.Completions;
    RunRefines(cfg, now, events);
    Runs.AdmissionExact(cfg, now, Calls(events), e.at);
  }

  // ----- when an open breaker can still recover -----

  lemma Next(cfg: Config, now: int, events: seq<Event>, e: Event)
    ensures Reached(cfg, now, events + [e]) == Step(cfg, Reached(cfg, now, events), e)
    ensures LegalRun(cfg, now, events + [e]) <==> LegalRun(cfg, now, events) && Legal(Reached(cfg, now, events), e)
  {
    hide Step, Legal;
    assert (events + [e])[..|events|] == events;
  }

  /** Some delivery has passed its look at the state and not called yet. */
  predicate Underway(w: World) {
    exists id :: id in w.passed
  }

  /** With nobody between look and call an open breaker is shut for good. */
  lemma {:induction false} ShutForGood(cfg: Config, now: int, events: seq<Event>, more: seq<Event>)
    requires LegalRun(cfg, now, events + more)
    requires Reached(cfg, now, events).runs.breaker.state.Open? && !Underway(Reached(cfg, now, events))
    ensures var w := Reached(cfg, now, events + more); w.runs.breaker.state.Open? && !Underway(w)
  {
    if more == [] {
      assert events + more == events;
    } else {
      hide Reached;
      var front, last := events + more[..|more| - 1], more[|more| - 1];
      assert events + more == front + [last];
      Next(cfg, now, front, last);
      ShutForGood(cfg, now, events, more[..|more| - 1]);
    }
  }

  /** One who passed may call as late as it takes. */
  lemma LateCallProbes(cfg: Config, now: int, events: seq<Event>, id: int) returns (e: Event)
    requires Usable(cfg) && LegalRun(cfg, now, events) && Reached(cfg, now, events).runs.breaker.state.Open?
    requires id in Reached(cfg, now, events).passed
    ensures e.Call? && e.id == id
    ensures LegalRun(cfg, now, events + [e]) && Reached(cfg, now, events + [e]).runs.breaker.state.HalfOpen?
  {
    hide Reached;
    var w := Reached(cfg, now, events);
    var ripe := w.runs.breaker.lastFailureTime + cfg.timeout;
    e := Call(id, if ripe < w.clock then w.clock else ripe);
    Next(cfg, now, events, e);
  }

  ghost predicate MayRecover(cfg: Config, now: int, events: seq<Event>) {
    exists more :: LegalRun(cfg, now, events + more) && !Reached(cfg, now, events + more).runs.breaker.state.Open?
  }

  /** Whether an open domain can ever be tried again: exactly when some delivery has passed its look
      at the state and not called yet. The Timeout alone does not reopen it. */
  lemma RecoversExactly(cfg: Config, now: int, events: seq<Event>)
    requires Usable(cfg) && LegalRun(cfg, now, events) && Reached(cfg, now, events).runs.breaker.state.Open?
    ensures MayRecover(cfg, now, events) <==> Underway(Reached(cfg, now, events))
  {
    hide Reached, LegalRun;
    if id :| id in Reached(cfg, now, events).passed {
      var e := LateCallProbes(cfg, now, events, id);
    } else if MayRecover(cfg, now, events) {
      var more :| LegalRun(cfg, now, events + more)
                  && !Reached(cfg, now, events + more).runs.breaker.state.Open?;
      ShutForGood(cfg, now, events, more);
      assert false;
    }
  }

  // ----- both happen -----

  /** Delivery 0 looks at the state and stalls; then n deliveries fail. */
  function Burst(n: nat, err: string): seq<Event> {
    if n == 0 then [Look(0, 0)] else Burst(n - 1, err) + [Look(n, 0)] + [Call(n, 0)] + [End(n, Some(err), 0)]
  }

  lemma FailedCall(cfg: Config, w: World, n: nat, err: string)
    requires Usable(cfg) && IsFailure(cfg, Some(err)) && 1 <= n <= cfg.failureThreshold
    requires w.runs.running == {} && w.passed == map[0 := Pass(0, 0)] && w.clock == 0
    requires w.runs.breaker == Breaker(Closed, n - 1, 0, 0, 0, 0)
    ensures Legal(w, Look(n, 0))
    ensures var w1 := Step(cfg, w, Look(n, 0));
            && Legal(w1, Call(n, 0)) && var w2 := Step(cfg, w1, Call(n, 0));
            && Legal(w2, End(n, Some(err), 0)) && var w3 := Step(cfg, w2, End(n, Some(err), 0));
            && w3.runs.running == {} && w3.passed == w.passed && w3.clock == 0
            && w3.runs.breaker == if n < cfg.failureThreshold then Breaker(Closed, n, 0, 0, 0, 0) else Breaker(Open, 0, 0, 0, 0, 0)
  {
    var w1 := Step(cfg, w, Look(n, 0));
    assert w1.passed - {n} == w.passed;
    assert w.runs.running + {n} - {n} == {};
  }

  lemma {:induction false} BurstOpens(cfg: Config, n: nat, err: string)
    requires Usable(cfg) && IsFailure(cfg, Some(err)) && n <= cfg.failureThreshold
    ensures LegalRun(cfg, 0, Burst(n, err))
    ensures var w := Reached(cfg, 0, Burst(n, err));
            && w.runs.running == {} && w.passed == map[0 := Pass(0, 0)] && w.clock == 0
            && w.runs.breaker == if n < cfg.failureThreshold then Breaker(Closed, n, 0, 0, 0, 0) else Breaker(Open, 0, 0, 0, 0, 0)
  {
    if n == 0 {
      assert [Look(0, 0)][..0] == [];
    } else {
      hide Reached, LegalRun, IsFailure, Step, Legal;
      BurstOpens(cfg, n - 1, err);
      var events := Burst(n - 1, err);
      Next(cfg, 0, events, Look(n, 0));
      Next(cfg, 0, events + [Look(n, 0)], Call(n, 0));
      Next(cfg, 0, events + [Look(n, 0)] + [Call(n, 0)], End(n, Some(err), 0));
      FailedCall(cfg, Reached(cfg, 0, events), n, err);
    }
  }

  /** A delivery stalled across the opening does probe the domain, under every configuration. */
  lemma StalledDeliveryProbes(cfg: Config, err: string) returns (e: Event)
    requires Usable(cfg) && IsFailure(cfg, Some(err))
    ensures var events := Burst(cfg.failureThreshold, err);
            && LegalRun(cfg, 0, events) && Reached(cfg, 0, events).runs.breaker.state.Open?
            && e.Call? && e.id == 0 && LegalRun(cfg, 0, events + [e])
            && Reached(cfg, 0, events + [e]).runs.breaker.state.HalfOpen?
  {
    hide Reached, LegalRun, IsFailure;
    BurstOpens(cfg, cfg.failureThreshold, err);
    e := LateCallProbes(cfg, 0, Burst(cfg.failureThreshold, err), 0);
  }

  // ----- a delivery on its own -----

  /** The events of a delivery nobody interrupts. */
  function Alone(cfg: Config, b: Breaker, id: int, err: Option<string>, c: Close): seq<Event> {
    if b.state.Open? then [Look(id, c.before)]
    else if Before(cfg, b, c.before).1 then [Look(id, c.before), Call(id, c.before), End(id, err, c.after)]
    else [Look(id, c.before), Call(id, c.before)]
  }

  /** Such a delivery does to the breaker what DeliverMessage promises. */
  lemma AloneMeans(cfg: Config, now: int, events: seq<Event>, id: int, err: Option<string>, c: Close)
    requires LegalRun(cfg, now, events)
    requires var w := Reached(cfg, now, events);
             w.clock <= c.before <= c.after && id !in w.passed && id !in w.runs.running
    ensures var w := Reached(cfg, now, events);
            var longer := events + Alone(cfg, w.runs.breaker, id, err, c);
            && LegalRun(cfg, now, longer)
            && Reached(cfg, now, longer).runs.breaker == BreakerAfter(cfg, w.runs.breaker, IsFailure(cfg, err), c)
            && Reached(cfg, now, longer).passed == w.passed
  {
    hide Reached, LegalRun, IsFailure, After;
    var w := Reached(cfg, now, events);
    var check, call, end := [Look(id, c.before)], [Call(id, c.before)], [End(id, err, c.after)];
    Next(cfg, now, events, check[0]);
    Next(cfg, now, events + check, call[0]);
    Next(cfg, now, events + check + call, end[0]);
    assert check + call == [Look(id, c.before), Call(id, c.before)];
    assert check + call + end == [Look(id, c.before), Call(id, c.before), End(id, err, c.after)];
    assert events + check + call == events + (check + call);
    assert events + check + call + end == events + (check + call + end);
    assert w.passed[id := Pass(|w.runs.trace|, c.before)] - {id} == w.passed;
  }
}
