/** Who is blocked, and for how long, read off the failures recorded for an address. */
module RateBlocks {
  import opened Wrappers
  import opened RateLimiter

  /** Where the latest window starts: a failure later than windowSize after the start of a window
      opens the next one. */
  function WindowStart(cfg: Config, times: seq<int>): (k: nat)
    ensures times != [] ==> k < |times|
  {
    if |times| <= 1 then 0
    else
      var front := times[..|times| - 1];
      var k := WindowStart(cfg, front);
      if times[|times| - 1] - times[k] > cfg.windowSize then |front| else k
  }

  /** The latest window holds maxAttempts failures (two at least: the one that opens it never blocks). */
  predicate Full(cfg: Config, times: seq<int>) {
    times != [] && |times| - WindowStart(cfg, times) >= Capacity(cfg)
  }

  function Last(times: seq<int>): int
    requires times != []
  {
    times[|times| - 1]
  }

  /** What the entry of an address says about its failures; a swept entry is long over. */
  predicate Mirrors(cfg: Config, attempts: Attempts, ip: string, times: seq<int>, clock: int) {
    && (times != [] ==>
          && Last(times) <= clock
          && (cfg.windowSize >= 0 ==> Last(times) - times[WindowStart(cfg, times)] <= cfg.windowSize)
          && (cfg.windowSize < 0 ==> WindowStart(cfg, times) == |times| - 1))
    && (ip !in attempts && times != [] ==>
          clock - times[WindowStart(cfg, times)] > cfg.windowSize + cfg.blockDuration)
    && (ip in attempts ==>
          && times != []
          && attempts[ip].count == |times| - WindowStart(cfg, times)
          && attempts[ip].firstTime == times[WindowStart(cfg, times)]
          && attempts[ip].blockedAt == if Full(cfg, times) then Some(Last(times)) else None)
  }

  lemma MoreTimes(cfg: Config, times: seq<int>, at: int)
    ensures WindowStart(cfg, times + [at]) ==
            if times == [] then 0
            else if at - times[WindowStart(cfg, times)] > cfg.windowSize then |times| else WindowStart(cfg, times)
  {
    assert (times + [at])[..|times|] == times;
  }

  lemma TryMirrored(cfg: Config, attempts: Attempts, ip: string, times: seq<int>, clock: int, at: int)
    requires cfg.blockDuration >= 0 && Mirrors(cfg, attempts, ip, times, clock) && (times == [] || clock <= at)
    requires !Blocked(cfg, attempts, ip, at)
    ensures Mirrors(cfg, attempts[ip := Failed(cfg, attempts, ip, at)], ip, times + [at], at)
  {
    hide WindowStart;
    MoreTimes(cfg, times, at);
  }

  /** The entry says exactly whether the address is blocked. */
  lemma MirrorsBlocked(cfg: Config, attempts: Attempts, ip: string, times: seq<int>, clock: int, now: int)
    requires Mirrors(cfg, attempts, ip, times, clock) && (times == [] || clock <= now)
    ensures Blocked(cfg, attempts, ip, now) <==> Full(cfg, times) && now - Last(times) < cfg.blockDuration
  {
    hide WindowStart;
  }

  lemma StepMirrored(cfg: Config, attempts: Attempts, ip: string, times: seq<int>, clock: int, e: Event)
    requires cfg.blockDuration >= 0 && Mirrors(cfg, attempts, ip, times, clock) && (times == [] || clock <= e.at)
    ensures var times' := if e.Sweep? || e.ip != ip || Blocked(cfg, attempts, ip, e.at) then times
                          else if e.Login? then [] else times + [e.at];
            Mirrors(cfg, Step(cfg, attempts, e), ip, times', e.at)
  {
    hide WindowStart, Failed;
    if e.Try? && e.ip == ip && !Blocked(cfg, attempts, ip, e.at) {
      TryMirrored(cfg, attempts, ip, times, clock, e.at);
    }
  }

  lemma {:induction false} AlwaysMirrored(cfg: Config, events: seq<Event>, ip: string)
    requires cfg.blockDuration >= 0 && InOrder(events)
    ensures Mirrors(cfg, After(cfg, events), ip, Failures(cfg, events, ip),
                    if events == [] then 0 else events[|events| - 1].at)
  {
    if events != [] {
      hide Mirrors, Step, Blocked;
      var front, last := events[..|events| - 1], events[|events| - 1];
      AlwaysMirrored(cfg, front, ip);
      if front == [] { NothingMirrored(cfg, ip, 0); }
      StepMirrored(cfg, After(cfg, front), ip, Failures(cfg, front, ip), if front == [] then 0 else front[|front| - 1].at, last);
    } else {
      NothingMirrored(cfg, ip, 0);
    }
  }

  lemma NothingMirrored(cfg: Config, ip: string, clock: int)
    ensures Mirrors(cfg, map[], ip, [], clock)
  {
  }

  /** After any run an address is blocked exactly when the latest window of its recorded failures is
      full and the latest of them is less than blockDuration ago, whatever was swept. */
  lemma BlockedExactly(cfg: Config, events: seq<Event>, ip: string, now: int)
    requires cfg.blockDuration >= 0 && InOrder(events + [Sweep(now)])
    ensures var times := Failures(cfg, events, ip);
            Blocked(cfg, After(cfg, events), ip, now) <==> Full(cfg, times) && now - Last(times) < cfg.blockDuration
  {
    hide Mirrors, Blocked, Full;
    OrderOf(events, now);
    AlwaysMirrored(cfg, events, ip);
    if events == [] { NoFailures(cfg, ip); }
    MirrorsBlocked(cfg, After(cfg, events), ip, Failures(cfg, events, ip),
                   if events == [] then 0 else events[|events| - 1].at, now);
  }

  lemma NoFailures(cfg: Config, ip: string)
    ensures Failures(cfg, [], ip) == []
  {
  }

  lemma OrderOf(events: seq<Event>, now: int)
    requires InOrder(events + [Sweep(now)])
    ensures InOrder(events) && (events != [] ==> events[|events| - 1].at <= now)
  {
    var all := events + [Sweep(now)];
    assert forall i | 0 <= i < |events| :: all[i] == events[i];
    assert all[|events|] == Sweep(now);
  }

  /** A sweep forgets exactly the addresses whose latest window started more than windowSize and
      blockDuration ago, and those without failures are not there to forget. */
  lemma SweptExactly(cfg: Config, events: seq<Event>, ip: string, now: int)
    requires cfg.blockDuration >= 0 && InOrder(events + [Sweep(now)])
    ensures var times := Failures(cfg, events, ip);
            ip in After(cfg, events + [Sweep(now)]) <==>
            times != [] && now - times[WindowStart(cfg, times)] <= cfg.windowSize + cfg.blockDuration
  {
    hide WindowStart, Full;
    OrderOf(events, now);
    AlwaysMirrored(cfg, events, ip);
    assert (events + [Sweep(now)])[..|events|] == events;
  }

  /** The failure of an event is recorded and fills its window. */
  predicate Fills(cfg: Config, events: seq<Event>, i: nat)
    requires i < |events|
  {
    && events[i].Try? && !Blocked(cfg, After(cfg, events[..i]), events[i].ip, events[i].at)
    && Full(cfg, Failures(cfg, events[..i + 1], events[i].ip))
  }

  lemma Prefix(events: seq<Event>, j: nat)
    requires InOrder(events) && j < |events|
    ensures InOrder(events[..j] + [Sweep(events[j].at)])
    ensures events[..j + 1][..j] == events[..j] && events[..j + 1][j] == events[j]
  {
  }

  /** After a failure that fills its window, no failure and no login of the address is recorded until
      blockDuration later, however the address tries and whatever is swept. */
  lemma {:induction false} BlockLasts(cfg: Config, events: seq<Event>, i: nat, j: nat)
    requires cfg.blockDuration >= 0 && InOrder(events) && i < j < |events| && Fills(cfg, events, i)
    requires events[j].at < events[i].at + cfg.blockDuration
    ensures var ip := events[i].ip;
            && Blocked(cfg, After(cfg, events[..j]), ip, events[j].at)
            && Failures(cfg, events[..j + 1], ip) == Failures(cfg, events[..i + 1], ip)
    decreases j
  {
    hide Blocked, Full, After;
    var ip := events[i].ip;
    Prefix(events, i);
    Prefix(events, j);
    if i + 1 < j { BlockLasts(cfg, events, i, j - 1); }
    LastRecorded(cfg, events, i);
    BlockedExactly(cfg, events[..j], ip, events[j].at);
  }

  lemma LastRecorded(cfg: Config, events: seq<Event>, i: nat)
    requires i < |events| && Fills(cfg, events, i)
    ensures var times := Failures(cfg, events[..i + 1], events[i].ip);
            Full(cfg, times) && times != [] && Last(times) == events[i].at
  {
    hide Blocked, WindowStart, After;
    assert events[..i + 1][..i] == events[..i] && events[..i + 1][i] == events[i];
  }

  /** From blockDuration on, the first failure is recorded again and the first login lets in. */
  lemma BlockEnds(cfg: Config, events: seq<Event>, i: nat, at: int)
    requires cfg.blockDuration >= 0 && InOrder(events + [Sweep(at)]) && i < |events| && Fills(cfg, events, i)
    requires Failures(cfg, events, events[i].ip) == Failures(cfg, events[..i + 1], events[i].ip)
    requires at >= events[i].at + cfg.blockDuration
    ensures var ip := events[i].ip;
            && Failures(cfg, events + [Try(ip, at)], ip) == Failures(cfg, events, ip) + [at]
            && Failures(cfg, events + [Login(ip, at)], ip) == []
  {
    hide Blocked, Full, After;
    var ip := events[i].ip;
    LastRecorded(cfg, events, i);
    BlockedExactly(cfg, events, ip, at);
    assert (events + [Try(ip, at)])[..|events|] == events && (events + [Login(ip, at)])[..|events|] == events;
  }
}
