/** The login rate limiter (internal/admin/ratelimit.go): failures are counted in windows that
    start with a failure, and a full window blocks its address. Times are nanoseconds. */
module RateLimiter {
  import opened Wrappers

  /** blockedAt is None for the zero time. */
  datatype AttemptInfo = AttemptInfo(count: int, firstTime: int, blockedAt: Option<int>)

  datatype Config = Config(maxAttempts: int, windowSize: int, blockDuration: int)

  type Attempts = map<string, AttemptInfo>

  predicate Blocked(cfg: Config, attempts: Attempts, ip: string, now: int) {
    ip in attempts && attempts[ip].blockedAt.Some? && now - attempts[ip].blockedAt.value < cfg.blockDuration
  }

  /** The entry of an address after a failure. */
  function Failed(cfg: Config, attempts: Attempts, ip: string, now: int): AttemptInfo {
    if ip !in attempts || now - attempts[ip].firstTime > cfg.windowSize then AttemptInfo(1, now, None)
    else
      var info := attempts[ip];
      AttemptInfo(info.count + 1, info.firstTime,
                  if info.count + 1 >= cfg.maxAttempts then Some(now) else info.blockedAt)
  }

  predicate Stale(cfg: Config, info: AttemptInfo, now: int) {
    now - info.firstTime > cfg.windowSize + cfg.blockDuration
  }

  function Cleaned(cfg: Config, attempts: Attempts, now: int): Attempts {
    map ip | ip in attempts && !Stale(cfg, attempts[ip], now) :: attempts[ip]
  }

  class RateLimiter {
    const cfg: Config
    var attempts: Attempts

    constructor (maxAttempts: int, windowSize: int, blockDuration: int)
      ensures cfg == Config(maxAttempts, windowSize, blockDuration) && attempts == map[]
    {
      cfg := Config(maxAttempts, windowSize, blockDuration);
      attempts := map[];
    }

    method IsBlocked(ip: string, now: int) returns (blocked: bool)
      ensures blocked == Blocked(cfg, attempts, ip, now)
    {
      if ip !in attempts {
        return false;
      }
      var info := attempts[ip];
      if info.blockedAt.Some? {
        if now - info.blockedAt.value < cfg.blockDuration {
          return true;
        }
      }
      blocked := false;
    }

    /** Reports whether this failure blocked the address. */
    method RecordFailure(ip: string, now: int) returns (blocked: bool)
      modifies this
      ensures attempts == old(attempts)[ip := Failed(cfg, old(attempts), ip, now)]
      ensures blocked <==>
              ip in old(attempts) && now - old(attempts)[ip].firstTime <= cfg.windowSize
              && old(attempts)[ip].count + 1 >= cfg.maxAttempts
    {
      if ip !in attempts {
        attempts := attempts[ip := AttemptInfo(1, now, None)];
        return false;
      }
      var info := attempts[ip];
      if now - info.firstTime > cfg.windowSize {
        attempts := attempts[ip := info.(count := 1, firstTime := now, blockedAt := None)];
        return false;
      }
      info := info.(count := info.count + 1);
      if info.count >= cfg.maxAttempts {
        attempts := attempts[ip := info.(blockedAt := Some(now))];
        return true;
      }
      attempts := attempts[ip := info];
      blocked := false;
    }

    method RecordSuccess(ip: string)
      modifies this
      ensures attempts == old(attempts) - {ip}
    {
      attempts := attempts - {ip};
    }

    /** One round of the cleanup ticker. */
    method Cleanup(now: int)
      modifies this
      ensures attempts == Cleaned(cfg, old(attempts), now)
    {
      var maxAge := cfg.windowSize + cfg.blockDuration;
      var left := attempts.Keys;
      while left != {}
        invariant left <= old(attempts).Keys
        invariant attempts == map ip | ip in old(attempts) && (ip in left || !Stale(cfg, old(attempts)[ip], now))
                                     :: old(attempts)[ip]
        decreases |left|
      {
        var ip :| ip in left;
        left := left - {ip};
        if now - attempts[ip].firstTime > maxAge {
          attempts := attempts - {ip};
        }
      }
    }
  }

  // ----- runs -----

  /** A login attempt that would fail, a successful login, a cleanup. */
  datatype Event = Try(ip: string, at: int) | Login(ip: string, at: int) | Sweep(at: int)

  predicate InOrder(events: seq<Event>) {
    forall i, j :: 0 <= i < j < |events| ==> events[i].at <= events[j].at
  }

  /** A blocked attempt is refused before the password is looked at. */
  function Step(cfg: Config, attempts: Attempts, e: Event): Attempts {
    match e
    case Try(ip, at) =>
      if Blocked(cfg, attempts, ip, at) then attempts else attempts[ip := Failed(cfg, attempts, ip, at)]
    case Login(ip, at) => if Blocked(cfg, attempts, ip, at) then attempts else attempts - {ip}
    case Sweep(at) => Cleaned(cfg, attempts, at)
  }

  function After(cfg: Config, events: seq<Event>): Attempts {
    if events == [] then map[] else Step(cfg, After(cfg, events[..|events| - 1]), events[|events| - 1])
  }

  /** The times of the failures recorded for an address since its latest successful login. */
  function Failures(cfg: Config, events: seq<Event>, ip: string): seq<int> {
    if events == [] then []
    else
      var front, last := events[..|events| - 1], events[|events| - 1];
      var times := Failures(cfg, front, ip);
      if last.Sweep? || last.ip != ip || Blocked(cfg, After(cfg, front), ip, last.at) then times
      else if last.Login? then []
      else times + [last.at]
  }

  /** A failure that opens a window never blocks, so a window holds at least two. */
  function Capacity(cfg: Config): int {
    if cfg.maxAttempts < 2 then 2 else cfg.maxAttempts
  }

  /** Any `width` wide stretch of time holds at most `limit` of the times. */
  predicate Sparse(times: seq<int>, width: int, limit: int) {
    forall i, j :: 0 <= i <= j < |times| && times[j] - times[i] <= width ==> j - i + 1 <= limit
  }

  // ----- windows of the history -----

  /** Where the latest window and the one before it start in the failures. */
  datatype Windows = Windows(prev: nat, cur: nat)

  predicate Ordered(times: seq<int>) {
    forall i, j :: 0 <= i < j < |times| ==> times[i] <= times[j]
  }

  /** The latest window starts at cur, no later than windowSize before the end, and is not
      overfull; the one before it ended properly. */
  predicate Split(cfg: Config, times: seq<int>, w: Windows) {
    && Ordered(times)
    && (times != [] ==>
      && w.cur < |times| <= w.cur + Capacity(cfg)
      && times[|times| - 1] <= times[w.cur] + cfg.windowSize
      && (w.cur > 0 ==>
        && w.prev < w.cur <= w.prev + Capacity(cfg)
        && times[w.prev] + cfg.windowSize < times[w.cur]
        && (w.cur == w.prev + Capacity(cfg) ==> times[w.cur - 1] + cfg.windowSize < times[w.cur])))
  }

  /** What the entry of the address says about its failures. */
  predicate Mirrors(cfg: Config, attempts: Attempts, ip: string, times: seq<int>, w: Windows, clock: int) {
    && (times != [] ==> w.cur < |times| && times[|times| - 1] <= clock)
    && (ip !in attempts && times != [] ==> times[w.cur] + cfg.windowSize + cfg.blockDuration < clock)
    && (ip in attempts ==>
      && times != []
      && attempts[ip].count == |times| - w.cur && attempts[ip].firstTime == times[w.cur]
      && attempts[ip].blockedAt ==
         if |times| - w.cur >= Capacity(cfg) then Some(times[|times| - 1]) else None)
  }

  lemma Later(times: seq<int>, i: nat, j: nat)
    requires Ordered(times) && i <= j < |times|
    ensures times[i] <= times[j]
  {
  }

  lemma OrderedGrows(times: seq<int>, at: int)
    requires Ordered(times) && (times != [] ==> times[|times| - 1] <= at)
    ensures Ordered(times + [at])
  {
  }

  lemma SparseGrows(times: seq<int>, at: int, width: int, limit: int)
    requires Sparse(times, width, limit) && limit >= 1
    requires forall i :: 0 <= i < |times| && at - times[i] <= width ==> |times| - i + 1 <= limit
    ensures Sparse(times + [at], width, limit)
  {
  }

  /** A failure inside the latest window. */
  lemma SameWindow(cfg: Config, times: seq<int>, w: Windows, at: int)
    requires Split(cfg, times, w) && times != [] && times[|times| - 1] <= at
    requires Sparse(times, cfg.windowSize, 2 * Capacity(cfg) - 2)
    requires |times| < w.cur + Capacity(cfg) && at <= times[w.cur] + cfg.windowSize
    ensures Sparse(times + [at], cfg.windowSize, 2 * Capacity(cfg) - 2) && Split(cfg, times + [at], w)
  {
    hide Ordered, Sparse;
    OrderedGrows(times, at);
    forall i | 0 <= i < |times| && at - times[i] <= cfg.windowSize
      ensures |times| - i + 1 <= 2 * Capacity(cfg) - 2
    {
      Later(times, w.cur, |times| - 1);
      if i < w.cur {
        Later(times, i, w.cur - 1);
        if i <= w.prev { Later(times, i, w.prev); }
      }
    }
    SparseGrows(times, at, cfg.windowSize, 2 * Capacity(cfg) - 2);
  }

  /** A failure that opens a window. */
  lemma NewWindow(cfg: Config, times: seq<int>, w: Windows, at: int)
    requires cfg.windowSize >= 0
    requires Split(cfg, times, w) && (times != [] ==> times[|times| - 1] <= at)
    requires Sparse(times, cfg.windowSize, 2 * Capacity(cfg) - 2)
    requires times != [] ==> times[w.cur] + cfg.windowSize < at
    requires times != [] && |times| == w.cur + Capacity(cfg) ==> times[|times| - 1] + cfg.windowSize < at
    ensures Sparse(times + [at], cfg.windowSize, 2 * Capacity(cfg) - 2)
    ensures Split(cfg, times + [at], Windows(if times == [] then 0 else w.cur, |times|))
  {
    hide Ordered, Sparse;
    OrderedGrows(times, at);
    forall i | 0 <= i < |times| && at - times[i] <= cfg.windowSize
      ensures |times| - i + 1 <= 2 * Capacity(cfg) - 2
    {
      Later(times, i, |times| - 1);
      if i <= w.cur { Later(times, i, w.cur); }
    }
    SparseGrows(times, at, cfg.windowSize, 2 * Capacity(cfg) - 2);
  }

  // ----- the invariant -----

  predicate Tracked(cfg: Config, attempts: Attempts, ip: string, times: seq<int>, w: Windows, clock: int) {
    && Split(cfg, times, w)
    && Sparse(times, cfg.windowSize, 2 * Capacity(cfg) - 2)
    && Mirrors(cfg, attempts, ip, times, w, clock)
  }

  lemma TryKept(cfg: Config, attempts: Attempts, ip: string, times: seq<int>, w: Windows, clock: int, at: int)
    returns (w': Windows)
    requires cfg.blockDuration > cfg.windowSize >= 0 && clock <= at
    requires Tracked(cfg, attempts, ip, times, w, clock) && !Blocked(cfg, attempts, ip, at)
    ensures Tracked(cfg, attempts[ip := Failed(cfg, attempts, ip, at)], ip, times + [at], w', at)
  {
    hide Split, Sparse;
    if times != [] { SplitFacts(cfg, times, w); }
    if ip in attempts && at - attempts[ip].firstTime <= cfg.windowSize {
      w' := w;
      SameWindow(cfg, times, w, at);
    } else {
      w' := Windows(if times == [] then 0 else w.cur, |times|);
      NewWindow(cfg, times, w, at);
    }
  }

  lemma SplitFacts(cfg: Config, times: seq<int>, w: Windows)
    requires Split(cfg, times, w) && times != []
    ensures w.cur < |times| <= w.cur + Capacity(cfg)
    ensures times[w.cur] <= times[|times| - 1] <= times[w.cur] + cfg.windowSize
  {
  }

  lemma StepKept(cfg: Config, attempts: Attempts, ip: string, times: seq<int>, w: Windows, clock: int, e: Event)
    returns (w': Windows)
    requires cfg.blockDuration > cfg.windowSize >= 0 && clock <= e.at
    requires Tracked(cfg, attempts, ip, times, w, clock)
    ensures var times' := if e.Sweep? || e.ip != ip || Blocked(cfg, attempts, ip, e.at) then times
                          else if e.Login? then [] else times + [e.at];
            Tracked(cfg, Step(cfg, attempts, e), ip, times', w', e.at)
  {
    hide Split, Sparse, Failed;
    w' := w;
    if e.Try? && e.ip == ip && !Blocked(cfg, attempts, ip, e.at) {
      w' := TryKept(cfg, attempts, ip, times, w, clock, e.at);
    } else if e.Login? && e.ip == ip && !Blocked(cfg, attempts, ip, e.at) {
      NothingTracked(cfg, w);
    }
  }

  lemma NothingTracked(cfg: Config, w: Windows)
    ensures Split(cfg, [], w) && Sparse([], cfg.windowSize, 2 * Capacity(cfg) - 2)
  {
  }

  lemma {:induction false} AlwaysTracked(cfg: Config, events: seq<Event>, ip: string) returns (w: Windows)
    requires cfg.blockDuration > cfg.windowSize >= 0 && InOrder(events)
    ensures Tracked(cfg, After(cfg, events), ip, Failures(cfg, events, ip), w,
                    if events == [] then 0 else events[|events| - 1].at)
  {
    if events == [] {
      w := Windows(0, 0);
    } else {
      hide Tracked, Step, Blocked;
      var front, last := events[..|events| - 1], events[|events| - 1];
      w := AlwaysTracked(cfg, front, ip);
      if front == [] {
        w := FirstKept(cfg, ip, last);
      } else {
        w := StepKept(cfg, After(cfg, front), ip, Failures(cfg, front, ip), w, front[|front| - 1].at, last);
      }
    }
  }

  lemma FirstKept(cfg: Config, ip: string, e: Event) returns (w: Windows)
    requires cfg.blockDuration > cfg.windowSize >= 0
    ensures !Blocked(cfg, map[], ip, e.at)
    ensures Tracked(cfg, Step(cfg, map[], e), ip, if e.Try? && e.ip == ip then [e.at] else [], w, e.at)
  {
    w := StepKept(cfg, map[], ip, [], Windows(0, 0), e.at, e);
  }

  // ----- what every run guarantees -----

  /** Serial attempts gated by IsBlocked: no stretch of windowSize holds more than
      2 * maxAttempts - 2 failures recorded for one address since its latest successful login
      (2 when maxAttempts is below 2). */
  lemma FailureRateBound(cfg: Config, events: seq<Event>, ip: string)
    requires cfg.blockDuration > cfg.windowSize >= 0 && InOrder(events)
    ensures Sparse(Failures(cfg, events, ip), cfg.windowSize, 2 * Capacity(cfg) - 2)
  {
    hide Sparse;
    var w := AlwaysTracked(cfg, events, ip);
  }

  /** No entry is blocked later than its window lasts; this needs no gate and no bound on the
      block duration. */
  predicate BlocksInWindow(cfg: Config, attempts: Attempts) {
    forall ip :: ip in attempts && attempts[ip].blockedAt.Some?
                 ==> attempts[ip].blockedAt.value <= attempts[ip].firstTime + cfg.windowSize
  }

  lemma {:induction false} BlocksStayInWindow(cfg: Config, events: seq<Event>)
    ensures BlocksInWindow(cfg, After(cfg, events))
  {
    if events == [] {
    } else {
      BlocksStayInWindow(cfg, events[..|events| - 1]);
    }
  }

  /** Cleanup never lifts a block that is still active. */
  lemma CleanupKeepsBlocks(cfg: Config, events: seq<Event>, ip: string, now: int)
    ensures var attempts := After(cfg, events);
            Blocked(cfg, Cleaned(cfg, attempts, now), ip, now) <==> Blocked(cfg, attempts, ip, now)
  {
    BlocksStayInWindow(cfg, events);
  }

  // ----- the bound is reached -----

  lemma Recorded(cfg: Config, events: seq<Event>, ip: string, at: int)
    requires !Blocked(cfg, After(cfg, events), ip, at)
    ensures var longer := events + [Try(ip, at)];
            && After(cfg, longer) == After(cfg, events)[ip := Failed(cfg, After(cfg, events), ip, at)]
            && Failures(cfg, longer, ip) == Failures(cfg, events, ip) + [at]
  {
    assert (events + [Try(ip, at)])[..|events|] == events;
  }

  /** Further failures at one moment inside a window that does not fill up before the last. */
  lemma Burst(cfg: Config, start: seq<Event>, ip: string, at: int, n: nat) returns (events: seq<Event>)
    requires InOrder(start) && start != [] && start[|start| - 1].at <= at
    requires ip in After(cfg, start)
    requires var info := After(cfg, start)[ip];
             info.blockedAt.None? && at - info.firstTime <= cfg.windowSize && info.count + n <= cfg.maxAttempts
    requires var times := Failures(cfg, start, ip); times != [] && times[|times| - 1] <= at
    ensures InOrder(events) && events != [] && events[|events| - 1].at <= at
    ensures ip in After(cfg, events)
    ensures var info := After(cfg, start)[ip];
            After(cfg, events)[ip] == AttemptInfo(info.count + n, info.firstTime,
              if n > 0 && info.count + n >= cfg.maxAttempts then Some(at) else None)
    ensures Failures(cfg, events, ip) == Failures(cfg, start, ip) + seq(n, i => at)
  {
    events := start;
    var info := After(cfg, start)[ip];
    for i := 0 to n
      invariant InOrder(events) && events != [] && events[|events| - 1].at <= at
      invariant ip in After(cfg, events)
      invariant After(cfg, events)[ip] == AttemptInfo(info.count + i, info.firstTime,
                  if i > 0 && info.count + i >= cfg.maxAttempts then Some(at) else None)
      invariant Failures(cfg, events, ip) == Failures(cfg, start, ip) + seq(i, j => at)
    {
      hide After, Failures;
      Recorded(cfg, events, ip, at);
      events := events + [Try(ip, at)];
    }
  }

  /** For every usable setting a run reaches the bound: one failure, maxAttempts - 2 at the end of
      its window, and a full window right after it. */
  lemma FailureRateReached(cfg: Config, ip: string) returns (events: seq<Event>)
    requires cfg.blockDuration > cfg.windowSize >= 1 && cfg.maxAttempts >= 2
    ensures InOrder(events)
    ensures !Sparse(Failures(cfg, events, ip), cfg.windowSize, 2 * Capacity(cfg) - 3)
  {
    hide After, Failures;
    var m, width := cfg.maxAttempts, cfg.windowSize;
    StartEmpty(cfg, ip);
    Recorded(cfg, [], ip, 0);
    events := Burst(cfg, [] + [Try(ip, 0)], ip, width, m - 2);
    Recorded(cfg, events, ip, width + 1);
    var reopened := events + [Try(ip, width + 1)];
    events := Burst(cfg, reopened, ip, width + 1, m - 1);
    var times := Failures(cfg, events, ip);
    assert times == [0] + seq(m - 2, i => width) + [width + 1] + seq(m - 1, i => width + 1);
    var last := 2 * m - 2;
    assert |times| == last + 1 && times[last] - times[1] <= width;
  }

  lemma StartEmpty(cfg: Config, ip: string)
    ensures After(cfg, []) == map[] && Failures(cfg, [], ip) == []
  {
  }

  /** With maxAttempts of 1 two failures are recorded before the block, one more than
      2 * maxAttempts - 1. */
  lemma SingleAttemptAllowsTwo(cfg: Config, ip: string)
    requires cfg.maxAttempts == 1 && cfg.blockDuration > cfg.windowSize >= 0
    ensures Failures(cfg, [Try(ip, 0), Try(ip, 0)], ip) == [0, 0]
  {
    hide After, Failures;
    StartEmpty(cfg, ip);
    Recorded(cfg, [], ip, 0);
    var first := [] + [Try(ip, 0)];
    Recorded(cfg, first, ip, 0);
    assert first + [Try(ip, 0)] == [Try(ip, 0), Try(ip, 0)];
  }
}
