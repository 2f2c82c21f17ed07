/** Login attempts that overlap: handleLogin asks the limiter first and records the outcome later
    (internal/admin/handlers.go). */
module LoginAttempts {
  import opened Wrappers
  import opened RateLimiter

  datatype Stage =
    | Look(id: int, ip: string, at: int)
    | Fail(id: int, at: int)
    | Succeed(id: int, at: int)
    | Clean(at: int)

  /** open: the attempts that were let in and have not ended. */
  datatype World = World(attempts: Attempts, open: map<int, string>)

  predicate Legal(w: World, e: Stage) {
    match e
    case Look(id, _, _) => id !in w.open
    case Fail(id, _) => id in w.open
    case Succeed(id, _) => id in w.open
    case Clean(_) => true
  }

  function StageStep(cfg: Config, w: World, e: Stage): World
    requires Legal(w, e)
  {
    match e
    case Look(id, ip, at) => if Blocked(cfg, w.attempts, ip, at) then w else w.(open := w.open[id := ip])
    case Fail(id, at) =>
      World(w.attempts[w.open[id] := Failed(cfg, w.attempts, w.open[id], at)], w.open - {id})
    case Succeed(id, at) => World(w.attempts - {w.open[id]}, w.open - {id})
    case Clean(at) => w.(attempts := Cleaned(cfg, w.attempts, at))
  }

  function Run(cfg: Config, stages: seq<Stage>): Option<World> {
    if stages == [] then Some(World(map[], map[]))
    else
      var before := Run(cfg, stages[..|stages| - 1]);
      if before.Some? && Legal(before.value, stages[|stages| - 1])
      then Some(StageStep(cfg, before.value, stages[|stages| - 1])) else None
  }

  /** The times of the failures recorded for an address since its latest successful login. */
  function FailureTimes(cfg: Config, stages: seq<Stage>, ip: string): seq<int>
    requires Run(cfg, stages).Some?
  {
    if stages == [] then []
    else
      var front, last := stages[..|stages| - 1], stages[|stages| - 1];
      var times := FailureTimes(cfg, front, ip);
      var open := Run(cfg, front).value.open;
      if last.Fail? && open[last.id] == ip then times + [last.at]
      else if last.Succeed? && open[last.id] == ip then [] else times
  }

  /** The attempt ends while its address is still, or again, not blocked. */
  predicate Timely(cfg: Config, w: World, e: Stage)
    requires Legal(w, e)
  {
    e.Fail? || e.Succeed? ==> !Blocked(cfg, w.attempts, w.open[e.id], e.at)
  }

  predicate AllTimely(cfg: Config, stages: seq<Stage>)
    requires Run(cfg, stages).Some?
  {
    stages == [] ||
    (AllTimely(cfg, stages[..|stages| - 1])
     && Timely(cfg, Run(cfg, stages[..|stages| - 1]).value, stages[|stages| - 1]))
  }

  /** What an ending does, as an event of attempts one after the other. */
  function Ending(w: World, e: Stage): Event
    requires Legal(w, e) && !e.Look?
  {
    match e
    case Fail(id, at) => Try(w.open[id], at)
    case Succeed(id, at) => Login(w.open[id], at)
    case Clean(at) => Sweep(at)
  }

  /** The same run with every attempt at the moment it ends. */
  function Serial(cfg: Config, stages: seq<Stage>): seq<Event>
    requires Run(cfg, stages).Some?
  {
    if stages == [] then []
    else
      var front, last := stages[..|stages| - 1], stages[|stages| - 1];
      Serial(cfg, front) + (if last.Look? then [] else [Ending(Run(cfg, front).value, last)])
  }

  predicate StagesInOrder(stages: seq<Stage>) {
    forall i, j :: 0 <= i < j < |stages| ==> stages[i].at <= stages[j].at
  }

  lemma AfterMore(cfg: Config, events: seq<Event>, e: Event, ip: string)
    ensures After(cfg, events + [e]) == Step(cfg, After(cfg, events), e)
    ensures Failures(cfg, events + [e], ip) ==
            if e.Sweep? || e.ip != ip || Blocked(cfg, After(cfg, events), ip, e.at) then Failures(cfg, events, ip)
            else if e.Login? then [] else Failures(cfg, events, ip) + [e.at]
  {
    hide Step, Blocked;
    assert (events + [e])[..|events|] == events;
  }

  lemma InOrderMore(events: seq<Event>, e: Event)
    requires InOrder(events) && forall f :: f in events ==> f.at <= e.at
    ensures InOrder(events + [e])
  {
  }

  /** An ending does what the same attempt would do on its own exactly if it is timely. */
  lemma TimelyStep(cfg: Config, w: World, e: Stage)
    requires Legal(w, e) && !e.Look?
    ensures StageStep(cfg, w, e).attempts == Step(cfg, w.attempts, Ending(w, e)) <==> Timely(cfg, w, e)
  {
    hide Cleaned;
    if !e.Clean? && Blocked(cfg, w.attempts, w.open[e.id], e.at) {
      var ip := w.open[e.id];
      assert e.Fail? ==> StageStep(cfg, w, e).attempts[ip] != w.attempts[ip];
      assert e.Succeed? ==> ip !in StageStep(cfg, w, e).attempts;
    }
  }

  lemma EndingMeans(cfg: Config, w: World, e: Stage)
    requires Legal(w, e) && !e.Look? && Timely(cfg, w, e)
    ensures Ending(w, e).at == e.at
    ensures e.Fail? || e.Succeed? ==>
              Ending(w, e) == (if e.Fail? then Try(w.open[e.id], e.at) else Login(w.open[e.id], e.at))
              && !Blocked(cfg, w.attempts, w.open[e.id], e.at)
  {
    hide Blocked;
  }

  lemma LookMeans(cfg: Config, w: World, e: Stage)
    requires Legal(w, e) && e.Look?
    ensures StageStep(cfg, w, e).attempts == w.attempts
    ensures StageStep(cfg, w, e).open == if Blocked(cfg, w.attempts, e.ip, e.at) then w.open else w.open[e.id := e.ip]
  {
    hide Blocked;
  }

  /** A run in which every attempt is timely is one of attempts one after the other. */
  lemma {:induction false} TimelyIsSerial(cfg: Config, stages: seq<Stage>, ip: string)
    requires Run(cfg, stages).Some? && AllTimely(cfg, stages)
    ensures After(cfg, Serial(cfg, stages)) == Run(cfg, stages).value.attempts
    ensures Failures(cfg, Serial(cfg, stages), ip) == FailureTimes(cfg, stages, ip)
  {
    if stages == [] {
    } else {
      hide Step, StageStep, Blocked, Timely, After, Failures;
      var front, last := stages[..|stages| - 1], stages[|stages| - 1];
      var w := Run(cfg, front).value;
      TimelyIsSerial(cfg, front, ip);
      if last.Look? {
        LookMeans(cfg, w, last);
        assert Serial(cfg, stages) == Serial(cfg, front);
      } else {
        TimelyStep(cfg, w, last);
        EndingMeans(cfg, w, last);
        AfterMore(cfg, Serial(cfg, front), Ending(w, last), ip);
      }
    }
  }

  lemma {:induction false} SerialInOrder(cfg: Config, stages: seq<Stage>)
    requires StagesInOrder(stages) && Run(cfg, stages).Some?
    ensures var events := Serial(cfg, stages);
            InOrder(events) && forall e :: e in events ==> stages != [] && e.at <= stages[|stages| - 1].at
  {
    if stages == [] {
    } else {
      hide InOrder, StageStep;
      var front, last := stages[..|stages| - 1], stages[|stages| - 1];
      SerialInOrder(cfg, front);
      assert front != [] ==> front[|front| - 1].at <= last.at;
      if !last.Look? { InOrderMore(Serial(cfg, front), Ending(Run(cfg, front).value, last)); }
    }
  }

  /** The bound on failures holds of overlapping attempts as long as none ends after its address
      was blocked. */
  lemma TimelyRateBound(cfg: Config, stages: seq<Stage>, ip: string)
    requires cfg.blockDuration > cfg.windowSize >= 0 && StagesInOrder(stages)
    requires Run(cfg, stages).Some? && AllTimely(cfg, stages)
    ensures Sparse(FailureTimes(cfg, stages, ip), cfg.windowSize, 2 * Capacity(cfg) - 2)
  {
    hide Sparse, Run;
    TimelyIsSerial(cfg, stages, ip);
    SerialInOrder(cfg, stages);
    FailureRateBound(cfg, Serial(cfg, stages), ip);
  }

  /** A failure recorded for a blocked address lifts the block exactly when the window in which the
      block was set is over. */
  lemma LateFailureLifts(cfg: Config, attempts: Attempts, ip: string, at: int)
    requires cfg.blockDuration > 0 && Blocked(cfg, attempts, ip, at)
    ensures Blocked(cfg, attempts[ip := Failed(cfg, attempts, ip, at)], ip, at)
            <==> at - attempts[ip].firstTime <= cfg.windowSize
  {
  }

  // ----- one attempt of an address at a time -----

  function OpenOf(open: map<int, string>, ip: string): set<int> {
    set id | id in open && open[id] == ip
  }

  /** No address has more than k attempts open at any moment of the run. */
  ghost predicate AtMostOpen(cfg: Config, stages: seq<Stage>, k: nat)
    requires Run(cfg, stages).Some?
  {
    && (forall ip :: |OpenOf(Run(cfg, stages).value.open, ip)| <= k)
    && (stages == [] || AtMostOpen(cfg, stages[..|stages| - 1], k))
  }

  /** The attempts that were let in would still be let in. */
  predicate StillLetIn(cfg: Config, w: World, now: int) {
    forall id :: id in w.open ==> !Blocked(cfg, w.attempts, w.open[id], now)
  }

  lemma OnlyOne(ids: set<int>, i: int, j: int)
    requires |ids| <= 1 && i in ids && j in ids
    ensures i == j
  {
    var both := {i, j};
    assert ids == both + (ids - both);
    assert i != j ==> |both| == 2;
  }

  lemma BlockEnds(cfg: Config, attempts: Attempts, ip: string, now: int, later: int)
    requires !Blocked(cfg, attempts, ip, now) && now <= later
    ensures !Blocked(cfg, attempts, ip, later)
  {
  }

  lemma OneOpenStep(cfg: Config, w: World, e: Stage, now: int)
    requires Legal(w, e) && StillLetIn(cfg, w, now) && now <= e.at
    requires forall ip :: |OpenOf(w.open, ip)| <= 1
    ensures Timely(cfg, w, e) && StillLetIn(cfg, StageStep(cfg, w, e), e.at)
  {
    hide Failed, Stale;
    forall id | id in w.open ensures !Blocked(cfg, w.attempts, w.open[id], e.at) {
      BlockEnds(cfg, w.attempts, w.open[id], now, e.at);
    }
    if e.Fail? || e.Succeed? {
      forall id | id in w.open && id != e.id ensures w.open[id] != w.open[e.id] {
        if w.open[id] == w.open[e.id] { OnlyOne(OpenOf(w.open, w.open[id]), id, e.id); }
      }
    }
  }

  lemma {:induction false} OneOpenTimely(cfg: Config, stages: seq<Stage>)
    requires StagesInOrder(stages) && Run(cfg, stages).Some? && AtMostOpen(cfg, stages, 1)
    ensures AllTimely(cfg, stages)
    ensures stages != [] ==> StillLetIn(cfg, Run(cfg, stages).value, stages[|stages| - 1].at)
  {
    if stages == [] {
    } else {
      hide StageStep, StillLetIn, Timely, OpenOf;
      var front, last := stages[..|stages| - 1], stages[|stages| - 1];
      OneOpenTimely(cfg, front);
      var now := if front == [] then last.at else front[|front| - 1].at;
      assert now <= last.at;
      if front == [] { NothingOpen(cfg, now); }
      OneOpenStep(cfg, Run(cfg, front).value, last, now);
    }
  }

  lemma NothingOpen(cfg: Config, now: int)
    ensures StillLetIn(cfg, Run(cfg, []).value, now)
  {
  }

  lemma {:induction false} AtMostMore(cfg: Config, stages: seq<Stage>, k: nat, more: nat)
    requires Run(cfg, stages).Some? && AtMostOpen(cfg, stages, k) && k <= more
    ensures AtMostOpen(cfg, stages, more)
  {
    if stages != [] {
      hide Run, OpenOf;
      AtMostMore(cfg, stages[..|stages| - 1], k, more);
    }
  }

  // ----- two at a time -----

  lemma RunMore(cfg: Config, stages: seq<Stage>, e: Stage, ip: string)
    requires Run(cfg, stages).Some? && Legal(Run(cfg, stages).value, e)
    ensures Run(cfg, stages + [e]) == Some(StageStep(cfg, Run(cfg, stages).value, e))
    ensures FailureTimes(cfg, stages + [e], ip) ==
            var open := Run(cfg, stages).value.open;
            if e.Fail? && open[e.id] == ip then FailureTimes(cfg, stages, ip) + [e.at]
            else if e.Succeed? && open[e.id] == ip then [] else FailureTimes(cfg, stages, ip)
  {
    hide StageStep;
    assert (stages + [e])[..|stages|] == stages;
  }

  lemma AtMostTwo(cfg: Config, stages: seq<Stage>, e: Stage)
    requires Run(cfg, stages).Some? && AtMostOpen(cfg, stages, 2) && Run(cfg, stages + [e]).Some?
    requires Run(cfg, stages + [e]).value.open.Keys <= {0, 1}
    ensures AtMostOpen(cfg, stages + [e], 2)
  {
    hide Run;
    assert (stages + [e])[..|stages|] == stages;
    var open := Run(cfg, stages + [e]).value.open;
    forall ip ensures |OpenOf(open, ip)| <= 2 {
      Among(OpenOf(open, ip));
    }
  }

  lemma Among(ids: set<int>)
    requires ids <= {0, 1}
    ensures |ids| <= 2
  {
    assert {0, 1} == ids + ({0, 1} - ids);
    assert |{0, 1}| == 2;
  }

  /** What is known of the run so far: the attempts open, the entry and the failures of the address,
      and never more than two attempts open. */
  ghost predicate SoFar(cfg: Config, stages: seq<Stage>, ip: string, open: map<int, string>, info: Option<AttemptInfo>,
                        times: seq<int>, now: int)
  {
    && Run(cfg, stages).Some? && AtMostOpen(cfg, stages, 2) && FailureTimes(cfg, stages, ip) == times
    && var w := Run(cfg, stages).value;
    && w.open == open && (if ip in w.attempts then Some(w.attempts[ip]) else None) == info
    && StagesInOrder(stages) && forall e :: e in stages ==> e.at <= now
  }

  lemma FollowLook(cfg: Config, stages: seq<Stage>, ip: string, open: map<int, string>, info: Option<AttemptInfo>,
                   times: seq<int>, now: int, id: int, at: int)
    requires SoFar(cfg, stages, ip, open, info, times, now) && now <= at && id !in open && 0 <= id <= 1
    requires open.Keys <= {0, 1} && (info.Some? ==> info.value.blockedAt.None?)
    ensures SoFar(cfg, stages + [Look(id, ip, at)], ip, open[id := ip], info, times, at)
  {
    hide Run, AtMostOpen, FailureTimes;
    var e := Look(id, ip, at);
    RunMore(cfg, stages, e, ip);
    AtMostTwo(cfg, stages, e);
  }

  lemma FollowFail(cfg: Config, stages: seq<Stage>, ip: string, open: map<int, string>, info: Option<AttemptInfo>,
                   times: seq<int>, now: int, id: int, at: int)
    requires SoFar(cfg, stages, ip, open, info, times, now) && now <= at && id in open && open[id] == ip
    requires open.Keys <= {0, 1}
    ensures SoFar(cfg, stages + [Fail(id, at)], ip, open - {id}, Some(FailedInfo(cfg, info, at)), times + [at], at)
  {
    hide Run, AtMostOpen, FailureTimes;
    var e := Fail(id, at);
    RunMore(cfg, stages, e, ip);
    AtMostTwo(cfg, stages, e);
  }

  /** The entry of an address after a failure, from its entry before. */
  function FailedInfo(cfg: Config, info: Option<AttemptInfo>, now: int): AttemptInfo {
    if info.None? then Failed(cfg, map[], "", now) else Failed(cfg, map["" := info.value], "", now)
  }

  /** n attempts one after the other, all failing at one moment. */
  function Burst(ip: string, at: int, n: nat): seq<Stage> {
    if n == 0 then [] else Burst(ip, at, n - 1) + [Look(1, ip, at)] + [Fail(1, at)]
  }

  function Copies(at: int, n: nat): (times: seq<int>)
    ensures |times| == n && forall i :: 0 <= i < n ==> times[i] == at
  {
    if n == 0 then [] else Copies(at, n - 1) + [at]
  }

  /** A burst that fills the window at most with its last failure. */
  lemma {:induction false} FollowBurst(cfg: Config, stages: seq<Stage>, ip: string, open: map<int, string>,
                                       info: AttemptInfo, times: seq<int>, now: int, at: int, n: nat)
    requires SoFar(cfg, stages, ip, open, Some(info), times, now) && now <= at && open.Keys <= {0}
    requires info.blockedAt.None? && at - info.firstTime <= cfg.windowSize && info.count >= 1
    requires info.count + n <= Capacity(cfg)
    ensures SoFar(cfg, stages + Burst(ip, at, n), ip, open,
                  Some(AttemptInfo(info.count + n, info.firstTime,
                                   if n > 0 && info.count + n >= Capacity(cfg) then Some(at) else None)),
                  times + Copies(at, n), if n == 0 then now else at)
  {
    hide SoFar, Capacity;
    if n == 0 {
      assert stages + Burst(ip, at, 0) == stages && times + Copies(at, 0) == times;
      assert AttemptInfo(info.count + 0, info.firstTime, None) == info;
    } else {
      FollowBurst(cfg, stages, ip, open, info, times, now, at, n - 1);
      OneMoreOfBurst(stages, ip, times, at, n);
      FollowAttempt(cfg, stages + Burst(ip, at, n - 1), ip, open, AttemptInfo(info.count + n - 1, info.firstTime, None),
                    times + Copies(at, n - 1), if n == 1 then now else at, at);
    }
  }

  lemma OneMoreOfBurst(stages: seq<Stage>, ip: string, times: seq<int>, at: int, n: nat)
    requires n > 0
    ensures stages + Burst(ip, at, n - 1) + [Look(1, ip, at)] + [Fail(1, at)] == stages + Burst(ip, at, n)
    ensures times + Copies(at, n - 1) + [at] == times + Copies(at, n)
  {
    assert Copies(at, n) == Copies(at, n - 1) + [at];
  }

  lemma FollowAttempt(cfg: Config, stages: seq<Stage>, ip: string, open: map<int, string>, info: AttemptInfo,
                      times: seq<int>, now: int, at: int)
    requires SoFar(cfg, stages, ip, open, Some(info), times, now) && now <= at && open.Keys <= {0}
    requires info.blockedAt.None? && at - info.firstTime <= cfg.windowSize && 1 <= info.count
    ensures SoFar(cfg, stages + [Look(1, ip, at)] + [Fail(1, at)], ip, open,
                  Some(AttemptInfo(info.count + 1, info.firstTime,
                                   if info.count + 1 >= Capacity(cfg) then Some(at) else None)),
                  times + [at], at)
  {
    hide SoFar;
    FollowLook(cfg, stages, ip, open, Some(info), times, now, 1, at);
    assert open[1 := ip] - {1} == open;
    FollowFail(cfg, stages + [Look(1, ip, at)], ip, open[1 := ip], Some(info), times, at, 1, at);
  }

  /** One attempt is let in and held; a failure opens a window, which the rest fill at its end; then
      the held attempt fails, which opens the next window, and that is filled at once. */
  function HeldAcross(cfg: Config, ip: string): seq<Stage> {
    var (m, width) := (Capacity(cfg), cfg.windowSize);
    [Look(0, ip, 0)] + [Look(1, ip, 0)] + [Fail(1, 0)] + Burst(ip, width, m - 1)
    + [Fail(0, width + 1)] + Burst(ip, width + 1, m - 1)
  }

  lemma HeldAcrossRun(cfg: Config, ip: string)
    requires cfg.windowSize >= 1
    ensures var (m, width) := (Capacity(cfg), cfg.windowSize); var stages := HeldAcross(cfg, ip);
            && Run(cfg, stages).Some? && StagesInOrder(stages) && AtMostOpen(cfg, stages, 2)
            && FailureTimes(cfg, stages, ip)
               == [0] + Copies(width, m - 1) + [width + 1] + Copies(width + 1, m - 1)
  {
    var (m, width) := (Capacity(cfg), cfg.windowSize);
    NothingSoFar(cfg, ip);
    hide SoFar, Run, AtMostOpen, FailureTimes, StagesInOrder;
    FollowLook(cfg, [], ip, map[], None, [], 0, 0, 0);
    var one := [Look(0, ip, 0)];
    assert [] + one == one && [] + [0] == [0];
    FollowLook(cfg, one, ip, map[0 := ip], None, [], 0, 1, 0);
    var two := one + [Look(1, ip, 0)];
    assert map[][0 := ip] == map[0 := ip] && map[0 := ip][1 := ip] - {1} == map[0 := ip];
    FollowFail(cfg, two, ip, map[0 := ip][1 := ip], None, [], 0, 1, 0);
    var three := two + [Fail(1, 0)];
    FollowBurst(cfg, three, ip, map[0 := ip], AttemptInfo(1, 0, None), [0], 0, width, m - 1);
    var four, full := three + Burst(ip, width, m - 1), AttemptInfo(m, 0, Some(width));
    var times := [0] + Copies(width, m - 1);
    assert map[0 := ip] - {0} == map[];
    FollowFail(cfg, four, ip, map[0 := ip], Some(full), times, width, 0, width + 1);
    var five := four + [Fail(0, width + 1)];
    FollowBurst(cfg, five, ip, map[], AttemptInfo(1, width + 1, None), times + [width + 1], width + 1, width + 1, m - 1);
    SoFarMeans(cfg, HeldAcross(cfg, ip), ip, map[],
               Some(AttemptInfo(m, width + 1, Some(width + 1))), times + [width + 1] + Copies(width + 1, m - 1), width + 1);
  }

  lemma NothingSoFar(cfg: Config, ip: string)
    ensures SoFar(cfg, [], ip, map[], None, [], 0)
  {
  }

  lemma SoFarMeans(cfg: Config, stages: seq<Stage>, ip: string, open: map<int, string>, info: Option<AttemptInfo>,
                   times: seq<int>, now: int)
    requires SoFar(cfg, stages, ip, open, info, times, now)
    ensures Run(cfg, stages).Some? && StagesInOrder(stages) && AtMostOpen(cfg, stages, 2)
    ensures FailureTimes(cfg, stages, ip) == times
  {
  }

  // ----- the exact condition -----

  /** In every run with at most k attempts of an address open at once, the failures keep to the
      bound. */
  ghost predicate Bounded(cfg: Config, k: nat) {
    forall stages: seq<Stage>, ip: string ::
      StagesInOrder(stages) && Run(cfg, stages).Some? && AtMostOpen(cfg, stages, k)
      ==> Sparse(FailureTimes(cfg, stages, ip), cfg.windowSize, 2 * Capacity(cfg) - 2)
  }

  /** Overlapping attempts keep to the bound exactly when no address has two of them open at once. */
  lemma BoundedExactly(cfg: Config, k: nat)
    requires cfg.blockDuration > cfg.windowSize >= 1
    ensures Bounded(cfg, k) <==> k <= 1
  {
    hide Run, AtMostOpen, FailureTimes, Sparse, StagesInOrder, AllTimely;
    if k <= 1 {
      forall stages: seq<Stage>, ip: string |
        StagesInOrder(stages) && Run(cfg, stages).Some? && AtMostOpen(cfg, stages, k)
        ensures Sparse(FailureTimes(cfg, stages, ip), cfg.windowSize, 2 * Capacity(cfg) - 2)
      {
        AtMostMore(cfg, stages, k, 1);
        OneOpenTimely(cfg, stages);
        TimelyRateBound(cfg, stages, ip);
      }
    } else {
      HeldAcrossRun(cfg, "");
      var stages := HeldAcross(cfg, "");
      AtMostMore(cfg, stages, 2, k);
      TooMany(cfg);
      assert !Bounded(cfg, k);
    }
  }

  lemma TooMany(cfg: Config)
    requires cfg.windowSize >= 1
    ensures var (m, width) := (Capacity(cfg), cfg.windowSize);
            !Sparse([0] + Copies(width, m - 1) + [width + 1] + Copies(width + 1, m - 1), width, 2 * m - 2)
  {
    var (m, width) := (Capacity(cfg), cfg.windowSize);
    var times := [0] + Copies(width, m - 1) + [width + 1] + Copies(width + 1, m - 1);
    assert |times| == 2 * m && times[1] == width && times[2 * m - 1] == width + 1;
  }

  // ----- attempts that are not timely -----

  /** Attempts lo + 1 to hi of one address. */
  function LetIn(ip: string, lo: int, hi: int): (open: map<int, string>)
    ensures forall id :: id in open <==> lo < id <= hi
    ensures forall id :: id in open ==> open[id] == ip
    decreases hi - lo
  {
    if lo >= hi then map[] else LetIn(ip, lo, hi - 1)[hi := ip]
  }

  lemma LetInStep(ip: string, lo: int, hi: int)
    requires lo < hi
    ensures LetIn(ip, lo, hi) == LetIn(ip, lo, hi - 1)[hi := ip] && hi !in LetIn(ip, lo, hi - 1)
    ensures LetIn(ip, lo + 1, hi) == LetIn(ip, lo, hi) - {lo + 1}
    ensures lo + 1 in LetIn(ip, lo, hi) && LetIn(ip, lo, hi)[lo + 1] == ip
  {
  }

  function Checks(ip: string, n: nat): seq<Stage> {
    if n == 0 then [] else Checks(ip, n - 1) + [Look(n, ip, 0)]
  }

  function Fails(ip: string, n: nat, ended: nat): seq<Stage> {
    if ended == 0 then Checks(ip, n) else Fails(ip, n, ended - 1) + [Fail(ended, 0)]
  }

  lemma {:induction false} ChecksRun(cfg: Config, ip: string, n: nat)
    ensures var r := Run(cfg, Checks(ip, n));
            && r.Some? && r.value.attempts == map[] && FailureTimes(cfg, Checks(ip, n), ip) == []
            && r.value.open == LetIn(ip, 0, n)
  {
    if n == 0 {
    } else {
      hide Run, FailureTimes, LetIn, Failed, Cleaned;
      LetInStep(ip, 0, n);
      ChecksRun(cfg, ip, n - 1);
      RunMore(cfg, Checks(ip, n - 1), Look(n, ip, 0), ip);
    }
  }

  lemma {:induction false} FailsRun(cfg: Config, ip: string, n: nat, ended: nat)
    requires ended <= n
    ensures var r := Run(cfg, Fails(ip, n, ended));
            && r.Some? && FailureTimes(cfg, Fails(ip, n, ended), ip) == seq(ended, i => 0)
            && r.value.open == LetIn(ip, ended, n)
  {
    if ended == 0 {
      ChecksRun(cfg, ip, n);
    } else {
      hide Failed, Run, FailureTimes, LetIn;
      LetInStep(ip, ended - 1, n);
      FailsRun(cfg, ip, n, ended - 1);
      RunMore(cfg, Fails(ip, n, ended - 1), Fail(ended, 0), ip);
      assert seq(ended, i => 0) == seq(ended - 1, i => 0) + [0];
    }
  }

  lemma {:induction false} FailsInOrder(ip: string, n: nat, ended: nat)
    ensures forall e :: e in Fails(ip, n, ended) ==> e.at == 0
    decreases ended, n
  {
    if ended > 0 {
      FailsInOrder(ip, n, ended - 1);
    } else if n > 0 {
      FailsInOrder(ip, n - 1, 0);
    }
  }

  /** Overlapping attempts that are not timely obey no bound: any number let in together are all
      recorded at one moment. */
  lemma NoBoundTogether(cfg: Config, ip: string, n: nat)
    requires n >= 1 && cfg.windowSize >= 0
    ensures StagesInOrder(Fails(ip, n, n)) && Run(cfg, Fails(ip, n, n)).Some?
    ensures !Sparse(FailureTimes(cfg, Fails(ip, n, n), ip), cfg.windowSize, n - 1)
  {
    FailsRun(cfg, ip, n, n);
    FailsInOrder(ip, n, n);
    var times := FailureTimes(cfg, Fails(ip, n, n), ip);
    assert times[n - 1] - times[0] <= cfg.windowSize;
  }
}
