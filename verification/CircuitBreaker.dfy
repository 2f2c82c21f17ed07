/** The circuit breaker automaton (internal/resilience/circuitbreaker.go). Each request is one
    atomic step before the call and one after it; times are nanoseconds. */
module CircuitBreaker {
  import opened Wrappers

  const SECOND: nat := 1_000_000_000

  datatype State = Closed | Open | HalfOpen

  /** isFailure is the optional error filter; errors are their texts. */
  datatype Config = Config(failureThreshold: int, successThreshold: int, timeout: int, halfOpenMaxCalls: int,
                           isFailure: Option<string -> bool>)

  datatype Breaker = Breaker(state: State, failureCount: int, successCount: int, halfOpenCalls: int,
                             lastFailureTime: int, lastStateChange: int)

  predicate Usable(cfg: Config) {
    cfg.failureThreshold > 0 && cfg.successThreshold > 0 && cfg.timeout > 0 && cfg.halfOpenMaxCalls > 0
  }

  predicate IsFailure(cfg: Config, err: Option<string>) {
    err.Some? && (cfg.isFailure.Some? ==> cfg.isFailure.value(err.value))
  }

  function Moved(b: Breaker, state: State, now: int): Breaker {
    if b.state == state then b else Breaker(state, 0, 0, 0, b.lastFailureTime, now)
  }

  /** The breaker after a request asked to start, and whether it may. */
  function Before(cfg: Config, b: Breaker, now: int): (Breaker, bool) {
    match b.state
    case Closed => (b, true)
    case Open =>
      if now - b.lastFailureTime >= cfg.timeout then (Moved(b, HalfOpen, now), true) else (b, false)
    case HalfOpen =>
      if b.halfOpenCalls + 1 > cfg.halfOpenMaxCalls then (b, false)
      else (b.(halfOpenCalls := b.halfOpenCalls + 1), true)
  }

  /** The breaker after a request ended. */
  function After(cfg: Config, b: Breaker, failed: bool, now: int): Breaker {
    match b.state
    case Closed =>
      if !failed then b.(failureCount := 0)
      else
        var b' := b.(failureCount := b.failureCount + 1, lastFailureTime := now);
        if b'.failureCount >= cfg.failureThreshold then Moved(b', Open, now) else b'
    case HalfOpen =>
      var b' := b.(halfOpenCalls := b.halfOpenCalls - 1);
      if failed then Moved(b'.(lastFailureTime := now), Open, now)
      else
        var b'' := b'.(successCount := b.successCount + 1);
        if b''.successCount >= cfg.successThreshold then Moved(b'', Closed, now) else b''
    case Open =>
      if failed then b.(lastFailureTime := now) else b
  }

  class CircuitBreaker {
    const config: Config
    var state: State
    var failureCount: int
    var successCount: int
    var halfOpenCalls: int
    var lastFailureTime: int
    var lastStateChange: int

    function View(): Breaker
      reads this
    {
      Breaker(state, failureCount, successCount, halfOpenCalls, lastFailureTime, lastStateChange)
    }

    /** Each setting that is not positive is replaced by its default, and each other one is kept. */
    constructor (cfg: Config, now: int)
      ensures Usable(config) && (Usable(cfg) ==> config == cfg) && config.isFailure == cfg.isFailure
      ensures config.failureThreshold == cfg.failureThreshold || (cfg.failureThreshold <= 0 && config.failureThreshold == 5)
      ensures config.successThreshold == cfg.successThreshold || (cfg.successThreshold <= 0 && config.successThreshold == 2)
      ensures config.timeout == cfg.timeout || (cfg.timeout <= 0 && config.timeout == 30 * SECOND)
      ensures config.halfOpenMaxCalls == cfg.halfOpenMaxCalls || (cfg.halfOpenMaxCalls <= 0 && config.halfOpenMaxCalls == 3)
      ensures View() == Breaker(Closed, 0, 0, 0, 0, now)
    {
      config := cfg.(failureThreshold := if cfg.failureThreshold <= 0 then 5 else cfg.failureThreshold,
                     successThreshold := if cfg.successThreshold <= 0 then 2 else cfg.successThreshold,
                     timeout := if cfg.timeout <= 0 then 30 * SECOND else cfg.timeout,
                     halfOpenMaxCalls := if cfg.halfOpenMaxCalls <= 0 then 3 else cfg.halfOpenMaxCalls);
      state, failureCount, successCount, halfOpenCalls := Closed, 0, 0, 0;
      lastFailureTime, lastStateChange := 0, now;
    }

    method BeforeRequest(now: int) returns (admitted: bool)
      modifies this
      ensures (View(), admitted) == Before(config, old(View()), now)
    {
      match state
      case Closed =>
        admitted := true;
      case Open =>
        if now - lastFailureTime >= config.timeout {
          TransitionTo(HalfOpen, now);
          return true;
        }
        admitted := false;
      case HalfOpen =>
        halfOpenCalls := halfOpenCalls + 1;
        if halfOpenCalls > config.halfOpenMaxCalls {
          halfOpenCalls := halfOpenCalls - 1;
          return false;
        }
        admitted := true;
    }

    method AfterRequest(err: Option<string>, now: int)
      modifies this
      ensures View() == After(config, old(View()), IsFailure(config, err), now)
    {
      var isFailure := err.Some?;
      if config.isFailure.Some? && err.Some? {
        isFailure := config.isFailure.value(err.value);
      }
      match state
      case Closed =>
        if isFailure {
          failureCount := failureCount + 1;
          lastFailureTime := now;
          if failureCount >= config.failureThreshold {
            TransitionTo(Open, now);
          }
        } else {
          failureCount := 0;
        }
      case HalfOpen =>
        halfOpenCalls := halfOpenCalls - 1;
        if isFailure {
          lastFailureTime := now;
          TransitionTo(Open, now);
        } else {
          successCount := successCount + 1;
          if successCount >= config.successThreshold {
            TransitionTo(Closed, now);
          }
        }
      case Open =>
        if isFailure {
          lastFailureTime := now;
        }
    }

    method TransitionTo(newState: State, now: int)
      modifies this
      ensures View() == Moved(old(View()), newState, now)
    {
      if state == newState {
        return;
      }
      failureCount, successCount, halfOpenCalls := 0, 0, 0;
      lastStateChange := now;
      state := newState;
    }

    method Reset(now: int)
      modifies this
      ensures View() == Moved(old(View()), Closed, now)
    {
      TransitionTo(Closed, now);
    }
  }
}
