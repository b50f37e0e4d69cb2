/** `execute_query`: retry around a circuit breaker around a body that runs one statement, maps the
    driver's errors and counts metrics. The breaker protocol (closed, open, half-open) is the one
    aiobreaker documents and is an assumption of this model. */
module Resilience {
  import opened Prelude
  import opened Errors
  import opened Rows
  import opened Database
  import R = Retry

  /** `tripRaises`: whether the call that opens the breaker raises CircuitBreakerError in place of
      its own error. The results below hold either way. */
  datatype Config = Config(failMax: int, timeout: int, retryAttempts: int, tripRaises: bool)

  datatype State = Closed | HalfOpen | Open

  datatype Breaker = Breaker(state: State, failures: nat, openedAt: int)

  /** DB_QUERY_DURATION observations, DB_QUERY_ERRORS_TOTAL by type name, DB_RETRY_TOTAL,
      DB_CIRCUIT_BREAKER_STATE. */
  datatype Metrics = Metrics(durations: nat, errors: multiset<string>, retries: nat, gauge: int)

  datatype World = World(rows: seq<Row>, breaker: Breaker, metrics: Metrics)

  /** What one attempt meets: the application's clock before and after, whether `get_pool()` finds a
      pool, an error the connection raises before the statement takes effect, the transaction start
      time, and the plan's order among ties. */
  datatype Moment = Moment(
    startedAt: int, finishedAt: int, poolReady: bool, fault: Option<PyError>, now: int, tie: Row -> int)

  type Reply = Result<Answer, PyError>

  /** `get_circuit_breaker_state`. */
  function StateName(b: Breaker): string {
    match b.state
    case Closed => "closed"
    case Open => "open"
    case HalfOpen => "half-open"
  }

  /** The value `_update_cb_gauge` sets. */
  function GaugeValue(b: Breaker): int {
    var name := StateName(b);
    if name == "closed" then 0
    else if name == "half-open" then 1
    else if name == "open" then 2
    else -1
  }

  // ---------- The body ----------

  /** The statement's effect at this moment. */
  function Served(rows: seq<Row>, s: Statement, m: Moment): Result<(seq<Row>, Answer), PyError> {
    if m.fault.Some? then Failure(m.fault.value) else Execute(rows, s, m.now, m.tie)
  }

  /** The mapper reaches its breaker branch, the one that also sets the gauge. */
  predicate MapsBreakerError(e: PyError) {
    IsInstance(e, {CircuitBreakerOpen})
    && !IsInstance(e, {UniqueViolation, ForeignKeyViolation, NotNullViolation, CheckViolation, DataError})
  }

  function Body(w: World, s: Statement, m: Moment): (World, Reply) {
    if !m.poolReady then (w, Failure(POOL_MISSING))
    else
      var r := Served(w.rows, s, m);
      if r.Success? then
        (World(r.value.0, w.breaker,
               w.metrics.(gauge := GaugeValue(w.breaker), durations := w.metrics.durations + 1)),
         Success(r.value.1))
      else
        (w.(metrics := Metrics(w.metrics.durations + 1,
                               w.metrics.errors + multiset{r.error.typeName},
                               w.metrics.retries,
                               if MapsBreakerError(r.error) then GaugeValue(w.breaker) else w.metrics.gauge)),
         Failure(MapAsyncpgError(r.error)))
  }

  // ---------- The breaker around it ----------

  /** An open breaker whose timeout has not passed refuses the call. */
  predicate Refuses(cfg: Config, b: Breaker, m: Moment) {
    b.state == Open && m.startedAt < b.openedAt + cfg.timeout
  }

  /** The breaker while the body runs: an expired open breaker lets one trial call through. */
  function LetThrough(b: Breaker): Breaker {
    if b.state == Open then b.(state := HalfOpen) else b
  }

  predicate Trips(cfg: Config, b: Breaker) {
    b.state == HalfOpen || b.failures + 1 >= cfg.failMax
  }

  /** The breaker after the body returned or raised; any exception counts. */
  function Settled(cfg: Config, b: Breaker, failed: bool, at: int): Breaker {
    if !failed then Breaker(Closed, 0, b.openedAt)
    else if Trips(cfg, b) then Breaker(Open, b.failures + 1, at)
    else b.(failures := b.failures + 1)
  }

  function Guarded(cfg: Config, w: World, s: Statement, m: Moment): (World, Reply) {
    if Refuses(cfg, w.breaker, m) then (w, Failure(BREAKER_OPEN))
    else
      var b := LetThrough(w.breaker);
      var (w', r) := Body(w.(breaker := b), s, m);
      (w'.(breaker := Settled(cfg, b, r.Failure?, m.finishedAt)),
       if r.Failure? && Trips(cfg, b) && cfg.tripRaises then Failure(BREAKER_OPEN) else r)
  }

  // ---------- Retry around both ----------

  function QueryStep(cfg: Config, s: Statement, ms: nat -> Moment): R.Step<World, Answer> {
    (w: World, k: nat) => Guarded(cfg, w, s, ms(k))
  }

  /** `_on_retry`, as far as it counts. That the log call in it asks the failed attempt for its result,
      which raises, makes no difference here: no run gets to the hook. */
  function OnRetry(): World -> World {
    (w: World) => Retried(w)
  }

  function Transient(): PyError -> bool {
    (e: PyError) => IsTransient(e)
  }

  /** The decorated call; attempt k meets moment `ms(k)`. */
  function QueryRun(cfg: Config, w: World, s: Statement, ms: nat -> Moment): R.Run<World, Answer> {
    R.RetryFrom(QueryStep(cfg, s, ms), OnRetry(), Transient(), R.Waits(R.QUERY_BACKOFF),
                cfg.retryAttempts, w, 1, 0.0)
  }

  /** The rest of the run from attempt number `attempt` on. */
  ghost function Remaining(cfg: Config, w: World, s: Statement, ms: nat -> Moment, attempt: nat, slept: real)
    : R.Run<World, Answer>
  {
    R.RetryFrom(QueryStep(cfg, s, ms), OnRetry(), Transient(), R.Waits(R.QUERY_BACKOFF), cfg.retryAttempts,
                w, attempt, slept)
  }

  function Retried(w: World): World {
    w.(metrics := w.metrics.(retries := w.metrics.retries + 1))
  }

  lemma RemainingStart(cfg: Config, w: World, s: Statement, ms: nat -> Moment)
    ensures QueryRun(cfg, w, s, ms) == Remaining(cfg, w, s, ms, 1, 0.0)
  {
    hide R.RetryFrom;
  }

  lemma RemainingUnfolds(cfg: Config, w: World, s: Statement, ms: nat -> Moment, attempt: nat, slept: real)
    ensures var (w', r) := Guarded(cfg, w, s, ms(attempt));
            Remaining(cfg, w, s, ms, attempt, slept)
            == if r.Success? || !IsTransient(r.error) || attempt >= cfg.retryAttempts
               then R.Run(w', r, attempt, slept)
               else Remaining(cfg, Retried(w'), s, ms, attempt + 1, slept + R.Wait(R.QUERY_BACKOFF, attempt))
  {
    hide Guarded, IsTransient, R.Wait;
  }

  lemma GuardedIsFinal(cfg: Config, w: World, s: Statement, m: Moment)
    ensures R.Final(Guarded(cfg, w, s, m).1, Transient())
  {
    assert BREAKER_OPEN.classes * TRANSIENT == {} && POOL_MISSING.classes * TRANSIENT == {};
    var r := Served(w.rows, s, m);
    if r.Failure? {
      MappedIsFinal(r.error);
    }
    hide MapAsyncpgError, Execute, Served;
  }

  /** The retry decorator on `execute_query` never retries: every error that leaves the body is
      already mapped, and the breaker's own error is not in the retry set. On every stream of
      moments there is exactly one attempt, no sleep, and DB_RETRY_TOTAL stays as it is. */
  lemma QueryRunsOnce(cfg: Config, w: World, s: Statement, ms: nat -> Moment)
    ensures var (w', r) := Guarded(cfg, w, s, ms(1));
            QueryRun(cfg, w, s, ms) == R.Run(w', r, 1, 0.0) && w'.metrics.retries == w.metrics.retries
  {
    GuardedIsFinal(cfg, w, s, ms(1));
    hide Execute, Served, MapAsyncpgError;
  }

  /** The module's globals together with the server behind them. */
  class Resilience {
    const cfg: Config
    var rows: seq<Row>
    var breaker: Breaker
    var metrics: Metrics

    constructor (cfg: Config)
      ensures this.cfg == cfg
      ensures View() == World([], Breaker(Closed, 0, 0), Metrics(0, multiset{}, 0, 0))
    {
      this.cfg := cfg;
      rows, breaker, metrics := [], Breaker(Closed, 0, 0), Metrics(0, multiset{}, 0, 0);
    }

    function View(): World
      reads this
    {
      World(rows, breaker, metrics)
    }

    method UpdateGauge()
      modifies this`metrics
      ensures metrics == old(metrics).(gauge := GaugeValue(breaker))
    {
      metrics := metrics.(gauge := GaugeValue(breaker));
    }

    /** The undecorated function. */
    method RunBody(s: Statement, m: Moment) returns (r: Reply)
      modifies this`rows, this`metrics
      ensures (View(), r) == Body(old(View()), s, m)
    {
      hide MapAsyncpgError, MapsBreakerError, GaugeValue, Execute;
      if !m.poolReady {
        return Failure(POOL_MISSING);
      }
      var served := Served(rows, s, m);
      if served.Success? {
        rows := served.value.0;
        UpdateGauge();
        r := Success(served.value.1);
      } else {
        metrics := metrics.(errors := metrics.errors + multiset{served.error.typeName});
        if MapsBreakerError(served.error) {
          UpdateGauge();
        }
        r := Failure(MapAsyncpgError(served.error));
      }
      metrics := metrics.(durations := metrics.durations + 1);
    }

    /** The function under the breaker. */
    method RunGuarded(s: Statement, m: Moment) returns (r: Reply)
      modifies this
      ensures (View(), r) == Guarded(cfg, old(View()), s, m)
    {
      if Refuses(cfg, breaker, m) {
        return Failure(BREAKER_OPEN);
      }
      breaker := LetThrough(breaker);
      r := RunBody(s, m);
      if r.Failure? && Trips(cfg, breaker) && cfg.tripRaises {
        r := Failure(BREAKER_OPEN);
        breaker := Settled(cfg, breaker, true, m.finishedAt);
      } else {
        breaker := Settled(cfg, breaker, r.Failure?, m.finishedAt);
      }
    }

    /** The function under breaker and retry, as tenacity's loop. */
    method ExecuteQuery(s: Statement, ms: nat -> Moment) returns (r: Reply, attempt: nat, slept: real)
      modifies this
      ensures QueryRun(cfg, old(View()), s, ms) == R.Run(View(), r, attempt, slept)
      ensures (View(), r) == Guarded(cfg, old(View()), s, ms(1)) && attempt == 1 && slept == 0.0
    {
      hide Guarded, Remaining, R.RetryFrom, IsTransient, R.Wait;
      QueryRunsOnce(cfg, View(), s, ms);
      attempt, slept := 1, 0.0;
      assert QueryRun(cfg, View(), s, ms) == Remaining(cfg, View(), s, ms, 1, 0.0) by {
        RemainingStart(cfg, View(), s, ms);
      }
      while true
        invariant QueryRun(cfg, old(View()), s, ms) == Remaining(cfg, View(), s, ms, attempt, slept)
        decreases Max(cfg.retryAttempts - attempt, 0)
      {
        RemainingUnfolds(cfg, View(), s, ms, attempt, slept);
        r := RunGuarded(s, ms(attempt));
        if r.Success? || !IsTransient(r.error) || attempt >= cfg.retryAttempts {
          return;
        }
        metrics := metrics.(retries := metrics.retries + 1);
        slept := slept + R.Wait(R.QUERY_BACKOFF, attempt);
        attempt := attempt + 1;
      }
    }
  }
}
