/** The call chain the module's documentation describes, beside the one its code builds. In the
    documented chain the retry sees the driver's own errors and the mapper comes last; in the code
    the mapper sits inside, so the retry never sees an error it would retry. */
module DocumentedRetry {
  import opened Prelude
  import opened Errors
  import opened Rows
  import opened Database
  import opened Resilience
  import R = Retry

  /** The breaker's own error takes the place of a failing body's. */
  predicate Replaced(cfg: Config, b: Breaker) {
    Trips(cfg, LetThrough(b)) && cfg.tripRaises
  }

  /** The guarded call with the driver's error left as it is. */
  function RawGuarded(cfg: Config, w: World, s: Statement, m: Moment): (World, Reply) {
    var (w', r) := Guarded(cfg, w, s, m);
    var served := Served(w.rows, s, m);
    (w', if !Refuses(cfg, w.breaker, m) && m.poolReady && served.Failure? && !Replaced(cfg, w.breaker)
         then Failure(served.error) else r)
  }

  function RawStep(cfg: Config, s: Statement, ms: nat -> Moment): R.Step<World, Answer> {
    (w: World, k: nat) => RawGuarded(cfg, w, s, ms(k))
  }

  function Mapped(r: Reply): Reply {
    if r.Failure? then Failure(MapAsyncpgError(r.error)) else r
  }

  /** retry -> circuit breaker -> driver. The hook between attempts is an ideal one that counts and
      returns; the one in the code asks the failed attempt for its result, which raises. */
  function DocumentedRaw(cfg: Config, w: World, s: Statement, ms: nat -> Moment): R.Run<World, Answer> {
    R.RetryFrom(RawStep(cfg, s, ms), OnRetry(), Transient(), R.Waits(R.QUERY_BACKOFF), cfg.retryAttempts, w, 1, 0.0)
  }

  /** The same, and then the mapper. */
  function DocumentedRun(cfg: Config, w: World, s: Statement, ms: nat -> Moment): R.Run<World, Answer> {
    var run := DocumentedRaw(cfg, w, s, ms);
    R.Run(run.state, Mapped(run.outcome), run.attempts, run.slept)
  }

  // ---------- The documented run, told from the moments ----------

  /** The breaker in front of attempt k, if all attempts before it reached the driver and failed. */
  function BreakerAt(cfg: Config, b: Breaker, ms: nat -> Moment, k: nat): Breaker {
    if k <= 1 then b
    else Settled(cfg, LetThrough(BreakerAt(cfg, b, ms, k - 1)), true, ms(k - 1).finishedAt)
  }

  /** An attempt in front of breaker b reaches the driver and fails there in a transient way, and the
      breaker does not replace the error by its own. */
  predicate FailsForNow(cfg: Config, rows: seq<Row>, b: Breaker, s: Statement, m: Moment) {
    var served := Served(rows, s, m);
    !Refuses(cfg, b, m) && m.poolReady && served.Failure? && IsTransient(served.error) && !Replaced(cfg, b)
  }

  /** The attempt that ends the documented run, from attempt k on: the first that does not fail just
      for now, or the last one allowed. */
  function Deciding(cfg: Config, w: World, s: Statement, ms: nat -> Moment, k: nat): nat
    decreases Max(cfg.retryAttempts - k, 0)
  {
    if !FailsForNow(cfg, w.rows, BreakerAt(cfg, w.breaker, ms, k), s, ms(k)) || k >= cfg.retryAttempts then k
    else Deciding(cfg, w, s, ms, k + 1)
  }

  /** The first attempt fails just for now, and a second one is allowed. */
  predicate RetryDue(cfg: Config, w: World, s: Statement, m: Moment) {
    FailsForNow(cfg, w.rows, w.breaker, s, m) && cfg.retryAttempts >= 2
  }

  /** What an attempt in front of breaker b answers, before any mapping. */
  function RawAnswer(cfg: Config, rows: seq<Row>, b: Breaker, s: Statement, m: Moment): Reply {
    var served := Served(rows, s, m);
    if Refuses(cfg, b, m) then Failure(BREAKER_OPEN)
    else if !m.poolReady then Failure(if Replaced(cfg, b) then BREAKER_OPEN else POOL_MISSING)
    else if served.Success? then Success(served.value.1)
    else if Replaced(cfg, b) then Failure(BREAKER_OPEN)
    else Failure(served.error)
  }

  lemma OwnErrorsAreFinal()
    ensures !IsTransient(BREAKER_OPEN) && !IsTransient(POOL_MISSING)
    ensures MapAsyncpgError(BREAKER_OPEN).classes == {ServiceUnavailable}
    ensures MapAsyncpgError(POOL_MISSING).classes == {Database}
  {
    MapperPartition(BREAKER_OPEN);
    MapperPartition(POOL_MISSING);
    assert BREAKER_OPEN.classes * TRANSIENT == {} && POOL_MISSING.classes * TRANSIENT == {};
    var callerFault := {ForeignKeyViolation, NotNullViolation, CheckViolation, DataError};
    assert BREAKER_OPEN.classes * callerFault == {} && POOL_MISSING.classes * callerFault == {};
  }

  /** One attempt, with and without the mapper inside, and what a failing one leaves behind. */
  lemma OneAttempt(cfg: Config, w: World, s: Statement, m: Moment)
    ensures RawGuarded(cfg, w, s, m).1 == RawAnswer(cfg, w.rows, w.breaker, s, m)
    ensures Guarded(cfg, w, s, m).1
         == var served := Served(w.rows, s, m);
            if !Refuses(cfg, w.breaker, m) && m.poolReady && served.Failure? && !Replaced(cfg, w.breaker)
            then Failure(MapAsyncpgError(served.error)) else RawAnswer(cfg, w.rows, w.breaker, s, m)
    ensures RawGuarded(cfg, w, s, m).0.metrics.retries == w.metrics.retries
    ensures FailsForNow(cfg, w.rows, w.breaker, s, m) ==>
            var w' := RawGuarded(cfg, w, s, m).0;
            w'.rows == w.rows && w'.breaker == Settled(cfg, LetThrough(w.breaker), true, m.finishedAt)
  {
    hide Served, MapAsyncpgError, MapsBreakerError, GaugeValue, Settled;
  }

  lemma FinalUnlessForNow(cfg: Config, rows: seq<Row>, b: Breaker, s: Statement, m: Moment)
    ensures R.Final(RawAnswer(cfg, rows, b, s, m), Transient()) <==> !FailsForNow(cfg, rows, b, s, m)
  {
    OwnErrorsAreFinal();
    hide Served, Replaced, Refuses, IsTransient, MapAsyncpgError;
  }

  lemma {:induction false} DocumentedFrom(cfg: Config, w: World, s: Statement, ms: nat -> Moment, now: World, k: nat,
                                          slept: real)
    requires k >= 1 && now.rows == w.rows && now.breaker == BreakerAt(cfg, w.breaker, ms, k)
    ensures var run := R.RetryFrom(RawStep(cfg, s, ms), OnRetry(), Transient(), R.Waits(R.QUERY_BACKOFF),
                                   cfg.retryAttempts, now, k, slept);
            var a := Deciding(cfg, w, s, ms, k);
            && run.attempts == a && a >= k
            && run.state.metrics.retries == now.metrics.retries + (a - k)
            && run.outcome == RawAnswer(cfg, w.rows, BreakerAt(cfg, w.breaker, ms, a), s, ms(a))
    decreases Max(cfg.retryAttempts - k, 0)
  {
    hide RawGuarded, RawAnswer, FailsForNow, Settled, LetThrough, R.Waits;
    OneAttempt(cfg, now, s, ms(k));
    FinalUnlessForNow(cfg, w.rows, now.breaker, s, ms(k));
    if FailsForNow(cfg, w.rows, now.breaker, s, ms(k)) && k < cfg.retryAttempts {
      DocumentedFrom(cfg, w, s, ms, Retried(RawGuarded(cfg, now, s, ms(k)).0), k + 1,
                     slept + R.Waits(R.QUERY_BACKOFF)(k));
    }
  }

  /** The documented chain ends with the deciding attempt, answers what that attempt meets, and counts
      the retries before it. */
  lemma DocumentedExactly(cfg: Config, w: World, s: Statement, ms: nat -> Moment)
    ensures var run := DocumentedRun(cfg, w, s, ms);
            var a := Deciding(cfg, w, s, ms, 1);
            && run.attempts == a && run.state.metrics.retries == w.metrics.retries + a - 1
            && run.outcome == Mapped(RawAnswer(cfg, w.rows, BreakerAt(cfg, w.breaker, ms, a), s, ms(a)))
            && (a == 1 <==> !RetryDue(cfg, w, s, ms(1)))
  {
    hide R.RetryFrom, RawAnswer, FailsForNow, Mapped;
    DocumentedFrom(cfg, w, s, ms, w, 1, 0.0);
    if RetryDue(cfg, w, s, ms(1)) {
      DecidingLater(cfg, w, s, ms, 2);
    }
  }

  lemma {:induction false} DecidingLater(cfg: Config, w: World, s: Statement, ms: nat -> Moment, k: nat)
    ensures Deciding(cfg, w, s, ms, k) >= k
    decreases Max(cfg.retryAttempts - k, 0)
  {
    hide FailsForNow;
    if k < cfg.retryAttempts {
      DecidingLater(cfg, w, s, ms, k + 1);
    }
  }

  // ---------- Code and documentation ----------

  /** The code makes as many attempts as documented exactly when no retry is due. */
  lemma RetriesAsDocumentedIff(cfg: Config, w: World, s: Statement, ms: nat -> Moment)
    ensures QueryRun(cfg, w, s, ms).attempts == DocumentedRun(cfg, w, s, ms).attempts
        <==> !RetryDue(cfg, w, s, ms(1))
  {
    QueryRunsOnce(cfg, w, s, ms);
    DocumentedExactly(cfg, w, s, ms);
    hide QueryRun, DocumentedRun, RetryDue, Deciding, Guarded;
  }

  /** An attempt in front of breaker b maps to what the transient error `first` maps to: it is turned
      away or replaced by the breaker and `first` too is one of the breaker's errors; or it fails in
      the driver with an error mapped like `first`. */
  predicate EndsLike(cfg: Config, rows: seq<Row>, b: Breaker, s: Statement, m: Moment, first: PyError) {
    var served := Served(rows, s, m);
    if Refuses(cfg, b, m) || ((m.poolReady ==> served.Failure?) && Replaced(cfg, b)) then MapsBreakerError(first)
    else m.poolReady && served.Failure? && MapAsyncpgError(served.error) == MapAsyncpgError(first)
  }

  lemma BreakerErrorMapped(e: PyError)
    ensures MapAsyncpgError(e) == MapAsyncpgError(BREAKER_OPEN) <==> MapsBreakerError(e)
  {
    OwnErrorsAreFinal();
    MapperPartition(e);
    OneClass(e, UniqueViolation);
    OneClass(e, CircuitBreakerOpen);
    var callerFault := {ForeignKeyViolation, NotNullViolation, CheckViolation, DataError};
    AnyClass(e, callerFault);
    AnyClass(e, callerFault + {UniqueViolation});
    assert callerFault + {UniqueViolation}
        == {UniqueViolation, ForeignKeyViolation, NotNullViolation, CheckViolation, DataError};
    UnavailableIsOne(e);
    UnavailableIsOne(BREAKER_OPEN);
    hide MapAsyncpgError, IsInstance;
  }

  lemma UnavailableIsOne(e: PyError)
    ensures MapAsyncpgError(e).classes == {ServiceUnavailable} ==>
            MapAsyncpgError(e)
            == PyError("ServiceUnavailableError", {ServiceUnavailable},
                       "Database circuit breaker is open \U{2014} service temporarily unavailable")
  {
    MapperExactly(e);
    hide MapAsyncpgError;
    assert Conflict !in {ServiceUnavailable} && BadRequest !in {ServiceUnavailable} && Database !in {ServiceUnavailable};
  }

  /** A missing pool is never reported like a transient error. */
  lemma PoolErrorMapped(e: PyError)
    requires IsTransient(e)
    ensures MapAsyncpgError(e) != MapAsyncpgError(POOL_MISSING)
  {
    var own := POOL_MISSING.classes;
    assert own * TRANSIENT == {} && own * {UniqueViolation} == {} && own * {ForeignKeyViolation} == {}
        && own * {NotNullViolation} == {} && own * {CheckViolation} == {} && own * {DataError} == {}
        && own * {CircuitBreakerOpen} == {};
    assert MapAsyncpgError(POOL_MISSING) == PyError("DatabaseError", {Database}, POOL_MISSING.message);
    assert |POOL_MISSING.message| != |"Database is temporarily unreachable"|;
    MessageOfTransient(e);
    hide MapAsyncpgError;
  }

  lemma MessageOfTransient(e: PyError)
    requires IsTransient(e)
    ensures MapAsyncpgError(e).classes == {Database} ==>
            MapAsyncpgError(e) == PyError("DatabaseError", {Database}, "Database is temporarily unreachable")
  {
    MapperExactly(e);
    TransientIff(e);
    hide MapAsyncpgError, IsTransient;
    assert Conflict !in {Database} && BadRequest !in {Database} && ServiceUnavailable !in {Database};
  }

  /** The code answers as documented exactly when: a retry is due, and the attempt that ends the
      documented run is answered like the first one; or none is due, the breaker admits the call, there
      is a pool, and the breaker does not put its own error in place of a failing body's. In every
      other case without a retry the code's answer is an error the mapper never saw. */
  lemma OutcomeAsDocumentedIff(cfg: Config, w: World, s: Statement, ms: nat -> Moment)
    ensures var m := ms(1);
            var served := Served(w.rows, s, m);
            QueryRun(cfg, w, s, ms).outcome == DocumentedRun(cfg, w, s, ms).outcome
            <==>
            if RetryDue(cfg, w, s, m) then
              var a := Deciding(cfg, w, s, ms, 2);
              EndsLike(cfg, w.rows, BreakerAt(cfg, w.breaker, ms, a), s, ms(a), served.error)
            else
              !Refuses(cfg, w.breaker, m) && m.poolReady && !(served.Failure? && Replaced(cfg, w.breaker))
  {
    hide QueryRun, DocumentedRun, MapAsyncpgError, MapsBreakerError, Served, Guarded, RawGuarded, BreakerAt, IsTransient,
      Refuses, Replaced;
    QueryRunsOnce(cfg, w, s, ms);
    DocumentedExactly(cfg, w, s, ms);
    OneAttempt(cfg, w, s, ms(1));
    if RetryDue(cfg, w, s, ms(1)) {
      var served := Served(w.rows, s, ms(1));
      BreakerErrorMapped(served.error);
      PoolErrorMapped(served.error);
      assert BreakerAt(cfg, w.breaker, ms, 1) == w.breaker by {
        FirstBreaker(cfg, w.breaker, ms);
      }
    } else {
      OwnErrorsAreFinal();
      FirstBreaker(cfg, w.breaker, ms);
    }
  }

  lemma FirstBreaker(cfg: Config, b: Breaker, ms: nat -> Moment)
    ensures BreakerAt(cfg, b, ms, 1) == b
  {
  }

  /** A refused call: the code raises the breaker's own error, which the mapper's branch for it never
      sees; the documented chain would have answered that the service is unavailable. */
  lemma RefusalNotMapped(w: World, s: Statement)
    requires w.breaker == Breaker(Open, 5, 0)
    ensures QueryRun(SETTINGS, w, s, LostOnce()).outcome == Failure(BREAKER_OPEN)
    ensures DocumentedRun(SETTINGS, w, s, LostOnce()).outcome == Failure(MapAsyncpgError(BREAKER_OPEN))
    ensures MapAsyncpgError(BREAKER_OPEN).classes == {ServiceUnavailable}
  {
    QueryRunsOnce(SETTINGS, w, s, LostOnce());
    DocumentedExactly(SETTINGS, w, s, LostOnce());
    OneAttempt(SETTINGS, w, s, LostOnce()(1));
    OwnErrorsAreFinal();
    FirstBreaker(SETTINGS, w.breaker, LostOnce());
    hide QueryRun, DocumentedRun, MapAsyncpgError, Served, Guarded, RawGuarded;
  }

  const LOST_CONNECTION := PyError("ConnectionDoesNotExistError", {PostgresConnection}, "connection was closed")

  const SETTINGS := Config(5, 30, 3, true)

  /** A healthy database. */
  function Healthy(): Moment {
    Moment(0, 0, true, None, 0, (r: Row) => 0)
  }

  /** The connection is lost during the first attempt only. */
  function LostOnce(): nat -> Moment {
    (k: nat) => if k == 1 then Healthy().(fault := Some(LOST_CONNECTION)) else Healthy()
  }

  /** One lost connection, then a healthy database, under the default settings: the documented chain
      counts the items on its second attempt, the code reports the database as unreachable. */
  lemma LostConnectionNotRetried(w: World)
    requires w.breaker == Breaker(Closed, 0, 0)
    ensures QueryRun(SETTINGS, w, CountItems, LostOnce()).outcome
         == Failure(PyError("DatabaseError", {Database}, "Database is temporarily unreachable"))
    ensures DocumentedRun(SETTINGS, w, CountItems, LostOnce()).outcome == Success(Scalar(|w.rows|))
    ensures DocumentedRun(SETTINGS, w, CountItems, LostOnce()).attempts == 2
  {
    QueryRunsOnce(SETTINGS, w, CountItems, LostOnce());
    LostConnectionMapped();
    FirstAttemptLost(w);
    var (w1, r1) := RawGuarded(SETTINGS, w, CountItems, LostOnce()(1));
    SecondAttemptCounts(Retried(w1));
    R.RetryTwice(RawStep(SETTINGS, CountItems, LostOnce()), OnRetry(), Transient(), R.Waits(R.QUERY_BACKOFF), 3, w);
    hide MapAsyncpgError, RawGuarded, QueryRun, R.RetryFrom, R.Waits;
  }

  lemma FirstAttemptLost(w: World)
    requires w.breaker == Breaker(Closed, 0, 0)
    ensures var (w1, r1) := RawGuarded(SETTINGS, w, CountItems, LostOnce()(1));
            r1 == Failure(LOST_CONNECTION) && w1.rows == w.rows && w1.breaker == Breaker(Closed, 1, 0)
    ensures Guarded(SETTINGS, w, CountItems, LostOnce()(1)).1 == Failure(MapAsyncpgError(LOST_CONNECTION))
  {
    hide MapAsyncpgError, MapsBreakerError, GaugeValue;
    var m := LostOnce()(1);
    assert m == Healthy().(fault := Some(LOST_CONNECTION));
    assert Served(w.rows, CountItems, m) == Failure(LOST_CONNECTION);
    assert !Refuses(SETTINGS, w.breaker, m) && !Trips(SETTINGS, w.breaker);
    assert Body(w, CountItems, m).1 == Failure(MapAsyncpgError(LOST_CONNECTION));
  }

  lemma SecondAttemptCounts(w: World)
    requires w.breaker == Breaker(Closed, 1, 0)
    ensures RawGuarded(SETTINGS, w, CountItems, LostOnce()(2)).1 == Success(Scalar(|w.rows|))
  {
    hide MapAsyncpgError, MapsBreakerError, GaugeValue;
    var m := LostOnce()(2);
    assert m == Healthy();
    assert Served(w.rows, CountItems, m) == Success((w.rows, Scalar(|w.rows|)));
    assert Body(w, CountItems, m).1 == Success(Scalar(|w.rows|));
  }

  lemma LostConnectionMapped()
    ensures IsTransient(LOST_CONNECTION)
    ensures MapAsyncpgError(LOST_CONNECTION)
         == PyError("DatabaseError", {Database}, "Database is temporarily unreachable")
  {
    assert PostgresConnection in LOST_CONNECTION.classes * TRANSIENT;
    assert LOST_CONNECTION.classes * {UniqueViolation} == {};
    assert LOST_CONNECTION.classes * {ForeignKeyViolation} == {};
    assert LOST_CONNECTION.classes * {NotNullViolation} == {};
    assert LOST_CONNECTION.classes * {CheckViolation} == {};
    assert LOST_CONNECTION.classes * {DataError} == {};
    assert LOST_CONNECTION.classes * {CircuitBreakerOpen} == {};
  }
}
