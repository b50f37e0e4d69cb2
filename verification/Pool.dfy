/** The connection pool's life cycle: `init_pool` under its startup retry, `close_pool`, `get_pool`
    and the module global they share. Calls are sequential. */
module Pool {
  import opened Prelude
  import opened Errors
  import R = Retry

  const STARTUP_ATTEMPTS := 5

  /** `pool` is the module global; `created` pools were handed out so far, numbered from 0; `closed`
      lists the ones whose `close()` returned, in order; `validated` holds the ones that answered the
      validation query. */
  datatype PoolState = PoolState(pool: Option<nat>, created: nat, closed: seq<nat>, validated: set<nat>)

  /** What one startup attempt meets: the exception `create_pool` raises, if any, and the one that
      acquiring a connection and selecting 1 raises, if any. */
  datatype Startup = Startup(create: Option<PyError>, validate: Option<PyError>)

  function InitAttempt(p: PoolState, e: Startup): (PoolState, Result<nat, PyError>) {
    if p.pool.Some? then (p, Success(p.pool.value))
    else if e.create.Some? then (p, Failure(e.create.value))
    else
      var p' := p.(pool := Some(p.created), created := p.created + 1);
      if e.validate.Some? then (p', Failure(e.validate.value))
      else (p'.(validated := p'.validated + {p.created}), Success(p.created))
  }

  function InitStep(es: nat -> Startup): R.Step<PoolState, nat> {
    (p: PoolState, k: nat) => InitAttempt(p, es(k))
  }

  function NoHook(): PoolState -> PoolState {
    (p: PoolState) => p
  }

  function Retryable(): PyError -> bool {
    (e: PyError) => IsTransient(e)
  }

  function InitFrom(p: PoolState, es: nat -> Startup, attempt: nat, slept: real): R.Run<PoolState, nat> {
    R.RetryFrom(InitStep(es), NoHook(), Retryable(), R.Waits(R.POOL_BACKOFF), STARTUP_ATTEMPTS, p, attempt, slept)
  }

  /** The decorated `init_pool`; attempt k meets `es(k)`. */
  function InitRun(p: PoolState, es: nat -> Startup): R.Run<PoolState, nat> {
    InitFrom(p, es, 1, 0.0)
  }

  // ---------- What one call of init_pool does ----------

  /** The exceptions on which `init_pool` is tried again. */
  predicate TryAgain(e: PyError) {
    || PostgresConnection in e.classes || Interface in e.classes
    || ConnectionRefused in e.classes || OsError in e.classes
  }

  lemma RetriesOnThose()
    ensures forall e :: IsTransient(e) <==> TryAgain(e)
  {
    forall e: PyError
      ensures IsTransient(e) <==> TryAgain(e)
    {
      TransientIff(e);
    }
  }

  /** The first attempt, from `k` on, whose `create_pool` does not fail in a retryable way; 6 if there
      is none among the five. */
  function Deciding(es: nat -> Startup, k: nat): nat
    decreases STARTUP_ATTEMPTS + 1 - k
  {
    if k > STARTUP_ATTEMPTS then STARTUP_ATTEMPTS + 1
    else if es(k).create.Some? && TryAgain(es(k).create.value) then Deciding(es, k + 1)
    else k
  }

  /** The outcome, told without the loop. */
  ghost predicate InitOutcome(p: PoolState, es: nat -> Startup, r: R.Run<PoolState, nat>) {
    var j := Deciding(es, 1);
    if p.pool.Some? then
      // already initialised: nothing is created or validated
      r.state == p && r.outcome == Success(p.pool.value) && r.attempts == 1
    else if j > STARTUP_ATTEMPTS then
      // five retryable creation failures: the last one is raised
      r.state == p && r.outcome == Failure(es(STARTUP_ATTEMPTS).create.value) && r.attempts == STARTUP_ATTEMPTS
    else if es(j).create.Some? then
      // another creation failure is raised at once
      r.state == p && r.outcome == Failure(es(j).create.value) && r.attempts == j
    else
      // one pool is created and stays in the global, whatever validation says
      && r.state == p.(pool := Some(p.created), created := p.created + 1,
                       validated := p.validated + (if es(j).validate.None? then {p.created} else {}))
      && if es(j).validate.None? then r.outcome == Success(p.created) && r.attempts == j
         else if TryAgain(es(j).validate.value) && j < STARTUP_ATTEMPTS then
           // the next attempt finds the pool set and returns it without validating it
           r.outcome == Success(p.created) && r.attempts == j + 1
         else r.outcome == Failure(es(j).validate.value) && r.attempts == j
  }

  lemma {:induction false} InitFromOutcome(p: PoolState, es: nat -> Startup, k: nat, slept: real)
    requires p.pool.None? && 1 <= k <= STARTUP_ATTEMPTS && Deciding(es, 1) == Deciding(es, k)
    ensures InitOutcome(p, es, InitFrom(p, es, k, slept))
    decreases STARTUP_ATTEMPTS - k
  {
    hide IsTransient, TryAgain, R.Waits;
    RetriesOnThose();
    var (p', o) := InitAttempt(p, es(k));
    if o.Failure? && IsTransient(o.error) && k < STARTUP_ATTEMPTS {
      var slept' := slept + R.Waits(R.POOL_BACKOFF)(k);
      assert InitFrom(p, es, k, slept) == InitFrom(p', es, k + 1, slept');
      if p'.pool.None? {
        InitFromOutcome(p, es, k + 1, slept');
      } else {
        InitFromUnfolds(p', es, k + 1, slept');
      }
    } else {
      InitFromUnfolds(p, es, k, slept);
    }
  }

  /** `init_pool`, exactly, for every stream of creation and validation outcomes: at most five
      attempts, at most one creation, at most fifteen seconds of sleep; and the call succeeds
      precisely if the pool was there, or creation gets through behind retryable failures only and
      validation then passes, or fails in a retryable way with an attempt left, in which case the
      caller receives a pool that has never been validated. */
  lemma InitExactly(p: PoolState, es: nat -> Startup)
    ensures var r := InitRun(p, es);
            && InitOutcome(p, es, r)
            && 1 <= r.attempts <= STARTUP_ATTEMPTS
            && p.created <= r.state.created <= p.created + 1
            && r.state.closed == p.closed
            && r.slept == R.Pow2(r.attempts - 1) - 1.0 <= 15.0
  {
    if p.pool.None? {
      InitFromOutcome(p, es, 1, 0.0);
    } else {
      InitFromUnfolds(p, es, 1, 0.0);
    }
    R.RetryExact(InitStep(es), NoHook(), Retryable(), R.Waits(R.POOL_BACKOFF), STARTUP_ATTEMPTS, p);
    R.PoolSleep(InitRun(p, es).attempts);
    hide R.RetryFrom, TryAgain, R.Pow2, R.SleptBefore, R.StateAt, R.Waits;
  }

  /** An exception of any of the four classes at creation, then a clean attempt: success on attempt 2,
      after one second. An exception of none of them is raised at once. */
  lemma SecondAttemptIff(p: PoolState, es: nat -> Startup)
    requires p.pool.None? && es(1).create.Some? && es(2) == Startup(None, None)
    ensures var r, e := InitRun(p, es), es(1).create.value;
            if PostgresConnection in e.classes || Interface in e.classes
               || ConnectionRefused in e.classes || OsError in e.classes
            then r.outcome == Success(p.created) && r.attempts == 2 && r.slept == 1.0
                 && r.state == PoolState(Some(p.created), p.created + 1, p.closed, p.validated + {p.created})
            else r.outcome == Failure(e) && r.attempts == 1 && r.slept == 0.0 && r.state == p
  {
    InitExactly(p, es);
    assert R.Pow2(0) == 1.0 && R.Pow2(1) == 2.0;
    assert Deciding(es, 2) == 2;
    hide InitRun;
  }

  // ---------- Runs of the life cycle ----------

  /** `close()` of the pool may raise; `get_pool` only reads. */
  datatype Event = Init(es: nat -> Startup) | Close(raised: Option<PyError>) | Get

  function Closed(p: PoolState, raised: Option<PyError>): PoolState {
    if p.pool.None? || raised.Some? then p
    else p.(pool := None, closed := p.closed + [p.pool.value])
  }

  function PoolOrError(p: PoolState): Result<nat, PyError> {
    if p.pool.None? then Failure(POOL_MISSING) else Success(p.pool.value)
  }

  ghost function Next(p: PoolState, e: Event): PoolState {
    match e
    case Init(es) => InitRun(p, es).state
    case Close(raised) => Closed(p, raised)
    case Get => p
  }

  ghost function Lifecycle(events: seq<Event>): PoolState {
    if events == [] then PoolState(None, 0, [], {})
    else Next(Lifecycle(events[..|events| - 1]), events[|events| - 1])
  }

  /** Every pool ever created is either closed or the current one, once: the closed ones and the
      current one together are 0, 1, ..., created - 1 in order. */
  ghost predicate Accounted(p: PoolState) {
    && p.created == |p.closed| + (if p.pool.Some? then 1 else 0)
    && (forall i | 0 <= i < |p.closed| :: p.closed[i] == i)
    && (p.pool.Some? ==> p.pool.value == |p.closed|)
    && (forall v | v in p.validated :: v < p.created)
  }

  /** Pool conservation over every sequential run: no pool leaks, none is closed twice, and
      `get_pool` returns the last pool created exactly while one more was created than closed, also when
      that pool failed its validation, and raises RuntimeError otherwise. */
  lemma {:induction false} PoolConservation(events: seq<Event>)
    ensures var p := Lifecycle(events);
            && Accounted(p)
            && (p.created == |p.closed| || p.created == |p.closed| + 1)
            && PoolOrError(p)
               == if p.created == |p.closed| + 1 then Success(p.created - 1)
                  else Failure(PyError("RuntimeError", {RuntimeFault},
                                       "Database pool is not initialised. Call init_pool() first."))
  {
    if events != [] {
      PoolConservation(events[..|events| - 1]);
      var p, e := Lifecycle(events[..|events| - 1]), events[|events| - 1];
      if e.Init? {
        InitExactly(p, e.es);
      }
      hide InitRun;
    }
  }

  // ---------- Pools that were never validated ----------

  /** This call of `init_pool`, made while no pool is set, creates one. */
  predicate Creates(es: nat -> Startup) {
    var j := Deciding(es, 1);
    j <= STARTUP_ATTEMPTS && es(j).create.None?
  }

  /** Whether a pool is set, told from the events alone. */
  predicate HasPool(events: seq<Event>) {
    if events == [] then false
    else
      var e, before := events[|events| - 1], HasPool(events[..|events| - 1]);
      match e
      case Init(es) => before || Creates(es)
      case Close(raised) => before && raised.Some?
      case Get => before
  }

  /** The pool that is set comes from an `init_pool` whose validation raised, and has not been closed
      since. Later calls of `init_pool` do not validate it either. */
  predicate Suspect(events: seq<Event>) {
    if events == [] then false
    else
      var e, before := events[|events| - 1], events[..|events| - 1];
      match e
      case Init(es) =>
        if HasPool(before) then Suspect(before) else Creates(es) && es(Deciding(es, 1)).validate.Some?
      case Close(raised) => raised.Some? && Suspect(before)
      case Get => Suspect(before)
  }

  lemma {:induction false} SuspectOnlyIfSet(events: seq<Event>)
    ensures Suspect(events) ==> HasPool(events)
  {
    hide Deciding;
    if events != [] {
      SuspectOnlyIfSet(events[..|events| - 1]);
    }
  }

  /** Exactly when the current pool has never been validated, over every sequential run. */
  lemma {:induction false} UnvalidatedExactly(events: seq<Event>)
    ensures var p := Lifecycle(events);
            && (p.pool.Some? <==> HasPool(events))
            && (p.pool.Some? && p.pool.value !in p.validated <==> Suspect(events))
  {
    SuspectOnlyIfSet(events);
    if events != [] {
      var before, e := events[..|events| - 1], events[|events| - 1];
      UnvalidatedExactly(before);
      SuspectOnlyIfSet(before);
      PoolConservation(before);
      if e.Init? {
        InitExactly(Lifecycle(before), e.es);
      }
      hide InitRun, Deciding;
    }
  }

  /** `get_pool` hands out an unvalidated pool exactly in a suspect state; `init_pool` hands one out
      exactly if a suspect pool was set, or if creation gets through, validation raises in a retryable
      way, and an attempt is left. */
  lemma HandedOutUnvalidatedIff(events: seq<Event>, es: nat -> Startup)
    ensures var p := Lifecycle(events);
            var got := PoolOrError(p);
            got.Success? && got.value !in p.validated <==> Suspect(events)
    ensures var r := InitRun(Lifecycle(events), es);
            var j := Deciding(es, 1);
            r.outcome.Success? && r.outcome.value !in r.state.validated
            <==> if HasPool(events) then Suspect(events)
                 else Creates(es) && es(j).validate.Some? && TryAgain(es(j).validate.value) && j < STARTUP_ATTEMPTS
  {
    UnvalidatedExactly(events);
    PoolConservation(events);
    InitExactly(Lifecycle(events), es);
    hide InitRun, Deciding, TryAgain;
  }

  const REFUSED := PyError("ConnectionRefusedError", {ConnectionRefused, OsError}, "connection refused")
  const BAD_LOGIN := PyError("InvalidPasswordError", {}, "password authentication failed")

  /** Creation succeeds; the validation query meets `e` whenever it is tried. */
  function ValidationMeets(e: PyError): nat -> Startup {
    (k: nat) => Startup(None, Some(e))
  }

  /** Validation that is always refused: `init_pool` nevertheless succeeds, on its second attempt. */
  lemma RefusedValidationSucceeds()
    ensures var r := InitRun(PoolState(None, 0, [], {}), ValidationMeets(REFUSED));
            r.outcome == Success(0) && r.attempts == 2 && r.state.validated == {}
  {
    assert ConnectionRefused in REFUSED.classes * TRANSIENT;
    assert Deciding(ValidationMeets(REFUSED), 1) == 1;
    InitExactly(PoolState(None, 0, [], {}), ValidationMeets(REFUSED));
    hide InitRun;
  }

  /** A rejected login: the first `init_pool` raises, and the second returns the pool that failed. */
  lemma SecondInitSkipsValidation()
    ensures var first := InitRun(PoolState(None, 0, [], {}), ValidationMeets(BAD_LOGIN));
            var second := InitRun(first.state, ValidationMeets(BAD_LOGIN));
            && first.outcome == Failure(BAD_LOGIN)
            && second.outcome == Success(0) && second.attempts == 1 && second.state.validated == {}
  {
    assert BAD_LOGIN.classes * TRANSIENT == {};
    assert Deciding(ValidationMeets(BAD_LOGIN), 1) == 1;
    InitExactly(PoolState(None, 0, [], {}), ValidationMeets(BAD_LOGIN));
    InitExactly(InitRun(PoolState(None, 0, [], {}), ValidationMeets(BAD_LOGIN)).state, ValidationMeets(BAD_LOGIN));
    hide InitRun;
  }

  /** The module `app.db.pool`. The fields beside `pool` record what the driver saw. */
  class PoolModule {
    var pool: Option<nat>
    var created: nat
    var closed: seq<nat>
    var validated: set<nat>

    constructor ()
      ensures View() == PoolState(None, 0, [], {})
    {
      pool, created, closed, validated := None, 0, [], {};
    }

    function View(): PoolState
      reads this
    {
      PoolState(pool, created, closed, validated)
    }

    /** One undecorated call. */
    method TryInit(e: Startup) returns (r: Result<nat, PyError>)
      modifies this
      ensures (View(), r) == InitAttempt(old(View()), e)
    {
      if pool.Some? {
        return Success(pool.value);
      }
      if e.create.Some? {
        return Failure(e.create.value);
      }
      pool := Some(created);
      created := created + 1;
      if e.validate.Some? {
        return Failure(e.validate.value);
      }
      validated := validated + {pool.value};
      r := Success(pool.value);
    }

    method InitPool(es: nat -> Startup) returns (r: Result<nat, PyError>, attempt: nat, slept: real)
      modifies this
      ensures R.Run(View(), r, attempt, slept) == InitRun(old(View()), es)
      ensures InitOutcome(old(View()), es, R.Run(View(), r, attempt, slept))
      ensures slept <= 15.0 && old(created) <= created <= old(created) + 1
    {
      hide InitAttempt, InitFrom, R.Wait, R.Pow2;
      InitExactly(View(), es);
      attempt, slept := 1, 0.0;
      while true
        invariant 1 <= attempt <= STARTUP_ATTEMPTS
        invariant InitFrom(View(), es, attempt, slept) == InitRun(old(View()), es)
        decreases STARTUP_ATTEMPTS - attempt
      {
        InitFromUnfolds(View(), es, attempt, slept);
        r := TryInit(es(attempt));
        if r.Success? || !IsTransient(r.error) || attempt >= STARTUP_ATTEMPTS {
          return;
        }
        slept := slept + R.Wait(R.POOL_BACKOFF, attempt);
        attempt := attempt + 1;
      }
    }

    method GetPool() returns (r: Result<nat, PyError>)
      ensures r == PoolOrError(View())
    {
      if pool.None? {
        return Failure(POOL_MISSING);
      }
      r := Success(pool.value);
    }

    method ClosePool(raised: Option<PyError>) returns (r: Option<PyError>)
      modifies this
      ensures View() == Closed(old(View()), raised)
      ensures r == if old(pool).Some? then raised else None
    {
      r := None;
      if pool.Some? {
        if raised.Some? {
          return raised;
        }
        closed := closed + [pool.value];
        pool := None;
      }
    }
  }

  lemma InitFromUnfolds(p: PoolState, es: nat -> Startup, attempt: nat, slept: real)
    ensures var (p', r) := InitAttempt(p, es(attempt));
            InitFrom(p, es, attempt, slept)
            == if r.Success? || !IsTransient(r.error) || attempt >= STARTUP_ATTEMPTS
               then R.Run(p', r, attempt, slept)
               else InitFrom(p', es, attempt + 1, slept + R.Wait(R.POOL_BACKOFF, attempt))
  {
    hide InitAttempt, IsTransient, R.Wait;
  }
}
