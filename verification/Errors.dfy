/** Python exceptions as far as `isinstance` can tell them apart, and the translation of driver
    exceptions into the application's own hierarchy. */
module Errors {

  datatype ErrorClass =
    | UniqueViolation | ForeignKeyViolation | NotNullViolation | CheckViolation | DataError
    | SyntaxOrAccess
    | PostgresConnection | Interface | ConnectionRefused | OsError
    | CircuitBreakerOpen | RuntimeFault | MissingKey
    | NotFound | Conflict | BadRequest | Database | ServiceUnavailable

  /** An exception object: the name of its type, every class it is an instance of, its text.
      Any combination of classes is allowed, so subclassing needs no special treatment. */
  datatype PyError = PyError(typeName: string, classes: set<ErrorClass>, message: string)

  predicate IsInstance(e: PyError, cs: set<ErrorClass>) {
    e.classes * cs != {}
  }

  /** `_TRANSIENT_EXCEPTIONS` and `_STARTUP_RETRYABLE`: the same four classes. */
  const TRANSIENT: set<ErrorClass> := {PostgresConnection, Interface, ConnectionRefused, OsError}

  predicate IsTransient(e: PyError) {
    IsInstance(e, TRANSIENT)
  }

  /** The retry set, class by class. */
  lemma TransientIff(e: PyError)
    ensures IsTransient(e) <==>
            || PostgresConnection in e.classes || Interface in e.classes
            || ConnectionRefused in e.classes || OsError in e.classes
  {
    AnyClass(e, TRANSIENT);
  }

  const BREAKER_OPEN := PyError("CircuitBreakerError", {CircuitBreakerOpen}, "circuit breaker is open")
  const POOL_MISSING := PyError("RuntimeError", {RuntimeFault},
                                "Database pool is not initialised. Call init_pool() first.")
  const DUPLICATE_KEY := PyError("UniqueViolationError", {UniqueViolation}, "duplicate key value")
  const NULL_IN_COLUMN := PyError("NotNullViolationError", {NotNullViolation}, "null value in column")
  const BAD_VALUE := PyError("DataError", {DataError}, "invalid value for column")
  const BAD_TEXT := PyError("CharacterNotInRepertoireError", {DataError}, "invalid byte sequence for encoding")
  const TOO_LONG := PyError("StringDataRightTruncationError", {DataError}, "value too long for column")
  const BAD_STATEMENT := PyError("PostgresSyntaxError", {SyntaxOrAccess}, "statement cannot be executed")
  const BAD_ARGUMENT_COUNT := PyError("InterfaceError", {Interface}, "wrong number of query arguments")
  const KEY_MISSING := PyError("KeyError", {MissingKey}, "'name'")
  const ITEM_NOT_FOUND := PyError("NotFoundError", {NotFound}, "Item not found")

  /** `_map_asyncpg_error`, tests in source order. `DatabaseError(message="")` falls back to the
      class's own message. */
  function MapAsyncpgError(e: PyError): PyError {
    if IsInstance(e, {UniqueViolation}) then
      PyError("ConflictError", {Conflict}, "A record with the given unique key already exists")
    else if IsInstance(e, {ForeignKeyViolation}) then
      PyError("BadRequestError", {BadRequest}, "Referenced record does not exist")
    else if IsInstance(e, {NotNullViolation}) then
      PyError("BadRequestError", {BadRequest}, "A required field was null")
    else if IsInstance(e, {CheckViolation}) then
      PyError("BadRequestError", {BadRequest}, "A check constraint was violated")
    else if IsInstance(e, {DataError}) then
      PyError("BadRequestError", {BadRequest}, "Invalid data format")
    else if IsInstance(e, {CircuitBreakerOpen}) then
      PyError("ServiceUnavailableError", {ServiceUnavailable},
              "Database circuit breaker is open \U{2014} service temporarily unavailable")
    else if IsTransient(e) then
      PyError("DatabaseError", {Database}, "Database is temporarily unreachable")
    else if e.message != "" then
      PyError("DatabaseError", {Database}, e.message)
    else
      PyError("DatabaseError", {Database}, "A database error occurred")
  }

  /** The mapper's answer is one of four classes, decided by the first that applies: a unique
      violation conflicts; other integrity and data errors are the caller's fault; an open breaker is
      unavailability; everything else is a database error. */
  lemma MapperPartition(e: PyError)
    ensures var m := MapAsyncpgError(e).classes;
            var callerFault := {ForeignKeyViolation, NotNullViolation, CheckViolation, DataError};
            if UniqueViolation in e.classes then m == {Conflict}
            else if IsInstance(e, callerFault) then m == {BadRequest}
            else if CircuitBreakerOpen in e.classes then m == {ServiceUnavailable}
            else m == {Database}
  {
    hide TRANSIENT;
    OneClass(e, UniqueViolation);
    OneClass(e, ForeignKeyViolation);
    OneClass(e, NotNullViolation);
    OneClass(e, CheckViolation);
    OneClass(e, DataError);
    OneClass(e, CircuitBreakerOpen);
    var callerFault := {ForeignKeyViolation, NotNullViolation, CheckViolation, DataError};
    AnyClass(e, callerFault);
    hide IsInstance;
  }

  /** Type and message of the answer, by the first class that applies. */
  lemma MapperExactly(e: PyError)
    ensures var m := MapAsyncpgError(e);
            if UniqueViolation in e.classes then
              m == PyError("ConflictError", {Conflict}, "A record with the given unique key already exists")
            else if ForeignKeyViolation in e.classes then
              m == PyError("BadRequestError", {BadRequest}, "Referenced record does not exist")
            else if NotNullViolation in e.classes then
              m == PyError("BadRequestError", {BadRequest}, "A required field was null")
            else if CheckViolation in e.classes then
              m == PyError("BadRequestError", {BadRequest}, "A check constraint was violated")
            else if DataError in e.classes then
              m == PyError("BadRequestError", {BadRequest}, "Invalid data format")
            else if CircuitBreakerOpen in e.classes then
              m == PyError("ServiceUnavailableError", {ServiceUnavailable},
                           "Database circuit breaker is open \U{2014} service temporarily unavailable")
            else if || PostgresConnection in e.classes || Interface in e.classes
                    || ConnectionRefused in e.classes || OsError in e.classes then
              m == PyError("DatabaseError", {Database}, "Database is temporarily unreachable")
            else
              m == PyError("DatabaseError", {Database},
                           if e.message == "" then "A database error occurred" else e.message)
  {
    OneClass(e, UniqueViolation);
    OneClass(e, ForeignKeyViolation);
    OneClass(e, NotNullViolation);
    OneClass(e, CheckViolation);
    OneClass(e, DataError);
    OneClass(e, CircuitBreakerOpen);
    TransientIff(e);
    hide IsInstance, IsTransient;
  }

  lemma OneClass(e: PyError, c: ErrorClass)
    ensures IsInstance(e, {c}) <==> c in e.classes
  {
    if c in e.classes {
      assert c in e.classes * {c};
    }
  }

  lemma AnyClass(e: PyError, cs: set<ErrorClass>)
    ensures IsInstance(e, cs) <==> exists c :: c in cs && c in e.classes
  {
    if c :| c in cs && c in e.classes {
      assert c in e.classes * cs;
    }
  }

  /** Whatever the driver raised, the mapped error is in none of the retryable classes and is never a
      NotFoundError. */
  lemma MappedIsFinal(e: PyError)
    ensures !IsTransient(MapAsyncpgError(e)) && !IsInstance(MapAsyncpgError(e), {NotFound})
    ensures UniqueViolation in e.classes ==> IsInstance(MapAsyncpgError(e), {Conflict})
  {
    hide MapAsyncpgError;
    MapperPartition(e);
    var m := MapAsyncpgError(e);
    assert m.classes <= {Conflict, BadRequest, Database, ServiceUnavailable};
    assert Conflict in m.classes ==> Conflict in m.classes * {Conflict};
  }
}
