# Items service: a verified model

This project models the data path of the FastAPI template and proves what it does over all inputs and
all runs: the items service and repository, the UPDATE text the repository builds, the resilience layer
(retry, circuit breaker, error mapping, metrics), the connection pool's life cycle, the two message
consumers, and the CORS setting. `dafny verify dfyconfig.toml` checks everything.

## How the model is laid out

| file | content |
|---|---|
| `Strings.dfy` | decimal rendering, `join`, `split` and their inverses |
| `UpdateSql.dfy` | the builder loop of `update`; a lexer and parser for the text it sends |
| `Rows.dfy`, `ItemsTable.dfy`, `Database.dfy` | stored rows, SQL semantics of the six statements, the update theorem and algebra |
| `Pagination.dfy` | ORDER BY with ties, LIMIT, OFFSET |
| `Errors.dfy`, `Retry.dfy` | exceptions and their mapping; bounded retry and exponential backoff, generic |
| `Resilience.dfy`, `QueryRuns.dfy`, `DocumentedRetry.dfy` | `execute_query`; its whole runs; the call chain its documentation describes |
| `Pool.dfy` | `init_pool`, `close_pool`, `get_pool` |
| `ItemRepository.dfy`, `ItemService.dfy` | the two classes, and the bulk insert's transaction |
| `RequestEffects.dfy`, `Answers.dfy`, `ItemRuns.dfy`, `ServedRuns.dfy`, `ServiceBreaker.dfy` | one request end to end, its effect and its answer; runs of requests; paging and bulk runs; the breaker over runs of requests |
| `Events.dfy`, `Subscriptions.dfy`, `KafkaConsumer.dfy`, `RabbitConsumer.dfy` | the event envelope, `subscribe`, and the two consumers |
| `CorsOrigins.dfy` | `cors_origin_list` |

The code that changes state is modelled by classes and loops, each proved equal to a function of the old
state; the theorems are about these functions. The layers are really stacked: a service request goes
through the repository, the built SQL text, its parser and evaluator, the body with its metrics, the
breaker and the retry loop, and the run theorems hold through all of them.

An environment is a parameter everywhere: the ids `uuid4` returns, both clocks, whether a pool exists,
which exception a connection raises at which attempt, in which order the database returns rows that tie,
which handler raises on which message,
which of a queue's consumers the broker picks.

## Assumptions

- A statement is one atomic step; one that raises had no effect. A transaction is a snapshot that is kept
  or restored, and `now()` is its start.
- Rows are unique by primary key; a VARCHAR(255) value that is too long, a wrong argument count, an
  unknown or doubly assigned column refuse the whole statement. A statement that names no row still
  has its values checked. A text holding U+0000 is refused as well. Each kind of refusal is one exception,
  with the classes the mapper tells apart. A too long VARCHAR(255) value whose excess is only blanks,
  which PostgreSQL silently shortens, is refused like any other.
- The breaker follows the closed, open, half-open protocol with a consecutive-failure counter that a
  success resets; the timeout is counted in units of the application's clock. aiobreaker takes
  `timeout_duration` as a timedelta and `app/core/config.py:50` gives it an int; what aiobreaker makes of
  that is not part of this model. Whether the call that opens the breaker raises its own error or
  CircuitBreakerError is left open (`tripRaises`), and every result holds both ways. Calls on the breaker
  and on the pool are sequential and not cancelled.
- tenacity stops when the attempt number reaches the limit, so at least one attempt is made.
- JSON encoding preserves values; `message.process()` acknowledges on normal exit and rejects on an exception.

## Where the code differs from its documentation

- `app/db/resilience.py:5-9` places the error mapper after retry and breaker. In the code it runs inside
  both (`app/db/resilience.py:183-188`), so the retry never sees an error it would retry:
  `Resilience.QueryRunsOnce`, `DocumentedRetry.RetriesAsDocumentedIff`. One lost connection separates the
  two: `DocumentedRetry.LostConnectionNotRetried`. The hook between attempts would not survive a retry
  either: `app/db/resilience.py:86` asks the failed attempt for its result, which raises its exception
  again. The documented chain of this model has a hook that counts and returns.
- For the same reason the mapper's branch for the breaker's own error (`app/db/resilience.py:129-133`) is
  never taken for a refused or a tripping call: that error is raised outside the body, and the caller gets
  CircuitBreakerError instead of ServiceUnavailableError. Input: any statement while the breaker is open,
  `DocumentedRetry.RefusalNotMapped`. A missing pool's RuntimeError also stays unmapped, `get_pool()` being
  called before the `try` (`app/db/resilience.py:168`). `DocumentedRetry.OutcomeAsDocumentedIff` says exactly
  when the answer is the documented one.
- `app/observability/metrics.py:36-39` gives the breaker gauge a value for "open". The gauge is written only
  while a body runs, when the breaker is never open: `QueryRuns.GaugeExactly`. Input: `fail_max` create
  requests with a name holding U+0000, which the schemas admit and the database refuses; the breaker is
  open, the gauge does not say 2: `ServiceBreaker.UnstorableOpensBreaker`.
- `app/db/pool.py:88` validates the pool before returning it. The global is set before that, so after a
  retryable validation failure the next attempt returns the same pool unvalidated, and after any other one
  the next `init_pool` or `get_pool` does: `Pool.RefusedValidationSucceeds`, `Pool.SecondInitSkipsValidation`,
  and exactly when over every run `Pool.HandedOutUnvalidatedIff`.
- Rows of one bulk insert share `created_at`, the only sort key of the list, so pages need not partition the
  table: `Pagination.PagesPartitionIff` and, for the served pages, `ServedRuns.PagingSoundIff` say exactly
  when they do.

## Model

| member | source | states |
|---|---|---|
| `UpdateSql.BuildUpdate` | app/api/v1/items/repository.py:46-66 | the loop sends the text and arguments of exactly the non-None fields, the id last; nothing is sent iff all are None |
| `UpdateSql.LexShow` | app/api/v1/items/repository.py:62-66 | lexing undoes writing for every token sequence with the builder's spacing, multi-digit placeholders included |
| `UpdateSql.UpdateRoundTrip` | app/api/v1/items/repository.py:47-66 | parsing the built text recovers the fields in order, field i bound to `$i`, the key to `$n+1`, the stamp and the returned columns, for any number of fields |
| `UpdateSql.PlaceholdersExactlyOnce` | app/api/v1/items/repository.py:49-60 | the placeholders in the text are `$1` to `$n+1`, each once, one per argument |
| `ItemsTable.UpdateMeaning` | app/api/v1/items/repository.py:46-67 | executing the parsed text succeeds iff the fields are acceptable and the id does not clash, and is else refused with the error of the first thing wrong; it then patches exactly that row's given columns and time stamp and returns it, or nothing if absent |
| `Database.UpdateExecutes` | app/api/v1/items/repository.py:56-67 | an all-None update is a pure read; any other is the intended update or is refused whole |
| `Database.UpdateTwice` | app/api/v1/items/repository.py:50-63 | an update call with f, then one with g, is one call with f overridden by g's non-None fields, returned row included; stamped by the later call that sets something, and a pure read if neither does |
| `Database.UpdateAgain` | app/api/v1/items/repository.py:50-63 | repeating an update call changes only the row's time stamp, and nothing when every field is None |
| `Database.DeleteTag` | app/api/v1/items/repository.py:69-71 | the command tag equals "DELETE 1" iff one row was deleted |
| `Pagination.ListingIsListing` | app/api/v1/items/repository.py:33-39 | for every plan the query lists every row once, newest first |
| `Pagination.EveryListingIsPlanned` | app/api/v1/items/repository.py:33-39 | every newest-first arrangement of the rows is one some plan may return |
| `Pagination.PageIsPage` | app/api/v1/items/repository.py:33-39 | for every plan, limit and offset the result is min(limit, what is left) rows of one newest-first arrangement of the table, from row `offset` on, in its order |
| `Pagination.PagesPartitionIff` | app/api/v1/items/repository.py:33-39 | pages 0, L, 2L, ... yield each row exactly once under every choice of plans iff no page boundary separates equal time stamps |
| `Pagination.DistinctTimesPaging` | app/api/v1/items/repository.py:33-39 | with pairwise different time stamps the pages concatenate to the one newest-first listing |
| `Pagination.SharedTimeBreaksUnitPages` | app/api/v1/items/repository.py:33-39 | a table with two rows of one batch cannot be paged row by row |
| `Errors.MapperPartition` | app/db/resilience.py:102-139 | which of the four application errors a driver error becomes, by precedence, whatever classes it has |
| `Errors.MapperExactly` | app/db/resilience.py:102-139 | type and message of the mapped error, by the first class that applies |
| `Errors.TransientIff` | app/db/resilience.py:72-77 | the retry set is PostgresConnectionError, InterfaceError, ConnectionRefusedError, OSError, each of them |
| `Errors.MappedIsFinal` | app/db/resilience.py:102-139 | a mapped error is never retryable and never NotFound |
| `Retry.RetryExact` | app/db/resilience.py:91-97 | attempts are the leading run of retryable failures plus one, capped; outcome, state and sleep are those of that many attempts |
| `Retry.StopsOnce` | app/db/resilience.py:91-97 | that description fits one number only |
| `Retry.WaitsGrow` | app/db/resilience.py:94 | waits never shrink and stay within their bounds |
| `Retry.TotalClosed` | app/db/resilience.py:94 | total sleep of n retries in closed form, split where the bounds take effect, at most n times the upper bound |
| `Retry.TotalClosedAt` | app/db/resilience.py:94 | the same closed form at any split points where the unclamped waits reach the lower and the upper bound |
| `Retry.QueryWaits` | app/db/resilience.py:94 | the waits configured for queries: 0.5, 1, 2, 4 seconds, then 5 |
| `Retry.PoolWaits` | app/db/pool.py:42 | the waits configured for `init_pool`: 1, 2, 4, 8 seconds, then 15 |
| `Retry.PoolSleep` | app/db/pool.py:42 | before attempt a of `init_pool` exactly 2^(a-1) - 1 seconds were slept, at most 15 |
| `Resilience.QueryRunsOnce` | app/db/resilience.py:149-188 | `execute_query` makes one attempt on every stream of outcomes and DB_RETRY_TOTAL never moves |
| `Resilience.Resilience.RunBody` | app/db/resilience.py:151-191 | the body's effect on rows and metrics and its mapped outcome |
| `Resilience.Resilience.RunGuarded` | app/db/resilience.py:150-191 | the body under the breaker |
| `Resilience.Resilience.ExecuteQuery` | app/db/resilience.py:149-191 | tenacity's loop computes the generic retry run, here always its first attempt |
| `DocumentedRetry.RetriesAsDocumentedIff` | app/db/resilience.py:5-9 | attempts are as documented iff no retry is due: admitted call, pool set, transient driver error not replaced by the breaker's, at least two attempts allowed |
| `DocumentedRetry.DocumentedExactly` | app/db/resilience.py:5-9 | the documented chain ends with the first attempt that is refused, finds no pool, succeeds, is replaced or fails for good, or the last allowed, and answers what that one meets |
| `DocumentedRetry.OutcomeAsDocumentedIff` | app/db/resilience.py:149-188 | the answer is the documented one iff a due retry ends at an attempt answered like the first (told from what that attempt meets), or none is due and the breaker admits, a pool is set and no trip replaces a body's error |
| `DocumentedRetry.RefusalNotMapped` | app/db/resilience.py:129-133 | a refused call raises the breaker's own error, where the documented chain answers ServiceUnavailableError |
| `DocumentedRetry.LostConnectionNotRetried` | app/db/resilience.py:149-188 | one lost connection: the documented chain answers on attempt 2, the code fails |
| `QueryRuns.BreakerFollowsHistory` | app/db/resilience.py:52-56 | after any run the breaker is closed iff fewer than `fail_max` failures followed the last success; its counter is their number and its opening time the last failure's |
| `QueryRuns.RefusedExactly` | app/db/resilience.py:149-168 | the next call is refused iff that many failures piled up and the last is younger than the timeout; a refused call touches neither pool, table nor metrics |
| `QueryRuns.MetricAccounting` | app/db/resilience.py:168-191 | durations are successes plus errors; errors are counted under the type name of the error met; calls are durations plus refusals plus missing pools; retries stay 0 |
| `QueryRuns.GaugeValues` | app/db/resilience.py:59-67 | state name and gauge table together give 0 closed, 1 half-open, 2 open, never "unknown" |
| `QueryRuns.GaugeExactly` | app/db/resilience.py:142-144 | the gauge's value over any run, and that it shows the breaker's state iff the breaker is closed and the last write was no trial call |
| `QueryRuns.RejectionsOpenBreaker` | app/db/resilience.py:183-188 | `fail_max` statements a healthy database refuses, whatever for, open the breaker, no fewer do; table untouched, gauge not 2 |
| `QueryRuns.RejectionsCounted` | app/db/resilience.py:183-188 | each of them is counted under the type name of the driver's error |
| `Pool.InitExactly` | app/db/pool.py:39-93 | the outcome of `init_pool` for every stream of creation and validation results; at most 5 attempts, 1 creation, 15 s |
| `Pool.SecondAttemptIff` | app/db/pool.py:31-44 | a creation error of any of the four classes, then a clean attempt: success on attempt 2 after one second; one of no such class is raised at once |
| `Pool.PoolConservation` | app/db/pool.py:96-111 | over any run every pool created is closed once or current; `get_pool` returns the last one created iff one more was created than closed, else raises RuntimeError |
| `Pool.UnvalidatedExactly` | app/db/pool.py:53-93 | over any run the current pool was never validated iff the `init_pool` that made it raised at validation and no close has succeeded since |
| `Pool.HandedOutUnvalidatedIff` | app/db/pool.py:88-111 | exactly when `get_pool` and `init_pool` hand out a pool that was never validated |
| `Pool.RefusedValidationSucceeds` | app/db/pool.py:88-93 | validation always refused: `init_pool` succeeds on attempt 2 without it |
| `Pool.SecondInitSkipsValidation` | app/db/pool.py:53-54 | a rejected login: the first `init_pool` raises, the second returns that pool |
| `Pool.PoolModule.TryInit` | app/db/pool.py:45-93 | one attempt, with the global left set when validation fails |
| `Pool.PoolModule.InitPool` | app/db/pool.py:39-93 | the retry loop computes the generic retry run of that attempt |
| `Pool.PoolModule.GetPool` | app/db/pool.py:107-111 | the current pool, or the error for none |
| `Pool.PoolModule.ClosePool` | app/db/pool.py:96-104 | the global is cleared iff `close()` returns |
| `ItemRepository.BulkExactly` | app/api/v1/items/repository.py:73-91 | all or nothing: the batch commits iff every item can be inserted; then row i has the id, name and description (or none) of item i and all share one time stamp; else the table is the starting one |
| `ItemRepository.BulkRaises` | app/api/v1/items/repository.py:73-91 | which error a batch raises, unmapped: for no pool, at its begin, of the first item that cannot be inserted, or at its commit |
| `ItemRepository.ItemRepository.BulkCreate` | app/api/v1/items/repository.py:73-91 | the transaction loop with rollback computes exactly that |
| `ItemRepository.ItemRepository.Create` | app/api/v1/items/repository.py:13-25 | one INSERT through `execute_query`, first returned row |
| `ItemRepository.ItemRepository.GetById` | app/api/v1/items/repository.py:27-31 | one SELECT by id |
| `ItemRepository.ItemRepository.ListAll` | app/api/v1/items/repository.py:33-39 | one page query |
| `ItemRepository.ItemRepository.Count` | app/api/v1/items/repository.py:41-44 | one count query |
| `ItemRepository.ItemRepository.Update` | app/api/v1/items/repository.py:46-67 | the built statement, or a read when nothing is set |
| `ItemRepository.ItemRepository.Delete` | app/api/v1/items/repository.py:69-71 | one DELETE, judged by its tag |
| `ItemService.ItemService.CreateOne` | app/api/v1/items/service.py:25-28 | creates through the repository |
| `ItemService.ItemService.GetOne` | app/api/v1/items/service.py:30-34 | an absent row becomes NotFoundError |
| `ItemService.ItemService.ListItems` | app/api/v1/items/service.py:36-40 | two separate statements, page then count |
| `ItemService.ItemService.UpdateOne` | app/api/v1/items/service.py:42-48 | an absent row becomes NotFoundError |
| `ItemService.ItemService.DeleteOne` | app/api/v1/items/service.py:50-54 | an absent row becomes NotFoundError |
| `ItemService.ItemService.BulkCreate` | app/api/v1/items/service.py:56-60 | the bulk insert's rows or its error |
| `ItemService.AdmittedExactly` | app/api/v1/items/schemas.py:11-18 | what is admitted: names of 1 to 255, descriptions up to 2000; pages of 1 to 200 |
| `ItemService.BulkAdmitted` | app/api/v1/items/schemas.py:38-39 | a bulk request has 1 to 100 items, each admitted by itself |
| `RequestEffects.AskEffect` | app/db/repository.py:32-45 | a call takes effect once or not at all; success iff breaker, pool, connection and statement all succeed; failures are never NotFound |
| `RequestEffects.UpdateOnTable` | app/api/v1/items/service.py:42-48 | through the SQL text: refused iff a text does not fit, with the error for that; else name and description are replaced as given, `created_at` and other rows stay |
| `RequestEffects.ServeEffect` | app/api/v1/items/service.py:25-60 | every admitted request changes the table exactly as its response announces |
| `Answers.ReplyExactly` | app/db/resilience.py:149-188 | the reply of one query, told from breaker, pool, connection and statement, and when the breaker's own error replaces it |
| `Answers.AnsweredExactly` | app/api/v1/items/service.py:25-54 | the answer to every request but the bulk insert, error or rows, told from breaker, moment and table |
| `ItemRuns.TableInvariant` | app/api/v1/items/schemas.py:11-18 | after any run in which no row is updated by a transaction older than the latest draw of its id: unique ids, name length 1..255, description at most 2000, created_at <= updated_at <= the latest stamp; batches may commit long after their stamp |
| `ItemRuns.Conservation` | app/api/v1/items/repository.py:41-91 | per id and in total: stored after plus deleted equals stored before plus created; a row not created in the run keeps its `created_at` |
| `ItemRuns.CountAfterRun` | app/api/v1/items/repository.py:41-44 | `count()` plus successful deletes equals the rows before plus creates and committed batch rows |
| `ItemRuns.DeletedAtMostOnce` | app/api/v1/items/service.py:50-54 | with fresh ids each id is deleted successfully at most once |
| `ItemRuns.CreatedAtNeverChanges` | migrations/versions/001_create_items_table.py:25 | with fresh ids a row has one `created_at` at all points of a run |
| `ItemRuns.NotFoundExactly` | app/api/v1/items/service.py:30-54 | NotFoundError iff the statement takes effect (reached, texts fit) and the id is absent at that step |
| `ItemRuns.OpenBreakerFreezes` | app/db/resilience.py:149-168 | while the breaker is open no request but the bulk insert changes anything |
| `ServedRuns.ListConsistent` | app/api/v1/items/service.py:36-40 | the page is one of the table at that time (for any limit and offset); whatever requests fall between page and count, total plus deletes equals that table's size plus creates; the same table gives the same size |
| `ServedRuns.PagingComplete` | app/api/v1/items/service.py:36-40 | a client calling `list_items` page after page, others' requests in between, gets every row once if no tie crosses a boundary, newest first if times differ, and every total is the number of rows |
| `ServedRuns.PagingMayFail` | app/api/v1/items/service.py:36-40 | otherwise there is a run of `list_items` calls whose pages do not add up to the table, while every total does |
| `ServedRuns.PagingSoundIff` | app/api/v1/items/repository.py:33-39 | every such client gets every row once iff no page boundary separates equal time stamps |
| `ServedRuns.BulkRefinesCreates` | app/api/v1/items/repository.py:73-91 | a run of successful single creates with the batch's ids and stamp: the batch commits, with the same table and rows, from any table and breaker |
| `ServedRuns.BulkIffCreates` | app/api/v1/items/repository.py:73-91 | a batch commits iff its connection holds up and some run of single creates succeeds for its items; every such run gives its table and rows |
| `ServiceBreaker.RunIsCalls` | app/db/repository.py:32-45 | a run of service requests reaches the same world as its queries with the bulk commits in between |
| `ServiceBreaker.ServiceRunBreaker` | app/db/resilience.py:52-67 | over every run of service requests breaker, metrics and gauge are exact functions of the history of queries |
| `ServiceBreaker.UnstorableOpensBreaker` | app/db/resilience.py:183-188 | over the service: `fail_max` admitted creates with a text the database refuses, each answered BadRequestError, open the breaker; nothing is stored and the gauge does not show it |
| `Events.EventRoundTrip` | app/messaging/base.py:29-37 | decoding `to_dict` restores all six fields |
| `Events.DecodedExactly` | app/messaging/kafka/consumer.py:75-83 | an event is what a value is read as iff the value is an object that, with the defaults where a field is missing, has its six fields |
| `Subscriptions.LastSubscribeWins` | app/messaging/kafka/consumer.py:57-58 | the last subscription of a topic is the one in force |
| `Subscriptions.AfterSubscribesContents` | app/messaging/rabbitmq/consumer.py:48-49 | the ordered dictionary lists each subscribed topic once, with its handler in force |
| `KafkaConsumer.DispatchedExactly` | app/messaging/kafka/consumer.py:66-86 | every eligible message is dispatched once, at its rank, to the handler its topic has at that moment; ranks follow the order of the messages; nothing else is dispatched |
| `KafkaConsumer.PublishedArrives` | app/messaging/kafka/consumer.py:34-86 | end to end: exactly the published events on topics registered before `connect` are handled, once, in order, unchanged, by the handler in force when the loop gets there |
| `KafkaConsumer.FailuresExactly` | app/messaging/kafka/consumer.py:70-86 | the failures logged are the registered messages that cannot be decoded or whose handler raises |
| `KafkaConsumer.HandledExactly` | app/messaging/kafka/consumer.py:66-68 | a number of messages is the one the loop works on iff all came through before the stop and next is the end, the stop, or the iterator's error |
| `KafkaConsumer.KafkaConsumer.StartConsuming` | app/messaging/kafka/consumer.py:60-89 | the loop's invocations, in order, for any failures, any stop and any `subscribe` meanwhile |
| `RabbitConsumer.PlainTopicMatches` | app/messaging/rabbitmq/consumer.py:55-62 | a wildcard-free topic matches exactly itself |
| `RabbitConsumer.WordsMatchIff` | app/messaging/rabbitmq/consumer.py:55-62 | a pattern matches iff the key's words can be cut into one stretch per word of it: any for `#`, one for `*`, the word itself otherwise |
| `RabbitConsumer.StepsExactly` | app/messaging/rabbitmq/consumer.py:48-83 | after any calls of `subscribe` and `start_consuming`: one queue per topic registered at the last start, bound to it alone, with one callback per start at which it was registered, for its handler then |
| `RabbitConsumer.PublishedInvokes` | app/messaging/rabbitmq/consumer.py:48-83 | end to end, exactly: a published event invokes, once per matching topic with a queue, a handler that topic had at a start, whichever consumer the broker picks, event unchanged |
| `RabbitConsumer.AlwaysInForceIff` | app/messaging/rabbitmq/consumer.py:48-83 | the handlers in force are the ones invoked for every pick iff each matching topic was registered at a start and all its callbacks call its handler in force |
| `RabbitConsumer.EarlyBindingIff` | app/messaging/rabbitmq/consumer.py:64-67 | in the code: iff each matching topic was registered at a start and had its handler in force at every one |
| `RabbitConsumer.SubscribeThenStart` | app/messaging/rabbitmq/consumer.py:48-83 | subscribing first and then starting, any number of times, always reaches the handlers in force |
| `RabbitConsumer.ResubscribedKeepsOld` | app/messaging/rabbitmq/consumer.py:48-83 | subscribe, start, subscribe anew, start: the first handler can still be invoked |
| `RabbitConsumer.LateBindingIff` | app/messaging/rabbitmq/consumer.py:64-67 | without the default argument: iff for each matching topic the loop variable of every start holds its handler in force |
| `RabbitConsumer.RoutesToOwnHandler` | app/messaging/rabbitmq/consumer.py:59-83 | for any calls, queue i gets exactly the keys topic i matches, and its callbacks call the handlers topic i had at the starts, in order, whatever the loop variables hold |
| `RabbitConsumer.PlainTopicsRouteOnce` | app/messaging/rabbitmq/consumer.py:59-83 | with wildcard-free topics a published message is handled once, by a handler its own key had at a start, or not at all if it was registered at none |
| `RabbitConsumer.CallsExactly` | app/messaging/rabbitmq/consumer.py:64-81 | in the trace of one callback every decodable message has its own place, behind those before it |
| `RabbitConsumer.RabbitConsumer.Subscribe` | app/messaging/rabbitmq/consumer.py:48-49 | one entry per topic, the last one wins |
| `RabbitConsumer.RabbitConsumer.StartConsuming` | app/messaging/rabbitmq/consumer.py:51-84 | the loop wires the dictionary onto whatever the broker holds, each callback with its handler bound early; RuntimeError when not connected |
| `RabbitConsumer.RabbitConsumer.Consume` | app/messaging/rabbitmq/consumer.py:64-81 | each decodable message is handled once, in order, by the callback's own handler, nothing else is; failures are counted exactly; every message is acknowledged once, whatever raises |
| `CorsOrigins.OriginRoundTrip` | app/core/config.py:100-102 | parsing the comma-join of clean origins returns them |
| `CorsOrigins.OriginsNormalised` | app/core/config.py:100-102 | for every string the origins are non-empty, trimmed and comma-free, and parse after join after parse is parse |
| `CorsOrigins.OriginsExactly` | app/core/config.py:100-102 | a setting of origins padded with white space, and of empty entries, lists those origins in order |
| `CorsOrigins.EverySetting` | app/core/config.py:100-102 | every string is such a setting |
| `CorsOrigins.SpaceCharacters` | app/core/config.py:100-102 | the 29 white-space characters; no visible ASCII character is one |
| `CorsOrigins.OriginsOfBoth` | app/core/config.py:100-102 | a setting glued from two lists the origins of both |

## Left out

- Concurrent calls on one breaker or pool: `init_pool` checks and assigns its global across an await, and the gauge result is about sequential calls.
- Cancellation of a running query.
- A connection lost after the server committed but before the answer arrived: such a statement counts as having had no effect.
- Prepared-statement planning, isolation levels, PgBouncer, and the internals of asyncpg, tenacity, aiobreaker, aio-pika and aiokafka.
- SQL outside the fragment: the UPDATE is read from its text, the other five statements are constructors with their standard meaning. Field names are read as plain identifiers, so a reserved word is an unknown column instead of a syntax error; both refuse the statement.
- The `detail` of mapped errors and the id in a NotFoundError's message.
- Logging, routing, middleware, health checks, security, the AI and worker modules, and `dsn`: wrappers with only easy claims.
