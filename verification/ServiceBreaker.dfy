/** The breaker, metric and gauge results carried over to runs of the whole service: a run of requests
    is a run of queries with the bulk inserts' commits in between. */
module ServiceBreaker {
  import opened Prelude
  import opened Errors
  import opened Rows
  import opened ItemsTable
  import opened Database
  import opened Resilience
  import opened ItemRepository
  import opened ItemService
  import opened RequestEffects
  import opened ItemRuns
  import Q = QueryRuns

  /** The one statement a request other than the bulk insert sends. */
  function StatementOf(q: Request): Statement {
    match q
    case CreateItem(id, name, description) => InsertItem(id, Some(name), description)
    case GetItem(id) => SelectById(id)
    case ListPage(limit, offset) => SelectPage(limit, offset)
    case UpdateItem(id, name, description) => UpdateStatementFor(id, UpdateFields(name, description))
    case DeleteItem(id) => DeleteById(id)
    case _ => CountItems
  }

  /** The run of requests as the resilience layer sees it. */
  ghost function CallsOf(cfg: Config, w: World, events: seq<Event>): (calls: seq<Q.Call>)
    ensures |calls| == |events|
  {
    if events == [] then []
    else
      var e := events[|events| - 1];
      CallsOf(cfg, w, events[..|events| - 1])
      + [if e.q.BulkCreateItems? then Q.TableChange(Reach(cfg, w, events).rows) else Q.Query(StatementOf(e.q), e.ms)]
  }

  lemma ServeIsCall(cfg: Config, w: World, e: Event)
    ensures var w' := Serve(cfg, w, e.q, e.ms, e.batch).0;
            if e.q.BulkCreateItems? then w' == w.(rows := w'.rows)
            else w' == QueryRun(cfg, w, StatementOf(e.q), e.ms).state
  {
    hide QueryRun, BulkInsert, UpdateStatementFor, UpdateFields;
  }

  /** Both runs reach the same world. */
  lemma {:induction false} RunIsCalls(cfg: Config, w: World, events: seq<Event>)
    ensures Reach(cfg, w, events) == Q.After(cfg, w, CallsOf(cfg, w, events))
  {
    hide Serve, QueryRun, StatementOf;
    if events != [] {
      var before, e := events[..|events| - 1], events[|events| - 1];
      RunIsCalls(cfg, w, before);
      ServeIsCall(cfg, Reach(cfg, w, before), e);
      var calls := CallsOf(cfg, w, events);
      assert calls[..|calls| - 1] == CallsOf(cfg, w, before);
    }
  }

  /** Over every run of service requests from a fresh start: the breaker is a function of the history
      of queries, the metrics balance, and the gauge is exact as stated for queries alone. */
  lemma ServiceRunBreaker(cfg: Config, w: World, events: seq<Event>)
    requires w.breaker.state == Closed && w.breaker.failures == 0 && w.metrics.gauge == 0
    ensures var w' := Reach(cfg, w, events);
            var calls := CallsOf(cfg, w, events);
            var h := Q.History(cfg, w, calls);
            && Q.Agrees(cfg, w'.breaker, h)
            && w'.metrics.durations == w.metrics.durations + Q.Count(h, Q.BodySucceeded) + Q.Count(h, Q.BodyFailed)
            && w'.metrics.errors == w.metrics.errors + Q.Labels(h) && |Q.Labels(h)| == Q.Count(h, Q.BodyFailed)
            && w'.metrics.retries == w.metrics.retries
            && w'.metrics.gauge == (if Q.LastWriteTrial(h) then 1 else 0)
            && (w'.metrics.gauge == GaugeValue(w'.breaker) <==> w'.breaker.state == Closed && !Q.LastWriteTrial(h))
  {
    hide Reach, CallsOf, Q.After, Q.History, Q.Agrees, Q.Count, Q.Labels, Q.LastWriteTrial, GaugeValue;
    var calls := CallsOf(cfg, w, events);
    RunIsCalls(cfg, w, events);
    Q.BreakerFollowsHistory(cfg, w, calls);
    Q.MetricAccounting(cfg, w, calls);
    Q.GaugeExactly(cfg, w, calls);
  }

  // ---------- Rejected data ----------

  /** A create request the schemas admit and a healthy database refuses: a text holds U+0000. */
  ghost predicate Unstorable(e: Event) {
    && e.q.CreateItem? && Admitted(e.q) && !(Storable(Some(e.q.name)) && Storable(e.q.description))
    && e.ms(1).poolReady && e.ms(1).fault.None?
  }

  lemma UnstorableRejected(rows: seq<Row>, e: Event)
    requires Unstorable(e)
    ensures Q.Rejected(rows, Q.Query(StatementOf(e.q), e.ms))
    ensures Execute(rows, StatementOf(e.q), e.ms(1).now, e.ms(1).tie) == Failure(BAD_TEXT)
    ensures Q.RejectedAs(rows, Q.Query(StatementOf(e.q), e.ms), "CharacterNotInRepertoireError")
  {
  }

  lemma {:induction false} UnstorableCalls(cfg: Config, w: World, events: seq<Event>)
    requires forall i | 0 <= i < |events| :: Unstorable(events[i])
    ensures forall i | 0 <= i < |events| ::
              CallsOf(cfg, w, events)[i] == Q.Query(StatementOf(events[i].q), events[i].ms)
  {
    hide StatementOf, Reach;
    if events != [] {
      UnstorableCalls(cfg, w, events[..|events| - 1]);
    }
  }

  lemma BadTextMapped()
    ensures MapAsyncpgError(BAD_TEXT).classes == {BadRequest}
  {
    MapperPartition(BAD_TEXT);
    var callerFault := {ForeignKeyViolation, NotNullViolation, CheckViolation, DataError};
    assert DataError in BAD_TEXT.classes * callerFault;
  }

  /** From a fresh start, `fail_max` create requests with such a text, each answered BadRequestError,
      open the breaker of a healthy database over the service itself: nothing is stored, and the gauge
      does not show the open breaker. */
  lemma UnstorableOpensBreaker(cfg: Config, w: World, events: seq<Event>)
    requires w.breaker.state == Closed && w.breaker.failures == 0 && w.metrics.gauge == 0
    requires |events| <= Q.Threshold(cfg) && forall i | 0 <= i < |events| :: Unstorable(events[i])
    ensures var w' := Reach(cfg, w, events);
            && w'.rows == w.rows
            && w'.metrics.errors["CharacterNotInRepertoireError"] == w.metrics.errors["CharacterNotInRepertoireError"] + |events|
            && (w'.breaker.state == Open <==> |events| == Q.Threshold(cfg))
            && (w'.breaker.state == Open ==> GaugeValue(w'.breaker) == 2 && w'.metrics.gauge != 2)
    ensures events != [] && (|events| < Q.Threshold(cfg) || !cfg.tripRaises) ==>
            LastResponse(cfg, w, events) == Raised(MapAsyncpgError(BAD_TEXT))
            && MapAsyncpgError(BAD_TEXT).classes == {BadRequest}
  {
    hide Reach, CallsOf, Q.After, Q.History, Q.Rejected, Q.RejectedAs, Q.Streak, GaugeValue, Unstorable, StatementOf,
      LastResponse;
    UnstorableCalls(cfg, w, events);
    forall i | 0 <= i < |events|
      ensures Q.Rejected(w.rows, CallsOf(cfg, w, events)[i])
      ensures Q.RejectedAs(w.rows, CallsOf(cfg, w, events)[i], "CharacterNotInRepertoireError")
    {
      UnstorableRejected(w.rows, events[i]);
    }
    RunIsCalls(cfg, w, events);
    Q.RejectionsOpenBreaker(cfg, w, CallsOf(cfg, w, events));
    Q.RejectionsCounted(cfg, w, CallsOf(cfg, w, events), "CharacterNotInRepertoireError");
    BadTextMapped();
    if events != [] {
      UnstorableAnswered(cfg, w, events);
    }
  }

  lemma UnstorableAnswered(cfg: Config, w: World, events: seq<Event>)
    requires w.breaker.state == Closed && w.breaker.failures == 0 && w.metrics.gauge == 0
    requires 0 < |events| <= Q.Threshold(cfg) && forall i | 0 <= i < |events| :: Unstorable(events[i])
    ensures |events| < Q.Threshold(cfg) || !cfg.tripRaises ==>
            LastResponse(cfg, w, events) == Raised(MapAsyncpgError(BAD_TEXT))
  {
    var before, e := events[..|events| - 1], events[|events| - 1];
    UnstorableCalls(cfg, w, before);
    forall i | 0 <= i < |before|
      ensures Q.Rejected(w.rows, CallsOf(cfg, w, before)[i])
    {
      UnstorableRejected(w.rows, before[i]);
    }
    RunIsCalls(cfg, w, before);
    Q.RejectionsOpenBreaker(cfg, w, CallsOf(cfg, w, before));
    Q.BreakerFollowsHistory(cfg, w, CallsOf(cfg, w, before));
    var reached := Reach(cfg, w, before);
    UnstorableRejected(reached.rows, e);
    Q.RejectionFails(cfg, reached, Q.Query(StatementOf(e.q), e.ms));
    AskOnce(cfg, reached, StatementOf(e.q), e.ms);
    hide Reach, CallsOf, Q.After, Q.History, Q.Rejected, Q.Streak, QueryRun, Guarded, Execute, MapAsyncpgError;
  }
}
