/** Whole runs of `execute_query` calls: what the breaker's state and the metrics say about the
    history, for every sequence of statements and every environment, with the table changing in
    between in any way. */
module QueryRuns {
  import opened Prelude
  import opened Errors
  import opened Rows
  import opened Database
  import opened Resilience

  /** One call and the moments its attempts would meet; or a change of the table that does not go
      through `execute_query`, such as a transaction's commit. */
  datatype Call = Query(s: Statement, ms: nat -> Moment) | TableChange(rows: seq<Row>)

  /** How far a call got: turned away by the breaker, stopped at `get_pool()`, or decided by the
      statement. */
  datatype Verdict = Refused | NoPool | BodyFailed | BodySucceeded

  /** `trial`: the call went through an expired open breaker; `wroteGauge`: it set the gauge; `errorType`:
      the type name of the error its body failed with, before any mapping. */
  datatype Record = Record(verdict: Verdict, finishedAt: int, trial: bool, wroteGauge: bool, errorType: string)

  function Classify(cfg: Config, w: World, c: Call): Record
    requires c.Query?
  {
    var m := c.ms(1);
    var r := Served(w.rows, c.s, m);
    var v :=
      if Refuses(cfg, w.breaker, m) then Refused
      else if !m.poolReady then NoPool
      else if r.Success? then BodySucceeded
      else BodyFailed;
    Record(v, m.finishedAt, v != Refused && w.breaker.state == Open,
           v == BodySucceeded || (v == BodyFailed && MapsBreakerError(r.error)),
           if v == BodyFailed then r.error.typeName else "")
  }

  ghost function After(cfg: Config, w: World, calls: seq<Call>): World {
    if calls == [] then w
    else
      var c, before := calls[|calls| - 1], After(cfg, w, calls[..|calls| - 1]);
      if c.Query? then QueryRun(cfg, before, c.s, c.ms).state else before.(rows := c.rows)
  }

  /** One record per query. */
  ghost function History(cfg: Config, w: World, calls: seq<Call>): seq<Record> {
    if calls == [] then []
    else
      var c, before := calls[|calls| - 1], calls[..|calls| - 1];
      History(cfg, w, before) + (if c.Query? then [Classify(cfg, After(cfg, w, before), c)] else [])
  }

  // ---------- What a history says ----------

  predicate IsFailure(r: Record) {
    r.verdict == BodyFailed || r.verdict == NoPool
  }

  /** Failures since the last success; refused calls in between do not count and do not reset. */
  function Streak(h: seq<Record>): nat {
    if h == [] then 0
    else
      var r := h[|h| - 1];
      if r.verdict == BodySucceeded then 0
      else Streak(h[..|h| - 1]) + (if IsFailure(r) then 1 else 0)
  }

  /** When the last failure ended. */
  function LastFailure(h: seq<Record>): Option<int> {
    if h == [] then None
    else if IsFailure(h[|h| - 1]) then Some(h[|h| - 1].finishedAt)
    else LastFailure(h[..|h| - 1])
  }

  function Count(h: seq<Record>, v: Verdict): nat {
    if h == [] then 0 else Count(h[..|h| - 1], v) + (if h[|h| - 1].verdict == v then 1 else 0)
  }

  /** The labels of the failed bodies. */
  function Labels(h: seq<Record>): multiset<string> {
    if h == [] then multiset{}
    else Labels(h[..|h| - 1]) + (if h[|h| - 1].verdict == BodyFailed then multiset{h[|h| - 1].errorType} else multiset{})
  }

  /** The last call that set the gauge was a trial call. */
  predicate LastWriteTrial(h: seq<Record>) {
    if h == [] then false
    else if h[|h| - 1].wroteGauge then h[|h| - 1].trial
    else LastWriteTrial(h[..|h| - 1])
  }

  function Threshold(cfg: Config): int {
    Max(cfg.failMax, 1)
  }

  // ---------- One more call ----------

  /** A query is one guarded call and one record. */
  lemma QueryStepped(cfg: Config, w: World, calls: seq<Call>)
    requires calls != [] && calls[|calls| - 1].Query?
    ensures var c, before := calls[|calls| - 1], calls[..|calls| - 1];
            && After(cfg, w, calls) == Guarded(cfg, After(cfg, w, before), c.s, c.ms(1)).0
            && |History(cfg, w, calls)| > 0
            && History(cfg, w, calls)[..|History(cfg, w, calls)| - 1] == History(cfg, w, before)
            && History(cfg, w, calls)[|History(cfg, w, calls)| - 1] == Classify(cfg, After(cfg, w, before), c)
  {
    hide Guarded, QueryRun, Classify;
    var c := calls[|calls| - 1];
    QueryRunsOnce(cfg, After(cfg, w, calls[..|calls| - 1]), c.s, c.ms);
  }

  /** Anything else leaves breaker, metrics and history alone. */
  lemma ChangeStepped(cfg: Config, w: World, calls: seq<Call>)
    requires calls != [] && calls[|calls| - 1].TableChange?
    ensures var before := calls[..|calls| - 1];
            && After(cfg, w, calls) == After(cfg, w, before).(rows := calls[|calls| - 1].rows)
            && History(cfg, w, calls) == History(cfg, w, before)
  {
    hide QueryRun, Classify;
  }

  /** The effect of one guarded call on breaker and metrics, by verdict. */
  lemma GuardedEffect(cfg: Config, w: World, c: Call)
    requires c.Query?
    ensures var w' := Guarded(cfg, w, c.s, c.ms(1)).0;
            var r := Classify(cfg, w, c);
            var b := LetThrough(w.breaker);
            && w'.breaker == (if r.verdict == Refused then w.breaker
                              else Settled(cfg, b, r.verdict != BodySucceeded, r.finishedAt))
            && w'.metrics.durations == w.metrics.durations
                 + (if r.verdict == BodySucceeded || r.verdict == BodyFailed then 1 else 0)
            && w'.metrics.errors == w.metrics.errors + (if r.verdict == BodyFailed then multiset{r.errorType} else multiset{})
            && w'.metrics.retries == w.metrics.retries
            && w'.metrics.gauge == (if r.wroteGauge then GaugeValue(b) else w.metrics.gauge)
  {
    hide Served, MapAsyncpgError, MapsBreakerError, GaugeValue, Settled, Trips;
  }

  /** What holds of breaker and history together. */
  ghost predicate Agrees(cfg: Config, b: Breaker, h: seq<Record>) {
    && b.state != HalfOpen
    && (b.state == Closed <==> Streak(h) < Threshold(cfg))
    && b.failures == Streak(h)
    && (b.state == Open ==> LastFailure(h) == Some(b.openedAt))
  }

  /** The breaker is a function of the history. Starting closed and clean, after any run it is
      closed exactly while the failures since the last success number fewer than `fail_max` (one, if
      fail_max is below one), its counter is that number, and when open it was opened by the last
      failure. Every failing body counts alike, whatever the error, and so does a missing pool. */
  lemma {:induction false} BreakerFollowsHistory(cfg: Config, w: World, calls: seq<Call>)
    requires w.breaker.state == Closed && w.breaker.failures == 0
    ensures Agrees(cfg, After(cfg, w, calls).breaker, History(cfg, w, calls))
  {
    hide Guarded, Classify, After, History;
    if calls == [] {
      EmptyRun(cfg, w);
    } else {
      var before, c := calls[..|calls| - 1], calls[|calls| - 1];
      BreakerFollowsHistory(cfg, w, before);
      if c.Query? {
        QueryStepped(cfg, w, calls);
        GuardedEffect(cfg, After(cfg, w, before), c);
        RefusedWhileOpen(cfg, After(cfg, w, before), c);
      } else {
        ChangeStepped(cfg, w, calls);
      }
    }
  }

  lemma EmptyRun(cfg: Config, w: World)
    ensures After(cfg, w, []) == w && History(cfg, w, []) == []
  {
  }

  lemma RefusedWhileOpen(cfg: Config, w: World, c: Call)
    requires c.Query?
    ensures Classify(cfg, w, c).verdict == Refused <==>
            w.breaker.state == Open && c.ms(1).startedAt < w.breaker.openedAt + cfg.timeout
    ensures Classify(cfg, w, c).verdict == Refused ==> Guarded(cfg, w, c.s, c.ms(1)) == (w, Failure(BREAKER_OPEN))
    ensures Classify(cfg, w, c).trial <==>
            w.breaker.state == Open && Classify(cfg, w, c).verdict != Refused
    ensures Classify(cfg, w, c).wroteGauge ==> Classify(cfg, w, c).verdict != Refused
  {
    hide Served, Body;
  }

  /** Breaker safety. After any run, the next call is refused exactly when `fail_max` failures have
      piled up and the last of them is less than the timeout old; a refused call touches nothing:
      not the pool, not the table, not a metric. */
  lemma RefusedExactly(cfg: Config, w: World, calls: seq<Call>, next: Call)
    requires w.breaker.state == Closed && w.breaker.failures == 0 && next.Query?
    ensures var h := History(cfg, w, calls);
            var reached := After(cfg, w, calls);
            && (Classify(cfg, reached, next).verdict == Refused <==>
                  && Streak(h) >= Threshold(cfg) && LastFailure(h).Some?
                  && next.ms(1).startedAt < LastFailure(h).value + cfg.timeout)
            && (Classify(cfg, reached, next).verdict == Refused ==> After(cfg, w, calls + [next]) == reached)
  {
    hide Guarded, Classify, After, History;
    BreakerFollowsHistory(cfg, w, calls);
    RefusedWhileOpen(cfg, After(cfg, w, calls), next);
    assert (calls + [next])[..|calls|] == calls;
    QueryStepped(cfg, w, calls + [next]);
  }

  function Queries(calls: seq<Call>): nat {
    if calls == [] then 0 else Queries(calls[..|calls| - 1]) + (if calls[|calls| - 1].Query? then 1 else 0)
  }

  /** Metric accounting, exactly: one duration per body that got a pool, one error per failing one of
      them, under the type name of the error it met, no retries ever; and every call is one of these or was refused or found no pool. */
  lemma {:induction false} MetricAccounting(cfg: Config, w: World, calls: seq<Call>)
    ensures var m := After(cfg, w, calls).metrics;
            var h := History(cfg, w, calls);
            && m.durations == w.metrics.durations + Count(h, BodySucceeded) + Count(h, BodyFailed)
            && m.errors == w.metrics.errors + Labels(h) && |Labels(h)| == Count(h, BodyFailed)
            && m.retries == w.metrics.retries
            && Queries(calls) == (m.durations - w.metrics.durations) + Count(h, Refused) + Count(h, NoPool)
  {
    hide Guarded, Classify, After, History;
    if calls == [] {
      EmptyRun(cfg, w);
    } else {
      var before, c := calls[..|calls| - 1], calls[|calls| - 1];
      MetricAccounting(cfg, w, before);
      if c.Query? {
        QueryStepped(cfg, w, calls);
        GuardedEffect(cfg, After(cfg, w, before), c);
      } else {
        ChangeStepped(cfg, w, calls);
      }
    }
  }

  /** `metrics.py` documents the gauge as 0 closed, 1 half-open, 2 open; the name table has no gap. */
  lemma GaugeValues(b: Breaker)
    ensures GaugeValue(b) == match b.state case Closed => 0 case HalfOpen => 1 case Open => 2
  {
  }

  /** The state gauge, exactly. It is written only while a body runs, so after a run from a fresh
      start it is never 2: it is 1 if the last call that wrote it was a trial and 0 otherwise. It
      shows the breaker's state if and only if the breaker is closed and that write was no trial. */
  lemma {:induction false} GaugeExactly(cfg: Config, w: World, calls: seq<Call>)
    requires w.breaker.state == Closed && w.breaker.failures == 0 && w.metrics.gauge == 0
    ensures var w' := After(cfg, w, calls);
            var h := History(cfg, w, calls);
            && w'.metrics.gauge == (if LastWriteTrial(h) then 1 else 0)
            && (w'.metrics.gauge == GaugeValue(w'.breaker) <==> w'.breaker.state == Closed && !LastWriteTrial(h))
  {
    hide Guarded, Classify, After, History, Streak, Settled, LastFailure, GaugeValue;
    BreakerFollowsHistory(cfg, w, calls);
    GaugeValues(After(cfg, w, calls).breaker);
    if calls == [] {
      EmptyRun(cfg, w);
    } else {
      var before, c := calls[..|calls| - 1], calls[|calls| - 1];
      GaugeValues(LetThrough(After(cfg, w, before).breaker));
      GaugeExactly(cfg, w, before);
      BreakerFollowsHistory(cfg, w, before);
      if c.Query? {
        QueryStepped(cfg, w, calls);
        GuardedEffect(cfg, After(cfg, w, before), c);
        RefusedWhileOpen(cfg, After(cfg, w, before), c);
      } else {
        ChangeStepped(cfg, w, calls);
      }
    }
  }

  // ---------- A healthy database can be cut off by its clients ----------

  /** A healthy database refuses the statement: a duplicate key, a text it cannot store, ... */
  ghost predicate Rejected(rows: seq<Row>, c: Call) {
    && c.Query? && c.ms(1).poolReady && c.ms(1).fault.None?
    && Execute(rows, c.s, c.ms(1).now, c.ms(1).tie).Failure?
  }

  lemma RejectedQuery(rows: seq<Row>, c: Call)
    requires Rejected(rows, c)
    ensures c.Query?
  {
  }

  lemma RejectionFails(cfg: Config, w: World, c: Call)
    requires Rejected(w.rows, c) && w.breaker.state == Closed
    ensures Classify(cfg, w, c).verdict == BodyFailed
    ensures Guarded(cfg, w, c.s, c.ms(1)).0.rows == w.rows
    ensures !Trips(cfg, w.breaker) || !cfg.tripRaises ==>
            Guarded(cfg, w, c.s, c.ms(1)).1
            == Failure(MapAsyncpgError(Execute(w.rows, c.s, c.ms(1).now, c.ms(1).tie).error))
  {
    hide MapAsyncpgError, Execute;
  }

  /** `fail_max` rejected statements in a row, whatever the database rejects them for, open the breaker
      of a healthy database, and no fewer do; the table is not touched, and the gauge does not show it. */
  lemma {:induction false} RejectionsOpenBreaker(cfg: Config, w: World, calls: seq<Call>)
    requires w.breaker.state == Closed && w.breaker.failures == 0 && w.metrics.gauge == 0
    requires |calls| <= Threshold(cfg) && forall i | 0 <= i < |calls| :: Rejected(w.rows, calls[i])
    ensures var w' := After(cfg, w, calls);
            && w'.rows == w.rows && Streak(History(cfg, w, calls)) == |calls|
            && (w'.breaker.state == Open <==> |calls| == Threshold(cfg))
            && (w'.breaker.state == Open ==> GaugeValue(w'.breaker) == 2 && w'.metrics.gauge != 2)
  {
    hide Guarded, Classify, After, History, Rejected, LastWriteTrial, GaugeValue;
    BreakerFollowsHistory(cfg, w, calls);
    GaugeExactly(cfg, w, calls);
    GaugeValues(After(cfg, w, calls).breaker);
    if calls == [] {
      EmptyRun(cfg, w);
    } else {
      var before := calls[..|calls| - 1];
      RejectionsOpenBreaker(cfg, w, before);
      BreakerFollowsHistory(cfg, w, before);
      RejectedQuery(w.rows, calls[|calls| - 1]);
      QueryStepped(cfg, w, calls);
      RejectionFails(cfg, After(cfg, w, before), calls[|calls| - 1]);
    }
  }

  /** The statement is rejected with an error of this type. */
  ghost predicate RejectedAs(rows: seq<Row>, c: Call, errorType: string) {
    Rejected(rows, c) && Execute(rows, c.s, c.ms(1).now, c.ms(1).tie).error.typeName == errorType
  }

  lemma RejectionCounted(cfg: Config, w: World, c: Call, errorType: string)
    requires RejectedAs(w.rows, c, errorType) && w.breaker.state == Closed
    ensures Classify(cfg, w, c).verdict == BodyFailed && Classify(cfg, w, c).errorType == errorType
  {
    hide Execute;
  }

  /** DB_QUERY_ERRORS_TOTAL counts each of them under the driver's type name. */
  lemma {:induction false} RejectionsCounted(cfg: Config, w: World, calls: seq<Call>, errorType: string)
    requires w.breaker.state == Closed && w.breaker.failures == 0 && w.metrics.gauge == 0
    requires |calls| <= Threshold(cfg) && forall i | 0 <= i < |calls| :: RejectedAs(w.rows, calls[i], errorType)
    ensures After(cfg, w, calls).metrics.errors[errorType] == w.metrics.errors[errorType] + |calls|
  {
    hide Guarded, Classify, After, History, Rejected, GaugeValue, Execute;
    if calls == [] {
      EmptyRun(cfg, w);
    } else {
      var before, c := calls[..|calls| - 1], calls[|calls| - 1];
      RejectionsCounted(cfg, w, before, errorType);
      RejectionsOpenBreaker(cfg, w, before);
      BreakerFollowsHistory(cfg, w, before);
      RejectedQuery(w.rows, c);
      QueryStepped(cfg, w, calls);
      RejectionCounted(cfg, After(cfg, w, before), c, errorType);
      GuardedEffect(cfg, After(cfg, w, before), c);
    }
  }
}
