/** The Kafka consumer: a dispatch loop over the messages the driver delivers. */
module KafkaConsumer {
  import opened Prelude
  import opened Errors
  import opened Events
  import opened Subscriptions

  /** What the driver's iterator does next: hand over a message, or raise (as when its own value
      deserialiser fails). */
  datatype Delivery = Message(topic: string, value: Json) | Broken

  datatype Invocation = Invocation(handler: Handler, event: Event)

  const NOT_CONNECTED := PyError("RuntimeError", {RuntimeFault}, "Kafka consumer is not connected")

  /** The message reaches a handler: its topic is registered and its value can be decoded. */
  predicate Eligible(handlers: map<string, Handler>, d: Delivery) {
    d.Message? && d.topic in handlers && Decode(d.value).Some?
  }

  function CallFor(handlers: map<string, Handler>, d: Delivery): Invocation
    requires Eligible(handlers, d)
  {
    Invocation(handlers[d.topic], Decode(d.value).value)
  }

  /** The dictionary of handlers at the moment each delivery is looked up. */
  type Table = nat -> map<string, Handler>

  /** The invocations a stretch of deliveries stands for. */
  function Dispatched(table: Table, ds: seq<Delivery>): seq<Invocation> {
    if ds == [] then []
    else
      var n := |ds| - 1;
      Dispatched(table, ds[..n]) + (if Eligible(table(n), ds[n]) then [CallFor(table(n), ds[n])] else [])
  }

  /** How many deliveries the loop works on: up to the first at which `_running` is found false, or
      the first the iterator raises on. */
  function Handled(stream: seq<Delivery>, stopAt: nat): (n: nat)
    ensures n <= |stream| && n <= stopAt
  {
    if stream == [] || stopAt == 0 || stream[0].Broken? then 0
    else 1 + Handled(stream[1..], stopAt - 1)
  }

  /** `n` messages are handled exactly if they all came through before the stop, and what comes next is
      the end of the stream, the stop, or an error of the iterator. */
  lemma {:induction false} HandledExactly(stream: seq<Delivery>, stopAt: nat, n: nat)
    ensures n == Handled(stream, stopAt) <==>
            && n <= |stream| && n <= stopAt && (forall i | 0 <= i < n :: stream[i].Message?)
            && (n == |stream| || n == stopAt || stream[n].Broken?)
  {
    if !(stream == [] || stopAt == 0 || stream[0].Broken?) && n > 0 {
      HandledExactly(stream[1..], stopAt - 1, n - 1);
      assert forall i | 1 <= i < n && n <= |stream| :: stream[i] == stream[1..][i - 1];
    }
  }

  /** The number of eligible messages among the first i. */
  function Rank(table: Table, ds: seq<Delivery>, i: nat): nat
    requires i <= |ds|
  {
    if i == 0 then 0 else Rank(table, ds, i - 1) + (if Eligible(table(i - 1), ds[i - 1]) then 1 else 0)
  }

  lemma {:induction false} RankGrows(table: Table, ds: seq<Delivery>, i: nat, j: nat)
    requires i <= j <= |ds|
    ensures Rank(table, ds, i) <= Rank(table, ds, j)
    ensures i < j && Eligible(table(i), ds[i]) ==> Rank(table, ds, i) < Rank(table, ds, j)
  {
    hide Eligible;
    if i < j {
      RankGrows(table, ds, i, j - 1);
    }
  }

  lemma {:induction false} RankPrefix(table: Table, ds: seq<Delivery>, n: nat, i: nat)
    requires i <= n <= |ds|
    ensures Rank(table, ds[..n], i) == Rank(table, ds, i)
  {
    if i > 0 {
      RankPrefix(table, ds, n, i - 1);
    }
  }

  /** In order and once each: every eligible message has its own place in the trace, at its rank among
      the eligible ones, where its topic's handler of that moment receives its decoded event; ranks
      follow the order of the messages; and the trace holds nothing else. */
  lemma {:induction false} DispatchedExactly(table: Table, ds: seq<Delivery>)
    ensures |Dispatched(table, ds)| == Rank(table, ds, |ds|)
    ensures forall i | 0 <= i < |ds| && Eligible(table(i), ds[i]) ::
              Rank(table, ds, i) < |Dispatched(table, ds)|
              && Dispatched(table, ds)[Rank(table, ds, i)] == CallFor(table(i), ds[i])
    ensures forall i, j | 0 <= i < j < |ds| && Eligible(table(i), ds[i]) && Eligible(table(j), ds[j]) ::
              Rank(table, ds, i) < Rank(table, ds, j)
  {
    hide Eligible, CallFor;
    forall i, j | 0 <= i < j < |ds| && Eligible(table(i), ds[i]) && Eligible(table(j), ds[j])
      ensures Rank(table, ds, i) < Rank(table, ds, j)
    {
      RankGrows(table, ds, i, j);
    }
    if ds != [] {
      var n := |ds| - 1;
      DispatchedExactly(table, ds[..n]);
      RankPrefix(table, ds, n, n);
      var before, last := Dispatched(table, ds[..n]), if Eligible(table(n), ds[n]) then [CallFor(table(n), ds[n])] else [];
      assert Dispatched(table, ds) == before + last;
      hide Dispatched;
      forall i | 0 <= i < |ds| && Eligible(table(i), ds[i])
        ensures Rank(table, ds, i) < |Dispatched(table, ds)|
        ensures Dispatched(table, ds)[Rank(table, ds, i)] == CallFor(table(i), ds[i])
      {
        if i < n {
          RankPrefix(table, ds, n, i);
          assert ds[..n][i] == ds[i];
          assert (before + last)[Rank(table, ds, i)] == before[Rank(table, ds, i)];
        }
      }
    }
  }

  /** How many deliveries are logged as failed. */
  function Failures(table: Table, ds: seq<Delivery>, raises: nat -> bool): nat {
    if ds == [] then 0
    else
      var n := |ds| - 1;
      Failures(table, ds[..n], raises) + (if Fails(table(n), ds[n], raises(n)) then 1 else 0)
  }

  /** The delivery is registered, and it cannot be decoded or its handler raises. */
  predicate Fails(handlers: map<string, Handler>, d: Delivery, raised: bool) {
    d.Message? && d.topic in handlers && (Decode(d.value).None? || raised)
  }

  ghost function FailedOnes(table: Table, ds: seq<Delivery>, raises: nat -> bool): set<nat> {
    set i: nat | i < |ds| && Fails(table(i), ds[i], raises(i))
  }

  lemma LastFailure(table: Table, ds: seq<Delivery>, raises: nat -> bool)
    requires ds != []
    ensures var n := |ds| - 1;
            && n !in FailedOnes(table, ds[..n], raises)
            && FailedOnes(table, ds, raises)
               == FailedOnes(table, ds[..n], raises) + (if Fails(table(n), ds[n], raises(n)) then {n} else {})
  {
    hide Fails;
    var n := |ds| - 1;
    forall i: nat
      ensures i in FailedOnes(table, ds, raises) <==>
              i in FailedOnes(table, ds[..n], raises) || (i == n && Fails(table(n), ds[n], raises(n)))
    {
      assert i < n ==> ds[..n][i] == ds[i];
    }
  }

  /** The deliveries logged as failed, counted. */
  lemma {:induction false} FailuresExactly(table: Table, ds: seq<Delivery>, raises: nat -> bool)
    ensures Failures(table, ds, raises) == |FailedOnes(table, ds, raises)|
  {
    hide Fails;
    if ds != [] {
      var n := |ds| - 1;
      FailuresExactly(table, ds[..n], raises);
      LastFailure(table, ds, raises);
      hide FailedOnes;
      assert FailedOnes(table, ds, raises)
          == FailedOnes(table, ds[..n], raises) + (if Fails(table(n), ds[n], raises(n)) then {n} else {});
    }
  }

  /** What the loop has done after i messages. */
  ghost predicate Done(table: Table, stream: seq<Delivery>, i: nat, raises: nat -> bool, calls: seq<Invocation>,
                       failures: nat)
    requires i <= |stream|
  {
    calls == Dispatched(table, stream[..i]) && failures == Failures(table, stream[..i], raises)
  }

  lemma DoneNothing(table: Table, stream: seq<Delivery>, raises: nat -> bool)
    ensures Done(table, stream, 0, raises, [], 0)
  {
  }

  lemma DoneAtEnd(table: Table, stream: seq<Delivery>, n: nat, raises: nat -> bool, calls: seq<Invocation>,
                  failures: nat)
    requires n <= |stream| && Done(table, stream, n, raises, calls, failures)
    ensures calls == Dispatched(table, stream[..n]) && failures == Failures(table, stream[..n], raises)
  {
  }

  /** One more message: nothing happens, a failure is logged, or a handler is called. */
  lemma DoneOneMore(table: Table, stream: seq<Delivery>, i: nat, raises: nat -> bool, calls: seq<Invocation>,
                    failures: nat)
    requires i < |stream| && stream[i].Message? && Done(table, stream, i, raises, calls, failures)
    ensures var (topic, event) := (stream[i].topic, Decode(stream[i].value));
            if topic !in table(i) then Done(table, stream, i + 1, raises, calls, failures)
            else if event.None? then Done(table, stream, i + 1, raises, calls, failures + 1)
            else Done(table, stream, i + 1, raises, calls + [Invocation(table(i)[topic], event.value)],
                      if raises(i) then failures + 1 else failures)
  {
    hide Decode;
    assert stream[..i + 1][..i] == stream[..i];
  }

  // ---------- Subscribing while the loop runs ----------

  /** The dictionary after n deliveries; `during(i)` are the `subscribe` calls before delivery i is
      looked up. */
  function Later(handlers: map<string, Handler>, during: nat -> seq<(string, Handler)>, n: nat): map<string, Handler> {
    if n == 0 then handlers else Subscribed(Later(handlers, during, n - 1), during(n - 1))
  }

  function TableOf(handlers: map<string, Handler>, during: nat -> seq<(string, Handler)>): Table {
    (i: nat) => Later(handlers, during, i + 1)
  }

  lemma LaterStart(handlers: map<string, Handler>, during: nat -> seq<(string, Handler)>)
    ensures Later(handlers, during, 0) == handlers
  {
  }

  lemma TableAt(handlers: map<string, Handler>, during: nat -> seq<(string, Handler)>, i: nat)
    ensures TableOf(handlers, during)(i) == Later(handlers, during, i + 1)
         == Subscribed(Later(handlers, during, i), during(i))
  {
  }

  lemma {:induction false} SubscribedGrows(handlers: map<string, Handler>, subs: seq<(string, Handler)>)
    ensures handlers.Keys <= Subscribed(handlers, subs).Keys
  {
    if subs != [] {
      SubscribedGrows(handlers, subs[..|subs| - 1]);
    }
  }

  lemma {:induction false} LaterGrows(handlers: map<string, Handler>, during: nat -> seq<(string, Handler)>, n: nat)
    ensures handlers.Keys <= Later(handlers, during, n).Keys
  {
    if n > 0 {
      LaterGrows(handlers, during, n - 1);
      SubscribedGrows(Later(handlers, during, n - 1), during(n - 1));
    }
  }

  // ---------- From published events to handlers ----------

  /** What the driver hands over of a log of published events: those on the topics it was made for. */
  function Fetched(topics: set<string>, published: seq<(string, Event)>): seq<Delivery> {
    if published == [] then []
    else
      var (topic, e) := published[|published| - 1];
      Fetched(topics, published[..|published| - 1])
      + (if topic in topics then [Message(topic, Object(ToDict(e)))] else [])
  }

  /** The invocations there should be: each event on one of the topics, of the handler its topic has
      when the loop gets there. */
  function Arriving(topics: set<string>, table: Table, published: seq<(string, Event)>): seq<Invocation> {
    if published == [] then []
    else
      var (topic, e) := published[|published| - 1];
      var before := published[..|published| - 1];
      var handlers := table(|Fetched(topics, before)|);
      Arriving(topics, table, before)
      + (if topic in topics && topic in handlers then [Invocation(handlers[topic], e)] else [])
  }

  lemma {:induction false} FetchedArrive(topics: set<string>, table: Table, published: seq<(string, Event)>)
    requires forall i :: topics <= table(i).Keys
    ensures Dispatched(table, Fetched(topics, published)) == Arriving(topics, table, published)
    ensures |Arriving(topics, table, published)| == |Fetched(topics, published)|
  {
    hide ToDict, Decode;
    if published != [] {
      var (topic, e) := published[|published| - 1];
      var before := published[..|published| - 1];
      FetchedArrive(topics, table, before);
      EventRoundTrip(e);
      if topic in topics {
        assert topic in table(|Fetched(topics, before)|);
        var ds := Fetched(topics, published);
        assert ds[..|ds| - 1] == Fetched(topics, before);
      } else {
        assert Fetched(topics, published) == Fetched(topics, before);
      }
    }
  }

  /** End to end: after `subscribe` calls, a `connect` that fixes the topics, more `subscribe` calls,
      and yet more while the loop runs, exactly the events on topics registered before `connect` are
      handled, each once, in order, unchanged, by the handler in force when the loop reaches it. A topic
      registered later is never heard. */
  lemma PublishedArrives(before: seq<(string, Handler)>, between: seq<(string, Handler)>,
                         during: nat -> seq<(string, Handler)>, published: seq<(string, Event)>)
    ensures var topics := Subscribed(map[], before).Keys;
            var table := TableOf(Subscribed(Subscribed(map[], before), between), during);
            && Dispatched(table, Fetched(topics, published)) == Arriving(topics, table, published)
            && |Arriving(topics, table, published)| == |Fetched(topics, published)|
    ensures forall topic :: topic in Subscribed(map[], before).Keys <==> exists i | 0 <= i < |before| :: before[i].0 == topic
  {
    var registered := Subscribed(map[], before);
    var start := Subscribed(registered, between);
    var table := TableOf(start, during);
    SubscribedGrows(registered, between);
    forall i: nat
      ensures registered.Keys <= table(i).Keys
    {
      LaterGrows(start, during, i + 1);
    }
    hide Later, Dispatched, Fetched, Arriving;
    FetchedArrive(registered.Keys, table, published);
    forall topic
      ensures topic in registered.Keys <==> exists i | 0 <= i < |before| :: before[i].0 == topic
    {
      LastSubscribeWins(before, topic);
    }
  }

  class KafkaConsumer {
    var handlers: map<string, Handler>
    var running: bool
    var topics: Option<set<string>>  // the driver's consumer, once connected

    constructor ()
      ensures handlers == map[] && !running && topics.None?
    {
      handlers, running, topics := map[], false, None;
    }

    method Subscribe(topic: string, handler: Handler)
      modifies this`handlers
      ensures handlers == Subscribed(old(handlers), [(topic, handler)])
    {
      handlers := handlers[topic := handler];
      assert [(topic, handler)][..0] == [];
    }

    /** Without a registered topic no consumer is started. */
    method Connect()
      modifies this`topics
      ensures topics == if handlers.Keys == {} then old(topics) else Some(handlers.Keys)
    {
      if handlers.Keys == {} {
        return;
      }
      topics := Some(handlers.Keys);
    }

    method Disconnect()
      modifies this`running
      ensures !running
    {
      running := false;
    }

    /** The loop. `raises(i)` says whether the handler of delivery i raises; from delivery `stopAt` on
        `_running` has been cleared by someone else; `during(i)` are the `subscribe` calls others make
        before delivery i is looked up. `failures` counts the logged ones. */
    method StartConsuming(stream: seq<Delivery>, stopAt: nat, raises: nat -> bool,
                          during: nat -> seq<(string, Handler)>)
      returns (r: Result<seq<Invocation>, PyError>, failures: nat)
      modifies this`running, this`handlers
      ensures old(topics).None? ==> r == Failure(NOT_CONNECTED) && running == old(running) && handlers == old(handlers)
      ensures old(topics).Some? ==>
                var n, table := Handled(stream, stopAt), TableOf(old(handlers), during);
                && r == Success(Dispatched(table, stream[..n]))
                && failures == |FailedOnes(table, stream[..n], raises)|
                && handlers == Later(old(handlers), during, n)
                && (!running <==> n < |stream| && stream[n].Message?)
    {
      failures := 0;
      if topics.None? {
        return Failure(NOT_CONNECTED), failures;
      }
      hide Decode, Done, Subscribed, Handled, TableOf, Later;
      running := true;
      ghost var table := TableOf(handlers, during);
      var calls: seq<Invocation> := [];
      var i := 0;
      DoneNothing(table, stream, raises);
      LaterStart(handlers, during);
      while i < |stream|
        invariant 0 <= i <= |stream| && i <= stopAt && running
        invariant forall j | 0 <= j < i :: stream[j].Message?
        invariant handlers == Later(old(handlers), during, i)
        invariant Done(table, stream, i, raises, calls, failures)
      {
        if stream[i].Broken? {
          break;
        }
        if i >= stopAt {
          running := false;
        }
        if !running {
          break;
        }
        TableAt(old(handlers), during, i);
        handlers := Subscribed(handlers, during(i));
        DoneOneMore(table, stream, i, raises, calls, failures);
        if stream[i].topic in handlers {
          var event := Decode(stream[i].value);
          if event.None? {
            failures := failures + 1;
          } else {
            calls := calls + [Invocation(handlers[stream[i].topic], event.value)];
            if raises(i) {
              failures := failures + 1;
            }
          }
        }
        i := i + 1;
      }
      HandledExactly(stream, stopAt, i);
      DoneAtEnd(table, stream, i, raises, calls, failures);
      FailuresExactly(table, stream[..i], raises);
      r := Success(calls);
    }
  }
}
