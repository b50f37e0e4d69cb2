/** The RabbitMQ consumer: one queue and one callback per topic, bound to a topic exchange. */
module RabbitConsumer {
  import opened Prelude
  import opened Errors
  import opened Strings
  import opened Events
  import opened Subscriptions

  const NOT_CONNECTED := PyError("RuntimeError", {RuntimeFault}, "RabbitMQ consumer is not connected")

  // ---------- The topic exchange ----------

  /** AMQP topic matching: `*` stands for one word, `#` for any number of words. */
  predicate WordsMatch(pattern: seq<string>, key: seq<string>)
    decreases |pattern| + |key|
  {
    if pattern == [] then key == []
    else if pattern[0] == "#" then
      WordsMatch(pattern[1..], key) || (key != [] && WordsMatch(pattern, key[1..]))
    else key != [] && (pattern[0] == "*" || pattern[0] == key[0]) && WordsMatch(pattern[1..], key[1..])
  }

  predicate TopicMatches(pattern: string, key: string) {
    WordsMatch(Split(pattern, '.'), Split(key, '.'))
  }

  ghost predicate WildcardFree(topic: string) {
    forall i | 0 <= i < |Split(topic, '.')| :: Split(topic, '.')[i] != "#" && Split(topic, '.')[i] != "*"
  }

  // ---------- Wildcards, told without the recursion ----------

  /** One word of a pattern stands for these words of a key. */
  predicate StandsFor(word: string, words: seq<string>) {
    if word == "#" then true
    else if word == "*" then |words| == 1
    else words == [word]
  }

  function Flatten(parts: seq<seq<string>>): seq<string> {
    if parts == [] then [] else parts[0] + Flatten(parts[1..])
  }

  /** The key is cut into one stretch per word of the pattern, which that word stands for. */
  ghost predicate Cut(pattern: seq<string>, key: seq<string>, parts: seq<seq<string>>) {
    |parts| == |pattern| && Flatten(parts) == key && forall i | 0 <= i < |pattern| :: StandsFor(pattern[i], parts[i])
  }

  lemma {:induction false} MatchCuts(pattern: seq<string>, key: seq<string>) returns (parts: seq<seq<string>>)
    requires WordsMatch(pattern, key)
    ensures Cut(pattern, key, parts)
    decreases |pattern| + |key|
  {
    if pattern == [] {
      parts := [];
    } else if pattern[0] == "#" && WordsMatch(pattern[1..], key) {
      var rest := MatchCuts(pattern[1..], key);
      parts := [[]] + rest;
      assert parts[1..] == rest && [] + key == key;
    } else if pattern[0] == "#" {
      var rest := MatchCuts(pattern, key[1..]);
      parts := [[key[0]] + rest[0]] + rest[1..];
      assert parts[1..] == rest[1..];
      assert [key[0]] + rest[0] + Flatten(rest[1..]) == [key[0]] + (rest[0] + Flatten(rest[1..]));
      assert [key[0]] + key[1..] == key;
    } else {
      var rest := MatchCuts(pattern[1..], key[1..]);
      parts := [[key[0]]] + rest;
      assert parts[1..] == rest;
      assert [key[0]] + key[1..] == key;
    }
  }

  lemma {:induction false} CutMatches(pattern: seq<string>, key: seq<string>, parts: seq<seq<string>>)
    requires Cut(pattern, key, parts)
    ensures WordsMatch(pattern, key)
    decreases |pattern| + |key|
  {
    if pattern != [] {
      var first, rest := parts[0], Flatten(parts[1..]);
      if pattern[0] == "#" && first != [] {
        var shorter := [first[1..]] + parts[1..];
        assert shorter[1..] == parts[1..];
        assert key[1..] == first[1..] + rest;
        assert key[0] == first[0];
        CutMatches(pattern, key[1..], shorter);
      } else {
        assert first == [] ==> first + rest == rest;
        assert |first| == 1 ==> key[1..] == rest && key[0] == first[0];
        CutMatches(pattern[1..], rest, parts[1..]);
      }
    }
  }

  lemma WordsMatchIff(pattern: seq<string>, key: seq<string>)
    ensures WordsMatch(pattern, key) <==> exists parts :: Cut(pattern, key, parts)
  {
    hide Cut, WordsMatch;
    if WordsMatch(pattern, key) {
      var parts := MatchCuts(pattern, key);
    }
    forall parts | Cut(pattern, key, parts)
      ensures WordsMatch(pattern, key)
    {
      CutMatches(pattern, key, parts);
    }
  }

  /** A topic matches a key exactly if the key's words can be cut into one stretch per word of the
      topic: any for `#`, one word for `*`, the word itself otherwise. */
  lemma TopicMatchesIff(topic: string, key: string, words: seq<string>, keyWords: seq<string>)
    requires words == Split(topic, '.') && keyWords == Split(key, '.')
    ensures TopicMatches(topic, key) <==> exists parts :: Cut(words, keyWords, parts)
  {
    WordsMatchIff(words, keyWords);
    hide Cut;
  }

  lemma {:induction false} PlainWordsMatch(pattern: seq<string>, key: seq<string>)
    requires forall i | 0 <= i < |pattern| :: pattern[i] != "#" && pattern[i] != "*"
    ensures WordsMatch(pattern, key) <==> pattern == key
  {
    if pattern != [] && key != [] {
      PlainWordsMatch(pattern[1..], key[1..]);
      assert pattern == [pattern[0]] + pattern[1..] && key == [key[0]] + key[1..];
    }
  }

  /** A topic without wildcards matches exactly itself. */
  lemma PlainTopicMatches(topic: string, key: string)
    requires WildcardFree(topic)
    ensures TopicMatches(topic, key) <==> topic == key
  {
    PlainWordsMatch(Split(topic, '.'), Split(key, '.'));
    JoinSplit(topic, '.');
    JoinSplit(key, '.');
  }

  // ---------- What start_consuming sets up ----------

  /** How a callback refers to its handler: by a default argument, evaluated when the callback is
      defined, or by the variable of the loop in that call of `start_consuming`, looked up when the
      callback runs. The calls are numbered; each has a variable of its own. */
  datatype HandlerRef = DefaultArgument(handler: Handler) | LoopVariable(start: nat)

  /** The handler a callback calls when the loop variables have these values. */
  function Resolve(ref: HandlerRef, variables: nat -> Handler): Handler {
    match ref
    case DefaultArgument(h) => h
    case LoopVariable(start) => variables(start)
  }

  /** The handler the loop of one start sees for a topic. */
  datatype Binding = Binding(start: nat, handler: Handler)

  /** The code's `_handler: EventHandler = handler`, and the closure it avoids. */
  datatype Capture = Early | Late

  function Callback(capture: Capture, b: Binding): HandlerRef {
    match capture
    case Early => DefaultArgument(b.handler)
    case Late => LoopVariable(b.start)
  }

  function Callbacks(capture: Capture, bound: seq<Binding>): (refs: seq<HandlerRef>)
    ensures |refs| == |bound| && forall i | 0 <= i < |bound| :: refs[i] == Callback(capture, bound[i])
  {
    seq(|bound|, i requires 0 <= i < |bound| => Callback(capture, bound[i]))
  }

  /** A queue with its binding keys and its consumers' callbacks. */
  datatype Queue = Queue(name: string, keys: set<string>, callbacks: seq<HandlerRef>)

  type Broker = seq<Queue>

  function QueueName(prefix: string, topic: string): string {
    prefix + "." + topic
  }

  lemma QueueNameInjective(prefix: string, s: string, t: string)
    ensures QueueName(prefix, s) == QueueName(prefix, t) <==> s == t
  {
    assert QueueName(prefix, s)[|prefix| + 1..] == s && QueueName(prefix, t)[|prefix| + 1..] == t;
  }

  /** Where the queue of this name is, or the end. */
  function Position(b: Broker, name: string): (k: nat)
    ensures k <= |b| && (k < |b| ==> b[k].name == name) && forall i | 0 <= i < k :: b[i].name != name
  {
    if b == [] || b[0].name == name then 0 else 1 + Position(b[1..], name)
  }

  /** One turn of the loop: declare the queue if it is not there, bind it to the topic, add the
      callback. */
  function WithTopic(b: Broker, prefix: string, topic: string, callback: HandlerRef): Broker {
    var name := QueueName(prefix, topic);
    var k := Position(b, name);
    if k == |b| then b + [Queue(name, {topic}, [callback])]
    else b[k := Queue(name, b[k].keys + {topic}, b[k].callbacks + [callback])]
  }

  /** The loop over the handlers in start number `start`. */
  function Wire(b: Broker, prefix: string, hs: Handlers, capture: Capture, start: nat): Broker {
    if hs == [] then b
    else
      var (topic, handler) := hs[|hs| - 1];
      WithTopic(Wire(b, prefix, hs[..|hs| - 1], capture, start), prefix, topic, Callback(capture, Binding(start, handler)))
  }

  // ---------- Any interleaving of subscribe and start_consuming ----------

  datatype Step = Subscribing(topic: string, handler: Handler) | Starting

  function SubscriptionsIn(steps: seq<Step>): seq<(string, Handler)> {
    if steps == [] then []
    else
      var last := steps[|steps| - 1];
      SubscriptionsIn(steps[..|steps| - 1]) + (if last.Subscribing? then [(last.topic, last.handler)] else [])
  }

  function StartsIn(steps: seq<Step>): nat {
    if steps == [] then 0
    else StartsIn(steps[..|steps| - 1]) + (if steps[|steps| - 1].Starting? then 1 else 0)
  }

  /** Each start has a number of its own, the number of starts before it. */
  lemma {:induction false} StartsCounted(steps: seq<Step>)
    ensures StartsIn(steps) == |StartingOnes(steps)|
  {
    if steps != [] {
      var n := |steps| - 1;
      StartsCounted(steps[..n]);
      LastStart(steps);
      hide StartingOnes;
      assert StartingOnes(steps) == StartingOnes(steps[..n]) + (if steps[n].Starting? then {n} else {});
    }
  }

  ghost function StartingOnes(steps: seq<Step>): set<nat> {
    set i: nat | i < |steps| && steps[i].Starting?
  }

  lemma LastStart(steps: seq<Step>)
    requires steps != []
    ensures var n := |steps| - 1;
            && n !in StartingOnes(steps[..n])
            && StartingOnes(steps) == StartingOnes(steps[..n]) + (if steps[n].Starting? then {n} else {})
  {
    var n := |steps| - 1;
    forall i: nat
      ensures i in StartingOnes(steps) <==> i in StartingOnes(steps[..n]) || (i == n && steps[n].Starting?)
    {
      assert i < n ==> steps[..n][i] == steps[i];
    }
  }

  /** The consumer's dictionary after these calls, in its order and as a map. */
  function HandlersAfter(steps: seq<Step>): Handlers {
    AfterSubscribes(SubscriptionsIn(steps))
  }

  function Registered(steps: seq<Step>): map<string, Handler> {
    Subscribed(map[], SubscriptionsIn(steps))
  }

  /** What the calls leave on a fresh broker. */
  function BrokerAfter(prefix: string, steps: seq<Step>, capture: Capture): Broker {
    if steps == [] then []
    else
      var before := steps[..|steps| - 1];
      var b := BrokerAfter(prefix, before, capture);
      if steps[|steps| - 1].Subscribing? then b else Wire(b, prefix, HandlersAfter(before), capture, StartsIn(before))
  }

  /** The handlers a topic was bound to, one for each start at which it was registered. */
  function Bound(steps: seq<Step>, topic: string): seq<Binding> {
    if steps == [] then []
    else
      var before := steps[..|steps| - 1];
      Bound(before, topic)
      + (if steps[|steps| - 1].Starting? && topic in Registered(before)
         then [Binding(StartsIn(before), Registered(before)[topic])] else [])
  }

  /** How many topics were registered at the last start. */
  function TopicsStarted(steps: seq<Step>): nat {
    if steps == [] then 0
    else if steps[|steps| - 1].Starting? then |HandlersAfter(steps[..|steps| - 1])|
    else TopicsStarted(steps[..|steps| - 1])
  }

  function BoundTopics(steps: seq<Step>, hs: Handlers, n: nat): (bounds: seq<seq<Binding>>)
    requires n <= |hs|
    ensures |bounds| == n && forall i | 0 <= i < n :: bounds[i] == Bound(steps, hs[i].0)
  {
    seq(n, i requires 0 <= i < n => Bound(steps, hs[i].0))
  }

  /** A queue for each of the first topics, bound to that topic alone, with these bindings' callbacks. */
  function Wired(prefix: string, hs: Handlers, capture: Capture, bounds: seq<seq<Binding>>): (b: Broker)
    requires |bounds| <= |hs|
    ensures |b| == |bounds|
    ensures forall i | 0 <= i < |b| :: b[i] == Queue(QueueName(prefix, hs[i].0), {hs[i].0}, Callbacks(capture, bounds[i]))
  {
    seq(|bounds|, i requires 0 <= i < |bounds| =>
      Queue(QueueName(prefix, hs[i].0), {hs[i].0}, Callbacks(capture, bounds[i])))
  }

  /** The bindings after the first k turns of another start's loop. */
  function Rebound(bounds: seq<seq<Binding>>, hs: Handlers, start: nat, k: nat): (after: seq<seq<Binding>>)
    requires |bounds| <= |hs| && k <= |hs|
    ensures |after| == Max(|bounds|, k)
    ensures forall i | 0 <= i < |after| ::
              after[i] == (if i < |bounds| then bounds[i] else []) + (if i < k then [Binding(start, hs[i].1)] else [])
  {
    seq(Max(|bounds|, k), i requires 0 <= i < Max(|bounds|, k) =>
      (if i < |bounds| then bounds[i] else []) + (if i < k then [Binding(start, hs[i].1)] else []))
  }

  lemma WireOne(prefix: string, hs: Handlers, capture: Capture, bounds: seq<seq<Binding>>, start: nat, k: nat)
    requires DistinctTopics(hs) && |bounds| <= |hs| && k < |hs|
    ensures WithTopic(Wired(prefix, hs, capture, Rebound(bounds, hs, start, k)), prefix, hs[k].0,
                      Callback(capture, Binding(start, hs[k].1)))
         == Wired(prefix, hs, capture, Rebound(bounds, hs, start, k + 1))
  {
    var now, next := Rebound(bounds, hs, start, k), Rebound(bounds, hs, start, k + 1);
    var b, name, c := Wired(prefix, hs, capture, now), QueueName(prefix, hs[k].0), Binding(start, hs[k].1);
    forall i | 0 <= i < |b| && i != k
      ensures b[i].name != name
    {
      QueueNameInjective(prefix, hs[i].0, hs[k].0);
    }
    hide QueueName, Callback;
    var had := if k < |bounds| then bounds[k] else [];
    assert next[k] == had + [c];
    CallbacksAppend(capture, had, c);
    assert forall i | 0 <= i < |b| && i != k :: now[i] == next[i];
    hide Rebound, Callbacks;
    if k < |bounds| {
      assert now[k] == had + [] == had;
      assert Position(b, name) == k;
      assert b[k].keys + {hs[k].0} == {hs[k].0};
    } else {
      assert Position(b, name) == k == |b|;
    }
    hide Position;
    assert WithTopic(b, prefix, hs[k].0, Callback(capture, c)) == Wired(prefix, hs, capture, next);
  }

  lemma CallbacksAppend(capture: Capture, had: seq<Binding>, c: Binding)
    ensures Callbacks(capture, had + [c]) == Callbacks(capture, had) + [Callback(capture, c)]
    ensures had == [] ==> Callbacks(capture, had + [c]) == [Callback(capture, c)]
  {
    hide Callback;
  }

  lemma {:induction false} WireAll(prefix: string, hs: Handlers, capture: Capture, bounds: seq<seq<Binding>>,
                                   start: nat, k: nat)
    requires DistinctTopics(hs) && |bounds| <= |hs| && k <= |hs|
    ensures Wire(Wired(prefix, hs, capture, bounds), prefix, hs[..k], capture, start)
         == Wired(prefix, hs, capture, Rebound(bounds, hs, start, k))
  {
    hide WithTopic, Wired, Callback, Rebound, QueueName;
    if k == 0 {
      ReboundNothing(bounds, hs, start);
    } else {
      WireAll(prefix, hs, capture, bounds, start, k - 1);
      assert hs[..k][..k - 1] == hs[..k - 1];
      WireOne(prefix, hs, capture, bounds, start, k - 1);
    }
  }

  lemma ReboundNothing(bounds: seq<seq<Binding>>, hs: Handlers, start: nat)
    requires |bounds| <= |hs|
    ensures Rebound(bounds, hs, start, 0) == bounds
  {
    forall i | 0 <= i < |bounds|
      ensures Rebound(bounds, hs, start, 0)[i] == bounds[i]
    {
      assert bounds[i] + [] == bounds[i];
    }
  }

  /** `subscribe` keeps the topics' places and adds at most one. */
  lemma {:induction false} PutShape(hs: Handlers, topic: string, handler: Handler)
    ensures |hs| <= |Put(hs, topic, handler)| && forall i | 0 <= i < |hs| :: Put(hs, topic, handler)[i].0 == hs[i].0
  {
    if hs != [] && hs[0].0 != topic {
      PutShape(hs[1..], topic, handler);
    }
  }

  lemma StepsRegistered(steps: seq<Step>)
    ensures DistinctTopics(HandlersAfter(steps))
    ensures forall t, h :: (t, h) in HandlersAfter(steps) <==> t in Registered(steps) && Registered(steps)[t] == h
  {
    AfterSubscribesContents(SubscriptionsIn(steps));
  }

  /** A topic that was bound at some start is registered. */
  lemma {:induction false} BoundRegistered(steps: seq<Step>, topic: string)
    ensures Bound(steps, topic) != [] ==> topic in Registered(steps)
  {
    if steps != [] {
      var n := |steps| - 1;
      BoundRegistered(steps[..n], topic);
      if steps[n].Subscribing? {
        assert SubscriptionsIn(steps)[..|SubscriptionsIn(steps)| - 1] == SubscriptionsIn(steps[..n]);
      } else {
        assert SubscriptionsIn(steps) == SubscriptionsIn(steps[..n]);
      }
    }
  }

  lemma SubscribeKeepsTopics(steps: seq<Step>)
    requires steps != [] && steps[|steps| - 1].Subscribing?
    ensures var hs, hs' := HandlersAfter(steps[..|steps| - 1]), HandlersAfter(steps);
            |hs| <= |hs'| && forall i | 0 <= i < |hs| :: hs'[i].0 == hs[i].0
  {
    var n := |steps| - 1;
    var subs := SubscriptionsIn(steps);
    assert subs[..|subs| - 1] == SubscriptionsIn(steps[..n]);
    PutShape(HandlersAfter(steps[..n]), steps[n].topic, steps[n].handler);
  }

  lemma StartKeepsTopics(steps: seq<Step>)
    requires steps != [] && steps[|steps| - 1].Starting?
    ensures HandlersAfter(steps) == HandlersAfter(steps[..|steps| - 1])
    ensures Registered(steps) == Registered(steps[..|steps| - 1])
  {
    assert SubscriptionsIn(steps) == SubscriptionsIn(steps[..|steps| - 1]);
  }

  lemma Member(hs: Handlers, i: nat)
    requires i < |hs|
    ensures (hs[i].0, hs[i].1) in hs
  {
    assert hs[i] in hs;
  }

  /** After any calls of `subscribe` and `start_consuming`: one queue for each topic registered at the
      last start, in the topics' order, bound to that topic alone, with one callback for each start at
      which the topic was registered, made for the handler it had then. */
  lemma {:induction false} StepsExactly(prefix: string, steps: seq<Step>, capture: Capture)
    ensures BrokerIsWired(prefix, steps, capture)
    ensures var hs, n := HandlersAfter(steps), TopicsStarted(steps);
            forall i | 0 <= i < |hs| :: Bound(steps, hs[i].0) != [] <==> i < n
  {
    if steps != [] {
      StepsExactly(prefix, steps[..|steps| - 1], capture);
      if steps[|steps| - 1].Subscribing? {
        StepSubscribes(prefix, steps, capture);
      } else {
        StepStarts(prefix, steps, capture);
      }
    }
  }

  ghost predicate BrokerIsWired(prefix: string, steps: seq<Step>, capture: Capture) {
    var hs, n := HandlersAfter(steps), TopicsStarted(steps);
    n <= |hs| && BrokerAfter(prefix, steps, capture) == Wired(prefix, hs, capture, BoundTopics(steps, hs, n))
  }

  lemma StepSubscribes(prefix: string, steps: seq<Step>, capture: Capture)
    requires steps != [] && steps[|steps| - 1].Subscribing? && BrokerIsWired(prefix, steps[..|steps| - 1], capture)
    requires var hs, n := HandlersAfter(steps[..|steps| - 1]), TopicsStarted(steps[..|steps| - 1]);
             forall i | 0 <= i < |hs| :: Bound(steps[..|steps| - 1], hs[i].0) != [] <==> i < n
    ensures BrokerIsWired(prefix, steps, capture)
    ensures var hs, n := HandlersAfter(steps), TopicsStarted(steps);
            forall i | 0 <= i < |hs| :: Bound(steps, hs[i].0) != [] <==> i < n
  {
    var before := steps[..|steps| - 1];
    var hs, hs', n := HandlersAfter(before), HandlersAfter(steps), TopicsStarted(before);
    SubscribeKeepsTopics(steps);
    SubscribeAddsUnbound(steps);
    hide HandlersAfter, Callbacks, QueueName, Registered;
    forall topic
      ensures Bound(steps, topic) == Bound(before, topic)
    {
      assert Bound(before, topic) + [] == Bound(before, topic);
    }
    hide Bound;
    assert BoundTopics(steps, hs', n) == BoundTopics(before, hs, n);
    assert Wired(prefix, hs', capture, BoundTopics(steps, hs', n)) == Wired(prefix, hs, capture, BoundTopics(before, hs, n));
  }

  lemma StepStarts(prefix: string, steps: seq<Step>, capture: Capture)
    requires steps != [] && steps[|steps| - 1].Starting? && BrokerIsWired(prefix, steps[..|steps| - 1], capture)
    requires var hs, n := HandlersAfter(steps[..|steps| - 1]), TopicsStarted(steps[..|steps| - 1]);
             forall i | 0 <= i < |hs| :: Bound(steps[..|steps| - 1], hs[i].0) != [] <==> i < n
    ensures BrokerIsWired(prefix, steps, capture)
    ensures var hs, n := HandlersAfter(steps), TopicsStarted(steps);
            forall i | 0 <= i < |hs| :: Bound(steps, hs[i].0) != [] <==> i < n
  {
    var before := steps[..|steps| - 1];
    var hs, n, start := HandlersAfter(before), TopicsStarted(before), StartsIn(before);
    hide Wire, Wired, HandlersAfter, Registered, Bound, Callbacks;
    StartKeepsTopics(steps);
    StepsRegistered(before);
    WireAll(prefix, hs, capture, BoundTopics(before, hs, n), start, |hs|);
    assert hs[..|hs|] == hs;
    forall i | 0 <= i < |hs|
      ensures Bound(steps, hs[i].0) == Bound(before, hs[i].0) + [Binding(start, hs[i].1)]
    {
      Member(hs, i);
      StartBinds(steps, hs[i].0);
    }
    ReboundIsBound(before, steps, hs, start, n);
  }

  lemma StartBinds(steps: seq<Step>, topic: string)
    requires steps != [] && steps[|steps| - 1].Starting? && topic in Registered(steps[..|steps| - 1])
    ensures var before := steps[..|steps| - 1];
            Bound(steps, topic) == Bound(before, topic) + [Binding(StartsIn(before), Registered(before)[topic])]
  {
    hide Registered, StartsIn;
  }

  lemma ReboundIsBound(before: seq<Step>, steps: seq<Step>, hs: Handlers, start: nat, n: nat)
    requires n <= |hs| && forall i | n <= i < |hs| :: Bound(before, hs[i].0) == []
    requires forall i | 0 <= i < |hs| :: Bound(steps, hs[i].0) == Bound(before, hs[i].0) + [Binding(start, hs[i].1)]
    ensures Rebound(BoundTopics(before, hs, n), hs, start, |hs|) == BoundTopics(steps, hs, |hs|)
  {
    hide Bound;
    var bounds := BoundTopics(before, hs, n);
    forall i | 0 <= i < |hs|
      ensures Rebound(bounds, hs, start, |hs|)[i] == BoundTopics(steps, hs, |hs|)[i]
    {
      assert i >= n ==> Bound(before, hs[i].0) == [];
    }
  }

  lemma RegisteredListed(steps: seq<Step>, topic: string)
    ensures topic in Registered(steps) ==>
            exists k | 0 <= k < |HandlersAfter(steps)| :: HandlersAfter(steps)[k].0 == topic
  {
    StepsRegistered(steps);
    hide Registered, HandlersAfter;
    if topic in Registered(steps) {
      var entry := (topic, Registered(steps)[topic]);
      assert entry in HandlersAfter(steps);
      var k :| 0 <= k < |HandlersAfter(steps)| && HandlersAfter(steps)[k] == entry;
    }
  }

  lemma SubscribeAddsUnbound(steps: seq<Step>)
    requires steps != [] && steps[|steps| - 1].Subscribing?
    ensures var hs, hs' := HandlersAfter(steps[..|steps| - 1]), HandlersAfter(steps);
            forall i | |hs| <= i < |hs'| :: Bound(steps[..|steps| - 1], hs'[i].0) == []
  {
    var before := steps[..|steps| - 1];
    var hs, hs' := HandlersAfter(before), HandlersAfter(steps);
    SubscribeKeepsTopics(steps);
    StepsRegistered(before);
    StepsRegistered(steps);
    forall i | |hs| <= i < |hs'|
      ensures Bound(before, hs'[i].0) == []
    {
      BoundRegistered(before, hs'[i].0);
      RegisteredListed(before, hs'[i].0);
    }
  }

  // ---------- From a published message to the handlers ----------

  /** The exchange puts a message with this routing key into the queue. */
  predicate Reaches(q: Queue, key: string) {
    exists t | t in q.keys :: TopicMatches(t, key)
  }

  /** A message body: the JSON it holds, or bytes `json.loads` raises on. */
  type Body = Option<Json>

  datatype Invocation = Invocation(handler: Handler, event: Event)

  /** The calls a run of deliveries to one callback stands for. */
  function CallsFor(handler: Handler, bodies: seq<Body>): seq<Invocation> {
    if bodies == [] then []
    else
      var last := bodies[|bodies| - 1];
      CallsFor(handler, bodies[..|bodies| - 1])
      + (if last.Some? && Decode(last.value).Some? then [Invocation(handler, Decode(last.value).value)] else [])
  }

  /** What one queue's consumers make of the message: the broker hands it to one of them. */
  function QueueCalls(q: Queue, key: string, pick: string -> nat, variables: nat -> Handler, body: Body): seq<Invocation> {
    if Reaches(q, key) && q.callbacks != [] then
      CallsFor(Resolve(q.callbacks[pick(q.name) % |q.callbacks|], variables), [body])
    else []
  }

  /** Every invocation a published message causes, queue by queue. */
  function Delivered(b: Broker, key: string, pick: string -> nat, variables: nat -> Handler, body: Body)
    : seq<Invocation>
  {
    if b == [] then []
    else QueueCalls(b[0], key, pick, variables, body) + Delivered(b[1..], key, pick, variables, body)
  }

  /** The body `publish` sends for an event. */
  function BodyOf(e: Event): Body {
    Some(Object(ToDict(e)))
  }

  /** The invocations there should be: each matching topic's handler in force, once. */
  function Matching(hs: Handlers, key: string, e: Event): seq<Invocation> {
    if hs == [] then []
    else (if TopicMatches(hs[0].0, key) then [Invocation(hs[0].1, e)] else []) + Matching(hs[1..], key, e)
  }

  /** The handler the picked consumer of a topic calls. */
  function PickedHandler(prefix: string, topic: string, bound: seq<Binding>, capture: Capture, pick: string -> nat,
                         variables: nat -> Handler): Handler
    requires bound != []
  {
    Resolve(Callback(capture, bound[pick(QueueName(prefix, topic)) % |bound|]), variables)
  }

  /** The invocations there are: each matching topic that has a queue, once, with the handler of the
      consumer the broker picks. */
  function Picked(prefix: string, hs: Handlers, bounds: seq<seq<Binding>>, capture: Capture, key: string,
                  pick: string -> nat, variables: nat -> Handler, e: Event): seq<Invocation>
    requires |bounds| <= |hs|
  {
    if bounds == [] then []
    else
      (if TopicMatches(hs[0].0, key) && bounds[0] != []
       then [Invocation(PickedHandler(prefix, hs[0].0, bounds[0], capture, pick, variables), e)] else [])
      + Picked(prefix, hs[1..], bounds[1..], capture, key, pick, variables, e)
  }

  lemma SingleCall(h: Handler, e: Event)
    ensures CallsFor(h, [BodyOf(e)]) == [Invocation(h, e)]
  {
    EventRoundTrip(e);
    hide ToDict, Decode;
    assert [BodyOf(e)][..0] == [];
    assert CallsFor(h, []) == [];
  }

  lemma TopicQueueCalls(prefix: string, topic: string, bound: seq<Binding>, capture: Capture, key: string,
                        pick: string -> nat, variables: nat -> Handler, e: Event)
    ensures QueueCalls(Queue(QueueName(prefix, topic), {topic}, Callbacks(capture, bound)), key, pick, variables, BodyOf(e))
         == if TopicMatches(topic, key) && bound != []
            then [Invocation(PickedHandler(prefix, topic, bound, capture, pick, variables), e)] else []
  {
    hide TopicMatches, BodyOf, QueueName, CallsFor, Resolve, Callback;
    var q := Queue(QueueName(prefix, topic), {topic}, Callbacks(capture, bound));
    assert topic in q.keys;
    assert Reaches(q, key) <==> TopicMatches(topic, key);
    if bound != [] {
      SingleCall(PickedHandler(prefix, topic, bound, capture, pick, variables), e);
    }
  }

  lemma {:induction false} WiredDelivers(prefix: string, hs: Handlers, bounds: seq<seq<Binding>>, capture: Capture,
                                         key: string, pick: string -> nat, variables: nat -> Handler, e: Event)
    requires |bounds| <= |hs|
    ensures Delivered(Wired(prefix, hs, capture, bounds), key, pick, variables, BodyOf(e))
         == Picked(prefix, hs, bounds, capture, key, pick, variables, e)
  {
    hide TopicMatches, QueueCalls, BodyOf, Callbacks, QueueName, PickedHandler;
    if bounds != [] {
      WiredDelivers(prefix, hs[1..], bounds[1..], capture, key, pick, variables, e);
      TopicQueueCalls(prefix, hs[0].0, bounds[0], capture, key, pick, variables, e);
      assert Wired(prefix, hs, capture, bounds)[1..] == Wired(prefix, hs[1..], capture, bounds[1..]);
    }
  }

  /** End to end, exactly: whatever calls of `subscribe` and `start_consuming` came before, whichever of
      a queue's consumers the broker picks, a published event causes one invocation per matching topic
      that was registered at a start, of a handler that topic had at such a start. */
  lemma PublishedInvokes(prefix: string, steps: seq<Step>, capture: Capture, key: string, pick: string -> nat,
                         variables: nat -> Handler, e: Event)
    ensures var hs, n := HandlersAfter(steps), TopicsStarted(steps);
            && n <= |hs|
            && Delivered(BrokerAfter(prefix, steps, capture), key, pick, variables, BodyOf(e))
               == Picked(prefix, hs, BoundTopics(steps, hs, n), capture, key, pick, variables, e)
  {
    hide Delivered, BodyOf, Picked, HandlersAfter, TopicsStarted;
    StepsExactly(prefix, steps, capture);
    var hs, n := HandlersAfter(steps), TopicsStarted(steps);
    WiredDelivers(prefix, hs, BoundTopics(steps, hs, n), capture, key, pick, variables, e);
  }

  lemma SameCons<T>(x: T, a: seq<T>, y: T, b: seq<T>)
    ensures [x] + a == [y] + b <==> x == y && a == b
  {
    if [x] + a == [y] + b {
      assert ([x] + a)[0] == ([y] + b)[0];
      assert a == ([x] + a)[1..] && b == ([y] + b)[1..];
    }
  }

  lemma {:induction false} PickedLength(prefix: string, hs: Handlers, bounds: seq<seq<Binding>>, capture: Capture,
                                        key: string, pick: string -> nat, variables: nat -> Handler, e: Event)
    requires |bounds| <= |hs|
    ensures |Picked(prefix, hs, bounds, capture, key, pick, variables, e)| <= |Matching(hs, key, e)|
  {
    hide TopicMatches, PickedHandler;
    if bounds != [] {
      PickedLength(prefix, hs[1..], bounds[1..], capture, key, pick, variables, e);
    }
  }

  /** Topic i has a consumer, and the picked one calls the handler in force. */
  ghost predicate PicksInForce(prefix: string, hs: Handlers, bounds: seq<seq<Binding>>, capture: Capture,
                               pick: string -> nat, variables: nat -> Handler, i: nat)
    requires |bounds| <= |hs| && i < |hs|
  {
    i < |bounds| && bounds[i] != []
    && PickedHandler(prefix, hs[i].0, bounds[i], capture, pick, variables) == hs[i].1
  }

  ghost predicate AllPickInForce(prefix: string, hs: Handlers, bounds: seq<seq<Binding>>, capture: Capture, key: string,
                                 pick: string -> nat, variables: nat -> Handler)
    requires |bounds| <= |hs|
  {
    forall i | 0 <= i < |hs| && TopicMatches(hs[i].0, key) ::
      PicksInForce(prefix, hs, bounds, capture, pick, variables, i)
  }

  lemma AllPickCons(prefix: string, hs: Handlers, bounds: seq<seq<Binding>>, capture: Capture, key: string,
                    pick: string -> nat, variables: nat -> Handler)
    requires |bounds| <= |hs| && bounds != []
    ensures AllPickInForce(prefix, hs, bounds, capture, key, pick, variables) <==>
            (TopicMatches(hs[0].0, key) ==> PicksInForce(prefix, hs, bounds, capture, pick, variables, 0))
            && AllPickInForce(prefix, hs[1..], bounds[1..], capture, key, pick, variables)
  {
    hide TopicMatches, PickedHandler;
    forall i | 0 <= i < |hs| - 1
      ensures PicksInForce(prefix, hs[1..], bounds[1..], capture, pick, variables, i)
           == PicksInForce(prefix, hs, bounds, capture, pick, variables, i + 1)
    {
    }
    if AllPickInForce(prefix, hs, bounds, capture, key, pick, variables) {
      assert forall i | 0 <= i < |hs[1..]| :: hs[1..][i] == hs[i + 1];
    }
    if AllPickInForce(prefix, hs[1..], bounds[1..], capture, key, pick, variables) {
      forall i | 1 <= i < |hs| && TopicMatches(hs[i].0, key)
        ensures PicksInForce(prefix, hs, bounds, capture, pick, variables, i)
      {
        assert hs[1..][i - 1] == hs[i];
      }
    }
  }

  lemma {:induction false} NoneMatches(hs: Handlers, key: string, e: Event)
    ensures Matching(hs, key, e) == [] <==> forall i | 0 <= i < |hs| :: !TopicMatches(hs[i].0, key)
  {
    hide TopicMatches;
    if hs != [] {
      NoneMatches(hs[1..], key, e);
      assert forall i | 1 <= i < |hs| :: hs[i] == hs[1..][i - 1];
      if forall i | 0 <= i < |hs| :: !TopicMatches(hs[i].0, key) {
        assert forall i | 0 <= i < |hs[1..]| :: hs[1..][i] == hs[i + 1];
      }
    }
  }

  lemma {:induction false} PickedSame(prefix: string, hs: Handlers, bounds: seq<seq<Binding>>, capture: Capture,
                                      key: string, pick: string -> nat, variables: nat -> Handler, e: Event)
    requires |bounds| <= |hs|
    ensures Picked(prefix, hs, bounds, capture, key, pick, variables, e) == Matching(hs, key, e)
        <==> AllPickInForce(prefix, hs, bounds, capture, key, pick, variables)
  {
    hide TopicMatches, PickedHandler;
    if bounds == [] {
      NoneMatches(hs, key, e);
    } else {
      PickedSame(prefix, hs[1..], bounds[1..], capture, key, pick, variables, e);
      PickedLength(prefix, hs[1..], bounds[1..], capture, key, pick, variables, e);
      AllPickCons(prefix, hs, bounds, capture, key, pick, variables);
      hide AllPickInForce;
      var a, b := Picked(prefix, hs[1..], bounds[1..], capture, key, pick, variables, e), Matching(hs[1..], key, e);
      if !TopicMatches(hs[0].0, key) {
        assert [] + a == a && [] + b == b;
      } else if bounds[0] != [] {
        SameCons(Invocation(PickedHandler(prefix, hs[0].0, bounds[0], capture, pick, variables), e), a,
                 Invocation(hs[0].1, e), b);
      } else {
        assert |[] + a| < |[Invocation(hs[0].1, e)] + b|;
      }
    }
  }

  /** Whichever consumers the broker picks, the event reaches the handlers in force. */
  ghost predicate AlwaysInForce(prefix: string, steps: seq<Step>, capture: Capture, key: string,
                                variables: nat -> Handler, e: Event)
  {
    forall pick: string -> nat ::
      Delivered(BrokerAfter(prefix, steps, capture), key, pick, variables, BodyOf(e))
      == Matching(HandlersAfter(steps), key, e)
  }

  /** The topic was registered at some start, and the callbacks of all these starts call `h`. */
  ghost predicate OnlyBoundTo(steps: seq<Step>, capture: Capture, variables: nat -> Handler, topic: string, h: Handler) {
    Bound(steps, topic) != []
    && forall b | b in Bound(steps, topic) :: Resolve(Callback(capture, b), variables) == h
  }

  /** The handlers in force are the ones invoked, whatever the broker picks, if and only if every
      matching topic was registered at some start and each of its callbacks calls its handler in
      force. */
  lemma AlwaysInForceIff(prefix: string, steps: seq<Step>, capture: Capture, key: string,
                         variables: nat -> Handler, e: Event)
    ensures AlwaysInForce(prefix, steps, capture, key, variables, e) <==>
            var hs := HandlersAfter(steps);
            forall i | 0 <= i < |hs| && TopicMatches(hs[i].0, key) ::
              OnlyBoundTo(steps, capture, variables, hs[i].0, hs[i].1)
  {
    hide Delivered, BrokerAfter, Picked, Matching, TopicMatches, HandlersAfter, TopicsStarted, Bound, BodyOf, OnlyBoundTo,
      AllPickInForce;
    StepsExactly(prefix, steps, capture);
    var hs, n := HandlersAfter(steps), TopicsStarted(steps);
    var bounds := BoundTopics(steps, hs, n);
    forall pick: string -> nat
      ensures Delivered(BrokerAfter(prefix, steps, capture), key, pick, variables, BodyOf(e)) == Matching(hs, key, e)
          <==> AllPickInForce(prefix, hs, bounds, capture, key, pick, variables)
    {
      PublishedInvokes(prefix, steps, capture, key, pick, variables, e);
      PickedSame(prefix, hs, bounds, capture, key, pick, variables, e);
    }
    if AlwaysInForce(prefix, steps, capture, key, variables, e) {
      forall i | 0 <= i < |hs| && TopicMatches(hs[i].0, key)
        ensures OnlyBoundTo(steps, capture, variables, hs[i].0, hs[i].1)
      {
        forall pick: string -> nat
          ensures AllPickInForce(prefix, hs, bounds, capture, key, pick, variables)
        {
          assert Delivered(BrokerAfter(prefix, steps, capture), key, pick, variables, BodyOf(e)) == Matching(hs, key, e);
        }
        AnyPickBinds(prefix, hs, bounds, capture, key, variables, steps, i);
      }
    } else {
      var pick: string -> nat :|
        Delivered(BrokerAfter(prefix, steps, capture), key, pick, variables, BodyOf(e)) != Matching(hs, key, e);
      WrongPick(prefix, hs, bounds, capture, key, pick, variables, steps);
    }
  }

  lemma AnyPickBinds(prefix: string, hs: Handlers, bounds: seq<seq<Binding>>, capture: Capture, key: string,
                     variables: nat -> Handler, steps: seq<Step>, i: nat)
    requires |bounds| <= |hs| && bounds == BoundTopics(steps, hs, |bounds|)
    requires forall pick: string -> nat :: AllPickInForce(prefix, hs, bounds, capture, key, pick, variables)
    requires i < |hs| && TopicMatches(hs[i].0, key)
    ensures OnlyBoundTo(steps, capture, variables, hs[i].0, hs[i].1)
  {
    hide TopicMatches, Bound, Callback, Resolve, QueueName, PicksInForce;
    var first: string -> nat := (name: string) => 0;
    assert AllPickInForce(prefix, hs, bounds, capture, key, first, variables);
    PickOf(prefix, hs, bounds, capture, variables, i, 0);
    forall j | 0 <= j < |bounds[i]|
      ensures Resolve(Callback(capture, bounds[i][j]), variables) == hs[i].1
    {
      var pick: string -> nat := (name: string) => j;
      assert AllPickInForce(prefix, hs, bounds, capture, key, pick, variables);
      PickOf(prefix, hs, bounds, capture, variables, i, j);
    }
  }

  lemma PickOf(prefix: string, hs: Handlers, bounds: seq<seq<Binding>>, capture: Capture,
               variables: nat -> Handler, i: nat, j: nat)
    requires |bounds| <= |hs| && i < |hs|
    ensures PicksInForce(prefix, hs, bounds, capture, (name: string) => j, variables, i) ==>
            && i < |bounds| && bounds[i] != []
            && (j < |bounds[i]| ==> Resolve(Callback(capture, bounds[i][j]), variables) == hs[i].1)
  {
    hide Callback, Resolve, QueueName;
    if i < |bounds| && j < |bounds[i]| {
      SmallModulo(j, |bounds[i]|);
    }
  }

  lemma SmallModulo(j: nat, n: nat)
    requires j < n
    ensures j % n == j
  {
  }

  lemma WrongPick(prefix: string, hs: Handlers, bounds: seq<seq<Binding>>, capture: Capture, key: string,
                  pick: string -> nat, variables: nat -> Handler, steps: seq<Step>)
    requires |bounds| <= |hs| && bounds == BoundTopics(steps, hs, |bounds|)
    requires forall i | 0 <= i < |hs| :: Bound(steps, hs[i].0) != [] <==> i < |bounds|
    requires !AllPickInForce(prefix, hs, bounds, capture, key, pick, variables)
    ensures exists i | 0 <= i < |hs| && TopicMatches(hs[i].0, key) ::
              !OnlyBoundTo(steps, capture, variables, hs[i].0, hs[i].1)
  {
    hide TopicMatches, Bound, Callback, Resolve, QueueName;
    var i :| 0 <= i < |hs| && TopicMatches(hs[i].0, key)
             && !PicksInForce(prefix, hs, bounds, capture, pick, variables, i);
    if i < |bounds| {
      var b := bounds[i][pick(QueueName(prefix, hs[i].0)) % |bounds[i]|];
      assert b in Bound(steps, hs[i].0);
    }
  }

  /** The code binds early. So an older handler can be invoked exactly if a matching topic was
      subscribed anew after a start, or only after the last one. */
  lemma EarlyBindingIff(prefix: string, steps: seq<Step>, key: string, variables: nat -> Handler, e: Event)
    ensures AlwaysInForce(prefix, steps, Early, key, variables, e) <==>
            forall topic | topic in Registered(steps) && TopicMatches(topic, key) ::
              && Bound(steps, topic) != []
              && forall b | b in Bound(steps, topic) :: b.handler == Registered(steps)[topic]
  {
    AlwaysInForceIff(prefix, steps, Early, key, variables, e);
    AllRegistered(steps, Early, variables, key);
    hide AlwaysInForce, TopicMatches, HandlersAfter, Registered, Bound;
  }

  /** Had the callbacks used the loops' variables, each would invoke whatever handler the variable of
      its start holds by then, after the loop the last one of the dictionary. */
  lemma LateBindingIff(prefix: string, steps: seq<Step>, key: string, variables: nat -> Handler, e: Event)
    ensures AlwaysInForce(prefix, steps, Late, key, variables, e) <==>
            forall topic | topic in Registered(steps) && TopicMatches(topic, key) ::
              && Bound(steps, topic) != []
              && forall b | b in Bound(steps, topic) :: variables(b.start) == Registered(steps)[topic]
  {
    AlwaysInForceIff(prefix, steps, Late, key, variables, e);
    AllRegistered(steps, Late, variables, key);
    hide AlwaysInForce, TopicMatches, HandlersAfter, Registered, Bound;
  }

  lemma AllRegistered(steps: seq<Step>, capture: Capture, variables: nat -> Handler, key: string)
    ensures (var hs := HandlersAfter(steps);
             forall i | 0 <= i < |hs| && TopicMatches(hs[i].0, key) ::
               OnlyBoundTo(steps, capture, variables, hs[i].0, hs[i].1))
        <==> forall topic | topic in Registered(steps) && TopicMatches(topic, key) ::
               OnlyBoundTo(steps, capture, variables, topic, Registered(steps)[topic])
  {
    hide TopicMatches, OnlyBoundTo, HandlersAfter, Registered;
    StepsRegistered(steps);
    var hs := HandlersAfter(steps);
    forall i | 0 <= i < |hs|
      ensures hs[i].0 in Registered(steps) && Registered(steps)[hs[i].0] == hs[i].1
    {
      Member(hs, i);
    }
    forall topic | topic in Registered(steps)
      ensures exists i | 0 <= i < |hs| :: hs[i] == (topic, Registered(steps)[topic])
    {
      assert (topic, Registered(steps)[topic]) in hs;
    }
  }

  /** No `subscribe` after a start. */
  ghost predicate SubscribedFirst(steps: seq<Step>) {
    forall i, j | 0 <= i < j < |steps| :: steps[i].Starting? ==> steps[j].Starting?
  }

  lemma {:induction false} BoundInForce(steps: seq<Step>, topic: string)
    requires SubscribedFirst(steps)
    ensures topic in Registered(steps) ==> forall b | b in Bound(steps, topic) :: b.handler == Registered(steps)[topic]
    ensures (forall i | 0 <= i < |steps| :: steps[i].Subscribing?) ==> Bound(steps, topic) == []
  {
    if steps != [] {
      var n := |steps| - 1;
      BoundInForce(steps[..n], topic);
      if steps[n].Starting? {
        StartKeepsTopics(steps);
        hide Registered;
      } else {
        assert forall i | 0 <= i < n :: steps[..n][i].Subscribing?;
      }
    }
  }

  /** A consumer that subscribes first and then starts, once or again and again, is invoked as it
      should be: every published event reaches each matching topic's handler in force, once. */
  lemma SubscribeThenStart(prefix: string, steps: seq<Step>, key: string, variables: nat -> Handler, e: Event)
    requires SubscribedFirst(steps) && steps != [] && steps[|steps| - 1].Starting?
    ensures AlwaysInForce(prefix, steps, Early, key, variables, e)
  {
    EarlyBindingIff(prefix, steps, key, variables, e);
    StartKeepsTopics(steps);
    hide AlwaysInForce, TopicMatches, Registered;
    forall topic | topic in Registered(steps)
      ensures Bound(steps, topic) != []
      ensures forall b | b in Bound(steps, topic) :: b.handler == Registered(steps)[topic]
    {
      BoundInForce(steps, topic);
    }
  }

  /** Subscribed, started, subscribed anew, started again: the first handler can still be invoked. */
  lemma ResubscribedKeepsOld(prefix: string, topic: string, h1: Handler, h2: Handler, variables: nat -> Handler, e: Event)
    requires WildcardFree(topic) && h1 != h2
    ensures !AlwaysInForce(prefix, [Subscribing(topic, h1), Starting, Subscribing(topic, h2), Starting], Early, topic,
                           variables, e)
  {
    var s1 := [Subscribing(topic, h1)];
    var s2 := s1 + [Starting];
    var s3 := s2 + [Subscribing(topic, h2)];
    var steps := s3 + [Starting];
    assert steps == [Subscribing(topic, h1), Starting, Subscribing(topic, h2), Starting];
    assert s2[..1] == s1 && s3[..2] == s2 && steps[..3] == s3;
    hide AlwaysInForce, TopicMatches, WildcardFree, Registered, Bound, SubscriptionsIn, StartsIn;
    NowRegistered([], topic, h1);
    assert [] + s1 == s1;
    NowRegistered(s2, topic, h2);
    StartBinds(s2, topic);
    var first := Bound(s2, topic)[|Bound(s2, topic)| - 1];
    assert first.handler == h1;
    BoundStays(s2, s3[2], topic);
    BoundStays(s3, Starting, topic);
    StartKeepsTopics(steps);
    PlainTopicMatches(topic, topic);
    EarlyBindingIff(prefix, steps, topic, variables, e);
  }

  lemma NowRegistered(before: seq<Step>, topic: string, h: Handler)
    ensures var steps := before + [Subscribing(topic, h)];
            topic in Registered(steps) && Registered(steps)[topic] == h
  {
    var steps := before + [Subscribing(topic, h)];
    assert steps[..|steps| - 1] == before;
    var subs := SubscriptionsIn(steps);
    assert subs == SubscriptionsIn(before) + [(topic, h)];
    hide SubscriptionsIn;
    assert subs[|subs| - 1] == (topic, h);
  }

  lemma BoundStays(before: seq<Step>, step: Step, topic: string)
    ensures forall b | b in Bound(before, topic) :: b in Bound(before + [step], topic)
  {
    assert (before + [step])[..|before|] == before;
    hide Registered, StartsIn;
  }

  /** Routing, for any topics, wildcards included, and any calls: queue i belongs to topic i, is reached
      exactly by the keys that topic matches, and its callbacks call the handlers that topic had at the
      starts, in order, whatever the loop variables hold. */
  lemma RoutesToOwnHandler(prefix: string, steps: seq<Step>, i: nat, key: string, variables: nat -> Handler)
    requires i < TopicsStarted(steps)
    ensures var hs, b := HandlersAfter(steps), BrokerAfter(prefix, steps, Early);
            && |b| == TopicsStarted(steps) <= |hs| && b[i].name == prefix + "." + hs[i].0
            && (Reaches(b[i], key) <==> TopicMatches(hs[i].0, key))
            && |b[i].callbacks| == |Bound(steps, hs[i].0)| > 0
            && forall j | 0 <= j < |b[i].callbacks| ::
                 Resolve(b[i].callbacks[j], variables) == Bound(steps, hs[i].0)[j].handler
  {
    hide HandlersAfter, TopicMatches, TopicsStarted, BrokerAfter, Bound;
    StepsExactly(prefix, steps, Early);
    assert HandlersAfter(steps)[i].0 in BrokerAfter(prefix, steps, Early)[i].keys;
  }

  /** With wildcard-free topics a published event is handled once, by a handler its key had at a start,
      or, if the key was registered at no start, not at all. */
  lemma PlainTopicsRouteOnce(prefix: string, steps: seq<Step>, key: string, pick: string -> nat,
                             variables: nat -> Handler, e: Event)
    requires forall topic | topic in Registered(steps) :: WildcardFree(topic)
    ensures var bound := Bound(steps, key);
            Delivered(BrokerAfter(prefix, steps, Early), key, pick, variables, BodyOf(e))
            == if bound == [] then []
               else [Invocation(bound[pick(QueueName(prefix, key)) % |bound|].handler, e)]
  {
    hide BrokerAfter, Delivered, BodyOf, TopicMatches, WildcardFree, Registered, HandlersAfter, TopicsStarted, Bound,
      QueueName;
    PublishedInvokes(prefix, steps, Early, key, pick, variables, e);
    StepsExactly(prefix, steps, Early);
    StepsRegistered(steps);
    var hs, n := HandlersAfter(steps), TopicsStarted(steps);
    forall i | 0 <= i < |hs|
      ensures TopicMatches(hs[i].0, key) <==> hs[i].0 == key
    {
      Member(hs, i);
      PlainTopicMatches(hs[i].0, key);
    }
    OnlyPicked(prefix, hs, BoundTopics(steps, hs, n), key, pick, variables, e);
    if Bound(steps, key) != [] {
      BoundRegistered(steps, key);
      assert (key, Registered(steps)[key]) in hs;
      var k :| 0 <= k < |hs| && hs[k] == (key, Registered(steps)[key]);
      assert BoundTopics(steps, hs, n)[k] == Bound(steps, key);
    } else {
      assert forall i | 0 <= i < n :: hs[i].0 != key;
    }
  }

  lemma {:induction false} OnlyPicked(prefix: string, hs: Handlers, bounds: seq<seq<Binding>>, key: string,
                                      pick: string -> nat, variables: nat -> Handler, e: Event)
    requires DistinctTopics(hs) && forall i | 0 <= i < |hs| :: TopicMatches(hs[i].0, key) <==> hs[i].0 == key
    requires |bounds| <= |hs| && forall i | 0 <= i < |bounds| :: bounds[i] != []
    ensures (forall i | 0 <= i < |bounds| :: hs[i].0 != key) ==>
            Picked(prefix, hs, bounds, Early, key, pick, variables, e) == []
    ensures forall i | 0 <= i < |bounds| && hs[i].0 == key ::
              Picked(prefix, hs, bounds, Early, key, pick, variables, e)
              == [Invocation(bounds[i][pick(QueueName(prefix, key)) % |bounds[i]|].handler, e)]
  {
    hide TopicMatches, QueueName;
    if bounds != [] {
      OnlyPicked(prefix, hs[1..], bounds[1..], key, pick, variables, e);
    }
  }

  // ---------- Deliveries ----------

  datatype Settlement = Acked | Rejected

  /** `message.process()`: acknowledge when the block ends normally, reject when it raises. */
  function Settle(blockRaised: bool): Settlement {
    if blockRaised then Rejected else Acked
  }

  /** Messages logged as failed. */
  function Failures(bodies: seq<Body>, raises: nat -> bool): nat {
    if bodies == [] then 0
    else
      var n := |bodies| - 1;
      Failures(bodies[..n], raises)
      + (if bodies[n].None? || Decode(bodies[n].value).None? || raises(n) then 1 else 0)
  }

  predicate Decodable(body: Body) {
    body.Some? && Decode(body.value).Some?
  }

  /** The decodable ones of the first n messages. */
  ghost function DecodableBefore(bodies: seq<Body>, n: nat): set<nat>
    requires n <= |bodies|
  {
    set i: nat | i < n && Decodable(bodies[i])
  }

  ghost function FailedOnes(bodies: seq<Body>, raises: nat -> bool): set<nat> {
    set i: nat | i < |bodies| && (!Decodable(bodies[i]) || raises(i))
  }

  lemma RankGrows(bodies: seq<Body>, i: nat, j: nat)
    requires i < j <= |bodies| && Decodable(bodies[i])
    ensures |DecodableBefore(bodies, i)| < |DecodableBefore(bodies, j)|
  {
    var a, b := DecodableBefore(bodies, i), DecodableBefore(bodies, j);
    assert a + {i} <= b && i !in a;
    SubsetSmaller(a + {i}, b);
  }

  lemma SubsetSmaller(a: set<nat>, b: set<nat>)
    requires a <= b
    ensures |a| <= |b|
  {
    assert b == a + (b - a);
  }

  /** In order and once each: every decodable message has its own place in the trace of its queue's
      callback, behind those of the decodable messages before it, where the callback's handler receives
      its event; and the trace holds nothing else. */
  ghost predicate EachHandledOnce(handler: Handler, bodies: seq<Body>, calls: seq<Invocation>) {
    && |calls| == |DecodableBefore(bodies, |bodies|)|
    && (forall i | 0 <= i < |bodies| && Decodable(bodies[i]) ::
          var k := |DecodableBefore(bodies, i)|;
          k < |calls| && calls[k] == Invocation(handler, Decode(bodies[i].value).value))
    && forall i, j | 0 <= i < j < |bodies| && Decodable(bodies[i]) && Decodable(bodies[j]) ::
         |DecodableBefore(bodies, i)| < |DecodableBefore(bodies, j)|
  }

  lemma {:induction false} CallsExactly(handler: Handler, bodies: seq<Body>)
    ensures EachHandledOnce(handler, bodies, CallsFor(handler, bodies))
  {
    hide Decode, DecodableBefore;
    forall i, j | 0 <= i < j < |bodies| && Decodable(bodies[i])
      ensures |DecodableBefore(bodies, i)| < |DecodableBefore(bodies, j)|
    {
      RankGrows(bodies, i, j);
    }
    if bodies == [] {
      NoneBefore(bodies);
    } else {
      var n := |bodies| - 1;
      CallsExactly(handler, bodies[..n]);
      OneMoreBody(bodies);
      LastCall(handler, bodies);
      forall i | 0 <= i < |bodies| && Decodable(bodies[i])
        ensures var k := |DecodableBefore(bodies, i)|;
                k < |CallsFor(handler, bodies)|
                && CallsFor(handler, bodies)[k] == Invocation(handler, Decode(bodies[i].value).value)
      {
        hide CallsFor;
        if i < n {
          SamePrefix(bodies, n, i);
          assert bodies[..n][i] == bodies[i];
        } else {
          SamePrefix(bodies, n, n);
        }
      }
    }
  }

  lemma NoneBefore(bodies: seq<Body>)
    ensures DecodableBefore(bodies, 0) == {}
  {
  }

  lemma OneMoreBody(bodies: seq<Body>)
    requires bodies != []
    ensures var n := |bodies| - 1;
            |DecodableBefore(bodies, |bodies|)|
            == |DecodableBefore(bodies[..n], n)| + (if Decodable(bodies[n]) then 1 else 0)
  {
    var n := |bodies| - 1;
    assert DecodableBefore(bodies, |bodies|)
        == DecodableBefore(bodies[..n], n) + (if Decodable(bodies[n]) then {n} else {});
  }

  lemma SamePrefix(bodies: seq<Body>, n: nat, i: nat)
    requires i <= n <= |bodies|
    ensures DecodableBefore(bodies[..n], i) == DecodableBefore(bodies, i)
  {
  }

  lemma LastCall(handler: Handler, bodies: seq<Body>)
    requires bodies != []
    ensures var n := |bodies| - 1;
            CallsFor(handler, bodies)
            == CallsFor(handler, bodies[..n])
               + (if Decodable(bodies[n]) then [Invocation(handler, Decode(bodies[n].value).value)] else [])
  {
    hide Decode;
  }

  /** The messages logged as failed, counted: those that cannot be decoded and those their handler
      raises on. */
  lemma {:induction false} FailuresExactly(bodies: seq<Body>, raises: nat -> bool)
    ensures Failures(bodies, raises) == |FailedOnes(bodies, raises)|
  {
    hide Decode;
    if bodies != [] {
      var n := |bodies| - 1;
      FailuresExactly(bodies[..n], raises);
      assert FailedOnes(bodies, raises)
          == FailedOnes(bodies[..n], raises) + (if !Decodable(bodies[n]) || raises(n) then {n} else {});
    }
  }

  class RabbitConsumer {
    const prefix: string
    var handlers: Handlers
    var connected: bool

    constructor (prefix: string)
      ensures this.prefix == prefix && handlers == AfterSubscribes([]) && !connected
    {
      this.prefix := prefix;
      handlers, connected := [], false;
    }

    method Connect()
      modifies this`connected
      ensures connected
    {
      connected := true;
    }

    method Subscribe(topic: string, handler: Handler)
      modifies this`handlers
      ensures handlers == Put(old(handlers), topic, handler)
      ensures old(DistinctTopics(handlers)) ==>
                && DistinctTopics(handlers)
                && forall t, h :: (t, h) in handlers <==>
                     if t == topic then h == handler else (t, h) in old(handlers)
    {
      if DistinctTopics(handlers) {
        PutContents(handlers, topic, handler);
      }
      handlers := Put(handlers, topic, handler);
    }

    /** The loop over the handlers, on whatever the broker already holds. */
    method StartConsuming(b: Broker, ghost start: nat) returns (r: Result<Broker, PyError>)
      ensures !connected ==> r == Failure(NOT_CONNECTED)
      ensures connected ==> r == Success(Wire(b, prefix, handlers, Early, start))
    {
      hide WithTopic;
      if !connected {
        return Failure(NOT_CONNECTED);
      }
      var now := b;
      for i := 0 to |handlers|
        invariant now == Wire(b, prefix, handlers[..i], Early, start)
      {
        var (topic, handler) := handlers[i];
        var callback := DefaultArgument(handler);
        now := WithTopic(now, prefix, topic, callback);
        assert handlers[..i + 1][..i] == handlers[..i];
      }
      assert handlers[..|handlers|] == handlers;
      r := Success(now);
    }

    /** One callback over the messages of its queue; `raises(i)`: the handler raises on message i. The
        inner `try` swallows every exception, so each message is acknowledged, once, and a failure
        neither skips nor repeats another message. */
    method Consume(callback: HandlerRef, variables: nat -> Handler, bodies: seq<Body>, raises: nat -> bool)
      returns (calls: seq<Invocation>, settled: seq<Settlement>, failures: nat)
      ensures EachHandledOnce(Resolve(callback, variables), bodies, calls)
      ensures calls == CallsFor(Resolve(callback, variables), bodies)
      ensures failures == |FailedOnes(bodies, raises)|
      ensures |settled| == |bodies| && forall i | 0 <= i < |settled| :: settled[i] == Acked
    {
      calls, settled, failures := [], [], 0;
      var handler := Resolve(callback, variables);
      for i := 0 to |bodies|
        invariant calls == CallsFor(handler, bodies[..i]) && failures == Failures(bodies[..i], raises)
        invariant |settled| == i && forall j | 0 <= j < i :: settled[j] == Acked
      {
        assert bodies[..i + 1][..i] == bodies[..i];
        var raised := false;
        if bodies[i].None? {
          raised := true;
        } else {
          var event := Decode(bodies[i].value);
          if event.None? {
            raised := true;
          } else {
            calls := calls + [Invocation(handler, event.value)];
            raised := raises(i);
          }
        }
        if raised {  // except Exception: logged and swallowed
          failures := failures + 1;
          raised := false;
        }
        settled := settled + [Settle(raised)];
      }
      assert bodies[..|bodies|] == bodies;
      CallsExactly(handler, bodies);
      FailuresExactly(bodies, raises);
    }
  }
}
