/** `subscribe`, which both consumers implement as an assignment to their dictionary of handlers. */
module Subscriptions {

  /** A handler, named by a number. */
  type Handler = nat

  function Subscribed(handlers: map<string, Handler>, subs: seq<(string, Handler)>): map<string, Handler> {
    if subs == [] then handlers
    else Subscribed(handlers, subs[..|subs| - 1])[subs[|subs| - 1].0 := subs[|subs| - 1].1]
  }

  /** The last `subscribe` of a topic wins, and nothing is registered that was not subscribed. */
  lemma {:induction false} LastSubscribeWins(subs: seq<(string, Handler)>, topic: string)
    ensures topic in Subscribed(map[], subs) <==> exists i | 0 <= i < |subs| :: subs[i].0 == topic
    ensures forall i | 0 <= i < |subs| && subs[i].0 == topic && (forall j | i < j < |subs| :: subs[j].0 != topic) ::
              topic in Subscribed(map[], subs) && Subscribed(map[], subs)[topic] == subs[i].1
  {
    if subs != [] {
      var n := |subs| - 1;
      var before := subs[..n];
      LastSubscribeWins(before, topic);
      if subs[n].0 != topic {
        if i :| 0 <= i < |subs| && subs[i].0 == topic {
          assert before[i].0 == topic;
        }
        forall i | 0 <= i < |subs| && subs[i].0 == topic && (forall j | i < j < |subs| :: subs[j].0 != topic)
          ensures topic in Subscribed(map[], subs) && Subscribed(map[], subs)[topic] == subs[i].1
        {
          assert before[i] == subs[i];
        }
      } else {
        assert subs[n].0 == topic;
      }
    }
  }

  // ---------- The dictionary in its insertion order ----------

  type Handlers = seq<(string, Handler)>

  ghost predicate DistinctTopics(hs: Handlers) {
    forall i, j | 0 <= i < j < |hs| :: hs[i].0 != hs[j].0
  }

  /** `handlers[topic] = handler`: an existing key keeps its place. */
  function Put(hs: Handlers, topic: string, handler: Handler): Handlers {
    if hs == [] then [(topic, handler)]
    else if hs[0].0 == topic then [(topic, handler)] + hs[1..]
    else [hs[0]] + Put(hs[1..], topic, handler)
  }

  lemma {:induction false} PutContents(hs: Handlers, topic: string, handler: Handler)
    requires DistinctTopics(hs)
    ensures DistinctTopics(Put(hs, topic, handler))
    ensures forall t, h :: (t, h) in Put(hs, topic, handler) <==> if t == topic then h == handler else (t, h) in hs
  {
    if hs != [] {
      var rest := Put(hs[1..], topic, handler);
      PutContents(hs[1..], topic, handler);
      if hs[0].0 != topic {
        forall i | 0 <= i < |rest|
          ensures rest[i].0 != hs[0].0
        {
          assert (rest[i].0, rest[i].1) in rest;
          if rest[i].0 != topic {
            assert rest[i] in hs[1..];
          }
        }
      } else {
        assert forall h :: (topic, h) !in hs[1..];
      }
    }
  }

  /** The dictionary after these `subscribe` calls. */
  function AfterSubscribes(subs: seq<(string, Handler)>): Handlers {
    if subs == [] then []
    else Put(AfterSubscribes(subs[..|subs| - 1]), subs[|subs| - 1].0, subs[|subs| - 1].1)
  }

  /** It lists each topic once, with its handler in force. */
  lemma {:induction false} AfterSubscribesContents(subs: seq<(string, Handler)>)
    ensures DistinctTopics(AfterSubscribes(subs))
    ensures forall t, h :: (t, h) in AfterSubscribes(subs) <==>
              t in Subscribed(map[], subs) && Subscribed(map[], subs)[t] == h
  {
    if subs != [] {
      AfterSubscribesContents(subs[..|subs| - 1]);
      PutContents(AfterSubscribes(subs[..|subs| - 1]), subs[|subs| - 1].0, subs[|subs| - 1].1);
    }
  }
}
