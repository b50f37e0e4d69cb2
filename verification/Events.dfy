/** The event envelope both brokers carry, as JSON values. */
module Events {
  import opened Prelude

  datatype Json =
    | Null
    | Bool(b: bool)
    | Number(n: int)
    | Str(s: string)
    | Array(items: seq<Json>)
    | Object(fields: map<string, Json>)

  /** The consumers put whatever value a field holds into the event, unchecked. */
  datatype Event = Event(
    eventId: Json, eventType: Json, timestamp: Json, source: Json, payload: Json, metadata: Json)

  /** `Event.to_dict`. */
  function ToDict(e: Event): map<string, Json> {
    map["event_id" := e.eventId, "event_type" := e.eventType, "timestamp" := e.timestamp,
        "source" := e.source, "payload" := e.payload, "metadata" := e.metadata]
  }

  /** `data.get(key, default)`. */
  function Get(data: map<string, Json>, key: string, default: Json): Json {
    if key in data then data[key] else default
  }

  /** The consumers' reading of a message value; None where `.get` raises because it is no object. */
  function Decode(value: Json): Option<Event> {
    if !value.Object? then None
    else
      var data := value.fields;
      Some(Event(Get(data, "event_id", Str("")), Get(data, "event_type", Str("")),
                 Get(data, "timestamp", Str("")), Get(data, "source", Str("")),
                 Get(data, "payload", Object(map[])), Get(data, "metadata", Object(map[]))))
  }

  /** What a message without a field is read as. */
  const DEFAULTS: map<string, Json> :=
    map["event_id" := Str(""), "event_type" := Str(""), "timestamp" := Str(""), "source" := Str(""),
        "payload" := Object(map[]), "metadata" := Object(map[])]

  /** Every object is read as an event: the defaults are filled in where a field is missing, fields of
      other names are ignored; and nothing but an object is. */
  lemma DecodedExactly(value: Json, e: Event)
    ensures Decode(value) == Some(e) <==>
            value.Object? && forall key | key in ToDict(e).Keys :: (DEFAULTS + value.fields)[key] == ToDict(e)[key]
  {
    if value.Object? {
      var keys := ToDict(e).Keys;
      assert "event_id" in keys && "event_type" in keys && "timestamp" in keys && "source" in keys
          && "payload" in keys && "metadata" in keys;
    }
  }

  /** All six fields survive publication and consumption. */
  lemma EventRoundTrip(e: Event)
    ensures Decode(Object(ToDict(e))) == Some(e)
  {
  }
}
