/**
 * The JSON control envelope exchanged on the audio connection. Both ends
 * recognise a text frame as an interrupt with `data.get("type") == "interrupt"`
 * after `json.loads`; anything else (other JSON, JSON that is not an object,
 * text that does not parse) is logged and ignored.
 */
module Control {

  /** A value as `json.loads` returns it. */
  datatype Json =
    | JNull
    | JBool(b: bool)
    | JNumber(n: real)
    | JString(s: string)
    | JArray(items: seq<Json>)
    | JObject(fields: map<string, Json>)

  /** The payload of a text frame: parsed JSON, or text on which `json.loads` raises. */
  datatype TextPayload = Parsed(json: Json) | Malformed

  /**
   * `data.get("type") == "interrupt"` evaluated without raising: only an object
   * has `.get`; on any other value the `AttributeError` is caught and ignored.
   */
  predicate IsInterruptRequest(p: TextPayload) {
    && p.Parsed?
    && p.json.JObject?
    && "type" in p.json.fields
    && p.json.fields["type"] == JString("interrupt")
  }

  /** What `json.loads('{"type": "interrupt"}')` returns: the notice both ends send. */
  const InterruptNotice: Json := JObject(map["type" := JString("interrupt")])
}
