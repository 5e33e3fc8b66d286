/**
 * form_request: the dictionary sent to AnkiConnect. The protocol version is a global that
 * only exists once the version handshake has answered; it is modelled as an Option<int>.
 */
module AnkiRequests {
  import opened Wrappers

  /** The JSON values a request is built from. */
  datatype Json =
    | JNull
    | JBool(b: bool)
    | JInt(i: int)
    | JString(s: string)
    | JArray(items: seq<Json>)
    | JObject(members: map<string, Json>)

  /** The parts a request carries, as the caller supplied them. */
  datatype Envelope = Envelope(action: string, params: map<string, Json>, version: Option<int>)

  /** form_request: `{action, params}`, plus `version` only once the version is known. */
  function FormRequest(action: string, params: map<string, Json>, version: Option<int>): (r: map<string, Json>)
    ensures r.Keys == if version.Some? then {"action", "params", "version"} else {"action", "params"}
    ensures r["action"] == JString(action) && r["params"] == JObject(params)
    ensures version.Some? ==> r["version"] == JInt(version.value)
  {
    var request := map["action" := JString(action), "params" := JObject(params)];
    if version.Some? then request["version" := JInt(version.value)] else request
  }

  /** How the receiving side reads a request back: None when a mandatory part is missing. */
  function ReadRequest(r: map<string, Json>): Option<Envelope>
  {
    if "action" in r && r["action"].JString? && "params" in r && r["params"].JObject? then
      Some(Envelope(r["action"].s, r["params"].members,
                    if "version" in r && r["version"].JInt? then Some(r["version"].i) else None))
    else
      None
  }

  /** A formed request reads back as exactly what was put in, version included or not. */
  lemma FormRequestRoundTrip(action: string, params: map<string, Json>, version: Option<int>)
    ensures ReadRequest(FormRequest(action, params, version)) == Some(Envelope(action, params, version))
  {
  }
}
