/**
 * The Python client of the conversational-video API (utils/api.py).  Each operation is modelled
 * as the request it sends (none when a guard fails first) together with its interpretation of
 * the exchange that follows.  The API key from the configuration and the default replica id are
 * parameters.
 */
module Api {
  import opened Wrappers
  import opened Text
  import opened Json
  import opened Http

  datatype Verb = GET | POST

  /** A request as `requests` sends it; the key travels in the `x-api-key` header. */
  datatype Request = Request(verb: Verb, url: string, apiKey: string, body: Option<Value>)

  /** The exceptions the client lets escape, each named after what raised it. */
  datatype ApiError =
    | MissingApiKey                 // `ValueError` from `_headers`
    | MissingConversationId         // `ValueError` from `end_conversation`
    | RequestFailed                 // a `requests` transport exception
    | HttpError(status: int)        // `raise_for_status()`
    | InvalidJson                   // `r.json()` on a body that is not JSON
    | BadShape                      // `AttributeError` / `TypeError` on a body of the wrong shape

  /** The request made, if any, and what the call returned or raised. */
  datatype Call<T> = Call(sent: Option<Request>, result: Result<T, ApiError>)

  const BaseUrl := "https://tavusapi.com/v2"
  const DocumentsUrl := BaseUrl + "/documents"
  const PersonasUrl := BaseUrl + "/personas"
  const ConversationsUrl := BaseUrl + "/conversations"

  /** `_headers()`: the key header, or `ValueError` when the key is not configured. */
  function Headers(apiKey: Option<string>): (r: Result<seq<(string, string)>, ApiError>)
    ensures r.Ok? <==> Truthy(apiKey)
    ensures r.Ok? ==> r.value == [("x-api-key", apiKey.value)]
    ensures r.Err? ==> r.error == MissingApiKey
  {
    if Truthy(apiKey) then Ok([("x-api-key", apiKey.value)]) else Err(MissingApiKey)
  }

  /** `r.raise_for_status()` followed by `r.json()`. */
  function JsonBody(x: Exchange): (r: Result<Value, ApiError>)
    ensures r.Ok? <==> x.Answered? && !IsErrorStatus(x.response.status) && x.response.body.Some?
    ensures r.Ok? ==> r.value == x.response.body.value
    ensures !x.Answered? ==> r == Err(RequestFailed)
    ensures x.Answered? && IsErrorStatus(x.response.status) ==> r == Err(HttpError(x.response.status))
  {
    match x
    case Answered(resp) =>
      if IsErrorStatus(resp.status) then Err(HttpError(resp.status))
      else if resp.body.None? then Err(InvalidJson)
      else Ok(resp.body.value)
    case _ => Err(RequestFailed)
  }

  // ---------------------------------------------------------------- find_document_by_name / find_persona_by_name

  /** What a `for` loop over the value visits: a list's items, a dict's keys, a string's characters. */
  function Iterated(v: Value): (r: Option<seq<Value>>)
    ensures r.None? <==> v.Null? || v.Bool? || v.Num?
    ensures v.Arr? ==> r == Some(v.items)
    ensures r.Some? && !v.Arr? ==> forall k :: 0 <= k < |r.value| ==> r.value[k].Str?
  {
    match v
    case Arr(items) => Some(items)
    case Obj(fields) => Some(seq(|fields|, k requires 0 <= k < |fields| => Str(fields[k].0)))
    case Str(s) => Some(seq(|s|, k requires 0 <= k < |s| => Str([s[k]])))
    case _ => None
  }

  /** `item.get(field) == name` on a dict. */
  predicate HasName(item: Value, field: string, name: string)
    requires item.Obj?
  {
    PyGet(item.fields, field) == Str(name)
  }

  /** The first `k` items are dicts that do not carry the name. */
  predicate Passed(items: seq<Value>, k: int, field: string, name: string)
    requires 0 <= k <= |items|
  {
    forall j :: 0 <= j < k ==> items[j].Obj? && !HasName(items[j], field, name)
  }

  /**
   * What the search loop returns: the first item carrying the name, `None` when every item is a
   * dict without it, and `AttributeError` at the first item that is not a dict before any match.
   */
  ghost predicate IsFirstNamed(items: seq<Value>, field: string, name: string, r: Result<Option<Value>, ApiError>) {
    match r
    case Ok(Some(x)) =>
      exists k :: 0 <= k < |items| && items[k] == x && x.Obj? && HasName(x, field, name) && Passed(items, k, field, name)
    case Ok(None) => Passed(items, |items|, field, name)
    case Err(e) => e == BadShape && exists k :: 0 <= k < |items| && !items[k].Obj? && Passed(items, k, field, name)
  }

  /** The search loop of `find_document_by_name` and `find_persona_by_name`. */
  method FirstNamed(items: seq<Value>, field: string, name: string) returns (r: Result<Option<Value>, ApiError>)
    ensures IsFirstNamed(items, field, name, r)
  {
    var i := 0;
    while i < |items|
      invariant 0 <= i <= |items|
      invariant Passed(items, i, field, name)
    {
      if !items[i].Obj? {
        return Err(BadShape);
      }
      if HasName(items[i], field, name) {
        return Ok(Some(items[i]));
      }
      i := i + 1;
    }
    return Ok(None);
  }

  /** The search has exactly one outcome, so `IsFirstNamed` specifies it completely. */
  lemma FirstNamedUnique(items: seq<Value>, field: string, name: string, r: Result<Option<Value>, ApiError>,
                         r': Result<Option<Value>, ApiError>)
    requires IsFirstNamed(items, field, name, r) && IsFirstNamed(items, field, name, r')
    ensures r == r'
  {
    // Each outcome is pinned to the first item that is not a clean dict; two different
    // outcomes would disagree about what that item is.
    var k := StopIndex(items, field, name, r);
    var k' := StopIndex(items, field, name, r');
  }

  /** Where an outcome stops the scan: the matching or offending item, or the end. */
  lemma StopIndex(items: seq<Value>, field: string, name: string, r: Result<Option<Value>, ApiError>) returns (k: int)
    requires IsFirstNamed(items, field, name, r)
    ensures 0 <= k <= |items| && Passed(items, k, field, name)
    ensures k == |items| <==> r == Ok(None)
    ensures k < |items| && items[k].Obj? && HasName(items[k], field, name) ==> r == Ok(Some(items[k]))
    ensures k < |items| && !items[k].Obj? ==> r == Err(BadShape)
    ensures k < |items| ==> !items[k].Obj? || HasName(items[k], field, name)
  {
    match r
    case Ok(Some(x)) =>
      k :| 0 <= k < |items| && items[k] == x && x.Obj? && HasName(x, field, name) && Passed(items, k, field, name);
    case Ok(None) =>
      k := |items|;
    case Err(e) =>
      k :| 0 <= k < |items| && !items[k].Obj? && Passed(items, k, field, name);
  }

  /** `r.json().get("data", [])`, then the loop; a body that is not a dict has no `.get`. */
  method InterpretListing(x: Exchange, field: string, name: string) returns (r: Result<Option<Value>, ApiError>)
    ensures JsonBody(x).Err? ==> r == Err(JsonBody(x).error)
    ensures JsonBody(x).Ok? && !JsonBody(x).value.Obj? ==> r == Err(BadShape)
    ensures JsonBody(x).Ok? && JsonBody(x).value.Obj? ==>
              var data := PyGetOr(JsonBody(x).value.fields, "data", Arr([]));
              (Iterated(data).None? ==> r == Err(BadShape))
              && (Iterated(data).Some? ==> IsFirstNamed(Iterated(data).value, field, name, r))
  {
    var body := JsonBody(x);
    if body.Err? {
      return Err(body.error);
    }
    if !body.value.Obj? {
      return Err(BadShape);
    }
    var items := Iterated(PyGetOr(body.value.fields, "data", Arr([])));
    if items.None? {
      return Err(BadShape);
    }
    r := FirstNamed(items.value, field, name);
  }

  /** `find_document_by_name`: GET the document list, then the first document with that name. */
  method FindDocumentByName(apiKey: Option<string>, name: string, x: Exchange) returns (c: Call<Option<Value>>)
    ensures !Truthy(apiKey) ==> c == Call(None, Err(MissingApiKey))
    ensures Truthy(apiKey) ==> c.sent == Some(Request(GET, DocumentsUrl, apiKey.value, None))
    ensures Truthy(apiKey) && JsonBody(x).Ok? && JsonBody(x).value.Obj?
            && Iterated(PyGetOr(JsonBody(x).value.fields, "data", Arr([]))).Some? ==>
              IsFirstNamed(Iterated(PyGetOr(JsonBody(x).value.fields, "data", Arr([]))).value, "document_name", name, c.result)
    ensures Truthy(apiKey) && JsonBody(x).Err? ==> c.result == Err(JsonBody(x).error)
    ensures Truthy(apiKey) && JsonBody(x).Ok? && !JsonBody(x).value.Obj? ==> c.result == Err(BadShape)
    ensures Truthy(apiKey) && JsonBody(x).Ok? && JsonBody(x).value.Obj?
            && Iterated(PyGetOr(JsonBody(x).value.fields, "data", Arr([]))).None? ==>
              c.result == Err(BadShape)
  {
    if !Truthy(apiKey) {
      return Call(None, Err(MissingApiKey));
    }
    var r := InterpretListing(x, "document_name", name);
    return Call(Some(Request(GET, DocumentsUrl, apiKey.value, None)), r);
  }

  /** `find_persona_by_name`: GET the persona list, then the first persona with that name. */
  method FindPersonaByName(apiKey: Option<string>, name: string, x: Exchange) returns (c: Call<Option<Value>>)
    ensures !Truthy(apiKey) ==> c == Call(None, Err(MissingApiKey))
    ensures Truthy(apiKey) ==> c.sent == Some(Request(GET, PersonasUrl, apiKey.value, None))
    ensures Truthy(apiKey) && JsonBody(x).Ok? && JsonBody(x).value.Obj?
            && Iterated(PyGetOr(JsonBody(x).value.fields, "data", Arr([]))).Some? ==>
              IsFirstNamed(Iterated(PyGetOr(JsonBody(x).value.fields, "data", Arr([]))).value, "persona_name", name, c.result)
    ensures Truthy(apiKey) && JsonBody(x).Err? ==> c.result == Err(JsonBody(x).error)
    ensures Truthy(apiKey) && JsonBody(x).Ok? && !JsonBody(x).value.Obj? ==> c.result == Err(BadShape)
    ensures Truthy(apiKey) && JsonBody(x).Ok? && JsonBody(x).value.Obj?
            && Iterated(PyGetOr(JsonBody(x).value.fields, "data", Arr([]))).None? ==>
              c.result == Err(BadShape)
  {
    if !Truthy(apiKey) {
      return Call(None, Err(MissingApiKey));
    }
    var r := InterpretListing(x, "persona_name", name);
    return Call(Some(Request(GET, PersonasUrl, apiKey.value, None)), r);
  }

  // ---------------------------------------------------------------- create_conversation

  /** The body `create_conversation` posts: the two ids, then the optional keys in the order added. */
  function ConversationPayload(personaId: Option<string>, replicaId: Option<string>, defaultReplica: string,
                               callbackUrl: Option<string>, testMode: bool): seq<(string, Value)>
  {
    [("persona_id", TextOrNull(personaId)),
     ("replica_id", Str(if replicaId.Some? then replicaId.value else defaultReplica))]
    + (if Truthy(callbackUrl) then [("callback_url", Str(callbackUrl.value))] else [])
    + (if testMode then [("test_mode", Bool(true))] else [])
  }

  /** The payload dict as `create_conversation` builds it: two keys, then in-place additions. */
  method BuildConversationPayload(personaId: Option<string>, replicaId: Option<string>, defaultReplica: string,
                                  callbackUrl: Option<string>, testMode: bool) returns (payload: seq<(string, Value)>)
    ensures payload == ConversationPayload(personaId, replicaId, defaultReplica, callbackUrl, testMode)
  {
    var replica := replicaId;
    if replica.None? {
      replica := Some(defaultReplica);
    }
    payload := [("persona_id", TextOrNull(personaId)), ("replica_id", Str(replica.value))];
    if Truthy(callbackUrl) {
      payload := payload + [("callback_url", Str(callbackUrl.value))];
    }
    if testMode {
      payload := payload + [("test_mode", Bool(true))];
    }
  }

  /**
   * Both ids are always sent; the configured replica replaces only a missing (`None`) one, so an
   * empty id is sent as it is; `callback_url` appears exactly when truthy and `test_mode` exactly
   * when true.
   */
  lemma ConversationPayloadKeys(personaId: Option<string>, replicaId: Option<string>, defaultReplica: string,
                                callbackUrl: Option<string>, testMode: bool)
    ensures var p := ConversationPayload(personaId, replicaId, defaultReplica, callbackUrl, testMode);
            Lookup(p, "persona_id") == Some(TextOrNull(personaId))
            && Lookup(p, "replica_id") == Some(Str(if replicaId == None then defaultReplica else replicaId.value))
            && (Lookup(p, "callback_url").Some? <==> Truthy(callbackUrl))
            && (Truthy(callbackUrl) ==> Lookup(p, "callback_url") == Some(Str(callbackUrl.value)))
            && Lookup(p, "test_mode") == (if testMode then Some(Bool(true)) else None)
  {
    var p := ConversationPayload(personaId, replicaId, defaultReplica, callbackUrl, testMode);
    var cb := if Truthy(callbackUrl) then [("callback_url", Str(callbackUrl.value))] else [];
    var tm := if testMode then [("test_mode", Bool(true))] else [];
    assert p[2..] == cb + tm;
    assert p[2..][|cb|..] == tm;
    LookupSkip(p, 2, "callback_url");
    LookupSkip(p, 2, "test_mode");
    LookupSkip(p[2..], |cb|, "test_mode");
  }

  /** `create_conversation`: POST the payload, then the decoded body whatever its shape. */
  method CreateConversation(apiKey: Option<string>, personaId: Option<string>, replicaId: Option<string>,
                            defaultReplica: string, callbackUrl: Option<string>, testMode: bool, x: Exchange)
    returns (c: Call<Value>)
    ensures !Truthy(apiKey) ==> c == Call(None, Err(MissingApiKey))
    ensures Truthy(apiKey) ==>
              c.sent == Some(Request(POST, ConversationsUrl, apiKey.value,
                                     Some(Obj(ConversationPayload(personaId, replicaId, defaultReplica, callbackUrl, testMode)))))
              && c.result == JsonBody(x)
  {
    var payload := BuildConversationPayload(personaId, replicaId, defaultReplica, callbackUrl, testMode);
    var headers := Headers(apiKey);
    if headers.Err? {
      return Call(None, Err(headers.error));
    }
    return Call(Some(Request(POST, ConversationsUrl, apiKey.value, Some(Obj(payload)))), JsonBody(x));
  }

  // ---------------------------------------------------------------- end_conversation / get_conversation_messages

  function ConversationUrl(convId: string, suffix: string): string {
    ConversationsUrl + "/" + convId + suffix
  }

  /** What `end_conversation` returns when the response is not a JSON 200. */
  const Ended: Value := Obj([("status", Str("success")), ("message", Str("Conversation ended"))])

  /**
   * `end_conversation`: the id is checked before the key, and neither failure sends anything;
   * after `raise_for_status()`, only a 200 with a JSON content type is parsed.
   */
  function EndConversation(apiKey: Option<string>, convId: Option<string>, x: Exchange): (c: Call<Value>)
    ensures !Truthy(convId) ==> c == Call(None, Err(MissingConversationId))
    ensures Truthy(convId) && !Truthy(apiKey) ==> c == Call(None, Err(MissingApiKey))
    ensures Truthy(convId) && Truthy(apiKey) ==>
              c.sent == Some(Request(POST, ConversationUrl(convId.value, "/end"), apiKey.value, None))
    ensures c.result.Ok? && c.result.value != Ended ==>
              x.Answered? && x.response.status == 200 && StartsWith(OrEmpty(x.response.contentType), "application/json")
              && x.response.body == Some(c.result.value)
    ensures c.sent.Some? && x.Answered? && !IsErrorStatus(x.response.status)
            && !(x.response.status == 200 && StartsWith(OrEmpty(x.response.contentType), "application/json")) ==>
              c.result == Ok(Ended)
    ensures c.sent.Some? && x.Answered? && x.response.status == 200
            && StartsWith(OrEmpty(x.response.contentType), "application/json") ==>
              c.result == (if x.response.body.Some? then Ok(x.response.body.value) else Err(InvalidJson))
    ensures c.sent.Some? && x.Answered? && IsErrorStatus(x.response.status) ==> c.result == Err(HttpError(x.response.status))
    ensures c.sent.Some? && !x.Answered? ==> c.result == Err(RequestFailed)
  {
    if !Truthy(convId) then Call(None, Err(MissingConversationId))
    else if !Truthy(apiKey) then Call(None, Err(MissingApiKey))
    else
      var sent := Some(Request(POST, ConversationUrl(convId.value, "/end"), apiKey.value, None));
      match x
      case Answered(resp) =>
        if IsErrorStatus(resp.status) then Call(sent, Err(HttpError(resp.status)))
        else if resp.status == 200 && StartsWith(OrEmpty(resp.contentType), "application/json") then
          match resp.body
          case Some(v) => Call(sent, Ok(v))
          case None => Call(sent, Err(InvalidJson))
        else Call(sent, Ok(Ended))
      case _ => Call(sent, Err(RequestFailed))
  }

  /**
   * `get_conversation_messages`: a falsy id gives `[]` before the key is even looked at; a 404
   * gives `[]`; other error statuses raise; a dict body gives its `data` (or `[]` without one).
   * Any other body raises `AttributeError`, a list included.
   */
  function GetConversationMessages(apiKey: Option<string>, convId: Option<string>, x: Exchange): (c: Call<Value>)
    ensures !Truthy(convId) ==> c == Call(None, Ok(Arr([])))
    ensures Truthy(convId) && !Truthy(apiKey) ==> c == Call(None, Err(MissingApiKey))
    ensures Truthy(convId) && Truthy(apiKey) ==>
              c.sent == Some(Request(GET, ConversationUrl(convId.value, "/messages"), apiKey.value, None))
    ensures c.sent.Some? && x.Answered? && x.response.status == 404 ==> c.result == Ok(Arr([]))
    ensures c.sent.Some? && x.Answered? && x.response.status != 404 && IsErrorStatus(x.response.status) ==>
              c.result == Err(HttpError(x.response.status))
    ensures c.sent.Some? && c.result.Ok? && !(x.Answered? && x.response.status == 404) ==>
              JsonBody(x).Ok? && JsonBody(x).value.Obj?
              && c.result.value == PyGetOr(JsonBody(x).value.fields, "data", Arr([]))
    ensures c.sent.Some? && !(x.Answered? && x.response.status == 404) && JsonBody(x).Ok? && JsonBody(x).value.Obj? ==>
              c.result == Ok(PyGetOr(JsonBody(x).value.fields, "data", Arr([])))
    ensures c.sent.Some? && !(x.Answered? && x.response.status == 404) && JsonBody(x).Err? ==>
              c.result == Err(JsonBody(x).error)
    ensures c.sent.Some? && !(x.Answered? && x.response.status == 404) && JsonBody(x).Ok? && !JsonBody(x).value.Obj? ==>
              c.result == Err(BadShape)
  {
    if !Truthy(convId) then Call(None, Ok(Arr([])))
    else if !Truthy(apiKey) then Call(None, Err(MissingApiKey))
    else
      var sent := Some(Request(GET, ConversationUrl(convId.value, "/messages"), apiKey.value, None));
      if x.Answered? && x.response.status == 404 then Call(sent, Ok(Arr([])))
      else
        match JsonBody(x)
        case Err(e) => Call(sent, Err(e))
        case Ok(body) =>
          if body.Obj? then Call(sent, Ok(PyGetOr(body.fields, "data", Arr([]))))
          else Call(sent, Err(BadShape))
  }

  /**
   * As written, a list body never reaches the list fallback of the last line: `data.get` is looked
   * up before its arguments are evaluated, and a list has no `get`.
   */
  lemma ListBodyRaisesAsWritten(apiKey: Option<string>, convId: Option<string>, items: seq<Value>)
    requires Truthy(apiKey) && Truthy(convId)
    ensures GetConversationMessages(apiKey, convId, Answered(Response(200, Some("application/json"), Some(Arr(items))))).result
            == Err(BadShape)
  {
  }

  /**
   * `get_conversation_messages` as evidently intended: a list body is the message list itself.
   * Everything else is as written.
   */
  function GetConversationMessagesFixed(apiKey: Option<string>, convId: Option<string>, x: Exchange): (c: Call<Value>)
    ensures c.sent == GetConversationMessages(apiKey, convId, x).sent
    ensures c.sent.Some? && !(x.Answered? && x.response.status == 404) && JsonBody(x).Ok? && JsonBody(x).value.Arr? ==>
              c.result == Ok(JsonBody(x).value)
    ensures !(c.sent.Some? && JsonBody(x).Ok? && JsonBody(x).value.Arr?) ==> c == GetConversationMessages(apiKey, convId, x)
    ensures c.result.Err? ==> c == GetConversationMessages(apiKey, convId, x)
  {
    var c := GetConversationMessages(apiKey, convId, x);
    if c.sent.Some? && !(x.Answered? && x.response.status == 404) && JsonBody(x).Ok? && JsonBody(x).value.Arr? then
      Call(c.sent, Ok(JsonBody(x).value))
    else c
  }

  /** The corrected reading accepts every body the original accepts, with the same value. */
  lemma FixedKeepsAcceptedBodies(apiKey: Option<string>, convId: Option<string>, x: Exchange)
    requires GetConversationMessages(apiKey, convId, x).result.Ok?
    ensures GetConversationMessagesFixed(apiKey, convId, x) == GetConversationMessages(apiKey, convId, x)
  {
  }
}
