/**
 * The assistant plugin's API class: it reads the plugin settings once, fetches the avatar's idle
 * preview video (cached in a transient) and creates conversations, returning either the useful
 * part of the response or a `WP_Error` that carries the raw response for debugging.
 */
module AssistantApi {
  import opened Wrappers
  import opened Text
  import opened Json
  import opened Http
  import opened Wp

  const DefaultGreeting := "Hello! How can I assist you today?"
  const RequestTimeout: nat := 45
  const ConversationalContext := "Start the conversation by greeting the user and introducing yourself."

  const NoKeyForAvatar := "API Key is required to fetch Tavus avatar."
  const NoReplicaForAvatar := "Replica ID is required to fetch Tavus avatar preview video."
  const ReplicaFetchFailed := "Failed to fetch replica avatar from Tavus."
  const NoMp4Found := "Replica fetched but no preview mp4 URL was found. Check Tavus response fields in debug log."
  const NotConfigured := "API Key and Persona ID are required. Please configure in plugin settings."
  const NotJson := "Invalid API response (not JSON)."
  const NoConversationUrl := "Conversation created but no conversation URL returned."

  /** The settings as read by the constructor; an option that was never saved reads as `false`. */
  datatype Settings = Settings(apiKey: Value, personaId: Value, replicaId: Value, customGreeting: Value)

  function LoadSettings(apiKey: Option<string>, personaId: Option<string>, replicaId: Option<string>,
                        customGreeting: Option<string>): (s: Settings)
    ensures apiKey.None? ==> s.apiKey == Bool(false) && PhpEmpty(s.apiKey)
    ensures apiKey.Some? ==> s.apiKey == Str(apiKey.value)
    ensures personaId.None? ==> s.personaId == Bool(false) && PhpEmpty(s.personaId)
    ensures personaId.Some? ==> s.personaId == Str(personaId.value)
    ensures replicaId.None? ==> s.replicaId == Bool(false) && PhpEmpty(s.replicaId)
    ensures replicaId.Some? ==> s.replicaId == Str(replicaId.value)
    ensures customGreeting.None? ==> s.customGreeting == Str(DefaultGreeting)
    ensures customGreeting.Some? ==> s.customGreeting == Str(customGreeting.value)
  {
    Settings(OptionValue(apiKey), OptionValue(personaId), OptionValue(replicaId),
             Str(if customGreeting.Some? then customGreeting.value else DefaultGreeting))
  }

  /** `(string)$v` of a value that is not `empty()` is itself not empty. */
  lemma PhpToStringKeepsNonEmpty(v: Value)
    requires !PhpEmpty(v)
    ensures !PhpEmpty(Str(PhpToString(v)))
  {
    if v.Num? {
      var n := if v.n < 0 then -v.n else v.n;
      assert n > 0;
      if n >= 10 {
        assert |NatToDecimal(n)| >= 2 by {
          assert NatToDecimal(n) == NatToDecimal(n / 10) + [DigitChar(n % 10)];
        }
      } else {
        assert NatToDecimal(n) == [DigitChar(n)];
        assert DigitChar(n) != '0';
      }
    }
  }

  // ---------------------------------------------------------------- the idle avatar

  /** A case-insensitive `http://` or `https://` prefix. */
  predicate HasHttpScheme(s: string) {
    StartsWith(Lower(s), "http://") || StartsWith(Lower(s), "https://")
  }

  /**
   * `.mp4`, in any case, at position `i`, followed by `?`, by the end of the text, or by a final
   * newline (where PCRE's `$` also matches).
   */
  predicate Mp4MarkAt(s: string, i: nat) {
    i + 4 <= |s| && Lower(s[i..i + 4]) == ".mp4"
    && (i + 4 == |s| || s[i + 4] == '?' || (i + 5 == |s| && s[i + 4] == '\n'))
  }

  /** The test `find_first_mp4_url` applies to a string. */
  predicate IsMp4Url(s: string) {
    HasHttpScheme(s) && exists i :: 0 <= i < |s| && Mp4MarkAt(s, i)
  }

  lemma Mp4UrlNotEmpty(s: string)
    requires IsMp4Url(s)
    ensures !PhpEmpty(Str(s))
  {
    assert |s| >= 7;
  }

  /** The number of children of a list or an object. */
  function Width(v: Value): nat {
    match v
    case Arr(items) => |items|
    case Obj(fields) => |fields|
    case _ => 0
  }

  /**
   * `find_first_mp4_url`: a string that passes the test, or the first such string found by a
   * depth-first walk of the values of a list or object.
   */
  function FindFirstMp4(v: Value): (r: Option<string>)
    ensures r.Some? ==> IsMp4Url(r.value)
    decreases v, 1, 0
  {
    match v
    case Str(s) => if IsMp4Url(s) then Some(s) else None
    case Arr(_) => FirstMp4From(v, 0)
    case Obj(_) => FirstMp4From(v, 0)
    case _ => None
  }

  /** The loop of `find_first_mp4_url`, from the child at index `i` on. */
  function FirstMp4From(v: Value, i: nat): (r: Option<string>)
    requires v.Arr? || v.Obj?
    ensures r.Some? ==> IsMp4Url(r.value)
    decreases v, 0, Width(v) - i
  {
    if i >= Width(v) then None
    else
      var found := if v.Arr? then FindFirstMp4(v.items[i]) else FindFirstMp4(v.fields[i].1);
      if found.Some? then found else FirstMp4From(v, i + 1)
  }

  /** Every string in the value, in document order. */
  function Leaves(v: Value): seq<string>
    decreases v, 1, 0
  {
    match v
    case Str(s) => [s]
    case Arr(_) => LeavesFrom(v, 0)
    case Obj(_) => LeavesFrom(v, 0)
    case _ => []
  }

  function LeavesFrom(v: Value, i: nat): seq<string>
    requires v.Arr? || v.Obj?
    decreases v, 0, Width(v) - i
  {
    if i >= Width(v) then []
    else (if v.Arr? then Leaves(v.items[i]) else Leaves(v.fields[i].1)) + LeavesFrom(v, i + 1)
  }

  /** The first string of the list that passes the mp4 test. */
  function FirstMp4Url(ss: seq<string>): (r: Option<string>)
    ensures r.Some? ==> r.value in ss && IsMp4Url(r.value)
    ensures r.None? ==> forall s :: s in ss ==> !IsMp4Url(s)
  {
    if ss == [] then None
    else if IsMp4Url(ss[0]) then Some(ss[0])
    else FirstMp4Url(ss[1..])
  }

  lemma {:induction false} FirstMp4UrlAppend(a: seq<string>, b: seq<string>)
    ensures FirstMp4Url(a + b) == if FirstMp4Url(a).Some? then FirstMp4Url(a) else FirstMp4Url(b)
  {
    if a != [] {
      assert (a + b)[1..] == a[1..] + b;
      FirstMp4UrlAppend(a[1..], b);
    } else {
      assert a + b == b;
    }
  }

  /** The depth-first search finds exactly the first mp4 URL among all the strings of the value. */
  lemma {:induction false} FindFirstMp4IsFirstLeaf(v: Value)
    ensures FindFirstMp4(v) == FirstMp4Url(Leaves(v))
    decreases v, 1, 0
  {
    match v
    case Str(s) =>
      assert [s][1..] == [];
    case Arr(_) => FirstMp4FromIsFirstLeaf(v, 0);
    case Obj(_) => FirstMp4FromIsFirstLeaf(v, 0);
    case _ =>
  }

  lemma {:induction false} FirstMp4FromIsFirstLeaf(v: Value, i: nat)
    requires v.Arr? || v.Obj?
    ensures FirstMp4From(v, i) == FirstMp4Url(LeavesFrom(v, i))
    decreases v, 0, Width(v) - i
  {
    if i < Width(v) {
      var child := if v.Arr? then v.items[i] else v.fields[i].1;
      FindFirstMp4IsFirstLeaf(child);
      FirstMp4FromIsFirstLeaf(v, i + 1);
      FirstMp4UrlAppend(Leaves(child), LeavesFrom(v, i + 1));
    }
  }

  /** The fields tried for the preview video, in order, each at the top level and under `data`. */
  function AvatarCandidates(d: Value): seq<Option<Value>> {
    [PhpIndex(d, "preview_video_url"), PhpIndex2(d, "data", "preview_video_url"),
     PhpIndex(d, "idle_video_url"), PhpIndex2(d, "data", "idle_video_url"),
     PhpIndex(d, "video_url"), PhpIndex2(d, "data", "video_url"),
     PhpIndex(d, "avatar_video_url"), PhpIndex2(d, "data", "avatar_video_url")]
  }

  /** The chosen field value, when it is not `empty()`. */
  predicate HasUsableCandidate(d: Value) {
    var c := Coalesce(AvatarCandidates(d));
    c.Some? && !PhpEmpty(c.value)
  }

  function ReplicaUrl(replicaId: string): string {
    ApiBaseUrl + "/replicas/" + replicaId
  }

  /** The transient key `broadgate_idle_avatar_url`; `get_transient` gives `false` when it is unset. */
  class Transients {
    var idleAvatarUrl: Option<string>

    constructor (initial: Option<string>)
      ensures idleAvatarUrl == initial
    {
      idleAvatarUrl := initial;
    }
  }

  /** A cached URL is used when it is not `empty()`. */
  predicate CacheHit(c: Option<string>) {
    c.Some? && !PhpEmpty(Str(c.value))
  }

  datatype Avatar = Avatar(avatarUrl: string, cached: bool)

  /** The avatar URL found in the replica response fetched from `url`. */
  function AvatarFromReply(url: string, reply: WpResponse): (r: Result<string, WpError>)
    ensures reply.TransportError? ==> r == Err(reply.error)
    ensures reply.Reply? && !(Is2xx(reply.status) && PhpIsArray(reply.decoded)) ==>
              r == Err(WpError("api_error", Str(ReplicaFetchFailed),
                               Obj([("status_code", Num(reply.status)), ("raw_body", Str(reply.body)),
                                    ("raw_json", reply.decoded), ("request_url", Str(url))])))
    ensures reply.Reply? && Is2xx(reply.status) && PhpIsArray(reply.decoded)
            && !HasUsableCandidate(reply.decoded) && FindFirstMp4(reply.decoded).None? ==>
              r == Err(WpError("api_error", Str(NoMp4Found), Obj([("raw_json", reply.decoded)])))
    ensures reply.Reply? && Is2xx(reply.status) && PhpIsArray(reply.decoded)
            && (HasUsableCandidate(reply.decoded) || FindFirstMp4(reply.decoded).Some?) ==>
              r.Ok?
    ensures r.Ok? ==> reply.Reply? && !PhpEmpty(Str(r.value))
    ensures r.Ok? && HasUsableCandidate(reply.decoded) ==>
              r.value == PhpToString(Coalesce(AvatarCandidates(reply.decoded)).value)
    ensures r.Ok? && !HasUsableCandidate(reply.decoded) ==> FindFirstMp4(reply.decoded) == Some(r.value)
  {
    match reply
    case TransportError(e) => Err(e)
    case Reply(status, body, d) =>
      if !Is2xx(status) || !PhpIsArray(d) then
        Err(WpError("api_error", Str(ReplicaFetchFailed),
                    Obj([("status_code", Num(status)), ("raw_body", Str(body)),
                         ("raw_json", d), ("request_url", Str(url))])))
      else if HasUsableCandidate(d) then
        var c := Coalesce(AvatarCandidates(d)).value;
        PhpToStringKeepsNonEmpty(c);
        Ok(PhpToString(c))
      else
        match FindFirstMp4(d)
        case Some(u) =>
          Mp4UrlNotEmpty(u);
          Ok(u)
        case None => Err(WpError("api_error", Str(NoMp4Found), Obj([("raw_json", d)])))
  }

  /**
   * `get_idle_avatar_video_url`: a usable cached URL is returned without a request; otherwise the
   * replica is fetched and a URL found in it is cached, so that the next call is a cache hit.
   */
  method GetIdleAvatarVideoUrl(s: Settings, cache: Transients, reply: WpResponse) returns (c: WpCall<Avatar>)
    modifies cache
    ensures CacheHit(old(cache.idleAvatarUrl)) ==>
              c == WpCall(None, Ok(Avatar(old(cache.idleAvatarUrl).value, true)))
    ensures !CacheHit(old(cache.idleAvatarUrl)) && PhpEmpty(s.apiKey) ==>
              c == WpCall(None, Err(WpError("missing_config", Str(NoKeyForAvatar), Null)))
    ensures !CacheHit(old(cache.idleAvatarUrl)) && !PhpEmpty(s.apiKey) && PhpEmpty(s.replicaId) ==>
              c == WpCall(None, Err(WpError("missing_config", Str(NoReplicaForAvatar), Null)))
    ensures !CacheHit(old(cache.idleAvatarUrl)) && !PhpEmpty(s.apiKey) && !PhpEmpty(s.replicaId) ==>
              var url := ReplicaUrl(PhpToString(s.replicaId));
              c.sent == Some(WpGet(url, PhpToString(s.apiKey), RequestTimeout))
              && c.result == match AvatarFromReply(url, reply)
                             case Ok(u) => Ok(Avatar(u, false))
                             case Err(e) => Err(e)
    ensures c.result.Ok? && !c.result.value.cached ==>
              cache.idleAvatarUrl == Some(c.result.value.avatarUrl) && CacheHit(cache.idleAvatarUrl)
    ensures !(c.result.Ok? && !c.result.value.cached) ==> cache.idleAvatarUrl == old(cache.idleAvatarUrl)
  {
    var cached := cache.idleAvatarUrl;
    if CacheHit(cached) {
      return WpCall(None, Ok(Avatar(cached.value, true)));
    }
    if PhpEmpty(s.apiKey) {
      return WpCall(None, Err(WpError("missing_config", Str(NoKeyForAvatar), Null)));
    }
    if PhpEmpty(s.replicaId) {
      return WpCall(None, Err(WpError("missing_config", Str(NoReplicaForAvatar), Null)));
    }
    var url := ReplicaUrl(PhpToString(s.replicaId));
    var sent := Some(WpGet(url, PhpToString(s.apiKey), RequestTimeout));
    match AvatarFromReply(url, reply) {
      case Err(e) =>
        c := WpCall(sent, Err(e));
      case Ok(u) =>
        cache.idleAvatarUrl := Some(u);
        c := WpCall(sent, Ok(Avatar(u, false)));
    }
  }

  /** A string without a dot cannot contain `.mp4`. */
  lemma DotlessIsNotMp4(s: string)
    requires forall m :: 0 <= m < |s| ==> s[m] != '.'
    ensures !IsMp4Url(s)
  {
    forall i | 0 <= i < |s| ensures !Mp4MarkAt(s, i) {
      if i + 4 <= |s| {
        assert Lower(s[i..i + 4])[0] == LowerChar(s[i]);
      }
    }
  }

  /**
   * `??` skips only fields that are unset or `null`: an empty `preview_video_url` stops the chain,
   * so a usable `idle_video_url` beside it is not used.
   */
  lemma EmptyFieldStopsTheChain()
    ensures var d := Obj([("preview_video_url", Str("")), ("idle_video_url", Str("https://cdn/idle"))]);
            AvatarFromReply("u", Reply(200, "b", d)) == Err(WpError("api_error", Str(NoMp4Found), Obj([("raw_json", d)])))
  {
    var d := Obj([("preview_video_url", Str("")), ("idle_video_url", Str("https://cdn/idle"))]);
    EmptyFieldFacts(d);
  }

  lemma EmptyFieldFacts(d: Value)
    requires d == Obj([("preview_video_url", Str("")), ("idle_video_url", Str("https://cdn/idle"))])
    ensures PhpIsArray(d) && !HasUsableCandidate(d) && FindFirstMp4(d).None?
  {
    assert Coalesce(AvatarCandidates(d)) == Some(Str(""));
    DotlessIsNotMp4("");
    DotlessIsNotMp4("https://cdn/idle");
    assert FirstMp4From(d, 2).None?;
    assert FirstMp4From(d, 1).None?;
  }

  /** A `null` `preview_video_url` lets the chain go on to `idle_video_url`. */
  lemma NullFieldContinuesTheChain()
    ensures var d := Obj([("preview_video_url", Null), ("idle_video_url", Str("https://cdn/idle"))]);
            AvatarFromReply("u", Reply(200, "b", d)) == Ok("https://cdn/idle")
  {
    var d := Obj([("preview_video_url", Null), ("idle_video_url", Str("https://cdn/idle"))]);
    NullFieldFacts(d);
  }

  lemma NullFieldFacts(d: Value)
    requires d == Obj([("preview_video_url", Null), ("idle_video_url", Str("https://cdn/idle"))])
    ensures PhpIsArray(d) && Coalesce(AvatarCandidates(d)) == Some(Str("https://cdn/idle")) && HasUsableCandidate(d)
  {
    var cs := AvatarCandidates(d);
    assert Lookup(d.fields, "data").None? by { LookupSpec(d.fields, "data"); }
    LookupSkip(d.fields, 1, "idle_video_url");
    assert cs[0].None? && cs[1].None? && cs[2] == Some(Str("https://cdn/idle"));
    assert Coalesce(cs) == Coalesce(cs[1..]);
    assert Coalesce(cs[1..]) == Coalesce(cs[1..][1..]);
    assert cs[1..][1..][0] == cs[2];
  }

  // ---------------------------------------------------------------- conversations

  const ConversationsUrl := ApiBaseUrl + "/conversations"

  /** The request body: persona, opening context, greeting, and the replica when one is set. */
  function ConversationPayload(s: Settings): (p: Value)
    ensures p.Obj?
    ensures Lookup(p.fields, "persona_id") == Some(s.personaId)
    ensures Lookup(p.fields, "conversational_context") == Some(Str(ConversationalContext))
    ensures Lookup(p.fields, "custom_greeting") == Some(s.customGreeting)
    ensures !PhpEmpty(s.replicaId) ==> Lookup(p.fields, "replica_id") == Some(s.replicaId)
    ensures PhpEmpty(s.replicaId) ==> Lookup(p.fields, "replica_id").None?
  {
    var base := [("persona_id", s.personaId), ("conversational_context", Str(ConversationalContext)),
                 ("custom_greeting", s.customGreeting)];
    var fields := if PhpEmpty(s.replicaId) then base else base + [("replica_id", s.replicaId)];
    LookupSkip(fields, 1, "conversational_context");
    LookupSkip(fields, 2, "custom_greeting");
    LookupSkip(fields, 3, "replica_id");
    Obj(fields)
  }

  /** What a successful call returns: the URL, the id (or ""), and the decoded response. */
  datatype Conversation = Conversation(conversationUrl: string, conversationId: string, raw: Value)

  /** The fields tried for the conversation URL, in order. */
  function UrlCandidates(d: Value): seq<Option<Value>> {
    [PhpIndex(d, "conversation_url"), PhpIndex2(d, "data", "conversation_url"),
     PhpIndex(d, "url"), PhpIndex2(d, "data", "url")]
  }

  /** The fields tried for the conversation id, in order. */
  function IdCandidates(d: Value): seq<Option<Value>> {
    [PhpIndex(d, "conversation_id"), PhpIndex2(d, "data", "conversation_id"), PhpIndex(d, "id")]
  }

  /** The API's own error message, used when it is set and not `empty()`. */
  predicate HasApiMessage(d: Value) {
    PhpIndex(d, "message").Some? && !PhpEmpty(PhpIndex(d, "message").value)
  }

  function HttpFailureText(status: int): string {
    "Failed to create conversation (HTTP " + IntToDecimal(status) + ")"
  }

  /** The outcome of `create_conversation` once the request with body `payload` was sent. */
  function ConversationFromReply(payload: Value, reply: WpResponse): (r: Result<Conversation, WpError>)
    ensures reply.TransportError? ==> r == Err(reply.error)
    ensures reply.Reply? && !Is2xx(reply.status) ==>
              r.Err? && r.error.code == "api_error"
              && r.error.message == (if HasApiMessage(reply.decoded) then PhpIndex(reply.decoded, "message").value
                                     else Str(HttpFailureText(reply.status)))
              && r.error.data == Obj([("status_code", Num(reply.status)), ("raw_body", Str(reply.body)),
                                      ("raw_json", reply.decoded), ("request_url", Str(ConversationsUrl)),
                                      ("request", payload)])
    ensures reply.Reply? && Is2xx(reply.status) && !PhpIsArray(reply.decoded) ==>
              r == Err(WpError("api_error", Str(NotJson),
                               Obj([("status_code", Num(reply.status)), ("raw_body", Str(reply.body)),
                                    ("request_url", Str(ConversationsUrl)), ("request", payload)])))
    ensures reply.Reply? && Is2xx(reply.status) && PhpIsArray(reply.decoded)
            && (Coalesce(UrlCandidates(reply.decoded)).None? || PhpEmpty(Coalesce(UrlCandidates(reply.decoded)).value)) ==>
              r == Err(WpError("api_error", Str(NoConversationUrl), Obj([("raw_json", reply.decoded)])))
    ensures reply.Reply? && Is2xx(reply.status) && PhpIsArray(reply.decoded)
            && Coalesce(UrlCandidates(reply.decoded)).Some?
            && !PhpEmpty(Coalesce(UrlCandidates(reply.decoded)).value) ==>
              r.Ok?
    ensures r.Ok? ==> reply.Reply? && Is2xx(reply.status) && r.value.raw == reply.decoded
                      && Coalesce(UrlCandidates(reply.decoded)).Some?
                      && r.value.conversationUrl == PhpToString(Coalesce(UrlCandidates(reply.decoded)).value)
                      && !PhpEmpty(Str(r.value.conversationUrl))
    ensures r.Ok? ==> var id := Coalesce(IdCandidates(reply.decoded));
                      r.value.conversationId == if id.Some? && !PhpEmpty(id.value) then PhpToString(id.value) else ""
  {
    match reply
    case TransportError(e) => Err(e)
    case Reply(status, body, d) =>
      if !Is2xx(status) then
        var msg := if PhpIsArray(d) && HasApiMessage(d) then PhpIndex(d, "message").value
                   else Str(HttpFailureText(status));
        Err(WpError("api_error", msg, Obj([("status_code", Num(status)), ("raw_body", Str(body)),
                                           ("raw_json", d), ("request_url", Str(ConversationsUrl)),
                                           ("request", payload)])))
      else if !PhpIsArray(d) then
        Err(WpError("api_error", Str(NotJson), Obj([("status_code", Num(status)), ("raw_body", Str(body)),
                                                    ("request_url", Str(ConversationsUrl)), ("request", payload)])))
      else
        var url := Coalesce(UrlCandidates(d));
        var id := Coalesce(IdCandidates(d));
        if url.None? || PhpEmpty(url.value) then
          Err(WpError("api_error", Str(NoConversationUrl), Obj([("raw_json", d)])))
        else
          PhpToStringKeepsNonEmpty(url.value);
          Ok(Conversation(PhpToString(url.value),
                          if id.Some? && !PhpEmpty(id.value) then PhpToString(id.value) else "", d))
  }

  /**
   * `create_conversation`: without an API key or a persona no request is made and the error says
   * which is missing; otherwise the payload is posted.
   */
  method CreateConversation(s: Settings, reply: WpResponse) returns (c: WpCall<Conversation>)
    ensures PhpEmpty(s.apiKey) || PhpEmpty(s.personaId) ==>
              c == WpCall(None, Err(WpError("missing_config", Str(NotConfigured),
                     Obj([("missing", Obj([("api_key", Bool(PhpEmpty(s.apiKey))),
                                           ("persona_id", Bool(PhpEmpty(s.personaId)))]))]))))
    ensures !PhpEmpty(s.apiKey) && !PhpEmpty(s.personaId) ==>
              c.sent == Some(WpPost(ConversationsUrl, PhpToString(s.apiKey), Some(ConversationPayload(s)), RequestTimeout))
              && c.result == ConversationFromReply(ConversationPayload(s), reply)
  {
    if PhpEmpty(s.apiKey) || PhpEmpty(s.personaId) {
      return WpCall(None, Err(WpError("missing_config", Str(NotConfigured),
                    Obj([("missing", Obj([("api_key", Bool(PhpEmpty(s.apiKey))),
                                          ("persona_id", Bool(PhpEmpty(s.personaId)))]))]))));
    }
    var payload := [("persona_id", s.personaId), ("conversational_context", Str(ConversationalContext)),
                    ("custom_greeting", s.customGreeting)];
    if !PhpEmpty(s.replicaId) {
      payload := payload + [("replica_id", s.replicaId)];
    }
    c := WpCall(Some(WpPost(ConversationsUrl, PhpToString(s.apiKey), Some(Obj(payload)), RequestTimeout)),
                ConversationFromReply(Obj(payload), reply));
  }


  /** A usable top-level `conversation_url` is the one returned, whatever `data` holds. */
  lemma TopLevelUrlWins(payload: Value, status: int, body: string, d: Value, u: string)
    requires Is2xx(status) && PhpIsArray(d)
    requires PhpIndex(d, "conversation_url") == Some(Str(u)) && !PhpEmpty(Str(u))
    ensures var r := ConversationFromReply(payload, Reply(status, body, d));
            r.Ok? && r.value.conversationUrl == u
  {
    assert Coalesce(UrlCandidates(d)) == Some(Str(u));
  }

  /** A response that nests the URL under `data` is accepted as well. */
  lemma {:induction false} NestedUrlAccepted(payload: Value, status: int, body: string, u: string)
    requires Is2xx(status) && !PhpEmpty(Str(u))
    ensures var d := Obj([("data", Obj([("conversation_url", Str(u))]))]);
            ConversationFromReply(payload, Reply(status, body, d)) == Ok(Conversation(u, "", d))
  {
    var inner := [("conversation_url", Str(u))];
    var d := Obj([("data", Obj(inner))]);
    LookupSpec(d.fields, "conversation_url");
    LookupSpec(d.fields, "conversation_id");
    LookupSpec(d.fields, "id");
    LookupSpec(inner, "conversation_id");
    assert Coalesce(UrlCandidates(d)) == Some(Str(u));
    assert Coalesce(IdCandidates(d)).None?;
  }
}
