/**
 * The API class of the earlier WordPress plugin: it creates conversations and ends them, with
 * simpler checks than the assistant plugin (only status 200 succeeds, and a missing URL is not an
 * error).
 */
module PluginApi {
  import opened Wrappers
  import opened Text
  import opened Json
  import opened Wp
  import AssistantApi

  const DefaultGreeting := "Hello! I'm Gigi from Broadgate. What can I help you with?"
  const RequestTimeout: nat := 30
  const ConversationsUrl := ApiBaseUrl + "/conversations"

  const NotConfigured := "API Key and Persona ID are required. Please configure in plugin settings."
  const CreateFailed := "Failed to create conversation"
  const NoKey := "API Key is required."
  const NoId := "Conversation ID is required."

  /**
   * The settings have the assistant plugin's shape; here every option defaults to "" except the
   * greeting.
   */
  type Settings = AssistantApi.Settings

  function LoadSettings(apiKey: Option<string>, personaId: Option<string>, replicaId: Option<string>,
                        customGreeting: Option<string>): (s: Settings)
    ensures apiKey.None? ==> s.apiKey == Str("")
    ensures personaId.None? ==> s.personaId == Str("")
    ensures replicaId.None? ==> s.replicaId == Str("")
    ensures customGreeting.None? ==> s.customGreeting == Str(DefaultGreeting)
    ensures apiKey.Some? ==> s.apiKey == Str(apiKey.value)
    ensures personaId.Some? ==> s.personaId == Str(personaId.value)
    ensures replicaId.Some? ==> s.replicaId == Str(replicaId.value)
    ensures customGreeting.Some? ==> s.customGreeting == Str(customGreeting.value)
  {
    AssistantApi.Settings(Str(OrEmpty(apiKey)), Str(OrEmpty(personaId)), Str(OrEmpty(replicaId)),
                          Str(if customGreeting.Some? then customGreeting.value else DefaultGreeting))
  }

  /** `isset($data[$key]) ? $data[$key] : ''`. */
  function IssetOrEmpty(d: Value, key: string): (r: Value)
    ensures PhpIndex(d, key).Some? ==> r == PhpIndex(d, key).value
    ensures PhpIndex(d, key).None? ==> r == Str("")
  {
    match PhpIndex(d, key)
    case Some(v) => v
    case None => Str("")
  }

  /**
   * The outcome once the request was sent: any status other than 200 is an error carrying the API's
   * message when it is set; a 200 gives the URL and id as found, "" for a missing one.
   */
  function ConversationFromReply(reply: WpResponse): (r: Result<Value, WpError>)
    ensures reply.TransportError? ==> r == Err(reply.error)
    ensures reply.Reply? && reply.status != 200 ==>
              r == Err(WpError("api_error", if PhpIndex(reply.decoded, "message").Some?
                                            then PhpIndex(reply.decoded, "message").value else Str(CreateFailed), Null))
    ensures r.Ok? <==> reply.Reply? && reply.status == 200
    ensures r.Ok? ==> r.value.Obj? && |r.value.fields| == 2
    ensures r.Ok? ==> Lookup(r.value.fields, "conversation_url") == Some(IssetOrEmpty(reply.decoded, "conversation_url"))
    ensures r.Ok? ==> Lookup(r.value.fields, "conversation_id") == Some(IssetOrEmpty(reply.decoded, "conversation_id"))
  {
    match reply
    case TransportError(e) => Err(e)
    case Reply(status, _, d) =>
      if status != 200 then
        Err(WpError("api_error", match PhpIndex(d, "message") { case Some(m) => m case None => Str(CreateFailed) }, Null))
      else
        Ok(Obj([("conversation_url", IssetOrEmpty(d, "conversation_url")),
                ("conversation_id", IssetOrEmpty(d, "conversation_id"))]))
  }

  /** `create_conversation`: no request without an API key and a persona. */
  method CreateConversation(s: Settings, reply: WpResponse) returns (c: WpCall<Value>)
    ensures PhpEmpty(s.apiKey) || PhpEmpty(s.personaId) ==>
              c == WpCall(None, Err(WpError("missing_config", Str(NotConfigured), Null)))
    ensures !PhpEmpty(s.apiKey) && !PhpEmpty(s.personaId) ==>
              c.sent == Some(WpPost(ConversationsUrl, PhpToString(s.apiKey), Some(AssistantApi.ConversationPayload(s)), RequestTimeout))
              && c.result == ConversationFromReply(reply)
  {
    if PhpEmpty(s.apiKey) || PhpEmpty(s.personaId) {
      return WpCall(None, Err(WpError("missing_config", Str(NotConfigured), Null)));
    }
    var payload := [("persona_id", s.personaId), ("conversational_context", Str(AssistantApi.ConversationalContext)),
                    ("custom_greeting", s.customGreeting)];
    if !PhpEmpty(s.replicaId) {
      payload := payload + [("replica_id", s.replicaId)];
    }
    c := WpCall(Some(WpPost(ConversationsUrl, PhpToString(s.apiKey), Some(Obj(payload)), RequestTimeout)),
                ConversationFromReply(reply));
  }

  /** A 200 response without a URL still succeeds, with "" as the URL. */
  lemma MissingUrlIsNotAnError(body: string, d: Value)
    requires PhpIndex(d, "conversation_url").None?
    ensures var r := ConversationFromReply(Reply(200, body, d));
            r.Ok? && Lookup(r.value.fields, "conversation_url") == Some(Str(""))
  {
  }

  /** A 201 is a failure here, although the assistant plugin accepts any 2xx status. */
  lemma CreatedIsAFailure(body: string, d: Value)
    ensures ConversationFromReply(Reply(201, body, d)).Err?
  {
  }

  const Ended := Obj([("status", Str("success")), ("message", Str("Conversation ended"))])

  function EndUrl(conversationId: Value): string {
    ConversationsUrl + "/" + PhpToString(conversationId) + "/end"
  }

  /**
   * `end_conversation`: the key is checked before the id; once the request is made, any reply at
   * all, whatever its status, counts as the conversation having ended.
   */
  function EndConversation(s: Settings, conversationId: Value, reply: WpResponse): (c: WpCall<Value>)
    ensures PhpEmpty(s.apiKey) ==> c == WpCall(None, Err(WpError("missing_config", Str(NoKey), Null)))
    ensures !PhpEmpty(s.apiKey) && PhpEmpty(conversationId) ==>
              c == WpCall(None, Err(WpError("missing_id", Str(NoId), Null)))
    ensures c.sent.Some? <==> !PhpEmpty(s.apiKey) && !PhpEmpty(conversationId)
    ensures c.sent.Some? ==> c.sent.value == WpPost(EndUrl(conversationId), PhpToString(s.apiKey), None, RequestTimeout)
    ensures c.sent.Some? ==> (c.result.Ok? <==> reply.Reply?)
    ensures c.result.Ok? ==> c.result.value == Ended
    ensures c.sent.Some? && reply.TransportError? ==> c.result == Err(reply.error)
  {
    if PhpEmpty(s.apiKey) then WpCall(None, Err(WpError("missing_config", Str(NoKey), Null)))
    else if PhpEmpty(conversationId) then WpCall(None, Err(WpError("missing_id", Str(NoId), Null)))
    else
      var sent := Some(WpPost(EndUrl(conversationId), PhpToString(s.apiKey), None, RequestTimeout));
      match reply
      case TransportError(e) => WpCall(sent, Err(e))
      case Reply(_, _, _) => WpCall(sent, Ok(Ended))
  }
}
