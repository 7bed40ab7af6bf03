/**
 * The assistant plugin's server and script together: the JSON the AJAX handlers send is what the
 * script's response handling reads.
 */
module EndToEnd {
  import opened Wrappers
  import opened Json
  import opened Wp
  import AssistantApi
  import Assistant
  import Frontend

  /** The success body `ajax_create_conversation` sends for a created conversation. */
  function CreatedBody(c: AssistantApi.Conversation): Value {
    Assistant.AjaxBody(Ok(Assistant.ConversationJson(c)))
  }

  /** The raw response of the finding: the URL nested under `data`. */
  const NestedResponse := Obj([("data", Obj([("conversation_url", Str("https://x"))]))])

  /**
   * As written, the script ignores the URL the server found under `data`: the server accepts the
   * response and sends its URL, but `extractUrl` looks inside the raw response first and finds no
   * URL at its top level there.
   */
  lemma NestedUrlLostAsWritten(payload: Value)
    ensures AssistantApi.ConversationFromReply(payload, Reply(200, "", NestedResponse))
            == Ok(AssistantApi.Conversation("https://x", "", NestedResponse))
    ensures Frontend.TalkNowDecision(Frontend.AjaxSuccess(CreatedBody(AssistantApi.Conversation("https://x", "", NestedResponse))))
            == Frontend.ShowFailure(Str(Frontend.NoUrlReturned))
  {
    AssistantApi.NestedUrlAccepted(payload, 200, "", "https://x");
    var body := CreatedBody(AssistantApi.Conversation("https://x", "", NestedResponse));
    ScriptFindsNoUrl(body);
  }

  lemma ScriptFindsNoUrl(body: Value)
    requires body == CreatedBody(AssistantApi.Conversation("https://x", "", NestedResponse))
    ensures JsGet(body, "success") == Bool(true) && Frontend.ExtractUrl(body) == Null
  {
    assert Frontend.Top(body) == Assistant.ConversationJson(AssistantApi.Conversation("https://x", "", NestedResponse));
    assert JsGet(Frontend.Top(body), "raw") == NestedResponse;
    assert forall key :: key in Frontend.UrlKeys ==> !JsTruthy(JsGet(NestedResponse, key));
  }

  /** With the corrected lookup, every conversation the server reports created starts a call at its URL. */
  lemma EveryCreatedConversationStartsACall(payload: Value, reply: WpResponse)
    requires AssistantApi.ConversationFromReply(payload, reply).Ok?
    ensures var c := AssistantApi.ConversationFromReply(payload, reply).value;
            Frontend.TalkNowFixed(Frontend.AjaxSuccess(CreatedBody(c))) == Frontend.StartCall(Str(c.conversationUrl))
  {
    var c := AssistantApi.ConversationFromReply(payload, reply).value;
    var body := CreatedBody(c);
    assert JsGet(body, "success") == Bool(true);
    assert Frontend.Top(body) == Assistant.ConversationJson(c);
    assert JsTruthy(Str(c.conversationUrl));
  }

  /** A server error's message, when it is truthy, is the one the script shows. */
  lemma ServerErrorMessageIsShown(e: WpError)
    requires JsTruthy(e.message)
    ensures Frontend.TalkNowFixed(Frontend.AjaxSuccess(Assistant.AjaxBody(Err(e)))) == Frontend.ShowFailure(e.message)
  {
  }

  /** The localized configuration is found by `cfg()` whenever its AJAX URL is not empty. */
  lemma LocalizedConfigIsFound(ajaxUrl: string, nonce: string)
    requires ajaxUrl != ""
    ensures var v := Assistant.LocalizedConfig(ajaxUrl, nonce);
            Frontend.Cfg(v, v) == Some(v)
  {
  }

  /** An avatar URL the server returns, cached or fresh, becomes the idle video's source. */
  lemma AvatarReachesTheVideo(a: AssistantApi.Avatar)
    requires !PhpEmpty(Str(a.avatarUrl))
    ensures Frontend.AvatarChoice(Frontend.AjaxSuccess(Assistant.AjaxBody(Ok(Assistant.AvatarJson(a))))) == Some(Str(a.avatarUrl))
  {
  }

  /** Every server error leaves the idle video on its fallback source. */
  lemma AvatarErrorUsesFallback(e: WpError)
    ensures Frontend.AvatarChoice(Frontend.AjaxSuccess(Assistant.AjaxBody(Err(e)))).None?
  {
  }
}
