/**
 * The assistant plugin's main class: it prints the floating widget in the footer at most once
 * per request (a shortcode rendering counts as well), fills in the shortcode's defaults, and turns
 * the API class's results into AJAX JSON responses.  The widget's HTML is represented by the three
 * values put into it; HTML escaping is not part of this model.
 */
module Assistant {
  import opened Wrappers
  import opened Json
  import opened Wp
  import AssistantApi

  const FallbackVideo := "7202eb45.mp4"
  const DefaultButtonText := "TALK NOW"
  const DefaultButtonColor := "#3B82F6"

  /** The widget as rendered: the fallback avatar video, the button's text and its colour. */
  datatype WidgetMarkup = WidgetMarkup(fallbackAvatar: string, buttonText: string, buttonColor: string)

  /** `shortcode_atts` for one attribute: the given value, else the default. */
  function Att(atts: map<string, string>, key: string, default: string): (r: string)
    ensures key in atts ==> r == atts[key]
    ensures key !in atts ==> r == default
  {
    if key in atts then atts[key] else default
  }

  /** The widget a shortcode renders: each attribute that is not given takes its default. */
  function ShortcodeMarkup(pluginUrl: string, atts: map<string, string>): (m: WidgetMarkup)
    ensures "fallback_avatar" !in atts ==> m.fallbackAvatar == pluginUrl + FallbackVideo
    ensures "button_text" !in atts ==> m.buttonText == DefaultButtonText
    ensures "button_color" !in atts ==> m.buttonColor == DefaultButtonColor
    ensures "fallback_avatar" in atts ==> m.fallbackAvatar == atts["fallback_avatar"]
    ensures "button_text" in atts ==> m.buttonText == atts["button_text"]
    ensures "button_color" in atts ==> m.buttonColor == atts["button_color"]
  {
    WidgetMarkup(Att(atts, "fallback_avatar", pluginUrl + FallbackVideo),
                 Att(atts, "button_text", DefaultButtonText),
                 Att(atts, "button_color", DefaultButtonColor))
  }

  /** The footer widget is the shortcode widget with no attributes. */
  lemma FooterIsDefaultShortcode(pluginUrl: string)
    ensures ShortcodeMarkup(pluginUrl, map[]) == WidgetMarkup(pluginUrl + FallbackVideo, DefaultButtonText, DefaultButtonColor)
  {
  }

  /** The object localized for the script, under both `broadgateAjax` and `broadgateAI`. */
  function LocalizedConfig(ajaxUrl: string, nonce: string): (v: Value)
    ensures JsGet(v, "ajaxurl") == Str(ajaxUrl) && JsGet(v, "nonce") == Str(nonce)
  {
    var fields := [("ajaxurl", Str(ajaxUrl)), ("nonce", Str(nonce))];
    LookupSkip(fields, 1, "nonce");
    Obj(fields)
  }

  /** What an AJAX handler sends: `-1` when the nonce check fails, otherwise a JSON body. */
  datatype AjaxReply = Died(output: string) | Json(body: Value)

  /**
   * `wp_send_json_success($result)` or, for a `WP_Error`, `wp_send_json_error` with its message
   * and its data as `debug`.
   */
  function AjaxBody(r: Result<Value, WpError>): (body: Value)
    ensures JsGet(body, "success") == Bool(r.Ok?)
    ensures r.Ok? ==> JsGet(body, "data") == r.value
    ensures r.Err? ==> JsGet(JsGet(body, "data"), "message") == r.error.message
                       && JsGet(JsGet(body, "data"), "debug") == r.error.data
  {
    match r
    case Ok(v) =>
      var fields := [("success", Bool(true)), ("data", v)];
      LookupSkip(fields, 1, "data");
      Obj(fields)
    case Err(e) =>
      var data := [("message", e.message), ("debug", e.data)];
      var fields := [("success", Bool(false)), ("data", Obj(data))];
      LookupSkip(data, 1, "debug");
      LookupSkip(fields, 1, "data");
      Obj(fields)
  }

  /** The PHP array `create_conversation` returns, as JSON. */
  function ConversationJson(c: AssistantApi.Conversation): (v: Value)
    ensures JsGet(v, "conversation_url") == Str(c.conversationUrl)
    ensures JsGet(v, "conversation_id") == Str(c.conversationId)
    ensures JsGet(v, "raw") == c.raw
  {
    var fields := [("conversation_url", Str(c.conversationUrl)), ("conversation_id", Str(c.conversationId)), ("raw", c.raw)];
    LookupSkip(fields, 1, "conversation_id");
    LookupSkip(fields, 2, "raw");
    Obj(fields)
  }

  /** The PHP array `get_idle_avatar_video_url` returns, as JSON. */
  function AvatarJson(a: AssistantApi.Avatar): (v: Value)
    ensures JsGet(v, "avatar_url") == Str(a.avatarUrl) && JsGet(v, "cached") == Bool(a.cached)
  {
    var fields := [("avatar_url", Str(a.avatarUrl)), ("cached", Bool(a.cached))];
    LookupSkip(fields, 1, "cached");
    Obj(fields)
  }

  /** The JSON of an avatar URL just fetched, not taken from the cache. */
  function FreshAvatarJson(u: string): Value {
    AvatarJson(AssistantApi.Avatar(u, false))
  }

  function MapResult<T>(r: Result<T, WpError>, f: T -> Value): (r': Result<Value, WpError>)
    ensures r'.Ok? <==> r.Ok?
    ensures r.Ok? ==> r'.value == f(r.value)
    ensures r.Err? ==> r'.error == r.error
  {
    match r
    case Ok(x) => Ok(f(x))
    case Err(e) => Err(e)
  }

  /**
   * `Broadgate_AI_Assistant`; its static `$rendered` flag lives for one request, as does
   * `footer`, the widgets printed by `render_floating_widget`.
   */
  class Plugin {
    var rendered: bool
    var footer: seq<WidgetMarkup>
    const pluginUrl: string

    /** At most one footer widget, and only once the flag is set. */
    predicate Valid()
      reads this
    {
      |footer| <= 1 && (footer != [] ==> rendered)
    }

    constructor (pluginUrl: string)
      ensures Valid() && !rendered && footer == [] && this.pluginUrl == pluginUrl
    {
      rendered := false;
      footer := [];
      this.pluginUrl := pluginUrl;
    }

    /** `render_floating_widget`: nothing in the admin area or once the flag is set. */
    method RenderFloatingWidget(isAdmin: bool)
      requires Valid()
      modifies this
      ensures Valid()
      ensures isAdmin || old(rendered) ==> unchanged(this)
      ensures !isAdmin && !old(rendered) ==>
                rendered && footer == [WidgetMarkup(pluginUrl + FallbackVideo, DefaultButtonText, DefaultButtonColor)]
    {
      if isAdmin || rendered {
        return;
      }
      footer := footer + [WidgetMarkup(pluginUrl + FallbackVideo, DefaultButtonText, DefaultButtonColor)];
      rendered := true;
    }

    /** `render_shortcode`: always renders, and sets the flag so that no footer widget follows. */
    method RenderShortcode(atts: map<string, string>) returns (m: WidgetMarkup)
      requires Valid()
      modifies this
      ensures Valid() && rendered && footer == old(footer)
      ensures m == ShortcodeMarkup(pluginUrl, atts)
    {
      rendered := true;
      m := ShortcodeMarkup(pluginUrl, atts);
    }

    /** `ajax_create_conversation`: a failed nonce check ends the request before the API is used. */
    method AjaxCreateConversation(nonceOk: bool, s: AssistantApi.Settings, reply: WpResponse)
      returns (sent: Option<WpRequest>, out: AjaxReply)
      ensures !nonceOk ==> sent.None? && out == Died("-1")
      ensures nonceOk && (PhpEmpty(s.apiKey) || PhpEmpty(s.personaId)) ==>
                sent.None?
                && out == Json(AjaxBody(Err(WpError("missing_config", Str(AssistantApi.NotConfigured),
                                                    Obj([("missing", Obj([("api_key", Bool(PhpEmpty(s.apiKey))),
                                                                          ("persona_id", Bool(PhpEmpty(s.personaId)))]))])))))
      ensures nonceOk && !PhpEmpty(s.apiKey) && !PhpEmpty(s.personaId) ==>
                sent == Some(WpPost(AssistantApi.ConversationsUrl, PhpToString(s.apiKey),
                                    Some(AssistantApi.ConversationPayload(s)), AssistantApi.RequestTimeout))
                && out == Json(AjaxBody(MapResult(AssistantApi.ConversationFromReply(AssistantApi.ConversationPayload(s), reply),
                                                  ConversationJson)))
      ensures nonceOk ==> out.Json?
    {
      if !nonceOk {
        return None, Died("-1");
      }
      var c := AssistantApi.CreateConversation(s, reply);
      sent := c.sent;
      out := Json(AjaxBody(MapResult(c.result, ConversationJson)));
    }

    /** `ajax_get_avatar`: the same mapping for the avatar lookup. */
    method AjaxGetAvatar(nonceOk: bool, s: AssistantApi.Settings, cache: AssistantApi.Transients, reply: WpResponse)
      returns (sent: Option<WpRequest>, out: AjaxReply)
      modifies cache
      ensures !nonceOk ==> sent.None? && out == Died("-1") && unchanged(cache)
      ensures nonceOk ==> out.Json? && JsGet(out.body, "success").Bool?
      ensures nonceOk && AssistantApi.CacheHit(old(cache.idleAvatarUrl)) ==>
                sent.None? && out == Json(AjaxBody(Ok(AvatarJson(AssistantApi.Avatar(old(cache.idleAvatarUrl).value, true)))))
                && cache.idleAvatarUrl == old(cache.idleAvatarUrl)
      ensures nonceOk && !AssistantApi.CacheHit(old(cache.idleAvatarUrl)) && PhpEmpty(s.apiKey) ==>
                sent.None? && out == Json(AjaxBody(Err(WpError("missing_config", Str(AssistantApi.NoKeyForAvatar), Null))))
                && cache.idleAvatarUrl == old(cache.idleAvatarUrl)
      ensures nonceOk && !AssistantApi.CacheHit(old(cache.idleAvatarUrl)) && !PhpEmpty(s.apiKey) && PhpEmpty(s.replicaId) ==>
                sent.None? && out == Json(AjaxBody(Err(WpError("missing_config", Str(AssistantApi.NoReplicaForAvatar), Null))))
                && cache.idleAvatarUrl == old(cache.idleAvatarUrl)
      ensures nonceOk && !AssistantApi.CacheHit(old(cache.idleAvatarUrl)) && !PhpEmpty(s.apiKey) && !PhpEmpty(s.replicaId) ==>
                var url := AssistantApi.ReplicaUrl(PhpToString(s.replicaId));
                var fetched := AssistantApi.AvatarFromReply(url, reply);
                sent == Some(WpGet(url, PhpToString(s.apiKey), AssistantApi.RequestTimeout))
                && out == Json(AjaxBody(MapResult(fetched, FreshAvatarJson)))
                && cache.idleAvatarUrl == (if fetched.Ok? then Some(fetched.value) else old(cache.idleAvatarUrl))
    {
      if !nonceOk {
        return None, Died("-1");
      }
      var c := AssistantApi.GetIdleAvatarVideoUrl(s, cache, reply);
      sent := c.sent;
      out := Json(AjaxBody(MapResult(c.result, AvatarJson)));
    }
  }
}
