/**
 * The assistant plugin's front-end script: its configuration lookup, how it reads the AJAX
 * responses, and the widget state that its handlers change (the Daily call object, the mute flag,
 * the card's in-call class and the visibility of the widget's parts).  The AJAX requests and the
 * Daily call object are not modelled: their outcomes are inputs, and each asynchronous callback
 * is a method of its own.
 */
module Frontend {
  import opened Wrappers
  import opened Text
  import opened Json

  /** A localized configuration object with a truthy `ajaxurl`. */
  predicate HasAjaxUrl(o: Value) {
    JsTruthy(o) && JsTruthy(JsGet(o, "ajaxurl"))
  }

  /** `cfg()`: `broadgateAjax` if it is usable, else `broadgateAI` if it is, else `null`. */
  function Cfg(broadgateAjax: Value, broadgateAI: Value): (r: Option<Value>)
    ensures r.Some? ==> HasAjaxUrl(r.value)
    ensures HasAjaxUrl(broadgateAjax) ==> r == Some(broadgateAjax)
    ensures !HasAjaxUrl(broadgateAjax) && HasAjaxUrl(broadgateAI) ==> r == Some(broadgateAI)
    ensures r.None? <==> !HasAjaxUrl(broadgateAjax) && !HasAjaxUrl(broadgateAI)
  {
    if JsTruthy(broadgateAjax) && JsTruthy(JsGet(broadgateAjax, "ajaxurl")) then Some(broadgateAjax)
    else if JsTruthy(broadgateAI) && JsTruthy(JsGet(broadgateAI, "ajaxurl")) then Some(broadgateAI)
    else None
  }

  /** What jQuery's `.text(v)` or an attribute assignment writes for `v`. */
  function JsText(v: Value): string
    decreases v
  {
    match v
    case Null => "null"
    case Bool(b) => if b then "true" else "false"
    case Num(n) => IntToDecimal(n)
    case Str(s) => s
    case Arr(items) =>
      Join(",", seq(|items|, i requires 0 <= i < |items| => if items[i].Null? then "" else JsText(items[i])))
    case Obj(_) => "[object Object]"
  }

  // ---------------------------------------------------------------- reading the responses

  const UrlKeys := ["conversation_url", "embed_url", "iframe_url", "url"]

  /** `v.k0 || v.k1 || ... || null`. */
  function FirstTruthyProp(v: Value, keys: seq<string>): (r: Value)
    ensures r == Null || JsTruthy(r)
    ensures JsTruthy(r) ==> exists key :: key in keys && JsGet(v, key) == r
    ensures JsTruthy(r) ==> exists n :: 0 <= n < |keys| && r == JsGet(v, keys[n])
                                        && forall m :: 0 <= m < n ==> !JsTruthy(JsGet(v, keys[m]))
    ensures r == Null <==> forall key :: key in keys ==> !JsTruthy(JsGet(v, key))
  {
    if keys == [] then Null
    else if JsTruthy(JsGet(v, keys[0])) then JsGet(v, keys[0])
    else FirstTruthyProp(v, keys[1..])
  }

  /** `top` in `extractUrl`: the response's `data` when it is truthy, else the response itself. */
  function Top(resp: Value): (r: Value)
    ensures JsTruthy(JsGet(resp, "data")) ==> r == JsGet(resp, "data")
    ensures !JsTruthy(JsGet(resp, "data")) ==> r == JsOr(resp, Obj([]))
  {
    if JsTruthy(resp) && JsTruthy(JsGet(resp, "data")) then JsGet(resp, "data") else JsOr(resp, Obj([]))
  }

  /** `payload` in `extractUrl`: `top.raw || top.data || top`. */
  function UrlHolder(resp: Value): Value {
    var top := Top(resp);
    JsOr(JsGet(top, "raw"), JsOr(JsGet(top, "data"), top))
  }

  /**
   * `extractUrl`: the first truthy URL field of the holder, which is the raw API response when
   * the server included it.
   */
  function ExtractUrl(resp: Value): (r: Value)
    ensures r == Null || JsTruthy(r)
    ensures JsTruthy(r) ==> exists key :: key in UrlKeys && JsGet(UrlHolder(resp), key) == r
    ensures JsTruthy(r) ==> exists n :: 0 <= n < |UrlKeys| && r == JsGet(UrlHolder(resp), UrlKeys[n])
                                        && forall m :: 0 <= m < n ==> !JsTruthy(JsGet(UrlHolder(resp), UrlKeys[m]))
    ensures r == Null <==> forall key :: key in UrlKeys ==> !JsTruthy(JsGet(UrlHolder(resp), key))
    ensures JsTruthy(JsGet(Top(resp), "raw")) ==> r == FirstTruthyProp(JsGet(Top(resp), "raw"), UrlKeys)
  {
    var top := if JsTruthy(resp) && JsTruthy(JsGet(resp, "data")) then JsGet(resp, "data") else JsOr(resp, Obj([]));
    var payload := JsOr(JsGet(top, "raw"), JsOr(JsGet(top, "data"), top));
    FirstTruthyProp(payload, UrlKeys)
  }

  /**
   * `extractUrl` as evidently intended: the `conversation_url` that the server put at the top of
   * its result first, then the fields as before.
   */
  function ExtractUrlFixed(resp: Value): (r: Value)
    ensures r == Null || JsTruthy(r)
    ensures JsTruthy(JsGet(Top(resp), "conversation_url")) ==> r == JsGet(Top(resp), "conversation_url")
    ensures !JsTruthy(JsGet(Top(resp), "conversation_url")) ==> r == ExtractUrl(resp)
  {
    JsOr(JsGet(Top(resp), "conversation_url"), ExtractUrl(resp))
  }

  /** The corrected lookup finds a URL wherever the original one does. */
  lemma FixNeverLosesUrl(resp: Value)
    requires JsTruthy(ExtractUrl(resp))
    ensures JsTruthy(ExtractUrlFixed(resp))
  {
  }

  /** How a jQuery AJAX call ended: `success` with the parsed body, or `error` with `xhr.responseJSON`. */
  datatype AjaxOutcome = AjaxSuccess(resp: Value) | AjaxError(responseJson: Value)

  /** The idle video source chosen on load: a Tavus avatar URL, or `None` for the local fallback. */
  function AvatarChoice(outcome: AjaxOutcome): (r: Option<Value>)
    ensures r.Some? <==> outcome.AjaxSuccess? && JsGet(outcome.resp, "success") == Bool(true)
                         && JsTruthy(JsGet(JsGet(outcome.resp, "data"), "avatar_url"))
    ensures r.Some? ==> r.value == JsGet(JsGet(outcome.resp, "data"), "avatar_url") && JsTruthy(r.value)
  {
    match outcome
    case AjaxSuccess(resp) =>
      if JsTruthy(resp) && JsGet(resp, "success") == Bool(true) && JsTruthy(JsGet(resp, "data"))
         && JsTruthy(JsGet(JsGet(resp, "data"), "avatar_url"))
      then Some(JsGet(JsGet(resp, "data"), "avatar_url"))
      else None
    case AjaxError(_) => None
  }

  const ConversationFailed := "Failed to start conversation."
  const NoUrlReturned := "No conversation URL returned by API."
  const RequestFailed := "Request failed."

  /** What the talk-now handler does with the response: show an error, or start a call at `url`. */
  datatype TalkNow = ShowFailure(message: Value) | StartCall(url: Value)

  /** The talk-now response handling, reading the URL with `url`. */
  function TalkNowWith(outcome: AjaxOutcome, url: Value -> Value): TalkNow {
    match outcome
    case AjaxSuccess(resp) =>
      if !JsTruthy(resp) || JsGet(resp, "success") != Bool(true) then
        ShowFailure(if JsTruthy(resp) && JsTruthy(JsGet(resp, "data")) && JsTruthy(JsGet(JsGet(resp, "data"), "message"))
                    then JsGet(JsGet(resp, "data"), "message") else Str(ConversationFailed))
      else if !JsTruthy(url(resp)) then ShowFailure(Str(NoUrlReturned))
      else StartCall(url(resp))
    case AjaxError(x) =>
      ShowFailure(if JsTruthy(x) && JsTruthy(JsGet(x, "data")) && JsTruthy(JsGet(JsGet(x, "data"), "message"))
                  then JsGet(JsGet(x, "data"), "message") else Str(RequestFailed))
  }

  /** The talk-now handler as written. */
  function TalkNowDecision(outcome: AjaxOutcome): (r: TalkNow)
    ensures outcome.AjaxSuccess? && JsGet(outcome.resp, "success") != Bool(true) ==>
              r == ShowFailure(JsOr(JsGet(JsGet(outcome.resp, "data"), "message"), Str(ConversationFailed)))
    ensures outcome.AjaxError? ==>
              r == ShowFailure(JsOr(JsGet(JsGet(outcome.responseJson, "data"), "message"), Str(RequestFailed)))
    ensures outcome.AjaxSuccess? && JsGet(outcome.resp, "success") == Bool(true) ==>
              r == if JsTruthy(ExtractUrl(outcome.resp)) then StartCall(ExtractUrl(outcome.resp))
                   else ShowFailure(Str(NoUrlReturned))
    ensures r.ShowFailure? ==> JsTruthy(r.message)
  {
    TalkNowWith(outcome, ExtractUrl)
  }

  /** The talk-now handler with the corrected URL lookup. */
  function TalkNowFixed(outcome: AjaxOutcome): (r: TalkNow)
    ensures outcome.AjaxSuccess? && JsGet(outcome.resp, "success") == Bool(true) ==>
              r == if JsTruthy(ExtractUrlFixed(outcome.resp)) then StartCall(ExtractUrlFixed(outcome.resp))
                   else ShowFailure(Str(NoUrlReturned))
    ensures !(outcome.AjaxSuccess? && JsGet(outcome.resp, "success") == Bool(true)) ==> r == TalkNowDecision(outcome)
    ensures r.ShowFailure? ==> JsTruthy(r.message)
  {
    TalkNowWith(outcome, ExtractUrlFixed)
  }

  // ---------------------------------------------------------------- the widget

  const SomethingWrong := "Something went wrong."
  const ConfigMissing := "Plugin config missing (broadgateAjax/broadgateAI not found)."
  const DailyMissing := "Daily Video API not loaded. (Daily.createCallObject missing)"
  const CallError := "Could not start the conversation. Please try again."
  const JoinFailed := "Join failed. Please allow microphone permission and try again."

  /**
   * The script's two variables and the parts of the widget it shows, hides and labels.  The card's
   * in-call class and the close button's disabled state always change together, so `inCall` stands
   * for both.  `errorText` is the error box: hidden (`None`) or shown with its text.
   */
  class Widget {
    var call: Option<Value>
    var isMuted: bool
    var inCall: bool
    var errorText: Option<string>
    var loading: bool
    var talkNowVisible: bool
    var talkNowDisabled: bool
    var controlsVisible: bool
    var remoteVisible: bool
    var idleVisible: bool
    var muteLabel: string
    var containerVisible: bool
    var idleSrc: string
    const fallbackSrc: string

    /** The state `resetUI` leaves behind. */
    predicate Idle()
      reads this
    {
      !loading && !talkNowDisabled && errorText.None? && !controlsVisible && !remoteVisible
      && idleVisible && !inCall && talkNowVisible && !isMuted && muteLabel == "Mute"
    }

    /** The mute button's label says what the flag is. */
    predicate LabelSynced()
      reads this
    {
      muteLabel == if isMuted then "Unmute" else "Mute"
    }

    /** The markup as rendered, then `resetUI()` at the end of the ready handler. */
    constructor (fallback: string)
      ensures Idle() && call.None? && containerVisible && fallbackSrc == fallback && idleSrc == fallback
    {
      call := None;
      isMuted := false;
      inCall := false;
      errorText := None;
      loading := false;
      talkNowVisible := true;
      talkNowDisabled := false;
      controlsVisible := false;
      remoteVisible := false;
      idleVisible := true;
      muteLabel := "Mute";
      containerVisible := true;
      idleSrc := fallback;
      fallbackSrc := fallback;
      new;
      ResetUI();
    }

    method HideLoading()
      modifies this
      ensures !loading && !talkNowDisabled
      ensures call == old(call) && isMuted == old(isMuted) && inCall == old(inCall) && errorText == old(errorText)
      ensures talkNowVisible == old(talkNowVisible) && controlsVisible == old(controlsVisible)
      ensures remoteVisible == old(remoteVisible) && idleVisible == old(idleVisible) && muteLabel == old(muteLabel)
      ensures containerVisible == old(containerVisible) && idleSrc == old(idleSrc)
    {
      loading := false;
      talkNowDisabled := false;
    }

    method ShowLoading()
      modifies this
      ensures loading && talkNowDisabled && !talkNowVisible && errorText.None?
      ensures call == old(call) && isMuted == old(isMuted) && inCall == old(inCall)
      ensures controlsVisible == old(controlsVisible)
      ensures remoteVisible == old(remoteVisible) && idleVisible == old(idleVisible) && muteLabel == old(muteLabel)
      ensures containerVisible == old(containerVisible) && idleSrc == old(idleSrc)
    {
      errorText := None;
      loading := true;
      talkNowVisible := false;
      talkNowDisabled := true;
    }

    /** `showError`: the message (or a default) is shown, the button is back, and the call state is cleared. */
    method ShowError(msg: Value)
      modifies this
      ensures errorText == Some(JsText(JsOr(msg, Str(SomethingWrong))))
      ensures !loading && !talkNowDisabled && talkNowVisible && !inCall
      ensures call == old(call) && isMuted == old(isMuted) && controlsVisible == old(controlsVisible)
      ensures remoteVisible == old(remoteVisible) && idleVisible == old(idleVisible) && muteLabel == old(muteLabel)
      ensures containerVisible == old(containerVisible) && idleSrc == old(idleSrc)
    {
      HideLoading();
      errorText := Some(JsText(JsOr(msg, Str(SomethingWrong))));
      talkNowVisible := true;
      talkNowDisabled := false;
      inCall := false;
    }

    /** `resetUI`: back to the idle card; the call variable is left as it is. */
    method ResetUI()
      modifies this
      ensures Idle() && LabelSynced()
      ensures call == old(call) && containerVisible == old(containerVisible) && idleSrc == old(idleSrc)
    {
      HideLoading();
      errorText := None;
      controlsVisible := false;
      remoteVisible := false;
      idleVisible := true;
      inCall := false;
      talkNowVisible := true;
      talkNowDisabled := false;
      isMuted := false;
      muteLabel := "Mute";
    }

    /** `hangup`: whatever leaving the call does, the call is dropped and the card reset. */
    method Hangup()
      modifies this
      ensures call.None? && Idle() && LabelSynced()
      ensures containerVisible == old(containerVisible) && idleSrc == old(idleSrc)
    {
      call := None;
      ResetUI();
    }

    /** `setIdleVideoSrc`: a falsy URL changes nothing. */
    method SetIdleVideoSrc(url: Value)
      modifies this
      ensures idleSrc == if JsTruthy(url) then JsText(url) else old(idleSrc)
      ensures call == old(call) && isMuted == old(isMuted) && inCall == old(inCall) && errorText == old(errorText)
      ensures loading == old(loading) && talkNowVisible == old(talkNowVisible) && talkNowDisabled == old(talkNowDisabled)
      ensures controlsVisible == old(controlsVisible) && remoteVisible == old(remoteVisible)
      ensures idleVisible == old(idleVisible) && muteLabel == old(muteLabel) && containerVisible == old(containerVisible)
    {
      if JsTruthy(url) {
        idleSrc := JsText(url);
      }
    }

    /**
     * `fetchTavusAvatarOnLoad` and its callbacks: the avatar URL when the response carries one,
     * otherwise the fallback source, which an empty `data-fallback-src` leaves as it was.
     */
    method LoadAvatar(config: Option<Value>, outcome: AjaxOutcome)
      modifies this
      ensures config.Some? && AvatarChoice(outcome).Some? ==> idleSrc == JsText(AvatarChoice(outcome).value)
      ensures !(config.Some? && AvatarChoice(outcome).Some?) ==>
                idleSrc == if fallbackSrc != "" then fallbackSrc else old(idleSrc)
      ensures call == old(call) && isMuted == old(isMuted) && inCall == old(inCall) && errorText == old(errorText)
      ensures loading == old(loading) && talkNowVisible == old(talkNowVisible) && talkNowDisabled == old(talkNowDisabled)
      ensures controlsVisible == old(controlsVisible) && remoteVisible == old(remoteVisible)
      ensures idleVisible == old(idleVisible) && muteLabel == old(muteLabel) && containerVisible == old(containerVisible)
    {
      var choice := if config.Some? then AvatarChoice(outcome) else None;
      if choice.Some? {
        SetIdleVideoSrc(choice.value);
      } else if fallbackSrc != "" {
        SetIdleVideoSrc(Str(fallbackSrc));
      }
    }

    /**
     * The synchronous part of the talk-now click: without a configuration it shows an error and
     * sends nothing; otherwise it enters the in-call state, shows the loader and sends the request.
     */
    method ClickTalkNow(config: Option<Value>) returns (requested: bool)
      modifies this
      ensures requested <==> config.Some?
      ensures config.None? ==> errorText == Some(ConfigMissing) && !inCall && talkNowVisible && !loading && !talkNowDisabled
      ensures config.Some? ==> inCall && loading && talkNowDisabled && !talkNowVisible && errorText.None?
      ensures call == old(call) && isMuted == old(isMuted) && controlsVisible == old(controlsVisible)
      ensures remoteVisible == old(remoteVisible) && idleVisible == old(idleVisible) && muteLabel == old(muteLabel)
      ensures containerVisible == old(containerVisible) && idleSrc == old(idleSrc)
    {
      if config.None? {
        ShowError(Str(ConfigMissing));
        return false;
      }
      inCall := true;
      ShowLoading();
      requested := true;
    }

    /**
     * `startAudioOnlyCall`: without the Daily library an error is shown; otherwise any previous
     * call is hung up and a new one joins `url`.  A failed join shows an error but keeps the call.
     */
    method StartAudioOnlyCall(url: Value, dailyLoaded: bool, joinOk: bool)
      modifies this
      ensures !dailyLoaded ==>
                errorText == Some(DailyMissing) && !inCall && call == old(call) && isMuted == old(isMuted)
                && !loading && !talkNowDisabled && talkNowVisible
                && controlsVisible == old(controlsVisible) && remoteVisible == old(remoteVisible)
                && idleVisible == old(idleVisible) && muteLabel == old(muteLabel)
      ensures dailyLoaded ==> call == Some(url) && !isMuted && LabelSynced() && !controlsVisible && !remoteVisible && idleVisible
      ensures dailyLoaded && joinOk ==> inCall && loading && talkNowDisabled && !talkNowVisible && errorText.None?
      ensures dailyLoaded && !joinOk ==>
                !inCall && !loading && !talkNowDisabled && talkNowVisible && errorText == Some(JoinFailed)
      ensures containerVisible == old(containerVisible) && idleSrc == old(idleSrc)
    {
      if !dailyLoaded {
        ShowError(Str(DailyMissing));
        return;
      }
      Hangup();
      inCall := true;
      ShowLoading();
      call := Some(url);
      if !joinOk {
        ShowError(Str(JoinFailed));
      }
    }

    /** The AJAX callbacks of the talk-now request. */
    method OnConversationResponse(outcome: AjaxOutcome, dailyLoaded: bool, joinOk: bool)
      modifies this
      ensures TalkNowDecision(outcome).ShowFailure? ==>
                errorText == Some(JsText(TalkNowDecision(outcome).message)) && !inCall && call == old(call)
                && !loading && !talkNowDisabled && talkNowVisible && isMuted == old(isMuted)
                && controlsVisible == old(controlsVisible) && remoteVisible == old(remoteVisible)
                && idleVisible == old(idleVisible) && muteLabel == old(muteLabel)
      ensures TalkNowDecision(outcome).StartCall? && !dailyLoaded ==>
                errorText == Some(DailyMissing) && !inCall && call == old(call) && isMuted == old(isMuted)
                && !loading && !talkNowDisabled && talkNowVisible
                && controlsVisible == old(controlsVisible) && remoteVisible == old(remoteVisible)
                && idleVisible == old(idleVisible) && muteLabel == old(muteLabel)
      ensures TalkNowDecision(outcome).StartCall? && dailyLoaded ==>
                call == Some(TalkNowDecision(outcome).url) && !isMuted && LabelSynced()
                && !controlsVisible && !remoteVisible && idleVisible
                && (joinOk ==> inCall && loading && talkNowDisabled && !talkNowVisible && errorText.None?)
                && (!joinOk ==> !inCall && !loading && !talkNowDisabled && talkNowVisible && errorText == Some(JoinFailed))
      ensures containerVisible == old(containerVisible) && idleSrc == old(idleSrc)
    {
      match TalkNowDecision(outcome) {
        case ShowFailure(m) => ShowError(m);
        case StartCall(u) => StartAudioOnlyCall(u, dailyLoaded, joinOk);
      }
    }

    /** The call's `joined-meeting` event. */
    method OnJoinedMeeting()
      modifies this
      ensures inCall && !loading && !talkNowDisabled && controlsVisible && !talkNowVisible
      ensures call == old(call) && isMuted == old(isMuted) && errorText == old(errorText)
      ensures remoteVisible == old(remoteVisible) && idleVisible == old(idleVisible) && muteLabel == old(muteLabel)
      ensures containerVisible == old(containerVisible) && idleSrc == old(idleSrc)
    {
      HideLoading();
      controlsVisible := true;
      talkNowVisible := false;
      inCall := true;
    }

    /** The call's `track-started` event: a remote participant's video replaces the idle avatar. */
    method OnTrackStarted(remoteVideo: bool)
      modifies this
      ensures remoteVideo ==> !idleVisible && remoteVisible
      ensures !remoteVideo ==> idleVisible == old(idleVisible) && remoteVisible == old(remoteVisible)
      ensures call == old(call) && isMuted == old(isMuted) && inCall == old(inCall) && errorText == old(errorText)
      ensures loading == old(loading) && talkNowVisible == old(talkNowVisible) && talkNowDisabled == old(talkNowDisabled)
      ensures controlsVisible == old(controlsVisible) && muteLabel == old(muteLabel)
      ensures containerVisible == old(containerVisible) && idleSrc == old(idleSrc)
    {
      if remoteVideo {
        idleVisible := false;
        remoteVisible := true;
      }
    }

    /** The call's `error` event: an error is shown, but the call is not dropped. */
    method OnCallError()
      modifies this
      ensures errorText == Some(CallError) && !inCall && call == old(call) && isMuted == old(isMuted)
      ensures !loading && !talkNowDisabled && talkNowVisible
      ensures controlsVisible == old(controlsVisible) && remoteVisible == old(remoteVisible)
      ensures idleVisible == old(idleVisible) && muteLabel == old(muteLabel)
      ensures containerVisible == old(containerVisible) && idleSrc == old(idleSrc)
    {
      ShowError(Str(CallError));
    }

    /** The call's `left-meeting` event. */
    method OnLeftMeeting()
      modifies this
      ensures call.None? && Idle()
      ensures containerVisible == old(containerVisible) && idleSrc == old(idleSrc)
    {
      Hangup();
    }

    /**
     * The mute click: nothing without a call; otherwise the flag flips first, and the label follows
     * only when `setLocalAudio` succeeds (`audioOk`), so a failure leaves them disagreeing.
     */
    method ClickMute(audioOk: bool)
      modifies this
      ensures old(call).None? ==> isMuted == old(isMuted) && muteLabel == old(muteLabel)
      ensures old(call).Some? ==> isMuted == !old(isMuted)
      ensures old(call).Some? && audioOk ==> LabelSynced()
      ensures old(call).Some? && !audioOk ==> muteLabel == old(muteLabel)
      ensures old(call).Some? && !audioOk && old(LabelSynced()) ==> !LabelSynced()
      ensures call == old(call) && inCall == old(inCall) && errorText == old(errorText)
      ensures loading == old(loading) && talkNowVisible == old(talkNowVisible) && talkNowDisabled == old(talkNowDisabled)
      ensures controlsVisible == old(controlsVisible) && remoteVisible == old(remoteVisible)
      ensures idleVisible == old(idleVisible) && containerVisible == old(containerVisible) && idleSrc == old(idleSrc)
    {
      if call.None? {
        return;
      }
      isMuted := !isMuted;
      if audioOk {
        muteLabel := if isMuted then "Unmute" else "Mute";
      }
    }

    /** The end-call click. */
    method ClickHangup()
      modifies this
      ensures call.None? && Idle()
      ensures containerVisible == old(containerVisible) && idleSrc == old(idleSrc)
    {
      Hangup();
    }

    /** The close click: ignored in a call; otherwise hang up and hide the widget. */
    method ClickClose()
      modifies this
      ensures old(inCall) ==> unchanged(this)
      ensures !old(inCall) ==> call.None? && Idle() && !containerVisible && idleSrc == old(idleSrc)
    {
      if inCall {
        return;
      }
      Hangup();
      containerVisible := false;
    }
  }
}
