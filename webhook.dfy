/**
 * `send_to_webhook` (utils/webhook.py): the lead notification posted to the configured webhook
 * URL, and how the outcome of that one POST is reported.  The configured URL, the clock and
 * the outcome of the HTTP exchange are parameters.
 */
module Webhook {
  import opened Wrappers
  import opened Text
  import opened Http

  /** The JSON body of the notification. */
  datatype Payload = Payload(conversationId: string, name: string, email: string, transcript: string, timestamp: string)

  /** The POST as sent: the URL, the body and the timeout in seconds. */
  datatype Post = Post(url: string, payload: Payload, timeout: nat)

  /** The POST that was made, if any, and the value returned: `None`, `True` or `False`. */
  datatype Delivery = Delivery(post: Option<Post>, result: Option<bool>)

  const WebhookTimeout: nat := 5

  /** The notification for one lead: a falsy name or email becomes `""`. */
  function LeadPayload(convId: string, name: Option<string>, email: Option<string>, transcript: string, now: string): (p: Payload)
    ensures p.conversationId == convId && p.transcript == transcript && p.timestamp == now
    ensures p.name == (if Truthy(name) then name.value else "")
    ensures p.email == (if Truthy(email) then email.value else "")
  {
    Payload(convId, OrEmpty(name), OrEmpty(email), transcript, now)
  }

  /**
   * `send_to_webhook`: without a configured URL nothing is posted and `None` is returned;
   * otherwise exactly one POST is made, and the result is `True` when it got a non-error
   * response and `False` on a timeout, any other failure, or an error status.
   */
  function SendToWebhook(url: Option<string>, convId: string, name: Option<string>, email: Option<string>,
                         transcript: string, now: string, outcome: Exchange): (d: Delivery)
    ensures d.post.None? <==> !Truthy(url)
    ensures d.post.None? ==> d.result.None?
    ensures d.post.Some? ==> d.post.value == Post(url.value, LeadPayload(convId, name, email, transcript, now), WebhookTimeout)
    ensures d.post.Some? ==> d.result == Some(outcome.Answered? && !IsErrorStatus(outcome.response.status))
  {
    if !Truthy(url) then Delivery(None, None)
    else
      var post := Post(url.value, LeadPayload(convId, name, email, transcript, now), WebhookTimeout);
      match outcome
      case Answered(response) => Delivery(Some(post), Some(!IsErrorStatus(response.status)))
      case TimedOut => Delivery(Some(post), Some(false))
      case Failed => Delivery(Some(post), Some(false))
  }
}
