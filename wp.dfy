/**
 * The WordPress HTTP API and error type as the plugin classes see them.  `wp_remote_get` and
 * `wp_remote_post` are not modelled: their outcome is an input.
 */
module Wp {
  import opened Wrappers
  import opened Json

  /**
   * A `WP_Error`: its code, its message, and its data (`Null` when none was attached).  The
   * message is a JSON value because one error message is copied from the API's response body.
   */
  datatype WpError = WpError(code: string, message: Value, data: Value)

  /** A request as sent: the URL, the `x-api-key` header, the JSON body if any, and the timeout. */
  datatype WpRequest = WpGet(url: string, apiKey: string, timeout: nat)
                     | WpPost(url: string, apiKey: string, body: Option<Value>, timeout: nat)

  /**
   * What `wp_remote_*` returned: a `WP_Error` for a transport failure, or a reply with its status,
   * its raw body, and `json_decode($body, true)` of it (`Null` when the body is not JSON).
   */
  datatype WpResponse = TransportError(error: WpError) | Reply(status: int, body: string, decoded: Value)

  /** The request made, if any, and the value the method returned. */
  datatype WpCall<T> = WpCall(sent: Option<WpRequest>, result: Result<T, WpError>)

  /** The API's base URL, as both plugins configure it. */
  const ApiBaseUrl := "https://tavusapi.com/v2"
}
