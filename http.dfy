/**
 * An HTTP exchange as the code on either side sees it.  The network is not modelled: the
 * outcome of a request is an input, and a decoded body is a JSON value (`None` when the body
 * is not valid JSON).
 */
module Http {
  import opened Wrappers
  import opened Json

  datatype Response = Response(status: int, contentType: Option<string>, body: Option<Value>)

  /** A response, a timeout, or any other transport failure (connection refused, DNS, ...). */
  datatype Exchange = Answered(response: Response) | TimedOut | Failed

  /** The statuses `requests`' `raise_for_status()` raises for: client and server errors. */
  predicate IsErrorStatus(status: int) {
    400 <= status < 600
  }

  /** The statuses WordPress code treats as success: `$code >= 200 && $code < 300`. */
  predicate Is2xx(status: int) {
    200 <= status < 300
  }
}
