/** The remote document-store client as the helpers see it: the exceptions a
    remote call can raise and the outcome of one call. The client itself, the
    network and time are not modelled; a remote call is represented by the
    outcome it produced. */
module Remote {

  /** A reference that may be null. */
  datatype Option<+T> = None | Some(value: T)

  /** HTTP status the store uses to signal throttling ("request rate too large"). */
  const TooManyRequests: int := 429

  /** The store's error code for a missing resource. */
  const NotFound: string := "NotFound"

  /** Exceptions a remote call can raise.
      - DocumentClientException: the store's own error, with its HTTP status,
        its error code, and the server-advised wait before retrying
        (milliseconds).
      - AggregateException: a wrapper around other exceptions, as produced by
        task-based code.
      - OtherException: anything else, identified only by its type name. */
  datatype Exn =
    | DocumentClientException(statusCode: int, errorCode: string, retryAfter: nat)
    | AggregateException(innerExceptions: seq<Exn>)
    | OtherException(typeName: string)
  {
    /** The aggregate's InnerException: the first wrapped exception, or null
        when it wraps none. */
    function InnerException(): Option<Exn>
      requires AggregateException?
    {
      if |innerExceptions| == 0 then None else Some(innerExceptions[0])
    }
  }

  /** What one invocation of a remote operation did: returned a value or threw. */
  datatype Outcome<+V> = Returned(value: V) | Threw(exn: Exn)
}
