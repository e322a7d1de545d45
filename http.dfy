/** The HTTP client (axios) as the services see it. Transport is not modelled:
    a request is replaced by how it ended, and a service's `try` / `catch` is
    modelled in two steps, what the `try` block does with that ending and what
    the `catch` block does with whatever the `try` block threw. */
module Http {
  import opened Base

  /** How an awaited axios request ended. `Ok` carries the response body
      (`response.data`); `HttpErr` is an axios error with a response;
      `NoResponse` is an axios error without one (network failure, timeout);
      `NonAxios` is any other `Error`. */
  datatype Outcome<B> =
    | Ok(body: B)
    | HttpErr(status: int, message: string)
    | NoResponse(message: string)
    | NonAxios(message: string)

  /** What reaches a `catch` block: an axios error, with the status of its
      response when it has one, or a plain `Error`. */
  datatype Caught =
    | AxiosCaught(status: Option<int>, message: string)
    | ErrorCaught(message: string)

  /** How a `try` block ends: it produces a value, or something is thrown. */
  datatype Attempt<T> = Completed(value: T) | Raised(error: Caught)

  /** Awaiting the request inside a `try` block: a response is produced, a
      failure is thrown as the error axios raises. */
  function Await<B>(o: Outcome<B>): Attempt<B> {
    match o
    case Ok(body) => Completed(body)
    case HttpErr(status, message) => Raised(AxiosCaught(Some(status), message))
    case NoResponse(message) => Raised(AxiosCaught(None, message))
    case NonAxios(message) => Raised(ErrorCaught(message))
  }

  /** The test `axios.isAxiosError(error) && error.response` followed by a
      comparison of `error.response.status` with `code`. */
  predicate HasStatus(e: Caught, code: int) {
    e.AxiosCaught? && e.status == Some(code)
  }
}
