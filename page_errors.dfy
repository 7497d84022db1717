/**
 * The catch blocks of the frontend pages: each picks the text to show from
 * what was thrown, in one of three orders.
 */
module PageErrors {
  import opened Wrappers
  import opened Text
  import opened ApiClient

  /**
   * What a page's `catch` receives: an `AxiosError` (the interceptor passes
   * those on), some other `Error`, or a thrown value that is neither.
   */
  datatype Caught =
    | AxiosFailure(data: Option<ResponseBody>, message: string)
    | PlainError(message: string)
    | OtherThrown

  /** The `AxiosError` a page receives for an error the interceptor passed on. */
  function CaughtOf(e: AxiosError, message: string): (r: Caught)
    ensures r.AxiosFailure? && r.message == message
    ensures e.Responded? ==> r.data == e.data
    ensures !e.Responded? ==> r.data.None?
  {
    AxiosFailure(if e.Responded? then e.data else None, message)
  }

  /** `data.message || data.error`. */
  function ServerText(data: Option<ResponseBody>): (r: Option<string>)
    ensures Truthy(BodyMessage(data)) ==> r == BodyMessage(data)
    ensures !Truthy(BodyMessage(data)) ==> r == BodyError(data)
  {
    Or(BodyMessage(data), BodyError(data))
  }

  /**
   * `message || error || err.message` for an Axios error, `err.message`
   * for another error, the default otherwise; an empty `err.message` is
   * shown as it is.
   */
  function ErrorThenMessage(c: Caught, default: string): (r: string)
    ensures c.AxiosFailure? && Truthy(ServerText(c.data)) ==> r == ServerText(c.data).value
    ensures c.AxiosFailure? && !Truthy(ServerText(c.data)) ==> r == c.message
    ensures c.PlainError? ==> r == c.message
    ensures c.OtherThrown? ==> r == default
  {
    match c
    case AxiosFailure(data, message) => OrElse(ServerText(data), message)
    case PlainError(message) => message
    case OtherThrown => default
  }

  /** As `ErrorThenMessage`, but an empty `err.message` gives way to the default. */
  function ErrorThenMessageThenDefault(c: Caught, default: string): (r: string)
    ensures c.AxiosFailure? && Truthy(ServerText(c.data)) ==> r == ServerText(c.data).value
    ensures c.AxiosFailure? && !Truthy(ServerText(c.data)) ==> r == OrElse(Some(c.message), default)
    ensures c.PlainError? ==> r == c.message
    ensures c.OtherThrown? ==> r == default
  {
    match c
    case AxiosFailure(data, message) => OrElse(Or(ServerText(data), Some(message)), default)
    case PlainError(message) => message
    case OtherThrown => default
  }

  /** `message || error || default`: the Axios error's own message is never shown. */
  function ErrorThenDefault(c: Caught, default: string): (r: string)
    ensures c.AxiosFailure? ==> r == OrElse(ServerText(c.data), default)
    ensures c.PlainError? ==> r == c.message
    ensures c.OtherThrown? ==> r == default
  {
    match c
    case AxiosFailure(data, _) => OrElse(ServerText(data), default)
    case PlainError(message) => message
    case OtherThrown => default
  }

  /** With a non-empty default, the second and third orders never show an empty text for an Axios error. */
  lemma AxiosTextNonEmpty(c: Caught, default: string)
    requires c.AxiosFailure? && default != []
    ensures ErrorThenMessageThenDefault(c, default) != []
    ensures ErrorThenDefault(c, default) != []
  {
  }

  /** The three orders agree whenever the server sent a message or an error. */
  lemma OrdersAgreeOnServerText(c: Caught, d1: string, d2: string, d3: string)
    requires c.AxiosFailure? && Truthy(ServerText(c.data))
    ensures ErrorThenMessage(c, d1) == ErrorThenMessageThenDefault(c, d2) == ErrorThenDefault(c, d3)
  {
  }

  /** Without server text and with an empty Axios message, only the first order shows an empty text. */
  lemma FirstOrderCanShowNothing(default: string)
    requires default != []
    ensures ErrorThenMessage(AxiosFailure(None, ""), default) == ""
    ensures ErrorThenMessageThenDefault(AxiosFailure(None, ""), default) == default
  {
  }
}
