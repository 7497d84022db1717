/**
 * `utils/apiClient.ts`: the shared Axios instance. A request interceptor
 * adds the stored token as a bearer credential (section 2.1 of RFC 6750);
 * a response interceptor picks the message to show for a failed request,
 * drops the stored token on 401, and passes the error on to the caller.
 */
module ApiClient {
  import opened Wrappers
  import opened Text
  import opened Browser

  /** The outgoing request's mutable configuration; only its headers matter here. */
  class RequestConfig {
    var headers: map<string, string>

    constructor (headers: map<string, string>)
      ensures this.headers == headers
    {
      this.headers := headers;
    }
  }

  const BearerPrefix := "Bearer "

  /** The token carried by an `Authorization` value of the bearer scheme, if it is one. */
  function BearerToken(header: string): (r: Option<string>)
    ensures r.Some? <==> StartsWith(header, BearerPrefix)
    ensures r.Some? ==> header == BearerPrefix + r.value
  {
    if StartsWith(header, BearerPrefix) then Some(header[|BearerPrefix|..]) else None
  }

  /** Reading back the credential the interceptor writes gives the token. */
  lemma BearerRoundTrip(token: string)
    ensures BearerToken(BearerPrefix + token) == Some(token)
  {
    assert (BearerPrefix + token)[..|BearerPrefix|] == BearerPrefix;
    assert (BearerPrefix + token)[|BearerPrefix|..] == token;
  }

  /**
   * The request interceptor: with a truthy stored token `t` the request
   * carries `Authorization: Bearer t` and is otherwise unchanged; with no
   * token, or an empty one, it goes out as it was. When storage throws, the
   * request is rejected untouched.
   */
  method InterceptRequest(storage: LocalStorage, config: RequestConfig) returns (r: Result<RequestConfig, ()>)
    modifies config
    ensures !storage.accessible ==> r.Failure? && config.headers == old(config.headers)
    ensures storage.accessible ==> r == Success(config)
    ensures storage.accessible && Truthy(storage.GetItem(AuthTokenKey).value) ==>
      && "Authorization" in config.headers
      && BearerToken(config.headers["Authorization"]) == Some(storage.items[AuthTokenKey])
      && config.headers - {"Authorization"} == old(config.headers) - {"Authorization"}
    ensures storage.accessible && !Truthy(storage.GetItem(AuthTokenKey).value) ==>
      config.headers == old(config.headers)
  {
    var token := storage.GetItem(AuthTokenKey);
    if token.Failure? {
      return Failure(());
    }
    if Truthy(token.value) {
      config.headers := config.headers["Authorization" := BearerPrefix + token.value.value];
      BearerRoundTrip(token.value.value);
    }
    r := Success(config);
  }

  /** The fields of a response body the interceptor looks at (`data?.message`, `data?.error`). */
  datatype ResponseBody = ResponseBody(message: Option<string>, error: Option<string>)

  /**
   * A failed request as Axios reports it: a response outside 2xx, a request
   * that got no response, or a failure while setting the request up.
   */
  datatype AxiosError =
    | Responded(status: int, data: Option<ResponseBody>)
    | NoResponse
    | SetupFailed(message: Option<string>)

  function BodyMessage(data: Option<ResponseBody>): Option<string> {
    if data.Some? then data.value.message else None
  }

  function BodyError(data: Option<ResponseBody>): Option<string> {
    if data.Some? then data.value.error else None
  }

  const SessionExpired := "Session expired or invalid. Please log in again."
  const Forbidden := "You do not have permission to perform this action."
  const NotFoundText := "The requested resource was not found."
  const ServerError := "A server error occurred. Please try again later."
  const NoResponseText := "No response from server. Please check your network connection."
  const SetupText := "Error setting up the request."

  /**
   * The message the error interceptor shows: 401 has a fixed text whatever
   * the body; 403, 404 and 5xx use the body's message or a fixed text; any
   * other status uses the body's message, else its error, else the status.
   */
  function ErrorMessage(e: AxiosError): (r: string)
    ensures r != []
    ensures e.Responded? && e.status == 401 ==> r == SessionExpired
    ensures e.Responded? && e.status == 403 ==> r == OrElse(BodyMessage(e.data), Forbidden)
    ensures e.Responded? && e.status == 404 ==> r == OrElse(BodyMessage(e.data), NotFoundText)
    ensures e.Responded? && e.status >= 500 ==> r == OrElse(BodyMessage(e.data), ServerError)
    ensures e.Responded? && e.status !in {401, 403, 404} && e.status < 500 ==>
      r == OrElse(Or(BodyMessage(e.data), BodyError(e.data)), "Request failed with status " + IntToString(e.status))
    ensures e.NoResponse? ==> r == NoResponseText
    ensures e.SetupFailed? ==> r == OrElse(e.message, SetupText)
  {
    match e
    case Responded(status, data) =>
      var general := OrElse(Or(BodyMessage(data), BodyError(data)), "Request failed with status " + IntToString(status));
      if status == 401 then SessionExpired
      else if status == 403 then OrElse(BodyMessage(data), Forbidden)
      else if status == 404 then OrElse(BodyMessage(data), NotFoundText)
      else if status >= 500 then OrElse(BodyMessage(data), ServerError)
      else general
    case NoResponse => NoResponseText
    case SetupFailed(message) => OrElse(message, SetupText)
  }

  /** The body's `error` field is read only for statuses without a dedicated branch. */
  lemma ErrorFieldIgnored(status: int, message: Option<string>, e1: Option<string>, e2: Option<string>)
    requires status in {401, 403, 404} || status >= 500
    ensures ErrorMessage(Responded(status, Some(ResponseBody(message, e1))))
         == ErrorMessage(Responded(status, Some(ResponseBody(message, e2))))
  {
  }

  /** A 401 shows the same message whatever the server sent. */
  lemma UnauthorizedIgnoresBody(d1: Option<ResponseBody>, d2: Option<ResponseBody>)
    ensures ErrorMessage(Responded(401, d1)) == ErrorMessage(Responded(401, d2)) == SessionExpired
  {
  }

  /** The outcome of the error interceptor: the error re-rejected with a toast, or storage throwing. */
  datatype Rejection = Rejected(error: AxiosError, toast: string) | StorageThrew

  /** A 401 response. */
  predicate IsUnauthorized(e: AxiosError) {
    e.Responded? && e.status == 401
  }

  /**
   * The error interceptor: every error is passed on to the caller, with no
   * retry, after a toast with `ErrorMessage`; only a 401 touches storage,
   * removing the token (if that removal throws, the interceptor throws).
   */
  method OnResponseError(storage: LocalStorage, e: AxiosError) returns (r: Rejection)
    modifies storage
    ensures !IsUnauthorized(e) ==> r == Rejected(e, ErrorMessage(e)) && storage.items == old(storage.items)
    ensures IsUnauthorized(e) && old(storage.accessible) ==>
      r == Rejected(e, SessionExpired) && storage.items == old(storage.items) - {AuthTokenKey}
    ensures IsUnauthorized(e) && !old(storage.accessible) ==> r == StorageThrew && storage.items == old(storage.items)
    ensures storage.accessible == old(storage.accessible)
  {
    if IsUnauthorized(e) {
      var ok := storage.RemoveItem(AuthTokenKey);
      if !ok {
        return StorageThrew;
      }
    }
    r := Rejected(e, ErrorMessage(e));
  }

  /**
   * The response interceptor pair: a 2xx response reaches the caller as it
   * came and touches nothing; a failure goes through `OnResponseError`.
   */
  method Respond<T>(storage: LocalStorage, outcome: Result<T, AxiosError>) returns (r: Result<T, Rejection>)
    modifies storage
    ensures outcome.Success? ==> r == Success(outcome.value) && storage.items == old(storage.items)
    ensures outcome.Failure? && !IsUnauthorized(outcome.error) ==>
      r == Failure(Rejected(outcome.error, ErrorMessage(outcome.error))) && storage.items == old(storage.items)
    ensures outcome.Failure? && IsUnauthorized(outcome.error) && old(storage.accessible) ==>
      r == Failure(Rejected(outcome.error, SessionExpired)) && storage.items == old(storage.items) - {AuthTokenKey}
    ensures outcome.Failure? && IsUnauthorized(outcome.error) && !old(storage.accessible) ==>
      r == Failure(StorageThrew) && storage.items == old(storage.items)
    ensures storage.accessible == old(storage.accessible)
  {
    match outcome {
      case Success(response) =>
        r := Success(response);
      case Failure(e) =>
        var rejection := OnResponseError(storage, e);
        r := Failure(rejection);
    }
  }

  /** After the error interceptor no token is stored only if there was none before or the status was 401. */
  lemma OnlyUnauthorizedLogsOut(before: map<string, string>, after: map<string, string>, e: AxiosError)
    requires !IsUnauthorized(e) ==> after == before
    requires IsUnauthorized(e) ==> after == before - {AuthTokenKey}
    ensures AuthTokenKey in before && AuthTokenKey !in after <==> AuthTokenKey in before && IsUnauthorized(e)
  {
  }
}
