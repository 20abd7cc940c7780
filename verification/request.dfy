/** The shared request layer of the dashboard: one HTTP client whose request
    interceptor serialises the body of GET requests and whose response
    interceptor unwraps the `{ status, message, data }` envelope every
    backend answer uses, rejecting any status other than 1. The transport
    itself (axios, timeouts, headers) and `JSON.stringify` are parameters. */
module Request {
  import opened Wrappers

  /** The text shown and rejected with when the server or the transport
      gives no message. */
  const DefaultFailureText := "请求失败"

  /** A JSON value as a request body holds it; numbers are integers here. */
  datatype Json =
    | JNull
    | JBool(b: bool)
    | JNumber(n: int)
    | JString(s: string)
    | JArray(items: seq<Json>)
    | JObject(fields: seq<(string, Json)>)

  /** JavaScript truthiness of a body: null, false, 0 and "" are falsy;
      arrays and objects, even empty ones, are truthy. */
  predicate Truthy(j: Json) {
    match j
    case JNull => false
    case JBool(b) => b
    case JNumber(n) => n != 0
    case JString(s) => s != ""
    case _ => true
  }

  /** The part of a request configuration the interceptor looks at. An
      absent `data` (undefined) is None. */
  datatype Config = Config(httpMethod: string, url: string, data: Option<Json>)

  /** A GET request carrying a truthy body. */
  predicate IsGetWithData(c: Config) {
    c.httpMethod == "get" && c.data.Some? && Truthy(c.data.value)
  }

  /** The configuration the request interceptor hands on: a GET request with
      a body has the body replaced by its serialisation; every other
      configuration is handed on unchanged. */
  function SerialiseGetData(c: Config, stringify: Json -> string): (r: Config)
    ensures r.httpMethod == c.httpMethod && r.url == c.url
    ensures IsGetWithData(c) ==> r.data == Some(JString(stringify(c.data.value)))
    ensures !IsGetWithData(c) ==> r == c
  {
    if IsGetWithData(c) then c.(data := Some(JString(stringify(c.data.value)))) else c
  }

  /** The configuration object, which the interceptor updates in place. */
  class RequestConfig {
    var httpMethod: string
    var url: string
    var data: Option<Json>

    function Value(): Config
      reads this
    {
      Config(httpMethod, url, data)
    }

    constructor (c: Config)
      ensures Value() == c
    {
      httpMethod, url, data := c.httpMethod, c.url, c.data;
    }
  }

  /** The request interceptor: rewrites `config.data` of a GET request in
      place and returns the same object. */
  method InterceptRequest(config: RequestConfig, stringify: Json -> string) returns (r: RequestConfig)
    modifies config
    ensures r == config
    ensures config.Value() == SerialiseGetData(old(config.Value()), stringify)
  {
    if config.httpMethod == "get" && config.data.Some? && Truthy(config.data.value) {
      config.data := Some(JString(stringify(config.data.value)));
    }
    return config;
  }

  /** The body of every backend answer. An absent `message` is None. */
  datatype Envelope<T> = Envelope(status: int, message: Option<string>, data: T)

  /** The error the transport raises (network failure, non-2xx status,
      timeout); only its message is read. */
  datatype HttpError = HttpError(message: Option<string>)

  /** Why a request promise is rejected: an envelope whose status is not 1
      (an `Error` carrying the message), or the transport error itself. */
  datatype Rejection = StatusRejected(message: string) | TransportRejected(error: HttpError)

  /** What an interceptor yields: the promise outcome, and the error toast
      it shows, if any. */
  datatype Handled<T> = Handled(result: Result<T, Rejection>, toast: Option<string>)

  /** What the transport delivers for a request. */
  datatype Transport<T> = Delivered(envelope: Envelope<T>) | Failed(error: HttpError)

  /** The response interceptor's success handler. */
  function OnResponse<T>(env: Envelope<T>): (r: Handled<T>)
    ensures r.result.Success? <==> env.status == 1
    ensures r.result.Success? ==> r.result.value == env.data && r.toast.None?
    ensures r.result.Failure? ==>
              r.result.error == StatusRejected(MessageOr(env.message, DefaultFailureText))
              && r.toast == Some(r.result.error.message)
              && r.result.error.message != ""
  {
    if env.status != 1 then
      var text := MessageOr(env.message, DefaultFailureText);
      Handled(Failure(StatusRejected(text)), Some(text))
    else
      Handled(Success(env.data), None)
  }

  /** The response interceptor's error handler: the error is passed on
      unchanged and its message, or the default, is shown. */
  function OnResponseError<T>(e: HttpError): (r: Handled<T>)
    ensures r.result == Failure(TransportRejected(e))
    ensures r.toast.Some? && r.toast.value != ""
    ensures e.message.Some? && e.message.value != "" ==> r.toast == e.message
    ensures e.message.None? || e.message.value == "" ==> r.toast == Some(DefaultFailureText)
  {
    Handled(Failure(TransportRejected(e)), Some(MessageOr(e.message, DefaultFailureText)))
  }

  /** One call of the configured client: interceptor, transport, then the
      matching response handler. Exactly the rejected calls show a toast. */
  function Service<T>(config: Config, stringify: Json -> string, send: Config -> Transport<T>): (r: Handled<T>)
    ensures r.result.Failure? <==> r.toast.Some?
    ensures r.toast.Some? ==> r.toast.value != ""
    ensures r.result.Failure? && r.result.error.StatusRejected? ==> r.toast == Some(r.result.error.message)
  {
    match send(SerialiseGetData(config, stringify))
    case Delivered(env) => OnResponse(env)
    case Failed(e) => OnResponseError(e)
  }

  /** `request(config)`: resolves with the envelope's `data` exactly when the
      transport delivered an envelope with status 1, and otherwise rejects
      with the reason the client rejected with. */
  function Request<T>(config: Config, stringify: Json -> string, send: Config -> Transport<T>): (r: Result<T, Rejection>)
    ensures var answer := send(SerialiseGetData(config, stringify));
            && (r.Success? <==> answer.Delivered? && answer.envelope.status == 1)
            && (r.Success? ==> r.value == answer.envelope.data)
            && (answer.Failed? ==> r == Failure(TransportRejected(answer.error)))
            && (answer.Delivered? && answer.envelope.status != 1 ==>
                  r == Failure(StatusRejected(MessageOr(answer.envelope.message, DefaultFailureText))))
  {
    Service(config, stringify, send).result
  }
}
