/** The interceptors of the shared HTTP client (src/utils/request.js). The
    request interceptor attaches the stored login token to the outgoing
    request; the response interceptors classify each reply by the backend's
    `{code, message, data}` envelope. */
module Request {
  import opened Js
  import opened WebStorage

  /** The request configuration object that the request interceptor receives
      and changes in place. Only its header map is touched here. */
  class RequestConfig {
    var url: string
    var verb: string
    var headers: map<string, string>

    constructor (url: string, verb: string, headers: map<string, string>)
      ensures this.url == url && this.verb == verb && this.headers == headers
    {
      this.url := url;
      this.verb := verb;
      this.headers := headers;
    }
  }

  const AuthorizationHeader: string := "Authorization"

  /** The request interceptor's fulfilment handler: when the stored token is
      truthy it becomes the `Authorization` header, verbatim (no `Bearer `
      prefix); otherwise the headers stay as they were. The same config object
      is always handed on. */
  method OnRequest(config: RequestConfig, store: Storage) returns (r: RequestConfig)
    modifies config
    ensures r == config
    ensures HasToken(store) ==> config.headers == old(config.headers)[AuthorizationHeader := store[AuthorizationKey]]
    ensures !HasToken(store) ==> config.headers == old(config.headers)
    ensures config.url == old(config.url) && config.verb == old(config.verb)
  {
    var token := GetItem(store, AuthorizationKey);
    if Truthy(token) {
      config.headers := config.headers[AuthorizationHeader := token.s];
    }
    return config;
  }

  /** The request interceptor's rejection handler: a failure while setting up
      the request is passed on unchanged. */
  function OnRequestError(error: JsValue): (r: Settlement)
    ensures r.Rejected? && r.reason == error
  {
    Rejected(error)
  }

  /** The response interceptor's fulfilment handler. `response.data.code`
      is compared with `0` strictly: only the number zero succeeds, and the
      promise then resolves with the whole envelope `response.data`, not with
      its `data` field. Any other code rejects with the same envelope. A body
      that is null or undefined makes `response.data.code` throw. */
  function OnResponse(response: JsValue): (r: Settlement)
    ensures IsNullish(response) ==> r == RejectedTypeError
    ensures !IsNullish(response) ==>
              var body := Get(response, "data").value;
              && (r == RejectedTypeError <==> IsNullish(body))
              && (r == Fulfilled(body) <==> !IsNullish(body) && Get(body, "code") == Normal(Num(0.0)))
              && (r == Rejected(body) <==> !IsNullish(body) && Get(body, "code") != Normal(Num(0.0)))
  {
    match Get(response, "data")
    case ThrowsTypeError => RejectedTypeError
    case Normal(body) =>
      match Get(body, "code")
      case ThrowsTypeError => RejectedTypeError
      case Normal(code) => if code == Num(0.0) then Fulfilled(body) else Rejected(body)
  }

  /** The message the response rejection handler reports for a failed
      request: `error.response?.data?.message || error.message`. */
  function ReportedMessage(error: JsValue): (c: Completion)
    ensures c.ThrowsTypeError? <==> IsNullish(error)
    ensures !IsNullish(error) ==> Truthy(c.value) || c == Get(error, "message")
  {
    match Get(error, "response")
    case ThrowsTypeError => ThrowsTypeError
    case Normal(resp) =>
      var serverMessage := OptionalGet(OptionalGet(resp, "data"), "message");
      if Truthy(serverMessage) then Normal(serverMessage)
      else Get(error, "message")
  }

  /** The response interceptor's rejection handler: the message is computed
      for the log (which is not modelled), then the promise rejects with the
      original error. */
  function OnResponseError(error: JsValue): (r: Settlement)
    ensures !IsNullish(error) ==> r == Rejected(error)
    ensures IsNullish(error) ==> r == RejectedTypeError
  {
    match ReportedMessage(error)
    case ThrowsTypeError => RejectedTypeError
    case Normal(_) => Rejected(error)
  }

  // ---------------------------------------------------------------------------
  // Properties

  /** A response carrying the body `body`, as axios builds it. */
  function ResponseWith(body: JsValue): JsValue {
    Obj(map["data" := body])
  }

  /** The backend's envelope `{code, message, data}`. */
  function Envelope(code: JsValue, message: JsValue, data: JsValue): JsValue {
    Obj(map["code" := code, "message" := message, "data" := data])
  }

  /** An envelope resolves exactly when its code is the number zero; it
      resolves with itself and otherwise rejects with itself. */
  lemma EnvelopeClassification(code: JsValue, message: JsValue, data: JsValue)
    ensures OnResponse(ResponseWith(Envelope(code, message, data))).Fulfilled? <==> code == Num(0.0)
    ensures code == Num(0.0) ==> OnResponse(ResponseWith(Envelope(code, message, data))) == Fulfilled(Envelope(code, message, data))
    ensures code != Num(0.0) ==> OnResponse(ResponseWith(Envelope(code, message, data))) == Rejected(Envelope(code, message, data))
  {
  }

  /** The interceptor never unwraps: whatever it settles with is the body itself. */
  lemma ResponseNeverUnwraps(body: JsValue)
    ensures IsNullish(body) <==> OnResponse(ResponseWith(body)) == RejectedTypeError
    ensures !IsNullish(body) ==> OnResponse(ResponseWith(body)) in {Fulfilled(body), Rejected(body)}
  {
  }

  /** Comparison is strict: the string `"0"`, `false` and a missing code all reject. */
  lemma LooseZerosReject(message: JsValue, data: JsValue)
    ensures OnResponse(ResponseWith(Envelope(Str("0"), message, data))).Rejected?
    ensures OnResponse(ResponseWith(Envelope(Bool(false), message, data))).Rejected?
    ensures OnResponse(ResponseWith(Obj(map["message" := message, "data" := data]))).Rejected?
  {
  }

  /** The reported message is the server's one when the error carries a
      truthy `response.data.message`, and `error.message` otherwise. */
  lemma ReportedMessagePreference(error: map<string, JsValue>)
    ensures var resp := if "response" in error then error["response"] else Undefined;
            var serverMessage := if resp.Obj? && "data" in resp.fields && resp.fields["data"].Obj?
                                    && "message" in resp.fields["data"].fields
                                 then resp.fields["data"].fields["message"] else Undefined;
            var ownMessage := if "message" in error then error["message"] else Undefined;
            ReportedMessage(Obj(error)) == Normal(if Truthy(serverMessage) then serverMessage else ownMessage)
  {
  }
}
