/** The online.net REST client: how a request is addressed, which HTTP
    methods it accepts, how it authenticates, and which replies count as
    success.  The network itself is not modelled: a request is described by
    the `Call` it would send, and the server's answer is an input `Reply`. */
module Api {
  import opened Wrappers
  import opened Text

  const ApiBase: string := "https://api.online.net"

  datatype Method = Get | Post | Put | Patch | Delete

  /** The lower-case key under which the client looks a method up. */
  function MethodName(m: Method): string
  {
    match m
    case Get => "get"
    case Post => "post"
    case Put => "put"
    case Patch => "patch"
    case Delete => "delete"
  }

  /** The method table lookup after `method.lower()`; `None` is the
      `KeyError` any other name raises. */
  function ParseMethod(name: string): (r: Option<Method>)
    ensures r.Some? ==> MethodName(r.value) == Lower(name)
    ensures r.None? <==> Lower(name) !in {"get", "post", "put", "patch", "delete"}
  {
    var n := Lower(name);
    if n == "get" then Some(Get)
    else if n == "post" then Some(Post)
    else if n == "put" then Some(Put)
    else if n == "patch" then Some(Patch)
    else if n == "delete" then Some(Delete)
    else None
  }

  /** The method names are accepted in any letter case, e.g. "DELETE". */
  lemma ParseMethodName(m: Method)
    ensures ParseMethod(MethodName(m)) == Some(m)
    ensures ParseMethod(Upper(MethodName(m))) == Some(m)
  {
    LowerUpper(MethodName(m));
  }

  /** The request URL: the base with trailing slashes removed, one slash,
      then the handler with leading slashes removed. */
  function RequestUrl(handler: string): (r: string)
    ensures |r| > |ApiBase| && r[..|ApiBase|] == ApiBase && r[|ApiBase|] == '/'
    ensures |r| > |ApiBase| + 1 ==> r[|ApiBase| + 1] != '/'
    ensures |r| - |ApiBase| - 1 <= |handler|
    ensures r[|ApiBase| + 1..] == handler[|handler| - (|r| - |ApiBase| - 1)..]
    ensures forall i :: 0 <= i < |handler| - (|r| - |ApiBase| - 1) ==> handler[i] == '/'
  {
    BaseKeepsItsEnd();
    RStrip(ApiBase, {'/'}) + "/" + LStrip(handler, {'/'})
  }

  lemma BaseKeepsItsEnd()
    ensures RStrip(ApiBase, {'/'}) == ApiBase
  {
    assert ApiBase[|ApiBase| - 1] == 't';
  }

  /** Leading slashes on a handler do not change the URL. */
  lemma RequestUrlIgnoresLeadingSlash(handler: string)
    ensures RequestUrl("/" + handler) == RequestUrl(handler)
  {
    assert ("/" + handler)[1..] == handler;
  }

  /** A handler written without a leading slash is appended as is. */
  lemma RequestUrlPlain(handler: string)
    requires handler == [] || handler[0] != '/'
    ensures RequestUrl(handler) == ApiBase + "/" + handler
  {
    BaseKeepsItsEnd();
    assert LStrip(handler, {'/'}) == handler;
  }

  /** `requests` succeeded: a 2xx status code. */
  predicate IsSuccess(status: int)
  {
    200 <= status <= 299
  }

  /** What the server answered: a status code and a decoded body. */
  datatype Reply<T> = Reply(status: int, body: T)

  /** What `request` hands back to its caller: the decoded body, the
      `OnlineApiError` carrying the reply's status, or the `KeyError` of an
      unknown method name. */
  datatype Outcome<T> = Ok(value: T) | ApiError(status: int) | NoSuchMethod(name: string)

  /** The status check after the call. */
  function Classify<T>(reply: Reply<T>): (r: Outcome<T>)
    ensures r.Ok? <==> IsSuccess(reply.status)
    ensures r.Ok? ==> r.value == reply.body
    ensures r.ApiError? ==> r.status == reply.status
    ensures !r.NoSuchMethod?
  {
    if IsSuccess(reply.status) then Ok(reply.body) else ApiError(reply.status)
  }

  /** `{"Authorization": "Bearer " + api_key}` */
  function AuthHeader(apiKey: string): (r: map<string, string>)
    ensures r.Keys == {"Authorization"}
    ensures "Bearer " <= r["Authorization"]
  {
    map["Authorization" := "Bearer " + apiKey]
  }

  /** The API key a server reads out of the header. */
  function BearerKey(header: map<string, string>): Option<string>
  {
    if "Authorization" in header && "Bearer " <= header["Authorization"]
    then Some(header["Authorization"][7..])
    else None
  }

  /** The header carries exactly the configured key. */
  lemma AuthHeaderCarriesKey(apiKey: string)
    ensures BearerKey(AuthHeader(apiKey)) == Some(apiKey)
  {
    assert ("Bearer " + apiKey)[7..] == apiKey;
  }

  /** The HTTP request `request` sends. */
  datatype Call = Call(verb: Method, url: string, headers: map<string, string>)

  /** `request(handler, method)`: the call it sends (none when the method
      name is unknown) and what it returns given the server's reply. */
  function Request<T>(apiKey: string, methodName: string, handler: string, reply: Reply<T>)
    : (r: (Option<Call>, Outcome<T>))
    ensures r.0.None? <==> ParseMethod(methodName).None?
    ensures r.0.None? ==> r.1 == NoSuchMethod(methodName)
    ensures r.0.Some? ==> (&& r.0.value.verb == ParseMethod(methodName).value
                           && r.0.value.url == RequestUrl(handler)
                           && BearerKey(r.0.value.headers) == Some(apiKey)
                           && r.1 == Classify(reply))
  {
    match ParseMethod(methodName)
    case None => (None, NoSuchMethod(methodName))
    case Some(m) =>
      AuthHeaderCarriesKey(apiKey);
      (Some(Call(m, RequestUrl(handler), AuthHeader(apiKey))), Classify(reply))
  }

  /** `auth_valid`: the body of `GET api/v1/user`, or `False` (here `None`)
      when that request raised `OnlineApiError`. */
  function AuthValid<T>(apiKey: string, reply: Reply<T>): (r: Option<T>)
    ensures r.None? <==> Classify(reply).ApiError?
    ensures r.Some? ==> Classify(reply) == Ok(r.value)
  {
    match Request(apiKey, "GET", "api/v1/user", reply).1
    case Ok(body) => Some(body)
    case _ => None
  }
}
