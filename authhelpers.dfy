/** helpers/authhelpers.js: obtaining the authorization token, either by signing it locally
    with the access key or by fetching it from the token URL. */
module AuthHelpers {
  import opened Platform
  import opened RequestHelpers

  const Hs256 := "HS256"
  const TokenUrlInvalid := "Token URL is invalid."

  /** The error message for a token endpoint that rejected the request (status 4xx). */
  function RejectedMessage(message: string): string {
    "Fetching token from url error: \"" + message + "\""
  }

  /** The status handling of `_getTokenFromTokenUrl`: 4xx fails with the body's message,
      5xx fails with a fixed message, anything below 400 is the token itself. The three
      outcomes are disjoint and cover every status code. A 4xx body that does not parse, or
      parses to `null`, fails with the error that parsing or reading `message` throws. */
  function TokenFromResponse<J>(resp: Response, rt: Runtime<J>): (r: Result<string>)
    ensures r.Ok? <==> resp.statusCode < 400
    ensures r.Ok? ==> r.value == resp.data
    ensures resp.statusCode >= 500 ==> r == Err(TokenUrlInvalid)
    ensures 400 <= resp.statusCode < 500 ==>
      match rt.parseJson(resp.data)
      case Err(e) => r == Err(e)
      case Ok(body) =>
        match rt.messageOf(body)
        case Err(e) => r == Err(e)
        case Ok(m) => r == Err(RejectedMessage(TemplateText(m))) && r.error != TokenUrlInvalid
  {
    if 400 <= resp.statusCode < 500 then
      match rt.parseJson(resp.data)
      case Err(e) => Err(e)
      case Ok(response) =>
        match rt.messageOf(response)
        case Err(e) => Err(e)
        case Ok(message) =>
          var m := RejectedMessage(TemplateText(message));
          assert m[0] != TokenUrlInvalid[0];
          Err(m)
    else if resp.statusCode >= 500 then
      Err(TokenUrlInvalid)
    else
      Ok(resp.data)
  }

  /** The configuration `_getTokenFromTokenUrl` passes to `get`: empty. */
  function NoConfig<J>(): Config<J> {
    Config(None, None, None)
  }

  /** What `createToken` does: with a truthy access key, signs `{ iss: environmentId }`
      with HS256 and sends nothing; otherwise issues one GET to the token URL. */
  function TokenRun<J>(environmentId: Option<string>, accessKey: Option<string>, tokenUrl: Option<string>,
                       rt: Runtime<J>, server: Request -> Response): Run<string>
    requires Truthy(accessKey) || tokenUrl.Some?
  {
    if Truthy(accessKey) then
      Run([], Ok(rt.sign(Claims(environmentId), accessKey.value, Hs256)))
    else
      var req := GetRequest(tokenUrl.value, NoConfig(), rt);
      Run([req], TokenFromResponse(server(req), rt))
  }

  /** `AuthHelpers._getTokenFromTokenUrl`. */
  method GetTokenFromTokenUrl<J>(tokenUrl: string, rt: Runtime<J>, net: Network) returns (r: Result<string>)
    modifies net
    ensures net.sent == old(net.sent) + [GetRequest(tokenUrl, NoConfig(), rt)]
    ensures r == TokenFromResponse(net.server(GetRequest(tokenUrl, NoConfig(), rt)), rt)
  {
    var resp := Get(tokenUrl, NoConfig(), rt, net);
    if 400 <= resp.statusCode < 500 {
      var parsed := rt.parseJson(resp.data);
      if parsed.Err? {
        return Err(parsed.error);
      }
      var message := rt.messageOf(parsed.value);
      if message.Err? {
        return Err(message.error);
      }
      return Err(RejectedMessage(TemplateText(message.value)));
    }
    if resp.statusCode >= 500 {
      return Err(TokenUrlInvalid);
    }
    return Ok(resp.data);
  }

  /** `AuthHelpers.createToken`. Its caller has checked that a token URL is given whenever
      the access key is not. */
  method CreateToken<J>(environmentId: Option<string>, accessKey: Option<string>, tokenUrl: Option<string>,
                        rt: Runtime<J>, net: Network) returns (r: Result<string>)
    requires Truthy(accessKey) || tokenUrl.Some?
    modifies net
    ensures net.sent == old(net.sent) + TokenRun(environmentId, accessKey, tokenUrl, rt, net.server).sent
    ensures r == TokenRun(environmentId, accessKey, tokenUrl, rt, net.server).outcome
  {
    if Truthy(accessKey) {
      return Ok(rt.sign(Claims(environmentId), accessKey.value, Hs256));
    }
    r := GetTokenFromTokenUrl(tokenUrl.value, rt, net);
  }

  /** A truthy access key wins even over a given token URL: the token is the HS256 signature
      of `{ iss: environmentId }` and no request is made. */
  lemma KeySignsLocally<J>(environmentId: Option<string>, accessKey: Option<string>, tokenUrl: Option<string>,
                           rt: Runtime<J>, server: Request -> Response)
    requires Truthy(accessKey)
    ensures TokenRun(environmentId, accessKey, tokenUrl, rt, server).sent == []
    ensures TokenRun(environmentId, accessKey, tokenUrl, rt, server).outcome
         == Ok(rt.sign(Claims(environmentId), accessKey.value, Hs256))
  {
  }

  /** Without an access key exactly one GET goes to the token URL, with no Authorization
      header and no payload, and its response alone decides the outcome. */
  lemma TokenUrlFetchesOnce<J>(environmentId: Option<string>, accessKey: Option<string>, tokenUrl: Option<string>,
                               rt: Runtime<J>, server: Request -> Response)
    requires !Truthy(accessKey) && tokenUrl.Some?
    ensures var run := TokenRun(environmentId, accessKey, tokenUrl, rt, server);
      && |run.sent| == 1
      && run.sent[0].options.httpMethod == "GET"
      && Authorization !in run.sent[0].options.headers
      && run.sent[0].payload == []
      && run.outcome == TokenFromResponse(server(run.sent[0]), rt)
  {
    GetHeaders(tokenUrl.value, NoConfig<J>(), rt);
  }
}
