/** helpers/requesthelpers.js: building HTTPS GET and POST requests. The socket, TLS and
    stream machinery is replaced by a `Network` object that records every request it is
    handed and answers it with a `(statusCode, body)` pair from a server oracle. */
module RequestHelpers {
  import opened Platform

  const Authorization := "Authorization"

  /** The options object handed to `https.request`. */
  datatype Options = Options(
    host: Option<string>,
    port: int,
    path: Option<string>,
    httpMethod: string,
    headers: map<string, string>,
    rejectUnauthorized: bool)

  /** One thing written to the request stream before it is ended. */
  datatype Write =
    | JsonText(text: string)             // `request.write(JSON.stringify(body))`
    | FormFile(field: string, file: Path) // `form.pipe(request)` for a form holding one file

  /** A request as issued: its options and, in order, what was written into it. */
  datatype Request = Request(options: Options, payload: seq<Write>)

  /** The status code and the whole (decoded) body of a response. */
  datatype Response = Response(statusCode: int, data: string)

  /** The `config` argument of `get` and `post`. */
  datatype Config<J> = Config(fileName: Option<Path>, authorization: Option<string>, body: Option<J>)

  /** The requests issued and the value, or thrown error, of one operation. */
  datatype Run<T> = Run(sent: seq<Request>, outcome: Result<T>)

  /** The HTTPS transport: every request sent is appended to `sent`, and the answer is
      whatever `server` gives for it. */
  class Network {
    var sent: seq<Request>
    const server: Request -> Response

    constructor (server: Request -> Response)
      ensures sent == [] && this.server == server
    {
      this.sent := [];
      this.server := server;
    }

    method Send(req: Request) returns (resp: Response)
      modifies this
      ensures sent == old(sent) + [req]
      ensures resp == server(req)
    {
      sent := sent + [req];
      resp := server(req);
    }
  }

  /** `_createOptions`. The port expression `url.port || url.protocol === 'https:' ? 443 : 80`
      groups as `(url.port || url.protocol === 'https:') ? 443 : 80`, so an explicit port
      selects 443 and its value is never used. The body argument is ignored. */
  function CreateOptions<J>(urlString: string, httpMethod: string, headers: map<string, string>,
                            body: Option<J>, rt: Runtime<J>): (o: Options)
    ensures o.port == 443 <==> Truthy(rt.parseUrl(urlString).port) || rt.parseUrl(urlString).protocol == Some("https:")
    ensures o.port == 443 || o.port == 80
    ensures o.host == rt.parseUrl(urlString).host && o.path == rt.parseUrl(urlString).path
    ensures o.httpMethod == httpMethod && o.headers == headers && !o.rejectUnauthorized
  {
    var url := rt.parseUrl(urlString);
    var port := if Truthy(url.port) || url.protocol == Some("https:") then 443 else 80;
    Options(url.host, port, url.path, httpMethod, headers, false)
  }

  /** `headers.Authorization = config.authorization` when the authorization is truthy. */
  function WithAuthorization<J>(headers: map<string, string>, config: Config<J>): map<string, string> {
    if Truthy(config.authorization) then headers[Authorization := config.authorization.value] else headers
  }

  /** The request `get(url, config)` issues. */
  function GetRequest<J>(url: string, config: Config<J>, rt: Runtime<J>): Request {
    Request(CreateOptions(url, "GET", WithAuthorization(map[], config), None, rt), [])
  }

  /** The headers `post` starts from: the form's headers when a file is sent, none otherwise. */
  function PostBaseHeaders<J>(config: Config<J>, rt: Runtime<J>): map<string, string> {
    if config.fileName.Some? then rt.formHeaders(config.fileName.value) else map[]
  }

  /** What `post` writes into the request before ending it. */
  function PostPayload<J>(config: Config<J>, rt: Runtime<J>): seq<Write> {
    (if config.body.Some? then [JsonText(rt.stringify(config.body.value))] else [])
    + (if config.fileName.Some? then [FormFile("file", config.fileName.value)] else [])
  }

  /** The request `post(url, config)` issues. */
  function PostRequest<J>(url: string, config: Config<J>, rt: Runtime<J>): Request {
    Request(CreateOptions(url, "POST", WithAuthorization(PostBaseHeaders(config, rt), config), config.body, rt),
            PostPayload(config, rt))
  }

  /** `RequestHelpers.get`: one GET, with an `Authorization` header only when one is configured. */
  method Get<J>(url: string, config: Config<J>, rt: Runtime<J>, net: Network) returns (resp: Response)
    modifies net
    ensures net.sent == old(net.sent) + [GetRequest(url, config, rt)]
    ensures resp == net.server(GetRequest(url, config, rt))
  {
    var headers: map<string, string> := map[];
    if Truthy(config.authorization) {
      headers := headers[Authorization := config.authorization.value];
    }
    var options := CreateOptions(url, "GET", headers, None, rt);
    resp := net.Send(Request(options, []));
  }

  /** `RequestHelpers.post`: one POST; the JSON body is written first, then the file form is
      piped in, or else the request is ended with nothing more. */
  method Post<J>(url: string, config: Config<J>, rt: Runtime<J>, net: Network) returns (resp: Response)
    modifies net
    ensures net.sent == old(net.sent) + [PostRequest(url, config, rt)]
    ensures resp == net.server(PostRequest(url, config, rt))
  {
    var headers: map<string, string> := map[];
    var form: Option<Path> := None;
    if config.fileName.Some? {
      form := Some(config.fileName.value);
      headers := rt.formHeaders(config.fileName.value);
    }
    if Truthy(config.authorization) {
      headers := headers[Authorization := config.authorization.value];
    }
    var options := CreateOptions(url, "POST", headers, config.body, rt);
    var payload: seq<Write> := [];
    if config.body.Some? {
      payload := payload + [JsonText(rt.stringify(config.body.value))];
    }
    if form.Some? {
      payload := payload + [FormFile("file", form.value)];
    }
    assert headers == WithAuthorization(PostBaseHeaders(config, rt), config);
    assert payload == PostPayload(config, rt);
    resp := net.Send(Request(options, payload));
  }

  /** `get` sends exactly the `Authorization` header, and only when the configured
      authorization is truthy; it writes nothing into the request. */
  lemma GetHeaders<J>(url: string, config: Config<J>, rt: Runtime<J>)
    ensures var o := GetRequest(url, config, rt).options;
      && o.httpMethod == "GET"
      && o.headers.Keys == (if Truthy(config.authorization) then {Authorization} else {})
      && (Truthy(config.authorization) ==> o.headers[Authorization] == config.authorization.value)
    ensures GetRequest(url, config, rt).payload == []
  {
  }

  /** `post` keeps every form header except `Authorization`, and sets `Authorization`
      exactly when the configured authorization is truthy. */
  lemma PostHeaders<J>(url: string, config: Config<J>, rt: Runtime<J>)
    ensures var o := PostRequest(url, config, rt).options;
      && o.httpMethod == "POST"
      && (forall k :: k != Authorization ==>
            (k in o.headers <==> k in PostBaseHeaders(config, rt))
            && (k in o.headers ==> o.headers[k] == PostBaseHeaders(config, rt)[k]))
      && (Truthy(config.authorization) ==> Authorization in o.headers && o.headers[Authorization] == config.authorization.value)
      && (!Truthy(config.authorization) ==> o.headers == PostBaseHeaders(config, rt))
    ensures config.fileName.None? ==> PostBaseHeaders(config, rt) == map[]
  {
  }

  /** The JSON body comes first and only when present; the form follows only when a file
      name was given; with neither, nothing is written. */
  lemma PostPayloadOrder<J>(config: Config<J>, rt: Runtime<J>)
    ensures var p := PostPayload(config, rt);
      && |p| == (if config.body.Some? then 1 else 0) + (if config.fileName.Some? then 1 else 0)
      && (config.body.Some? ==> p[0] == JsonText(rt.stringify(config.body.value)))
      && (config.fileName.Some? ==> p[|p| - 1] == FormFile("file", config.fileName.value))
      && (forall w :: w in p && w.FormFile? ==> config.fileName.Some? && w.file == config.fileName.value)
  {
  }

  /** The body argument of `_createOptions` has no effect on the options. */
  lemma CreateOptionsIgnoresBody<J>(url: string, httpMethod: string, headers: map<string, string>,
                                    b1: Option<J>, b2: Option<J>, rt: Runtime<J>)
    ensures CreateOptions(url, httpMethod, headers, b1, rt) == CreateOptions(url, httpMethod, headers, b2, rt)
  {
  }
}
