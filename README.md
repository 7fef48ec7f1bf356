# easy-image uploader: a Dafny model of the `upload` command

This project models the core of a command-line tool that uploads images to the easy-image
service. The core has three parts:

- **`UploadCommand`** (`commands/upload.js`). Its constructor checks the configuration:
  the path exists, an upload URL is given, there is a token URL or an access key, and there
  is an environment when only a key is given. `execute` then does four things, in order:
  - obtains one token;
  - lists the files (the path itself, or a recursive scan that skips hidden entries);
  - keeps only the allowed image formats;
  - uploads the files one after another, and builds a map from each path to the parsed
    response.

  The first upload that is answered with status 400 or above throws, and so does one whose
  body does not parse as JSON, whatever its status. Either ends the run.
- **`AuthHelpers`** (`helpers/authhelpers.js`). The token is either signed locally with
  HS256 from the access key, or fetched from the token URL with one GET. That GET fails on
  4xx, with the body's message, or on 5xx, with a fixed message.
- **`RequestHelpers`** (`helpers/requesthelpers.js`). It builds the request options and the
  headers of GET and POST requests, and decides what a POST writes into its request.

Modules follow the files. `Platform` holds the JavaScript values the tool relies on:
- `Option` and `Result`;
- the truthiness of optional strings;
- how `undefined` reads in a template literal and in `new Error(...)`;
- paths as sequences of segments.

It also holds a `Runtime` record that passes the foreign library calls in as functions:
`URL.parse`, `jwt.sign`, `JSON.parse`, `JSON.stringify`, `FormData.getHeaders` and reading
`message`.

The HTTPS transport is a `Network` object. It records every request sent to it and answers
each one from a server function. Each imperative method (`Get`, `Post`, `CreateToken`,
`Upload`, `UploadFiles`, `Execute`) is proved against a functional specification. The
specifications are `GetRequest`, `PostRequest`, `TokenRun`, `UploadRun` and `ExecuteRun`.
Each one fixes exactly which requests are sent, in which order, and what is returned or
thrown. Lemmas then prove what those specifications promise.

The model follows `commands/upload.js` where the command-line entry point expects more.
`index.js:25-30` reads an `errors` list from the value `execute` returns and prints each
entry. `execute` returns only the result object and has no such list. A failed upload is
not recorded and skipped: it aborts the whole run.

`_createOptions` computes the port as `url.port || url.protocol === 'https:' ? 443 : 80`.
That expression groups as `(url.port || https) ? 443 : 80`, so an explicit port in the URL
selects 443 and its own value is never used. It is modelled as written.

## Model

| member | source | states |
|---|---|---|
| Platform.Truthy | helpers/requesthelpers.js:27 | Defines the truthiness of an optional string as the source's `if` tests use it: `undefined` and `""` are false, and every other string is true. |
| Platform.TemplateText | helpers/authhelpers.js:42 | Defines how `${ x }` renders an optional string: `undefined` gives the text "undefined". |
| Platform.ErrorMessage | commands/upload.js:142 | Defines the `message` of `new Error(x)`: an undefined argument gives the empty message. |
| RequestHelpers.CreateOptions | helpers/requesthelpers.js:104-115 | The port is 443 exactly when the URL has a truthy port or the protocol is `https:`, and 80 otherwise. Host and path come from the parsed URL. Method and headers pass through unchanged. Certificate checking is off. |
| RequestHelpers.CreateOptionsIgnoresBody | helpers/requesthelpers.js:104-115 | The body argument has no effect on the options. |
| RequestHelpers.Network.Send | helpers/requesthelpers.js:33-43 | Stands for `https.request(...).end()`: the request is appended to the log, and the answer is the server's. |
| RequestHelpers.WithAuthorization | helpers/requesthelpers.js:27-29 | Defines `headers.Authorization = config.authorization` under a truthiness test, shared by `get` and `post` (lines 65-67). GetHeaders and PostHeaders state its effect. |
| RequestHelpers.PostBaseHeaders | helpers/requesthelpers.js:57-63 | Defines the headers `post` starts from: the form's headers when a file name is given, none otherwise. PostHeaders states it. |
| RequestHelpers.PostPayload | helpers/requesthelpers.js:82-90 | Defines what `post` writes: the JSON text of the body, then the form. PostPayloadOrder states it. |
| RequestHelpers.GetRequest | helpers/requesthelpers.js:24-31 | Defines the request `get` issues. GetHeaders states its method, headers and empty payload. |
| RequestHelpers.PostRequest | helpers/requesthelpers.js:56-90 | Defines the request `post` issues. PostHeaders and PostPayloadOrder state its headers and writes. |
| RequestHelpers.Get | helpers/requesthelpers.js:24-44 | Sends exactly one request, the `GetRequest` of the URL and config, and returns the server's answer to it. |
| RequestHelpers.GetHeaders | helpers/requesthelpers.js:24-31 | A GET carries the `Authorization` header exactly when the configured authorization is truthy, and no other header. It writes nothing. |
| RequestHelpers.Post | helpers/requesthelpers.js:56-92 | Sends exactly one request, the `PostRequest` of the URL and config, with its headers and payload built step by step. Returns the server's answer. |
| RequestHelpers.PostHeaders | helpers/requesthelpers.js:56-69 | A POST keeps every form header except `Authorization`. It sets `Authorization` exactly when the authorization is truthy. Without a file it starts from no headers. |
| RequestHelpers.PostPayloadOrder | helpers/requesthelpers.js:82-90 | The JSON body is written first, and only when it is present. The form with the file is piped last, and only when a file name is given. Otherwise nothing is written. |
| AuthHelpers.TokenFromResponse | helpers/authhelpers.js:39-49 | Succeeds exactly when the status is below 400, with the body as the token. 5xx fails with "Token URL is invalid.". 4xx fails with the JSON parse error, or with the error that reading `message` of a `null` body throws, or else with the quoted `message`, never with the 5xx message. |
| AuthHelpers.RejectedMessage | helpers/authhelpers.js:42 | Defines the text of the 4xx error, the message in quotes after "Fetching token from url error: ". TokenFromResponse states that it differs from the 5xx message. |
| AuthHelpers.NoConfig | helpers/authhelpers.js:37 | Defines the empty config `{}` that `_getTokenFromTokenUrl` passes to `get`. TokenUrlFetchesOnce states that the GET then carries no `Authorization` header and no payload. |
| AuthHelpers.TokenRun | helpers/authhelpers.js:21-27 | Defines `createToken`'s requests and outcome. It is characterised by KeySignsLocally and TokenUrlFetchesOnce. CreateToken is proved against it. |
| AuthHelpers.GetTokenFromTokenUrl | helpers/authhelpers.js:36-50 | Sends one GET to the token URL with an empty config. Its result is `TokenFromResponse` of the answer. |
| AuthHelpers.CreateToken | helpers/authhelpers.js:21-27 | Sends exactly `TokenRun`'s requests and returns its outcome. |
| AuthHelpers.KeySignsLocally | helpers/authhelpers.js:22-24 | With a truthy access key, even when a token URL is also given, nothing is sent. The token is the HS256 signature of `{ iss: environmentId }` with that key. |
| AuthHelpers.TokenUrlFetchesOnce | helpers/authhelpers.js:26-37 | Without a key, exactly one GET is sent, with no `Authorization` header and no payload. Its answer alone decides the token. |
| Upload.Basename | commands/upload.js:187 | Defines the base name `Path.parse` takes: the last segment of the path. It is used by ImageFormatIff. |
| Upload.LowerChar | commands/upload.js:189 | Defines `toLowerCase` on one character: ASCII capitals map to lower case, and everything else is kept. |
| Upload.ToLowerCase | commands/upload.js:189 | Defines `toLowerCase` character by character with LowerChar. FormatHasNoDot and StripLoweredExtension state what the image check relies on. |
| Upload.ExtName | commands/upload.js:187 | Defines `Path.parse(...).ext` of a base name: from the last dot to the end, empty when there is no dot, when the last dot is the first character, or for `..`. It is characterised by ImageFormatIff. |
| Upload.ReplaceFirstDot | commands/upload.js:189 | Defines `replace('.', '')`, which removes the first dot only. StripLoweredExtension states its effect on an extension. |
| Upload.ValidateImageFormat | commands/upload.js:186-190 | Defines `_validateImageFormat`. ImageFormatIff characterises it independently of `ExtName` and `ReplaceFirstDot`. |
| Upload.LastDot | commands/upload.js:187-189 | Finds the position of the last dot of the base name: a dot with none after it, or none when there is no dot. |
| Upload.FormatHasNoDot | commands/upload.js:15 | Nothing whose lowercase form is an allowed format is empty or contains a dot. |
| Upload.StripLoweredExtension | commands/upload.js:189 | Lowercasing an extension keeps its leading dot. The first-dot `replace` then removes exactly that dot. |
| Upload.ImageFormatIff | commands/upload.js:186-190 | A path is accepted exactly when its base name has a dot other than its first character, and the text after that dot, lowercased, is one of the seven allowed formats. |
| Upload.ImageExtensionDot | commands/upload.js:186-190 | An accepted path's base name has such a dot (the "only if" half). |
| Upload.ImageExtensionAccepted | commands/upload.js:186-190 | Such a dot makes the path accepted (the "if" half). |
| Upload.NoExtensionRejected | commands/upload.js:186-190 | A base name without a dot is rejected. |
| Upload.DotfileRejected | commands/upload.js:186-190 | A base name whose only dot is its first character (`.png`) is rejected. |
| Upload.OnlyLastExtensionCounts | commands/upload.js:186-190 | When the text after the last dot is not an allowed format (`a.png.txt`), the path is rejected. |
| Upload.UpperCaseAccepted | commands/upload.js:189 | Case is ignored: `A.PNG` is accepted. |
| Upload.Hidden | commands/upload.js:163 | Defines `file.startsWith('.')`. WalkSkipsHidden and ReachesVisible state that no hidden name is returned or descended into. |
| Upload.Walk | commands/upload.js:159-177 | Defines the files the scan appends for a listing, in listing order. It is characterised by WalkIff and WalkSkipsHidden. ScanDirectory is proved against it. |
| Upload.Visit | commands/upload.js:162-173 | Defines what one entry adds: nothing if it is hidden, its own path if it is not a directory, and the directory's scan otherwise. It is characterised by VisitIff. |
| Upload.WalkIff | commands/upload.js:159-177 | The scan returns exactly the paths below the directory that lead, through non-hidden names, to a non-directory entry. |
| Upload.VisitIff | commands/upload.js:162-173 | The same characterisation for one entry of a listing. |
| Upload.ReachesVisible | commands/upload.js:163-165 | A path reached through the listing is non-empty and none of its names is hidden. |
| Upload.WalkSkipsHidden | commands/upload.js:163-165 | Every scanned path lies strictly below the directory, and no name below the directory is hidden, at any depth. |
| Upload.ScanDirectory | commands/upload.js:159-177 | The loop appends the scan of the listing to the list it was given, in listing order, with each directory's files in place of the directory. |
| Upload.FilterImages | commands/upload.js:104-106 | Keeps exactly the listed paths that pass the image check, and never lengthens the list. |
| Upload.FilterImagesAppend | commands/upload.js:104-106 | Filtering keeps the order of the list. |
| Upload.CollectFiles | commands/upload.js:94-106 | Defines the list `execute` uploads: the path itself for a file, the scan for a directory, nothing for anything else, and then only the images. It is characterised by CollectedFiles. ListFiles is proved against it. |
| Upload.CollectedFiles | commands/upload.js:94-106 | A regular file gives itself if it is an image, and nothing otherwise. A directory gives exactly its reachable visible files that are images. Anything else gives nothing. |
| Upload.UploadRequest | commands/upload.js:138 | Defines the request of `post(uploadUrl, { fileName: filePath, authorization: token })`. UploadRequestHeaders states its headers and payload. |
| Upload.UploadRequestHeaders | commands/upload.js:138 | An upload is a POST that writes only the file form. Its headers are the form's headers, plus `Authorization` holding the token exactly when the token is non-empty. |
| Upload.UploadOne | commands/upload.js:137-146 | Defines one `_upload` call: the server's answer to the file's UploadRequest, classified by UploadOutcome. The UploadRun and Execute lemmas are stated in terms of it. |
| Upload.UploadOutcome | commands/upload.js:137-146 | Succeeds only with status below 400, and then with the parsed body. A body that does not parse throws exactly the parse error, whatever the status. Status 400 and above with a parsed body throws the body's `message`, or the error that reading `message` of `null` throws. |
| Upload.UploadRun | commands/upload.js:114-117 | Defines the upload loop: one POST per file in order, the result filled by path, the first failure final. It is characterised by UploadRunSent, UploadRunOkIff, UploadRunResult and UploadRunFirstFailure. UploadFiles is proved against it. |
| Upload.UploadRunStopsAtFailure | commands/upload.js:114-117 | Once a prefix of the list fails, the rest of the list is neither uploaded nor changes the outcome. |
| Upload.UploadRunSent | commands/upload.js:114-117 | The requests sent upload a prefix of the list, in order, each with the one token as `config.authorization` (a header only when it is non-empty). All files are sent when the run succeeds. At least one is sent when it fails. |
| Upload.UploadRunOkIff | commands/upload.js:114-117 | The loop succeeds exactly when every file's upload succeeds. |
| Upload.UploadRunResult | commands/upload.js:108-117 | A successful loop maps exactly the listed files, each to the parsed response to its own upload. |
| Upload.UploadRunFirstFailure | commands/upload.js:114-117 | If file `k` is the first to fail, the run ends with that file's error after exactly `k + 1` requests. |
| Upload.UploadsAfter | commands/upload.js:114-117 | After the earlier requests, each request posts the next position of the list, with the token as `config.authorization` (a header only when it is non-empty). No list position is posted twice, and nothing beyond the list. |
| Upload.ConfigError | commands/upload.js:69-83 | A missing path reports "Path doesn't exist.". The checks pass exactly when the path exists, the upload URL is truthy, and there is a truthy token URL or both a key and an environment. |
| Upload.ConfigChecksInOrder | commands/upload.js:69-83 | The checks run in source order, and the first unmet requirement decides the message. |
| Upload.ExecuteRun | commands/upload.js:91-126 | Defines `execute` for a command that passed its checks: the token, then the uploads of the collected files. It is characterised by ExecuteTokenFirst, ExecuteOkIff and ExecuteResult. Execute is proved against it. |
| Upload.ExecuteTokenFirst | commands/upload.js:91-117 | Without a key, the first request is the GET to the token URL; with one, no token request is made. A failed token ends the run before any upload. Otherwise the uploads follow the token request. |
| Upload.ExecuteOkIff | commands/upload.js:91-126 | `execute` returns a result exactly when the token is obtained and every collected file's upload succeeds. |
| Upload.ExecuteResult | commands/upload.js:108-125 | A successful `execute` maps exactly the collected files, each to the parsed response to its upload, made with the one token as `config.authorization` (a header only when it is non-empty). |
| Upload.UploadCommand.constructor | commands/upload.js:30-67 | The fields are the corresponding members of `cmd`. |
| Upload.UploadCommand.Create | commands/upload.js:30-84 | Construction throws exactly when `ConfigError` reports an error, and with its message. Otherwise it yields a new command holding `cmd` that passed the checks. |
| Upload.UploadCommand.Upload | commands/upload.js:137-146 | Sends exactly the file's POST, with the token as `config.authorization` (a header only when it is non-empty), and returns `UploadOutcome` of the answer. |
| Upload.UploadCommand.ListFiles | commands/upload.js:94-106 | Returns `CollectFiles` of the path and what `lstat` reports. |
| Upload.UploadCommand.UploadFiles | commands/upload.js:108-117 | Sends exactly `UploadRun`'s requests and returns its outcome. |
| Upload.UploadCommand.Execute | commands/upload.js:91-126 | Sends exactly `ExecuteRun`'s requests (token, then uploads) and returns or throws its outcome. |

## Left out

- The command-line entry point (`index.js`) and the progress bar are not modelled: they only print.
- Writing the result to the `output` file (`_saveToJSONFile`) is not modelled. It is I/O after the result is fixed.
- File-system calls are parameters. `existsSync` is a boolean. `lstatSync` is a `Target`. `readdirSync` together with `statSync` is a tree of `Entry` values. Errors these calls throw, such as a permission error or a file removed during the scan, are not modelled.
- Symbolic links that form a cycle under the scanned directory are not modelled. The entry tree is finite. In the source such a cycle makes `statSync` or `readdirSync` throw after a bounded depth (too many links, or a name too long), and that is one of the file-system errors the model leaves out.
- `Path.normalize`, the trailing `/` and `Path.join` are modelled as appending a segment. Textual path forms (`..`, duplicate separators) are not modelled.
- The HTTPS transport, TLS, streaming of the file body, the multipart boundary and `Buffer` decoding are not modelled. A request is its options and the ordered list of what was written into it, and a response is a status code and a decoded body.
- Transport failures (connection errors, a response that never ends) are not modelled: the server function always answers.
- JSON parsing, JSON serialisation, URL parsing and JWT signing are passed in as functions and not modelled internally. This includes the `iat` claim that `jwt.sign` adds from the clock.
- Upload.LowerChar: `toLowerCase` is modelled on ASCII letters only. Non-ASCII case mappings are not modelled.
- Upload.UploadCommand.Execute: the result is a map, so the insertion order of the JavaScript result object is not modelled. The order of the uploads is visible in the request log.
- RequestHelpers.Post: the truthiness of `config.body` and `config.fileName` is modelled as presence. A present but falsy body is not modelled. Callers in this core never pass one.
- AuthHelpers.CreateToken: requires a token URL whenever the access key is falsy. The source would pass `undefined` to `URL.parse` there. The constructor's checks rule that case out for `execute`.
