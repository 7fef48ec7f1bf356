/** The JavaScript values and the foreign library calls the upload tool is built on.
    Library calls (URL.parse, jwt.sign, JSON.parse, JSON.stringify, FormData) are not
    modelled by their internals: a `Runtime` record hands them to the model as functions. */
module Platform {

  datatype Option<+T> = None | Some(value: T)

  /** A value, or the message of the Error a call throws. */
  datatype Result<+T> = Ok(value: T) | Err(error: string)

  /** JavaScript truthiness of an optional string: `undefined` and `""` are falsy. */
  predicate Truthy(s: Option<string>) {
    s.Some? && s.value != ""
  }

  /** A file-system path as its sequence of segments; `Path.join(dir, name)` is `dir + [name]`. */
  type Path = seq<string>

  /** The fields of `URL.parse(urlString)` that the request options use. */
  datatype Url = Url(protocol: Option<string>, host: Option<string>, port: Option<string>, path: Option<string>)

  /** The payload `{ iss: environmentId }` of a locally signed token. */
  datatype Claims = Claims(iss: Option<string>)

  /** Foreign functions, as the tool sees them.
      - parseUrl: `URL.parse`
      - sign: `jwt.sign(claims, secret, { algorithm })`
      - parseJson: `JSON.parse` of a response body; `Err` is the message of the SyntaxError it throws
      - stringify: `JSON.stringify`
      - messageOf: reading the `message` member of a parsed body: `Err` is the message of the
        TypeError thrown for a `null` body, `None` an undefined member, `Some` its string form
      - formHeaders: `getHeaders()` of a FormData holding the given file */
  datatype Runtime<!J> = Runtime(
    parseUrl: string -> Url,
    sign: (Claims, string, string) -> string,
    parseJson: string -> Result<J>,
    stringify: J -> string,
    messageOf: J -> Result<Option<string>>,
    formHeaders: Path -> map<string, string>)

  /** The text a template literal `${ x }` gives for an optional string. */
  function TemplateText(x: Option<string>): string {
    match x
    case None => "undefined"
    case Some(v) => v
  }

  /** The `message` of `new Error(x)`: an undefined argument gives the empty message. */
  function ErrorMessage(x: Option<string>): string {
    match x
    case None => ""
    case Some(v) => v
  }
}
