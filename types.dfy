/** The value types the logging factories and the upload file work on, and
    the Foundation services they call, which the model takes as given
    functions. */
module HttpTypes {

  type Byte = bv8

  /** Foundation's `Data`: a byte string. */
  type Data = seq<Byte>

  datatype Option<+T> = None | Some(value: T)

  /** A header dictionary, taken in the order it is iterated. */
  type Header = (string, string)

  /** `HTTPMIMEType`, known only through its raw value. */
  datatype MimeType = MimeType(rawValue: string)

  /** A Foundation `InputStream`, an opaque handle. */
  datatype InputStream = InputStream(handle: nat)

  /** A Foundation `URL`, known through its absolute string. */
  datatype Url = Url(absoluteString: string)

  /** The fields every `FileType` conformer exposes. */
  datatype FileType = FileType(
    name: string,
    path: Option<string>,
    data: Option<Data>,
    inputStream: Option<InputStream>,
    mimeType: MimeType,
    size: int)

  /** One text field of a multipart form. */
  datatype FormParameter = FormParameter(key: string, value: string)

  /** One file of a multipart form: its form key and its `FileType` fields. */
  datatype FormFile = FormFile(key: string, file: FileType)

  /** A multipart form: its boundary, parameters and files. */
  datatype FormData = FormData(boundary: string, parameters: seq<FormParameter>, files: seq<FormFile>)

  /** How the body of a request is represented in a log message. */
  datatype HTTPLogBodyOption =
    | Plain(body: Option<Data>)
    | File(file: FileType)
    | FormBody(formData: FormData)

  /** The parts of `URLRequest` the factories read. */
  datatype URLRequest = URLRequest(
    url: Option<Url>,
    httpMethod: Option<string>,
    allHTTPHeaderFields: Option<seq<Header>>,
    httpBody: Option<Data>)

  /** A `URLResponse`: either an `HTTPURLResponse` or some other kind. */
  datatype URLResponse =
    | HTTPURLResponse(statusCode: int, allHeaderFields: seq<Header>)
    | OtherURLResponse

  /** An `Error`, seen through `NSError.code` and `localizedDescription`. */
  datatype ResponseError = ResponseError(code: int, localizedDescription: string)

  /** What `URLComponents(string:)` yields when it parses a string. */
  datatype UrlComponents = UrlComponents(path: string, query: Option<string>, host: Option<string>)

  /** The Foundation and Security services the logging factories call. */
  datatype Platform = Platform(
    prettyJson: Data -> Option<string>,              // Data.json
    decodeUtf8: Data -> Option<string>,              // String(data:encoding: .utf8)
    decodeUtf8Lossy: Data -> string,                 // String(decoding:as: UTF8.self)
    formattedSize: int -> string,                    // Int64.formattedSize
    urlComponents: string -> Option<UrlComponents>,  // URLComponents(string:)
    blockedHosts: set<string>)                       // TLSTrustEvaluator.getBlockedHosts()

  /** `x ?? fallback` */
  function OrElse<T>(x: Option<T>, fallback: T): T
  {
    match x
    case Some(v) => v
    case None => fallback
  }
}
