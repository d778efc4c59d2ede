# RxNetworking logging and upload core, in Dafny

This project models the request/response logging of RxNetworkKit and the
upload-file value it logs:

- `HTTPLogBodyMessageFactory` renders the text that stands in for a request body.
  A raw body is shown as pretty JSON, UTF-8 text or a placeholder. A file is
  described from disk or from memory. A multipart form is written part by part.
- `CURLCommandFactory` renders a request as a cURL command line.
- `HTTPLogMessageFactory` renders the console messages for an outgoing request
  and an incoming response.
- `Data.append(contentsOf:)` appends a list of byte blocks to a `Data` value.
- `File` has two failable initializers, one for in-memory data and one for a
  file URL.

Foundation and Security services are not modelled; they are taken as given
functions. `HttpTypes.Platform` holds JSON pretty-printing, the two UTF-8
decodings, `formattedSize`, `URLComponents(string:)` and the blocked-host set.
`UploadFile.FileSystem` holds the MIME lookup, name/extension splitting,
`lastPathComponent`, the URL path, `InputStream(url:)` and
`FileManager.sizeOfFile`.

The loops of the Swift code are methods with `for` loops. Each is proved equal
to a specification function, and the properties the code promises are proved
about those functions.

- A log message is specified as the rendering of a list of sections
  (`LogMessage.Section`). "A section is present exactly when ..." is then
  stated about the list.
- A form-data body message is also proved to be a `"\n"` followed by a
  multipart body in the layout of section 5.1.1 of RFC 2046 (`Multipart`).

Files:

| file | module | models |
|---|---|---|
| `seqs.dfy` | `Seqs` | concatenation, mapping and joining of sequences, with their lemmas |
| `types.dfy` | `HttpTypes` | `Data`, `FileType`, `FormData`, `HTTPLogBodyOption`, `URLRequest`, `URLResponse`, the platform services |
| `data_append.dfy` | `DataAppend` | `Data.append(contentsOf:)` |
| `upload_file.dfy` | `UploadFile` | `File.init?(withName:withExtension:withData:)`, `File.init?(withURL:)` |
| `multipart.dfy` | `Multipart` | the RFC 2046 multipart layout |
| `body_message.dfy` | `BodyMessage` | `HTTPLogBodyMessageFactory` |
| `curl_command.dfy` | `CurlCommand` | `CURLCommandFactory` |
| `log_message.dfy` | `LogMessage` | `HTTPLogMessageFactory` |

## Model

| member | source | states |
|---|---|---|
| DataAppend.AppendContentsOf | Source/HTTP/Extensions/Data+Append.swift:20-22 | the result is the old bytes followed by every block in array order; its length is the old length plus the block lengths; the old bytes are a prefix; an empty array changes nothing |
| DataAppend.AppendTwice | Source/HTTP/Extensions/Data+Append.swift:20-22 | appending two arrays one after the other equals appending their concatenation |
| DataAppend.EmptyBlockInvisible | Source/HTTP/Extensions/Data+Append.swift:20-22 | an empty block anywhere in the array contributes nothing |
| UploadFile.InitWithData | Source/HTTP/Types/Request/Parameters/File/File.swift:44-53 | fails exactly when the MIME lookup of the extension fails; otherwise there is no path and no stream, the data is stored as given, the size is the byte count, and the two payloads are never both present |
| UploadFile.LargeUploadAdvisory | Source/HTTP/Types/Request/Parameters/File/File.swift:54-58 | the large-upload warning fires exactly when the data is longer than 10 485 760 bytes |
| UploadFile.InitWithUrl | Source/HTTP/Types/Request/Parameters/File/File.swift:67-87 | fails exactly when the MIME lookup or the file size fails; otherwise the name is the last path component without its extension, the MIME type is the lookup of the split-off extension, the path and stream come from the URL, the data is nil, and the size is the reported file size |
| BodyMessage.BodyText | Source/Common/Request/Logger/Factory/HTTPLogBodyMessageFactory.swift:24-33 | dispatches strictly by case: plain to the raw-data text, file to the file text, form data to the form renderer's text, which opens with a newline and ends with the closing boundary |
| BodyMessage.MakeBodyMessage | Source/Common/Request/Logger/Factory/HTTPLogBodyMessageFactory.swift:24-33 | returns the message of `BodyText` for every body option |
| BodyMessage.RawDataMessage | Source/Common/Request/Logger/Factory/HTTPLogBodyMessageFactory.swift:40-50 | empty exactly for a missing body; otherwise a newline, then the pretty JSON, or else the UTF-8 text, or else `{ HTTP Body }`, then a newline |
| BodyMessage.FileMessage | Source/Common/Request/Logger/Factory/HTTPLogBodyMessageFactory.swift:58-81 | empty exactly when there is neither path nor data; with a path it opens with `{ File From Disk }` and ends with the path line, even when data is present too; with data only it opens with `{ File From Memory }` and ends with the size line |
| BodyMessage.MakeFormData | Source/Common/Request/Logger/Factory/HTTPLogBodyMessageFactory.swift:89-114 | the accumulated message is a newline, the parameter parts, the file parts and the closing boundary |
| BodyMessage.FormDataMessageIsMultipart | Source/Common/Request/Logger/Factory/HTTPLogBodyMessageFactory.swift:89-114 | the form message is a newline followed by an RFC 2046 multipart body with one part per parameter and then one per file |
| BodyMessage.EmptyFormData | Source/Common/Request/Logger/Factory/HTTPLogBodyMessageFactory.swift:90-111 | a form without parameters and files renders exactly as `"\n--B--\r\n"` |
| BodyMessage.PartOrder | Source/Common/Request/Logger/Factory/HTTPLogBodyMessageFactory.swift:94-111 | parameter i and file j each render exactly their own part, in list order; all parameter parts precede all file parts; the closing boundary is the final suffix |
| BodyMessage.ParameterSectionAt | Source/Common/Request/Logger/Factory/HTTPLogBodyMessageFactory.swift:94-98 | parameter i renders once, between the parts of the parameters before it and after it |
| BodyMessage.FileSectionAt | Source/Common/Request/Logger/Factory/HTTPLogBodyMessageFactory.swift:100-109 | file j renders once, between the parts of the files before it and after it |
| BodyMessage.OneParameterExample | Source/Common/Request/Logger/Factory/HTTPLogBodyMessageFactory.swift:94-98 | one parameter `name=hello` with boundary `B1` renders as `--B1`, its disposition line, an empty line and `hello`, then the closing boundary |
| CurlCommand.Make | Source/Common/Request/Logger/Factory/CURLCommandFactory.swift:25-64 | the command is the specified elements joined by the line continuation; it is empty exactly when the request has no URL |
| CurlCommand.AppendHeaderFlags | Source/Common/Request/Logger/Factory/CURLCommandFactory.swift:39-43 | appends one `-H` element per header other than `Cookie`, in order |
| CurlCommand.AppendBodyFlags | Source/Common/Request/Logger/Factory/CURLCommandFactory.swift:45-61 | appends the body elements of the body option |
| CurlCommand.WithoutCookieSpec | Source/Common/Request/Logger/Factory/CURLCommandFactory.swift:40 | the filter keeps exactly the headers whose key is not `Cookie` |
| CurlCommand.HeaderElementsSpec | Source/Common/Request/Logger/Factory/CURLCommandFactory.swift:39-43 | every header other than `Cookie` yields an `-H 'k: v'` element, and every `-H` element comes from such a header |
| CurlCommand.CommandStart | Source/Common/Request/Logger/Factory/CURLCommandFactory.swift:27-33 | the command opens with `curl "<url>"`; the first element carries ` --head` exactly when the method is HEAD |
| CurlCommand.MethodFlag | Source/Common/Request/Logger/Factory/CURLCommandFactory.swift:35-37 | an element starting with `-X ` is present exactly when a method is given that is neither GET nor HEAD, and then it is the second element |
| CurlCommand.FormFlags | Source/Common/Request/Logger/Factory/CURLCommandFactory.swift:53-60 | one `-F 'k=v'` per parameter in order, then one `-F 'k=@path;filename=n'` per file in order, with the placeholder path for a file without a path |
| CurlCommand.BodyFlags | Source/Common/Request/Logger/Factory/CURLCommandFactory.swift:46-52 | a file body gives exactly one `--upload-file` element; a plain body gives one element exactly when the request body decodes as UTF-8, and that element is `-d '<decoded text>'` |
| CurlCommand.CommandLength | Source/Common/Request/Logger/Factory/CURLCommandFactory.swift:63 | the command is as long as its elements plus one separator fewer than there are elements |
| LogMessage.MakeRequestMessage | Source/Common/Request/Logger/Factory/HTTPLogMessageFactory.swift:31-67 | the message is the rendering of the request sections |
| LogMessage.AppendRequestHeaders | Source/Common/Request/Logger/Factory/HTTPLogMessageFactory.swift:49-51 | appends one `k: v ` line per header, in order |
| LogMessage.BodySectionsText | Source/Common/Request/Logger/Factory/HTTPLogMessageFactory.swift:53-55 | the body part of the request is a newline and the body text for a non-empty body, and nothing for an empty one |
| LogMessage.RequestLayout | Source/Common/Request/Logger/Factory/HTTPLogMessageFactory.swift:32-66 | the request sections render as the banner, target, header lines, body, cURL divider, command and end banner, in that order |
| LogMessage.RequestFrame | Source/Common/Request/Logger/Factory/HTTPLogMessageFactory.swift:34-64 | the message opens with the OUTGOING REQUEST banner and ends with the cURL divider, the command and the END banner |
| LogMessage.RequestHeaderOrder | Source/Common/Request/Logger/Factory/HTTPLogMessageFactory.swift:49-51 | header i is the section after the target plus i, and the header sections are exactly those positions; `Cookie` is not filtered here |
| LogMessage.RequestBodyPresence | Source/Common/Request/Logger/Factory/HTTPLogMessageFactory.swift:53-55 | the body section and its separating newline are present exactly when the body message is non-empty |
| LogMessage.RequestCurlPlacement | Source/Common/Request/Logger/Factory/HTTPLogMessageFactory.swift:59-64 | the command is the second-to-last section, right after the divider and before the END banner, and appears nowhere else |
| LogMessage.MakeResponseMessage | Source/Common/Request/Logger/Factory/HTTPLogMessageFactory.swift:76-133 | the message is the rendering of the response sections |
| LogMessage.AppendStatusLine | Source/Common/Request/Logger/Factory/HTTPLogMessageFactory.swift:98-100 | appends the status line for an HTTP response and nothing otherwise |
| LogMessage.AppendResponseHeaders | Source/Common/Request/Logger/Factory/HTTPLogMessageFactory.swift:104-106 | appends one `k: v` line per response header, in order |
| LogMessage.AppendResponseBody | Source/Common/Request/Logger/Factory/HTTPLogMessageFactory.swift:108-117 | appends the body section the arguments call for |
| LogMessage.AppendResponseError | Source/Common/Request/Logger/Factory/HTTPLogMessageFactory.swift:119-127 | appends the error section the error calls for |
| LogMessage.ResponseLayout | Source/Common/Request/Logger/Factory/HTTPLogMessageFactory.swift:79-130 | the response sections render as the banner, URL, status, host, header lines, body, error and end banner, in that order |
| LogMessage.ResponseFrame | Source/Common/Request/Logger/Factory/HTTPLogMessageFactory.swift:79-130 | the message opens with the INCOMING RESPONSE banner and ends with the END banner |
| LogMessage.ResponseStatus | Source/Common/Request/Logger/Factory/HTTPLogMessageFactory.swift:98-100 | a status line is present exactly for an HTTP response, it carries that response's status code, and the printed code reads back as that code |
| LogMessage.DecimalRoundTrip | Source/Common/Request/Logger/Factory/HTTPLogMessageFactory.swift:99 | the decimal text of any status code, negative ones included, parses back to the code |
| LogMessage.ResponseHeaderOrder | Source/Common/Request/Logger/Factory/HTTPLogMessageFactory.swift:104-106 | the header sections follow the host line in order, exactly one per header field of an HTTP response and none for any other response |
| LogMessage.ResponseBodyChoice | Source/Common/Request/Logger/Factory/HTTPLogMessageFactory.swift:108-117 | the placeholder is used exactly when given and there is no error; otherwise a body present is shown as pretty JSON, or else as lossily decoded text; with neither there is no body section; every body section carries the text of the case that applies, so the placeholder never appears when there is an error |
| LogMessage.ResponseErrorLines | Source/Common/Request/Logger/Factory/HTTPLogMessageFactory.swift:119-127 | the TLS failure text is present exactly for error code -999 and a blocked host; any other error gives its description; without an error there is no error section |

## Left out

- Foundation and Security services are given functions and are not modelled.
  This covers `Data.json`, `String(data:encoding:)`, `String(decoding:as:)`,
  `Int64.formattedSize`, `URLComponents(string:)`,
  `TLSTrustEvaluator.getBlockedHosts()`, `HTTPMIMEType(fileExtension:)`,
  `String.splitNameAndExtension()`, `URL.lastPathComponent`,
  `URL.path()`/`URL.path`, `InputStream(url:)` and
  `FileManager.sizeOfFile(atURL:)`. The two OS-version branches of the path
  lookup are one given function.
- Header dictionaries are given as a sequence of pairs, taken in the order they are iterated. Swift's dictionary order is unspecified.
- Response header keys and values are `AnyHashable`/`Any` in the source. Here they are strings printed as themselves.
- `UploadFile.LargeUploadAdvisory`: the DEBUG-only `MemoryLogger.shared.logLargeUploadFile` call is a print. The model only states when it fires, and that the file is left as constructed.
- `HTTPLogger`, which prints the messages, and all other printing are not part of this model.
- `FormDataBodyFactory`, `ClusterInputStream` and the real multipart request body are not part of this model. Only the log text of a form is modelled.
- `Set+SecCertificate`, `SessionConfiguration` and `DefaultNetworkAPIError` are not part of this model. They are bundle I/O, a configuration wrapper and a one-field struct.
- `UploadFile.InitWithUrl`: `size` is an `Int64` in the source and an unbounded `int` here, because the size comes from the file system unchanged. The byte count of the data initializer is likewise not truncated.
- The code does not guarantee exactly one payload: `FileType` declares `data` and `inputStream` each as present only if available, and `init?(withURL:)` stores whatever `InputStream(url:)` returns, so a file from a URL can have neither payload. The model follows the code and proves only that the two payloads are never both present.
- An unparsable URL string gives empty path, query and host, as the code's `?? ""` defaults do. The TLS check then compares the empty host against the blocked hosts.
