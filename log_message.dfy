/** `HTTPLogMessageFactory`: the console messages for an outgoing request
    and an incoming response. Each message is specified as the rendering of
    a list of sections, so that which sections appear, and in which order,
    can be stated about the list. */
module LogMessage {
  import opened HttpTypes
  import opened Seqs
  import BodyMessage
  import CurlCommand

  /** The sections a log message is made of. */
  datatype Section =
    | RequestBanner
    | RequestTarget(url: string, httpMethod: string, path: string, query: string, host: string)
    | RequestHeader(key: string, value: string)
    | BodySeparator
    | LoggedBody(text: string)
    | CurlDivider
    | CurlLine(command: string)
    | ResponseBanner
    | ResponseUrl(url: string)
    | StatusLine(statusCode: int, path: string, query: string)
    | HostLine(host: string)
    | ResponseHeader(key: string, value: string)
    | ResponseBody(text: string)
    | TlsFailure
    | ErrorLine(description: string)
    | EndBanner

  const RequestBannerText: string := "* * * * * * * * * * OUTGOING REQUEST * * * * * * * * * *\n"
  const ResponseBannerText: string := "* * * * * * * * * * INCOMING RESPONSE * * * * * * * * * *\n"
  const CurlDividerText: string := "\n- - - - - - - - - - - CURL COMMAND - - - - - - - - - - -\n"
  const EndBannerText: string := "\n* * * * * * * * * * * * * END * * * * * * * * * * * * *\n"
  const TlsFailureText: string :=
    "\nError: TLS trust evaluation failed for the specified host, you may need to update the pinned certificates or public keys.\n"

  /** `URLError.cancelled`, the code a failed trust evaluation cancels with. */
  const CancelledCode: int := -999

  /** The text of one section. */
  function Render(s: Section): string
  {
    match s
    case RequestBanner => RequestBannerText
    case RequestTarget(url, httpMethod, path, query, host) =>
      "\n" + url + " \n\n" + httpMethod + " " + path + "?" + query + " HTTP/1.1 \n\n" + "HOST: " + host + "\n"
    case RequestHeader(key, value) => key + ": " + value + " \n"
    case BodySeparator => "\n"
    case LoggedBody(text) => text
    case CurlDivider => CurlDividerText
    case CurlLine(command) => "\n" + command + "\n"
    case ResponseBanner => ResponseBannerText
    case ResponseUrl(url) => "\n" + url + "\n\n"
    case StatusLine(statusCode, path, query) => "HTTP " + DecimalString(statusCode) + " " + path + "?" + query + "\n"
    case HostLine(host) => "Host: " + host + "\n"
    case ResponseHeader(key, value) => key + ": " + value + "\n"
    case ResponseBody(text) => "\n" + text + "\n"
    case TlsFailure => TlsFailureText
    case ErrorLine(description) => "\nError: " + description + "\n"
    case EndBanner => EndBannerText
  }

  /** The sections' texts, concatenated in order. */
  function RenderAll(ss: seq<Section>): string
  {
    Flatten(Map(Render, ss))
  }

  /** Rendering distributes over concatenation of section lists. */
  lemma RenderAppend(a: seq<Section>, b: seq<Section>)
    ensures RenderAll(a + b) == RenderAll(a) + RenderAll(b)
  {
    MapAppend(Render, a, b);
    FlattenAppend(Map(Render, a), Map(Render, b));
  }

  /** No sections render as nothing. */
  lemma RenderNone()
    ensures RenderAll([]) == ""
  {
    assert Map(Render, []) == [];
  }

  /** A single section renders as its own text. */
  lemma RenderOne(s: Section)
    ensures RenderAll([s]) == Render(s)
  {
    MapOne(Render, s);
    FlattenSnoc([], Render(s));
    assert [] + [Render(s)] == [Render(s)];
  }

  /** Rendering one more section appends its text. */
  lemma RenderSnoc(ss: seq<Section>, s: Section)
    ensures RenderAll(ss + [s]) == RenderAll(ss) + Render(s)
  {
    RenderAppend(ss, [s]);
    RenderOne(s);
  }

  // ---------------------------------------------------------------------
  // Decimal rendering of the status code (string interpolation of an Int)

  function DigitChar(d: nat): char
    requires d < 10
  {
    (48 + d) as char
  }

  predicate IsDigit(c: char)
  {
    '0' <= c <= '9'
  }

  function DigitValue(c: char): nat
    requires IsDigit(c)
  {
    (c as int) - 48
  }

  /** The decimal digits of `n`, most significant first, without leading zeros. */
  function NatString(n: nat): (r: string)
    ensures |r| > 0 && (forall i :: 0 <= i < |r| ==> IsDigit(r[i]))
    decreases n
  {
    if n < 10 then [DigitChar(n)] else NatString(n / 10) + [DigitChar(n % 10)]
  }

  /** `"\(n)"` for an `Int`: a minus sign for a negative value, then the digits. */
  function DecimalString(n: int): string
  {
    if n < 0 then "-" + NatString(-n) else NatString(n)
  }

  function ParseNat(s: string): nat
    requires forall i :: 0 <= i < |s| ==> IsDigit(s[i])
  {
    if s == [] then 0 else ParseNat(s[..|s| - 1]) * 10 + DigitValue(s[|s| - 1])
  }

  /** Reads a decimal integer back: an optional minus sign, then digits. */
  function ParseDecimal(s: string): Option<int>
  {
    if |s| > 0 && s[0] == '-' then
      (if |s| > 1 && forall i :: 1 <= i < |s| ==> IsDigit(s[i]) then var v: int := ParseNat(s[1..]); Some(-v) else None)
    else if |s| > 0 && forall i :: 0 <= i < |s| ==> IsDigit(s[i]) then Some(ParseNat(s))
    else None
  }

  lemma {:induction false} NatStringRoundTrip(n: nat)
    ensures ParseNat(NatString(n)) == n
    ensures NatString(n)[0] != '-'
    decreases n
  {
    if n >= 10 {
      NatStringRoundTrip(n / 10);
      var s := NatString(n);
      assert s[..|s| - 1] == NatString(n / 10);
    }
  }

  /** The status code printed in a response message reads back as itself. */
  lemma DecimalRoundTrip(n: int)
    ensures ParseDecimal(DecimalString(n)) == Some(n)
  {
    if n < 0 {
      NatStringRoundTrip(-n);
      assert DecimalString(n)[1..] == NatString(-n);
    } else {
      NatStringRoundTrip(n);
    }
  }

  // ---------------------------------------------------------------------
  // URL parts

  /** `url?.absoluteString ?? ""` */
  function UrlString(url: Option<Url>): string
  {
    match url
    case Some(u) => u.absoluteString
    case None => ""
  }

  /** `urlComponents?.path ?? ""` */
  function PathOf(comps: Option<UrlComponents>): string
  {
    if comps.Some? then comps.value.path else ""
  }

  /** `urlComponents?.query ?? ""` */
  function QueryOf(comps: Option<UrlComponents>): string
  {
    if comps.Some? then OrElse(comps.value.query, "") else ""
  }

  /** `urlComponents?.host ?? ""` */
  function HostOf(comps: Option<UrlComponents>): string
  {
    if comps.Some? then OrElse(comps.value.host, "") else ""
  }

  // ---------------------------------------------------------------------
  // Outgoing request

  function RequestTargetOf(request: URLRequest, p: Platform): Section
  {
    var urlString := UrlString(request.url);
    var comps := p.urlComponents(urlString);
    RequestTarget(urlString, OrElse(request.httpMethod, ""), PathOf(comps), QueryOf(comps), HostOf(comps))
  }

  /** Every request header, `Cookie` included, in iteration order. */
  function RequestHeaders(headers: seq<Header>): seq<Section>
  {
    seq(|headers|, i requires 0 <= i < |headers| => RequestHeader(headers[i].0, headers[i].1))
  }

  /** The body section, preceded by an empty line, only for a non-empty body text. */
  function BodySections(body: string): seq<Section>
  {
    if body == "" then [] else [BodySeparator, LoggedBody(body)]
  }

  function RequestSections(request: URLRequest, bodyOption: HTTPLogBodyOption, p: Platform): seq<Section>
  {
    [RequestBanner, RequestTargetOf(request, p)]
    + RequestHeaders(OrElse(request.allHTTPHeaderFields, []))
    + BodySections(BodyMessage.BodyText(bodyOption, p))
    + [CurlDivider, CurlLine(CurlCommand.CommandText(request, bodyOption, p)), EndBanner]
  }

  /** `make(for:bodyOption:)` for an outgoing request. */
  method MakeRequestMessage(request: URLRequest, bodyOption: HTTPLogBodyOption, p: Platform)
    returns (logMessage: string)
    ensures logMessage == RenderAll(RequestSections(request, bodyOption, p))
  {
    logMessage := "";
    logMessage := logMessage + RequestBannerText;
    assert logMessage == RequestBannerText;

    var urlString := if request.url.Some? then request.url.value.absoluteString else "";
    var urlComponents := p.urlComponents(urlString);
    var httpMethod := if request.httpMethod.Some? then OrElse(request.httpMethod, "") else "";
    var path := PathOf(urlComponents);
    var query := QueryOf(urlComponents);
    var host := HostOf(urlComponents);

    var requestDetails := "\n" + urlString + " \n\n" + httpMethod + " " + path + "?" + query + " HTTP/1.1 \n\n"
                          + "HOST: " + host + "\n";
    assert requestDetails == Render(RequestTargetOf(request, p));

    var headers := OrElse(request.allHTTPHeaderFields, []);
    requestDetails := AppendRequestHeaders(requestDetails, headers);

    var logBodyMessage := BodyMessage.MakeBodyMessage(bodyOption, p);
    requestDetails := requestDetails + (if logBodyMessage == "" then "" else "\n");
    requestDetails := requestDetails + logBodyMessage;

    logMessage := logMessage + requestDetails;

    var curlCommand := CurlCommand.Make(request, bodyOption, p);
    logMessage := logMessage + CurlDividerText;
    logMessage := logMessage + ("\n" + curlCommand + "\n");
    logMessage := logMessage + EndBannerText;
    ghost var sections := [RequestBanner, RequestTargetOf(request, p)] + RequestHeaders(headers)
                          + BodySections(logBodyMessage) + [CurlDivider, CurlLine(curlCommand), EndBanner];
    RequestLayout(RequestTargetOf(request, p), headers, logBodyMessage, curlCommand);
    assert logMessage == RenderAll(sections);
    assert sections == RequestSections(request, bodyOption, p);
  }

  /** The header lines of an outgoing request, every header included. */
  method AppendRequestHeaders(details: string, headers: seq<Header>) returns (result: string)
    ensures result == details + RenderAll(RequestHeaders(headers))
  {
    result := details;
    for i := 0 to |headers|
      invariant result == details + RenderAll(RequestHeaders(headers[..i]))
    {
      var line := RequestHeader(headers[i].0, headers[i].1);
      assert RequestHeaders(headers[..i + 1]) == RequestHeaders(headers[..i]) + [line];
      RenderSnoc(RequestHeaders(headers[..i]), line);
      AppendAssoc(details, RenderAll(RequestHeaders(headers[..i])), Render(line));
      result := result + (headers[i].0 + ": " + headers[i].1 + " \n");
    }
    assert headers[..|headers|] == headers;
  }

  /** The body sections render as the separator (for a non-empty body) and
      the body text. */
  lemma BodySectionsText(body: string)
    ensures RenderAll(BodySections(body)) == (if body == "" then "" else "\n") + body
  {
    if body == "" {
      RenderNone();
    } else {
      assert BodySections(body) == [BodySeparator] + [LoggedBody(body)];
      RenderSnoc([BodySeparator], LoggedBody(body));
      RenderOne(BodySeparator);
    }
  }

  /** A request message is the banner, the request details (target, header
      lines, body), the cURL divider, the command and the end banner, in the
      order the request method appends them. */
  lemma RequestLayout(target: Section, headers: seq<Header>, body: string, curl: string)
    ensures RenderAll([RequestBanner, target] + RequestHeaders(headers) + BodySections(body)
                      + [CurlDivider, CurlLine(curl), EndBanner])
         == RequestBannerText
            + (Render(target) + RenderAll(RequestHeaders(headers)) + (if body == "" then "" else "\n") + body)
            + CurlDividerText + ("\n" + curl + "\n") + EndBannerText
  {
    var hs := RequestHeaders(headers);
    var bs := BodySections(body);
    var th := [target] + hs;
    var details := th + bs;
    var dc := [RequestBanner] + details + [CurlDivider];
    var dcc := dc + [CurlLine(curl)];
    assert [RequestBanner, target] + hs + bs + [CurlDivider, CurlLine(curl), EndBanner] == dcc + [EndBanner];
    RenderSnoc(dcc, EndBanner);
    RenderSnoc(dc, CurlLine(curl));
    RenderSnoc([RequestBanner] + details, CurlDivider);
    RenderAppend([RequestBanner], details);
    RenderOne(RequestBanner);
    RenderAppend(th, bs);
    RenderAppend([target], hs);
    RenderOne(target);
    BodySectionsText(body);
    var sep := if body == "" then "" else "\n";
    AppendAssoc(Render(target) + RenderAll(hs), sep, body);
  }

  /** A request message opens with the request banner and closes with the
      cURL command between its divider and the end banner. */
  lemma RequestFrame(request: URLRequest, bodyOption: HTTPLogBodyOption, p: Platform)
    ensures RequestBannerText <= RenderAll(RequestSections(request, bodyOption, p))
    ensures EndsWith(RenderAll(RequestSections(request, bodyOption, p)),
                     CurlDividerText + ("\n" + CurlCommand.CommandText(request, bodyOption, p) + "\n") + EndBannerText)
  {
    var target := RequestTargetOf(request, p);
    var headers := OrElse(request.allHTTPHeaderFields, []);
    var body := BodyMessage.BodyText(bodyOption, p);
    var curl := CurlCommand.CommandText(request, bodyOption, p);
    assert RequestSections(request, bodyOption, p)
        == [RequestBanner, target] + RequestHeaders(headers) + BodySections(body) + [CurlDivider, CurlLine(curl), EndBanner];
    RequestLayout(target, headers, body, curl);
    var d := Render(target) + RenderAll(RequestHeaders(headers)) + (if body == "" then "" else "\n") + body;
    FrameOf(RequestBannerText, d, CurlDividerText, "\n" + curl + "\n", EndBannerText);
  }

  /** A five-piece text opens with its first piece and ends with its last three. */
  lemma FrameOf(a: string, b: string, c: string, d: string, e: string)
    ensures a <= a + b + c + d + e
    ensures EndsWith(a + b + c + d + e, c + d + e)
  {
    var m := a + b + c + d + e;
    assert m == (a + b) + (c + d + e);
    assert m[..|a|] == a;
    assert m[|m| - |c + d + e|..] == c + d + e;
  }

  /** A request message holds one header section per request header, the
      `Cookie` header included, right after the target and in order. */
  lemma RequestHeaderOrder(request: URLRequest, bodyOption: HTTPLogBodyOption, p: Platform)
    ensures var ss := RequestSections(request, bodyOption, p);
            var headers := OrElse(request.allHTTPHeaderFields, []);
            && (forall i :: 0 <= i < |headers| ==> ss[2 + i] == RequestHeader(headers[i].0, headers[i].1))
            && (forall k :: 0 <= k < |ss| ==> (ss[k].RequestHeader? <==> 2 <= k < 2 + |headers|))
  {
    var ss := RequestSections(request, bodyOption, p);
    var headers := OrElse(request.allHTTPHeaderFields, []);
    var hs := RequestHeaders(headers);
    var bs := BodySections(BodyMessage.BodyText(bodyOption, p));
    forall k | 0 <= k < |ss| ensures ss[k].RequestHeader? <==> 2 <= k < 2 + |headers| {
      if k < 2 {
      } else if k < 2 + |hs| {
        assert ss[k] == hs[k - 2];
      } else if k < 2 + |hs| + |bs| {
        assert ss[k] == bs[k - 2 - |hs|];
      } else {
        assert ss[k] == [CurlDivider, CurlLine(CurlCommand.CommandText(request, bodyOption, p)), EndBanner][k - 2 - |hs| - |bs|];
      }
    }
  }

  /** The body section appears exactly when the body message is not empty,
      and then it is that message, after an empty line. */
  lemma RequestBodyPresence(request: URLRequest, bodyOption: HTTPLogBodyOption, p: Platform)
    ensures var ss := RequestSections(request, bodyOption, p);
            var body := BodyMessage.BodyText(bodyOption, p);
            && ((exists s :: s in ss && s.LoggedBody?) <==> body != "")
            && (body != "" ==> LoggedBody(body) in ss && BodySeparator in ss)
            && (body == "" ==> BodySeparator !in ss)
  {
    var ss := RequestSections(request, bodyOption, p);
    var body := BodyMessage.BodyText(bodyOption, p);
    var hs := RequestHeaders(OrElse(request.allHTTPHeaderFields, []));
    var tail := [CurlDivider, CurlLine(CurlCommand.CommandText(request, bodyOption, p)), EndBanner];
    assert ss == [RequestBanner, RequestTargetOf(request, p)] + hs + BodySections(body) + tail;
    forall s | s in hs ensures s.RequestHeader? {
    }
    if body != "" {
      assert LoggedBody(body) in BodySections(body) && BodySeparator in BodySections(body);
      assert LoggedBody(body) in ss;
    } else {
      forall s | s in ss ensures !s.LoggedBody? && s != BodySeparator {
      }
    }
  }

  /** The cURL command is written once, after its divider and before the
      end banner. */
  lemma RequestCurlPlacement(request: URLRequest, bodyOption: HTTPLogBodyOption, p: Platform)
    ensures var ss := RequestSections(request, bodyOption, p);
            && |ss| >= 5
            && ss[|ss| - 3] == CurlDivider
            && ss[|ss| - 2] == CurlLine(CurlCommand.CommandText(request, bodyOption, p))
            && ss[|ss| - 1] == EndBanner
            && (forall k :: 0 <= k < |ss| && ss[k].CurlLine? ==> k == |ss| - 2)
  {
    var ss := RequestSections(request, bodyOption, p);
    var hs := RequestHeaders(OrElse(request.allHTTPHeaderFields, []));
    var bs := BodySections(BodyMessage.BodyText(bodyOption, p));
    forall k | 0 <= k < |ss| - 3 ensures !ss[k].CurlLine? {
      if k < 2 {
      } else if k < 2 + |hs| {
        assert ss[k] == hs[k - 2];
      } else {
        assert ss[k] == bs[k - 2 - |hs|];
      }
    }
  }

  // ---------------------------------------------------------------------
  // Incoming response

  /** The arguments of a response: URL, body, response and error. */
  datatype ResponseArguments = ResponseArguments(
    url: Option<Url>,
    body: Option<Data>,
    response: Option<URLResponse>,
    error: Option<ResponseError>)

  /** The status line, for an HTTP response only. */
  function StatusSections(response: Option<URLResponse>, path: string, query: string): seq<Section>
  {
    if response.Some? && response.value.HTTPURLResponse? then [StatusLine(response.value.statusCode, path, query)]
    else []
  }

  /** The header fields of an HTTP response; none for any other response. */
  function ResponseHeaderFields(response: Option<URLResponse>): seq<Header>
  {
    if response.Some? && response.value.HTTPURLResponse? then response.value.allHeaderFields else []
  }

  function ResponseHeaders(headers: seq<Header>): seq<Section>
  {
    seq(|headers|, i requires 0 <= i < |headers| => ResponseHeader(headers[i].0, headers[i].1))
  }

  /** The body text logged for a response: the placeholder when one is given
      and there is no error, otherwise the body as pretty JSON or else as
      lossily decoded UTF-8, and nothing without a body. */
  function ResponseBodyText(args: ResponseArguments, bodyLogMessage: Option<string>, p: Platform): Option<string>
  {
    if bodyLogMessage.Some? && args.error.None? then Some(bodyLogMessage.value)
    else if args.body.Some? then
      match p.prettyJson(args.body.value)
      case Some(json) => Some(json)
      case None => Some(p.decodeUtf8Lossy(args.body.value))
    else None
  }

  function ResponseBodySections(args: ResponseArguments, bodyLogMessage: Option<string>, p: Platform): seq<Section>
  {
    match ResponseBodyText(args, bodyLogMessage, p)
    case Some(text) => [ResponseBody(text)]
    case None => []
  }

  /** A failed trust evaluation: the request was cancelled for a host whose
      trust evaluation is recorded as failed. */
  predicate IsTlsFailure(error: ResponseError, host: string, p: Platform)
  {
    error.code == CancelledCode && host in p.blockedHosts
  }

  function ErrorSections(error: Option<ResponseError>, host: string, p: Platform): seq<Section>
  {
    match error
    case None => []
    case Some(e) => if IsTlsFailure(e, host, p) then [TlsFailure] else [ErrorLine(e.localizedDescription)]
  }

  /** The host a response message names and checks against the blocked hosts. */
  function ResponseHost(args: ResponseArguments, p: Platform): string
  {
    HostOf(p.urlComponents(UrlString(args.url)))
  }

  function ResponseSections(args: ResponseArguments, bodyLogMessage: Option<string>, p: Platform): seq<Section>
  {
    var urlString := UrlString(args.url);
    var comps := p.urlComponents(urlString);
    [ResponseBanner, ResponseUrl(urlString)]
    + StatusSections(args.response, PathOf(comps), QueryOf(comps))
    + [HostLine(HostOf(comps))]
    + ResponseHeaders(ResponseHeaderFields(args.response))
    + ResponseBodySections(args, bodyLogMessage, p)
    + ErrorSections(args.error, HostOf(comps), p)
    + [EndBanner]
  }

  /** `make(for:bodyLogMessage:)` for an incoming response. */
  method MakeResponseMessage(args: ResponseArguments, bodyLogMessage: Option<string>, p: Platform)
    returns (logMessage: string)
    ensures logMessage == RenderAll(ResponseSections(args, bodyLogMessage, p))
  {
    logMessage := "";
    logMessage := logMessage + ResponseBannerText;
    assert logMessage == ResponseBannerText;

    var urlString := UrlString(args.url);
    var urlComponents := p.urlComponents(urlString);
    var host := HostOf(urlComponents);
    var path := PathOf(urlComponents);
    var query := QueryOf(urlComponents);

    var responseDetails := "";
    responseDetails := responseDetails + ("\n" + urlString);
    responseDetails := responseDetails + "\n\n";
    assert responseDetails == Render(ResponseUrl(urlString));

    var statusSections := StatusSections(args.response, path, query);
    responseDetails := AppendStatusLine(responseDetails, args.response, path, query);

    responseDetails := responseDetails + ("Host: " + host + "\n");

    var headers := ResponseHeaderFields(args.response);
    responseDetails := AppendResponseHeaders(responseDetails, headers);
    responseDetails := AppendResponseBody(responseDetails, args, bodyLogMessage, p);
    responseDetails := AppendResponseError(responseDetails, args.error, host, p);

    logMessage := logMessage + responseDetails;
    logMessage := logMessage + EndBannerText;
    ghost var bodySections := ResponseBodySections(args, bodyLogMessage, p);
    ghost var errorSections := ErrorSections(args.error, host, p);
    ResponseLayout(urlString, statusSections, host, headers, bodySections, errorSections);
    ghost var sections := [ResponseBanner, ResponseUrl(urlString)] + statusSections + [HostLine(host)]
                          + ResponseHeaders(headers) + bodySections + errorSections + [EndBanner];
    assert logMessage == RenderAll(sections);
    assert sections == ResponseSections(args, bodyLogMessage, p);
  }

  /** The status line, written for an HTTP response only. */
  method AppendStatusLine(details: string, response: Option<URLResponse>, path: string, query: string)
    returns (result: string)
    ensures result == details + RenderAll(StatusSections(response, path, query))
  {
    result := details;
    if response.Some? && response.value.HTTPURLResponse? {
      var statusCode := response.value.statusCode;
      result := result + ("HTTP " + DecimalString(statusCode) + " " + path + "?" + query + "\n");
      RenderOne(StatusLine(statusCode, path, query));
    } else {
      RenderNone();
    }
  }

  /** The body of a response: the placeholder when given and there is no
      error, else the body as pretty JSON or as lossily decoded text. */
  method AppendResponseBody(details: string, args: ResponseArguments, bodyLogMessage: Option<string>, p: Platform)
    returns (result: string)
    ensures result == details + RenderAll(ResponseBodySections(args, bodyLogMessage, p))
  {
    result := details;
    if bodyLogMessage.Some? && args.error.None? {
      result := result + ("\n" + bodyLogMessage.value + "\n");
      RenderOne(ResponseBody(bodyLogMessage.value));
    } else if args.body.Some? {
      var body := args.body.value;
      match p.prettyJson(body) {
        case Some(jsonString) =>
          result := result + ("\n" + jsonString + "\n");
          RenderOne(ResponseBody(jsonString));
        case None =>
          var decoded := p.decodeUtf8Lossy(body);
          result := result + ("\n" + decoded + "\n");
          RenderOne(ResponseBody(decoded));
      }
    } else {
      RenderNone();
    }
  }

  /** The error line of a response: the TLS failure text for a cancelled
      request to a blocked host, else the error's description. */
  method AppendResponseError(details: string, error: Option<ResponseError>, host: string, p: Platform)
    returns (result: string)
    ensures result == details + RenderAll(ErrorSections(error, host, p))
  {
    result := details;
    if error.Some? {
      var errorCode := error.value.code;
      if errorCode == CancelledCode && host in p.blockedHosts {
        result := result + TlsFailureText;
        RenderOne(TlsFailure);
      } else {
        result := result + ("\nError: " + error.value.localizedDescription + "\n");
        RenderOne(ErrorLine(error.value.localizedDescription));
      }
    } else {
      RenderNone();
    }
  }

  /** The header lines of an incoming response. */
  method AppendResponseHeaders(details: string, headers: seq<Header>) returns (result: string)
    ensures result == details + RenderAll(ResponseHeaders(headers))
  {
    result := details;
    for i := 0 to |headers|
      invariant result == details + RenderAll(ResponseHeaders(headers[..i]))
    {
      var line := ResponseHeader(headers[i].0, headers[i].1);
      assert ResponseHeaders(headers[..i + 1]) == ResponseHeaders(headers[..i]) + [line];
      RenderSnoc(ResponseHeaders(headers[..i]), line);
      AppendAssoc(details, RenderAll(ResponseHeaders(headers[..i])), Render(line));
      result := result + (headers[i].0 + ": " + headers[i].1 + "\n");
    }
    assert headers[..|headers|] == headers;
  }

  /** A response message is the banner, the response details (URL, status,
      host, header lines, body, error) and the end banner, in the order the
      response method appends them. */
  lemma ResponseLayout(url: string, status: seq<Section>, host: string, headers: seq<Header>,
                       body: seq<Section>, error: seq<Section>)
    ensures RenderAll([ResponseBanner, ResponseUrl(url)] + status + [HostLine(host)] + ResponseHeaders(headers)
                      + body + error + [EndBanner])
         == ResponseBannerText
            + (Render(ResponseUrl(url)) + RenderAll(status) + Render(HostLine(host)) + RenderAll(ResponseHeaders(headers))
               + RenderAll(body) + RenderAll(error))
            + EndBannerText
  {
    var hs := ResponseHeaders(headers);
    var l1 := [ResponseUrl(url)] + status;
    var l2 := l1 + [HostLine(host)];
    var l3 := l2 + hs;
    var l4 := l3 + body;
    var details := l4 + error;
    assert [ResponseBanner, ResponseUrl(url)] == [ResponseBanner] + [ResponseUrl(url)];
    AppendAssoc([ResponseBanner], [ResponseUrl(url)], status);
    AppendAssoc([ResponseBanner], l1, [HostLine(host)]);
    AppendAssoc([ResponseBanner], l2, hs);
    AppendAssoc([ResponseBanner], l3, body);
    AppendAssoc([ResponseBanner], l4, error);
    RenderSnoc([ResponseBanner] + details, EndBanner);
    RenderAppend([ResponseBanner], details);
    RenderOne(ResponseBanner);
    RenderAppend(l4, error);
    RenderAppend(l3, body);
    RenderAppend(l2, hs);
    RenderSnoc(l1, HostLine(host));
    RenderAppend([ResponseUrl(url)], status);
    RenderOne(ResponseUrl(url));
  }

  /** A response message opens with the response banner and closes with the
      end banner. */
  lemma ResponseFrame(args: ResponseArguments, bodyLogMessage: Option<string>, p: Platform)
    ensures ResponseBannerText <= RenderAll(ResponseSections(args, bodyLogMessage, p))
    ensures EndsWith(RenderAll(ResponseSections(args, bodyLogMessage, p)), EndBannerText)
  {
    var urlString := UrlString(args.url);
    var comps := p.urlComponents(urlString);
    var status := StatusSections(args.response, PathOf(comps), QueryOf(comps));
    var headers := ResponseHeaderFields(args.response);
    var body := ResponseBodySections(args, bodyLogMessage, p);
    var error := ErrorSections(args.error, HostOf(comps), p);
    ResponseLayout(urlString, status, HostOf(comps), headers, body, error);
    var d := Render(ResponseUrl(urlString)) + RenderAll(status) + Render(HostLine(HostOf(comps)))
             + RenderAll(ResponseHeaders(headers)) + RenderAll(body) + RenderAll(error);
    var m := ResponseBannerText + d + EndBannerText;
    assert m[..|ResponseBannerText|] == ResponseBannerText;
    assert m[|m| - |EndBannerText|..] == EndBannerText;
  }

  /** The status line appears exactly for an HTTP response and carries its
      status code, which reads back from the printed line. */
  lemma ResponseStatus(args: ResponseArguments, bodyLogMessage: Option<string>, p: Platform)
    ensures var ss := ResponseSections(args, bodyLogMessage, p);
            (exists s :: s in ss && s.StatusLine?) <==> args.response.Some? && args.response.value.HTTPURLResponse?
    ensures var ss := ResponseSections(args, bodyLogMessage, p);
            forall s :: s in ss && s.StatusLine? ==>
              s.statusCode == args.response.value.statusCode
              && ParseDecimal(DecimalString(s.statusCode)) == Some(s.statusCode)
  {
    var ss := ResponseSections(args, bodyLogMessage, p);
    var comps := p.urlComponents(UrlString(args.url));
    var status := StatusSections(args.response, PathOf(comps), QueryOf(comps));
    var rest := [HostLine(HostOf(comps))]
                + ResponseHeaders(ResponseHeaderFields(args.response))
                + ResponseBodySections(args, bodyLogMessage, p)
                + ErrorSections(args.error, HostOf(comps), p)
                + [EndBanner];
    assert ss == [ResponseBanner, ResponseUrl(UrlString(args.url))] + status + rest;
    NoResponseExtras(args, bodyLogMessage, p);
    assert forall s :: s in rest ==> !s.StatusLine?;
    assert forall s :: s in ss && s.StatusLine? ==> s in status;
    if args.response.Some? && args.response.value.HTTPURLResponse? {
      assert status[0] in ss;
      DecimalRoundTrip(args.response.value.statusCode);
    }
  }

  /** Header, body and error sections are never status lines, TLS failures
      or error lines except where the error section puts them. */
  lemma NoResponseExtras(args: ResponseArguments, bodyLogMessage: Option<string>, p: Platform)
    ensures forall s :: s in ResponseHeaders(ResponseHeaderFields(args.response)) ==> s.ResponseHeader?
    ensures forall s :: s in ResponseBodySections(args, bodyLogMessage, p) ==> s.ResponseBody?
    ensures forall s :: s in ErrorSections(args.error, ResponseHost(args, p), p) ==> s == TlsFailure || s.ErrorLine?
  {
  }

  /** The TLS failure line appears exactly for a cancelled request to a
      blocked host; any other error is written with its description; a
      response without an error has no error section. */
  lemma ResponseErrorLines(args: ResponseArguments, bodyLogMessage: Option<string>, p: Platform)
    ensures var ss := ResponseSections(args, bodyLogMessage, p);
            TlsFailure in ss <==> args.error.Some? && IsTlsFailure(args.error.value, ResponseHost(args, p), p)
    ensures var ss := ResponseSections(args, bodyLogMessage, p);
            (exists s :: s in ss && s.ErrorLine?)
            <==> args.error.Some? && !IsTlsFailure(args.error.value, ResponseHost(args, p), p)
    ensures var ss := ResponseSections(args, bodyLogMessage, p);
            args.error.Some? && !IsTlsFailure(args.error.value, ResponseHost(args, p), p) ==>
              ErrorLine(args.error.value.localizedDescription) in ss
  {
    var ss := ResponseSections(args, bodyLogMessage, p);
    NoResponseExtras(args, bodyLogMessage, p);
    if args.error.Some? {
      if IsTlsFailure(args.error.value, ResponseHost(args, p), p) {
        assert TlsFailure in ss;
      } else {
        assert ErrorLine(args.error.value.localizedDescription) in ss;
      }
    }
  }

  /** The placeholder stands in for the body exactly when it is given and
      there is no error; otherwise a body present is written as pretty JSON,
      or else as lossily decoded text; without either there is no body. Every
      body section carries the text of the case that applies. */
  lemma ResponseBodyChoice(args: ResponseArguments, bodyLogMessage: Option<string>, p: Platform)
    ensures var ss := ResponseSections(args, bodyLogMessage, p);
            (exists s :: s in ss && s.ResponseBody?) <==> (bodyLogMessage.Some? && args.error.None?) || args.body.Some?
    ensures var ss := ResponseSections(args, bodyLogMessage, p);
            bodyLogMessage.Some? && args.error.None? ==> ResponseBody(bodyLogMessage.value) in ss
    ensures var ss := ResponseSections(args, bodyLogMessage, p);
            !(bodyLogMessage.Some? && args.error.None?) && args.body.Some? ==>
              ResponseBody(OrElse(p.prettyJson(args.body.value), p.decodeUtf8Lossy(args.body.value))) in ss
    ensures var ss := ResponseSections(args, bodyLogMessage, p);
            forall s :: s in ss && s.ResponseBody? ==>
              if bodyLogMessage.Some? && args.error.None? then s.text == bodyLogMessage.value
              else args.body.Some? && s.text == OrElse(p.prettyJson(args.body.value), p.decodeUtf8Lossy(args.body.value))
  {
    var ss := ResponseSections(args, bodyLogMessage, p);
    var comps := p.urlComponents(UrlString(args.url));
    var body := ResponseBodySections(args, bodyLogMessage, p);
    var before := [ResponseBanner, ResponseUrl(UrlString(args.url))]
                  + StatusSections(args.response, PathOf(comps), QueryOf(comps))
                  + [HostLine(HostOf(comps))]
                  + ResponseHeaders(ResponseHeaderFields(args.response));
    var after := ErrorSections(args.error, HostOf(comps), p) + [EndBanner];
    assert ss == before + body + after;
    NoResponseExtras(args, bodyLogMessage, p);
    assert forall s :: s in before ==> !s.ResponseBody?;
    assert forall s :: s in after ==> !s.ResponseBody?;
    assert forall s :: s in ss && s.ResponseBody? ==> s in body;
    var t := ResponseBodyText(args, bodyLogMessage, p);
    if t.Some? {
      assert body[0] in ss;
    }
  }

  /** A response message lists one header section per header field of an
      HTTP response, right after the host line, and none otherwise. */
  lemma ResponseHeaderOrder(args: ResponseArguments, bodyLogMessage: Option<string>, p: Platform)
    ensures var ss := ResponseSections(args, bodyLogMessage, p);
            var headers := ResponseHeaderFields(args.response);
            var start := |StatusSections(args.response, "", "")| + 3;
            && (forall i :: 0 <= i < |headers| ==> ss[start + i] == ResponseHeader(headers[i].0, headers[i].1))
            && (forall k :: 0 <= k < |ss| ==> (ss[k].ResponseHeader? <==> start <= k < start + |headers|))
  {
    var ss := ResponseSections(args, bodyLogMessage, p);
    var comps := p.urlComponents(UrlString(args.url));
    var st := StatusSections(args.response, PathOf(comps), QueryOf(comps));
    var hs := ResponseHeaders(ResponseHeaderFields(args.response));
    var bs := ResponseBodySections(args, bodyLogMessage, p);
    var es := ErrorSections(args.error, HostOf(comps), p);
    NoResponseExtras(args, bodyLogMessage, p);
    assert |st| == |StatusSections(args.response, "", "")|;
    var start := |st| + 3;
    forall k | 0 <= k < |ss| ensures ss[k].ResponseHeader? <==> start <= k < start + |hs| {
      if k < 2 {
      } else if k < 2 + |st| {
        assert ss[k] == st[k - 2];
      } else if k == 2 + |st| {
      } else if k < start + |hs| {
        assert ss[k] == hs[k - start];
      } else if k < start + |hs| + |bs| {
        assert ss[k] == bs[k - start - |hs|];
        assert bs[k - start - |hs|] in bs;
      } else if k < start + |hs| + |bs| + |es| {
        assert ss[k] == es[k - start - |hs| - |bs|];
        assert es[k - start - |hs| - |bs|] in es;
      } else {
        assert k == |ss| - 1;
      }
    }
  }
}
