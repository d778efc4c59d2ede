/** `CURLCommandFactory`: the cURL command line equivalent to a request,
    one flag per element, the elements joined by a line continuation. */
module CurlCommand {
  import opened HttpTypes
  import opened Seqs

  /** `" \\\n\t"`: a space, a backslash, a newline and a tab. */
  const Separator: string := " \\\n\t"
  const PathPlaceholder: string := "{ Path to the file }"

  /** The first element: `curl "<url>"`, with ` --head` for a HEAD request. */
  function BaseCommand(url: Url, httpMethod: Option<string>): string
  {
    "curl \"" + url.absoluteString + "\"" + (if httpMethod == Some("HEAD") then " --head" else "")
  }

  /** The method a request states explicitly with `-X`. */
  predicate IsExplicitMethod(httpMethod: Option<string>)
  {
    httpMethod.Some? && httpMethod.value != "GET" && httpMethod.value != "HEAD"
  }

  function MethodElements(httpMethod: Option<string>): seq<string>
  {
    if IsExplicitMethod(httpMethod) then ["-X " + httpMethod.value] else []
  }

  function HeaderElement(header: Header): string
  {
    "-H '" + header.0 + ": " + header.1 + "'"
  }

  /** The headers other than `Cookie`, in iteration order. */
  function WithoutCookie(headers: seq<Header>): seq<Header>
  {
    if headers == [] then []
    else WithoutCookie(headers[..|headers| - 1])
         + (if headers[|headers| - 1].0 == "Cookie" then [] else [headers[|headers| - 1]])
  }

  function HeaderElements(headers: seq<Header>): seq<string>
  {
    var kept := WithoutCookie(headers);
    seq(|kept|, i requires 0 <= i < |kept| => HeaderElement(kept[i]))
  }

  function ParameterElement(parameter: FormParameter): string
  {
    "-F '" + parameter.key + "=" + parameter.value + "'"
  }

  function FileElement(file: FormFile): string
  {
    "-F '" + file.key + "=@" + OrElse(file.file.path, PathPlaceholder) + ";filename=" + file.file.name + "'"
  }

  function ParameterElements(ps: seq<FormParameter>): seq<string>
  {
    seq(|ps|, i requires 0 <= i < |ps| => ParameterElement(ps[i]))
  }

  function FileElements(files: seq<FormFile>): seq<string>
  {
    seq(|files|, i requires 0 <= i < |files| => FileElement(files[i]))
  }

  /** The body flags: `-d` with the request body when it is UTF-8 text (the
      body in a plain option is not consulted), `--upload-file` for a file,
      `-F` per parameter and then per file for a form. */
  function BodyElements(request: URLRequest, bodyOption: HTTPLogBodyOption, p: Platform): seq<string>
  {
    match bodyOption
    case Plain(_) =>
      if request.httpBody.Some? && p.decodeUtf8(request.httpBody.value).Some?
      then ["-d '" + p.decodeUtf8(request.httpBody.value).value + "'"]
      else []
    case File(file) => ["--upload-file " + OrElse(file.path, PathPlaceholder)]
    case FormBody(formData) => ParameterElements(formData.parameters) + FileElements(formData.files)
  }

  /** The elements of the command, in order. */
  function Elements(request: URLRequest, bodyOption: HTTPLogBodyOption, p: Platform): seq<string>
    requires request.url.Some?
  {
    [BaseCommand(request.url.value, request.httpMethod)]
    + MethodElements(request.httpMethod)
    + HeaderElements(OrElse(request.allHTTPHeaderFields, []))
    + BodyElements(request, bodyOption, p)
  }

  /** The command: nothing without a URL, else the elements joined. */
  function CommandText(request: URLRequest, bodyOption: HTTPLogBodyOption, p: Platform): string
  {
    if request.url.None? then "" else Join(Elements(request, bodyOption, p), Separator)
  }

  /** `make(for:bodyOption:)`, appending element after element. */
  method Make(request: URLRequest, bodyOption: HTTPLogBodyOption, p: Platform) returns (result: string)
    ensures result == CommandText(request, bodyOption, p)
    ensures request.url.None? <==> result == ""
  {
    if request.url.None? {
      return "";
    }
    var url := request.url.value;
    var baseCommand := "curl \"" + url.absoluteString + "\"";
    if request.httpMethod == Some("HEAD") {
      baseCommand := baseCommand + " --head";
    }
    assert baseCommand == BaseCommand(url, request.httpMethod);
    var command := [baseCommand];
    if request.httpMethod.Some? {
      var httpMethod := request.httpMethod.value;
      if httpMethod != "GET" && httpMethod != "HEAD" {
        command := command + ["-X " + httpMethod];
      }
    }
    assert command == [BaseCommand(url, request.httpMethod)] + MethodElements(request.httpMethod);
    if request.allHTTPHeaderFields.Some? {
      command := AppendHeaderFlags(command, request.allHTTPHeaderFields.value);
    } else {
      assert HeaderElements([]) == [];
    }
    assert command
        == [BaseCommand(url, request.httpMethod)] + MethodElements(request.httpMethod)
           + HeaderElements(OrElse(request.allHTTPHeaderFields, []));
    command := AppendBodyFlags(command, request, bodyOption, p);
    assert command == Elements(request, bodyOption, p);
    result := Join(command, Separator);
    JoinHead(command, Separator);
  }

  /** The `-H` flags of `make(for:bodyOption:)`, skipping the `Cookie` header. */
  method AppendHeaderFlags(command: seq<string>, headers: seq<Header>) returns (result: seq<string>)
    ensures result == command + HeaderElements(headers)
  {
    result := command;
    for i := 0 to |headers|
      invariant result == command + HeaderElements(headers[..i])
    {
      HeaderElementsSnoc(headers, i);
      if headers[i].0 != "Cookie" {
        result := result + ["-H '" + headers[i].0 + ": " + headers[i].1 + "'"];
      }
    }
    assert headers[..|headers|] == headers;
  }

  /** The body flags of `make(for:bodyOption:)`. */
  method AppendBodyFlags(command: seq<string>, request: URLRequest, bodyOption: HTTPLogBodyOption, p: Platform)
    returns (result: seq<string>)
    ensures result == command + BodyElements(request, bodyOption, p)
  {
    result := command;
    match bodyOption {
      case Plain(_) =>
        if request.httpBody.Some? {
          var body := p.decodeUtf8(request.httpBody.value);
          if body.Some? {
            result := result + ["-d '" + body.value + "'"];
          }
        }
      case File(file) =>
        result := result + ["--upload-file " + OrElse(file.path, PathPlaceholder)];
      case FormBody(formData) =>
        var parameters := formData.parameters;
        for i := 0 to |parameters|
          invariant result == command + ParameterElements(parameters[..i])
        {
          assert ParameterElements(parameters[..i + 1]) == ParameterElements(parameters[..i]) + [ParameterElement(parameters[i])];
          result := result + ["-F '" + parameters[i].key + "=" + parameters[i].value + "'"];
        }
        assert parameters[..|parameters|] == parameters;
        ghost var afterParameters := result;
        var files := formData.files;
        for j := 0 to |files|
          invariant result == afterParameters + FileElements(files[..j])
        {
          assert FileElements(files[..j + 1]) == FileElements(files[..j]) + [FileElement(files[j])];
          var path := OrElse(files[j].file.path, PathPlaceholder);
          result := result + ["-F '" + files[j].key + "=@" + path + ";filename=" + files[j].file.name + "'"];
        }
        assert files[..|files|] == files;
        AppendAssoc(command, ParameterElements(parameters), FileElements(files));
    }
  }

  /** One more header adds its element unless it is the `Cookie` header. */
  lemma HeaderElementsSnoc(headers: seq<Header>, i: nat)
    requires i < |headers|
    ensures HeaderElements(headers[..i + 1])
         == HeaderElements(headers[..i]) + (if headers[i].0 == "Cookie" then [] else [HeaderElement(headers[i])])
  {
    assert headers[..i + 1][..i] == headers[..i];
  }

  /** The `Cookie` filter keeps exactly the other headers, in order. */
  lemma {:induction false} WithoutCookieSpec(headers: seq<Header>)
    ensures forall h :: h in WithoutCookie(headers) <==> h in headers && h.0 != "Cookie"
    ensures |WithoutCookie(headers)| <= |headers|
    decreases |headers|
  {
    if headers != [] {
      var init := headers[..|headers| - 1];
      WithoutCookieSpec(init);
      assert headers == init + [headers[|headers| - 1]];
    }
  }

  /** Every header other than `Cookie` yields exactly one `-H` element and the
      `Cookie` header yields none. */
  lemma HeaderElementsSpec(headers: seq<Header>)
    ensures |HeaderElements(headers)| == |WithoutCookie(headers)|
    ensures forall h :: h in headers && h.0 != "Cookie" ==> HeaderElement(h) in HeaderElements(headers)
    ensures forall e :: e in HeaderElements(headers) ==>
              exists h :: h in headers && h.0 != "Cookie" && e == HeaderElement(h)
  {
    WithoutCookieSpec(headers);
    var kept := WithoutCookie(headers);
    var es := HeaderElements(headers);
    forall h | h in headers && h.0 != "Cookie" ensures HeaderElement(h) in es {
      var k :| 0 <= k < |kept| && kept[k] == h;
      assert es[k] == HeaderElement(h);
    }
    forall e | e in es ensures exists h :: h in headers && h.0 != "Cookie" && e == HeaderElement(h) {
      var k :| 0 <= k < |es| && es[k] == e;
      assert kept[k] in kept;
    }
  }

  /** The command opens with `curl "<url>"`, followed by ` --head` exactly
      when the method is HEAD. */
  lemma CommandStart(request: URLRequest, bodyOption: HTTPLogBodyOption, p: Platform)
    requires request.url.Some?
    ensures ("curl \"" + request.url.value.absoluteString + "\"") <= CommandText(request, bodyOption, p)
    ensures Elements(request, bodyOption, p)[0]
         == "curl \"" + request.url.value.absoluteString + "\""
            + (if request.httpMethod == Some("HEAD") then " --head" else "")
  {
    var es := Elements(request, bodyOption, p);
    JoinHead(es, Separator);
  }

  /** An element that sets the method: it starts with `-X `. */
  predicate IsMethodFlag(e: string)
  {
    |e| >= 3 && e[..3] == "-X "
  }

  /** An `-X <method>` element is present exactly when the method is neither
      GET nor HEAD, and then it is the second element. */
  lemma MethodFlag(request: URLRequest, bodyOption: HTTPLogBodyOption, p: Platform)
    requires request.url.Some?
    ensures var es := Elements(request, bodyOption, p);
            (exists k :: 0 < k < |es| && IsMethodFlag(es[k])) <==> IsExplicitMethod(request.httpMethod)
    ensures IsExplicitMethod(request.httpMethod) ==>
              Elements(request, bodyOption, p)[1] == "-X " + request.httpMethod.value
  {
    var es := Elements(request, bodyOption, p);
    var m := MethodElements(request.httpMethod);
    var hs := HeaderElements(OrElse(request.allHTTPHeaderFields, []));
    var bs := BodyElements(request, bodyOption, p);
    assert es == [es[0]] + m + hs + bs;
    forall k | 1 + |m| <= k < |es| ensures !IsMethodFlag(es[k]) {
      if k < 1 + |m| + |hs| {
        assert es[k] == hs[k - 1 - |m|];
        assert es[k][1] == 'H';
      } else {
        var e := bs[k - 1 - |m| - |hs|];
        assert es[k] == e;
        match bodyOption {
          case Plain(_) => assert e[1] == 'd';
          case File(_) => assert e[1] == '-';
          case FormBody(fd) =>
            var n := |fd.parameters|;
            if k - 1 - |m| - |hs| < n {
              assert e == ParameterElement(fd.parameters[k - 1 - |m| - |hs|]);
            } else {
              assert e == FileElement(fd.files[k - 1 - |m| - |hs| - n]);
            }
            assert e[1] == 'F';
        }
      }
    }
    if IsExplicitMethod(request.httpMethod) {
      assert es[1] == "-X " + request.httpMethod.value;
      assert IsMethodFlag(es[1]);
    }
  }

  /** The form flags: one `-F 'k=v'` per parameter in order, then one
      `-F 'k=@path;filename=n'` per file, with a placeholder for a file
      without a path. */
  lemma FormFlags(formData: FormData)
    ensures var es := ParameterElements(formData.parameters) + FileElements(formData.files);
            && |es| == |formData.parameters| + |formData.files|
            && (forall i :: 0 <= i < |formData.parameters| ==>
                  es[i] == "-F '" + formData.parameters[i].key + "=" + formData.parameters[i].value + "'")
            && (forall j :: 0 <= j < |formData.files| ==>
                  es[|formData.parameters| + j]
                  == "-F '" + formData.files[j].key + "=@" + OrElse(formData.files[j].file.path, PathPlaceholder)
                     + ";filename=" + formData.files[j].file.name + "'")
  {
    var ps := ParameterElements(formData.parameters);
    var fs := FileElements(formData.files);
    forall j | 0 <= j < |formData.files|
      ensures (ps + fs)[|ps| + j]
           == "-F '" + formData.files[j].key + "=@" + OrElse(formData.files[j].file.path, PathPlaceholder)
              + ";filename=" + formData.files[j].file.name + "'"
    {
      var f := formData.files[j];
      assert (ps + fs)[|ps| + j] == FileElement(f);
    }
  }

  /** A file body gives exactly one `--upload-file` element, and a plain body
      gives the `-d '<text>'` element exactly when the request body
      decodes as UTF-8. */
  lemma BodyFlags(request: URLRequest, bodyOption: HTTPLogBodyOption, p: Platform)
    ensures bodyOption.File? ==>
              BodyElements(request, bodyOption, p) == ["--upload-file " + OrElse(bodyOption.file.path, PathPlaceholder)]
    ensures bodyOption.Plain? ==>
              (|BodyElements(request, bodyOption, p)| == 1
               <==> request.httpBody.Some? && p.decodeUtf8(request.httpBody.value).Some?)
    ensures bodyOption.Plain? ==> |BodyElements(request, bodyOption, p)| <= 1
    ensures bodyOption.Plain? && request.httpBody.Some? && p.decodeUtf8(request.httpBody.value).Some? ==>
              BodyElements(request, bodyOption, p) == ["-d '" + p.decodeUtf8(request.httpBody.value).value + "'"]
  {
  }

  /** Joining puts one separator between consecutive elements: the command
      is as long as its elements plus one separator fewer than elements. */
  lemma CommandLength(request: URLRequest, bodyOption: HTTPLogBodyOption, p: Platform)
    requires request.url.Some?
    ensures |CommandText(request, bodyOption, p)|
         == TotalLength(Elements(request, bodyOption, p)) + (|Elements(request, bodyOption, p)| - 1) * |Separator|
  {
    JoinLength(Elements(request, bodyOption, p), Separator);
  }
}
