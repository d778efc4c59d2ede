/** `HTTPLogBodyMessageFactory`: the text printed in place of an outgoing
    request body, for a raw body, a file body and a multipart form. */
module BodyMessage {
  import opened HttpTypes
  import opened Seqs
  import Multipart

  const LineBreak: string := "\r\n"
  const DiskBanner: string := "{ File From Disk }\n"
  const MemoryBanner: string := "{ File From Memory }\n"
  const BodyFallback: string := "{ HTTP Body }"

  /** `make(_ rawData:)`: nothing for a missing body; otherwise the body as
      pretty JSON, else as UTF-8 text, else a fixed placeholder, between
      two newlines. */
  function RawDataMessage(rawData: Option<Data>, p: Platform): (r: string)
    ensures rawData.None? <==> r == ""
    ensures rawData.Some? ==>
              && |r| >= 2 && r[0] == '\n' && r[|r| - 1] == '\n'
              && r[1..|r| - 1] == match p.prettyJson(rawData.value)
                                  case Some(json) => json
                                  case None => OrElse(p.decodeUtf8(rawData.value), BodyFallback)
  {
    match rawData
    case None => ""
    case Some(d) =>
      match p.prettyJson(d)
      case Some(json) => "\n" + json + "\n"
      case None => "\n" + OrElse(p.decodeUtf8(d), BodyFallback) + "\n"
  }

  /** `make(_ file:)`: a description of a file from disk whenever a path is
      known (even if data is present too), ending with the path and no
      newline; of a file in memory when only data is known, without a path
      line; empty when neither is known. */
  function FileMessage(file: FileType, p: Platform): (r: string)
    ensures r == "" <==> file.path.None? && file.data.None?
    ensures file.path.Some? ==> DiskBanner <= r && EndsWith(r, "- Path: " + file.path.value)
    ensures file.path.None? && file.data.Some? ==>
              MemoryBanner <= r && EndsWith(r, "- Size: " + p.formattedSize(file.size))
  {
    var details := "- Name: " + file.name + "\n" + "- Type: " + file.mimeType.rawValue + "\n"
                   + "- Size: " + p.formattedSize(file.size);
    if file.path.Some? then
      DiskBanner + details + "\n" + "- Path: " + file.path.value
    else if file.data.Some? then
      MemoryBanner + details
    else
      ""
  }

  /** The `Content-Disposition` header of a form part. */
  function Disposition(key: string, fileName: Option<string>): string
  {
    match fileName
    case None => "Content-Disposition: form-data; name=\"" + key + "\""
    case Some(n) => "Content-Disposition: form-data; name=\"" + key + "\"; filename=\"" + n + "\""
  }

  /** The part a form parameter renders to: the boundary line, its
      disposition, a blank line and the value. */
  function ParameterPart(boundary: string, parameter: FormParameter): string
  {
    "--" + boundary + LineBreak
    + Disposition(parameter.key, None) + LineBreak + LineBreak
    + parameter.value + LineBreak
  }

  /** The part a form file renders to: the boundary line, its disposition
      with the file name, its content type, a blank line and the file
      description in place of its payload. */
  function FilePart(boundary: string, file: FormFile, description: string): string
  {
    "--" + boundary + LineBreak
    + Disposition(file.key, Some(file.file.name)) + LineBreak
    + "Content-Type: " + file.file.mimeType.rawValue + LineBreak + LineBreak
    + description
    + LineBreak
  }

  /** Appending the boundary line, the disposition and content-type lines,
      the description and a line break adds one file part. */
  lemma FilePartLines(m: string, boundary: string, file: FormFile, description: string)
    ensures m + "--" + boundary + "\r\n"
            + "Content-Disposition: form-data; name=\"" + file.key + "\"; filename=\"" + file.file.name + "\"" + "\r\n"
            + "Content-Type: " + file.file.mimeType.rawValue + "\r\n" + "\r\n"
            + description + "\r\n"
         == m + FilePart(boundary, file, description)
  {
  }

  function ParameterParts(boundary: string, ps: seq<FormParameter>): seq<string>
  {
    seq(|ps|, i requires 0 <= i < |ps| => ParameterPart(boundary, ps[i]))
  }

  function FileParts(boundary: string, files: seq<FormFile>, p: Platform): seq<string>
  {
    seq(|files|, i requires 0 <= i < |files| => FilePart(boundary, files[i], FileMessage(files[i].file, p)))
  }

  /** The parts of a slice of the parameters are that slice of the parts. */
  lemma ParameterPartsSlice(boundary: string, ps: seq<FormParameter>, lo: nat, hi: nat)
    requires lo <= hi <= |ps|
    ensures ParameterParts(boundary, ps[lo..hi]) == ParameterParts(boundary, ps)[lo..hi]
  {
  }

  /** The parts of a slice of the files are that slice of the parts. */
  lemma FilePartsSlice(boundary: string, files: seq<FormFile>, lo: nat, hi: nat, p: Platform)
    requires lo <= hi <= |files|
    ensures FileParts(boundary, files[lo..hi], p) == FileParts(boundary, files, p)[lo..hi]
  {
    var a := FileParts(boundary, files[lo..hi], p);
    var b := FileParts(boundary, files, p)[lo..hi];
    assert |a| == |b|;
    forall k | 0 <= k < |a| ensures a[k] == b[k] {
      var f := files[lo + k];
      assert files[lo..hi][k] == f;
      assert a[k] == FilePart(boundary, f, FileMessage(f.file, p));
      assert b[k] == FilePart(boundary, f, FileMessage(f.file, p));
    }
  }

  /** One more parameter adds its part to the parameter section. */
  lemma ParameterSectionSnoc(boundary: string, ps: seq<FormParameter>, i: nat)
    requires i < |ps|
    ensures Flatten(ParameterParts(boundary, ps[..i + 1]))
         == Flatten(ParameterParts(boundary, ps[..i])) + ParameterPart(boundary, ps[i])
  {
    ParameterPartsSlice(boundary, ps, 0, i + 1);
    ParameterPartsSlice(boundary, ps, 0, i);
    var all := ParameterParts(boundary, ps);
    TakeSnoc(all, i);
    FlattenSnoc(all[..i], all[i]);
  }

  /** One more file adds its part to the file section. */
  lemma FileSectionSnoc(boundary: string, files: seq<FormFile>, j: nat, p: Platform)
    requires j < |files|
    ensures Flatten(FileParts(boundary, files[..j + 1], p))
         == Flatten(FileParts(boundary, files[..j], p)) + FilePart(boundary, files[j], FileMessage(files[j].file, p))
  {
    FilePartsSlice(boundary, files, 0, j + 1, p);
    FilePartsSlice(boundary, files, 0, j, p);
    var all := FileParts(boundary, files, p);
    TakeSnoc(all, j);
    FlattenSnoc(all[..j], all[j]);
  }

  /** Appending the closing boundary adds the footer. */
  lemma FooterLines(m: string, boundary: string)
    ensures m + "--" + boundary + "--" + "\r\n" == m + Footer(boundary)
  {
  }

  /** Appending the boundary line, the disposition line and the value adds
      one parameter part. */
  lemma ParameterPartLines(m: string, boundary: string, parameter: FormParameter)
    ensures m + "--" + boundary + "\r\n"
            + "Content-Disposition: form-data; name=\"" + parameter.key + "\"" + "\r\n" + "\r\n"
            + parameter.value + "\r\n"
         == m + ParameterPart(boundary, parameter)
  {
  }

  function Footer(boundary: string): string
  {
    "--" + boundary + "--" + LineBreak
  }

  /** The form-data message: a newline, the parameter parts, the file parts,
      the closing boundary. */
  function FormDataMessage(formData: FormData, p: Platform): string
  {
    "\n" + Flatten(ParameterParts(formData.boundary, formData.parameters))
    + Flatten(FileParts(formData.boundary, formData.files, p))
    + Footer(formData.boundary)
  }

  /** `make(_ formData:)`, accumulating the message part by part. */
  method MakeFormData(formData: FormData, p: Platform) returns (logBodyMessage: string)
    ensures logBodyMessage == FormDataMessage(formData, p)
  {
    logBodyMessage := "\n";
    var boundary := formData.boundary;
    var lineBreak := "\r\n";
    var parameters := formData.parameters;
    for i := 0 to |parameters|
      invariant logBodyMessage == "\n" + Flatten(ParameterParts(boundary, parameters[..i]))
    {
      var parameter := parameters[i];
      ghost var before := logBodyMessage;
      logBodyMessage := logBodyMessage + "--" + boundary + lineBreak;
      logBodyMessage := logBodyMessage + "Content-Disposition: form-data; name=\"" + parameter.key + "\"" + lineBreak + lineBreak;
      logBodyMessage := logBodyMessage + parameter.value + lineBreak;
      ParameterPartLines(before, boundary, parameter);
      ParameterSectionSnoc(boundary, parameters, i);
      AppendAssoc("\n", Flatten(ParameterParts(boundary, parameters[..i])), ParameterPart(boundary, parameter));
    }
    assert parameters[..|parameters|] == parameters;
    ghost var head := logBodyMessage;
    var files := formData.files;
    for j := 0 to |files|
      invariant logBodyMessage == head + Flatten(FileParts(boundary, files[..j], p))
    {
      var file := files[j];
      ghost var before := logBodyMessage;
      logBodyMessage := logBodyMessage + "--" + boundary + lineBreak;
      logBodyMessage := logBodyMessage + "Content-Disposition: form-data; name=\"" + file.key + "\"; filename=\"" + file.file.name + "\"" + lineBreak;
      logBodyMessage := logBodyMessage + "Content-Type: " + file.file.mimeType.rawValue + lineBreak + lineBreak;
      var fileBodyLogMessage := FileMessage(file.file, p);
      logBodyMessage := logBodyMessage + fileBodyLogMessage;
      logBodyMessage := logBodyMessage + lineBreak;
      FilePartLines(before, boundary, file, fileBodyLogMessage);
      FileSectionSnoc(boundary, files, j, p);
      AppendAssoc(head, Flatten(FileParts(boundary, files[..j], p)), FilePart(boundary, file, fileBodyLogMessage));
    }
    assert files[..|files|] == files;
    ghost var body := logBodyMessage;
    logBodyMessage := logBodyMessage + "--" + boundary + "--" + lineBreak;
    FooterLines(body, boundary);
  }

  /** `make(bodyOption:)`: the message for each kind of body. */
  function BodyText(bodyOption: HTTPLogBodyOption, p: Platform): (r: string)
    ensures bodyOption.Plain? ==> r == RawDataMessage(bodyOption.body, p)
    ensures bodyOption.File? ==> r == FileMessage(bodyOption.file, p)
    ensures bodyOption.FormBody? ==> r == FormDataMessage(bodyOption.formData, p)
    ensures bodyOption.FormBody? ==>
              "\n" <= r && EndsWith(r, "--" + bodyOption.formData.boundary + "--\r\n")
  {
    match bodyOption
    case Plain(body) => RawDataMessage(body, p)
    case File(file) => FileMessage(file, p)
    case FormBody(formData) => FormDataMessage(formData, p)
  }

  /** `make(bodyOption:)` as the source runs it, dispatching to the
      renderer for the case. */
  method MakeBodyMessage(bodyOption: HTTPLogBodyOption, p: Platform) returns (message: string)
    ensures message == BodyText(bodyOption, p)
  {
    match bodyOption
    case Plain(body) =>
      message := RawDataMessage(body, p);
    case File(file) =>
      message := FileMessage(file, p);
    case FormBody(formData) =>
      message := MakeFormData(formData, p);
  }

  /** The form's parts in the reference multipart layout: one part per
      parameter with a name-only disposition, then one part per file with
      a name-and-filename disposition and a `Content-Type` header. */
  function FormParts(formData: FormData, p: Platform): seq<Multipart.Part>
  {
    ParameterFormParts(formData.parameters) + FileFormParts(formData.files, p)
  }

  function ParameterFormParts(ps: seq<FormParameter>): seq<Multipart.Part>
  {
    seq(|ps|, i requires 0 <= i < |ps| => Multipart.Part([Disposition(ps[i].key, None)], ps[i].value))
  }

  function FileFormParts(fs: seq<FormFile>, p: Platform): seq<Multipart.Part>
  {
    seq(|fs|, i requires 0 <= i < |fs| =>
      Multipart.Part([Disposition(fs[i].key, Some(fs[i].file.name)), "Content-Type: " + fs[i].file.mimeType.rawValue],
                     FileMessage(fs[i].file, p)))
  }

  lemma ParameterPartIsEncapsulation(boundary: string, parameter: FormParameter)
    ensures Multipart.Encapsulation(boundary, Multipart.Part([Disposition(parameter.key, None)], parameter.value))
         == ParameterPart(boundary, parameter)
  {
    Multipart.HeaderBlockOne(Disposition(parameter.key, None));
  }

  lemma FilePartIsEncapsulation(boundary: string, file: FormFile, description: string)
    ensures Multipart.Encapsulation(boundary,
              Multipart.Part([Disposition(file.key, Some(file.file.name)), "Content-Type: " + file.file.mimeType.rawValue],
                             description))
         == FilePart(boundary, file, description)
  {
    Multipart.HeaderBlockTwo(Disposition(file.key, Some(file.file.name)), "Content-Type: " + file.file.mimeType.rawValue);
  }

  /** The form-data message is a newline followed by a multipart body in
      the layout of RFC 2046 section 5.1.1, with exactly one part per
      parameter and per file and the file payloads replaced by their
      descriptions. */
  lemma FormDataMessageIsMultipart(formData: FormData, p: Platform)
    ensures FormDataMessage(formData, p) == "\n" + Multipart.Body(formData.boundary, FormParts(formData, p))
    ensures |FormParts(formData, p)| == |formData.parameters| + |formData.files|
  {
    var b := formData.boundary;
    var pp := ParameterParts(b, formData.parameters);
    var fp := FileParts(b, formData.files, p);
    EncapsulatedFormParts(formData, p);
    FlattenAppend(pp, fp);
    assert Footer(b) == Multipart.CloseDelimiter(b);
    AppendAssoc(Flatten(pp), Flatten(fp), Footer(b));
    AppendAssoc("\n" + Flatten(pp), Flatten(fp), Footer(b));
    AppendAssoc("\n", Flatten(pp), Flatten(fp) + Footer(b));
  }

  /** Encapsulating the form's parts yields the parameter parts followed by
      the file parts. */
  lemma EncapsulatedFormParts(formData: FormData, p: Platform)
    ensures Multipart.Encapsulations(formData.boundary, FormParts(formData, p))
         == ParameterParts(formData.boundary, formData.parameters) + FileParts(formData.boundary, formData.files, p)
  {
    var b := formData.boundary;
    Multipart.EncapsulationsAppend(b, ParameterFormParts(formData.parameters), FileFormParts(formData.files, p));
    EncapsulatedParameters(b, formData.parameters);
    EncapsulatedFiles(b, formData.files, p);
  }

  lemma EncapsulatedParameters(boundary: string, ps: seq<FormParameter>)
    ensures Multipart.Encapsulations(boundary, ParameterFormParts(ps)) == ParameterParts(boundary, ps)
  {
    var enc := Multipart.Encapsulations(boundary, ParameterFormParts(ps));
    forall k | 0 <= k < |ps| ensures enc[k] == ParameterParts(boundary, ps)[k] {
      ParameterPartIsEncapsulation(boundary, ps[k]);
    }
  }

  lemma EncapsulatedFiles(boundary: string, fs: seq<FormFile>, p: Platform)
    ensures Multipart.Encapsulations(boundary, FileFormParts(fs, p)) == FileParts(boundary, fs, p)
  {
    var enc := Multipart.Encapsulations(boundary, FileFormParts(fs, p));
    forall k | 0 <= k < |fs| ensures enc[k] == FileParts(boundary, fs, p)[k] {
      FilePartIsEncapsulation(boundary, fs[k], FileMessage(fs[k].file, p));
    }
  }

  /** A form without parameters or files renders as a newline and the
      closing boundary alone. */
  lemma EmptyFormData(boundary: string, p: Platform)
    ensures FormDataMessage(FormData(boundary, [], []), p) == "\n--" + boundary + "--\r\n"
  {
    assert ParameterParts(boundary, []) == [];
    assert FileParts(boundary, [], p) == [];
  }

  /** Parameter `i` and file `j` each render exactly their own part, in list
      order; every parameter part precedes every file part, and the closing
      boundary is the final suffix. */
  lemma PartOrder(formData: FormData, p: Platform, i: nat, j: nat)
    requires i < |formData.parameters| && j < |formData.files|
    ensures var b, ps, fs := formData.boundary, formData.parameters, formData.files;
            FormDataMessage(formData, p)
            == "\n"
               + (Flatten(ParameterParts(b, ps[..i])) + ParameterPart(b, ps[i]) + Flatten(ParameterParts(b, ps[i + 1..])))
               + (Flatten(FileParts(b, fs[..j], p)) + FilePart(b, fs[j], FileMessage(fs[j].file, p))
                  + Flatten(FileParts(b, fs[j + 1..], p)))
               + Footer(b)
  {
    ParameterSectionAt(formData.boundary, formData.parameters, i);
    FileSectionAt(formData.boundary, formData.files, j, p);
  }

  /** Parameter `i` contributes exactly its own part, after the parts of
      the parameters before it and before those after it. */
  lemma ParameterSectionAt(boundary: string, ps: seq<FormParameter>, i: nat)
    requires i < |ps|
    ensures Flatten(ParameterParts(boundary, ps))
         == Flatten(ParameterParts(boundary, ps[..i])) + ParameterPart(boundary, ps[i])
            + Flatten(ParameterParts(boundary, ps[i + 1..]))
  {
    var pp := ParameterParts(boundary, ps);
    FlattenAt(pp, i);
    ParameterPartsSlice(boundary, ps, 0, i);
    ParameterPartsSlice(boundary, ps, i + 1, |ps|);
    SliceForms(ps, i);
    SliceForms(pp, i);
  }

  /** File `j` contributes exactly its own part, after the parts of the
      files before it and before those after it. */
  lemma FileSectionAt(boundary: string, fs: seq<FormFile>, j: nat, p: Platform)
    requires j < |fs|
    ensures Flatten(FileParts(boundary, fs, p))
         == Flatten(FileParts(boundary, fs[..j], p)) + FilePart(boundary, fs[j], FileMessage(fs[j].file, p))
            + Flatten(FileParts(boundary, fs[j + 1..], p))
  {
    var fp := FileParts(boundary, fs, p);
    FlattenAt(fp, j);
    FilePartsSlice(boundary, fs, 0, j, p);
    FilePartsSlice(boundary, fs, j + 1, |fs|, p);
    SliceForms(fs, j);
    SliceForms(fp, j);
  }

  /** The single-parameter example: boundary `B1` and parameter
      `name=hello`. */
  lemma OneParameterExample(p: Platform)
    ensures FormDataMessage(FormData("B1", [FormParameter("name", "hello")], []), p)
         == "\n" + ("--B1\r\n" + "Content-Disposition: form-data; name=\"name\"\r\n\r\n" + "hello\r\n") + "--B1--\r\n"
  {
    var ps := [FormParameter("name", "hello")];
    assert ParameterParts("B1", ps) == [] + [ParameterPart("B1", ps[0])];
    FlattenSnoc([], ParameterPart("B1", ps[0]));
    assert FileParts("B1", [], p) == [];
    ExampleParameterPart();
    assert Footer("B1") == "--B1--\r\n";
    assert Flatten(FileParts("B1", [], p)) == [];
  }

  lemma ExampleParameterPart()
    ensures ParameterPart("B1", FormParameter("name", "hello"))
         == "--B1\r\n" + "Content-Disposition: form-data; name=\"name\"\r\n\r\n" + "hello\r\n"
  {
    assert "--" + "B1" + "\r\n" == "--B1\r\n";
    assert "Content-Disposition: form-data; name=\"" + "name" + "\"" + "\r\n" + "\r\n"
        == "Content-Disposition: form-data; name=\"name\"\r\n\r\n";
    assert "hello" + "\r\n" == "hello\r\n";
  }
}
