/** The multipart body layout of section 5.1.1 of RFC 2046, as used by
    multipart/form-data (RFC 7578): every body part is opened by a dash
    boundary line, carries header lines, an empty line and its content, and
    the body is closed by the close delimiter. This is the reference layout
    the form-data log renderer is proved to follow. */
module Multipart {
  import opened Seqs

  const CRLF: string := "\r\n"

  /** A body part: its header lines (without line breaks) and its content. */
  datatype Part = Part(headers: seq<string>, content: string)

  /** The header lines, each followed by a line break. */
  function HeaderBlock(headers: seq<string>): string
  {
    Flatten(seq(|headers|, i requires 0 <= i < |headers| => headers[i] + CRLF))
  }

  /** One encapsulated part: dash boundary, headers, empty line, content and
      the line break that precedes the next delimiter. */
  function Encapsulation(boundary: string, part: Part): string
  {
    "--" + boundary + CRLF + HeaderBlock(part.headers) + CRLF + part.content + CRLF
  }

  /** The encapsulations of the parts, in order. */
  function Encapsulations(boundary: string, parts: seq<Part>): seq<string>
  {
    seq(|parts|, i requires 0 <= i < |parts| => Encapsulation(boundary, parts[i]))
  }

  /** The close delimiter, `--boundary--` and a line break. */
  function CloseDelimiter(boundary: string): string
  {
    "--" + boundary + "--" + CRLF
  }

  /** A whole multipart body: the parts in order, then the close delimiter. */
  function Body(boundary: string, parts: seq<Part>): string
  {
    Flatten(Encapsulations(boundary, parts)) + CloseDelimiter(boundary)
  }

  /** A single header line is that line and a line break. */
  lemma HeaderBlockOne(h: string)
    ensures HeaderBlock([h]) == h + CRLF
  {
    var lines := seq(1, i requires 0 <= i < 1 => [h][i] + CRLF);
    assert lines == [] + [h + CRLF];
    FlattenSnoc([], h + CRLF);
  }

  /** Two header lines are written in order. */
  lemma HeaderBlockTwo(h1: string, h2: string)
    ensures HeaderBlock([h1, h2]) == h1 + CRLF + h2 + CRLF
  {
    var lines := seq(2, i requires 0 <= i < 2 => [h1, h2][i] + CRLF);
    assert lines == [h1 + CRLF] + [h2 + CRLF];
    FlattenSnoc([h1 + CRLF], h2 + CRLF);
    FlattenSnoc([], h1 + CRLF);
    assert [] + [h1 + CRLF] == [h1 + CRLF];
  }

  /** The encapsulations of two lists of parts are those of the first list
      followed by those of the second. */
  lemma EncapsulationsAppend(boundary: string, a: seq<Part>, b: seq<Part>)
    ensures Encapsulations(boundary, a + b) == Encapsulations(boundary, a) + Encapsulations(boundary, b)
  {
  }
}
