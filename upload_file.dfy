/** `File`: the two failable initializers of an upload file, one for a
    payload held in memory and one for a file on disk read as a stream. */
module UploadFile {
  import opened HttpTypes

  /** Above this many bytes a DEBUG build logs a memory warning (10 MiB). */
  const LargeFileThreshold: int := 10_485_760

  /** The Foundation services the initializers consult. */
  datatype FileSystem = FileSystem(
    mimeType: string -> Option<MimeType>,               // HTTPMIMEType(fileExtension:)
    splitNameAndExtension: string -> (string, string),  // String.splitNameAndExtension()
    lastPathComponent: Url -> string,                   // URL.lastPathComponent
    path: Url -> string,                                // URL.path() / URL.path
    openStream: Url -> Option<InputStream>,             // InputStream(url:)
    sizeOfFile: Url -> Option<int>)                     // FileManager.sizeOfFile(atURL:)

  /** A file whose payload is held in memory: no path, no stream, and a size
      equal to the byte count. */
  predicate IsBuffered(f: FileType)
  {
    f.path.None? && f.inputStream.None? && f.data.Some? && f.size == |f.data.value|
  }

  /** Never both a buffered and a streamed payload. */
  predicate PayloadExclusive(f: FileType)
  {
    !(f.data.Some? && f.inputStream.Some?)
  }

  /** Whether a DEBUG build logs the large-upload memory warning for `f`. */
  predicate LogsLargeUpload(f: FileType)
  {
    f.size > LargeFileThreshold
  }

  /** `init?(withName:withExtension:withData:)`. */
  function InitWithData(name: string, ext: string, data: Data, fs: FileSystem): (r: Option<FileType>)
    ensures r.None? <==> fs.mimeType(ext).None?
    ensures r.Some? ==> IsBuffered(r.value) && PayloadExclusive(r.value)
    ensures r.Some? ==> r.value.name == name && r.value.data == Some(data)
                        && r.value.mimeType == fs.mimeType(ext).value
  {
    match fs.mimeType(ext)
    case None => None
    case Some(mime) => Some(FileType(name, None, Some(data), None, mime, |data|))
  }

  /** The memory warning of the data initializer fires exactly for a
      constructed file of more than 10 MiB; it is an observation made after
      every field is set and leaves the file as constructed. */
  lemma LargeUploadAdvisory(name: string, ext: string, data: Data, fs: FileSystem)
    requires InitWithData(name, ext, data, fs).Some?
    ensures LogsLargeUpload(InitWithData(name, ext, data, fs).value) <==> |data| > 10_485_760
  {
  }

  /** `init?(withURL:)`: the name is the last path component with its
      extension split off; the MIME type comes from that extension. */
  function InitWithUrl(url: Url, fs: FileSystem): (r: Option<FileType>)
    ensures var (name, ext) := fs.splitNameAndExtension(fs.lastPathComponent(url));
            r.None? <==> fs.mimeType(ext).None? || fs.sizeOfFile(url).None?
    ensures r.Some? ==> r.value.data.None? && PayloadExclusive(r.value)
    ensures r.Some? ==>
              && r.value.name == fs.splitNameAndExtension(fs.lastPathComponent(url)).0
              && r.value.path == Some(fs.path(url))
              && r.value.inputStream == fs.openStream(url)
              && r.value.size == fs.sizeOfFile(url).value
    ensures r.Some? ==>
              r.value.mimeType == fs.mimeType(fs.splitNameAndExtension(fs.lastPathComponent(url)).1).value
  {
    var (name, ext) := fs.splitNameAndExtension(fs.lastPathComponent(url));
    match fs.mimeType(ext)
    case None => None
    case Some(mime) =>
      match fs.sizeOfFile(url)
      case None => None
      case Some(size) => Some(FileType(name, Some(fs.path(url)), None, fs.openStream(url), mime, size))
  }
}
