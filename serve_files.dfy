/**
 * ServeFilesCommand.FileHandler: the decisions of the static-file server.
 * The file system is passed in: how `Paths.get` joins two parts, what kind
 * of entry a path names and what reading a file gives.
 */
module ServeFiles {
  import opened Wrappers
  import JavaString

  /** What `File.exists`, `isFile` and `isDirectory` say about a path. */
  datatype EntryKind = Missing | RegularFile | Directory

  /** The file system seen by the handler. */
  datatype FileSystem = FileSystem(
    join: (string, string) -> string,
    kind: string -> EntryKind,
    read: string -> Result<seq<bv8>>)

  // ---------------------------------------------------------------------
  // Path cleaning.
  // ---------------------------------------------------------------------

  const DOUBLE_DOT := ".."
  const INDEX := "index.html"

  /** The request path of `getFilePath` after cleaning: every ".." removed, and "index.html" after a final "/". */
  function CleanPath(requestPath: string): string {
    var cleaned := JavaString.Replace(requestPath, DOUBLE_DOT, "");
    if JavaString.EndsWith(cleaned, "/") then cleaned + INDEX else cleaned
  }

  /** No two dots in a row. */
  predicate NoDoubleDot(s: string) {
    forall i :: 0 <= i < |s| - 1 ==> !(s[i] == '.' && s[i + 1] == '.')
  }

  /** A string containing ".." has two dots in a row. */
  lemma {:induction false} ContainsDoubleDot(s: string)
    requires JavaString.Contains(s, DOUBLE_DOT)
    ensures !NoDoubleDot(s)
    decreases |s|
  {
    if JavaString.StartsWith(s, DOUBLE_DOT) {
      assert s[..2] == DOUBLE_DOT;
      assert s[0] == '.' && s[1] == '.';
    } else {
      ContainsDoubleDot(s[1..]);
      var i :| 0 <= i < |s[1..]| - 1 && s[1..][i] == '.' && s[1..][i + 1] == '.';
      assert s[i + 1] == '.' && s[i + 2] == '.';
    }
  }

  /** Removing every ".." leaves no two dots in a row: a dot is kept only when no dot follows it. */
  lemma {:induction false} RemovedDoubleDots(s: string)
    ensures NoDoubleDot(JavaString.Replace(s, DOUBLE_DOT, ""))
    decreases |s|
  {
    if s == [] {
    } else if JavaString.StartsWith(s, DOUBLE_DOT) {
      RemovedDoubleDots(s[2..]);
      assert JavaString.Replace(s, DOUBLE_DOT, "") == JavaString.Replace(s[2..], DOUBLE_DOT, "");
    } else {
      var rest := JavaString.Replace(s[1..], DOUBLE_DOT, "");
      RemovedDoubleDots(s[1..]);
      assert JavaString.Replace(s, DOUBLE_DOT, "") == [s[0]] + rest;
      if s[0] == '.' && |s| > 1 {
        assert s[..2] != DOUBLE_DOT;
        assert s[1] != '.';
        assert !JavaString.StartsWith(s[1..], DOUBLE_DOT);
        assert rest == [s[1]] + JavaString.Replace(s[2..], DOUBLE_DOT, "");
      }
    }
  }

  /** Appending "index.html" after a "/" adds no two dots in a row. */
  lemma {:induction false} IndexAfterSlash(cleaned: string)
    requires NoDoubleDot(cleaned) && JavaString.EndsWith(cleaned, "/")
    ensures NoDoubleDot(cleaned + INDEX)
  {
    var full := cleaned + INDEX;
    assert cleaned[|cleaned| - 1] == '/' by {
      assert cleaned[|cleaned| - 1..] == "/";
    }
    forall i | 0 <= i < |full| - 1
      ensures !(full[i] == '.' && full[i + 1] == '.')
    {
      if i + 1 < |cleaned| {
        assert full[i] == cleaned[i] && full[i + 1] == cleaned[i + 1];
      } else if i + 1 == |cleaned| {
        assert full[i] == '/';
      } else {
        assert full[i] == INDEX[i - |cleaned|] && full[i + 1] == INDEX[i + 1 - |cleaned|];
      }
    }
  }

  /** The cleaned request path contains no "..", so it cannot climb out of the served directory that way. */
  lemma CleanedHasNoDoubleDots(requestPath: string)
    ensures !JavaString.Contains(JavaString.Replace(requestPath, DOUBLE_DOT, ""), DOUBLE_DOT)
    ensures !JavaString.Contains(CleanPath(requestPath), DOUBLE_DOT)
  {
    var cleaned := JavaString.Replace(requestPath, DOUBLE_DOT, "");
    RemovedDoubleDots(requestPath);
    if JavaString.Contains(cleaned, DOUBLE_DOT) {
      ContainsDoubleDot(cleaned);
    }
    if JavaString.EndsWith(cleaned, "/") {
      IndexAfterSlash(cleaned);
      if JavaString.Contains(cleaned + INDEX, DOUBLE_DOT) {
        ContainsDoubleDot(cleaned + INDEX);
      }
    }
  }

  /** A path without ".." is left as it is, except that a final "/" gets "index.html". */
  lemma CleanPathKeepsPlainPaths(requestPath: string)
    requires !JavaString.Contains(requestPath, DOUBLE_DOT)
    ensures JavaString.EndsWith(requestPath, "/") ==> CleanPath(requestPath) == requestPath + INDEX
    ensures !JavaString.EndsWith(requestPath, "/") ==> CleanPath(requestPath) == requestPath
  {
    JavaString.ReplaceAbsent(requestPath, DOUBLE_DOT, "");
  }

  /**
   * `getFilePath(requestPath)`: the cleaned path under `dir` when it is a
   * regular file, its "index.html" when it is a directory holding one as a
   * regular file, and null otherwise.
   */
  function GetFilePath(fs: FileSystem, dir: string, requestPath: string): (r: Option<string>)
    ensures r.Some? ==> fs.kind(r.value) == RegularFile
  {
    var filePath := fs.join(dir, CleanPath(requestPath));
    if fs.kind(filePath) == RegularFile then Some(filePath)
    else if fs.kind(filePath) == Directory && fs.kind(fs.join(filePath, INDEX)) == RegularFile then Some(fs.join(filePath, INDEX))
    else None
  }

  /** The three outcomes of `getFilePath`, in full. */
  lemma GetFilePathCases(fs: FileSystem, dir: string, requestPath: string)
    ensures var filePath := fs.join(dir, CleanPath(requestPath));
      && (fs.kind(filePath) == RegularFile ==> GetFilePath(fs, dir, requestPath) == Some(filePath))
      && (fs.kind(filePath) == Directory ==>
            GetFilePath(fs, dir, requestPath) == if fs.kind(fs.join(filePath, INDEX)) == RegularFile then Some(fs.join(filePath, INDEX)) else None)
      && (fs.kind(filePath) == Missing ==> GetFilePath(fs, dir, requestPath).None?)
  {
  }

  // ---------------------------------------------------------------------
  // MIME types.
  // ---------------------------------------------------------------------

  const OCTET_STREAM := "application/octet-stream"

  /** `MIME_TYPES`. */
  const MIME_TYPES: map<string, string> := map[
    "html" := "text/html; charset=UTF-8",
    "css" := "text/css; charset=UTF-8",
    "js" := "application/javascript; charset=UTF-8",
    "jpg" := "image/jpeg",
    "jpeg" := "image/jpeg",
    "png" := "image/png",
    "gif" := "image/gif",
    "json" := "application/json; charset=UTF-8",
    "xml" := "application/xml; charset=UTF-8",
    "pdf" := "application/pdf",
    "txt" := "text/plain; charset=UTF-8",
    "svg" := "image/svg+xml"]

  /** `MIME_TYPES.getOrDefault(extension, "application/octet-stream")`. */
  function TypeOfExtension(extension: string): (r: string)
    ensures r == OCTET_STREAM || r in MIME_TYPES.Values
  {
    if extension in MIME_TYPES then MIME_TYPES[extension] else OCTET_STREAM
  }

  /** `getMimeType(filePath)`: the type of the lower-cased text after the last dot, when that dot is not the first character. */
  function GetMimeType(filePath: string): (r: string)
    ensures r == OCTET_STREAM || r in MIME_TYPES.Values
  {
    var lastDotIndex := JavaString.LastIndexOf(filePath, '.');
    if lastDotIndex > 0 then TypeOfExtension(JavaString.ToLower(filePath[lastDotIndex + 1..]))
    else OCTET_STREAM
  }

  /** The last dot of a path is found where it is. */
  lemma LastDotAt(filePath: string, i: nat)
    requires 0 < i < |filePath| && filePath[i] == '.'
    requires forall j :: i < j < |filePath| ==> filePath[j] != '.'
    ensures JavaString.LastIndexOf(filePath, '.') == i
  {
    assert filePath[i] in filePath;
  }

  /** No dot after the first character gives the default type. */
  lemma MimeTypeWithoutExtension(filePath: string)
    requires forall i :: 0 < i < |filePath| ==> filePath[i] != '.'
    ensures GetMimeType(filePath) == OCTET_STREAM
  {
  }

  /** Otherwise the type follows the text after the last dot, upper or lower case alike. */
  lemma MimeTypeOfExtension(filePath: string, i: nat)
    requires 0 < i < |filePath| && filePath[i] == '.'
    requires forall j :: i < j < |filePath| ==> filePath[j] != '.'
    ensures GetMimeType(filePath) == TypeOfExtension(JavaString.ToLower(filePath[i + 1..]))
  {
    LastDotAt(filePath, i);
  }

  // ---------------------------------------------------------------------
  // One request.
  // ---------------------------------------------------------------------

  /** What the handler writes back: the content type header, the status and the body. */
  datatype Body = Message(text: string) | Content(bytes: seq<bv8>)
  datatype Response = Response(status: int, contentType: string, body: Body)

  const TEXT_PLAIN := "text/plain; charset=UTF-8"

  /** `sendError(exchange, statusCode, message)`. */
  function ErrorResponse(status: int, message: string): Response {
    Response(status, TEXT_PLAIN, Message(message))
  }

  /** `handle(exchange)`: a read failure carries its message in an `AppError` result of `read`. */
  function Handle(fs: FileSystem, dir: string, requestMethod: string, requestPath: string, readFailure: string): (r: Response)
    ensures r.status in {200, 404, 405, 500}
    ensures r.status == 405 <==> requestMethod != "GET"
    ensures r.status == 404 <==> requestMethod == "GET" && GetFilePath(fs, dir, requestPath).None?
    ensures r.status == 200 ==> r.contentType == GetMimeType(GetFilePath(fs, dir, requestPath).value)
  {
    if requestMethod != "GET" then ErrorResponse(405, "Method Not Allowed")
    else
      match GetFilePath(fs, dir, requestPath)
      case None => ErrorResponse(404, "Resource Not Found")
      case Some(filePath) =>
        match fs.read(filePath)
        case Failure(_) => ErrorResponse(500, "Server Error: " + readFailure)
        case Success(content) => Response(200, GetMimeType(filePath), Content(content))
  }

  /** A served file is sent whole, the 200 answer carries exactly the bytes read. */
  lemma ServedFileIsRead(fs: FileSystem, dir: string, requestPath: string, readFailure: string)
    requires GetFilePath(fs, dir, requestPath).Some?
    ensures var filePath := GetFilePath(fs, dir, requestPath).value;
      var r := Handle(fs, dir, "GET", requestPath, readFailure);
      && (fs.read(filePath).Success? ==> r.status == 200 && r.body == Content(fs.read(filePath).value))
      && (fs.read(filePath).Failure? ==> r.status == 500 && r.contentType == TEXT_PLAIN)
  {
  }
}
