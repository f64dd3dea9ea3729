/**
 The request handler of the static-file server: how a request URL becomes
 a logical path under the build directory, which `Content-Type` the
 response announces, and what the handler does when streaming the file
 fails. The filesystem is a parameter: `probe` says, for a logical path,
 whether streaming the file under the build directory succeeds or which
 error code the stream reports (the join onto the build directory is
 opaque and happens inside it).
 */
module StaticServer {
  import opened StringOps

  const IndexPath: string := "/index.html"
  const DefaultType: string := "application/octet-stream"
  const NotFoundCode: string := "ENOENT"

  /** The extension-to-MIME-type table, looked up by exact (case-sensitive) key. */
  const MimeTypes: map<string, string> := map[
    ".html" := "text/html",
    ".js" := "text/javascript",
    ".css" := "text/css",
    ".json" := "application/json",
    ".png" := "image/png",
    ".jpg" := "image/jpeg",
    ".jpeg" := "image/jpeg",
    ".gif" := "image/gif",
    ".svg" := "image/svg+xml",
    ".ico" := "image/x-icon",
    ".webp" := "image/webp",
    ".avif" := "image/avif",
    ".woff" := "font/woff",
    ".woff2" := "font/woff2",
    ".ttf" := "font/ttf",
    ".eot" := "font/eot",
    ".otf" := "font/otf"
  ]

  /**
   The properties every plain JavaScript object inherits from
   `Object.prototype`. A lookup in the MIME table by one of these names finds
   the inherited (truthy) member rather than missing; `ContentType` models the
   table's own entries only, which agrees with JavaScript on every extension
   that does not name one of these.
   */
  const InheritedKeys: set<string> := {
    "constructor", "hasOwnProperty", "isPrototypeOf", "propertyIsEnumerable",
    "toLocaleString", "toString", "valueOf", "__proto__",
    "__defineGetter__", "__defineSetter__", "__lookupGetter__", "__lookupSetter__"
  }

  /** What opening a read stream on a logical path comes to. */
  datatype FileStatus = Readable | StreamError(code: string)

  /** The three ways a request ends. */
  datatype Outcome =
    | Serve(path: string, contentType: string)  // the requested file, with its table type
    | ServeIndexFallback                         // index.html, re-announced as text/html
    | Error500                                   // status 500, "Internal Server Error"
  {
    /**
     The status of the branch taken. When the fallback stream on `index.html`
     itself fails, the source has no listener for it, so what goes out on the
     wire then is not described by this value.
     */
    function StatusCode(): int {
      if Error500? then 500 else 200
    }
  }

  /** Drops the query string: the part of the URL before its first `?`. */
  function StripQuery(url: string): (path: string)
    ensures '?' !in path
    ensures |path| <= |url| && path == url[..|path|]
    ensures '?' in url ==> url[|path|] == '?'
    ensures '?' !in url ==> path == url
  {
    if '?' in url then
      SplitHead(url, '?');
      Split(url, '?')[0]
    else url
  }

  /** Sends the root and every path without a `.` to the entry document. */
  function RewriteRoute(path: string): (r: string)
    ensures '.' in r
    ensures '.' !in path ==> r == IndexPath
    ensures '.' in path ==> r == path
  {
    if path == "/" || '.' !in path then IndexPath else path
  }

  /** The logical path a request URL is served from. */
  function Normalize(url: string): (path: string)
    ensures '.' in path && '?' !in path
  {
    RewriteRoute(StripQuery(url))
  }

  /** The extension: the suffix of the path from its last `.`, or the whole path when it has none. */
  function Extension(path: string): (ext: string)
    ensures |ext| <= |path| && ext == path[|path| - |ext|..]
    ensures '.' in path ==> |ext| >= 1 && ext[0] == '.' && '.' !in ext[1..]
    ensures '.' !in path ==> ext == path
  {
    var i := LastIndex(path, '.');
    var ext := SubstringFrom(path, i);
    assert i >= 0 ==> ext == path[i..];
    ext
  }

  /** The table's type for the extension, with the binary type for any extension the table lacks. */
  function ContentType(ext: string): (ctype: string)
    ensures |ctype| > 0
    ensures ext in MimeTypes ==> ctype == MimeTypes[ext]
    ensures ext !in MimeTypes ==> ctype == DefaultType
  {
    if ext in MimeTypes && MimeTypes[ext] != "" then MimeTypes[ext] else DefaultType
  }

  /** The decision of the stream's error listener for the logical path `path`. */
  function OnStreamError(path: string, code: string): (o: Outcome)
    ensures o == ServeIndexFallback <==> code == NotFoundCode && path != IndexPath
    ensures o == Error500 <==> code != NotFoundCode || path == IndexPath
  {
    if code == NotFoundCode && path != IndexPath then ServeIndexFallback else Error500
  }

  /** The whole handler: normalise the URL, pick the content type, stream or recover. */
  function Handle(url: string, probe: string -> FileStatus): (o: Outcome)
    ensures o.Serve? <==> probe(Normalize(url)) == Readable
    ensures o.Serve? ==> o.path == Normalize(url) && o.contentType == ContentType(Extension(o.path))
    ensures o == ServeIndexFallback <==>
              probe(Normalize(url)) == StreamError(NotFoundCode) && Normalize(url) != IndexPath
  {
    var path := Normalize(url);
    var ctype := ContentType(Extension(path));
    match probe(path)
    case Readable => Serve(path, ctype)
    case StreamError(code) => OnStreamError(path, code)
  }

  /** Normalising an already normalised path changes nothing. */
  lemma NormalizeIdempotent(url: string)
    ensures Normalize(Normalize(url)) == Normalize(url)
  {
  }

  /** A request is served from the entry document exactly when its query-free path has no `.` or already is the entry document. */
  lemma NormalizeToIndex(url: string)
    ensures Normalize(url) == IndexPath <==> '.' !in StripQuery(url) || StripQuery(url) == IndexPath
  {
  }

  /** The query string never influences the response. */
  lemma QueryIgnored(path: string, query: string, probe: string -> FileStatus)
    requires '?' !in path
    ensures Handle(path + "?" + query, probe) == Handle(path, probe)
  {
    var url := path + "?" + query;
    assert url[|path|] == '?';
    assert url[..|path|] == path;
    assert forall k :: 0 <= k < |path| ==> url[k] != '?';
    var p := StripQuery(url);
    assert forall k :: 0 <= k < |p| ==> url[k] != '?';
    assert |p| == |path|;
  }

  /** `/` is answered exactly like `/index.html`. */
  lemma RootServesIndex(probe: string -> FileStatus)
    ensures Handle("/", probe) == Handle(IndexPath, probe)
  {
    assert '.' !in "/";
    assert '.' in IndexPath && '?' !in IndexPath;
  }

  /** Every path without a `.` (a client-side route) is answered like `/index.html`. */
  lemma ExtensionlessServesIndex(url: string, probe: string -> FileStatus)
    requires '.' !in StripQuery(url)
    ensures Handle(url, probe) == Handle(IndexPath, probe)
  {
    assert '.' in IndexPath && '?' !in IndexPath;
  }

  /**
   A missing file behind any other path falls back to the entry document as
   HTML; the answer is a 200 only when the entry document can be read, since
   the fallback stream has no error listener of its own.
   */
  lemma MissingAssetFallsBack(url: string, probe: string -> FileStatus)
    requires probe(Normalize(url)) == StreamError(NotFoundCode)
    requires Normalize(url) != IndexPath
    ensures Handle(url, probe) == ServeIndexFallback
    ensures probe(IndexPath) == Readable ==> Handle(url, probe).StatusCode() == 200
  {
  }

  /**
   When the entry document itself is missing, the listener answers 500,
   for `/index.html` and for every route rewritten to it.
   */
  lemma MissingIndexIsServerError(url: string, probe: string -> FileStatus)
    requires Normalize(url) == IndexPath
    requires probe(IndexPath) == StreamError(NotFoundCode)
    ensures Handle(url, probe) == Error500
    ensures Handle(url, probe).StatusCode() == 500
  {
  }

  /** An error other than a missing file takes the listener's 500 branch, whatever the path. */
  lemma OtherStreamErrorIsServerError(url: string, probe: string -> FileStatus)
    requires probe(Normalize(url)).StreamError?
    requires probe(Normalize(url)).code != NotFoundCode
    ensures Handle(url, probe) == Error500
  {
  }

  /** The served extension is the suffix from the last `.`, so it starts with `.` and has no other `.`. */
  lemma ServedExtensionShape(url: string)
    ensures var ext := Extension(Normalize(url));
            |ext| >= 1 && ext[0] == '.' && '.' !in ext[1..]
  {
  }

  /**
   No extension the handler computes names an inherited property of the
   table, so its own-entry lookup is the whole of the JavaScript lookup there.
   */
  lemma HandlerMissesInheritedKeys(url: string)
    ensures Extension(Normalize(url)) !in InheritedKeys
  {
    InheritedKeysAreNames();
    var ext := Extension(Normalize(url));
    assert ext[0] == '.';
  }

  /** Every inherited property name starts with a letter or `_`, never with `.`. */
  lemma InheritedKeysAreNames()
    ensures forall k :: k in InheritedKeys ==> |k| > 0 && k[0] != '.'
  {
  }

  /** The announced type is always a table value or the binary default. */
  lemma ContentTypeRange(ext: string)
    ensures ContentType(ext) in MimeTypes.Values || ContentType(ext) == DefaultType
  {
  }

  /** The lookup is case-sensitive. */
  lemma ContentTypeCaseSensitive()
    ensures ContentType(".png") == "image/png"
    ensures ContentType(".PNG") == DefaultType
  {
  }

  /** `/about` (a client-side route) is answered with the entry document. */
  lemma AboutRouteServesIndex(probe: string -> FileStatus)
    ensures Handle("/about", probe) == Handle(IndexPath, probe)
  {
    assert '.' !in "/about" && '?' !in "/about";
    ExtensionlessServesIndex("/about", probe);
  }

  /** A present `/index.html` is served as `text/html`. */
  lemma PresentIndexServedAsHtml(probe: string -> FileStatus)
    requires probe(IndexPath) == Readable
    ensures Handle(IndexPath, probe) == Serve(IndexPath, "text/html")
  {
    assert '.' in IndexPath && '?' !in IndexPath;
    assert Normalize(IndexPath) == IndexPath;
    LastIndexAt(IndexPath, '.', 6);
    assert IndexPath[6..] == ".html";
    assert Extension(IndexPath) == ".html";
    assert ContentType(".html") == "text/html";
  }

  /** A missing `/missing.png` falls back to the entry document. */
  lemma MissingPngFallsBack(probe: string -> FileStatus)
    requires probe("/missing.png") == StreamError(NotFoundCode)
    ensures Handle("/missing.png", probe) == ServeIndexFallback
  {
    assert '.' in "/missing.png" && '?' !in "/missing.png";
  }

  /** Whatever query string is attached, `/assets/app.js` is served as `text/javascript`. */
  lemma QueriedScriptServed(query: string, probe: string -> FileStatus)
    requires probe("/assets/app.js") == Readable
    ensures Handle("/assets/app.js" + "?" + query, probe) == Serve("/assets/app.js", "text/javascript")
  {
    var path := "/assets/app.js";
    assert '.' in path && '?' !in path;
    assert Normalize(path) == path;
    LastIndexAt(path, '.', 11);
    assert path[11..] == ".js";
    assert Extension(path) == ".js";
    assert ContentType(".js") == "text/javascript";
    QueryIgnored(path, query, probe);
  }

  /**
   A route with a `.` in a directory name is not rewritten: `/v1.2/about` is
   looked up as a file whose "extension" is `.2/about`, so the binary type is
   picked. That type goes out only when such a file exists; when it does not,
   the ENOENT fallback still answers with the entry document as HTML.
   */
  lemma DottedRouteTakenForFile(probe: string -> FileStatus)
    ensures Normalize("/v1.2/about") == "/v1.2/about"
    ensures Extension("/v1.2/about") == ".2/about"
    ensures ContentType(Extension("/v1.2/about")) == DefaultType
    ensures probe("/v1.2/about") == Readable ==> Handle("/v1.2/about", probe) == Serve("/v1.2/about", DefaultType)
    ensures probe("/v1.2/about") == StreamError(NotFoundCode) ==> Handle("/v1.2/about", probe) == ServeIndexFallback
  {
    assert '.' in "/v1.2/about" && '?' !in "/v1.2/about";
    LastIndexAt("/v1.2/about", '.', 3);
    assert "/v1.2/about"[3..] == ".2/about";
  }
}
