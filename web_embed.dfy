/**
 * The server's embedded web front end (`web_embed_file_handler` and its
 * helpers): path classification, the single-page-application fallback to
 * `index.html`, and the Content-Type table. The embedded directory is a
 * read-only map from relative path to file contents.
 */
module WebEmbed {
  import opened Strings

  /** The files embedded at build time, keyed by their path relative to the root. */
  type EmbeddedDir = map<string, seq<bv8>>

  /** A response body: raw bytes, or a string sent as its UTF-8 encoding. */
  datatype Body = Bytes(bytes: seq<bv8>) | Text(text: string)

  /** The parts of an HTTP response that the handler sets; headers in insertion order. */
  datatype HttpResponse = HttpResponse(status: nat, headers: seq<(string, string)>, body: Body)

  const CacheControl: string := "public, max-age=604800"
  const HtmlContentType: string := "text/html; charset=utf-8"

  // ---------------------------------------------------------------------
  // Path classification
  // ---------------------------------------------------------------------

  predicate StartsWith(s: string, prefix: string)
  {
    prefix <= s
  }

  /** The directory prefixes that always denote static resources. */
  const StaticPrefixes: seq<string> := ["assets/", "static/", "public/", "images/", "css/", "js/"]

  /** `is_static_resource_path`: a dot anywhere, or one of the static prefixes. */
  predicate IsStaticResourcePath(path: string)
  {
    || '.' in path
    || StartsWith(path, "assets/") || StartsWith(path, "static/") || StartsWith(path, "public/")
    || StartsWith(path, "images/") || StartsWith(path, "css/") || StartsWith(path, "js/")
  }

  /** A path is static exactly when it has a dot or starts with a static prefix; else it is a route. */
  lemma StaticResourceIff(path: string)
    ensures IsStaticResourcePath(path) <==>
      '.' in path || exists i :: 0 <= i < |StaticPrefixes| && StartsWith(path, StaticPrefixes[i])
  {
    if !('.' in path) && IsStaticResourcePath(path) {
      if StartsWith(path, "assets/") { assert StartsWith(path, StaticPrefixes[0]); }
      else if StartsWith(path, "static/") { assert StartsWith(path, StaticPrefixes[1]); }
      else if StartsWith(path, "public/") { assert StartsWith(path, StaticPrefixes[2]); }
      else if StartsWith(path, "images/") { assert StartsWith(path, StaticPrefixes[3]); }
      else if StartsWith(path, "css/") { assert StartsWith(path, StaticPrefixes[4]); }
      else { assert StartsWith(path, StaticPrefixes[5]); }
    }
  }

  /** `trim_start_matches('/')`: every leading slash is removed, and nothing else. */
  function TrimLeadingSlashes(s: string): (r: string)
    ensures |r| <= |s| && r == s[|s| - |r|..]
    ensures |r| > 0 ==> r[0] != '/'
    ensures forall i :: 0 <= i < |s| - |r| ==> s[i] == '/'
  {
    if |s| > 0 && s[0] == '/' then TrimLeadingSlashes(s[1..]) else s
  }

  /** Trimming is idempotent and ignores any number of extra leading slashes. */
  lemma {:induction false} TrimLeadingSlashesAbsorbs(s: string)
    ensures TrimLeadingSlashes(TrimLeadingSlashes(s)) == TrimLeadingSlashes(s)
    ensures TrimLeadingSlashes("/" + s) == TrimLeadingSlashes(s)
  {
    assert ("/" + s)[1..] == s;
  }

  // ---------------------------------------------------------------------
  // Content types
  // ---------------------------------------------------------------------

  /** The match arms of `get_content_type`, keyed by lower-case extension. */
  const ContentTypes: map<string, string> := map[
    "html" := "text/html; charset=utf-8",
    "css" := "text/css; charset=utf-8",
    "js" := "application/javascript; charset=utf-8",
    "mjs" := "application/javascript; charset=utf-8",
    "jsx" := "application/javascript; charset=utf-8",
    "ts" := "application/typescript; charset=utf-8",
    "tsx" := "application/typescript; charset=utf-8",
    "json" := "application/json; charset=utf-8",
    "png" := "image/png",
    "jpg" := "image/jpeg",
    "jpeg" := "image/jpeg",
    "gif" := "image/gif",
    "svg" := "image/svg+xml",
    "ico" := "image/x-icon",
    "woff" := "font/woff",
    "woff2" := "font/woff2",
    "ttf" := "font/ttf",
    "eot" := "application/vnd.ms-fontobject",
    "webp" := "image/webp",
    "mp4" := "video/mp4",
    "webm" := "video/webm",
    "pdf" := "application/pdf",
    "xml" := "application/xml; charset=utf-8",
    "txt" := "text/plain; charset=utf-8",
    "map" := "application/json; charset=utf-8"
  ]

  const DefaultContentType: string := "application/octet-stream"

  /** `path.split('.').last()`: the text after the last dot, or the whole path without one. */
  function LastDotSegment(path: string): string
  {
    var pieces := Split(path, '.');
    pieces[|pieces| - 1]
  }

  /** `get_content_type`: the table entry of the lower-cased last segment, else octet-stream. */
  function ContentType(path: string): (ct: string)
    ensures AsciiLower(LastDotSegment(path)) in ContentTypes ==>
      ct == ContentTypes[AsciiLower(LastDotSegment(path))]
    ensures AsciiLower(LastDotSegment(path)) !in ContentTypes ==> ct == DefaultContentType
  {
    var extension := AsciiLower(LastDotSegment(path));
    if extension in ContentTypes then ContentTypes[extension] else DefaultContentType
  }

  /** The last segment of `stem.ext` is `ext` when `ext` has no dot; a dot-free path is its own segment. */
  lemma LastDotSegmentOf(stem: string, ext: string)
    requires '.' !in ext
    ensures LastDotSegment(stem + "." + ext) == ext
    ensures '.' !in stem ==> LastDotSegment(stem) == stem
  {
    SplitAround(stem, ext, '.');
    assert stem + "." + ext == stem + ['.'] + ext;
    SplitPlain(ext, '.');
    if '.' !in stem {
      SplitPlain(stem, '.');
    }
  }

  /** The extension decides the type whatever the stem, and the letter case of the extension does not matter. */
  lemma ContentTypeByExtension(stem: string, ext: string)
    requires '.' !in ext
    ensures ContentType(stem + "." + ext) == ContentType("." + AsciiLower(ext))
  {
    LastDotSegmentOf(stem, ext);
    assert '.' !in AsciiLower(ext) by {
      forall i | 0 <= i < |ext| ensures AsciiLower(ext)[i] != '.' {
      }
    }
    LastDotSegmentOf("", AsciiLower(ext));
    assert "" + "." + AsciiLower(ext) == "." + AsciiLower(ext);
    LowerIdempotent(ext);
  }

  lemma LowerIdempotent(s: string)
    ensures AsciiLower(AsciiLower(s)) == AsciiLower(s)
  {
  }

  // ---------------------------------------------------------------------
  // UTF-8 validity (`std::str::from_utf8`)
  // ---------------------------------------------------------------------

  predicate IsContinuation(b: bv8)
  {
    0x80 <= b <= 0xBF
  }

  /**
   * The length of the well-formed UTF-8 sequence that starts `b`, or 0 when
   * `b` does not start with one (the table of well-formed byte sequences in
   * section 4 of RFC 3629).
   */
  function SequenceLength(b: seq<bv8>): (n: nat)
    ensures n <= |b| && n <= 4
    ensures |b| > 0 && b[0] <= 0x7F ==> n == 1
  {
    if |b| == 0 then 0
    else if b[0] <= 0x7F then 1
    else if 0xC2 <= b[0] <= 0xDF then
      if |b| >= 2 && IsContinuation(b[1]) then 2 else 0
    else if 0xE0 <= b[0] <= 0xEF then
      var lo: bv8 := if b[0] == 0xE0 then 0xA0 else 0x80;
      var hi: bv8 := if b[0] == 0xED then 0x9F else 0xBF;
      if |b| >= 3 && lo <= b[1] <= hi && IsContinuation(b[2]) then 3 else 0
    else if 0xF0 <= b[0] <= 0xF4 then
      var lo: bv8 := if b[0] == 0xF0 then 0x90 else 0x80;
      var hi: bv8 := if b[0] == 0xF4 then 0x8F else 0xBF;
      if |b| >= 4 && lo <= b[1] <= hi && IsContinuation(b[2]) && IsContinuation(b[3]) then 4 else 0
    else 0
  }

  /** The bytes are a sequence of well-formed UTF-8 characters. */
  predicate ValidUtf8(b: seq<bv8>)
    decreases |b|
  {
    |b| == 0 || (SequenceLength(b) > 0 && ValidUtf8(b[SequenceLength(b)..]))
  }

  /** ASCII bytes are valid UTF-8, so an ASCII `index.html` is served unchanged. */
  lemma {:induction false} AsciiIsValidUtf8(b: seq<bv8>)
    requires forall i :: 0 <= i < |b| ==> b[i] <= 0x7F
    ensures ValidUtf8(b)
  {
    if |b| > 0 {
      assert SequenceLength(b) == 1;
      AsciiIsValidUtf8(b[1..]);
    }
  }

  /** A lone continuation byte is not valid UTF-8. */
  lemma StrayContinuationInvalid(b: bv8)
    requires IsContinuation(b)
    ensures !ValidUtf8([b])
  {
  }

  // ---------------------------------------------------------------------
  // Responses
  // ---------------------------------------------------------------------

  /** The page served when the embedded directory has no `index.html`. */
  const DefaultIndexHtml: string :=
    "\n" +
    "        <!DOCTYPE html>\n" +
    "        <html>\n" +
    "        <head>\n" +
    "            <title>RustZen Admin</title>\n" +
    "            <style>\n" +
    "                body { font-family: Arial, sans-serif; margin: 40px; text-align: center; }\n" +
    "                .logo { font-size: 48px; margin-bottom: 20px; }\n" +
    "                .info { color: #666; }\n" +
    "            </style>\n" +
    "        </head>\n" +
    "        <body>\n" +
    "            <div class=\"logo\">\U{F8FF}\U{FC}\U{F1}\U{2022}\U{D4}\U{220F}\U{E8}</div>\n" +
    "            <h1>RustZen Admin</h1>\n" +
    "            <p class=\"info\">Web interface is loading...</p>\n" +
    "            <p class=\"info\">If you see this page, it means the static files may not be correctly embedded.</p>\n" +
    "        </body>\n" +
    "        </html>\n" +
    "        "

  /**
   * `serve_embedded_index_html`: the embedded index as HTML (an empty body
   * when it is not valid UTF-8), or the built-in default page.
   */
  function IndexResponse(dir: EmbeddedDir): (r: HttpResponse)
    ensures r.status == 200 && r.headers == [("content-type", HtmlContentType)]
    ensures "index.html" in dir && ValidUtf8(dir["index.html"]) ==> r.body == Bytes(dir["index.html"])
    ensures "index.html" in dir && !ValidUtf8(dir["index.html"]) ==> r.body == Bytes([])
    ensures "index.html" !in dir ==> r.body == Text(DefaultIndexHtml)
  {
    if "index.html" in dir then
      var contents := dir["index.html"];
      HttpResponse(200, [("content-type", HtmlContentType)], Bytes(if ValidUtf8(contents) then contents else []))
    else
      HttpResponse(200, [("content-type", HtmlContentType)], Text(DefaultIndexHtml))
  }

  /** `serve_embedded_files` on a path without leading slashes. */
  function ServeEmbeddedFiles(dir: EmbeddedDir, path: string): HttpResponse
  {
    if path == "" || path == "index.html" then IndexResponse(dir)
    else if IsStaticResourcePath(path) then
      if path in dir then
        HttpResponse(200, [("content-type", ContentType(path)), ("cache-control", CacheControl)], Bytes(dir[path]))
      else
        HttpResponse(404, [("content-type", "text/plain; charset=utf-8")], Text("File not found: " + path))
    else IndexResponse(dir)
  }

  /** `web_embed_file_handler`: `enabled` is the configuration flag, `uriPath` the request path. */
  function Handler(enabled: bool, dir: EmbeddedDir, uriPath: string): HttpResponse
  {
    if enabled then ServeEmbeddedFiles(dir, TrimLeadingSlashes(uriPath))
    else HttpResponse(404, [], Text("Web is disabled"))
  }

  /** A disabled front end answers every path with 404 "Web is disabled". */
  lemma DisabledAnswers404(dir: EmbeddedDir, uriPath: string)
    ensures Handler(false, dir, uriPath) == HttpResponse(404, [], Text("Web is disabled"))
  {
  }

  /**
   * With the front end enabled, a request fails exactly when it names a
   * static resource, other than the index, that is not embedded; every other
   * request succeeds with 200.
   */
  lemma EnabledStatusIff(dir: EmbeddedDir, uriPath: string)
    ensures var p := TrimLeadingSlashes(uriPath);
      && Handler(true, dir, uriPath).status in {200, 404}
      && (Handler(true, dir, uriPath).status == 404 <==>
            p != "index.html" && IsStaticResourcePath(p) && p !in dir)
  {
    ServeStatusIff(dir, TrimLeadingSlashes(uriPath));
  }

  lemma ServeStatusIff(dir: EmbeddedDir, p: string)
    ensures ServeEmbeddedFiles(dir, p).status in {200, 404}
    ensures ServeEmbeddedFiles(dir, p).status == 404 <==>
      p != "index.html" && IsStaticResourcePath(p) && p !in dir
  {
    if p == "" {
      assert !IsStaticResourcePath(p);
    }
  }

  /**
   * Every single-page-application route gets the same answer as the root:
   * the index page, with no cache header.
   */
  lemma RoutesServeIndex(dir: EmbeddedDir, uriPath: string)
    requires !IsStaticResourcePath(TrimLeadingSlashes(uriPath))
    ensures Handler(true, dir, uriPath) == Handler(true, dir, "/")
    ensures Handler(true, dir, uriPath) == IndexResponse(dir)
  {
    assert "/"[1..] == "";
  }

  /** An embedded static file is served byte for byte, with its content type and a one-week cache. */
  lemma StaticHit(dir: EmbeddedDir, uriPath: string)
    requires var p := TrimLeadingSlashes(uriPath);
      p != "index.html" && IsStaticResourcePath(p) && p in dir
    ensures var p := TrimLeadingSlashes(uriPath);
      Handler(true, dir, uriPath) ==
        HttpResponse(200, [("content-type", ContentType(p)), ("cache-control", CacheControl)], Bytes(dir[p]))
  {
  }

  /** A missing static file is reported with its path. */
  lemma StaticMiss(dir: EmbeddedDir, uriPath: string)
    requires var p := TrimLeadingSlashes(uriPath);
      p != "index.html" && IsStaticResourcePath(p) && p !in dir
    ensures var p := TrimLeadingSlashes(uriPath);
      Handler(true, dir, uriPath).body == Text("File not found: " + p)
  {
  }

  /** Leading slashes never change the answer: `/a.js`, `//a.js` and `a.js` are one request. */
  lemma SlashesIrrelevant(enabled: bool, dir: EmbeddedDir, uriPath: string)
    ensures Handler(enabled, dir, "/" + uriPath) == Handler(enabled, dir, TrimLeadingSlashes(uriPath))
  {
    TrimLeadingSlashesAbsorbs(uriPath);
  }
}
