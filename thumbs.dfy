/** The thumbnail request pipeline on values: splitting the request URI,
    parsing its query, resolving the virtual path, the passthrough / cache-hit /
    generate decision of `process_thumbnail`, and the response it becomes. */
module Thumbs {
  import opened Wrappers
  import opened Text
  import opened Host
  import opened Utils
  import opened FileSystem

  // ---------------------------------------------------------------------------
  // Virtual paths and their resolution

  /** The three kinds of virtual path, told apart in this order: the temp
      marker, then an absolute path, else a path relative to the project. */
  datatype VirtualPath = Temp(name: string) | Absolute(path: string) | ProjectRelative(rel: string)

  function Render(v: VirtualPath): string
  {
    match v
    case Temp(name) => TempPrefix + name
    case Absolute(p) => p
    case ProjectRelative(rel) => rel
  }

  /** A virtual path that the classification gives back unchanged. */
  predicate WellFormed(env: Env, v: VirtualPath)
  {
    match v
    case Temp(_) => true
    case Absolute(p) => !StartsWith(p, TempPrefix) && env.isAbsolute(p)
    case ProjectRelative(rel) => !StartsWith(rel, TempPrefix) && !env.isAbsolute(rel)
  }

  /** Exactly one kind matches a string, and no information is lost. */
  function Classify(env: Env, s: string): (v: VirtualPath)
    ensures Render(v) == s && WellFormed(env, v)
  {
    if StartsWith(s, TempPrefix) then
      assert s == TempPrefix + s[|TempPrefix|..];
      Temp(s[|TempPrefix|..])
    else if env.isAbsolute(s) then Absolute(s)
    else ProjectRelative(s)
  }

  /** Resolution by kind: temp names go under the temp directory, relative
      paths under the project root when there is one, and anything else is
      taken as it is if it exists. */
  function ResolveVirtual(files: Files, tempDir: Path, v: VirtualPath, projectRoot: Option<string>): Option<Path>
  {
    match v
    case Temp(name) => Some(Join(tempDir, name))
    case ProjectRelative(rel) =>
      if projectRoot.Some? then Some(Join(projectRoot.value, rel))
      else if rel in files then Some(rel) else None
    case Absolute(p) => if p in files then Some(p) else None
  }

  /** `resolve_real_path`. */
  function ResolveRealPath(env: Env, files: Files, tempDir: Path, pathStr: string, projectRoot: Option<string>): (r: Option<Path>)
    ensures r == ResolveVirtual(files, tempDir, Classify(env, pathStr), projectRoot)
    // A temp path ignores the project root and is not checked for existence.
    ensures StartsWith(pathStr, TempPrefix) ==> r == Some(Join(tempDir, pathStr[|TempPrefix|..]))
    // A relative path with a root joins onto it, without an existence check.
    ensures !StartsWith(pathStr, TempPrefix) && !env.isAbsolute(pathStr) && projectRoot.Some? ==>
      r == Some(Join(projectRoot.value, pathStr))
    // Anything else resolves to itself exactly when it exists.
    ensures !StartsWith(pathStr, TempPrefix) && (env.isAbsolute(pathStr) || projectRoot.None?) ==>
      (r.Some? <==> pathStr in files) && (r.Some? ==> r.value == pathStr)
  {
    if StartsWith(pathStr, TempPrefix) then Some(Join(tempDir, pathStr[|TempPrefix|..]))
    else if !env.isAbsolute(pathStr) && projectRoot.Some? then Some(Join(projectRoot.value, pathStr))
    else if pathStr in files then Some(pathStr)
    else None
  }

  // ---------------------------------------------------------------------------
  // The request URI

  /** The query parameters the handler uses: the target width (0 means the
      original) and the project root for relative paths. */
  datatype Query = Query(width: U32, root: Option<string>)

  const DefaultQuery := Query(0, None)

  /** The pair has the form `key=value`, split at its first `=`. */
  predicate HasKey(pair: string, key: string)
  {
    SplitOnce(pair, '=').Some? && SplitOnce(pair, '=').value.0 == key
  }

  function ValueOf(pair: string): string
    requires SplitOnce(pair, '=').Some?
  {
    SplitOnce(pair, '=').value.1
  }

  /** A `root` pair that the loop takes: its value percent-decodes. */
  predicate SetsRoot(env: Env, pair: string)
  {
    HasKey(pair, "root") && env.percentDecode(ValueOf(pair)).Some?
  }

  /** One pass of the query loop: a `w` pair sets the width (0 when its value
      is not a `u32`), a `root` pair whose value percent-decodes sets the root;
      a pair without `=`, an unknown key and an undecodable root change nothing. */
  function ApplyPair(env: Env, q: Query, pair: string): (r: Query)
    ensures HasKey(pair, "w") ==> r == q.(width := ParseU32(ValueOf(pair)).GetOr(0))
    ensures SetsRoot(env, pair) ==> r == q.(root := env.percentDecode(ValueOf(pair)))
    ensures !HasKey(pair, "w") && !SetsRoot(env, pair) ==> r == q
  {
    match SplitOnce(pair, '=')
    case None => q
    case Some((k, v)) =>
      if k == "w" then q.(width := ParseU32(v).GetOr(0))
      else if k == "root" then
        match env.percentDecode(v)
        case Some(decoded) => q.(root := Some(decoded))
        case None => q
      else q
  }

  /** The parameters after the loop has seen all the pairs, in order. */
  function QueryParams(env: Env, pairs: seq<string>): (r: Query)
    // A width other than 0 and a root both come from some pair.
    ensures r.width != 0 ==> exists i :: 0 <= i < |pairs| && HasKey(pairs[i], "w")
    ensures r.root.Some? ==> exists i :: 0 <= i < |pairs| && SetsRoot(env, pairs[i])
    decreases |pairs|
  {
    if pairs == [] then DefaultQuery
    else
      var init := pairs[..|pairs| - 1];
      assert forall i :: 0 <= i < |init| ==> init[i] == pairs[i];
      ApplyPair(env, QueryParams(env, init), pairs[|pairs| - 1])
  }

  /** The pairs the loop visits: the text between the first and the second
      `?`, split at `&`; none when there is no `?`. */
  function QueryPairs(uri: string): (pairs: seq<string>)
    ensures '?' !in uri ==> pairs == []
    ensures '?' in uri ==> |pairs| >= 1 && JoinWith(pairs, '&') == Split(uri, '?')[1]
    ensures forall i :: 0 <= i < |pairs| ==> '&' !in pairs[i]
  {
    var parts := Split(uri, '?');
    if |parts| > 1 then Split(parts[1], '&') else []
  }

  const LocalhostPrefix := "thumb://localhost/"
  const SchemePrefix := "thumb://"

  /** The path part of the URI: `thumb://localhost/` is removed if present,
      otherwise `thumb://` if present, otherwise nothing. */
  function StripScheme(raw: string): (p: string)
    ensures StartsWith(raw, LocalhostPrefix) ==> raw == LocalhostPrefix + p
    ensures !StartsWith(raw, LocalhostPrefix) && StartsWith(raw, SchemePrefix) ==> raw == SchemePrefix + p
    ensures !StartsWith(raw, LocalhostPrefix) && !StartsWith(raw, SchemePrefix) ==> p == raw
  {
    if StartsWith(raw, LocalhostPrefix) then
      assert raw == raw[..|LocalhostPrefix|] + raw[|LocalhostPrefix|..];
      raw[|LocalhostPrefix|..]
    else if StartsWith(raw, SchemePrefix) then
      assert raw == raw[..|SchemePrefix|] + raw[|SchemePrefix|..];
      raw[|SchemePrefix|..]
    else raw
  }

  /** The percent-decoded path, or the raw path part when decoding fails. */
  function DecodedPath(env: Env, pathPart: string): (p: string)
    ensures env.percentDecode(pathPart).Some? ==> p == env.percentDecode(pathPart).value
    ensures env.percentDecode(pathPart).None? ==> p == pathPart
  {
    env.percentDecode(pathPart).GetOr(pathPart)
  }

  /** The virtual path a request URI names. */
  function RequestPath(env: Env, uri: string): (p: string)
    // The path part is everything before the first `?`.
    ensures '?' !in uri ==> p == DecodedPath(env, StripScheme(uri))
    ensures '?' in uri ==> p == DecodedPath(env, StripScheme(uri[..IndexOf(uri, '?').value]))
  {
    DecodedPath(env, StripScheme(Split(uri, '?')[0]))
  }

  // ---------------------------------------------------------------------------
  // process_thumbnail

  /** Response bytes and their MIME type. */
  datatype Served = Served(body: Bytes, mime: string)

  const PngMime := "image/png"

  /** The text a resized thumbnail is keyed by: the source path and the width. */
  function CacheKey(pathStr: string, width: U32): (key: string)
    ensures |key| > |pathStr| + 3 && StartsWith(key, pathStr) && key[|pathStr|..|pathStr| + 3] == "?w="
    ensures ParseU32(key[|pathStr| + 3..]) == Some(width)
  {
    var key := pathStr + "?w=" + DecimalString(width);
    ParseFormattedU32(width);
    assert key[|pathStr| + 3..] == DecimalString(width);
    key
  }

  /** The cache file name: the hex SHA-256 of the key's UTF-8 bytes, `_`, the
      width in decimal, `.png`. */
  function CacheFileName(sha256: Bytes -> Digest, pathStr: string, width: U32): (name: string)
    ensures |name| == 69 + |DecimalString(width)|
    ensures forall i :: 0 <= i < 64 ==> IsLowerHexDigit(name[i])
    ensures HexDecode(name[..64]) == Some(sha256(Utf8(CacheKey(pathStr, width))))
    ensures name[64..] == "_" + DecimalString(width) + ".png"
  {
    var digest := sha256(Utf8(CacheKey(pathStr, width)));
    var hex := HexEncode(digest);
    HexRoundTrip(digest);
    var tail := "_" + DecimalString(width) + ".png";
    var name := hex + tail;
    assert name[..64] == hex && name[64..] == tail;
    name
  }

  function CachePath(env: Env, thumbDir: Path, pathStr: Path, width: U32): Path
  {
    Join(thumbDir, CacheFileName(env.sha256, pathStr, width))
  }

  /** The `{:?}` rendering of the missing path (quote escaping is not modelled). */
  function SourceNotFound(pathStr: string): string
  {
    "Source file not found: \"" + pathStr + "\""
  }

  /** The message when the dimensions cannot be read ("cannot get image width"). */
  function ProbeFailed(pathStr: string): string
  {
    "无法获取图片宽度: " + pathStr
  }

  /** `image::image_dimensions`: reads the file, so an unreadable file fails too. */
  function ProbeWidth(env: Env, faults: Faults, files: Files, pathStr: Path): (w: Option<U32>)
    requires pathStr in files
    ensures pathStr in faults.read ==> w.None?
    ensures pathStr !in faults.read ==> w == env.probeWidth(files[pathStr])
    // A probed width means the source itself can be read.
    ensures w.Some? ==> ReadFile(files, faults, pathStr) == Ok(files[pathStr])
  {
    if pathStr in faults.read then None else env.probeWidth(files[pathStr])
  }

  /** `process_thumbnail`. */
  function Thumbnail(env: Env, faults: Faults, files: Files, thumbDir: Path, pathStr: Path, width: U32): (r: Step<Served>)
    // A missing source is an error and touches nothing.
    ensures pathStr !in files ==> r == Step(files, Err(SourceNotFound(pathStr)))
    // At most the cache file is written, and then with the bytes returned.
    ensures r.files == files ||
      (r.result.Ok? && r.files == files[CachePath(env, thumbDir, pathStr, width) := r.result.value.body])
    // A source whose width cannot be probed is an error and touches nothing.
    ensures pathStr in files && ProbeWidth(env, faults, files, pathStr).None? ==>
      r == Step(files, Err(ProbeFailed(pathStr)))
    // Width 0, or a source narrower than asked: the original bytes and their
    // MIME type, with no cache access.
    ensures pathStr in files && ProbeWidth(env, faults, files, pathStr).Some? &&
            (width == 0 || ProbeWidth(env, faults, files, pathStr).value < width) ==>
      r == Step(files, Ok(Served(files[pathStr], env.mimeFromPath(pathStr))))
    // Otherwise (an equal width included) every success is a PNG that the
    // cache now holds.
    ensures pathStr in files && ProbeWidth(env, faults, files, pathStr).Some? &&
            width != 0 && ProbeWidth(env, faults, files, pathStr).value >= width && r.result.Ok? ==>
      var cache := CachePath(env, thumbDir, pathStr, width);
      r.result.value.mime == PngMime && cache in r.files && r.files[cache] == r.result.value.body
    // A cache hit returns the stored bytes, without resizing or writing.
    ensures pathStr in files && ProbeWidth(env, faults, files, pathStr).Some? &&
            width != 0 && ProbeWidth(env, faults, files, pathStr).value >= width &&
            CachePath(env, thumbDir, pathStr, width) in files && CachePath(env, thumbDir, pathStr, width) !in faults.read ==>
      r == Step(files, Ok(Served(files[CachePath(env, thumbDir, pathStr, width)], PngMime)))
    // A cache file that cannot be read is the error.
    ensures pathStr in files && ProbeWidth(env, faults, files, pathStr).Some? &&
            width != 0 && ProbeWidth(env, faults, files, pathStr).value >= width &&
            CachePath(env, thumbDir, pathStr, width) in files && CachePath(env, thumbDir, pathStr, width) in faults.read ==>
      r == Step(files, Err(faults.read[CachePath(env, thumbDir, pathStr, width)]))
    // A miss: the resizer's bytes are written to the cache and returned as a
    // PNG; a failed resize or write is the error, and nothing changes.
    ensures pathStr in files && ProbeWidth(env, faults, files, pathStr).Some? &&
            width != 0 && ProbeWidth(env, faults, files, pathStr).value >= width &&
            CachePath(env, thumbDir, pathStr, width) !in files ==>
      var cache := CachePath(env, thumbDir, pathStr, width);
      match env.thumbnail(files[pathStr], width)
      case Err(e) => r == Step(files, Err(e))
      case Ok(png) =>
        && (cache !in faults.write ==> r == Step(files[cache := png], Ok(Served(png, PngMime))))
        && (cache in faults.write ==> r == Step(files, Err(faults.write[cache])))
  {
    if pathStr !in files then Step(files, Err(SourceNotFound(pathStr)))
    else
      match ProbeWidth(env, faults, files, pathStr)
      case None => Step(files, Err(ProbeFailed(pathStr)))
      case Some(origWidth) =>
        if width == 0 || origWidth < width then
          match ReadFile(files, faults, pathStr)
          case Err(e) => Step(files, Err(e))
          case Ok(buffer) => Step(files, Ok(Served(buffer, env.mimeFromPath(pathStr))))
        else
          var cache := CachePath(env, thumbDir, pathStr, width);
          if cache in files then
            match ReadFile(files, faults, cache)
            case Err(e) => Step(files, Err(e))
            case Ok(buffer) => Step(files, Ok(Served(buffer, PngMime)))
          else
            match ReadFile(files, faults, pathStr)
            case Err(e) => Step(files, Err("Failed to open image: " + e))
            case Ok(source) =>
              match env.thumbnail(source, width)
              case Err(e) => Step(files, Err(e))
              case Ok(buffer) =>
                match WriteFile(files, faults, cache, buffer)
                case Err(e) => Step(files, Err(e))
                case Ok(written) => Step(written, Ok(Served(buffer, PngMime)))
  }

  // ---------------------------------------------------------------------------
  // The response

  datatype Response = Response(status: nat, headers: seq<(string, string)>, body: Bytes)

  const CacheControl := "public, max-age=31536000"

  /** The response for an unresolved path (`None`), a success or an error. */
  function Respond(outcome: Option<Result<Served, string>>): (resp: Response)
    ensures resp.status == 404 <==> outcome.None?
    ensures resp.status == 200 <==> outcome.Some? && outcome.value.Ok?
    ensures resp.status == 500 <==> outcome.Some? && outcome.value.Err?
    ensures outcome.None? ==> resp.body == Utf8("File not found") && resp.headers == []
    ensures outcome.Some? && outcome.value.Ok? ==>
      && resp.body == outcome.value.value.body
      && resp.headers == [("content-type", outcome.value.value.mime),
                          ("access-control-allow-origin", "*"),
                          ("cache-control", CacheControl)]
    ensures outcome.Some? && outcome.value.Err? ==> resp.body == Utf8(outcome.value.error) && resp.headers == []
  {
    match outcome
    case None => Response(404, [], Utf8("File not found"))
    case Some(Ok(served)) =>
      Response(200, [("content-type", served.mime),
                     ("access-control-allow-origin", "*"),
                     ("cache-control", CacheControl)], served.body)
    case Some(Err(e)) => Response(500, [], Utf8(e))
  }

  /** The files after a request and the response it got. */
  datatype Handled = Handled(files: Files, response: Response)

  /** The response to a request whose path resolved to `resolved` (or did not
      resolve), asking for `width`. */
  function Dispatch(env: Env, faults: Faults, files: Files, cacheRoot: string, resolved: Option<Path>, width: U32): (h: Handled)
    ensures h.response.status == 200 || h.response.status == 404 || h.response.status == 500
    ensures h.response.status == 404 <==> resolved.None?
    ensures h.response.status == 404 ==>
      h.files == files && h.response.body == Utf8("File not found") && h.response.headers == []
    ensures resolved.Some? ==>
      var t := Thumbnail(env, faults, files, ThumbCacheDir(cacheRoot), resolved.value, width);
      && h.files == t.files
      && (h.response.status == 200 <==> t.result.Ok?)
      && (t.result.Ok? ==>
            && h.response.body == t.result.value.body
            && h.response.headers == [("content-type", t.result.value.mime),
                                      ("access-control-allow-origin", "*"),
                                      ("cache-control", CacheControl)])
      && (h.response.status == 500 <==> t.result.Err?)
      && (t.result.Err? ==> h.response.body == Utf8(t.result.error) && h.response.headers == [])
  {
    match resolved
    case None => Handled(files, Respond(None))
    case Some(realPath) =>
      var t := Thumbnail(env, faults, files, ThumbCacheDir(cacheRoot), realPath, width);
      Handled(t.files, Respond(Some(t.result)))
  }

  /** The worker task of `protocol_handler`, from URI to response: the path
      and the query are parsed, the path is resolved, and the request is
      dispatched with the query's width. */
  function HandleRequest(env: Env, faults: Faults, files: Files, cacheRoot: string, uri: string): (h: Handled)
    ensures h.response.status == 200 || h.response.status == 404 || h.response.status == 500
    ensures h.response.status == 404 <==>
      ResolveRealPath(env, files, TempDir(cacheRoot), RequestPath(env, uri), QueryParams(env, QueryPairs(uri)).root).None?
    ensures h.response.status == 404 ==>
      h.files == files && h.response.body == Utf8("File not found") && h.response.headers == []
    // A resolved path is processed with the width from the query; the status,
    // headers and body follow the outcome.
    ensures var q := QueryParams(env, QueryPairs(uri));
      var resolved := ResolveRealPath(env, files, TempDir(cacheRoot), RequestPath(env, uri), q.root);
      resolved.Some? ==>
        var t := Thumbnail(env, faults, files, ThumbCacheDir(cacheRoot), resolved.value, q.width);
        && h.files == t.files
        && (h.response.status == 200 <==> t.result.Ok?)
        && (t.result.Ok? ==>
              && h.response.body == t.result.value.body
              && h.response.headers == [("content-type", t.result.value.mime),
                                        ("access-control-allow-origin", "*"),
                                        ("cache-control", CacheControl)])
        && (h.response.status == 500 <==> t.result.Err?)
        && (t.result.Err? ==> h.response.body == Utf8(t.result.error) && h.response.headers == [])
  {
    var q := QueryParams(env, QueryPairs(uri));
    Dispatch(env, faults, files, cacheRoot, ResolveRealPath(env, files, TempDir(cacheRoot), RequestPath(env, uri), q.root), q.width)
  }

}
