/** The thumbnail handler as it runs: the query loop, `process_thumbnail` on
    a FileStore, and the worker task that ties them together. */
module ThumbCommands {
  import opened Wrappers
  import opened Text
  import opened Host
  import opened Utils
  import opened FileSystem
  import opened Thumbs

  /** The query loop of `protocol_handler`: `target_width` and `project_root`
      start at 0 and `None` and are updated pair by pair. */
  method ParseQuery(env: Env, uriStr: string) returns (q: Query)
    ensures q == QueryParams(env, QueryPairs(uriStr))
  {
    var targetWidth: U32 := 0;
    var projectRoot: Option<string> := None;
    var parts := Split(uriStr, '?');
    if |parts| > 1 {
      var pairs := Split(parts[1], '&');
      for i := 0 to |pairs|
        invariant Query(targetWidth, projectRoot) == QueryParams(env, pairs[..i])
      {
        assert pairs[..i + 1][..i] == pairs[..i];
        match SplitOnce(pairs[i], '=') {
          case None => {}
          case Some((k, v)) =>
            if k == "w" {
              targetWidth := ParseU32(v).GetOr(0);
            } else if k == "root" {
              var decoded := env.percentDecode(v);
              if decoded.Some? {
                projectRoot := Some(decoded.value);
              }
            }
        }
      }
      assert pairs[..|pairs|] == pairs;
    }
    q := Query(targetWidth, projectRoot);
  }

  method ProcessThumbnail(fs: FileStore, env: Env, thumbDir: Path, filePath: Path, targetWidth: U32)
    returns (r: Result<Served, string>)
    modifies fs
    ensures var t := Thumbnail(env, fs.faults, old(fs.files), thumbDir, filePath, targetWidth);
      fs.files == t.files && r == t.result
  {
    if !fs.Exists(filePath) {
      return Err(SourceNotFound(filePath));
    }
    var origWidth := ProbeWidth(env, fs.faults, fs.files, filePath);
    if origWidth.None? {
      return Err(ProbeFailed(filePath));
    }
    if targetWidth == 0 || origWidth.value < targetWidth {
      var buffer := fs.Read(filePath);
      match buffer {
        case Err(e) => return Err(e);
        case Ok(bytes) => return Ok(Served(bytes, env.mimeFromPath(filePath)));
      }
    }
    var cachePath := Join(thumbDir, CacheFileName(env.sha256, filePath, targetWidth));
    if fs.Exists(cachePath) {
      var cached := fs.Read(cachePath);
      if cached.Err? {
        return Err(cached.error);
      }
      return Ok(Served(cached.value, PngMime));
    }
    var source := fs.Read(filePath);
    var sourceBytes;
    match source {
      case Err(e) => return Err("Failed to open image: " + e);
      case Ok(bytes) => sourceBytes := bytes;
    }
    var encoded := env.thumbnail(sourceBytes, targetWidth);
    if encoded.Err? {
      return Err(encoded.error);
    }
    var written := fs.Write(cachePath, encoded.value);
    if written.Err? {
      return Err(written.error);
    }
    return Ok(Served(encoded.value, PngMime));
  }

  /** The task `protocol_handler` hands to the worker pool: parse, resolve,
      process, respond. */
  method HandleRequest(fs: FileStore, env: Env, cacheRoot: string, uri: string) returns (resp: Response)
    modifies fs
    ensures var h := Thumbs.HandleRequest(env, fs.faults, old(fs.files), cacheRoot, uri);
      fs.files == h.files && resp == h.response
  {
    var q := ParseQuery(env, uri);
    var parts := Split(uri, '?');
    var rawUrlPath := parts[0];
    var pathPart := StripScheme(rawUrlPath);
    var decodedPath := DecodedPath(env, pathPart);
    var realPath := ResolveRealPath(env, fs.files, TempDir(cacheRoot), decodedPath, q.root);
    if realPath.None? {
      resp := Respond(None);
    } else {
      var result := ProcessThumbnail(fs, env, ThumbCacheDir(cacheRoot), realPath.value, q.width);
      resp := Respond(Some(result));
    }
  }
}
