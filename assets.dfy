/** The asset store on values: what `save_temp_image`, `import_external_file`
    and `commit_assets` do to the files and what they return, as functions of
    the files before the call. */
module Assets {
  import opened Wrappers
  import opened Text
  import opened Host
  import opened Utils
  import opened FileSystem

  /** `<project_root>/assets`, where committed assets live. */
  function AssetsDir(projectRoot: string): (dir: string)
    ensures StartsWith(dir, projectRoot + "/") && dir[|projectRoot| + 1..] == "assets"
  {
    Join(projectRoot, "assets")
  }

  /** The text handed to the base64 decoder: the second comma-separated segment
      when there is a comma (the payload of a `data:` URI), else the whole text. */
  function RawBase64(s: string): (raw: string)
    ensures ',' !in raw
    ensures ',' !in s ==> raw == s
    ensures ',' in s ==>
      var i := IndexOf(s, ',').value;
      StartsWith(s[i + 1..], raw) && (|s| == i + 1 + |raw| || s[i + 1 + |raw|] == ',')
  {
    var parts := Split(s, ',');
    if |parts| > 1 then
      var i := IndexOf(s, ',').value;
      var rest := Split(s[i + 1..], ',');
      assert parts[1] == rest[0];
      TakeFirstPiece(s[i + 1..], ',');
      parts[1]
    else
      assert IndexOf(s, ',').None?;
      parts[0]
  }

  /** The first piece of a split is the longest separator-free prefix. */
  lemma TakeFirstPiece(s: string, sep: char)
    ensures StartsWith(s, Split(s, sep)[0])
    ensures |s| == |Split(s, sep)[0]| || s[|Split(s, sep)[0]|] == sep
  {
  }

  /** `save_temp_image`: decode the payload, name it by its digest with
      extension `png`, write it to the temp directory unless a file of that name
      is already there, and return `_temp/<name>`. */
  function SaveTempImage(env: Env, faults: Faults, files: Files, cacheRoot: string, base64Data: string): (r: Step<string>)
    ensures env.base64Decode(RawBase64(base64Data)).Err? ==>
      r == Step(files, Err(env.base64Decode(RawBase64(base64Data)).error))
    ensures env.base64Decode(RawBase64(base64Data)).Ok? ==>
      var data := env.base64Decode(RawBase64(base64Data)).value;
      var name := HashFilename(env.sha256, data, "png");
      var path := Join(TempDir(cacheRoot), name);
      && (r.result.Ok? ==> r.result.value == TempPrefix + name && path in r.files)
      && (path in files ==> r == Step(files, Ok(TempPrefix + name)))
      && (r.files == files || r.files == files[path := data])
      // It fails only when the file is new and the OS refuses to write it.
      && (r.result.Ok? <==> path in files || path !in faults.write)
      && (path !in files && path in faults.write ==> r == Step(files, Err(faults.write[path])))
      && (path !in files && path !in faults.write ==> r == Step(files[path := data], Ok(TempPrefix + name)))
    ensures r.result.Err? ==> r.files == files
    ensures forall p :: p in files ==> p in r.files && r.files[p] == files[p]
  {
    match env.base64Decode(RawBase64(base64Data))
    case Err(e) => Step(files, Err(e))
    case Ok(data) =>
      var name := HashFilename(env.sha256, data, "png");
      var path := Join(TempDir(cacheRoot), name);
      if path in files then Step(files, Ok(TempPrefix + name))
      else
        match WriteFile(files, faults, path, data)
        case Err(e) => Step(files, Err(e))
        case Ok(f) => Step(f, Ok(TempPrefix + name))
  }

  /** The extension an imported file keeps, `bin` when it has none. */
  function ExtensionOrBin(env: Env, p: string): (ext: string)
    ensures env.extension(p).Some? ==> ext == env.extension(p).value
    ensures env.extension(p).None? ==> ext == "bin"
  {
    env.extension(p).GetOr("bin")
  }

  /** `import_external_file`: read the file, name its bytes by their digest and
      its own extension, write them into the assets directory unless that name
      is taken, and return `assets/<name>`. The source file is never changed. */
  function ImportExternalFile(env: Env, faults: Faults, files: Files, src: Path, targetDir: Path): (r: Step<string>)
    ensures r.result.Err? ==> r.files == files
    ensures r.result.Ok? ==>
      && src in files
      && var name := HashFilename(env.sha256, files[src], ExtensionOrBin(env, src));
      && var dest := Join(targetDir, name);
      && r.result.value == "assets/" + name
      && (dest in files ==> r.files == files)
      && (dest !in files ==> r.files == files[dest := files[src]])
    ensures src in files && src !in faults.read ==>
      var dest := Join(targetDir, HashFilename(env.sha256, files[src], ExtensionOrBin(env, src)));
      r.result.Ok? <==> (dest in files || dest !in faults.write)
    ensures src in files ==> src in r.files && r.files[src] == files[src]
    // The two failures are told apart by their prefix.
    ensures ReadFile(files, faults, src).Err? ==>
      r == Step(files, Err("Read error: " + ReadFile(files, faults, src).error))
    ensures ReadFile(files, faults, src).Ok? && r.result.Err? ==> StartsWith(r.result.error, "Write error: ")
  {
    match ReadFile(files, faults, src)
    case Err(e) => Step(files, Err("Read error: " + e))
    case Ok(data) =>
      var name := HashFilename(env.sha256, data, ExtensionOrBin(env, src));
      var dest := Join(targetDir, name);
      if dest in files then Step(files, Ok("assets/" + name))
      else
        match WriteFile(files, faults, dest, data)
        case Err(e) => Step(files, Err("Write error: " + e))
        case Ok(f) => Step(f, Ok("assets/" + name))
  }

  /** One iteration of the `commit_assets` loop: classify the path, move, delete
      or copy files accordingly, and produce the new path (or abort with the
      error of a failed move). */
  function CommitItem(env: Env, faults: Faults, files: Files, tempDir: Path, targetDir: Path, rPath: string): (r: Step<string>)
    // A temp path always becomes `assets/<name>`, whether or not its source exists.
    ensures StartsWith(rPath, TempPrefix) && r.result.Ok? ==>
      r.result.value == "assets/" + rPath[|TempPrefix|..]
    ensures StartsWith(rPath, TempPrefix) ==>
      var name := rPath[|TempPrefix|..];
      var src, dest := Join(tempDir, name), Join(targetDir, name);
      // a missing source: nothing happens
      && (src !in files ==> r == Step(files, Ok("assets/" + name)))
      // destination free: the source's bytes move there, or the call fails
      && (src in files && dest !in files && r.result.Ok? ==> r.files == (files - {src})[dest := files[src]])
      && (src in files && dest !in files && r.result.Err? ==>
            r.files == files || r.files == files[dest := files[src]])
      // it fails exactly when the rename fails and then the copy or the
      // removal of the source fails too, with that error
      && (src in files && dest !in files ==>
            var copy := CopyFile(files, faults, src, dest);
            && (r.result.Err? <==> (src, dest) in faults.rename && (copy.Err? || RemoveFile(copy.value, faults, src).Err?))
            && ((src, dest) in faults.rename && copy.Err? ==> r == Step(files, Err(copy.error)))
            && ((src, dest) in faults.rename && copy.Ok? && RemoveFile(copy.value, faults, src).Err? ==>
                  r == Step(copy.value, Err(RemoveFile(copy.value, faults, src).error))))
      // destination taken: it is kept, and the source is deleted (if the OS allows)
      && (src in files && dest in files ==>
            r.result.Ok? && r.files == After(files, RemoveFile(files, faults, src)) &&
            (src != dest ==> dest in r.files && r.files[dest] == files[dest]))
    // An absolute path that exists is copied in, never moved; a failed import
    // keeps the original path.
    ensures !StartsWith(rPath, TempPrefix) && env.isAbsolute(rPath) && rPath in files ==>
      var imp := ImportExternalFile(env, faults, files, rPath, targetDir);
      && r.files == imp.files
      && r.result == Ok(if imp.result.Ok? then imp.result.value else rPath)
      && rPath in r.files && r.files[rPath] == files[rPath]
    // Anything else passes through and touches no file.
    ensures !StartsWith(rPath, TempPrefix) && !(env.isAbsolute(rPath) && rPath in files) ==>
      r == Step(files, Ok(rPath))
  {
    if StartsWith(rPath, TempPrefix) then
      var name := rPath[|TempPrefix|..];
      var src := Join(tempDir, name);
      var dest := Join(targetDir, name);
      var out := "assets/" + name;
      if src !in files then Step(files, Ok(out))
      else if dest !in files then
        match RenameFile(files, faults, src, dest)
        case Ok(moved) => Step(moved, Ok(out))
        case Err(_) =>
          match CopyFile(files, faults, src, dest)
          case Err(e) => Step(files, Err(e))
          case Ok(copied) =>
            match RemoveFile(copied, faults, src)
            case Err(e) => Step(copied, Err(e))
            case Ok(removed) =>
              assert removed == (files - {src})[dest := files[src]];
              Step(removed, Ok(out))
      else Step(After(files, RemoveFile(files, faults, src)), Ok(out))
    else if env.isAbsolute(rPath) && rPath in files then
      var imp := ImportExternalFile(env, faults, files, rPath, targetDir);
      Step(imp.files, Ok(if imp.result.Ok? then imp.result.value else rPath))
    else Step(files, Ok(rPath))
  }

  /** The `commit_assets` loop over the first |paths| inputs: the new paths in
      input order, or the first error, with the files as the loop left them. */
  function CommitAll(env: Env, faults: Faults, files: Files, tempDir: Path, targetDir: Path, paths: seq<string>): (r: Step<seq<string>>)
    ensures r.result.Ok? ==> |r.result.value| == |paths|
    // only a failed move (rename, then copy or removal) can abort the loop
    ensures faults.rename == map[] ==> r.result.Ok?
    decreases |paths|
  {
    if paths == [] then Step(files, Ok([]))
    else
      var prev := CommitAll(env, faults, files, tempDir, targetDir, paths[..|paths| - 1]);
      if prev.result.Err? then prev
      else
        var s := CommitItem(env, faults, prev.files, tempDir, targetDir, paths[|paths| - 1]);
        match s.result
        case Err(e) => Step(s.files, Err(e))
        case Ok(out) => Step(s.files, Ok(prev.result.value + [out]))
  }

  /** `commit_assets`: the loop above with the temp directory under the cache
      root and the assets directory under the project root. */
  function CommitAssets(env: Env, faults: Faults, files: Files, cacheRoot: string, projectRoot: string, paths: seq<string>): (r: Step<seq<string>>)
    ensures r.result.Ok? ==> |r.result.value| == |paths|
    ensures faults.rename == map[] ==> r.result.Ok?
  {
    CommitAll(env, faults, files, TempDir(cacheRoot), AssetsDir(projectRoot), paths)
  }
}
