/** The two asset commands and their helper as they run: step by step on a
    FileStore, each proved to end in the state and result its value-level
    counterpart in Assets describes. */
module AssetCommands {
  import opened Wrappers
  import opened Text
  import opened Host
  import opened Utils
  import opened FileSystem
  import opened Assets
  import AssetLemmas

  method SaveTempImage(fs: FileStore, env: Env, cacheRoot: string, base64Data: string) returns (r: Result<string, string>)
    modifies fs
    ensures var s := Assets.SaveTempImage(env, fs.faults, old(fs.files), cacheRoot, base64Data);
      fs.files == s.files && r == s.result
  {
    var raw := RawBase64(base64Data);
    var decoded := env.base64Decode(raw);
    if decoded.Err? {
      return Err(decoded.error);
    }
    var data := decoded.value;
    var filename := HashFilename(env.sha256, data, "png");
    var filePath := Join(TempDir(cacheRoot), filename);
    if !fs.Exists(filePath) {
      var written := fs.Write(filePath, data);
      if written.Err? {
        return Err(written.error);
      }
    }
    return Ok(TempPrefix + filename);
  }

  method ImportExternalFile(fs: FileStore, env: Env, srcPath: Path, targetDir: Path) returns (r: Result<string, string>)
    modifies fs
    ensures var s := Assets.ImportExternalFile(env, fs.faults, old(fs.files), srcPath, targetDir);
      fs.files == s.files && r == s.result
  {
    var read := fs.Read(srcPath);
    if read.Err? {
      return Err("Read error: " + read.error);
    }
    var data := read.value;
    var ext := ExtensionOrBin(env, srcPath);
    var filename := HashFilename(env.sha256, data, ext);
    var destPath := Join(targetDir, filename);
    if !fs.Exists(destPath) {
      var written := fs.Write(destPath, data);
      if written.Err? {
        return Err("Write error: " + written.error);
      }
    }
    return Ok("assets/" + filename);
  }

  /** One pass of the `commit_assets` loop: move, delete or import the file
      `rPath` names and return its new path, or the error of a failed move. */
  method CommitItem(fs: FileStore, env: Env, tempDir: Path, targetDir: Path, rPath: string)
    returns (r: Result<string, string>)
    modifies fs
    ensures var s := Assets.CommitItem(env, fs.faults, old(fs.files), tempDir, targetDir, rPath);
      fs.files == s.files && r == s.result
  {
    if StartsWith(rPath, TempPrefix) {
      var filename := rPath[|TempPrefix|..];
      var srcPath := Join(tempDir, filename);
      var destPath := Join(targetDir, filename);
      if fs.Exists(srcPath) {
        if !fs.Exists(destPath) {
          var moved := fs.Rename(srcPath, destPath);
          if moved.Err? {
            var copied := fs.Copy(srcPath, destPath);
            if copied.Err? {
              return Err(copied.error);
            }
            var removed := fs.Remove(srcPath);
            if removed.Err? {
              return Err(removed.error);
            }
          }
        } else {
          var ignored := fs.Remove(srcPath);
        }
      }
      return Ok("assets/" + filename);
    } else if env.isAbsolute(rPath) && fs.Exists(rPath) {
      var imported := ImportExternalFile(fs, env, rPath, targetDir);
      if imported.Ok? {
        return Ok(imported.value);
      }
      return Ok(rPath);
    }
    return Ok(rPath);
  }

  method CommitAssets(fs: FileStore, env: Env, cacheRoot: string, projectRoot: string, runtimePaths: seq<string>)
    returns (r: Result<seq<string>, string>)
    modifies fs
    ensures var s := Assets.CommitAssets(env, fs.faults, old(fs.files), cacheRoot, projectRoot, runtimePaths);
      fs.files == s.files && r == s.result
  {
    var tempDir := TempDir(cacheRoot);
    var targetDir := AssetsDir(projectRoot);
    ghost var files0 := fs.files;
    var newPaths: seq<string> := [];
    for i := 0 to |runtimePaths|
      invariant CommitAll(env, fs.faults, files0, tempDir, targetDir, runtimePaths[..i]) == Step(fs.files, Ok(newPaths))
    {
      assert runtimePaths[..i + 1][..i] == runtimePaths[..i];
      var newPath := CommitItem(fs, env, tempDir, targetDir, runtimePaths[i]);
      if newPath.Err? {
        AssetLemmas.ErrorIsFinal(env, fs.faults, files0, tempDir, targetDir, runtimePaths, i + 1);
        return Err(newPath.error);
      }
      newPaths := newPaths + [newPath.value];
    }
    assert runtimePaths[..|runtimePaths|] == runtimePaths;
    return Ok(newPaths);
  }
}
