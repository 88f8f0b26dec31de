/** What the asset store promises across items and across calls. */
module AssetLemmas {
  import opened Wrappers
  import opened Text
  import opened Host
  import opened Utils
  import opened FileSystem
  import opened Assets

  /** Once an item fails, the loop stops: the result of the whole call is the
      error and the files as that item left them. */
  lemma {:induction false} ErrorIsFinal(env: Env, faults: Faults, files: Files, tempDir: Path, targetDir: Path, paths: seq<string>, k: nat)
    requires k <= |paths|
    requires CommitAll(env, faults, files, tempDir, targetDir, paths[..k]).result.Err?
    ensures CommitAll(env, faults, files, tempDir, targetDir, paths) == CommitAll(env, faults, files, tempDir, targetDir, paths[..k])
    decreases |paths| - k
  {
    if k < |paths| {
      var longer := paths[..k + 1];
      assert longer[..k] == paths[..k];
      ErrorIsFinal(env, faults, files, tempDir, targetDir, paths, k + 1);
    } else {
      assert paths[..k] == paths;
    }
  }

  /** The outputs for a prefix of the inputs are the prefix of the outputs. */
  lemma {:induction false} CommitPrefix(env: Env, faults: Faults, files: Files, tempDir: Path, targetDir: Path, paths: seq<string>, k: nat)
    requires k <= |paths|
    requires CommitAll(env, faults, files, tempDir, targetDir, paths).result.Ok?
    ensures CommitAll(env, faults, files, tempDir, targetDir, paths[..k]).result.Ok?
    ensures CommitAll(env, faults, files, tempDir, targetDir, paths[..k]).result.value
         == CommitAll(env, faults, files, tempDir, targetDir, paths).result.value[..k]
    decreases |paths| - k
  {
    if k < |paths| {
      CommitPrefix(env, faults, files, tempDir, targetDir, paths, k + 1);
      var longer := paths[..k + 1];
      assert longer[..k] == paths[..k];
      var out := CommitAll(env, faults, files, tempDir, targetDir, paths).result.value;
      assert out[..k + 1][..k] == out[..k];
    } else {
      assert paths[..k] == paths;
    }
  }

  /** The files as the loop leaves them after the first k inputs. */
  function StateAfter(env: Env, faults: Faults, files: Files, tempDir: Path, targetDir: Path, paths: seq<string>, k: nat): Files
    requires k <= |paths|
  {
    CommitAll(env, faults, files, tempDir, targetDir, paths[..k]).files
  }

  /** Output i is what the one-item step makes of input i, in the state the
      items before it left: the list is mapped one to one and in order. */
  lemma CommitElement(env: Env, faults: Faults, files: Files, tempDir: Path, targetDir: Path, paths: seq<string>, k: nat)
    requires k < |paths|
    requires CommitAll(env, faults, files, tempDir, targetDir, paths).result.Ok?
    ensures var step := CommitItem(env, faults, StateAfter(env, faults, files, tempDir, targetDir, paths, k), tempDir, targetDir, paths[k]);
      && step.result == Ok(CommitAll(env, faults, files, tempDir, targetDir, paths).result.value[k])
      && step.files == StateAfter(env, faults, files, tempDir, targetDir, paths, k + 1)
  {
    var longer := paths[..k + 1];
    assert longer[..k] == paths[..k] && longer[k] == paths[k];
    CommitPrefix(env, faults, files, tempDir, targetDir, paths, k);
    CommitPrefix(env, faults, files, tempDir, targetDir, paths, k + 1);
    var prev := CommitAll(env, faults, files, tempDir, targetDir, paths[..k]);
    SnocParts(prev, CommitItem(env, faults, prev.files, tempDir, targetDir, paths[k]),
      CommitAll(env, faults, files, tempDir, targetDir, longer),
      CommitAll(env, faults, files, tempDir, targetDir, paths).result.value, k);
  }

  /** The bookkeeping of one fold step: if the list after the step is the
      list before it extended by one, the step produced that last element. */
  lemma SnocParts(prev: Step<seq<string>>, step: Step<string>, next: Step<seq<string>>, out: seq<string>, k: nat)
    requires k < |out|
    requires prev.result == Ok(out[..k])
    requires next.result == Ok(out[..k + 1])
    requires next == if prev.result.Err? then prev
      else if step.result.Err? then Step(step.files, Err(step.result.error))
      else Step(step.files, Ok(prev.result.value + [step.result.value]))
    ensures step.result == Ok(out[k]) && step.files == next.files
  {
    assert out[..k + 1] == out[..k] + [out[k]];
  }

  /** On success, every `_temp/<f>` input became `assets/<f>` and every input
      that is neither a temp path nor absolute came out unchanged. */
  lemma CommitOutputs(env: Env, faults: Faults, files: Files, tempDir: Path, targetDir: Path, paths: seq<string>, k: nat)
    requires k < |paths|
    requires CommitAll(env, faults, files, tempDir, targetDir, paths).result.Ok?
    ensures var out := CommitAll(env, faults, files, tempDir, targetDir, paths).result.value;
      && |out| == |paths|
      && (StartsWith(paths[k], TempPrefix) ==> out[k] == "assets/" + paths[k][|TempPrefix|..])
      && (!StartsWith(paths[k], TempPrefix) && !env.isAbsolute(paths[k]) ==> out[k] == paths[k])
  {
    CommitElement(env, faults, files, tempDir, targetDir, paths, k);
  }

  /** With no I/O failures `commit_assets` always succeeds. */
  lemma {:induction false} NoFaultsNoErrors(env: Env, files: Files, tempDir: Path, targetDir: Path, paths: seq<string>)
    ensures CommitAll(env, NoFaults, files, tempDir, targetDir, paths).result.Ok?
    decreases |paths|
  {
    if paths != [] {
      NoFaultsNoErrors(env, files, tempDir, targetDir, paths[..|paths| - 1]);
    }
  }

  predicate Under(p: Path, dir: Path)
  {
    StartsWith(p, dir + "/")
  }

  /** Neither directory lies inside the other. */
  predicate DisjointDirs(tempDir: Path, targetDir: Path)
  {
    !StartsWith(tempDir + "/", targetDir + "/") && !StartsWith(targetDir + "/", tempDir + "/")
  }

  lemma NotUnderBoth(tempDir: Path, targetDir: Path, p: Path)
    requires DisjointDirs(tempDir, targetDir)
    ensures !(Under(p, tempDir) && Under(p, targetDir))
  {
  }

  /** An input the commit cannot alias: a temp path, a relative path, or an
      absolute path inside neither the temp nor the assets directory. */
  predicate OutsideStores(env: Env, tempDir: Path, targetDir: Path, p: string)
  {
    StartsWith(p, TempPrefix) || !env.isAbsolute(p) || (!Under(p, tempDir) && !Under(p, targetDir))
  }

  /** How a commit may change the files: nothing outside the two directories
      changes, nothing is added to the temp directory, nothing is removed from
      the assets directory. */
  ghost predicate CommitFrame(f: Files, g: Files, tempDir: Path, targetDir: Path)
  {
    && (forall p :: !Under(p, tempDir) && !Under(p, targetDir) ==> (p in f <==> p in g) && (p in f ==> f[p] == g[p]))
    && (forall p :: Under(p, tempDir) && p in g ==> p in f)
    && (forall p :: Under(p, targetDir) && p in f ==> p in g)
  }

  lemma ItemFrame(env: Env, files: Files, tempDir: Path, targetDir: Path, rPath: string)
    requires DisjointDirs(tempDir, targetDir)
    ensures CommitFrame(files, CommitItem(env, NoFaults, files, tempDir, targetDir, rPath).files, tempDir, targetDir)
  {
    var g := CommitItem(env, NoFaults, files, tempDir, targetDir, rPath).files;
    if StartsWith(rPath, TempPrefix) {
      var name := rPath[|TempPrefix|..];
      var src, dest := Join(tempDir, name), Join(targetDir, name);
      NotUnderBoth(tempDir, targetDir, src);
      NotUnderBoth(tempDir, targetDir, dest);
      forall p | Under(p, tempDir) || Under(p, targetDir) ensures !(Under(p, tempDir) && Under(p, targetDir)) {
        NotUnderBoth(tempDir, targetDir, p);
      }
    } else if env.isAbsolute(rPath) && rPath in files {
      var ext := ExtensionOrBin(env, rPath);
      var dest := Join(targetDir, HashFilename(env.sha256, files[rPath], ext));
      NotUnderBoth(tempDir, targetDir, dest);
    }
  }

  lemma {:induction false} RunFrame(env: Env, files: Files, tempDir: Path, targetDir: Path, paths: seq<string>, j: nat, k: nat)
    requires DisjointDirs(tempDir, targetDir)
    requires j <= k <= |paths|
    ensures CommitFrame(StateAfter(env, NoFaults, files, tempDir, targetDir, paths, j),
                        StateAfter(env, NoFaults, files, tempDir, targetDir, paths, k), tempDir, targetDir)
    decreases k - j
  {
    if j < k {
      RunFrame(env, files, tempDir, targetDir, paths, j + 1, k);
      NoFaultsNoErrors(env, files, tempDir, targetDir, paths);
      CommitElement(env, NoFaults, files, tempDir, targetDir, paths, j);
      ItemFrame(env, StateAfter(env, NoFaults, files, tempDir, targetDir, paths, j), tempDir, targetDir, paths[j]);
    }
  }

  /** After the first call, no temp input's source remains. */
  lemma TempSourceGone(env: Env, files: Files, tempDir: Path, targetDir: Path, paths: seq<string>, j: nat)
    requires DisjointDirs(tempDir, targetDir)
    requires j < |paths| && StartsWith(paths[j], TempPrefix)
    ensures Join(tempDir, paths[j][|TempPrefix|..]) !in StateAfter(env, NoFaults, files, tempDir, targetDir, paths, |paths|)
  {
    var name := paths[j][|TempPrefix|..];
    var src, dest := Join(tempDir, name), Join(targetDir, name);
    NotUnderBoth(tempDir, targetDir, src);
    NoFaultsNoErrors(env, files, tempDir, targetDir, paths);
    CommitElement(env, NoFaults, files, tempDir, targetDir, paths, j);
    assert src !in StateAfter(env, NoFaults, files, tempDir, targetDir, paths, j + 1);
    RunFrame(env, files, tempDir, targetDir, paths, j + 1, |paths|);
  }

  /** Files outside both directories are the same in every state of the loop. */
  lemma OutsideUnchanged(env: Env, files: Files, tempDir: Path, targetDir: Path, paths: seq<string>, k: nat, p: Path)
    requires DisjointDirs(tempDir, targetDir)
    requires k <= |paths|
    requires !Under(p, tempDir) && !Under(p, targetDir)
    ensures var f := StateAfter(env, NoFaults, files, tempDir, targetDir, paths, k);
      (p in f <==> p in files) && (p in files ==> f[p] == files[p])
  {
    assert paths[..0] == [];
    RunFrame(env, files, tempDir, targetDir, paths, 0, k);
  }

  /** After the first call, every imported file's asset copy exists. */
  lemma ImportedCopyKept(env: Env, files: Files, tempDir: Path, targetDir: Path, paths: seq<string>, j: nat)
    requires DisjointDirs(tempDir, targetDir)
    requires j < |paths| && !StartsWith(paths[j], TempPrefix) && env.isAbsolute(paths[j])
    requires !Under(paths[j], tempDir) && !Under(paths[j], targetDir)
    requires paths[j] in files
    ensures Join(targetDir, HashFilename(env.sha256, files[paths[j]], ExtensionOrBin(env, paths[j])))
      in StateAfter(env, NoFaults, files, tempDir, targetDir, paths, |paths|)
  {
    var dest := Join(targetDir, HashFilename(env.sha256, files[paths[j]], ExtensionOrBin(env, paths[j])));
    NotUnderBoth(tempDir, targetDir, dest);
    var before := StateAfter(env, NoFaults, files, tempDir, targetDir, paths, j);
    OutsideUnchanged(env, files, tempDir, targetDir, paths, j, paths[j]);
    NoFaultsNoErrors(env, files, tempDir, targetDir, paths);
    CommitElement(env, NoFaults, files, tempDir, targetDir, paths, j);
    ImportCreatesCopy(env, before, tempDir, targetDir, paths[j]);
    RunFrame(env, files, tempDir, targetDir, paths, j + 1, |paths|);
  }

  /** Without faults, importing an existing absolute path leaves its hashed
      copy in the assets directory. */
  lemma ImportCreatesCopy(env: Env, files: Files, tempDir: Path, targetDir: Path, rPath: string)
    requires !StartsWith(rPath, TempPrefix) && env.isAbsolute(rPath) && rPath in files
    ensures Join(targetDir, HashFilename(env.sha256, files[rPath], ExtensionOrBin(env, rPath)))
      in CommitItem(env, NoFaults, files, tempDir, targetDir, rPath).files
  {
  }

  /** Replaying input i on the files the first call left changes nothing and
      gives output i again. */
  lemma ReplayItem(env: Env, files: Files, tempDir: Path, targetDir: Path, paths: seq<string>, i: nat)
    requires DisjointDirs(tempDir, targetDir)
    requires i < |paths| && OutsideStores(env, tempDir, targetDir, paths[i])
    ensures var first := CommitAll(env, NoFaults, files, tempDir, targetDir, paths);
      first.result.Ok? &&
      CommitItem(env, NoFaults, first.files, tempDir, targetDir, paths[i]) == Step(first.files, Ok(first.result.value[i]))
  {
    NoFaultsNoErrors(env, files, tempDir, targetDir, paths);
    CommitElement(env, NoFaults, files, tempDir, targetDir, paths, i);
    assert paths[..|paths|] == paths;
    var x := paths[i];
    if StartsWith(x, TempPrefix) {
      TempSourceGone(env, files, tempDir, targetDir, paths, i);
    } else if env.isAbsolute(x) {
      OutsideUnchanged(env, files, tempDir, targetDir, paths, i, x);
      OutsideUnchanged(env, files, tempDir, targetDir, paths, |paths|, x);
      if x in files {
        ImportedCopyKept(env, files, tempDir, targetDir, paths, i);
      }
    }
  }

  /** Replaying the inputs on the files the first call left changes nothing
      and reproduces its outputs, item by item. */
  lemma {:induction false} SecondPass(env: Env, files: Files, tempDir: Path, targetDir: Path, paths: seq<string>, k: nat)
    requires DisjointDirs(tempDir, targetDir)
    requires forall i :: 0 <= i < |paths| ==> OutsideStores(env, tempDir, targetDir, paths[i])
    requires k <= |paths|
    ensures var first := CommitAll(env, NoFaults, files, tempDir, targetDir, paths);
      first.result.Ok? &&
      CommitAll(env, NoFaults, first.files, tempDir, targetDir, paths[..k]) == Step(first.files, Ok(first.result.value[..k]))
  {
    NoFaultsNoErrors(env, files, tempDir, targetDir, paths);
    var first := CommitAll(env, NoFaults, files, tempDir, targetDir, paths);
    var last := first.files;
    var out := first.result.value;
    if k == 0 {
      assert paths[..0] == [];
    } else {
      var i := k - 1;
      SecondPass(env, files, tempDir, targetDir, paths, i);
      ReplayItem(env, files, tempDir, targetDir, paths, i);
      var longer := paths[..k];
      assert longer[..i] == paths[..i] && longer[i] == paths[i];
      assert out[..k] == out[..i] + [out[i]];
    }
  }

  /** `commit_assets` is idempotent: with no I/O failures, when the temp and
      assets directories are disjoint and no absolute input lies inside either,
      a second call with the same inputs returns the same list and changes no
      file. */
  lemma CommitIsIdempotent(env: Env, files: Files, cacheRoot: string, projectRoot: string, paths: seq<string>)
    requires DisjointDirs(TempDir(cacheRoot), AssetsDir(projectRoot))
    requires forall i :: 0 <= i < |paths| ==> OutsideStores(env, TempDir(cacheRoot), AssetsDir(projectRoot), paths[i])
    ensures var first := CommitAssets(env, NoFaults, files, cacheRoot, projectRoot, paths);
      first.result.Ok? && CommitAssets(env, NoFaults, first.files, cacheRoot, projectRoot, paths) == first
  {
    SecondPass(env, files, TempDir(cacheRoot), AssetsDir(projectRoot), paths, |paths|);
    assert paths[..|paths|] == paths;
    var out := CommitAssets(env, NoFaults, files, cacheRoot, projectRoot, paths).result.value;
    assert out[..|paths|] == out;
  }

  /** A `data:` URI and its bare payload are decoded from the same text. */
  lemma RawBase64OfDataUri(header: string, payload: string)
    requires ',' !in header && ',' !in payload
    ensures RawBase64(header + "," + payload) == payload
    ensures RawBase64(payload) == payload
  {
    var s := header + "," + payload;
    assert s[..|header|] == header;
    assert IndexOf(s, ',') == Some(|header|);
    assert s[|header| + 1..] == payload;
  }

  /** Saving the same image again returns the same virtual path and writes
      nothing: the second call finds the file the first one left. */
  lemma SaveTempImageDeduplicates(env: Env, faults: Faults, files: Files, cacheRoot: string, base64Data: string)
    requires SaveTempImage(env, faults, files, cacheRoot, base64Data).result.Ok?
    ensures var first := SaveTempImage(env, faults, files, cacheRoot, base64Data);
      SaveTempImage(env, faults, first.files, cacheRoot, base64Data) == first
  {
  }

  /** Pasting an image and committing the returned path moves the image from
      the temp directory to `<project_root>/assets/<hash>.png` and yields
      `assets/<hash>.png`. */
  lemma SaveThenCommit(env: Env, files: Files, cacheRoot: string, projectRoot: string, base64Data: string)
    requires env.base64Decode(RawBase64(base64Data)).Ok?
    requires TempDir(cacheRoot) != AssetsDir(projectRoot)
    requires var name := HashFilename(env.sha256, env.base64Decode(RawBase64(base64Data)).value, "png");
      Join(TempDir(cacheRoot), name) !in files && Join(AssetsDir(projectRoot), name) !in files
    ensures var data := env.base64Decode(RawBase64(base64Data)).value;
      var name := HashFilename(env.sha256, data, "png");
      var saved := SaveTempImage(env, NoFaults, files, cacheRoot, base64Data);
      var committed := CommitAssets(env, NoFaults, saved.files, cacheRoot, projectRoot, [saved.result.value]);
      && saved.result == Ok(TempPrefix + name)
      && committed.result == Ok(["assets/" + name])
      && Join(AssetsDir(projectRoot), name) in committed.files
      && committed.files[Join(AssetsDir(projectRoot), name)] == data
      && Join(TempDir(cacheRoot), name) !in committed.files
  {
    var data := env.base64Decode(RawBase64(base64Data)).value;
    var name := HashFilename(env.sha256, data, "png");
    var saved := SaveTempImage(env, NoFaults, files, cacheRoot, base64Data);
    var input := TempPrefix + name;
    assert input[|TempPrefix|..] == name;
    var inputs: seq<string> := [input];
    assert inputs[..0] == [] && inputs[..1] == inputs;
    var src, dest := Join(TempDir(cacheRoot), name), Join(AssetsDir(projectRoot), name);
    JoinSameNameInjective(TempDir(cacheRoot), AssetsDir(projectRoot), name);
    assert saved.files == files[src := data];
    var item := CommitItem(env, NoFaults, saved.files, TempDir(cacheRoot), AssetsDir(projectRoot), input);
    assert item.files == (saved.files - {src})[dest := data];
    assert item.result == Ok("assets/" + name);
    assert saved.result.value == input;
    assert CommitAll(env, NoFaults, saved.files, TempDir(cacheRoot), AssetsDir(projectRoot), inputs[..0]) == Step(saved.files, Ok([]));
    var committed := CommitAll(env, NoFaults, saved.files, TempDir(cacheRoot), AssetsDir(projectRoot), inputs);
    var none: seq<string> := [];
    assert none + ["assets/" + name] == ["assets/" + name];
    assert committed == Step(item.files, Ok(none + ["assets/" + name]));
  }

  /** Joining one name onto two different directories gives two different paths. */
  lemma JoinSameNameInjective(a: Path, b: Path, name: string)
    requires a != b
    ensures Join(a, name) != Join(b, name)
  {
    var pa, pb := Join(a, name), Join(b, name);
    assert |pa| == |a| + 1 + |name| && |pb| == |b| + 1 + |name|;
    assert pa[..|a|] == a && pb[..|b|] == b;
  }
}
