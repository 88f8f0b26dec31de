/** What the thumbnail pipeline promises: how the query is read, what names
    the cache uses, and that a repeated request is served from the cache. */
module ThumbLemmas {
  import opened Wrappers
  import opened Text
  import opened Host
  import opened Utils
  import opened FileSystem
  import opened Thumbs

  /** Classifying a rendered virtual path gives the same virtual path. */
  lemma ClassifyRender(env: Env, v: VirtualPath)
    requires WellFormed(env, v)
    ensures Classify(env, Render(v)) == v
  {
    if v.Temp? {
      var s := Render(v);
      assert s[..|TempPrefix|] == TempPrefix && s[|TempPrefix|..] == v.name;
    }
  }

  // ---------------------------------------------------------------------------
  // Query parsing

  /** A pair the loop skips: no `=`, an unknown key, or a root that does not
      decode. */
  predicate Ignored(env: Env, pair: string)
  {
    !HasKey(pair, "w") && !SetsRoot(env, pair)
  }

  /** The loop after one more pair. */
  lemma QueryParamsSnoc(env: Env, pre: seq<string>, pair: string)
    ensures QueryParams(env, pre + [pair]) == ApplyPair(env, QueryParams(env, pre), pair)
  {
    assert (pre + [pair])[..|pre|] == pre;
  }

  /** A skipped pair may appear anywhere without changing the result. */
  lemma {:induction false} IgnoredPairChangesNothing(env: Env, a: seq<string>, pair: string, b: seq<string>)
    requires Ignored(env, pair)
    ensures QueryParams(env, a + [pair] + b) == QueryParams(env, a + b)
    decreases |b|
  {
    if b == [] {
      assert a + [pair] + b == a + [pair];
      assert a + b == a;
      QueryParamsSnoc(env, a, pair);
    } else {
      var init, last := b[..|b| - 1], b[|b| - 1];
      assert a + [pair] + b == (a + [pair] + init) + [last];
      assert a + b == (a + init) + [last];
      IgnoredPairChangesNothing(env, a, pair, init);
      QueryParamsSnoc(env, a + [pair] + init, last);
      QueryParamsSnoc(env, a + init, last);
    }
  }

  /** The width is the parsed value of the last `w` pair, 0 when it is not a
      `u32`: a later `w` overrides an earlier one. */
  lemma {:induction false} LastWidthWins(env: Env, pairs: seq<string>, i: nat)
    requires i < |pairs| && HasKey(pairs[i], "w")
    requires forall j :: i < j < |pairs| ==> !HasKey(pairs[j], "w")
    ensures QueryParams(env, pairs).width == ParseU32(ValueOf(pairs[i])).GetOr(0)
    decreases |pairs|
  {
    var init, last := pairs[..|pairs| - 1], pairs[|pairs| - 1];
    assert pairs == init + [last];
    QueryParamsSnoc(env, init, last);
    if i < |pairs| - 1 {
      assert forall j :: i < j < |init| ==> init[j] == pairs[j];
      LastWidthWins(env, init, i);
      assert !HasKey(last, "w");
    }
  }

  /** Without a `w` pair the width is 0. */
  lemma {:induction false} AbsentWidthIsZero(env: Env, pairs: seq<string>)
    requires forall j :: 0 <= j < |pairs| ==> !HasKey(pairs[j], "w")
    ensures QueryParams(env, pairs).width == 0
    decreases |pairs|
  {
    if pairs != [] {
      var init := pairs[..|pairs| - 1];
      assert forall j :: 0 <= j < |init| ==> init[j] == pairs[j];
      AbsentWidthIsZero(env, init);
    }
  }

  /** The root is the decoded value of the last `root` pair that decodes: a
      later one overrides an earlier one, and one that does not decode is
      skipped. */
  lemma {:induction false} LastRootWins(env: Env, pairs: seq<string>, i: nat)
    requires i < |pairs| && SetsRoot(env, pairs[i])
    requires forall j :: i < j < |pairs| ==> !SetsRoot(env, pairs[j])
    ensures QueryParams(env, pairs).root == env.percentDecode(ValueOf(pairs[i]))
    decreases |pairs|
  {
    var init, last := pairs[..|pairs| - 1], pairs[|pairs| - 1];
    assert pairs == init + [last];
    QueryParamsSnoc(env, init, last);
    if i < |pairs| - 1 {
      assert forall j :: i < j < |init| ==> init[j] == pairs[j];
      LastRootWins(env, init, i);
      assert !SetsRoot(env, last);
    }
  }

  /** Without a `root` pair that decodes, there is no project root. */
  lemma {:induction false} AbsentRootIsNone(env: Env, pairs: seq<string>)
    requires forall j :: 0 <= j < |pairs| ==> !SetsRoot(env, pairs[j])
    ensures QueryParams(env, pairs).root == None
    decreases |pairs|
  {
    if pairs != [] {
      var init := pairs[..|pairs| - 1];
      assert forall j :: 0 <= j < |init| ==> init[j] == pairs[j];
      AbsentRootIsNone(env, init);
    }
  }

  /** The first occurrence is the one with none before it. */
  lemma FirstOccurrence(s: string, c: char, k: nat)
    requires k < |s| && s[k] == c && c !in s[..k]
    ensures IndexOf(s, c) == Some(k)
  {
    assert forall j :: 0 <= j < k ==> s[..k][j] == s[j];
  }

  /** Splitting at a separator that first occurs after `a`. */
  lemma SplitAfter(a: string, sep: char, b: string)
    requires sep !in a
    ensures Split(a + [sep] + b, sep) == [a] + Split(b, sep)
  {
    var s := a + [sep] + b;
    assert s[..|a|] == a;
    FirstOccurrence(s, sep, |a|);
    assert s[|a| + 1..] == b;
  }

  /** The pairs come from the first `?`-free piece after the first `?`. */
  lemma PairsAfterMark(path: string, tail: string)
    requires '?' !in path
    ensures QueryPairs(path + ['?'] + tail) == Split(Split(tail, '?')[0], '&')
  {
    SplitAfter(path, '?', tail);
    var parts := Split(path + ['?'] + tail, '?');
    assert parts[1] == Split(tail, '?')[0];
  }

  /** The query is the text after the first `?`. */
  lemma QueryAfterFirstMark(path: string, query: string)
    requires '?' !in path && '?' !in query
    ensures QueryPairs(path + "?" + query) == Split(query, '&')
  {
    PairsAfterMark(path, query);
    assert path + "?" + query == path + ['?'] + query;
    assert IndexOf(query, '?').None?;
  }

  lemma RegroupQuery(path: string, query: string, rest: string)
    ensures path + "?" + query + "?" + rest == path + ['?'] + (query + ['?'] + rest)
  {
  }

  /** Only the text between the first and the second `?` is parsed. */
  lemma OnlyFirstQueryIsParsed(path: string, query: string, rest: string)
    requires '?' !in path && '?' !in query
    ensures QueryPairs(path + "?" + query + "?" + rest) == Split(query, '&')
  {
    var tail := query + ['?'] + rest;
    SplitAfter(query, '?', rest);
    assert Split(tail, '?')[0] == query;
    PairsAfterMark(path, tail);
    RegroupQuery(path, query, rest);
  }

  /** A URI without `?` has no query: width 0 and no root. */
  lemma NoQueryMeansDefaults(env: Env, uri: string)
    requires '?' !in uri
    ensures QueryParams(env, QueryPairs(uri)) == DefaultQuery
  {
    assert IndexOf(uri, '?').None?;
  }

  /** The path of `thumb://localhost/<path>?<query>` is `<path>`, percent-decoded
      when that succeeds and taken as it is otherwise. */
  lemma RequestPathOfUri(env: Env, path: string, query: string)
    requires '?' !in path
    ensures RequestPath(env, LocalhostPrefix + path + "?" + query) == env.percentDecode(path).GetOr(path)
    ensures RequestPath(env, LocalhostPrefix + path) == env.percentDecode(path).GetOr(path)
  {
    var raw := LocalhostPrefix + path;
    assert raw[..|LocalhostPrefix|] == LocalhostPrefix && raw[|LocalhostPrefix|..] == path;
    assert '?' !in raw;
    SplitAfter(raw, '?', query);
    assert raw + "?" + query == raw + ['?'] + query;
    assert IndexOf(raw, '?').None?;
  }

  /** A width that is not a `u32` (say `w=abc`) falls back to 0, which serves
      the original image. */
  lemma MalformedWidthIsZero(env: Env, path: string, v: string)
    requires '?' !in path && '?' !in v && '&' !in v
    requires ParseU32(v).None?
    ensures QueryParams(env, QueryPairs(path + "?w=" + v)).width == 0
  {
    var pair := "w=" + v;
    QueryAfterFirstMark(path, pair);
    assert path + "?w=" + v == path + "?" + pair;
    assert IndexOf(pair, '&').None?;
    assert pair[..1] == "w";
    FirstOccurrence(pair, '=', 1);
    assert pair[2..] == v;
    var none: seq<string> := [];
    QueryParamsSnoc(env, none, pair);
    assert none + [pair] == [pair];
  }

  // ---------------------------------------------------------------------------
  // The thumbnail cache

  /** The cache file name determines the width and the digest of the key. */
  lemma CacheFileNameInjective(sha256: Bytes -> Digest, p1: string, w1: U32, p2: string, w2: U32)
    requires CacheFileName(sha256, p1, w1) == CacheFileName(sha256, p2, w2)
    ensures w1 == w2
    ensures sha256(Utf8(CacheKey(p1, w1))) == sha256(Utf8(CacheKey(p2, w2)))
  {
    var n := CacheFileName(sha256, p1, w1);
    var d1, d2 := DecimalString(w1), DecimalString(w2);
    assert |d1| == |d2|;
    var tail1, tail2 := "_" + d1 + ".png", "_" + d2 + ".png";
    assert tail1 == n[64..] == tail2;
    assert d1 == tail1[1..1 + |d1|];
    assert d2 == tail2[1..1 + |d2|];
    DecimalStringInjective(w1, w2);
  }

  /** Thumbnails never land in the temp directory. */
  lemma CacheOutsideTempDir(env: Env, cacheRoot: string, pathStr: string, width: U32, name: string)
    ensures CachePath(env, ThumbCacheDir(cacheRoot), pathStr, width) != Join(TempDir(cacheRoot), name)
  {
    CacheDirsDisjoint(cacheRoot, name, CacheFileName(env.sha256, pathStr, width));
  }

  /** A request that succeeded, repeated on the files it left, returns the same
      bytes and MIME type and writes nothing: a resized thumbnail is now a cache
      hit (the repeat neither resizes nor writes). */
  lemma RepeatedRequestIsCacheHit(env: Env, faults: Faults, files: Files, thumbDir: Path, pathStr: Path, width: U32)
    requires Thumbnail(env, faults, files, thumbDir, pathStr, width).result.Ok?
    requires CachePath(env, thumbDir, pathStr, width) != pathStr
    requires CachePath(env, thumbDir, pathStr, width) !in faults.read
    ensures var first := Thumbnail(env, faults, files, thumbDir, pathStr, width);
      Thumbnail(env, faults, first.files, thumbDir, pathStr, width) == Step(first.files, first.result)
  {
    var first := Thumbnail(env, faults, files, thumbDir, pathStr, width);
    assert pathStr in files;
    assert pathStr in first.files && first.files[pathStr] == files[pathStr];
    assert ProbeWidth(env, faults, first.files, pathStr) == ProbeWidth(env, faults, files, pathStr);
  }
}
