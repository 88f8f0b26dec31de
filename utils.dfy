/** Content-addressed file names and the cache directory layout. */
module Utils {
  import opened Wrappers
  import opened Text
  import opened Host

  /** The marker of a virtual path that names a file in the temp directory;
      both the commit loop and the thumbnail resolver test for it. */
  const TempPrefix := "_temp/"

  /** `get_temp_dir`: where pasted images are stored. */
  function TempDir(cacheRoot: string): (dir: string)
    ensures StartsWith(dir, cacheRoot + "/") && dir[|cacheRoot| + 1..] == "temp_images"
  {
    Join(cacheRoot, "temp_images")
  }

  /** `get_thumb_cache_dir`: where generated thumbnails are stored. */
  function ThumbCacheDir(cacheRoot: string): (dir: string)
    ensures StartsWith(dir, cacheRoot + "/") && dir[|cacheRoot| + 1..] == "thumbs"
  {
    Join(cacheRoot, "thumbs")
  }

  /** The two cache directories differ, neither is a prefix of the other, and
      no path inside one of them is a path inside the other. */
  lemma CacheDirsDisjoint(cacheRoot: string, a: string, b: string)
    ensures TempDir(cacheRoot) != ThumbCacheDir(cacheRoot)
    ensures !StartsWith(TempDir(cacheRoot), ThumbCacheDir(cacheRoot))
    ensures !StartsWith(ThumbCacheDir(cacheRoot), TempDir(cacheRoot))
    ensures Join(TempDir(cacheRoot), a) != Join(ThumbCacheDir(cacheRoot), b)
  {
    var t, h := TempDir(cacheRoot), ThumbCacheDir(cacheRoot);
    var k := |cacheRoot| + 2;
    assert t[k] == 'e' && h[k] == 'h';
    assert Join(t, a)[k] == t[k] && Join(h, b)[k] == h[k];
  }

  predicate IsLowerHexDigit(c: char)
  {
    '0' <= c <= '9' || 'a' <= c <= 'f'
  }

  function HexDigit(n: nat): (c: char)
    requires n < 16
    ensures IsLowerHexDigit(c)
  {
    "0123456789abcdef"[n]
  }

  function HexValue(c: char): (n: nat)
    requires IsLowerHexDigit(c)
    ensures n < 16
  {
    if c <= '9' then c as int - '0' as int else c as int - 'a' as int + 10
  }

  lemma HexDigitValue(n: nat)
    requires n < 16
    ensures HexValue(HexDigit(n)) == n
  {
  }

  /** `hex::encode`: two lowercase hex digits per byte, high nibble first. */
  function HexEncode(d: Bytes): (s: string)
    ensures |s| == 2 * |d|
    ensures forall i :: 0 <= i < |s| ==> IsLowerHexDigit(s[i])
  {
    if d == [] then [] else [HexDigit(d[0] / 16), HexDigit(d[0] % 16)] + HexEncode(d[1..])
  }

  /** The inverse of HexEncode: `None` on odd length or a character that is not
      a lowercase hex digit. */
  function HexDecode(s: string): Option<Bytes>
    decreases |s|
  {
    if s == [] then Some([])
    else if |s| == 1 || !IsLowerHexDigit(s[0]) || !IsLowerHexDigit(s[1]) then None
    else
      match HexDecode(s[2..])
      case None => None
      case Some(rest) => Some([HexValue(s[0]) * 16 + HexValue(s[1])] + rest)
  }

  /** Decoding hex text gives back the bytes that were encoded. */
  lemma {:induction false} HexRoundTrip(d: Bytes)
    ensures HexDecode(HexEncode(d)) == Some(d)
  {
    if d != [] {
      var s := HexEncode(d);
      var hi, lo := HexDigit(d[0] / 16), HexDigit(d[0] % 16);
      HexDigitValue(d[0] / 16);
      HexDigitValue(d[0] % 16);
      assert s[0] == hi && s[1] == lo && s[2..] == HexEncode(d[1..]);
      HexRoundTrip(d[1..]);
      assert HexValue(hi) * 16 + HexValue(lo) == d[0];
      assert [d[0]] + d[1..] == d;
    }
  }

  /** Distinct byte strings have distinct hex encodings. */
  lemma HexInjective(d1: Bytes, d2: Bytes)
    requires HexEncode(d1) == HexEncode(d2)
    ensures d1 == d2
  {
    HexRoundTrip(d1);
    HexRoundTrip(d2);
  }

  /** `get_hash_filename`: 64 lowercase hex digits that decode to the digest of
      the data, then `.` and the extension. */
  function HashFilename(sha256: Bytes -> Digest, data: Bytes, ext: string): (name: string)
    ensures |name| == 65 + |ext|
    ensures forall i :: 0 <= i < 64 ==> IsLowerHexDigit(name[i])
    ensures HexDecode(name[..64]) == Some(sha256(data))
    ensures name[64..] == "." + ext
  {
    var hex := HexEncode(sha256(data));
    HexRoundTrip(sha256(data));
    assert (hex + "." + ext)[..64] == hex;
    hex + "." + ext
  }

  /** The name ends with `.` and the extension. */
  lemma HashFilenameEndsWithExtension(sha256: Bytes -> Digest, data: Bytes, ext: string)
    ensures var name := HashFilename(sha256, data, ext);
      |name| > |ext| && name[|name| - |ext| - 1..] == "." + ext
  {
  }

  /** The name determines both the digest and the extension: equal names come
      only from equal digests and equal extensions, so two contents whose
      digests differ never share a name. */
  lemma HashFilenameInjective(sha256: Bytes -> Digest, d1: Bytes, e1: string, d2: Bytes, e2: string)
    requires HashFilename(sha256, d1, e1) == HashFilename(sha256, d2, e2)
    ensures sha256(d1) == sha256(d2) && e1 == e2
  {
    var n := HashFilename(sha256, d1, e1);
    assert "." + e1 == n[64..] == "." + e2;
    assert e1 == ("." + e1)[1..];
    assert e2 == ("." + e2)[1..];
  }
}
