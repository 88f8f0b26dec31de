/** The string and number formats the core relies on: Rust's `str::split`,
    `str::split_once`, `starts_with`, `u32` parsing and decimal formatting, and
    the UTF-8 bytes of a string (`str::as_bytes`). */
module Text {
  import opened Wrappers

  type Byte = b: int | 0 <= b < 256
  type Bytes = seq<Byte>

  /** The values of Rust's `u32`. */
  type U32 = n: nat | n < 0x1_0000_0000

  predicate StartsWith(s: string, prefix: string)
  {
    |prefix| <= |s| && s[..|prefix|] == prefix
  }

  /** The position of the first `c` in `s`. */
  function IndexOf(s: string, c: char): (r: Option<nat>)
    ensures r.Some? ==> r.value < |s| && s[r.value] == c && c !in s[..r.value]
    ensures r.None? <==> c !in s
  {
    if s == [] then None
    else if s[0] == c then Some(0)
    else
      match IndexOf(s[1..], c)
      case None => None
      case Some(i) =>
        assert s[..i + 1] == [s[0]] + s[1..][..i];
        Some(i + 1)
  }

  /** The pieces of a string joined back with a separator (the inverse of Split). */
  function JoinWith(parts: seq<string>, sep: char): string
    requires |parts| >= 1
  {
    if |parts| == 1 then parts[0] else parts[0] + [sep] + JoinWith(parts[1..], sep)
  }

  /** `s.split(sep)`: the text between consecutive separators, in order, always at
      least one piece; the first piece runs up to the first separator. */
  function Split(s: string, sep: char): (parts: seq<string>)
    ensures |parts| >= 1
    ensures forall i :: 0 <= i < |parts| ==> sep !in parts[i]
    ensures JoinWith(parts, sep) == s
    decreases |s|
  {
    match IndexOf(s, sep)
    case None => [s]
    case Some(i) =>
      var rest := Split(s[i + 1..], sep);
      assert s == s[..i] + [sep] + s[i + 1..];
      assert ([s[..i]] + rest)[1..] == rest;
      [s[..i]] + rest
  }

  /** Splitting what JoinWith built gives the pieces back, provided no piece
      contains the separator. */
  lemma {:induction false} SplitJoin(parts: seq<string>, sep: char)
    requires |parts| >= 1
    requires forall i :: 0 <= i < |parts| ==> sep !in parts[i]
    ensures Split(JoinWith(parts, sep), sep) == parts
    decreases |parts|
  {
    if |parts| == 1 {
      assert IndexOf(parts[0], sep).None?;
    } else {
      var s := JoinWith(parts, sep);
      var tail := JoinWith(parts[1..], sep);
      assert s == parts[0] + [sep] + tail;
      var k := |parts[0]|;
      assert s[k] == sep && s[..k] == parts[0];
      var idx := IndexOf(s, sep);
      assert idx == Some(k) by {
        assert sep !in s[..k];
      }
      assert s[k + 1..] == tail;
      SplitJoin(parts[1..], sep);
    }
  }

  /** `s.split_once(sep)`: the text before and after the first separator. */
  function SplitOnce(s: string, sep: char): (r: Option<(string, string)>)
    ensures r.None? <==> sep !in s
    ensures r.Some? ==> s == r.value.0 + [sep] + r.value.1 && sep !in r.value.0
  {
    match IndexOf(s, sep)
    case None => None
    case Some(i) =>
      assert s == s[..i] + [sep] + s[i + 1..];
      Some((s[..i], s[i + 1..]))
  }

  predicate IsDigit(c: char)
  {
    '0' <= c <= '9'
  }

  predicate AllDigits(s: string)
  {
    forall i :: 0 <= i < |s| ==> IsDigit(s[i])
  }

  function DigitChar(d: nat): (c: char)
    requires d < 10
    ensures IsDigit(c) && c as int - '0' as int == d
  {
    ('0' as int + d) as char
  }

  /** The value of a string of decimal digits, most significant first. */
  function DigitsValue(s: string): nat
    requires AllDigits(s)
  {
    if s == [] then 0
    else DigitsValue(s[..|s| - 1]) * 10 + (s[|s| - 1] as int - '0' as int)
  }

  /** Rust's `{}` formatting of an unsigned integer: its shortest decimal digits. */
  function DecimalString(n: nat): (s: string)
    ensures |s| >= 1 && AllDigits(s)
    ensures DigitsValue(s) == n
    ensures |s| > 1 ==> s[0] != '0'
  {
    if n < 10 then [DigitChar(n)]
    else
      var s := DecimalString(n / 10) + [DigitChar(n % 10)];
      assert s[..|s| - 1] == DecimalString(n / 10);
      s
  }

  /** Equal decimal strings come only from equal numbers. */
  lemma DecimalStringInjective(m: nat, n: nat)
    requires DecimalString(m) == DecimalString(n)
    ensures m == n
  {
  }

  /** One or more ASCII digits whose value fits in 32 bits. */
  predicate DecimalU32(t: string)
  {
    |t| >= 1 && AllDigits(t) && DigitsValue(t) < 0x1_0000_0000
  }

  /** `str::parse::<u32>`: one optional leading `+`, then at least one ASCII
      digit and nothing else, with a value that fits in 32 bits; `None` otherwise
      (empty text, a sign alone, a `-`, any other character, overflow). */
  function ParseU32(s: string): (r: Option<U32>)
    ensures r.Some? <==> DecimalU32(s) || (|s| >= 1 && s[0] == '+' && DecimalU32(s[1..]))
    ensures DecimalU32(s) ==> r == Some(DigitsValue(s))
    ensures |s| >= 1 && s[0] == '+' && DecimalU32(s[1..]) ==> r == Some(DigitsValue(s[1..]))
  {
    var digits := if |s| > 0 && s[0] == '+' then s[1..] else s;
    if |digits| == 0 || !AllDigits(digits) then None
    else
      var v := DigitsValue(digits);
      if v < 0x1_0000_0000 then Some(v) else None
  }

  /** Formatting a `u32` and parsing it back gives the same number. */
  lemma ParseFormattedU32(n: U32)
    ensures ParseU32(DecimalString(n)) == Some(n)
  {
  }

  /** The scalar value one UTF-8 sequence of one to four bytes stands for
      (the payload bits of the lead byte, then six bits per continuation byte). */
  function SequenceValue(b: Bytes): int
    requires 1 <= |b| <= 4
  {
    var lead := b[0] as int;
    if |b| == 1 then lead
    else if |b| == 2 then (lead - 0xC0) * 0x40 + (b[1] as int - 0x80)
    else if |b| == 3 then (lead - 0xE0) * 0x1000 + (b[1] as int - 0x80) * 0x40 + (b[2] as int - 0x80)
    else (lead - 0xF0) * 0x4_0000 + (b[1] as int - 0x80) * 0x1000 + (b[2] as int - 0x80) * 0x40 + (b[3] as int - 0x80)
  }

  /** The UTF-8 encoding of one Unicode scalar value: the shortest sequence,
      whose lead byte announces its length, whose other bytes are continuation
      bytes `10xxxxxx`, and which stands for the value encoded. */
  function CharUtf8(c: char): (b: Bytes)
    ensures 1 <= |b| <= 4
    ensures c as int < 0x80 <==> |b| == 1
    ensures |b| == 1 ==> b[0] == c as int
    ensures |b| == 2 ==> 0xC0 <= b[0] < 0xE0 && 0x80 <= c as int < 0x800
    ensures |b| == 3 ==> 0xE0 <= b[0] < 0xF0 && 0x800 <= c as int < 0x1_0000
    ensures |b| == 4 ==> 0xF0 <= b[0] < 0xF8 && 0x1_0000 <= c as int
    ensures forall i :: 1 <= i < |b| ==> 0x80 <= b[i] < 0xC0
    ensures SequenceValue(b) == c as int
  {
    var n := c as int;
    if n < 0x80 then [n]
    else if n < 0x800 then
      var b := [0xC0 + n / 0x40, 0x80 + n % 0x40];
      assert SequenceValue(b) == n;
      b
    else if n < 0x1_0000 then
      var low := n % 0x1000;
      var b := [0xE0 + n / 0x1000, 0x80 + low / 0x40, 0x80 + low % 0x40];
      assert SequenceValue(b) == (n / 0x1000) * 0x1000 + (low / 0x40) * 0x40 + low % 0x40;
      b
    else
      var mid := n % 0x4_0000;
      var low := mid % 0x1000;
      assert n / 0x4_0000 < 8 by { assert n < 0x11_0000; }
      var b := [0xF0 + n / 0x4_0000, 0x80 + mid / 0x1000, 0x80 + low / 0x40, 0x80 + low % 0x40];
      assert SequenceValue(b) == (n / 0x4_0000) * 0x4_0000 + (mid / 0x1000) * 0x1000 + (low / 0x40) * 0x40 + low % 0x40;
      b
  }

  /** `str::as_bytes` / `String::into_bytes`: the UTF-8 encoding of the text,
      character by character; ASCII text is its own byte string. */
  function Utf8(s: string): (b: Bytes)
    ensures |b| >= |s|
    ensures |s| == 1 ==> b == CharUtf8(s[0])
    ensures (forall i :: 0 <= i < |s| ==> s[i] as int < 0x80) ==>
      |b| == |s| && forall i :: 0 <= i < |s| ==> b[i] == s[i] as int
  {
    if s == [] then [] else CharUtf8(s[0]) + Utf8(s[1..])
  }

  /** Encoding a concatenation concatenates the encodings. */
  lemma {:induction false} Utf8Append(s: string, t: string)
    ensures Utf8(s + t) == Utf8(s) + Utf8(t)
    decreases |s|
  {
    if s != [] {
      assert (s + t)[0] == s[0] && (s + t)[1..] == s[1..] + t;
      Utf8Append(s[1..], t);
    } else {
      assert s + t == t;
    }
  }
}
