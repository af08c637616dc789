/** UTF-8 and UTF-16 as the Rust standard library implements them:
    `str::as_bytes` / `String::into_bytes` (UTF-8 encoding), `String::from_utf8`
    (strict decoding), `String::from_utf8_lossy` (decoding that replaces each
    maximal ill-formed subpart with U+FFFD), `encode_wide` (UTF-16 encoding) and
    `String::from_utf16_lossy` (decoding that replaces unpaired surrogates). */
module Unicode {
  import opened Wrappers

  type byte = b: int | 0 <= b < 0x100
  type u16 = u: int | 0 <= u < 0x1_0000

  /** U+FFFD REPLACEMENT CHARACTER. */
  const Replacement: char := 0xFFFD as char

  // ---------------------------------------------------------------- UTF-8

  function Utf8EncodeChar(c: char): (r: seq<byte>)
    ensures 1 <= |r| <= 4
    ensures (|r| == 1) == (c as int < 0x80)
  {
    var n := c as int;
    if n < 0x80 then [n]
    else if n < 0x800 then [0xC0 + n / 64, 0x80 + n % 64]
    else if n < 0x1_0000 then [0xE0 + n / 4096, 0x80 + (n / 64) % 64, 0x80 + n % 64]
    else [0xF0 + n / 0x4_0000, 0x80 + (n / 4096) % 64, 0x80 + (n / 64) % 64, 0x80 + n % 64]
  }

  /** The UTF-8 bytes of a string. */
  function Utf8Encode(s: string): seq<byte>
  {
    if s == [] then [] else Utf8EncodeChar(s[0]) + Utf8Encode(s[1..])
  }

  /** Length of the well-formed sequence a lead byte starts (Table 3-7 of the
      Unicode Standard); 0 for a byte that cannot start one. */
  function SequenceLength(b0: byte): nat
  {
    if b0 < 0x80 then 1
    else if 0xC2 <= b0 <= 0xDF then 2
    else if 0xE0 <= b0 <= 0xEF then 3
    else if 0xF0 <= b0 <= 0xF4 then 4
    else 0
  }

  /** Whether `b` may stand at position `i` (1 to 3) of a sequence led by `b0`. */
  predicate ContinuationOk(b0: byte, i: nat, b: byte)
  {
    if i == 1 then
      if b0 == 0xE0 then 0xA0 <= b <= 0xBF
      else if b0 == 0xED then 0x80 <= b <= 0x9F
      else if b0 == 0xF0 then 0x90 <= b <= 0xBF
      else if b0 == 0xF4 then 0x80 <= b <= 0x8F
      else 0x80 <= b <= 0xBF
    else 0x80 <= b <= 0xBF
  }

  /** A single well-formed UTF-8 sequence. */
  predicate WellFormed(b: seq<byte>)
  {
    1 <= |b| <= 4 && SequenceLength(b[0]) == |b| &&
    forall i :: 1 <= i < |b| ==> ContinuationOk(b[0], i, b[i])
  }

  /** The scalar value a well-formed sequence encodes. */
  function ScalarOf(b: seq<byte>): (n: int)
    requires WellFormed(b)
    ensures 0 <= n < 0xD800 || 0xE000 <= n < 0x11_0000
  {
    var b0: int := b[0];
    if |b| == 1 then b0
    else
      var b1: int := b[1];
      if |b| == 2 then (b0 - 0xC0) * 64 + (b1 - 0x80)
      else
        var b2: int := b[2];
        if |b| == 3 then (b0 - 0xE0) * 4096 + (b1 - 0x80) * 64 + (b2 - 0x80)
        else
          var b3: int := b[3];
          (b0 - 0xF0) * 0x4_0000 + (b1 - 0x80) * 4096 + (b2 - 0x80) * 64 + (b3 - 0x80)
  }

  /** How many bytes from position `i` on, and before position `n`, continue the
      sequence `b[0]` leads; the count includes the `i - 1` already accepted. */
  function Accepted(b: seq<byte>, n: nat, i: nat): (k: nat)
    requires 1 <= i <= n && i <= |b|
    ensures i - 1 <= k < n && k < |b|
    ensures forall j :: i <= j <= k ==> ContinuationOk(b[0], j, b[j])
    ensures k + 1 < n ==> k + 1 == |b| || !ContinuationOk(b[0], k + 1, b[k + 1])
    decreases n - i
  {
    if i < n && i < |b| && ContinuationOk(b[0], i, b[i]) then Accepted(b, n, i + 1) else i - 1
  }

  /** The first step of decoding: a scalar and the bytes it used, or the length
      of the maximal ill-formed subpart at the front. */
  datatype Scan = Scalar(c: char, len: nat) | Invalid(len: nat)

  function ScanFirst(b: seq<byte>): (r: Scan)
    requires |b| > 0
    ensures 1 <= r.len <= |b|
    ensures r.Scalar? ==> WellFormed(b[..r.len]) && r.c as int == ScalarOf(b[..r.len])
    ensures r.Invalid? ==> forall m :: 1 <= m <= |b| ==> !WellFormed(b[..m])
  {
    var n := SequenceLength(b[0]);
    if n == 0 then Invalid(1)
    else
      var k := Accepted(b, n, 1);
      if k == n - 1 then
        assert WellFormed(b[..n]);
        Scalar(ScalarOf(b[..n]) as char, n)
      else Invalid(k + 1)
  }

  /** `String::from_utf8(b).ok()`. */
  function Utf8Decode(b: seq<byte>): Option<string>
    decreases |b|
  {
    if b == [] then Some([])
    else match ScanFirst(b)
      case Invalid(_) => None
      case Scalar(c, len) =>
        match Utf8Decode(b[len..])
        case None => None
        case Some(rest) => Some([c] + rest)
  }

  predicate IsUtf8(b: seq<byte>) {
    Utf8Decode(b).Some?
  }

  /** Bytes that start with a byte no sequence can start with are not UTF-8. */
  lemma BadLeadNotUtf8(b: seq<byte>)
    requires |b| > 0 && SequenceLength(b[0]) == 0
    ensures !IsUtf8(b)
  {
    assert ScanFirst(b) == Invalid(1);
  }

  /** `String::from_utf8_lossy(b)`. */
  function Utf8DecodeLossy(b: seq<byte>): (s: string)
    ensures |s| <= |b|
    ensures (s == []) == (b == [])
    decreases |b|
  {
    if b == [] then []
    else match ScanFirst(b)
      case Invalid(len) => [Replacement] + Utf8DecodeLossy(b[len..])
      case Scalar(c, len) => [c] + Utf8DecodeLossy(b[len..])
  }

  /** The encoding of one character is scanned back as that character. */
  lemma ScanEncodedChar(c: char, rest: seq<byte>)
    ensures ScanFirst(Utf8EncodeChar(c) + rest) == Scalar(c, |Utf8EncodeChar(c)|)
  {
    var e := Utf8EncodeChar(c);
    var b := e + rest;
    assert b[..|e|] == e;
    EncodedCharWellFormed(c);
    if |e| > 1 {
      AcceptedWellFormed(b, |e|);
    }
  }

  /** The encoding of a character is one well-formed sequence of that scalar. */
  lemma EncodedCharWellFormed(c: char)
    ensures WellFormed(Utf8EncodeChar(c)) && ScalarOf(Utf8EncodeChar(c)) == c as int
  {
    var n := c as int;
    if n < 0x80 {
    } else if n < 0x800 {
      TwoByteWellFormed(c);
    } else if n < 0x1_0000 {
      ThreeByteWellFormed(c);
    } else {
      FourByteWellFormed(c);
    }
  }

  lemma TwoByteWellFormed(c: char)
    requires 0x80 <= c as int < 0x800
    ensures WellFormed(Utf8EncodeChar(c)) && ScalarOf(Utf8EncodeChar(c)) == c as int
  {
    var n := c as int;
    assert Utf8EncodeChar(c)[0] == 0xC0 + n / 64;
  }

  lemma ThreeByteWellFormed(c: char)
    requires 0x800 <= c as int < 0x1_0000
    ensures WellFormed(Utf8EncodeChar(c)) && ScalarOf(Utf8EncodeChar(c)) == c as int
  {
    var n := c as int;
    var q := n / 64;
    assert n == q * 64 + n % 64;
    assert q == (q / 64) * 64 + q % 64;
    assert n / 4096 == q / 64;
  }

  lemma FourByteWellFormed(c: char)
    requires 0x1_0000 <= c as int
    ensures WellFormed(Utf8EncodeChar(c)) && ScalarOf(Utf8EncodeChar(c)) == c as int
  {
    var n := c as int;
    var q := n / 64;
    var q2 := q / 64;
    assert n == q * 64 + n % 64;
    assert q == q2 * 64 + q % 64;
    assert q2 == (q2 / 64) * 64 + q2 % 64;
    assert n / 4096 == q2;
    assert n / 0x4_0000 == q2 / 64;
  }

  /** A prefix that is well formed is accepted in full. */
  lemma AcceptedWellFormed(b: seq<byte>, n: nat)
    requires 2 <= n <= |b| && WellFormed(b[..n])
    ensures Accepted(b, n, 1) == n - 1
  {
    var k := Accepted(b, n, 1);
    assert forall j :: 1 <= j < n ==> b[..n][j] == b[j];
  }

  /** Decoding undoes encoding, strictly and lossily. */
  lemma {:induction false} Utf8RoundTrip(s: string)
    ensures Utf8Decode(Utf8Encode(s)) == Some(s)
    ensures Utf8DecodeLossy(Utf8Encode(s)) == s
  {
    if s != [] {
      var e := Utf8EncodeChar(s[0]);
      var b := Utf8Encode(s);
      ScanEncodedChar(s[0], Utf8Encode(s[1..]));
      assert b[|e|..] == Utf8Encode(s[1..]);
      Utf8RoundTrip(s[1..]);
      assert s == [s[0]] + s[1..];
    }
  }

  /** On well-formed input the lossy decoder gives what the strict one gives. */
  lemma {:induction false} LossyAgreesOnValid(b: seq<byte>)
    requires IsUtf8(b)
    ensures Utf8DecodeLossy(b) == Utf8Decode(b).value
    decreases |b|
  {
    if b != [] {
      LossyAgreesOnValid(b[ScanFirst(b).len..]);
    }
  }

  // ---------------------------------------------------------------- UTF-16

  predicate IsHighSurrogate(u: u16) { 0xD800 <= u <= 0xDBFF }
  predicate IsLowSurrogate(u: u16) { 0xDC00 <= u <= 0xDFFF }

  function Utf16EncodeChar(c: char): (r: seq<u16>)
    ensures |r| == (if c as int < 0x1_0000 then 1 else 2)
  {
    var n := c as int;
    if n < 0x1_0000 then [n]
    else [0xD800 + (n - 0x1_0000) / 1024, 0xDC00 + (n - 0x1_0000) % 1024]
  }

  /** `encode_wide` of a string: its UTF-16 code units. */
  function Utf16Encode(s: string): seq<u16>
  {
    if s == [] then [] else Utf16EncodeChar(s[0]) + Utf16Encode(s[1..])
  }

  /** `String::from_utf16_lossy`. */
  function Utf16DecodeLossy(u: seq<u16>): (s: string)
    ensures |s| <= |u|
    decreases |u|
  {
    if u == [] then []
    else if IsHighSurrogate(u[0]) && |u| > 1 && IsLowSurrogate(u[1]) then
      var hi: int, lo: int := u[0], u[1];
      [(0x1_0000 + (hi - 0xD800) * 1024 + (lo - 0xDC00)) as char] + Utf16DecodeLossy(u[2..])
    else if IsHighSurrogate(u[0]) || IsLowSurrogate(u[0]) then
      [Replacement] + Utf16DecodeLossy(u[1..])
    else [u[0] as char] + Utf16DecodeLossy(u[1..])
  }

  lemma {:induction false} Utf16RoundTrip(s: string)
    ensures Utf16DecodeLossy(Utf16Encode(s)) == s
  {
    if s != [] {
      var e := Utf16EncodeChar(s[0]);
      var u := Utf16Encode(s);
      assert u[..|e|] == e;
      assert u[|e|..] == Utf16Encode(s[1..]);
      Utf16RoundTrip(s[1..]);
      assert s == [s[0]] + s[1..];
    }
  }

  /** A string without NUL characters encodes to bytes none of which is 0, so a
      C string holding its UTF-8 bytes ends exactly at the terminator. */
  lemma {:induction false} Utf8NoNul(s: string)
    requires '\0' !in s
    ensures 0 !in Utf8Encode(s)
  {
    if s != [] {
      assert s[0] != '\0';
      assert s[0] in s;
      Utf8NoNul(s[1..]);
    }
  }

  /** A string without NUL characters encodes to units none of which is 0. */
  lemma {:induction false} Utf16NoNul(s: string)
    requires '\0' !in s
    ensures 0 !in Utf16Encode(s)
  {
    if s != [] {
      assert s[0] != '\0';
      Utf16NoNul(s[1..]);
    }
  }

  /** Characters of the Basic Multilingual Plane take one unit each, the
      character's own code. */
  lemma {:induction false} Utf16LengthBmp(s: string)
    requires forall i :: 0 <= i < |s| ==> s[i] as int < 0x1_0000
    ensures |Utf16Encode(s)| == |s|
    ensures forall i :: 0 <= i < |s| ==> Utf16Encode(s)[i] == s[i] as int
  {
    if s != [] {
      Utf16LengthBmp(s[1..]);
      assert Utf16Encode(s) == [s[0] as int] + Utf16Encode(s[1..]);
    }
  }

  lemma {:induction false} Utf16EncodeAppend(s: string, t: string)
    ensures Utf16Encode(s + t) == Utf16Encode(s) + Utf16Encode(t)
  {
    if s != [] {
      assert (s + t)[1..] == s[1..] + t;
      Utf16EncodeAppend(s[1..], t);
    } else {
      assert s + t == t;
    }
  }
}
