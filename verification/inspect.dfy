/** The byte-inspection helpers behind `read_clipboard_readable`: MIME sniffing,
    the printable preview and the hexadecimal view. Pure functions of the bytes. */
module RawInspect {
  import opened Wrappers
  import opened Unicode
  import opened Text

  function Min(a: int, b: int): int { if a < b then a else b }

  predicate HasPrefix(data: seq<byte>, magic: seq<byte>) {
    |magic| <= |data| && data[..|magic|] == magic
  }

  /** `%PDF-` */
  const PdfMagic: seq<byte> := [0x25, 0x50, 0x44, 0x46, 0x2D]
  /** FF D8 FF */
  const JpegMagic: seq<byte> := [0xFF, 0xD8, 0xFF]
  /** `PNG\r\n`, the bytes the sniffer tests for. */
  const PngMagicAsWritten: seq<byte> := [0x50, 0x4E, 0x47, 0x0D, 0x0A]
  /** The eight-byte PNG file signature, 89 `PNG\r\n` 1A `\n`. */
  const PngSignature: seq<byte> := [0x89, 0x50, 0x4E, 0x47, 0x0D, 0x0A, 0x1A, 0x0A]
  const HtmlDoctype: string := "<!DOCTYPE html>"
  /** Only this many leading bytes are checked for UTF-8. */
  const SniffLimit: nat := 1000

  const MimeTypes: set<string> := {"application/pdf", "image/jpeg", "image/png", "text/html",
                                   "text/plain", "application/octet-stream"}

  /** `detect_mime_type` as written: the PNG test looks for `PNG\r\n` at offset 0. */
  function DetectMimeType(data: seq<byte>): (r: Option<string>)
    ensures r.None? <==> data == []
    ensures r.Some? ==> r.value in MimeTypes
  {
    if data == [] then None
    else if HasPrefix(data, PdfMagic) then Some("application/pdf")
    else if HasPrefix(data, JpegMagic) then Some("image/jpeg")
    else if HasPrefix(data, PngMagicAsWritten) then Some("image/png")
    else if Contains(Utf8DecodeLossy(data), HtmlDoctype) then Some("text/html")
    else if IsUtf8(data[..Min(|data|, SniffLimit)]) then Some("text/plain")
    else Some("application/octet-stream")
  }

  /** A real PNG file is not recognised by `DetectMimeType`: its first byte is
      0x89, so the `PNG\r\n` prefix test fails, and 0x89 cannot start a UTF-8
      sequence, so unless its lossy decoding shows the HTML doctype the file
      falls through to the binary default. The signature alone is one such file. */
  lemma RealPngIsOctetStream(d: seq<byte>)
    requires HasPrefix(d, PngSignature) && !Contains(Utf8DecodeLossy(d), HtmlDoctype)
    ensures DetectMimeType(d) == Some("application/octet-stream")
    ensures DetectMimeType(PngSignature) == Some("application/octet-stream")
  {
    assert d[0] == 0x89 by {
      assert d[..|PngSignature|][0] == d[0];
    }
    assert !HasPrefix(d, PdfMagic) && !HasPrefix(d, JpegMagic) && !HasPrefix(d, PngMagicAsWritten) by {
      assert d[..5][0] == d[0] && d[..3][0] == d[0];
    }
    assert !IsUtf8(d[..Min(|d|, SniffLimit)]) by {
      BadLeadNotUtf8(d[..Min(|d|, SniffLimit)]);
    }
    ShortBadLeadIsOctetStream(PngSignature);
  }

  /** Short data whose first byte matches no magic number and cannot start
      a UTF-8 sequence is reported as binary. */
  lemma ShortBadLeadIsOctetStream(d: seq<byte>)
    requires 0 < |d| < |HtmlDoctype| && SequenceLength(d[0]) == 0
    requires d[0] != PdfMagic[0] && d[0] != JpegMagic[0] && d[0] != PngMagicAsWritten[0]
    ensures DetectMimeType(d) == Some("application/octet-stream")
  {
    if Contains(Utf8DecodeLossy(d), HtmlDoctype) {
      ContainsNeedsRoom(Utf8DecodeLossy(d), HtmlDoctype);
    }
    assert d[..Min(|d|, SniffLimit)] == d;
    BadLeadNotUtf8(d);
  }

  /** The sniffer with the PNG test on the file signature; otherwise identical
      to `DetectMimeType`. */
  function DetectMimeTypeCorrected(data: seq<byte>): (r: Option<string>)
    ensures r.None? <==> data == []
    ensures r.Some? ==> r.value in MimeTypes
  {
    if data == [] then None
    else if HasPrefix(data, PdfMagic) then Some("application/pdf")
    else if HasPrefix(data, JpegMagic) then Some("image/jpeg")
    else if HasPrefix(data, PngSignature) then Some("image/png")
    else if Contains(Utf8DecodeLossy(data), HtmlDoctype) then Some("text/html")
    else if IsUtf8(data[..Min(|data|, SniffLimit)]) then Some("text/plain")
    else Some("application/octet-stream")
  }

  /** Every input that starts with the PNG signature is reported as PNG. */
  lemma PngSignatureRecognised(data: seq<byte>)
    requires HasPrefix(data, PngSignature)
    ensures DetectMimeTypeCorrected(data) == Some("image/png")
  {
    assert data[0] == PngSignature[0];
    assert data[..5][0] == data[0] && data[..3][0] == data[0];
  }

  /** The two sniffers disagree only on inputs that start with `PNG\r\n` or
      with the PNG signature. */
  lemma SniffersAgreeOffPng(data: seq<byte>)
    requires !HasPrefix(data, PngMagicAsWritten) && !HasPrefix(data, PngSignature)
    ensures DetectMimeType(data) == DetectMimeTypeCorrected(data)
  {
  }

  /** Short UTF-8 text with no magic number and no doctype is plain text. */
  lemma {:induction false} ShortTextIsPlain(s: string)
    requires 0 < |Utf8Encode(s)| <= SniffLimit
    requires !HasPrefix(Utf8Encode(s), PdfMagic) && !HasPrefix(Utf8Encode(s), JpegMagic)
    requires !HasPrefix(Utf8Encode(s), PngSignature)
    requires !Contains(s, HtmlDoctype)
    ensures DetectMimeTypeCorrected(Utf8Encode(s)) == Some("text/plain")
  {
    var d := Utf8Encode(s);
    Utf8RoundTrip(s);
    assert d[..Min(|d|, SniffLimit)] == d;
  }

  // ---------------------------------------------------------------- preview

  /** A byte as the preview shows it: printable ASCII as itself, all else as '.'. */
  function PreviewChar(b: byte): (c: char)
    ensures 32 <= c as int <= 126
  {
    if 32 <= b <= 126 then b as char else '.'
  }

  const PreviewLimit: nat := 20

  /** `generate_preview`. */
  function GeneratePreview(data: seq<byte>): (r: Option<string>)
    ensures r.None? <==> data == []
    ensures r.Some? ==> |r.value| == Min(|data|, PreviewLimit)
    ensures r.Some? ==> forall i :: 0 <= i < |r.value| ==> 32 <= r.value[i] as int <= 126
  {
    if data == [] then None
    else Some(seq(Min(|data|, PreviewLimit), i requires 0 <= i < Min(|data|, PreviewLimit) => PreviewChar(data[i])))
  }

  /** Each preview character shows its byte: printable ASCII as the
      character with that code, every other byte as '.'. */
  lemma PreviewShowsBytes(data: seq<byte>, i: nat)
    requires i < Min(|data|, PreviewLimit)
    ensures GeneratePreview(data).Some?
    ensures 32 <= data[i] <= 126 ==> GeneratePreview(data).value[i] == data[i] as char
    ensures !(32 <= data[i] <= 126) ==> GeneratePreview(data).value[i] == '.'
  {
  }

  predicate PrintableAscii(s: string) {
    forall i :: 0 <= i < |s| ==> 32 <= s[i] as int <= 126
  }

  /** The preview of short printable ASCII text is the text itself. */
  lemma {:induction false} PreviewOfPrintableText(s: string)
    requires 0 < |s| <= PreviewLimit && PrintableAscii(s)
    ensures GeneratePreview(Utf8Encode(s)) == Some(s)
  {
    AsciiEncoding(s);
    var d := Utf8Encode(s);
    var p := GeneratePreview(d).value;
    assert |p| == |s|;
    forall i | 0 <= i < |s| ensures p[i] == s[i] {
      assert d[i] == s[i] as int;
    }
    assert p == s;
  }

  /** Printable ASCII encodes to one byte per character, the character's code. */
  lemma {:induction false} AsciiEncoding(s: string)
    requires PrintableAscii(s)
    ensures |Utf8Encode(s)| == |s|
    ensures forall i :: 0 <= i < |s| ==> Utf8Encode(s)[i] == s[i] as int
  {
    if s != [] {
      AsciiEncoding(s[1..]);
    }
  }

  /** The preview depends on the first twenty bytes only. */
  lemma PreviewReadsPrefix(data: seq<byte>)
    requires |data| > PreviewLimit
    ensures GeneratePreview(data) == GeneratePreview(data[..PreviewLimit])
  {
    var p := GeneratePreview(data).value;
    var q := GeneratePreview(data[..PreviewLimit]).value;
    assert |p| == |q|;
    forall i | 0 <= i < |p| ensures p[i] == q[i] {
      assert data[..PreviewLimit][i] == data[i];
    }
    assert p == q;
  }

  // ---------------------------------------------------------------- hex view

  const HexLimit: nat := 100

  function HexDigit(n: int): char
    requires 0 <= n < 16
  {
    if n < 10 then ('0' as int + n) as char else ('A' as int + n - 10) as char
  }

  /** `format!("{:02X}", b)`. */
  function HexByte(b: byte): string {
    [HexDigit(b / 16), HexDigit(b % 16)]
  }

  function HexPairs(data: seq<byte>): (r: seq<string>)
    ensures |r| == |data|
  {
    if data == [] then [] else [HexByte(data[0])] + HexPairs(data[1..])
  }

  /** The hex view: each byte as two upper-case digits, joined by single spaces. */
  function HexView(data: seq<byte>): string {
    Join(HexPairs(data), " ")
  }

  function HexValue(c: char): Option<int> {
    if '0' <= c <= '9' then Some(c as int - '0' as int)
    else if 'A' <= c <= 'F' then Some(c as int - 'A' as int + 10)
    else None
  }

  /** Reads a hex view back: pairs of upper-case digits separated by spaces. */
  function ParseHexView(s: string): Option<seq<byte>>
    decreases |s|
  {
    if s == [] then Some([])
    else if |s| < 2 then None
    else if HexValue(s[0]).None? || HexValue(s[1]).None? then None
    else
      var b := HexValue(s[0]).value * 16 + HexValue(s[1]).value;
      if !(0 <= b < 256) then None
      else if |s| == 2 then Some([b])
      else if s[2] != ' ' || |s| == 3 then None
      else match ParseHexView(s[3..])
        case None => None
        case Some(rest) => Some([b] + rest)
  }

  /** The hex view is read back to the bytes it shows; it is 3n - 1 characters
      long for n bytes. */
  lemma {:induction false} HexViewRoundTrip(data: seq<byte>)
    ensures ParseHexView(HexView(data)) == Some(data)
    ensures data != [] ==> |HexView(data)| == 3 * |data| - 1
  {
    if |data| == 1 {
      HexByteValue(data[0]);
      assert HexPairs(data) == [HexByte(data[0])];
      assert HexView(data) == HexByte(data[0]);
      assert [data[0]] == data;
    } else if |data| > 1 {
      var rest := HexView(data[1..]);
      HexByteValue(data[0]);
      HexViewRoundTrip(data[1..]);
      var s := HexView(data);
      assert HexPairs(data)[1..] == HexPairs(data[1..]);
      assert s == HexByte(data[0]) + " " + rest;
      assert s[3..] == rest;
      assert s[2] == ' ' && |s| > 3;
      assert [data[0]] + data[1..] == data;
    }
  }

  lemma HexByteValue(b: byte)
    ensures HexValue(HexByte(b)[0]) == Some(b / 16) && HexValue(HexByte(b)[1]) == Some(b % 16)
  {
  }
}
