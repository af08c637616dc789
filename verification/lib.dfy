/** The entry points exported to JavaScript: the write call with its empty-list
    rule, the reconciler that merges a path read and a text read into one
    record, and the readable view of the raw clipboard bytes. The platform
    adapter's answers are parameters. */
module ClipboardApi {
  import opened Wrappers
  import opened Errors
  import opened Text
  import opened Unicode
  import opened RawInspect
  import Windows
  import Linux
  import MacosApi
  import Macos

  /** What `read_clipboard_results` returns on success. */
  datatype ClipboardContent = ClipboardContent(filePaths: seq<string>, text: Option<string>)

  /** What `read_clipboard_readable` returns. */
  datatype ReadableClipboardContent = ReadableClipboardContent(
    hexView: Option<string>,
    textView: Option<string>,
    mimeType: Option<string>,
    size: nat,
    preview: Option<string>)

  /** A text-read error that means "there is no text" rather than "reading failed". */
  predicate TextAbsent(e: IoError) {
    e.kind == NotFound || Contains(e.message, "No text") || Contains(e.message, "empty")
  }

  /** The text read as the reconciler sees it: text, absence, or a real failure. */
  function ClassifyTextRead(os: string, read: Result<string, IoError>): (c: Result<Option<string>, NapiError>)
    ensures read.Ok? <==> c.Ok? && c.value.Some?
    ensures read.Ok? ==> c.value.value == read.value
    ensures read.Err? ==> (c == Ok(None) <==> TextAbsent(read.error))
    ensures c.Err? ==> read.Err? && c.error == PlatformErrorToNapi(os, read.error)
  {
    match read
    case Ok(t) => Ok(Some(t))
    case Err(e) => if TextAbsent(e) then Ok(None) else Err(PlatformErrorToNapi(os, e))
  }

  /** On every platform, the error its text read gives for a clipboard
      without text reads as "no text" to the reconciler, not as a failure. */
  lemma NoTextIsAbsentEverywhere(os: string)
    ensures ClassifyTextRead(os, Err(IoError(Other, Windows.NoText))) == Ok(None)
    ensures ClassifyTextRead(os, Err(IoError(Other, Linux.NoTextContent))) == Ok(None)
    ensures ClassifyTextRead(os, Err(MacosApi.NoTextContent)) == Ok(None)
    ensures ClassifyTextRead(os, Err(Macos.NoPlainText)) == Ok(None)
  {
    StartsWithNoText(Windows.NoText);
    StartsWithNoText(Linux.NoTextContent);
  }

  /** A message that starts with "No text" contains it. */
  lemma StartsWithNoText(m: string)
    requires |m| >= 7 && m[..7] == "No text"
    ensures Contains(m, "No text")
  {
    ContainsAt(m, "No text", 0);
  }

  /** The message reported when both reads fail. */
  function BothFailed(pathsError: NapiError, textError: NapiError): NapiError {
    NapiError("Failed to read clipboard content: file paths error: " + pathsError.reason
              + ", text error: " + textError.reason)
  }

  /** The combined failure names both underlying reasons. */
  lemma BothFailedNamesBoth(pathsError: NapiError, textError: NapiError)
    ensures Contains(BothFailed(pathsError, textError).reason, pathsError.reason)
    ensures Contains(BothFailed(pathsError, textError).reason, textError.reason)
  {
    var head := "Failed to read clipboard content: file paths error: ";
    var mid := ", text error: ";
    var m := BothFailed(pathsError, textError).reason;
    assert m == head + pathsError.reason + mid + textError.reason;
    assert m[|head|..|head| + |pathsError.reason|] == pathsError.reason;
    ContainsAt(m, pathsError.reason, |head|);
    var k := |head| + |pathsError.reason| + |mid|;
    assert m[k..k + |textError.reason|] == textError.reason;
    ContainsAt(m, textError.reason, k);
  }

  /** Raw clipboard bytes as usable text: non-empty, valid UTF-8 and not blank. */
  function RawText(raw: Result<seq<byte>, IoError>): (t: Option<string>)
    ensures t.Some? ==> raw.Ok? && Utf8Decode(raw.value) == Some(t.value) && !AllWhitespace(t.value)
    ensures t.None? && raw.Ok? && raw.value != [] ==> Utf8Decode(raw.value).None? || AllWhitespace(Utf8Decode(raw.value).value)
  {
    match raw
    case Err(_) => None
    case Ok(data) =>
      if data == [] then None
      else match Utf8Decode(data)
        case None => None
        case Some(t) =>
          TrimEmptyIffAllWhitespace(t);
          if Trim(t) != [] then Some(t) else None
  }

  /** `read_clipboard_results` as written. The raw fallback sits in the branch
      where the path read failed, but its guard asks for a failed text read,
      and the early return has already handled "both failed": the fallback
      never runs, so `rawConsulted` is always false. */
  method ReadClipboardResults(os: string, pathsRead: Result<seq<string>, IoError>,
                              textRead: Result<string, IoError>, rawRead: Result<seq<byte>, IoError>)
    returns (r: Result<ClipboardContent, NapiError>, rawConsulted: bool)
    ensures !rawConsulted
    ensures r.Err? <==> pathsRead.Err? && ClassifyTextRead(os, textRead).Err?
    ensures r.Err? ==> r.error == BothFailed(PlatformErrorToNapi(os, pathsRead.error),
                                             ClassifyTextRead(os, textRead).error)
    ensures r.Ok? ==> r.value.filePaths == (if pathsRead.Ok? then pathsRead.value else [])
    ensures r.Ok? && textRead.Ok? ==> r.value.text == Some(textRead.value)
    ensures r.Ok? && !textRead.Ok? ==> r.value.text == None
  {
    rawConsulted := false;
    var paths: Result<seq<string>, NapiError> :=
      match pathsRead
      case Ok(ps) => Ok(ps)
      case Err(e) => Err(PlatformErrorToNapi(os, e));
    var text := ClassifyTextRead(os, textRead);
    if paths.Err? && text.Err? {
      return Err(BothFailed(paths.error, text.error)), rawConsulted;
    }
    var result := ClipboardContent([], None);
    if paths.Ok? {
      result := result.(filePaths := paths.value);
    } else if result.text.None? && text.Err? {
      rawConsulted := true;
      result := result.(text := RawText(rawRead));
    }
    if text.Ok? {
      result := result.(text := text.value);
    }
    return Ok(result), rawConsulted;
  }

  /** The reconciler as its comments describe it: when the path read failed
      and no text was obtained, the raw bytes are tried as text, and the call
      fails only when the path read failed and no text came from either the
      text read or the raw bytes. */
  method ReadClipboardResultsWithFallback(os: string, pathsRead: Result<seq<string>, IoError>,
                                          textRead: Result<string, IoError>, rawRead: Result<seq<byte>, IoError>)
    returns (r: Result<ClipboardContent, NapiError>, rawConsulted: bool)
    ensures rawConsulted <==> pathsRead.Err? && !textRead.Ok?
    ensures r.Err? <==> pathsRead.Err? && ClassifyTextRead(os, textRead).Err? && RawText(rawRead).None?
    ensures r.Err? ==> r.error == BothFailed(PlatformErrorToNapi(os, pathsRead.error),
                                             ClassifyTextRead(os, textRead).error)
    ensures r.Ok? ==> r.value.filePaths == (if pathsRead.Ok? then pathsRead.value else [])
    ensures r.Ok? && textRead.Ok? ==> r.value.text == Some(textRead.value)
    ensures r.Ok? && !textRead.Ok? ==> r.value.text == (if pathsRead.Err? then RawText(rawRead) else None)
  {
    rawConsulted := false;
    var text := ClassifyTextRead(os, textRead);
    var result := ClipboardContent([], None);
    if pathsRead.Ok? {
      result := result.(filePaths := pathsRead.value);
    }
    if text.Ok? {
      result := result.(text := text.value);
    }
    if pathsRead.Err? && result.text.None? {
      rawConsulted := true;
      result := result.(text := RawText(rawRead));
    }
    if pathsRead.Err? && text.Err? && result.text.None? {
      return Err(BothFailed(PlatformErrorToNapi(os, pathsRead.error), text.error)), rawConsulted;
    }
    return Ok(result), rawConsulted;
  }

  /** The input that shows the difference: the path read fails, the text read
      fails for real, and the raw bytes are the text "hi". */
  method FallbackCounterexample()
    returns (asWritten: Result<ClipboardContent, NapiError>, intended: Result<ClipboardContent, NapiError>)
    ensures asWritten.Err?
    ensures intended == Ok(ClipboardContent([], Some("hi")))
  {
    var failure := IoError(Other, OpenFailed);
    OpenFailureIsNotAbsence();
    RawHi();
    var rawConsulted;
    asWritten, rawConsulted := ReadClipboardResults("windows", Err(failure), Err(failure), Ok(Hi));
    intended, rawConsulted := ReadClipboardResultsWithFallback("windows", Err(failure), Err(failure), Ok(Hi));
  }

  const OpenFailed: string := "Failed to open clipboard"
  const Hi: seq<byte> := [0x68, 0x69]

  /** The open failure's message names neither kind of absence. */
  lemma OpenFailureIsNotAbsence()
    ensures !TextAbsent(IoError(Other, OpenFailed))
  {
    NamesNoAbsence(OpenFailed);
  }

  /** A message without an `N` and without a `y` contains neither `No text`
      nor `empty`. */
  lemma NamesNoAbsence(s: string)
    requires 'N' !in s && 'y' !in s
    ensures !Contains(s, "No text") && !Contains(s, "empty")
  {
    NotContainsChar(s, "No text", 'N');
    NotContainsChar(s, "empty", 'y');
  }

  lemma RawHi()
    ensures RawText(Ok(Hi)) == Some("hi")
  {
    Utf8RoundTrip("hi");
    assert Utf8Encode("hi") == Hi;
    assert !IsWhitespace("hi"[0]);
  }

  /** A string lacking one of the needle's characters does not contain it. */
  lemma {:induction false} NotContainsChar(s: string, needle: string, c: char)
    requires c in needle && c !in s
    ensures !Contains(s, needle)
    decreases |s|
  {
    if s != [] {
      assert forall x :: x in s[1..] ==> x in s;
      NotContainsChar(s[1..], needle, c);
    }
  }

  /** `write_clipboard_file_paths`: an empty list succeeds without touching the
      clipboard; otherwise the platform writer's outcome is passed on. */
  method WriteClipboardFilePaths(os: string, paths: seq<string>, platform: Result<Unit, IoError>)
    returns (r: Result<Unit, NapiError>, platformCalled: bool)
    ensures platformCalled <==> paths != []
    ensures paths == [] ==> r == Ok(Unit)
    ensures paths != [] ==> (r.Ok? <==> platform.Ok?)
    ensures paths != [] && platform.Err? ==> r == Err(PlatformErrorToNapi(os, platform.error))
  {
    if paths == [] {
      return Ok(Unit), false;
    }
    platformCalled := true;
    match platform {
      case Ok(_) => r := Ok(Unit);
      case Err(e) => r := Err(PlatformErrorToNapi(os, e));
    }
  }

  /** `read_clipboard_readable`: describes the raw bytes, propagating a raw-read
      failure. `size` is the byte count truncated to 32 bits. */
  method ReadClipboardReadable(os: string, rawRead: Result<seq<byte>, IoError>)
    returns (r: Result<ReadableClipboardContent, NapiError>)
    ensures rawRead.Err? <==> r.Err?
    ensures rawRead.Err? ==> r.error == PlatformErrorToNapi(os, rawRead.error)
    ensures rawRead.Ok? ==> r.value.size == |rawRead.value| % 0x1_0000_0000
    ensures rawRead.Ok? ==> (r.value.hexView.Some? <==> rawRead.value != [])
    ensures rawRead.Ok? && rawRead.value != [] ==>
      ParseHexView(r.value.hexView.value) == Some(rawRead.value[..Min(|rawRead.value|, HexLimit)])
    ensures rawRead.Ok? ==> r.value.textView == RawText(rawRead)
    ensures rawRead.Ok? ==> r.value.mimeType == DetectMimeType(rawRead.value)
    ensures rawRead.Ok? ==> r.value.preview == GeneratePreview(rawRead.value)
  {
    if rawRead.Err? {
      return Err(PlatformErrorToNapi(os, rawRead.error));
    }
    var data := rawRead.value;
    var result := ReadableClipboardContent(None, None, None, |data| % 0x1_0000_0000, None);
    if data != [] {
      var hexLimit := Min(|data|, HexLimit);
      HexViewRoundTrip(data[..hexLimit]);
      result := result.(hexView := Some(HexView(data[..hexLimit])));
    }
    match Utf8Decode(data) {
      case Some(text) =>
        if Trim(text) != [] {
          result := result.(textView := Some(text));
        }
      case None =>
    }
    result := result.(mimeType := DetectMimeType(data));
    result := result.(preview := GeneratePreview(data));
    return Ok(result);
  }
}
