/** The macOS adapter built on the Option-returning Cocoa wrappers
    (`src/platforms/macos/api.rs`). Its autorelease pool is drained when the
    function returns. The writer is strict: one path that does not become a
    file URL fails the whole write. The readers take the first non-empty
    value from a fixed priority list of pasteboard types, then from the
    advertised types. */
module MacosApi {
  import opened Wrappers
  import opened Errors
  import opened Text
  import opened Unicode
  import opened Paths
  import opened Cocoa
  import opened MacPaths

  const PoolFailure: IoError := IoError(Other, "Failed to create AutoreleasePool")
  const PasteboardTypes: seq<string> := [FileUrlType, FilenamesType]

  // ------------------------------------------------------------- writer

  const FileUrlTypeFailure: IoError := IoError(Other, "Failed to create NSString for file URL type")
  const FilenamesTypeFailure: IoError := IoError(Other, "Failed to create NSString for filenames type")
  const TypesArrayFailure: IoError := IoError(Other, "Failed to create types array")
  const DeclareFailure: IoError := IoError(Other, "Failed to declare pasteboard types")
  const UrlsArrayFailure: IoError := IoError(Other, "Failed to create URLs array")
  const WriteFailure: IoError := IoError(Other, "Failed to write file URLs to pasteboard (writeObjects failed)")

  /** The error naming every path that did not become a URL. */
  function Unprocessed(errors: seq<string>): IoError {
    IoError(InvalidInput, "Some paths could not be processed: " + Join(errors, "; "))
  }

  /** The pasteboard once the file types are declared. */
  const DeclaredPasteboard: Pasteboard := EmptyPasteboard.(types := Some(Advertised(PasteboardTypes)))

  /** `write_clipboard_file_paths`: what it returns, which pasteboard changes
      it makes and what it leaves on the pasteboard. */
  function WriteEffect(rt: Runtime, pb: Pasteboard, paths: seq<string>, resolve: Resolver): Effect<Unit> {
    if paths == [] then Effect(Ok(Unit), [], pb)
    else if rt.poolNil then Effect(Err(PoolFailure), [], pb)
    else if rt.generalNil then Effect(Err(NoGeneralPasteboard), [], pb)
    else ResolvedEffect(rt, Outcomes(paths, resolve, rt.nilStrings, rt.nilUrls, AsUrlFailure))
  }

  /** The rest of the write once the pasteboard is cleared and every path resolved. */
  function ResolvedEffect(rt: Runtime, outs: seq<Result<string, string>>): Effect<Unit> {
    if Errs(outs) != [] then Effect(Err(Unprocessed(Errs(outs))), [Cleared], EmptyPasteboard)
    else After(Cleared, DeclareEffect(rt, Oks(outs)))
  }

  /** An effect preceded by one more pasteboard change. */
  function After<T>(event: PbEvent, e: Effect<T>): Effect<T> {
    e.(events := [event] + e.events)
  }

  /** Declaring the two types on the cleared pasteboard, then the write. */
  function DeclareEffect(rt: Runtime, urls: seq<string>): Effect<Unit> {
    if FileUrlType in rt.nilStrings then Effect(Err(FileUrlTypeFailure), [], EmptyPasteboard)
    else if FilenamesType in rt.nilStrings then Effect(Err(FilenamesTypeFailure), [], EmptyPasteboard)
    else if TypesArray in rt.nilArrays then Effect(Err(TypesArrayFailure), [], EmptyPasteboard)
    else if !rt.declareSucceeds then Effect(Err(DeclareFailure), [Declared(PasteboardTypes)], DeclaredPasteboard)
    else After(Declared(PasteboardTypes), DeclaredEffect(rt, urls))
  }

  /** The write once the types are declared. */
  function DeclaredEffect(rt: Runtime, urls: seq<string>): Effect<Unit> {
    if urls == [] || UrlsArray in rt.nilArrays then
      Effect(Err(UrlsArrayFailure), [], DeclaredPasteboard)
    else if !rt.writeSucceeds then
      Effect(Err(WriteFailure), [Wrote(urls)], DeclaredPasteboard)
    else
      Effect(Ok(Unit), [Wrote(urls)], Written(DeclaredPasteboard, rt, urls))
  }

  /** `write_clipboard_file_paths`: an empty list succeeds at once; otherwise
      the pasteboard is cleared, every path resolved, and the URLs written
      only when all of them resolved and the types were declared. */
  method WriteClipboardFilePaths(env: CocoaEnv, paths: seq<string>, resolve: Resolver)
    returns (r: Result<Unit, IoError>)
    modifies env
    ensures var e := WriteEffect(env.rt, old(env.pb), paths, resolve);
      r == e.result && env.history == old(env.history) + e.events && env.pb == e.pb
    ensures env.livePools == old(env.livePools)
    ensures env.drainsSent == old(env.drainsSent) + (if paths == [] || env.rt.poolNil then 0 else 1)
  {
    if paths == [] {
      return Ok(Unit);
    }
    var pool := env.NewPool();
    if pool.Nil? {
      return Err(PoolFailure);
    }
    if env.rt.generalNil {
      env.Drain(pool);
      return Err(NoGeneralPasteboard);
    }
    r := ClearAndWrite(env, paths, resolve);
    env.Drain(pool);
  }

  /** The steps of `write_clipboard_file_paths` on the general pasteboard:
      clear it, resolve every path, then declare and write. */
  method ClearAndWrite(env: CocoaEnv, paths: seq<string>, resolve: Resolver) returns (r: Result<Unit, IoError>)
    modifies env
    ensures var e := ResolvedEffect(env.rt, Outcomes(paths, resolve, env.rt.nilStrings, env.rt.nilUrls, AsUrlFailure));
      r == e.result && env.history == old(env.history) + e.events && env.pb == e.pb
    ensures env.livePools == old(env.livePools) && env.drainsSent == old(env.drainsSent)
  {
    env.ClearContents();
    var urls, errors := CollectUrls(paths, resolve, env.rt.nilStrings, env.rt.nilUrls, AsUrlFailure);
    if errors != [] {
      return Err(Unprocessed(errors));
    }
    r := DeclareAndWrite(env, urls);
  }

  /** The declaration and write steps of `write_clipboard_file_paths`, on
      the cleared pasteboard. */
  method DeclareAndWrite(env: CocoaEnv, urls: seq<string>) returns (r: Result<Unit, IoError>)
    requires env.pb == EmptyPasteboard
    modifies env
    ensures var e := DeclareEffect(env.rt, urls);
      r == e.result && env.history == old(env.history) + e.events && env.pb == e.pb
    ensures env.livePools == old(env.livePools) && env.drainsSent == old(env.drainsSent)
  {
    if FileUrlType in env.rt.nilStrings {
      return Err(FileUrlTypeFailure);
    }
    if FilenamesType in env.rt.nilStrings {
      return Err(FilenamesTypeFailure);
    }
    if TypesArray in env.rt.nilArrays {
      return Err(TypesArrayFailure);
    }
    var declared := env.DeclareTypes(PasteboardTypes);
    if !declared {
      return Err(DeclareFailure);
    }
    if urls == [] || UrlsArray in env.rt.nilArrays {
      return Err(UrlsArrayFailure);
    }
    var success := env.WriteObjects(urls);
    if success {
      r := Ok(Unit);
    } else {
      r := Err(WriteFailure);
    }
  }

  /** Every path becomes a URL: it canonicalises to valid Unicode and Cocoa
      makes its `NSString` and `NSURL`. */
  predicate AllUrlsMade(rt: Runtime, paths: seq<string>, resolve: Resolver) {
    AllResolved(paths, resolve) &&
    forall i :: 0 <= i < |paths| ==> resolve(paths[i]).path !in rt.nilStrings && resolve(paths[i]).path !in rt.nilUrls
  }

  /** The write succeeds exactly for the empty list, or when every path
      becomes a URL and every Cocoa step after that succeeds. */
  lemma WriteOkIff(rt: Runtime, pb: Pasteboard, paths: seq<string>, resolve: Resolver)
    ensures WriteEffect(rt, pb, paths, resolve).result.Ok? <==>
      paths == [] ||
      (!rt.poolNil && !rt.generalNil && AllUrlsMade(rt, paths, resolve) &&
       FileUrlType !in rt.nilStrings && FilenamesType !in rt.nilStrings &&
       TypesArray !in rt.nilArrays && UrlsArray !in rt.nilArrays && rt.declareSucceeds && rt.writeSucceeds)
  {
    var outs := Outcomes(paths, resolve, rt.nilStrings, rt.nilUrls, AsUrlFailure);
    AllOkIffResolved(paths, resolve, rt.nilStrings, rt.nilUrls, AsUrlFailure);
    NoErrsIffAllOk(outs);
  }

  /** Strict policy: once the pasteboard is reached, a single path that does
      not become a URL fails the write with `InvalidInput`, naming every
      failed path, and leaves the pasteboard cleared. */
  lemma WriteStrict(rt: Runtime, pb: Pasteboard, paths: seq<string>, resolve: Resolver, i: nat)
    requires !rt.poolNil && !rt.generalNil
    requires i < |paths| && PathOutcome(paths[i], resolve, rt.nilStrings, rt.nilUrls, AsUrlFailure).Err?
    ensures var outs := Outcomes(paths, resolve, rt.nilStrings, rt.nilUrls, AsUrlFailure);
      var e := WriteEffect(rt, pb, paths, resolve);
      e.result == Err(Unprocessed(Errs(outs))) &&
      |Errs(outs)| == |paths| - |Oks(outs)| && e.events == [Cleared] && e.pb == EmptyPasteboard
  {
    var outs := Outcomes(paths, resolve, rt.nilStrings, rt.nilUrls, AsUrlFailure);
    NoErrsIffAllOk(outs);
    OksErrsPartition(outs);
  }

  /** After resolution: the changes run clear, declare, write, the write
      only after a successful declaration and only when no path failed;
      success leaves the declared types, the written URLs and whatever
      strings and data `writeObjects:` adds. */
  lemma ResolvedProtocol(rt: Runtime, outs: seq<Result<string, string>>)
    ensures var e := ResolvedEffect(rt, outs);
      |e.events| <= 3 && (e.events != [] ==> e.events[0] == Cleared) &&
      (|e.events| >= 2 ==> e.events[1] == Declared(PasteboardTypes))
    ensures var e := ResolvedEffect(rt, outs);
      |e.events| == 3 ==> (rt.declareSucceeds && Errs(outs) == [] && e.events[2] == Wrote(Oks(outs)))
    ensures var e := ResolvedEffect(rt, outs);
      e.result.Ok? ==> (Errs(outs) == [] && e.pb == Written(DeclaredPasteboard, rt, Oks(outs)))
  {
    if Errs(outs) == [] {
      DeclareProtocol(rt, Oks(outs));
    }
  }

  /** Declaring, then writing: the declaration comes first, and the write
      only after it succeeded; once sent, the declaration holds even when
      its answer reads as failure. */
  lemma DeclareProtocol(rt: Runtime, urls: seq<string>)
    ensures var e := DeclareEffect(rt, urls);
      |e.events| <= 2 && (e.events != [] ==> e.events[0] == Declared(PasteboardTypes))
    ensures var e := DeclareEffect(rt, urls);
      e.events != [] <==> e.pb.types == Some(Advertised(PasteboardTypes))
    ensures var e := DeclareEffect(rt, urls);
      |e.events| == 2 ==> (rt.declareSucceeds && e.events[1] == Wrote(urls))
    ensures var e := DeclareEffect(rt, urls);
      e.result.Ok? ==> e.pb == Written(DeclaredPasteboard, rt, urls)
  {
    if !(FileUrlType in rt.nilStrings || FilenamesType in rt.nilStrings || TypesArray in rt.nilArrays) && rt.declareSucceeds {
      var d := DeclaredEffect(rt, urls);
      assert |d.events| <= 1 && (d.events != [] ==> d.events[0] == Wrote(urls));
    }
  }

  /** The pasteboard changes always run in the order clear, declare, write;
      objects are written only after a successful declaration, and what is
      written are the canonical paths in input order. */
  lemma WriteProtocol(rt: Runtime, pb: Pasteboard, paths: seq<string>, resolve: Resolver)
    ensures var e := WriteEffect(rt, pb, paths, resolve);
      |e.events| <= 3 && (e.events != [] ==> e.events[0] == Cleared) &&
      (|e.events| >= 2 ==> e.events[1] == Declared(PasteboardTypes))
    ensures var e := WriteEffect(rt, pb, paths, resolve);
      |e.events| == 3 ==> (rt.declareSucceeds && AllResolved(paths, resolve) &&
        e.events[2] == Wrote(CanonicalPaths(paths, resolve)))
  {
    if paths != [] && !rt.poolNil && !rt.generalNil {
      var outs := Outcomes(paths, resolve, rt.nilStrings, rt.nilUrls, AsUrlFailure);
      ResolvedProtocol(rt, outs);
      if Errs(outs) == [] {
        NoErrsCanonical(paths, resolve, rt.nilStrings, rt.nilUrls, AsUrlFailure);
      }
    }
  }

  // ------------------------------------------------------------ readers

  const NoTextContent: IoError := IoError(NotFound, "No text content found on clipboard")
  const TextTypes: seq<string> := [PlainTextType, "public.text", "NSStringPboardType", "com.apple.traditional-mac-plain-text"]
  const RawTypes: seq<string> := [PlainTextType, "public.text", "NSStringPboardType", "public.data"]

  /** The string behind each advertised type (None for a nil element). */
  function AdvertisedText(ts: seq<Option<string>>, pb: Pasteboard): (r: seq<Option<string>>)
    ensures |r| == |ts|
    ensures forall i :: 0 <= i < |ts| ==> r[i] == (if ts[i].None? then None else TextFor(pb, ts[i].value))
  {
    seq(|ts|, i requires 0 <= i < |ts| => if ts[i].None? then None else TextFor(pb, ts[i].value))
  }

  /** The strings of the four priority types, in order (None for a type
      name whose `NSString` is nil). */
  function PriorityText(rt: Runtime, pb: Pasteboard): (r: seq<Option<string>>)
    ensures |r| == |TextTypes|
    ensures forall i :: 0 <= i < |TextTypes| ==>
      r[i] == (if TextTypes[i] in rt.nilStrings then None else TextFor(pb, TextTypes[i]))
  {
    seq(|TextTypes|, i requires 0 <= i < |TextTypes| =>
      if TextTypes[i] in rt.nilStrings then None else TextFor(pb, TextTypes[i]))
  }

  /** The strings `read_clipboard_text` looks at, in the order it looks:
      the priority types, then the advertised types. */
  function TextCandidates(rt: Runtime, pb: Pasteboard): (r: seq<Option<string>>)
    ensures |r| >= |TextTypes|
    ensures forall i :: 0 <= i < |TextTypes| ==> r[i] == PriorityText(rt, pb)[i]
  {
    PriorityText(rt, pb) + (if pb.types.None? then [] else AdvertisedText(pb.types.value, pb))
  }

  /** `read_clipboard_text`: the first non-empty candidate string. */
  function ReadText(rt: Runtime, pb: Pasteboard): Result<string, IoError> {
    if rt.poolNil then Err(PoolFailure)
    else if rt.generalNil then Err(NoGeneralPasteboard)
    else
      var t := FirstCandidate(TextCandidates(rt, pb));
      if t.Some? then Ok(t.value) else Err(NoTextContent)
  }

  method ReadClipboardText(env: CocoaEnv) returns (r: Result<string, IoError>)
    modifies env
    ensures r == ReadText(env.rt, old(env.pb))
    ensures env.pb == old(env.pb) && env.history == old(env.history) && env.livePools == old(env.livePools)
  {
    var pool := env.NewPool();
    if pool.Nil? {
      return Err(PoolFailure);
    }
    if env.rt.generalNil {
      env.Drain(pool);
      return Err(NoGeneralPasteboard);
    }
    ghost var advertised: seq<Option<string>> := if env.pb.types.None? then [] else AdvertisedText(env.pb.types.value, env.pb);
    FirstCandidateConcat(PriorityText(env.rt, env.pb), advertised);
    var found := ScanPriorityText(env);
    if found.None? && env.pb.types.Some? {
      found := ScanAdvertisedText(env, env.pb.types.value);
    }
    env.Drain(pool);
    if found.Some? {
      return Ok(found.value);
    }
    r := Err(NoTextContent);
  }

  /** The first loop of `read_clipboard_text`: the priority types in order. */
  method ScanPriorityText(env: CocoaEnv) returns (found: Option<string>)
    ensures found == FirstCandidate(PriorityText(env.rt, env.pb))
  {
    ghost var cands := PriorityText(env.rt, env.pb);
    var i := 0;
    while i < |TextTypes|
      invariant i <= |TextTypes|
      invariant forall j :: 0 <= j < i ==> !NonEmptyAt(cands, j)
    {
      var t := TextTypes[i];
      if t !in env.rt.nilStrings {
        var s := StringFor(env.pb, t);
        if s.Some? {
          var text := ToRustString(s.value);
          if text.Some? && text.value != [] {
            FirstNonEmptyAt(cands, i);
            return text;
          }
        }
      }
      i := i + 1;
    }
    found := None;
  }

  /** The second loop of `read_clipboard_text`: every advertised type in order. */
  method ScanAdvertisedText(env: CocoaEnv, ts: seq<Option<string>>) returns (found: Option<string>)
    ensures found == FirstCandidate(AdvertisedText(ts, env.pb))
  {
    ghost var cands := AdvertisedText(ts, env.pb);
    var k := 0;
    while k < |ts|
      invariant k <= |ts|
      invariant forall j :: 0 <= j < k ==> !NonEmptyAt(cands, j)
    {
      if ts[k].Some? {
        var s := StringFor(env.pb, ts[k].value);
        if s.Some? {
          var text := ToRustString(s.value);
          if text.Some? && text.value != [] {
            FirstNonEmptyAt(cands, k);
            return text;
          }
        }
      }
      k := k + 1;
    }
    found := None;
  }

  /** Text read succeeds with `s` exactly when `s` is a non-empty candidate
      and every candidate before it is missing or empty; it fails with
      `NotFound` exactly when every candidate is missing or empty. */
  lemma TextIsFirstNonEmpty(rt: Runtime, pb: Pasteboard, s: string)
    requires !rt.poolNil && !rt.generalNil
    ensures ReadText(rt, pb) == Ok(s) <==>
      exists k :: NonEmptyAt(TextCandidates(rt, pb), k) && TextCandidates(rt, pb)[k].value == s &&
        forall j :: 0 <= j < k ==> !NonEmptyAt(TextCandidates(rt, pb), j)
    ensures ReadText(rt, pb) == Err(NoTextContent) <==>
      forall j :: 0 <= j < |TextCandidates(rt, pb)| ==> !NonEmptyAt(TextCandidates(rt, pb), j)
  {
    var c := TextCandidates(rt, pb);
    if exists k :: NonEmptyAt(c, k) && c[k].value == s && forall j :: 0 <= j < k ==> !NonEmptyAt(c, j) {
      var k :| NonEmptyAt(c, k) && c[k].value == s && forall j :: 0 <= j < k ==> !NonEmptyAt(c, j);
      FirstNonEmptyAt(c, k);
    }
  }

  /** Non-empty `public.utf8-plain-text` text is what the text read returns. */
  lemma PlainTextFirst(rt: Runtime, pb: Pasteboard)
    requires !rt.poolNil && !rt.generalNil && PlainTextType !in rt.nilStrings
    requires TextFor(pb, PlainTextType).Some? && TextFor(pb, PlainTextType).value != []
    ensures ReadText(rt, pb) == Ok(TextFor(pb, PlainTextType).value)
  {
    FirstNonEmptyAt(TextCandidates(rt, pb), 0);
  }

  /** The bytes behind each advertised type (None for a nil element). */
  function AdvertisedData(ts: seq<Option<string>>, pb: Pasteboard): (r: seq<Option<seq<byte>>>)
    ensures |r| == |ts|
    ensures forall i :: 0 <= i < |ts| ==> r[i] == (if ts[i].None? then None else BytesFor(pb, ts[i].value))
  {
    seq(|ts|, i requires 0 <= i < |ts| => if ts[i].None? then None else BytesFor(pb, ts[i].value))
  }

  /** The UTF-8 bytes of non-empty `public.utf8-plain-text` text. */
  function PlainTextBytes(rt: Runtime, pb: Pasteboard): Option<seq<byte>> {
    if PlainTextType in rt.nilStrings then None
    else
      var t := TextFor(pb, PlainTextType);
      if t.Some? && t.value != [] then Some(Utf8Encode(t.value)) else None
  }

  /** The data of the four priority types, in order. */
  function PriorityData(rt: Runtime, pb: Pasteboard): (r: seq<Option<seq<byte>>>)
    ensures |r| == |RawTypes|
    ensures forall i :: 0 <= i < |RawTypes| ==>
      r[i] == (if RawTypes[i] in rt.nilStrings then None else BytesFor(pb, RawTypes[i]))
  {
    seq(|RawTypes|, i requires 0 <= i < |RawTypes| =>
      if RawTypes[i] in rt.nilStrings then None else BytesFor(pb, RawTypes[i]))
  }

  /** The byte strings `read_clipboard_raw` looks at, in order: the data of
      the four priority types, the plain text as UTF-8, the data of each
      advertised type. */
  function RawCandidates(rt: Runtime, pb: Pasteboard, ts: seq<Option<string>>): (r: seq<Option<seq<byte>>>)
    ensures |r| == |RawTypes| + 1 + |ts|
  {
    PriorityData(rt, pb) + [PlainTextBytes(rt, pb)] + AdvertisedData(ts, pb)
  }

  const NoDataAtAll: IoError := IoError(NotFound, "No data found in clipboard for any available type")

  /** `read_clipboard_raw`: the first non-empty candidate, else the file
      paths joined by newlines, else `NotFound`. */
  function ReadRaw(rt: Runtime, pb: Pasteboard): Result<seq<byte>, IoError> {
    if rt.poolNil then Err(PoolFailure)
    else if rt.generalNil then Err(NoGeneralPasteboard)
    else if pb.types.None? then Err(IoError(NotFound, "Clipboard is empty"))
    else if pb.types.value == [] then Err(IoError(NotFound, "Clipboard has no available types"))
    else
      var d := FirstCandidate(RawCandidates(rt, pb, pb.types.value));
      if d.Some? then Ok(d.value) else PathsAsBytes(ReadFilePaths(rt, pb))
  }

  /** The last resort of the raw read: file paths joined by newlines. */
  function PathsAsBytes(p: Result<seq<string>, IoError>): Result<seq<byte>, IoError> {
    if p.Ok? && p.value != [] then Ok(Utf8Encode(Join(p.value, "\n"))) else Err(NoDataAtAll)
  }

  method ReadClipboardRaw(env: CocoaEnv) returns (r: Result<seq<byte>, IoError>)
    modifies env
    ensures r == ReadRaw(env.rt, old(env.pb))
    ensures env.pb == old(env.pb) && env.history == old(env.history) && env.livePools == old(env.livePools)
  {
    var pool := env.NewPool();
    if pool.Nil? {
      return Err(PoolFailure);
    }
    if env.rt.generalNil {
      env.Drain(pool);
      return Err(NoGeneralPasteboard);
    }
    if env.pb.types.None? {
      env.Drain(pool);
      return Err(IoError(NotFound, "Clipboard is empty"));
    }
    var ts := env.pb.types.value;
    if |ts| == 0 {
      env.Drain(pool);
      return Err(IoError(NotFound, "Clipboard has no available types"));
    }
    var found := ScanRawCandidates(env, ts);
    if found.Some? {
      env.Drain(pool);
      return Ok(found.value);
    }
    var paths := ReadClipboardFilePaths(env);
    if paths.Ok? && paths.value != [] {
      env.Drain(pool);
      return Ok(Utf8Encode(Join(paths.value, "\n")));
    }
    env.Drain(pool);
    r := Err(NoDataAtAll);
  }

  /** The three lookup loops of `read_clipboard_raw`: priority types, plain
      text, advertised types; the first non-empty byte string found. */
  method ScanRawCandidates(env: CocoaEnv, ts: seq<Option<string>>) returns (found: Option<seq<byte>>)
    ensures found == FirstCandidate(RawCandidates(env.rt, env.pb, ts))
  {
    ghost var priority := PriorityData(env.rt, env.pb);
    ghost var plain := [PlainTextBytes(env.rt, env.pb)];
    FirstCandidateConcat(priority + plain, AdvertisedData(ts, env.pb));
    FirstCandidateConcat(priority, plain);
    found := ScanPriorityData(env);
    if found.Some? {
      return;
    }
    if PlainTextType !in env.rt.nilStrings {
      var s := StringFor(env.pb, PlainTextType);
      if s.Some? {
        var text := ToRustString(s.value);
        if text.Some? && text.value != [] {
          assert Utf8Encode(text.value) == Utf8EncodeChar(text.value[0]) + Utf8Encode(text.value[1..]);
          assert NonEmptyAt(plain, 0);
          return Some(Utf8Encode(text.value));
        }
      }
    }
    assert !NonEmptyAt(plain, 0);
    found := ScanAdvertisedData(env, ts);
  }

  /** The first loop of `read_clipboard_raw`: the priority types in order. */
  method ScanPriorityData(env: CocoaEnv) returns (found: Option<seq<byte>>)
    ensures found == FirstCandidate(PriorityData(env.rt, env.pb))
  {
    ghost var cands := PriorityData(env.rt, env.pb);
    var i := 0;
    while i < |RawTypes|
      invariant i <= |RawTypes|
      invariant forall j :: 0 <= j < i ==> !NonEmptyAt(cands, j)
    {
      var t := RawTypes[i];
      if t !in env.rt.nilStrings {
        var d := DataFor(env.pb, t);
        if d.Some? && d.value.bytes.Some? && d.value.bytes.value != [] {
          FirstNonEmptyAt(cands, i);
          return d.value.bytes;
        }
      }
      i := i + 1;
    }
    found := None;
  }

  /** The last loop of `read_clipboard_raw`: every advertised type in order. */
  method ScanAdvertisedData(env: CocoaEnv, ts: seq<Option<string>>) returns (found: Option<seq<byte>>)
    ensures found == FirstCandidate(AdvertisedData(ts, env.pb))
  {
    ghost var cands := AdvertisedData(ts, env.pb);
    var k := 0;
    while k < |ts|
      invariant k <= |ts|
      invariant forall j :: 0 <= j < k ==> !NonEmptyAt(cands, j)
    {
      if ts[k].Some? {
        var d := DataFor(env.pb, ts[k].value);
        if d.Some? && d.value.bytes.Some? && d.value.bytes.value != [] {
          FirstNonEmptyAt(cands, k);
          return d.value.bytes;
        }
      }
      k := k + 1;
    }
    found := None;
  }

  /** `read_clipboard_file_paths`: the paths of the file URLs among the
      `NSURL` objects on the pasteboard, in order; no URLs is not an error. */
  function ReadFilePaths(rt: Runtime, pb: Pasteboard): Result<seq<string>, IoError> {
    if rt.poolNil then Err(PoolFailure)
    else if rt.generalNil then Err(NoGeneralPasteboard)
    else if ClassesArray in rt.nilArrays then Err(IoError(Other, "Failed to create array for NSURL class"))
    else Ok(if pb.urls.None? then [] else FilePathsOf(pb.urls.value))
  }

  method ReadClipboardFilePaths(env: CocoaEnv) returns (r: Result<seq<string>, IoError>)
    modifies env
    ensures r == ReadFilePaths(env.rt, old(env.pb))
    ensures env.pb == old(env.pb) && env.history == old(env.history) && env.livePools == old(env.livePools)
  {
    var pool := env.NewPool();
    if pool.Nil? {
      return Err(PoolFailure);
    }
    if env.rt.generalNil {
      env.Drain(pool);
      return Err(NoGeneralPasteboard);
    }
    if ClassesArray in env.rt.nilArrays {
      env.Drain(pool);
      return Err(IoError(Other, "Failed to create array for NSURL class"));
    }
    var paths: seq<string> := [];
    if env.pb.urls.Some? {
      var items := env.pb.urls.value;
      var i := 0;
      while i < |items|
        invariant i <= |items|
        invariant paths == FilePathsOf(items[..i])
      {
        assert items[..i + 1][..i] == items[..i];
        var path := PathOfItem(items[i]);
        if path.Some? {
          paths := paths + [path.value];
        }
        i := i + 1;
      }
      assert items[..i] == items;
    }
    env.Drain(pool);
    r := Ok(paths);
  }

  // ---------------------------------------------------------- round trip

  /** A successful non-empty write leaves the declared types, the file URLs
      of the canonical paths and the strings and data `writeObjects:` adds on
      the pasteboard. */
  lemma WriteLeavesUrls(rt: Runtime, pb: Pasteboard, paths: seq<string>, resolve: Resolver)
    requires paths != [] && WriteEffect(rt, pb, paths, resolve).result.Ok?
    ensures !rt.poolNil && !rt.generalNil && AllResolved(paths, resolve)
    ensures WriteEffect(rt, pb, paths, resolve).pb == Written(DeclaredPasteboard, rt, CanonicalPaths(paths, resolve))
  {
    var outs := Outcomes(paths, resolve, rt.nilStrings, rt.nilUrls, AsUrlFailure);
    assert WriteEffect(rt, pb, paths, resolve) == ResolvedEffect(rt, outs);
    ResolvedProtocol(rt, outs);
    NoErrsCanonical(paths, resolve, rt.nilStrings, rt.nilUrls, AsUrlFailure);
  }

  /** The path read of a pasteboard holding the file URLs of NUL-free paths
      gives those paths. */
  lemma ReadBackFileUrls(rt: Runtime, cs: seq<string>)
    requires ClassesArray !in rt.nilArrays && !rt.poolNil && !rt.generalNil
    requires NulFree(cs)
    ensures ReadFilePaths(rt, Written(DeclaredPasteboard, rt, cs)) == Ok(cs)
  {
    FileUrlsRoundTrip(cs);
  }

  /** The path read of the pasteboard a write of NUL-free canonical paths
      leaves gives those paths. */
  lemma ReadAfterWrite(rt: Runtime, after: Pasteboard, paths: seq<string>, resolve: Resolver)
    requires ClassesArray !in rt.nilArrays && !rt.poolNil && !rt.generalNil && AllResolved(paths, resolve)
    requires forall i :: 0 <= i < |paths| && resolve(paths[i]).Resolved? ==> '\0' !in resolve(paths[i]).path
    requires after == Written(DeclaredPasteboard, rt, CanonicalPaths(paths, resolve))
    ensures ReadFilePaths(rt, after) == Ok(CanonicalPaths(paths, resolve))
  {
    CanonicalNulFree(paths, resolve);
    ReadBackFileUrls(rt, CanonicalPaths(paths, resolve));
  }

  /** Canonical strings of paths whose canonical forms hold no NUL hold no NUL. */
  lemma CanonicalNulFree(paths: seq<string>, resolve: Resolver)
    requires AllResolved(paths, resolve)
    requires forall i :: 0 <= i < |paths| && resolve(paths[i]).Resolved? ==> '\0' !in resolve(paths[i]).path
    ensures NulFree(CanonicalPaths(paths, resolve))
  {
  }

  /** A successful write of NUL-free canonical paths reads back as those
      paths, in order. */
  lemma WriteThenReadPaths(rt: Runtime, pb: Pasteboard, paths: seq<string>, resolve: Resolver)
    requires paths != [] && WriteEffect(rt, pb, paths, resolve).result.Ok?
    requires ClassesArray !in rt.nilArrays
    requires forall i :: 0 <= i < |paths| && resolve(paths[i]).Resolved? ==> '\0' !in resolve(paths[i]).path
    ensures AllResolved(paths, resolve)
    ensures ReadFilePaths(rt, WriteEffect(rt, pb, paths, resolve).pb) == Ok(CanonicalPaths(paths, resolve))
  {
    WriteLeavesUrls(rt, pb, paths, resolve);
    ReadAfterWrite(rt, WriteEffect(rt, pb, paths, resolve).pb, paths, resolve);
  }

  /** A pasteboard without strings or data offers no raw candidate. */
  lemma NoDataNoCandidate(rt: Runtime, pb: Pasteboard, ts: seq<Option<string>>)
    requires pb.strings == map[] && pb.data == map[]
    ensures FirstCandidate(RawCandidates(rt, pb, ts)).None?
  {
    var c := RawCandidates(rt, pb, ts);
    assert forall j :: 0 <= j < |c| ==> !NonEmptyAt(c, j);
  }

  /** When `writeObjects:` adds nothing beside the URL objects, the raw read
      of the pasteboard a write of NUL-free paths leaves gives those paths
      joined by newlines, as UTF-8. */
  lemma ReadRawFileUrls(rt: Runtime, cs: seq<string>)
    requires ClassesArray !in rt.nilArrays && !rt.poolNil && !rt.generalNil
    requires cs != [] && NulFree(cs) && WritesOnlyUrls(rt)
    ensures ReadRaw(rt, Written(DeclaredPasteboard, rt, cs)) == Ok(Utf8Encode(Join(cs, "\n")))
  {
    var after := Written(DeclaredPasteboard, rt, cs);
    NoDataNoCandidate(rt, after, after.types.value);
    ReadBackFileUrls(rt, cs);
  }

  /** When `writeObjects:` adds nothing beside the URL objects, the raw read
      of the pasteboard a write of NUL-free canonical paths leaves gives
      those paths joined by newlines. */
  lemma ReadRawAfterWrite(rt: Runtime, after: Pasteboard, paths: seq<string>, resolve: Resolver)
    requires ClassesArray !in rt.nilArrays && !rt.poolNil && !rt.generalNil && AllResolved(paths, resolve)
    requires paths != [] && WritesOnlyUrls(rt)
    requires forall i :: 0 <= i < |paths| && resolve(paths[i]).Resolved? ==> '\0' !in resolve(paths[i]).path
    requires after == Written(DeclaredPasteboard, rt, CanonicalPaths(paths, resolve))
    ensures ReadRaw(rt, after) == Ok(Utf8Encode(Join(CanonicalPaths(paths, resolve), "\n")))
  {
    CanonicalNulFree(paths, resolve);
    ReadRawFileUrls(rt, CanonicalPaths(paths, resolve));
  }

  /** When `writeObjects:` adds nothing beside the URL objects, a successful
      write leaves no data and no strings, so the raw read falls through to
      the file paths joined by newlines. */
  lemma WriteThenReadRaw(rt: Runtime, pb: Pasteboard, paths: seq<string>, resolve: Resolver)
    requires paths != [] && WriteEffect(rt, pb, paths, resolve).result.Ok?
    requires ClassesArray !in rt.nilArrays && WritesOnlyUrls(rt)
    requires forall i :: 0 <= i < |paths| && resolve(paths[i]).Resolved? ==> '\0' !in resolve(paths[i]).path
    ensures AllResolved(paths, resolve)
    ensures ReadRaw(rt, WriteEffect(rt, pb, paths, resolve).pb) == Ok(Utf8Encode(Join(CanonicalPaths(paths, resolve), "\n")))
  {
    WriteLeavesUrls(rt, pb, paths, resolve);
    ReadRawAfterWrite(rt, WriteEffect(rt, pb, paths, resolve).pb, paths, resolve);
  }
}
