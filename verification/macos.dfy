/** The older macOS adapter that messages Cocoa directly
    (`src/platforms/macos.rs`). Its autorelease pool is created without a nil
    check and is sent `drain` once on every way out. The writer is lenient:
    it writes the URLs of the paths that resolved and fails for the paths
    alone only when none did. The readers look at a single pasteboard type
    each. */
module Macos {
  import opened Wrappers
  import opened Errors
  import opened Text
  import opened Unicode
  import opened Paths
  import opened Cocoa
  import opened MacPaths
  import MacosApi

  // ------------------------------------------------------------- writer

  const TypeStringsFailure: IoError := IoError(Other, "Failed to create NSString for pasteboard types")
  const TypesArrayFailure: IoError := IoError(Other, "Failed to create NSArray for pasteboard types")
  const UrlsArrayFailure: IoError := IoError(Other, "Failed to create NSArray for URLs")

  /** The error when no path became a URL, naming every path. */
  function NoUrls(errors: seq<string>): IoError {
    IoError(InvalidInput, "No valid file URIs could be created from the provided paths. Errors: " + Join(errors, "; "))
  }

  /** `copy_files_to_clipboard`: what it returns, which pasteboard changes it
      makes and what it leaves on the pasteboard. */
  function CopyEffect(rt: Runtime, pb: Pasteboard, paths: seq<string>, resolve: Resolver): Effect<Unit> {
    if rt.generalNil then Effect(Err(NoGeneralPasteboard), [], pb)
    else LenientEffect(rt, Outcomes(paths, resolve, rt.nilStrings, rt.nilUrls, FromPath))
  }

  /** The rest of the write once the pasteboard is cleared and every path resolved. */
  function LenientEffect(rt: Runtime, outs: seq<Result<string, string>>): Effect<Unit> {
    if Oks(outs) == [] then Effect(Err(NoUrls(Errs(outs))), [Cleared], EmptyPasteboard)
    else MacosApi.After(Cleared, TypesEffect(rt, Oks(outs)))
  }

  /** Declaring the two types on the cleared pasteboard, then the write. */
  function TypesEffect(rt: Runtime, urls: seq<string>): Effect<Unit> {
    if FileUrlType in rt.nilStrings || FilenamesType in rt.nilStrings then
      Effect(Err(TypeStringsFailure), [], EmptyPasteboard)
    else if TypesArray in rt.nilArrays then Effect(Err(TypesArrayFailure), [], EmptyPasteboard)
    else if !rt.declareSucceeds then
      Effect(Err(MacosApi.DeclareFailure), [Declared(MacosApi.PasteboardTypes)], MacosApi.DeclaredPasteboard)
    else MacosApi.After(Declared(MacosApi.PasteboardTypes), UrlsEffect(rt, urls))
  }

  /** The write once the types are declared. */
  function UrlsEffect(rt: Runtime, urls: seq<string>): Effect<Unit> {
    if UrlsArray in rt.nilArrays then Effect(Err(UrlsArrayFailure), [], MacosApi.DeclaredPasteboard)
    else if !rt.writeSucceeds then Effect(Err(MacosApi.WriteFailure), [Wrote(urls)], MacosApi.DeclaredPasteboard)
    else Effect(Ok(Unit), [Wrote(urls)], Written(MacosApi.DeclaredPasteboard, rt, urls))
  }

  /** `copy_files_to_clipboard`. */
  method CopyFilesToClipboard(env: CocoaEnv, paths: seq<string>, resolve: Resolver)
    returns (r: Result<Unit, IoError>)
    modifies env
    ensures var e := CopyEffect(env.rt, old(env.pb), paths, resolve);
      r == e.result && env.history == old(env.history) + e.events && env.pb == e.pb
    ensures env.livePools == old(env.livePools) && env.drainsSent == old(env.drainsSent) + 1
  {
    var pool := env.NewPool();
    if env.rt.generalNil {
      env.Drain(pool);
      return Err(NoGeneralPasteboard);
    }
    r := ClearAndCopy(env, paths, resolve);
    env.Drain(pool);
  }

  /** The steps of `copy_files_to_clipboard` on the general pasteboard:
      clear it, resolve every path, then declare and write. */
  method ClearAndCopy(env: CocoaEnv, paths: seq<string>, resolve: Resolver) returns (r: Result<Unit, IoError>)
    modifies env
    ensures var e := LenientEffect(env.rt, Outcomes(paths, resolve, env.rt.nilStrings, env.rt.nilUrls, FromPath));
      r == e.result && env.history == old(env.history) + e.events && env.pb == e.pb
    ensures env.livePools == old(env.livePools) && env.drainsSent == old(env.drainsSent)
  {
    env.ClearContents();
    var urls, errors := CollectUrls(paths, resolve, env.rt.nilStrings, env.rt.nilUrls, FromPath);
    if urls == [] {
      return Err(NoUrls(errors));
    }
    r := DeclareAndCopy(env, urls);
  }

  /** The declaration and write steps of `copy_files_to_clipboard`, on the
      cleared pasteboard. */
  method DeclareAndCopy(env: CocoaEnv, urls: seq<string>) returns (r: Result<Unit, IoError>)
    requires env.pb == EmptyPasteboard
    modifies env
    ensures var e := TypesEffect(env.rt, urls);
      r == e.result && env.history == old(env.history) + e.events && env.pb == e.pb
    ensures env.livePools == old(env.livePools) && env.drainsSent == old(env.drainsSent)
  {
    if FileUrlType in env.rt.nilStrings || FilenamesType in env.rt.nilStrings {
      return Err(TypeStringsFailure);
    }
    if TypesArray in env.rt.nilArrays {
      return Err(TypesArrayFailure);
    }
    var declared := env.DeclareTypes(MacosApi.PasteboardTypes);
    if !declared {
      return Err(MacosApi.DeclareFailure);
    }
    if UrlsArray in env.rt.nilArrays {
      return Err(UrlsArrayFailure);
    }
    var success := env.WriteObjects(urls);
    if success {
      r := Ok(Unit);
    } else {
      r := Err(MacosApi.WriteFailure);
    }
  }

  /** At least one path canonicalises to valid Unicode and Cocoa makes its
      `NSString` and `NSURL`. */
  predicate SomeUrlMade(rt: Runtime, paths: seq<string>, resolve: Resolver) {
    exists i :: 0 <= i < |paths| && resolve(paths[i]).Resolved? &&
      resolve(paths[i]).path !in rt.nilStrings && resolve(paths[i]).path !in rt.nilUrls
  }

  /** Some URL is made exactly when the list of successes is not empty. */
  lemma SomeUrlMadeIff(rt: Runtime, paths: seq<string>, resolve: Resolver, w: NilStringWording)
    ensures Oks(Outcomes(paths, resolve, rt.nilStrings, rt.nilUrls, w)) != [] <==> SomeUrlMade(rt, paths, resolve)
  {
    var outs := Outcomes(paths, resolve, rt.nilStrings, rt.nilUrls, w);
    NoOksIffNoneOk(outs);
    if SomeUrlMade(rt, paths, resolve) {
      var i :| 0 <= i < |paths| && resolve(paths[i]).Resolved? &&
        resolve(paths[i]).path !in rt.nilStrings && resolve(paths[i]).path !in rt.nilUrls;
      assert outs[i].Ok?;
    }
  }

  /** The write succeeds exactly when the general pasteboard is there, at
      least one path becomes a URL and every Cocoa step after that succeeds;
      paths that fail do not matter once one succeeds. */
  lemma CopyOkIff(rt: Runtime, pb: Pasteboard, paths: seq<string>, resolve: Resolver)
    ensures CopyEffect(rt, pb, paths, resolve).result.Ok? <==>
      !rt.generalNil && SomeUrlMade(rt, paths, resolve) &&
      FileUrlType !in rt.nilStrings && FilenamesType !in rt.nilStrings &&
      TypesArray !in rt.nilArrays && UrlsArray !in rt.nilArrays && rt.declareSucceeds && rt.writeSucceeds
  {
    SomeUrlMadeIff(rt, paths, resolve, FromPath);
  }

  /** Lenient policy: the write fails with `InvalidInput` exactly when the
      pasteboard is reached and no path becomes a URL; the message then
      names every path, and the pasteboard is left cleared. */
  lemma CopyInvalidInputIff(rt: Runtime, pb: Pasteboard, paths: seq<string>, resolve: Resolver)
    ensures var r := CopyEffect(rt, pb, paths, resolve).result;
      (r.Err? && r.error.kind == InvalidInput) <==> (!rt.generalNil && !SomeUrlMade(rt, paths, resolve))
    ensures !rt.generalNil && !SomeUrlMade(rt, paths, resolve) ==>
      var outs := Outcomes(paths, resolve, rt.nilStrings, rt.nilUrls, FromPath);
      var e := CopyEffect(rt, pb, paths, resolve);
      e.result == Err(NoUrls(Errs(outs))) && |Errs(outs)| == |paths| &&
      e.events == [Cleared] && e.pb == EmptyPasteboard
  {
    var outs := Outcomes(paths, resolve, rt.nilStrings, rt.nilUrls, FromPath);
    SomeUrlMadeIff(rt, paths, resolve, FromPath);
    if !rt.generalNil {
      assert CopyEffect(rt, pb, paths, resolve) == LenientEffect(rt, outs);
      LenientProtocol(rt, outs);
      OksErrsPartition(outs);
    }
  }

  /** An empty list is not an error for the strict writer but is one here:
      no path, so no URL. */
  lemma CopyEmptyFails(rt: Runtime, pb: Pasteboard, resolve: Resolver)
    requires !rt.generalNil
    ensures CopyEffect(rt, pb, [], resolve).result.Err?
    ensures CopyEffect(rt, pb, [], resolve).result.error.kind == InvalidInput
    ensures MacosApi.WriteEffect(rt, pb, [], resolve).result.Ok?
  {
    var outs := Outcomes([], resolve, rt.nilStrings, rt.nilUrls, FromPath);
    assert outs == [];
    assert Oks(outs) == [];
  }

  /** The URLs written are those of the paths that resolved and whose Cocoa
      objects were made, and only those. */
  lemma CopiedUrls(rt: Runtime, paths: seq<string>, resolve: Resolver, x: string)
    ensures x in Oks(Outcomes(paths, resolve, rt.nilStrings, rt.nilUrls, FromPath)) <==>
      exists i :: 0 <= i < |paths| && resolve(paths[i]) == Resolved(x) && x !in rt.nilStrings && x !in rt.nilUrls
  {
    var outs := Outcomes(paths, resolve, rt.nilStrings, rt.nilUrls, FromPath);
    OksMembers(outs, x);
    if exists i :: 0 <= i < |paths| && resolve(paths[i]) == Resolved(x) && x !in rt.nilStrings && x !in rt.nilUrls {
      var i :| 0 <= i < |paths| && resolve(paths[i]) == Resolved(x) && x !in rt.nilStrings && x !in rt.nilUrls;
      assert outs[i] == Ok(x);
    }
  }

  /** The pasteboard changes run clear, declare, write; the clear comes
      before any path is resolved and happens whenever the general
      pasteboard is there; what is written are the successes in input
      order, and a success leaves the declared types, their URLs and the
      strings and data `writeObjects:` adds on the pasteboard. */
  lemma CopyProtocol(rt: Runtime, pb: Pasteboard, paths: seq<string>, resolve: Resolver)
    ensures var e := CopyEffect(rt, pb, paths, resolve);
      rt.generalNil ==> e.events == [] && e.pb == pb
    ensures var e := CopyEffect(rt, pb, paths, resolve);
      !rt.generalNil ==> (1 <= |e.events| <= 3 && e.events[0] == Cleared &&
        (|e.events| >= 2 ==> e.events[1] == Declared(MacosApi.PasteboardTypes)))
    ensures var outs := Outcomes(paths, resolve, rt.nilStrings, rt.nilUrls, FromPath);
      var e := CopyEffect(rt, pb, paths, resolve);
      |e.events| == 3 ==> rt.declareSucceeds && Oks(outs) != [] && e.events[2] == Wrote(Oks(outs))
    ensures var outs := Outcomes(paths, resolve, rt.nilStrings, rt.nilUrls, FromPath);
      var e := CopyEffect(rt, pb, paths, resolve);
      e.result.Ok? ==> e.pb == Written(MacosApi.DeclaredPasteboard, rt, Oks(outs))
  {
    if !rt.generalNil {
      LenientProtocol(rt, Outcomes(paths, resolve, rt.nilStrings, rt.nilUrls, FromPath));
    }
  }

  /** The protocol of the write after resolution; only the case without a
      single URL fails with `InvalidInput`. */
  lemma LenientProtocol(rt: Runtime, outs: seq<Result<string, string>>)
    ensures var e := LenientEffect(rt, outs);
      1 <= |e.events| <= 3 && e.events[0] == Cleared &&
      (|e.events| >= 2 ==> e.events[1] == Declared(MacosApi.PasteboardTypes))
    ensures var e := LenientEffect(rt, outs);
      |e.events| == 3 ==> (rt.declareSucceeds && Oks(outs) != [] && e.events[2] == Wrote(Oks(outs)))
    ensures var e := LenientEffect(rt, outs);
      e.result.Ok? ==> e.pb == Written(MacosApi.DeclaredPasteboard, rt, Oks(outs))
    ensures var r := LenientEffect(rt, outs).result;
      (r.Err? && r.error.kind == InvalidInput) <==> Oks(outs) == []
  {
    var e := LenientEffect(rt, outs);
    if Oks(outs) == [] {
      assert e == Effect(Err(NoUrls(Errs(outs))), [Cleared], EmptyPasteboard);
    } else {
      var t := TypesEffect(rt, Oks(outs));
      TypesProtocol(rt, Oks(outs));
      assert e.events == [Cleared] + t.events && e.result == t.result && e.pb == t.pb;
    }
  }

  /** Declaring, then writing: the declaration comes first, and the write
      only after it succeeded; once sent, the declaration holds even when
      its answer reads as failure; every failure here is of kind `Other`. */
  lemma TypesProtocol(rt: Runtime, urls: seq<string>)
    ensures var e := TypesEffect(rt, urls);
      |e.events| <= 2 && (e.events != [] ==> e.events[0] == Declared(MacosApi.PasteboardTypes))
    ensures var e := TypesEffect(rt, urls);
      e.events != [] <==> e.pb.types == Some(Advertised(MacosApi.PasteboardTypes))
    ensures var e := TypesEffect(rt, urls);
      |e.events| == 2 ==> (rt.declareSucceeds && e.events[1] == Wrote(urls))
    ensures var e := TypesEffect(rt, urls);
      e.result.Ok? ==> e.pb == Written(MacosApi.DeclaredPasteboard, rt, urls)
    ensures var e := TypesEffect(rt, urls);
      e.result.Err? ==> e.result.error.kind == Other
  {
    if !(FileUrlType in rt.nilStrings || FilenamesType in rt.nilStrings || TypesArray in rt.nilArrays) && rt.declareSucceeds {
      var u := UrlsEffect(rt, urls);
      assert |u.events| <= 1 && (u.events != [] ==> u.events[0] == Wrote(urls));
    }
  }

  /** Wherever the strict writer of `api.rs` succeeds on a non-empty list,
      this writer does exactly the same: same result, same pasteboard
      changes, same pasteboard. */
  lemma StrictOkMeansSameEffect(rt: Runtime, pb: Pasteboard, paths: seq<string>, resolve: Resolver)
    requires paths != [] && MacosApi.WriteEffect(rt, pb, paths, resolve).result.Ok?
    ensures CopyEffect(rt, pb, paths, resolve) == MacosApi.WriteEffect(rt, pb, paths, resolve)
  {
    var strict := Outcomes(paths, resolve, rt.nilStrings, rt.nilUrls, AsUrlFailure);
    var lenient := Outcomes(paths, resolve, rt.nilStrings, rt.nilUrls, FromPath);
    assert Errs(strict) == [];
    NoErrsIffAllOk(strict);
    OksWordingFree(paths, resolve, rt.nilStrings, rt.nilUrls, AsUrlFailure, FromPath);
    assert Oks(lenient) == Oks(strict) && Oks(strict) != [];
    SameDeclareEffect(rt, Oks(strict));
  }

  /** Declaring and writing a non-empty URL list: where the strict writer's
      steps succeed, this writer's steps do the same. */
  lemma SameDeclareEffect(rt: Runtime, urls: seq<string>)
    requires urls != [] && MacosApi.DeclareEffect(rt, urls).result.Ok?
    ensures TypesEffect(rt, urls) == MacosApi.DeclareEffect(rt, urls)
  {
    assert MacosApi.DeclaredEffect(rt, urls) == UrlsEffect(rt, urls);
  }

  // ------------------------------------------------------------ readers

  const TextTypeFailure: IoError := IoError(Other, "Failed to create NSString for text type")
  const NoPlainText: IoError := IoError(NotFound, "No text content found on clipboard for type public.utf8-plain-text")
  const NoUtf8Text: IoError := IoError(InvalidData, "Failed to get UTF8 string from pasteboard content")

  /** `read_clipboard_text`: the `public.utf8-plain-text` string, possibly empty. */
  function ReadText(rt: Runtime, pb: Pasteboard): Result<string, IoError> {
    if rt.generalNil then Err(NoGeneralPasteboard)
    else if PlainTextType in rt.nilStrings then Err(TextTypeFailure)
    else
      match StringFor(pb, PlainTextType)
      case None => Err(NoPlainText)
      case Some(s) =>
        var text := ToRustString(s);
        if text.Some? then Ok(text.value) else Err(NoUtf8Text)
  }

  method ReadClipboardText(env: CocoaEnv) returns (r: Result<string, IoError>)
    modifies env
    ensures r == ReadText(env.rt, old(env.pb))
    ensures env.pb == old(env.pb) && env.history == old(env.history)
    ensures env.livePools == old(env.livePools) && env.drainsSent == old(env.drainsSent) + 1
  {
    var pool := env.NewPool();
    if env.rt.generalNil {
      env.Drain(pool);
      return Err(NoGeneralPasteboard);
    }
    if PlainTextType in env.rt.nilStrings {
      env.Drain(pool);
      return Err(TextTypeFailure);
    }
    var s := StringFor(env.pb, PlainTextType);
    if s.Some? {
      var text := ToRustString(s.value);
      if text.Some? {
        r := Ok(text.value);
      } else {
        r := Err(NoUtf8Text);
      }
    } else {
      r := Err(NoPlainText);
    }
    env.Drain(pool);
  }

  /** The text read succeeds exactly when the plain-text string is there
      with a UTF-8 form, and then returns that string, empty or not. */
  lemma TextOkIff(rt: Runtime, pb: Pasteboard)
    ensures ReadText(rt, pb).Ok? <==>
      !rt.generalNil && PlainTextType !in rt.nilStrings && TextFor(pb, PlainTextType).Some?
    ensures ReadText(rt, pb).Ok? ==> ReadText(rt, pb).value == TextFor(pb, PlainTextType).value
  {
  }

  /** Where this reader finds non-empty text, the reader of `api.rs` finds
      the same text: it looks at the same type first. */
  lemma TextAgreesWithApi(rt: Runtime, pb: Pasteboard)
    requires !rt.poolNil
    requires ReadText(rt, pb).Ok? && ReadText(rt, pb).value != []
    ensures MacosApi.ReadText(rt, pb) == ReadText(rt, pb)
  {
    TextOkIff(rt, pb);
    MacosApi.PlainTextFirst(rt, pb);
  }

  const NoTypes: IoError := IoError(NotFound, "Clipboard is empty or has no available types")
  const NoFirstType: IoError := IoError(Other, "Failed to get first available type from clipboard")

  function NoDataFor(t: string): IoError {
    IoError(NotFound, "No data found on clipboard for type '" + t + "'")
  }

  /** `read_clipboard_raw`: the data of the first advertised type; data with
      no bytes reads as empty. */
  function ReadRaw(rt: Runtime, pb: Pasteboard): Result<seq<byte>, IoError> {
    if rt.generalNil then Err(NoGeneralPasteboard)
    else if pb.types.None? || pb.types.value == [] then Err(NoTypes)
    else if pb.types.value[0].None? then Err(NoFirstType)
    else
      var t := pb.types.value[0].value;
      var d := DataFor(pb, t);
      if d.None? then Err(NoDataFor(t))
      else if d.value.bytes.Some? && |d.value.bytes.value| > 0 then Ok(d.value.bytes.value)
      else Ok([])
  }

  method ReadClipboardRaw(env: CocoaEnv) returns (r: Result<seq<byte>, IoError>)
    modifies env
    ensures r == ReadRaw(env.rt, old(env.pb))
    ensures env.pb == old(env.pb) && env.history == old(env.history)
    ensures env.livePools == old(env.livePools) && env.drainsSent == old(env.drainsSent) + 1
  {
    var pool := env.NewPool();
    if env.rt.generalNil {
      env.Drain(pool);
      return Err(NoGeneralPasteboard);
    }
    var available := env.pb.types;
    if available.None? || |available.value| == 0 {
      env.Drain(pool);
      return Err(NoTypes);
    }
    var dataType := available.value[0];
    if dataType.None? {
      env.Drain(pool);
      return Err(NoFirstType);
    }
    var data := DataFor(env.pb, dataType.value);
    if data.Some? {
      var bytes := data.value.bytes;
      if bytes.Some? && |bytes.value| > 0 {
        r := Ok(bytes.value);
      } else {
        r := Ok([]);
      }
    } else {
      r := Err(NoDataFor(dataType.value));
    }
    env.Drain(pool);
  }

  /** Only the first advertised type is looked at: the types after it can be
      anything. */
  lemma RawFirstTypeOnly(rt: Runtime, pb: Pasteboard, rest: seq<Option<string>>)
    requires pb.types.Some? && pb.types.value != []
    ensures ReadRaw(rt, pb) == ReadRaw(rt, pb.(types := Some([pb.types.value[0]] + rest)))
  {
  }

  /** The raw read succeeds exactly when the first advertised type has data;
      the result is that data's bytes, and is empty only when they are. */
  lemma RawOkIff(rt: Runtime, pb: Pasteboard)
    ensures ReadRaw(rt, pb).Ok? <==>
      !rt.generalNil && pb.types.Some? && pb.types.value != [] && pb.types.value[0].Some? &&
      DataFor(pb, pb.types.value[0].value).Some?
    ensures ReadRaw(rt, pb).Ok? && ReadRaw(rt, pb).value != [] ==>
      BytesFor(pb, pb.types.value[0].value) == Some(ReadRaw(rt, pb).value)
  {
  }

  const ClassesArrayFailure: IoError := IoError(Other, "Failed to create NSArray for NSURL class filter")
  const NoFilePaths: IoError := IoError(NotFound, "No valid file paths found on clipboard (checked for NSURL)")

  /** `read_clipboard_file_paths`: the paths of the file URLs on the
      pasteboard, in order; finding none is an error. */
  function ReadFilePaths(rt: Runtime, pb: Pasteboard): Result<seq<string>, IoError> {
    if rt.generalNil then Err(NoGeneralPasteboard)
    else if ClassesArray in rt.nilArrays then Err(ClassesArrayFailure)
    else
      var ps := if pb.urls.None? then [] else FilePathsOf(pb.urls.value);
      if ps == [] then Err(NoFilePaths) else Ok(ps)
  }

  method ReadClipboardFilePaths(env: CocoaEnv) returns (r: Result<seq<string>, IoError>)
    modifies env
    ensures r == ReadFilePaths(env.rt, old(env.pb))
    ensures env.pb == old(env.pb) && env.history == old(env.history)
    ensures env.livePools == old(env.livePools) && env.drainsSent == old(env.drainsSent) + 1
  {
    var pool := env.NewPool();
    if env.rt.generalNil {
      env.Drain(pool);
      return Err(NoGeneralPasteboard);
    }
    if ClassesArray in env.rt.nilArrays {
      env.Drain(pool);
      return Err(ClassesArrayFailure);
    }
    var paths: seq<string> := [];
    if env.pb.urls.Some? {
      paths := FileUrlPaths(env.pb.urls.value);
    }
    env.Drain(pool);
    if paths == [] {
      return Err(NoFilePaths);
    }
    r := Ok(paths);
  }

  /** The loop of `read_clipboard_file_paths` over the `NSURL` array: nil
      elements, URLs that are not file URLs, and URLs whose path or its
      UTF-8 form is missing are skipped. */
  method FileUrlPaths(items: seq<Option<NsUrl>>) returns (paths: seq<string>)
    ensures paths == FilePathsOf(items)
  {
    paths := [];
    var i := 0;
    while i < |items|
      invariant i <= |items|
      invariant paths == FilePathsOf(items[..i])
    {
      assert items[..i + 1][..i] == items[..i];
      var url := items[i];
      if url.Some? && url.value.isFile && url.value.path.Some? {
        var utf8 := ToRustString(url.value.path.value);
        if utf8.Some? {
          paths := paths + [utf8.value];
        }
      }
      i := i + 1;
    }
    assert items[..i] == items;
  }

  /** This reader succeeds with exactly the non-empty results of the path
      reader of `api.rs`. */
  lemma PathsAgreeWithApi(rt: Runtime, pb: Pasteboard, ps: seq<string>)
    requires !rt.poolNil
    ensures ReadFilePaths(rt, pb) == Ok(ps) <==> MacosApi.ReadFilePaths(rt, pb) == Ok(ps) && ps != []
  {
  }

  // ---------------------------------------------------------- round trip

  /** The canonical forms of the given paths hold no NUL. */
  predicate CanonicalNulFree(paths: seq<string>, resolve: Resolver) {
    forall i :: 0 <= i < |paths| && resolve(paths[i]).Resolved? ==> '\0' !in resolve(paths[i]).path
  }

  /** The URLs the writer makes hold no NUL when the canonical forms do not. */
  lemma CopiedNulFree(rt: Runtime, paths: seq<string>, resolve: Resolver)
    requires CanonicalNulFree(paths, resolve)
    ensures NulFree(Oks(Outcomes(paths, resolve, rt.nilStrings, rt.nilUrls, FromPath)))
  {
    var cs := Oks(Outcomes(paths, resolve, rt.nilStrings, rt.nilUrls, FromPath));
    forall j | 0 <= j < |cs| ensures '\0' !in cs[j] {
      CopiedUrls(rt, paths, resolve, cs[j]);
    }
  }

  /** The path read of a pasteboard holding the file URLs of a non-empty
      list of NUL-free paths gives that list. */
  lemma ReadBackCopied(rt: Runtime, cs: seq<string>)
    requires !rt.generalNil && ClassesArray !in rt.nilArrays
    requires cs != [] && NulFree(cs)
    ensures ReadFilePaths(rt, Written(MacosApi.DeclaredPasteboard, rt, cs)) == Ok(cs)
  {
    FileUrlsRoundTrip(cs);
  }

  /** A successful write of paths with NUL-free canonical forms reads back
      as the paths that became URLs, in input order. */
  lemma CopyThenReadPaths(rt: Runtime, pb: Pasteboard, paths: seq<string>, resolve: Resolver)
    requires CopyEffect(rt, pb, paths, resolve).result.Ok?
    requires ClassesArray !in rt.nilArrays && CanonicalNulFree(paths, resolve)
    ensures ReadFilePaths(rt, CopyEffect(rt, pb, paths, resolve).pb) ==
      Ok(Oks(Outcomes(paths, resolve, rt.nilStrings, rt.nilUrls, FromPath)))
  {
    CopyProtocol(rt, pb, paths, resolve);
    CopiedNulFree(rt, paths, resolve);
    ReadBackCopied(rt, Oks(Outcomes(paths, resolve, rt.nilStrings, rt.nilUrls, FromPath)));
  }

  /** After a successful write the text read sees only the strings
      `writeObjects:` itself added: without one for the plain-text type it
      finds no text. */
  lemma CopyThenReadText(rt: Runtime, pb: Pasteboard, paths: seq<string>, resolve: Resolver)
    requires CopyEffect(rt, pb, paths, resolve).result.Ok?
    ensures ReadText(rt, CopyEffect(rt, pb, paths, resolve).pb) ==
      ReadText(rt, EmptyPasteboard.(strings := rt.writtenStrings))
    ensures PlainTextType !in rt.nilStrings && PlainTextType !in rt.writtenStrings ==>
      ReadText(rt, CopyEffect(rt, pb, paths, resolve).pb) == Err(NoPlainText)
  {
    CopyProtocol(rt, pb, paths, resolve);
    assert Written(MacosApi.DeclaredPasteboard, rt, Oks(Outcomes(paths, resolve, rt.nilStrings, rt.nilUrls, FromPath))).strings
      == rt.writtenStrings;
  }

  /** After a successful write the first advertised type is the file URL
      type, so the raw read gives the data `writeObjects:` itself put under
      that type, and fails without it: this reader does not fall back to the
      file paths as the reader of `api.rs` does. */
  lemma CopyThenReadRaw(rt: Runtime, pb: Pasteboard, paths: seq<string>, resolve: Resolver)
    requires CopyEffect(rt, pb, paths, resolve).result.Ok?
    ensures FileUrlType !in rt.writtenData ==>
      ReadRaw(rt, CopyEffect(rt, pb, paths, resolve).pb) == Err(NoDataFor(FileUrlType))
    ensures FileUrlType in rt.writtenData ==>
      ReadRaw(rt, CopyEffect(rt, pb, paths, resolve).pb).Ok? &&
      (ReadRaw(rt, CopyEffect(rt, pb, paths, resolve).pb).value == [] ||
       rt.writtenData[FileUrlType].bytes == Some(ReadRaw(rt, CopyEffect(rt, pb, paths, resolve).pb).value))
  {
    CopyProtocol(rt, pb, paths, resolve);
    assert Written(MacosApi.DeclaredPasteboard, rt, Oks(Outcomes(paths, resolve, rt.nilStrings, rt.nilUrls, FromPath))).data
      == rt.writtenData;
  }

  // ------------------------------------------ writer with an injected clipboard

  /** The test double of `ClipboardOperations`. */
  datatype MockClipboard = MockClipboard(shouldSucceed: bool)

  /** `MockClipboard::copy_files`: the URLs are ignored. */
  function MockCopyFiles(c: MockClipboard, urls: seq<string>): Result<Unit, IoError> {
    if c.shouldSucceed then Ok(Unit) else Err(IoError(Other, "Mock clipboard failure"))
  }

  /** The error when no path became a URL, in the wording of the variant
      with an injected clipboard. */
  function NoUris(errors: seq<string>): IoError {
    IoError(InvalidInput, "No valid URIs could be created. Errors: " + Join(errors, "; "))
  }

  /** `copy_files_to_clipboard_with_impl`: resolve every path, then hand the
      URLs made to the injected clipboard, whose result is returned as is. */
  function WithImplResult(rt: Runtime, paths: seq<string>, resolve: Resolver, c: MockClipboard): Result<Unit, IoError> {
    var outs := Outcomes(paths, resolve, rt.nilStrings, rt.nilUrls, ForPath);
    if Oks(outs) == [] then Err(NoUris(Errs(outs))) else MockCopyFiles(c, Oks(outs))
  }

  method CopyFilesToClipboardWithImpl(env: CocoaEnv, paths: seq<string>, resolve: Resolver, c: MockClipboard)
    returns (r: Result<Unit, IoError>)
    modifies env
    ensures r == WithImplResult(env.rt, paths, resolve, c)
    ensures env.pb == old(env.pb) && env.history == old(env.history)
    ensures env.livePools == old(env.livePools) && env.drainsSent == old(env.drainsSent) + 1
  {
    var pool := env.NewPool();
    var urls, errors := CollectUrls(paths, resolve, env.rt.nilStrings, env.rt.nilUrls, ForPath);
    if urls == [] {
      env.Drain(pool);
      return Err(NoUris(errors));
    }
    r := MockCopyFiles(c, urls);
    env.Drain(pool);
  }

  /** With the mock, the variant succeeds exactly when some path becomes a
      URL and the mock is set to succeed; once a URL exists, the mock's
      failure is what is returned. */
  lemma WithImplOkIff(rt: Runtime, paths: seq<string>, resolve: Resolver, c: MockClipboard)
    ensures WithImplResult(rt, paths, resolve, c).Ok? <==> SomeUrlMade(rt, paths, resolve) && c.shouldSucceed
    ensures SomeUrlMade(rt, paths, resolve) && !c.shouldSucceed ==>
      WithImplResult(rt, paths, resolve, c) == Err(IoError(Other, "Mock clipboard failure"))
  {
    SomeUrlMadeIff(rt, paths, resolve, ForPath);
  }

  /** The variant fails with `InvalidInput` exactly when no path becomes a
      URL, as the writer does once the pasteboard is reached. */
  lemma WithImplInvalidInputIff(rt: Runtime, pb: Pasteboard, paths: seq<string>, resolve: Resolver, c: MockClipboard)
    ensures var r := WithImplResult(rt, paths, resolve, c);
      (r.Err? && r.error.kind == InvalidInput) <==> !SomeUrlMade(rt, paths, resolve)
    ensures !rt.generalNil ==>
      (WithImplResult(rt, paths, resolve, c).Err? && WithImplResult(rt, paths, resolve, c).error.kind == InvalidInput <==>
       CopyEffect(rt, pb, paths, resolve).result.Err? && CopyEffect(rt, pb, paths, resolve).result.error.kind == InvalidInput)
  {
    SomeUrlMadeIff(rt, paths, resolve, ForPath);
    CopyInvalidInputIff(rt, pb, paths, resolve);
  }
}
