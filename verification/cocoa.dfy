/** The part of Cocoa the macOS adapters message: `NSAutoreleasePool`
    (`new`, `drain`), `NSString` (`initWithUTF8String:`, `UTF8String`),
    `NSURL` (`fileURLWithPath:`, `isFileURL`, `path`), `NSArray` creation,
    `NSData` (`length`, `bytes`) and the general `NSPasteboard` (`types`,
    `stringForType:`, `dataForType:`, `readObjectsForClasses:options:`,
    `clearContents`, `declareTypes:owner:`, `writeObjects:`). Which calls
    return nil is an oracle, fixed for one operation. */
module Cocoa {
  import opened Wrappers
  import opened Unicode
  import opened Errors

  const PlainTextType: string := "public.utf8-plain-text"
  const FileUrlType: string := "public.file-url"
  const FilenamesType: string := "NSFilenamesPboardType"

  // ------------------------------------------------------------ NSString

  /** An `NSString` as seen through `UTF8String`: the bytes of the C buffer
      before its terminator, or None when `UTF8String` returns NULL. */
  datatype NsString = NsString(utf8: Option<seq<byte>>)

  /** `CStr::from_ptr`: the bytes up to the first NUL. */
  function UntilNul(b: seq<byte>): (r: seq<byte>)
    ensures r <= b && 0 !in r
    ensures |r| < |b| ==> b[|r|] == 0
  {
    if b == [] || b[0] == 0 then [] else [b[0]] + UntilNul(b[1..])
  }

  /** `to_rust_string` / `get_path`: `UTF8String`, then
      `CStr::to_string_lossy`; None when it returns NULL. */
  function ToRustString(ns: NsString): (r: Option<string>)
    ensures r.Some? <==> ns.utf8.Some?
    ensures r.Some? ==> |r.value| <= |ns.utf8.value|
  {
    if ns.utf8.None? then None else Some(Utf8DecodeLossy(UntilNul(ns.utf8.value)))
  }

  /** The `NSString` made from a Rust string. */
  function NsStringOf(s: string): NsString {
    NsString(Some(Utf8Encode(s)))
  }

  /** Reading an `NSString` back into Rust gives the string it was made from,
      unless a NUL character cuts the C string short. */
  lemma RustStringOfNsString(s: string)
    requires '\0' !in s
    ensures ToRustString(NsStringOf(s)) == Some(s)
  {
    Utf8NoNul(s);
    var b := Utf8Encode(s);
    assert UntilNul(b) == b;
    Utf8RoundTrip(s);
  }

  // ------------------------------------------------------ NSData, NSURL

  /** An `NSData`: the bytes `bytes` points to (`length` of them), or None
      when `bytes` is NULL. */
  datatype NsData = NsData(bytes: Option<seq<byte>>)

  /** An `NSURL` read from the pasteboard: `isFileURL` and `path` (None when
      `path` returns nil). */
  datatype NsUrl = NsUrl(isFile: bool, path: Option<NsString>)

  /** The file URL `fileURLWithPath:` makes for a path. */
  function FileUrl(p: string): NsUrl {
    NsUrl(true, Some(NsStringOf(p)))
  }

  /** `is_file_url` then `get_path`: the path of a URL array element, if it is
      a file URL whose path has a UTF-8 form (None for a nil element). */
  function PathOfItem(item: Option<NsUrl>): (r: Option<string>)
    ensures r.Some? ==> item.Some? && item.value.isFile && item.value.path.Some?
  {
    if item.Some? && item.value.isFile && item.value.path.Some? then ToRustString(item.value.path.value)
    else None
  }

  /** The paths of the file URLs among `items`, in order. */
  function FilePathsOf(items: seq<Option<NsUrl>>): (r: seq<string>)
    ensures |r| <= |items|
  {
    if items == [] then []
    else
      var last := PathOfItem(items[|items| - 1]);
      FilePathsOf(items[..|items| - 1]) + (if last.Some? then [last.value] else [])
  }

  /** Every element of `items` contributes its path, in order. */
  lemma {:induction false} FilePathsOfAll(items: seq<Option<NsUrl>>, ps: seq<string>)
    requires |items| == |ps|
    requires forall i :: 0 <= i < |items| ==> PathOfItem(items[i]) == Some(ps[i])
    ensures FilePathsOf(items) == ps
  {
    if items != [] {
      var n := |items| - 1;
      FilePathsOfAll(items[..n], ps[..n]);
      assert ps == ps[..n] + [ps[n]];
    }
  }

  /** The file URLs `writeObjects:` puts on the pasteboard for `paths`. */
  function FileUrls(paths: seq<string>): (r: seq<Option<NsUrl>>)
    ensures |r| == |paths|
    ensures forall i :: 0 <= i < |paths| ==> r[i] == Some(FileUrl(paths[i]))
  {
    seq(|paths|, i requires 0 <= i < |paths| => Some(FileUrl(paths[i])))
  }

  /** No path holds a NUL character. */
  predicate NulFree(paths: seq<string>) {
    forall i :: 0 <= i < |paths| ==> '\0' !in paths[i]
  }

  /** Reading the file URLs written for NUL-free paths gives those paths back. */
  lemma FileUrlsRoundTrip(paths: seq<string>)
    requires NulFree(paths)
    ensures FilePathsOf(FileUrls(paths)) == paths
  {
    forall i | 0 <= i < |paths|
      ensures PathOfItem(FileUrls(paths)[i]) == Some(paths[i])
    {
      RustStringOfNsString(paths[i]);
    }
    FilePathsOfAll(FileUrls(paths), paths);
  }

  // ---------------------------------------------------------- pasteboard

  /** What the general pasteboard holds: `types` (nil or the advertised type
      names, an element nil where `objectAtIndex:` gives nil), the strings and
      data per type, and what `readObjectsForClasses:` with the `NSURL` class
      returns. */
  datatype Pasteboard = Pasteboard(
    types: Option<seq<Option<string>>>,
    strings: map<string, NsString>,
    data: map<string, NsData>,
    urls: Option<seq<Option<NsUrl>>>)

  const EmptyPasteboard: Pasteboard := Pasteboard(Some([]), map[], map[], Some([]))

  /** `stringForType:`. */
  function StringFor(pb: Pasteboard, t: string): Option<NsString> {
    if t in pb.strings then Some(pb.strings[t]) else None
  }

  /** `dataForType:`. */
  function DataFor(pb: Pasteboard, t: string): Option<NsData> {
    if t in pb.data then Some(pb.data[t]) else None
  }

  /** `stringForType:` then `to_rust_string`. */
  function TextFor(pb: Pasteboard, t: string): Option<string> {
    var s := StringFor(pb, t);
    if s.Some? then ToRustString(s.value) else None
  }

  /** `dataForType:` then `to_bytes`. */
  function BytesFor(pb: Pasteboard, t: string): Option<seq<byte>> {
    var d := DataFor(pb, t);
    if d.Some? then d.value.bytes else None
  }

  /** The `types` array a declared type list shows. */
  function Advertised(ts: seq<string>): (r: seq<Option<string>>)
    ensures |r| == |ts| && forall i :: 0 <= i < |ts| ==> r[i] == Some(ts[i])
  {
    seq(|ts|, i requires 0 <= i < |ts| => Some(ts[i]))
  }

  /** The changes the writers make to the pasteboard, in order. */
  datatype PbEvent = Cleared | Declared(types: seq<string>) | Wrote(paths: seq<string>)

  /** What one adapter call does: its result, the pasteboard changes it makes
      and the pasteboard it leaves. */
  datatype Effect<T> = Effect(result: Result<T, IoError>, events: seq<PbEvent>, pb: Pasteboard)

  const NoGeneralPasteboard: IoError := IoError(Other, "Failed to get general pasteboard")

  /** The arrays the adapters create. */
  datatype ArrayUse = TypesArray | UrlsArray | ClassesArray

  /** Which calls return nil (or NO) during one operation, and what Cocoa
      itself adds to the pasteboard when it writes URL objects. */
  datatype Runtime = Runtime(
    poolNil: bool,               // `[NSAutoreleasePool new]`
    generalNil: bool,            // `generalPasteboard`
    nilStrings: set<string>,     // `initWithUTF8String:` for these strings
    nilUrls: set<string>,        // `fileURLWithPath:` for these paths
    nilArrays: set<ArrayUse>,    // `arrayWithObjects:` / `arrayWithObject:`
    // `declareTypes:owner:` answers an NSInteger change count, which the
    // adapters read as a BOOL; this is whether that reading is true
    declareSucceeds: bool,
    writeSucceeds: bool,         // `writeObjects:`
    // the strings and data a successful `writeObjects:` makes readable beside
    // the URL objects (NSURL's pasteboard writing is Cocoa's, not the adapters')
    writtenStrings: map<string, NsString>,
    writtenData: map<string, NsData>)

  /** The pasteboard a successful `writeObjects:` of the file URLs of `paths` leaves. */
  function Written(pb: Pasteboard, rt: Runtime, paths: seq<string>): (r: Pasteboard)
    ensures r.types == pb.types && r.urls == Some(FileUrls(paths))
    ensures r.strings.Keys == pb.strings.Keys + rt.writtenStrings.Keys
    ensures r.data.Keys == pb.data.Keys + rt.writtenData.Keys
  {
    pb.(strings := pb.strings + rt.writtenStrings, data := pb.data + rt.writtenData,
        urls := Some(FileUrls(paths)))
  }

  /** `writeObjects:` adds nothing but the URL objects. */
  predicate WritesOnlyUrls(rt: Runtime) {
    rt.writtenStrings == map[] && rt.writtenData == map[]
  }

  /** An autorelease pool handle; `new` may give nil, and messaging nil does nothing. */
  datatype PoolRef = Nil | Live

  /** Cocoa as one process sees it during one operation. */
  class CocoaEnv {
    var pb: Pasteboard
    var history: seq<PbEvent>
    /** Pools created and not yet drained. */
    var livePools: nat
    /** `drain` messages sent, to live pools or to nil. */
    var drainsSent: nat
    const rt: Runtime

    constructor (pb: Pasteboard, rt: Runtime)
      ensures this.pb == pb && this.rt == rt && history == [] && livePools == 0 && drainsSent == 0
    {
      this.pb := pb;
      this.rt := rt;
      history := [];
      livePools := 0;
      drainsSent := 0;
    }

    /** `[NSAutoreleasePool new]`. */
    method NewPool() returns (p: PoolRef)
      modifies this
      ensures p.Live? <==> !rt.poolNil
      ensures livePools == old(livePools) + (if p.Live? then 1 else 0)
      ensures pb == old(pb) && history == old(history) && drainsSent == old(drainsSent)
    {
      if rt.poolNil {
        p := Nil;
      } else {
        p := Live;
        livePools := livePools + 1;
      }
    }

    /** `[pool drain]`. */
    method Drain(p: PoolRef)
      requires p.Live? ==> livePools > 0
      modifies this
      ensures drainsSent == old(drainsSent) + 1
      ensures livePools == old(livePools) - (if p.Live? then 1 else 0)
      ensures pb == old(pb) && history == old(history)
    {
      drainsSent := drainsSent + 1;
      if p.Live? {
        livePools := livePools - 1;
      }
    }

    /** `clearContents`. */
    method ClearContents()
      modifies this
      ensures pb == EmptyPasteboard && history == old(history) + [Cleared]
      ensures livePools == old(livePools) && drainsSent == old(drainsSent)
    {
      pb := EmptyPasteboard;
      history := history + [Cleared];
    }

    /** `declareTypes:owner:`; a declared type list replaces the advertised
        one. The declaration takes place whatever the change count it
        answers, so `ok` (that count read as a BOOL) does not affect it. */
    method DeclareTypes(ts: seq<string>) returns (ok: bool)
      modifies this
      ensures ok == rt.declareSucceeds
      ensures pb == old(pb).(types := Some(Advertised(ts)))
      ensures history == old(history) + [Declared(ts)]
      ensures livePools == old(livePools) && drainsSent == old(drainsSent)
    {
      ok := rt.declareSucceeds;
      pb := pb.(types := Some(Advertised(ts)));
      history := history + [Declared(ts)];
    }

    /** `writeObjects:` with the file URLs of `paths`. */
    method WriteObjects(paths: seq<string>) returns (ok: bool)
      modifies this
      ensures ok == rt.writeSucceeds
      ensures pb == (if ok then Written(old(pb), rt, paths) else old(pb))
      ensures history == old(history) + [Wrote(paths)]
      ensures livePools == old(livePools) && drainsSent == old(drainsSent)
    {
      ok := rt.writeSucceeds;
      if ok {
        pb := Written(pb, rt, paths);
      }
      history := history + [Wrote(paths)];
    }
  }

  // ------------------------------------------------- priority selection

  predicate NonEmptyAt<T>(cands: seq<Option<seq<T>>>, k: int) {
    0 <= k < |cands| && cands[k].Some? && cands[k].value != []
  }

  /** The position of the first candidate that is present and non-empty. */
  function FirstNonEmpty<T>(cands: seq<Option<seq<T>>>): (k: Option<nat>)
    ensures k.Some? ==> NonEmptyAt(cands, k.value)
    ensures k.Some? ==> forall j :: 0 <= j < k.value ==> !NonEmptyAt(cands, j)
    ensures k.None? ==> forall j :: 0 <= j < |cands| ==> !NonEmptyAt(cands, j)
  {
    if cands == [] then None
    else if NonEmptyAt(cands, 0) then Some(0)
    else
      var k := FirstNonEmpty(cands[1..]);
      assert forall j :: 1 <= j < |cands| ==> (NonEmptyAt(cands, j) <==> NonEmptyAt(cands[1..], j - 1));
      if k.Some? then Some(k.value + 1) else None
  }

  /** The first candidate that is present and non-empty. */
  function FirstCandidate<T>(cands: seq<Option<seq<T>>>): (r: Option<seq<T>>)
    ensures r.None? <==> forall j :: 0 <= j < |cands| ==> !NonEmptyAt(cands, j)
    ensures r.Some? ==> exists k :: (NonEmptyAt(cands, k) && cands[k].value == r.value &&
      forall j :: 0 <= j < k ==> !NonEmptyAt(cands, j))
  {
    var k := FirstNonEmpty(cands);
    if k.Some? then Some(cands[k.value].value) else None
  }

  /** A non-empty candidate with only empty ones before it is the first one. */
  lemma FirstNonEmptyAt<T>(cands: seq<Option<seq<T>>>, k: nat)
    requires NonEmptyAt(cands, k) && forall j :: 0 <= j < k ==> !NonEmptyAt(cands, j)
    ensures FirstNonEmpty(cands) == Some(k)
  {
  }

  /** Candidates looked at in two runs: the second run matters only when
      the first offers nothing. */
  lemma FirstCandidateConcat<T>(a: seq<Option<seq<T>>>, b: seq<Option<seq<T>>>)
    ensures FirstCandidate(a + b) == if FirstCandidate(a).Some? then FirstCandidate(a) else FirstCandidate(b)
  {
    var c := a + b;
    assert forall j :: 0 <= j < |a| ==> (NonEmptyAt(c, j) <==> NonEmptyAt(a, j));
    assert forall j :: 0 <= j < |b| ==> (NonEmptyAt(c, |a| + j) <==> NonEmptyAt(b, j));
    var ka := FirstNonEmpty(a);
    var kb := FirstNonEmpty(b);
    if ka.Some? {
      FirstNonEmptyAt(c, ka.value);
    } else if kb.Some? {
      forall j | 0 <= j < |a| + kb.value ensures !NonEmptyAt(c, j) {
        if j >= |a| {
          assert NonEmptyAt(c, |a| + (j - |a|)) <==> NonEmptyAt(b, j - |a|);
        }
      }
      assert NonEmptyAt(c, |a| + kb.value) <==> NonEmptyAt(b, kb.value);
      FirstNonEmptyAt(c, |a| + kb.value);
    } else {
      assert forall j :: 0 <= j < |c| ==> !NonEmptyAt(c, j) by {
        forall j | 0 <= j < |c| ensures !NonEmptyAt(c, j) {
          if j >= |a| {
            assert NonEmptyAt(c, |a| + (j - |a|)) <==> NonEmptyAt(b, j - |a|);
          }
        }
      }
    }
  }
}
