/** The Linux adapter: every operation runs the `xclip` helper. Writing pipes
    a `text/uri-list` of `file://` URIs to it; reading takes its output as
    text, as raw bytes, or as a URI list to turn back into paths. The helper
    is an oracle: its outcome is a parameter. */
module Linux {
  import opened Wrappers
  import opened Errors
  import opened Text
  import opened Unicode
  import opened Paths

  /** How a reading helper ran: it could not be started, or it finished with
      an exit status and its captured output. */
  datatype HelperOutput =
    | SpawnFailed(error: IoError)
    | Finished(success: bool, stdout: seq<byte>, stderr: seq<byte>)

  /** How the writing helper ran: starting it, writing its input or waiting
      for it failed with an error text, or it exited; `code` is the `{:?}`
      rendering of its exit code. */
  datatype HelperRun =
    | RunFailed(error: string)
    | Exited(success: bool, code: string)

  const UriPrefix: string := "file://"
  const NoTextContent: string := "No text content in clipboard"
  const NoData: string := "No data in clipboard"
  const NoUriContent: string := "No file URI content in clipboard"
  const NoValidFilePaths: string := "No valid file paths found in clipboard"

  function FileUri(path: string): string {
    UriPrefix + path
  }

  /** The `file://` URIs of canonicalised paths. */
  function Uris(paths: seq<string>, resolve: Resolver): (r: seq<string>)
    requires AllCanonical(paths, resolve)
    ensures |r| == |paths|
    ensures forall i :: 0 <= i < |paths| ==> r[i] == FileUri(Display(resolve(paths[i])))
  {
    seq(|paths|, i requires 0 <= i < |paths| && AllCanonical(paths, resolve) => FileUri(Display(resolve(paths[i]))))
  }

  /** One more canonicalised path adds its URI. */
  lemma UrisStep(paths: seq<string>, resolve: Resolver, i: nat)
    requires i < |paths| && AllCanonical(paths[..i], resolve) && !resolve(paths[i]).Unresolvable?
    ensures AllCanonical(paths[..i + 1], resolve)
    ensures Uris(paths[..i + 1], resolve) == Uris(paths[..i], resolve) + [FileUri(Display(resolve(paths[i])))]
  {
    assert forall j :: 0 <= j < i ==> paths[..i + 1][j] == paths[..i][j];
  }

  /** The helper's input: the URIs, one per line. */
  function UriList(paths: seq<string>, resolve: Resolver): string
    requires AllCanonical(paths, resolve)
  {
    Join(Uris(paths, resolve), "\n")
  }

  function HelperOutcome(run: HelperRun): Result<Unit, IoError> {
    match run
    case Exited(true, _) => Ok(Unit)
    case Exited(false, code) => Err(IoError(Other, "xclip command failed with exit code: " + code))
    case RunFailed(e) => Err(IoError(Other, "Failed to execute xclip command: " + e))
  }

  /** `copy_files_to_clipboard`: canonicalises every path, stopping at the
      first failure before the helper is started, then offers the URI list
      to the helper. `offered` is what the helper is given on its input. */
  method CopyFilesToClipboard(paths: seq<string>, resolve: Resolver, helper: HelperRun)
    returns (r: Result<Unit, IoError>, offered: Option<seq<byte>>)
    ensures offered.Some? <==> AllCanonical(paths, resolve)
    ensures offered.Some? ==> offered.value == Utf8Encode(UriList(paths, resolve)) && r == HelperOutcome(helper)
    ensures !AllCanonical(paths, resolve) ==>
      var k := FirstUncanonical(paths, resolve);
      r == Err(IoError(InvalidInput, "Failed to canonicalize path " + paths[k] + ": " + resolve(paths[k]).osError))
  {
    var uriPaths: seq<string> := [];
    var i := 0;
    while i < |paths|
      invariant 0 <= i <= |paths|
      invariant AllCanonical(paths[..i], resolve)
      invariant uriPaths == Uris(paths[..i], resolve)
    {
      var absPath := resolve(paths[i]);
      if absPath.Unresolvable? {
        FirstUncanonicalAt(paths, resolve, i);
        return Err(IoError(InvalidInput, "Failed to canonicalize path " + paths[i] + ": " + absPath.osError)), None;
      }
      UrisStep(paths, resolve, i);
      uriPaths := uriPaths + [FileUri(Display(absPath))];
      i := i + 1;
    }
    assert paths[..i] == paths;
    var joined := Join(uriPaths, "\n");
    offered := Some(Utf8Encode(joined));
    r := HelperOutcome(helper);
  }

  /** `read_clipboard_text`: the helper's output decoded with replacement;
      empty output is reported as an error. */
  function ReadClipboardText(output: HelperOutput): (r: Result<string, IoError>)
    ensures r.Ok? <==> output.Finished? && output.success && output.stdout != []
    ensures r.Ok? ==> r.value == Utf8DecodeLossy(output.stdout) && r.value != []
    ensures output.SpawnFailed? ==> r == Err(output.error)
  {
    match output
    case SpawnFailed(e) => Err(e)
    case Finished(success, stdout, stderr) =>
      if success then
        var text := Utf8DecodeLossy(stdout);
        if text == [] then Err(IoError(Other, NoTextContent)) else Ok(text)
      else Err(IoError(Other, "Failed to read clipboard: " + Utf8DecodeLossy(stderr)))
  }

  /** Text the helper prints is read back unchanged. */
  lemma TextRoundTrip(s: string, stderr: seq<byte>)
    requires s != []
    ensures ReadClipboardText(Finished(true, Utf8Encode(s), stderr)) == Ok(s)
  {
    Utf8RoundTrip(s);
  }

  /** `read_clipboard_raw`: the helper's output bytes as they are. */
  function ReadClipboardRaw(output: HelperOutput): (r: Result<seq<byte>, IoError>)
    ensures r.Ok? <==> output.Finished? && output.success && output.stdout != []
    ensures r.Ok? ==> r.value == output.stdout
    ensures output.SpawnFailed? ==> r == Err(output.error)
  {
    match output
    case SpawnFailed(e) => Err(e)
    case Finished(success, stdout, stderr) =>
      if success then
        if stdout == [] then Err(IoError(Other, NoData)) else Ok(stdout)
      else Err(IoError(Other, "Failed to read clipboard raw data: " + Utf8DecodeLossy(stderr)))
  }

  // ---------------------------------------------------------------- URI lists

  /** What one line of a URI list contributes: the path of a `file://` line
      (every leading repetition of the prefix removed), nothing for blank
      lines, comments and other URIs. */
  function LinePath(line: string): (r: Option<string>)
    ensures r.Some? <==> StartsWith(Trim(line), UriPrefix)
    ensures r.Some? ==> !StartsWith(r.value, UriPrefix)
  {
    var l := Trim(line);
    if l == [] || l[0] == '#' then None
    else if StartsWith(l, UriPrefix) then Some(TrimStartMatches(l, UriPrefix))
    else None
  }

  /** What each line contributes. */
  function LineResults(lines: seq<string>): (r: seq<Option<string>>)
    ensures |r| == |lines|
  {
    seq(|lines|, i requires 0 <= i < |lines| => LinePath(lines[i]))
  }

  /** The present values, in order. */
  function Present(os: seq<Option<string>>): (r: seq<string>)
    ensures |r| <= |os|
  {
    if os == [] then []
    else
      var last := os[|os| - 1];
      Present(os[..|os| - 1]) + (if last.Some? then [last.value] else [])
  }

  /** One more value looked at: kept when present. */
  lemma PresentStep(os: seq<Option<string>>, i: nat)
    requires i < |os|
    ensures Present(os[..i + 1]) == Present(os[..i]) + (if os[i].Some? then [os[i].value] else [])
  {
    assert os[..i + 1][..i] == os[..i];
  }

  /** The paths of a sequence of lines, in order. */
  function LinePaths(lines: seq<string>): seq<string> {
    Present(LineResults(lines))
  }

  /** The paths a URI list names. */
  function ParseUriList(content: string): seq<string> {
    LinePaths(Split(content, '\n'))
  }

  /** `read_clipboard_file_paths`: scans the helper's output line by line. */
  method ReadClipboardFilePaths(output: HelperOutput) returns (r: Result<seq<string>, IoError>)
    ensures output.SpawnFailed? ==> r == Err(output.error)
    ensures output.Finished? && !output.success ==>
      r == Err(IoError(Other, "Failed to read clipboard for file paths: " + Utf8DecodeLossy(output.stderr)))
    ensures output.Finished? && output.success && output.stdout == [] ==> r == Err(IoError(Other, NoUriContent))
    ensures output.Finished? && output.success && output.stdout != [] ==>
      var paths := ParseUriList(Utf8DecodeLossy(output.stdout));
      r == (if paths == [] then Err(IoError(Other, NoValidFilePaths)) else Ok(paths))
  {
    if output.SpawnFailed? {
      return Err(output.error);
    }
    if !output.success {
      return Err(IoError(Other, "Failed to read clipboard for file paths: " + Utf8DecodeLossy(output.stderr)));
    }
    var content := Utf8DecodeLossy(output.stdout);
    if content == [] {
      return Err(IoError(Other, NoUriContent));
    }
    var paths := PathsOfLines(Split(content, '\n'));
    if paths == [] {
      return Err(IoError(Other, NoValidFilePaths));
    }
    return Ok(paths);
  }

  /** The line loop of `read_clipboard_file_paths`: trims each line, skips
      blank lines and comments, and keeps the path of each `file://` URI. */
  method PathsOfLines(lines: seq<string>) returns (paths: seq<string>)
    ensures paths == LinePaths(lines)
  {
    paths := [];
    var i := 0;
    while i < |lines|
      invariant 0 <= i <= |lines|
      invariant paths == Present(LineResults(lines)[..i])
    {
      PresentStep(LineResults(lines), i);
      var line := Trim(lines[i]);
      if line == [] || line[0] == '#' {
        i := i + 1;
        continue;
      }
      if StartsWith(line, UriPrefix) {
        var path := TrimStartMatches(line, UriPrefix);
        paths := paths + [path];
      }
      i := i + 1;
    }
    assert LineResults(lines)[..i] == LineResults(lines);
  }

  /** A path the URI list carries unchanged: absolute, on one line, and not
      ending in whitespace (which the reader trims). */
  predicate PlainPath(p: string) {
    p != [] && p[0] == '/' && '\n' !in p && !IsWhitespace(p[|p| - 1])
  }

  lemma FileUriLine(p: string)
    requires PlainPath(p)
    ensures '\n' !in FileUri(p)
    ensures LinePath(FileUri(p)) == Some(p)
  {
    var u := FileUri(p);
    FileUriEnds(p);
    TrimOfTrimmed(u);
    FileUriStripped(p);
  }

  /** The URI of a plain path is one line, starts with `f` and ends where
      the path ends. */
  lemma FileUriEnds(p: string)
    requires PlainPath(p)
    ensures var u := FileUri(p);
      u != [] && u[0] == 'f' && u[|u| - 1] == p[|p| - 1] && '\n' !in u
  {
    var u := FileUri(p);
    assert u[0] == UriPrefix[0];
    forall k | 0 <= k < |u| ensures u[k] != '\n' {
      if k >= |UriPrefix| {
        assert u[k] == p[k - |UriPrefix|];
      }
    }
  }

  /** Removing the leading `file://` from the URI of a plain path gives the path. */
  lemma FileUriStripped(p: string)
    requires PlainPath(p)
    ensures StartsWith(FileUri(p), UriPrefix) && TrimStartMatches(FileUri(p), UriPrefix) == p
  {
    var u := FileUri(p);
    assert u[..|UriPrefix|] == UriPrefix;
    assert u[|UriPrefix|..] == p;
    assert !StartsWith(p, UriPrefix) by {
      if |UriPrefix| <= |p| {
        assert p[..|UriPrefix|][0] == p[0];
      }
    }
  }

  /** The reader recovers the paths of a URI list the writer produced. */
  lemma {:induction false} UriListRoundTrip(ps: seq<string>)
    requires |ps| >= 1
    requires forall i :: 0 <= i < |ps| ==> PlainPath(ps[i])
    ensures ParseUriList(Join(FileUris(ps), "\n")) == ps
  {
    var us := FileUris(ps);
    forall i | 0 <= i < |us| ensures '\n' !in us[i] && LinePath(us[i]) == Some(ps[i]) {
      FileUriLine(ps[i]);
    }
    SplitJoin(us, '\n');
    PresentAll(LineResults(us), ps);
  }

  function FileUris(ps: seq<string>): (r: seq<string>)
    ensures |r| == |ps|
    ensures forall i :: 0 <= i < |ps| ==> r[i] == FileUri(ps[i])
  {
    if ps == [] then [] else [FileUri(ps[0])] + FileUris(ps[1..])
  }

  /** When every value is present, all of them are kept, in order. */
  lemma {:induction false} PresentAll(os: seq<Option<string>>, ps: seq<string>)
    requires |os| == |ps|
    requires forall i :: 0 <= i < |os| ==> os[i] == Some(ps[i])
    ensures Present(os) == ps
  {
    if os != [] {
      var n := |os| - 1;
      assert forall i :: 0 <= i < n ==> os[..n][i] == os[i] && ps[..n][i] == ps[i];
      PresentAll(os[..n], ps[..n]);
      assert ps == ps[..n] + [ps[n]];
    }
  }

  /** Writing canonical paths and reading the clipboard back, through the
      helper's bytes, yields the canonical paths. */
  lemma WriteReadRoundTrip(paths: seq<string>, resolve: Resolver)
    requires |paths| >= 1 && AllResolved(paths, resolve)
    requires forall i :: 0 <= i < |paths| ==> PlainPath(resolve(paths[i]).path)
    ensures AllCanonical(paths, resolve)
    ensures ParseUriList(Utf8DecodeLossy(Utf8Encode(UriList(paths, resolve)))) == CanonicalPaths(paths, resolve)
  {
    var cs := CanonicalPaths(paths, resolve);
    UrisOfResolved(paths, resolve);
    UriListRoundTrip(cs);
    ParseAfterTransport(UriList(paths, resolve), cs);
  }

  /** Passing text through the helper's bytes does not change what it names. */
  lemma ParseAfterTransport(u: string, cs: seq<string>)
    requires ParseUriList(u) == cs
    ensures ParseUriList(Utf8DecodeLossy(Utf8Encode(u))) == cs
  {
    Utf8RoundTrip(u);
  }

  lemma UrisOfResolved(paths: seq<string>, resolve: Resolver)
    requires AllResolved(paths, resolve)
    ensures AllCanonical(paths, resolve)
    ensures Uris(paths, resolve) == FileUris(CanonicalPaths(paths, resolve))
  {
    var cs := CanonicalPaths(paths, resolve);
    forall i | 0 <= i < |paths| ensures Uris(paths, resolve)[i] == FileUris(cs)[i] {
      assert Display(resolve(paths[i])) == cs[i];
    }
  }
}
