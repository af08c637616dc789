/** The per-path resolution both macOS writers run before touching the
    pasteboard's content: canonicalise, take the UTF-8 form, make an
    `NSString`, make a file `NSURL`. Every path is processed, in input order,
    and yields either a URL or an error message; the writers differ in what
    they do with the two lists and in the message for a nil `NSString`. */
module MacPaths {
  import opened Wrappers
  import opened Paths

  /** The message a writer gives when `initWithUTF8String:` returns nil for a
      path: `ObjcUrl::from_path` folds it into the NSURL failure; the two
      loops in `macos.rs` name it, with different prepositions. */
  datatype NilStringWording = AsUrlFailure | FromPath | ForPath

  function NilStringMessage(w: NilStringWording, s: string): string {
    match w
    case AsUrlFailure => "Failed to create NSURL for path: " + s
    case FromPath => "Failed to create NSString from path: " + s
    case ForPath => "Failed to create NSString for path: " + s
  }

  /** The fate of one input path: the canonical path its URL is made from, or
      the message collected for it. */
  function PathOutcome(p: string, resolve: Resolver, nilStrings: set<string>, nilUrls: set<string>,
                       w: NilStringWording): (r: Result<string, string>)
    ensures r.Ok? <==> resolve(p).Resolved? && resolve(p).path !in nilStrings && resolve(p).path !in nilUrls
    ensures r.Ok? ==> r.value == resolve(p).path
  {
    match resolve(p)
    case Unresolvable(e) => Err("Failed to canonicalize path '" + p + "': " + e)
    case NotUnicode(_, debug) => Err("Path contains invalid UTF-8: " + debug)
    case Resolved(s) =>
      if s in nilStrings then Err(NilStringMessage(w, s))
      else if s in nilUrls then Err("Failed to create NSURL for path: " + s)
      else Ok(s)
  }

  function Outcomes(paths: seq<string>, resolve: Resolver, nilStrings: set<string>, nilUrls: set<string>,
                    w: NilStringWording): (r: seq<Result<string, string>>)
    ensures |r| == |paths|
    ensures forall i :: 0 <= i < |paths| ==> r[i] == PathOutcome(paths[i], resolve, nilStrings, nilUrls, w)
  {
    seq(|paths|, i requires 0 <= i < |paths| => PathOutcome(paths[i], resolve, nilStrings, nilUrls, w))
  }

  /** The successes, in order. */
  function Oks(outs: seq<Result<string, string>>): seq<string> {
    if outs == [] then []
    else Oks(outs[..|outs| - 1]) + (if outs[|outs| - 1].Ok? then [outs[|outs| - 1].value] else [])
  }

  /** The error messages, in order. */
  function Errs(outs: seq<Result<string, string>>): seq<string> {
    if outs == [] then []
    else Errs(outs[..|outs| - 1]) + (if outs[|outs| - 1].Err? then [outs[|outs| - 1].error] else [])
  }

  predicate AllOk(outs: seq<Result<string, string>>) {
    forall i :: 0 <= i < |outs| ==> outs[i].Ok?
  }

  /** Every outcome lands in exactly one of the two lists. */
  lemma {:induction false} OksErrsPartition(outs: seq<Result<string, string>>)
    ensures |Oks(outs)| + |Errs(outs)| == |outs|
  {
    if outs != [] {
      OksErrsPartition(outs[..|outs| - 1]);
    }
  }

  /** No message is collected exactly when every path yields a URL, and then
      the URLs are the outcomes' paths, in order. */
  lemma {:induction false} NoErrsIffAllOk(outs: seq<Result<string, string>>)
    ensures Errs(outs) == [] <==> AllOk(outs)
    ensures AllOk(outs) ==> |Oks(outs)| == |outs| && forall i :: 0 <= i < |outs| ==> Oks(outs)[i] == outs[i].value
  {
    if outs != [] {
      var n := |outs| - 1;
      NoErrsIffAllOk(outs[..n]);
      assert AllOk(outs) ==> AllOk(outs[..n]);
      if !outs[n].Ok? {
        assert |Errs(outs)| > 0;
      } else if !AllOk(outs[..n]) {
        var j :| 0 <= j < n && !outs[..n][j].Ok?;
        assert !outs[j].Ok?;
      }
    }
  }

  /** No URL is made exactly when every path yields a message. */
  lemma {:induction false} NoOksIffNoneOk(outs: seq<Result<string, string>>)
    ensures Oks(outs) == [] <==> forall i :: 0 <= i < |outs| ==> outs[i].Err?
  {
    if outs != [] {
      var n := |outs| - 1;
      NoOksIffNoneOk(outs[..n]);
      if outs[n].Ok? {
        assert |Oks(outs)| > 0;
      } else if Oks(outs[..n]) != [] {
        var j :| 0 <= j < n && !outs[..n][j].Err?;
        assert !outs[j].Err?;
      }
    }
  }

  /** A URL is among the successes exactly when some outcome made it. */
  lemma {:induction false} OksMembers(outs: seq<Result<string, string>>, x: string)
    ensures x in Oks(outs) <==> exists i :: 0 <= i < |outs| && outs[i] == Ok(x)
  {
    if outs != [] {
      var n := |outs| - 1;
      OksMembers(outs[..n], x);
      if exists i :: 0 <= i < |outs| && outs[i] == Ok(x) {
        var i :| 0 <= i < |outs| && outs[i] == Ok(x);
        if i < n {
          assert outs[..n][i] == Ok(x);
        }
      }
      if exists i :: 0 <= i < n && outs[..n][i] == Ok(x) {
        var i :| 0 <= i < n && outs[..n][i] == Ok(x);
        assert outs[i] == Ok(x);
      }
    }
  }

  /** Two outcome lists that succeed at the same places with the same URLs
      have the same successes: the wording of the messages does not matter. */
  lemma {:induction false} OksAgree(a: seq<Result<string, string>>, b: seq<Result<string, string>>)
    requires |a| == |b|
    requires forall i :: 0 <= i < |a| ==> a[i].Ok? == b[i].Ok? && (a[i].Ok? ==> a[i].value == b[i].value)
    ensures Oks(a) == Oks(b)
  {
    if a != [] {
      var n := |a| - 1;
      OksAgree(a[..n], b[..n]);
    }
  }

  /** The URLs a writer makes do not depend on its wording of the messages. */
  lemma OksWordingFree(paths: seq<string>, resolve: Resolver, nilStrings: set<string>, nilUrls: set<string>,
                       w1: NilStringWording, w2: NilStringWording)
    ensures Oks(Outcomes(paths, resolve, nilStrings, nilUrls, w1)) == Oks(Outcomes(paths, resolve, nilStrings, nilUrls, w2))
  {
    OksAgree(Outcomes(paths, resolve, nilStrings, nilUrls, w1), Outcomes(paths, resolve, nilStrings, nilUrls, w2));
  }

  /** Every path resolves to a URL exactly when canonicalisation succeeds for
      all of them and no Cocoa object creation fails; the URLs are then those
      of the canonical paths. */
  lemma AllOkIffResolved(paths: seq<string>, resolve: Resolver, nilStrings: set<string>, nilUrls: set<string>,
                         w: NilStringWording)
    ensures var outs := Outcomes(paths, resolve, nilStrings, nilUrls, w);
      AllOk(outs) <==> (AllResolved(paths, resolve) &&
        forall i :: 0 <= i < |paths| ==> resolve(paths[i]).path !in nilStrings && resolve(paths[i]).path !in nilUrls)
    ensures var outs := Outcomes(paths, resolve, nilStrings, nilUrls, w);
      AllOk(outs) ==> Oks(outs) == CanonicalPaths(paths, resolve)
  {
    var outs := Outcomes(paths, resolve, nilStrings, nilUrls, w);
    NoErrsIffAllOk(outs);
  }

  /** When no message is collected, every path canonicalised and the URLs
      are made from the canonical paths, in input order. */
  lemma NoErrsCanonical(paths: seq<string>, resolve: Resolver, nilStrings: set<string>, nilUrls: set<string>,
                        w: NilStringWording)
    requires Errs(Outcomes(paths, resolve, nilStrings, nilUrls, w)) == []
    ensures AllResolved(paths, resolve)
    ensures Oks(Outcomes(paths, resolve, nilStrings, nilUrls, w)) == CanonicalPaths(paths, resolve)
  {
    NoErrsIffAllOk(Outcomes(paths, resolve, nilStrings, nilUrls, w));
    AllOkIffResolved(paths, resolve, nilStrings, nilUrls, w);
  }

  /** The resolution loop of a writer: `urls` and `errors` filled in input order. */
  method CollectUrls(paths: seq<string>, resolve: Resolver, nilStrings: set<string>, nilUrls: set<string>,
                     w: NilStringWording)
    returns (urls: seq<string>, errors: seq<string>)
    ensures urls == Oks(Outcomes(paths, resolve, nilStrings, nilUrls, w))
    ensures errors == Errs(Outcomes(paths, resolve, nilStrings, nilUrls, w))
  {
    urls, errors := [], [];
    var i := 0;
    while i < |paths|
      invariant i <= |paths|
      invariant urls == Oks(Outcomes(paths[..i], resolve, nilStrings, nilUrls, w))
      invariant errors == Errs(Outcomes(paths[..i], resolve, nilStrings, nilUrls, w))
    {
      var o := PathOutcome(paths[i], resolve, nilStrings, nilUrls, w);
      var before := Outcomes(paths[..i], resolve, nilStrings, nilUrls, w);
      var after := Outcomes(paths[..i + 1], resolve, nilStrings, nilUrls, w);
      assert after[..i] == before;
      if o.Ok? {
        urls := urls + [o.value];
      } else {
        errors := errors + [o.error];
      }
      i := i + 1;
    }
    assert paths[..i] == paths;
  }
}
