/** The filesystem as the path resolvers see it: `Path::canonicalize` followed
    by `to_str`, an oracle the adapters consult once per input path. */
module Paths {

  /** What canonicalising one input path yields. */
  datatype Canonical =
    | Resolved(path: string)
      // canonicalised and valid Unicode: `to_str` gives `path`
    | NotUnicode(display: string, debug: string)
      // canonicalised, but `to_str` fails; `display` is the lossy `Path::display`
      // rendering and `debug` the `{:?}` rendering
    | Unresolvable(osError: string)
      // `canonicalize` failed with this OS error text

  /** The filesystem, as a total function from input strings to outcomes. */
  type Resolver = string -> Canonical

  predicate AllResolved(paths: seq<string>, resolve: Resolver) {
    forall i :: 0 <= i < |paths| ==> resolve(paths[i]).Resolved?
  }

  /** The canonical strings of paths that all resolve, in input order. */
  function CanonicalPaths(paths: seq<string>, resolve: Resolver): (r: seq<string>)
    requires AllResolved(paths, resolve)
    ensures |r| == |paths|
    ensures forall i :: 0 <= i < |paths| ==> r[i] == resolve(paths[i]).path
  {
    seq(|paths|, i requires 0 <= i < |paths| && AllResolved(paths, resolve) => resolve(paths[i]).path)
  }

  /** The index of the first path that does not canonicalise to valid Unicode. */
  function FirstUnresolved(paths: seq<string>, resolve: Resolver): (k: nat)
    requires !AllResolved(paths, resolve)
    ensures k < |paths| && !resolve(paths[k]).Resolved?
    ensures AllResolved(paths[..k], resolve)
  {
    if !resolve(paths[0]).Resolved? then 0
    else
      var k := 1 + FirstUnresolved(paths[1..], resolve);
      assert forall i :: 1 <= i < k ==> paths[..k][i] == paths[1..][..k - 1][i - 1];
      k
  }

  /** A path that fails right after a resolved prefix is the first failure. */
  lemma FirstUnresolvedAt(paths: seq<string>, resolve: Resolver, i: nat)
    requires i < |paths| && AllResolved(paths[..i], resolve) && !resolve(paths[i]).Resolved?
    ensures !AllResolved(paths, resolve) && FirstUnresolved(paths, resolve) == i
  {
    var k := FirstUnresolved(paths, resolve);
    assert forall j :: 0 <= j < i ==> paths[..i][j] == paths[j];
    assert forall j :: 0 <= j < k ==> paths[..k][j] == paths[j];
  }

  lemma ResolvedPrefix(paths: seq<string>, resolve: Resolver, i: nat)
    requires i < |paths| && AllResolved(paths[..i], resolve) && resolve(paths[i]).Resolved?
    ensures AllResolved(paths[..i + 1], resolve)
  {
    assert forall j :: 0 <= j < i ==> paths[..i + 1][j] == paths[..i][j];
  }

  /** Canonicalisation succeeded, whether or not the result is valid Unicode. */
  predicate AllCanonical(paths: seq<string>, resolve: Resolver) {
    forall i :: 0 <= i < |paths| ==> !resolve(paths[i]).Unresolvable?
  }

  /** The index of the first path that does not canonicalise. */
  function FirstUncanonical(paths: seq<string>, resolve: Resolver): (k: nat)
    requires !AllCanonical(paths, resolve)
    ensures k < |paths| && resolve(paths[k]).Unresolvable?
    ensures AllCanonical(paths[..k], resolve)
  {
    if resolve(paths[0]).Unresolvable? then 0
    else
      var k := 1 + FirstUncanonical(paths[1..], resolve);
      assert forall i :: 1 <= i < k ==> paths[..k][i] == paths[1..][..k - 1][i - 1];
      k
  }

  lemma FirstUncanonicalAt(paths: seq<string>, resolve: Resolver, i: nat)
    requires i < |paths| && AllCanonical(paths[..i], resolve) && resolve(paths[i]).Unresolvable?
    ensures !AllCanonical(paths, resolve) && FirstUncanonical(paths, resolve) == i
  {
    var k := FirstUncanonical(paths, resolve);
    assert forall j :: 0 <= j < i ==> paths[..i][j] == paths[j];
    assert forall j :: 0 <= j < k ==> paths[..k][j] == paths[j];
  }

  /** `Path::display` of a canonical path. */
  function Display(c: Canonical): string
    requires !c.Unresolvable?
  {
    match c
    case Resolved(p) => p
    case NotUnicode(d, _) => d
  }
}
