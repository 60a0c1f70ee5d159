/** dirname() of POSIX.1-2017 System Interfaces, on every string, and the chain of names that
    repeated calls visit. */
module PosixPath {

  function StripTrailingSlashes(p: string): (r: string)
    ensures |r| <= |p| && r <= p
    ensures r != "" ==> r[|r| - 1] != '/'
  {
    if p != "" && p[|p| - 1] == '/' then StripTrailingSlashes(p[..|p| - 1]) else p
  }

  /** p up to and including its last slash; "" when it has none. */
  function UpToLastSlash(p: string): (r: string)
    ensures |r| <= |p| && r <= p
    ensures r != "" ==> r[|r| - 1] == '/'
    ensures forall i :: |r| <= i < |p| ==> p[i] != '/'
  {
    if p == "" || p[|p| - 1] == '/' then p else UpToLastSlash(p[..|p| - 1])
  }

  predicate Terminal(p: string) {
    p == "/" || p == "."
  }

  function Dirname(p: string): (d: string)
    ensures Terminal(d) || (d <= p && |d| < |p|)
  {
    var trimmed := StripTrailingSlashes(p);
    if trimmed == "" then
      if p == "" then "." else "/"
    else
      var head := UpToLastSlash(trimmed);
      if head == "" then "."
      else
        var parent := StripTrailingSlashes(head);
        if parent == "" then "/" else parent
  }

  function PathMeasure(p: string): nat {
    if Terminal(p) then 0 else |p| + 1
  }

  /** a is one of p, Dirname(p), Dirname(Dirname(p)), ... before the walk reaches "/" or ".". */
  predicate AncestorOrSelf(a: string, p: string)
    decreases PathMeasure(p)
  {
    !Terminal(p) && (a == p || AncestorOrSelf(a, Dirname(p)))
  }

  /** Every name on the walk is a string prefix of where it started. */
  lemma {:induction false} AncestorIsPrefix(a: string, p: string)
    requires AncestorOrSelf(a, p)
    ensures a <= p && !Terminal(a)
    decreases PathMeasure(p)
  {
    if a == p {
    } else {
      AncestorIsPrefix(a, Dirname(p));
    }
  }

  /** The walk goes on at Dirname until it reaches "/" or ".". */
  lemma {:induction false} WalkStep(a: string, p: string)
    requires AncestorOrSelf(a, p)
    ensures Terminal(Dirname(a)) || AncestorOrSelf(Dirname(a), p)
    decreases PathMeasure(p)
  {
    if a != p {
      WalkStep(a, Dirname(p));
    } else if !Terminal(Dirname(a)) {
      assert AncestorOrSelf(Dirname(a), Dirname(p));
    }
  }

  /** The walk is a chain: of two names on it, one is on the walk from the other. */
  lemma {:induction false} AncestorsComparable(a: string, b: string, p: string)
    requires AncestorOrSelf(a, p) && AncestorOrSelf(b, p)
    ensures AncestorOrSelf(a, b) || AncestorOrSelf(b, a)
    decreases PathMeasure(p)
  {
    if a == p || b == p {
    } else {
      AncestorsComparable(a, b, Dirname(p));
    }
  }

  /** An absolute path without empty components or a trailing slash, other than "/". */
  predicate Normalised(p: string) {
    && |p| > 1 && p[0] == '/' && p[|p| - 1] != '/'
    && forall i :: 0 <= i < |p| - 1 ==> !(p[i] == '/' && p[i + 1] == '/')
  }

  lemma NormalisedDirname(p: string)
    requires Normalised(p)
    ensures var head := UpToLastSlash(p);
            && |head| >= 1
            && (|head| == 1 ==> Dirname(p) == "/")
            && (|head| > 1 ==> Dirname(p) == p[..|head| - 1] && Normalised(Dirname(p)))
  {
    var head := UpToLastSlash(p);
    assert StripTrailingSlashes(p) == p;
    if |head| > 1 {
      var parent := head[..|head| - 1];
      assert p[|head| - 2 + 1] == '/' && parent[|parent| - 1] == p[|head| - 2];
      assert StripTrailingSlashes(parent) == parent;
      assert StripTrailingSlashes(head) == parent;
      forall i | 0 <= i < |parent| - 1 ensures !(parent[i] == '/' && parent[i + 1] == '/') {
        assert parent[i] == p[i] && parent[i + 1] == p[i + 1];
      }
    } else {
      assert head == "/";
      assert StripTrailingSlashes(head[..0]) == "";
    }
  }

  /** On normalised paths the walk is exactly the path itself and its proper '/'-prefixes, the
      ancestor devices the scheduler documents. */
  lemma {:induction false} AncestorIffSlashPrefix(a: string, p: string)
    requires Normalised(p)
    ensures AncestorOrSelf(a, p) <==> a == p || (a != "" && |a| < |p| && a <= p && p[|a|] == '/')
    decreases |p|
  {
    NormalisedDirname(p);
    var head := UpToLastSlash(p);
    if |head| > 1 {
      var d := Dirname(p);
      AncestorIffSlashPrefix(a, d);
      if a != p && a != "" && |a| < |p| && a <= p && p[|a|] == '/' {
        assert |a| < |head|;
        if |a| < |d| {
          assert a <= d && d[|a|] == p[|a|];
        }
      }
    }
  }
}
