/** The ordered set of (path, seqnum) pairs, std::set in the source: its sorted contents, with
    upper_bound, insertion and erasure. */
module EventPaths {
  import opened Strings

  datatype PathKey = PathKey(path: string, seqnum: int)

  /** std::pair's operator<. */
  predicate KeyLess(a: PathKey, b: PathKey) {
    LexLess(a.path, b.path) || (a.path == b.path && a.seqnum < b.seqnum)
  }

  predicate Sorted(s: seq<PathKey>) {
    forall i, j :: 0 <= i < j < |s| ==> KeyLess(s[i], s[j])
  }

  lemma KeyIrreflexive(a: PathKey)
    ensures !KeyLess(a, a)
  {
    LexIrreflexive(a.path);
  }

  lemma KeyTransitive(a: PathKey, b: PathKey, c: PathKey)
    requires KeyLess(a, b) && KeyLess(b, c)
    ensures KeyLess(a, c)
  {
    if LexLess(a.path, b.path) && LexLess(b.path, c.path) {
      LexTransitive(a.path, b.path, c.path);
    }
  }

  lemma KeyTotal(a: PathKey, b: PathKey)
    ensures KeyLess(a, b) || a == b || KeyLess(b, a)
  {
    LexTotal(a.path, b.path);
  }

  /** upper_bound: the index of the first element greater than key. */
  function UpperBound(s: seq<PathKey>, key: PathKey): (k: nat)
    requires Sorted(s)
    ensures k <= |s|
    ensures forall i :: 0 <= i < k ==> !KeyLess(key, s[i])
    ensures forall i :: k <= i < |s| ==> KeyLess(key, s[i])
  {
    if s == [] then 0
    else if KeyLess(key, s[|s| - 1]) then UpperBound(s[..|s| - 1], key)
    else
      assert forall i :: 0 <= i < |s| - 1 ==> !KeyLess(key, s[i]) by {
        forall i | 0 <= i < |s| - 1 ensures !KeyLess(key, s[i]) {
          if KeyLess(key, s[i]) {
            KeyTransitive(key, s[i], s[|s| - 1]);
          }
        }
      }
      |s|
  }

  /** insert of a key that is not in the set. */
  function Insert(s: seq<PathKey>, key: PathKey): (r: seq<PathKey>)
    requires Sorted(s) && key !in s
    ensures Sorted(r)
    ensures forall k :: k in r <==> k in s || k == key
  {
    var at := UpperBound(s, key);
    var r := s[..at] + [key] + s[at..];
    assert Sorted(r) by {
      forall i | 0 <= i < at ensures KeyLess(s[i], key) {
        KeyTotal(s[i], key);
      }
    }
    assert forall k :: k in s <==> k in s[..at] || k in s[at..] by {
      assert s == s[..at] + s[at..];
    }
    r
  }

  function Erase(s: seq<PathKey>, key: PathKey): (r: seq<PathKey>)
    requires Sorted(s)
    ensures Sorted(r)
    ensures forall k :: k in r <==> k in s && k != key
  {
    if s == [] then []
    else
      var rest := Erase(s[1..], key);
      assert forall k :: k in s <==> k == s[0] || k in s[1..];
      if s[0] == key then
        assert key !in s[1..] by {
          KeyIrreflexive(key);
        }
        rest
      else
        assert forall k :: k in rest ==> KeyLess(s[0], k);
        [s[0]] + rest
  }
}
