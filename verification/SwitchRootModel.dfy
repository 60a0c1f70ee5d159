/** Moving every mount below a new root and the new root onto "/": when the namespace survives. */
module SwitchRootModel {
  import opened Wrappers

  /** The absolute path of each mount, in the order of /proc/mounts. */
  type MountTable = seq<string>

  predicate Under(p: string, q: string) {
    q == p || p + "/" <= q
  }

  predicate Comparable(p: string, q: string) {
    Under(p, q) || Under(q, p)
  }

  /** One mount per path, all absolute; the new root is a mount. */
  predicate TableOk(t: MountTable, root: string) {
    && (forall i, j :: 0 <= i < j < |t| ==> t[i] != t[j])
    && (forall i :: 0 <= i < |t| ==> t[i] != "" && t[i][0] == '/')
    && root in t && |root| > 1
  }

  /** Neither the old nor the new root. */
  predicate Ordinary(p: string, root: string) {
    p != "/" && p != root
  }

  // GetMounts

  predicate Blocked(chosen: seq<string>, p: string) {
    exists i :: 0 <= i < |chosen| && chosen[i] <= p
  }

  function Chosen(t: MountTable, root: string): seq<string>
    decreases |t|
  {
    if t == [] then []
    else
      var before, p := Chosen(t[..|t| - 1], root), t[|t| - 1];
      if !Ordinary(p, root) || Blocked(before, p) then before else before + [p]
  }

  // Moving

  /** MS_MOVE of the mount at from, with everything below it. It fails when nothing is mounted there or
      when the target lies inside. A move that would bury another mount is counted as a failure too: that
      mount could no longer be reached by its path. */
  function Moved(t: MountTable, from: string, to: string): Option<MountTable> {
    if from !in t || Under(from, to) || Buries(t, from, to) then None
    else Some(seq(|t|, i requires 0 <= i < |t| => if Under(from, t[i]) then to + t[i][|from|..] else t[i]))
  }

  predicate Buries(t: MountTable, from: string, to: string) {
    exists i :: 0 <= i < |t| && !Under(from, t[i]) && Under(to, t[i])
  }

  /** The table after the first n moves. */
  function After(t: MountTable, moves: seq<string>, n: nat, root: string): Option<MountTable>
    requires n <= |moves|
    decreases n
  {
    if n == 0 then Some(t)
    else
      var before := After(t, moves, n - 1, root);
      if before.None? then None else Moved(before.value, moves[n - 1], root + moves[n - 1])
  }

  /** The path of a mount once the new root is moved onto "/": mounts elsewhere are out of reach. */
  function Seen(p: string, root: string): Option<string> {
    if p == root then Some("/") else if root + "/" <= p then Some(p[|root|..]) else None
  }

  /** After all moves every mount but the old root has its old path, and the new root is "/". */
  ghost predicate Preserved(t: MountTable, moves: seq<string>, root: string) {
    var r := After(t, moves, |moves|, root);
    && r.Some? && |r.value| == |t|
    && forall i :: 0 <= i < |t| && t[i] != "/" ==> Seen(r.value[i], root) == Some(if t[i] == root then "/" else t[i])
  }

  // The condition

  ghost predicate Covers(moves: seq<string>, n: nat, p: string)
    requires n <= |moves|
  {
    exists i :: 0 <= i < n && Under(moves[i], p)
  }

  ghost predicate AllCovered(t: MountTable, moves: seq<string>, root: string) {
    forall i :: 0 <= i < |t| && Ordinary(t[i], root) ==> Covers(moves, |moves|, t[i])
  }

  predicate NotAbove(moves: seq<string>, j: nat, i: nat)
    requires i < |moves| && j < |moves|
  {
    !Under(moves[j], moves[i])
  }

  predicate ParentsFirst(moves: seq<string>) {
    forall i: nat, j: nat :: i < j < |moves| ==> NotAbove(moves, j, i)
  }

  predicate Apart(moves: seq<string>, root: string, i: nat, j: nat)
    requires i < |moves| && j < |moves|
  {
    !Comparable(root + moves[i], moves[j])
  }

  /** No mount is moved onto, above or below the place of one that is still to be moved, or into itself. */
  predicate NoClash(moves: seq<string>, root: string) {
    forall i: nat, j: nat :: i <= j < |moves| ==> Apart(moves, root, i, j)
  }

  predicate NoPrefix(moves: seq<string>, i: nat, j: nat)
    requires i < |moves| && j < |moves|
  {
    !(moves[i] <= moves[j])
  }

  /** What GetMounts guarantees of its result. */
  predicate MovesOk(t: MountTable, moves: seq<string>, root: string) {
    && (forall i :: 0 <= i < |moves| ==> moves[i] in t && Ordinary(moves[i], root))
    && (forall i: nat, j: nat :: i < j < |moves| ==> NoPrefix(moves, i, j))
  }

  // Paths

  lemma UnderTransitive(p: string, q: string, r: string)
    requires Under(p, q) && Under(q, r)
    ensures Under(p, r)
  {
  }

  lemma CommonDescendant(p: string, q: string, r: string)
    requires Under(p, r) && Under(q, r)
    ensures Comparable(p, q)
  {
    assert p == r[..|p|] && q == r[..|q|];
    if |p| < |q| {
      assert p + "/" == r[..|p| + 1] == q[..|p| + 1];
    } else if |q| < |p| {
      assert q + "/" == r[..|q| + 1] == p[..|q| + 1];
    }
  }

  lemma UnderRoot(root: string, p: string, q: string)
    ensures Under(root + p, root + q) <==> Under(p, q)
  {
    assert (root + q)[|root|..] == q;
    if Under(p, q) && p != q {
      assert root + p + "/" == root + (p + "/");
      assert root + (p + "/") == (root + q)[..|root + p| + 1];
    }
    if Under(root + p, root + q) && root + p != root + q {
      assert root + p + "/" == root + (p + "/") == (root + q)[..|root + p| + 1];
      assert p + "/" == q[..|p| + 1];
    }
    if root + p == root + q {
      assert (root + p)[|root|..] == p;
    }
  }

  lemma BelowRoot(root: string, p: string)
    requires p != "" && p[0] == '/'
    ensures Under(root, root + p)
    ensures Seen(root + p, root) == Some(p)
  {
    assert root + "/" == (root + p)[..|root| + 1];
    assert (root + p)[|root|..] == p;
  }

  lemma MovedPath(root: string, from: string, p: string)
    requires Under(from, p)
    ensures (root + from) + p[|from|..] == root + p
  {
    assert p == from + p[|from|..];
  }
}
