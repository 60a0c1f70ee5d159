/** What mounting an fstab does: runs of entries with one mount point, the candidates tried in each, and the
    runs visited. */
module MountExecution {
  import opened MountTypes

  datatype Action =
    | CreateMountPoint(path: string)
    | Mount(entry: FstabEntry)
    | SwitchRoot(path: string)
    | MountOverlay(entry: FstabEntry)
    | ReadRootEntry
    | OverlayAll

  type Trace = seq<Action>

  /** The system's answer to the last action, which may depend on everything done before. */
  type World = Trace -> bool

  type Fstab = seq<FstabEntry>

  predicate Skipped(e: FstabEntry) {
    e.mountPoint == "/system" || e.fsType == "overlay" || e.fsType == "emmc"
  }

  predicate Forgiven(e: FstabEntry) {
    e.noFail || e.formattable
  }

  // Runs

  /** The first index from j on whose entry is not for the given mount point. */
  function SameUntil(fstab: Fstab, j: nat, point: string): (end: nat)
    requires j <= |fstab|
    ensures j <= end <= |fstab|
    ensures forall i :: j <= i < end ==> fstab[i].mountPoint == point
    ensures end < |fstab| ==> fstab[end].mountPoint != point
    decreases |fstab| - j
  {
    if j == |fstab| || fstab[j].mountPoint != point then j else SameUntil(fstab, j + 1, point)
  }

  function RunEnd(fstab: Fstab, begin: nat): (end: nat)
    requires begin < |fstab|
    ensures begin < end <= |fstab|
    ensures forall i :: begin <= i < end ==> fstab[i].mountPoint == fstab[begin].mountPoint
    ensures end < |fstab| ==> fstab[end].mountPoint != fstab[begin].mountPoint
  {
    SameUntil(fstab, begin + 1, fstab[begin].mountPoint)
  }

  /** The entries of [lo, hi) with the device of the entry at begin. */
  function Retargeted(fstab: Fstab, begin: nat, hi: nat): (r: Fstab)
    requires begin < hi <= |fstab|
    ensures |r| == |fstab|
    ensures forall i :: 0 <= i < |fstab| ==>
              r[i] == if begin < i < hi then fstab[i].(blkDevice := fstab[begin].blkDevice) else fstab[i]
  {
    seq(|fstab|, i requires 0 <= i < |fstab| =>
      if begin < i < hi then fstab[i].(blkDevice := fstab[begin].blkDevice) else fstab[i])
  }

  /** The candidates of the run from begin on, as they would be tried. */
  function CandidatesAt(fstab: Fstab, begin: nat): (c: Fstab)
    requires begin < |fstab|
    ensures |c| == RunEnd(fstab, begin) - begin
  {
    Retargeted(fstab, begin, RunEnd(fstab, begin))[begin..RunEnd(fstab, begin)]
  }

  function Mounts(c: Fstab): (t: Trace)
    ensures |t| == |c| && forall i :: 0 <= i < |c| ==> t[i] == Mount(c[i])
  {
    seq(|c|, i requires 0 <= i < |c| => Mount(c[i]))
  }

  /** How many candidates are tried: up to the first that mounts. */
  function Tried(c: Fstab, n: nat, t: Trace, w: World): (r: nat)
    requires n <= |c|
    ensures n <= r <= |c|
    ensures forall m :: n < m < r ==> !w(t + Mounts(c[..m]))
    ensures n < |c| ==> n < r
    ensures n < r < |c| ==> w(t + Mounts(c[..r]))
    decreases |c| - n
  {
    if n == |c| then n else if w(t + Mounts(c[..n + 1])) then n + 1 else Tried(c, n + 1, t, w)
  }

  // Visits

  datatype Visit = Visit(begin: nat, end: nat, created: bool, tried: nat, mounted: bool)

  datatype Visited = Visited(visit: Visit, fstab: Fstab, trace: Trace)

  /** MountPartition */
  function VisitAt(fstab: Fstab, begin: nat, t: Trace, w: World): (r: Visited)
    requires begin < |fstab|
    ensures |r.fstab| == |fstab| && begin < r.visit.end <= |fstab|
  {
    var t1 := t + [CreateMountPoint(fstab[begin].mountPoint)];
    if !w(t1) then
      Visited(Visit(begin, begin + 1, false, 0, false), fstab, t1)
    else
      var c := CandidatesAt(fstab, begin);
      var n := Tried(c, 0, t1, w);
      var t2 := t1 + Mounts(c[..n]);
      Visited(Visit(begin, RunEnd(fstab, begin), true, n, w(t2)), Retargeted(fstab, begin, begin + n), t2)
  }

  datatype Pass = Pass(fstab: Fstab, trace: Trace, ok: bool, visits: seq<Visit>)

  /** The loop of MountPartitions from index i on. */
  function PassFrom(fstab: Fstab, i: nat, t: Trace, w: World): (r: Pass)
    requires i <= |fstab|
    ensures |r.fstab| == |fstab|
    decreases |fstab| - i
  {
    if i == |fstab| then Pass(fstab, t, true, [])
    else if Skipped(fstab[i]) then PassFrom(fstab, i + 1, t, w)
    else
      var v := VisitAt(fstab, i, t, w);
      if !v.visit.mounted && !Forgiven(fstab[i]) then Pass(v.fstab, v.trace, false, [v.visit])
      else
        var rest := PassFrom(v.fstab, v.visit.end, v.trace, w);
        rest.(visits := [v.visit] + rest.visits)
  }

  /** The first entry for /system, or the length. */
  function SystemAt(fstab: Fstab, i: nat): (r: nat)
    requires i <= |fstab|
    ensures i <= r <= |fstab| && (forall j :: i <= j < r ==> fstab[j].mountPoint != "/system")
    ensures r < |fstab| ==> fstab[r].mountPoint == "/system"
    decreases |fstab| - i
  {
    if i == |fstab| || fstab[i].mountPoint == "/system" then i else SystemAt(fstab, i + 1)
  }

  /** TrySwitchSystemAsRoot: ok, and the fstab and trace after it. */
  function SystemFirst(fstab: Fstab, t: Trace, w: World): (r: Pass)
    ensures |r.fstab| == |fstab|
  {
    var at := SystemAt(fstab, 0);
    if at == |fstab| then Pass(fstab, t, true, [])
    else
      var v := VisitAt(fstab, at, t, w);
      Pass(v.fstab, if v.visit.mounted then v.trace + [SwitchRoot("/system")] else v.trace, v.visit.mounted, [v.visit])
  }

  /** Both passes over the fstab; visits are those of the second. */
  function MountAll(fstab: Fstab, t: Trace, w: World): (r: Pass)
    ensures |r.fstab| == |fstab|
  {
    var first := SystemFirst(fstab, t, w);
    if !first.ok then first.(visits := []) else PassFrom(first.fstab, 0, first.trace, w)
  }

  // Properties

  /** Equal but for devices. */
  predicate SameShape(f: Fstab, g: Fstab) {
    |f| == |g| && forall i :: 0 <= i < |f| ==> f[i].(blkDevice := "") == g[i].(blkDevice := "")
  }

  lemma ShapeFacts(f: Fstab, g: Fstab, i: nat)
    requires SameShape(f, g) && i < |f|
    ensures f[i].mountPoint == g[i].mountPoint && Skipped(f[i]) == Skipped(g[i]) && Forgiven(f[i]) == Forgiven(g[i])
  {
    assert f[i].(blkDevice := "").mountPoint == g[i].(blkDevice := "").mountPoint;
    assert f[i].(blkDevice := "").fsType == g[i].(blkDevice := "").fsType;
    assert f[i].(blkDevice := "").noFail == g[i].(blkDevice := "").noFail;
    assert f[i].(blkDevice := "").formattable == g[i].(blkDevice := "").formattable;
  }

  lemma RunEndShape(f: Fstab, g: Fstab, begin: nat)
    requires SameShape(f, g) && begin < |f|
    ensures RunEnd(f, begin) == RunEnd(g, begin)
  {
    forall i | 0 <= i < |f|
      ensures f[i].mountPoint == g[i].mountPoint
    {
      ShapeFacts(f, g, i);
    }
  }

  /** A visit tries the candidates of its run in order, each once, up to the first that mounts: all but the
      last fail, so at most one mounts, and none is left out when none mounts. */
  lemma VisitTriesInOrder(fstab: Fstab, begin: nat, t: Trace, w: World)
    requires begin < |fstab|
    ensures var r := VisitAt(fstab, begin, t, w); var c := CandidatesAt(fstab, begin);
            var t1 := t + [CreateMountPoint(fstab[begin].mountPoint)];
            && r.visit.begin == begin && r.visit.created == w(t1) && r.visit.tried <= |c|
            && r.trace == t1 + Mounts(c[..r.visit.tried])
            && (forall m :: 0 < m < r.visit.tried ==> !w(t1 + Mounts(c[..m])))
            && (r.visit.mounted <==> 0 < r.visit.tried && w(t1 + Mounts(c[..r.visit.tried])))
            && (r.visit.created && !r.visit.mounted ==> r.visit.tried == |c|)
            && (r.visit.end == if r.visit.created then RunEnd(fstab, begin) else begin + 1)
            && SameShape(fstab, r.fstab)
  {
  }

  predicate AllSkipped(fstab: Fstab, lo: nat, hi: nat)
    requires hi <= |fstab|
  {
    forall i :: lo <= i < hi ==> Skipped(fstab[i])
  }

  /** Visits start at entries that are not skipped, and between two visits only skipped entries lie. */
  predicate Tiled(fstab: Fstab, i: nat, visits: seq<Visit>)
    requires i <= |fstab|
    decreases |visits|
  {
    if visits == [] then true
    else
      var v := visits[0];
      && i <= v.begin < |fstab| && AllSkipped(fstab, i, v.begin) && !Skipped(fstab[v.begin])
      && v.end == (if v.created then RunEnd(fstab, v.begin) else v.begin + 1)
      && (v.mounted ==> v.created)
      && Tiled(fstab, v.end, visits[1..])
  }

  function LastEnd(i: nat, visits: seq<Visit>): nat {
    if visits == [] then i else visits[|visits| - 1].end
  }

  predicate Acceptable(fstab: Fstab, v: Visit) {
    v.begin < |fstab| && (v.mounted || fstab[v.begin].noFail || fstab[v.begin].formattable)
  }

  lemma {:induction false} TiledShape(f: Fstab, g: Fstab, i: nat, visits: seq<Visit>)
    requires SameShape(f, g) && i <= |f| && Tiled(f, i, visits)
    ensures Tiled(g, i, visits)
    decreases |visits|
  {
    if visits == [] {
    } else {
      forall j | 0 <= j < |f|
        ensures Skipped(f[j]) == Skipped(g[j])
      {
        ShapeFacts(f, g, j);
      }
      RunEndShape(f, g, visits[0].begin);
      TiledShape(f, g, visits[0].end, visits[1..]);
    }
  }

  ghost predicate PassMeans(fstab: Fstab, i: nat, r: Pass)
    requires i <= |fstab|
  {
    && SameShape(fstab, r.fstab)
    && Tiled(fstab, i, r.visits)
    && (r.ok <==> forall n :: 0 <= n < |r.visits| ==> Acceptable(fstab, r.visits[n]))
    && (r.ok ==> LastEnd(i, r.visits) <= |fstab| && AllSkipped(fstab, LastEnd(i, r.visits), |fstab|))
    && (forall n :: 0 <= n < |r.visits| - 1 ==> Acceptable(fstab, r.visits[n]))
  }

  /** A pass ends well exactly when every visit mounts or is forgiven, it stops at the first that is not, and
      when it ends well it has left out nothing but skipped entries. */
  lemma {:induction false} PassVisitsAll(fstab: Fstab, i: nat, t: Trace, w: World)
    requires i <= |fstab|
    ensures PassMeans(fstab, i, PassFrom(fstab, i, t, w))
    decreases |fstab| - i
  {
    if i == |fstab| {
    } else if Skipped(fstab[i]) {
      PassVisitsAll(fstab, i + 1, t, w);
      PassSkips(fstab, i, PassFrom(fstab, i + 1, t, w));
    } else {
      var v := VisitAt(fstab, i, t, w);
      VisitTriesInOrder(fstab, i, t, w);
      if v.visit.mounted || Forgiven(fstab[i]) {
        var rest := PassFrom(v.fstab, v.visit.end, v.trace, w);
        PassVisitsAll(v.fstab, v.visit.end, v.trace, w);
        PassVisits(fstab, v, rest);
      } else {
        PassStops(fstab, i, v);
      }
    }
  }

  lemma PassStops(fstab: Fstab, i: nat, v: Visited)
    requires i < |fstab| && v.visit.begin == i && !Skipped(fstab[i]) && !v.visit.mounted && !Forgiven(fstab[i])
    requires v.visit.end == if v.visit.created then RunEnd(fstab, i) else i + 1
    requires SameShape(fstab, v.fstab)
    ensures PassMeans(fstab, i, Pass(v.fstab, v.trace, false, [v.visit]))
  {
    var visits := [v.visit];
    assert !Acceptable(fstab, visits[0]);
    assert Tiled(fstab, v.visit.end, visits[1..]);
  }

  lemma PassSkips(fstab: Fstab, i: nat, r: Pass)
    requires i < |fstab| && Skipped(fstab[i]) && PassMeans(fstab, i + 1, r)
    ensures PassMeans(fstab, i, r)
  {
  }

  lemma AcceptableShape(f: Fstab, g: Fstab, v: Visit)
    requires SameShape(f, g)
    ensures Acceptable(f, v) == Acceptable(g, v)
  {
    if v.begin < |f| {
      ShapeFacts(f, g, v.begin);
    }
  }

  lemma AllSkippedShape(f: Fstab, g: Fstab, lo: nat, hi: nat)
    requires SameShape(f, g) && hi <= |f| && AllSkipped(f, lo, hi)
    ensures AllSkipped(g, lo, hi)
  {
    forall i | lo <= i < hi
      ensures Skipped(g[i])
    {
      ShapeFacts(f, g, i);
    }
  }

  lemma PassMeansShape(f: Fstab, g: Fstab, i: nat, r: Pass)
    requires SameShape(f, g) && i <= |f| && PassMeans(g, i, r)
    ensures PassMeans(f, i, r)
  {
    TiledShape(g, f, i, r.visits);
    forall n | 0 <= n < |r.visits|
      ensures Acceptable(f, r.visits[n]) == Acceptable(g, r.visits[n])
    {
      AcceptableShape(f, g, r.visits[n]);
    }
    if r.ok {
      AllSkippedShape(g, f, LastEnd(i, r.visits), |g|);
    }
  }

  lemma PassVisits(fstab: Fstab, v: Visited, rest: Pass)
    requires v.visit.begin < v.visit.end <= |fstab| && SameShape(fstab, v.fstab)
    requires PassMeans(v.fstab, v.visit.end, rest)
    requires !Skipped(fstab[v.visit.begin]) && Acceptable(fstab, v.visit)
    requires v.visit.end == if v.visit.created then RunEnd(fstab, v.visit.begin) else v.visit.begin + 1
    requires v.visit.mounted ==> v.visit.created
    ensures PassMeans(fstab, v.visit.begin, rest.(visits := [v.visit] + rest.visits))
  {
    PassMeansShape(fstab, v.fstab, v.visit.end, rest);
    assert ([v.visit] + rest.visits)[1..] == rest.visits;
    AcceptableCons(fstab, v.visit, rest.visits);
  }

  lemma AcceptableCons(fstab: Fstab, v: Visit, visits: seq<Visit>)
    requires Acceptable(fstab, v)
    ensures var all := [v] + visits;
            && ((forall n :: 0 <= n < |all| ==> Acceptable(fstab, all[n])) <==>
                 forall n :: 0 <= n < |visits| ==> Acceptable(fstab, visits[n]))
            && ((forall n :: 0 <= n < |visits| - 1 ==> Acceptable(fstab, visits[n])) ==>
                 forall n :: 0 <= n < |all| - 1 ==> Acceptable(fstab, all[n]))
  {
    var all := [v] + visits;
    assert forall n :: 0 < n < |all| ==> all[n] == visits[n - 1];
    assert forall n :: 0 <= n < |visits| ==> visits[n] == all[n + 1];
  }

  /** Visits do not overlap, and after one that could create its mount point the rest of its run is not
      visited again: no run is mounted twice. */
  lemma {:induction false} NoRunMountedTwice(fstab: Fstab, i: nat, visits: seq<Visit>, p: nat, q: nat)
    requires i <= |fstab| && Tiled(fstab, i, visits) && p < q < |visits|
    ensures visits[p].begin < visits[p].end <= visits[q].begin < |fstab|
    ensures visits[p].mounted ==>
              exists x :: visits[p].begin < x <= visits[q].begin &&
                          fstab[x].mountPoint != fstab[visits[p].begin].mountPoint
    decreases |visits|
  {
    if p > 0 {
      NoRunMountedTwice(fstab, visits[0].end, visits[1..], p - 1, q - 1);
    } else {
      BeginsAfter(fstab, visits[0].end, visits[1..], q - 1);
    }
  }

  lemma {:induction false} BeginsAfter(fstab: Fstab, i: nat, visits: seq<Visit>, q: nat)
    requires i <= |fstab| && Tiled(fstab, i, visits) && q < |visits|
    ensures i <= visits[q].begin < |fstab|
    decreases |visits|
  {
    if q == 0 {
    } else {
      BeginsAfter(fstab, visits[0].end, visits[1..], q - 1);
    }
  }

  /** MountPartitions as a whole: it ends well exactly when the first run for /system, if there is one,
      mounts, and every other run that is visited mounts or may fail. */
  lemma MountAllIff(fstab: Fstab, t: Trace, w: World)
    ensures var r, at := MountAll(fstab, t, w), SystemAt(fstab, 0);
            && (r.ok <==>
                 && (at < |fstab| ==> VisitAt(fstab, at, t, w).visit.mounted)
                 && forall n :: 0 <= n < |r.visits| ==> Acceptable(fstab, r.visits[n]))
            && Tiled(fstab, 0, r.visits)
            && (r.ok ==> LastEnd(0, r.visits) <= |fstab| && AllSkipped(fstab, LastEnd(0, r.visits), |fstab|))
  {
    var first, at := SystemFirst(fstab, t, w), SystemAt(fstab, 0);
    if at < |fstab| {
      VisitTriesInOrder(fstab, at, t, w);
    }
    if first.ok {
      PassVisitsAll(first.fstab, 0, first.trace, w);
      PassMeansShape(fstab, first.fstab, 0, MountAll(fstab, t, w));
    }
  }
}
