/** What mounting an fstab does as a whole: the actions of the visits in a row, each visit with at most one
    successful mount. */
module MountTraces {
  import opened Sequences
  import opened MountTypes
  import opened MountExecution

  /** Creating the mount point, then the candidates tried. */
  function VisitActions(fstab: Fstab, v: Visit): Trace {
    if v.begin >= |fstab| then []
    else
      var c := CandidatesAt(fstab, v.begin);
      [CreateMountPoint(fstab[v.begin].mountPoint)] + Mounts(c[..if v.tried <= |c| then v.tried else |c|])
  }

  function Actions(fstab: Fstab, visits: seq<Visit>): Trace
    decreases |visits|
  {
    if visits == [] then [] else VisitActions(fstab, visits[0]) + Actions(fstab, visits[1..])
  }

  /** The mounts from lo on that succeeded. */
  function Successes(t: Trace, lo: nat, w: World): nat
    decreases |t|
  {
    if |t| <= lo then 0
    else Successes(t[..|t| - 1], lo, w) + if t[|t| - 1].Mount? && w(t) then 1 else 0
  }

  function MountedCount(visits: seq<Visit>): nat
    decreases |visits|
  {
    if visits == [] then 0 else (if visits[0].mounted then 1 else 0) + MountedCount(visits[1..])
  }

  lemma {:induction false} SuccessesParts(t: Trace, more: Trace, lo: nat, w: World)
    requires lo <= |t|
    ensures Successes(t + more, lo, w) == Successes(t, lo, w) + Successes(t + more, |t|, w)
    decreases |more|
  {
    if more == [] {
      assert t + more == t;
    } else {
      var whole := t + more;
      assert whole[..|whole| - 1] == t + more[..|more| - 1];
      SuccessesParts(t, more[..|more| - 1], lo, w);
    }
  }

  // One visit

  lemma VisitTrace(fstab: Fstab, begin: nat, t: Trace, w: World)
    requires begin < |fstab|
    ensures var v := VisitAt(fstab, begin, t, w); v.trace == t + VisitActions(fstab, v.visit)
  {
    var point := [CreateMountPoint(fstab[begin].mountPoint)];
    var c, n := CandidatesAt(fstab, begin), VisitAt(fstab, begin, t, w).visit.tried;
    Assoc(t, point, Mounts(c[..n]));
    assert Mounts(c[..0]) == [];
  }

  /** Counting what was tried: nothing succeeds before the last. */
  lemma {:induction false} TriedSuccesses(t1: Trace, c: Fstab, n: nat, m: nat, w: World)
    requires m <= n <= |c| && forall j :: 0 < j < n ==> !w(t1 + Mounts(c[..j]))
    ensures Successes(t1 + Mounts(c[..m]), |t1|, w) == if 0 < m == n && w(t1 + Mounts(c[..n])) then 1 else 0
    decreases m
  {
    if m == 0 {
      assert t1 + Mounts(c[..0]) == t1;
    } else {
      TriedSuccesses(t1, c, n, m - 1, w);
      var t := t1 + Mounts(c[..m]);
      assert t[..|t| - 1] == t1 + Mounts(c[..m - 1]);
      assert t[|t| - 1] == Mount(c[m - 1]);
    }
  }

  lemma VisitSuccesses(fstab: Fstab, begin: nat, t: Trace, w: World)
    requires begin < |fstab|
    ensures var v := VisitAt(fstab, begin, t, w);
            Successes(v.trace, |t|, w) == if v.visit.mounted then 1 else 0
  {
    VisitTriesInOrder(fstab, begin, t, w);
    var v := VisitAt(fstab, begin, t, w);
    var t1 := t + [CreateMountPoint(fstab[begin].mountPoint)];
    var c := CandidatesAt(fstab, begin);
    TriedSuccesses(t1, c, v.visit.tried, v.visit.tried, w);
    SuccessesParts(t1, Mounts(c[..v.visit.tried]), |t|, w);
    assert t1[..|t1| - 1] == t;
  }

  // A pass works on the entries that were given

  lemma SuffixCandidates(f: Fstab, g: Fstab, from: nat, begin: nat)
    requires |f| == |g| && from <= begin < |f| && forall i :: from <= i < |f| ==> f[i] == g[i]
    ensures CandidatesAt(f, begin) == CandidatesAt(g, begin)
  {
    assert RunEnd(f, begin) == RunEnd(g, begin);
  }

  lemma {:induction false} SuffixActions(f: Fstab, g: Fstab, from: nat, visits: seq<Visit>)
    requires |f| == |g| && from <= |f| && forall i :: from <= i < |f| ==> f[i] == g[i]
    requires Tiled(f, from, visits)
    ensures Actions(f, visits) == Actions(g, visits)
    decreases |visits|
  {
    if visits == [] {
    } else {
      SuffixCandidates(f, g, from, visits[0].begin);
      SuffixActions(f, g, visits[0].end, visits[1..]);
    }
  }

  /** The trace of a pass is what its visits do to the given fstab, one after the other. */
  lemma {:induction false} PassTrace(fstab: Fstab, i: nat, t: Trace, w: World)
    requires i <= |fstab|
    ensures var r := PassFrom(fstab, i, t, w); r.trace == t + Actions(fstab, r.visits)
    decreases |fstab| - i
  {
    if i == |fstab| {
      assert t + [] == t;
    } else if Skipped(fstab[i]) {
      PassTrace(fstab, i + 1, t, w);
    } else {
      var v := VisitAt(fstab, i, t, w);
      VisitTrace(fstab, i, t, w);
      if v.visit.mounted || Forgiven(fstab[i]) {
        PassTrace(v.fstab, v.visit.end, v.trace, w);
        PassVisitsAll(v.fstab, v.visit.end, v.trace, w);
        VisitThenRest(fstab, i, t, w, PassFrom(v.fstab, v.visit.end, v.trace, w).visits);
      } else {
        OneVisit(fstab, v.visit);
      }
    }
  }

  lemma OneVisit(fstab: Fstab, v: Visit)
    ensures Actions(fstab, [v]) == VisitActions(fstab, v)
  {
    ActionsCons(fstab, v, []);
    assert VisitActions(fstab, v) + [] == VisitActions(fstab, v);
  }

  lemma ActionsCons(fstab: Fstab, v: Visit, visits: seq<Visit>)
    ensures Actions(fstab, [v] + visits) == VisitActions(fstab, v) + Actions(fstab, visits)
  {
    assert ([v] + visits)[1..] == visits;
  }

  /** A visit changes nothing behind its run. */
  lemma VisitChanges(fstab: Fstab, begin: nat, t: Trace, w: World)
    requires begin < |fstab|
    ensures var v := VisitAt(fstab, begin, t, w);
            forall i :: v.visit.end <= i < |fstab| ==> v.fstab[i] == fstab[i]
  {
    VisitTriesInOrder(fstab, begin, t, w);
  }

  lemma VisitThenRest(fstab: Fstab, begin: nat, t: Trace, w: World, visits: seq<Visit>)
    requires begin < |fstab|
    requires var v := VisitAt(fstab, begin, t, w); Tiled(v.fstab, v.visit.end, visits)
    ensures var v := VisitAt(fstab, begin, t, w);
            v.trace + Actions(v.fstab, visits) == t + Actions(fstab, [v.visit] + visits)
  {
    var v := VisitAt(fstab, begin, t, w);
    VisitTrace(fstab, begin, t, w);
    VisitChanges(fstab, begin, t, w);
    SuffixActions(v.fstab, fstab, v.visit.end, visits);
    ActionsCons(fstab, v.visit, visits);
    Assoc(t, VisitActions(fstab, v.visit), Actions(fstab, visits));
  }

  /** In a pass as many mounts succeed as visits mount. */
  lemma {:induction false} PassSuccesses(fstab: Fstab, i: nat, t: Trace, w: World)
    requires i <= |fstab|
    ensures var r := PassFrom(fstab, i, t, w); Successes(r.trace, |t|, w) == MountedCount(r.visits)
    decreases |fstab| - i
  {
    if i == |fstab| {
    } else if Skipped(fstab[i]) {
      PassSuccesses(fstab, i + 1, t, w);
    } else {
      var v := VisitAt(fstab, i, t, w);
      VisitSuccesses(fstab, i, t, w);
      if v.visit.mounted || Forgiven(fstab[i]) {
        var rest := PassFrom(v.fstab, v.visit.end, v.trace, w);
        PassSuccesses(v.fstab, v.visit.end, v.trace, w);
        PassTrace(v.fstab, v.visit.end, v.trace, w);
        VisitTrace(fstab, i, t, w);
        SuccessesParts(v.trace, Actions(v.fstab, rest.visits), |t|, w);
        assert ([v.visit] + rest.visits)[1..] == rest.visits;
      } else {
        OneCounted(v.visit);
      }
    }
  }

  // Both passes

  /** What the switch to the mounted system does before the loop. */
  function SystemActions(fstab: Fstab, first: Pass): Trace {
    if first.visits == [] then []
    else VisitActions(fstab, first.visits[0]) + if first.ok then [SwitchRoot("/system")] else []
  }

  lemma SamePointCandidates(f: Fstab, g: Fstab, begin: nat)
    requires |f| == |g| && begin < |f| && f[begin].mountPoint != "/system"
    requires forall j :: 0 <= j < |f| && f[j].mountPoint != "/system" ==> f[j] == g[j]
    requires forall j :: 0 <= j < |f| ==> f[j].mountPoint == g[j].mountPoint
    ensures CandidatesAt(f, begin) == CandidatesAt(g, begin)
  {
    assert RunEnd(f, begin) == RunEnd(g, begin);
  }

  /** Visits of the loop see no entry that the system run has changed. */
  lemma {:induction false} ActionsApart(f: Fstab, g: Fstab, i: nat, visits: seq<Visit>)
    requires |f| == |g| && i <= |f| && Tiled(f, i, visits)
    requires forall j :: 0 <= j < |f| && f[j].mountPoint != "/system" ==> f[j] == g[j]
    requires forall j :: 0 <= j < |f| ==> f[j].mountPoint == g[j].mountPoint
    ensures Actions(f, visits) == Actions(g, visits)
    decreases |visits|
  {
    if visits == [] {
    } else {
      SamePointCandidates(f, g, visits[0].begin);
      ActionsApart(f, g, visits[0].end, visits[1..]);
    }
  }

  /** Mounting the whole fstab: first the run for /system, then the visits of the loop, each with the
      candidates of its run as they were given, and one successful mount for each run that is mounted. */
  lemma MountAllTrace(fstab: Fstab, t: Trace, w: World)
    ensures var first, r := SystemFirst(fstab, t, w), MountAll(fstab, t, w);
            && r.trace == t + SystemActions(fstab, first) + Actions(fstab, r.visits)
            && Successes(r.trace, |t|, w) == MountedCount(first.visits) + MountedCount(r.visits)
  {
    SystemTrace(fstab, t, w);
    var first := SystemFirst(fstab, t, w);
    if first.ok {
      var r := PassFrom(first.fstab, 0, first.trace, w);
      PassTrace(first.fstab, 0, first.trace, w);
      PassVisitsAll(first.fstab, 0, first.trace, w);
      SystemChanges(fstab, t, w);
      ActionsApart(first.fstab, fstab, 0, r.visits);
      PassSuccesses(first.fstab, 0, first.trace, w);
      SuccessesParts(first.trace, Actions(first.fstab, r.visits), |t|, w);
    } else {
      assert first.trace + [] == first.trace;
    }
  }

  lemma SystemChanges(fstab: Fstab, t: Trace, w: World)
    ensures var f := SystemFirst(fstab, t, w).fstab;
            && (forall j :: 0 <= j < |f| && f[j].mountPoint != "/system" ==> f[j] == fstab[j])
            && (forall j :: 0 <= j < |f| ==> f[j].mountPoint == fstab[j].mountPoint)
  {
  }

  lemma SystemTrace(fstab: Fstab, t: Trace, w: World)
    ensures var first := SystemFirst(fstab, t, w);
            && first.trace == t + SystemActions(fstab, first)
            && Successes(first.trace, |t|, w) == MountedCount(first.visits)
  {
    var at := SystemAt(fstab, 0);
    if at == |fstab| {
      assert t + [] == t;
    } else {
      var v := VisitAt(fstab, at, t, w);
      VisitTrace(fstab, at, t, w);
      VisitSuccesses(fstab, at, t, w);
      OneCounted(v.visit);
      AfterVisit(t, VisitActions(fstab, v.visit), w);
    }
  }

  lemma OneCounted(v: Visit)
    ensures MountedCount([v]) == if v.mounted then 1 else 0
  {
    assert MountedCount([v]) == (if v.mounted then 1 else 0) + MountedCount([]);
  }

  /** Switching the root is no mount. */
  lemma AfterVisit(t: Trace, actions: Trace, w: World)
    ensures t + actions + [SwitchRoot("/system")] == t + (actions + [SwitchRoot("/system")])
    ensures t + actions == t + (actions + [])
    ensures Successes(t + actions + [SwitchRoot("/system")], |t|, w) == Successes(t + actions, |t|, w)
  {
    Assoc(t, actions, [SwitchRoot("/system")]);
    Assoc(t, actions, []);
    var after := t + actions + [SwitchRoot("/system")];
    assert after[..|after| - 1] == t + actions;
  }

  // What is left out

  /** Entries for /system, overlay entries and raw partitions. */
  predicate LeftOut(e: FstabEntry) {
    e.mountPoint == "/system" || e.fsType in ["overlay", "emmc"]
  }

  predicate Within(v: Visit, i: nat) {
    v.begin <= i < v.end
  }

  lemma {:induction false} TiledCovers(fstab: Fstab, from: nat, visits: seq<Visit>, i: nat)
    requires from <= |fstab| && Tiled(fstab, from, visits) && from <= i < LastEnd(from, visits) && i < |fstab|
    ensures LeftOut(fstab[i]) || exists n :: 0 <= n < |visits| && Within(visits[n], i)
    decreases |visits|
  {
    if visits == [] {
    } else if i < visits[0].begin {
      assert Skipped(fstab[i]);
    } else if i < visits[0].end {
      assert Within(visits[0], i);
    } else {
      var rest := visits[1..];
      TiledCovers(fstab, visits[0].end, rest, i);
      if n :| 0 <= n < |rest| && Within(rest[n], i) {
        assert Within(visits[n + 1], i);
      }
    }
  }

  lemma {:induction false} TiledBegins(fstab: Fstab, from: nat, visits: seq<Visit>)
    requires from <= |fstab| && Tiled(fstab, from, visits)
    ensures forall n :: 0 <= n < |visits| ==> visits[n].begin < |fstab| && !LeftOut(fstab[visits[n].begin])
    decreases |visits|
  {
    if visits == [] {
    } else {
      TiledBegins(fstab, visits[0].end, visits[1..]);
      assert forall n :: 0 < n < |visits| ==> visits[n] == visits[1..][n - 1];
    }
  }

  /** No visit of the loop starts at an entry for /system, an overlay entry or a raw partition, and a loop that
      ends well has had every other entry in a visit. */
  lemma LoopLeavesOut(fstab: Fstab, t: Trace, w: World)
    ensures var r := PassFrom(fstab, 0, t, w);
            && (forall n :: 0 <= n < |r.visits| ==> r.visits[n].begin < |fstab| && !LeftOut(fstab[r.visits[n].begin]))
            && (r.ok ==> forall i: nat :: i < |fstab| && !LeftOut(fstab[i]) ==>
                 exists n :: 0 <= n < |r.visits| && Within(r.visits[n], i))
  {
    var r := PassFrom(fstab, 0, t, w);
    PassVisitsAll(fstab, 0, t, w);
    TiledBegins(fstab, 0, r.visits);
    if r.ok {
      assert forall i: nat :: LastEnd(0, r.visits) <= i < |fstab| ==> LeftOut(fstab[i]);
      forall i: nat | i < |fstab| && !LeftOut(fstab[i])
        ensures exists n :: 0 <= n < |r.visits| && Within(r.visits[n], i)
      {
        TiledCovers(fstab, 0, r.visits, i);
      }
    }
  }

  // When every mount works

  const ALWAYS: World := t => true

  lemma FirstMounts(fstab: Fstab, begin: nat, t: Trace)
    requires begin < |fstab|
    ensures var v := VisitAt(fstab, begin, t, ALWAYS);
            && v.visit.mounted && v.visit.end == RunEnd(fstab, begin)
            && v.trace == t + [CreateMountPoint(fstab[begin].mountPoint), Mount(fstab[begin])]
  {
    var c := CandidatesAt(fstab, begin);
    assert Mounts(c[..1]) == [Mount(fstab[begin])];
    var t1 := t + [CreateMountPoint(fstab[begin].mountPoint)];
    assert Tried(c, 0, t1, ALWAYS) == 1;
  }
}
