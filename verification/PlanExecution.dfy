/** The planner and the executor agree: every group of the plan is one run, and its candidates are tried as
    they were planned. */
module PlanExecution {
  import opened Sequences
  import opened MountTypes
  import opened MountHandlers
  import opened MountPlans
  import opened PlanShape
  import opened PlanOrder
  import opened FstabPlanner
  import opened MountExecution
  import opened MountTraces

  /** Where the nth group starts in the fstab. */
  function Start(gs: seq<Group>, n: nat): nat
    requires n <= |gs|
  {
    |Flatten(gs[..n])|
  }

  /** The run at an index ends at end, and a visit that starts there has the given candidates. */
  predicate RunIs(fstab: Fstab, at: nat, end: nat, candidates: Fstab) {
    at < |fstab| && RunFrom(fstab, at) == Run(end, candidates)
  }

  datatype Run = Run(end: nat, candidates: Fstab)

  function RunFrom(fstab: Fstab, at: nat): Run
    requires at < |fstab|
  {
    Run(RunEnd(fstab, at), CandidatesAt(fstab, at))
  }

  lemma RunBetween(fstab: Fstab, at: nat, mid: Fstab, point: string, source: string)
    requires at + |mid| <= |fstab| && mid != [] && fstab[at..at + |mid|] == mid
    requires forall i :: 0 <= i < |mid| ==> mid[i].mountPoint == point && mid[i].blkDevice == source
    requires at + |mid| < |fstab| ==> fstab[at + |mid|].mountPoint != point
    ensures RunIs(fstab, at, at + |mid|, mid)
  {
    assert forall i :: 0 <= i < |mid| ==> fstab[at + i] == mid[i];
    assert RunEnd(fstab, at) == at + |mid|;
    var c := CandidatesAt(fstab, at);
    assert forall i :: 0 <= i < |c| ==> c[i] == mid[i];
  }

  lemma Middle(before: Fstab, mid: Fstab, after: Fstab, fstab: Fstab)
    requires fstab == before + mid + after
    ensures |fstab| >= |before| + |mid|
    ensures fstab[|before|..|before| + |mid|] == mid
    ensures |fstab| > |before| + |mid| ==> after != [] && fstab[|before| + |mid|] == after[0]
  {
  }

  lemma Suffix(fstab: Fstab, at: nat, mid: Fstab, k: nat)
    requires at + |mid| <= |fstab| && fstab[at..at + |mid|] == mid && k <= |mid|
    ensures fstab[at + k..at + |mid|] == mid[k..]
  {
  }

  /** es stands in [at, end) of the fstab, all for one mount point and from one source, and what follows is
      for another mount point. */
  ghost predicate Sits(fstab: Fstab, at: nat, end: nat, es: Fstab, point: string) {
    && at < end <= |fstab| && fstab[at..end] == es
    && (forall e :: e in es ==> e.mountPoint == point && e.blkDevice == es[0].blkDevice)
    && (end < |fstab| ==> fstab[end].mountPoint != point)
  }

  lemma SuffixEntries(es: Fstab, k: nat, point: string)
    requires k < |es| && forall e :: e in es ==> e.mountPoint == point && e.blkDevice == es[0].blkDevice
    ensures forall i :: 0 <= i < |es[k..]| ==> es[k..][i].mountPoint == point && es[k..][i].blkDevice == es[0].blkDevice
  {
    assert forall i :: 0 <= i < |es[k..]| ==> es[k..][i] in es;
  }

  lemma SitsIsRun(fstab: Fstab, at: nat, end: nat, es: Fstab, point: string, k: nat)
    requires Sits(fstab, at, end, es, point) && k < |es|
    ensures RunIs(fstab, at + k, end, es[k..])
  {
    Suffix(fstab, at, es, k);
    SuffixEntries(es, k, point);
    RunBetween(fstab, at + k, es[k..], point, es[0].blkDevice);
  }

  lemma SplitAt(gs: seq<Group>, n: nat)
    requires n < |gs|
    ensures Flatten(gs) == Flatten(gs[..n]) + gs[n].entries + Flatten(gs[n + 1..])
    ensures Start(gs, n + 1) == Start(gs, n) + |gs[n].entries|
  {
    FlattenParts(gs[..n], gs[n..]);
    assert gs == gs[..n] + gs[n..] && gs[n..][1..] == gs[n + 1..];
    FlattenParts(gs[..n], [gs[n]]);
    FlattenOne(gs[n]);
    assert gs[..n + 1] == gs[..n] + [gs[n]];
    Assoc(Flatten(gs[..n]), gs[n].entries, Flatten(gs[n + 1..]));
  }

  lemma FirstOf(gs: seq<Group>)
    requires gs != [] && GroupOk(gs[0])
    ensures Flatten(gs) != [] && Flatten(gs)[0].mountPoint == MountPoint(gs[0].name)
  {
    assert gs[0].entries[0] in gs[0].entries;
  }

  /** What comes after a group begins with another mount point. */
  lemma Separated(gs: seq<Group>, addon: Fstab, n: nat)
    requires AllGroupsOk(gs) && NeighboursDistinct(gs) && n < |gs|
    requires addon != [] ==> addon[0].mountPoint != MountPoint(gs[|gs| - 1].name)
    ensures var after := Flatten(gs[n + 1..]) + addon; after != [] ==> after[0].mountPoint != MountPoint(gs[n].name)
  {
    if n + 1 < |gs| {
      assert gs[n + 1..][0] == gs[n + 1] && gs[n + 1] in gs;
      FirstOf(gs[n + 1..]);
      assert !SamePoint(gs, n + 1);
    }
  }

  /** Each group is exactly one run, whatever follows the plan as long as it does not go on with the last
      mount point. */
  lemma GroupSits(gs: seq<Group>, addon: Fstab, fstab: Fstab, n: nat)
    requires AllGroupsOk(gs) && NeighboursDistinct(gs) && n < |gs|
    requires addon != [] ==> addon[0].mountPoint != MountPoint(gs[|gs| - 1].name)
    requires fstab == Flatten(gs) + addon
    ensures Sits(fstab, Start(gs, n), Start(gs, n + 1), gs[n].entries, MountPoint(gs[n].name))
  {
    PlacedApart(gs, addon, n, fstab);
    GroupFacts(gs, n);
  }

  lemma GroupFacts(gs: seq<Group>, n: nat)
    requires AllGroupsOk(gs) && n < |gs|
    ensures gs[n].entries != []
    ensures forall e :: e in gs[n].entries ==>
              e.mountPoint == MountPoint(gs[n].name) && e.blkDevice == gs[n].entries[0].blkDevice
  {
    assert gs[n] in gs;
  }

  lemma PlacedApart(gs: seq<Group>, addon: Fstab, n: nat, fstab: Fstab)
    requires AllGroupsOk(gs) && NeighboursDistinct(gs) && n < |gs| && fstab == Flatten(gs) + addon
    requires addon != [] ==> addon[0].mountPoint != MountPoint(gs[|gs| - 1].name)
    ensures Start(gs, n + 1) == Start(gs, n) + |gs[n].entries| <= |fstab|
    ensures fstab[Start(gs, n)..Start(gs, n + 1)] == gs[n].entries
    ensures Start(gs, n + 1) < |fstab| ==> fstab[Start(gs, n + 1)].mountPoint != MountPoint(gs[n].name)
  {
    Placed(gs, addon, n, fstab);
    Separated(gs, addon, n);
  }

  lemma Placed(gs: seq<Group>, addon: Fstab, n: nat, fstab: Fstab)
    requires n < |gs| && fstab == Flatten(gs) + addon
    ensures Start(gs, n + 1) == Start(gs, n) + |gs[n].entries| <= |fstab|
    ensures fstab[Start(gs, n)..Start(gs, n + 1)] == gs[n].entries
    ensures var after := Flatten(gs[n + 1..]) + addon;
            Start(gs, n + 1) < |fstab| ==> after != [] && fstab[Start(gs, n + 1)] == after[0]
  {
    SplitAt(gs, n);
    Assoc(Flatten(gs[..n]) + gs[n].entries, Flatten(gs[n + 1..]), addon);
    Middle(Flatten(gs[..n]), gs[n].entries, Flatten(gs[n + 1..]) + addon, fstab);
  }

  /** Two groups in a row, with what is before and behind them. */
  lemma TwoPlaced(gs: seq<Group>, n: nat)
    requires 0 < n < |gs|
    ensures Start(gs, n) == Start(gs, n - 1) + |gs[n - 1].entries|
    ensures Start(gs, n + 1) == Start(gs, n) + |gs[n].entries| <= |Flatten(gs)|
    ensures Flatten(gs)[Start(gs, n - 1)..Start(gs, n)] == gs[n - 1].entries
    ensures Flatten(gs)[Start(gs, n)..Start(gs, n + 1)] == gs[n].entries
  {
    assert Flatten(gs) + [] == Flatten(gs);
    Placed(gs, [], n - 1, Flatten(gs));
    Placed(gs, [], n, Flatten(gs));
  }

  lemma OnePoint(fstab: Fstab, lo: nat, mid: nat, hi: nat, point: string)
    requires lo < mid <= hi <= |fstab|
    requires forall e :: e in fstab[lo..mid] || e in fstab[mid..hi] ==> e.mountPoint == point
    ensures RunEnd(fstab, lo) >= hi
  {
    forall i | lo <= i < hi
      ensures fstab[i].mountPoint == point
    {
      assert if i < mid then fstab[i] == fstab[lo..mid][i - lo] else fstab[i] == fstab[mid..hi][i - mid];
    }
  }

  /** Two groups in a row for one mount point are in one run. The second source is never tried: its
      candidates become fallbacks of the first, with the device of the first. */
  lemma NeighboursMerge(gs: seq<Group>, n: nat)
    requires AllGroupsOk(gs) && 0 < n < |gs| && SamePoint(gs, n)
    ensures Start(gs, n - 1) < Start(gs, n) < Start(gs, n + 1) <= |Flatten(gs)|
    ensures RunEnd(Flatten(gs), Start(gs, n - 1)) >= Start(gs, n + 1)
    ensures var c := CandidatesAt(Flatten(gs), Start(gs, n - 1));
            gs[n - 1].entries != [] && forall i :: 0 <= i < |c| ==> c[i].blkDevice == gs[n - 1].entries[0].blkDevice
  {
    TwoPlaced(gs, n);
    GroupFacts(gs, n - 1);
    GroupFacts(gs, n);
    var fstab := Flatten(gs);
    OnePoint(fstab, Start(gs, n - 1), Start(gs, n), Start(gs, n + 1), MountPoint(gs[n].name));
    assert fstab[Start(gs, n - 1)] == gs[n - 1].entries[0];
  }

  /** Entries of one run have one source. */
  predicate Uniform(fstab: Fstab) {
    forall i :: 0 < i < |fstab| && fstab[i].mountPoint == fstab[i - 1].mountPoint ==>
      fstab[i].blkDevice == fstab[i - 1].blkDevice
  }

  lemma {:induction false} UniformRun(fstab: Fstab, begin: nat, i: nat)
    requires Uniform(fstab) && begin <= i < |fstab|
    requires forall j :: begin <= j <= i ==> fstab[j].mountPoint == fstab[begin].mountPoint
    ensures fstab[i].blkDevice == fstab[begin].blkDevice
    decreases i
  {
    if i == begin {
    } else {
      UniformRun(fstab, begin, i - 1);
    }
  }

  lemma UniformVisit(fstab: Fstab, begin: nat, t: Trace, w: World)
    requires Uniform(fstab) && begin < |fstab|
    ensures VisitAt(fstab, begin, t, w).fstab == fstab
  {
    forall i | begin <= i < RunEnd(fstab, begin)
      ensures fstab[i].blkDevice == fstab[begin].blkDevice
    {
      UniformRun(fstab, begin, i);
    }
  }

  lemma {:induction false} UniformPass(fstab: Fstab, i: nat, t: Trace, w: World)
    requires Uniform(fstab) && i <= |fstab|
    ensures PassFrom(fstab, i, t, w).fstab == fstab
    decreases |fstab| - i
  {
    if i == |fstab| {
    } else {
      if Skipped(fstab[i]) {
        UniformPass(fstab, i + 1, t, w);
      } else {
        var v := VisitAt(fstab, i, t, w);
        UniformVisit(fstab, i, t, w);
        UniformPass(fstab, v.visit.end, v.trace, w);
      }
    }
  }

  lemma UniformGroups(before: Fstab, g: Group)
    requires Uniform(before) && GroupOk(g)
    requires before != [] ==> before[|before| - 1].mountPoint != MountPoint(g.name)
    ensures Uniform(before + g.entries)
  {
    var fstab := before + g.entries;
    forall i | 0 < i < |fstab| && fstab[i].mountPoint == fstab[i - 1].mountPoint
      ensures fstab[i].blkDevice == fstab[i - 1].blkDevice
    {
      if i >= |before| {
        assert fstab[i] in g.entries;
        if i > |before| {
          assert fstab[i - 1] in g.entries;
        }
      }
    }
  }

  lemma {:induction false} PlanUniform(gs: seq<Group>, n: nat)
    requires AllGroupsOk(gs) && NeighboursDistinct(gs) && n <= |gs|
    ensures Uniform(Flatten(gs[..n]))
    ensures n > 0 ==> Flatten(gs[..n]) != []
    ensures n > 0 ==> Flatten(gs[..n])[|Flatten(gs[..n])| - 1].mountPoint == MountPoint(gs[n - 1].name)
    decreases n
  {
    if n == 0 {
    } else {
      PlanUniform(gs, n - 1);
      var g := gs[n - 1];
      assert gs[..n] == gs[..n - 1] + [g] && g in gs;
      FlattenParts(gs[..n - 1], [g]);
      FlattenOne(g);
      assert n > 1 ==> !SamePoint(gs, n - 1);
      AppendUniform(Flatten(gs[..n - 1]), g);
    }
  }

  lemma AppendUniform(before: Fstab, g: Group)
    requires Uniform(before) && GroupOk(g)
    requires before != [] ==> before[|before| - 1].mountPoint != MountPoint(g.name)
    ensures Uniform(before + g.entries)
    ensures before + g.entries != []
    ensures (before + g.entries)[|before + g.entries| - 1].mountPoint == MountPoint(g.name)
  {
    UniformGroups(before, g);
    assert g.entries[|g.entries| - 1] in g.entries;
  }

  lemma UniformUnchanged(fstab: Fstab, t: Trace, w: World)
    requires Uniform(fstab)
    ensures MountAll(fstab, t, w).fstab == fstab
  {
    var first, at := SystemFirst(fstab, t, w), SystemAt(fstab, 0);
    if at < |fstab| {
      UniformVisit(fstab, at, t, w);
    }
    UniformPass(fstab, 0, first.trace, w);
  }

  lemma PlanUnchanged(gs: seq<Group>, t: Trace, w: World)
    requires AllGroupsOk(gs) && NeighboursDistinct(gs)
    ensures MountAll(Flatten(gs), t, w).fstab == Flatten(gs)
  {
    PlanUniform(gs, |gs|);
    assert gs[..|gs|] == gs;
    UniformUnchanged(Flatten(gs), t, w);
  }

  lemma PlannedGroupSits(gs: seq<Group>, n: nat)
    requires AllGroupsOk(gs) && NeighboursDistinct(gs) && n < |gs|
    ensures Sits(Flatten(gs), Start(gs, n), Start(gs, n + 1), gs[n].entries, MountPoint(gs[n].name))
  {
    assert Flatten(gs) + [] == Flatten(gs);
    GroupSits(gs, [], Flatten(gs), n);
  }

  /** Every candidate of a group that stands in [lo, hi) starts a run of the candidates from there on. */
  ghost predicate RunsAt(fstab: Fstab, lo: nat, hi: nat, es: Fstab) {
    forall at :: 0 <= at < |es| ==> RunIs(fstab, lo + at, hi, es[at..])
  }

  lemma SitsRuns(fstab: Fstab, lo: nat, hi: nat, es: Fstab, point: string)
    requires Sits(fstab, lo, hi, es, point)
    ensures RunsAt(fstab, lo, hi, es)
  {
    forall at | 0 <= at < |es|
      ensures RunIs(fstab, lo + at, hi, es[at..])
    {
      SitsIsRun(fstab, lo, hi, es, point, at);
    }
  }

  /** Mounting it, with the run for /system first, changes no entry, and a visit that starts at some
      candidate of a group tries the candidates from there on as planned and no others. */
  ghost predicate RunsAsPlanned(gs: seq<Group>) {
    && (forall t, w :: MountAll(Flatten(gs), t, w).fstab == Flatten(gs))
    && (forall n :: 0 <= n < |gs| ==> RunsAt(Flatten(gs), Start(gs, n), Start(gs, n + 1), gs[n].entries))
  }

  lemma DistinctRunsAsPlanned(gs: seq<Group>)
    requires AllGroupsOk(gs) && NeighboursDistinct(gs)
    ensures RunsAsPlanned(gs)
  {
    forall t, w
      ensures MountAll(Flatten(gs), t, w).fstab == Flatten(gs)
    {
      PlanUnchanged(gs, t, w);
    }
    forall n | 0 <= n < |gs|
      ensures RunsAt(Flatten(gs), Start(gs, n), Start(gs, n + 1), gs[n].entries)
    {
      PlannedGroupSits(gs, n);
      SitsRuns(Flatten(gs), Start(gs, n), Start(gs, n + 1), gs[n].entries, MountPoint(gs[n].name));
    }
  }

  lemma MergedDiffers(gs: seq<Group>, n: nat)
    requires AllGroupsOk(gs) && 0 < n < |gs| && SamePoint(gs, n)
    ensures !RunsAt(Flatten(gs), Start(gs, n - 1), Start(gs, n), gs[n - 1].entries)
  {
    NeighboursMerge(gs, n);
    GroupFacts(gs, n - 1);
    assert !RunIs(Flatten(gs), Start(gs, n - 1) + 0, Start(gs, n), gs[n - 1].entries[0..]);
  }

  lemma RunsAsPlannedIff(gs: seq<Group>)
    requires AllGroupsOk(gs)
    ensures RunsAsPlanned(gs) <==> NeighboursDistinct(gs)
  {
    if NeighboursDistinct(gs) {
      DistinctRunsAsPlanned(gs);
    } else {
      var n: nat :| 0 < n < |gs| && SamePoint(gs, n);
      MergedDiffers(gs, n);
    }
  }

  /** The plan of any state holds the declared candidates, and it is executed as planned exactly when no two
      planned images in a row have the same base name. */
  lemma PlanRunsAsPlannedIff(s: Mounts, recovery: bool, k: Kernel)
    requires MountsInv(s) && Plan(s, recovery, k).Ok?
    ensures AllDeclared(s.params, Plan(s, recovery, k).value)
    ensures RunsAsPlanned(Plan(s, recovery, k).value) <==> NoTwins(PlannedStems(s, recovery))
  {
    PlanAsDeclared(s, recovery, k);
    PlanMountsEachPointOnce(s, recovery, k);
    RunsAsPlannedIff(Plan(s, recovery, k).value);
  }

  // When every mount works

  lemma GroupVisit(gs: seq<Group>, n: nat, t: Trace)
    requires AllGroupsOk(gs) && NeighboursDistinct(gs) && n < |gs| && gs[n].entries != []
    ensures Start(gs, n) < Start(gs, n + 1) <= |Flatten(gs)| && Flatten(gs)[Start(gs, n)] == gs[n].entries[0]
    ensures RunEnd(Flatten(gs), Start(gs, n)) == Start(gs, n + 1)
  {
    PlannedGroupSits(gs, n);
    SitsIsRun(Flatten(gs), Start(gs, n), Start(gs, n + 1), gs[n].entries, MountPoint(gs[n].name), 0);
  }

  lemma PassMounts(fstab: Fstab, begin: nat, t: Trace)
    requires Uniform(fstab) && begin < |fstab| && !Skipped(fstab[begin])
    ensures var t' := t + [CreateMountPoint(fstab[begin].mountPoint), Mount(fstab[begin])];
            PassFrom(fstab, begin, t, ALWAYS).trace == PassFrom(fstab, RunEnd(fstab, begin), t', ALWAYS).trace
  {
    UniformVisit(fstab, begin, t, ALWAYS);
    FirstMounts(fstab, begin, t);
  }

  /** Each group that is not skipped is mounted from its first candidate, whether or not its mount point was
      used before. */
  lemma GroupMounts(gs: seq<Group>, n: nat, t: Trace)
    requires AllGroupsOk(gs) && NeighboursDistinct(gs) && n < |gs|
    requires gs[n].entries != [] && !Skipped(gs[n].entries[0])
    ensures Start(gs, n) < Start(gs, n + 1) <= |Flatten(gs)|
    ensures var e := gs[n].entries[0]; var t' := t + [CreateMountPoint(e.mountPoint), Mount(e)];
            var later := PassFrom(Flatten(gs), Start(gs, n + 1), t', ALWAYS);
            PassFrom(Flatten(gs), Start(gs, n), t, ALWAYS).trace == later.trace
  {
    GroupVisit(gs, n, t);
    PlanUniform(gs, |gs|);
    assert gs[..|gs|] == gs;
    PassMounts(Flatten(gs), Start(gs, n), t);
  }

  /** The switch to the system run comes first and leaves a uniform fstab as it is. */
  lemma SystemThenPass(fstab: Fstab, t: Trace)
    requires Uniform(fstab)
    ensures var first := SystemFirst(fstab, t, ALWAYS);
            MountAll(fstab, t, ALWAYS).trace == PassFrom(fstab, 0, first.trace, ALWAYS).trace
  {
    var at := SystemAt(fstab, 0);
    if at < |fstab| {
      UniformVisit(fstab, at, t, ALWAYS);
      FirstMounts(fstab, at, t);
    }
  }
}
