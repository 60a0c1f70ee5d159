/** MountPartition, TrySwitchSystemAsRoot and MountPartitions as they run on an fstab in place. */
module MountHelpers {
  import opened MountTypes
  import opened MountExecution
  import opened Sequences

  /** The entries with overlayfs, in order. */
  function Overlays(fstab: Fstab): Trace
    decreases |fstab|
  {
    if fstab == [] then []
    else (if fstab[0].fsType == "overlay" then [MountOverlay(fstab[0])] else []) + Overlays(fstab[1..])
  }

  predicate Has(fstab: Fstab, point: string) {
    exists i :: 0 <= i < |fstab| && fstab[i].mountPoint == point
  }

  /** What the two parts after the loop of MountPartitions add to the trace and to the fstab. */
  function Finished(p: Pass, root: FstabEntry, w: World): (r: (Fstab, Trace)) {
    var t := p.trace + Overlays(p.fstab);
    if Has(p.fstab, "/system") || Has(p.fstab, "/") then (p.fstab, t + [OverlayAll])
    else
      var t' := t + [ReadRootEntry];
      (if w(t') then p.fstab + [root] else p.fstab, t' + [OverlayAll])
  }

  function IsOverlay(): FstabEntry -> bool {
    (e: FstabEntry) => e.fsType == "overlay"
  }

  function OverlayMount(): FstabEntry -> Action {
    (e: FstabEntry) => MountOverlay(e)
  }

  lemma {:induction false} OverlaysInOrder(fstab: Fstab)
    ensures Overlays(fstab) == Selection(fstab, IsOverlay(), OverlayMount())
    decreases |fstab|
  {
    if fstab == [] {
    } else {
      OverlaysInOrder(fstab[1..]);
    }
  }

  /** After the loop each overlay entry is mounted once, in order; the root entry is read exactly when no entry
      is for /system or /, and kept exactly when that works; everything is overlaid last. */
  lemma AfterTheLoop(p: Pass, root: FstabEntry, w: World)
    ensures var rootless := forall i :: 0 <= i < |p.fstab| ==> p.fstab[i].mountPoint !in ["/system", "/"];
            var overlays := p.trace + Selection(p.fstab, IsOverlay(), OverlayMount());
            && Finished(p, root, w).1 == overlays + (if rootless then [ReadRootEntry] else []) + [OverlayAll]
            && Finished(p, root, w).0 == p.fstab + if rootless && w(overlays + [ReadRootEntry]) then [root] else []
  {
    OverlaysInOrder(p.fstab);
    var t := p.trace + Overlays(p.fstab);
    assert t + [] == t && p.fstab + [] == p.fstab;
  }

  /** The loop of MountPartition before index current, when n candidates were tried. */
  ghost predicate Trying(given: Fstab, begin: nat, t1: Trace, w: World, fstab: Fstab, trace: Trace, current: nat,
                         n: nat, mounted: bool)
  {
    && begin < |given| && begin < current <= RunEnd(given, begin) && 0 < n <= current - begin
    && fstab == Retargeted(given, begin, begin + n)
    && var c := CandidatesAt(given, begin);
       && trace == t1 + Mounts(c[..n]) && mounted == w(trace)
       && (!mounted ==> n == current - begin)
       && Tried(c, 0, t1, w) == if mounted then n else Tried(c, n, t1, w)
  }

  lemma FirstTry(given: Fstab, begin: nat, t1: Trace, w: World)
    requires begin < |given|
    ensures var trace := t1 + [Mount(given[begin])];
            Trying(given, begin, t1, w, given, trace, begin + 1, 1, w(trace))
  {
    var c := CandidatesAt(given, begin);
    assert c[0] == given[begin];
    assert Mounts(c[..1]) == [Mount(given[begin])];
    assert Retargeted(given, begin, begin + 1) == given;
  }

  lemma NextTry(given: Fstab, begin: nat, t1: Trace, w: World, fstab: Fstab, trace: Trace, current: nat)
    requires begin < current && Trying(given, begin, t1, w, fstab, trace, current, current - begin, false)
    requires current < RunEnd(given, begin)
    ensures current < |fstab| && begin < |fstab|
    ensures var e := fstab[current].(blkDevice := fstab[begin].blkDevice);
            Trying(given, begin, t1, w, fstab[current := e], trace + [Mount(e)], current + 1, current - begin + 1,
              w(trace + [Mount(e)]))
  {
    var c, n := CandidatesAt(given, begin), current - begin;
    var e := fstab[current].(blkDevice := fstab[begin].blkDevice);
    assert c[n] == e;
    MountsSnoc(c, n);
    assert t1 + (Mounts(c[..n]) + [Mount(e)]) == t1 + Mounts(c[..n]) + [Mount(e)];
    assert fstab[current := e] == Retargeted(given, begin, begin + n + 1);
  }

  lemma MountsSnoc(c: Fstab, n: nat)
    requires n < |c|
    ensures Mounts(c[..n + 1]) == Mounts(c[..n]) + [Mount(c[n])]
  {
  }

  lemma DoneTrying(given: Fstab, begin: nat, t: Trace, w: World, fstab: Fstab, trace: Trace, current: nat, n: nat,
                   mounted: bool)
    requires begin < |given| && w(t + [CreateMountPoint(given[begin].mountPoint)])
    requires Trying(given, begin, t + [CreateMountPoint(given[begin].mountPoint)], w, fstab, trace, current, n, mounted)
    requires current == RunEnd(given, begin)
    ensures VisitAt(given, begin, t, w) == Visited(Visit(begin, current, true, n, mounted), fstab, trace)
  {
  }

  /** Retargeting keeps mount points, so the loop guard says whether the run goes on. */
  lemma Inside(given: Fstab, begin: nat, current: nat, fstab: Fstab, n: nat)
    requires begin < |given| && begin < current <= RunEnd(given, begin) && 0 < n <= current - begin
    requires fstab == Retargeted(given, begin, begin + n)
    ensures current < |fstab| && fstab[current].mountPoint == fstab[begin].mountPoint <==>
            current < RunEnd(given, begin)
  {
  }

  predicate SameResult(p: Pass, q: Pass) {
    p.fstab == q.fstab && p.trace == q.trace && p.ok == q.ok
  }

  class MountHelper {
    var fstab: Fstab
    var trace: Trace
    const world: World
    const rootEntry: FstabEntry

    constructor (entries: Fstab, w: World, root: FstabEntry)
      ensures fstab == entries && trace == [] && world == w && rootEntry == root
    {
      fstab, trace, world, rootEntry := entries, [], w, root;
    }

    method Do(a: Action) returns (ok: bool)
      modifies this`trace
      ensures trace == old(trace) + [a] && ok == world(trace)
    {
      trace := trace + [a];
      ok := world(trace);
    }

    method MountPartition(begin: nat) returns (mounted: bool, end: nat)
      requires begin < |fstab|
      modifies this`fstab, this`trace
      ensures var v := VisitAt(old(fstab), begin, old(trace), world);
              fstab == v.fstab && trace == v.trace && mounted == v.visit.mounted && end == v.visit.end
    {
      end := begin + 1;
      var created := Do(CreateMountPoint(fstab[begin].mountPoint));
      if !created {
        return false, end;
      }
      ghost var t1 := trace;
      mounted := Do(Mount(fstab[begin]));
      FirstTry(old(fstab), begin, t1, world);
      ghost var n := 1;
      var current := begin + 1;
      while current < |fstab| && fstab[current].mountPoint == fstab[begin].mountPoint
        invariant Trying(old(fstab), begin, t1, world, fstab, trace, current, n, mounted)
        invariant |fstab| == old(|fstab|)
        decreases |fstab| - current
      {
        Inside(old(fstab), begin, current, fstab, n);
        if !mounted {
          NextTry(old(fstab), begin, t1, world, fstab, trace, current);
          fstab := fstab[current := fstab[current].(blkDevice := fstab[begin].blkDevice)];
          mounted := Do(Mount(fstab[current]));
          n := n + 1;
        }
        current := current + 1;
      }
      Inside(old(fstab), begin, current, fstab, n);
      DoneTrying(old(fstab), begin, old(trace), world, fstab, trace, current, n, mounted);
      end := current;
    }

    method TrySwitchSystemAsRoot() returns (ok: bool)
      modifies this`fstab, this`trace
      ensures var p := SystemFirst(old(fstab), old(trace), world);
              fstab == p.fstab && trace == p.trace && ok == p.ok
    {
      var at := 0;
      while at < |fstab| && fstab[at].mountPoint != "/system"
        invariant 0 <= at <= |fstab|
        invariant SystemAt(fstab, at) == SystemAt(fstab, 0)
      {
        at := at + 1;
      }
      if at == |fstab| {
        return true;
      }
      var mounted, end := MountPartition(at);
      if !mounted {
        return false;
      }
      var switched := Do(SwitchRoot("/system"));
      return true;
    }

    /** The main loop. */
    method MountRuns() returns (ok: bool)
      modifies this`fstab, this`trace
      ensures var p := PassFrom(old(fstab), 0, old(trace), world);
              fstab == p.fstab && trace == p.trace && ok == p.ok
    {
      var current := 0;
      while current < |fstab|
        invariant 0 <= current <= |fstab|
        invariant SameResult(PassFrom(fstab, current, trace, world), PassFrom(old(fstab), 0, old(trace), world))
        decreases |fstab| - current
      {
        if Skipped(fstab[current]) {
          current := current + 1;
        } else {
          ghost var v := VisitAt(fstab, current, trace, world);
          VisitTriesInOrder(fstab, current, trace, world);
          ShapeFacts(fstab, v.fstab, current);
          var mounted, end := MountPartition(current);
          if !mounted && !Forgiven(fstab[current]) {
            return false;
          }
          current := end;
        }
      }
      return true;
    }

    method MountOverlays()
      modifies this`trace
      ensures trace == old(trace) + Overlays(fstab)
    {
      var i := 0;
      while i < |fstab|
        invariant 0 <= i <= |fstab|
        invariant trace + Overlays(fstab[i..]) == old(trace) + Overlays(fstab)
      {
        assert fstab[i..][1..] == fstab[i + 1..];
        if fstab[i].fsType == "overlay" {
          Assoc(trace, [MountOverlay(fstab[i])], Overlays(fstab[i + 1..]));
          var ignored := Do(MountOverlay(fstab[i]));
        }
        i := i + 1;
      }
    }

    method GetEntryForMountPoint(point: string) returns (found: bool)
      ensures found == Has(fstab, point)
    {
      var i := 0;
      while i < |fstab|
        invariant 0 <= i <= |fstab|
        invariant forall j :: 0 <= j < i ==> fstab[j].mountPoint != point
      {
        if fstab[i].mountPoint == point {
          return true;
        }
        i := i + 1;
      }
      return false;
    }

    method MountPartitions() returns (ok: bool)
      modifies this`fstab, this`trace
      ensures var p := MountAll(old(fstab), old(trace), world);
              && ok == p.ok
              && (fstab, trace) == if p.ok then Finished(p, rootEntry, world) else (p.fstab, p.trace)
    {
      ok := TrySwitchSystemAsRoot();
      if !ok {
        return;
      }
      ok := MountRuns();
      if !ok {
        return;
      }
      MountOverlays();
      var system := GetEntryForMountPoint("/system");
      var root := GetEntryForMountPoint("/");
      if !system && !root {
        var read := Do(ReadRootEntry);
        if read {
          fstab := fstab + [rootEntry];
        }
      }
      var ignored := Do(OverlayAll);
    }
  }
}
