/** Readiness is not monotone: when a ready mount handler stops being ready. */
module Readiness {
  import opened Wrappers
  import opened MountTypes
  import opened MountHandlers

  /** The ith report is probed: not ignored, and no earlier one for the same device was. */
  predicate Accepted(s: Mounts, rs: seq<Report>, i: nat)
    requires i < |rs|
  {
    var d := rs[i].device;
    && !Ignored(d.devname) && d.devpath !in s.parsed
    && forall j :: 0 <= j < i && rs[j].device.devpath == d.devpath ==> Ignored(rs[j].device.devname)
  }

  predicate CacheNeeded(s: Mounts, rs: seq<Report>) {
    s.needMountCache || exists i: nat :: i < |rs| && Accepted(s, rs, i) && rs[i].cacheDir
  }

  predicate NamesCache(p: Params, d: BlockDevice) {
    p.userdata == UserdataStdParts && d.partname == "cache" && SystemName(p, d) == ""
  }

  predicate CacheFound(s: Mounts, rs: seq<Report>) {
    || Present(s.userdata, "cache")
    || exists i: nat :: i < |rs| && Accepted(s, rs, i) && NamesCache(s.params, rs[i].device)
  }

  // One report

  lemma UpdatedKeepsParsed(s: Mounts, d: BlockDevice)
    ensures Updated(s, d).parsed == s.parsed && Updated(s, d).params == s.params
    ensures Updated(s, d).needMountCache == s.needMountCache
  {
  }

  lemma UpdatedCache(s: Mounts, d: BlockDevice)
    ensures Present(Updated(s, d).userdata, "cache") <==> Present(s.userdata, "cache") || NamesCache(s.params, d)
  {
    assert USERDATA_PARTITIONS[0] == "cache";
  }

  lemma OneReport(s: Mounts, r: Report)
    ensures var s' := Reported(s, r); var accepted := !Ignored(r.device.devname) && r.device.devpath !in s.parsed;
            && s'.params == s.params
            && (forall p :: p in s'.parsed <==> p in s.parsed || (accepted && p == r.device.devpath))
            && (s'.needMountCache <==> s.needMountCache || (accepted && r.cacheDir))
            && (Present(s'.userdata, "cache") <==>
                 Present(s.userdata, "cache") || (accepted && NamesCache(s.params, r.device)))
  {
    var d := r.device;
    if d.devpath !in s.parsed && !Ignored(d.devname) {
      var t := s.(parsed := s.parsed[d.devpath := d], needMountCache := s.needMountCache || r.cacheDir);
      UpdatedKeepsParsed(t, d);
      UpdatedCache(t, d);
    }
  }

  /** Acceptance of a later report, seen after the first. */
  lemma AcceptedLater(s: Mounts, rs: seq<Report>, i: nat)
    requires 0 < i < |rs|
    ensures Accepted(s, rs, i) <==> Accepted(Reported(s, rs[0]), rs[1..], i - 1)
  {
    OneReport(s, rs[0]);
    var rest := rs[1..];
    assert rest[i - 1] == rs[i];
    assert forall j :: 0 <= j < i - 1 ==> rest[j] == rs[j + 1];
    assert forall j :: 0 < j < i ==> rs[j] == rest[j - 1];
  }

  // All reports

  lemma CacheNeededStep(s: Mounts, rs: seq<Report>)
    requires rs != []
    ensures CacheNeeded(s, rs) <==> CacheNeeded(Reported(s, rs[0]), rs[1..])
  {
    OneReport(s, rs[0]);
    var rest := rs[1..];
    forall i: nat | 0 < i < |rs|
      ensures Accepted(s, rs, i) <==> Accepted(Reported(s, rs[0]), rest, i - 1)
    {
      AcceptedLater(s, rs, i);
    }
    assert forall i: nat :: i < |rest| ==> rest[i] == rs[i + 1];
    if i: nat :| i < |rest| && Accepted(Reported(s, rs[0]), rest, i) && rest[i].cacheDir {
      assert Accepted(s, rs, i + 1);
    }
    if i: nat :| i < |rs| && Accepted(s, rs, i) && rs[i].cacheDir {
      if i > 0 {
        assert Accepted(Reported(s, rs[0]), rest, i - 1) && rest[i - 1].cacheDir;
      }
    }
    assert Accepted(s, rs, 0) <==> !Ignored(rs[0].device.devname) && rs[0].device.devpath !in s.parsed;
  }

  lemma CacheFoundStep(s: Mounts, rs: seq<Report>)
    requires rs != []
    ensures CacheFound(s, rs) <==> CacheFound(Reported(s, rs[0]), rs[1..])
  {
    OneReport(s, rs[0]);
    var rest := rs[1..];
    forall i: nat | 0 < i < |rs|
      ensures Accepted(s, rs, i) <==> Accepted(Reported(s, rs[0]), rest, i - 1)
    {
      AcceptedLater(s, rs, i);
    }
    assert forall i: nat :: i < |rest| ==> rest[i] == rs[i + 1];
    if i: nat :| i < |rest| && Accepted(Reported(s, rs[0]), rest, i) && NamesCache(s.params, rest[i].device) {
      assert Accepted(s, rs, i + 1);
    }
    if i: nat :| i < |rs| && Accepted(s, rs, i) && NamesCache(s.params, rs[i].device) {
      if i > 0 {
        assert Accepted(Reported(s, rs[0]), rest, i - 1) && NamesCache(s.params, rest[i - 1].device);
      }
    }
    assert Accepted(s, rs, 0) <==> !Ignored(rs[0].device.devname) && rs[0].device.devpath !in s.parsed;
  }

  lemma {:induction false} CacheAfterAll(s: Mounts, rs: seq<Report>)
    ensures ReportedAll(s, rs).needMountCache <==> CacheNeeded(s, rs)
    ensures Present(ReportedAll(s, rs).userdata, "cache") <==> CacheFound(s, rs)
    decreases |rs|
  {
    if rs == [] {
    } else {
      CacheAfterAll(Reported(s, rs[0]), rs[1..]);
      CacheNeededStep(s, rs);
      CacheFoundStep(s, rs);
    }
  }

  lemma ReadyFailsAtCache(s: Mounts, s': Mounts)
    requires Ready(s) && StepKeeps(s, s') && MountsInv(s)
    ensures Ready(s') <==>
            !(s.params.userdata == UserdataStdParts && s'.needMountCache && !Present(s'.userdata, "cache"))
  {
    assert "cache" == USERDATA_PARTITIONS[0];
  }

  /** A ready state is no longer ready after some reports exactly when userdata comes from partitions, a
      directory /cache was or is found, and no cache partition was or is. */
  lemma ReadyLostIff(s: Mounts, rs: seq<Report>)
    requires MountsInv(s) && Ready(s) && forall i :: 0 <= i < |rs| ==> ProbeValid(rs[i].device)
    ensures !Ready(ReportedAll(s, rs)) <==>
            s.params.userdata == UserdataStdParts && CacheNeeded(s, rs) && !CacheFound(s, rs)
  {
    ReportedAllInv(s, rs);
    ReadyFailsAtCache(s, ReportedAll(s, rs));
    CacheAfterAll(s, rs);
  }

  // A boot that becomes ready and then is not

  /** System images on removable media, userdata on partitions. */
  const MIXED := Params(Disable, SystemImages, UserdataStdParts)

  function Device(name: string, partname: string, system: string, android: string): BlockDevice {
    BlockDevice(name, "/dev/block/" + name, partname, true, "ext4", "discard", system, [], android, "", [], [])
  }

  const MEDIA := Report(Device("sda1", "", "", "android"), false)
  const METADATA := Report(Device("sdb1", "metadata", "", ""), false)
  const USERDATA := Report(Device("sdb2", "userdata", "", ""), false)
  /** An installed system, whose root has a directory /cache. */
  const INSTALLED := Report(Device("sdb3", "system", "system", ""), true)

  lemma NotIgnored(name: string)
    requires |name| >= 1 && name[0] == 's'
    ensures !Ignored(name)
  {
    assert forall i :: 0 <= i < |IGNORED_PREFIXES| ==> IGNORED_PREFIXES[i][0] != 's';
  }

  lemma NewPath(name: string, other: string)
    requires name != other
    ensures "/dev/block/" + name != "/dev/block/" + other
  {
    assert ("/dev/block/" + name)[11..] == name && ("/dev/block/" + other)[11..] == other;
  }

  /** A state of this boot in which some devices have been probed. */
  ghost predicate Mixed(s: Mounts, names: set<string>) {
    && MountsInv(s) && s.params == MIXED && !s.needMountCache && !Present(s.userdata, "cache")
    && (forall p :: p in s.parsed ==> exists n :: n in names && p == "/dev/block/" + n)
  }

  lemma MixedStep(s: Mounts, names: set<string>, r: Report)
    requires Mixed(s, names) && ProbeValid(r.device) && !r.cacheDir && r.device.partname != "cache"
    requires r.device.devname !in names && |r.device.devname| >= 1 && r.device.devname[0] == 's'
    requires r.device.devpath == "/dev/block/" + r.device.devname
    ensures Mixed(Reported(s, r), names + {r.device.devname})
    ensures r.device.devpath !in s.parsed && !Ignored(r.device.devname)
  {
    NotIgnored(r.device.devname);
    forall n | n in names
      ensures "/dev/block/" + n != r.device.devpath
    {
      NewPath(n, r.device.devname);
    }
    OneReport(s, r);
    ReportedInv(s, r);
    forall p | p in Reported(s, r).parsed
      ensures exists n :: n in names + {r.device.devname} && p == "/dev/block/" + n
    {
      if p == r.device.devpath {
        assert r.device.devname in names + {r.device.devname};
      }
    }
  }

  lemma AfterMedia(s: Mounts)
    requires Mixed(s, {})
    ensures Mixed(Reported(s, MEDIA), {"sda1"}) && Reported(s, MEDIA).androidDevice.Some?
  {
    NotIgnored("sda1");
    MixedStep(s, {}, MEDIA);
    assert {} + {"sda1"} == {"sda1"};
  }

  predicate PartitionReport(r: Report, name: string, partname: string) {
    r == Report(Device(name, partname, "", ""), false)
  }

  lemma AfterPartition(s: Mounts, names: set<string>, r: Report, name: string, partname: string)
    requires Mixed(s, names) && PartitionReport(r, name, partname) && name !in names && |name| >= 1 && name[0] == 's'
    requires partname in USERDATA_PARTITIONS && partname != "cache"
    ensures Mixed(Reported(s, r), names + {name}) && Present(Reported(s, r).userdata, partname)
    ensures StepKeeps(s, Reported(s, r))
  {
    MixedStep(s, names, r);
    ReportedInv(s, r);
  }

  lemma ReadyWith(s: Mounts, names: set<string>)
    requires Mixed(s, names) && s.androidDevice.Some?
    requires Present(s.userdata, "metadata") && Present(s.userdata, "userdata")
    ensures Ready(s)
  {
    forall k | k in s.userdata && !(k == "cache" && !s.needMountCache)
      ensures s.userdata[k].Some?
    {
      assert k in USERDATA_PARTITIONS;
    }
  }

  lemma AfterMetadata(s: Mounts)
    requires Mixed(s, {"sda1"})
    ensures Mixed(Reported(s, METADATA), {"sda1", "sdb1"}) && Present(Reported(s, METADATA).userdata, "metadata")
    ensures StepKeeps(s, Reported(s, METADATA))
  {
    assert "metadata" == USERDATA_PARTITIONS[1] && "metadata"[0] != "cache"[0] && "sdb1"[2] != "sda1"[2];
    AfterPartition(s, {"sda1"}, METADATA, "sdb1", "metadata");
    assert {"sda1"} + {"sdb1"} == {"sda1", "sdb1"};
  }

  lemma AfterUserdata(s: Mounts)
    requires Mixed(s, {"sda1", "sdb1"})
    ensures Mixed(Reported(s, USERDATA), {"sda1", "sdb1", "sdb2"})
    ensures Present(Reported(s, USERDATA).userdata, "userdata")
    ensures StepKeeps(s, Reported(s, USERDATA))
  {
    assert "userdata" == USERDATA_PARTITIONS[2] && "userdata"[0] != "cache"[0];
    assert "sdb2"[2] != "sda1"[2] && "sdb2"[3] != "sdb1"[3];
    AfterPartition(s, {"sda1", "sdb1"}, USERDATA, "sdb2", "userdata");
    assert {"sda1", "sdb1"} + {"sdb2"} == {"sda1", "sdb1", "sdb2"};
  }

  lemma ReadyFrom(s: Mounts)
    requires Mixed(s, {"sda1"}) && s.androidDevice.Some?
    ensures var s' := Reported(Reported(s, METADATA), USERDATA);
            Mixed(s', {"sda1", "sdb1", "sdb2"}) && Ready(s')
  {
    var t := Reported(s, METADATA);
    AfterMetadata(s);
    AfterUserdata(t);
    KeepsTransitive(s, t, Reported(t, USERDATA));
    ReadyWith(Reported(t, USERDATA), {"sda1", "sdb1", "sdb2"});
  }

  /** The state before the installed system is seen. */
  function BeforeInstalled(): Mounts {
    Reported(Reported(Reported(Configured(MIXED), MEDIA), METADATA), USERDATA)
  }

  lemma BecomesReady()
    ensures Mixed(BeforeInstalled(), {"sda1", "sdb1", "sdb2"}) && Ready(BeforeInstalled())
  {
    ConfiguredInv(MIXED);
    AfterMedia(Configured(MIXED));
    ReadyFrom(Reported(Configured(MIXED), MEDIA));
  }

  lemma InstalledIsNew(s: Mounts)
    requires Mixed(s, {"sda1", "sdb1", "sdb2"})
    ensures INSTALLED.device.devpath !in s.parsed && !Ignored(INSTALLED.device.devname)
  {
    NotIgnored("sdb3");
    assert "sdb3"[2] != "sda1"[2] && "sdb3"[3] != "sdb1"[3] && "sdb3"[3] != "sdb2"[3];
    forall n | n in {"sda1", "sdb1", "sdb2"}
      ensures "/dev/block/" + n != INSTALLED.device.devpath
    {
      NewPath(n, "sdb3");
    }
  }

  lemma LostAt(s: Mounts, r: Report)
    requires MountsInv(s) && Ready(s) && ProbeValid(r.device) && s.params.userdata == UserdataStdParts
    requires r.device.devpath !in s.parsed && !Ignored(r.device.devname)
    requires r.cacheDir && r.device.partname != "cache" && !Present(s.userdata, "cache")
    ensures !Ready(Reported(s, r))
  {
    var rs := [r];
    assert Accepted(s, rs, 0) && rs[0].cacheDir;
    assert rs[1..] == [];
    assert ReportedAll(s, rs) == Reported(s, r);
    ReadyLostIff(s, rs);
  }

  lemma InstalledReport()
    ensures ProbeValid(INSTALLED.device) && INSTALLED.cacheDir && INSTALLED.device.partname != "cache"
  {
    assert "system" == SYSTEM_PARTITIONS[3] && "system"[0] != "cache"[0];
  }

  lemma LostWhenInstalled(s: Mounts)
    requires Mixed(s, {"sda1", "sdb1", "sdb2"}) && Ready(s)
    ensures !Ready(Reported(s, INSTALLED))
  {
    InstalledIsNew(s);
    InstalledReport();
    LostAt(s, INSTALLED);
  }

  /** The handler is ready, then an installed system is probed, and it is not ready any more. */
  lemma ReadinessLost()
    ensures MountsInv(BeforeInstalled()) && Ready(BeforeInstalled())
    ensures !Ready(Reported(BeforeInstalled(), INSTALLED))
  {
    BecomesReady();
    LostWhenInstalled(BeforeInstalled());
  }
}
