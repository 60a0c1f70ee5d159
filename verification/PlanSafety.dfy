/** Readiness is what keeps the planner from dereferencing a missing device, and what it binds lies under
    a target that it mounted. */
module PlanSafety {
  import opened Wrappers
  import opened MountTypes
  import opened MountHandlers
  import opened MountPlans

  ghost predicate KernelWorks(k: Kernel) {
    && k.mountAndroid && k.mountFirmware
    && (forall image :: k.copies(image))
    && (forall image, rw :: k.loopDevice(image, rw) != "")
  }

  predicate SystemFound(s: Mounts) {
    forall key :: key in s.system ==> s.system[key].Some?
  }

  predicate UserdataFound(s: Mounts) {
    forall key :: key in s.userdata && !SkipCache(s, key) ==> s.userdata[key].Some?
  }

  predicate PartitionsSuffice(s: Mounts, recovery: bool) {
    && (!recovery && FromDevices(s.params) ==> SystemFound(s))
    && (!recovery && s.params.userdata == UserdataStdParts ==> UserdataFound(s))
  }

  /** What a boot mode needs; Ready asks for the partitions even when recovery does not. */
  predicate Suffices(s: Mounts, recovery: bool) {
    && PartitionsSuffice(s, recovery)
    && (s.needAndroidDir ==> s.androidDevice.Some?)
    && (s.needFirmwareDir ==> s.firmwareDevice.Some?)
  }

  lemma {:induction false} SystemGroupsNull(m: DeviceMap, keys: seq<string>)
    requires forall i :: 0 <= i < |keys| ==> keys[i] in m
    ensures SystemGroups(m, keys) != Fatal
    ensures SystemGroups(m, keys) == NullDevice <==> exists i :: 0 <= i < |keys| && m[keys[i]].None?
    decreases |keys|
  {
    if keys == [] {
    } else {
      SystemGroupsNull(m, keys[1..]);
      if m[keys[0]].Some? {
        assert forall i :: 0 < i < |keys| ==> keys[i] == keys[1..][i - 1];
        assert forall i :: 0 <= i < |keys| - 1 ==> keys[1..][i] == keys[i + 1];
      }
    }
  }

  lemma {:induction false} UserdataGroupsNull(s: Mounts, keys: seq<string>)
    requires forall i :: 0 <= i < |keys| ==> keys[i] in s.userdata
    ensures UserdataGroups(s, keys) != Fatal
    ensures UserdataGroups(s, keys) == NullDevice <==>
            exists i :: 0 <= i < |keys| && !SkipCache(s, keys[i]) && s.userdata[keys[i]].None?
    decreases |keys|
  {
    if keys == [] {
    } else {
      UserdataGroupsNull(s, keys[1..]);
      if SkipCache(s, keys[0]) || s.userdata[keys[0]].Some? {
        assert forall i :: 0 < i < |keys| ==> keys[i] == keys[1..][i - 1];
        assert forall i :: 0 <= i < |keys| - 1 ==> keys[1..][i] == keys[i + 1];
      }
    }
  }

  lemma {:induction false} ImageGroupsNull(s: Mounts, k: Kernel, d: BlockDevice, images: seq<string>)
    ensures ImageGroups(s, k, d, images) != NullDevice
    ensures KernelWorks(k) ==> ImageGroups(s, k, d, images).Ok?
    decreases |images|
  {
    if images == [] {
    } else {
      ImageGroupsNull(s, k, d, images[1..]);
    }
  }

  lemma {:induction false} BindGroupsOk(s: Mounts, d: BlockDevice, subdirs: seq<string>)
    ensures BindGroups(s, d, subdirs).Ok?
    decreases |subdirs|
  {
    if subdirs == [] {
    } else {
      BindGroupsOk(s, d, subdirs[1..]);
    }
  }

  lemma SystemNull(s: Mounts, recovery: bool)
    requires MountsInv(s)
    ensures var r := SystemSection(s, recovery);
            r != Fatal && (r == NullDevice <==> !recovery && FromDevices(s.params) && !SystemFound(s))
  {
    SystemGroupsNull(s.system, SYSTEM_PARTITIONS);
    assert forall i :: 0 <= i < |SYSTEM_PARTITIONS| ==> SYSTEM_PARTITIONS[i] in s.system;
  }

  lemma UserdataNull(s: Mounts, recovery: bool)
    requires MountsInv(s)
    ensures var r := UserdataSection(s, recovery);
            r != Fatal && (r == NullDevice <==> !recovery && s.params.userdata == UserdataStdParts && !UserdataFound(s))
  {
    UserdataGroupsNull(s, USERDATA_PARTITIONS);
    assert forall i :: 0 <= i < |USERDATA_PARTITIONS| ==> USERDATA_PARTITIONS[i] in s.userdata;
  }

  /** With the android device present, the sections that use it are safe. */
  lemma AndroidUsersNull(s: Mounts, recovery: bool, k: Kernel)
    requires MountsInv(s) && (s.needAndroidDir ==> s.androidDevice.Some?)
    ensures AndroidSection(s, k) != NullDevice
    ensures ImagesSection(s, recovery, k) != NullDevice
    ensures BindSection(s, recovery).Ok?
    ensures KernelWorks(k) ==> AndroidSection(s, k).Ok?
    ensures KernelWorks(k) && FromDirs(s.params) ==> ImagesSection(s, recovery, k).Ok?
  {
    if s.needAndroidDir {
      var d := s.androidDevice.value;
      ImageGroupsNull(s, k, d, PartitionImages(s.params, recovery, d.images));
      BindGroupsOk(s, d, d.subdirs);
    }
  }

  /** The first section that is not Ok decides. */
  lemma {:induction false} FirstFailureDecides(ss: seq<Section>, j: nat)
    requires j < |ss| && !ss[j].Ok?
    requires forall n :: 0 <= n < j ==> ss[n].Ok?
    ensures ThenAll(ss) == ss[j]
    decreases |ss|
  {
    if j == 0 {
    } else {
      FirstFailureDecides(ss[1..], j - 1);
    }
  }

  lemma {:induction false} NullComesFromASection(ss: seq<Section>)
    requires ThenAll(ss) == NullDevice
    ensures exists n :: 0 <= n < |ss| && ss[n] == NullDevice
    decreases |ss|
  {
    if ss[0] != NullDevice {
      NullComesFromASection(ss[1..]);
      var n :| 0 <= n < |ss[1..]| && ss[1..][n] == NullDevice;
      assert ss[n + 1] == NullDevice;
    }
  }

  lemma PartitionsNull(s: Mounts, recovery: bool)
    requires MountsInv(s)
    ensures SystemSection(s, recovery) != NullDevice && UserdataSection(s, recovery) != NullDevice <==>
            PartitionsSuffice(s, recovery)
  {
    SystemNull(s, recovery);
    UserdataNull(s, recovery);
  }

  lemma FoundPartitionsNotNull(s: Mounts, recovery: bool)
    requires MountsInv(s) && PartitionsSuffice(s, recovery)
    ensures SystemSection(s, recovery) != NullDevice && UserdataSection(s, recovery) != NullDevice
  {
    PartitionsNull(s, recovery);
  }

  lemma FoundDirsNotNull(s: Mounts, recovery: bool, k: Kernel)
    requires MountsInv(s) && (s.needAndroidDir ==> s.androidDevice.Some?)
    requires s.needFirmwareDir ==> s.firmwareDevice.Some?
    ensures AndroidSection(s, k) != NullDevice && ImagesSection(s, recovery, k) != NullDevice
    ensures BindSection(s, recovery) != NullDevice && TmpfsSection(s, recovery) != NullDevice
    ensures FirmwareDirSection(s, k) != NullDevice
  {
    AndroidUsersNull(s, recovery, k);
  }

  /** Over the bare results, so that what the sections compute stays out of the proof. */
  lemma NoSectionNull(a: Section, b: Section, c: Section, d: Section, e: Section, f: Section, g: Section)
    requires a != NullDevice && b != NullDevice && c != NullDevice && d != NullDevice && e != NullDevice
    requires f != NullDevice && g != NullDevice
    ensures ThenAll([a, b, c, d, e, f, g]) != NullDevice
  {
    if ThenAll([a, b, c, d, e, f, g]) == NullDevice {
      NullComesFromASection([a, b, c, d, e, f, g]);
      assert false;
    }
  }

  /** Whatever the system calls answer, a sufficient state never leads to a null dereference. */
  lemma SufficientNeverNull(s: Mounts, recovery: bool, k: Kernel)
    requires MountsInv(s) && Suffices(s, recovery)
    ensures Plan(s, recovery, k) != NullDevice
  {
    FoundPartitionsNotNull(s, recovery);
    FoundDirsNotNull(s, recovery, k);
    NoSectionNull(AndroidSection(s, k), SystemSection(s, recovery), UserdataSection(s, recovery),
      ImagesSection(s, recovery, k), BindSection(s, recovery), TmpfsSection(s, recovery), FirmwareDirSection(s, k));
  }

  lemma FirstNull(ss: seq<Section>, j: nat)
    requires j < |ss| == 7 && ss[j] == NullDevice
    requires (j > 0 ==> ss[0].Ok?) && (j > 1 ==> ss[1].Ok?) && (j > 2 ==> ss[2].Ok?)
    requires j > 3 ==> ss[3].Ok? && ss[4].Ok? && ss[5].Ok?
    ensures ThenAll(ss) == NullDevice
  {
    FirstFailureDecides(ss, j);
  }

  /** When every system call works and the android device is there, what does not dereference null works. */
  lemma WorkingSections(s: Mounts, recovery: bool, k: Kernel)
    requires MountsInv(s) && KernelWorks(k) && (s.needAndroidDir ==> s.androidDevice.Some?)
    ensures AndroidSection(s, k).Ok? && BindSection(s, recovery).Ok? && TmpfsSection(s, recovery).Ok?
    ensures SystemSection(s, recovery) != NullDevice ==> SystemSection(s, recovery).Ok?
    ensures UserdataSection(s, recovery) != NullDevice ==> UserdataSection(s, recovery).Ok?
    ensures FromDirs(s.params) ==> ImagesSection(s, recovery, k).Ok?
  {
    SystemNull(s, recovery);
    UserdataNull(s, recovery);
    AndroidUsersNull(s, recovery, k);
  }

  lemma FirmwareNull(s: Mounts, k: Kernel)
    requires MountsInv(s) && s.needFirmwareDir && s.firmwareDevice.None?
    ensures FirmwareDirSection(s, k) == NullDevice && FromDirs(s.params)
  {
  }

  lemma MissingSomething(s: Mounts, recovery: bool, k: Kernel)
    requires MountsInv(s) && !Suffices(s, recovery) && (s.needAndroidDir ==> s.androidDevice.Some?)
    ensures || SystemSection(s, recovery) == NullDevice || UserdataSection(s, recovery) == NullDevice
            || (FirmwareDirSection(s, k) == NullDevice && FromDirs(s.params))
  {
    PartitionsNull(s, recovery);
    if s.needFirmwareDir && s.firmwareDevice.None? {
      FirmwareNull(s, k);
    }
  }

  lemma FirstMissing(s: Mounts, recovery: bool, k: Kernel)
    requires MountsInv(s) && KernelWorks(k) && (s.needAndroidDir ==> s.androidDevice.Some?)
    requires || SystemSection(s, recovery) == NullDevice || UserdataSection(s, recovery) == NullDevice
             || (FirmwareDirSection(s, k) == NullDevice && FromDirs(s.params))
    ensures Plan(s, recovery, k) == NullDevice
  {
    WorkingSections(s, recovery, k);
    var ss := Sections(s, recovery, k);
    FirstNull(ss, if ss[1] == NullDevice then 1 else if ss[2] == NullDevice then 2 else 6);
  }

  /** And an insufficient one always does, when no system call fails first. */
  lemma InsufficientIsNull(s: Mounts, recovery: bool, k: Kernel)
    requires MountsInv(s) && !Suffices(s, recovery) && KernelWorks(k)
    ensures Plan(s, recovery, k) == NullDevice
  {
    if s.needAndroidDir && s.androidDevice.None? {
      assert Sections(s, recovery, k)[0] == NullDevice;
      FirstNull(Sections(s, recovery, k), 0);
    } else {
      MissingSomething(s, recovery, k);
      FirstMissing(s, recovery, k);
    }
  }

  lemma NullDereferenceIff(s: Mounts, recovery: bool, k: Kernel)
    requires MountsInv(s) && KernelWorks(k)
    ensures Plan(s, recovery, k) == NullDevice <==> !Suffices(s, recovery)
  {
    if Suffices(s, recovery) {
      SufficientNeverNull(s, recovery, k);
    } else {
      InsufficientIsNull(s, recovery, k);
    }
  }

  /** CanQuitUeventd is enough for both boot modes and exactly what the normal mode needs. */
  lemma ReadyIsSufficient(s: Mounts, recovery: bool)
    ensures Ready(s) ==> Suffices(s, recovery)
    ensures Ready(s) <==> Suffices(s, false)
  {
  }

  /** The state after ParseConfig and any sequence of block device events. */
  function Observed(boot: map<string, string>, rs: seq<Report>): Mounts {
    ReportedAll(Configured(ParamsOf(boot)), rs)
  }

  lemma ObservedInv(boot: map<string, string>, rs: seq<Report>)
    requires forall i :: 0 <= i < |rs| ==> ProbeValid(rs[i].device)
    ensures MountsInv(Observed(boot, rs))
  {
    ConfiguredInv(ParamsOf(boot));
    ReportedAllInv(Configured(ParamsOf(boot)), rs);
  }

  ghost predicate NeverNull(s: Mounts) {
    MountsInv(s) && forall recovery, k :: Plan(s, recovery, k) != NullDevice
  }

  /** From boot parameters and any sequence of block device events, for both boot modes and whatever the
      system calls answer. */
  lemma ReadyPlannerIsSafe(boot: map<string, string>, rs: seq<Report>)
    requires forall i :: 0 <= i < |rs| ==> ProbeValid(rs[i].device)
    requires Ready(Observed(boot, rs))
    ensures NeverNull(Observed(boot, rs))
  {
    ObservedInv(boot, rs);
    ReadyNeverNull(Observed(boot, rs));
  }

  lemma ReadyNeverNull(s: Mounts)
    requires MountsInv(s) && Ready(s)
    ensures NeverNull(s)
  {
    forall recovery, k
      ensures Plan(s, recovery, k) != NullDevice
    {
      ReadyIsSufficient(s, recovery);
      SufficientNeverNull(s, recovery, k);
    }
  }
}
