/** Where the planned bind mounts take their sources from, and when these are still mounted once the plan is
    executed. */
module BindSources {
  import opened Wrappers
  import opened MountTypes
  import opened MountHandlers
  import opened MountPlans
  import PlanSafety

  function FirmwareTarget(s: Mounts): set<string> {
    if FromDirs(s.params) && s.firmwareDevice != s.androidDevice then {FIRMWARE_TARGET} else {}
  }

  /** The targets that planning mounts. */
  function MountedTargets(s: Mounts): set<string> {
    (if s.needAndroidDir then {ANDROID_TARGET} else {}) + FirmwareTarget(s)
  }

  /** The targets still mounted when MountPartitions runs. */
  function TargetsLeft(s: Mounts, recovery: bool, k: Kernel): set<string> {
    if !recovery && k.umountAndroid then MountedTargets(s) - {ANDROID_TARGET} else MountedTargets(s)
  }

  predicate Under(target: string, path: string) {
    target + "/" <= path
  }

  ghost predicate Available(targets: set<string>, e: FstabEntry) {
    e.bind ==> exists t :: t in targets && Under(t, e.blkDevice)
  }

  ghost predicate GroupAvailable(targets: set<string>, g: Group) {
    forall e :: e in g.entries ==> Available(targets, e)
  }

  ghost predicate AllAvailable(targets: set<string>, gs: seq<Group>) {
    forall g :: g in gs ==> GroupAvailable(targets, g)
  }

  lemma AvailableParts(targets: set<string>, a: seq<Group>, b: seq<Group>)
    ensures AllAvailable(targets, a + b) <==> AllAvailable(targets, a) && AllAvailable(targets, b)
  {
    assert forall g :: g in a ==> g in a + b;
    assert forall g :: g in b ==> g in a + b;
  }

  lemma TargetsApart(path: string)
    ensures !(Under(ANDROID_TARGET, path) && Under(FIRMWARE_TARGET, path))
  {
    assert ANDROID_TARGET[25] != FIRMWARE_TARGET[25];
    assert Under(ANDROID_TARGET, path) ==> path[25] == ANDROID_TARGET[25];
  }

  // Sections without bind mounts

  lemma {:induction false} CandidatesBindNothing(e: FstabEntry, fsTypes: seq<string>)
    requires !e.bind
    ensures forall c :: c in Candidates(e, fsTypes) || c in WithRetry(e, fsTypes) ==> !c.bind
    decreases |fsTypes|
  {
    if fsTypes == [] {
    } else {
      CandidatesBindNothing(e, fsTypes[1..]);
    }
  }

  lemma {:induction false} SystemBindsNothing(m: DeviceMap, keys: seq<string>, targets: set<string>)
    requires (forall i :: 0 <= i < |keys| ==> keys[i] in m) && SystemGroups(m, keys).Ok?
    ensures AllAvailable(targets, SystemGroups(m, keys).value)
    decreases |keys|
  {
    if keys == [] {
    } else {
      SystemBindsNothing(m, keys[1..], targets);
      var d := m[keys[0]].value;
      CandidatesBindNothing(PartitionEntry(d.devpath, keys[0], !d.rw), SYSTEM_FS);
    }
  }

  lemma {:induction false} UserdataBindsNothing(s: Mounts, keys: seq<string>, targets: set<string>)
    requires (forall i :: 0 <= i < |keys| ==> keys[i] in s.userdata) && UserdataGroups(s, keys).Ok?
    ensures AllAvailable(targets, UserdataGroups(s, keys).value)
    decreases |keys|
  {
    if keys == [] {
    } else {
      UserdataBindsNothing(s, keys[1..], targets);
      if !SkipCache(s, keys[0]) {
        var d := s.userdata[keys[0]].value;
        CandidatesBindNothing(UserdataEntry(d.devpath, d.partname), USERDATA_FS);
      }
    }
  }

  lemma {:induction false} ImagesBindNothing(s: Mounts, k: Kernel, d: BlockDevice, images: seq<string>,
                                             targets: set<string>)
    requires ImageGroups(s, k, d, images).Ok?
    ensures AllAvailable(targets, ImageGroups(s, k, d, images).value)
    decreases |images|
  {
    if images == [] {
    } else {
      ImagesBindNothing(s, k, d, images[1..], targets);
      var dev := k.loopDevice(ImageSource(s.params, AndroidPath(d), images[0]), d.rw);
      CandidatesBindNothing(PartitionEntry(dev, Stem(images[0]), !d.rw), SYSTEM_FS);
    }
  }

  lemma FirmwareImageBindsNothing(s: Mounts, recovery: bool, k: Kernel, d: BlockDevice, targets: set<string>)
    requires FirmwareImageSection(s, recovery, k, d).Ok?
    ensures AllAvailable(targets, FirmwareImageSection(s, recovery, k, d).value)
  {
    var image := LastFirmware(s.params, recovery, d.images);
    var dev := k.loopDevice(ImageSource(s.params, AndroidPath(d), image), d.rw);
    CandidatesBindNothing(FirmwareEntry(dev, "", !d.rw, false), FIRMWARE_FS);
  }

  // Sections with bind mounts

  lemma PathUnder(d: BlockDevice, dir: string)
    ensures Under(ANDROID_TARGET, AndroidPath(d) + "/" + dir)
    ensures Under(ANDROID_TARGET, ANDROID_TARGET + "/" + dir)
    ensures Under(FIRMWARE_TARGET, FIRMWARE_TARGET + "/" + dir)
  {
    assert AndroidPath(d) + "/" + dir == ANDROID_TARGET + "/" + (d.androidDir + "/" + dir);
  }

  predicate Bound(s: Mounts, subdir: string) {
    subdir in USERDATA_PARTITIONS && !SkipCache(s, subdir)
  }

  /** Sources under the android target are all that the directory section binds. */
  lemma {:induction false} BindsUnderAndroid(s: Mounts, d: BlockDevice, subdirs: seq<string>, targets: set<string>)
    requires BindGroups(s, d, subdirs).Ok? && targets <= {ANDROID_TARGET, FIRMWARE_TARGET}
    ensures AllAvailable(targets, BindGroups(s, d, subdirs).value) <==>
            ANDROID_TARGET in targets || forall i :: 0 <= i < |subdirs| ==> !Bound(s, subdirs[i])
    decreases |subdirs|
  {
    if subdirs == [] {
    } else {
      BindsUnderAndroid(s, d, subdirs[1..], targets);
      if Bound(s, subdirs[0]) {
        var e := BindEntry(AndroidPath(d) + "/" + subdirs[0], subdirs[0]);
        OneBind(targets, Group(subdirs[0], [e]), e);
        PathUnder(d, subdirs[0]);
        TargetsApart(e.blkDevice);
        AvailableParts(targets, [Group(subdirs[0], [e])], BindGroups(s, d, subdirs[1..]).value);
      } else {
        assert forall i :: 0 < i < |subdirs| ==> subdirs[i] == subdirs[1..][i - 1];
      }
    }
  }

  lemma OneBind(targets: set<string>, g: Group, e: FstabEntry)
    requires g.entries == [e] && e.bind
    ensures AllAvailable(targets, [g]) <==> exists t :: t in targets && Under(t, e.blkDevice)
  {
    assert g in [g] && e in g.entries;
  }

  lemma FirmwareDirBinds(s: Mounts, k: Kernel, targets: set<string>)
    requires FirmwareDirSection(s, k).Ok? && targets <= {ANDROID_TARGET, FIRMWARE_TARGET}
    ensures AllAvailable(targets, FirmwareDirSection(s, k).value) <==>
              (FromDirs(s.params) ==>
                if s.firmwareDevice == s.androidDevice then ANDROID_TARGET in targets else FIRMWARE_TARGET in targets)
  {
    if FromDirs(s.params) {
      var d := s.firmwareDevice.value;
      var g := FirmwareDirSection(s, k).value[0];
      OneBind(targets, g, g.entries[0]);
      PathUnder(d, d.firmwareDir);
      TargetsApart(g.entries[0].blkDevice);
    }
  }

  // The plan

  lemma {:induction false} AllSectionsOk(ss: seq<Section>)
    ensures ThenAll(ss).Ok? <==> forall i :: 0 <= i < |ss| ==> ss[i].Ok?
    decreases |ss|
  {
    if ss == [] {
    } else {
      AllSectionsOk(ss[1..]);
      assert forall i :: 0 < i < |ss| ==> ss[i] == ss[1..][i - 1];
      assert forall i :: 0 <= i < |ss[1..]| ==> ss[1..][i] == ss[i + 1];
    }
  }

  /** The sources of a whole plan are available when those of every section are. */
  lemma {:induction false} AllSectionsAvailable(targets: set<string>, ss: seq<Section>)
    requires ThenAll(ss).Ok?
    ensures AllAvailable(targets, ThenAll(ss).value) <==>
            forall i :: 0 <= i < |ss| && ss[i].Ok? ==> AllAvailable(targets, ss[i].value)
    decreases |ss|
  {
    if ss == [] {
    } else {
      AllSectionsAvailable(targets, ss[1..]);
      AvailableParts(targets, ss[0].value, ThenAll(ss[1..]).value);
      assert forall i :: 0 < i < |ss| ==> ss[i] == ss[1..][i - 1];
      assert forall i :: 0 <= i < |ss[1..]| ==> ss[1..][i] == ss[i + 1];
    }
  }

  lemma SystemSectionBindsNothing(s: Mounts, recovery: bool, targets: set<string>)
    requires MountsInv(s) && SystemSection(s, recovery).Ok?
    ensures AllAvailable(targets, SystemSection(s, recovery).value)
  {
    if !recovery && FromDevices(s.params) {
      SystemBindsNothing(s.system, SYSTEM_PARTITIONS, targets);
    }
  }

  lemma UserdataSectionBindsNothing(s: Mounts, recovery: bool, targets: set<string>)
    requires MountsInv(s) && UserdataSection(s, recovery).Ok?
    ensures AllAvailable(targets, UserdataSection(s, recovery).value)
  {
    if !recovery && s.params.userdata == UserdataStdParts {
      UserdataBindsNothing(s, USERDATA_PARTITIONS, targets);
    }
  }

  lemma ImagesSectionBindsNothing(s: Mounts, recovery: bool, k: Kernel, targets: set<string>)
    requires ImagesSection(s, recovery, k).Ok?
    ensures AllAvailable(targets, ImagesSection(s, recovery, k).value)
  {
    if UsesImages(s.params) {
      var d := s.androidDevice.value;
      var images := PartitionImages(s.params, recovery, d.images);
      FirmwareImageBindsNothing(s, recovery, k, d, targets);
      ImagesBindNothing(s, k, d, images, targets);
      AvailableParts(targets, FirmwareImageSection(s, recovery, k, d).value, ImageGroups(s, k, d, images).value);
    }
  }

  /** Whether userdata is bound from a directory of the android device. */
  predicate BindsSubdirs(s: Mounts, recovery: bool) {
    && !recovery && s.params.userdata == BindMountDir && s.androidDevice.Some?
    && exists i :: 0 <= i < |s.androidDevice.value.subdirs| && Bound(s, s.androidDevice.value.subdirs[i])
  }

  /** Whether the firmware directory is on the android device. */
  predicate FirmwareOnAndroid(s: Mounts) {
    FromDirs(s.params) && s.firmwareDevice == s.androidDevice
  }

  lemma BindSectionAvailable(s: Mounts, recovery: bool, targets: set<string>)
    requires BindSection(s, recovery).Ok? && targets <= {ANDROID_TARGET, FIRMWARE_TARGET}
    ensures AllAvailable(targets, BindSection(s, recovery).value) <==>
            (BindsSubdirs(s, recovery) ==> ANDROID_TARGET in targets)
  {
    if !recovery && s.params.userdata == BindMountDir {
      BindsUnderAndroid(s, s.androidDevice.value, s.androidDevice.value.subdirs, targets);
    }
  }

  lemma SectionsOk(s: Mounts, recovery: bool, k: Kernel)
    requires MountsInv(s) && Plan(s, recovery, k).Ok?
    ensures AndroidSection(s, k).Ok? && SystemSection(s, recovery).Ok? && UserdataSection(s, recovery).Ok?
    ensures ImagesSection(s, recovery, k).Ok? && BindSection(s, recovery).Ok?
    ensures TmpfsSection(s, recovery).Ok? && FirmwareDirSection(s, k).Ok?
  {
    var ss := Sections(s, recovery, k);
    AllSectionsOk(ss);
    assert ss[0].Ok? && ss[1].Ok? && ss[2].Ok? && ss[3].Ok? && ss[4].Ok? && ss[5].Ok? && ss[6].Ok?;
  }

  lemma OtherSectionsBindNothing(s: Mounts, recovery: bool, k: Kernel, targets: set<string>, i: nat)
    requires MountsInv(s) && i < |Sections(s, recovery, k)| && i != 4 && i != 6
    requires Sections(s, recovery, k)[i].Ok?
    ensures AllAvailable(targets, Sections(s, recovery, k)[i].value)
  {
    if i == 1 {
      SystemSectionBindsNothing(s, recovery, targets);
    } else if i == 2 {
      UserdataSectionBindsNothing(s, recovery, targets);
    } else if i == 3 {
      ImagesSectionBindsNothing(s, recovery, k, targets);
    }
  }

  /** Only the directory section and the firmware section bind anything. */
  lemma BindingSections(s: Mounts, recovery: bool, k: Kernel, targets: set<string>)
    requires MountsInv(s) && Plan(s, recovery, k).Ok?
    ensures BindSection(s, recovery).Ok? && FirmwareDirSection(s, k).Ok?
    ensures AllAvailable(targets, Plan(s, recovery, k).value) <==>
            && AllAvailable(targets, BindSection(s, recovery).value)
            && AllAvailable(targets, FirmwareDirSection(s, k).value)
  {
    var ss := Sections(s, recovery, k);
    AllSectionsOk(ss);
    AllSectionsAvailable(targets, ss);
    forall i: nat | i < |ss| && i != 4 && i != 6
      ensures AllAvailable(targets, ss[i].value)
    {
      OtherSectionsBindNothing(s, recovery, k, targets, i);
    }
    assert ss[4].Ok? && ss[6].Ok?;
  }

  /** What a set of mounted targets must contain for every bind source to be there. */
  lemma PlanAvailability(s: Mounts, recovery: bool, k: Kernel, targets: set<string>)
    requires MountsInv(s) && Plan(s, recovery, k).Ok? && targets <= {ANDROID_TARGET, FIRMWARE_TARGET}
    ensures AllAvailable(targets, Plan(s, recovery, k).value) <==>
              && (BindsSubdirs(s, recovery) || FirmwareOnAndroid(s) ==> ANDROID_TARGET in targets)
              && (FromDirs(s.params) && !FirmwareOnAndroid(s) ==> FIRMWARE_TARGET in targets)
  {
    BindingSections(s, recovery, k, targets);
    BindSectionAvailable(s, recovery, targets);
    FirmwareDirBinds(s, k, targets);
  }

  /** Every bind source lies under a target that planning has mounted. */
  lemma BindSourcesMounted(s: Mounts, recovery: bool, k: Kernel)
    requires MountsInv(s) && Plan(s, recovery, k).Ok?
    ensures AllAvailable(MountedTargets(s), Plan(s, recovery, k).value)
  {
    PlanAvailability(s, recovery, k, MountedTargets(s));
    assert FirmwareOnAndroid(s) ==> s.needAndroidDir by { FirmwareFound(s, recovery, k); }
  }

  lemma FirmwareFound(s: Mounts, recovery: bool, k: Kernel)
    requires MountsInv(s) && Plan(s, recovery, k).Ok?
    ensures FromDirs(s.params) ==> s.firmwareDevice.Some?
  {
    SectionsOk(s, recovery, k);
  }

  /** But the android target is unmounted before the plan is executed: the sources are still there exactly
      in recovery, when the unmount fails, or when nothing is bound from the android device. */
  lemma BindSourcesLeftIff(s: Mounts, recovery: bool, k: Kernel)
    requires MountsInv(s) && Plan(s, recovery, k).Ok?
    ensures AllAvailable(TargetsLeft(s, recovery, k), Plan(s, recovery, k).value) <==>
            recovery || !k.umountAndroid || !(BindsSubdirs(s, recovery) || FirmwareOnAndroid(s))
  {
    PlanAvailability(s, recovery, k, TargetsLeft(s, recovery, k));
    FirmwareFound(s, recovery, k);
    assert ANDROID_TARGET[25] != FIRMWARE_TARGET[25];
  }
}
