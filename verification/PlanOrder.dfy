/** The candidates of every planned group, in the order in which they are declared. */
module PlanOrder {
  import opened Wrappers
  import opened MountTypes
  import opened MountHandlers
  import opened MountPlans
  import opened PlanShape
  import PlanSafety

  /** For a system partition: the read-only ext4 retry comes right after the writable attempt. */
  function SystemList(e: FstabEntry): seq<FstabEntry> {
    [e.(fsType := "ext4")] + (if e.ro then [] else [e.(fsType := "ext4", ro := true)])
    + [e.(fsType := "erofs"), e.(fsType := "squashfs")]
  }

  function UserdataList(e: FstabEntry): seq<FstabEntry> {
    [e.(fsType := "ext4"), e.(fsType := "f2fs")]
  }

  function FirmwareList(e: FstabEntry): seq<FstabEntry> {
    [e.(fsType := "ext4"), e.(fsType := "f2fs"), e.(fsType := "erofs"), e.(fsType := "squashfs"), e.(fsType := "vfat")]
  }

  /** The whole candidate list of a group, given by its name and the boot parameters. */
  predicate AsDeclared(p: Params, g: Group) {
    g.entries != [] &&
    var e := g.entries[0];
    if g.name == "firmware" then
      if FromDirs(p) then g.entries == [e] && e.bind && e.fsType == "none" else g.entries == FirmwareList(e)
    else if g.name in SYSTEM_PARTITIONS then g.entries == SystemList(e)
    else
      match p.userdata
      case UserdataStdParts => g.entries == UserdataList(e)
      case UserdataImages => g.entries == SystemList(e)
      case BindMountDir => g.entries == [e] && e.bind && e.fsType == "none"
      case UserdataTmpfs => g.entries == [e] && e.fsType == "tmpfs"
  }

  ghost predicate AllDeclared(p: Params, gs: seq<Group>) {
    forall g :: g in gs ==> AsDeclared(p, g)
  }

  lemma SystemListIs(e: FstabEntry)
    ensures WithRetry(e, SYSTEM_FS) == SystemList(e) == SystemList(SystemList(e)[0])
  {
    assert SYSTEM_FS[1..] == ["erofs", "squashfs"] && SYSTEM_FS[1..][1..] == ["squashfs"];
    assert SYSTEM_FS[1..][1..][1..] == [];
    assert WithRetry(e, ["squashfs"]) == [e.(fsType := "squashfs")];
    assert WithRetry(e, ["erofs", "squashfs"]) == [e.(fsType := "erofs"), e.(fsType := "squashfs")];
  }

  lemma UserdataListIs(e: FstabEntry)
    ensures Candidates(e, USERDATA_FS) == UserdataList(e) == UserdataList(UserdataList(e)[0])
  {
    assert USERDATA_FS[1..] == ["f2fs"] && USERDATA_FS[1..][1..] == [];
    assert Candidates(e, ["f2fs"]) == [e.(fsType := "f2fs")];
  }

  lemma FirmwareListIs(e: FstabEntry)
    ensures Candidates(e, FIRMWARE_FS) == FirmwareList(e) == FirmwareList(FirmwareList(e)[0])
  {
    assert FIRMWARE_FS[1..] == ["f2fs", "erofs", "squashfs", "vfat"];
    assert FIRMWARE_FS[1..][1..] == ["erofs", "squashfs", "vfat"];
    assert FIRMWARE_FS[1..][1..][1..] == ["squashfs", "vfat"] && FIRMWARE_FS[1..][1..][1..][1..] == ["vfat"];
    assert Candidates(e, ["vfat"]) == [e.(fsType := "vfat")];
    assert Candidates(e, ["squashfs", "vfat"]) == [e.(fsType := "squashfs"), e.(fsType := "vfat")];
    assert Candidates(e, ["erofs", "squashfs", "vfat"])
        == [e.(fsType := "erofs"), e.(fsType := "squashfs"), e.(fsType := "vfat")];
  }

  /** What the list means: the file systems in order, writable first, and the retry where it belongs. */
  lemma SystemListRetries(e: FstabEntry)
    ensures SameMode(SystemList(e), e.ro) == Candidates(e, SYSTEM_FS)
    ensures Retried(SystemList(e))
  {
    SystemListIs(e);
    RetryKeepsOrder(e, SYSTEM_FS);
    RetryFollows(e, SYSTEM_FS);
  }

  // Sections

  lemma SystemGroupDeclared(p: Params, name: string, e: FstabEntry)
    requires name in SYSTEM_PARTITIONS || (name in USERDATA_PARTITIONS && p.userdata == UserdataImages)
    ensures AsDeclared(p, Group(name, WithRetry(e, SYSTEM_FS)))
  {
    NotFirmware(name);
    SystemListIs(e);
  }

  lemma {:induction false} SystemDeclared(p: Params, m: DeviceMap, keys: seq<string>)
    requires (forall i :: 0 <= i < |keys| ==> keys[i] in m) && SystemGroups(m, keys).Ok?
    requires forall i :: 0 <= i < |keys| ==> keys[i] in SYSTEM_PARTITIONS
    ensures AllDeclared(p, SystemGroups(m, keys).value)
    decreases |keys|
  {
    if keys == [] {
    } else {
      SystemDeclared(p, m, keys[1..]);
      var d := m[keys[0]].value;
      SystemGroupDeclared(p, keys[0], PartitionEntry(d.devpath, keys[0], !d.rw));
    }
  }

  lemma UserdataGroupDeclared(p: Params, name: string, e: FstabEntry)
    requires name in USERDATA_PARTITIONS && p.userdata == UserdataStdParts
    ensures AsDeclared(p, Group(name, Candidates(e, USERDATA_FS)))
  {
    NotFirmware(name);
    UserdataListIs(e);
  }

  lemma {:induction false} UserdataDeclared(s: Mounts, keys: seq<string>)
    requires (forall i :: 0 <= i < |keys| ==> keys[i] in s.userdata) && UserdataGroups(s, keys).Ok?
    requires forall i :: 0 <= i < |keys| ==> keys[i] in USERDATA_PARTITIONS
    requires forall k :: k in s.userdata && s.userdata[k].Some? ==> s.userdata[k].value.partname == k
    requires s.params.userdata == UserdataStdParts
    ensures AllDeclared(s.params, UserdataGroups(s, keys).value)
    decreases |keys|
  {
    if keys == [] {
    } else {
      UserdataDeclared(s, keys[1..]);
      if !SkipCache(s, keys[0]) {
        UserdataGroupDeclared(s.params, keys[0], UserdataEntry(s.userdata[keys[0]].value.devpath, keys[0]));
      }
    }
  }

  predicate PartitionStem(p: Params, name: string) {
    name in SYSTEM_PARTITIONS || (name in USERDATA_PARTITIONS && p.userdata == UserdataImages)
  }

  lemma {:induction false} PartitionStems(p: Params, recovery: bool, images: seq<string>)
    ensures forall i :: 0 <= i < |PartitionImages(p, recovery, images)| ==>
              PartitionStem(p, Stem(PartitionImages(p, recovery, images)[i]))
    decreases |images|
  {
    if images == [] {
    } else {
      PartitionStems(p, recovery, images[1..]);
    }
  }

  lemma {:induction false} ImagesDeclared(s: Mounts, k: Kernel, d: BlockDevice, images: seq<string>)
    requires ImageGroups(s, k, d, images).Ok?
    requires forall i :: 0 <= i < |images| ==> PartitionStem(s.params, Stem(images[i]))
    ensures AllDeclared(s.params, ImageGroups(s, k, d, images).value)
    decreases |images|
  {
    if images == [] {
    } else {
      ImagesDeclared(s, k, d, images[1..]);
      var dev := k.loopDevice(ImageSource(s.params, AndroidPath(d), images[0]), d.rw);
      assert PartitionStem(s.params, Stem(images[0]));
      SystemGroupDeclared(s.params, Stem(images[0]), PartitionEntry(dev, Stem(images[0]), !d.rw));
    }
  }

  lemma BindGroupDeclared(p: Params, name: string, source: string)
    requires name in USERDATA_PARTITIONS && p.userdata == BindMountDir
    ensures AsDeclared(p, Group(name, [BindEntry(source, name)]))
  {
    NotFirmware(name);
  }

  lemma {:induction false} BindsDeclared(s: Mounts, d: BlockDevice, subdirs: seq<string>)
    requires BindGroups(s, d, subdirs).Ok? && s.params.userdata == BindMountDir
    ensures AllDeclared(s.params, BindGroups(s, d, subdirs).value)
    decreases |subdirs|
  {
    if subdirs == [] {
    } else {
      BindsDeclared(s, d, subdirs[1..]);
      if subdirs[0] in USERDATA_PARTITIONS && !SkipCache(s, subdirs[0]) {
        BindGroupDeclared(s.params, subdirs[0], AndroidPath(d) + "/" + subdirs[0]);
      }
    }
  }

  lemma TmpfsGroupDeclared(p: Params, name: string, source: string)
    requires name in USERDATA_PARTITIONS && p.userdata == UserdataTmpfs
    ensures AsDeclared(p, Group(name, [TmpfsEntry(source, name)]))
  {
    NotFirmware(name);
  }

  lemma TmpfsDeclared(p: Params)
    requires p.userdata == UserdataTmpfs
    ensures AllDeclared(p, TMPFS_GROUPS)
  {
    assert USERDATA_PARTITIONS == ["cache", "metadata", "userdata"];
    TmpfsGroupDeclared(p, "cache", "cache");
    TmpfsGroupDeclared(p, "userdata", "data");
    TmpfsGroupDeclared(p, "metadata", "metadata");
  }

  lemma FirmwareImageDeclared(s: Mounts, recovery: bool, k: Kernel, d: BlockDevice)
    requires FirmwareImageSection(s, recovery, k, d).Ok?
    ensures AllDeclared(s.params, FirmwareImageSection(s, recovery, k, d).value)
  {
    var image := LastFirmware(s.params, recovery, d.images);
    var dev := k.loopDevice(ImageSource(s.params, AndroidPath(d), image), d.rw);
    FirmwareListIs(FirmwareEntry(dev, "", !d.rw, false));
  }

  lemma ImagesSectionDeclared(s: Mounts, recovery: bool, k: Kernel)
    requires ImagesSection(s, recovery, k).Ok?
    ensures AllDeclared(s.params, ImagesSection(s, recovery, k).value)
  {
    if UsesImages(s.params) {
      var d := s.androidDevice.value;
      FirmwareImageDeclared(s, recovery, k, d);
      PartitionStems(s.params, recovery, d.images);
      ImagesDeclared(s, k, d, PartitionImages(s.params, recovery, d.images));
    }
  }

  lemma SystemSectionDeclared(s: Mounts, recovery: bool)
    requires MountsInv(s) && SystemSection(s, recovery).Ok?
    ensures AllDeclared(s.params, SystemSection(s, recovery).value)
  {
    if !recovery && FromDevices(s.params) {
      SystemDeclared(s.params, s.system, SYSTEM_PARTITIONS);
    }
  }

  lemma UserdataSectionDeclared(s: Mounts, recovery: bool)
    requires MountsInv(s) && UserdataSection(s, recovery).Ok?
    ensures AllDeclared(s.params, UserdataSection(s, recovery).value)
  {
    if !recovery && s.params.userdata == UserdataStdParts {
      UserdataDeclared(s, USERDATA_PARTITIONS);
    }
  }

  lemma OtherSectionsDeclared(s: Mounts, recovery: bool, k: Kernel)
    ensures AndroidSection(s, k).Ok? ==> AllDeclared(s.params, AndroidSection(s, k).value)
    ensures BindSection(s, recovery).Ok? ==> AllDeclared(s.params, BindSection(s, recovery).value)
    ensures AllDeclared(s.params, TmpfsSection(s, recovery).value)
    ensures FirmwareDirSection(s, k).Ok? ==> AllDeclared(s.params, FirmwareDirSection(s, k).value)
  {
    if !recovery && s.params.userdata == BindMountDir && s.androidDevice.Some? {
      PlanSafety.BindGroupsOk(s, s.androidDevice.value, s.androidDevice.value.subdirs);
      BindsDeclared(s, s.androidDevice.value, s.androidDevice.value.subdirs);
    }
    if !recovery && s.params.userdata == UserdataTmpfs {
      TmpfsDeclared(s.params);
    }
  }

  lemma SectionDeclared(s: Mounts, recovery: bool, k: Kernel, i: nat)
    requires MountsInv(s) && i < |Sections(s, recovery, k)| && Sections(s, recovery, k)[i].Ok?
    ensures AllDeclared(s.params, Sections(s, recovery, k)[i].value)
  {
    if i == 1 {
      SystemSectionDeclared(s, recovery);
    } else if i == 2 {
      UserdataSectionDeclared(s, recovery);
    } else if i == 3 {
      ImagesSectionDeclared(s, recovery, k);
    } else {
      OtherSectionsDeclared(s, recovery, k);
    }
  }

  lemma {:induction false} SectionsDeclared(p: Params, ss: seq<Section>)
    requires ThenAll(ss).Ok? && forall i :: 0 <= i < |ss| && ss[i].Ok? ==> AllDeclared(p, ss[i].value)
    ensures AllDeclared(p, ThenAll(ss).value)
    decreases |ss|
  {
    if ss == [] {
    } else {
      assert forall i :: 0 <= i < |ss[1..]| ==> ss[1..][i] == ss[i + 1];
      SectionsDeclared(p, ss[1..]);
    }
  }

  /** Every group of every plan is the declared candidate list. */
  lemma PlanAsDeclared(s: Mounts, recovery: bool, k: Kernel)
    requires MountsInv(s) && Plan(s, recovery, k).Ok?
    ensures AllDeclared(s.params, Plan(s, recovery, k).value)
  {
    var ss := Sections(s, recovery, k);
    forall i: nat | i < |ss| && ss[i].Ok?
      ensures AllDeclared(s.params, ss[i].value)
    {
      SectionDeclared(s, recovery, k, i);
    }
    SectionsDeclared(s.params, ss);
  }
}
