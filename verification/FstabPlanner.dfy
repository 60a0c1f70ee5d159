/** OnPostBlockDevices as it runs: the fstab is appended to in loops. */
module FstabPlanner {
  import opened Wrappers
  import opened Sequences
  import opened MountTypes
  import opened MountHandlers
  import opened MountPlans
  import opened BindSources

  function Flatten(gs: seq<Group>): seq<FstabEntry>
    decreases |gs|
  {
    if gs == [] then [] else gs[0].entries + Flatten(gs[1..])
  }

  type Outcome = Step<seq<FstabEntry>>

  function Flat(section: Section): Outcome {
    match section
    case Ok(gs) => Ok(Flatten(gs))
    case NullDevice => NullDevice
    case Fatal => Fatal
  }

  function Append(fstab: seq<FstabEntry>, rest: Outcome): Outcome {
    if rest.Ok? then Ok(fstab + rest.value) else rest
  }

  lemma {:induction false} FlattenParts(a: seq<Group>, b: seq<Group>)
    ensures Flatten(a + b) == Flatten(a) + Flatten(b)
    decreases |a|
  {
    if a == [] {
      assert a + b == b;
    } else {
      FlattenParts(a[1..], b);
      assert (a + b)[1..] == a[1..] + b;
    }
  }

  lemma FlattenOne(g: Group)
    ensures Flatten([g]) == g.entries
  {
    assert Flatten([g]) == g.entries + [];
  }

  /** Running the first of two sections, then the second, is running both. */
  lemma AppendThen(fstab: seq<FstabEntry>, a: Section, b: Section)
    requires a.Ok?
    ensures Append(fstab, Flat(Then(a, b))) == Append(fstab + Flatten(a.value), Flat(b))
  {
    if b.Ok? {
      FlattenParts(a.value, b.value);
      assert fstab + (Flatten(a.value) + Flatten(b.value)) == fstab + Flatten(a.value) + Flatten(b.value);
    }
  }

  lemma AppendGroup(fstab: seq<FstabEntry>, g: Group, rest: Section)
    ensures Append(fstab, Flat(Then(Ok([g]), rest))) == Append(fstab + g.entries, Flat(rest))
  {
    AppendThen(fstab, Ok([g]), rest);
    FlattenOne(g);
  }

  lemma AppendNothing(fstab: seq<FstabEntry>, rest: Outcome)
    ensures Append([], rest) == rest
    ensures Append(fstab, Ok([])) == Ok(fstab)
  {
    if rest.Ok? {
      assert [] + rest.value == rest.value;
    }
    assert fstab + [] == fstab;
  }

  method PushCandidates(fstab: seq<FstabEntry>, e: FstabEntry, fsTypes: seq<string>) returns (r: seq<FstabEntry>)
    ensures r == fstab + Candidates(e, fsTypes)
  {
    r := fstab;
    var i := 0;
    while i < |fsTypes|
      invariant 0 <= i <= |fsTypes|
      invariant r + Candidates(e, fsTypes[i..]) == fstab + Candidates(e, fsTypes)
    {
      Assoc(r, [e.(fsType := fsTypes[i])], Candidates(e, fsTypes[i + 1..]));
      assert fsTypes[i..][1..] == fsTypes[i + 1..];
      r := r + [e.(fsType := fsTypes[i])];
      i := i + 1;
    }
  }

  method PushWithRetry(fstab: seq<FstabEntry>, e: FstabEntry, fsTypes: seq<string>) returns (r: seq<FstabEntry>)
    ensures r == fstab + WithRetry(e, fsTypes)
  {
    r := fstab;
    var i := 0;
    while i < |fsTypes|
      invariant 0 <= i <= |fsTypes|
      invariant r + WithRetry(e, fsTypes[i..]) == fstab + WithRetry(e, fsTypes)
    {
      ghost var rest := WithRetry(e, fsTypes[i + 1..]);
      assert fsTypes[i..][1..] == fsTypes[i + 1..];
      ghost var before := r;
      r := r + [e.(fsType := fsTypes[i])];
      if fsTypes[i] == "ext4" && !e.ro {
        r := r + [e.(fsType := "ext4", ro := true)];
        assert WithRetry(e, fsTypes[i..]) == [e.(fsType := fsTypes[i])] + [e.(fsType := "ext4", ro := true)] + rest;
        assert before + WithRetry(e, fsTypes[i..]) == r + rest;
      } else {
        assert WithRetry(e, fsTypes[i..]) == [e.(fsType := fsTypes[i])] + rest;
        assert before + WithRetry(e, fsTypes[i..]) == r + rest;
      }
      i := i + 1;
    }
  }

  method PlanSystem(fstab: seq<FstabEntry>, m: DeviceMap, keys: seq<string>) returns (r: Outcome)
    requires forall i :: 0 <= i < |keys| ==> keys[i] in m
    ensures r == Append(fstab, Flat(SystemGroups(m, keys)))
  {
    var out := fstab;
    var i := 0;
    while i < |keys|
      invariant 0 <= i <= |keys|
      invariant Append(out, Flat(SystemGroups(m, keys[i..]))) == Append(fstab, Flat(SystemGroups(m, keys)))
    {
      assert keys[i..][0] == keys[i] && keys[i..][1..] == keys[i + 1..];
      if m[keys[i]].None? {
        return NullDevice;
      }
      var d := m[keys[i]].value;
      ghost var rest := SystemGroups(m, keys[i + 1..]);
      if keys[i] == d.systemPartition {
        var e := PartitionEntry(d.devpath, keys[i], !d.rw);
        AppendGroup(out, Group(keys[i], WithRetry(e, SYSTEM_FS)), rest);
        out := PushWithRetry(out, e, SYSTEM_FS);
      } else {
        AppendThen(out, Ok([]), rest);
        assert out + [] == out;
      }
      i := i + 1;
    }
    AppendNothing(out, Ok([]));
    return Ok(out);
  }

  method PlanUserdata(fstab: seq<FstabEntry>, s: Mounts, keys: seq<string>) returns (r: Outcome)
    requires forall i :: 0 <= i < |keys| ==> keys[i] in s.userdata
    ensures r == Append(fstab, Flat(UserdataGroups(s, keys)))
  {
    var out := fstab;
    var i := 0;
    while i < |keys|
      invariant 0 <= i <= |keys|
      invariant Append(out, Flat(UserdataGroups(s, keys[i..]))) == Append(fstab, Flat(UserdataGroups(s, keys)))
    {
      assert keys[i..][0] == keys[i] && keys[i..][1..] == keys[i + 1..];
      if !SkipCache(s, keys[i]) {
        if s.userdata[keys[i]].None? {
          return NullDevice;
        }
        var d := s.userdata[keys[i]].value;
        var e := UserdataEntry(d.devpath, d.partname);
        AppendGroup(out, Group(d.partname, Candidates(e, USERDATA_FS)), UserdataGroups(s, keys[i + 1..]));
        out := PushCandidates(out, e, USERDATA_FS);
      }
      i := i + 1;
    }
    AppendNothing(out, Ok([]));
    return Ok(out);
  }

  /** What SelectImages has gathered from the first i images. */
  ghost predicate Selected(p: Params, recovery: bool, images: seq<string>, i: nat, firmware: string, parts: seq<string>)
    requires i <= |images|
  {
    && firmware == LastFirmware(p, recovery, images[..i])
    && parts + PartitionImages(p, recovery, images[i..]) == PartitionImages(p, recovery, images)
  }

  lemma FirmwareStep(p: Params, recovery: bool, images: seq<string>, i: nat)
    requires i < |images|
    ensures LastFirmware(p, recovery, images[..i + 1]) ==
            if KindOf(images[i]) == FirmwareFile && Wanted(p, recovery, FirmwareFile) then images[i]
            else LastFirmware(p, recovery, images[..i])
  {
    assert images[..i + 1][..i] == images[..i];
  }

  lemma PartsStep(p: Params, recovery: bool, images: seq<string>, i: nat)
    requires i < |images|
    ensures PartitionImages(p, recovery, images[i..]) ==
            (if KindOf(images[i]) != FirmwareFile && Wanted(p, recovery, KindOf(images[i])) then [images[i]] else [])
            + PartitionImages(p, recovery, images[i + 1..])
  {
    assert images[i..][1..] == images[i + 1..];
  }

  function PickFirmware(p: Params, recovery: bool, image: string, firmware: string): string {
    if KindOf(image) == FirmwareFile && Wanted(p, recovery, FirmwareFile) then image else firmware
  }

  function PickPart(p: Params, recovery: bool, image: string): seq<string> {
    if KindOf(image) != FirmwareFile && Wanted(p, recovery, KindOf(image)) then [image] else []
  }

  lemma SelectedStep(p: Params, recovery: bool, images: seq<string>, i: nat, firmware: string, parts: seq<string>)
    requires i < |images| && Selected(p, recovery, images, i, firmware, parts)
    ensures Selected(p, recovery, images, i + 1,
              PickFirmware(p, recovery, images[i], firmware), parts + PickPart(p, recovery, images[i]))
  {
    FirmwareStep(p, recovery, images, i);
    PartsStep(p, recovery, images, i);
    Assoc(parts, PickPart(p, recovery, images[i]), PartitionImages(p, recovery, images[i + 1..]));
  }

  lemma SelectedAll(p: Params, recovery: bool, images: seq<string>, firmware: string, parts: seq<string>)
    ensures Selected(p, recovery, images, 0, "", [])
    ensures Selected(p, recovery, images, |images|, firmware, parts) ==>
              firmware == LastFirmware(p, recovery, images) && parts == PartitionImages(p, recovery, images)
  {
    assert images[..|images|] == images && images[|images|..] == [] && images[0..] == images;
  }

  /** The body of the loop over the android directory. */
  method SelectImage(p: Params, recovery: bool, image: string, k: Kernel, firmware: string, parts: seq<string>)
    returns (copied: bool, firmware': string, parts': seq<string>)
    ensures copied == CopyWorks(p, recovery, image, k)
    ensures copied ==> firmware' == PickFirmware(p, recovery, image, firmware)
    ensures copied ==> parts' == parts + PickPart(p, recovery, image)
  {
    copied, firmware', parts' := true, firmware, parts;
    var kind := KindOf(image);
    if Wanted(p, recovery, kind) {
      if ToRam(p, kind) && !k.copies(image) {
        return false, firmware, parts;
      }
      if kind == FirmwareFile {
        firmware' := image;
      } else {
        parts' := parts + [image];
      }
    }
  }

  /** Copies images to RAM, remembers the firmware image found last and the partition images. */
  method SelectImages(p: Params, recovery: bool, images: seq<string>, k: Kernel)
    returns (copied: bool, firmware: string, parts: seq<string>)
    ensures copied == CopiesWork(p, recovery, images, k)
    ensures copied ==> firmware == LastFirmware(p, recovery, images)
    ensures copied ==> parts == PartitionImages(p, recovery, images)
  {
    copied, firmware, parts := true, "", [];
    var i := 0;
    SelectedAll(p, recovery, images, firmware, parts);
    while i < |images|
      invariant 0 <= i <= |images| && Selected(p, recovery, images, i, firmware, parts)
      invariant copied && forall j :: 0 <= j < i ==> CopyWorks(p, recovery, images[j], k)
    {
      SelectedStep(p, recovery, images, i, firmware, parts);
      copied, firmware, parts := SelectImage(p, recovery, images[i], k, firmware, parts);
      if !copied {
        return;
      }
      i := i + 1;
    }
    SelectedAll(p, recovery, images, firmware, parts);
  }

  method PlanPartitionImages(fstab: seq<FstabEntry>, s: Mounts, k: Kernel, d: BlockDevice, images: seq<string>)
    returns (r: Outcome)
    ensures r == Append(fstab, Flat(ImageGroups(s, k, d, images)))
  {
    var out := fstab;
    var i := 0;
    while i < |images|
      invariant 0 <= i <= |images|
      invariant Append(out, Flat(ImageGroups(s, k, d, images[i..])))
             == Append(fstab, Flat(ImageGroups(s, k, d, images)))
    {
      assert images[i..][0] == images[i] && images[i..][1..] == images[i + 1..];
      if !SkipCache(s, Stem(images[i])) {
        var dev := k.loopDevice(ImageSource(s.params, AndroidPath(d), images[i]), d.rw);
        if dev == "" {
          return Fatal;
        }
        var e := PartitionEntry(dev, Stem(images[i]), !d.rw);
        AppendGroup(out, Group(Stem(images[i]), WithRetry(e, SYSTEM_FS)), ImageGroups(s, k, d, images[i + 1..]));
        out := PushWithRetry(out, e, SYSTEM_FS);
      }
      i := i + 1;
    }
    AppendNothing(out, Ok([]));
    return Ok(out);
  }

  method PlanImages(fstab: seq<FstabEntry>, s: Mounts, recovery: bool, k: Kernel) returns (r: Outcome)
    requires UsesImages(s.params)
    ensures r == Append(fstab, Flat(ImagesSection(s, recovery, k)))
  {
    if s.androidDevice.None? {
      return NullDevice;
    }
    var d := s.androidDevice.value;
    var copied, firmware, parts := SelectImages(s.params, recovery, d.images, k);
    if !copied {
      return Fatal;
    }
    var out := fstab;
    if FromFirmwareImage(s.params) {
      if firmware == "" {
        return Fatal;
      }
      var dev := k.loopDevice(ImageSource(s.params, AndroidPath(d), firmware), d.rw);
      if dev == "" {
        return Fatal;
      }
      var e := FirmwareEntry(dev, "", !d.rw, false);
      AppendGroup(out, Group("firmware", Candidates(e, FIRMWARE_FS)), ImageGroups(s, k, d, parts));
      out := PushCandidates(out, e, FIRMWARE_FS);
    } else {
      AppendThen(out, Ok([]), ImageGroups(s, k, d, parts));
      assert out + [] == out;
    }
    r := PlanPartitionImages(out, s, k, d, parts);
  }

  method PlanBinds(fstab: seq<FstabEntry>, s: Mounts, d: BlockDevice) returns (r: Outcome)
    ensures r == Append(fstab, Flat(BindGroups(s, d, d.subdirs)))
  {
    var out := fstab;
    var i := 0;
    while i < |d.subdirs|
      invariant 0 <= i <= |d.subdirs|
      invariant Append(out, Flat(BindGroups(s, d, d.subdirs[i..]))) == Append(fstab, Flat(BindGroups(s, d, d.subdirs)))
    {
      var subdir := d.subdirs[i];
      assert d.subdirs[i..][0] == subdir && d.subdirs[i..][1..] == d.subdirs[i + 1..];
      if subdir in USERDATA_PARTITIONS && !SkipCache(s, subdir) {
        var e := BindEntry(AndroidPath(d) + "/" + subdir, subdir);
        AppendGroup(out, Group(subdir, [e]), BindGroups(s, d, d.subdirs[i + 1..]));
        out := out + [e];
      }
      i := i + 1;
    }
    AppendNothing(out, Ok([]));
    return Ok(out);
  }

  // The sections in a row

  function Next(done: Outcome, section: Section): Outcome {
    if done.Ok? then Append(done.value, Flat(section)) else done
  }

  lemma NextThen(done: Outcome, a: Section, b: Section)
    ensures Next(Next(done, a), b) == Next(done, Then(a, b))
  {
    if done.Ok? && a.Ok? {
      AppendThen(done.value, a, b);
    }
  }

  /** Doing the sections that are left, one after the other, is appending them all. */
  lemma NextRest(done: Outcome, ss: seq<Section>, i: nat)
    requires i < |ss|
    ensures Next(Next(done, ss[i]), ThenAll(ss[i + 1..])) == Next(done, ThenAll(ss[i..]))
  {
    assert ss[i..][0] == ss[i] && ss[i..][1..] == ss[i + 1..];
    NextThen(done, ss[i], ThenAll(ss[i + 1..]));
  }

  lemma NextOk(done: Outcome)
    ensures Next(done, ThenAll([])) == done
  {
    if done.Ok? {
      AppendNothing(done.value, done);
    }
  }

  method RunAndroid(s: Mounts, k: Kernel) returns (r: Outcome, mounted: set<string>)
    ensures r == Next(Ok([]), AndroidSection(s, k))
    ensures r.Ok? ==> mounted == if s.needAndroidDir then {ANDROID_TARGET} else {}
  {
    mounted := {};
    AppendNothing([], Ok([]));
    if s.needAndroidDir {
      if s.androidDevice.None? {
        return NullDevice, {};
      }
      if !k.mountAndroid {
        return Fatal, {};
      }
      mounted := {ANDROID_TARGET};
    }
    return Ok([]), mounted;
  }

  method RunPartitions(done: Outcome, s: Mounts, recovery: bool) returns (r: Outcome)
    requires MountsInv(s)
    ensures r == Next(Next(done, SystemSection(s, recovery)), UserdataSection(s, recovery))
  {
    r := done;
    if r.Ok? {
      AppendNothing(r.value, r);
      if !recovery && FromDevices(s.params) {
        r := PlanSystem(r.value, s.system, SYSTEM_PARTITIONS);
      }
    }
    if r.Ok? {
      AppendNothing(r.value, r);
      if !recovery && s.params.userdata == UserdataStdParts {
        r := PlanUserdata(r.value, s, USERDATA_PARTITIONS);
      }
    }
  }

  method RunImages(done: Outcome, s: Mounts, recovery: bool, k: Kernel) returns (r: Outcome)
    ensures r == Next(done, ImagesSection(s, recovery, k))
  {
    r := done;
    if r.Ok? {
      AppendNothing(r.value, r);
      if UsesImages(s.params) {
        r := PlanImages(r.value, s, recovery, k);
      }
    }
  }

  method RunBinds(done: Outcome, s: Mounts, recovery: bool) returns (r: Outcome)
    ensures r == Next(Next(done, BindSection(s, recovery)), TmpfsSection(s, recovery))
  {
    r := done;
    if r.Ok? {
      AppendNothing(r.value, r);
      if !recovery && s.params.userdata == BindMountDir {
        if s.androidDevice.None? {
          return NullDevice;
        }
        r := PlanBinds(r.value, s, s.androidDevice.value);
      }
    }
    if r.Ok? {
      AppendNothing(r.value, r);
      if !recovery && s.params.userdata == UserdataTmpfs {
        r := Ok(r.value + TmpfsFstab());
      }
    }
  }

  /** fstab_userdata_on_tmpfs */
  function TmpfsFstab(): (es: seq<FstabEntry>)
    ensures es == Flatten(TMPFS_GROUPS)
  {
    assert TMPFS_GROUPS[1..] == [TMPFS_GROUPS[1], TMPFS_GROUPS[2]];
    assert TMPFS_GROUPS[1..][1..] == [TMPFS_GROUPS[2]];
    FlattenOne(TMPFS_GROUPS[2]);
    [TmpfsEntry("cache", "cache"), TmpfsEntry("data", "userdata"), TmpfsEntry("metadata", "metadata")]
  }

  method RunFirmwareDir(done: Outcome, s: Mounts, k: Kernel, before: set<string>)
    returns (r: Outcome, mounted: set<string>)
    ensures r == Next(done, FirmwareDirSection(s, k))
    ensures r.Ok? ==> mounted == before + FirmwareTarget(s)
  {
    r, mounted := done, before;
    if r.Ok? {
      AppendNothing(r.value, r);
      if FromDirs(s.params) {
        if s.firmwareDevice.None? {
          return NullDevice, mounted;
        }
        var d := s.firmwareDevice.value;
        var target := ANDROID_TARGET;
        if s.firmwareDevice != s.androidDevice {
          if !k.mountFirmware {
            return Fatal, mounted;
          }
          target := FIRMWARE_TARGET;
          mounted := mounted + {FIRMWARE_TARGET};
        }
        var e := FirmwareEntry(target + "/" + d.firmwareDir, "none", false, true);
        FlattenOne(Group("firmware", [e]));
        r := Ok(r.value + [e]);
      }
    }
  }

  /** One section after the other, from the ith on. */
  function NextFrom(done: Outcome, ss: seq<Section>, i: nat): Outcome
    requires i <= |ss|
    decreases |ss| - i
  {
    if i == |ss| then done else NextFrom(Next(done, ss[i]), ss, i + 1)
  }

  lemma {:induction false} NextFromIsAll(done: Outcome, ss: seq<Section>, i: nat)
    requires i <= |ss|
    ensures NextFrom(done, ss, i) == Next(done, ThenAll(ss[i..]))
    decreases |ss| - i
  {
    if i == |ss| {
      NextOk(done);
    } else {
      NextFromIsAll(Next(done, ss[i]), ss, i + 1);
      NextRest(done, ss, i);
    }
  }

  lemma SectionsInTurn(ss: seq<Section>)
    requires |ss| == 7
    ensures var images := Next(Next(Next(Next(Ok([]), ss[0]), ss[1]), ss[2]), ss[3]);
            Next(Next(Next(images, ss[4]), ss[5]), ss[6]) == Flat(ThenAll(ss))
  {
    NextFromIsAll(Ok([]), ss, 0);
    assert ss[0..] == ss;
    AppendNothing([], Flat(ThenAll(ss)));
    var partitions := Next(Next(Ok([]), ss[0]), ss[1]);
    var images := Next(Next(partitions, ss[2]), ss[3]);
    var binds := Next(Next(images, ss[4]), ss[5]);
    assert NextFrom(Ok([]), ss, 0) == NextFrom(partitions, ss, 2) == NextFrom(images, ss, 4) == NextFrom(binds, ss, 6);
    assert NextFrom(binds, ss, 6) == Next(binds, ss[6]);
  }

  method RunSections(s: Mounts, recovery: bool, k: Kernel) returns (r: Outcome, mounted: set<string>)
    requires MountsInv(s)
    ensures r == Flat(Plan(s, recovery, k))
    ensures r.Ok? ==> mounted == MountedTargets(s)
  {
    SectionsInTurn(Sections(s, recovery, k));
    r, mounted := RunAndroid(s, k);
    r := RunPartitions(r, s, recovery);
    r := RunImages(r, s, recovery, k);
    r := RunBinds(r, s, recovery);
    r, mounted := RunFirmwareDir(r, s, k, mounted);
  }

  /** The plan, then the unmount of the android target and the addon entries. */
  method OnPostBlockDevices(h: MountHandler, recovery: bool, k: Kernel, addon: seq<FstabEntry>)
    returns (r: Outcome, mounted: set<string>)
    requires MountsInv(h.Model())
    ensures !r.Ok? ==> r == Flat(Plan(h.Model(), recovery, k))
    ensures r.Ok? ==>
              && Plan(h.Model(), recovery, k).Ok?
              && r.value == Flatten(Plan(h.Model(), recovery, k).value) + if recovery then [] else addon
    ensures r.Ok? ==> mounted == TargetsLeft(h.Model(), recovery, k)
  {
    var s := h.Model();
    r, mounted := RunSections(s, recovery, k);
    if r.Ok? {
      assert r.value + [] == r.value;
    }
    if r.Ok? && !recovery {
      if k.umountAndroid {
        mounted := mounted - {ANDROID_TARGET};
      }
      r := Ok(r.value + addon);
    }
  }
}
