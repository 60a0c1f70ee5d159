/** The planned fstab written out: which entries there are, in which order, and every field of each, from the
    state of the mount handler. */
module FstabListing {
  import opened Wrappers
  import opened Sequences
  import opened MountTypes
  import opened MountHandlers
  import opened MountPlans
  import opened PlanOrder
  import opened PlanShape
  import opened BindSources

  // Entries

  /** Tried from one source at one place: ext4, then ext4 read-only if that was writable, erofs, squashfs. */
  function PartitionTries(source: string, point: string, ro: bool): seq<FstabEntry> {
    [FstabEntry(source, point, "ext4", ro, false, false, false)]
    + (if ro then [] else [FstabEntry(source, point, "ext4", true, false, false, false)])
    + [FstabEntry(source, point, "erofs", ro, false, false, false),
       FstabEntry(source, point, "squashfs", ro, false, false, false)]
  }

  /** Writable; only the mount of /data may not fail. */
  function UserdataTries(source: string, point: string, noFail: bool): seq<FstabEntry> {
    [FstabEntry(source, point, "ext4", false, false, noFail, false),
     FstabEntry(source, point, "f2fs", false, false, noFail, false)]
  }

  function FirmwareTries(source: string, ro: bool): seq<FstabEntry> {
    [FstabEntry(source, "/mnt/vendor/firmware", "ext4", ro, false, true, false),
     FstabEntry(source, "/mnt/vendor/firmware", "f2fs", ro, false, true, false),
     FstabEntry(source, "/mnt/vendor/firmware", "erofs", ro, false, true, false),
     FstabEntry(source, "/mnt/vendor/firmware", "squashfs", ro, false, true, false),
     FstabEntry(source, "/mnt/vendor/firmware", "vfat", ro, false, true, false)]
  }

  function Place(name: string): string {
    if name == "userdata" then "/data" else "/" + name
  }

  lemma TriesAre(source: string, point: string, ro: bool)
    ensures WithRetry(FstabEntry(source, point, "", ro, false, false, false), SYSTEM_FS)
         == PartitionTries(source, point, ro)
  {
    SystemListIs(FstabEntry(source, point, "", ro, false, false, false));
  }

  lemma UserdataTriesAre(source: string, point: string, noFail: bool)
    ensures Candidates(FstabEntry(source, point, "", false, false, noFail, false), USERDATA_FS)
         == UserdataTries(source, point, noFail)
  {
    UserdataListIs(FstabEntry(source, point, "", false, false, noFail, false));
  }

  lemma FirmwareTriesAre(source: string, ro: bool)
    ensures Candidates(FstabEntry(source, "/mnt/vendor/firmware", "", ro, false, true, false), FIRMWARE_FS)
         == FirmwareTries(source, ro)
  {
    FirmwareListIs(FstabEntry(source, "/mnt/vendor/firmware", "", ro, false, true, false));
  }

  // System partitions

  /** A partition is planned from the device that stands for it, not from one that has it as a directory. */
  function OwnDevice(m: DeviceMap): string -> bool {
    name => Present(m, name) && m[name].value.systemPartition == name
  }

  function SystemGroupOf(m: DeviceMap): string -> Group {
    name => Group(name,
      if Present(m, name) then PartitionTries(m[name].value.devpath, "/" + name, !m[name].value.rw) else [])
  }

  lemma SystemGroupIs(m: DeviceMap, name: string)
    requires Present(m, name) && name in SYSTEM_PARTITIONS
    ensures var d := m[name].value;
            SystemGroupOf(m)(name) == Group(name, WithRetry(PartitionEntry(d.devpath, name, !d.rw), SYSTEM_FS))
  {
    NotFirmware(name);
    assert "userdata" in USERDATA_PARTITIONS by { assert USERDATA_PARTITIONS[2] == "userdata"; }
    TriesAre(m[name].value.devpath, "/" + name, !m[name].value.rw);
  }

  lemma {:induction false} SystemListed(m: DeviceMap, keys: seq<string>)
    requires forall i :: 0 <= i < |keys| ==> keys[i] in m && keys[i] in SYSTEM_PARTITIONS
    ensures SystemGroups(m, keys).Ok? <==> forall i :: 0 <= i < |keys| ==> m[keys[i]].Some?
    ensures SystemGroups(m, keys).Ok? ==>
              SystemGroups(m, keys).value == Selection(keys, OwnDevice(m), SystemGroupOf(m))
    decreases |keys|
  {
    if keys == [] {
    } else {
      var rest := keys[1..];
      assert forall i :: 0 <= i < |rest| ==> rest[i] == keys[i + 1];
      assert forall i :: 0 < i < |keys| ==> keys[i] == rest[i - 1];
      SystemListed(m, rest);
      if m[keys[0]].Some? {
        SystemGroupIs(m, keys[0]);
      }
    }
  }

  // Userdata partitions

  function CacheIfNeeded(need: bool): string -> bool {
    name => name != "cache" || need
  }

  function UserdataGroupOf(m: DeviceMap): string -> Group {
    name => Group(name,
      if Present(m, name) then UserdataTries(m[name].value.devpath, Place(name), name != "userdata") else [])
  }

  lemma PlaceIs(name: string)
    requires name in SYSTEM_PARTITIONS || name in USERDATA_PARTITIONS
    ensures Place(name) == MountPoint(name) && (Place(name) == "/data" <==> name == "userdata")
  {
    NotFirmware(name);
    assert ("/" + name)[1..] == name && "/data"[1..] == "data";
    assert "data" !in SYSTEM_PARTITIONS && "data" !in USERDATA_PARTITIONS;
  }

  lemma UserdataGroupIs(m: DeviceMap, name: string)
    requires Present(m, name) && name in USERDATA_PARTITIONS
    ensures UserdataGroupOf(m)(name)
         == Group(name, Candidates(UserdataEntry(m[name].value.devpath, name), USERDATA_FS))
  {
    PlaceIs(name);
    UserdataTriesAre(m[name].value.devpath, Place(name), name != "userdata");
  }

  lemma {:induction false} UserdataListed(s: Mounts, keys: seq<string>)
    requires forall i :: 0 <= i < |keys| ==> keys[i] in s.userdata && keys[i] in USERDATA_PARTITIONS
    requires forall k :: k in s.userdata && s.userdata[k].Some? ==> s.userdata[k].value.partname == k
    ensures UserdataGroups(s, keys).Ok? <==>
            forall i :: 0 <= i < |keys| ==> (keys[i] == "cache" && !s.needMountCache) || s.userdata[keys[i]].Some?
    ensures var listed := Selection(keys, CacheIfNeeded(s.needMountCache), UserdataGroupOf(s.userdata));
            UserdataGroups(s, keys).Ok? ==> UserdataGroups(s, keys).value == listed
    decreases |keys|
  {
    if keys == [] {
    } else {
      var rest := keys[1..];
      assert forall i :: 0 <= i < |rest| ==> rest[i] == keys[i + 1];
      assert forall i :: 0 < i < |keys| ==> keys[i] == rest[i - 1];
      UserdataListed(s, rest);
      if s.userdata[keys[0]].Some? {
        UserdataGroupIs(s.userdata, keys[0]);
      }
      assert [] + Selection(rest, CacheIfNeeded(s.needMountCache), UserdataGroupOf(s.userdata))
          == Selection(rest, CacheIfNeeded(s.needMountCache), UserdataGroupOf(s.userdata));
    }
  }

  // Images

  predicate FirmwareName(stem: string) {
    stem == "firmware" || stem == "linux-firmware"
  }

  /** The image files that become partitions: none in recovery. */
  function PartitionImage(p: Params, recovery: bool, needCache: bool): string -> bool {
    image =>
      !recovery &&
      if Stem(image) in SYSTEM_PARTITIONS then p.system == SystemImages || p.system == SystemImagesToRam
      else Stem(image) in USERDATA_PARTITIONS && p.userdata == UserdataImages && (Stem(image) != "cache" || needCache)
  }

  /** Where the image is read from. */
  function ImagePath(p: Params, d: BlockDevice, image: string): string {
    if (p.system == SystemImagesToRam && Stem(image) in SYSTEM_PARTITIONS)
       || (p.firmware == FirmwareImageToRam && FirmwareName(Stem(image)))
    then "/mnt/vendor/generic_init/img/" + image
    else "/mnt/vendor/generic_init/android/" + d.androidDir + "/" + image
  }

  function ImageGroupOf(p: Params, k: Kernel, d: BlockDevice): string -> Group {
    image => Group(Stem(image), PartitionTries(k.loopDevice(ImagePath(p, d, image), d.rw), Place(Stem(image)), !d.rw))
  }

  lemma Kinds(image: string)
    ensures KindOf(image) == FirmwareFile <==> FirmwareName(Stem(image))
    ensures KindOf(image) == SystemFile <==> Stem(image) in SYSTEM_PARTITIONS
    ensures KindOf(image) == UserdataFile <==> Stem(image) in USERDATA_PARTITIONS
  {
    if Stem(image) in SYSTEM_PARTITIONS || Stem(image) in USERDATA_PARTITIONS {
      NotFirmware(Stem(image));
      PartitionNames(Stem(image));
    }
  }

  lemma PartitionNames(name: string)
    requires name in SYSTEM_PARTITIONS || name in USERDATA_PARTITIONS
    ensures name != "linux-firmware" && name != "initrd" && name != "ramdisk"
  {
  }

  lemma ImagePathIs(p: Params, d: BlockDevice, image: string)
    ensures ImageSource(p, AndroidPath(d), image) == ImagePath(p, d, image)
  {
    Kinds(image);
    var dir := "/mnt/vendor/generic_init/android";
    assert dir + "/" + d.androidDir + "/" + image == "/mnt/vendor/generic_init/android/" + d.androidDir + "/" + image;
    assert "/mnt/vendor/generic_init/img" + "/" + image == "/mnt/vendor/generic_init/img/" + image;
  }

  lemma ImageGroupIs(p: Params, k: Kernel, d: BlockDevice, image: string)
    requires Stem(image) in SYSTEM_PARTITIONS || Stem(image) in USERDATA_PARTITIONS
    ensures var e := PartitionEntry(k.loopDevice(ImageSource(p, AndroidPath(d), image), d.rw), Stem(image), !d.rw);
            ImageGroupOf(p, k, d)(image) == Group(Stem(image), WithRetry(e, SYSTEM_FS))
  {
    ImagePathIs(p, d, image);
    PlaceIs(Stem(image));
    TriesAre(k.loopDevice(ImagePath(p, d, image), d.rw), Place(Stem(image)), !d.rw);
  }

  lemma WantedIs(p: Params, recovery: bool, image: string)
    ensures KindOf(image) != FirmwareFile && Wanted(p, recovery, KindOf(image)) <==>
            PartitionImage(p, recovery, true)(image)
    ensures PartitionImage(p, recovery, true)(image) ==>
              Stem(image) in SYSTEM_PARTITIONS || Stem(image) in USERDATA_PARTITIONS
  {
    Kinds(image);
  }

  /** Each image that is wanted but for the cache, and its loop device. */
  lemma WantedUnlessCache(s: Mounts, recovery: bool, image: string)
    ensures PartitionImage(s.params, recovery, s.needMountCache)(image) <==>
            PartitionImage(s.params, recovery, true)(image) && !SkipCache(s, Stem(image))
  {
    if Stem(image) == "cache" {
      CacheIsUserdata();
    }
  }

  lemma CacheIsUserdata()
    ensures "cache" !in SYSTEM_PARTITIONS
  {
  }

  predicate LoopWorks(p: Params, k: Kernel, d: BlockDevice, image: string) {
    k.loopDevice(ImagePath(p, d, image), d.rw) != ""
  }

  predicate LoopsWork(s: Mounts, recovery: bool, k: Kernel, d: BlockDevice, images: seq<string>) {
    forall i :: 0 <= i < |images| && PartitionImage(s.params, recovery, s.needMountCache)(images[i]) ==>
      LoopWorks(s.params, k, d, images[i])
  }

  /** What the first image adds. */
  lemma ImageStep(s: Mounts, recovery: bool, k: Kernel, d: BlockDevice, images: seq<string>)
    requires images != []
    ensures var rest := ImageGroups(s, k, d, PartitionImages(s.params, recovery, images[1..]));
            ImageGroups(s, k, d, PartitionImages(s.params, recovery, images)) ==
              if !PartitionImage(s.params, recovery, s.needMountCache)(images[0]) then rest
              else if !LoopWorks(s.params, k, d, images[0]) then Fatal
              else Then(Ok([ImageGroupOf(s.params, k, d)(images[0])]), rest)
  {
    var image, more := images[0], PartitionImages(s.params, recovery, images[1..]);
    WantedIs(s.params, recovery, image);
    WantedUnlessCache(s, recovery, image);
    if PartitionImage(s.params, recovery, true)(image) {
      ImagePathIs(s.params, d, image);
      ImageGroupIs(s.params, k, d, image);
      assert ([image] + more)[1..] == more;
    } else {
      assert [] + more == more;
    }
  }

  lemma {:induction false} ImagesListed(s: Mounts, recovery: bool, k: Kernel, d: BlockDevice, images: seq<string>)
    ensures var keep := PartitionImage(s.params, recovery, s.needMountCache);
            var section := ImageGroups(s, k, d, PartitionImages(s.params, recovery, images));
            && (section.Ok? <==> LoopsWork(s, recovery, k, d, images))
            && (section.Ok? ==> section.value == Selection(images, keep, ImageGroupOf(s.params, k, d)))
    decreases |images|
  {
    if images == [] {
    } else {
      var rest := images[1..];
      assert forall i :: 0 <= i < |rest| ==> rest[i] == images[i + 1];
      assert forall i :: 0 < i < |images| ==> images[i] == rest[i - 1];
      ImagesListed(s, recovery, k, d, rest);
      ImageStep(s, recovery, k, d, images);
      var listed := Selection(rest, PartitionImage(s.params, recovery, s.needMountCache), ImageGroupOf(s.params, k, d));
      assert [] + listed == listed;
    }
  }

  function IsFirmware(): string -> bool {
    image => FirmwareName(Stem(image))
  }

  function Itself(): string -> string {
    image => image
  }

  function FirmwareImages(images: seq<string>): seq<string> {
    Selection(images, IsFirmware(), Itself())
  }

  function LastOr(xs: seq<string>, default: string): string {
    if xs == [] then default else xs[|xs| - 1]
  }

  lemma LastFirmwareStep(p: Params, recovery: bool, before: seq<string>, last: string)
    requires FromFirmwareImage(p)
    ensures LastFirmware(p, recovery, before + [last])
         == if FirmwareName(Stem(last)) then last else LastFirmware(p, recovery, before)
  {
    assert (before + [last])[..|before + [last]| - 1] == before;
    Kinds(last);
  }

  lemma LastOfFirmwareImages(before: seq<string>, last: string)
    ensures LastOr(FirmwareImages(before + [last]), "")
         == if FirmwareName(Stem(last)) then last else LastOr(FirmwareImages(before), "")
  {
    SelectionSnoc(before, last, IsFirmware(), Itself());
    assert FirmwareImages(before) + [] == FirmwareImages(before);
  }

  lemma {:induction false} LastFirmwareIs(p: Params, recovery: bool, images: seq<string>)
    requires FromFirmwareImage(p)
    ensures LastFirmware(p, recovery, images) == LastOr(FirmwareImages(images), "")
    decreases |images|
  {
    if images == [] {
    } else {
      var before, last := images[..|images| - 1], images[|images| - 1];
      assert images == before + [last];
      LastFirmwareIs(p, recovery, before);
      LastFirmwareStep(p, recovery, before, last);
      LastOfFirmwareImages(before, last);
    }
  }

  /** The firmware image found last. */
  function FirmwareImageGroup(p: Params, k: Kernel, d: BlockDevice): Group {
    var image := LastOr(FirmwareImages(d.images), "");
    Group("firmware", FirmwareTries(k.loopDevice(ImagePath(p, d, image), d.rw), !d.rw))
  }

  function FirmwareImagePart(p: Params, k: Kernel, d: BlockDevice): seq<Group> {
    if p.firmware == FirmwareImage || p.firmware == FirmwareImageToRam then [FirmwareImageGroup(p, k, d)] else []
  }

  predicate FirmwareImageWorks(p: Params, k: Kernel, d: BlockDevice) {
    p.firmware == FirmwareImage || p.firmware == FirmwareImageToRam ==>
      LastOr(FirmwareImages(d.images), "") != "" && LoopWorks(p, k, d, LastOr(FirmwareImages(d.images), ""))
  }

  lemma FirmwareImageListed(s: Mounts, recovery: bool, k: Kernel, d: BlockDevice)
    ensures FirmwareImageSection(s, recovery, k, d).Ok? <==> FirmwareImageWorks(s.params, k, d)
    ensures FirmwareImageSection(s, recovery, k, d).Ok? ==>
              FirmwareImageSection(s, recovery, k, d).value == FirmwareImagePart(s.params, k, d)
  {
    if FromFirmwareImage(s.params) {
      var image := LastOr(FirmwareImages(d.images), "");
      LastFirmwareIs(s.params, recovery, d.images);
      ImagePathIs(s.params, d, image);
      FirmwareTriesAre(k.loopDevice(ImagePath(s.params, d, image), d.rw), !d.rw);
    }
  }

  /** The image files that are copied to RAM first. */
  predicate InRam(p: Params, recovery: bool, image: string) {
    || (!recovery && p.system == SystemImagesToRam && Stem(image) in SYSTEM_PARTITIONS)
    || (p.firmware == FirmwareImageToRam && FirmwareName(Stem(image)))
  }

  predicate CopiesMade(p: Params, recovery: bool, k: Kernel, images: seq<string>) {
    forall i :: 0 <= i < |images| && InRam(p, recovery, images[i]) ==> k.copies(images[i])
  }

  lemma CopiesAre(p: Params, recovery: bool, k: Kernel, images: seq<string>)
    ensures CopiesWork(p, recovery, images, k) <==> CopiesMade(p, recovery, k, images)
  {
    forall i | 0 <= i < |images|
      ensures CopyWorks(p, recovery, images[i], k) <==> (InRam(p, recovery, images[i]) ==> k.copies(images[i]))
    {
      Kinds(images[i]);
    }
  }

  // Bind mounts

  function KeptSubdir(needCache: bool): string -> bool {
    name => name in USERDATA_PARTITIONS && (name != "cache" || needCache)
  }

  function BindGroupOf(d: BlockDevice): string -> Group {
    name =>
      var source := "/mnt/vendor/generic_init/android/" + d.androidDir + "/" + name;
      Group(name, [FstabEntry(source, Place(name), "none", false, true, false, false)])
  }

  lemma {:induction false} BindsListed(s: Mounts, d: BlockDevice, subdirs: seq<string>)
    ensures BindGroups(s, d, subdirs) == Ok(Selection(subdirs, KeptSubdir(s.needMountCache), BindGroupOf(d)))
    decreases |subdirs|
  {
    if subdirs == [] {
    } else {
      BindsListed(s, d, subdirs[1..]);
      var listed := Selection(subdirs[1..], KeptSubdir(s.needMountCache), BindGroupOf(d));
      assert [] + listed == listed;
      if KeptSubdir(s.needMountCache)(subdirs[0]) {
        BindGroupIs(d, subdirs[0]);
      }
    }
  }

  lemma BindGroupIs(d: BlockDevice, name: string)
    requires name in USERDATA_PARTITIONS
    ensures BindGroupOf(d)(name) == Group(name, [BindEntry(AndroidPath(d) + "/" + name, name)])
  {
    PlaceIs(name);
    assert "/mnt/vendor/generic_init/android" + "/" + d.androidDir + "/" + name
        == "/mnt/vendor/generic_init/android/" + d.androidDir + "/" + name;
  }

  // The plan

  function SystemPart(s: Mounts, recovery: bool): seq<Group> {
    if recovery || (s.params.system != SystemStdParts && s.params.system != AnyBlockDevices) then []
    else
      Selection(["odm", "odm_dlkm", "product", "system", "system_dlkm", "system_ext", "vendor", "vendor_dlkm"],
        OwnDevice(s.system), SystemGroupOf(s.system))
  }

  function UserdataPart(s: Mounts, recovery: bool): seq<Group> {
    if recovery || s.params.userdata != UserdataStdParts then []
    else Selection(["cache", "metadata", "userdata"], CacheIfNeeded(s.needMountCache), UserdataGroupOf(s.userdata))
  }

  function ImagesPart(s: Mounts, recovery: bool, k: Kernel): seq<Group> {
    if !UsesImages(s.params) || s.androidDevice.None? then []
    else
      var d := s.androidDevice.value;
      FirmwareImagePart(s.params, k, d)
      + Selection(d.images, PartitionImage(s.params, recovery, s.needMountCache), ImageGroupOf(s.params, k, d))
  }

  function BindPart(s: Mounts, recovery: bool): seq<Group> {
    if recovery || s.params.userdata != BindMountDir || s.androidDevice.None? then []
    else
      var d := s.androidDevice.value;
      Selection(d.subdirs, KeptSubdir(s.needMountCache), BindGroupOf(d))
  }

  function TmpfsPart(s: Mounts, recovery: bool): seq<Group> {
    if recovery || s.params.userdata != UserdataTmpfs then []
    else
      [Group("cache", [FstabEntry("cache", "/cache", "tmpfs", false, false, true, false)]),
       Group("userdata", [FstabEntry("data", "/data", "tmpfs", false, false, false, false)]),
       Group("metadata", [FstabEntry("metadata", "/metadata", "tmpfs", false, false, true, false)])]
  }

  /** From a target of its own, or from the android device's when that has it. */
  function FirmwareDirPart(s: Mounts): seq<Group> {
    if (s.params.firmware != AllPossibleDirs && s.params.firmware != OnlyAndroidDir) || s.firmwareDevice.None? then []
    else
      var target := if s.firmwareDevice == s.androidDevice then "/mnt/vendor/generic_init/android/"
                    else "/mnt/vendor/generic_init/firmware/";
      var source := target + s.firmwareDevice.value.firmwareDir;
      [Group("firmware", [FstabEntry(source, "/mnt/vendor/firmware", "none", false, true, true, false)])]
  }

  function Listing(s: Mounts, recovery: bool, k: Kernel): seq<Group> {
    SystemPart(s, recovery) + UserdataPart(s, recovery) + ImagesPart(s, recovery, k) + BindPart(s, recovery)
    + TmpfsPart(s, recovery) + FirmwareDirPart(s)
  }

  // When planning works

  predicate AndroidWorks(s: Mounts, k: Kernel) {
    s.needAndroidDir ==> s.androidDevice.Some? && k.mountAndroid
  }

  predicate SystemWorks(s: Mounts, recovery: bool) {
    !recovery && (s.params.system == SystemStdParts || s.params.system == AnyBlockDevices) ==>
      forall name :: name in s.system ==> s.system[name].Some?
  }

  predicate UserdataWorks(s: Mounts, recovery: bool) {
    !recovery && s.params.userdata == UserdataStdParts ==>
      forall name :: name in s.userdata ==> (name == "cache" && !s.needMountCache) || s.userdata[name].Some?
  }

  predicate ImagesWork(s: Mounts, recovery: bool, k: Kernel) {
    UsesImages(s.params) ==>
      && s.androidDevice.Some?
      && var d := s.androidDevice.value;
         && CopiesMade(s.params, recovery, k, d.images) && FirmwareImageWorks(s.params, k, d)
         && LoopsWork(s, recovery, k, d, d.images)
  }

  predicate BindsWork(s: Mounts, recovery: bool) {
    !recovery && s.params.userdata == BindMountDir ==> s.androidDevice.Some?
  }

  predicate FirmwareDirWorks(s: Mounts, k: Kernel) {
    s.params.firmware == AllPossibleDirs || s.params.firmware == OnlyAndroidDir ==>
      s.firmwareDevice.Some? && (s.firmwareDevice == s.androidDevice || k.mountFirmware)
  }

  // Section by section

  lemma SystemSectionListed(s: Mounts, recovery: bool)
    requires MountsInv(s)
    ensures SystemSection(s, recovery).Ok? <==> SystemWorks(s, recovery)
    ensures SystemSection(s, recovery).Ok? ==> SystemSection(s, recovery).value == SystemPart(s, recovery)
  {
    if !recovery && FromDevices(s.params) {
      SystemListed(s.system, SYSTEM_PARTITIONS);
      assert forall i :: 0 <= i < |SYSTEM_PARTITIONS| ==> SYSTEM_PARTITIONS[i] in SYSTEM_PARTITIONS;
    }
  }

  lemma UserdataSectionListed(s: Mounts, recovery: bool)
    requires MountsInv(s)
    ensures UserdataSection(s, recovery).Ok? <==> UserdataWorks(s, recovery)
    ensures UserdataSection(s, recovery).Ok? ==> UserdataSection(s, recovery).value == UserdataPart(s, recovery)
  {
    if !recovery && s.params.userdata == UserdataStdParts {
      UserdataListed(s, USERDATA_PARTITIONS);
      assert forall i :: 0 <= i < |USERDATA_PARTITIONS| ==> USERDATA_PARTITIONS[i] in USERDATA_PARTITIONS;
    }
  }

  lemma ImagesSectionListed(s: Mounts, recovery: bool, k: Kernel)
    ensures ImagesSection(s, recovery, k).Ok? <==> ImagesWork(s, recovery, k)
    ensures ImagesSection(s, recovery, k).Ok? ==> ImagesSection(s, recovery, k).value == ImagesPart(s, recovery, k)
  {
    if UsesImages(s.params) && s.androidDevice.Some? {
      ImagesFrom(s, recovery, k, s.androidDevice.value);
    }
  }

  lemma ImagesFrom(s: Mounts, recovery: bool, k: Kernel, d: BlockDevice)
    requires UsesImages(s.params) && s.androidDevice == Some(d)
    ensures ImagesSection(s, recovery, k).Ok? <==>
            && CopiesMade(s.params, recovery, k, d.images) && FirmwareImageWorks(s.params, k, d)
            && LoopsWork(s, recovery, k, d, d.images)
    ensures var keep := PartitionImage(s.params, recovery, s.needMountCache);
            var listed := FirmwareImagePart(s.params, k, d) + Selection(d.images, keep, ImageGroupOf(s.params, k, d));
            ImagesSection(s, recovery, k).Ok? ==> ImagesSection(s, recovery, k).value == listed
  {
    CopiesAre(s.params, recovery, k, d.images);
    FirmwareImageListed(s, recovery, k, d);
    ImagesListed(s, recovery, k, d, d.images);
    ImagesSectionIs(s, recovery, k, d);
    ThenParts(FirmwareImageSection(s, recovery, k, d),
      ImageGroups(s, k, d, PartitionImages(s.params, recovery, d.images)));
  }

  lemma ThenParts(a: Section, b: Section)
    ensures Then(a, b).Ok? <==> a.Ok? && b.Ok?
    ensures Then(a, b).Ok? ==> Then(a, b).value == a.value + b.value
  {
  }

  lemma ImagesSectionIs(s: Mounts, recovery: bool, k: Kernel, d: BlockDevice)
    requires UsesImages(s.params) && s.androidDevice == Some(d)
    ensures ImagesSection(s, recovery, k) ==
            if !CopiesWork(s.params, recovery, d.images, k) then Fatal
            else Then(FirmwareImageSection(s, recovery, k, d),
                      ImageGroups(s, k, d, PartitionImages(s.params, recovery, d.images)))
  {
  }

  lemma BindSectionListed(s: Mounts, recovery: bool)
    ensures BindSection(s, recovery).Ok? <==> BindsWork(s, recovery)
    ensures BindSection(s, recovery).Ok? ==> BindSection(s, recovery).value == BindPart(s, recovery)
  {
    if s.androidDevice.Some? {
      BindsListed(s, s.androidDevice.value, s.androidDevice.value.subdirs);
    }
  }

  lemma TmpfsSectionListed(s: Mounts, recovery: bool)
    ensures TmpfsSection(s, recovery) == Ok(TmpfsPart(s, recovery))
  {
    assert "/" + "cache" == "/cache" && "/" + "metadata" == "/metadata";
  }

  lemma FirmwareDirListed(s: Mounts, k: Kernel)
    ensures FirmwareDirSection(s, k).Ok? <==> FirmwareDirWorks(s, k)
    ensures FirmwareDirSection(s, k).Ok? ==> FirmwareDirSection(s, k).value == FirmwareDirPart(s)
  {
    assert ANDROID_TARGET + "/" == "/mnt/vendor/generic_init/android/";
    assert FIRMWARE_TARGET + "/" == "/mnt/vendor/generic_init/firmware/";
  }

  /** Over the bare results, so that what the sections compute stays out of the proof. */
  lemma JoinSections(a: Section, b: Section, c: Section, d: Section, e: Section, f: Section, g: Section)
    requires a.Ok? ==> a.value == []
    ensures ThenAll([a, b, c, d, e, f, g]).Ok? <==> a.Ok? && b.Ok? && c.Ok? && d.Ok? && e.Ok? && f.Ok? && g.Ok?
    ensures ThenAll([a, b, c, d, e, f, g]).Ok? ==>
              ThenAll([a, b, c, d, e, f, g]).value == b.value + c.value + d.value + e.value + f.value + g.value
  {
    ThenSplit([a, b, c, d, e, f, g]);
    ThenSplit([b, c, d, e, f, g]);
    ThenSplit([c, d, e, f, g]);
    ThenSplit([d, e, f, g]);
    ThenSplit([e, f, g]);
    ThenSplit([f, g]);
    ThenSplit([g]);
  }

  lemma ThenSplit(ss: seq<Section>)
    requires ss != []
    ensures ThenAll(ss).Ok? <==> ss[0].Ok? && ThenAll(ss[1..]).Ok?
    ensures ThenAll(ss).Ok? ==> ThenAll(ss).value == ss[0].value + ThenAll(ss[1..]).value
  {
  }

  predicate AllWork(s: Mounts, recovery: bool, k: Kernel) {
    && AndroidWorks(s, k) && SystemWorks(s, recovery) && UserdataWorks(s, recovery)
    && ImagesWork(s, recovery, k) && BindsWork(s, recovery) && FirmwareDirWorks(s, k)
  }

  lemma PlanWorksIff(s: Mounts, recovery: bool, k: Kernel)
    requires MountsInv(s)
    ensures Plan(s, recovery, k).Ok? <==> AllWork(s, recovery, k)
  {
    SystemSectionListed(s, recovery);
    UserdataSectionListed(s, recovery);
    ImagesSectionListed(s, recovery, k);
    BindSectionListed(s, recovery);
    FirmwareDirListed(s, k);
    JoinSections(AndroidSection(s, k), SystemSection(s, recovery), UserdataSection(s, recovery),
      ImagesSection(s, recovery, k), BindSection(s, recovery), TmpfsSection(s, recovery), FirmwareDirSection(s, k));
  }

  /** Planning gets through exactly when every device needed is there and every call made works, and then the
      plan is this fstab. */
  lemma PlanListed(s: Mounts, recovery: bool, k: Kernel)
    requires MountsInv(s)
    ensures Plan(s, recovery, k).Ok? <==> AllWork(s, recovery, k)
    ensures Plan(s, recovery, k).Ok? ==> Plan(s, recovery, k).value == Listing(s, recovery, k)
  {
    PlanWorksIff(s, recovery, k);
    if Plan(s, recovery, k).Ok? {
      PlanIsListing(s, recovery, k);
    }
  }

  lemma PlanIsListing(s: Mounts, recovery: bool, k: Kernel)
    requires MountsInv(s) && Plan(s, recovery, k).Ok?
    ensures Plan(s, recovery, k).value == Listing(s, recovery, k)
  {
    SystemSectionListed(s, recovery);
    UserdataSectionListed(s, recovery);
    ImagesSectionListed(s, recovery, k);
    BindSectionListed(s, recovery);
    TmpfsSectionListed(s, recovery);
    FirmwareDirListed(s, k);
    JoinSections(AndroidSection(s, k), SystemSection(s, recovery), UserdataSection(s, recovery),
      ImagesSection(s, recovery, k), BindSection(s, recovery), TmpfsSection(s, recovery), FirmwareDirSection(s, k));
  }
}
