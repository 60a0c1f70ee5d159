/** The flags of every planned entry, and which failed mounts end the boot. */
module FailedMounts {
  import opened Wrappers
  import opened Sequences
  import opened MountTypes
  import opened MountHandlers
  import opened MountPlans
  import opened PlanShape
  import opened FstabPlanner
  import opened FstabListing
  import opened MountExecution

  /** The firmware, and /cache and /metadata when userdata is on partitions or on tmpfs. */
  predicate MayFail(p: Params, point: string) {
    || point == "/mnt/vendor/firmware"
    || ((point == "/cache" || point == "/metadata") && (p.userdata == UserdataStdParts || p.userdata == UserdataTmpfs))
  }

  predicate FlagsRight(p: Params, e: FstabEntry) {
    && (e.noFail <==> MayFail(p, e.mountPoint)) && !e.formattable
    && (e.bind <==> e.fsType == "none")
    && e.fsType in ["ext4", "f2fs", "erofs", "squashfs", "vfat", "none", "tmpfs"]
    && (e.fsType == "vfat" || (e.bind && e.noFail) ==> e.mountPoint == "/mnt/vendor/firmware")
  }

  predicate GroupRight(p: Params, g: Group) {
    forall i :: 0 <= i < |g.entries| ==> FlagsRight(p, g.entries[i])
  }

  ghost predicate GroupsRight(p: Params, gs: seq<Group>) {
    forall g :: g in gs ==> GroupRight(p, g)
  }

  lemma SystemPlace(name: string)
    requires name in SYSTEM_PARTITIONS
    ensures "/" + name != "/mnt/vendor/firmware" && "/" + name != "/cache" && "/" + name != "/metadata"
    ensures name != "userdata"
  {
    assert ("/" + name)[1..] == name;
    assert "/mnt/vendor/firmware"[1..] == "mnt/vendor/firmware" && "/cache"[1..] == "cache";
    assert "/metadata"[1..] == "metadata";
    NoSystemName(name);
  }

  lemma NoSystemName(name: string)
    requires name in SYSTEM_PARTITIONS
    ensures name != "mnt/vendor/firmware" && name != "cache" && name != "metadata" && name != "userdata"
  {
  }

  lemma UserdataPlace(name: string)
    requires name == "cache" || name == "metadata" || name == "userdata"
    ensures Place(name) != "/mnt/vendor/firmware"
    ensures Place(name) == "/cache" || Place(name) == "/metadata" <==> name != "userdata"
  {
    assert "/" + "cache" == "/cache" && "/" + "metadata" == "/metadata";
  }

  lemma UserdataNamed(name: string)
    requires name in USERDATA_PARTITIONS
    ensures name == "cache" || name == "metadata" || name == "userdata"
  {
  }

  lemma PartitionFlags(p: Params, name: string, source: string, point: string, ro: bool)
    requires !MayFail(p, point)
    ensures GroupRight(p, Group(name, PartitionTries(source, point, ro)))
  {
  }

  lemma SystemPartRight(s: Mounts, recovery: bool)
    ensures GroupsRight(s.params, SystemPart(s, recovery))
  {
    var keys := ["odm", "odm_dlkm", "product", "system", "system_dlkm", "system_ext", "vendor", "vendor_dlkm"];
    SelectionIs(keys, OwnDevice(s.system), SystemGroupOf(s.system));
    forall g | g in SystemPart(s, recovery)
      ensures GroupRight(s.params, g)
    {
      var i :| 0 <= i < |keys| && OwnDevice(s.system)(keys[i]) && g == SystemGroupOf(s.system)(keys[i]);
      assert keys[i] in SYSTEM_PARTITIONS;
      SystemPlace(keys[i]);
      var d := s.system[keys[i]].value;
      PartitionFlags(s.params, keys[i], d.devpath, "/" + keys[i], !d.rw);
    }
  }

  lemma UserdataPartRight(s: Mounts, recovery: bool)
    ensures GroupsRight(s.params, UserdataPart(s, recovery))
  {
    var keys := ["cache", "metadata", "userdata"];
    SelectionIs(keys, CacheIfNeeded(s.needMountCache), UserdataGroupOf(s.userdata));
    forall g | g in UserdataPart(s, recovery)
      ensures GroupRight(s.params, g)
    {
      var i :| 0 <= i < |keys| && CacheIfNeeded(s.needMountCache)(keys[i]) && g == UserdataGroupOf(s.userdata)(keys[i]);
      UserdataGroupRight(s.params, s.userdata, keys[i]);
    }
  }

  lemma UserdataGroupRight(p: Params, m: DeviceMap, name: string)
    requires p.userdata == UserdataStdParts && (name == "cache" || name == "metadata" || name == "userdata")
    ensures GroupRight(p, UserdataGroupOf(m)(name))
  {
    UserdataPlace(name);
  }

  lemma RightParts(p: Params, a: seq<Group>, b: seq<Group>)
    requires GroupsRight(p, a) && GroupsRight(p, b)
    ensures GroupsRight(p, a + b)
  {
  }

  lemma NoneRight(p: Params)
    ensures GroupsRight(p, [])
  {
  }

  lemma ImagesPartRight(s: Mounts, recovery: bool, k: Kernel)
    ensures GroupsRight(s.params, ImagesPart(s, recovery, k))
  {
    NoneRight(s.params);
    if UsesImages(s.params) && s.androidDevice.Some? {
      var d := s.androidDevice.value;
      var keep := PartitionImage(s.params, recovery, s.needMountCache);
      SelectedImagesRight(s, recovery, k, d);
      var source := FirmwareImagePartIs(s.params, k, d);
      FirmwareFlags(s.params, source, !d.rw, FirmwareImagePart(s.params, k, d));
      RightParts(s.params, FirmwareImagePart(s.params, k, d), Selection(d.images, keep, ImageGroupOf(s.params, k, d)));
    }
  }

  lemma SelectedImagesRight(s: Mounts, recovery: bool, k: Kernel, d: BlockDevice)
    ensures var keep := PartitionImage(s.params, recovery, s.needMountCache);
            GroupsRight(s.params, Selection(d.images, keep, ImageGroupOf(s.params, k, d)))
  {
    var keep := PartitionImage(s.params, recovery, s.needMountCache);
    SelectionIs(d.images, keep, ImageGroupOf(s.params, k, d));
    forall g | g in Selection(d.images, keep, ImageGroupOf(s.params, k, d))
      ensures GroupRight(s.params, g)
    {
      var i :| 0 <= i < |d.images| && keep(d.images[i]) && g == ImageGroupOf(s.params, k, d)(d.images[i]);
      ImageGroupRight(s, recovery, k, d, d.images[i]);
    }
  }

  lemma FirmwareFlags(p: Params, source: string, ro: bool, gs: seq<Group>)
    requires gs == [] || gs == [Group("firmware", FirmwareTries(source, ro))]
    ensures GroupsRight(p, gs)
  {
  }

  lemma FirmwareImagePartIs(p: Params, k: Kernel, d: BlockDevice) returns (source: string)
    ensures var part := FirmwareImagePart(p, k, d);
            part == [] || part == [Group("firmware", FirmwareTries(source, !d.rw))]
  {
    source := k.loopDevice(ImagePath(p, d, LastOr(FirmwareImages(d.images), "")), d.rw);
  }

  lemma ImageGroupRight(s: Mounts, recovery: bool, k: Kernel, d: BlockDevice, image: string)
    requires PartitionImage(s.params, recovery, s.needMountCache)(image)
    ensures GroupRight(s.params, ImageGroupOf(s.params, k, d)(image))
  {
    ImageMayNotFail(s, recovery, image);
    var source := k.loopDevice(ImagePath(s.params, d, image), d.rw);
    PartitionFlags(s.params, Stem(image), source, Place(Stem(image)), !d.rw);
  }

  lemma ImageMayNotFail(s: Mounts, recovery: bool, image: string)
    requires PartitionImage(s.params, recovery, s.needMountCache)(image)
    ensures !MayFail(s.params, Place(Stem(image)))
  {
    if Stem(image) in SYSTEM_PARTITIONS {
      SystemPlace(Stem(image));
    } else {
      UserdataNamed(Stem(image));
      UserdataPlace(Stem(image));
    }
  }

  lemma BindPartRight(s: Mounts, recovery: bool)
    ensures GroupsRight(s.params, BindPart(s, recovery))
  {
    if s.androidDevice.Some? {
      var d := s.androidDevice.value;
      SelectionIs(d.subdirs, KeptSubdir(s.needMountCache), BindGroupOf(d));
      forall g | g in BindPart(s, recovery)
        ensures GroupRight(s.params, g)
      {
        var keep := KeptSubdir(s.needMountCache);
        var i :| 0 <= i < |d.subdirs| && keep(d.subdirs[i]) && g == BindGroupOf(d)(d.subdirs[i]);
        UserdataNamed(d.subdirs[i]);
        UserdataPlace(d.subdirs[i]);
      }
    }
  }

  lemma TmpfsPartRight(s: Mounts, recovery: bool)
    ensures GroupsRight(s.params, TmpfsPart(s, recovery))
  {
  }

  lemma FirmwareDirPartRight(s: Mounts)
    ensures GroupsRight(s.params, FirmwareDirPart(s))
  {
  }

  /** Every entry of every plan may fail exactly where MayFail says, is never formattable, and is a bind mount
      exactly when it has no file system. */
  lemma PlanFlags(s: Mounts, recovery: bool, k: Kernel)
    requires MountsInv(s) && Plan(s, recovery, k).Ok?
    ensures GroupsRight(s.params, Plan(s, recovery, k).value)
  {
    PlanListed(s, recovery, k);
    SystemPartRight(s, recovery);
    UserdataPartRight(s, recovery);
    ImagesPartRight(s, recovery, k);
    BindPartRight(s, recovery);
    TmpfsPartRight(s, recovery);
    FirmwareDirPartRight(s);
  }

  lemma {:induction false} FlattenFrom(gs: seq<Group>, e: FstabEntry) returns (g: Group)
    requires e in Flatten(gs)
    ensures g in gs && e in g.entries
    decreases |gs|
  {
    if e in gs[0].entries {
      g := gs[0];
    } else {
      g := FlattenFrom(gs[1..], e);
    }
  }

  /** Mounting a plan ends well exactly when the system run, if there is one, mounts and every other run that
      is visited mounts, but for those that may fail. */
  lemma FailedMountsEndBoot(s: Mounts, recovery: bool, k: Kernel, t: Trace, w: World)
    requires MountsInv(s) && Plan(s, recovery, k).Ok?
    ensures var fstab := Flatten(Plan(s, recovery, k).value); var r, at := MountAll(fstab, t, w), SystemAt(fstab, 0);
            r.ok <==>
              && (at < |fstab| ==> VisitAt(fstab, at, t, w).visit.mounted)
              && forall n :: 0 <= n < |r.visits| ==>
                   var v := r.visits[n];
                   v.begin < |fstab| && (v.mounted || MayFail(s.params, fstab[v.begin].mountPoint))
  {
    var fstab := Flatten(Plan(s, recovery, k).value);
    var r := MountAll(fstab, t, w);
    MountAllIff(fstab, t, w);
    PlanFlags(s, recovery, k);
    forall i | 0 <= i < |fstab|
      ensures Forgiven(fstab[i]) <==> MayFail(s.params, fstab[i].mountPoint)
    {
      var g := FlattenFrom(Plan(s, recovery, k).value, fstab[i]);
      var j :| 0 <= j < |g.entries| && g.entries[j] == fstab[i];
      assert GroupRight(s.params, g);
    }
  }
}
