/** OnPostBlockDevices: the fstab that is built once every device is known. */
module MountPlans {
  import opened Wrappers
  import opened MountTypes
  import opened MountHandlers

  const ANDROID_TARGET := "/mnt/vendor/generic_init/android"
  const FIRMWARE_TARGET := "/mnt/vendor/generic_init/firmware"
  const IMAGE_DIR := "/mnt/vendor/generic_init/img"
  const FIRMWARE_MOUNT_POINT := "/mnt/vendor/firmware"

  const FIRMWARE_FS := ["ext4", "f2fs", "erofs", "squashfs", "vfat"]
  const SYSTEM_FS := ["ext4", "erofs", "squashfs"]
  const USERDATA_FS := ["ext4", "f2fs"]

  /** What the system calls answer: the two mounts, copying an image to RAM, the loop device set up for
      an image ("" when that fails), and the final unmount of ANDROID_TARGET. */
  datatype Kernel = Kernel(
    mountAndroid: bool,
    mountFirmware: bool,
    copies: string -> bool,
    loopDevice: (string, bool) -> string,
    umountAndroid: bool)

  /** NullDevice is a null pointer dereference, Fatal a LOG(FATAL). */
  datatype Step<T> = Ok(value: T) | NullDevice | Fatal

  /** The candidates for one mount point, in the order in which they should be tried. */
  datatype Group = Group(name: string, entries: seq<FstabEntry>)

  type Section = Step<seq<Group>>

  function Then(a: Section, b: Section): Section {
    if a.Ok? && b.Ok? then Ok(a.value + b.value) else if a.Ok? then b else a
  }

  function MountPoint(name: string): string {
    if name == "firmware" then FIRMWARE_MOUNT_POINT else if name == "userdata" then "/data" else "/" + name
  }

  // Candidates

  function Candidates(e: FstabEntry, fsTypes: seq<string>): seq<FstabEntry>
    decreases |fsTypes|
  {
    if fsTypes == [] then [] else [e.(fsType := fsTypes[0])] + Candidates(e, fsTypes[1..])
  }

  /** A writable ext4 candidate is retried read-only before the next file system. */
  function WithRetry(e: FstabEntry, fsTypes: seq<string>): seq<FstabEntry>
    decreases |fsTypes|
  {
    if fsTypes == [] then []
    else
      [e.(fsType := fsTypes[0])]
      + (if fsTypes[0] == "ext4" && !e.ro then [e.(fsType := "ext4", ro := true)] else [])
      + WithRetry(e, fsTypes[1..])
  }

  function PartitionEntry(source: string, name: string, ro: bool): FstabEntry {
    FstabEntry(source, MountPoint(name), "", ro, false, false, false)
  }

  function UserdataEntry(source: string, name: string): FstabEntry {
    FstabEntry(source, MountPoint(name), "", false, false, MountPoint(name) != "/data", false)
  }

  function FirmwareEntry(source: string, fsType: string, ro: bool, bind: bool): FstabEntry {
    FstabEntry(source, FIRMWARE_MOUNT_POINT, fsType, ro, bind, true, false)
  }

  function BindEntry(source: string, name: string): FstabEntry {
    FstabEntry(source, MountPoint(name), "none", false, true, false, false)
  }

  function TmpfsEntry(source: string, name: string): FstabEntry {
    FstabEntry(source, MountPoint(name), "tmpfs", false, false, MountPoint(name) != "/data", false)
  }

  // Images

  datatype ImageKind = UnknownImage | FirmwareFile | InitrdFile | SystemFile | UserdataFile

  function LastDot(name: string): (i: int)
    ensures -1 <= i < |name|
    decreases |name|
  {
    if name == "" then -1
    else if name[|name| - 1] == '.' then |name| - 1
    else LastDot(name[..|name| - 1])
  }

  function Stem(name: string): string {
    if LastDot(name) == -1 then name else name[..LastDot(name)]
  }

  function KindOf(image: string): ImageKind {
    var stem := Stem(image);
    if stem in ["firmware", "linux-firmware"] then FirmwareFile
    else if stem in ["initrd", "ramdisk"] then InitrdFile
    else if stem in SYSTEM_PARTITIONS then SystemFile
    else if stem in USERDATA_PARTITIONS then UserdataFile
    else UnknownImage
  }

  function FromFirmwareImage(p: Params): bool {
    p.firmware == FirmwareImage || p.firmware == FirmwareImageToRam
  }

  function Wanted(p: Params, recovery: bool, kind: ImageKind): bool {
    match kind
    case FirmwareFile => FromFirmwareImage(p)
    case SystemFile => !recovery && (p.system == SystemImages || p.system == SystemImagesToRam)
    case UserdataFile => !recovery && p.userdata == UserdataImages
    case _ => false
  }

  function ToRam(p: Params, kind: ImageKind): bool {
    (kind == FirmwareFile && p.firmware == FirmwareImageToRam) || (kind == SystemFile && p.system == SystemImagesToRam)
  }

  function ImageSource(p: Params, dir: string, image: string): string {
    (if ToRam(p, KindOf(image)) then IMAGE_DIR else dir) + "/" + image
  }

  predicate CopyWorks(p: Params, recovery: bool, image: string, k: Kernel) {
    Wanted(p, recovery, KindOf(image)) && ToRam(p, KindOf(image)) ==> k.copies(image)
  }

  predicate CopiesWork(p: Params, recovery: bool, images: seq<string>, k: Kernel) {
    forall i :: 0 <= i < |images| ==> CopyWorks(p, recovery, images[i], k)
  }

  /** The firmware image found last, or "". */
  function LastFirmware(p: Params, recovery: bool, images: seq<string>): string
    decreases |images|
  {
    if images == [] then ""
    else
      var last := images[|images| - 1];
      if KindOf(last) == FirmwareFile && Wanted(p, recovery, FirmwareFile) then last
      else LastFirmware(p, recovery, images[..|images| - 1])
  }

  /** The partition images that get fstab entries. */
  function PartitionImages(p: Params, recovery: bool, images: seq<string>): seq<string>
    decreases |images|
  {
    if images == [] then []
    else
      var kind := KindOf(images[0]);
      (if kind != FirmwareFile && Wanted(p, recovery, kind) then [images[0]] else [])
      + PartitionImages(p, recovery, images[1..])
  }

  // Sections

  function AndroidPath(d: BlockDevice): string {
    ANDROID_TARGET + "/" + d.androidDir
  }

  function SkipCache(s: Mounts, name: string): bool {
    name == "cache" && !s.needMountCache
  }

  function AndroidSection(s: Mounts, k: Kernel): Section {
    if !s.needAndroidDir then Ok([])
    else if s.androidDevice.None? then NullDevice
    else if !k.mountAndroid then Fatal
    else Ok([])
  }

  function SystemGroups(m: DeviceMap, keys: seq<string>): Section
    requires forall i :: 0 <= i < |keys| ==> keys[i] in m
    decreases |keys|
  {
    if keys == [] then Ok([])
    else if m[keys[0]].None? then NullDevice
    else
      var d := m[keys[0]].value;
      Then(
        if keys[0] != d.systemPartition then Ok([])
        else Ok([Group(keys[0], WithRetry(PartitionEntry(d.devpath, keys[0], !d.rw), SYSTEM_FS))]),
        SystemGroups(m, keys[1..]))
  }

  function UserdataGroups(s: Mounts, keys: seq<string>): Section
    requires forall i :: 0 <= i < |keys| ==> keys[i] in s.userdata
    decreases |keys|
  {
    if keys == [] then Ok([])
    else if SkipCache(s, keys[0]) then UserdataGroups(s, keys[1..])
    else if s.userdata[keys[0]].None? then NullDevice
    else
      var d := s.userdata[keys[0]].value;
      Then(Ok([Group(d.partname, Candidates(UserdataEntry(d.devpath, d.partname), USERDATA_FS))]),
           UserdataGroups(s, keys[1..]))
  }

  function FirmwareImageSection(s: Mounts, recovery: bool, k: Kernel, d: BlockDevice): Section {
    if !FromFirmwareImage(s.params) then Ok([])
    else
      var image := LastFirmware(s.params, recovery, d.images);
      if image == "" then Fatal
      else
        var dev := k.loopDevice(ImageSource(s.params, AndroidPath(d), image), d.rw);
        if dev == "" then Fatal
        else Ok([Group("firmware", Candidates(FirmwareEntry(dev, "", !d.rw, false), FIRMWARE_FS))])
  }

  /** Userdata images too are tried with the system file systems and may not fail. */
  function ImageGroups(s: Mounts, k: Kernel, d: BlockDevice, images: seq<string>): Section
    decreases |images|
  {
    if images == [] then Ok([])
    else if SkipCache(s, Stem(images[0])) then ImageGroups(s, k, d, images[1..])
    else
      var dev := k.loopDevice(ImageSource(s.params, AndroidPath(d), images[0]), d.rw);
      if dev == "" then Fatal
      else
        Then(Ok([Group(Stem(images[0]), WithRetry(PartitionEntry(dev, Stem(images[0]), !d.rw), SYSTEM_FS))]),
             ImageGroups(s, k, d, images[1..]))
  }

  function ImagesSection(s: Mounts, recovery: bool, k: Kernel): Section {
    if !UsesImages(s.params) then Ok([])
    else if s.androidDevice.None? then NullDevice
    else
      var d := s.androidDevice.value;
      if !CopiesWork(s.params, recovery, d.images, k) then Fatal
      else
        Then(FirmwareImageSection(s, recovery, k, d),
             ImageGroups(s, k, d, PartitionImages(s.params, recovery, d.images)))
  }

  function BindGroups(s: Mounts, d: BlockDevice, subdirs: seq<string>): Section
    decreases |subdirs|
  {
    if subdirs == [] then Ok([])
    else if subdirs[0] !in USERDATA_PARTITIONS || SkipCache(s, subdirs[0]) then BindGroups(s, d, subdirs[1..])
    else
      Then(Ok([Group(subdirs[0], [BindEntry(AndroidPath(d) + "/" + subdirs[0], subdirs[0])])]),
           BindGroups(s, d, subdirs[1..]))
  }

  const TMPFS_GROUPS := [
    Group("cache", [TmpfsEntry("cache", "cache")]),
    Group("userdata", [TmpfsEntry("data", "userdata")]),
    Group("metadata", [TmpfsEntry("metadata", "metadata")])]

  function FirmwareDirSection(s: Mounts, k: Kernel): Section {
    if !FromDirs(s.params) then Ok([])
    else if s.firmwareDevice.None? then NullDevice
    else
      var d := s.firmwareDevice.value;
      if s.firmwareDevice == s.androidDevice then
        Ok([Group("firmware", [FirmwareEntry(ANDROID_TARGET + "/" + d.firmwareDir, "none", false, true)])])
      else if !k.mountFirmware then Fatal
      else Ok([Group("firmware", [FirmwareEntry(FIRMWARE_TARGET + "/" + d.firmwareDir, "none", false, true)])])
  }

  function SystemSection(s: Mounts, recovery: bool): Section
    requires MountsInv(s)
  {
    if !recovery && FromDevices(s.params) then SystemGroups(s.system, SYSTEM_PARTITIONS) else Ok([])
  }

  function UserdataSection(s: Mounts, recovery: bool): Section
    requires MountsInv(s)
  {
    if !recovery && s.params.userdata == UserdataStdParts then UserdataGroups(s, USERDATA_PARTITIONS) else Ok([])
  }

  function BindSection(s: Mounts, recovery: bool): Section {
    if recovery || s.params.userdata != BindMountDir then Ok([])
    else if s.androidDevice.None? then NullDevice
    else BindGroups(s, s.androidDevice.value, s.androidDevice.value.subdirs)
  }

  function TmpfsSection(s: Mounts, recovery: bool): Section {
    if !recovery && s.params.userdata == UserdataTmpfs then Ok(TMPFS_GROUPS) else Ok([])
  }

  function Sections(s: Mounts, recovery: bool, k: Kernel): seq<Section>
    requires MountsInv(s)
  {
    [AndroidSection(s, k), SystemSection(s, recovery), UserdataSection(s, recovery), ImagesSection(s, recovery, k),
     BindSection(s, recovery), TmpfsSection(s, recovery), FirmwareDirSection(s, k)]
  }

  function ThenAll(sections: seq<Section>): Section
    decreases |sections|
  {
    if sections == [] then Ok([]) else Then(sections[0], ThenAll(sections[1..]))
  }

  /** Everything OnPostBlockDevices plans, without the addon entries. */
  function Plan(s: Mounts, recovery: bool, k: Kernel): Section
    requires MountsInv(s)
  {
    ThenAll(Sections(s, recovery, k))
  }
}
