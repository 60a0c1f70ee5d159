/** Block devices as they were probed, boot parameters, and fstab entries. */
module MountTypes {
  import opened Wrappers

  datatype FirmwareParam = AllPossibleDirs | Disable | OnlyAndroidDir | FirmwareImage | FirmwareImageToRam

  datatype SystemParam = SystemStdParts | AnyBlockDevices | SystemImages | SystemImagesToRam

  datatype UserdataParam = UserdataStdParts | UserdataImages | BindMountDir | UserdataTmpfs

  datatype Params = Params(firmware: FirmwareParam, system: SystemParam, userdata: UserdataParam)

  /** systemPartition, androidDir and firmwareDir are "" when nothing was found. */
  datatype BlockDevice = BlockDevice(
    devname: string,
    devpath: string,
    partname: string,
    rw: bool,
    fsType: string,
    mountOpts: string,
    systemPartition: string,
    systemSubdirs: seq<string>,
    androidDir: string,
    firmwareDir: string,
    images: seq<string>,
    subdirs: seq<string>)

  /** ro and bind are MS_RDONLY and MS_BIND; first_stage_mount is set on every planned entry. */
  datatype FstabEntry = FstabEntry(
    blkDevice: string,
    mountPoint: string,
    fsType: string,
    ro: bool,
    bind: bool,
    noFail: bool,
    formattable: bool)

  /** The keys of the two maps, in the order std::map visits them. */
  const SYSTEM_PARTITIONS := [
    "odm", "odm_dlkm", "product", "system", "system_dlkm", "system_ext", "vendor", "vendor_dlkm"]
  const USERDATA_PARTITIONS := ["cache", "metadata", "userdata"]

  const IGNORED_PREFIXES := ["dm-", "loop", "ram", "zram"]

  /** What probing guarantees: a detected system partition has a known name, its subdirectories are
      known names, and directory listings have no duplicates. */
  ghost predicate ProbeValid(d: BlockDevice) {
    && (d.systemPartition == "" || d.systemPartition in SYSTEM_PARTITIONS)
    && (forall i :: 0 <= i < |d.systemSubdirs| ==> d.systemSubdirs[i] in SYSTEM_PARTITIONS)
    && (forall i, j :: 0 <= i < j < |d.subdirs| ==> d.subdirs[i] != d.subdirs[j])
  }
}
