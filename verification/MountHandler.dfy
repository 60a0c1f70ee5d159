/** What the mount handler learns from boot parameters and block devices, and when it has enough. */
module MountHandlers {
  import opened Wrappers
  import opened MountTypes

  type DeviceMap = map<string, Option<BlockDevice>>

  datatype Mounts = Mounts(
    params: Params,
    needAndroidDir: bool,
    needFirmwareDir: bool,
    needMountCache: bool,
    parsed: map<string, BlockDevice>,
    system: DeviceMap,
    userdata: DeviceMap,
    androidDevice: Option<BlockDevice>,
    firmwareDevice: Option<BlockDevice>)

  /** A block device event: what probing found, and whether the device has a /cache directory. */
  datatype Report = Report(device: BlockDevice, cacheDir: bool)

  function UsesImages(p: Params): bool {
    p.firmware == FirmwareImage || p.firmware == FirmwareImageToRam ||
    p.system == SystemImages || p.system == SystemImagesToRam || p.userdata == UserdataImages
  }

  function FromDirs(p: Params): bool {
    p.firmware == AllPossibleDirs || p.firmware == OnlyAndroidDir
  }

  function FromDevices(p: Params): bool {
    p.system == SystemStdParts || p.system == AnyBlockDevices
  }

  function NoDevices(keys: seq<string>): DeviceMap {
    map k | k in keys :: None
  }

  function Configured(p: Params): Mounts {
    Mounts(p, UsesImages(p) || p.userdata == BindMountDir, FromDirs(p), false, map[],
      NoDevices(SYSTEM_PARTITIONS), NoDevices(USERDATA_PARTITIONS), None, None)
  }

  function AssignAll(m: DeviceMap, names: seq<string>, d: BlockDevice): DeviceMap
    decreases |names|
  {
    if names == [] then m else AssignAll(m[names[0] := Some(d)], names[1..], d)
  }

  /** The system partition a device stands for, by name or by content. */
  function SystemName(p: Params, d: BlockDevice): string {
    if p.system == SystemStdParts && d.partname in SYSTEM_PARTITIONS then d.partname
    else if p.system == AnyBlockDevices && d.systemPartition in SYSTEM_PARTITIONS then d.systemPartition
    else ""
  }

  function Updated(s: Mounts, d: BlockDevice): Mounts {
    var name := SystemName(s.params, d);
    if name != "" then
      s.(system := AssignAll(s.system[name := Some(d)], d.systemSubdirs, d))
    else if s.params.userdata == UserdataStdParts && d.partname in USERDATA_PARTITIONS then
      s.(userdata := s.userdata[d.partname := Some(d)])
    else
      s.(androidDevice := if s.needAndroidDir && d.androidDir != "" then Some(d) else s.androidDevice,
         firmwareDevice := if s.needFirmwareDir && d.firmwareDir != "" then Some(d) else s.firmwareDevice)
  }

  function Ignored(devname: string): bool {
    exists i :: 0 <= i < |IGNORED_PREFIXES| && IGNORED_PREFIXES[i] <= devname
  }

  function Reported(s: Mounts, r: Report): Mounts {
    if r.device.devpath in s.parsed || Ignored(r.device.devname) then s
    else Updated(s.(parsed := s.parsed[r.device.devpath := r.device],
                    needMountCache := s.needMountCache || r.cacheDir), r.device)
  }

  function ReportedAll(s: Mounts, rs: seq<Report>): Mounts
    decreases |rs|
  {
    if rs == [] then s else ReportedAll(Reported(s, rs[0]), rs[1..])
  }

  function Present(m: DeviceMap, key: string): bool {
    key in m && m[key].Some?
  }

  /** CanQuitUeventd */
  predicate Ready(s: Mounts) {
    && (FromDevices(s.params) ==> forall k :: k in s.system ==> s.system[k].Some?)
    && (s.params.userdata == UserdataStdParts ==>
          forall k :: k in s.userdata && !(k == "cache" && !s.needMountCache) ==> s.userdata[k].Some?)
    && (s.needAndroidDir ==> s.androidDevice.Some?)
    && (s.needFirmwareDir ==> s.firmwareDevice.Some?)
  }

  // Invariants

  predicate Known(s: Mounts, d: Option<BlockDevice>) {
    d.Some? ==> d.value.devpath in s.parsed && s.parsed[d.value.devpath] == d.value
  }

  /** The need flags follow from the parameters, the key sets are fixed, a userdata device carries its
      key as name, a device with the android directory is only kept when one is needed, and every kept
      device is the one probed under its path, so that devices can be compared by identity. */
  ghost predicate MountsInv(s: Mounts) {
    && s.needAndroidDir == (UsesImages(s.params) || s.params.userdata == BindMountDir)
    && s.needFirmwareDir == FromDirs(s.params)
    && (forall k :: k in s.system <==> k in SYSTEM_PARTITIONS)
    && (forall k :: k in s.userdata <==> k in USERDATA_PARTITIONS)
    && (forall k :: k in s.userdata && s.userdata[k].Some? ==> s.userdata[k].value.partname == k)
    && (s.androidDevice.Some? ==> s.needAndroidDir)
    && Known(s, s.androidDevice) && Known(s, s.firmwareDevice)
    && (forall p :: p in s.parsed ==> ProbeValid(s.parsed[p]) && s.parsed[p].devpath == p)
  }

  /** Nothing that was found is lost again. */
  ghost predicate Grows(m: DeviceMap, m': DeviceMap) {
    m.Keys <= m'.Keys && forall k :: k in m && m[k].Some? ==> m'[k].Some?
  }

  lemma {:induction false} AssignAllKeeps(m: DeviceMap, names: seq<string>, d: BlockDevice, keys: seq<string>)
    requires forall k :: k in m <==> k in keys
    requires forall i :: 0 <= i < |names| ==> names[i] in keys
    ensures forall k :: k in AssignAll(m, names, d) <==> k in keys
    ensures Grows(m, AssignAll(m, names, d))
    decreases |names|
  {
    if names == [] {
    } else {
      assert names[0] in keys;
      AssignAllKeeps(m[names[0] := Some(d)], names[1..], d, keys);
    }
  }

  lemma ConfiguredInv(p: Params)
    ensures MountsInv(Configured(p))
  {
  }

  /** One step keeps the invariant and loses nothing. */
  ghost predicate StepKeeps(s: Mounts, s': Mounts) {
    && MountsInv(s')
    && s'.params == s.params
    && Grows(s.system, s'.system) && Grows(s.userdata, s'.userdata)
    && (s.androidDevice.Some? ==> s'.androidDevice.Some?)
    && (s.firmwareDevice.Some? ==> s'.firmwareDevice.Some?)
  }

  lemma ParsedInv(s: Mounts, d: BlockDevice, cache: bool)
    requires MountsInv(s) && ProbeValid(d) && d.devpath !in s.parsed
    ensures MountsInv(s.(parsed := s.parsed[d.devpath := d], needMountCache := cache))
  {
  }

  lemma SystemUpdateInv(s: Mounts, m: DeviceMap)
    requires MountsInv(s) && Grows(s.system, m)
    requires forall k :: k in m <==> k in SYSTEM_PARTITIONS
    ensures StepKeeps(s, s.(system := m))
  {
  }

  lemma UserdataUpdateInv(s: Mounts, d: BlockDevice)
    requires MountsInv(s) && d.partname in USERDATA_PARTITIONS
    ensures StepKeeps(s, s.(userdata := s.userdata[d.partname := Some(d)]))
  {
  }

  lemma DirsUpdateInv(s: Mounts, a: Option<BlockDevice>, f: Option<BlockDevice>)
    requires MountsInv(s) && Known(s, a) && Known(s, f)
    requires a.Some? ==> s.needAndroidDir
    requires (s.androidDevice.Some? ==> a.Some?) && (s.firmwareDevice.Some? ==> f.Some?)
    ensures StepKeeps(s, s.(androidDevice := a, firmwareDevice := f))
  {
  }

  lemma UpdatedInv(s: Mounts, d: BlockDevice)
    requires MountsInv(s) && d.devpath in s.parsed && s.parsed[d.devpath] == d
    ensures StepKeeps(s, Updated(s, d))
  {
    var name := SystemName(s.params, d);
    if name != "" {
      AssignAllKeeps(s.system[name := Some(d)], d.systemSubdirs, d, SYSTEM_PARTITIONS);
      SystemUpdateInv(s, AssignAll(s.system[name := Some(d)], d.systemSubdirs, d));
    } else if s.params.userdata == UserdataStdParts && d.partname in USERDATA_PARTITIONS {
      UserdataUpdateInv(s, d);
    } else {
      DirsUpdateInv(s,
        if s.needAndroidDir && d.androidDir != "" then Some(d) else s.androidDevice,
        if s.needFirmwareDir && d.firmwareDir != "" then Some(d) else s.firmwareDevice);
    }
  }

  lemma ReportedInv(s: Mounts, r: Report)
    requires MountsInv(s) && ProbeValid(r.device)
    ensures StepKeeps(s, Reported(s, r))
  {
    var d := r.device;
    if d.devpath !in s.parsed && !Ignored(d.devname) {
      ParsedInv(s, d, s.needMountCache || r.cacheDir);
      UpdatedInv(s.(parsed := s.parsed[d.devpath := d], needMountCache := s.needMountCache || r.cacheDir), d);
    }
  }

  lemma KeepsTransitive(s: Mounts, s1: Mounts, s2: Mounts)
    requires StepKeeps(s, s1) && StepKeeps(s1, s2)
    ensures StepKeeps(s, s2)
  {
  }

  lemma {:induction false} ReportedAllInv(s: Mounts, rs: seq<Report>)
    requires MountsInv(s) && forall i :: 0 <= i < |rs| ==> ProbeValid(rs[i].device)
    ensures StepKeeps(s, ReportedAll(s, rs))
    decreases |rs|
  {
    if rs == [] {
    } else {
      ReportedInv(s, rs[0]);
      ReportedAllInv(Reported(s, rs[0]), rs[1..]);
      KeepsTransitive(s, Reported(s, rs[0]), ReportedAll(s, rs));
    }
  }

  // The handler

  function FirmwareParamOf(value: string): Option<FirmwareParam> {
    match value
    case "all_possible_dirs" => Some(AllPossibleDirs)
    case "disable" => Some(Disable)
    case "false" => Some(Disable)
    case "img" => Some(FirmwareImage)
    case "img_ram" => Some(FirmwareImageToRam)
    case "only_android_dir" => Some(OnlyAndroidDir)
    case "true" => Some(AllPossibleDirs)
    case _ => None
  }

  function SystemParamOf(value: string): Option<SystemParam> {
    match value
    case "std_parts" => Some(SystemStdParts)
    case "blk_devices" => Some(AnyBlockDevices)
    case "imgs" => Some(SystemImages)
    case "imgs_ram" => Some(SystemImagesToRam)
    case _ => None
  }

  function UserdataParamOf(value: string): Option<UserdataParam> {
    match value
    case "std_parts" => Some(UserdataStdParts)
    case "imgs" => Some(UserdataImages)
    case "bind_mount_dir" => Some(BindMountDir)
    case "tmpfs" => Some(UserdataTmpfs)
    case _ => None
  }

  function Get(boot: map<string, string>, key: string): Option<string> {
    if key in boot then Some(boot[key]) else None
  }

  // An unset or invalid parameter keeps its value.

  function FirmwareOr(boot: map<string, string>, p: FirmwareParam): FirmwareParam {
    var v := Get(boot, "mount_firmware");
    if v.Some? && FirmwareParamOf(v.value).Some? then FirmwareParamOf(v.value).value else p
  }

  function SystemOr(boot: map<string, string>, p: SystemParam): SystemParam {
    var v := Get(boot, "mount_system");
    if v.Some? && SystemParamOf(v.value).Some? then SystemParamOf(v.value).value else p
  }

  function UserdataOr(boot: map<string, string>, p: UserdataParam): UserdataParam {
    var v := Get(boot, "mount_userdata");
    if v.Some? && UserdataParamOf(v.value).Some? then UserdataParamOf(v.value).value else p
  }

  const DEFAULT_PARAMS := Params(AllPossibleDirs, SystemStdParts, UserdataStdParts)

  function ParamsOf(boot: map<string, string>): Params {
    Params(FirmwareOr(boot, AllPossibleDirs), SystemOr(boot, SystemStdParts), UserdataOr(boot, UserdataStdParts))
  }

  /** The namespace-level variables before ParseConfig. */
  function Unconfigured(): Mounts {
    Configured(DEFAULT_PARAMS).(needAndroidDir := false, needFirmwareDir := false)
  }

  class MountHandler {
    var params: Params
    var needAndroidDir: bool
    var needFirmwareDir: bool
    var needMountCache: bool
    var blockDevices: map<string, BlockDevice>
    var systemPartToBdev: DeviceMap
    var userdataPartToBdev: DeviceMap
    var blockDeviceForAndroidDir: Option<BlockDevice>
    var blockDeviceForFirmwareDir: Option<BlockDevice>

    function Model(): Mounts
      reads this
    {
      Mounts(params, needAndroidDir, needFirmwareDir, needMountCache, blockDevices, systemPartToBdev,
        userdataPartToBdev, blockDeviceForAndroidDir, blockDeviceForFirmwareDir)
    }

    constructor ()
      ensures Model() == Unconfigured()
    {
      params := DEFAULT_PARAMS;
      needAndroidDir, needFirmwareDir, needMountCache := false, false, false;
      blockDevices := map[];
      systemPartToBdev, userdataPartToBdev := NoDevices(SYSTEM_PARTITIONS), NoDevices(USERDATA_PARTITIONS);
      blockDeviceForAndroidDir, blockDeviceForFirmwareDir := None, None;
    }

    method ParseFirmwareParam(boot: map<string, string>)
      modifies this`params
      ensures params == old(params).(firmware := FirmwareOr(boot, old(params.firmware)))
    {
      var value := Get(boot, "mount_firmware");
      if value.Some? {
        var p := FirmwareParamOf(value.value);
        if p.Some? {
          params := params.(firmware := p.value);
        }
      }
    }

    method ParseSystemParam(boot: map<string, string>)
      modifies this`params
      ensures params == old(params).(system := SystemOr(boot, old(params.system)))
    {
      var value := Get(boot, "mount_system");
      if value.Some? {
        var p := SystemParamOf(value.value);
        if p.Some? {
          params := params.(system := p.value);
        }
      }
    }

    method ParseUserdataParam(boot: map<string, string>)
      modifies this`params
      ensures params == old(params).(userdata := UserdataOr(boot, old(params.userdata)))
    {
      var value := Get(boot, "mount_userdata");
      if value.Some? {
        var p := UserdataParamOf(value.value);
        if p.Some? {
          params := params.(userdata := p.value);
        }
      }
    }

    /** The parameters and the need flags. */
    method ParseConfig(boot: map<string, string>)
      requires Model() == Unconfigured()
      modifies this
      ensures Model() == Configured(ParamsOf(boot))
    {
      ParseFirmwareParam(boot);
      ParseSystemParam(boot);
      ParseUserdataParam(boot);
      if FromDirs(params) {
        needFirmwareDir := true;
      }
      if UsesImages(params) || params.userdata == BindMountDir {
        needAndroidDir := true;
      }
    }

    /** The loop at process_android_system_partition_subdirs. */
    method AssignSubdirs(d: BlockDevice)
      modifies this`systemPartToBdev
      ensures systemPartToBdev == AssignAll(old(systemPartToBdev), d.systemSubdirs, d)
    {
      var i := 0;
      while i < |d.systemSubdirs|
        invariant 0 <= i <= |d.systemSubdirs|
        invariant AssignAll(systemPartToBdev, d.systemSubdirs[i..], d)
               == AssignAll(old(systemPartToBdev), d.systemSubdirs, d)
      {
        systemPartToBdev := systemPartToBdev[d.systemSubdirs[i] := Some(d)];
        i := i + 1;
      }
    }

    method UpdateMountInfo(d: BlockDevice)
      modifies this
      ensures Model() == Updated(old(Model()), d)
    {
      if params.system == SystemStdParts && d.partname != "" && d.partname in SYSTEM_PARTITIONS {
        systemPartToBdev := systemPartToBdev[d.partname := Some(d)];
        AssignSubdirs(d);
        return;
      }
      if params.system == AnyBlockDevices && d.systemPartition != "" && d.systemPartition in SYSTEM_PARTITIONS {
        systemPartToBdev := systemPartToBdev[d.systemPartition := Some(d)];
        AssignSubdirs(d);
        return;
      }
      if params.userdata == UserdataStdParts && d.partname != "" && d.partname in USERDATA_PARTITIONS {
        userdataPartToBdev := userdataPartToBdev[d.partname := Some(d)];
        return;
      }
      if needAndroidDir && d.androidDir != "" {
        blockDeviceForAndroidDir := Some(d);
      }
      if needFirmwareDir && d.firmwareDir != "" {
        blockDeviceForFirmwareDir := Some(d);
      }
    }

    /** r is what probing the device finds. */
    method OnBlockDeviceAdd(r: Report)
      modifies this
      ensures Model() == Reported(old(Model()), r)
    {
      if r.device.devpath in blockDevices {
        return;
      }
      var i := 0;
      while i < |IGNORED_PREFIXES|
        invariant 0 <= i <= |IGNORED_PREFIXES|
        invariant forall j :: 0 <= j < i ==> !(IGNORED_PREFIXES[j] <= r.device.devname)
      {
        if IGNORED_PREFIXES[i] <= r.device.devname {
          return;
        }
        i := i + 1;
      }
      if r.cacheDir {
        needMountCache := true;
      }
      blockDevices := blockDevices[r.device.devpath := r.device];
      UpdateMountInfo(r.device);
    }

    /** Whether a map still lacks a device, not looking at cache when it need not be mounted. */
    method Lacks(m: DeviceMap, keys: seq<string>, skipCache: bool) returns (missing: bool)
      requires forall k :: k in m <==> k in keys
      ensures missing <==> exists k :: k in m && !(k == "cache" && skipCache) && m[k].None?
    {
      var i := 0;
      while i < |keys|
        invariant 0 <= i <= |keys|
        invariant forall j :: 0 <= j < i ==> (keys[j] == "cache" && skipCache) || m[keys[j]].Some?
      {
        if !(keys[i] == "cache" && skipCache) && m[keys[i]].None? {
          return true;
        }
        i := i + 1;
      }
      return false;
    }

    /** With print_log the source goes on after the first gap, to the same answer. */
    method CanQuitUeventd() returns (ready: bool)
      requires MountsInv(Model())
      ensures ready == Ready(Model())
    {
      if FromDevices(params) {
        var missing := Lacks(systemPartToBdev, SYSTEM_PARTITIONS, false);
        if missing {
          return false;
        }
      }
      if params.userdata == UserdataStdParts {
        var missing := Lacks(userdataPartToBdev, USERDATA_PARTITIONS, !needMountCache);
        if missing {
          return false;
        }
      }
      if needAndroidDir && blockDeviceForAndroidDir.None? {
        return false;
      }
      if needFirmwareDir && blockDeviceForFirmwareDir.None? {
        return false;
      }
      return true;
    }
  }
}
