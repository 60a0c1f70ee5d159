/** Which device the mount handler ends up with for each purpose, said of the devices reported. */
module KnownDevices {
  import opened Wrappers
  import opened MountTypes
  import opened MountHandlers
  import Readiness

  /** What a device can be kept for. */
  datatype Slot = System(name: string) | Userdata(name: string) | Android | Firmware

  function Held(s: Mounts, slot: Slot): Option<BlockDevice> {
    match slot
    case System(name) => if name in s.system then s.system[name] else None
    case Userdata(name) => if name in s.userdata then s.userdata[name] else None
    case Android => s.androidDevice
    case Firmware => s.firmwareDevice
  }

  /** Taken as a system partition: under its partition name, or under what was found on it. */
  predicate AsSystem(p: Params, d: BlockDevice, name: string) {
    || (p.system == SystemStdParts && d.partname == name && name in SYSTEM_PARTITIONS)
    || (p.system == AnyBlockDevices && d.systemPartition == name && name in SYSTEM_PARTITIONS)
  }

  predicate AnySystem(p: Params, d: BlockDevice) {
    AsSystem(p, d, d.partname) || AsSystem(p, d, d.systemPartition)
  }

  predicate AsUserdata(p: Params, d: BlockDevice, name: string) {
    !AnySystem(p, d) && p.userdata == UserdataStdParts && d.partname == name && name in USERDATA_PARTITIONS
  }

  /** The purposes a device serves.  The directories of a system partition are served by its device too. */
  predicate Fills(p: Params, d: BlockDevice, slot: Slot) {
    match slot
    case System(name) => AsSystem(p, d, name) || (AnySystem(p, d) && name in d.systemSubdirs)
    case Userdata(name) => AsUserdata(p, d, name)
    case Android =>
      !AnySystem(p, d) && !AsUserdata(p, d, d.partname) && d.androidDir != "" &&
      (p.userdata == BindMountDir || UsesImages(p))
    case Firmware =>
      !AnySystem(p, d) && !AsUserdata(p, d, d.partname) && d.firmwareDir != "" && FromDirs(p)
  }

  /** The need flags are those of the parameters. */
  predicate Needs(s: Mounts) {
    && s.needAndroidDir == (UsesImages(s.params) || s.params.userdata == BindMountDir)
    && s.needFirmwareDir == FromDirs(s.params)
  }

  /** Which devices are not looked at. */
  lemma IgnoredNames(devname: string)
    ensures Ignored(devname) <==>
            "dm-" <= devname || "loop" <= devname || "ram" <= devname || "zram" <= devname
  {
    assert IGNORED_PREFIXES == ["dm-", "loop", "ram", "zram"];
    if "dm-" <= devname { assert IGNORED_PREFIXES[0] <= devname; }
    if "loop" <= devname { assert IGNORED_PREFIXES[1] <= devname; }
    if "ram" <= devname { assert IGNORED_PREFIXES[2] <= devname; }
    if "zram" <= devname { assert IGNORED_PREFIXES[3] <= devname; }
  }

  // One device

  lemma {:induction false} AssignedTo(m: DeviceMap, names: seq<string>, d: BlockDevice, key: string)
    ensures key in AssignAll(m, names, d) <==> key in m || key in names
    ensures key in AssignAll(m, names, d) ==>
              AssignAll(m, names, d)[key] == if key in names then Some(d) else m[key]
    decreases |names|
  {
    if names == [] {
    } else {
      AssignedTo(m[names[0] := Some(d)], names[1..], d, key);
    }
  }

  lemma SystemNameIs(p: Params, d: BlockDevice)
    ensures SystemName(p, d) != "" <==> AnySystem(p, d)
    ensures forall name :: AsSystem(p, d, name) <==> SystemName(p, d) == name && name != ""
  {
    assert "" !in SYSTEM_PARTITIONS;
  }

  lemma SystemUpdated(s: Mounts, d: BlockDevice, name: string)
    ensures Held(Updated(s, d), System(name))
         == if Fills(s.params, d, System(name)) then Some(d) else Held(s, System(name))
  {
    var own := SystemName(s.params, d);
    SystemNameIs(s.params, d);
    if own != "" {
      AssignedTo(s.system[own := Some(d)], d.systemSubdirs, d, name);
    }
  }

  lemma OtherUpdated(s: Mounts, d: BlockDevice, slot: Slot)
    requires Needs(s) && !slot.System?
    ensures Held(Updated(s, d), slot) == if Fills(s.params, d, slot) then Some(d) else Held(s, slot)
  {
    SystemNameIs(s.params, d);
  }

  /** A device is kept for exactly what it serves, and everything else stays. */
  lemma SlotUpdated(s: Mounts, d: BlockDevice, slot: Slot)
    requires Needs(s)
    ensures Held(Updated(s, d), slot) == if Fills(s.params, d, slot) then Some(d) else Held(s, slot)
    ensures Updated(s, d).params == s.params && Needs(Updated(s, d))
  {
    if slot.System? {
      SystemUpdated(s, d, slot.name);
    } else {
      OtherUpdated(s, d, slot);
    }
  }

  lemma SlotReported(s: Mounts, r: Report, slot: Slot)
    requires Needs(s)
    ensures var s' := Reported(s, r);
            && s'.params == s.params && Needs(s')
            && Held(s', slot) == if !Ignored(r.device.devname) && r.device.devpath !in s.parsed
                                    && Fills(s.params, r.device, slot)
                                 then Some(r.device) else Held(s, slot)
  {
    var d := r.device;
    if d.devpath !in s.parsed && !Ignored(d.devname) {
      SlotUpdated(s.(parsed := s.parsed[d.devpath := d], needMountCache := s.needMountCache || r.cacheDir), d, slot);
    }
  }

  // All devices

  predicate FilledAt(s: Mounts, rs: seq<Report>, slot: Slot, i: nat) {
    i < |rs| && Readiness.Accepted(s, rs, i) && Fills(s.params, rs[i].device, slot)
  }

  lemma FilledLater(s: Mounts, rs: seq<Report>, slot: Slot, i: nat)
    requires Needs(s) && rs != []
    ensures FilledAt(s, rs, slot, i + 1) <==> FilledAt(Reported(s, rs[0]), rs[1..], slot, i)
  {
    SlotReported(s, rs[0], slot);
    if i + 1 < |rs| {
      Readiness.AcceptedLater(s, rs, i + 1);
      assert rs[1..][i] == rs[i + 1];
    }
  }

  /** What no report serves stays as it was. */
  lemma {:induction false} NeverFilled(s: Mounts, rs: seq<Report>, slot: Slot)
    requires Needs(s) && forall i: nat :: !FilledAt(s, rs, slot, i)
    ensures Held(ReportedAll(s, rs), slot) == Held(s, slot)
    decreases |rs|
  {
    if rs == [] {
    } else {
      SlotReported(s, rs[0], slot);
      assert !FilledAt(s, rs, slot, 0);
      forall i: nat
        ensures !FilledAt(Reported(s, rs[0]), rs[1..], slot, i)
      {
        FilledLater(s, rs, slot, i);
      }
      NeverFilled(Reported(s, rs[0]), rs[1..], slot);
    }
  }

  /** Otherwise it is the device of the last report that serves. */
  lemma {:induction false} FilledLast(s: Mounts, rs: seq<Report>, slot: Slot, i: nat)
    requires Needs(s) && FilledAt(s, rs, slot, i) && forall j: nat :: j > i ==> !FilledAt(s, rs, slot, j)
    ensures Held(ReportedAll(s, rs), slot) == Some(rs[i].device)
    decreases i
  {
    var s1 := Reported(s, rs[0]);
    SlotReported(s, rs[0], slot);
    forall j: nat | j + 1 > i
      ensures !FilledAt(s1, rs[1..], slot, j)
    {
      FilledLater(s, rs, slot, j);
    }
    if i == 0 {
      NeverFilled(s1, rs[1..], slot);
    } else {
      FilledLater(s, rs, slot, i - 1);
      FilledLast(s1, rs[1..], slot, i - 1);
    }
  }

  ghost predicate Served(s: Mounts, rs: seq<Report>, slot: Slot) {
    exists i: nat :: FilledAt(s, rs, slot, i)
  }

  lemma {:induction false} LastFilled(s: Mounts, rs: seq<Report>, slot: Slot, upTo: nat) returns (i: nat)
    requires exists j: nat :: j < upTo && FilledAt(s, rs, slot, j)
    ensures i < upTo && FilledAt(s, rs, slot, i) && forall j: nat :: i < j < upTo ==> !FilledAt(s, rs, slot, j)
    decreases upTo
  {
    if FilledAt(s, rs, slot, upTo - 1) {
      i := upTo - 1;
    } else {
      i := LastFilled(s, rs, slot, upTo - 1);
    }
  }

  /** A purpose has a device exactly when it had one or some report serves it. */
  lemma FoundIffServed(s: Mounts, rs: seq<Report>, slot: Slot)
    requires Needs(s)
    ensures Held(ReportedAll(s, rs), slot).Some? <==> Held(s, slot).Some? || Served(s, rs, slot)
  {
    if Served(s, rs, slot) {
      var j: nat :| FilledAt(s, rs, slot, j);
      var i := LastFilled(s, rs, slot, |rs|);
      FilledLast(s, rs, slot, i);
    } else {
      NeverFilled(s, rs, slot);
    }
  }

  // Readiness

  ghost predicate SystemServed(s: Mounts, rs: seq<Report>) {
    forall name :: name in SYSTEM_PARTITIONS ==> Served(s, rs, System(name))
  }

  ghost predicate UserdataServed(s: Mounts, rs: seq<Report>) {
    && Served(s, rs, Userdata("metadata")) && Served(s, rs, Userdata("userdata"))
    && (Readiness.CacheNeeded(s, rs) ==> Served(s, rs, Userdata("cache")))
  }

  ghost predicate NothingHeld(s: Mounts) {
    forall slot :: Held(s, slot) == None
  }

  /** A map with some keys has a device for each exactly when each is served. */
  lemma KeysFoundIff(s: Mounts, rs: seq<Report>, m: DeviceMap, keys: seq<string>, slot: string -> Slot)
    requires Needs(s) && NothingHeld(s) && forall k :: k in m <==> k in keys
    requires forall k :: k in m ==> Held(ReportedAll(s, rs), slot(k)) == m[k]
    ensures forall k :: k in keys ==> (m[k].Some? <==> Served(s, rs, slot(k)))
  {
    forall k | k in keys
      ensures m[k].Some? <==> Served(s, rs, slot(k))
    {
      FoundIffServed(s, rs, slot(k));
    }
  }

  lemma SystemFoundIff(s: Mounts, rs: seq<Report>, s': Mounts)
    requires Needs(s) && NothingHeld(s) && s' == ReportedAll(s, rs)
    requires forall k :: k in s'.system <==> k in SYSTEM_PARTITIONS
    ensures (forall k :: k in s'.system ==> s'.system[k].Some?) <==> SystemServed(s, rs)
  {
    KeysFoundIff(s, rs, s'.system, SYSTEM_PARTITIONS, k => System(k));
  }

  lemma UserdataKeys(name: string)
    ensures name in USERDATA_PARTITIONS <==> name == "cache" || name == "metadata" || name == "userdata"
  {
  }

  lemma ThreeFound(m: DeviceMap, needCache: bool)
    requires forall k :: k in m <==> k in USERDATA_PARTITIONS
    ensures "cache" in m && "metadata" in m && "userdata" in m
    ensures (forall k :: k in m && !(k == "cache" && !needCache) ==> m[k].Some?) <==>
            m["metadata"].Some? && m["userdata"].Some? && (needCache ==> m["cache"].Some?)
  {
    forall k
      ensures k in m <==> k == "cache" || k == "metadata" || k == "userdata"
    {
      UserdataKeys(k);
    }
  }

  lemma UserdataFoundIff(s: Mounts, rs: seq<Report>, s': Mounts)
    requires Needs(s) && NothingHeld(s) && s' == ReportedAll(s, rs)
    requires forall k :: k in s'.userdata <==> k in USERDATA_PARTITIONS
    ensures (forall k :: k in s'.userdata && !(k == "cache" && !s'.needMountCache) ==> s'.userdata[k].Some?) <==>
            UserdataServed(s, rs)
  {
    ThreeFound(s'.userdata, s'.needMountCache);
    Readiness.CacheAfterAll(s, rs);
    FoundIffServed(s, rs, Userdata("cache"));
    FoundIffServed(s, rs, Userdata("metadata"));
    FoundIffServed(s, rs, Userdata("userdata"));
  }

  lemma NothingConfigured(p: Params)
    ensures Needs(Configured(p)) && NothingHeld(Configured(p))
  {
  }

  lemma ReportedParams(s: Mounts, rs: seq<Report>)
    requires MountsInv(s) && forall i :: 0 <= i < |rs| ==> ProbeValid(rs[i].device)
    ensures var s' := ReportedAll(s, rs);
            && s'.params == s.params && Needs(s')
            && (forall k :: k in s'.system <==> k in SYSTEM_PARTITIONS)
            && (forall k :: k in s'.userdata <==> k in USERDATA_PARTITIONS)
  {
    ReportedAllInv(s, rs);
  }

  lemma ReadyWhenServed(s: Mounts, rs: seq<Report>, s': Mounts)
    requires Needs(s) && NothingHeld(s) && s' == ReportedAll(s, rs) && s'.params == s.params && Needs(s')
    requires (forall k :: k in s'.system ==> s'.system[k].Some?) <==> SystemServed(s, rs)
    requires (forall k :: k in s'.userdata && !(k == "cache" && !s'.needMountCache) ==> s'.userdata[k].Some?) <==>
             UserdataServed(s, rs)
    ensures Ready(s') <==>
            && (s.params.system == SystemStdParts || s.params.system == AnyBlockDevices ==> SystemServed(s, rs))
            && (s.params.userdata == UserdataStdParts ==> UserdataServed(s, rs))
            && (UsesImages(s.params) || s.params.userdata == BindMountDir ==> Served(s, rs, Android))
            && (FromDirs(s.params) ==> Served(s, rs, Firmware))
  {
    FoundIffServed(s, rs, Android);
    FoundIffServed(s, rs, Firmware);
  }

  /** From boot parameters: the handler is ready exactly when the reported devices serve everything needed. */
  lemma ReadyIffServed(p: Params, rs: seq<Report>)
    requires forall i :: 0 <= i < |rs| ==> ProbeValid(rs[i].device)
    ensures Ready(ReportedAll(Configured(p), rs)) <==>
            && (p.system == SystemStdParts || p.system == AnyBlockDevices ==> SystemServed(Configured(p), rs))
            && (p.userdata == UserdataStdParts ==> UserdataServed(Configured(p), rs))
            && (UsesImages(p) || p.userdata == BindMountDir ==> Served(Configured(p), rs, Android))
            && (FromDirs(p) ==> Served(Configured(p), rs, Firmware))
  {
    var s := Configured(p);
    ConfiguredInv(p);
    NothingConfigured(p);
    ReportedParams(s, rs);
    SystemFoundIff(s, rs, ReportedAll(s, rs));
    UserdataFoundIff(s, rs, ReportedAll(s, rs));
    ReadyWhenServed(s, rs, ReportedAll(s, rs));
  }
}
