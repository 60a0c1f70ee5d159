/** The plan holds each mount point in one group, with its candidates in the declared order. */
module PlanShape {
  import opened Wrappers
  import opened MountTypes
  import opened MountHandlers
  import opened MountPlans
  import BindSources

  // Candidate order

  function SameMode(es: seq<FstabEntry>, ro: bool): seq<FstabEntry>
    decreases |es|
  {
    if es == [] then [] else (if es[0].ro == ro then [es[0]] else []) + SameMode(es[1..], ro)
  }

  lemma SameModeCons(e: FstabEntry, es: seq<FstabEntry>, ro: bool)
    ensures SameMode([e] + es, ro) == (if e.ro == ro then [e] else []) + SameMode(es, ro)
  {
    assert ([e] + es)[1..] == es;
  }

  /** Every writable ext4 candidate is followed at once by its read-only retry. */
  predicate Retried(es: seq<FstabEntry>) {
    forall i :: 0 <= i < |es| && es[i].fsType == "ext4" && !es[i].ro ==> i + 1 < |es| && es[i + 1] == es[i].(ro := true)
  }

  lemma RetriedCons(e: FstabEntry, rest: seq<FstabEntry>)
    requires Retried(rest)
    ensures e.fsType == "ext4" && !e.ro ==> Retried([e] + ([e.(ro := true)] + rest))
    ensures e.fsType != "ext4" || e.ro ==> Retried([e] + rest)
  {
    assert forall i :: 0 < i <= |rest| ==> ([e] + rest)[i] == rest[i - 1];
  }

  lemma {:induction false} RetryFollows(e: FstabEntry, fsTypes: seq<string>)
    ensures Retried(WithRetry(e, fsTypes))
    decreases |fsTypes|
  {
    if fsTypes == [] {
    } else {
      RetryFollows(e, fsTypes[1..]);
      var first, rest := e.(fsType := fsTypes[0]), WithRetry(e, fsTypes[1..]);
      RetriedCons(first, rest);
      if fsTypes[0] == "ext4" && !e.ro {
        assert WithRetry(e, fsTypes) == [first] + ([first.(ro := true)] + rest);
      } else {
        assert WithRetry(e, fsTypes) == [first] + rest;
      }
    }
  }

  /** A retry, if there is one, is not among the entries of the given mode. */
  lemma SameModeRetry(first: FstabEntry, retry: seq<FstabEntry>, rest: seq<FstabEntry>)
    requires retry == [] || (retry == [first.(ro := true)] && !first.ro)
    ensures SameMode([first] + retry + rest, first.ro) == [first] + SameMode(rest, first.ro)
  {
    assert [first] + retry + rest == [first] + (retry + rest);
    SameModeCons(first, retry + rest, first.ro);
    if retry == [] {
      assert retry + rest == rest;
    } else {
      SameModeCons(retry[0], rest, first.ro);
    }
  }

  /** Without the retries the candidates are the declared file systems in order. */
  lemma {:induction false} RetryKeepsOrder(e: FstabEntry, fsTypes: seq<string>)
    ensures SameMode(WithRetry(e, fsTypes), e.ro) == Candidates(e, fsTypes)
    decreases |fsTypes|
  {
    if fsTypes == [] {
    } else {
      RetryKeepsOrder(e, fsTypes[1..]);
      var retry := if fsTypes[0] == "ext4" && !e.ro then [e.(fsType := "ext4", ro := true)] else [];
      SameModeRetry(e.(fsType := fsTypes[0]), retry, WithRetry(e, fsTypes[1..]));
    }
  }

  /** All candidates of a group are for its mount point and from one source. */
  predicate GroupOk(g: Group) {
    && g.entries != []
    && forall e :: e in g.entries ==> e.mountPoint == MountPoint(g.name) && e.blkDevice == g.entries[0].blkDevice
  }

  predicate AllGroupsOk(gs: seq<Group>) {
    forall g :: g in gs ==> GroupOk(g)
  }

  lemma {:induction false} CandidatesFor(e: FstabEntry, fsTypes: seq<string>)
    ensures forall c :: c in Candidates(e, fsTypes) || c in WithRetry(e, fsTypes) ==>
              c.mountPoint == e.mountPoint && c.blkDevice == e.blkDevice
    ensures fsTypes != [] ==> Candidates(e, fsTypes) != [] && WithRetry(e, fsTypes) != []
    decreases |fsTypes|
  {
    if fsTypes == [] {
    } else {
      CandidatesFor(e, fsTypes[1..]);
    }
  }

  // Names

  function Names(gs: seq<Group>): seq<string>
    decreases |gs|
  {
    if gs == [] then [] else [gs[0].name] + Names(gs[1..])
  }

  predicate NoDup(names: seq<string>) {
    forall i, j :: 0 <= i < j < |names| ==> names[i] != names[j]
  }

  lemma NoDupLeft(a: seq<string>, b: seq<string>)
    requires NoDup(a + b)
    ensures NoDup(a) && NoDup(b)
  {
    forall i, j | 0 <= i < j < |a|
      ensures a[i] != a[j]
    {
      assert (a + b)[i] != (a + b)[j];
    }
    forall i, j | 0 <= i < j < |b|
      ensures b[i] != b[j]
    {
      assert (a + b)[|a| + i] != (a + b)[|a| + j];
    }
  }

  lemma NoDupParts(a: seq<string>, b: seq<string>)
    requires forall n :: n in a ==> n !in b
    ensures NoDup(a + b) <==> NoDup(a) && NoDup(b)
  {
    if NoDup(a + b) {
      NoDupLeft(a, b);
    }
    if NoDup(a) && NoDup(b) {
      forall i, j | 0 <= i < j < |a + b|
        ensures (a + b)[i] != (a + b)[j]
      {
        if i < |a| <= j {
          assert a[i] in a && b[j - |a|] in b;
        }
      }
    }
  }

  /** No two neighbours are equal. */
  predicate NoTwins(names: seq<string>) {
    forall i: nat :: 0 < i < |names| ==> !TwinAt(names, i)
  }

  predicate TwinAt(names: seq<string>, i: nat)
    requires 0 < i < |names|
  {
    names[i - 1] == names[i]
  }

  lemma NoTwinsParts(a: seq<string>, b: seq<string>)
    requires forall n :: n in a ==> n !in b
    ensures NoTwins(a + b) <==> NoTwins(a) && NoTwins(b)
  {
    var c := a + b;
    forall i: nat | 0 < i < |a|
      ensures TwinAt(a, i) <==> TwinAt(c, i)
    {
    }
    forall i: nat | 0 < i < |b|
      ensures TwinAt(b, i) <==> TwinAt(c, |a| + i)
    {
    }
    forall i: nat | |a| < i < |c|
      ensures TwinAt(c, i) <==> TwinAt(b, i - |a|)
    {
    }
    if a != [] && b != [] {
      assert c[|a| - 1] in a && c[|a|] in b;
    }
  }

  lemma NoDupCons(n: string, rest: seq<string>)
    requires n !in rest && NoDup(rest)
    ensures NoDup([n] + rest)
  {
    NoDupParts([n], rest);
  }

  lemma NamesCons(g: Group, gs: seq<Group>)
    ensures Names([g] + gs) == [g.name] + Names(gs)
  {
    assert ([g] + gs)[1..] == gs;
  }

  lemma {:induction false} NamesParts(a: seq<Group>, b: seq<Group>)
    ensures Names(a + b) == Names(a) + Names(b)
    decreases |a|
  {
    if a == [] {
      assert a + b == b;
    } else {
      NamesParts(a[1..], b);
      assert (a + b)[1..] == a[1..] + b;
    }
  }

  /** Which of the seven sections plans a name under the given parameters. */
  function Owner(p: Params, name: string): int {
    if name == "firmware" then (if FromDirs(p) then 6 else 3)
    else if name in SYSTEM_PARTITIONS then (if FromDevices(p) then 1 else 3)
    else if name in USERDATA_PARTITIONS then
      match p.userdata
      case UserdataStdParts => 2
      case UserdataImages => 3
      case BindMountDir => 4
      case UserdataTmpfs => 5
    else -1
  }

  predicate OwnedBy(p: Params, gs: seq<Group>, i: nat) {
    AllGroupsOk(gs) && forall n :: n in Names(gs) ==> Owner(p, n) == i
  }

  /** A group named by the first of some keys, before groups named by later ones. */
  lemma AddGroup(keys: seq<string>, g: Group, rest: seq<Group>)
    requires keys != [] && g.name == keys[0]
    requires forall n :: n in Names(rest) ==> n in keys[1..]
    ensures Names([g] + rest) == [g.name] + Names(rest)
    ensures forall n :: n in Names([g] + rest) ==> n in keys
    ensures NoDup(keys) && NoDup(Names(rest)) ==> NoDup(Names([g] + rest))
    ensures NoDup(keys) ==> NoDup(keys[1..])
  {
    NamesCons(g, rest);
    if NoDup(keys) {
      assert keys[0] !in keys[1..];
      if NoDup(Names(rest)) {
        NoDupCons(g.name, Names(rest));
      }
    }
  }

  lemma {:induction false} SystemNames(m: DeviceMap, keys: seq<string>)
    requires (forall i :: 0 <= i < |keys| ==> keys[i] in m) && SystemGroups(m, keys).Ok?
    requires forall i :: 0 <= i < |keys| ==> keys[i] in SYSTEM_PARTITIONS
    ensures AllGroupsOk(SystemGroups(m, keys).value)
    ensures forall n :: n in Names(SystemGroups(m, keys).value) ==> n in keys
    ensures NoDup(keys) ==> NoDup(Names(SystemGroups(m, keys).value))
    decreases |keys|
  {
    if keys == [] {
    } else {
      SystemNames(m, keys[1..]);
      var d := m[keys[0]].value;
      var g := Group(keys[0], WithRetry(PartitionEntry(d.devpath, keys[0], !d.rw), SYSTEM_FS));
      CandidatesFor(PartitionEntry(d.devpath, keys[0], !d.rw), SYSTEM_FS);
      AddGroup(keys, g, SystemGroups(m, keys[1..]).value);
      assert keys[0] != d.systemPartition ==> SystemGroups(m, keys).value == SystemGroups(m, keys[1..]).value;
    }
  }

  lemma {:induction false} UserdataNames(s: Mounts, keys: seq<string>)
    requires (forall i :: 0 <= i < |keys| ==> keys[i] in s.userdata) && UserdataGroups(s, keys).Ok?
    requires forall k :: k in s.userdata && s.userdata[k].Some? ==> s.userdata[k].value.partname == k
    ensures AllGroupsOk(UserdataGroups(s, keys).value)
    ensures forall n :: n in Names(UserdataGroups(s, keys).value) ==> n in keys
    ensures NoDup(keys) ==> NoDup(Names(UserdataGroups(s, keys).value))
    decreases |keys|
  {
    if keys == [] {
    } else {
      UserdataNames(s, keys[1..]);
      if !SkipCache(s, keys[0]) {
        var d := s.userdata[keys[0]].value;
        var g := Group(keys[0], Candidates(UserdataEntry(d.devpath, keys[0]), USERDATA_FS));
        CandidatesFor(UserdataEntry(d.devpath, keys[0]), USERDATA_FS);
        AddGroup(keys, g, UserdataGroups(s, keys[1..]).value);
      }
    }
  }

  lemma {:induction false} BindNames(s: Mounts, d: BlockDevice, subdirs: seq<string>)
    requires BindGroups(s, d, subdirs).Ok?
    ensures AllGroupsOk(BindGroups(s, d, subdirs).value)
    ensures forall n :: n in Names(BindGroups(s, d, subdirs).value) ==> n in subdirs && n in USERDATA_PARTITIONS
    ensures NoDup(subdirs) ==> NoDup(Names(BindGroups(s, d, subdirs).value))
    decreases |subdirs|
  {
    if subdirs == [] {
    } else {
      BindNames(s, d, subdirs[1..]);
      var g := Group(subdirs[0], [BindEntry(AndroidPath(d) + "/" + subdirs[0], subdirs[0])]);
      AddGroup(subdirs, g, BindGroups(s, d, subdirs[1..]).value);
    }
  }

  /** The partition names of the images that get a group. */
  function KeptStems(s: Mounts, images: seq<string>): seq<string>
    decreases |images|
  {
    if images == [] then []
    else (if SkipCache(s, Stem(images[0])) then [] else [Stem(images[0])]) + KeptStems(s, images[1..])
  }

  lemma {:induction false} ImageNames(s: Mounts, k: Kernel, d: BlockDevice, images: seq<string>)
    requires ImageGroups(s, k, d, images).Ok?
    ensures AllGroupsOk(ImageGroups(s, k, d, images).value)
    ensures Names(ImageGroups(s, k, d, images).value) == KeptStems(s, images)
    decreases |images|
  {
    if images == [] {
    } else {
      ImageNames(s, k, d, images[1..]);
      var dev := k.loopDevice(ImageSource(s.params, AndroidPath(d), images[0]), d.rw);
      var g := Group(Stem(images[0]), WithRetry(PartitionEntry(dev, Stem(images[0]), !d.rw), SYSTEM_FS));
      CandidatesFor(PartitionEntry(dev, Stem(images[0]), !d.rw), SYSTEM_FS);
      if !SkipCache(s, Stem(images[0])) {
        NamesCons(g, ImageGroups(s, k, d, images[1..]).value);
      }
    }
  }

  lemma NotFirmware(name: string)
    requires name in SYSTEM_PARTITIONS || name in USERDATA_PARTITIONS
    ensures name != "firmware"
    ensures !(name in SYSTEM_PARTITIONS && name in USERDATA_PARTITIONS)
  {
  }

  lemma {:induction false} StemsOwned(s: Mounts, recovery: bool, images: seq<string>)
    ensures forall n :: n in KeptStems(s, PartitionImages(s.params, recovery, images)) ==>
              n != "firmware" && Owner(s.params, n) == 3
    decreases |images|
  {
    if images == [] {
    } else {
      StemsOwned(s, recovery, images[1..]);
      var rest := PartitionImages(s.params, recovery, images[1..]);
      if KindOf(images[0]) != FirmwareFile && Wanted(s.params, recovery, KindOf(images[0])) {
        assert ([images[0]] + rest)[1..] == rest;
        NotFirmware(Stem(images[0]));
      } else {
        assert [] + rest == rest;
      }
    }
  }

  // The plan

  predicate OwnedAt(p: Params, section: Section, i: nat) {
    section.Ok? ==> OwnedBy(p, section.value, i)
  }

  lemma KeysDistinct()
    ensures NoDup(SYSTEM_PARTITIONS) && NoDup(USERDATA_PARTITIONS)
  {
  }

  lemma SystemOwner(p: Params, name: string)
    requires name in SYSTEM_PARTITIONS
    ensures Owner(p, name) == if FromDevices(p) then 1 else 3
  {
    NotFirmware(name);
  }

  lemma UserdataOwner(p: Params, name: string)
    requires name in USERDATA_PARTITIONS
    ensures p.userdata == UserdataStdParts ==> Owner(p, name) == 2
    ensures p.userdata == BindMountDir ==> Owner(p, name) == 4
  {
    NotFirmware(name);
  }

  lemma SystemOwned(s: Mounts, recovery: bool)
    requires MountsInv(s)
    ensures OwnedAt(s.params, SystemSection(s, recovery), 1)
    ensures SystemSection(s, recovery).Ok? ==> NoDup(Names(SystemSection(s, recovery).value))
  {
    if !recovery && FromDevices(s.params) && SystemSection(s, recovery).Ok? {
      SystemNames(s.system, SYSTEM_PARTITIONS);
      KeysDistinct();
      var gs := SystemGroups(s.system, SYSTEM_PARTITIONS).value;
      forall n | n in Names(gs)
        ensures Owner(s.params, n) == 1
      {
        SystemOwner(s.params, n);
      }
    }
  }

  lemma UserdataOwned(s: Mounts, recovery: bool)
    requires MountsInv(s)
    ensures OwnedAt(s.params, UserdataSection(s, recovery), 2)
    ensures UserdataSection(s, recovery).Ok? ==> NoDup(Names(UserdataSection(s, recovery).value))
  {
    if !recovery && s.params.userdata == UserdataStdParts && UserdataSection(s, recovery).Ok? {
      UserdataNames(s, USERDATA_PARTITIONS);
      KeysDistinct();
      var gs := UserdataGroups(s, USERDATA_PARTITIONS).value;
      forall n | n in Names(gs)
        ensures Owner(s.params, n) == 2
      {
        UserdataOwner(s.params, n);
      }
    }
  }

  /** The partition names of the planned images. */
  function PlannedStems(s: Mounts, recovery: bool): seq<string> {
    if !UsesImages(s.params) || s.androidDevice.None? then []
    else KeptStems(s, PartitionImages(s.params, recovery, s.androidDevice.value.images))
  }

  predicate SameRepeats(a: seq<string>, b: seq<string>) {
    (NoDup(a) <==> NoDup(b)) && (NoTwins(a) <==> NoTwins(b))
  }

  lemma FirmwareImageNames(s: Mounts, recovery: bool, k: Kernel, d: BlockDevice)
    requires FirmwareImageSection(s, recovery, k, d).Ok?
    ensures AllGroupsOk(FirmwareImageSection(s, recovery, k, d).value)
    ensures Names(FirmwareImageSection(s, recovery, k, d).value)
         == if FromFirmwareImage(s.params) then ["firmware"] else []
  {
    var image := LastFirmware(s.params, recovery, d.images);
    var dev := k.loopDevice(ImageSource(s.params, AndroidPath(d), image), d.rw);
    CandidatesFor(FirmwareEntry(dev, "", !d.rw, false), FIRMWARE_FS);
  }

  lemma ImagesOwned(s: Mounts, recovery: bool, k: Kernel)
    ensures OwnedAt(s.params, ImagesSection(s, recovery, k), 3)
    ensures ImagesSection(s, recovery, k).Ok? ==>
              SameRepeats(Names(ImagesSection(s, recovery, k).value), PlannedStems(s, recovery))
  {
    if UsesImages(s.params) && ImagesSection(s, recovery, k).Ok? {
      var d := s.androidDevice.value;
      var images := PartitionImages(s.params, recovery, d.images);
      FirmwareImageNames(s, recovery, k, d);
      ImageNames(s, k, d, images);
      StemsOwned(s, recovery, d.images);
      var a, b := FirmwareImageSection(s, recovery, k, d).value, ImageGroups(s, k, d, images).value;
      NamesParts(a, b);
      NoDupParts(Names(a), Names(b));
      NoTwinsParts(Names(a), Names(b));
    }
  }

  lemma BindOwned(s: Mounts, recovery: bool)
    requires MountsInv(s)
    ensures OwnedAt(s.params, BindSection(s, recovery), 4)
    ensures BindSection(s, recovery).Ok? ==> NoDup(Names(BindSection(s, recovery).value))
  {
    if !recovery && s.params.userdata == BindMountDir && BindSection(s, recovery).Ok? {
      var d := s.androidDevice.value;
      BindNames(s, d, d.subdirs);
      forall n | n in Names(BindGroups(s, d, d.subdirs).value)
        ensures Owner(s.params, n) == 4
      {
        UserdataOwner(s.params, n);
      }
    }
  }

  lemma TmpfsOwned(s: Mounts, recovery: bool)
    ensures OwnedAt(s.params, TmpfsSection(s, recovery), 5)
    ensures NoDup(Names(TmpfsSection(s, recovery).value))
  {
    var gs := TMPFS_GROUPS;
    assert Names(gs) == ["cache", "userdata", "metadata"] by {
      NamesCons(gs[0], gs[1..]);
      NamesCons(gs[1], gs[2..]);
      NamesCons(gs[2], []);
    }
  }

  lemma FirmwareDirOwned(s: Mounts, k: Kernel)
    ensures OwnedAt(s.params, FirmwareDirSection(s, k), 6)
    ensures FirmwareDirSection(s, k).Ok? ==> NoDup(Names(FirmwareDirSection(s, k).value))
  {
  }

  lemma OwnersApart(p: Params, a: seq<Group>, i: nat, b: seq<Group>, below: nat)
    requires OwnedBy(p, a, i) && i < below && AllGroupsOk(b)
    requires forall n :: n in Names(b) ==> below <= Owner(p, n)
    ensures NoDup(Names(a + b)) <==> NoDup(Names(a)) && NoDup(Names(b))
    ensures NoTwins(Names(a + b)) <==> NoTwins(Names(a)) && NoTwins(Names(b))
    ensures AllGroupsOk(a + b) && forall n :: n in Names(a + b) ==> i <= Owner(p, n)
  {
    NamesParts(a, b);
    NoDupParts(Names(a), Names(b));
    NoTwinsParts(Names(a), Names(b));
  }

  /** Sections with increasing owners: together they repeat a name exactly when one of them does. */
  lemma {:induction false} SectionsApart(p: Params, ss: seq<Section>, from: nat)
    requires ThenAll(ss).Ok? && forall i: nat :: i < |ss| ==> OwnedAt(p, ss[i], from + i)
    ensures var gs := ThenAll(ss).value;
            && AllGroupsOk(gs)
            && (forall n :: n in Names(gs) ==> from <= Owner(p, n))
            && (NoDup(Names(gs)) <==> forall i: nat :: i < |ss| && ss[i].Ok? ==> NoDup(Names(ss[i].value)))
            && (NoTwins(Names(gs)) <==> forall i: nat :: i < |ss| && ss[i].Ok? ==> NoTwins(Names(ss[i].value)))
    decreases |ss|
  {
    if ss == [] {
    } else {
      var rest := ss[1..];
      forall i: nat | i < |rest|
        ensures OwnedAt(p, rest[i], from + 1 + i)
      {
        assert OwnedAt(p, ss[i + 1], from + (i + 1));
      }
      SectionsApart(p, rest, from + 1);
      assert OwnedAt(p, ss[0], from + 0);
      OwnersApart(p, ss[0].value, from, ThenAll(rest).value, from + 1);
      assert forall i: nat :: 0 < i < |ss| ==> ss[i] == rest[i - 1];
      assert forall i: nat :: i < |rest| ==> rest[i] == ss[i + 1];
    }
  }

  predicate DistinctMountPoints(gs: seq<Group>) {
    forall i, j :: 0 <= i < j < |gs| ==> MountPoint(gs[i].name) != MountPoint(gs[j].name)
  }

  lemma {:induction false} NamesAt(gs: seq<Group>, i: nat)
    requires i < |gs|
    ensures |Names(gs)| == |gs| && Names(gs)[i] == gs[i].name
    decreases |gs|
  {
    if |gs| == 1 {
    } else {
      NamesAt(gs[1..], if i == 0 then 0 else i - 1);
    }
  }

  /** "/" followed by a partition name is neither of the two special mount points. */
  lemma PlainMountPoint(p: Params, name: string)
    requires 1 <= Owner(p, name) && name != "firmware" && name != "userdata"
    ensures MountPoint(name) != FIRMWARE_MOUNT_POINT && MountPoint(name) != "/data"
    ensures MountPoint(name)[1..] == name
  {
    assert "mnt/vendor/firmware"[1] == 'n';
    assert name in SYSTEM_PARTITIONS || name in USERDATA_PARTITIONS;
    assert ("/" + name)[1..] == name;
    assert FIRMWARE_MOUNT_POINT[1..][1] == 'n' && "/data"[1..][0] == 'd';
    assert name[1] != 'n' && name[0] != 'd';
  }

  lemma MountPointInjective(p: Params, a: string, b: string)
    requires 1 <= Owner(p, a) && 1 <= Owner(p, b) && a != b
    ensures MountPoint(a) != MountPoint(b)
  {
    var special := ["firmware", "userdata"];
    if a !in special {
      PlainMountPoint(p, a);
    }
    if b !in special {
      PlainMountPoint(p, b);
    }
  }

  /** No two groups in a row are for one mount point. */
  predicate NeighboursDistinct(gs: seq<Group>) {
    forall i: nat :: 0 < i < |gs| ==> !SamePoint(gs, i)
  }

  predicate SamePoint(gs: seq<Group>, i: nat)
    requires 0 < i < |gs|
  {
    MountPoint(gs[i - 1].name) == MountPoint(gs[i].name)
  }

  lemma NeighboursIffNoTwins(p: Params, gs: seq<Group>)
    requires forall n :: n in Names(gs) ==> 1 <= Owner(p, n)
    ensures NeighboursDistinct(gs) <==> NoTwins(Names(gs))
  {
    AllNamesAt(gs);
    forall i: nat | 0 < i < |gs|
      ensures SamePoint(gs, i) <==> TwinAt(Names(gs), i)
    {
      assert Names(gs)[i - 1] in Names(gs) && Names(gs)[i] in Names(gs);
      if gs[i - 1].name != gs[i].name {
        MountPointInjective(p, gs[i - 1].name, gs[i].name);
      }
    }
  }

  lemma AllNamesAt(gs: seq<Group>)
    ensures |Names(gs)| == |gs| && forall i :: 0 <= i < |gs| ==> Names(gs)[i] == gs[i].name
  {
    forall i | 0 <= i < |gs|
      ensures |Names(gs)| == |gs| && Names(gs)[i] == gs[i].name
    {
      NamesAt(gs, i);
    }
  }

  lemma DistinctIffNoDup(p: Params, gs: seq<Group>)
    requires forall n :: n in Names(gs) ==> 1 <= Owner(p, n)
    ensures DistinctMountPoints(gs) <==> NoDup(Names(gs))
  {
    AllNamesAt(gs);
    if NoDup(Names(gs)) {
      forall i, j | 0 <= i < j < |gs|
        ensures MountPoint(gs[i].name) != MountPoint(gs[j].name)
      {
        assert Names(gs)[i] in Names(gs) && Names(gs)[j] in Names(gs);
        MountPointInjective(p, gs[i].name, gs[j].name);
      }
    }
  }

  /** The groups of the whole plan: one mount point and one source each. The mount points are pairwise
      different exactly when no two planned images have the same base name, and neighbours are different
      exactly when no two planned images in a row have. */
  lemma PlanMountsEachPointOnce(s: Mounts, recovery: bool, k: Kernel)
    requires MountsInv(s) && Plan(s, recovery, k).Ok?
    ensures AllGroupsOk(Plan(s, recovery, k).value)
    ensures DistinctMountPoints(Plan(s, recovery, k).value) <==> NoDup(PlannedStems(s, recovery))
    ensures NeighboursDistinct(Plan(s, recovery, k).value) <==> NoTwins(PlannedStems(s, recovery))
  {
    OwnedSections(s, recovery, k);
    DistinctIffNoDup(s.params, Plan(s, recovery, k).value);
    NeighboursIffNoTwins(s.params, Plan(s, recovery, k).value);
  }

  /** A section is its owner's, and repeats no name except as the images do. */
  ghost predicate OwnedPart(s: Mounts, recovery: bool, section: Section, i: nat) {
    && OwnedAt(s.params, section, i)
    && (section.Ok? ==>
          if i == 3 then SameRepeats(Names(section.value), PlannedStems(s, recovery)) else NoDup(Names(section.value)))
  }

  lemma SectionOwned(s: Mounts, recovery: bool, k: Kernel, i: nat)
    requires MountsInv(s) && i < |Sections(s, recovery, k)|
    ensures OwnedPart(s, recovery, Sections(s, recovery, k)[i], i)
  {
    if i == 1 {
      SystemOwned(s, recovery);
    } else if i == 2 {
      UserdataOwned(s, recovery);
    } else if i == 3 {
      ImagesOwned(s, recovery, k);
    } else if i == 4 {
      BindOwned(s, recovery);
    } else if i == 5 {
      TmpfsOwned(s, recovery);
    } else if i == 6 {
      FirmwareDirOwned(s, k);
    }
  }

  /** The first section plans nothing, so every name has a later owner. */
  lemma OwnedParts(s: Mounts, recovery: bool, ss: seq<Section>)
    requires |ss| == 7 && ss[0] == Ok([]) && ThenAll(ss).Ok?
    requires forall i: nat :: i < |ss| ==> OwnedPart(s, recovery, ss[i], i)
    ensures var gs := ThenAll(ss).value;
            && AllGroupsOk(gs)
            && (forall n :: n in Names(gs) ==> 1 <= Owner(s.params, n))
            && SameRepeats(Names(gs), PlannedStems(s, recovery))
  {
    var rest := ss[1..];
    BindSources.AllSectionsOk(rest);
    assert ThenAll(ss).value == ThenAll(rest).value;
    forall i: nat | i < |rest|
      ensures OwnedAt(s.params, rest[i], 1 + i)
      ensures i != 2 ==> NoDup(Names(rest[i].value)) && NoTwins(Names(rest[i].value))
    {
      assert rest[i] == ss[i + 1] && OwnedPart(s, recovery, ss[i + 1], i + 1);
    }
    assert rest[2] == ss[3] && OwnedPart(s, recovery, ss[3], 3);
    SectionsApart(s.params, rest, 1);
  }

  lemma OwnedSections(s: Mounts, recovery: bool, k: Kernel)
    requires MountsInv(s) && Plan(s, recovery, k).Ok?
    ensures AllGroupsOk(Plan(s, recovery, k).value)
    ensures forall n :: n in Names(Plan(s, recovery, k).value) ==> 1 <= Owner(s.params, n)
    ensures SameRepeats(Names(Plan(s, recovery, k).value), PlannedStems(s, recovery))
  {
    var ss := Sections(s, recovery, k);
    forall i: nat | i < |ss|
      ensures OwnedPart(s, recovery, ss[i], i)
    {
      SectionOwned(s, recovery, k, i);
    }
    assert ss[0] == Ok([]);
    OwnedParts(s, recovery, ss);
  }
}
