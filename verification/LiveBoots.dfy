/** Boots from an android directory on one device: images whose names collide, and a bind source that is
    gone. */
module LiveBoots {
  import opened Wrappers
  import opened Sequences
  import opened MountTypes
  import opened MountHandlers
  import opened MountPlans
  import opened BindSources
  import opened PlanShape
  import opened ImageNames
  import opened FstabPlanner
  import opened MountExecution
  import opened MountTraces
  import opened PlanExecution
  import PlanSafety

  /** The only device: its android directory holds image files and directories. */
  function MediaDevice(images: seq<string>, subdirs: seq<string>): BlockDevice {
    BlockDevice("sda1", "/dev/block/sda1", "", true, "ext4", "discard", "", [], "android", "", images, subdirs)
  }

  /** The state of the mount handler once the device was reported. */
  function MediaState(p: Params, images: seq<string>, subdirs: seq<string>): Mounts {
    Reported(Configured(p), Report(MediaDevice(images, subdirs), false))
  }

  /** Parameters under which that device is all that is needed. */
  predicate MediaParams(p: Params) {
    && p.firmware == Disable && (p.system == SystemImages || p.system == SystemImagesToRam)
    && p.userdata != UserdataStdParts
  }

  lemma MediaNotIgnored()
    ensures !Ignored("sda1")
  {
    assert forall i :: 0 <= i < |IGNORED_PREFIXES| ==> IGNORED_PREFIXES[i][0] != "sda1"[0];
  }

  lemma MediaStateIs(p: Params, images: seq<string>, subdirs: seq<string>)
    requires MediaParams(p)
    ensures var d := MediaDevice(images, subdirs); var s := Configured(p);
            MediaState(p, images, subdirs) == s.(parsed := map["/dev/block/sda1" := d], androidDevice := Some(d))
  {
    MediaNotIgnored();
  }

  lemma MediaStateReady(p: Params, images: seq<string>, subdirs: seq<string>)
    requires MediaParams(p) && NoDup(subdirs)
    ensures MountsInv(MediaState(p, images, subdirs)) && Ready(MediaState(p, images, subdirs))
  {
    MediaStateIs(p, images, subdirs);
    ConfiguredInv(p);
    ReportedInv(Configured(p), Report(MediaDevice(images, subdirs), false));
  }

  // Images of system partitions

  /** Each image file is for a system partition and its loop device can be set up. */
  predicate Usable(s: Mounts, k: Kernel, d: BlockDevice, images: seq<string>) {
    forall i :: 0 <= i < |images| ==>
      && KindOf(images[i]) == SystemFile && Stem(images[i]) in SYSTEM_PARTITIONS
      && SourceOf(s, k, d, images[i]) != ""
  }

  function SourceOf(s: Mounts, k: Kernel, d: BlockDevice, image: string): string {
    k.loopDevice(ImageSource(s.params, AndroidPath(d), image), d.rw)
  }

  function GroupOf(s: Mounts, k: Kernel, d: BlockDevice, image: string): Group {
    Group(Stem(image), WithRetry(PartitionEntry(SourceOf(s, k, d, image), Stem(image), !d.rw), SYSTEM_FS))
  }

  function GroupsOf(s: Mounts, k: Kernel, d: BlockDevice, images: seq<string>): seq<Group> {
    if images == [] then [] else [GroupOf(s, k, d, images[0])] + GroupsOf(s, k, d, images[1..])
  }

  lemma NotCache(name: string)
    requires name in SYSTEM_PARTITIONS
    ensures name != "cache"
  {
  }

  lemma {:induction false} UsableImagesPlanned(s: Mounts, k: Kernel, d: BlockDevice, images: seq<string>)
    requires Usable(s, k, d, images)
    ensures ImageGroups(s, k, d, images) == Ok(GroupsOf(s, k, d, images))
    decreases |images|
  {
    if images == [] {
    } else {
      assert forall i :: 0 <= i < |images[1..]| ==> images[1..][i] == images[i + 1];
      UsableImagesPlanned(s, k, d, images[1..]);
      NotCache(Stem(images[0]));
    }
  }

  lemma {:induction false} UsableImagesWanted(p: Params, images: seq<string>)
    requires MediaParams(p) && forall i :: 0 <= i < |images| ==> KindOf(images[i]) == SystemFile
    ensures PartitionImages(p, false, images) == images
    decreases |images|
  {
    if images == [] {
    } else {
      assert forall i :: 0 <= i < |images[1..]| ==> images[1..][i] == images[i + 1];
      UsableImagesWanted(p, images[1..]);
      assert [images[0]] + images[1..] == images;
    }
  }

  lemma {:induction false} KeptUsable(s: Mounts, images: seq<string>)
    requires forall i :: 0 <= i < |images| ==> Stem(images[i]) in SYSTEM_PARTITIONS
    ensures |KeptStems(s, images)| == |images|
    ensures forall i :: 0 <= i < |images| ==> KeptStems(s, images)[i] == Stem(images[i])
    decreases |images|
  {
    if images == [] {
    } else {
      assert forall i :: 0 <= i < |images[1..]| ==> images[1..][i] == images[i + 1];
      KeptUsable(s, images[1..]);
      NotCache(Stem(images[0]));
    }
  }

  // Their plan

  lemma ThenNothing(a: Section)
    ensures Then(a, Ok([])) == a == Then(Ok([]), a)
  {
    if a.Ok? {
      assert a.value + [] == a.value == [] + a.value;
    }
  }

  lemma ThenFrom(ss: seq<Section>, i: nat)
    requires i < |ss|
    ensures ThenAll(ss[i..]) == Then(ss[i], ThenAll(ss[i + 1..]))
    ensures ss[i] == Ok([]) ==> ThenAll(ss[i..]) == ThenAll(ss[i + 1..])
  {
    assert ss[i..][1..] == ss[i + 1..];
    ThenNothing(ThenAll(ss[i + 1..]));
  }

  /** Over the bare results, so that what the sections compute stays out of the proof. */
  lemma ThreeSections(images: Section, binds: Section, tmpfs: Section)
    ensures ThenAll([Ok([]), Ok([]), Ok([]), images, binds, tmpfs, Ok([])]) == Then(images, Then(binds, tmpfs))
  {
    var ss := [Ok([]), Ok([]), Ok([]), images, binds, tmpfs, Ok([])];
    assert ss[0..] == ss && ss[7..] == [];
    ThenFrom(ss, 0);
    ThenFrom(ss, 1);
    ThenFrom(ss, 2);
    ThenFrom(ss, 3);
    ThenFrom(ss, 4);
    ThenFrom(ss, 5);
    ThenFrom(ss, 6);
    ThenNothing(tmpfs);
  }

  lemma PlanIs(s: Mounts, k: Kernel, images: Section, binds: Section, tmpfs: Section)
    requires MountsInv(s) && AndroidSection(s, k) == Ok([]) == SystemSection(s, false)
    requires UserdataSection(s, false) == Ok([]) == FirmwareDirSection(s, k)
    requires ImagesSection(s, false, k) == images && BindSection(s, false) == binds && TmpfsSection(s, false) == tmpfs
    ensures Plan(s, false, k) == Then(images, Then(binds, tmpfs))
  {
    ThreeSections(images, binds, tmpfs);
  }

  /** The sections that plan nothing. */
  lemma MediaSections(p: Params, images: seq<string>, subdirs: seq<string>, s: Mounts, k: Kernel)
    requires MediaParams(p) && s == MediaState(p, images, subdirs) && MountsInv(s) && k.mountAndroid
    ensures AndroidSection(s, k) == Ok([]) == SystemSection(s, false)
    ensures UserdataSection(s, false) == Ok([]) == FirmwareDirSection(s, k)
    ensures s.params == p && s.androidDevice == Some(MediaDevice(images, subdirs))
  {
    MediaStateIs(p, images, subdirs);
  }

  lemma ImagesPlanned(s: Mounts, k: Kernel, d: BlockDevice)
    requires MediaParams(s.params) && s.androidDevice == Some(d) && Usable(s, k, d, d.images)
    requires CopiesWork(s.params, false, d.images, k)
    ensures ImagesSection(s, false, k) == Ok(GroupsOf(s, k, d, d.images))
    ensures PlannedStems(s, false) == KeptStems(s, d.images)
  {
    UsableImagesWanted(s.params, d.images);
    UsableImagesPlanned(s, k, d, d.images);
    var gs := GroupsOf(s, k, d, d.images);
    assert [] + gs == gs;
  }

  const TMPFS_PARAMS := Params(Disable, SystemImages, UserdataTmpfs)

  lemma OnTmpfs(s: Mounts)
    requires s.params.userdata == UserdataTmpfs
    ensures BindSection(s, false) == Ok([]) && TmpfsSection(s, false).Ok?
  {
  }

  /** What is planned for usable images with userdata on tmpfs. */
  lemma MediaPlan(s: Mounts, k: Kernel, images: seq<string>)
    requires s == MediaState(TMPFS_PARAMS, images, []) && MountsInv(s) && k.mountAndroid
    requires Usable(s, k, MediaDevice(images, []), images)
    ensures TmpfsSection(s, false).Ok?
    ensures Plan(s, false, k) == Then(Ok(GroupsOf(s, k, MediaDevice(images, []), images)), TmpfsSection(s, false))
    ensures PlannedStems(s, false) == KeptStems(s, images)
  {
    MediaSections(TMPFS_PARAMS, images, [], s, k);
    ImagesPlanned(s, k, MediaDevice(images, []));
    OnTmpfs(s);
    PlanIs(s, k, ImagesSection(s, false, k), Ok([]), TmpfsSection(s, false));
    ThenNothing(TmpfsSection(s, false));
  }

  /** The plan starts with the groups of the images, and collides as their names do. */
  ghost predicate ImagesFirst(s: Mounts, k: Kernel, images: seq<string>, gs: seq<Group>) {
    && |gs| >= |images| && AllGroupsOk(gs)
    && (forall i :: 0 <= i < |images| ==> gs[i] == GroupOf(s, k, MediaDevice(images, []), images[i]))
    && (DistinctMountPoints(gs) <==> NoDup(KeptStems(s, images)))
    && (NeighboursDistinct(gs) <==> NoTwins(KeptStems(s, images)))
  }

  lemma MediaPlanImagesFirst(s: Mounts, k: Kernel, images: seq<string>)
    requires s == MediaState(TMPFS_PARAMS, images, []) && MountsInv(s) && k.mountAndroid
    requires Usable(s, k, MediaDevice(images, []), images)
    ensures Plan(s, false, k).Ok? && ImagesFirst(s, k, images, Plan(s, false, k).value)
  {
    var d := MediaDevice(images, []);
    MediaPlan(s, k, images);
    PlanMountsEachPointOnce(s, false, k);
    GroupsOfAll(s, k, d, images);
  }

  lemma {:induction false} GroupsOfAll(s: Mounts, k: Kernel, d: BlockDevice, images: seq<string>)
    ensures |GroupsOf(s, k, d, images)| == |images|
    ensures forall i :: 0 <= i < |images| ==> GroupsOf(s, k, d, images)[i] == GroupOf(s, k, d, images[i])
    decreases |images|
  {
    if images == [] {
    } else {
      GroupsOfAll(s, k, d, images[1..]);
    }
  }

  // Images whose names collide

  const NEIGHBOURS := ["system.img", "system.IMG"]

  function NeighboursState(): Mounts {
    MediaState(TMPFS_PARAMS, NEIGHBOURS, [])
  }

  lemma NeighbourNames()
    ensures forall i :: 0 <= i < |NEIGHBOURS| ==> KindOf(NEIGHBOURS[i]) == SystemFile && Stem(NEIGHBOURS[i]) == "system"
    ensures "system" in SYSTEM_PARTITIONS
  {
    assert SYSTEM_PARTITIONS[3] == "system";
    assert "system" + "." + "img" == "system.img" && "system" + "." + "IMG" == "system.IMG";
    SystemKind("system", "img");
    SystemKind("system", "IMG");
  }

  /** A run that covers the first two groups, all of it from the first source. */
  ghost predicate FirstTwoMerged(gs: seq<Group>, source: string) {
    && |gs| >= 2 && Flatten(gs) != [] && RunEnd(Flatten(gs), 0) >= |gs[0].entries| + |gs[1].entries|
    && forall e :: e in CandidatesAt(Flatten(gs), 0) ==> e.blkDevice == source
  }

  lemma FirstTwoMerge(gs: seq<Group>)
    requires AllGroupsOk(gs) && |gs| >= 2 && gs[0].name == gs[1].name
    ensures gs[0].entries != [] && FirstTwoMerged(gs, gs[0].entries[0].blkDevice)
  {
    assert SamePoint(gs, 1);
    NeighboursMerge(gs, 1);
    TwoPlaced(gs, 1);
    assert gs[..0] == [];
  }

  lemma GroupSource(s: Mounts, k: Kernel, d: BlockDevice, image: string)
    ensures var es := GroupOf(s, k, d, image).entries; es != [] && es[0].blkDevice == SourceOf(s, k, d, image)
    ensures var e := GroupOf(s, k, d, image).entries[0]; e.mountPoint == MountPoint(Stem(image)) && e.fsType == "ext4"
  {
  }

  lemma NeighbourStems(s: Mounts)
    ensures !NoDup(KeptStems(s, NEIGHBOURS)) && !NoTwins(KeptStems(s, NEIGHBOURS))
  {
    NeighbourNames();
    KeptUsable(s, NEIGHBOURS);
    assert TwinAt(KeptStems(s, NEIGHBOURS), 1);
  }

  lemma NeighboursMerged(s: Mounts, k: Kernel, gs: seq<Group>)
    requires ImagesFirst(s, k, NEIGHBOURS, gs)
    ensures FirstTwoMerged(gs, SourceOf(s, k, MediaDevice(NEIGHBOURS, []), "system.img"))
  {
    NeighbourNames();
    assert gs[0].name == Stem(NEIGHBOURS[0]) == Stem(NEIGHBOURS[1]) == gs[1].name;
    FirstTwoMerge(gs);
    GroupSource(s, k, MediaDevice(NEIGHBOURS, []), NEIGHBOURS[0]);
  }

  /** Suffixes are matched ignoring case, so two image files are planned for one mount point. In a row they
      are one run, and only the first image is ever tried. */
  lemma CollidingNeighbours(k: Kernel)
    requires k.mountAndroid && Usable(NeighboursState(), k, MediaDevice(NEIGHBOURS, []), NEIGHBOURS)
    ensures MountsInv(NeighboursState()) && Ready(NeighboursState()) && Plan(NeighboursState(), false, k).Ok?
    ensures var s, gs := NeighboursState(), Plan(NeighboursState(), false, k).value;
            && ImagesFirst(s, k, NEIGHBOURS, gs) && !DistinctMountPoints(gs) && !RunsAsPlanned(gs)
            && FirstTwoMerged(gs, SourceOf(s, k, MediaDevice(NEIGHBOURS, []), "system.img"))
  {
    MediaStateReady(TMPFS_PARAMS, NEIGHBOURS, []);
    var s := NeighboursState();
    MediaPlanImagesFirst(s, k, NEIGHBOURS);
    var gs := Plan(s, false, k).value;
    NeighbourStems(s);
    RunsAsPlannedIff(gs);
    NeighboursMerged(s, k, gs);
  }

  const APART := ["vendor.img", "product.img", "vendor.IMG"]

  function ApartState(): Mounts {
    MediaState(TMPFS_PARAMS, APART, [])
  }

  lemma ApartNames()
    ensures forall i :: 0 <= i < |APART| ==> KindOf(APART[i]) == SystemFile && Stem(APART[i]) in SYSTEM_PARTITIONS
    ensures Stem(APART[0]) == "vendor" && Stem(APART[1]) == "product" && Stem(APART[2]) == "vendor"
  {
    assert SYSTEM_PARTITIONS[2] == "product" && SYSTEM_PARTITIONS[6] == "vendor";
    assert "vendor" + "." + "img" == "vendor.img" && "vendor" + "." + "IMG" == "vendor.IMG";
    assert "product" + "." + "img" == "product.img";
    SystemKind("vendor", "img");
    SystemKind("product", "img");
    SystemKind("vendor", "IMG");
  }

  lemma ApartStems(s: Mounts)
    ensures !NoDup(KeptStems(s, APART)) && NoTwins(KeptStems(s, APART))
  {
    ApartNames();
    KeptUsable(s, APART);
    var stems := KeptStems(s, APART);
    assert stems[0] == stems[2];
    assert "vendor"[0] != "product"[0];
  }

  function MountOf(e: FstabEntry): Trace {
    [CreateMountPoint(e.mountPoint), Mount(e)]
  }

  /** What mounting some groups does when everything works. */
  function MountsOf(gs: seq<Group>, n: nat, m: nat): Trace
    requires n <= m <= |gs| && forall i :: 0 <= i < m ==> gs[i].entries != []
    decreases m - n
  {
    if n == m then [] else MountOf(gs[n].entries[0]) + MountsOf(gs, n + 1, m)
  }

  /** The trace of the loop from the nth group on. */
  function LoopFrom(gs: seq<Group>, n: nat, t: Trace): Trace
    requires n <= |gs|
  {
    if Start(gs, n) <= |Flatten(gs)| then PassFrom(Flatten(gs), Start(gs, n), t, ALWAYS).trace else []
  }

  lemma LoopStep(gs: seq<Group>, n: nat, t: Trace)
    requires AllGroupsOk(gs) && NeighboursDistinct(gs) && n < |gs|
    requires gs[n].entries != [] && !Skipped(gs[n].entries[0])
    ensures LoopFrom(gs, n, t) == LoopFrom(gs, n + 1, t + MountOf(gs[n].entries[0]))
    ensures t + MountOf(gs[n].entries[0]) <= LoopFrom(gs, n, t)
  {
    GroupMounts(gs, n, t);
    PassTrace(Flatten(gs), Start(gs, n + 1), t + MountOf(gs[n].entries[0]), ALWAYS);
  }

  lemma {:induction false} LoopSteps(gs: seq<Group>, n: nat, m: nat, t: Trace)
    requires AllGroupsOk(gs) && NeighboursDistinct(gs) && n < m <= |gs|
    requires forall i :: 0 <= i < m ==> gs[i].entries != [] && !Skipped(gs[i].entries[0])
    ensures t + MountsOf(gs, n, m) <= LoopFrom(gs, n, t)
    decreases m - n
  {
    LoopStep(gs, n, t);
    if n + 1 == m {
      assert MountsOf(gs, n, m) == MountOf(gs[n].entries[0]) + [];
    } else {
      LoopSteps(gs, n + 1, m, t + MountOf(gs[n].entries[0]));
      Assoc(t, MountOf(gs[n].entries[0]), MountsOf(gs, n + 1, m));
    }
  }

  /** After the switch to the system run the loop mounts the first groups one after the other. */
  lemma MountedInTurn(gs: seq<Group>, m: nat, t: Trace)
    requires AllGroupsOk(gs) && NeighboursDistinct(gs) && 0 < m <= |gs|
    requires forall i :: 0 <= i < m ==> gs[i].entries != [] && !Skipped(gs[i].entries[0])
    ensures SystemFirst(Flatten(gs), t, ALWAYS).trace + MountsOf(gs, 0, m) <= MountAll(Flatten(gs), t, ALWAYS).trace
  {
    SystemThenLoop(gs, t);
    LoopSteps(gs, 0, m, SystemFirst(Flatten(gs), t, ALWAYS).trace);
  }

  lemma SystemThenLoop(gs: seq<Group>, t: Trace)
    requires AllGroupsOk(gs) && NeighboursDistinct(gs)
    ensures MountAll(Flatten(gs), t, ALWAYS).trace == LoopFrom(gs, 0, SystemFirst(Flatten(gs), t, ALWAYS).trace)
  {
    PlanUniform(gs, |gs|);
    assert gs[..|gs|] == gs;
    SystemThenPass(Flatten(gs), t);
    assert gs[..0] == [];
  }

  lemma ApartNotSystem()
    ensures forall i :: 0 <= i < 3 ==> Stem(APART[i]) in SYSTEM_PARTITIONS && Stem(APART[i]) != "system"
    ensures "/" + Stem(APART[0]) == "/vendor" == "/" + Stem(APART[2])
  {
    ApartNames();
    assert "vendor" != "system" && "product" != "system";
  }

  lemma GroupEntry(s: Mounts, k: Kernel, d: BlockDevice, image: string, g: Group)
    requires Stem(image) in SYSTEM_PARTITIONS && Stem(image) != "system" && g == GroupOf(s, k, d, image)
    ensures g.entries != [] && !Skipped(g.entries[0]) && g.entries[0].mountPoint == "/" + Stem(image)
    ensures g.entries[0].blkDevice == SourceOf(s, k, d, image)
  {
    var name := Stem(image);
    GroupSource(s, k, d, image);
    NotFirmware(name);
    assert ("/" + name)[1..] == name && "/system"[1..] == "system";
    assert "ext4" != "overlay" && "ext4" != "emmc";
  }

  /** Both vendor images are mounted at /vendor, after whatever switching the root has done. */
  ghost predicate MountedTwice(s: Mounts, k: Kernel, gs: seq<Group>, t: Trace) {
    var d := MediaDevice(APART, []);
    && |gs| >= 3 && (forall i :: 0 <= i < 3 ==> gs[i].entries != [])
    && gs[0].entries[0].blkDevice == SourceOf(s, k, d, "vendor.img")
    && gs[2].entries[0].blkDevice == SourceOf(s, k, d, "vendor.IMG")
    && gs[0].entries[0].mountPoint == "/vendor" == gs[2].entries[0].mountPoint
    && SystemFirst(Flatten(gs), t, ALWAYS).trace + MountsOf(gs, 0, 3) <= MountAll(Flatten(gs), t, ALWAYS).trace
  }

  lemma ApartMounted(s: Mounts, k: Kernel, gs: seq<Group>, t: Trace)
    requires ImagesFirst(s, k, APART, gs) && NeighboursDistinct(gs)
    ensures MountedTwice(s, k, gs, t)
  {
    ApartNotSystem();
    ImageEntries(s, k, MediaDevice(APART, []), APART, gs);
    MountedInTurn(gs, 3, t);
  }

  lemma ImageEntries(s: Mounts, k: Kernel, d: BlockDevice, images: seq<string>, gs: seq<Group>)
    requires |gs| >= |images| && forall i :: 0 <= i < |images| ==> gs[i] == GroupOf(s, k, d, images[i])
    requires forall i :: 0 <= i < |images| ==> Stem(images[i]) in SYSTEM_PARTITIONS && Stem(images[i]) != "system"
    ensures forall i :: 0 <= i < |images| ==>
              && gs[i].entries != [] && !Skipped(gs[i].entries[0])
              && gs[i].entries[0].mountPoint == "/" + Stem(images[i])
              && gs[i].entries[0].blkDevice == SourceOf(s, k, d, images[i])
  {
    forall i | 0 <= i < |images|
      ensures gs[i].entries != [] && !Skipped(gs[i].entries[0])
      ensures gs[i].entries[0].mountPoint == "/" + Stem(images[i])
      ensures gs[i].entries[0].blkDevice == SourceOf(s, k, d, images[i])
    {
      GroupEntry(s, k, d, images[i], gs[i]);
    }
  }

  /** Not in a row, they are two runs: when every mount works, both images are mounted at one place. */
  lemma CollidingApart(k: Kernel, t: Trace)
    requires k.mountAndroid && Usable(ApartState(), k, MediaDevice(APART, []), APART)
    ensures MountsInv(ApartState()) && Ready(ApartState()) && Plan(ApartState(), false, k).Ok?
    ensures var s, gs := ApartState(), Plan(ApartState(), false, k).value;
            && ImagesFirst(s, k, APART, gs) && !DistinctMountPoints(gs) && RunsAsPlanned(gs)
            && MountedTwice(s, k, gs, t)
  {
    MediaStateReady(TMPFS_PARAMS, APART, []);
    var s := ApartState();
    MediaPlanImagesFirst(s, k, APART);
    var gs := Plan(s, false, k).value;
    ApartStems(s);
    RunsAsPlannedIff(gs);
    ApartMounted(s, k, gs, t);
  }

  // A bind source that is gone

  const BIND_PARAMS := Params(Disable, SystemImagesToRam, BindMountDir)

  /** mount_system=imgs_ram, mount_firmware=disable, mount_userdata=bind_mount_dir, with a system image and
      a userdata directory: once the image is copied nothing keeps the device busy. */
  function BindState(): Mounts {
    MediaState(BIND_PARAMS, ["system.img"], ["userdata"])
  }

  lemma BindStateReady()
    ensures MountsInv(BindState()) && Ready(BindState())
    ensures BindsSubdirs(BindState(), false)
  {
    MediaStateReady(BIND_PARAMS, ["system.img"], ["userdata"]);
    MediaStateIs(BIND_PARAMS, ["system.img"], ["userdata"]);
    assert Bound(BindState(), BindState().androidDevice.value.subdirs[0]) by {
      assert USERDATA_PARTITIONS[2] == "userdata";
      assert "userdata"[0] != "cache"[0];
    }
  }

  lemma BindImages(s: Mounts, k: Kernel, d: BlockDevice)
    requires s.params == BIND_PARAMS && s.androidDevice == Some(d) && d.images == ["system.img"] && d.rw
    requires k.copies("system.img") && k.loopDevice("/mnt/vendor/generic_init/img/system.img", true) != ""
    ensures ImagesSection(s, false, k).Ok?
  {
    assert SYSTEM_PARTITIONS[3] == "system" && "system" + "." + "img" == "system.img";
    SystemKind("system", "img");
    assert IMAGE_DIR + "/" + "system.img" == "/mnt/vendor/generic_init/img/system.img";
    ImagesPlanned(s, k, d);
  }

  lemma BindPlanOk(s: Mounts, k: Kernel)
    requires s == BindState() && MountsInv(s) && k.mountAndroid && ImagesSection(s, false, k).Ok?
    ensures Plan(s, false, k).Ok?
  {
    var d := MediaDevice(["system.img"], ["userdata"]);
    MediaSections(BIND_PARAMS, ["system.img"], ["userdata"], s, k);
    PlanSafety.BindGroupsOk(s, d, d.subdirs);
    PlanIs(s, k, ImagesSection(s, false, k), BindGroups(s, d, d.subdirs), Ok([]));
  }

  /** The state is ready and the plan succeeds, yet the source of /data is gone when it is to be bound. */
  lemma DataSourceUnmounted(k: Kernel)
    requires k.mountAndroid && k.umountAndroid && k.copies("system.img")
    requires k.loopDevice("/mnt/vendor/generic_init/img/system.img", true) != ""
    ensures MountsInv(BindState()) && Ready(BindState()) && Plan(BindState(), false, k).Ok?
    ensures !AllAvailable(TargetsLeft(BindState(), false, k), Plan(BindState(), false, k).value)
  {
    BindStateReady();
    MediaSections(BIND_PARAMS, ["system.img"], ["userdata"], BindState(), k);
    BindImages(BindState(), k, BindState().androidDevice.value);
    BindPlanOk(BindState(), k);
    BindSourcesLeftIff(BindState(), false, k);
  }
}
