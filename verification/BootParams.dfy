/** The boot parameters, value by value. */
module BootParams {
  import opened MountTypes
  import opened MountHandlers

  predicate Given(boot: map<string, string>, key: string, value: string) {
    key in boot && boot[key] == value
  }

  /** Each value of a parameter stands for one way to mount; unset and other values are the default. */
  lemma FirmwareValues(boot: map<string, string>)
    ensures var firmware := ParamsOf(boot).firmware; var key := "mount_firmware";
            && (firmware == Disable <==> Given(boot, key, "disable") || Given(boot, key, "false"))
            && (firmware == OnlyAndroidDir <==> Given(boot, key, "only_android_dir"))
            && (firmware == FirmwareImage <==> Given(boot, key, "img"))
            && (firmware == FirmwareImageToRam <==> Given(boot, key, "img_ram"))
            && (Given(boot, key, "all_possible_dirs") || Given(boot, key, "true") ==> firmware == AllPossibleDirs)
  {
  }

  lemma SystemValues(boot: map<string, string>)
    ensures var system := ParamsOf(boot).system; var key := "mount_system";
            && (system == AnyBlockDevices <==> Given(boot, key, "blk_devices"))
            && (system == SystemImages <==> Given(boot, key, "imgs"))
            && (system == SystemImagesToRam <==> Given(boot, key, "imgs_ram"))
            && (Given(boot, key, "std_parts") ==> system == SystemStdParts)
  {
  }

  lemma UserdataValues(boot: map<string, string>)
    ensures var userdata := ParamsOf(boot).userdata; var key := "mount_userdata";
            && (userdata == UserdataImages <==> Given(boot, key, "imgs"))
            && (userdata == BindMountDir <==> Given(boot, key, "bind_mount_dir"))
            && (userdata == UserdataTmpfs <==> Given(boot, key, "tmpfs"))
            && (Given(boot, key, "std_parts") ==> userdata == UserdataStdParts)
  {
  }

  /** What is needed: a firmware directory for the directory modes, the android directory for every mode that
      takes something from it. */
  lemma NeedsFollow(boot: map<string, string>)
    ensures var p, s := ParamsOf(boot), Configured(ParamsOf(boot));
            && (s.needFirmwareDir <==> p.firmware == AllPossibleDirs || p.firmware == OnlyAndroidDir)
            && (s.needAndroidDir <==>
                 || p.firmware == FirmwareImage || p.firmware == FirmwareImageToRam
                 || p.system == SystemImages || p.system == SystemImagesToRam
                 || p.userdata == UserdataImages || p.userdata == BindMountDir)
            && !s.needMountCache && s.androidDevice.None? && s.firmwareDevice.None?
            && (forall k :: k in s.system ==> s.system[k].None?)
            && (forall k :: k in s.userdata ==> s.userdata[k].None?)
  {
  }
}
