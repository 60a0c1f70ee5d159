/** Names of image files and the partitions they stand for. */
module ImageNames {
  import opened MountTypes
  import opened MountPlans

  lemma {:induction false} LastDotOf(stem: string, ext: string)
    requires '.' !in ext
    ensures LastDot(stem + "." + ext) == |stem|
    decreases |ext|
  {
    var name := stem + "." + ext;
    if ext == "" {
      assert name[|name| - 1] == '.';
    } else {
      var shorter := ext[..|ext| - 1];
      assert name[|name| - 1] == ext[|ext| - 1] && ext[|ext| - 1] in ext;
      assert name[..|name| - 1] == stem + "." + shorter;
      LastDotOf(stem, shorter);
    }
  }

  /** The base name of an image file, whatever the case of its suffix. */
  lemma StemOf(stem: string, ext: string)
    requires '.' !in ext
    ensures Stem(stem + "." + ext) == stem
  {
    LastDotOf(stem, ext);
  }

  lemma SystemKind(stem: string, ext: string)
    requires '.' !in ext && stem in SYSTEM_PARTITIONS
    ensures Stem(stem + "." + ext) == stem && KindOf(stem + "." + ext) == SystemFile
  {
    StemOf(stem, ext);
    NoOtherKind(stem);
  }

  lemma NoOtherKind(stem: string)
    requires stem in SYSTEM_PARTITIONS
    ensures stem !in ["firmware", "linux-firmware"] && stem !in ["initrd", "ramdisk"] && stem !in USERDATA_PARTITIONS
  {
  }
}
