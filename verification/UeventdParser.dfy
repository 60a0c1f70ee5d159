/** The section parsers of ueventd.rc: subsystem and driver sections, and import. */
module UeventdParser {
  import opened Wrappers

  datatype DevnameSource = UeventDevname | UeventDevpath | SysName

  datatype Subsystem = Subsystem(name: string, devname: DevnameSource, dirName: string)

  /** One SubsystemParser: the section being read and the list it commits to. */
  datatype Sections = Sections(current: Subsystem, committed: seq<Subsystem>)

  predicate Named(list: seq<Subsystem>, name: string) {
    exists i :: 0 <= i < |list| && list[i].name == name
  }

  /** None is the error return; then nothing changes. */
  function StartSection(s: Sections, args: seq<string>): Option<Sections> {
    if |args| != 2 || Named(s.committed, args[1]) then None
    else Some(s.(current := Subsystem(args[1], UeventDevname, "/dev")))
  }

  function SectionLine(s: Sections, args: seq<string>): Option<Sections> {
    if |args| != 2 then None
    else if args[0] == "devname" then
      if args[1] == "uevent_devname" then Some(s.(current := s.current.(devname := UeventDevname)))
      else if args[1] == "uevent_devpath" then Some(s.(current := s.current.(devname := UeventDevpath)))
      else if args[1] == "sys_name" then Some(s.(current := s.current.(devname := SysName)))
      else None
    else if args[0] == "dirname" then
      if args[1] != "" && args[1][0] == '/' then Some(s.(current := s.current.(dirName := args[1])))
      else None
    else None
  }

  function CommitSection(s: Sections): Sections {
    s.(committed := s.committed + [s.current])
  }

  /** The list with the target of one more import line; expanded is what ExpandProps makes of the argument. */
  function AddImport(imports: seq<string>, args: seq<string>, expanded: Option<string>): Option<seq<string>> {
    if |args| != 2 || expanded.None? then None else Some(imports + [expanded.value])
  }

  class SubsystemParser {
    var subsystem: Subsystem
    var subsystems: seq<Subsystem>

    function Model(): Sections
      reads this
    {
      Sections(subsystem, subsystems)
    }

    constructor ()
      ensures Model() == Sections(Subsystem("", UeventDevname, "/dev"), [])
    {
      subsystem, subsystems := Subsystem("", UeventDevname, "/dev"), [];
    }

    method ParseSection(args: seq<string>) returns (ok: bool)
      modifies this`subsystem
      ensures var r := StartSection(old(Model()), args);
              ok == r.Some? && Model() == if ok then r.value else old(Model())
    {
      if |args| != 2 {
        return false;
      }
      var i := 0;
      while i < |subsystems|
        invariant 0 <= i <= |subsystems|
        invariant forall j :: 0 <= j < i ==> subsystems[j].name != args[1]
      {
        if subsystems[i].name == args[1] {
          return false;
        }
        i := i + 1;
      }
      subsystem := Subsystem(args[1], UeventDevname, "/dev");
      return true;
    }

    method ParseDevName(value: string) returns (ok: bool)
      modifies this`subsystem
      ensures var r := SectionLine(old(Model()), ["devname", value]);
              ok == r.Some? && Model() == if ok then r.value else old(Model())
    {
      ok := true;
      if value == "uevent_devname" {
        subsystem := subsystem.(devname := UeventDevname);
      } else if value == "uevent_devpath" {
        subsystem := subsystem.(devname := UeventDevpath);
      } else if value == "sys_name" {
        subsystem := subsystem.(devname := SysName);
      } else {
        ok := false;
      }
    }

    /** front() of the empty string reads its terminator, which is no slash. */
    method ParseDirName(value: string) returns (ok: bool)
      modifies this`subsystem
      ensures var r := SectionLine(old(Model()), ["dirname", value]);
              ok == r.Some? && Model() == if ok then r.value else old(Model())
    {
      if value == "" || value[0] != '/' {
        return false;
      }
      subsystem := subsystem.(dirName := value);
      return true;
    }

    /** The keyword map: each keyword takes exactly one argument. */
    method ParseLineSection(args: seq<string>) returns (ok: bool)
      modifies this`subsystem
      ensures var r := SectionLine(old(Model()), args);
              ok == r.Some? && Model() == if ok then r.value else old(Model())
    {
      if |args| != 2 || (args[0] != "devname" && args[0] != "dirname") {
        return false;
      }
      assert args == [args[0], args[1]];
      if args[0] == "devname" {
        ok := ParseDevName(args[1]);
      } else {
        ok := ParseDirName(args[1]);
      }
    }

    method EndSection()
      modifies this`subsystems
      ensures Model() == CommitSection(old(Model()))
    {
      subsystems := subsystems + [subsystem];
    }
  }

  class ImportParser {
    var imports: seq<string>

    constructor ()
      ensures imports == []
    {
      imports := [];
    }

    method ParseSection(args: seq<string>, expanded: Option<string>) returns (ok: bool)
      modifies this
      ensures var r := AddImport(old(imports), args, expanded);
              ok == r.Some? && imports == if ok then r.value else old(imports)
    {
      if |args| != 2 || expanded.None? {
        return false;
      }
      imports := imports + [expanded.value];
      return true;
    }

    /** EndFile before its loop: the list is taken over and cleared, so nested files start afresh. */
    method TakeImports() returns (current: seq<string>)
      modifies this
      ensures current == old(imports) && imports == []
    {
      current := imports;
      imports := [];
    }
  }
}
