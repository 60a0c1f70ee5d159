/** Reading ueventd.rc with everything it imports, and what holds of the resulting configuration. */
module UeventdConfigs {
  import opened Wrappers
  import opened Sequences
  import opened TokenizerSpec
  import opened ParserSpec
  import opened SectionTraces
  import opened UeventdParser

  /** The surroundings: property expansion, readable files, directories with their sorted regular
      files, and what the single-line parsers answer, given the lines they have accepted before. */
  datatype Env = Env(
    expand: string -> Option<string>,
    files: map<string, string>,
    dirs: map<string, seq<string>>,
    lineOk: (seq<SingleLine>, SingleLine) -> bool)

  /** A line for a single-line parser: its prefix and its words. */
  datatype SingleLine = SingleLine(prefix: nat, args: seq<string>)

  const PREFIXES := [
    "/sys/", "/dev/", "firmware_directories", "external_firmware_handler", "modalias_handling",
    "uevent_socket_rcvbuf_size", "parallel_ueventd_main_loop_max_workers", "parallel_ueventd_main_loop"]
  const SECTIONS := ["driver", "import", "subsystem"]
  const REGISTRY := Registry(PREFIXES, SECTIONS)

  /** The objects behind the three section parsers, and the lines the single-line parsers have accepted. */
  datatype Config = Config(subsystems: Sections, drivers: Sections, imports: seq<string>, lines: seq<SingleLine>)

  const NO_SECTION := Sections(Subsystem("", UeventDevname, "/dev"), [])
  const EMPTY_CONFIG := Config(NO_SECTION, NO_SECTION, [], [])

  function Expanded(env: Env, args: seq<string>): Option<string> {
    if |args| == 2 then env.expand(args[1]) else None
  }

  /** Whether a call succeeds, and what it leaves behind. */
  function Answer(env: Env, c: Config, e: Event): Option<Config> {
    match e
    case LineCallback(i, args) =>
      var line := SingleLine(i, args);
      if env.lineOk(c.lines, line) then Some(c.(lines := c.lines + [line])) else None
    case ParseSection(name, args, _) =>
      if name == "subsystem" then OnSubsystems(c, StartSection(c.subsystems, args))
      else if name == "driver" then OnDrivers(c, StartSection(c.drivers, args))
      else
        var imports := AddImport(c.imports, args, Expanded(env, args));
        if imports.Some? then Some(c.(imports := imports.value)) else None
    case ParseLineSection(name, args, _) =>
      if name == "subsystem" then OnSubsystems(c, SectionLine(c.subsystems, args))
      else if name == "driver" then OnDrivers(c, SectionLine(c.drivers, args))
      else None
    case EndSection(name) =>
      if name == "subsystem" then Some(c.(subsystems := CommitSection(c.subsystems)))
      else if name == "driver" then Some(c.(drivers := CommitSection(c.drivers)))
      else Some(c)
    case EndFile(name) => Some(if name == "import" then c.(imports := []) else c)
    case Orphan(_) => Some(c)
  }

  function OnSubsystems(c: Config, r: Option<Sections>): Option<Config> {
    if r.Some? then Some(c.(subsystems := r.value)) else None
  }

  function OnDrivers(c: Config, r: Option<Sections>): Option<Config> {
    if r.Some? then Some(c.(drivers := r.value)) else None
  }

  function ConfigAfter(env: Env, trace: seq<Event>): Config {
    if trace == [] then EMPTY_CONFIG
    else
      var before := ConfigAfter(env, trace[..|trace| - 1]);
      var r := Answer(env, before, trace[|trace| - 1]);
      if r.Some? then r.value else before
  }

  /** The answers that the parser sees. */
  function Answers(env: Env): Verdict {
    trace => trace != [] && Answer(env, ConfigAfter(env, trace[..|trace| - 1]), trace[|trace| - 1]).Some?
  }

  lemma ConfigAppend(env: Env, trace: seq<Event>, e: Event)
    ensures var before := ConfigAfter(env, trace);
            var r := Answer(env, before, e);
            && Answers(env)(trace + [e]) == r.Some?
            && ConfigAfter(env, trace + [e]) == if r.Some? then r.value else before
  {
    assert (trace + [e])[..|trace|] == trace;
  }

  // Imports

  /** What the import lines of a file ask for, in order. */
  function ImportsOf(env: Env, lines: seq<Line>): seq<string>
    requires NonEmptyLines(lines)
    decreases |lines|
  {
    if lines == [] then [] else ImportOf(env, lines[0]) + ImportsOf(env, lines[1..])
  }

  function ImportOf(env: Env, line: Line): seq<string>
    requires line.args != []
  {
    if line.args[0] == "import" && Expanded(env, line.args).Some? then [Expanded(env, line.args).value] else []
  }

  function FileLines(data: string): (lines: seq<Line>)
    ensures NonEmptyLines(lines)
  {
    LinesNonEmpty(data + "\n\0", 0, false, 0, []);
    Lines(data + "\n\0", 0, false, 0, [])
  }

  /** Imports and directory entries lead to smaller ranks: the import graph has no cycle. */
  ghost predicate Acyclic(env: Env, rank: string -> nat) {
    && (forall p, t :: p in env.files && t in ImportsOf(env, FileLines(env.files[p])) ==> rank(t) < rank(p))
    && (forall d, f :: d in env.dirs && f in env.dirs[d] ==> rank(f) < rank(d))
  }

  /** What the import mechanism needs of the registration: no prefix hides the keyword. */
  predicate TakesImports(reg: Registry) {
    && FindPrefix(reg.prefixes, "import").None?
    && "import" in reg.sections
    && forall name :: name in reg.sections ==> name == "driver" || name == "import" || name == "subsystem"
  }

  lemma NoPrefixStarts(prefixes: seq<string>, word: string)
    requires word != "" && forall i :: 0 <= i < |prefixes| ==> prefixes[i] != "" && prefixes[i][0] != word[0]
    ensures FindPrefix(prefixes, word).None?
  {
  }

  lemma RegistryTakesImports()
    ensures TakesImports(REGISTRY)
  {
    NoPrefixStarts(PREFIXES, "import");
    assert SECTIONS[1] == "import";
  }

  /** What one call adds to the import parser's list. */
  function ImportedBy(env: Env, e: Event): seq<string> {
    if e.ParseSection? && e.name != "subsystem" && e.name != "driver" && Expanded(env, e.args).Some?
    then [Expanded(env, e.args).value] else []
  }

  lemma AnswerImports(env: Env, c: Config, e: Event)
    requires !e.EndFile?
    ensures var r := Answer(env, c, e); (if r.Some? then r.value else c).imports == c.imports + ImportedBy(env, e)
  {
  }

  lemma CallImports(env: Env, trace: seq<Event>, e: Event)
    requires !e.EndFile?
    ensures ConfigAfter(env, trace + [e]).imports == ConfigAfter(env, trace).imports + ImportedBy(env, e)
  {
    ConfigAppend(env, trace, e);
    AnswerImports(env, ConfigAfter(env, trace), e);
  }

  lemma CloseKeepsImports(env: Env, s: Progress)
    ensures ConfigAfter(env, Close(Answers(env), s).trace).imports == ConfigAfter(env, s.trace).imports
  {
    if s.open.Some? {
      CallImports(env, s.trace, EndSection(s.open.value));
    }
  }

  /** The event of a line, when it has one. */
  function LineEvent(reg: Registry, s: Progress, line: Line): Event
    requires line.args != []
  {
    var word := line.args[0];
    var prefix := FindPrefix(reg.prefixes, word);
    if prefix.Some? then LineCallback(prefix.value, line.args)
    else if word in reg.sections then ParseSection(word, line.args, line.number)
    else if s.open.Some? then ParseLineSection(s.open.value, line.args, line.number)
    else Orphan(line.number)
  }

  /** A line makes its event, after the open section has been closed or kept, unless it is skipped. */
  lemma LineCalls(reg: Registry, ok: Verdict, s: Progress, line: Line) returns (prior: Progress)
    requires line.args != []
    ensures prior == s || prior == Close(ok, s)
    ensures var t := ParseLine(reg, ok, s, line).trace;
            t == prior.trace + [LineEvent(reg, s, line)] || (t == s.trace && LineEvent(reg, s, line).Orphan?)
  {
    var word := line.args[0];
    prior := if FindPrefix(reg.prefixes, word).Some? || word in reg.sections then Close(ok, s) else s;
  }

  lemma EventImports(reg: Registry, env: Env, s: Progress, line: Line)
    requires line.args != [] && TakesImports(reg)
    ensures var e := LineEvent(reg, s, line);
            !e.EndFile? && ImportedBy(env, e) == ImportOf(env, line)
  {
  }

  lemma LineImports(reg: Registry, env: Env, s: Progress, line: Line)
    requires line.args != [] && TakesImports(reg)
    ensures ConfigAfter(env, ParseLine(reg, Answers(env), s, line).trace).imports
         == ConfigAfter(env, s.trace).imports + ImportOf(env, line)
  {
    var prior := LineCalls(reg, Answers(env), s, line);
    EventImports(reg, env, s, line);
    CloseKeepsImports(env, s);
    var t, e := ParseLine(reg, Answers(env), s, line).trace, LineEvent(reg, s, line);
    if t == prior.trace + [e] {
      CallImports(env, prior.trace, e);
    } else {
      assert ConfigAfter(env, s.trace).imports + [] == ConfigAfter(env, s.trace).imports;
    }
  }

  /** The import parser's list grows by exactly the file's import lines. */
  lemma {:induction false} FileImports(reg: Registry, env: Env, s: Progress, lines: seq<Line>)
    requires NonEmptyLines(lines) && TakesImports(reg)
    ensures ConfigAfter(env, ParseLines(reg, Answers(env), s, lines).trace).imports
         == ConfigAfter(env, s.trace).imports + ImportsOf(env, lines)
    decreases |lines|
  {
    if lines == [] {
    } else {
      var next := ParseLine(reg, Answers(env), s, lines[0]);
      LineImports(reg, env, s, lines[0]);
      FileImports(reg, env, next, lines[1..]);
      Assoc(ConfigAfter(env, s.trace).imports, ImportOf(env, lines[0]), ImportsOf(env, lines[1..]));
    }
  }

  // Loading a tree of files

  /** The trace up to and including ImportParser's EndFile, before its loop over the imports. */
  function ReadFile(reg: Registry, env: Env, trace: seq<Event>, data: string): seq<Event> {
    ClosedTrace(reg, env, trace, data) + [EndFile("driver")] + [EndFile("import")]
  }

  /** ParseConfig */
  ghost function Load(reg: Registry, env: Env, rank: string -> nat, trace: seq<Event>, path: string): seq<Event>
    requires Acyclic(env, rank)
    decreases rank(path), 2, 0
  {
    if path in env.dirs then LoadDir(reg, env, rank, trace, env.dirs[path], rank(path))
    else LoadFile(reg, env, rank, trace, path)
  }

  /** ParseConfigFile: an unreadable file is only logged. */
  ghost function LoadFile(reg: Registry, env: Env, rank: string -> nat, trace: seq<Event>, path: string): seq<Event>
    requires Acyclic(env, rank)
    decreases rank(path), 1, 0
  {
    if path !in env.files then trace
    else
      var imports := ImportsOf(env, FileLines(env.files[path]));
      LoadAll(reg, env, rank, ReadFile(reg, env, trace, env.files[path]), imports, rank(path)) + [EndFile("subsystem")]
  }

  /** The loop of ImportParser::EndFile. */
  ghost function LoadAll(reg: Registry, env: Env, rank: string -> nat,
                         trace: seq<Event>, paths: seq<string>, bound: nat): seq<Event>
    requires Acyclic(env, rank) && forall p :: p in paths ==> rank(p) < bound
    decreases bound, 0, |paths|
  {
    if paths == [] then trace
    else LoadAll(reg, env, rank, Load(reg, env, rank, trace, paths[0]), paths[1..], bound)
  }

  ghost function LoadDir(reg: Registry, env: Env, rank: string -> nat,
                         trace: seq<Event>, paths: seq<string>, bound: nat): seq<Event>
    requires Acyclic(env, rank) && forall p :: p in paths ==> rank(p) < bound
    decreases bound, 0, |paths|
  {
    if paths == [] then trace
    else LoadDir(reg, env, rank, LoadFile(reg, env, rank, trace, paths[0]), paths[1..], bound)
  }

  /** Files to import are loaded in turn, each with everything it imports before the next. */
  lemma {:induction false} ImportsInTurn(reg: Registry, env: Env, rank: string -> nat, trace: seq<Event>,
                                         a: seq<string>, b: seq<string>, bound: nat)
    requires Acyclic(env, rank) && forall p :: p in a || p in b ==> rank(p) < bound
    ensures LoadAll(reg, env, rank, trace, a + b, bound)
         == LoadAll(reg, env, rank, LoadAll(reg, env, rank, trace, a, bound), b, bound)
    ensures a != [] ==> LoadAll(reg, env, rank, trace, [a[0]], bound) == Load(reg, env, rank, trace, a[0])
    decreases |a|
  {
    if a == [] {
      assert a + b == b;
    } else {
      assert (a + b)[1..] == a[1..] + b && [a[0]][1..] == [];
      ImportsInTurn(reg, env, rank, Load(reg, env, rank, trace, a[0]), a[1..], b, bound);
    }
  }

  // Invariants

  predicate DistinctNames(list: seq<Subsystem>) {
    forall i, j :: 0 <= i < j < |list| ==> list[i].name != list[j].name
  }

  predicate Absolute(s: Subsystem) {
    s.dirName != "" && s.dirName[0] == '/'
  }

  predicate SectionsValid(s: Sections, open: bool) {
    && DistinctNames(s.committed)
    && (forall i :: 0 <= i < |s.committed| ==> Absolute(s.committed[i]))
    && Absolute(s.current)
    && (open ==> !Named(s.committed, s.current.name))
  }

  /** The committed lists, and the section that is open: its name is still free. */
  predicate ConfigValid(c: Config, open: Option<string>) {
    SectionsValid(c.subsystems, open == Some("subsystem")) && SectionsValid(c.drivers, open == Some("driver"))
  }

  /** Between files: no section open and no failure pending. */
  predicate Quiet(env: Env, trace: seq<Event>) {
    var ok := Answers(env);
    Disciplined(ok, 0, trace) && OpenAfter(ok, trace) == None && !FailedSection(ok, trace)
  }

  /** And nothing waiting to be imported. */
  predicate Settled(env: Env, trace: seq<Event>) {
    Quiet(env, trace) && ConfigAfter(env, trace).imports == []
  }

  lemma {:induction false} DisciplineKeepsConfigValid(env: Env, trace: seq<Event>)
    requires Disciplined(Answers(env), 0, trace)
    ensures ConfigValid(ConfigAfter(env, trace), OpenAfter(Answers(env), trace))
    decreases |trace|
  {
    if trace == [] {
    } else {
      var ok := Answers(env);
      var before, e := trace[..|trace| - 1], trace[|trace| - 1];
      DisciplinedPrefix(ok, trace);
      DisciplineKeepsConfigValid(env, before);
      SnocKeepsConfigValid(env, before, e);
      assert trace == before + [e];
    }
  }

  lemma SnocKeepsConfigValid(env: Env, before: seq<Event>, e: Event)
    requires MayFollow(Answers(env), before, e)
    requires ConfigValid(ConfigAfter(env, before), OpenAfter(Answers(env), before))
    ensures ConfigValid(ConfigAfter(env, before + [e]), OpenAfter(Answers(env), before + [e]))
  {
    ConfigAppend(env, before, e);
    StepKeepsConfigValid(env, before, e);
  }

  lemma DisciplinedPrefix(ok: Verdict, trace: seq<Event>)
    requires trace != [] && Disciplined(ok, 0, trace)
    ensures var before := trace[..|trace| - 1];
            Disciplined(ok, 0, before) && MayFollow(ok, before, trace[|trace| - 1])
  {
    var before := trace[..|trace| - 1];
    forall k | 0 <= k < |before| ensures MayFollow(ok, before[..k], before[k]) {
      assert before[..k] == trace[..k];
    }
  }

  lemma StartKeepsValid(s: Sections, args: seq<string>, open: bool)
    requires SectionsValid(s, open)
    ensures var r := StartSection(s, args);
            if r.Some? then SectionsValid(r.value, true) else SectionsValid(s, false)
  {
  }

  lemma LineKeepsValid(s: Sections, args: seq<string>, open: bool)
    requires SectionsValid(s, open)
    ensures SectionLine(s, args).Some? ==> SectionsValid(SectionLine(s, args).value, open)
  {
  }

  lemma CommitKeepsValid(s: Sections)
    requires SectionsValid(s, true)
    ensures SectionsValid(CommitSection(s), false)
  {
  }

  lemma OpenAfterAppend(ok: Verdict, before: seq<Event>, e: Event)
    ensures OpenAfter(ok, before + [e]) ==
              match e
              case ParseSection(name, _, _) => if ok(before + [e]) then Some(name) else None
              case ParseLineSection(_, _, _) => OpenAfter(ok, before)
              case _ => None
  {
    assert (before + [e])[..|before|] == before;
  }

  lemma AnswerKeepsValid(env: Env, c: Config, e: Event, open: Option<string>)
    requires ConfigValid(c, open)
    requires e.ParseLineSection? || e.EndSection? ==> open == Some(e.name)
    requires !e.ParseLineSection? && !e.EndSection? ==> open == None
    ensures var r := Answer(env, c, e);
            ConfigValid(if r.Some? then r.value else c,
              if e.ParseLineSection? then open else if e.ParseSection? && r.Some? then Some(e.name) else None)
  {
    match e
    case ParseSection(name, args, _) =>
      StartKeepsValid(c.subsystems, args, false);
      StartKeepsValid(c.drivers, args, false);
    case ParseLineSection(name, args, _) =>
      LineKeepsValid(c.subsystems, args, name == "subsystem");
      LineKeepsValid(c.drivers, args, name == "driver");
    case EndSection(name) =>
      if name == "subsystem" {
        CommitKeepsValid(c.subsystems);
      } else if name == "driver" {
        CommitKeepsValid(c.drivers);
      }
    case _ =>
  }

  lemma StepKeepsConfigValid(env: Env, before: seq<Event>, e: Event)
    requires MayFollow(Answers(env), before, e)
    requires ConfigValid(ConfigAfter(env, before), OpenAfter(Answers(env), before))
    ensures var r := Answer(env, ConfigAfter(env, before), e);
            ConfigValid(if r.Some? then r.value else ConfigAfter(env, before), OpenAfter(Answers(env), before + [e]))
  {
    ConfigAppend(env, before, e);
    OpenAfterAppend(Answers(env), before, e);
    AnswerKeepsValid(env, ConfigAfter(env, before), e, OpenAfter(Answers(env), before));
  }

  /** What ParseData leaves before the EndFile calls. */
  function ClosedTrace(reg: Registry, env: Env, trace: seq<Event>, data: string): seq<Event> {
    var ok := Answers(env);
    Close(ok, ParseLines(reg, ok, Progress(None, false, 0, trace), FileLines(data))).trace
  }

  lemma ClosedIsQuiet(reg: Registry, env: Env, trace: seq<Event>, data: string)
    requires Quiet(env, trace)
    ensures Disciplined(Answers(env), 0, ClosedTrace(reg, env, trace, data))
    ensures OpenAfter(Answers(env), ClosedTrace(reg, env, trace, data)) == None
  {
    var ok := Answers(env);
    var start := Progress(None, false, 0, trace);
    var base := -(ErrorsIn(ok, 0, trace) as int);
    ParseLinesKeeps(reg, ok, 0, base, start, FileLines(data));
    CloseKeeps(ok, 0, base, ParseLines(reg, ok, start, FileLines(data)));
  }

  lemma EndFileKeepsQuiet(env: Env, trace: seq<Event>, name: string)
    requires Disciplined(Answers(env), 0, trace) && OpenAfter(Answers(env), trace) == None
    ensures Quiet(env, trace + [EndFile(name)])
    ensures ConfigAfter(env, trace + [EndFile(name)]).imports
         == if name == "import" then [] else ConfigAfter(env, trace).imports
  {
    Extend(Answers(env), 0, trace, EndFile(name));
    ConfigAppend(env, trace, EndFile(name));
  }

  /** One file up to its imports. */
  lemma ReadFileSettles(reg: Registry, env: Env, trace: seq<Event>, data: string)
    requires Settled(env, trace)
    ensures Settled(env, ReadFile(reg, env, trace, data))
  {
    var closed := ClosedTrace(reg, env, trace, data);
    ClosedIsQuiet(reg, env, trace, data);
    EndFileKeepsQuiet(env, closed, "driver");
    EndFileKeepsQuiet(env, closed + [EndFile("driver")], "import");
  }

  lemma EndFileSettles(env: Env, trace: seq<Event>)
    requires Settled(env, trace)
    ensures Settled(env, trace + [EndFile("subsystem")])
  {
    EndFileKeepsQuiet(env, trace, "subsystem");
  }

  /** Whatever the files hold: every file of the tree is entered and left with no section open, also
      an imported one in the middle of its importer's end. */
  lemma {:induction false} LoadSettles(reg: Registry, env: Env, rank: string -> nat, trace: seq<Event>, path: string)
    requires Acyclic(env, rank) && Settled(env, trace)
    ensures Settled(env, Load(reg, env, rank, trace, path))
    decreases rank(path), 2, 0
  {
    if path in env.dirs {
      LoadDirSettles(reg, env, rank, trace, env.dirs[path], rank(path));
    } else {
      LoadFileSettles(reg, env, rank, trace, path);
    }
  }

  lemma {:induction false} LoadFileSettles(reg: Registry, env: Env, rank: string -> nat,
                                           trace: seq<Event>, path: string)
    requires Acyclic(env, rank) && Settled(env, trace)
    ensures Settled(env, LoadFile(reg, env, rank, trace, path))
    decreases rank(path), 1, 0
  {
    if path in env.files {
      var read := ReadFile(reg, env, trace, env.files[path]);
      ReadFileSettles(reg, env, trace, env.files[path]);
      var imports := ImportsOf(env, FileLines(env.files[path]));
      LoadAllSettles(reg, env, rank, read, imports, rank(path));
      EndFileSettles(env, LoadAll(reg, env, rank, read, imports, rank(path)));
    }
  }

  lemma {:induction false} LoadAllSettles(reg: Registry, env: Env, rank: string -> nat,
                                          trace: seq<Event>, paths: seq<string>, bound: nat)
    requires Acyclic(env, rank) && Settled(env, trace) && forall p :: p in paths ==> rank(p) < bound
    ensures Settled(env, LoadAll(reg, env, rank, trace, paths, bound))
    decreases bound, 0, |paths|
  {
    if paths == [] {
    } else {
      LoadSettles(reg, env, rank, trace, paths[0]);
      LoadAllSettles(reg, env, rank, Load(reg, env, rank, trace, paths[0]), paths[1..], bound);
    }
  }

  lemma {:induction false} LoadDirSettles(reg: Registry, env: Env, rank: string -> nat,
                                          trace: seq<Event>, paths: seq<string>, bound: nat)
    requires Acyclic(env, rank) && Settled(env, trace) && forall p :: p in paths ==> rank(p) < bound
    ensures Settled(env, LoadDir(reg, env, rank, trace, paths, bound))
    decreases bound, 0, |paths|
  {
    if paths == [] {
    } else {
      LoadFileSettles(reg, env, rank, trace, paths[0]);
      LoadDirSettles(reg, env, rank, LoadFile(reg, env, rank, trace, paths[0]), paths[1..], bound);
    }
  }

  /** The imports followed are those the import parser has collected at its EndFile. */
  lemma ImportsAreCollected(reg: Registry, env: Env, trace: seq<Event>, data: string)
    requires Settled(env, trace) && TakesImports(reg)
    ensures ConfigAfter(env, ClosedTrace(reg, env, trace, data) + [EndFile("driver")]).imports
         == ImportsOf(env, FileLines(data))
  {
    var start := Progress(None, false, 0, trace);
    FileImports(reg, env, start, FileLines(data));
    CloseKeepsImports(env, ParseLines(reg, Answers(env), start, FileLines(data)));
    ClosedIsQuiet(reg, env, trace, data);
    EndFileKeepsQuiet(env, ClosedTrace(reg, env, trace, data), "driver");
  }

  ghost function LoadConfigs(reg: Registry, env: Env, rank: string -> nat,
                             trace: seq<Event>, configs: seq<string>): seq<Event>
    requires Acyclic(env, rank)
    decreases |configs|
  {
    if configs == [] then trace
    else LoadConfigs(reg, env, rank, Load(reg, env, rank, trace, configs[0]), configs[1..])
  }

  lemma {:induction false} LoadConfigsSettles(reg: Registry, env: Env, rank: string -> nat,
                                              trace: seq<Event>, configs: seq<string>)
    requires Acyclic(env, rank) && Settled(env, trace)
    ensures Settled(env, LoadConfigs(reg, env, rank, trace, configs))
    decreases |configs|
  {
    if configs == [] {
    } else {
      LoadSettles(reg, env, rank, trace, configs[0]);
      LoadConfigsSettles(reg, env, rank, Load(reg, env, rank, trace, configs[0]), configs[1..]);
    }
  }

  /** For every input and every acyclic import tree: the subsystem list and the driver list have
      pairwise distinct names and absolute directories. */
  lemma ParsedConfigIsValid(env: Env, rank: string -> nat, configs: seq<string>)
    requires Acyclic(env, rank)
    ensures var c := ConfigAfter(env, LoadConfigs(REGISTRY, env, rank, [], configs));
            && DistinctNames(c.subsystems.committed) && DistinctNames(c.drivers.committed)
            && (forall i :: 0 <= i < |c.subsystems.committed| ==> Absolute(c.subsystems.committed[i]))
            && (forall i :: 0 <= i < |c.drivers.committed| ==> Absolute(c.drivers.committed[i]))
  {
    LoadConfigsSettles(REGISTRY, env, rank, [], configs);
    DisciplineKeepsConfigValid(env, LoadConfigs(REGISTRY, env, rank, [], configs));
  }
}
