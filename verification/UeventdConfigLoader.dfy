/** ParseConfig as it runs: one parser object that ImportParser::EndFile calls back into. */
module UeventdConfigLoader {
  import opened Wrappers
  import opened SortedNames
  import opened TokenizerSpec
  import opened ParserSpec
  import opened Parsers
  import opened UeventdParser
  import opened UeventdConfigs

  lemma {:induction false} ErrorsAside(reg: Registry, ok: Verdict, s: Progress, t: Progress, lines: seq<Line>)
    requires NonEmptyLines(lines) && t == s.(errors := t.errors)
    ensures var p, q := ParseLines(reg, ok, s, lines), ParseLines(reg, ok, t, lines); q == p.(errors := q.errors)
    decreases |lines|
  {
    if lines == [] {
    } else {
      ErrorsAside(reg, ok, ParseLine(reg, ok, s, lines[0]), ParseLine(reg, ok, t, lines[0]), lines[1..]);
    }
  }

  /** What a file adds to the trace does not depend on the errors counted before. */
  lemma ReadTrace(reg: Registry, ok: Verdict, errors: nat, trace: seq<Event>, data: string)
    ensures ReadLines(reg, ok, errors, trace, data + "\n\0").trace
         == Close(ok, ParseLines(reg, ok, Progress(None, false, 0, trace), FileLines(data))).trace
  {
    ErrorsAside(reg, ok, Progress(None, false, 0, trace), Progress(None, false, errors, trace), FileLines(data));
  }

  datatype Place = BetweenFiles | InsideFile

  /** Where in a run a trace ends. */
  ghost function PlaceOf(env: Env, trace: seq<Event>): Place {
    if Settled(env, trace) then BetweenFiles else InsideFile
  }

  lemma FileStep(reg: Registry, env: Env, errors: nat, trace: seq<Event>, data: string)
    requires PlaceOf(env, trace) == BetweenFiles && TakesImports(reg)
    ensures PlaceOf(env, ReadFile(reg, env, trace, data)) == BetweenFiles
    ensures ReadLines(reg, Answers(env), errors, trace, data + "\n\0").trace == ClosedTrace(reg, env, trace, data)
    ensures ConfigAfter(env, ClosedTrace(reg, env, trace, data) + [EndFile("driver")]).imports
         == ImportsOf(env, FileLines(data))
  {
    ReadTrace(reg, Answers(env), errors, trace, data);
    ReadFileSettles(reg, env, trace, data);
    ImportsAreCollected(reg, env, trace, data);
  }

  lemma SubsystemStep(env: Env, trace: seq<Event>)
    requires PlaceOf(env, trace) == BetweenFiles
    ensures PlaceOf(env, trace + [EndFile("subsystem")]) == BetweenFiles
  {
    EndFileSettles(env, trace);
  }

  lemma SectionsSorted()
    ensures Sorted(SECTIONS)
  {
    assert SECTIONS == ["driver", "import", "subsystem"];
  }

  /** In the order of the program, which is not that of the map. */
  method RegisterSections(parser: Parser)
    requires parser.sectionParsers == []
    modifies parser`sectionParsers
    ensures parser.sectionParsers == SECTIONS
  {
    parser.AddSectionParser("import");
    parser.AddSectionParser("subsystem");
    parser.AddSectionParser("driver");
    SectionsSorted();
    SortedUnique(parser.sectionParsers, SECTIONS);
  }

  method RegisterLines(parser: Parser)
    requires parser.lineCallbacks == []
    modifies parser`lineCallbacks
    ensures parser.lineCallbacks == PREFIXES
  {
    parser.AddSingleLineParser("/sys/");
    parser.AddSingleLineParser("/dev/");
    parser.AddSingleLineParser("firmware_directories");
    parser.AddSingleLineParser("external_firmware_handler");
    parser.AddSingleLineParser("modalias_handling");
    parser.AddSingleLineParser("uevent_socket_rcvbuf_size");
    parser.AddSingleLineParser("parallel_ueventd_main_loop_max_workers");
    parser.AddSingleLineParser("parallel_ueventd_main_loop");
  }

  class ConfigLoader {
    const env: Env
    ghost const reg: Registry
    const parser: Parser
    const importParser: ImportParser

    constructor (e: Env)
      ensures env == e && fresh(parser) && fresh(importParser) && parser.calls == []
      ensures parser.Reg() == reg == REGISTRY && TakesImports(reg)
    {
      env, reg := e, REGISTRY;
      parser := new Parser();
      importParser := new ImportParser();
      new;
      RegisterSections(parser);
      RegisterLines(parser);
      RegistryTakesImports();
    }

    ghost predicate Ready()
      reads parser`calls
    {
      PlaceOf(env, parser.calls) == BetweenFiles
    }

    method ParseConfig(path: string, ghost rank: string -> nat)
      requires parser.Reg() == reg && TakesImports(reg) && Acyclic(env, rank) && Ready()
      modifies parser`calls, parser`parseErrorCount, importParser
      ensures Ready() && parser.calls == Load(reg, env, rank, old(parser.calls), path)
      decreases rank(path), 2, 0
    {
      if path in env.dirs {
        ParseConfigDir(env.dirs[path], rank, rank(path));
      } else {
        ParseConfigFile(path, rank);
      }
    }

    /** The regular files of a directory, sorted. */
    method ParseConfigDir(paths: seq<string>, ghost rank: string -> nat, ghost bound: nat)
      requires parser.Reg() == reg && TakesImports(reg) && Acyclic(env, rank) && Ready()
      requires forall p :: p in paths ==> rank(p) < bound
      modifies parser`calls, parser`parseErrorCount, importParser
      ensures Ready() && parser.calls == LoadDir(reg, env, rank, old(parser.calls), paths, bound)
      decreases bound, 0, |paths|
    {
      var i := 0;
      while i < |paths|
        invariant 0 <= i <= |paths| && Ready()
        invariant LoadDir(reg, env, rank, parser.calls, paths[i..], bound)
               == LoadDir(reg, env, rank, old(parser.calls), paths, bound)
      {
        assert paths[i..][1..] == paths[i + 1..];
        ParseConfigFile(paths[i], rank);
        i := i + 1;
      }
    }

    method ParseConfigFile(path: string, ghost rank: string -> nat)
      requires parser.Reg() == reg && TakesImports(reg) && Acyclic(env, rank) && Ready()
      modifies parser`calls, parser`parseErrorCount, importParser
      ensures Ready() && parser.calls == LoadFile(reg, env, rank, old(parser.calls), path)
      decreases rank(path), 1, 0
    {
      if path !in env.files {
        return;
      }
      ParseFileText(env.files[path]);
      EndImports(rank, rank(path));
      SubsystemStep(env, parser.calls);
      parser.calls := parser.calls + [EndFile("subsystem")];
    }

    /** Up to ImportParser::EndFile; the import parser then holds what its ParseSection has collected. */
    method ParseFileText(data: string)
      requires parser.Reg() == reg && TakesImports(reg) && Ready()
      modifies parser`calls, parser`parseErrorCount, importParser
      ensures Ready() && parser.calls == ReadFile(reg, env, old(parser.calls), data)
      ensures importParser.imports == ImportsOf(env, FileLines(data))
    {
      FileStep(reg, env, parser.parseErrorCount, parser.calls, data);
      parser.ReadData(Answers(env), data);
      parser.calls := parser.calls + [EndFile("driver")];
      importParser.imports := ConfigAfter(env, parser.calls).imports;
      parser.calls := parser.calls + [EndFile("import")];
    }

    /** ImportParser::EndFile */
    method EndImports(ghost rank: string -> nat, ghost bound: nat)
      requires parser.Reg() == reg && TakesImports(reg) && Acyclic(env, rank) && Ready()
      requires forall p :: p in importParser.imports ==> rank(p) < bound
      modifies parser`calls, parser`parseErrorCount, importParser
      ensures Ready() && parser.calls == LoadAll(reg, env, rank, old(parser.calls), old(importParser.imports), bound)
      decreases bound, 0, 0
    {
      var current := importParser.TakeImports();
      var i := 0;
      while i < |current|
        invariant 0 <= i <= |current| && Ready()
        invariant LoadAll(reg, env, rank, parser.calls, current[i..], bound)
               == LoadAll(reg, env, rank, old(parser.calls), current, bound)
      {
        assert current[i..][1..] == current[i + 1..];
        ParseConfig(current[i], rank);
        i := i + 1;
      }
    }

    /** The loop over the configuration paths; what it leaves is a valid configuration. */
    method ParseConfigs(configs: seq<string>, ghost rank: string -> nat)
      requires parser.Reg() == reg && TakesImports(reg) && Acyclic(env, rank) && Ready()
      modifies parser`calls, parser`parseErrorCount, importParser
      ensures Ready() && parser.calls == LoadConfigs(reg, env, rank, old(parser.calls), configs)
    {
      var i := 0;
      while i < |configs|
        invariant 0 <= i <= |configs| && Ready()
        invariant LoadConfigs(reg, env, rank, parser.calls, configs[i..])
               == LoadConfigs(reg, env, rank, old(parser.calls), configs)
      {
        assert configs[i..][1..] == configs[i + 1..];
        ParseConfig(configs[i], rank);
        i := i + 1;
      }
    }
  }
}
