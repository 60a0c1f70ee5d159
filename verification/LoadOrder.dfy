/** Loading a tree of files, flattened: which files are read, in which order, and where each one ends. */
module LoadOrder {
  import opened Wrappers
  import opened Sequences
  import opened ParserSpec
  import opened UeventdConfigs

  /** One thing to do: read the lines of a file, or end a file for one of the section parsers. */
  datatype Item = Read(path: string) | End(name: string)

  /** A file is read, ended for drivers and for imports, followed by the files it imports, in the order of its
      import lines and each with everything it imports, and then ended for subsystems. */
  ghost function FileScript(env: Env, rank: string -> nat, path: string): seq<Item>
    requires Acyclic(env, rank)
    decreases rank(path), 1, 0
  {
    if path !in env.files then []
    else
      [Read(path), End("driver"), End("import")]
      + ScriptAll(env, rank, ImportsOf(env, FileLines(env.files[path])), rank(path))
      + [End("subsystem")]
  }

  /** A directory is the files in it. */
  ghost function Script(env: Env, rank: string -> nat, path: string): seq<Item>
    requires Acyclic(env, rank)
    decreases rank(path), 2, 0
  {
    if path in env.dirs then FilesScript(env, rank, env.dirs[path], rank(path)) else FileScript(env, rank, path)
  }

  ghost function ScriptAll(env: Env, rank: string -> nat, paths: seq<string>, bound: nat): seq<Item>
    requires Acyclic(env, rank) && forall p :: p in paths ==> rank(p) < bound
    decreases bound, 0, |paths|
  {
    if paths == [] then [] else Script(env, rank, paths[0]) + ScriptAll(env, rank, paths[1..], bound)
  }

  ghost function FilesScript(env: Env, rank: string -> nat, paths: seq<string>, bound: nat): seq<Item>
    requires Acyclic(env, rank) && forall p :: p in paths ==> rank(p) < bound
    decreases bound, 0, |paths|
  {
    if paths == [] then [] else FileScript(env, rank, paths[0]) + FilesScript(env, rank, paths[1..], bound)
  }

  function Do(reg: Registry, env: Env, trace: seq<Event>, item: Item): seq<Event> {
    match item
    case Read(path) => if path in env.files then ClosedTrace(reg, env, trace, env.files[path]) else trace
    case End(name) => trace + [EndFile(name)]
  }

  /** The items one after the other. */
  function Run(reg: Registry, env: Env, trace: seq<Event>, items: seq<Item>): seq<Event>
    decreases |items|
  {
    if items == [] then trace else Run(reg, env, Do(reg, env, trace, items[0]), items[1..])
  }

  lemma {:induction false} RunParts(reg: Registry, env: Env, trace: seq<Event>, a: seq<Item>, b: seq<Item>)
    ensures Run(reg, env, trace, a + b) == Run(reg, env, Run(reg, env, trace, a), b)
    decreases |a|
  {
    if a == [] {
      assert a + b == b;
    } else {
      RunParts(reg, env, Do(reg, env, trace, a[0]), a[1..], b);
      assert (a + b)[1..] == a[1..] + b;
    }
  }

  lemma RunOne(reg: Registry, env: Env, trace: seq<Event>, item: Item)
    ensures Run(reg, env, trace, [item]) == Do(reg, env, trace, item)
  {
    assert [item][1..] == [];
  }

  lemma RunFileStart(reg: Registry, env: Env, trace: seq<Event>, path: string)
    requires path in env.files
    ensures Run(reg, env, trace, [Read(path), End("driver"), End("import")])
         == ReadFile(reg, env, trace, env.files[path])
  {
    assert [Read(path), End("driver"), End("import")] == [Read(path)] + ([End("driver")] + [End("import")]);
    RunParts(reg, env, trace, [Read(path)], [End("driver")] + [End("import")]);
    var read := ClosedTrace(reg, env, trace, env.files[path]);
    RunOne(reg, env, trace, Read(path));
    RunParts(reg, env, read, [End("driver")], [End("import")]);
    RunOne(reg, env, read, End("driver"));
    RunOne(reg, env, read + [EndFile("driver")], End("import"));
  }

  // Loading is running the script

  /** The nested loading makes exactly the calls of the flat script. */
  lemma {:induction false} LoadRunsScript(reg: Registry, env: Env, rank: string -> nat, trace: seq<Event>, path: string)
    requires Acyclic(env, rank)
    ensures Load(reg, env, rank, trace, path) == Run(reg, env, trace, Script(env, rank, path))
    decreases rank(path), 2, 0
  {
    if path in env.dirs {
      FilesRunScript(reg, env, rank, trace, env.dirs[path], rank(path));
    } else {
      FileRunsScript(reg, env, rank, trace, path);
    }
  }

  lemma {:induction false} FileRunsScript(reg: Registry, env: Env, rank: string -> nat, trace: seq<Event>, path: string)
    requires Acyclic(env, rank)
    ensures LoadFile(reg, env, rank, trace, path) == Run(reg, env, trace, FileScript(env, rank, path))
    decreases rank(path), 1, 0
  {
    if path !in env.files {
    } else {
      var imports := ImportsOf(env, FileLines(env.files[path]));
      var read := ReadFile(reg, env, trace, env.files[path]);
      RunFileStart(reg, env, trace, path);
      ImportsRunScript(reg, env, rank, read, imports, rank(path));
      RunThree(reg, env, trace, [Read(path), End("driver"), End("import")], ScriptAll(env, rank, imports, rank(path)),
        End("subsystem"));
    }
  }

  lemma RunThree(reg: Registry, env: Env, trace: seq<Event>, head: seq<Item>, middle: seq<Item>, last: Item)
    ensures Run(reg, env, trace, head + middle + [last])
         == Do(reg, env, Run(reg, env, Run(reg, env, trace, head), middle), last)
  {
    RunParts(reg, env, trace, head + middle, [last]);
    RunParts(reg, env, trace, head, middle);
    RunOne(reg, env, Run(reg, env, trace, head + middle), last);
  }

  lemma {:induction false} ImportsRunScript(reg: Registry, env: Env, rank: string -> nat, trace: seq<Event>,
                                            paths: seq<string>, bound: nat)
    requires Acyclic(env, rank) && forall p :: p in paths ==> rank(p) < bound
    ensures LoadAll(reg, env, rank, trace, paths, bound) == Run(reg, env, trace, ScriptAll(env, rank, paths, bound))
    decreases bound, 0, |paths|
  {
    if paths == [] {
    } else {
      var next := Load(reg, env, rank, trace, paths[0]);
      LoadRunsScript(reg, env, rank, trace, paths[0]);
      ImportsRunScript(reg, env, rank, next, paths[1..], bound);
      RunParts(reg, env, trace, Script(env, rank, paths[0]), ScriptAll(env, rank, paths[1..], bound));
    }
  }

  lemma {:induction false} FilesRunScript(reg: Registry, env: Env, rank: string -> nat, trace: seq<Event>,
                                          paths: seq<string>, bound: nat)
    requires Acyclic(env, rank) && forall p :: p in paths ==> rank(p) < bound
    ensures LoadDir(reg, env, rank, trace, paths, bound) == Run(reg, env, trace, FilesScript(env, rank, paths, bound))
    decreases bound, 0, |paths|
  {
    if paths == [] {
    } else {
      var next := LoadFile(reg, env, rank, trace, paths[0]);
      FileRunsScript(reg, env, rank, trace, paths[0]);
      FilesRunScript(reg, env, rank, next, paths[1..], bound);
      RunParts(reg, env, trace, FileScript(env, rank, paths[0]), FilesScript(env, rank, paths[1..], bound));
    }
  }

  // Every import is read

  predicate Reads(items: seq<Item>, path: string) {
    Read(path) in items
  }

  lemma ReadsItself(env: Env, rank: string -> nat, path: string)
    requires Acyclic(env, rank) && path in env.files
    ensures Reads(FileScript(env, rank, path), path)
  {
    assert FileScript(env, rank, path)[0] == Read(path);
  }

  /** Whatever a file imports is read when it is, if it can be. */
  lemma {:induction false} ImportsAreRead(env: Env, rank: string -> nat, paths: seq<string>, bound: nat, path: string)
    requires Acyclic(env, rank) && forall p :: p in paths ==> rank(p) < bound
    requires path in paths && path in env.files && path !in env.dirs
    ensures Reads(ScriptAll(env, rank, paths, bound), path)
    decreases |paths|
  {
    if path == paths[0] {
      ReadsItself(env, rank, path);
      assert Script(env, rank, path) == FileScript(env, rank, path);
    } else {
      ImportsAreRead(env, rank, paths[1..], bound, path);
    }
  }

  lemma FileReadsItsImports(env: Env, rank: string -> nat, file: string, path: string)
    requires Acyclic(env, rank) && file in env.files && path in ImportsOf(env, FileLines(env.files[file]))
    requires path in env.files && path !in env.dirs
    ensures Reads(FileScript(env, rank, file), path)
  {
    ImportsAreRead(env, rank, ImportsOf(env, FileLines(env.files[file])), rank(file), path);
  }
}
