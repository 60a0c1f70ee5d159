/** What ends up in the configuration's lists of subsystems and drivers: one entry for each section that was
    started, made of its name and the last valid line for each of its two keywords. */
module ConfigSections {
  import opened Wrappers
  import opened ParserSpec
  import opened SectionTraces
  import opened UeventdParser
  import opened UeventdConfigs

  predicate ListName(name: string) {
    name == "subsystem" || name == "driver"
  }

  /** The list that sections of a name are added to, and the section being read. */
  function ListOf(c: Config, name: string): Sections {
    if name == "subsystem" then c.subsystems else c.drivers
  }

  /** A line of a section that says something. */
  predicate Says(args: seq<string>, keyword: string) {
    && |args| == 2 && args[0] == keyword
    && (keyword == "devname" ==> args[1] in ["uevent_devname", "uevent_devpath", "sys_name"])
    && (keyword == "dirname" ==> args[1] != "" && args[1][0] == '/')
  }

  /** The value of the last such line between i and k. */
  function LastSaid(trace: seq<Event>, keyword: string, i: nat, k: nat): Option<string>
    requires k <= |trace|
    decreases k
  {
    if k <= i + 1 then None
    else if trace[k - 1].ParseLineSection? && Says(trace[k - 1].args, keyword) then Some(trace[k - 1].args[1])
    else LastSaid(trace, keyword, i, k - 1)
  }

  /** What the section started at i has become before k. */
  predicate SectionIs(trace: seq<Event>, i: nat, k: nat, s: Subsystem)
    requires i < k <= |trace|
  {
    && trace[i].ParseSection? && |trace[i].args| == 2 && s.name == trace[i].args[1]
    && (LastSaid(trace, "devname", i, k) in [None, Some("uevent_devname")] <==> s.devname == UeventDevname)
    && (LastSaid(trace, "devname", i, k) == Some("uevent_devpath") <==> s.devname == UeventDevpath)
    && (LastSaid(trace, "devname", i, k) == Some("sys_name") <==> s.devname == SysName)
    && s.dirName == match LastSaid(trace, "dirname", i, k) { case None => "/dev" case Some(dir) => dir }
  }

  lemma StepAt(env: Env, trace: seq<Event>, k: nat)
    requires k < |trace|
    ensures var c := ConfigAfter(env, trace[..k]); var r := Answer(env, c, trace[k]);
            && Answers(env)(trace[..k + 1]) == r.Some?
            && ConfigAfter(env, trace[..k + 1]) == if r.Some? then r.value else c
  {
    ConfigAppend(env, trace[..k], trace[k]);
    assert trace[..k + 1] == trace[..k] + [trace[k]];
  }

  lemma Started(env: Env, trace: seq<Event>, i: nat)
    requires i < |trace| && OpenedSection(Answers(env), trace[..i + 1]) && ListName(trace[i].name)
    ensures SectionIs(trace, i, i + 1, ListOf(ConfigAfter(env, trace[..i + 1]), trace[i].name).current)
  {
    StepAt(env, trace, i);
    assert trace[..i + 1][i] == trace[i];
  }

  lemma LineSaid(s: Sections, args: seq<string>)
    ensures var r := SectionLine(s, args); var t := if r.Some? then r.value else s;
            && t.committed == s.committed && t.current.name == s.current.name
            && t.current.dirName == (if Says(args, "dirname") then args[1] else s.current.dirName)
            && (!Says(args, "devname") ==> t.current.devname == s.current.devname)
            && (Says(args, "devname") ==>
                 && (args[1] == "uevent_devname" <==> t.current.devname == UeventDevname)
                 && (args[1] == "uevent_devpath" <==> t.current.devname == UeventDevpath)
                 && (args[1] == "sys_name" <==> t.current.devname == SysName))
  {
  }

  lemma LineRead(env: Env, trace: seq<Event>, k: nat, name: string)
    requires k < |trace| && ListName(name) && trace[k].ParseLineSection? && trace[k].name == name
    ensures var before := ListOf(ConfigAfter(env, trace[..k]), name);
            var after := ListOf(ConfigAfter(env, trace[..k + 1]), name);
            after == var r := SectionLine(before, trace[k].args); if r.Some? then r.value else before
  {
    StepAt(env, trace, k);
  }

  lemma SectionGrows(trace: seq<Event>, i: nat, k: nat, s: Sections)
    requires i < k < |trace| && SectionIs(trace, i, k, s.current) && trace[k].ParseLineSection?
    ensures var r := SectionLine(s, trace[k].args);
            SectionIs(trace, i, k + 1, (if r.Some? then r.value else s).current)
  {
    LineSaid(s, trace[k].args);
    assert LastSaid(trace, "devname", i, k + 1)
        == if Says(trace[k].args, "devname") then Some(trace[k].args[1]) else LastSaid(trace, "devname", i, k);
    assert LastSaid(trace, "dirname", i, k + 1)
        == if Says(trace[k].args, "dirname") then Some(trace[k].args[1]) else LastSaid(trace, "dirname", i, k);
  }

  datatype Reading = AsSaid | NotAsSaid

  function ReadingAt(env: Env, trace: seq<Event>, i: nat, k: nat, name: string): Reading
    requires i < k <= |trace|
  {
    if SectionIs(trace, i, k, ListOf(ConfigAfter(env, trace[..k]), name).current) then AsSaid else NotAsSaid
  }

  lemma ReadNext(env: Env, trace: seq<Event>, i: nat, k: nat, name: string)
    requires i < k < |trace| && ListName(name) && trace[k].ParseLineSection? && trace[k].name == name
    requires ReadingAt(env, trace, i, k, name) == AsSaid
    ensures ReadingAt(env, trace, i, k + 1, name) == AsSaid
  {
    LineRead(env, trace, k, name);
    SectionGrows(trace, i, k, ListOf(ConfigAfter(env, trace[..k]), name));
  }

  lemma StartedAt(env: Env, trace: seq<Event>, i: nat, k: nat, name: string)
    requires k == i + 1 <= |trace| && OpenedSection(Answers(env), trace[..i + 1])
    requires ListName(name) && trace[i].name == name
    ensures ReadingAt(env, trace, i, k, name) == AsSaid
  {
    Started(env, trace, i);
  }

  lemma OnlyLinesShorter(trace: seq<Event>, name: string, i: nat, k: nat)
    requires i + 1 < k <= |trace| && OnlyLines(trace, name, i, k)
    ensures OnlyLines(trace, name, i, k - 1) && trace[k - 1].ParseLineSection? && trace[k - 1].name == name
  {
  }

  lemma {:induction false} ReadSoFar(env: Env, trace: seq<Event>, i: nat, k: nat, name: string)
    requires i < k <= |trace| && ListName(name) && OnlyLines(trace, name, i, k)
    requires ReadingAt(env, trace, i, i + 1, name) == AsSaid
    ensures ReadingAt(env, trace, i, k, name) == AsSaid
    decreases k
  {
    if k == i + 1 {
    } else {
      OnlyLinesShorter(trace, name, i, k);
      ReadSoFar(env, trace, i, k - 1, name);
      ReadNext(env, trace, i, k - 1, name);
    }
  }

  /** The end of a section adds exactly what its lines have made of it. */
  lemma SectionIsAdded(env: Env, trace: seq<Event>, i: nat, j: nat)
    requires i < j < |trace| && OpenedSection(Answers(env), trace[..i + 1]) && ListName(trace[i].name)
    requires OnlyLines(trace, trace[i].name, i, j) && trace[j] == EndSection(trace[i].name)
    ensures var name := trace[i].name;
            var before := ListOf(ConfigAfter(env, trace[..j]), name);
            var after := ListOf(ConfigAfter(env, trace[..j + 1]), name);
            && |after.committed| == |before.committed| + 1 && before.committed <= after.committed
            && SectionIs(trace, i, j, after.committed[|before.committed|])
  {
    StartedAt(env, trace, i, i + 1, trace[i].name);
    ReadSoFar(env, trace, i, j, trace[i].name);
    StepAt(env, trace, j);
  }

  lemma OtherAnswers(env: Env, c: Config, e: Event, name: string)
    requires ListName(name) && e != EndSection(name) && Answer(env, c, e).Some?
    ensures ListOf(Answer(env, c, e).value, name).committed == ListOf(c, name).committed
  {
  }

  /** And nothing else changes the list. */
  lemma OnlyEndsAdd(env: Env, trace: seq<Event>, k: nat, name: string)
    requires k < |trace| && ListName(name) && trace[k] != EndSection(name)
    ensures ListOf(ConfigAfter(env, trace[..k + 1]), name).committed
         == ListOf(ConfigAfter(env, trace[..k]), name).committed
  {
    StepAt(env, trace, k);
    var c := ConfigAfter(env, trace[..k]);
    if Answer(env, c, trace[k]).Some? {
      OtherAnswers(env, c, trace[k], name);
    }
  }

  function Remembered(e: Event, accepted: bool): seq<SingleLine> {
    if e.LineCallback? && accepted then [SingleLine(e.prefix, e.args)] else []
  }

  lemma AnswerLines(env: Env, c: Config, e: Event)
    ensures var r := Answer(env, c, e); (if r.Some? then r.value else c).lines == c.lines + Remembered(e, r.Some?)
  {
    assert c.lines + [] == c.lines;
  }

  /** Each line that a single-line parser accepts is remembered, and nothing else is. */
  lemma AcceptedLines(env: Env, trace: seq<Event>, k: nat)
    requires k < |trace|
    ensures ConfigAfter(env, trace[..k + 1]).lines
         == ConfigAfter(env, trace[..k]).lines + Remembered(trace[k], Answers(env)(trace[..k + 1]))
  {
    StepAt(env, trace, k);
    AnswerLines(env, ConfigAfter(env, trace[..k]), trace[k]);
  }
}
