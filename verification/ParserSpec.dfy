/** What parsing a file means line by line: the calls it makes, in order, to line callbacks and
    section parsers.  What a call answers may depend on everything called before it. */
module ParserSpec {
  import opened Wrappers
  import opened TokenizerSpec

  /** Prefixes are tried in order of registration, section names are kept sorted. */
  datatype Registry = Registry(prefixes: seq<string>, sections: seq<string>)

  /** A call, or for Orphan the error logged for a line that nobody takes. */
  datatype Event =
    | LineCallback(prefix: nat, args: seq<string>)
    | ParseSection(name: string, args: seq<string>, line: nat)
    | ParseLineSection(name: string, args: seq<string>, line: nat)
    | EndSection(name: string)
    | EndFile(name: string)
    | Orphan(line: nat)

  /** Whether the last call of a trace succeeded. */
  type Verdict = seq<Event> -> bool

  datatype Progress = Progress(open: Option<string>, bad: bool, errors: nat, trace: seq<Event>)

  predicate CanFail(e: Event) {
    !e.EndFile? && !e.Orphan?
  }

  function Call(ok: Verdict, s: Progress, e: Event): Progress {
    var trace := s.trace + [e];
    s.(trace := trace, errors := s.errors + if CanFail(e) && !ok(trace) then 1 else 0)
  }

  function Close(ok: Verdict, s: Progress): Progress {
    var t := s.(bad := false);
    match s.open
    case None => t
    case Some(name) => Call(ok, t, EndSection(name)).(open := None)
  }

  /** The first registered prefix of a word. */
  function FindPrefix(prefixes: seq<string>, word: string): (r: Option<nat>)
    ensures r.Some? ==> r.value < |prefixes| && prefixes[r.value] <= word
    ensures r.Some? ==> forall i :: 0 <= i < r.value ==> !(prefixes[i] <= word)
    ensures r.None? ==> forall i :: 0 <= i < |prefixes| ==> !(prefixes[i] <= word)
  {
    if prefixes == [] then None
    else if prefixes[0] <= word then Some(0)
    else
      var rest := FindPrefix(prefixes[1..], word);
      assert forall i :: 0 < i < |prefixes| ==> prefixes[i] == prefixes[1..][i - 1];
      if rest.Some? then Some(rest.value + 1) else None
  }

  function ParseLine(reg: Registry, ok: Verdict, s: Progress, line: Line): Progress
    requires line.args != []
  {
    var word := line.args[0];
    var prefix := FindPrefix(reg.prefixes, word);
    if prefix.Some? then Call(ok, Close(ok, s), LineCallback(prefix.value, line.args))
    else if word in reg.sections then
      var t := Call(ok, Close(ok, s), ParseSection(word, line.args, line.number));
      if ok(t.trace) then t.(open := Some(word)) else t.(bad := true)
    else if s.open.Some? then Call(ok, s, ParseLineSection(s.open.value, line.args, line.number))
    else if !s.bad then s.(errors := s.errors + 1, trace := s.trace + [Orphan(line.number)])
    else s
  }

  predicate NonEmptyLines(lines: seq<Line>) {
    forall i :: 0 <= i < |lines| ==> lines[i].args != []
  }

  function ParseLines(reg: Registry, ok: Verdict, s: Progress, lines: seq<Line>): Progress
    requires NonEmptyLines(lines)
    decreases |lines|
  {
    if lines == [] then s else ParseLines(reg, ok, ParseLine(reg, ok, s, lines[0]), lines[1..])
  }

  function EndFiles(sections: seq<string>): seq<Event> {
    if sections == [] then [] else [EndFile(sections[0])] + EndFiles(sections[1..])
  }

  function FinishFile(reg: Registry, ok: Verdict, s: Progress): Progress {
    var t := Close(ok, s);
    t.(trace := t.trace + EndFiles(reg.sections))
  }

  lemma {:induction false} LinesNonEmpty(src: string, x: nat, owed: bool, number: nat, args: seq<string>)
    requires Terminated(src) && x < |src|
    ensures NonEmptyLines(Lines(src, x, owed, number, args))
    decreases Remaining(src, x, owed)
  {
    if owed {
      LinesNonEmpty(src, x, false, number + 1, []);
    } else {
      var r := Lex(src, x);
      match r.token
      case Eof =>
      case Newline => LinesNonEmpty(src, r.next, r.newline, number + 1, []);
      case Text(word) => LinesNonEmpty(src, r.next, r.newline, number + r.lines, args + [word]);
    }
  }

  /** The lines of one file, with the last section closed. */
  function ReadLines(reg: Registry, ok: Verdict, errors: nat, trace: seq<Event>, src: string): Progress
    requires Terminated(src)
  {
    LinesNonEmpty(src, 0, false, 0, []);
    Close(ok, ParseLines(reg, ok, Progress(None, false, errors, trace), Lines(src, 0, false, 0, [])))
  }

  /** Everything one call of ParseData does when no EndFile calls back into the parser. */
  function ParseFile(reg: Registry, ok: Verdict, errors: nat, trace: seq<Event>, src: string): Progress
    requires Terminated(src)
  {
    LinesNonEmpty(src, 0, false, 0, []);
    FinishFile(reg, ok, ParseLines(reg, ok, Progress(None, false, errors, trace), Lines(src, 0, false, 0, [])))
  }
}
