/** Which traces ParseData can produce: sections are bracketed, and every error is counted once. */
module SectionTraces {
  import opened Wrappers
  import opened TokenizerSpec
  import opened ParserSpec

  predicate FailedSection(ok: Verdict, trace: seq<Event>) {
    trace != [] && trace[|trace| - 1].ParseSection? && !ok(trace)
  }

  predicate OpenedSection(ok: Verdict, trace: seq<Event>) {
    trace != [] && trace[|trace| - 1].ParseSection? && ok(trace)
  }

  /** The section that is open after a trace: the last one that started successfully, if only its own
      lines followed. */
  function OpenAfter(ok: Verdict, trace: seq<Event>): Option<string> {
    if trace == [] then None
    else
      match trace[|trace| - 1]
      case ParseSection(name, _, _) => if ok(trace) then Some(name) else None
      case ParseLineSection(_, _, _) => OpenAfter(ok, trace[..|trace| - 1])
      case _ => None
  }

  /** What may follow a trace. */
  predicate MayFollow(ok: Verdict, trace: seq<Event>, e: Event) {
    match e
    case EndSection(name) => OpenAfter(ok, trace) == Some(name)
    case ParseLineSection(name, _, _) => OpenAfter(ok, trace) == Some(name)
    case Orphan(_) => OpenAfter(ok, trace) == None && !FailedSection(ok, trace)
    case _ => OpenAfter(ok, trace) == None
  }

  /** Every event after the first `from` may follow what comes before it. */
  predicate Disciplined(ok: Verdict, from: nat, trace: seq<Event>) {
    forall k :: from <= k < |trace| ==> MayFollow(ok, trace[..k], trace[k])
  }

  /** Errors: failed calls and reported orphan lines. */
  function ErrorsIn(ok: Verdict, from: nat, trace: seq<Event>): nat
    decreases |trace|
  {
    if |trace| <= from then 0
    else
      var last := trace[|trace| - 1];
      ErrorsIn(ok, from, trace[..|trace| - 1])
      + if last.Orphan? || (CanFail(last) && !ok(trace)) then 1 else 0
  }

  ghost predicate TraceInv(ok: Verdict, from: nat, base: int, s: Progress) {
    && from <= |s.trace|
    && Disciplined(ok, from, s.trace)
    && s.open == OpenAfter(ok, s.trace)
    && (s.bad <==> FailedSection(ok, s.trace))
    && s.errors == base + ErrorsIn(ok, from, s.trace)
  }

  lemma Extend(ok: Verdict, from: nat, trace: seq<Event>, e: Event)
    requires from <= |trace| && Disciplined(ok, from, trace) && MayFollow(ok, trace, e)
    ensures Disciplined(ok, from, trace + [e])
    ensures ErrorsIn(ok, from, trace + [e])
         == ErrorsIn(ok, from, trace) + if e.Orphan? || (CanFail(e) && !ok(trace + [e])) then 1 else 0
    ensures (trace + [e])[..|trace|] == trace
  {
    var longer := trace + [e];
    assert longer[..|trace|] == trace;
    forall k | from <= k < |longer| ensures MayFollow(ok, longer[..k], longer[k]) {
      if k < |trace| {
        assert longer[..k] == trace[..k];
      }
    }
  }

  lemma CallKeeps(ok: Verdict, from: nat, base: int, s: Progress, e: Event)
    requires TraceInv(ok, from, base, s) && MayFollow(ok, s.trace, e) && CanFail(e)
    ensures var t := Call(ok, s, e);
            && Disciplined(ok, from, t.trace) && t.errors == base + ErrorsIn(ok, from, t.trace)
            && t.trace[..|s.trace|] == s.trace && t.trace[|t.trace| - 1] == e
  {
    Extend(ok, from, s.trace, e);
  }

  lemma CloseKeeps(ok: Verdict, from: nat, base: int, s: Progress)
    requires TraceInv(ok, from, base, s)
    ensures var t := Close(ok, s);
            && Disciplined(ok, from, t.trace) && from <= |t.trace| && t.open == None && !t.bad
            && OpenAfter(ok, t.trace) == None && t.errors == base + ErrorsIn(ok, from, t.trace)
  {
    if s.open.Some? {
      CallKeeps(ok, from, base, s, EndSection(s.open.value));
    }
  }

  /** A call on a trace that leaves no section open. */
  lemma CallAfterClose(ok: Verdict, from: nat, base: int, t: Progress, e: Event)
    requires from <= |t.trace| && Disciplined(ok, from, t.trace) && OpenAfter(ok, t.trace) == None
    requires t.errors == base + ErrorsIn(ok, from, t.trace)
    requires e.LineCallback? || e.ParseSection?
    ensures var u := Call(ok, t, e);
            var started := e.ParseSection? && ok(u.trace);
            TraceInv(ok, from, base,
              u.(open := if started then Some(e.name) else None, bad := e.ParseSection? && !started))
  {
    Extend(ok, from, t.trace, e);
  }

  lemma SectionLineKeeps(ok: Verdict, from: nat, base: int, s: Progress, args: seq<string>, number: nat)
    requires TraceInv(ok, from, base, s) && s.open.Some?
    ensures TraceInv(ok, from, base, Call(ok, s, ParseLineSection(s.open.value, args, number)))
  {
    CallKeeps(ok, from, base, s, ParseLineSection(s.open.value, args, number));
  }

  lemma OrphanKeeps(ok: Verdict, from: nat, base: int, s: Progress, number: nat)
    requires TraceInv(ok, from, base, s) && s.open.None? && !s.bad
    ensures TraceInv(ok, from, base, s.(errors := s.errors + 1, trace := s.trace + [Orphan(number)]))
  {
    Extend(ok, from, s.trace, Orphan(number));
  }

  lemma ParseLineKeeps(reg: Registry, ok: Verdict, from: nat, base: int, s: Progress, line: Line)
    requires TraceInv(ok, from, base, s) && line.args != []
    ensures TraceInv(ok, from, base, ParseLine(reg, ok, s, line))
  {
    var word := line.args[0];
    var prefix := FindPrefix(reg.prefixes, word);
    if prefix.Some? {
      CloseKeeps(ok, from, base, s);
      CallAfterClose(ok, from, base, Close(ok, s), LineCallback(prefix.value, line.args));
    } else if word in reg.sections {
      CloseKeeps(ok, from, base, s);
      CallAfterClose(ok, from, base, Close(ok, s), ParseSection(word, line.args, line.number));
    } else if s.open.Some? {
      SectionLineKeeps(ok, from, base, s, line.args, line.number);
    } else if !s.bad {
      OrphanKeeps(ok, from, base, s, line.number);
    }
  }

  lemma {:induction false} ParseLinesKeeps(reg: Registry, ok: Verdict, from: nat, base: int, s: Progress,
                                           lines: seq<Line>)
    requires TraceInv(ok, from, base, s) && NonEmptyLines(lines)
    ensures TraceInv(ok, from, base, ParseLines(reg, ok, s, lines))
    decreases |lines|
  {
    if lines == [] {
    } else {
      ParseLineKeeps(reg, ok, from, base, s, lines[0]);
      ParseLinesKeeps(reg, ok, from, base, ParseLine(reg, ok, s, lines[0]), lines[1..]);
    }
  }

  lemma {:induction false} EndFilesKeep(ok: Verdict, from: nat, trace: seq<Event>, sections: seq<string>)
    requires from <= |trace| && Disciplined(ok, from, trace) && OpenAfter(ok, trace) == None
    ensures var t := trace + EndFiles(sections);
            Disciplined(ok, from, t) && OpenAfter(ok, t) == None && ErrorsIn(ok, from, t) == ErrorsIn(ok, from, trace)
    decreases |sections|
  {
    if sections == [] {
      assert trace + EndFiles(sections) == trace;
    } else {
      var longer := trace + [EndFile(sections[0])];
      Extend(ok, from, trace, EndFile(sections[0]));
      EndFilesKeep(ok, from, longer, sections[1..]);
      AppendThenRest(trace, EndFile(sections[0]), EndFiles(sections[1..]));
    }
  }

  lemma AppendThenRest(a: seq<Event>, e: Event, rest: seq<Event>)
    ensures a + [e] + rest == a + ([e] + rest)
  {
  }

  /** Every file, whatever its bytes and whatever the callbacks answer, extends a trace that left no
      section open into one that leaves none open, by the rules, and counts its errors exactly. */
  lemma FileKeepsDiscipline(reg: Registry, ok: Verdict, errors: nat, trace: seq<Event>, src: string)
    requires Terminated(src) && OpenAfter(ok, trace) == None && !FailedSection(ok, trace)
    ensures var p := ParseFile(reg, ok, errors, trace, src);
            && Disciplined(ok, |trace|, p.trace) && OpenAfter(ok, p.trace) == None
            && p.errors == errors + ErrorsIn(ok, |trace|, p.trace)
  {
    var start := Progress(None, false, errors, trace);
    var lines := Lines(src, 0, false, 0, []);
    LinesNonEmpty(src, 0, false, 0, []);
    ParseLinesKeeps(reg, ok, |trace|, errors, start, lines);
    var s := ParseLines(reg, ok, start, lines);
    CloseKeeps(ok, |trace|, errors, s);
    EndFilesKeep(ok, |trace|, Close(ok, s).trace, reg.sections);
  }

  // What the rules mean

  /** Between i and j there are only lines of that section. */
  predicate OnlyLines(trace: seq<Event>, name: string, i: int, j: int)
    requires 0 <= i <= j <= |trace|
  {
    forall k :: i < k < j ==> trace[k].ParseLineSection? && trace[k].name == name
  }

  /** A successful ParseSection gets its EndSection, with nothing but its own lines before it. */
  lemma {:induction false} OpenedIsClosed(ok: Verdict, from: nat, trace: seq<Event>, i: nat, upTo: nat)
    returns (j: nat)
    requires Disciplined(ok, from, trace) && OpenAfter(ok, trace) == None
    requires from <= i < upTo <= |trace| && OpenedSection(ok, trace[..i + 1])
    requires OnlyLines(trace, trace[i].name, i, upTo)
    ensures upTo <= j < |trace| && trace[j] == EndSection(trace[i].name)
    ensures OnlyLines(trace, trace[i].name, i, j)
    decreases |trace| - upTo
  {
    var name := trace[i].name;
    OpenDuring(ok, trace, i, upTo);
    assert trace[..|trace|] == trace;
    if upTo == |trace| {
      assert false;
    } else {
      assert MayFollow(ok, trace[..upTo], trace[upTo]);
      if trace[upTo].EndSection? {
        j := upTo;
      } else {
        j := OpenedIsClosed(ok, from, trace, i, upTo + 1);
      }
    }
  }

  lemma {:induction false} OpenDuring(ok: Verdict, trace: seq<Event>, i: nat, j: nat)
    requires i < j <= |trace| && OpenedSection(ok, trace[..i + 1])
    requires OnlyLines(trace, trace[i].name, i, j)
    ensures OpenAfter(ok, trace[..j]) == Some(trace[i].name)
    decreases j
  {
    if j == i + 1 {
    } else {
      OpenDuring(ok, trace, i, j - 1);
      assert trace[..j][..j - 1] == trace[..j - 1];
    }
  }

  /** An EndSection, and a line of a section, goes back to one successful ParseSection of the same
      name: a failed one gets neither. */
  lemma {:induction false} OpenComesFrom(ok: Verdict, trace: seq<Event>, j: nat, name: string) returns (i: nat)
    requires j <= |trace| && OpenAfter(ok, trace[..j]) == Some(name)
    requires Disciplined(ok, 0, trace)
    ensures i < j && OpenedSection(ok, trace[..i + 1]) && trace[i].name == name
    ensures OnlyLines(trace, name, i, j)
    decreases j
  {
    OpenBefore(ok, trace, j, name);
    if trace[j - 1].ParseSection? {
      i := j - 1;
    } else {
      i := OpenComesFrom(ok, trace, j - 1, name);
    }
  }

  /** The last event of a trace that leaves a section open opened it or is one of its lines. */
  lemma OpenBefore(ok: Verdict, trace: seq<Event>, j: nat, name: string)
    requires j <= |trace| && OpenAfter(ok, trace[..j]) == Some(name)
    requires Disciplined(ok, 0, trace)
    ensures j > 0
    ensures trace[j - 1].ParseSection? ==> OpenedSection(ok, trace[..j]) && trace[j - 1].name == name
    ensures !trace[j - 1].ParseSection? ==>
              && trace[j - 1].ParseLineSection? && trace[j - 1].name == name
              && OpenAfter(ok, trace[..j - 1]) == Some(name)
  {
    assert trace[..j][..j - 1] == trace[..j - 1];
    assert MayFollow(ok, trace[..j - 1], trace[j - 1]);
  }

  lemma EveryEndHasItsStart(ok: Verdict, trace: seq<Event>, j: nat) returns (i: nat)
    requires Disciplined(ok, 0, trace) && j < |trace|
    requires trace[j].EndSection? || trace[j].ParseLineSection?
    ensures i < j && OpenedSection(ok, trace[..i + 1]) && trace[i].name == trace[j].name
    ensures OnlyLines(trace, trace[i].name, i, j)
  {
    assert MayFollow(ok, trace[..j], trace[j]);
    i := OpenComesFrom(ok, trace, j, trace[j].name);
  }
}
