/** What each line of a file comes to, said of the line and of the calls made before it: no line is dropped in
    silence but those behind a failed section start, and every other stray line is reported once. */
module LineLaws {
  import opened Wrappers
  import opened TokenizerSpec
  import opened ParserSpec
  import opened SectionTraces

  predicate StartsWithSome(prefixes: seq<string>, word: string) {
    exists j :: 0 <= j < |prefixes| && prefixes[j] <= word
  }

  /** No prefix, no section name, and no section is open. */
  predicate Stray(reg: Registry, ok: Verdict, trace: seq<Event>, line: Line)
    requires line.args != []
  {
    !StartsWithSome(reg.prefixes, line.args[0]) && line.args[0] !in reg.sections && OpenAfter(ok, trace) == None
  }

  /** Reported as an error of its own. */
  predicate Reported(reg: Registry, ok: Verdict, trace: seq<Event>, line: Line)
    requires line.args != []
  {
    Stray(reg, ok, trace, line) && !FailedSection(ok, trace)
  }

  /** Suppressed: the last call was a section start that failed. */
  predicate Suppressed(reg: Registry, ok: Verdict, trace: seq<Event>, line: Line)
    requires line.args != []
  {
    Stray(reg, ok, trace, line) && FailedSection(ok, trace)
  }

  /** The call that closes the open section. */
  function Closing(ok: Verdict, trace: seq<Event>): seq<Event> {
    match OpenAfter(ok, trace)
    case None => []
    case Some(name) => [EndSection(name)]
  }

  predicate FirstPrefix(prefixes: seq<string>, word: string, j: nat) {
    j < |prefixes| && prefixes[j] <= word && forall m :: 0 <= m < j ==> !(prefixes[m] <= word)
  }

  /** The calls a line must make after a trace. */
  ghost predicate LineCalls(reg: Registry, ok: Verdict, trace: seq<Event>, line: Line, calls: seq<Event>)
    requires line.args != []
  {
    var word := line.args[0];
    && (forall j: nat :: FirstPrefix(reg.prefixes, word, j) ==>
          calls == Closing(ok, trace) + [LineCallback(j, line.args)])
    && (!StartsWithSome(reg.prefixes, word) && word in reg.sections ==>
          calls == Closing(ok, trace) + [ParseSection(word, line.args, line.number)])
    && (!StartsWithSome(reg.prefixes, word) && word !in reg.sections && OpenAfter(ok, trace).Some? ==>
          calls == [ParseLineSection(OpenAfter(ok, trace).value, line.args, line.number)])
    && (Reported(reg, ok, trace, line) ==> calls == [Orphan(line.number)])
    && (calls == [] <==> Suppressed(reg, ok, trace, line))
    && ((exists e :: e in calls && e.Orphan?) <==> Reported(reg, ok, trace, line))
  }

  lemma CloseTrace(ok: Verdict, s: Progress)
    requires s.open == OpenAfter(ok, s.trace)
    ensures Close(ok, s).trace == s.trace + Closing(ok, s.trace)
  {
  }

  lemma PrefixFound(prefixes: seq<string>, word: string)
    ensures FindPrefix(prefixes, word).Some? <==> StartsWithSome(prefixes, word)
    ensures forall j: nat :: FirstPrefix(prefixes, word, j) ==> FindPrefix(prefixes, word) == Some(j)
  {
  }

  /** One line, from any state in which the parser's variables agree with the calls made. */
  lemma LineLaw(reg: Registry, ok: Verdict, from: nat, base: int, s: Progress, line: Line)
    requires TraceInv(ok, from, base, s) && line.args != []
    ensures s.trace <= ParseLine(reg, ok, s, line).trace
    ensures LineCalls(reg, ok, s.trace, line, ParseLine(reg, ok, s, line).trace[|s.trace|..])
  {
    var word := line.args[0];
    var t := ParseLine(reg, ok, s, line).trace;
    PrefixFound(reg.prefixes, word);
    CloseTrace(ok, s);
    var prefix := FindPrefix(reg.prefixes, word);
    if prefix.Some? {
      assert t == s.trace + (Closing(ok, s.trace) + [LineCallback(prefix.value, line.args)]);
    } else if word in reg.sections {
      assert t == s.trace + (Closing(ok, s.trace) + [ParseSection(word, line.args, line.number)]);
    } else if s.open.Some? {
      assert t == s.trace + [ParseLineSection(s.open.value, line.args, line.number)];
    } else if !s.bad {
      assert t == s.trace + [Orphan(line.number)];
      assert Orphan(line.number) in t[|s.trace|..];
    } else {
      assert t == s.trace + [];
    }
  }

  // Whole files

  /** The parser's progress after the first i lines of a file. */
  function Upto(reg: Registry, ok: Verdict, errors: nat, trace: seq<Event>, src: string, i: nat): Progress
    requires Terminated(src) && i <= |Lines(src, 0, false, 0, [])|
  {
    LinesNonEmpty(src, 0, false, 0, []);
    ParseLines(reg, ok, Progress(None, false, errors, trace), Lines(src, 0, false, 0, [])[..i])
  }

  lemma {:induction false} ParseLinesSnoc(reg: Registry, ok: Verdict, s: Progress, lines: seq<Line>, line: Line)
    requires NonEmptyLines(lines) && line.args != []
    ensures NonEmptyLines(lines + [line])
    ensures ParseLines(reg, ok, s, lines + [line]) == ParseLine(reg, ok, ParseLines(reg, ok, s, lines), line)
    decreases |lines|
  {
    if lines == [] {
      assert [] + [line] == [line];
      assert [line][1..] == [];
    } else {
      ParseLinesSnoc(reg, ok, ParseLine(reg, ok, s, lines[0]), lines[1..], line);
      assert (lines + [line])[1..] == lines[1..] + [line];
    }
  }

  lemma UptoNext(reg: Registry, ok: Verdict, errors: nat, trace: seq<Event>, src: string, i: nat)
    requires Terminated(src) && i < |Lines(src, 0, false, 0, [])|
    ensures var line := Lines(src, 0, false, 0, [])[i];
            && line.args != []
            && Upto(reg, ok, errors, trace, src, i + 1)
            == ParseLine(reg, ok, Upto(reg, ok, errors, trace, src, i), line)
  {
    LinesNonEmpty(src, 0, false, 0, []);
    var lines := Lines(src, 0, false, 0, []);
    assert lines[..i + 1] == lines[..i] + [lines[i]];
    ParseLinesSnoc(reg, ok, Progress(None, false, errors, trace), lines[..i], lines[i]);
  }

  lemma UptoInv(reg: Registry, ok: Verdict, errors: nat, trace: seq<Event>, src: string, i: nat)
    requires Terminated(src) && i <= |Lines(src, 0, false, 0, [])|
    requires OpenAfter(ok, trace) == None && !FailedSection(ok, trace)
    ensures TraceInv(ok, |trace|, errors, Upto(reg, ok, errors, trace, src, i))
  {
    LinesNonEmpty(src, 0, false, 0, []);
    ParseLinesKeeps(reg, ok, |trace|, errors, Progress(None, false, errors, trace), Lines(src, 0, false, 0, [])[..i]);
  }

  /** Every line of every file makes exactly its calls, whatever was called before and whatever the calls
      answer. */
  lemma FileLine(reg: Registry, ok: Verdict, errors: nat, trace: seq<Event>, src: string, i: nat)
    requires Terminated(src) && i < |Lines(src, 0, false, 0, [])|
    requires OpenAfter(ok, trace) == None && !FailedSection(ok, trace)
    ensures Lines(src, 0, false, 0, [])[i].args != []
    ensures var before := Upto(reg, ok, errors, trace, src, i).trace;
            var after := Upto(reg, ok, errors, trace, src, i + 1).trace;
            && before <= after
            && LineCalls(reg, ok, before, Lines(src, 0, false, 0, [])[i], after[|before|..])
  {
    UptoNext(reg, ok, errors, trace, src, i);
    UptoInv(reg, ok, errors, trace, src, i);
    LineLaw(reg, ok, |trace|, errors, Upto(reg, ok, errors, trace, src, i), Lines(src, 0, false, 0, [])[i]);
  }

  /** A file is its lines one after the other, the close of its last section and the ends of file. */
  lemma FileIsItsLines(reg: Registry, ok: Verdict, errors: nat, trace: seq<Event>, src: string)
    requires Terminated(src) && OpenAfter(ok, trace) == None && !FailedSection(ok, trace)
    ensures var n := |Lines(src, 0, false, 0, [])|; var last := Upto(reg, ok, errors, trace, src, n).trace;
            && Upto(reg, ok, errors, trace, src, 0).trace == trace
            && ParseFile(reg, ok, errors, trace, src).trace == last + Closing(ok, last) + EndFiles(reg.sections)
  {
    var lines := Lines(src, 0, false, 0, []);
    UptoInv(reg, ok, errors, trace, src, |lines|);
    CloseTrace(ok, Upto(reg, ok, errors, trace, src, |lines|));
    assert lines[..|lines|] == lines && lines[..0] == [];
  }

  lemma {:induction false} EndFileAt(sections: seq<string>, i: nat)
    requires i < |sections|
    ensures |EndFiles(sections)| == |sections| && EndFiles(sections)[i] == EndFile(sections[i])
    decreases |sections|
  {
    if |sections| > 1 {
      EndFileAt(sections[1..], if i == 0 then 0 else i - 1);
    }
  }

  // Counting stray lines

  function Orphans(trace: seq<Event>): nat {
    if trace == [] then 0 else (if trace[0].Orphan? then 1 else 0) + Orphans(trace[1..])
  }

  lemma {:induction false} OrphansParts(a: seq<Event>, b: seq<Event>)
    ensures Orphans(a + b) == Orphans(a) + Orphans(b)
    decreases |a|
  {
    if a == [] {
      assert a + b == b;
    } else {
      OrphansParts(a[1..], b);
      assert (a + b)[1..] == a[1..] + b;
    }
  }

  lemma {:induction false} NoOrphans(trace: seq<Event>)
    requires forall e :: e in trace ==> !e.Orphan?
    ensures Orphans(trace) == 0
    decreases |trace|
  {
    if trace == [] {
    } else {
      NoOrphans(trace[1..]);
    }
  }

  /** How many of the first i lines are stray and not suppressed. */
  function ReportedLines(reg: Registry, ok: Verdict, errors: nat, trace: seq<Event>, src: string, i: nat): nat
    requires Terminated(src) && i <= |Lines(src, 0, false, 0, [])|
    decreases i
  {
    LinesNonEmpty(src, 0, false, 0, []);
    if i == 0 then 0
    else
      var before := Upto(reg, ok, errors, trace, src, i - 1).trace;
      ReportedLines(reg, ok, errors, trace, src, i - 1)
      + if Reported(reg, ok, before, Lines(src, 0, false, 0, [])[i - 1]) then 1 else 0
  }

  lemma {:induction false} ReportedUpto(reg: Registry, ok: Verdict, errors: nat, trace: seq<Event>, src: string, i: nat)
    requires Terminated(src) && i <= |Lines(src, 0, false, 0, [])|
    requires OpenAfter(ok, trace) == None && !FailedSection(ok, trace)
    ensures Orphans(Upto(reg, ok, errors, trace, src, i).trace)
         == Orphans(trace) + ReportedLines(reg, ok, errors, trace, src, i)
    decreases i
  {
    if i == 0 {
      FileIsItsLines(reg, ok, errors, trace, src);
    } else {
      ReportedUpto(reg, ok, errors, trace, src, i - 1);
      FileLine(reg, ok, errors, trace, src, i - 1);
      var before := Upto(reg, ok, errors, trace, src, i - 1).trace;
      var after := Upto(reg, ok, errors, trace, src, i).trace;
      OneLineOrphans(reg, ok, before, Lines(src, 0, false, 0, [])[i - 1], after);
    }
  }

  lemma OneLineOrphans(reg: Registry, ok: Verdict, before: seq<Event>, line: Line, after: seq<Event>)
    requires line.args != [] && before <= after && LineCalls(reg, ok, before, line, after[|before|..])
    ensures Orphans(after) == Orphans(before) + if Reported(reg, ok, before, line) then 1 else 0
  {
    var calls := after[|before|..];
    assert after == before + calls;
    OrphansParts(before, calls);
    if Reported(reg, ok, before, line) {
      assert Orphans([Orphan(line.number)]) == 1 + Orphans([]);
    } else {
      NoOrphans(calls);
    }
  }

  /** A file reports as many stray lines as it has that are not suppressed. */
  lemma StrayLinesAreReported(reg: Registry, ok: Verdict, errors: nat, trace: seq<Event>, src: string)
    requires Terminated(src) && OpenAfter(ok, trace) == None && !FailedSection(ok, trace)
    ensures Orphans(ParseFile(reg, ok, errors, trace, src).trace)
         == Orphans(trace) + ReportedLines(reg, ok, errors, trace, src, |Lines(src, 0, false, 0, [])|)
  {
    var n := |Lines(src, 0, false, 0, [])|;
    var last := Upto(reg, ok, errors, trace, src, n).trace;
    ReportedUpto(reg, ok, errors, trace, src, n);
    FileIsItsLines(reg, ok, errors, trace, src);
    OrphansParts(last + Closing(ok, last), EndFiles(reg.sections));
    OrphansParts(last, Closing(ok, last));
    NoOrphans(Closing(ok, last));
    EndFilesOnly(reg.sections);
    NoOrphans(EndFiles(reg.sections));
  }

  lemma {:induction false} EndFilesOnly(sections: seq<string>)
    ensures forall e :: e in EndFiles(sections) ==> e.EndFile?
    decreases |sections|
  {
    if sections == [] {
    } else {
      EndFilesOnly(sections[1..]);
    }
  }
}
