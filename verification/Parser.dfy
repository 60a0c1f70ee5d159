/** Parser::ParseData: the token loop that drives line callbacks and section parsers. */
module Parsers {
  import opened SortedNames
  import opened Strings
  import opened Wrappers
  import opened TokenizerSpec
  import opened Tokenizer
  import opened ParserSpec

  class Parser {
    var sectionParsers: seq<string>
    var lineCallbacks: seq<string>
    var parseErrorCount: nat
    /** The calls made so far. */
    var calls: seq<Event>

    constructor ()
      ensures sectionParsers == [] && lineCallbacks == [] && parseErrorCount == 0 && calls == []
    {
      sectionParsers, lineCallbacks, parseErrorCount, calls := [], [], 0, [];
    }

    /** Prefixes are kept in order of registration. */
    method AddSingleLineParser(prefix: string)
      modifies this`lineCallbacks
      ensures lineCallbacks == old(lineCallbacks) + [prefix]
    {
      lineCallbacks := lineCallbacks + [prefix];
    }

    /** std::map keeps the section names sorted; a registered name keeps its place. */
    method AddSectionParser(name: string)
      requires Sorted(sectionParsers)
      modifies this`sectionParsers
      ensures Sorted(sectionParsers)
      ensures forall n :: n in sectionParsers <==> n in old(sectionParsers) || n == name
    {
      var i := 0;
      while i < |sectionParsers| && LexLess(sectionParsers[i], name)
        invariant 0 <= i <= |sectionParsers|
        invariant forall j :: 0 <= j < i ==> LexLess(sectionParsers[j], name)
      {
        i := i + 1;
      }
      if i == |sectionParsers| || sectionParsers[i] != name {
        InsertName(sectionParsers, i, name);
        sectionParsers := sectionParsers[..i] + [name] + sectionParsers[i..];
      }
    }

    function Reg(): Registry
      reads this`lineCallbacks, this`sectionParsers
    {
      Registry(lineCallbacks, sectionParsers)
    }

    /** std::string's constructor from a C string. */
    method ReadText(state: ParseState, ghost word: string) returns (r: string)
      requires state.TextIs(word) && '\0' !in word
      ensures r == word
    {
      assert forall k :: 0 <= k < |word| ==> word[k] in word;
      assert forall k :: 0 <= k < |word| ==> state.buf[state.text..state.text + |word|][k] == word[k];
      assert forall k :: state.text <= k < state.text + |word| ==> state.buf[k] == word[k - state.text];
      var i := state.text;
      while state.buf[i] != '\0'
        invariant state.text <= i <= state.text + |word|
        decreases state.text + |word| - i
      {
        i := i + 1;
      }
      r := state.buf[state.text..i];
    }

    /** One line of the T_NEWLINE case.  Returns the new section_parser and bad_section_found. */
    method Dispatch(ok: Verdict, line: Line, section: Option<string>, bad: bool)
      returns (section': Option<string>, bad': bool)
      requires line.args != []
      modifies this`parseErrorCount, this`calls
      ensures Progress(section', bad', parseErrorCount, calls)
           == ParseLine(Reg(), ok, Progress(section, bad, old(parseErrorCount), old(calls)), line)
    {
      section', bad' := section, bad;
      var prefix := FindPrefix(lineCallbacks, line.args[0]);
      if prefix.Some? {
        bad' := false;
        section' := CloseSection(ok, section);
        var _ := Invoke(ok, LineCallback(prefix.value, line.args));
      } else if line.args[0] in sectionParsers {
        bad' := false;
        section' := CloseSection(ok, section);
        var success := Invoke(ok, ParseSection(line.args[0], line.args, line.number));
        if success {
          section' := Some(line.args[0]);
        } else {
          bad' := true;
        }
      } else if section.Some? {
        var _ := Invoke(ok, ParseLineSection(section.value, line.args, line.number));
      } else if !bad {
        parseErrorCount := parseErrorCount + 1;
        calls := calls + [Orphan(line.number)];
      }
    }

    /** Makes a call, counting a failure. */
    method Invoke(ok: Verdict, e: Event) returns (success: bool)
      requires CanFail(e)
      modifies this`parseErrorCount, this`calls
      ensures calls == old(calls) + [e] && success == ok(calls)
      ensures parseErrorCount == old(parseErrorCount) + if success then 0 else 1
    {
      calls := calls + [e];
      success := ok(calls);
      if !success {
        parseErrorCount := parseErrorCount + 1;
      }
    }

    /** end_section, which leaves no section open. */
    method CloseSection(ok: Verdict, section: Option<string>) returns (none: Option<string>)
      modifies this`parseErrorCount, this`calls
      ensures none == None
      ensures Progress(None, false, parseErrorCount, calls)
           == Close(ok, Progress(section, false, old(parseErrorCount), old(calls)))
    {
      if section.Some? {
        var _ := Invoke(ok, EndSection(section.value));
      }
      return None;
    }

    /** The progress that the unread part of the file still leads to. */
    ghost function LinesLeft(src: string, state: ParseState, args: seq<string>, s: Progress, ok: Verdict): Progress
      requires state.Valid(src)
      reads this, state, state.buf
    {
      LinesNonEmpty(src, state.ptr, state.owesNewline, state.line, args);
      ParseLines(Reg(), ok, s, Lines(src, state.ptr, state.owesNewline, state.line, args))
    }

    /** One token of ParseData's loop; done at the end of the file. */
    method HandleToken(ghost src: string, state: ParseState, ok: Verdict, args: seq<string>,
                       section: Option<string>, bad: bool)
      returns (done: bool, args': seq<string>, section': Option<string>, bad': bool)
      requires state.Valid(src)
      modifies state, state.buf, this`parseErrorCount, this`calls
      ensures state.Valid(src)
      ensures old(LinesLeft(src, state, args, Progress(section, bad, parseErrorCount, calls), ok))
           == if done then Progress(section', bad', parseErrorCount, calls)
              else LinesLeft(src, state, args', Progress(section', bad', parseErrorCount, calls), ok)
      ensures !done ==>
                Remaining(src, state.ptr, state.owesNewline) < old(Remaining(src, state.ptr, state.owesNewline))
    {
      ghost var before := Lines(src, state.ptr, state.owesNewline, state.line, args);
      LinesNonEmpty(src, state.ptr, state.owesNewline, state.line, args);
      ghost var ptr := state.ptr;
      done, args', section', bad' := false, args, section, bad;
      var kind := state.NextToken(src);
      LinesNonEmpty(src, state.ptr, state.owesNewline, state.line, []);
      match kind
      case TEof =>
        assert before == [];
        done := true;
      case TNewline =>
        state.line := state.line + 1;
        ghost var after := Lines(src, state.ptr, state.owesNewline, state.line, []);
        LinesNonEmpty(src, state.ptr, state.owesNewline, state.line, []);
        if args != [] {
          var line := Line(args, state.line);
          assert before == [line] + after;
          assert before[0] == line && before[1..] == after;
          section', bad' := Dispatch(ok, line, section, bad);
          args' := [];
        } else {
          assert before == after;
        }
      case TText =>
        ghost var word := Lex(src, ptr).token.word;
        LexedWordHasNoNul(src, ptr);
        var text := ReadText(state, word);
        args' := args + [text];
        assert before == Lines(src, state.ptr, state.owesNewline, state.line, args');
    }

    method CallEndFiles()
      modifies this`calls
      ensures calls == old(calls) + EndFiles(sectionParsers)
    {
      var i := 0;
      while i < |sectionParsers|
        invariant 0 <= i <= |sectionParsers|
        invariant calls + EndFiles(sectionParsers[i..]) == old(calls) + EndFiles(sectionParsers)
      {
        calls := calls + [EndFile(sectionParsers[i])];
        i := i + 1;
      }
    }

    /** ParseData up to the EndFile calls: the in-place lexer and the token loop make exactly the calls of the
        line-by-line reading of the original text. */
    method ReadData(ok: Verdict, data: string)
      modifies this`parseErrorCount, this`calls
      ensures var p := ReadLines(Reg(), ok, old(parseErrorCount), old(calls), data + "\n\0");
              parseErrorCount == p.errors && calls == p.trace
    {
      var src := data + "\n\0";
      var buf := new char[|src|](i requires 0 <= i < |src| => src[i]);
      var state := new ParseState(buf);
      var section: Option<string> := None;
      var args: seq<string> := [];
      var done, bad := false, false;
      ghost var whole := LinesLeft(src, state, args, Progress(section, bad, parseErrorCount, calls), ok);
      while !done
        invariant fresh(state) && fresh(state.buf) && state.Valid(src)
        invariant whole == if done then Progress(section, bad, parseErrorCount, calls)
                           else LinesLeft(src, state, args, Progress(section, bad, parseErrorCount, calls), ok)
        decreases if done then 0 else 1 + Remaining(src, state.ptr, state.owesNewline)
      {
        done, args, section, bad := HandleToken(src, state, ok, args, section, bad);
      }
      section := CloseSection(ok, section);
    }

    /** With section parsers whose EndFile does not call back. */
    method ParseData(ok: Verdict, data: string)
      modifies this`parseErrorCount, this`calls
      ensures var p := ParseFile(Reg(), ok, old(parseErrorCount), old(calls), data + "\n\0");
              parseErrorCount == p.errors && calls == p.trace
    {
      ReadData(ok, data);
      CallEndFiles();
    }
  }

  lemma {:induction false} LexedWordHasNoNul(src: string, x: nat)
    requires Terminated(src) && x < |src| && Lex(src, x).token.Text?
    ensures '\0' !in Lex(src, x).token.word
    decreases |src| - x
  {
    if Blank(src[x]) {
      LexedWordHasNoNul(src, x + 1);
    } else {
      WordsHaveNoNul(src, x);
    }
  }
}
