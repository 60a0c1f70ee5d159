/** next_token: the lexer that works in place, overwriting the bytes it has read with the bytes of
    the token. */
module Tokenizer {
  import opened TokenizerSpec

  datatype Kind = TEof | TText | TNewline

  function KindOf(t: Token): Kind {
    match t
    case Eof => TEof
    case Text(_) => TText
    case Newline => TNewline
  }

  class ParseState {
    const buf: array<char>
    var ptr: nat
    var text: nat
    var line: nat
    /** nexttoken: T_NEWLINE is owed after a word. */
    var owesNewline: bool

    constructor (buf: array<char>)
      requires buf.Length > 0
      ensures this.buf == buf && ptr == 0 && line == 0 && !owesNewline
    {
      this.buf := buf;
      ptr, text, line, owesNewline := 0, 0, 0, false;
    }

    /** From ptr on the buffer still holds the bytes of the file. */
    ghost predicate Valid(src: string)
      reads this, buf
    {
      Terminated(src) && buf.Length == |src| && ptr < |src| && IntactFrom(src, ptr)
    }

    ghost predicate IntactFrom(src: string, x: nat)
      requires buf.Length == |src|
      reads buf
    {
      forall i :: x <= i < |src| ==> buf[i] == src[i]
    }

    /** The C string that starts at text. */
    ghost predicate TextIs(word: string)
      reads this, buf
    {
      text + |word| < buf.Length && buf[text..text + |word|] == word && buf[text + |word|] == '\0'
    }

    /** The state of the copying loop: the token so far lies in buf[text..s], the rest of it is what
        the specification scans from x on. */
    ghost predicate Copying(src: string, x: nat, s: nat, rest: Scan, whole: Scan, lineBefore: nat)
      reads this, buf
    {
      && Terminated(src) && buf.Length == |src| && text <= s <= x < |src| && IntactFrom(src, x)
      && lineBefore <= line
      && whole == Scan(buf[text..s] + rest.word, rest.next, rest.newline,
                       line - lineBefore + rest.lines, rest.eof)
    }

    /** *s++ = c */
    method Put(ghost src: string, s: nat, c: char, ghost x: nat, ghost rest: Scan, ghost whole: Scan,
               ghost lineBefore: nat)
      requires s < x && Copying(src, x, s, Prepend(c, rest), whole, lineBefore)
      modifies buf
      ensures Copying(src, x, s + 1, rest, whole, lineBefore)
    {
      ghost var before := buf[text..s];
      buf[s] := c;
      assert buf[text..s + 1] == before + [c];
      assert before + ([c] + rest.word) == buf[text..s + 1] + rest.word;
    }

    /** The inner loop for a quoted stretch; closed is false at an unterminated quote. */
    method CopyQuoted(ghost src: string, x0: nat, s0: nat, ghost whole: Scan, ghost lineBefore: nat)
      returns (x: nat, s: nat, closed: bool)
      requires Terminated(src) && x0 < |src|
      requires Copying(src, x0, s0, ScanQuoted(src, x0), whole, lineBefore)
      modifies buf
      ensures x0 <= x < |src|
      ensures closed ==> Copying(src, x, s, ScanText(src, x), whole, lineBefore)
      ensures !closed ==> Copying(src, x, s, Scan("", x, false, 0, true), whole, lineBefore)
    {
      x, s := x0, s0;
      while buf[x] != '\0' && buf[x] != '"'
        invariant x0 <= x < |src|
        invariant Copying(src, x, s, ScanQuoted(src, x), whole, lineBefore)
        decreases |src| - x
      {
        var c := buf[x];
        x := x + 1;
        Put(src, s, c, x, ScanQuoted(src, x), whole, lineBefore);
        s := s + 1;
      }
      closed := buf[x] == '"';
      if closed {
        x := x + 1;
      }
    }

    /** What follows a backslash at x - 1; ends is true when the NUL follows. */
    method CopyEscape(ghost src: string, x0: nat, s0: nat, ghost whole: Scan, ghost lineBefore: nat)
      returns (x: nat, s: nat, ends: bool)
      requires Terminated(src) && 0 < x0 < |src| && src[x0 - 1] == '\\' && s0 < x0
      requires Copying(src, x0, s0, ScanText(src, x0 - 1), whole, lineBefore)
      modifies buf, this`line
      ensures x0 <= x < |src| && (!ends ==> x0 < x)
      ensures ends ==> s < x && Copying(src, x, s, Scan("", x, false, 0, false), whole, lineBefore)
      ensures !ends ==> Copying(src, x, s, ScanText(src, x), whole, lineBefore)
    {
      x, s, ends := x0, s0, false;
      var c := buf[x];
      if c == '\0' {
        ends := true;
      } else if c == '\r' && buf[x + 1] != '\n' {
        x := x + 1;
      } else if c == '\r' || c == '\n' {
        if c == '\r' {
          x := x + 1;
        }
        line := line + 1;
        x := x + 1;
        ghost var first := x;
        while buf[x] == ' ' || buf[x] == '\t'
          invariant first <= x < |src| && SkipSpaces(src, x) == SkipSpaces(src, first)
          decreases |src| - x
        {
          x := x + 1;
        }
      } else {
        x := x + 1;
        Put(src, s, Escaped(c), x, ScanText(src, x), whole, lineBefore);
        s := s + 1;
      }
    }

    /** The copying is over at position x, with the token in buf[text..s]. */
    ghost predicate Copied(src: string, x: nat, s: nat, newline: bool, eof: bool, whole: Scan, lineBefore: nat)
      reads this, buf
    {
      Copying(src, x, s, Scan("", x, newline, 0, eof), whole, lineBefore)
    }

    /** Whether the character ends a word, and where the lexer then goes on. */
    method EndsWord(ghost src: string, x0: nat, s: nat, ghost whole: Scan, ghost lineBefore: nat)
      returns (ends: bool, x: nat, newline: bool)
      requires Terminated(src) && x0 < |src| && Copying(src, x0, s, ScanText(src, x0), whole, lineBefore)
      ensures x < |src| && (!ends ==> x == x0 && src[x] != '\0' && src[x] != '\n' && !Blank(src[x]))
      ensures ends ==> Copied(src, x, s, newline, false, whole, lineBefore) && (s < x || src[x] == '\0')
    {
      var c := buf[x0];
      ends, x, newline := c == '\0' || c == ' ' || c == '\t' || c == '\r' || c == '\n', x0, c == '\n';
      if ends && c != '\0' {
        x := x0 + 1;
      }
    }

    /** One round of the loop at the label textresume, at a character that does not end the word. */
    method CopyStep(ghost src: string, x0: nat, s0: nat, ghost whole: Scan, ghost lineBefore: nat)
      returns (x: nat, s: nat, ends: bool, eof: bool)
      requires Terminated(src) && x0 < |src| && Copying(src, x0, s0, ScanText(src, x0), whole, lineBefore)
      requires src[x0] != '\0' && src[x0] != '\n' && !Blank(src[x0])
      modifies buf, this`line
      ensures x < |src|
      ensures !ends ==> x0 < x && !eof && Copying(src, x, s, ScanText(src, x), whole, lineBefore)
      ensures ends ==> Copied(src, x, s, false, eof, whole, lineBefore) && (!eof ==> s < x)
    {
      x, s, ends, eof := x0 + 1, s0, false, false;
      var c := buf[x0];
      if c == '"' {
        var closed;
        x, s, closed := CopyQuoted(src, x, s, whole, lineBefore);
        ends, eof := !closed, !closed;
      } else if c == '\\' {
        x, s, ends := CopyEscape(src, x, s, whole, lineBefore);
      } else {
        Put(src, s, c, x, ScanText(src, x), whole, lineBefore);
        s := s + 1;
      }
    }

    /** The loop at the label textresume, from a position that starts a word. */
    method CopyText(ghost src: string, x0: nat, ghost whole: Scan, ghost lineBefore: nat)
      returns (x: nat, s: nat, newline: bool, eof: bool)
      requires Terminated(src) && x0 < |src|
      requires Copying(src, x0, x0, ScanText(src, x0), whole, lineBefore)
      modifies buf, this`line
      ensures x < |src| && Copied(src, x, s, newline, eof, whole, lineBefore)
      ensures !eof ==> s < x || src[x] == '\0'
    {
      x, s, newline, eof := x0, x0, false, false;
      while true
        invariant x0 <= x < |src| && !eof
        invariant Copying(src, x, s, ScanText(src, x), whole, lineBefore)
        decreases |src| - x
      {
        var ends;
        ends, x, newline := EndsWord(src, x, s, whole, lineBefore);
        if ends {
          return;
        }
        x, s, ends, eof := CopyStep(src, x, s, whole, lineBefore);
        if ends {
          newline := false;
          return;
        }
      }
    }

    /** The labels text, textresume and textdone. */
    method TextToken(ghost src: string, x0: nat) returns (kind: Kind)
      requires Valid(src) && x0 < |src| && IntactFrom(src, x0) && src[x0] != '\0' && !owesNewline
      modifies this, buf
      ensures Valid(src)
      ensures var s := ScanText(src, x0);
              && ptr == s.next && line == old(line) + s.lines
              && kind == (if s.eof then TEof else TText)
              && (s.eof ==> !owesNewline)
              && (!s.eof ==> owesNewline == s.newline && TextIs(s.word))
    {
      ghost var whole := ScanText(src, x0);
      WordsHaveNoNul(src, x0);
      text := x0;
      assert buf[text..x0] == [] && [] + whole.word == whole.word;
      var x, s, newline, eof := CopyText(src, x0, whole, line);
      ptr := x;
      if eof {
        return TEof;
      }
      assert buf[text..s] + [] == whole.word;
      owesNewline := newline;
      buf[s] := '\0';
      return TText;
    }

    /** The in-place lexer returns the tokens of the specification and leaves everything it has not
        read untouched. */
    method NextToken(ghost src: string) returns (kind: Kind)
      requires Valid(src)
      modifies this, buf
      ensures Valid(src)
      ensures old(owesNewline) ==>
                kind == TNewline && !owesNewline && ptr == old(ptr) && line == old(line)
      ensures !old(owesNewline) ==>
                var r := Lex(src, old(ptr));
                && kind == KindOf(r.token) && ptr == r.next && owesNewline == r.newline
                && line == old(line) + r.lines
                && (r.token.Text? ==> TextIs(r.token.word))
      ensures kind != TEof ==> Remaining(src, ptr, owesNewline) < Remaining(src, old(ptr), old(owesNewline))
    {
      if owesNewline {
        owesNewline := false;
        return TNewline;
      }
      var x := ptr;
      while buf[x] == ' ' || buf[x] == '\t' || buf[x] == '\r'
        invariant ptr <= x < |src| && Lex(src, x) == Lex(src, ptr)
        decreases |src| - x
      {
        x := x + 1;
      }
      if buf[x] == '\0' {
        ptr := x;
        return TEof;
      } else if buf[x] == '\n' {
        ptr := x + 1;
        return TNewline;
      } else if buf[x] == '#' {
        ghost var start := x;
        while buf[x] != '\0' && buf[x] != '\n'
          invariant start <= x < |src| && EndOfComment(src, x) == EndOfComment(src, start)
          decreases |src| - x
        {
          x := x + 1;
        }
        if buf[x] == '\n' {
          ptr := x + 1;
          return TNewline;
        }
        ptr := x;
        return TEof;
      } else {
        kind := TextToken(src, x);
      }
    }
  }
}
