/** The configuration lexer as a pure function of the bytes of the file.  Positions are indices into
    a string whose last character is the terminating NUL. */
module TokenizerSpec {
  predicate Terminated(src: string) {
    |src| > 0 && src[|src| - 1] == '\0'
  }

  predicate Blank(c: char) {
    c == ' ' || c == '\t' || c == '\r'
  }

  /** The rest of a text token: its characters, where the lexer goes on, whether a newline ended it,
      how many continuations it crossed, and whether an unterminated quote swallowed the file. */
  datatype Scan = Scan(word: string, next: nat, newline: bool, lines: nat, eof: bool)

  function Prepend(c: char, s: Scan): Scan {
    s.(word := [c] + s.word)
  }

  /** First position at or after x that is not a space or a tab. */
  function SkipSpaces(src: string, x: nat): (r: nat)
    requires Terminated(src) && x < |src|
    ensures x <= r < |src| && src[r] != ' ' && src[r] != '\t'
    ensures forall i :: x <= i < r ==> src[i] == ' ' || src[i] == '\t'
    decreases |src| - x
  {
    if src[x] == ' ' || src[x] == '\t' then SkipSpaces(src, x + 1) else x
  }

  function Escaped(c: char): char {
    match c
    case 'n' => '\n'
    case 'r' => '\r'
    case 't' => '\t'
    case _ => c
  }

  function ScanText(src: string, x: nat): (s: Scan)
    requires Terminated(src) && x < |src|
    ensures x <= s.next < |src| && (src[x] != '\0' ==> x < s.next)
    decreases |src| - x
  {
    var c := src[x];
    if c == '\0' then Scan("", x, false, 0, false)
    else if Blank(c) then Scan("", x + 1, false, 0, false)
    else if c == '\n' then Scan("", x + 1, true, 0, false)
    else if c == '"' then ScanQuoted(src, x + 1)
    else if c == '\\' then
      var e := src[x + 1];
      if e == '\0' then Scan("", x + 1, false, 0, false)
      else if e == '\r' && src[x + 2] != '\n' then ScanText(src, x + 2)
      else if e == '\r' || e == '\n' then
        var after := SkipSpaces(src, if e == '\r' then x + 3 else x + 2);
        var s := ScanText(src, after);
        s.(lines := s.lines + 1)
      else Prepend(Escaped(e), ScanText(src, x + 2))
    else Prepend(c, ScanText(src, x + 1))
  }

  function ScanQuoted(src: string, x: nat): (s: Scan)
    requires Terminated(src) && x < |src|
    ensures x <= s.next < |src|
    decreases |src| - x
  {
    var c := src[x];
    if c == '\0' then Scan("", x, false, 0, true)
    else if c == '"' then ScanText(src, x + 1)
    else Prepend(c, ScanQuoted(src, x + 1))
  }

  /** The end of a comment: its newline or the NUL. */
  function EndOfComment(src: string, x: nat): (r: nat)
    requires Terminated(src) && x < |src|
    ensures x <= r < |src| && (src[r] == '\0' || src[r] == '\n')
    ensures forall i :: x <= i < r ==> src[i] != '\0' && src[i] != '\n'
    decreases |src| - x
  {
    if src[x] == '\0' || src[x] == '\n' then x else EndOfComment(src, x + 1)
  }

  datatype Token = Eof | Text(word: string) | Newline

  /** A token, where the next one starts, whether a newline token is still owed, and the continuation
      lines crossed. */
  datatype Lexed = Lexed(token: Token, next: nat, newline: bool, lines: nat)

  function Lex(src: string, x: nat): (r: Lexed)
    requires Terminated(src) && x < |src|
    ensures x <= r.next < |src| && (!r.token.Eof? ==> x < r.next)
    ensures r.token.Newline? ==> r.lines == 0
    decreases |src| - x
  {
    var c := src[x];
    if c == '\0' then Lexed(Eof, x, false, 0)
    else if c == '\n' then Lexed(Newline, x + 1, false, 0)
    else if Blank(c) then Lex(src, x + 1)
    else if c == '#' then
      var e := EndOfComment(src, x);
      if src[e] == '\n' then Lexed(Newline, e + 1, false, 0) else Lexed(Eof, e, false, 0)
    else
      var s := ScanText(src, x);
      if s.eof then Lexed(Eof, s.next, false, s.lines) else Lexed(Text(s.word), s.next, s.newline, s.lines)
  }

  // Lines of words, as ParseData collects them

  datatype Line = Line(args: seq<string>, number: nat)

  /** Bytes left count double, an owed newline once. */
  function Remaining(src: string, x: nat, owed: bool): nat
    requires x <= |src|
  {
    2 * (|src| - x) + if owed then 1 else 0
  }

  /** The non-empty lines from position x on, when args have been read of the current one and
      `number` lines lie behind.  Words without a newline after them are dropped at the end. */
  function Lines(src: string, x: nat, owed: bool, number: nat, args: seq<string>): seq<Line>
    requires Terminated(src) && x < |src|
    decreases Remaining(src, x, owed)
  {
    if owed then EndLine(number, args) + Lines(src, x, false, number + 1, [])
    else
      var r := Lex(src, x);
      match r.token
      case Eof => []
      case Newline => EndLine(number, args) + Lines(src, r.next, r.newline, number + 1, [])
      case Text(word) => Lines(src, r.next, r.newline, number + r.lines, args + [word])
  }

  function EndLine(number: nat, args: seq<string>): seq<Line> {
    if args == [] then [] else [Line(args, number + 1)]
  }

  /** Words hold no NUL, so C strings can carry them. */
  lemma {:induction false} WordsHaveNoNul(src: string, x: nat)
    requires Terminated(src) && x < |src|
    ensures '\0' !in ScanText(src, x).word && '\0' !in ScanQuoted(src, x).word
    decreases |src| - x
  {
    var c := src[x];
    if c != '\0' {
      WordsHaveNoNul(src, x + 1);
      if c == '\\' && src[x + 1] != '\0' {
        var e := src[x + 1];
        if e == '\r' && src[x + 2] == '\n' {
          WordsHaveNoNul(src, SkipSpaces(src, x + 3));
        } else if e == '\n' {
          WordsHaveNoNul(src, SkipSpaces(src, x + 2));
        } else {
          WordsHaveNoNul(src, x + 2);
        }
      }
    }
  }
}
