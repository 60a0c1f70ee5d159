/** How configuration text is read, form by form: comments, blanks, quotes, escapes and continuations.  The
    text is spelled out character by character and followed by any other text. */
module TokenizerForms {
  import opened Wrappers
  import opened Sequences
  import opened TokenizerSpec

  // What is read does not depend on what comes before

  function Moved(s: Scan, n: nat): Scan {
    s.(next := n + s.next)
  }

  lemma {:induction false} SpacesMoved(p: string, src: string, x: nat)
    requires Terminated(src) && x < |src|
    ensures Terminated(p + src) && SkipSpaces(p + src, |p| + x) == |p| + SkipSpaces(src, x)
    decreases |src| - x
  {
    assert (p + src)[|p| + x] == src[x];
    if src[x] == ' ' || src[x] == '\t' {
      SpacesMoved(p, src, x + 1);
    }
  }

  lemma {:induction false} ScanMoved(p: string, src: string, x: nat)
    requires Terminated(src) && x < |src|
    ensures Terminated(p + src)
    ensures ScanText(p + src, |p| + x) == Moved(ScanText(src, x), |p|)
    ensures ScanQuoted(p + src, |p| + x) == Moved(ScanQuoted(src, x), |p|)
    decreases |src| - x
  {
    var whole := p + src;
    assert forall i :: 0 <= i < |src| ==> whole[|p| + i] == src[i];
    var c := src[x];
    if c != '\0' {
      ScanMoved(p, src, x + 1);
      if c == '\\' && src[x + 1] != '\0' {
        EscapeMoved(p, src, x);
      }
    }
  }

  /** Where a scan goes on behind a backslash and the character after it. */
  function Resumed(src: string, x: nat): (r: nat)
    requires Terminated(src) && x + 1 < |src| && src[x + 1] != '\0'
    ensures x < r < |src|
  {
    var e := src[x + 1];
    if e == '\r' && src[x + 2] == '\n' then SkipSpaces(src, x + 3)
    else if e == '\n' then SkipSpaces(src, x + 2)
    else x + 2
  }

  /** What they add to the scan. */
  function WithEscape(src: string, x: nat, s: Scan): Scan
    requires Terminated(src) && x + 1 < |src| && src[x + 1] != '\0'
  {
    var e := src[x + 1];
    if e == '\n' || (e == '\r' && src[x + 2] == '\n') then s.(lines := s.lines + 1)
    else if e == '\r' then s
    else Prepend(Escaped(e), s)
  }

  lemma EscapeScanned(src: string, x: nat)
    requires Terminated(src) && x + 1 < |src| && src[x] == '\\' && src[x + 1] != '\0'
    ensures ScanText(src, x) == WithEscape(src, x, ScanText(src, Resumed(src, x)))
  {
  }

  lemma ResumedMoved(p: string, src: string, x: nat)
    requires Terminated(src) && x + 1 < |src| && src[x + 1] != '\0'
    ensures Terminated(p + src) && (p + src)[|p| + x + 1] == src[x + 1]
    ensures Resumed(p + src, |p| + x) == |p| + Resumed(src, x)
    ensures forall s :: WithEscape(p + src, |p| + x, Moved(s, |p|)) == Moved(WithEscape(src, x, s), |p|)
  {
    var whole := p + src;
    assert whole[|p| + x + 1] == src[x + 1] && (x + 2 < |src| ==> whole[|p| + x + 2] == src[x + 2]);
    if src[x + 1] == '\r' && src[x + 2] == '\n' {
      SpacesMoved(p, src, x + 3);
    } else if src[x + 1] == '\n' {
      SpacesMoved(p, src, x + 2);
    }
  }

  lemma {:induction false} EscapeMoved(p: string, src: string, x: nat)
    requires Terminated(src) && x + 1 < |src| && src[x] == '\\' && src[x + 1] != '\0'
    ensures Terminated(p + src) && ScanText(p + src, |p| + x) == Moved(ScanText(src, x), |p|)
    decreases |src| - x, 0
  {
    assert (p + src)[|p| + x] == src[x];
    ResumedMoved(p, src, x);
    ScanMoved(p, src, Resumed(src, x));
    EscapeScanned(src, x);
    EscapeScanned(p + src, |p| + x);
  }

  lemma {:induction false} CommentMoved(p: string, src: string, x: nat)
    requires Terminated(src) && x < |src|
    ensures Terminated(p + src) && EndOfComment(p + src, |p| + x) == |p| + EndOfComment(src, x)
    decreases |src| - x
  {
    assert (p + src)[|p| + x] == src[x];
    if src[x] != '\0' && src[x] != '\n' {
      CommentMoved(p, src, x + 1);
    }
  }

  lemma {:induction false} LexMoved(p: string, src: string, x: nat)
    requires Terminated(src) && x < |src|
    ensures Terminated(p + src)
    ensures var r := Lex(src, x); Lex(p + src, |p| + x) == r.(next := |p| + r.next)
    decreases |src| - x
  {
    assert (p + src)[|p| + x] == src[x];
    if Blank(src[x]) {
      LexMoved(p, src, x + 1);
    } else if src[x] == '#' {
      CommentMoved(p, src, x);
      assert (p + src)[|p| + EndOfComment(src, x)] == src[EndOfComment(src, x)];
    } else {
      ScanMoved(p, src, x);
    }
  }

  // Tokens

  /** What the parser gets to see: words, with the continuations crossed, and newlines. */
  datatype Seen = Word(word: string, lines: nat) | LineEnd

  function Tokens(src: string, x: nat, owed: bool): seq<Seen>
    requires Terminated(src) && x < |src|
    decreases Remaining(src, x, owed)
  {
    if owed then [LineEnd] + Tokens(src, x, false)
    else
      var r := Lex(src, x);
      match r.token
      case Eof => []
      case Newline => [LineEnd] + Tokens(src, r.next, r.newline)
      case Text(word) => [Word(word, r.lines)] + Tokens(src, r.next, r.newline)
  }

  /** The lines that the parser collects from tokens. */
  function Collect(ts: seq<Seen>, number: nat, args: seq<string>): seq<Line>
    decreases |ts|
  {
    if ts == [] then []
    else
      match ts[0]
      case Word(word, k) => Collect(ts[1..], number + k, args + [word])
      case LineEnd => EndLine(number, args) + Collect(ts[1..], number + 1, [])
  }

  lemma {:induction false} LinesAreCollected(src: string, x: nat, owed: bool, number: nat, args: seq<string>)
    requires Terminated(src) && x < |src|
    ensures Lines(src, x, owed, number, args) == Collect(Tokens(src, x, owed), number, args)
    decreases Remaining(src, x, owed)
  {
    if owed {
      LinesAreCollected(src, x, false, number + 1, []);
    } else {
      var r := Lex(src, x);
      match r.token
      case Eof =>
      case Newline => LinesAreCollected(src, r.next, r.newline, number + 1, []);
      case Text(word) => LinesAreCollected(src, r.next, r.newline, number + r.lines, args + [word]);
    }
  }

  /** The tokens of a text do not depend on what stands before it. */
  lemma {:induction false} TokensMoved(p: string, src: string, x: nat, owed: bool)
    requires Terminated(src) && x < |src|
    ensures Terminated(p + src) && Tokens(p + src, |p| + x, owed) == Tokens(src, x, owed)
    decreases Remaining(src, x, owed)
  {
    if owed {
      TokensMoved(p, src, x, false);
    } else {
      LexMoved(p, src, x);
      var r := Lex(src, x);
      if !r.token.Eof? {
        TokensMoved(p, src, r.next, r.newline);
      }
    }
  }
}
