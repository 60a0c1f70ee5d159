/** Printing lines of words so that the lexer reads back exactly those lines. */
module TokenizerRoundTrip {
  import opened TokenizerSpec

  // Printing

  function Concat(pieces: seq<string>): string {
    if pieces == [] then "" else pieces[0] + Concat(pieces[1..])
  }

  function PrintChar(c: char): (r: string)
    ensures 0 < |r| <= 2
  {
    match c
    case '\n' => "\\n"
    case '\r' => "\\r"
    case '\t' => "\\t"
    case _ => if c == ' ' || c == '"' || c == '\\' || c == '#' then ['\\', c] else [c]
  }

  function CharPieces(word: string): seq<string> {
    if word == "" then [] else [PrintChar(word[0])] + CharPieces(word[1..])
  }

  /** A word and the space or newline after it; the empty word needs quotes. */
  function PrintWord(word: string, d: char): string {
    (if word == "" then "\"\"" else Concat(CharPieces(word))) + [d]
  }

  function WordPieces(words: seq<string>): seq<string>
    requires words != []
  {
    if |words| == 1 then [PrintWord(words[0], '\n')]
    else [PrintWord(words[0], ' ')] + WordPieces(words[1..])
  }

  function PrintLine(words: seq<string>): string
    requires words != []
  {
    Concat(WordPieces(words))
  }

  predicate NoNul(words: seq<string>) {
    forall i :: 0 <= i < |words| ==> '\0' !in words[i]
  }

  predicate Printable(lines: seq<seq<string>>) {
    forall i :: 0 <= i < |lines| ==> lines[i] != [] && NoNul(lines[i])
  }

  function LinePieces(lines: seq<seq<string>>): seq<string>
    requires Printable(lines)
  {
    if lines == [] then [] else [PrintLine(lines[0])] + LinePieces(lines[1..])
  }

  function PrintLines(lines: seq<seq<string>>): string
    requires Printable(lines)
  {
    Concat(LinePieces(lines))
  }

  // Where the pieces lie

  /** src holds s at position x. */
  predicate At(src: string, x: nat, s: string) {
    x + |s| <= |src| && src[x..x + |s|] == s
  }

  lemma AtSplit(src: string, x: nat, a: string, b: string)
    requires At(src, x, a + b)
    ensures At(src, x, a) && At(src, x + |a|, b)
  {
    var ab := src[x..x + |a + b|];
    assert src[x..x + |a|] == ab[..|a|];
    assert src[x + |a|..x + |a| + |b|] == ab[|a|..];
  }

  lemma AtChar(src: string, x: nat, s: string, i: nat)
    requires At(src, x, s) && i < |s|
    ensures src[x + i] == s[i]
  {
    assert src[x..x + |s|][i] == s[i];
  }

  /** src holds the pieces one after the other from x up to next. */
  predicate PiecesAt(src: string, x: nat, pieces: seq<string>, next: nat)
    decreases |pieces|
  {
    if pieces == [] then x == next
    else At(src, x, pieces[0]) && PiecesAt(src, x + |pieces[0]|, pieces[1..], next)
  }

  lemma {:induction false} ConcatAt(src: string, x: nat, pieces: seq<string>)
    requires At(src, x, Concat(pieces))
    ensures PiecesAt(src, x, pieces, x + |Concat(pieces)|)
    decreases |pieces|
  {
    if pieces == [] {
    } else {
      AtSplit(src, x, pieces[0], Concat(pieces[1..]));
      ConcatAt(src, x + |pieces[0]|, pieces[1..]);
    }
  }

  // One word

  predicate Separator(d: char) {
    d == ' ' || d == '\n'
  }

  lemma ScanPrintedChar(src: string, x: nat, c: char)
    requires Terminated(src) && c != '\0'
    requires At(src, x, PrintChar(c)) && x + |PrintChar(c)| < |src|
    ensures ScanText(src, x) == Prepend(c, ScanText(src, x + |PrintChar(c)|))
  {
    AtChar(src, x, PrintChar(c), 0);
    if |PrintChar(c)| == 2 {
      AtChar(src, x, PrintChar(c), 1);
    }
  }

  lemma {:induction false} PiecesEnd(src: string, x: nat, pieces: seq<string>, next: nat)
    requires PiecesAt(src, x, pieces, next)
    ensures x <= next
    decreases |pieces|
  {
    if pieces == [] {
    } else {
      PiecesEnd(src, x + |pieces[0]|, pieces[1..], next);
    }
  }

  lemma {:induction false} ScanPrintedChars(src: string, x: nat, word: string, next: nat)
    requires Terminated(src) && '\0' !in word && PiecesAt(src, x, CharPieces(word), next)
    requires next < |src| && Separator(src[next])
    ensures x <= next && ScanText(src, x) == Scan(word, next + 1, src[next] == '\n', 0, false)
    decreases |word|
  {
    PiecesEnd(src, x, CharPieces(word), next);
    if word == "" {
    } else {
      var after := x + |PrintChar(word[0])|;
      assert CharPieces(word)[1..] == CharPieces(word[1..]);
      PiecesEnd(src, after, CharPieces(word[1..]), next);
      assert word[0] in word && '\0' !in word[1..];
      ScanPrintedChar(src, x, word[0]);
      ScanPrintedChars(src, after, word[1..], next);
      PrependFirst(word, ScanText(src, after));
    }
  }

  lemma PrependFirst(word: string, rest: Scan)
    requires word != "" && rest.word == word[1..]
    ensures Prepend(word[0], rest) == rest.(word := word)
  {
    assert word == [word[0]] + word[1..];
  }

  /** The lexer reads one word at x and goes on at after; d ended the word. */
  predicate ReadsWord(src: string, x: nat, word: string, d: char, after: nat) {
    Terminated(src) && x < after < |src| && Lex(src, x) == Lexed(Text(word), after, d == '\n', 0)
  }

  lemma ReadsEmptyWord(src: string, x: nat, d: char)
    requires Terminated(src) && Separator(d) && At(src, x, "\"\"" + [d]) && x + 3 < |src|
    ensures ReadsWord(src, x, "", d, x + 3)
  {
    AtChar(src, x, "\"\"" + [d], 0);
    AtChar(src, x, "\"\"" + [d], 1);
    AtChar(src, x, "\"\"" + [d], 2);
    assert ScanText(src, x + 2) == Scan("", x + 3, d == '\n', 0, false);
    assert ScanQuoted(src, x + 1) == ScanText(src, x + 2);
  }

  /** A printed word never looks like the start of something else. */
  lemma PrintedWordStarts(src: string, x: nat, word: string, next: nat)
    requires word != "" && '\0' !in word && PiecesAt(src, x, CharPieces(word), next)
    ensures x < |src| && src[x] != '\0' && src[x] != '\n' && !Blank(src[x]) && src[x] != '#'
  {
    assert word[0] in word;
    AtChar(src, x, PrintChar(word[0]), 0);
  }

  lemma ReadsChars(src: string, x: nat, word: string, next: nat)
    requires Terminated(src) && word != "" && '\0' !in word && PiecesAt(src, x, CharPieces(word), next)
    requires next + 1 < |src| && Separator(src[next])
    ensures ReadsWord(src, x, word, src[next], next + 1)
  {
    PrintedWordStarts(src, x, word, next);
    ScanPrintedChars(src, x, word, next);
  }

  lemma PiecesThenChar(src: string, x: nat, pieces: seq<string>, d: char)
    requires At(src, x, Concat(pieces) + [d])
    ensures PiecesAt(src, x, pieces, x + |Concat(pieces)|) && src[x + |Concat(pieces)|] == d
  {
    AtSplit(src, x, Concat(pieces), [d]);
    AtChar(src, x + |Concat(pieces)|, [d], 0);
    ConcatAt(src, x, pieces);
  }

  /** A printed word is read back as that word. */
  lemma ReadsPrintedWord(src: string, x: nat, word: string, d: char)
    requires Terminated(src) && '\0' !in word && Separator(d)
    requires At(src, x, PrintWord(word, d)) && x + |PrintWord(word, d)| < |src|
    ensures ReadsWord(src, x, word, d, x + |PrintWord(word, d)|)
  {
    if word == "" {
      ReadsEmptyWord(src, x, d);
    } else {
      PiecesThenChar(src, x, CharPieces(word), d);
      ReadsChars(src, x, word, x + |PrintWord(word, d)| - 1);
    }
  }

  // One line

  /** The lexer reads these words from x up to next, the last one ended by a newline. */
  ghost predicate ReadsWords(src: string, x: nat, words: seq<string>, next: nat)
    requires words != []
    decreases |words|
  {
    if |words| == 1 then ReadsWord(src, x, words[0], '\n', next)
    else exists after :: ReadsWord(src, x, words[0], ' ', after) && ReadsWords(src, after, words[1..], next)
  }

  lemma WordPiecesSplit(words: seq<string>)
    requires |words| > 1
    ensures WordPieces(words)[0] == PrintWord(words[0], ' ') && WordPieces(words)[1..] == WordPieces(words[1..])
  {
  }

  lemma ReadsFirstWord(src: string, x: nat, words: seq<string>, after: nat, next: nat)
    requires |words| > 1 && ReadsWord(src, x, words[0], ' ', after) && ReadsWords(src, after, words[1..], next)
    ensures ReadsWords(src, x, words, next)
  {
  }

  lemma {:induction false} ReadsPrintedWords(src: string, x: nat, words: seq<string>, next: nat)
    requires Terminated(src) && words != [] && NoNul(words)
    requires PiecesAt(src, x, WordPieces(words), next) && next < |src|
    ensures ReadsWords(src, x, words, next)
    decreases |words|
  {
    if |words| == 1 {
      assert WordPieces(words)[1..] == [];
      ReadsPrintedWord(src, x, words[0], '\n');
    } else {
      WordPiecesSplit(words);
      var after := x + |PrintWord(words[0], ' ')|;
      PiecesEnd(src, after, WordPieces(words[1..]), next);
      ReadsPrintedWord(src, x, words[0], ' ');
      ReadsPrintedWords(src, after, words[1..], next);
      ReadsFirstWord(src, x, words, after, next);
    }
  }

  lemma LinesAtWord(src: string, x: nat, word: string, d: char, after: nat, number: nat, args: seq<string>)
    requires ReadsWord(src, x, word, d, after)
    ensures Lines(src, x, false, number, args)
         == if d == '\n' then EndLine(number, args + [word]) + Lines(src, after, false, number + 1, [])
            else Lines(src, after, false, number, args + [word])
  {
  }

  /** Words that are read make one line, after the words that precede them. */
  lemma {:induction false} LinesOfWords(src: string, x: nat, words: seq<string>, next: nat, number: nat,
                                        args: seq<string>, all: seq<string>)
    requires Terminated(src) && words != [] && ReadsWords(src, x, words, next) && all == args + words
    ensures x < next < |src|
    ensures Lines(src, x, false, number, args)
         == [Line(all, number + 1)] + Lines(src, next, false, number + 1, [])
    decreases |words|
  {
    if |words| == 1 {
      LinesAtWord(src, x, words[0], '\n', next, number, args);
      OnlyWord(args, words);
    } else {
      var after :| ReadsWord(src, x, words[0], ' ', after) && ReadsWords(src, after, words[1..], next);
      LinesAtWord(src, x, words[0], ' ', after, number, args);
      AppendFirst(args, words);
      LinesOfWords(src, after, words[1..], next, number, args + [words[0]], all);
    }
  }

  lemma OnlyWord(args: seq<string>, words: seq<string>)
    requires |words| == 1
    ensures args + [words[0]] == args + words
  {
    assert words == [words[0]];
  }

  lemma AppendFirst(args: seq<string>, words: seq<string>)
    requires words != []
    ensures args + [words[0]] + words[1..] == args + words
  {
  }

  // All lines

  function Numbered(lines: seq<seq<string>>, number: nat): seq<Line> {
    if lines == [] then [] else [Line(lines[0], number + 1)] + Numbered(lines[1..], number + 1)
  }

  lemma LinesOfEnd(src: string, x: nat, number: nat)
    requires Terminated(src) && x + 2 == |src| && src[x] == '\n'
    ensures Lines(src, x, false, number, []) == []
  {
    assert Lex(src, x + 1).token == Eof;
    assert Lines(src, x + 1, false, number + 1, []) == [];
  }

  lemma LinesOfPrintedLine(src: string, x: nat, words: seq<string>, number: nat)
    requires Terminated(src) && words != [] && NoNul(words)
    requires At(src, x, PrintLine(words)) && x + |PrintLine(words)| < |src|
    ensures Lines(src, x, false, number, [])
         == [Line(words, number + 1)] + Lines(src, x + |PrintLine(words)|, false, number + 1, [])
  {
    ConcatAt(src, x, WordPieces(words));
    ReadsPrintedWords(src, x, words, x + |PrintLine(words)|);
    LinesOfWords(src, x, words, x + |PrintLine(words)|, number, [], words);
  }

  lemma {:induction false} LinesOfPrinted(src: string, x: nat, lines: seq<seq<string>>, next: nat, number: nat)
    requires Terminated(src) && Printable(lines) && PiecesAt(src, x, LinePieces(lines), next)
    requires next + 2 == |src| && src[next] == '\n'
    ensures x < |src| && Lines(src, x, false, number, []) == Numbered(lines, number)
    decreases |lines|
  {
    PiecesEnd(src, x, LinePieces(lines), next);
    if lines == [] {
      LinesOfEnd(src, x, number);
    } else {
      var after := x + |PrintLine(lines[0])|;
      assert LinePieces(lines)[1..] == LinePieces(lines[1..]);
      PiecesEnd(src, after, LinePieces(lines[1..]), next);
      LinesOfPrintedLine(src, x, lines[0], number);
      LinesOfPrinted(src, after, lines[1..], next, number + 1);
      NumberedFirst(lines, number);
    }
  }

  lemma NumberedFirst(lines: seq<seq<string>>, number: nat)
    requires lines != []
    ensures Numbered(lines, number) == [Line(lines[0], number + 1)] + Numbered(lines[1..], number + 1)
  {
  }

  /** For all lines of words: what the parser sees of the printed text, with the newline and the NUL
      that it appends, is those lines, one per line of the file. */
  lemma RoundTrip(lines: seq<seq<string>>)
    requires Printable(lines)
    ensures Lines(PrintLines(lines) + "\n\0", 0, false, 0, []) == Numbered(lines, 0)
  {
    var printed := PrintLines(lines);
    var src := printed + "\n\0";
    assert src[0..0 + |printed|] == printed;
    ConcatAt(src, 0, LinePieces(lines));
    LinesOfPrinted(src, 0, lines, |printed|, 0);
  }
}
