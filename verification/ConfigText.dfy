/** Every form of configuration text is read as what it means: plain characters, escapes, quotes,
    continuations, blanks and comments, in any mixture, with any other text behind. */
module ConfigText {
  import opened Wrappers
  import opened Sequences
  import opened TokenizerSpec
  import opened TokenizerForms

  // Words

  /** A part of a word as it is written.  A continuation is a backslash, a newline or carriage return and
      newline, and spaces or tabs; a backslash and a carriage return alone mean nothing. */
  datatype Piece = Plain(c: char) | Escape(c: char) | Quoted(content: string)
                 | Continuation(cr: bool, spaces: string) | LoneCr

  function PieceText(p: Piece): string {
    match p
    case Plain(c) => [c]
    case Escape(c) => ['\\', c]
    case Quoted(content) => "\"" + content + "\""
    case Continuation(cr, spaces) => (if cr then "\\\r\n" else "\\\n") + spaces
    case LoneCr => "\\\r"
  }

  function PieceMeaning(p: Piece): string {
    match p
    case Plain(c) => [c]
    case Escape(c) => if c == 'n' then "\n" else if c == 'r' then "\r" else if c == 't' then "\t" else [c]
    case Quoted(content) => content
    case Continuation(_, _) => ""
    case LoneCr => ""
  }

  function PieceLines(p: Piece): nat {
    if p.Continuation? then 1 else 0
  }

  predicate PieceOk(p: Piece) {
    match p
    case Plain(c) => c !in ['\0', ' ', '\t', '\r', '\n', '"', '\\']
    case Escape(c) => c !in ['\0', '\r', '\n']
    case Quoted(content) => '"' !in content && '\0' !in content
    case Continuation(_, spaces) => forall i :: 0 <= i < |spaces| ==> spaces[i] == ' ' || spaces[i] == '\t'
    case LoneCr => true
  }

  /** What may stand behind a piece so that it ends there. */
  predicate MayPrecede(p: Piece, c: char) {
    (p.Continuation? ==> c != ' ' && c != '\t') && (p.LoneCr? ==> c != '\n')
  }

  function PiecesText(ps: seq<Piece>): string {
    if ps == [] then "" else PieceText(ps[0]) + PiecesText(ps[1..])
  }

  function PiecesMeaning(ps: seq<Piece>): string {
    if ps == [] then "" else PieceMeaning(ps[0]) + PiecesMeaning(ps[1..])
  }

  function PiecesLines(ps: seq<Piece>): nat {
    if ps == [] then 0 else PieceLines(ps[0]) + PiecesLines(ps[1..])
  }

  predicate PiecesOk(ps: seq<Piece>, next: char) {
    (forall i :: 0 <= i < |ps| ==> PieceOk(ps[i])) && (ps != [] ==> MayPrecede(ps[|ps| - 1], next))
  }

  /** Scanned behind a stretch of n characters that means word. */
  function Behind(n: nat, word: string, lines: nat, s: Scan): Scan {
    Scan(word + s.word, n + s.next, s.newline, lines + s.lines, s.eof)
  }

  lemma {:induction false} ScanQuotedText(content: string, rest: string)
    requires '"' !in content && '\0' !in content && Terminated(rest)
    ensures Terminated(content + "\"" + rest)
    ensures ScanQuoted(content + "\"" + rest, 0) == Behind(|content| + 1, content, 0, ScanText(rest, 0))
    decreases |content|
  {
    var src := content + "\"" + rest;
    if content == "" {
      ScanMoved("\"", rest, 0);
      assert src == "\"" + rest;
    } else {
      var shorter := content[1..] + "\"" + rest;
      assert src == [content[0]] + shorter && content[0] in content;
      assert forall c :: c in content[1..] ==> c in content;
      ScanQuotedText(content[1..], rest);
      ScanMoved([content[0]], shorter, 0);
      assert content == [content[0]] + content[1..];
      Assoc([content[0]], content[1..], ScanText(rest, 0).word);
    }
  }

  lemma SkipsSpaces(head: string, spaces: string, rest: string)
    requires forall i :: 0 <= i < |spaces| ==> spaces[i] == ' ' || spaces[i] == '\t'
    requires Terminated(rest) && rest[0] != ' ' && rest[0] != '\t'
    ensures Terminated(head + spaces + rest)
    ensures SkipSpaces(head + spaces + rest, |head|) == |head + spaces|
  {
    var src := head + spaces + rest;
    assert src[|head + spaces|] == rest[0];
    assert forall i :: 0 <= i < |spaces| ==> src[|head| + i] == spaces[i];
    assert SkipSpaces(src, |head|) >= |head + spaces|;
  }

  lemma ContinuationResumes(cr: bool, spaces: string, rest: string)
    requires PieceOk(Continuation(cr, spaces))
    requires Terminated(rest) && rest[0] != ' ' && rest[0] != '\t'
    ensures var text := PieceText(Continuation(cr, spaces)); var src := text + rest;
            && Terminated(src) && src[0] == '\\' && src[1] != '\0'
            && (src[1] == '\n' || (src[1] == '\r' && src[2] == '\n')) && Resumed(src, 0) == |text|
  {
    var head := if cr then "\\\r\n" else "\\\n";
    var src := head + spaces + rest;
    SkipsSpaces(head, spaces, rest);
    assert src[0] == '\\' && src[1] == head[1] && (cr ==> src[2] == '\n');
  }

  lemma ScanContinuation(cr: bool, spaces: string, rest: string)
    requires PieceOk(Continuation(cr, spaces))
    requires Terminated(rest) && rest[0] != ' ' && rest[0] != '\t'
    ensures var text := PieceText(Continuation(cr, spaces)); Terminated(text + rest)
    ensures var text := PieceText(Continuation(cr, spaces));
            ScanText(text + rest, 0) == Behind(|text|, "", 1, ScanText(rest, 0))
  {
    var text := PieceText(Continuation(cr, spaces));
    ContinuationResumes(cr, spaces, rest);
    ScanMoved(text, rest, 0);
    EscapeScanned(text + rest, 0);
    assert "" + ScanText(rest, 0).word == ScanText(rest, 0).word;
  }

  lemma ScanEscape(c: char, rest: string)
    requires PieceOk(Escape(c)) && Terminated(rest)
    ensures ScanText(['\\', c] + rest, 0) == Behind(2, PieceMeaning(Escape(c)), 0, ScanText(rest, 0))
  {
    ScanMoved(['\\', c], rest, 0);
    EscapeScanned(['\\', c] + rest, 0);
  }

  lemma ScanLoneCr(rest: string)
    requires Terminated(rest) && rest[0] != '\n'
    ensures ScanText("\\\r" + rest, 0) == Behind(2, "", 0, ScanText(rest, 0))
  {
    ScanMoved("\\\r", rest, 0);
    EscapeScanned("\\\r" + rest, 0);
    assert ("\\\r" + rest)[2] == rest[0];
    assert "" + ScanText(rest, 0).word == ScanText(rest, 0).word;
  }

  lemma ScanPlain(c: char, rest: string)
    requires PieceOk(Plain(c)) && Terminated(rest)
    ensures ScanText([c] + rest, 0) == Behind(1, [c], 0, ScanText(rest, 0))
  {
    ScanMoved([c], rest, 0);
  }

  lemma ScanQuote(content: string, rest: string)
    requires PieceOk(Quoted(content)) && Terminated(rest)
    ensures Terminated("\"" + content + "\"" + rest)
    ensures ScanText("\"" + content + "\"" + rest, 0) == Behind(|content| + 2, content, 0, ScanText(rest, 0))
  {
    var inner := content + "\"" + rest;
    ScanQuotedText(content, rest);
    ScanMoved("\"", inner, 0);
    assert "\"" + content + "\"" + rest == "\"" + inner;
  }

  lemma ScanPiece(p: Piece, rest: string)
    requires PieceOk(p) && Terminated(rest) && MayPrecede(p, rest[0])
    ensures Terminated(PieceText(p) + rest)
    ensures ScanText(PieceText(p) + rest, 0)
         == Behind(|PieceText(p)|, PieceMeaning(p), PieceLines(p), ScanText(rest, 0))
  {
    match p
    case Plain(c) => ScanPlain(c, rest);
    case Escape(c) => ScanEscape(c, rest);
    case Quoted(content) => ScanQuote(content, rest);
    case Continuation(cr, spaces) => ScanContinuation(cr, spaces, rest);
    case LoneCr => ScanLoneCr(rest);
  }

  lemma PieceStarts(p: Piece)
    requires PieceOk(p)
    ensures PieceText(p) != "" && PieceText(p)[0] !in ['\0', ' ', '\t', '\r', '\n']
    ensures PieceText(p)[0] == '#' ==> p == Plain('#')
  {
  }

  lemma BehindTwice(n: nat, a: string, k: nat, m: nat, b: string, l: nat, s: Scan)
    ensures Behind(n, a, k, Behind(m, b, l, s)) == Behind(n + m, a + b, k + l, s)
  {
    Assoc(a, b, s.word);
  }

  lemma {:induction false} ScanPieces(ps: seq<Piece>, rest: string)
    requires Terminated(rest) && PiecesOk(ps, rest[0])
    ensures Terminated(PiecesText(ps) + rest)
    ensures ScanText(PiecesText(ps) + rest, 0)
         == Behind(|PiecesText(ps)|, PiecesMeaning(ps), PiecesLines(ps), ScanText(rest, 0))
    decreases |ps|
  {
    if ps == [] {
      assert "" + rest == rest;
      assert "" + ScanText(rest, 0).word == ScanText(rest, 0).word;
    } else {
      var more := PiecesText(ps[1..]) + rest;
      ScanPieces(ps[1..], rest);
      if |ps| > 1 {
        PieceStarts(ps[1]);
      }
      ScanPiece(ps[0], more);
      Assoc(PieceText(ps[0]), PiecesText(ps[1..]), rest);
      BehindTwice(|PieceText(ps[0])|, PieceMeaning(ps[0]), PieceLines(ps[0]), |PiecesText(ps[1..])|,
        PiecesMeaning(ps[1..]), PiecesLines(ps[1..]), ScanText(rest, 0));
    }
  }

  // Lines

  /** A line as it is written: words with the blanks before them, each ended by a blank or the newline, then
      blanks and perhaps a comment. */
  datatype Row =
    | End(blanks: string, comment: Option<string>)
    | LastWord(blanks: string, word: seq<Piece>)
    | MoreWords(blanks: string, word: seq<Piece>, separator: char, rest: Row)

  predicate IsBlank(c: char) {
    c == ' ' || c == '\t' || c == '\r'
  }

  predicate AllBlank(blanks: string) {
    forall i :: 0 <= i < |blanks| ==> IsBlank(blanks[i])
  }

  predicate CommentOk(comment: Option<string>) {
    comment.Some? ==> '\n' !in comment.value && '\0' !in comment.value
  }

  /** A word is not empty text and does not start like a comment. */
  predicate WordOk(word: seq<Piece>, next: char) {
    word != [] && word[0] != Plain('#') && PiecesOk(word, next)
  }

  predicate RowOk(row: Row) {
    match row
    case End(blanks, comment) => AllBlank(blanks) && CommentOk(comment)
    case LastWord(blanks, word) => AllBlank(blanks) && WordOk(word, '\n')
    case MoreWords(blanks, word, separator, rest) =>
      AllBlank(blanks) && IsBlank(separator) && WordOk(word, separator) && RowOk(rest)
  }

  function RowText(row: Row): string {
    match row
    case End(blanks, comment) => blanks + (if comment.Some? then "#" + comment.value else "") + "\n"
    case LastWord(blanks, word) => blanks + PiecesText(word) + "\n"
    case MoreWords(blanks, word, separator, rest) => blanks + PiecesText(word) + [separator] + RowText(rest)
  }

  function RowWords(row: Row): seq<string> {
    match row
    case End(_, _) => []
    case LastWord(_, word) => [PiecesMeaning(word)]
    case MoreWords(_, word, _, rest) => [PiecesMeaning(word)] + RowWords(rest)
  }

  /** The continuations in a line. */
  function RowLines(row: Row): nat {
    match row
    case End(_, _) => 0
    case LastWord(_, word) => PiecesLines(word)
    case MoreWords(_, word, _, rest) => PiecesLines(word) + RowLines(rest)
  }

  lemma {:induction false} LexBlanks(blanks: string, rest: string)
    requires AllBlank(blanks) && Terminated(rest)
    ensures Terminated(blanks + rest)
    ensures var r := Lex(rest, 0); Lex(blanks + rest, 0) == r.(next := |blanks| + r.next)
    decreases |blanks|
  {
    if blanks == "" {
      assert "" + rest == rest;
    } else {
      var shorter := blanks[1..] + rest;
      assert blanks + rest == [blanks[0]] + shorter;
      LexBlanks(blanks[1..], rest);
      LexMoved([blanks[0]], shorter, 0);
    }
  }

  lemma LexWord(word: seq<Piece>, d: char, rest: string)
    requires (IsBlank(d) || d == '\n') && WordOk(word, d) && Terminated(rest)
    ensures var text := PiecesText(word) + [d]; Terminated(text + rest)
    ensures var text := PiecesText(word) + [d];
            Lex(text + rest, 0) == Lexed(Text(PiecesMeaning(word)), |text|, d == '\n', PiecesLines(word))
  {
    var more := [d] + rest;
    ScanPieces(word, more);
    assert PiecesText(word) + [d] + rest == PiecesText(word) + more;
    PieceStarts(word[0]);
    assert ScanText(more, 0) == Scan("", 1, d == '\n', 0, false);
    assert PiecesMeaning(word) + "" == PiecesMeaning(word);
  }

  lemma LexEnd(comment: Option<string>, rest: string)
    requires CommentOk(comment) && Terminated(rest)
    ensures var text := (if comment.Some? then "#" + comment.value else "") + "\n";
            Terminated(text + rest) && Lex(text + rest, 0) == Lexed(Newline, |text|, false, 0)
  {
    if comment.Some? {
      var c := comment.value;
      var src := "#" + c + "\n" + rest;
      assert forall i :: 0 <= i < |c| ==> src[i + 1] == c[i];
      assert src[|c| + 1] == '\n';
      assert forall i :: 0 <= i < |c| ==> c[i] in c;
      assert forall i :: 0 <= i <= |c| ==> src[i] != '\n' && src[i] != '\0';
      assert EndOfComment(src, 0) == |c| + 1;
    }
  }

  lemma LexBlankWord(blanks: string, word: seq<Piece>, d: char, rest: string)
    requires AllBlank(blanks) && (IsBlank(d) || d == '\n') && WordOk(word, d) && Terminated(rest)
    ensures var text := blanks + PiecesText(word) + [d]; Terminated(text + rest)
    ensures var text := blanks + PiecesText(word) + [d];
            Lex(text + rest, 0) == Lexed(Text(PiecesMeaning(word)), |text|, d == '\n', PiecesLines(word))
  {
    LexWord(word, d, rest);
    LexBlanks(blanks, PiecesText(word) + [d] + rest);
    assert blanks + PiecesText(word) + [d] + rest == blanks + (PiecesText(word) + [d] + rest);
  }

  lemma LexBlankEnd(blanks: string, comment: Option<string>, rest: string)
    requires AllBlank(blanks) && CommentOk(comment) && Terminated(rest)
    ensures var text := RowText(End(blanks, comment)); Terminated(text + rest)
    ensures var text := RowText(End(blanks, comment)); Lex(text + rest, 0) == Lexed(Newline, |text|, false, 0)
  {
    var ending := (if comment.Some? then "#" + comment.value else "") + "\n";
    LexEnd(comment, rest);
    LexBlanks(blanks, ending + rest);
    assert RowText(End(blanks, comment)) + rest == blanks + (ending + rest);
  }

  /** The tokens of a line. */
  function RowTokens(row: Row): seq<Seen> {
    match row
    case End(_, _) => [LineEnd]
    case LastWord(_, word) => [Word(PiecesMeaning(word), PiecesLines(word)), LineEnd]
    case MoreWords(_, word, _, rest) => [Word(PiecesMeaning(word), PiecesLines(word))] + RowTokens(rest)
  }

  lemma TokensFrom(text: string, rest: string, token: Token, newline: bool, k: nat)
    requires Terminated(rest) && Terminated(text + rest) && !token.Eof?
    requires Lex(text + rest, 0) == Lexed(token, |text|, newline, k)
    ensures Tokens(text + rest, 0, false)
         == [if token.Text? then Word(token.word, k) else LineEnd] + (if newline then [LineEnd] else [])
            + Tokens(rest, 0, false)
  {
    TokensMoved(text, rest, 0, false);
  }

  lemma {:induction false} TokensOfRow(row: Row, rest: string)
    requires RowOk(row) && Terminated(rest)
    ensures Terminated(RowText(row) + rest)
    ensures Tokens(RowText(row) + rest, 0, false) == RowTokens(row) + Tokens(rest, 0, false)
    decreases row
  {
    match row
    case End(blanks, comment) =>
      LexBlankEnd(blanks, comment, rest);
      TokensFrom(RowText(row), rest, Newline, false, 0);
    case LastWord(blanks, word) =>
      LexBlankWord(blanks, word, '\n', rest);
      TokensFrom(RowText(row), rest, Text(PiecesMeaning(word)), true, PiecesLines(word));
    case MoreWords(blanks, word, separator, others) =>
      TokensOfRow(others, rest);
      TokensOfWord(blanks, word, separator, RowText(others) + rest);
      Assoc(blanks + PiecesText(word) + [separator], RowText(others), rest);
      Assoc([Word(PiecesMeaning(word), PiecesLines(word))], RowTokens(others), Tokens(rest, 0, false));
  }

  lemma TokensOfWord(blanks: string, word: seq<Piece>, d: char, rest: string)
    requires AllBlank(blanks) && IsBlank(d) && WordOk(word, d) && Terminated(rest)
    ensures var text := blanks + PiecesText(word) + [d]; Terminated(text + rest)
    ensures var text := blanks + PiecesText(word) + [d];
            Tokens(text + rest, 0, false) == [Word(PiecesMeaning(word), PiecesLines(word))] + Tokens(rest, 0, false)
  {
    LexBlankWord(blanks, word, d, rest);
    TokensFrom(blanks + PiecesText(word) + [d], rest, Text(PiecesMeaning(word)), false, PiecesLines(word));
  }

  lemma CollectWord(word: string, k: nat, ts: seq<Seen>, n: nat, sum: nat, args: seq<string>)
    requires sum == n + k
    ensures Collect([Word(word, k)] + ts, n, args) == Collect(ts, sum, args + [word])
  {
    assert ([Word(word, k)] + ts)[1..] == ts;
  }

  lemma CollectEnd(ts: seq<Seen>, n: nat, args: seq<string>)
    ensures Collect([LineEnd] + ts, n, args) == EndLine(n, args) + Collect(ts, n + 1, [])
  {
    assert ([LineEnd] + ts)[1..] == ts;
  }

  lemma {:induction false} CollectRow(row: Row, ts: seq<Seen>, n: nat, sum: nat, args: seq<string>)
    requires sum == n + RowLines(row)
    ensures Collect(RowTokens(row) + ts, n, args)
         == EndLine(sum, args + RowWords(row)) + Collect(ts, sum + 1, [])
    decreases row
  {
    match row
    case End(_, _) =>
      CollectEnd(ts, n, args);
      assert args + [] == args;
    case LastWord(_, word) =>
      var w := PiecesMeaning(word);
      assert RowTokens(row) + ts == [Word(w, PiecesLines(word))] + ([LineEnd] + ts);
      CollectWord(w, PiecesLines(word), [LineEnd] + ts, n, sum, args);
      CollectEnd(ts, sum, args + [w]);
    case MoreWords(_, word, _, rest) =>
      var w, k := PiecesMeaning(word), PiecesLines(word);
      CollectRow(rest, ts, n + k, sum, args + [w]);
      Assoc([Word(w, k)], RowTokens(rest), ts);
      CollectWord(w, k, RowTokens(rest) + ts, n, n + k, args);
      Assoc(args, [w], RowWords(rest));
  }

  /** The same words, the numbers higher by n. */
  function Renumbered(lines: seq<Line>, n: nat): seq<Line> {
    if lines == [] then [] else [Line(lines[0].args, lines[0].number + n)] + Renumbered(lines[1..], n)
  }

  lemma RenumberedEndLine(number: nat, args: seq<string>, rest: seq<Line>, n: nat, sum: nat)
    requires sum == number + n
    ensures Renumbered(EndLine(number, args) + rest, n) == EndLine(sum, args) + Renumbered(rest, n)
  {
    if args == [] {
      assert [] + rest == rest && [] + Renumbered(rest, n) == Renumbered(rest, n);
    } else {
      assert ([Line(args, number + 1)] + rest)[1..] == rest;
    }
  }

  lemma {:induction false} CollectRenumbered(ts: seq<Seen>, number: nat, args: seq<string>, n: nat, sum: nat)
    requires sum == number + n
    ensures Collect(ts, sum, args) == Renumbered(Collect(ts, number, args), n)
    decreases |ts|
  {
    if ts == [] {
    } else {
      match ts[0]
      case Word(word, k) => CollectRenumbered(ts[1..], number + k, args + [word], n, sum + k);
      case LineEnd =>
        CollectRenumbered(ts[1..], number + 1, [], n, sum + 1);
        RenumberedEndLine(number, args, Collect(ts[1..], number + 1, []), n, sum);
    }
  }

  // Texts

  predicate RowsOk(rows: seq<Row>) {
    forall i :: 0 <= i < |rows| ==> RowOk(rows[i])
  }

  function RowsText(rows: seq<Row>): string {
    if rows == [] then "" else RowText(rows[0]) + RowsText(rows[1..])
  }

  /** One line of words for each written line that has any, numbered by the newlines and continuations up to
      its end; newlines within quotes do not count. */
  function RowsLines(rows: seq<Row>, n: nat): seq<Line> {
    if rows == [] then []
    else EndLine(n + RowLines(rows[0]), RowWords(rows[0])) + RowsLines(rows[1..], n + RowLines(rows[0]) + 1)
  }

  function RowsHeight(rows: seq<Row>): nat {
    if rows == [] then 0 else RowLines(rows[0]) + 1 + RowsHeight(rows[1..])
  }

  lemma {:induction false} TokensOfRows(rows: seq<Row>, t: string)
    requires RowsOk(rows) && Terminated(t)
    ensures Terminated(RowsText(rows) + t)
    ensures Tokens(RowsText(rows) + t, 0, false) == RowsTokens(rows) + Tokens(t, 0, false)
    decreases |rows|
  {
    if rows == [] {
      assert "" + t == t;
    } else {
      var rest := RowsText(rows[1..]) + t;
      TokensOfRows(rows[1..], t);
      TokensOfRow(rows[0], rest);
      Assoc(RowText(rows[0]), RowsText(rows[1..]), t);
      Assoc(RowTokens(rows[0]), RowsTokens(rows[1..]), Tokens(t, 0, false));
    }
  }

  function RowsTokens(rows: seq<Row>): seq<Seen> {
    if rows == [] then [] else RowTokens(rows[0]) + RowsTokens(rows[1..])
  }

  lemma {:induction false} CollectRows(rows: seq<Row>, ts: seq<Seen>, n: nat, sum: nat)
    requires sum == n + RowsHeight(rows)
    ensures Collect(RowsTokens(rows) + ts, n, []) == RowsLines(rows, n) + Collect(ts, sum, [])
    decreases |rows|
  {
    if rows == [] {
      assert [] + ts == ts;
    } else {
      var m := n + RowLines(rows[0]);
      CollectRows(rows[1..], ts, m + 1, sum);
      CollectRow(rows[0], RowsTokens(rows[1..]) + ts, n, m, []);
      Assoc(RowTokens(rows[0]), RowsTokens(rows[1..]), ts);
      assert [] + RowWords(rows[0]) == RowWords(rows[0]);
      Assoc(EndLine(m, RowWords(rows[0])), RowsLines(rows[1..], m + 1), Collect(ts, sum, []));
    }
  }

  lemma LinesFromStart(src: string)
    requires Terminated(src)
    ensures Lines(src, 0, false, 0, []) == Collect(Tokens(src, 0, false), 0, [])
  {
    LinesAreCollected(src, 0, false, 0, []);
  }

  /** Whatever mixture of forms a text is written in, and whatever stands behind it, its lines are the lines of
      words that it means, and the lines behind keep their words. */
  lemma TextMeans(rows: seq<Row>, t: string)
    requires RowsOk(rows) && Terminated(t)
    ensures Terminated(RowsText(rows) + t)
    ensures Lines(RowsText(rows) + t, 0, false, 0, [])
         == RowsLines(rows, 0) + Renumbered(Lines(t, 0, false, 0, []), RowsHeight(rows))
  {
    TokensOfRows(rows, t);
    LinesFromStart(RowsText(rows) + t);
    LinesFromStart(t);
    CollectRows(rows, Tokens(t, 0, false), 0, RowsHeight(rows));
    CollectRenumbered(Tokens(t, 0, false), 0, [], RowsHeight(rows), RowsHeight(rows));
  }

  /** A comment in front of any text is an empty line. */
  lemma CommentLine(c: string, t: string)
    requires '\n' !in c && '\0' !in c
    ensures Lines("#" + c + "\n" + t + "\n\0", 0, false, 0, []) == Renumbered(Lines(t + "\n\0", 0, false, 0, []), 1)
  {
    var row := End("", Some(c));
    OneRow(row, t + "\n\0");
    assert "" + ("#" + c) + "\n" == "#" + c + "\n";
    assert "#" + c + "\n" + t + "\n\0" == "#" + c + "\n" + (t + "\n\0");
  }

  lemma OneRow(row: Row, t: string)
    requires RowOk(row) && Terminated(t)
    ensures Terminated(RowText(row) + t)
    ensures Lines(RowText(row) + t, 0, false, 0, [])
         == EndLine(RowLines(row), RowWords(row)) + Renumbered(Lines(t, 0, false, 0, []), RowLines(row) + 1)
  {
    TextMeans([row], t);
    assert RowsText([row]) == RowText(row) + "" == RowText(row);
    assert [row][1..] == [];
    assert RowsLines([row], 0) == EndLine(RowLines(row), RowWords(row)) + [] == EndLine(RowLines(row), RowWords(row));
  }

  /** The line with a space and a comment behind its last word. */
  function Commented(row: Row, c: string): Row {
    match row
    case End(_, _) => row
    case LastWord(blanks, word) => MoreWords(blanks, word, ' ', End("", Some(c)))
    case MoreWords(blanks, word, separator, rest) => MoreWords(blanks, word, separator, Commented(rest, c))
  }

  predicate EndsInWord(row: Row) {
    row.LastWord? || (row.MoreWords? && EndsInWord(row.rest))
  }

  /** A line without its newline. */
  function Stretch(row: Row): string
    requires EndsInWord(row)
  {
    match row
    case LastWord(blanks, word) => blanks + PiecesText(word)
    case MoreWords(blanks, word, separator, rest) => blanks + PiecesText(word) + [separator] + Stretch(rest)
  }

  lemma {:induction false} CommentedText(row: Row, c: string)
    requires EndsInWord(row)
    ensures RowText(row) == Stretch(row) + "\n" && RowText(Commented(row, c)) == Stretch(row) + (" #" + c + "\n")
    ensures RowWords(Commented(row, c)) == RowWords(row) && RowLines(Commented(row, c)) == RowLines(row)
    decreases row
  {
    match row
    case LastWord(blanks, word) =>
      assert "" + ("#" + c) + "\n" == "#" + c + "\n";
      assert " " + ("#" + c + "\n") == " #" + c + "\n";
      Assoc(blanks + PiecesText(word), " ", "#" + c + "\n");
    case MoreWords(blanks, word, separator, rest) =>
      CommentedText(rest, c);
      Assoc(blanks + PiecesText(word) + [separator], Stretch(rest), "\n");
      Assoc(blanks + PiecesText(word) + [separator], Stretch(rest), " #" + c + "\n");
  }

  lemma SameWords(a: Row, b: Row, t: string)
    requires RowOk(a) && RowOk(b) && Terminated(t) && RowWords(a) == RowWords(b) && RowLines(a) == RowLines(b)
    ensures Terminated(RowText(a) + t) && Terminated(RowText(b) + t)
    ensures Lines(RowText(a) + t, 0, false, 0, []) == Lines(RowText(b) + t, 0, false, 0, [])
  {
    OneRow(a, t);
    OneRow(b, t);
  }

  /** A comment behind the words of a line, in front of any text, changes nothing. */
  lemma CommentBehind(row: Row, c: string, t: string)
    requires EndsInWord(row) && RowOk(row) && RowOk(Commented(row, c)) && Terminated(t)
    ensures Terminated(Stretch(row) + (" #" + c + "\n") + t) && Terminated(Stretch(row) + "\n" + t)
    ensures Lines(Stretch(row) + (" #" + c + "\n") + t, 0, false, 0, [])
         == Lines(Stretch(row) + "\n" + t, 0, false, 0, [])
  {
    CommentedText(row, c);
    SameWords(row, Commented(row, c), t);
  }

  // Where reading stops

  /** A NUL ends the text, whatever stands behind it. */
  lemma NulEnds(blanks: string, t: string, n: nat, args: seq<string>)
    requires AllBlank(blanks) && Terminated("\0" + t)
    ensures Terminated(blanks + "\0" + t) && Lines(blanks + "\0" + t, 0, false, n, args) == []
  {
    LexBlanks(blanks, "\0" + t);
    assert blanks + "\0" + t == blanks + ("\0" + t);
    LinesAreCollected(blanks + "\0" + t, 0, false, n, args);
  }

  lemma NothingAtEof(src: string, n: nat, args: seq<string>)
    requires Terminated(src) && Lex(src, 0).token.Eof?
    ensures Lines(src, 0, false, n, args) == []
  {
  }

  /** A quote that is never closed drops the line it is in and everything behind. */
  lemma OpenQuoteDrops(word: seq<Piece>, content: string, n: nat, args: seq<string>)
    requires PiecesOk(word, '"') && (word != [] ==> word[0] != Plain('#'))
    requires '"' !in content && '\0' !in content
    ensures Lines(PiecesText(word) + ("\"" + content + "\0"), 0, false, n, args) == []
  {
    var open := "\"" + content + "\0";
    OpenQuoted(content);
    ScanPieces(word, open);
    if word != [] {
      PieceStarts(word[0]);
    }
    NothingAtEof(PiecesText(word) + open, n, args);
  }

  lemma OpenQuoted(content: string)
    requires '"' !in content && '\0' !in content
    ensures ScanText("\"" + content + "\0", 0).eof
  {
    OpenQuote(content);
    ScanMoved("\"", content + "\0", 0);
    assert "\"" + content + "\0" == "\"" + (content + "\0");
  }

  lemma {:induction false} OpenQuote(content: string)
    requires '"' !in content && '\0' !in content
    ensures ScanQuoted(content + "\0", 0).eof
    decreases |content|
  {
    if content == "" {
    } else {
      assert content + "\0" == [content[0]] + (content[1..] + "\0") && content[0] in content;
      assert forall c :: c in content[1..] ==> c in content;
      OpenQuote(content[1..]);
      ScanMoved([content[0]], content[1..] + "\0", 0);
    }
  }
}
