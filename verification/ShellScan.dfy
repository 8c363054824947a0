/** The shell-line scanner the command guards read a line with: internal/beads/notesguard.go.

    `SimpleCommands` is the scanner itself, with its index jumps over escapes. `Commands` is the
    reference it is proved against: an automaton that sees one character at a time and remembers an
    escape in its mode instead of looking ahead. */
module ShellScan {
  datatype Mode = Bare | Single | Double | BareEscape | DoubleEscape

  datatype Scanner = Scanner(commands: seq<seq<string>>, words: seq<string>, word: string, started: bool, mode: Mode)

  const START := Scanner([], [], "", false, Bare)

  predicate Separates(c: char) {
    c == ';' || c == '&' || c == '|' || c == '\n' || c == '(' || c == ')'
  }

  predicate Blank(c: char) {
    c == ' ' || c == '\t' || c == '\r'
  }

  /** The characters a backslash escapes inside double quotes. */
  predicate EscapableInDouble(c: char) {
    c == '"' || c == '\\' || c == '$' || c == '`' || c == '\n'
  }

  function Put(st: Scanner, c: char): Scanner {
    st.(word := st.word + [c], started := true)
  }

  function Flush(st: Scanner): Scanner {
    if st.started then st.(words := st.words + [st.word], word := "", started := false) else st
  }

  function EndCommand(st: Scanner): Scanner {
    var flushed := Flush(st);
    if flushed.words == [] then flushed else flushed.(commands := flushed.commands + [flushed.words], words := [])
  }

  function Feed(st: Scanner, c: char): Scanner {
    match st.mode
    case Single =>
      if c == '\'' then st.(mode := Bare) else Put(st, c)
    case Double =>
      if c == '"' then st.(mode := Bare) else if c == '\\' then st.(mode := DoubleEscape) else Put(st, c)
    case DoubleEscape =>
      var back := st.(mode := Double);
      if c == '\n' then back else if EscapableInDouble(c) then Put(back, c) else Put(Put(back, '\\'), c)
    case BareEscape =>
      var back := st.(mode := Bare);
      if c == '\n' then back else Put(back, c)
    case Bare =>
      if c == '\'' then st.(mode := Single, started := true)
      else if c == '"' then st.(mode := Double, started := true)
      else if c == '\\' then st.(mode := BareEscape)
      else if Separates(c) then EndCommand(st)
      else if Blank(c) then Flush(st)
      else Put(st, c)
  }

  function FeedAll(st: Scanner, s: string): Scanner
    decreases |s|
  {
    if s == "" then st else FeedAll(Feed(st, s[0]), s[1..])
  }

  /** A backslash that ends an open double quote is an ordinary character; one that ends a bare line is dropped. */
  function Finish(st: Scanner): seq<seq<string>> {
    EndCommand(if st.mode == DoubleEscape then Put(st, '\\') else st).commands
  }

  function Commands(line: string): seq<seq<string>> {
    Finish(FeedAll(START, line))
  }

  function ModeOf(quote: char): Mode {
    if quote == '\'' then Single else if quote == '"' then Double else Bare
  }

  /** The scanner as written: an index that jumps over what an escape consumed. */
  method SimpleCommands(line: string) returns (commands: seq<seq<string>>)
    ensures commands == Commands(line)
  {
    commands := [];
    var words: seq<string> := [];
    var word := "";
    var started := false;
    var quote := '\0';
    var index := 0;
    while index < |line|
      invariant 0 <= index <= |line|
      invariant quote == '\0' || quote == '\'' || quote == '"'
      invariant Finish(FeedAll(Scanner(commands, words, word, started, ModeOf(quote)), line[index..])) == Commands(line)
    {
      ghost var before := Scanner(commands, words, word, started, ModeOf(quote));
      ghost var from := index;
      var character := line[index];
      assert line[from..][0] == character && line[from..][1..] == line[from + 1..];
      if from + 1 < |line| {
        assert line[from + 1..][0] == line[from + 1] && line[from + 1..][1..] == line[from + 2..];
      }
      if quote == '\'' {
        if character == '\'' {
          quote := '\0';
        } else {
          word, started := word + [character], true;
        }
      } else if quote == '"' {
        if character == '"' {
          quote := '\0';
        } else if character == '\\' && index + 1 < |line| && EscapableInDouble(line[index + 1]) {
          index := index + 1;
          if line[index] != '\n' {
            word, started := word + [line[index]], true;
          }
        } else {
          word, started := word + [character], true;
          if character == '\\' {
            DoubleBackslashIsLiteral(before, line[from + 1..]);
          }
        }
      } else if character == '\'' || character == '"' {
        quote, started := character, true;
      } else if character == '\\' {
        if index + 1 < |line| {
          index := index + 1;
          if line[index] != '\n' {
            word, started := word + [line[index]], true;
          }
        } else {
          assert line[from + 1..] == "";
        }
      } else if Separates(character) {
        var ended := EndCommand(Scanner(commands, words, word, started, Bare));
        commands, words, word, started := ended.commands, ended.words, ended.word, ended.started;
      } else if Blank(character) {
        var flushed := Flush(Scanner(commands, words, word, started, Bare));
        words, word, started := flushed.words, flushed.word, flushed.started;
      } else {
        word, started := word + [character], true;
      }
      index := index + 1;
    }
    assert line[index..] == "";
    commands := EndCommand(Scanner(commands, words, word, started, Bare)).commands;
  }

  /** Inside double quotes a backslash before nothing it escapes may be written at once or on the next character. */
  lemma DoubleBackslashIsLiteral(st: Scanner, rest: string)
    requires st.mode == Double
    requires rest == "" || !EscapableInDouble(rest[0])
    ensures Finish(FeedAll(st.(mode := DoubleEscape), rest)) == Finish(FeedAll(Put(st, '\\'), rest))
  {
  }

  lemma {:induction false} FeedAllConcat(st: Scanner, a: string, b: string)
    ensures FeedAll(st, a + b) == FeedAll(FeedAll(st, a), b)
    decreases |a|
  {
    if a == "" {
      assert a + b == b;
    } else {
      assert (a + b)[0] == a[0] && (a + b)[1..] == a[1..] + b;
      FeedAllConcat(Feed(st, a[0]), a[1..], b);
    }
  }

  // ---- Printing, and reading back what was printed ----

  datatype Quoting = SingleQuoted | DoubleQuoted | Escaped | Unquoted

  /** A stretch of a word under one quoting: `--notes="done"` is two. */
  datatype Piece = Piece(quoting: Quoting, text: string)

  /** What stands for itself outside quotes. */
  predicate Plain(c: char) {
    c !in {'\'', '"', '\\', ';', '&', '|', '\n', '(', ')', ' ', '\t', '\r'}
  }

  predicate Spellable(p: Piece) {
    match p.quoting
    case SingleQuoted => '\'' !in p.text
    case DoubleQuoted => true
    case Escaped => p.text != "" && '\n' !in p.text
    case Unquoted => p.text != "" && forall i | 0 <= i < |p.text| :: Plain(p.text[i])
  }

  function EscapedBody(text: string): string {
    if text == "" then "" else ['\\', text[0]] + EscapedBody(text[1..])
  }

  /** What a backslash in double quotes takes the meaning from, or ends the line after. */
  predicate MeansMore(c: char) { c in {'"', '\\', '$', '`', '\n'} }

  /** A backslash stands for itself before what it takes no meaning from. */
  function DoubleBody(text: string): string {
    if text == "" then ""
    else if text[0] == '\\' && |text| > 1 && !MeansMore(text[1]) then ['\\', text[1]] + DoubleBody(text[2..])
    else (if MeansMore(text[0]) && text[0] != '\n' then ['\\', text[0]] else [text[0]]) + DoubleBody(text[1..])
  }

  function PrintPiece(p: Piece): string {
    match p.quoting
    case SingleQuoted => "'" + p.text + "'"
    case DoubleQuoted => "\"" + DoubleBody(p.text) + "\""
    case Escaped => EscapedBody(p.text)
    case Unquoted => p.text
  }

  /** A word, and the blanks before it. */
  datatype Word = Word(gap: string, pieces: seq<Piece>)

  function PrintPieces(pieces: seq<Piece>): string {
    if pieces == [] then "" else PrintPieces(pieces[..|pieces| - 1]) + PrintPiece(pieces[|pieces| - 1])
  }

  function TextOf(pieces: seq<Piece>): string {
    if pieces == [] then "" else TextOf(pieces[..|pieces| - 1]) + pieces[|pieces| - 1].text
  }

  function PrintWords(words: seq<Word>): string {
    if words == [] then "" else
      var last := words[|words| - 1];
      PrintWords(words[..|words| - 1]) + last.gap + PrintPieces(last.pieces)
  }

  function Texts(words: seq<Word>): seq<string> {
    if words == [] then [] else Texts(words[..|words| - 1]) + [TextOf(words[|words| - 1].pieces)]
  }

  /** A command, and what stands between it and the next. */
  datatype Clause = Clause(words: seq<Word>, join: string)

  function PrintLine(line: seq<Clause>): string {
    if line == [] then "" else
      PrintLine(line[..|line| - 1]) + PrintWords(line[|line| - 1].words) + line[|line| - 1].join
  }

  function AllTexts(line: seq<Clause>): seq<seq<string>> {
    if line == [] then [] else AllTexts(line[..|line| - 1]) + [Texts(line[|line| - 1].words)]
  }

  predicate Blanks(gap: string) {
    forall i | 0 <= i < |gap| :: gap[i] in {' ', '\t', '\r'}
  }

  predicate Loose(join: string) {
    forall i | 0 <= i < |join| :: join[i] in {';', '&', '|', '\n', '(', ')', ' ', '\t', '\r'}
  }

  /** What comes between two commands: `;`, `&&`, `||`, a pipe, a newline or a parenthesis, however spaced. */
  predicate Joins(join: string) {
    Loose(join) && exists i | 0 <= i < |join| :: join[i] in {';', '&', '|', '\n', '(', ')'}
  }

  predicate SpelledWords(words: seq<Word>) {
    forall i | 0 <= i < |words| ::
      && Blanks(words[i].gap) && (i > 0 ==> words[i].gap != "") && words[i].pieces != []
      && forall k | 0 <= k < |words[i].pieces| :: Spellable(words[i].pieces[k])
  }

  predicate Spelled(line: seq<Clause>) {
    forall i | 0 <= i < |line| ::
      && line[i].words != [] && SpelledWords(line[i].words) && Loose(line[i].join)
      && (i < |line| - 1 ==> Joins(line[i].join))
  }

  lemma OneFeed(st: Scanner, a: char)
    ensures FeedAll(st, [a]) == Feed(st, a)
  {
    assert [a][1..] == "";
  }

  lemma TwoFeeds(st: Scanner, a: char, b: char)
    ensures FeedAll(st, [a, b]) == Feed(Feed(st, a), b)
  {
    assert [a, b] == [a] + [b];
    FeedAllConcat(st, [a], [b]);
    OneFeed(st, a);
    OneFeed(Feed(st, a), b);
  }

  lemma {:induction false} SingleReads(st: Scanner, text: string)
    requires st.mode == Single && st.started && '\'' !in text
    ensures FeedAll(st, text) == st.(word := st.word + text)
    decreases |text|
  {
    if text == "" {
      assert st.word + text == st.word;
    } else {
      var next := st.(word := st.word + [text[0]]);
      assert Feed(st, text[0]) == next;
      SingleReads(next, text[1..]);
      assert next.word + text[1..] == st.word + text;
    }
  }

  lemma {:induction false} DoubleReads(st: Scanner, text: string)
    requires st.mode == Double && st.started
    ensures FeedAll(st, DoubleBody(text)) == st.(word := st.word + text)
    decreases |text|
  {
    if text == "" {
      assert st.word + text == st.word;
    } else if text[0] == '\\' && |text| > 1 && !MeansMore(text[1]) {
      var next := st.(word := st.word + [text[0]] + [text[1]]);
      FeedAllConcat(st, ['\\', text[1]], DoubleBody(text[2..]));
      TwoFeeds(st, '\\', text[1]);
      DoubleReads(next, text[2..]);
      assert next.word + text[2..] == st.word + text;
    } else {
      DoubleReadsOne(st, text[0]);
      var escaped := MeansMore(text[0]) && text[0] != '\n';
      var next := st.(word := st.word + [text[0]]);
      FeedAllConcat(st, if escaped then ['\\', text[0]] else [text[0]], DoubleBody(text[1..]));
      DoubleReads(next, text[1..]);
      assert next.word + text[1..] == st.word + text;
    }
  }

  lemma DoubleReadsOne(st: Scanner, c: char)
    requires st.mode == Double && st.started
    ensures FeedAll(st, if MeansMore(c) && c != '\n' then ['\\', c] else [c]) == st.(word := st.word + [c])
  {
    if MeansMore(c) && c != '\n' {
      TwoFeeds(st, '\\', c);
    } else {
      OneFeed(st, c);
    }
  }

  lemma {:induction false} EscapedReads(st: Scanner, text: string)
    requires st.mode == Bare && '\n' !in text
    ensures FeedAll(st, EscapedBody(text)) == if text == "" then st else st.(word := st.word + text, started := true)
    decreases |text|
  {
    if text != "" {
      var next := Put(st, text[0]);
      FeedAllConcat(st, ['\\', text[0]], EscapedBody(text[1..]));
      TwoFeeds(st, '\\', text[0]);
      EscapedReads(next, text[1..]);
      assert next.word + text[1..] == st.word + text;
    }
  }

  lemma {:induction false} PlainReads(st: Scanner, text: string)
    requires st.mode == Bare
    requires forall i | 0 <= i < |text| :: Plain(text[i])
    ensures FeedAll(st, text) == if text == "" then st else st.(word := st.word + text, started := true)
    decreases |text|
  {
    if text != "" {
      var next := Put(st, text[0]);
      assert Feed(st, text[0]) == next;
      PlainReads(next, text[1..]);
      assert next.word + text[1..] == st.word + text;
    }
  }

  lemma QuotedReads(st: Scanner, quote: char, body: string, text: string)
    requires st.mode == Bare && (quote == '\'' || quote == '"')
    requires var inside := st.(mode := ModeOf(quote), started := true);
      FeedAll(inside, body) == inside.(word := st.word + text)
    ensures FeedAll(st, [quote] + body + [quote]) == st.(word := st.word + text, started := true)
  {
    var inside := st.(mode := ModeOf(quote), started := true);
    FeedAllConcat(st, [quote] + body, [quote]);
    FeedAllConcat(st, [quote], body);
    OneFeed(st, quote);
    OneFeed(inside.(word := st.word + text), quote);
  }

  lemma PieceReads(st: Scanner, p: Piece)
    requires st.mode == Bare && Spellable(p)
    ensures FeedAll(st, PrintPiece(p)) == st.(word := st.word + p.text, started := true)
  {
    match p.quoting
    case SingleQuoted =>
      SingleReads(st.(mode := Single, started := true), p.text);
      QuotedReads(st, '\'', p.text, p.text);
    case DoubleQuoted =>
      DoubleReads(st.(mode := Double, started := true), p.text);
      QuotedReads(st, '"', DoubleBody(p.text), p.text);
    case Escaped => EscapedReads(st, p.text);
    case Unquoted => PlainReads(st, p.text);
  }

  lemma {:induction false} PiecesRead(st: Scanner, pieces: seq<Piece>)
    requires st.mode == Bare && forall k | 0 <= k < |pieces| :: Spellable(pieces[k])
    ensures FeedAll(st, PrintPieces(pieces))
         == if pieces == [] then st else st.(word := st.word + TextOf(pieces), started := true)
    decreases |pieces|
  {
    if pieces != [] {
      var before, last := pieces[..|pieces| - 1], pieces[|pieces| - 1];
      var read := FeedAll(st, PrintPieces(before));
      PiecesRead(st, before);
      FeedAllConcat(st, PrintPieces(before), PrintPiece(last));
      PieceReads(read, last);
      assert st.word + "" == st.word;
      assert read.word + last.text == st.word + TextOf(pieces);
    }
  }

  lemma {:induction false} BlanksRead(st: Scanner, gap: string)
    requires st.mode == Bare && Blanks(gap)
    ensures FeedAll(st, gap) == if gap == "" then st else Flush(st)
    decreases |gap|
  {
    if gap != "" {
      assert Feed(st, gap[0]) == Flush(st);
      BlanksRead(Flush(st), gap[1..]);
    }
  }

  /** Whatever joins two commands ends the first, once. */
  lemma {:induction false} JoinReads(st: Scanner, join: string)
    requires st.mode == Bare && Joins(join)
    ensures FeedAll(st, join) == EndCommand(st)
    decreases |join|
  {
    var ended := EndCommand(st);
    assert EndCommand(ended) == ended && EndCommand(Flush(st)) == ended;
    if join[0] in {';', '&', '|', '\n', '(', ')'} {
      assert Feed(st, join[0]) == ended;
      if Joins(join[1..]) {
        JoinReads(ended, join[1..]);
      } else {
        LooseIsBlank(join[1..]);
        BlanksRead(ended, join[1..]);
      }
    } else {
      assert Feed(st, join[0]) == Flush(st);
      var i :| 0 <= i < |join| && join[i] in {';', '&', '|', '\n', '(', ')'};
      assert join[1..][i - 1] == join[i];
      JoinReads(Flush(st), join[1..]);
    }
  }

  lemma LooseIsBlank(join: string)
    requires Loose(join) && !Joins(join)
    ensures Blanks(join)
  {
  }

  /** Between words: nothing quoted, nothing started. */
  predicate Fresh(st: Scanner) {
    st.mode == Bare && !st.started && st.word == ""
  }

  lemma {:induction false} WordsRead(st: Scanner, words: seq<Word>)
    requires Fresh(st) && SpelledWords(words)
    ensures var read := FeedAll(st, PrintWords(words));
      read.mode == Bare && Flush(read) == st.(words := st.words + Texts(words))
    ensures words == [] ==> FeedAll(st, PrintWords(words)) == st
    decreases |words|
  {
    if words == [] {
      assert st.words + [] == st.words;
    } else {
      var before, last := words[..|words| - 1], words[|words| - 1];
      var read := FeedAll(st, PrintWords(before));
      WordsRead(st, before);
      FeedAllConcat(st, PrintWords(before) + last.gap, PrintPieces(last.pieces));
      FeedAllConcat(st, PrintWords(before), last.gap);
      BlanksRead(read, last.gap);
      var between := st.(words := st.words + Texts(before));
      assert FeedAll(read, last.gap) == between;
      PiecesRead(between, last.pieces);
      assert "" + TextOf(last.pieces) == TextOf(last.pieces);
      assert between.words + [TextOf(last.pieces)] == st.words + Texts(words);
    }
  }

  /** Commands with what joins each to the next, the last included. */
  lemma {:induction false} JoinedRead(line: seq<Clause>)
    requires Spelled(line) && forall i | 0 <= i < |line| :: Joins(line[i].join)
    ensures FeedAll(START, PrintLine(line)) == START.(commands := AllTexts(line))
    decreases |line|
  {
    if line != [] {
      var before, last := line[..|line| - 1], line[|line| - 1];
      var st := START.(commands := AllTexts(before));
      JoinedRead(before);
      FeedAllConcat(START, PrintLine(before) + PrintWords(last.words), last.join);
      FeedAllConcat(START, PrintLine(before), PrintWords(last.words));
      var read := FeedAll(st, PrintWords(last.words));
      WordsRead(st, last.words);
      JoinReads(read, last.join);
      assert [] + Texts(last.words) == Texts(last.words) != [];
    }
  }

  lemma EndsAlike(st: Scanner, join: string)
    requires st.mode == Bare && Loose(join)
    ensures Finish(FeedAll(st, join)) == Finish(Flush(st))
  {
    if Joins(join) {
      JoinReads(st, join);
    } else {
      LooseIsBlank(join);
      BlanksRead(st, join);
    }
  }

  /** Every list of commands is read back exactly, whatever its words hold, however each is quoted piece by piece, and
      whatever stands between words and between commands. */
  lemma PrintedLineReadsBack(line: seq<Clause>)
    requires Spelled(line)
    ensures Commands(PrintLine(line)) == AllTexts(line)
  {
    if line != [] {
      var before, last := line[..|line| - 1], line[|line| - 1];
      var st := START.(commands := AllTexts(before));
      JoinedRead(before);
      FeedAllConcat(START, PrintLine(before) + PrintWords(last.words), last.join);
      FeedAllConcat(START, PrintLine(before), PrintWords(last.words));
      var read := FeedAll(st, PrintWords(last.words));
      WordsRead(st, last.words);
      EndsAlike(read, last.join);
      assert [] + Texts(last.words) == Texts(last.words) != [];
    }
  }

  // ---- Scanning composes over a separator exactly where nothing is left open ----

  /** The line ends outside quotes and not on a bare backslash. */
  predicate Closed(line: string) {
    FeedAll(START, line).mode == Bare
  }

  function Behind(commands: seq<seq<string>>, st: Scanner): Scanner {
    st.(commands := commands + st.commands)
  }

  lemma EndBehind(commands: seq<seq<string>>, st: Scanner)
    ensures EndCommand(Behind(commands, st)) == Behind(commands, EndCommand(st))
  {
    var flushed := Flush(st);
    assert commands + (flushed.commands + [flushed.words]) == (commands + flushed.commands) + [flushed.words];
  }

  lemma OneFeedBehind(commands: seq<seq<string>>, st: Scanner, c: char)
    ensures Feed(Behind(commands, st), c) == Behind(commands, Feed(st, c))
  {
    if st.mode == Bare && Separates(c) {
      EndBehind(commands, st);
    }
  }

  lemma FinishBehind(commands: seq<seq<string>>, st: Scanner)
    ensures Finish(Behind(commands, st)) == commands + Finish(st)
  {
    EndBehind(commands, if st.mode == DoubleEscape then Put(st, '\\') else st);
  }

  lemma {:induction false} FeedBehind(commands: seq<seq<string>>, st: Scanner, s: string)
    ensures FeedAll(Behind(commands, st), s) == Behind(commands, FeedAll(st, s))
    decreases |s|
  {
    if s != "" {
      OneFeedBehind(commands, st, s[0]);
      FeedBehind(commands, Feed(st, s[0]), s[1..]);
    }
  }

  /** What every reachable scanner state keeps: an open quote has started a word, and a word not started is empty. */
  predicate Reached(st: Scanner) {
    && (st.mode in {Single, Double, DoubleEscape} ==> st.started)
    && (!st.started ==> st.word == "")
  }

  lemma {:induction false} FeedKeepsReached(st: Scanner, s: string)
    requires Reached(st)
    ensures Reached(FeedAll(st, s))
    decreases |s|
  {
    if s != "" {
      FeedKeepsReached(Feed(st, s[0]), s[1..]);
    }
  }

  /** Nothing can be hidden behind a closed prefix: whatever joins them, its commands and what follows are read
      separately. */
  lemma ScanComposes(a: string, join: string, b: string)
    requires Closed(a) && Joins(join)
    ensures Commands(a + join + b) == Commands(a) + Commands(b)
  {
    var read := FeedAll(START, a);
    FeedKeepsReached(START, a);
    FeedAllConcat(START, a + join, b);
    FeedAllConcat(START, a, join);
    JoinReads(read, join);
    assert EndCommand(read) == Behind(EndCommand(read).commands, START);
    FeedBehind(EndCommand(read).commands, START, b);
    FinishBehind(EndCommand(read).commands, FeedAll(START, b));
  }

  /** Whatever is open, a separator and a letter go on with the word there is. */
  lemma OpenGoesOn(read: Scanner)
    requires read.mode != Bare && Reached(read)
    ensures var after := Feed(Feed(read, ';'), 'x');
      && after.started && after.mode != DoubleEscape && after.commands == read.commands && after.words == read.words
      && (!read.started ==> after.word == ";x")
  {
  }

  lemma FinishesWord(st: Scanner)
    requires st.started && st.mode != DoubleEscape
    ensures Finish(st) == st.commands + [st.words + [st.word]]
  {
    assert st.words + [st.word] != [];
  }

  lemma OneLetter()
    ensures Commands("x") == [["x"]]
  {
    var read := Feed(START, 'x');
    assert "x" == ['x'];
    OneFeed(START, 'x');
    assert read.word == "x" && read.started && read.commands == [] && read.words == [];
    FinishesWord(read);
    assert read.words + [read.word] == ["x"];
  }

  /** What is open and has nothing begun is a backslash between words, and the line ends without it. */
  lemma OpenFinishes(read: Scanner)
    requires read.mode != Bare && Reached(read)
    ensures if read.started || read.words != [] then |Finish(read)| == |read.commands| + 1
        else Finish(read) == read.commands
  {
    var last := Flush(if read.mode == DoubleEscape then Put(read, '\\') else read);
    assert read.started ==> last.words != [];
  }

  /** A line left open swallows the separator, so the word after it is not read as a command of its own. */
  lemma OpenLineSwallows(a: string)
    requires !Closed(a)
    ensures Commands(a + ";" + "x") != Commands(a) + Commands("x")
  {
    var read := FeedAll(START, a);
    FeedKeepsReached(START, a);
    assert a + ";" + "x" == a + [';', 'x'];
    FeedAllConcat(START, a, [';', 'x']);
    TwoFeeds(read, ';', 'x');
    OpenGoesOn(read);
    var after := Feed(Feed(read, ';'), 'x');
    FinishesWord(after);
    OneLetter();
    OpenFinishes(read);
    if !read.started && read.words == [] {
      assert (read.commands + [[] + [";x"]])[|read.commands|][0] == ";x";
      assert (read.commands + [["x"]])[|read.commands|][0] == "x";
    }
  }

  lemma ComposesExactlyWhenClosed(a: string)
    ensures (forall join, b | Joins(join) :: Commands(a + join + b) == Commands(a) + Commands(b)) <==> Closed(a)
  {
    if Closed(a) {
      forall join, b | Joins(join) ensures Commands(a + join + b) == Commands(a) + Commands(b) {
        ScanComposes(a, join, b);
      }
    } else {
      OpenLineSwallows(a);
      assert ";"[0] == ';' && Joins(";");
    }
  }

  /** How such lines were written. */
  lemma Joined(a: string, b: string)
    requires Closed(a)
    ensures forall join | join in {";", "&", "|", "\n", "(", ")", "&&", "||", " && ", " || "} ::
      Commands(a + join + b) == Commands(a) + Commands(b)
  {
    forall join | join in {";", "&", "|", "\n", "(", ")", "&&", "||", " && ", " || "}
      ensures Commands(a + join + b) == Commands(a) + Commands(b)
    {
      assert join[0] in {';', '&', '|', '\n', '(', ')'} || join[1] in {'&', '|'};
      ScanComposes(a, join, b);
    }
  }
}
