/** The greedy word wrap of a generated document, and the index it is used to write:
    internal/artifacthome/artifacthome.go. */
module Wrap {
  import opened Text

  const WRAP_WIDTH := 79

  /** How wide one word is; `ByteLen` wherever a document is written. */
  type Measure = string -> nat

  function LineWidth(line: seq<string>, w: Measure): nat {
    if line == [] then 0
    else if |line| == 1 then w(line[0])
    else LineWidth(line[..|line| - 1], w) + 1 + w(line[|line| - 1])
  }

  /** A line within the width, or a single word that no line could hold. */
  predicate Fits(line: seq<string>, w: Measure, limit: nat) {
    |line| <= 1 || LineWidth(line, w) <= limit
  }

  function Flatten(lines: seq<seq<string>>): seq<string> {
    if lines == [] then [] else lines[0] + Flatten(lines[1..])
  }

  ghost predicate Breaks(lines: seq<seq<string>>, words: seq<string>, w: Measure, limit: nat) {
    Flatten(lines) == words && forall i | 0 <= i < |lines| :: Fits(lines[i], w, limit)
  }

  // ---- Greedy lines ----

  /** How many words the first line takes, once it has taken n. */
  function FirstLine(words: seq<string>, n: nat, w: Measure, limit: nat): (k: nat)
    requires 1 <= n <= |words|
    ensures n <= k <= |words|
    decreases |words| - n
  {
    if n == |words| || LineWidth(words[..n], w) + 1 + w(words[n]) > limit then n else FirstLine(words, n + 1, w, limit)
  }

  function Greedy(words: seq<string>, w: Measure, limit: nat): seq<seq<string>>
    decreases |words|
  {
    if words == [] then [] else
      var k := FirstLine(words, 1, w, limit);
      [words[..k]] + Greedy(words[k..], w, limit)
  }

  lemma WidthOneMore(words: seq<string>, n: nat, w: Measure)
    requires 1 <= n < |words|
    ensures LineWidth(words[..n + 1], w) == LineWidth(words[..n], w) + 1 + w(words[n])
  {
    assert words[..n + 1][..n] == words[..n];
  }

  lemma {:induction false} WidthGrows(words: seq<string>, n: nat, m: nat, w: Measure)
    requires 1 <= n <= m <= |words|
    ensures LineWidth(words[..n], w) <= LineWidth(words[..m], w)
    decreases m
  {
    if n < m {
      WidthGrows(words, n, m - 1, w);
      WidthOneMore(words, m - 1, w);
    }
  }

  /** The first line is the longest that fits. */
  lemma {:induction false} FirstLineIsLongest(words: seq<string>, n: nat, w: Measure, limit: nat, m: nat)
    requires 1 <= n <= |words| && Fits(words[..n], w, limit) && m <= |words|
    ensures Fits(words[..FirstLine(words, n, w, limit)], w, limit)
    ensures m <= FirstLine(words, n, w, limit) || !Fits(words[..m], w, limit)
    decreases |words| - n
  {
    if n < |words| {
      WidthOneMore(words, n, w);
      if LineWidth(words[..n], w) + 1 + w(words[n]) <= limit {
        FirstLineIsLongest(words, n + 1, w, limit, m);
      } else if m > n {
        WidthGrows(words, n + 1, m, w);
      }
    }
  }

  lemma {:induction false} WidthWithoutFirst(line: seq<string>, w: Measure)
    requires |line| >= 2
    ensures LineWidth(line, w) == w(line[0]) + 1 + LineWidth(line[1..], w)
    decreases |line|
  {
    var n := |line| - 1;
    if |line| > 2 {
      WidthWithoutFirst(line[..n], w);
      assert line[..n][1..] == line[1..][..n - 1];
    }
  }

  /** Greedy lines keep the words, in order, and every line fits. */
  lemma {:induction false} GreedyBreaks(words: seq<string>, w: Measure, limit: nat)
    ensures Breaks(Greedy(words, w, limit), words, w, limit)
    decreases |words|
  {
    if words != [] {
      var k := FirstLine(words, 1, w, limit);
      FirstLineIsLongest(words, 1, w, limit, k);
      GreedyBreaks(words[k..], w, limit);
      assert words[..k] + words[k..] == words;
    }
  }

  /** Without its first word a list's first line reaches at least as far. */
  lemma FirstLineOfRest(words: seq<string>, w: Measure, limit: nat)
    requires words != [] && FirstLine(words, 1, w, limit) > 1
    ensures FirstLine(words[1..], 1, w, limit) >= FirstLine(words, 1, w, limit) - 1
  {
    var k := FirstLine(words, 1, w, limit);
    FirstLineIsLongest(words, 1, w, limit, k);
    WidthWithoutFirst(words[..k], w);
    assert words[..k][1..] == words[1..][..k - 1];
    FirstLineIsLongest(words[1..], 1, w, limit, k - 1);
  }

  lemma DropTwice<T>(s: seq<T>, i: nat, j: nat)
    requires i + j <= |s|
    ensures s[i..][j..] == s[i + j..]
  {
  }

  lemma {:induction false} GreedyDropOne(words: seq<string>, w: Measure, limit: nat)
    requires words != []
    ensures |Greedy(words[1..], w, limit)| <= |Greedy(words, w, limit)|
    decreases |words|, 0
  {
    var k := FirstLine(words, 1, w, limit);
    if k > 1 {
      FirstLineOfRest(words, w, limit);
      var next := FirstLine(words[1..], 1, w, limit);
      GreedyMonotone(words[k..], next - (k - 1), w, limit);
      DropTwice(words, k, next - (k - 1));
      DropTwice(words, 1, next);
    }
  }

  /** Fewer words never take more lines. */
  lemma {:induction false} GreedyMonotone(words: seq<string>, j: nat, w: Measure, limit: nat)
    requires j <= |words|
    ensures |Greedy(words[j..], w, limit)| <= |Greedy(words, w, limit)|
    decreases |words|, 1
  {
    if j == 0 {
      assert words[0..] == words;
    } else {
      GreedyDropOne(words, w, limit);
      GreedyMonotone(words[1..], j - 1, w, limit);
      DropTwice(words, 1, j - 1);
    }
  }

  /** After a first line that fits, what is left takes at least as many lines as after the greedy one. */
  lemma GreedyIsLongest(words: seq<string>, m: nat, w: Measure, limit: nat)
    requires words != [] && m <= |words| && Fits(words[..m], w, limit)
    ensures |Greedy(words, w, limit)| <= 1 + |Greedy(words[m..], w, limit)|
  {
    var k := FirstLine(words, 1, w, limit);
    FirstLineIsLongest(words, 1, w, limit, m);
    GreedyMonotone(words[m..], k - m, w, limit);
    DropTwice(words, m, k - m);
  }

  /** No line breaking that fits uses fewer lines. */
  lemma {:induction false} GreedyIsOptimal(words: seq<string>, lines: seq<seq<string>>, w: Measure, limit: nat)
    requires Breaks(lines, words, w, limit)
    ensures |Greedy(words, w, limit)| <= |lines|
    decreases |lines|
  {
    if lines != [] {
      var m := |lines[0]|;
      assert words[..m] == lines[0] && words[m..] == Flatten(lines[1..]);
      GreedyIsOptimal(words[m..], lines[1..], w, limit);
      if words != [] {
        GreedyIsLongest(words, m, w, limit);
      }
    }
  }

  // ---- Writing a paragraph ----

  /** `strings.Fields`, with the word begun so far. */
  function FieldsFrom(s: string, word: string): seq<string>
    decreases |s|
  {
    var ended := if word == "" then [] else [word];
    if s == "" then ended
    else if IsSpace(s[0]) then ended + FieldsFrom(s[1..], "")
    else FieldsFrom(s[1..], word + [s[0]])
  }

  function Fields(s: string): seq<string> { FieldsFrom(s, "") }

  lemma {:induction false} FieldsNonEmpty(s: string, word: string)
    ensures forall i | 0 <= i < |FieldsFrom(s, word)| :: FieldsFrom(s, word)[i] != ""
    decreases |s|
  {
    if s != "" {
      FieldsNonEmpty(s[1..], if IsSpace(s[0]) then "" else word + [s[0]]);
    }
  }

  function Spaced(line: seq<string>): string {
    if line == [] then "" else if |line| == 1 then line[0] else Spaced(line[..|line| - 1]) + " " + line[|line| - 1]
  }

  function Print(lines: seq<seq<string>>): string {
    if lines == [] then "" else Spaced(lines[0]) + "\n" + Print(lines[1..])
  }

  function Paragraph(text: string): string { "\n" + Print(Greedy(Fields(text), ByteLen, WRAP_WIDTH)) }

  lemma {:induction false} SpacedWidth(line: seq<string>)
    ensures ByteLen(Spaced(line)) == LineWidth(line, ByteLen)
    decreases |line|
  {
    if |line| > 1 {
      var n := |line| - 1;
      SpacedWidth(line[..n]);
      ByteLenConcat(Spaced(line[..n]) + " ", line[n]);
      ByteLenConcat(Spaced(line[..n]), " ");
      assert ByteLen(" ") == 1;
    }
  }

  /** What is still to be printed, with a line begun. */
  function Rest(current: seq<string>, words: seq<string>, w: Measure, limit: nat): seq<seq<string>> {
    if current == [] then Greedy(words, w, limit) else
      var all := current + words;
      var k := FirstLine(all, |current|, w, limit);
      [all[..k]] + Greedy(all[k..], w, limit)
  }

  lemma RestStep(current: seq<string>, words: seq<string>, w: Measure, limit: nat)
    requires words != []
    ensures Rest(current, words, w, limit)
         == if current == [] then Rest([words[0]], words[1..], w, limit)
            else if LineWidth(current, w) + 1 + w(words[0]) > limit
              then [current] + Rest([words[0]], words[1..], w, limit)
            else Rest(current + [words[0]], words[1..], w, limit)
  {
    assert [words[0]] + words[1..] == words;
    if current != [] {
      Split(current, words);
      RestBegun(current, words, w, limit);
    }
  }

  lemma Split(current: seq<string>, words: seq<string>)
    requires words != []
    ensures var all := current + words;
      all[..|current|] == current && all[|current|..] == words && all[|current|] == words[0]
      && (current + [words[0]]) + words[1..] == all
  {
    assert (current + [words[0]]) + words[1..] == current + words;
  }

  lemma RestBegun(current: seq<string>, words: seq<string>, w: Measure, limit: nat)
    requires current != [] && words != []
    ensures Rest(current, words, w, limit)
         == if LineWidth(current, w) + 1 + w(words[0]) > limit then [current] + Greedy(words, w, limit)
            else Rest(current + [words[0]], words[1..], w, limit)
  {
    Split(current, words);
  }

  lemma SpacedOneMore(line: seq<string>, word: string)
    requires line != []
    ensures Spaced(line + [word]) == Spaced(line) + " " + word
  {
    assert (line + [word])[..|line|] == line;
  }

  /** One word of the loop: it begins the line, or closes the line and begins the next, or joins the line. */
  lemma PrintStep(builder: string, current: seq<string>, left: seq<string>, w: Measure, limit: nat)
    requires left != []
    ensures var whole := builder + Print(Rest(current, left, w, limit));
      if current == [] then whole == builder + Print(Rest([left[0]], left[1..], w, limit))
      else if LineWidth(current, w) + 1 + w(left[0]) > limit then
        whole == (builder + Spaced(current) + "\n") + Print(Rest([left[0]], left[1..], w, limit))
      else whole == builder + Print(Rest(current + [left[0]], left[1..], w, limit))
  {
    RestStep(current, left, w, limit);
    PrintFirst(builder, current, Rest([left[0]], left[1..], w, limit));
  }

  lemma PrintLast(builder: string, current: seq<string>, w: Measure, limit: nat)
    ensures builder + Print(Rest(current, [], w, limit)) == if current == [] then builder
        else builder + Spaced(current) + "\n"
  {
    assert current + [] == current;
    PrintFirst(builder, current, []);
  }

  method WriteParagraph(built: string, text: string) returns (builder: string)
    ensures builder == built + Paragraph(text)
  {
    FieldsNonEmpty(text, "");
    forall line ensures ByteLen(Spaced(line)) == LineWidth(line, ByteLen) {
      SpacedWidth(line);
    }
    builder := WriteWords(built + "\n", Fields(text), ByteLen, WRAP_WIDTH);
  }

  /** The loop over the words, for any measure of a line that adds up as one does. */
  method WriteWords(built: string, words: seq<string>, w: Measure, limit: nat) returns (builder: string)
    requires forall i | 0 <= i < |words| :: words[i] != ""
    requires forall line :: w(Spaced(line)) == LineWidth(line, w)
    ensures builder == built + Print(Greedy(words, w, limit))
  {
    builder := built;
    var line := "";
    ghost var current: seq<string> := [];
    for index := 0 to |words|
      invariant line == Spaced(current) && (line == "" <==> current == [])
      invariant builder + Print(Rest(current, words[index..], w, limit)) == built + Print(Greedy(words, w, limit))
    {
      var word := words[index];
      assert words[index..][0] == word && words[index..][1..] == words[index + 1..];
      PrintStep(builder, current, words[index..], w, limit);
      if line == "" {
        line := word;
        current := [word];
      } else if w(line) + 1 + w(word) > limit {
        builder := builder + line + "\n";
        line := word;
        current := [word];
      } else {
        SpacedOneMore(current, word);
        line := line + " " + word;
        current := current + [word];
      }
    }
    assert words[|words|..] == [];
    PrintLast(builder, current, w, limit);
    if line != "" {
      builder := builder + line + "\n";
    }
  }

  lemma PrintFirst(builder: string, line: seq<string>, lines: seq<seq<string>>)
    ensures builder + Print([line] + lines) == (builder + Spaced(line) + "\n") + Print(lines)
  {
    assert ([line] + lines)[1..] == lines;
  }

  // ---- The index, and whether it still answers ----

  const PURPOSE_MARKER := "**Purpose.**"
  const OWNER_MARKER := "**Owner.**"
  const EDITING := "**Editing"
  const BY := "by"
  const HAND := "hand.**"
  const HAND_EDIT_MARKER := EDITING + " " + BY + " " + HAND

  datatype Home = Home(directory: string, purpose: string, ownership: string, handEdit: string, note: string)

  datatype Question = WhatIsFiled | WhoOwns | MayYouEdit

  /** `closing` is the sentence every index ends with. */
  function ReadmeOf(home: Home, closing: string): string {
    "# " + home.directory + "\n"
    + Paragraph(PURPOSE_MARKER + " " + home.purpose)
    + Paragraph(OWNER_MARKER + " " + home.ownership)
    + Paragraph(HAND_EDIT_MARKER + " " + home.handEdit)
    + (if home.note != "" then Paragraph(home.note) else "")
    + Paragraph(closing)
  }

  method Readme(home: Home, closing: string) returns (rendered: string)
    ensures rendered == ReadmeOf(home, closing)
  {
    rendered := "# " + home.directory + "\n";
    rendered := WriteParagraph(rendered, PURPOSE_MARKER + " " + home.purpose);
    rendered := WriteParagraph(rendered, OWNER_MARKER + " " + home.ownership);
    rendered := WriteParagraph(rendered, HAND_EDIT_MARKER + " " + home.handEdit);
    if home.note != "" {
      rendered := WriteParagraph(rendered, home.note);
    }
    rendered := WriteParagraph(rendered, closing);
  }

  function Unanswered(content: string): seq<Question> {
    (if Contains(content, PURPOSE_MARKER) then [] else [WhatIsFiled])
    + (if Contains(content, OWNER_MARKER) then [] else [WhoOwns])
    + (if Contains(content, HAND_EDIT_MARKER) then [] else [MayYouEdit])
  }

  lemma {:induction false} FieldsConcat(a: string, b: string, word: string)
    ensures FieldsFrom(a + " " + b, word) == FieldsFrom(a, word) + Fields(b)
    decreases |a|
  {
    var whole := a + " " + b;
    if a == "" {
      assert whole == " " + b && whole[1..] == b;
    } else {
      assert whole[0] == a[0] && whole[1..] == a[1..] + " " + b;
      var ended := if word == "" then [] else [word];
      FieldsConcat(a[1..], b, if IsSpace(a[0]) then "" else word + [a[0]]);
      if IsSpace(a[0]) {
        assert ended + (FieldsFrom(a[1..], "") + Fields(b)) == (ended + FieldsFrom(a[1..], "")) + Fields(b);
      }
    }
  }

  lemma {:induction false} OneField(s: string, word: string)
    requires word + s != "" && forall i | 0 <= i < |s| :: !IsSpace(s[i])
    ensures FieldsFrom(s, word) == [word + s]
    decreases |s|
  {
    if s == "" {
      assert word + s == word;
    } else {
      OneField(s[1..], word + [s[0]]);
      assert (word + [s[0]]) + s[1..] == word + s;
    }
  }

  predicate IsWord(s: string) { s != "" && NoSpace(s) }

  /** A marker is a text whose words are known, printed as it is written, and short enough for one line. */
  ghost predicate Marker(marker: string, words: seq<string>) {
    words != [] && Fields(marker) == words && Spaced(words) == marker && LineWidth(words, ByteLen) <= WRAP_WIDTH
  }

  lemma OneWordMarker(marker: string)
    requires IsWord(marker) && 4 * |marker| <= WRAP_WIDTH
    ensures Marker(marker, [marker])
  {
    OneField(marker, "");
    assert "" + marker == marker;
    BytesPerChar(marker);
  }

  lemma ThreeWordMarker(a: string, b: string, c: string)
    requires IsWord(a) && IsWord(b) && IsWord(c) && 4 * (|a| + |b| + |c|) + 2 <= WRAP_WIDTH
    ensures Marker(a + " " + b + " " + c, [a, b, c])
  {
    OneField(a, "");
    OneField(b, "");
    OneField(c, "");
    assert "" + a == a && "" + b == b && "" + c == c;
    FieldsConcat(a, b, "");
    FieldsConcat(a + " " + b, c, "");
    SpacedOneMore([a], b);
    SpacedOneMore([a, b], c);
    assert [a] + [b] == [a, b] && [a, b] + [c] == [a, b, c];
    var words := [a, b, c];
    WidthOneMore(words, 1, ByteLen);
    WidthOneMore(words, 2, ByteLen);
    assert words[..3] == words && words[..1] == [a];
    BytesPerChar(a);
    BytesPerChar(b);
    BytesPerChar(c);
  }

  lemma {:induction false} SpacedPrefix(line: seq<string>, n: nat)
    requires n <= |line|
    ensures Spaced(line[..n]) <= Spaced(line)
    decreases |line|
  {
    if n < |line| {
      SpacedPrefix(line[..|line| - 1], n);
      assert line[..|line| - 1][..n] == line[..n];
    } else {
      assert line[..n] == line;
    }
  }

  lemma GreedyOpensWith(words: seq<string>, more: seq<string>, w: Measure, limit: nat)
    requires words != [] && LineWidth(words, w) <= limit
    ensures var lines := Greedy(words + more, w, limit);
      lines != [] && Spaced(words) <= Spaced(lines[0])
  {
    var all := words + more;
    assert all[..|words|] == words;
    var k := FirstLine(all, 1, w, limit);
    FirstLineIsLongest(all, 1, w, limit, |words|);
    assert all[..k][..|words|] == words;
    SpacedPrefix(all[..k], |words|);
  }

  /** A paragraph opens with its marker, unbroken, whatever follows it. */
  lemma ParagraphOpensWith(words: seq<string>, marker: string, text: string)
    requires Marker(marker, words)
    ensures "\n" + marker <= Paragraph(marker + " " + text)
  {
    FieldsConcat(marker, text, "");
    GreedyOpensWith(words, Fields(text), ByteLen, WRAP_WIDTH);
    PrintOpens(Greedy(words + Fields(text), ByteLen, WRAP_WIDTH), marker);
  }

  lemma PrintOpens(lines: seq<seq<string>>, opening: string)
    requires lines != [] && opening <= Spaced(lines[0])
    ensures "\n" + opening <= "\n" + Print(lines)
  {
  }

  lemma ContainsWithin(before: string, part: string, after: string)
    ensures Contains(before + part + after, part)
  {
    assert OccursAt(before + part + after, part, |before|);
  }

  lemma PrefixContained(before: string, paragraph: string, after: string, part: string)
    requires "\n" + part <= paragraph
    ensures Contains(before + paragraph + after, part)
  {
    var rest := paragraph[1 + |part|..];
    assert paragraph == "\n" + part + rest;
    ContainsWithin(before + "\n", part, rest + after);
    assert before + paragraph + after == (before + "\n") + part + (rest + after);
  }

  predicate NoSpace(s: string) { forall i | 0 <= i < |s| :: !IsSpace(s[i]) }

  lemma Joined(a: string, b: string, c: string)
    requires NoSpace(a) && NoSpace(b) && NoSpace(c)
    ensures NoSpace(a + b + c)
  {
  }

  lemma PurposeMarker()
    ensures Marker(PURPOSE_MARKER, [PURPOSE_MARKER])
  {
    Joined("**Pu", "rpos", "e.**");
    assert PURPOSE_MARKER == "**Pu" + "rpos" + "e.**";
    OneWordMarker(PURPOSE_MARKER);
  }

  lemma OwnerMarker()
    ensures Marker(OWNER_MARKER, [OWNER_MARKER])
  {
    Joined("**O", "wner", ".**");
    assert OWNER_MARKER == "**O" + "wner" + ".**";
    OneWordMarker(OWNER_MARKER);
  }

  lemma HandEditMarker()
    ensures Marker(HAND_EDIT_MARKER, [EDITING, BY, HAND])
  {
    Joined("**E", "dit", "ing");
    assert EDITING == "**E" + "dit" + "ing";
    Joined("ha", "nd", ".**");
    assert HAND == "ha" + "nd" + ".**";
    ThreeWordMarker(EDITING, BY, HAND);
  }

  /** Whatever its paragraphs say, a generated index answers every question it is asked for. */
  lemma GeneratedReadmeAnswers(home: Home, closing: string)
    ensures Unanswered(ReadmeOf(home, closing)) == []
  {
    var purpose := Paragraph(PURPOSE_MARKER + " " + home.purpose);
    var owner := Paragraph(OWNER_MARKER + " " + home.ownership);
    var edit := Paragraph(HAND_EDIT_MARKER + " " + home.handEdit);
    var head := "# " + home.directory + "\n";
    var note := if home.note != "" then Paragraph(home.note) else "";
    var tail := Paragraph(closing);
    PurposeMarker();
    OwnerMarker();
    HandEditMarker();
    ParagraphOpensWith([PURPOSE_MARKER], PURPOSE_MARKER, home.purpose);
    ParagraphOpensWith([OWNER_MARKER], OWNER_MARKER, home.ownership);
    ParagraphOpensWith([EDITING, BY, HAND], HAND_EDIT_MARKER, home.handEdit);
    ThreeParts(head, purpose, owner, edit, note, tail);
    PrefixContained(head, purpose, owner + edit + note + tail, PURPOSE_MARKER);
    PrefixContained(head + purpose, owner, edit + note + tail, OWNER_MARKER);
    PrefixContained(head + purpose + owner, edit, note + tail, HAND_EDIT_MARKER);
  }

  lemma ThreeParts(head: string, a: string, b: string, c: string, note: string, tail: string)
    ensures var all := head + a + b + c + note + tail;
      && all == head + a + (b + c + note + tail)
      && all == (head + a) + b + (c + note + tail)
      && all == (head + a + b) + c + (note + tail)
  {
  }

  /** A paragraph is its words in order, on lines within 79 bytes or of one word that is wider, and on as few of those
      as there can be. */
  lemma ParagraphExactly(text: string)
    ensures var lines := Greedy(Fields(text), ByteLen, WRAP_WIDTH);
      && Paragraph(text) == "\n" + Print(lines) && Flatten(lines) == Fields(text)
      && (forall i | 0 <= i < |lines| :: |lines[i]| <= 1 || ByteLen(Spaced(lines[i])) <= 79)
      && forall others | Breaks(others, Fields(text), ByteLen, 79) :: |lines| <= |others|
  {
    var lines := Greedy(Fields(text), ByteLen, WRAP_WIDTH);
    GreedyBreaks(Fields(text), ByteLen, WRAP_WIDTH);
    forall i | 0 <= i < |lines| ensures |lines[i]| <= 1 || ByteLen(Spaced(lines[i])) <= 79 {
      SpacedWidth(lines[i]);
      assert Fits(lines[i], ByteLen, WRAP_WIDTH);
    }
    forall others | Breaks(others, Fields(text), ByteLen, 79) ensures |lines| <= |others| {
      GreedyIsOptimal(Fields(text), others, ByteLen, WRAP_WIDTH);
    }
  }

  /** The words of a text with single spaces between them are those it was made of. */
  lemma {:induction false} FieldsOfSpaced(words: seq<string>)
    requires forall i | 0 <= i < |words| :: IsWord(words[i])
    ensures Fields(Spaced(words)) == words
    decreases |words|
  {
    if words != [] {
      var before, last := words[..|words| - 1], words[|words| - 1];
      OneField(last, "");
      assert "" + last == last;
      if before != [] {
        FieldsOfSpaced(before);
        FieldsConcat(Spaced(before), last, "");
      }
    }
  }

  /** Which questions a text leaves unanswered: those whose words it does not contain. */
  lemma UnansweredExactly(content: string)
    ensures WhatIsFiled in Unanswered(content) <==> !Contains(content, "**Purpose.**")
    ensures WhoOwns in Unanswered(content) <==> !Contains(content, "**Owner.**")
    ensures MayYouEdit in Unanswered(content) <==> !Contains(content, "**Editing by hand.**")
  {
    assert "**Editing by hand.**" == HAND_EDIT_MARKER;
  }
}
