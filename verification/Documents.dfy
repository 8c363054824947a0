/** An artifact file's two halves, fenced metadata and prose: `render` and `splitDocument` in
    internal/artifact/store.go.

    Metadata is the text the YAML codec writes, less its final newline; the codec itself is not modelled. */
module Documents {
  import opened Text

  const FENCE := "---"

  /** `strings.Split(s, "\n")`. */
  function Lines(s: string): (lines: seq<string>)
    ensures lines != []
  {
    if s == "" then [""] else
      var rest := Lines(s[1..]);
      if s[0] == '\n' then [""] + rest else [[s[0]] + rest[0]] + rest[1..]
  }

  /** `strings.Join(lines, "\n")`. */
  function Join(lines: seq<string>): string {
    if lines == [] then "" else if |lines| == 1 then lines[0] else lines[0] + "\n" + Join(lines[1..])
  }

  lemma {:induction false} LinesConcat(a: string, b: string)
    ensures Lines(a + "\n" + b) == Lines(a) + Lines(b)
    decreases |a|
  {
    var whole := a + "\n" + b;
    if a == "" {
      assert whole == "\n" + b;
      assert whole[1..] == b;
    } else {
      assert whole[0] == a[0] && whole[1..] == a[1..] + "\n" + b;
      LinesConcat(a[1..], b);
    }
  }

  lemma {:induction false} JoinLines(s: string)
    ensures Join(Lines(s)) == s
    decreases |s|
  {
    if s != "" {
      var rest := Lines(s[1..]);
      JoinLines(s[1..]);
      assert s == [s[0]] + s[1..];
      if s[0] == '\n' {
        assert ([""] + rest)[1..] == rest;
      } else if |rest| > 1 {
        assert ([[s[0]] + rest[0]] + rest[1..])[1..] == rest[1..];
      }
    }
  }

  lemma {:induction false} JoinConcat(a: seq<string>, b: seq<string>)
    requires a != [] && b != []
    ensures Join(a + b) == Join(a) + "\n" + Join(b)
    decreases |a|
  {
    assert (a + b)[1..] == a[1..] + b;
    if |a| > 1 {
      JoinConcat(a[1..], b);
      assert a[0] + "\n" + (Join(a[1..]) + "\n" + Join(b)) == Join(a) + "\n" + Join(b);
    }
  }

  predicate IsFence(line: string) { TrimSpace(line) == FENCE }

  /** The first line at or after an index that reads as a fence, or the end. */
  function First(lines: seq<string>, from: nat, fence: string -> bool): (at: nat)
    requires from <= |lines|
    ensures from <= at <= |lines| && (at < |lines| ==> fence(lines[at]))
    ensures forall i | from <= i < at :: !fence(lines[i])
    decreases |lines| - from
  {
    if from == |lines| || fence(lines[from]) then from else First(lines, from + 1, fence)
  }

  function WithoutMark(content: string): string {
    if "\U{FEFF}" <= content then content[1..] else content
  }

  datatype Split = Split(metadata: string, body: string)

  function SplitLines(lines: seq<string>, fence: string -> bool): Option<Split> {
    if lines == [] || !fence(lines[0]) || First(lines, 1, fence) == |lines| then None else
      var close := First(lines, 1, fence);
      Some(Split(Join(lines[1..close]), Join(lines[close + 1..])))
  }

  function SplitOf(content: string): Option<Split> {
    SplitLines(Lines(WithoutMark(content)), IsFence)
  }

  method SplitDocument(content: string) returns (split: Option<Split>)
    ensures split == SplitOf(content)
  {
    var lines := Lines(WithoutMark(content));
    var fence := IsFence;
    if !fence(lines[0]) {
      return None;
    }
    var index := 1;
    while index < |lines|
      invariant 1 <= index <= |lines| && First(lines, index, fence) == First(lines, 1, fence)
    {
      if fence(lines[index]) {
        return Some(Split(Join(lines[1..index]), Join(lines[index + 1..])));
      }
      index := index + 1;
    }
    return None;
  }

  /** Where the metadata ends: at the first line after the first that trims to three hyphens. */
  ghost predicate ClosesAt(lines: seq<string>, close: nat) {
    && 1 <= close < |lines| && TrimSpace(lines[close]) == "---"
    && forall i | 1 <= i < close :: TrimSpace(lines[i]) != "---"
  }

  lemma FirstClosesExactly(lines: seq<string>, close: nat)
    requires lines != []
    ensures ClosesAt(lines, close) <==> close == First(lines, 1, IsFence) && close < |lines|
  {
    var first := First(lines, 1, IsFence);
    assert forall i | 1 <= i < |lines| :: IsFence(lines[i]) <==> TrimSpace(lines[i]) == "---";
    if first < |lines| {
      assert IsFence(lines[first]);
    }
    if ClosesAt(lines, close) {
      assert IsFence(lines[close]);
    }
  }

  /** A document is metadata between two such lines, of which the first opens it, and all that follows. */
  lemma SplitsExactly(content: string)
    ensures var lines := Lines(WithoutMark(content));
      && (SplitOf(content).Some? <==> TrimSpace(lines[0]) == "---" && exists close: nat :: ClosesAt(lines, close))
      && (SplitOf(content).Some? ==> forall close: nat | ClosesAt(lines, close) ::
            SplitOf(content) == Some(Split(Join(lines[1..close]), Join(lines[close + 1..]))))
  {
    var lines := Lines(WithoutMark(content));
    forall close: nat ensures ClosesAt(lines, close) <==> close == First(lines, 1, IsFence) && close < |lines| {
      FirstClosesExactly(lines, close);
    }
    var first := First(lines, 1, IsFence);
    assert SplitOf(content) == SplitLines(lines, IsFence);
    assert IsFence(lines[0]) <==> TrimSpace(lines[0]) == "---";
    if first < |lines| {
      assert ClosesAt(lines, first);
    }
  }

  /** A byte-order mark before it is not part of it. */
  lemma MarkIsIgnored(content: string)
    requires content == "" || content[0] != '\U{FEFF}'
    ensures SplitOf("\U{FEFF}" + content) == SplitOf(content)
  {
    assert ("\U{FEFF}" + content)[1..] == content;
  }

  function Render(metadata: string, body: string): string {
    FENCE + "\n" + metadata + "\n" + FENCE + "\n" + body
  }

  lemma {:induction false} OneLine(line: string)
    requires '\n' !in line
    ensures Lines(line) == [line]
    decreases |line|
  {
    if line != "" {
      OneLine(line[1..]);
      assert [line[0]] + line[1..] == line;
    }
  }

  lemma FenceIsItsOwnLine()
    ensures IsFence(FENCE) && Lines(FENCE) == [FENCE]
  {
    assert TrimLeft(FENCE) == FENCE && TrimRight(FENCE) == FENCE;
    OneLine(FENCE);
  }

  lemma RenderedLines(metadata: string, body: string)
    ensures Lines(WithoutMark(Render(metadata, body))) == ["---"] + Lines(metadata) + ["---"] + Lines(body)
  {
    var rendered := Render(metadata, body);
    assert rendered[0] == '-';
    FenceIsItsOwnLine();
    LinesConcat(FENCE + "\n" + metadata + "\n" + FENCE, body);
    LinesConcat(FENCE + "\n" + metadata, FENCE);
    LinesConcat(FENCE, metadata);
  }

  ghost predicate Clear(lines: seq<string>, fence: string -> bool) {
    forall i | 0 <= i < |lines| :: !fence(lines[i])
  }

  lemma FenceCloses(open: string, metadata: seq<string>, prose: seq<string>, fence: string -> bool)
    requires fence(open)
    ensures var close := First([open] + metadata + [open] + prose, 1, fence);
      if Clear(metadata, fence) then close == |metadata| + 1 else close <= |metadata|
  {
    var lines := [open] + metadata + [open] + prose;
    assert lines[|metadata| + 1] == open;
    assert forall i | 0 <= i < |metadata| :: lines[i + 1] == metadata[i];
  }

  lemma EarlyCloseKeepsMore(open: string, metadata: seq<string>, prose: seq<string>, close: nat)
    requires 1 <= close <= |metadata| && prose != []
    ensures |Join(([open] + metadata + [open] + prose)[close + 1..])| > |Join(prose)|
  {
    var between := metadata[close..] + [open];
    assert ([open] + metadata + [open] + prose)[close + 1..] == between + prose;
    JoinConcat(between, prose);
  }

  lemma FencedLinesSplit(open: string, metadata: seq<string>, prose: seq<string>, fence: string -> bool)
    requires fence(open) && prose != []
    ensures var split := SplitLines([open] + metadata + [open] + prose, fence);
      && split.Some?
      && if Clear(metadata, fence) then split.value == Split(Join(metadata), Join(prose))
         else |split.value.body| > |Join(prose)|
  {
    var lines := [open] + metadata + [open] + prose;
    var close := First(lines, 1, fence);
    FenceCloses(open, metadata, prose, fence);
    SplitsAt(lines, fence, close);
    if Clear(metadata, fence) {
      Between(open, metadata, prose);
    } else {
      EarlyCloseKeepsMore(open, metadata, prose, close);
    }
  }

  lemma SplitsAt(lines: seq<string>, fence: string -> bool, close: nat)
    requires lines != [] && fence(lines[0]) && close == First(lines, 1, fence) < |lines|
    ensures SplitLines(lines, fence) == Some(Split(Join(lines[1..close]), Join(lines[close + 1..])))
  {
  }

  lemma Between(open: string, metadata: seq<string>, prose: seq<string>)
    ensures var lines := [open] + metadata + [open] + prose;
      lines[1..|metadata| + 1] == metadata && lines[|metadata| + 2..] == prose
  {
  }

  /** No line of the metadata reads as a fence. */
  ghost predicate NoFence(metadata: string) { Clear(Lines(metadata), IsFence) }

  /** A rendered document reads back as what was rendered exactly when no line of its metadata reads as a fence;
      when one does, the prose it reads back with is longer than what was rendered. */
  lemma RenderedDocumentSplits(metadata: string, body: string)
    ensures SplitOf(Render(metadata, body)) == Some(Split(metadata, body)) <==> NoFence(metadata)
    ensures SplitOf(Render(metadata, body)).Some?
    ensures !NoFence(metadata) ==> |SplitOf(Render(metadata, body)).value.body| > |body|
  {
    RenderedLines(metadata, body);
    FenceIsItsOwnLine();
    JoinLines(metadata);
    JoinLines(body);
    FencedLinesSplit(FENCE, Lines(metadata), Lines(body), IsFence);
  }

  /** What is left of a body after it is read and written back under each metadata in turn. */
  function Carried(body: string, rewrites: seq<string>): Option<string>
    decreases |rewrites|
  {
    if rewrites == [] then Some(body) else
      match SplitOf(Render(rewrites[0], body))
      case None => None
      case Some(read) => Carried(read.body, rewrites[1..])
  }

  /** However often a document's metadata is rewritten, its prose is the same to the character. */
  lemma {:induction false} ProseSurvivesRewrites(body: string, rewrites: seq<string>)
    requires forall k | 0 <= k < |rewrites| :: NoFence(rewrites[k])
    ensures Carried(body, rewrites) == Some(body)
    decreases |rewrites|
  {
    if rewrites != [] {
      RenderedDocumentSplits(rewrites[0], body);
      ProseSurvivesRewrites(body, rewrites[1..]);
    }
  }
}
