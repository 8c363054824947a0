/** Reading a coded text by its codes: what is written where, when some characters have a code that occurs in no
    other. */
module Codes {
  function Coded<T>(code: char -> seq<T>, s: string): seq<T> {
    if s == "" then [] else code(s[0]) + Coded(code, s[1..])
  }

  /** A character whose code is one unit that no other character's code holds. */
  ghost predicate Plain<T>(code: char -> seq<T>, a: char) {
    |code(a)| == 1 && forall c: char :: code(a)[0] in code(c) ==> c == a
  }

  ghost predicate PlainWord<T>(code: char -> seq<T>, word: string) {
    forall k | 0 <= k < |word| :: Plain(code, word[k])
  }

  ghost predicate Readable<T>(code: char -> seq<T>) { forall c: char :: code(c) != [] }

  predicate Written<T(==)>(text: seq<T>, wanted: seq<T>, p: int) {
    0 <= p && p + |wanted| <= |text| && text[p..p + |wanted|] == wanted
  }

  predicate Precedes<T>(text: seq<T>, p: int, what: T -> bool) { 0 < p <= |text| && what(text[p - 1]) }

  predicate Follows<T>(text: seq<T>, p: int, what: T -> bool) { 0 <= p < |text| && what(text[p]) }

  predicate Alone<T(==)>(text: seq<T>, wanted: seq<T>, p: int, before: T -> bool, after: T -> bool) {
    Written(text, wanted, p) && !Precedes(text, p, before) && !Follows(text, p + |wanted|, after)
  }

  lemma {:induction false} CodedConcat<T>(code: char -> seq<T>, a: string, b: string)
    ensures Coded(code, a + b) == Coded(code, a) + Coded(code, b)
    decreases |a|
  {
    if a == "" {
      assert a + b == b;
    } else {
      CodedConcat(code, a[1..], b);
      assert (a + b)[1..] == a[1..] + b;
    }
  }

  function Start<T>(code: char -> seq<T>, text: string, p: nat): nat
    requires p <= |text|
  {
    |Coded(code, text[..p])|
  }

  /** The codes divide where the characters do. */
  lemma Divides<T>(code: char -> seq<T>, text: string, p: nat)
    requires p <= |text|
    ensures Coded(code, text) == Coded(code, text[..p]) + Coded(code, text[p..])
  {
    var before, after := text[..p], text[p..];
    assert before + after == text;
    CodedConcat(code, before, after);
  }

  lemma LastCode<T>(code: char -> seq<T>, text: string, p: nat)
    requires 0 < p <= |text|
    ensures Coded(code, text[..p]) == Coded(code, text[..p - 1]) + code(text[p - 1])
  {
    var last := [text[p - 1]];
    CodedConcat(code, text[..p - 1], last);
    assert text[..p] == text[..p - 1] + last;
    assert last[1..] == "" && Coded(code, last) == code(last[0]) + Coded(code, "");
  }

  /** A unit that is a whole code stands at its character's start. */
  lemma {:induction false} StartsThere<T>(code: char -> seq<T>, text: string, i: nat, a: char) returns (p: nat)
    requires Plain(code, a) && i < |Coded(code, text)| && Coded(code, text)[i] == code(a)[0]
    ensures p < |text| && Start(code, text, p) == i
    decreases |text|
  {
    var n := |code(text[0])|;
    if i < n {
      assert Coded(code, text)[i] == code(text[0])[i];
      p := 0;
    } else {
      var q := StartsThere(code, text[1..], i - n, a);
      p := q + 1;
      assert text[..p][1..] == text[1..][..q];
    }
  }

  lemma SameHead<T>(head: seq<T>, a: seq<T>, b: seq<T>)
    ensures head + a <= head + b <==> a <= b
  {
    if head + a <= head + b {
      assert forall k | 0 <= k < |a| :: a[k] == (head + a)[|head| + k] == (head + b)[|head| + k] == b[k];
    }
  }

  /** Codes that begin with a plain word's are of a text that begins with the word. */
  lemma {:induction false} WordReads<T>(code: char -> seq<T>, t: string, word: string)
    requires PlainWord(code, word) && Readable(code)
    ensures word <= t <==> Coded(code, word) <= Coded(code, t)
    decreases |word|
  {
    if word != "" && t != "" {
      var rest, more := word[1..], t[1..];
      if t[0] == word[0] {
        WordReads(code, more, rest);
        SameHead(code(t[0]), Coded(code, rest), Coded(code, more));
        SameHead([t[0]], rest, more);
        assert word == [t[0]] + rest && t == [t[0]] + more;
      } else {
        assert Plain(code, word[0]);
        assert Coded(code, t)[0] == code(t[0])[0] && Coded(code, word)[0] == code(word[0])[0];
        assert code(t[0])[0] in code(t[0]);
      }
    } else if word != "" {
      assert Plain(code, word[0]);
    }
  }

  lemma {:induction false} PlainLength<T>(code: char -> seq<T>, word: string)
    requires PlainWord(code, word)
    ensures |Coded(code, word)| == |word|
    decreases |word|
  {
    if word != "" {
      assert Plain(code, word[0]);
      PlainLength(code, word[1..]);
    }
  }

  lemma WrittenIsPrefix<T>(text: seq<T>, wanted: seq<T>, p: nat)
    requires p <= |text|
    ensures Written(text, wanted, p) <==> wanted <= text[p..]
  {
    if p + |wanted| <= |text| {
      assert text[p..][..|wanted|] == text[p..p + |wanted|];
    }
  }

  /** Written among the characters is written, at that character's start, among the codes. */
  lemma WrittenIsCoded<T>(code: char -> seq<T>, text: string, word: string, p: nat)
    requires PlainWord(code, word) && Readable(code) && p <= |text|
    ensures Written(text, word, p) <==> Written(Coded(code, text), Coded(code, word), Start(code, text, p))
  {
    Divides(code, text, p);
    var codes, i := Coded(code, text), Start(code, text, p);
    assert codes[i..] == Coded(code, text[p..]);
    WrittenIsPrefix(text, word, p);
    WrittenIsPrefix(codes, Coded(code, word), i);
    WordReads(code, text[p..], word);
  }

  lemma EndOf<T>(code: char -> seq<T>, text: string, word: string, p: nat)
    requires Written(text, word, p)
    ensures Start(code, text, p + |word|) == Start(code, text, p) + |Coded(code, word)|
  {
    assert text[..p + |word|] == text[..p] + word;
    CodedConcat(code, text[..p], word);
  }

  /** What one unit predicate makes of a character's last unit, and another of its first. */
  ghost predicate Told<T>(code: char -> seq<T>, before: T -> bool, after: T -> bool, last: char -> bool,
                          first: char -> bool)
    requires Readable(code)
  {
    && (forall c: char :: before(code(c)[|code(c)| - 1]) <==> last(c))
    && (forall c: char :: after(code(c)[0]) <==> first(c))
  }

  lemma UnitBefore<T>(code: char -> seq<T>, text: string, p: nat)
    requires Readable(code) && 0 < p <= |text|
    ensures 0 < Start(code, text, p) <= |Coded(code, text)|
    ensures Coded(code, text)[Start(code, text, p) - 1] == code(text[p - 1])[|code(text[p - 1])| - 1]
  {
    Divides(code, text, p);
    LastCode(code, text, p);
    assert code(text[p - 1]) != [];
  }

  lemma PrecedesTold<T>(code: char -> seq<T>, text: string, p: nat, before: T -> bool, last: char -> bool)
    requires Readable(code) && (forall c: char :: before(code(c)[|code(c)| - 1]) <==> last(c)) && p <= |text|
    ensures Precedes(Coded(code, text), Start(code, text, p), before) <==> Precedes(text, p, last)
  {
    if p > 0 {
      UnitBefore(code, text, p);
    }
  }

  lemma FollowsTold<T>(code: char -> seq<T>, text: string, p: nat, after: T -> bool, first: char -> bool)
    requires Readable(code) && (forall c: char :: after(code(c)[0]) <==> first(c)) && p <= |text|
    ensures Follows(Coded(code, text), Start(code, text, p), after) <==> Follows(text, p, first)
  {
    Divides(code, text, p);
    if p < |text| {
      assert Coded(code, text[p..])[0] == code(text[p])[0];
      assert Coded(code, text)[Start(code, text, p)] == Coded(code, text[p..])[0];
    } else {
      assert text[p..] == "";
    }
  }

  /** Standing alone among the codes is standing alone among the characters, as their ends tell. */
  lemma AloneIsCoded<T>(code: char -> seq<T>, text: string, word: string, p: nat, before: T -> bool, after: T -> bool,
                        last: char -> bool, first: char -> bool)
    requires PlainWord(code, word) && Readable(code) && p <= |text| && Told(code, before, after, last, first)
    ensures Alone(Coded(code, text), Coded(code, word), Start(code, text, p), before, after)
       <==> Alone(text, word, p, last, first)
  {
    WrittenIsCoded(code, text, word, p);
    if Written(text, word, p) {
      SidesTold(code, text, word, p, before, after, last, first);
    }
  }

  lemma SidesTold<T>(code: char -> seq<T>, text: string, word: string, p: nat, before: T -> bool, after: T -> bool,
                     last: char -> bool, first: char -> bool)
    requires Readable(code) && Written(text, word, p) && Told(code, before, after, last, first)
    ensures Precedes(Coded(code, text), Start(code, text, p), before) <==> Precedes(text, p, last)
    ensures Follows(Coded(code, text), Start(code, text, p) + |Coded(code, word)|, after)
       <==> Follows(text, p + |word|, first)
  {
    EndOf(code, text, word, p);
    PrecedesTold(code, text, p, before, last);
    FollowsTold(code, text, p + |word|, after, first);
  }

  /** Anywhere at all. */
  lemma SomewhereAlone<T>(code: char -> seq<T>, text: string, word: string, before: T -> bool, after: T -> bool,
                          last: char -> bool, first: char -> bool)
    requires PlainWord(code, word) && Readable(code) && word != "" && Told(code, before, after, last, first)
    ensures (exists i :: Alone(Coded(code, text), Coded(code, word), i, before, after))
       <==> exists p :: Alone(text, word, p, last, first)
  {
    var codes, coded := Coded(code, text), Coded(code, word);
    PlainLength(code, word);
    if i :| Alone(codes, coded, i, before, after) {
      assert Plain(code, word[0]);
      assert coded[0] == code(word[0])[0];
      assert codes[i] == codes[i..i + |coded|][0];
      var p := StartsThere(code, text, i, word[0]);
      AloneIsCoded(code, text, word, p, before, after, last, first);
      assert Alone(text, word, p, last, first);
    }
    if p :| Alone(text, word, p, last, first) {
      AloneIsCoded(code, text, word, p, before, after, last, first);
      assert Alone(codes, coded, Start(code, text, p), before, after);
    }
  }
}
