/** Work that looks like work the tracker already holds: an identifier cited as an identifier, and two titles carrying
    one scope: internal/admission/admission.go. Texts and titles arrive here in lower case. */
module Duplicates {
  import opened Text
  import opened Bytes
  import opened Codes

  // ---- One identifier, cited as itself ----

  predicate Within(b: Byte, from: Byte, to: Byte) { from <= b <= to }

  /** The byte read as the rune of that number: a hyphen, an underscore, or what Unicode calls a letter or a digit among
      the first 256 characters. */
  predicate Extends(b: Byte) {
    || b == 0x2D || b == 0x5F || Within(b, 0x30, 0x39) || Within(b, 0x41, 0x5A) || Within(b, 0x61, 0x7A)
    || b == 0xAA || b == 0xB5 || b == 0xBA || Within(b, 0xC0, 0xD6) || Within(b, 0xD8, 0xF6) || Within(b, 0xF8, 0xFF)
  }

  /** `extendsIdentifier`, by whatever a byte is judged to be. */
  predicate ExtendsIdentifier(text: seq<Byte>, at: int, joins: Byte -> bool) {
    if at < 0 || at >= |text| then false else joins(text[at])
  }

  /** `strings.Index` of what is left from `from` on. */
  method Index(text: seq<Byte>, wanted: seq<Byte>, from: nat) returns (found: Option<nat>)
    ensures found.Some? ==> found.value >= from && Written(text, wanted, found.value)
                            && forall i | from <= i < found.value :: !Written(text, wanted, i)
    ensures found.None? ==> forall i | from <= i :: !Written(text, wanted, i)
  {
    var at := from;
    while at + |wanted| <= |text|
      invariant from <= at && forall i | from <= i < at :: !Written(text, wanted, i)
    {
      if text[at..at + |wanted|] == wanted {
        return Some(at);
      }
      at := at + 1;
    }
    return None;
  }

  /** True exactly when some occurrence, overlapping ones included, has no identifier byte on either side. */
  method Cites(text: seq<Byte>, wanted: seq<Byte>, joins: Byte -> bool) returns (cited: bool)
    ensures cited <==> exists i :: Alone(text, wanted, i, joins, joins)
  {
    var at := 0;
    while at + |wanted| <= |text|
      invariant forall i | 0 <= i < at :: !Alone(text, wanted, i, joins, joins)
    {
      var found := Index(text, wanted, at);
      if found.None? {
        return false;
      }
      var start := found.value;
      var end := start + |wanted|;
      if !ExtendsIdentifier(text, start - 1, joins) && !ExtendsIdentifier(text, end, joins) {
        assert Alone(text, wanted, start, joins, joins);
        return true;
      }
      at := start + 1;
    }
    return false;
  }

  // ---- The same, in characters ----

  predicate Ascii(s: string) { forall k | 0 <= k < |s| :: s[k] < '\U{0080}' }

  /** The characters an identifier is made of. */
  predicate OfIdentifier(c: char) {
    c == '-' || c == '_' || '0' <= c <= '9' || 'A' <= c <= 'Z' || 'a' <= c <= 'z'
  }

  /** A character whose last byte passes for a letter without being one of an identifier. */
  predicate PassesBefore(c: char) {
    c >= '\U{0080}' && (c as int % 64 == 0x2A || c as int % 64 == 0x35 || c as int % 64 == 0x3A)
  }

  /** A character whose first byte does: every one outside ASCII but the block from U+05C0 to U+05FF. */
  predicate PassesAfter(c: char) {
    c >= '\U{0080}' && c as int / 64 != 0x17
  }

  predicate ReadsBefore(c: char) { OfIdentifier(c) || PassesBefore(c) }

  predicate ReadsAfter(c: char) { OfIdentifier(c) || PassesAfter(c) }

  lemma LastByte(c: char)
    ensures Extends(Encode(c)[CharBytes(c) - 1]) <==> ReadsBefore(c)
  {
  }

  lemma FirstByte(c: char)
    ensures Extends(Encode(c)[0]) <==> ReadsAfter(c)
  {
  }

  lemma LettersTold()
    ensures Readable(Encode) && Told(Encode, Extends, Extends, ReadsBefore, ReadsAfter)
  {
    forall c: char ensures Extends(Encode(c)[|Encode(c)| - 1]) <==> ReadsBefore(c) { LastByte(c); }
    forall c: char ensures Extends(Encode(c)[0]) <==> ReadsAfter(c) { FirstByte(c); }
  }

  lemma AsciiIsPlain(wanted: string)
    requires Ascii(wanted)
    ensures PlainWord(Encode, wanted)
  {
  }

  lemma {:induction false} Utf8IsCoded(s: string)
    ensures Utf8(s) == Coded(Encode, s)
    decreases |s|
  {
    if s != "" {
      Utf8IsCoded(s[1..]);
    }
  }

  /** A citation as the comment means it: no identifier character on either side. */
  predicate Meant(text: string, wanted: string, p: int) { Alone(text, wanted, p, OfIdentifier, OfIdentifier) }

  predicate Overlooked(text: string, wanted: string, p: int) {
    Precedes(text, p, PassesBefore) || Follows(text, p + |wanted|, PassesAfter)
  }

  predicate Cited(text: string, wanted: string, p: int) { Meant(text, wanted, p) && !Overlooked(text, wanted, p) }

  /** What `Cites` answers, in characters. The comment's claim that judging bytes is exact would be this without the
      second half of `Cited`. */
  lemma CitesMeans(text: string, wanted: string)
    requires Ascii(wanted) && wanted != ""
    ensures (exists i :: Alone(Utf8(text), Utf8(wanted), i, Extends, Extends)) <==> exists p :: Cited(text, wanted, p)
  {
    AsciiIsPlain(wanted);
    LettersTold();
    Utf8IsCoded(text);
    Utf8IsCoded(wanted);
    SomewhereAlone(Encode, text, wanted, Extends, Extends, ReadsBefore, ReadsAfter);
    SomewhereCited(text, wanted);
  }

  lemma SomewhereCited(text: string, wanted: string)
    ensures (exists p :: Alone(text, wanted, p, ReadsBefore, ReadsAfter)) <==> exists p :: Cited(text, wanted, p)
  {
    if p :| Alone(text, wanted, p, ReadsBefore, ReadsAfter) {
      assert Cited(text, wanted, p);
    }
    if p :| Cited(text, wanted, p) {
      assert Alone(text, wanted, p, ReadsBefore, ReadsAfter);
    }
  }

  /** An em dash right after it hides a citation from every text that makes it once. */
  lemma DashHidesACitation(before: string, wanted: string, after: string)
    requires Ascii(wanted) && wanted != ""
    requires forall p :: Written(before + wanted + "\U{2014}" + after, wanted, p) ==> p == |before|
    ensures !exists i :: Alone(Utf8(before + wanted + "\U{2014}" + after), Utf8(wanted), i, Extends, Extends)
  {
    var text := before + wanted + "\U{2014}" + after;
    CitesMeans(text, wanted);
    if p :| Cited(text, wanted, p) {
      assert Written(text, wanted, p);
      assert text[|before| + |wanted|] == '\U{2014}';
      assert Follows(text, p + |wanted|, PassesAfter);
    }
  }

  /** The claim, where it holds: in a text of ASCII alone nothing can be overlooked. */
  lemma BytesAreExactInAscii(text: string, wanted: string)
    requires Ascii(wanted) && wanted != "" && Ascii(text)
    ensures (exists i :: Alone(Utf8(text), Utf8(wanted), i, Extends, Extends)) <==> exists p :: Meant(text, wanted, p)
  {
    CitesMeans(text, wanted);
    forall p ensures Meant(text, wanted, p) <==> Cited(text, wanted, p) { }
  }
}
