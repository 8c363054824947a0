/** The string operations the other modules share, as Go's `strings` and `unicode` packages define them. */
module Text {
  datatype Option<+T> = None | Some(value: T)

  /** `unicode.IsSpace`. */
  predicate IsSpace(c: char) {
    || c == ' ' || '\t' <= c <= '\r' || c == '\U{0085}' || c == '\U{00A0}' || c == '\U{1680}'
    || '\U{2000}' <= c <= '\U{200A}' || c == '\U{2028}' || c == '\U{2029}' || c == '\U{202F}'
    || c == '\U{205F}' || c == '\U{3000}'
  }

  /** The characters of Unicode's White_Space property, by number. */
  lemma SpaceExactly(c: char)
    ensures IsSpace(c) <==>
      || 9 <= c as int <= 13 || 8192 <= c as int <= 8202
      || c as int in {32, 133, 160, 5760, 8232, 8233, 8239, 8287, 12288}
  {
  }

  function TrimLeft(s: string): string {
    if s != "" && IsSpace(s[0]) then TrimLeft(s[1..]) else s
  }

  function TrimRight(s: string): string {
    if s != "" && IsSpace(s[|s| - 1]) then TrimRight(s[..|s| - 1]) else s
  }

  /** `strings.TrimSpace`. */
  function TrimSpace(s: string): string {
    TrimRight(TrimLeft(s))
  }

  lemma {:induction false} TrimLeftTrimmed(s: string)
    ensures var t := TrimLeft(s); t == "" || !IsSpace(t[0])
    decreases |s|
  {
    if s != "" && IsSpace(s[0]) {
      TrimLeftTrimmed(s[1..]);
    }
  }

  lemma {:induction false} TrimRightTrimmed(s: string)
    ensures var t := TrimRight(s); t <= s && (t == "" || !IsSpace(t[|t| - 1]))
    decreases |s|
  {
    if s != "" && IsSpace(s[|s| - 1]) {
      TrimRightTrimmed(s[..|s| - 1]);
    }
  }

  lemma TrimTwice(s: string)
    ensures TrimSpace(TrimSpace(s)) == TrimSpace(s)
  {
    TrimLeftTrimmed(s);
    TrimRightTrimmed(TrimLeft(s));
    var t := TrimSpace(s);
    assert t != "" ==> t[0] == TrimLeft(s)[0];
    assert TrimLeft(t) == t;
  }

  /** What is trimmed is what stands between space, and neither begins nor ends with any. */
  lemma TrimmedExactly(left: string, middle: string, right: string)
    requires (forall i | 0 <= i < |left| :: IsSpace(left[i])) && forall i | 0 <= i < |right| :: IsSpace(right[i])
    requires middle != "" ==> !IsSpace(middle[0]) && !IsSpace(middle[|middle| - 1])
    ensures TrimSpace(left + middle + right) == middle
  {
    if middle == "" {
      assert left + middle + right == left + right;
      AllSpace(left + right);
    } else {
      TrimLeftOff(left, middle + right);
      assert left + middle + right == left + (middle + right);
      assert TrimLeft(middle + right) == middle + right;
      TrimRightOff(middle, right);
    }
  }

  lemma {:induction false} AllSpace(s: string)
    requires forall i | 0 <= i < |s| :: IsSpace(s[i])
    ensures TrimLeft(s) == ""
    decreases |s|
  {
    if s != "" {
      AllSpace(s[1..]);
    }
  }

  lemma {:induction false} TrimLeftOff(left: string, rest: string)
    requires forall i | 0 <= i < |left| :: IsSpace(left[i])
    ensures TrimLeft(left + rest) == TrimLeft(rest)
    decreases |left|
  {
    if left == "" {
      assert left + rest == rest;
    } else {
      assert (left + rest)[1..] == left[1..] + rest;
      TrimLeftOff(left[1..], rest);
    }
  }

  lemma {:induction false} TrimRightOff(rest: string, right: string)
    requires rest != "" && !IsSpace(rest[|rest| - 1]) && forall i | 0 <= i < |right| :: IsSpace(right[i])
    ensures TrimRight(rest + right) == rest
    decreases |right|
  {
    if right == "" {
      assert rest + right == rest;
    } else {
      assert (rest + right)[..|rest + right| - 1] == rest + right[..|right| - 1];
      TrimRightOff(rest, right[..|right| - 1]);
    }
  }

  /** How many bytes UTF-8 spends on one character (section 3 of RFC 3629). */
  function CharBytes(c: char): (n: nat)
    ensures 1 <= n <= 4
  {
    if c < '\U{0080}' then 1 else if c < '\U{0800}' then 2 else if c < '\U{10000}' then 3 else 4
  }

  /** Go's `len` of a string: bytes, not characters. */
  function ByteLen(s: string): nat {
    if s == "" then 0 else CharBytes(s[0]) + ByteLen(s[1..])
  }

  lemma ByteLenConcat(a: string, b: string)
    ensures ByteLen(a + b) == ByteLen(a) + ByteLen(b)
  {
    if a == "" {
      assert a + b == b;
    } else {
      assert (a + b)[1..] == a[1..] + b;
      ByteLenConcat(a[1..], b);
    }
  }

  lemma {:induction false} BytesPerChar(s: string)
    ensures ByteLen(s) <= 4 * |s|
    decreases |s|
  {
    if s != "" {
      BytesPerChar(s[1..]);
    }
  }

  predicate OccursAt(s: string, part: string, at: int) {
    0 <= at <= |s| - |part| && s[at..at + |part|] == part
  }

  /** `strings.Contains`. */
  predicate Contains(s: string, part: string) {
    exists at | 0 <= at <= |s| :: OccursAt(s, part, at)
  }

  function StripTrailingSlashes(path: string): (r: string)
    ensures r <= path && (r != "" ==> r[|r| - 1] != '/')
    ensures forall i | |r| <= i < |path| :: path[i] == '/'
  {
    if path != "" && path[|path| - 1] == '/' then StripTrailingSlashes(path[..|path| - 1]) else path
  }

  function AfterLastSlash(path: string): (r: string)
    ensures |r| <= |path| && path[|path| - |r|..] == r && '/' !in r
    ensures |r| < |path| ==> path[|path| - |r| - 1] == '/'
  {
    if path == "" || path[|path| - 1] == '/' then "" else
      var r := AfterLastSlash(path[..|path| - 1]);
      assert path[|path| - 1 - |r|..] == r + [path[|path| - 1]];
      r + [path[|path| - 1]]
  }

  /** `path.Base`. */
  function Base(path: string): string {
    var stripped := StripTrailingSlashes(path);
    if path == "" then "." else if stripped == "" then "/" else AfterLastSlash(stripped)
  }
}
