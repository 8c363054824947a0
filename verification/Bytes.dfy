/** Texts as the bytes UTF-8 makes of them. */
module Bytes {
  import opened Text

  newtype Byte = x: int | 0 <= x < 0x100

  /** UTF-8, as section 3 of RFC 3629 encodes one character. */
  function Encode(c: char): (bytes: seq<Byte>)
    ensures |bytes| == CharBytes(c)
  {
    var n := c as int;
    if n < 0x80 then [n as Byte]
    else if n < 0x800 then [(0xC0 + n / 0x40) as Byte, (0x80 + n % 0x40) as Byte]
    else if n < 0x10000 then [(0xE0 + n / 0x1000) as Byte, (0x80 + n / 0x40 % 0x40) as Byte, (0x80 + n % 0x40) as Byte]
    else [(0xF0 + n / 0x40000) as Byte, (0x80 + n / 0x1000 % 0x40) as Byte, (0x80 + n / 0x40 % 0x40) as Byte,
      (0x80 + n % 0x40) as Byte]
  }

  function Utf8(s: string): (bytes: seq<Byte>)
    ensures |bytes| == ByteLen(s)
  {
    if s == "" then [] else Encode(s[0]) + Utf8(s[1..])
  }

  /** A prefix of the characters is a prefix of the bytes, of its own length. */
  lemma {:induction false} PrefixBytes(s: string, k: nat)
    requires k <= |s|
    ensures ByteLen(s[..k]) <= ByteLen(s) && Utf8(s)[..ByteLen(s[..k])] == Utf8(s[..k])
    decreases |s|
  {
    if k > 0 {
      PrefixBytes(s[1..], k - 1);
      assert s[..k][1..] == s[1..][..k - 1] && s[..k][0] == s[0];
    }
  }

  lemma BytesOneMore(s: string, k: nat)
    requires k < |s|
    ensures ByteLen(s[..k + 1]) == ByteLen(s[..k]) + CharBytes(s[k])
  {
    assert s[..k + 1] == s[..k] + [s[k]];
    assert [s[k]][1..] == "";
    ByteLenConcat(s[..k], [s[k]]);
  }
}
