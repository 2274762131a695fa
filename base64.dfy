/**
 * The base 64 encoding of section 4 of RFC 4648, as `base64.b64encode` produces it
 * (with `=` padding), and the matching decoder.
 */
module Base64 {

  import opened Wrappers
  import opened Strings

  /** The 64 characters of the alphabet. */
  predicate IsAlphabet(c: char)
  {
    'A' <= c <= 'Z' || 'a' <= c <= 'z' || '0' <= c <= '9' || c == '+' || c == '/'
  }

  /** The value of an alphabet character. */
  function ValueOf(c: char): (v: int)
    requires IsAlphabet(c)
    ensures 0 <= v < 64
  {
    if 'A' <= c <= 'Z' then c as int - 'A' as int
    else if 'a' <= c <= 'z' then c as int - 'a' as int + 26
    else if '0' <= c <= '9' then c as int - '0' as int + 52
    else if c == '+' then 62
    else 63
  }

  /** The alphabet character of a 6-bit value. */
  function CharOf(v: int): (c: char)
    requires 0 <= v < 64
    ensures IsAlphabet(c) && ValueOf(c) == v
  {
    if v < 26 then ('A' as int + v) as char
    else if v < 52 then ('a' as int + v - 26) as char
    else if v < 62 then ('0' as int + v - 52) as char
    else if v == 62 then '+'
    else '/'
  }

  /** The 4 characters of a full group of 3 bytes. */
  function Group(x: byte, y: byte, z: byte): (r: string)
    ensures |r| == 4 && forall i :: 0 <= i < 4 ==> IsAlphabet(r[i])
  {
    [CharOf(x / 4), CharOf(x % 4 * 16 + y / 16), CharOf(y % 16 * 4 + z / 64), CharOf(z % 64)]
  }

  /** A final group of 1 byte, padded with `==`. */
  function LastOne(x: byte): (r: string)
    ensures |r| == 4 && r[2] == r[3] == '=' && IsAlphabet(r[0]) && IsAlphabet(r[1])
  {
    [CharOf(x / 4), CharOf(x % 4 * 16), '=', '=']
  }

  /** A final group of 2 bytes, padded with `=`. */
  function LastTwo(x: byte, y: byte): (r: string)
    ensures |r| == 4 && r[3] == '=' && forall i :: 0 <= i < 3 ==> IsAlphabet(r[i])
  {
    [CharOf(x / 4), CharOf(x % 4 * 16 + y / 16), CharOf(y % 16 * 4), '=']
  }

  /**
   * Every 3 bytes become 4 characters; a final group of 1 or 2 bytes is padded
   * with `==` or `=`.
   */
  function Encode(s: seq<byte>): (r: string)
    ensures |r| == (|s| + 2) / 3 * 4
    decreases |s|
  {
    if |s| == 0 then []
    else if |s| == 1 then LastOne(s[0])
    else if |s| == 2 then LastTwo(s[0], s[1])
    else Group(s[0], s[1], s[2]) + Encode(s[3..])
  }

  /** The encoding uses only the alphabet and the padding character. */
  lemma {:induction false} EncodeAlphabet(s: seq<byte>)
    ensures forall i :: 0 <= i < |Encode(s)| ==> IsAlphabet(Encode(s)[i]) || Encode(s)[i] == '='
    decreases |s|
  {
    if |s| >= 3 {
      EncodeAlphabet(s[3..]);
      var g := Group(s[0], s[1], s[2]);
      assert Encode(s) == g + Encode(s[3..]);
    }
  }

  /** Reads groups of 4 characters back into bytes; `None` for text that is not base 64. */
  function Decode(t: string): (r: Option<seq<byte>>)
    decreases |t|
  {
    if |t| == 0 then Some([])
    else if |t| < 4 || !IsAlphabet(t[0]) || !IsAlphabet(t[1]) then None
    else
      var a, b := ValueOf(t[0]), ValueOf(t[1]);
      var b0 := a * 4 + b / 16;
      if |t| == 4 && t[2] == '=' && t[3] == '=' then Some([b0])
      else if !IsAlphabet(t[2]) then None
      else
        var c := ValueOf(t[2]);
        var b1 := b % 16 * 16 + c / 4;
        if |t| == 4 && t[3] == '=' then Some([b0, b1])
        else if !IsAlphabet(t[3]) then None
        else
          var b2 := c % 4 * 64 + ValueOf(t[3]);
          match Decode(t[4..])
          case None => None
          case Some(rest) => Some([b0, b1, b2] + rest)
  }

  lemma DecodeLastOne(x: byte)
    ensures Decode(LastOne(x)) == Some([x])
  {
    assert x / 4 * 4 + x % 4 * 16 / 16 == x;
  }

  lemma DecodeLastTwo(x: byte, y: byte)
    ensures Decode(LastTwo(x, y)) == Some([x, y])
  {
    var t := LastTwo(x, y);
    assert x / 4 * 4 + (x % 4 * 16 + y / 16) / 16 == x;
    assert (x % 4 * 16 + y / 16) % 16 * 16 + y % 16 * 4 / 4 == y;
    assert t[2] != '=';
  }

  lemma DecodeGroup(x: byte, y: byte, z: byte, rest: string, tail: seq<byte>)
    requires Decode(rest) == Some(tail)
    ensures Decode(Group(x, y, z) + rest) == Some([x, y, z] + tail)
  {
    var t := Group(x, y, z) + rest;
    assert x / 4 * 4 + (x % 4 * 16 + y / 16) / 16 == x;
    assert (x % 4 * 16 + y / 16) % 16 * 16 + (y % 16 * 4 + z / 64) / 4 == y;
    assert (y % 16 * 4 + z / 64) % 4 * 64 + z % 64 == z;
    assert IsAlphabet(t[2]) && IsAlphabet(t[3]);
    assert t[4..] == rest;
  }

  /** Decoding an encoding gives back the bytes. */
  lemma {:induction false} DecodeEncode(s: seq<byte>)
    ensures Decode(Encode(s)) == Some(s)
    decreases |s|
  {
    if |s| == 1 {
      DecodeLastOne(s[0]);
      assert s == [s[0]];
    } else if |s| == 2 {
      DecodeLastTwo(s[0], s[1]);
      assert s == [s[0], s[1]];
    } else if |s| >= 3 {
      assert s == [s[0], s[1], s[2]] + s[3..];
      DecodeEncode(s[3..]);
      DecodeGroup(s[0], s[1], s[2], Encode(s[3..]), s[3..]);
    }
  }
}
