/**
 * Python 2's `urllib.quote(s)` with its default `safe='/'`: the percent-encoding of
 * section 2.1 of RFC 3986 applied to every byte outside letters, digits, `_`, `.`,
 * `-` and `/`; and `urllib.unquote`, which reverses it.
 */
module Percent {

  import opened Strings

  /** The characters `quote` never escapes: its `always_safe` set plus the `safe` argument `/`. */
  predicate IsSafe(c: char)
  {
    'A' <= c <= 'Z' || 'a' <= c <= 'z' || '0' <= c <= '9' || c == '_' || c == '.' || c == '-' || c == '/'
  }

  predicate IsHex(c: char)
  {
    '0' <= c <= '9' || 'A' <= c <= 'F' || 'a' <= c <= 'f'
  }

  function HexValue(c: char): (v: int)
    requires IsHex(c)
    ensures 0 <= v < 16
  {
    if '0' <= c <= '9' then c as int - '0' as int
    else if 'A' <= c <= 'F' then c as int - 'A' as int + 10
    else c as int - 'a' as int + 10
  }

  /** An upper-case hexadecimal digit, as `'%%%02X'` writes it. */
  function HexDigit(v: int): (c: char)
    requires 0 <= v < 16
    ensures IsHex(c) && HexValue(c) == v
  {
    if v < 10 then ('0' as int + v) as char else ('A' as int + v - 10) as char
  }

  /** One byte, kept as it is or written `%XX`. */
  function QuoteChar(c: char): string
    requires c as int < 256
  {
    if IsSafe(c) then [c] else ['%', HexDigit(c as int / 16), HexDigit(c as int % 16)]
  }

  function Quote(s: string): (r: string)
    requires IsByteString(s)
    ensures |r| >= |s|
    decreases |s|
  {
    if s == [] then [] else QuoteChar(s[0]) + Quote(s[1..])
  }

  /** Every `%` followed by two hexadecimal digits becomes the byte they name. */
  function Unquote(s: string): string
    decreases |s|
  {
    if s == [] then []
    else if s[0] == '%' && |s| >= 3 && IsHex(s[1]) && IsHex(s[2]) then
      [(HexValue(s[1]) * 16 + HexValue(s[2])) as char] + Unquote(s[3..])
    else [s[0]] + Unquote(s[1..])
  }

  lemma UnquoteQuoteChar(c: char, t: string)
    requires c as int < 256
    ensures Unquote(QuoteChar(c) + t) == [c] + Unquote(t)
  {
    var q := QuoteChar(c) + t;
    if IsSafe(c) {
      assert q[0] == c && q[1..] == t;
    } else {
      assert q[0] == '%' && q[3..] == t;
      assert c as int / 16 * 16 + c as int % 16 == c as int;
    }
  }

  /** Unquoting the quoted path gives back the path. */
  lemma {:induction false} UnquoteQuote(s: string)
    requires IsByteString(s)
    ensures Unquote(Quote(s)) == s
    decreases |s|
  {
    if s != [] {
      UnquoteQuoteChar(s[0], Quote(s[1..]));
      UnquoteQuote(s[1..]);
      assert s == [s[0]] + s[1..];
    }
  }

  /**
   * The quoted text holds only safe characters and `%XX` escapes; in particular it has
   * no `?`, `#`, space or newline.
   */
  lemma {:induction false} QuoteIsSafe(s: string)
    requires IsByteString(s)
    ensures forall i :: 0 <= i < |Quote(s)| ==> IsSafe(Quote(s)[i]) || Quote(s)[i] == '%' || IsHex(Quote(s)[i])
    decreases |s|
  {
    if s != [] {
      QuoteIsSafe(s[1..]);
    }
  }

  /** Quoting leaves a path unchanged exactly when every character of it is safe. */
  lemma {:induction false} QuoteIdentity(s: string)
    requires IsByteString(s)
    ensures Quote(s) == s <==> forall i :: 0 <= i < |s| ==> IsSafe(s[i])
    decreases |s|
  {
    if s != [] {
      QuoteIdentity(s[1..]);
      if IsSafe(s[0]) {
        assert Quote(s) == [s[0]] + Quote(s[1..]);
        assert s == [s[0]] + s[1..];
        assert (forall i :: 0 <= i < |s| ==> IsSafe(s[i]))
           <==> (forall i :: 0 <= i < |s[1..]| ==> IsSafe(s[1..][i]));
      } else {
        assert |Quote(s)| == 3 + |Quote(s[1..])|;
      }
    }
  }

  /** Quoting keeps a leading `/` in place. */
  lemma QuoteLeadingSlash(s: string)
    requires IsByteString(s) && s != []
    ensures Quote(s) != [] && (Quote(s)[0] == '/' <==> s[0] == '/')
  {
  }
}
