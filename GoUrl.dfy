/**
 * Go's url.PathEscape and url.PathUnescape: percent-encoding (section 2.1 of
 * RFC 3986) of the UTF-8 bytes of a path segment.
 */
module GoUrl {
  import opened Wrappers

  type byte = b: int | 0 <= b < 256

  /** The UTF-8 encoding of one Unicode scalar value. */
  function Utf8(c: char): (bs: seq<byte>)
    ensures 1 <= |bs| <= 4
    ensures c as int < 0x80 <==> |bs| == 1
    ensures c as int < 0x80 ==> bs == [c as int]
  {
    var cp := c as int;
    if cp < 0x80 then [cp]
    else if cp < 0x800 then [0xC0 + cp / 0x40, 0x80 + cp % 0x40]
    else if cp < 0x1_0000 then [0xE0 + cp / 0x1000, 0x80 + (cp / 0x40) % 0x40, 0x80 + cp % 0x40]
    else [0xF0 + cp / 0x4_0000, 0x80 + (cp / 0x1000) % 0x40, 0x80 + (cp / 0x40) % 0x40, 0x80 + cp % 0x40]
  }

  /** The bytes of a Go string holding `s`. */
  function Utf8Encode(s: string): seq<byte> {
    if s == [] then [] else Utf8(s[0]) + Utf8Encode(s[1..])
  }

  predicate IsAlnum(b: int) {
    ('a' as int <= b <= 'z' as int) || ('A' as int <= b <= 'Z' as int) || ('0' as int <= b <= '9' as int)
  }

  /** The bytes shouldEscape leaves alone in path-segment mode: unreserved
      characters, and the reserved ones a segment may carry ($ & + : = @);
      '/', ';', ',', '?' and every other byte are escaped. */
  predicate Unescaped(b: byte) {
    || IsAlnum(b)
    || b == '-' as int || b == '_' as int || b == '.' as int || b == '~' as int
    || b == '$' as int || b == '&' as int || b == '+' as int || b == ':' as int
    || b == '=' as int || b == '@' as int
  }

  function HexDigit(n: nat): (c: char)
    requires n < 16
    ensures IsHex(c) && HexValue(c) == n
  {
    if n < 10 then ('0' as int + n) as char else ('A' as int + n - 10) as char
  }

  predicate IsHex(c: char) {
    ('0' <= c <= '9') || ('a' <= c <= 'f') || ('A' <= c <= 'F')
  }

  function HexValue(c: char): (n: nat)
    requires IsHex(c)
    ensures n < 16
  {
    if '0' <= c <= '9' then c as int - '0' as int
    else if 'a' <= c <= 'f' then c as int - 'a' as int + 10
    else c as int - 'A' as int + 10
  }

  /** One byte as it appears in the escaped text: itself, or %XY in upper-case hex. */
  function EscapeByte(b: byte): (e: string)
    ensures |e| == 1 || |e| == 3
  {
    if Unescaped(b) then [b as char] else ['%', HexDigit(b / 16), HexDigit(b % 16)]
  }

  function EscapeBytes(bs: seq<byte>): string {
    if bs == [] then [] else EscapeByte(bs[0]) + EscapeBytes(bs[1..])
  }

  /** url.PathEscape */
  function PathEscape(s: string): string {
    EscapeBytes(Utf8Encode(s))
  }

  /** url.PathUnescape, giving the bytes of the decoded string; None for an
      EscapeError ('%' not followed by two hex digits). */
  function PathUnescape(s: string): Option<seq<byte>> {
    if s == [] then Some([])
    else if s[0] == '%' then
      if |s| >= 3 && IsHex(s[1]) && IsHex(s[2]) then
        match PathUnescape(s[3..])
        case None => None
        case Some(rest) => Some([16 * HexValue(s[1]) + HexValue(s[2])] + rest)
      else None
    else
      match PathUnescape(s[1..])
      case None => None
      case Some(rest) => Some(Utf8(s[0]) + rest)
  }

  /** A character the escaped text may contain. */
  predicate EscapedAlphabet(c: char) {
    (c as int < 0x80 && Unescaped(c as int)) || c == '%' || ('0' <= c <= '9') || ('A' <= c <= 'F')
  }

  // ----- properties -----

  lemma {:induction false} UnescapeEscapeBytes(bs: seq<byte>)
    ensures PathUnescape(EscapeBytes(bs)) == Some(bs)
  {
    if bs != [] {
      var b, rest := bs[0], EscapeBytes(bs[1..]);
      UnescapeEscapeBytes(bs[1..]);
      var e := EscapeByte(b) + rest;
      assert EscapeBytes(bs) == e;
      assert [b] + bs[1..] == bs;
      if Unescaped(b) {
        assert e[0] == b as char && e[1..] == rest;
        assert (b as char) as int == b < 0x80;
        assert e[0] != '%';
        assert Utf8(e[0]) == [b];
        assert PathUnescape(e) == Some(Utf8(e[0]) + bs[1..]);
      } else {
        assert e[0] == '%' && e[1] == HexDigit(b / 16) && e[2] == HexDigit(b % 16) && e[3..] == rest;
        assert 16 * (b / 16) + b % 16 == b;
      }
    }
  }

  /** PathUnescape undoes PathEscape: the original UTF-8 bytes come back. */
  lemma PathEscapeRoundTrip(s: string)
    ensures PathUnescape(PathEscape(s)) == Some(Utf8Encode(s))
  {
    UnescapeEscapeBytes(Utf8Encode(s));
  }

  lemma {:induction false} EscapeBytesAlphabet(bs: seq<byte>)
    ensures forall c :: c in EscapeBytes(bs) ==> EscapedAlphabet(c)
  {
    if bs != [] {
      EscapeBytesAlphabet(bs[1..]);
    }
  }

  /** Escaped text holds only unescaped bytes, '%' and upper-case hex digits:
      no space, '/', '?', ';', ',' or '#' survives. */
  lemma PathEscapeAlphabet(s: string)
    ensures forall c :: c in PathEscape(s) ==> EscapedAlphabet(c)
    ensures ' ' !in PathEscape(s) && '/' !in PathEscape(s) && '?' !in PathEscape(s)
  {
    EscapeBytesAlphabet(Utf8Encode(s));
  }

  lemma {:induction false} EscapeBytesAppend(a: seq<byte>, b: seq<byte>)
    ensures EscapeBytes(a + b) == EscapeBytes(a) + EscapeBytes(b)
  {
    if a == [] {
      assert a + b == b;
    } else {
      assert (a + b)[0] == a[0] && (a + b)[1..] == a[1..] + b;
      EscapeBytesAppend(a[1..], b);
    }
  }

  /** '&' is not escaped in a path segment, so it survives PathEscape. */
  lemma {:induction false} PathEscapeKeepsAmpersand(s: string)
    requires '&' in s
    ensures '&' in PathEscape(s)
  {
    EscapeBytesAppend(Utf8(s[0]), Utf8Encode(s[1..]));
    if s[0] == '&' {
      assert EscapeBytes(Utf8(s[0])) == "&";
    } else {
      assert '&' in s[1..];
      PathEscapeKeepsAmpersand(s[1..]);
    }
  }

  /** Text made only of unescaped ASCII characters is its own escape. */
  lemma {:induction false} PathEscapeIdentity(s: string)
    requires forall i :: 0 <= i < |s| ==> s[i] as int < 0x80 && Unescaped(s[i] as int)
    ensures PathEscape(s) == s
  {
    if s != [] {
      PathEscapeIdentity(s[1..]);
      assert s == [s[0]] + s[1..];
    }
  }
}
