/**
 * `encodeURIComponent`, used to put a prescription code into the query
 * string of the QR image URL, restricted to ASCII text (the only text the
 * component ever encodes), and the percent-decoding that undoes it.
 */
module Uri {

  predicate IsAscii(s: string) {
    forall i :: 0 <= i < |s| ==> s[i] < 128 as char
  }

  /** The characters `encodeURIComponent` leaves as they are. */
  predicate Unreserved(c: char) {
    || 'A' <= c <= 'Z' || 'a' <= c <= 'z' || '0' <= c <= '9'
    || c == '-' || c == '_' || c == '.' || c == '!' || c == '~'
    || c == '*' || c == '\'' || c == '(' || c == ')'
  }

  function HexDigit(d: nat): (c: char)
    requires d < 16
    ensures Unreserved(c)
  {
    if d < 10 then ('0' as int + d) as char else ('A' as int + d - 10) as char
  }

  predicate IsHexDigit(c: char) {
    '0' <= c <= '9' || 'A' <= c <= 'F' || 'a' <= c <= 'f'
  }

  function HexValue(c: char): (d: nat)
    requires IsHexDigit(c)
    ensures d < 16
  {
    if '0' <= c <= '9' then c as int - '0' as int
    else if 'A' <= c <= 'F' then c as int - 'A' as int + 10
    else c as int - 'a' as int + 10
  }

  /** One character: itself when unreserved, otherwise `%` and two upper-case hex digits. */
  function EncodeChar(c: char): (r: string)
    requires c < 128 as char
    ensures forall i :: 0 <= i < |r| ==> Unreserved(r[i]) || r[i] == '%'
  {
    if Unreserved(c) then [c] else ['%', HexDigit(c as int / 16), HexDigit(c as int % 16)]
  }

  /**
   * `encodeURIComponent(s)` for ASCII s. The result never contains a
   * character that has a meaning inside a URL query (`&`, `=`, `?`, `#`, ...),
   * and text made only of unreserved characters passes through unchanged.
   */
  function EncodeURIComponent(s: string): (r: string)
    requires IsAscii(s)
    ensures forall i :: 0 <= i < |r| ==> Unreserved(r[i]) || r[i] == '%'
    ensures (forall i :: 0 <= i < |s| ==> Unreserved(s[i])) ==> r == s
    decreases |s|
  {
    if s == [] then [] else EncodeChar(s[0]) + EncodeURIComponent(s[1..])
  }

  /** Percent-decoding: `%` with two hex digits becomes that character; anything else is kept. */
  function DecodeURIComponent(s: string): string
    decreases |s|
  {
    if s == [] then []
    else if |s| >= 3 && s[0] == '%' && IsHexDigit(s[1]) && IsHexDigit(s[2]) then
      [(16 * HexValue(s[1]) + HexValue(s[2])) as char] + DecodeURIComponent(s[3..])
    else [s[0]] + DecodeURIComponent(s[1..])
  }

  /** A hex digit reads back as its value. */
  lemma HexRoundTrip(d: nat)
    requires d < 16
    ensures IsHexDigit(HexDigit(d)) && HexValue(HexDigit(d)) == d
  {
  }

  /** Decoding an encoded character, whatever follows it, gives the character back first. */
  lemma DecodeEncodedChar(c: char, rest: string)
    requires c < 128 as char
    ensures DecodeURIComponent(EncodeChar(c) + rest) == [c] + DecodeURIComponent(rest)
  {
    var e := EncodeChar(c) + rest;
    if Unreserved(c) {
      assert e[1..] == rest;
    } else {
      HexRoundTrip(c as int / 16);
      HexRoundTrip(c as int % 16);
      assert e[3..] == rest;
    }
  }

  /** Decoding what was encoded gives the original text back. */
  lemma {:induction false} EncodeDecodeRoundTrip(s: string)
    requires IsAscii(s)
    ensures DecodeURIComponent(EncodeURIComponent(s)) == s
    decreases |s|
  {
    if s != [] {
      DecodeEncodedChar(s[0], EncodeURIComponent(s[1..]));
      EncodeDecodeRoundTrip(s[1..]);
      assert s == [s[0]] + s[1..];
    }
  }
}
