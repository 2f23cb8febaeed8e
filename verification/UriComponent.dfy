/**
 encodeURIComponent and decodeURIComponent (section 19.2.6 of ECMA-262), as
 links to a finding use them (client/finding-link.js:179, 251): the octets of
 UTF-8 (RFC 3629), percent-encoded but for what is left as it is. A text is one
 without lone surrogates, whose encoding throws.
 */
module UriComponent {
  import opened Options
  import opened Splitting

  predicate IsDigit(c: char) {
    '0' <= c <= '9'
  }

  /** What encodeURIComponent leaves as it is. */
  predicate Unescaped(c: char) {
    'a' <= c <= 'z' || 'A' <= c <= 'Z' || IsDigit(c) || c in "-_.!~*'()"
  }

  /** The length the program sees: two code units past U+FFFF. */
  function Units(s: string): nat {
    if s == "" then 0 else (if s[0] as int >= 0x10000 then 2 else 1) + Units(s[1..])
  }

  type Octet = b: int | 0 <= b < 256

  function HexDigit(v: int): (c: char)
    requires 0 <= v < 16
    ensures HexValue(c) == Some(v) && c != '&' && c != '%' && c as int < 128
  {
    if v < 10 then ('0' as int + v) as char else ('A' as int + (v - 10)) as char
  }

  function HexValue(c: char): (v: Option<int>)
    ensures v.Some? ==> 0 <= v.value < 16
  {
    if IsDigit(c) then Some(c as int - '0' as int)
    else if 'A' <= c <= 'F' then Some(c as int - 'A' as int + 10)
    else if 'a' <= c <= 'f' then Some(c as int - 'a' as int + 10)
    else None
  }

  // ---- UTF-8 ----

  function Octets(c: char): (r: seq<Octet>)
    ensures 1 <= |r| <= 4
  {
    var v := c as int;
    if v < 0x80 then [v]
    else if v < 0x800 then [0xC0 + v / 64, 0x80 + v % 64]
    else if v < 0x10000 then [0xE0 + v / 4096, 0x80 + v / 64 % 64, 0x80 + v % 64]
    else [0xF0 + v / 262144, 0x80 + v / 4096 % 64, 0x80 + v / 64 % 64, 0x80 + v % 64]
  }

  function Escape(b: Octet): string {
    ['%', HexDigit(b / 16), HexDigit(b % 16)]
  }

  function Escapes(octets: seq<Octet>): string {
    if octets == [] then "" else Escape(octets[0]) + Escapes(octets[1..])
  }

  function EscapedChar(c: char): string {
    if Unescaped(c) then [c] else Escapes(Octets(c))
  }

  /** encodeURIComponent. */
  function Escaped(s: string): string {
    if s == "" then "" else EscapedChar(s[0]) + Escaped(s[1..])
  }

  /** The octet a text's first escape stands for. */
  function FirstOctet(s: string): Option<Octet> {
    if |s| < 3 || s[0] != '%' || HexValue(s[1]).None? || HexValue(s[2]).None? then None
    else Some(HexValue(s[1]).value * 16 + HexValue(s[2]).value)
  }

  /** The six bits of a continuation octet. */
  function Continued(s: string): (v: Option<int>)
    ensures v.Some? ==> |s| >= 3 && 0 <= v.value < 64
  {
    if FirstOctet(s).Some? && 0x80 <= FirstOctet(s).value < 0xC0 then Some(FirstOctet(s).value - 0x80) else None
  }

  /** A character out of its shortest form alone, and no surrogate. */
  function Scalar(v: int, least: int): Option<char> {
    if v < least || 0xD800 <= v < 0xE000 || v >= 0x110000 || v < 0 then None else Some(v as char)
  }

  datatype Head = Head(c: char, length: nat) | Malformed

  function HeadOf(c: Option<char>, length: nat): Head {
    if c.None? then Malformed else Head(c.value, length)
  }

  /** The first character of a text, unescaped, and how much of the text it takes. */
  function Unescape1(s: string): (h: Head)
    requires s != ""
    ensures h.Head? ==> 1 <= h.length <= |s|
  {
    if s[0] != '%' then Head(s[0], 1)
    else if FirstOctet(s).None? then Malformed
    else
      var b := FirstOctet(s).value;
      if b < 0x80 then HeadOf(Scalar(b, 0), 3)
      else if b < 0xC0 || Continued(s[3..]).None? then Malformed
      else
        var x := Continued(s[3..]).value;
        if b < 0xE0 then HeadOf(Scalar((b - 0xC0) * 64 + x, 0x80), 6)
        else if Continued(s[6..]).None? then Malformed
        else
          var y := Continued(s[6..]).value;
          if b < 0xF0 then HeadOf(Scalar((b - 0xE0) * 4096 + x * 64 + y, 0x800), 9)
          else if b >= 0xF8 || Continued(s[9..]).None? then Malformed
          else HeadOf(Scalar((b - 0xF0) * 262144 + x * 4096 + y * 64 + Continued(s[9..]).value, 0x10000), 12)
  }

  /** decodeURIComponent; None when it throws. */
  function Unescape(s: string): Option<string> {
    if s == "" then Some("")
    else
      var h := Unescape1(s);
      if h.Malformed? then None
      else
        var rest := Unescape(s[h.length..]);
        if rest.None? then None else Some([h.c] + rest.value)
  }

  // ---- round trips ----

  lemma OctetRoundTrip(b: Octet, rest: string)
    ensures FirstOctet(Escape(b) + rest) == Some(b) && (Escape(b) + rest)[3..] == rest
  {
  }

  /** The value of a character's octets, and that no shorter form has it. */
  lemma TwoOctets(v: int)
    requires 0x80 <= v < 0x800
    ensures 0xC0 <= 0xC0 + v / 64 < 0xE0 && v / 64 * 64 + v % 64 == v
  {
  }

  lemma ThreeOctets(v: int)
    requires 0x800 <= v < 0x10000
    ensures 0xE0 <= 0xE0 + v / 4096 < 0xF0 && v / 4096 * 4096 + v / 64 % 64 * 64 + v % 64 == v
  {
    assert v / 4096 == v / 64 / 64;
  }

  lemma FourOctets(v: int)
    requires 0x10000 <= v < 0x110000
    ensures 0xF0 <= 0xF0 + v / 262144 < 0xF8
    ensures v / 262144 * 262144 + v / 4096 % 64 * 4096 + v / 64 % 64 * 64 + v % 64 == v
  {
    assert v / 4096 == v / 64 / 64 && v / 262144 == v / 64 / 64 / 64;
  }

  lemma Joined3(a: string, b: string, c: string)
    ensures a + b + c == a + (b + c) && (a + (b + c))[|a|..] == b + c
  {
  }

  /** Escapes of a first octet, then more. */
  lemma Peeled(octets: seq<Octet>, rest: string)
    requires octets != []
    ensures var s := Escapes(octets) + rest;
            FirstOctet(s) == Some(octets[0]) && s[0] == '%' && |s| >= 3 && s[3..] == Escapes(octets[1..]) + rest
  {
    Joined3(Escape(octets[0]), Escapes(octets[1..]), rest);
    OctetRoundTrip(octets[0], Escapes(octets[1..]) + rest);
  }

  lemma OneBack(c: char, rest: string)
    requires c as int < 0x80
    ensures Unescape1(Escapes(Octets(c)) + rest) == Head(c, 3)
  {
    Peeled(Octets(c), rest);
  }

  lemma TwoBack(c: char, rest: string)
    requires 0x80 <= c as int < 0x800
    ensures Unescape1(Escapes(Octets(c)) + rest) == Head(c, 6)
  {
    var o := Octets(c);
    Peeled(o, rest);
    Peeled(o[1..], rest);
    TwoOctets(c as int);
  }

  lemma ThreeBack(c: char, rest: string)
    requires 0x800 <= c as int < 0x10000
    ensures Unescape1(Escapes(Octets(c)) + rest) == Head(c, 9)
  {
    var o, s := Octets(c), Escapes(Octets(c)) + rest;
    Peeled(o, rest);
    Peeled(o[1..], rest);
    Peeled(o[1..][1..], rest);
    assert s[6..] == s[3..][3..];
    ThreeValue(s, c as int);
  }

  lemma ThreeValue(s: string, v: int)
    requires 0x800 <= v < 0x10000 && !(0xD800 <= v < 0xE000) && |s| >= 9 && s[0] == '%'
    requires FirstOctet(s) == Some(0xE0 + v / 4096)
    requires FirstOctet(s[3..]) == Some(0x80 + v / 64 % 64) && FirstOctet(s[6..]) == Some(0x80 + v % 64)
    ensures Unescape1(s) == Head(v as char, 9)
  {
    ThreeOctets(v);
  }

  lemma FourBack(c: char, rest: string)
    requires 0x10000 <= c as int
    ensures Unescape1(Escapes(Octets(c)) + rest) == Head(c, 12)
  {
    var o, s := Octets(c), Escapes(Octets(c)) + rest;
    Peeled(o, rest);
    Peeled(o[1..], rest);
    Peeled(o[1..][1..], rest);
    Peeled(o[1..][1..][1..], rest);
    assert s[6..] == s[3..][3..] && s[9..] == s[6..][3..];
    FourValue(s, c as int);
  }

  lemma FourValue(s: string, v: int)
    requires 0x10000 <= v < 0x110000 && |s| >= 12 && s[0] == '%'
    requires FirstOctet(s) == Some(0xF0 + v / 262144) && FirstOctet(s[3..]) == Some(0x80 + v / 4096 % 64)
    requires FirstOctet(s[6..]) == Some(0x80 + v / 64 % 64) && FirstOctet(s[9..]) == Some(0x80 + v % 64)
    ensures Unescape1(s) == Head(v as char, 12)
  {
    FourOctets(v);
  }

  lemma CharRoundTrip(c: char, rest: string)
    ensures EscapedChar(c) != "" && Unescape1(EscapedChar(c) + rest) == Head(c, |EscapedChar(c)|)
  {
    if !Unescaped(c) {
      EscapesLength(Octets(c));
      if c as int < 0x80 { OneBack(c, rest); }
      else if c as int < 0x800 { TwoBack(c, rest); }
      else if c as int < 0x10000 { ThreeBack(c, rest); }
      else { FourBack(c, rest); }
    }
  }

  lemma {:induction false} EscapesLength(octets: seq<Octet>)
    ensures |Escapes(octets)| == 3 * |octets| && '&' !in Escapes(octets) && Plain(Escapes(octets))
  {
    if octets != [] { EscapesLength(octets[1..]); }
  }

  predicate Plain(s: string) {
    forall k :: 0 <= k < |s| ==> s[k] as int < 128
  }

  lemma {:induction false} EscapedPlain(s: string)
    ensures Without(Escaped(s), '&') && Plain(Escaped(s))
  {
    if s != "" {
      EscapedPlain(s[1..]);
      EscapesLength(Octets(s[0]));
    }
  }

  /** Any text comes back from its escapes, which hold no separator and are ASCII. */
  lemma {:induction false} EscapesRoundTrip(s: string)
    ensures Unescape(Escaped(s)) == Some(s) && (s == "") == (Escaped(s) == "")
    ensures Without(Escaped(s), '&') && Plain(Escaped(s))
  {
    EscapedPlain(s);
    if s != "" {
      EscapesRoundTrip(s[1..]);
      CharRoundTrip(s[0], Escaped(s[1..]));
      Joined3(EscapedChar(s[0]), Escaped(s[1..]), "");
      UnescapeOf(Escaped(s), s[0], |EscapedChar(s[0])|, s[1..]);
      assert s == [s[0]] + s[1..];
    }
  }

  lemma UnescapeOf(s: string, c: char, n: nat, rest: string)
    requires s != "" && Unescape1(s) == Head(c, n) && Unescape(s[n..]) == Some(rest)
    ensures Unescape(s) == Some([c] + rest)
  {
  }

  lemma {:induction false} PlainUnits(s: string)
    requires Plain(s)
    ensures Units(s) == |s|
  {
    if s != "" {
      assert Plain(s[1..]) by { assert forall k :: 0 <= k < |s[1..]| ==> s[1..][k] == s[k + 1]; }
      PlainUnits(s[1..]);
    }
  }

  /** An ASCII text's escapes are at most three times as long. */
  lemma {:induction false} PlainEscapes(s: string)
    requires Plain(s)
    ensures |s| <= |Escaped(s)| <= 3 * |s|
  {
    if s != "" {
      assert Plain(s[1..]) by { assert forall k :: 0 <= k < |s[1..]| ==> s[1..][k] == s[k + 1]; }
      PlainEscapes(s[1..]);
      EscapesLength(Octets(s[0]));
    }
  }

  function Repeated(c: char, n: nat): (s: string)
    ensures |s| == n && forall k :: 0 <= k < n ==> s[k] == c
  {
    if n == 0 then "" else [c] + Repeated(c, n - 1)
  }

  /** One unit past U+07FF takes three octets, nine characters of its escapes. */
  lemma {:induction false} WideEscapes(c: char, n: nat)
    requires 0x800 <= c as int < 0x10000
    ensures |Escaped(Repeated(c, n))| == 9 * n && Units(Repeated(c, n)) == n
  {
    if n > 0 {
      var s := Repeated(c, n);
      assert s[1..] == Repeated(c, n - 1) && s[0] == c;
      EscapesLength(Octets(c));
      WideEscapes(c, n - 1);
    }
  }
}
