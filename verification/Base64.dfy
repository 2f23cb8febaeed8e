/**
 The length of what a base64 spelling decodes to, told without decoding
 (common/bundle-sources.js:152-174), against the encoding of sections 4 and 3.2
 of RFC 4648.
 */
module Base64 {
  import opened Options

  type Byte = b: int | 0 <= b < 256

  predicate InAlphabet(c: char) {
    'A' <= c <= 'Z' || 'a' <= c <= 'z' || '0' <= c <= '9' || c == '+' || c == '/'
  }

  function Spelling(v: int): (c: char)
    requires 0 <= v < 64
    ensures InAlphabet(c) && IndexOf(c) == v
  {
    if v < 26 then ('A' as int + v) as char
    else if v < 52 then ('a' as int + (v - 26)) as char
    else if v < 62 then ('0' as int + (v - 52)) as char
    else if v == 62 then '+' else '/'
  }

  function IndexOf(c: char): (v: int)
    requires InAlphabet(c)
    ensures 0 <= v < 64
  {
    if 'A' <= c <= 'Z' then c as int - 'A' as int
    else if 'a' <= c <= 'z' then c as int - 'a' as int + 26
    else if '0' <= c <= '9' then c as int - '0' as int + 52
    else if c == '+' then 62 else 63
  }

  lemma SpellingOfIndex(c: char)
    requires InAlphabet(c)
    ensures Spelling(IndexOf(c)) == c
  {
  }

  // ---- the check ----

  predicate AllInAlphabet(data: string) {
    forall k :: 0 <= k < |data| ==> InAlphabet(data[k])
  }

  /** The data without its padding; none when the padding is wrong. */
  function DataOf(text: string): Option<string> {
    var n := |text|;
    if n > 0 && text[n - 1] == '=' then
      if n % 4 != 0 || text[n - 3] == '=' then None
      else Some(text[..if text[n - 2] == '=' then n - 2 else n - 1])
    else if n % 4 == 1 then None
    else Some(text)
  }

  /** Bits of the last character past the bytes it helps spell. */
  predicate StrayBits(data: string)
    requires AllInAlphabet(data)
  {
    var tail := |data| % 4;
    tail > 1 && IndexOf(data[|data| - 1]) % (if tail == 2 then 16 else 4) != 0
  }

  function ByteLength(text: string): Option<nat> {
    var data := DataOf(text);
    if data.None? || !AllInAlphabet(data.value) || StrayBits(data.value) then None
    else Some(|data.value| * 3 / 4)
  }

  // ---- the encoding, in sextets ----

  type Sextet = v: int | 0 <= v < 64

  /** Three bytes as four sextets. */
  function Group(x: Byte, y: Byte, z: Byte): (r: seq<Sextet>)
    ensures |r| == 4
  {
    [x / 4, x % 4 * 16 + y / 16, y % 16 * 4 + z / 64, z % 64]
  }

  /** One or two bytes left over, as two or three sextets, the bits past them zero. */
  function Tail(bytes: seq<Byte>): (r: seq<Sextet>)
    requires |bytes| < 3
    ensures |r| == if |bytes| == 0 then 0 else |bytes| + 1
  {
    if |bytes| == 0 then []
    else if |bytes| == 1 then [bytes[0] / 4, bytes[0] % 4 * 16]
    else [bytes[0] / 4, bytes[0] % 4 * 16 + bytes[1] / 16, bytes[1] % 16 * 4]
  }

  function Sextets(bytes: seq<Byte>): seq<Sextet> {
    if |bytes| < 3 then Tail(bytes) else Group(bytes[0], bytes[1], bytes[2]) + Sextets(bytes[3..])
  }

  predicate NoStray(s: seq<Sextet>) {
    (|s| % 4 == 2 ==> s[|s| - 1] % 16 == 0) && (|s| % 4 == 3 ==> s[|s| - 1] % 4 == 0)
  }

  /** What four sextets, or the two or three left over, stand for. */
  function Ungrouped(s: seq<Sextet>): (bytes: seq<Byte>)
    requires 2 <= |s| <= 4
    ensures |bytes| == |s| - 1
  {
    var first := First(s[0], s[1]);
    if |s| == 2 then [first]
    else
      var second := Second(s[1], s[2]);
      if |s| == 3 then [first, second] else [first, second, Third(s[2], s[3])]
  }

  function First(a: int, b: int): Byte
    requires 0 <= a < 64 && 0 <= b < 64
  {
    a * 4 + b / 16
  }

  function Second(b: int, c: int): Byte
    requires 0 <= b < 64 && 0 <= c < 64
  {
    b % 16 * 16 + c / 4
  }

  function Third(c: int, d: int): Byte
    requires 0 <= c < 64 && 0 <= d < 64
  {
    c % 4 * 64 + d
  }

  function Bytes(s: seq<Sextet>): seq<Byte>
    requires |s| % 4 != 1
  {
    if |s| == 0 then [] else if |s| < 4 then Ungrouped(s) else Ungrouped(s[..4]) + Bytes(s[4..])
  }

  lemma GroupUngrouped(s: seq<Sextet>)
    requires |s| == 4
    ensures var b := Ungrouped(s); Group(b[0], b[1], b[2]) == s
  {
    Regroups(s[0], s[1], s[2], s[3]);
  }

  lemma Regroups(a: int, b: int, c: int, d: int)
    requires 0 <= a < 64 && 0 <= b < 64 && 0 <= c < 64 && 0 <= d < 64
    ensures var x, y, z := First(a, b), Second(b, c), Third(c, d);
            x / 4 == a && x % 4 * 16 + y / 16 == b && y % 16 * 4 + z / 64 == c && z % 64 == d
  {
  }

  lemma TailUngrouped(s: seq<Sextet>)
    requires 2 <= |s| < 4 && NoStray(s)
    ensures Tail(Ungrouped(s)) == s
  {
  }

  lemma GroupOnce(x: Byte, y: Byte, z: Byte)
    ensures Ungrouped(Group(x, y, z)) == [x, y, z]
  {
  }

  lemma TailOnce(bytes: seq<Byte>)
    requires 0 < |bytes| < 3
    ensures Ungrouped(Tail(bytes)) == bytes && NoStray(Tail(bytes))
  {
  }

  lemma GroupOn(group: seq<Sextet>, rest: seq<Sextet>)
    requires |group| == 4 && |rest| % 4 != 1 && NoStray(rest)
    ensures var all := group + rest; |all| % 4 != 1 && NoStray(all) && Bytes(all) == Ungrouped(group) + Bytes(rest)
  {
    var all := group + rest;
    assert all[..4] == group && all[4..] == rest;
    assert rest != [] ==> all[|all| - 1] == rest[|rest| - 1];
  }

  /** Bytes come back from their sextets, which are as many as the length says. */
  lemma {:induction false} SextetsRoundTrip(bytes: seq<Byte>)
    ensures var s := Sextets(bytes); |s| % 4 != 1 && NoStray(s) && |s| * 3 / 4 == |bytes| && Bytes(s) == bytes
  {
    if |bytes| >= 3 {
      var group, rest := Group(bytes[0], bytes[1], bytes[2]), Sextets(bytes[3..]);
      GroupOnce(bytes[0], bytes[1], bytes[2]);
      SextetsRoundTrip(bytes[3..]);
      GroupOn(group, rest);
      assert bytes == [bytes[0], bytes[1], bytes[2]] + bytes[3..];
    } else if |bytes| > 0 {
      TailOnce(bytes);
    }
  }

  /** And sextets with no stray bits from their bytes. */
  lemma {:induction false} BytesRoundTrip(s: seq<Sextet>)
    requires |s| % 4 != 1 && NoStray(s)
    ensures Sextets(Bytes(s)) == s
  {
    if |s| == 0 {
    } else if |s| < 4 {
      TailUngrouped(s);
    } else {
      var rest := s[4..];
      assert |rest| > 0 ==> rest[|rest| - 1] == s[|s| - 1];
      BytesRoundTrip(rest);
      GroupUngrouped(s[..4]);
      assert Bytes(s)[3..] == Bytes(rest) && Bytes(s)[..3] == Ungrouped(s[..4]);
      assert s == s[..4] + rest;
    }
  }

  // ---- the encoding, in characters ----

  function Chars(s: seq<Sextet>): (data: string)
    ensures |data| == |s| && AllInAlphabet(data) && forall k :: 0 <= k < |s| ==> IndexOf(data[k]) == s[k]
  {
    if s == [] then ""
    else
      var init := Chars(s[..|s| - 1]);
      init + [Spelling(s[|s| - 1])]
  }

  function Indexes(data: string): (s: seq<Sextet>)
    requires AllInAlphabet(data)
    ensures |s| == |data| && forall k :: 0 <= k < |s| ==> s[k] == IndexOf(data[k])
  {
    if data == "" then []
    else
      assert AllInAlphabet(data[..|data| - 1]);
      Indexes(data[..|data| - 1]) + [IndexOf(data[|data| - 1])]
  }

  lemma CharsOfIndexes(data: string)
    requires AllInAlphabet(data)
    ensures Chars(Indexes(data)) == data
  {
    var c := Chars(Indexes(data));
    forall k | 0 <= k < |data| ensures c[k] == data[k] {
      SpellingOfIndex(c[k]);
      SpellingOfIndex(data[k]);
    }
  }

  function Encoded(bytes: seq<Byte>): string {
    Chars(Sextets(bytes))
  }

  function Padding(length: nat): string {
    if length % 4 == 2 then "==" else if length % 4 == 3 then "=" else ""
  }

  /** Padded to a whole number of fours, or with the padding left off. */
  function Spelled(bytes: seq<Byte>, padded: bool): string {
    Encoded(bytes) + if padded then Padding(|Encoded(bytes)|) else ""
  }

  lemma StrayIs(data: string)
    requires AllInAlphabet(data)
    ensures StrayBits(data) <==> !NoStray(Indexes(data))
  {
  }

  lemma EncodedIs(bytes: seq<Byte>)
    ensures AllInAlphabet(Encoded(bytes)) && !StrayBits(Encoded(bytes))
    ensures |Encoded(bytes)| % 4 != 1 && |Encoded(bytes)| * 3 / 4 == |bytes|
  {
    SextetsRoundTrip(bytes);
    StrayIs(Encoded(bytes));
    assert Indexes(Encoded(bytes)) == Sextets(bytes);
  }

  lemma DataOfSpelled(data: string, padded: bool)
    requires AllInAlphabet(data) && |data| % 4 != 1
    ensures DataOf(data + if padded then Padding(|data|) else "") == Some(data)
  {
    var text := data + if padded then Padding(|data|) else "";
    assert forall k :: 0 <= k < |data| ==> text[k] == data[k] && InAlphabet(data[k]);
    if |text| > |data| { assert text[..|data|] == data; } else { assert text == data; }
  }

  /** Every spelling of bytes, padded or not, is given their length. */
  lemma SpelledHasLength(bytes: seq<Byte>, padded: bool)
    ensures ByteLength(Spelled(bytes, padded)) == Some(|bytes|)
  {
    EncodedIs(bytes);
    DataOfSpelled(Encoded(bytes), padded);
  }

  lemma PaddingOf(text: string)
    requires DataOf(text).Some? && text != DataOf(text).value
    ensures var data := DataOf(text).value; text == data + Padding(|data|)
  {
    var data, n := DataOf(text).value, |text|;
    assert text == data + text[|data|..];
    assert text[|data|..] == Padding(|data|);
  }

  /** A text given a length is the spelling of bytes that many. */
  lemma LengthHasBytes(text: string) returns (bytes: seq<Byte>, padded: bool)
    requires ByteLength(text).Some?
    ensures text == Spelled(bytes, padded) && |bytes| == ByteLength(text).value
  {
    var data := DataOf(text).value;
    padded := text != data;
    StrayIs(data);
    bytes := Bytes(Indexes(data));
    BytesRoundTrip(Indexes(data));
    CharsOfIndexes(data);
    EncodedIs(bytes);
    if padded { PaddingOf(text); }
  }

  /**
   A length is given exactly to the canonical spellings, padded or with the padding left off, of byte strings
   of that length.
   */
  lemma LengthIff(text: string, n: nat)
    ensures ByteLength(text) == Some(n) <==> exists bytes, padded :: text == Spelled(bytes, padded) && |bytes| == n
  {
    if ByteLength(text) == Some(n) {
      var bytes, padded := LengthHasBytes(text);
    } else if bytes, padded :| text == Spelled(bytes, padded) && |bytes| == n {
      SpelledHasLength(bytes, padded);
    }
  }
}
