/**
 * JavaScript's `encodeURIComponent` (section 19.2.6.5 of ECMA-262) and its
 * inverse `decodeURIComponent`, over strings of Unicode scalar values.
 * Every character outside the unreserved set is written as the `%HH` escapes
 * of its UTF-8 octets (section 3 of RFC 3629), with upper-case hex digits.
 */
module UriComponent {
  import opened Outcomes

  /** The characters `encodeURIComponent` leaves as they are. */
  predicate Unreserved(c: char) {
    || ('A' <= c <= 'Z') || ('a' <= c <= 'z') || ('0' <= c <= '9')
    || c == '-' || c == '_' || c == '.' || c == '!' || c == '~'
    || c == '*' || c == '\'' || c == '(' || c == ')'
  }

  /** The UTF-8 octets of a scalar value: one to four of them, by magnitude. */
  function Utf8(c: char): (bs: seq<Byte>)
    ensures 1 <= |bs| <= 4
    ensures |bs| == 1 <==> c as int < 0x80
  {
    var n := c as int;
    if n < 0x80 then [n]
    else if n < 0x800 then [0xC0 + n / 64, 0x80 + n % 64]
    else if n < 0x10000 then [0xE0 + n / 64 / 64, 0x80 + n / 64 % 64, 0x80 + n % 64]
    else [0xF0 + n / 64 / 64 / 64, 0x80 + n / 64 / 64 % 64, 0x80 + n / 64 % 64, 0x80 + n % 64]
  }

  /** The upper-case hexadecimal digit for `d`. */
  function HexDigit(d: int): char
    requires 0 <= d < 16
  {
    if d < 10 then ('0' as int + d) as char else ('A' as int + d - 10) as char
  }

  /** The value of a hexadecimal digit of either case. */
  function HexValue(c: char): (v: Option<int>)
    ensures v.Some? ==> 0 <= v.value < 16
    ensures v.Some? <==> ('0' <= c <= '9') || ('A' <= c <= 'F') || ('a' <= c <= 'f')
  {
    if '0' <= c <= '9' then Some(c as int - '0' as int)
    else if 'A' <= c <= 'F' then Some(c as int - 'A' as int + 10)
    else if 'a' <= c <= 'f' then Some(c as int - 'a' as int + 10)
    else None
  }

  /** `%HH` for one octet. */
  function Escape(b: Byte): (e: string)
    ensures |e| == 3 && e[0] == '%' && Unreserved(e[1]) && Unreserved(e[2])
  {
    ['%', HexDigit(b / 16), HexDigit(b % 16)]
  }

  function EscapeAll(bs: seq<Byte>): (e: string)
    ensures |e| == 3 * |bs|
    ensures forall i :: 0 <= i < |e| ==> Unreserved(e[i]) || e[i] == '%'
  {
    if bs == [] then [] else Escape(bs[0]) + EscapeAll(bs[1..])
  }

  function EncodeChar(c: char): string {
    if Unreserved(c) then [c] else EscapeAll(Utf8(c))
  }

  /**
   * `encodeURIComponent(s)`. The result is made only of unreserved characters
   * and `%`, so it never holds the `&` and `=` that delimit a query string,
   * and a string of unreserved characters is its own encoding.
   */
  function Encode(s: string): (e: string)
    ensures forall i :: 0 <= i < |e| ==> Unreserved(e[i]) || e[i] == '%'
    ensures (forall i :: 0 <= i < |s| ==> Unreserved(s[i])) ==> e == s
    ensures |s| <= |e|
  {
    if s == [] then [] else EncodeChar(s[0]) + Encode(s[1..])
  }

  /** The octet written as `%HH` at the start of `s`, if there is one. */
  function ReadOctet(s: string): (b: Option<Byte>)
    ensures b.Some? ==> |s| >= 3 && s[0] == '%'
  {
    if |s| >= 3 && s[0] == '%' && HexValue(s[1]).Some? && HexValue(s[2]).Some?
    then Some(HexValue(s[1]).value * 16 + HexValue(s[2]).value)
    else None
  }

  /** Reads `k` continuation octets (`10xxxxxx`), shifting their low six bits into `acc`. */
  function ReadTrail(s: string, k: nat, acc: int): (cp: Option<int>)
    ensures cp.Some? ==> |s| >= 3 * k
    decreases k
  {
    if k == 0 then Some(acc)
    else match ReadOctet(s)
      case None => None
      case Some(b) =>
        if 0x80 <= b < 0xC0 then ReadTrail(s[3..], k - 1, acc * 64 + (b - 0x80)) else None
  }

  /** Accepts a decoded code point of an `len`-octet sequence unless it is overlong, a surrogate or too large. */
  function Finish(cp: Option<int>, least: nat, len: nat): (r: Option<(char, nat)>)
    ensures r.Some? ==> r.value.1 == 3 * len
  {
    if cp.Some? && least <= cp.value < 0x110000 && !(0xD800 <= cp.value < 0xE000)
    then Some((cp.value as char, 3 * len))
    else None
  }

  /**
   * Decodes a UTF-8 sequence whose lead octet is `b` and whose continuation
   * octets are escaped at the start of `tail`: the character, and how many
   * characters the whole escaped sequence spans.
   */
  function DecodeLead(b: Byte, tail: string): (r: Option<(char, nat)>)
    ensures r.Some? ==> 3 <= r.value.1 <= |tail| + 3
  {
    if b < 0x80 then Some((b as char, 3))
    else if 0xC0 <= b < 0xE0 then Finish(ReadTrail(tail, 1, b - 0xC0), 0x80, 2)
    else if 0xE0 <= b < 0xF0 then Finish(ReadTrail(tail, 2, b - 0xE0), 0x800, 3)
    else if 0xF0 <= b < 0xF8 then Finish(ReadTrail(tail, 3, b - 0xF0), 0x10000, 4)
    else None
  }

  /** Decodes the escaped UTF-8 sequence at the start of `s`: the character and how many characters it spans. */
  function DecodeSequence(s: string): (r: Option<(char, nat)>)
    ensures r.Some? ==> 3 <= r.value.1 <= |s|
  {
    match ReadOctet(s)
    case None => None
    case Some(b) => DecodeLead(b, s[3..])
  }

  function Prepend(c: char, rest: Option<string>): Option<string> {
    match rest
    case None => None
    case Some(t) => Some([c] + t)
  }

  /** `decodeURIComponent(s)`, or `None` where it would throw a `URIError`. */
  function Decode(s: string): Option<string>
    decreases |s|
  {
    if s == [] then Some([])
    else if s[0] != '%' then Prepend(s[0], Decode(s[1..]))
    else match DecodeSequence(s)
      case None => None
      case Some((c, n)) => Prepend(c, Decode(s[n..]))
  }

  // ---------------------------------------------------------------------------
  // Round trip

  lemma ReadEscape(b: Byte, rest: string)
    ensures ReadOctet(Escape(b) + rest) == Some(b)
  {
  }

  /** The low six bits of each continuation octet, shifted in after `acc`. */
  function Shift(acc: int, bs: seq<Byte>): int
    decreases |bs|
  {
    if bs == [] then acc else Shift(acc * 64 + (bs[0] as int - 0x80), bs[1..])
  }

  lemma {:induction false} ReadEscapedTrail(bs: seq<Byte>, rest: string, acc: int)
    requires forall i :: 0 <= i < |bs| ==> 0x80 <= bs[i] < 0xC0
    ensures ReadTrail(EscapeAll(bs) + rest, |bs|, acc) == Some(Shift(acc, bs))
  {
    if bs != [] {
      var s := EscapeAll(bs) + rest;
      assert s == Escape(bs[0]) + (EscapeAll(bs[1..]) + rest);
      ReadEscape(bs[0], EscapeAll(bs[1..]) + rest);
      assert s[3..] == EscapeAll(bs[1..]) + rest;
      ReadEscapedTrail(bs[1..], rest, acc * 64 + (bs[0] as int - 0x80));
    }
  }

  /** The escaped UTF-8 octets of `c` decode back to `c`, spanning exactly the escapes. */
  lemma DecodeEscapedChar(c: char, rest: string)
    ensures DecodeSequence(EscapeAll(Utf8(c)) + rest) == Some((c, 3 * |Utf8(c)|))
  {
    var bs := Utf8(c);
    var s := EscapeAll(bs) + rest;
    assert s == Escape(bs[0]) + (EscapeAll(bs[1..]) + rest);
    ReadEscape(bs[0], EscapeAll(bs[1..]) + rest);
    assert s[3..] == EscapeAll(bs[1..]) + rest;
    var n := c as int;
    if n < 0x80 {
    } else if n < 0x800 {
      DecodeTwo(c, rest);
    } else if n < 0x10000 {
      DecodeThree(c, rest);
    } else {
      DecodeFour(c, rest);
    }
  }

  lemma DecodeTwo(c: char, rest: string)
    requires 0x80 <= c as int < 0x800
    ensures DecodeLead(Utf8(c)[0], EscapeAll(Utf8(c)[1..]) + rest) == Some((c, 6))
  {
  }

  lemma ShiftTwo(acc: int, x: Byte, y: Byte)
    requires x < 64 && y < 64
    ensures Shift(acc, [0x80 + x, 0x80 + y]) == (acc * 64 + x) * 64 + y
  {
    assert [0x80 + x, 0x80 + y][1..] == [0x80 + y];
    assert [0x80 + y][1..] == [];
    assert Shift((acc * 64 + x) * 64 + y, []) == (acc * 64 + x) * 64 + y;
    assert Shift(acc * 64 + x, [0x80 + y]) == Shift((acc * 64 + x) * 64 + y, []);
  }

  lemma ShiftThree(acc: int, x: Byte, y: Byte, z: Byte)
    requires x < 64 && y < 64 && z < 64
    ensures Shift(acc, [0x80 + x, 0x80 + y, 0x80 + z]) == ((acc * 64 + x) * 64 + y) * 64 + z
  {
    assert [0x80 + x, 0x80 + y, 0x80 + z][1..] == [0x80 + y, 0x80 + z];
    ShiftTwo(acc * 64 + x, y, z);
  }

  /** The three octets of a character from U+0800 to U+FFFF: a lead `1110xxxx` and two continuations that spell it. */
  lemma ThreeOctets(c: char)
    requires 0x800 <= c as int < 0x10000
    ensures var bs := Utf8(c);
            && |bs| == 3 && 0xE0 <= bs[0] < 0xF0
            && (forall i :: 1 <= i < 3 ==> 0x80 <= bs[i] < 0xC0)
            && Shift(bs[0] - 0xE0, bs[1..]) == c as int
  {
    var n := c as int;
    var q1, r0 := n / 64, n % 64;
    var q2, r1 := q1 / 64, q1 % 64;
    assert Utf8(c) == [0xE0 + q2, 0x80 + r1, 0x80 + r0];
    assert Utf8(c)[1..] == [0x80 + r1, 0x80 + r0];
    ShiftTwo(q2, r1, r0);
  }

  /** The four octets of a character from U+10000 on: a lead `11110xxx` and three continuations that spell it. */
  lemma FourOctets(c: char)
    requires 0x10000 <= c as int
    ensures var bs := Utf8(c);
            && |bs| == 4 && 0xF0 <= bs[0] < 0xF8
            && (forall i :: 1 <= i < 4 ==> 0x80 <= bs[i] < 0xC0)
            && Shift(bs[0] - 0xF0, bs[1..]) == c as int
  {
    var n := c as int;
    var q1, r0 := n / 64, n % 64;
    var q2, r1 := q1 / 64, q1 % 64;
    var q3, r2 := q2 / 64, q2 % 64;
    assert Utf8(c) == [0xF0 + q3, 0x80 + r2, 0x80 + r1, 0x80 + r0];
    assert Utf8(c)[1..] == [0x80 + r2, 0x80 + r1, 0x80 + r0];
    ShiftThree(q3, r2, r1, r0);
  }

  lemma DecodeThree(c: char, rest: string)
    requires 0x800 <= c as int < 0x10000
    ensures DecodeLead(Utf8(c)[0], EscapeAll(Utf8(c)[1..]) + rest) == Some((c, 9))
  {
    var bs := Utf8(c);
    ThreeOctets(c);
    ReadEscapedTrail(bs[1..], rest, bs[0] - 0xE0);
  }

  lemma DecodeFour(c: char, rest: string)
    requires 0x10000 <= c as int
    ensures DecodeLead(Utf8(c)[0], EscapeAll(Utf8(c)[1..]) + rest) == Some((c, 12))
  {
    var bs := Utf8(c);
    FourOctets(c);
    ReadEscapedTrail(bs[1..], rest, bs[0] - 0xF0);
  }

  lemma DecodeEncodedChar(c: char, rest: string)
    ensures Decode(EncodeChar(c) + rest) == Prepend(c, Decode(rest))
  {
    var s := EncodeChar(c) + rest;
    if Unreserved(c) {
      assert s[0] == c && s[1..] == rest;
    } else {
      DecodeEscapedChar(c, rest);
      assert s[3 * |Utf8(c)|..] == rest;
    }
  }

  /** `decodeURIComponent(encodeURIComponent(s)) == s` for every string. */
  lemma {:induction false} DecodeEncode(s: string)
    ensures Decode(Encode(s)) == Some(s)
  {
    if s != [] {
      DecodeEncodedChar(s[0], Encode(s[1..]));
      DecodeEncode(s[1..]);
      assert [s[0]] + s[1..] == s;
    }
  }
}
