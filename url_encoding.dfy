/** The query-string encoding the login redirect relies on: `new URLSearchParams([[name, value]])`
    serialised into a URL, and `searchParams.get(name)` reading it back on the login page.
    This is the application/x-www-form-urlencoded format of the WHATWG URL Standard
    (section 5.1 parsing, section 5.2 serializing) over the UTF-8 encoding of RFC 3629. */
module UrlEncoding {
  import opened Wrappers
  import opened Text

  type Byte = b: int | 0 <= b < 256

  predicate IsScalar(cp: int) {
    0 <= cp < 0xD800 || 0xE000 <= cp < 0x11_0000
  }

  // ---------------------------------------------------------------- UTF-8

  /** The UTF-8 encoding of one Unicode scalar value: one to four bytes by magnitude. */
  function Utf8Char(c: char): (bs: seq<Byte>)
    ensures 1 <= |bs| <= 4
    ensures |bs| == 1 <==> c as int < 0x80
    ensures |bs| == 1 ==> bs[0] == c as int
  {
    var cp := c as int;
    if cp < 0x80 then [cp]
    else if cp < 0x800 then [0xC0 + cp / 64, 0x80 + cp % 64]
    else if cp < 0x1_0000 then [0xE0 + cp / 4096, 0x80 + (cp / 64) % 64, 0x80 + cp % 64]
    else [0xF0 + cp / 262144, 0x80 + (cp / 4096) % 64, 0x80 + (cp / 64) % 64, 0x80 + cp % 64]
  }

  function Utf8(s: string): seq<Byte>
  {
    if s == [] then [] else Utf8Char(s[0]) + Utf8(s[1..])
  }

  predicate IsContinuation(b: int) {
    0x80 <= b < 0xC0
  }

  /** The length of the sequence a lead byte announces; 0 for a byte no sequence starts with. */
  function SequenceLength(b: Byte): nat
  {
    if b < 0x80 then 1
    else if 0xC2 <= b < 0xE0 then 2
    else if 0xE0 <= b < 0xF0 then 3
    else if 0xF0 <= b < 0xF5 then 4
    else 0
  }

  /** Decodes one whole sequence; rejects bad continuation bytes, overlong forms, surrogates
      and values above U+10FFFF. */
  function DecodeSequence(bs: seq<Byte>): Option<char>
    requires 1 <= |bs| <= 4
  {
    var n := |bs|;
    var cp: int :=
      if n == 1 then bs[0] as int
      else if n == 2 then (bs[0] as int - 0xC0) * 64 + (bs[1] as int - 0x80)
      else if n == 3 then (bs[0] as int - 0xE0) * 4096 + (bs[1] as int - 0x80) * 64 + (bs[2] as int - 0x80)
      else (bs[0] as int - 0xF0) * 262144 + (bs[1] as int - 0x80) * 4096 + (bs[2] as int - 0x80) * 64 + (bs[3] as int - 0x80);
    var lowest := if n == 1 then 0 else if n == 2 then 0x80 else if n == 3 then 0x800 else 0x1_0000;
    if (forall i | 1 <= i < n :: IsContinuation(bs[i])) && lowest <= cp && IsScalar(cp)
    then Some(cp as char)
    else None
  }

  /** Strict UTF-8 decoding: the string the bytes encode, or None for malformed input. */
  function DecodeUtf8(bs: seq<Byte>): Option<string>
    decreases |bs|
  {
    if bs == [] then Some("")
    else
      var n := SequenceLength(bs[0]);
      if n == 0 || |bs| < n then None
      else
        match DecodeSequence(bs[..n])
        case None => None
        case Some(c) =>
          match DecodeUtf8(bs[n..])
          case None => None
          case Some(rest) => Some([c] + rest)
  }

  lemma DecodeTwo(q: int, r: int)
    requires 2 <= q < 32 && 0 <= r < 64
    ensures SequenceLength(0xC0 + q) == 2
    ensures DecodeSequence([0xC0 + q, 0x80 + r]) == Some((q * 64 + r) as char)
  {
  }

  lemma DecodeThree(q: int, r1: int, r: int)
    requires 0 <= q < 16 && 0 <= r1 < 64 && 0 <= r < 64
    requires 0x800 <= q * 4096 + r1 * 64 + r && IsScalar(q * 4096 + r1 * 64 + r)
    ensures SequenceLength(0xE0 + q) == 3
    ensures DecodeSequence([0xE0 + q, 0x80 + r1, 0x80 + r]) == Some((q * 4096 + r1 * 64 + r) as char)
  {
  }

  lemma DecodeFour(q: int, r2: int, r1: int, r: int)
    requires 0 <= q < 5 && 0 <= r2 < 64 && 0 <= r1 < 64 && 0 <= r < 64
    requires 0x1_0000 <= q * 262144 + r2 * 4096 + r1 * 64 + r < 0x11_0000
    ensures SequenceLength(0xF0 + q) == 4
    ensures DecodeSequence([0xF0 + q, 0x80 + r2, 0x80 + r1, 0x80 + r]) ==
      Some((q * 262144 + r2 * 4096 + r1 * 64 + r) as char)
  {
  }

  lemma Utf8CharTwo(c: char)
    requires 0x80 <= c as int < 0x800
    ensures SequenceLength(Utf8Char(c)[0]) == |Utf8Char(c)|
    ensures DecodeSequence(Utf8Char(c)) == Some(c)
  {
    var cp := c as int;
    assert Utf8Char(c) == [0xC0 + cp / 64, 0x80 + cp % 64];
    DecodeTwo(cp / 64, cp % 64);
  }

  lemma Utf8CharThree(c: char)
    requires 0x800 <= c as int < 0x1_0000
    ensures SequenceLength(Utf8Char(c)[0]) == |Utf8Char(c)|
    ensures DecodeSequence(Utf8Char(c)) == Some(c)
  {
    var cp := c as int;
    assert Utf8Char(c) == [0xE0 + cp / 4096, 0x80 + (cp / 64) % 64, 0x80 + cp % 64];
    assert cp / 64 == (cp / 4096) * 64 + (cp / 64) % 64;
    assert cp == (cp / 64) * 64 + cp % 64;
    DecodeThree(cp / 4096, (cp / 64) % 64, cp % 64);
  }

  lemma Utf8CharFour(c: char)
    requires 0x1_0000 <= c as int
    ensures SequenceLength(Utf8Char(c)[0]) == |Utf8Char(c)|
    ensures DecodeSequence(Utf8Char(c)) == Some(c)
  {
    var cp := c as int;
    assert Utf8Char(c) == [0xF0 + cp / 262144, 0x80 + (cp / 4096) % 64, 0x80 + (cp / 64) % 64, 0x80 + cp % 64];
    assert cp / 4096 == (cp / 262144) * 64 + (cp / 4096) % 64;
    assert cp / 64 == (cp / 4096) * 64 + (cp / 64) % 64;
    assert cp == (cp / 64) * 64 + cp % 64;
    DecodeFour(cp / 262144, (cp / 4096) % 64, (cp / 64) % 64, cp % 64);
  }

  /** Every character's encoding announces its own length and decodes back to the character. */
  lemma Utf8CharRoundTrip(c: char)
    ensures SequenceLength(Utf8Char(c)[0]) == |Utf8Char(c)|
    ensures DecodeSequence(Utf8Char(c)) == Some(c)
  {
    if c as int < 0x80 {
    } else if c as int < 0x800 {
      Utf8CharTwo(c);
    } else if c as int < 0x1_0000 {
      Utf8CharThree(c);
    } else {
      Utf8CharFour(c);
    }
  }

  lemma DecodeUtf8Cons(c: char, rest: seq<Byte>)
    ensures DecodeUtf8(Utf8Char(c) + rest) ==
      match DecodeUtf8(rest) case None => None case Some(t) => Some([c] + t)
  {
    var head := Utf8Char(c);
    var bs := head + rest;
    Utf8CharRoundTrip(c);
    assert bs[0] == head[0];
    assert bs[..|head|] == head;
    assert bs[|head|..] == rest;
  }

  /** Decoding the UTF-8 encoding of a string gives the string back. */
  lemma {:induction false} Utf8RoundTrip(s: string)
    ensures DecodeUtf8(Utf8(s)) == Some(s)
  {
    if s != [] {
      Utf8RoundTrip(s[1..]);
      DecodeUtf8Cons(s[0], Utf8(s[1..]));
      assert [s[0]] + s[1..] == s;
    }
  }

  // ---------------------------------------------------------------- serializing

  /** The bytes the serializer writes as themselves: `*-._`, digits and ASCII letters. */
  predicate IsUnreservedByte(b: int) {
    b == 0x2A || b == 0x2D || b == 0x2E || 0x30 <= b <= 0x39 || 0x41 <= b <= 0x5A
    || b == 0x5F || 0x61 <= b <= 0x7A
  }

  /** A character the serializer can emit: an unreserved byte, `+` or `%`. */
  predicate IsSerializedChar(c: char) {
    IsUnreservedByte(c as int) || c == '+' || c == '%'
  }

  function HexDigit(d: int): (c: char)
    requires 0 <= d < 16
    ensures IsUnreservedByte(c as int)
  {
    if d < 10 then ('0' as int + d) as char else ('A' as int + d - 10) as char
  }

  function SerializeByte(b: Byte): (s: string)
    ensures forall i :: 0 <= i < |s| ==> IsSerializedChar(s[i])
  {
    if b == 0x20 then "+"
    else if IsUnreservedByte(b) then [b as char]
    else ['%', HexDigit(b / 16), HexDigit(b % 16)]
  }

  function SerializeBytes(bs: seq<Byte>): (s: string)
    ensures forall i :: 0 <= i < |s| ==> IsSerializedChar(s[i])
  {
    if bs == [] then "" else SerializeByte(bs[0]) + SerializeBytes(bs[1..])
  }

  /** The serialization of one name or value: its UTF-8 bytes, space as `+`, unreserved bytes
      as themselves, every other byte as `%` and two upper-case hexadecimal digits. */
  function Serialize(s: string): (r: string)
    ensures forall i :: 0 <= i < |r| ==> IsSerializedChar(r[i])
  {
    SerializeBytes(Utf8(s))
  }

  /** `new URLSearchParams(pairs).toString()`. */
  function SerializeQuery(pairs: seq<(string, string)>): string
  {
    Join(seq(|pairs|, i requires 0 <= i < |pairs| => Serialize(pairs[i].0) + "=" + Serialize(pairs[i].1)), '&')
  }

  // ---------------------------------------------------------------- parsing

  predicate IsHexChar(c: char) {
    '0' <= c <= '9' || 'A' <= c <= 'F' || 'a' <= c <= 'f'
  }

  function HexValue(c: char): (d: int)
    requires IsHexChar(c)
    ensures 0 <= d < 16
  {
    if '0' <= c <= '9' then c as int - '0' as int
    else if 'A' <= c <= 'F' then c as int - 'A' as int + 10
    else c as int - 'a' as int + 10
  }

  /** `+` as a space, `%` with two hexadecimal digits as that byte, a `%` without them and every
      other character as its UTF-8 bytes. */
  function PercentDecode(s: string): seq<Byte>
    decreases |s|
  {
    if s == [] then []
    else if s[0] == '%' && |s| >= 3 && IsHexChar(s[1]) && IsHexChar(s[2]) then
      [HexValue(s[1]) * 16 + HexValue(s[2])] + PercentDecode(s[3..])
    else if s[0] == '+' then [0x20] + PercentDecode(s[1..])
    else Utf8Char(s[0]) + PercentDecode(s[1..])
  }

  /** A name or value as the parser reads it; None where the bytes are not UTF-8. */
  function FormDecode(s: string): Option<string>
  {
    DecodeUtf8(PercentDecode(s))
  }

  lemma PercentDecodeByte(b: Byte, rest: string)
    ensures PercentDecode(SerializeByte(b) + rest) == [b] + PercentDecode(rest)
  {
    var s := SerializeByte(b) + rest;
    if b == 0x20 {
      assert s[1..] == rest;
    } else if IsUnreservedByte(b) {
      assert s[1..] == rest;
    } else {
      assert s[3..] == rest;
      assert b == (b / 16) * 16 + b % 16;
    }
  }

  lemma {:induction false} PercentDecodeSerialize(bs: seq<Byte>)
    ensures PercentDecode(SerializeBytes(bs)) == bs
  {
    if bs != [] {
      PercentDecodeSerialize(bs[1..]);
      PercentDecodeByte(bs[0], SerializeBytes(bs[1..]));
      assert [bs[0]] + bs[1..] == bs;
    }
  }

  /** Parsing reads back exactly what serializing wrote, for every string. */
  lemma FormRoundTrip(s: string)
    ensures FormDecode(Serialize(s)) == Some(s)
  {
    PercentDecodeSerialize(Utf8(s));
    Utf8RoundTrip(s);
  }

  /** The text before and after the first `c`; the whole text and "" when there is none. */
  function SplitAtFirst(p: string, c: char): (string, string)
  {
    if p == [] then ("", "")
    else if p[0] == c then ("", p[1..])
    else
      var (a, b) := SplitAtFirst(p[1..], c);
      ([p[0]] + a, b)
  }

  lemma {:induction false} SplitAtFirstFound(a: string, b: string, c: char)
    requires c !in a
    ensures SplitAtFirst(a + [c] + b, c) == (a, b)
  {
    if a != [] {
      SplitAtFirstFound(a[1..], b, c);
      assert (a + [c] + b)[1..] == a[1..] + [c] + b;
      assert [a[0]] + a[1..] == a;
    } else {
      assert (a + [c] + b)[1..] == b;
    }
  }

  /** The first value stored under `name` among the `&`-separated pieces. */
  function Lookup(pieces: seq<string>, name: string): Option<string>
  {
    if pieces == [] then None
    else if pieces[0] == "" then Lookup(pieces[1..], name)
    else
      var (n, v) := SplitAtFirst(pieces[0], '=');
      if FormDecode(n) == Some(name) then FormDecode(v) else Lookup(pieces[1..], name)
  }

  /** `new URLSearchParams(query).get(name)` for a query without its leading `?`. */
  function QueryGet(query: string, name: string): Option<string>
  {
    Lookup(Split(query, '&'), name)
  }

  /** `new URL(url).search` without the `?`: what follows the first `?`, or "" without one. */
  function SearchOf(url: string): string
  {
    SplitAtFirst(url, '?').1
  }

  /** A query serialized from one pair gives that pair's value back under its name. */
  lemma QueryRoundTrip(name: string, value: string)
    ensures QueryGet(SerializeQuery([(name, value)]), name) == Some(value)
  {
    var sn, sv := Serialize(name), Serialize(value);
    var q := sn + "=" + sv;
    assert SerializeQuery([(name, value)]) == q;
    assert '&' !in q by {
      forall i | 0 <= i < |q| ensures q[i] != '&' {
        if i < |sn| { assert q[i] == sn[i]; }
        else if i > |sn| { assert q[i] == sv[i - |sn| - 1]; }
      }
    }
    SplitWithoutSeparator(q, '&');
    assert '=' !in sn by {
      forall i | 0 <= i < |sn| ensures sn[i] != '=' { assert IsSerializedChar(sn[i]); }
    }
    SplitAtFirstFound(sn, sv, '=');
    FormRoundTrip(name);
    FormRoundTrip(value);
    assert q != "";
  }
}
