/**
  `encodeURIComponent` as ECMA-262 defines it, which the client's `login`
  applies to the return URL it puts in the login link
  (webapp/app/composables/useAuth.ts), together with its inverse
  `decodeURIComponent`. Every character outside the unreserved set
  `A-Z a-z 0-9 - _ . ! ~ * ' ( )` is written as the UTF-8 bytes of its code
  point, each as `%` and two upper-case hex digits. Dafny's `char` is a
  Unicode scalar value, so the lone-surrogate error of the standard cannot
  arise on the encoding side.
 */
module UriEncoding {
  import opened Common

  type Byte = b: int | 0 <= b < 256

  /** The characters `encodeURIComponent` leaves as they are. */
  predicate IsUnreserved(c: char)
  {
    || 'A' <= c <= 'Z'
    || 'a' <= c <= 'z'
    || '0' <= c <= '9'
    || c == '-' || c == '_' || c == '.' || c == '!' || c == '~'
    || c == '*' || c == '\'' || c == '(' || c == ')'
  }

  /** Upper-case hex digit of a nibble. */
  function HexDigit(n: int): (c: char)
    requires 0 <= n < 16
    ensures IsUnreserved(c)
  {
    if n < 10 then ('0' as int + n) as char else ('A' as int + n - 10) as char
  }

  /** Value of a hex digit of either case. */
  function HexValue(c: char): (v: Option<int>)
    ensures v.Some? ==> 0 <= v.value < 16
  {
    if '0' <= c <= '9' then Some(c as int - '0' as int)
    else if 'A' <= c <= 'F' then Some(c as int - 'A' as int + 10)
    else if 'a' <= c <= 'f' then Some(c as int - 'a' as int + 10)
    else None
  }

  /** `%XX` for one byte. */
  function PercentByte(b: Byte): (r: string)
    ensures |r| == 3 && r[0] == '%' && IsUnreserved(r[1]) && IsUnreserved(r[2])
  {
    ['%', HexDigit(b / 16), HexDigit(b % 16)]
  }

  function PercentBytes(bs: seq<Byte>): (r: string)
    ensures |r| == 3 * |bs|
    ensures forall i :: 0 <= i < |r| ==> r[i] == '%' || IsUnreserved(r[i])
  {
    if bs == [] then [] else PercentByte(bs[0]) + PercentBytes(bs[1..])
  }

  /** The UTF-8 encoding of a code point: one byte below U+0080, then two,
      three or four bytes, each continuation byte carrying six bits. */
  function Utf8(c: char): (bs: seq<Byte>)
    ensures 1 <= |bs| <= 4
  {
    var cp := c as int;
    if cp < 0x80 then [cp]
    else if cp < 0x800 then [0xC0 + cp / 64, 0x80 + cp % 64]
    else if cp < 0x1_0000 then [0xE0 + cp / 4096, 0x80 + cp / 64 % 64, 0x80 + cp % 64]
    else [0xF0 + cp / 262144, 0x80 + cp / 4096 % 64, 0x80 + cp / 64 % 64, 0x80 + cp % 64]
  }

  function EncodeChar(c: char): (r: string)
    ensures 1 <= |r|
  {
    if IsUnreserved(c) then [c] else PercentBytes(Utf8(c))
  }

  /** `encodeURIComponent(s)`. The result consists of unreserved characters
      and `%` only, so it cannot contain a query or fragment delimiter. */
  function Encode(s: string): (r: string)
    ensures |s| <= |r|
    ensures forall i :: 0 <= i < |r| ==> r[i] == '%' || IsUnreserved(r[i])
    ensures forall i :: 0 <= i < |s| ==> IsUnreserved(s[i]) ==> s[i] in r
  {
    if s == [] then [] else EncodeChar(s[0]) + Encode(s[1..])
  }

  /** A string made only of unreserved characters is its own encoding. */
  lemma {:induction false} EncodeUnreservedUnchanged(s: string)
    requires forall i :: 0 <= i < |s| ==> IsUnreserved(s[i])
    ensures Encode(s) == s
  {
    if s != [] {
      EncodeUnreservedUnchanged(s[1..]);
      assert s == [s[0]] + s[1..];
    }
  }

  /** The byte written as `%XX` at position `i`, if there is one. */
  function ReadByte(s: string, i: nat): (b: Option<Byte>)
  {
    if i + 3 <= |s| && s[i] == '%' then
      match (HexValue(s[i + 1]), HexValue(s[i + 2]))
      case (Some(hi), Some(lo)) => Some(16 * hi + lo)
      case _ => None
    else None
  }

  /** The six payload bits of a `%XX` continuation byte (`10xxxxxx`) at `i`. */
  function ReadContinuation(s: string, i: nat): (bits: Option<int>)
    ensures bits.Some? ==> 0 <= bits.value < 64
  {
    match ReadByte(s, i)
    case Some(b) => if 0x80 <= b < 0xC0 then Some(b - 0x80) else None
    case None => None
  }

  predicate IsScalarValue(cp: int)
  {
    0 <= cp < 0xD800 || 0xE000 <= cp < 0x11_0000
  }

  /** Decodes the character at the front of `s` and says how many characters
      it took. An escape sequence must be valid, shortest-form UTF-8 of a
      scalar value; anything else is the standard's URIError (None). */
  function DecodeOne(s: string): (r: Option<(char, nat)>)
    requires |s| > 0
    ensures r.Some? ==> 1 <= r.value.1 <= |s|
  {
    if s[0] != '%' then Some((s[0], 1))
    else match ReadByte(s, 0)
    case None => None
    case Some(b0) =>
      if b0 < 0x80 then Some((b0 as char, 3))
      else if b0 < 0xC0 then None
      else if b0 < 0xE0 then DecodeTwo(s, b0 - 0xC0)
      else if b0 < 0xF0 then DecodeThree(s, b0 - 0xE0)
      else if b0 < 0xF8 then DecodeFour(s, b0 - 0xF0)
      else None
  }

  /** A two-byte sequence whose lead byte carries `lead`. */
  function DecodeTwo(s: string, lead: int): (r: Option<(char, nat)>)
    requires 0 <= lead < 32
    ensures r.Some? ==> r.value.1 == 6 <= |s|
  {
    match ReadContinuation(s, 3)
    case Some(x1) =>
      var cp := lead * 64 + x1;
      if cp < 0x80 then None else Some((cp as char, 6))
    case None => None
  }

  /** A three-byte sequence whose lead byte carries `lead`. */
  function DecodeThree(s: string, lead: int): (r: Option<(char, nat)>)
    requires 0 <= lead < 16
    ensures r.Some? ==> r.value.1 == 9 <= |s|
  {
    match (ReadContinuation(s, 3), ReadContinuation(s, 6))
    case (Some(x1), Some(x2)) =>
      var cp := lead * 4096 + x1 * 64 + x2;
      if cp < 0x800 || !IsScalarValue(cp) then None else Some((cp as char, 9))
    case _ => None
  }

  /** A four-byte sequence whose lead byte carries `lead`. */
  function DecodeFour(s: string, lead: int): (r: Option<(char, nat)>)
    requires 0 <= lead < 8
    ensures r.Some? ==> r.value.1 == 12 <= |s|
  {
    match (ReadContinuation(s, 3), ReadContinuation(s, 6), ReadContinuation(s, 9))
    case (Some(x1), Some(x2), Some(x3)) =>
      var cp := lead * 262144 + x1 * 4096 + x2 * 64 + x3;
      if cp < 0x1_0000 || !IsScalarValue(cp) then None else Some((cp as char, 12))
    case _ => None
  }

  /** `decodeURIComponent(s)`: None where the standard throws URIError. */
  function Decode(s: string): Option<string>
    decreases |s|
  {
    if s == [] then Some([])
    else match DecodeOne(s)
    case None => None
    case Some((c, k)) =>
      match Decode(s[k..])
      case None => None
      case Some(t) => Some([c] + t)
  }

  lemma HexRoundTrip(n: int)
    requires 0 <= n < 16
    ensures HexValue(HexDigit(n)) == Some(n)
  {
  }

  /** A `%XX` placed after any prefix `p` reads back as its byte. */
  lemma ReadPercentByte(p: string, b: Byte, rest: string)
    ensures ReadByte(p + PercentByte(b) + rest, |p|) == Some(b)
  {
    var s := p + PercentByte(b) + rest;
    assert s[|p|] == '%' && s[|p| + 1] == HexDigit(b / 16) && s[|p| + 2] == HexDigit(b % 16);
    HexRoundTrip(b / 16);
    HexRoundTrip(b % 16);
  }

  /** Reading is unaffected by what precedes the position read. */
  lemma ReadByteShift(p: string, t: string, i: nat)
    ensures ReadByte(p + t, |p| + i) == ReadByte(t, i)
  {
    if i + 3 <= |t| {
      assert (p + t)[|p| + i] == t[i];
      assert (p + t)[|p| + i + 1] == t[i + 1];
      assert (p + t)[|p| + i + 2] == t[i + 2];
    }
  }

  /** The `j`-th escape of an encoded byte string reads back as the `j`-th byte. */
  lemma {:induction false} ReadEncodedByte(bs: seq<Byte>, rest: string, j: nat)
    requires j < |bs|
    ensures ReadByte(PercentBytes(bs) + rest, 3 * j) == Some(bs[j])
  {
    var head := PercentByte(bs[0]);
    var tail := PercentBytes(bs[1..]) + rest;
    assert PercentBytes(bs) + rest == head + tail;
    if j == 0 {
      ReadPercentByte([], bs[0], tail);
      assert [] + head + tail == head + tail;
    } else {
      ReadEncodedByte(bs[1..], rest, j - 1);
      ReadByteShift(head, tail, 3 * (j - 1));
    }
  }

  lemma DecodeTwoByteChar(c: char, rest: string)
    requires 0x80 <= c as int < 0x800
    ensures DecodeOne(PercentBytes(Utf8(c)) + rest) == Some((c, 6))
  {
    var cp := c as int;
    var bs := Utf8(c);
    var s := PercentBytes(bs) + rest;
    ReadEncodedByte(bs, rest, 0);
    ReadEncodedByte(bs, rest, 1);
    assert ReadContinuation(s, 3) == Some(cp % 64);
    assert (cp / 64) * 64 + cp % 64 == cp;
    assert DecodeTwo(s, cp / 64) == Some((c, 6));
  }

  lemma DecodeThreeByteChar(c: char, rest: string)
    requires 0x800 <= c as int < 0x1_0000
    ensures DecodeOne(PercentBytes(Utf8(c)) + rest) == Some((c, 9))
  {
    var cp := c as int;
    var bs := Utf8(c);
    var s := PercentBytes(bs) + rest;
    ReadEncodedByte(bs, rest, 0);
    ReadEncodedByte(bs, rest, 1);
    ReadEncodedByte(bs, rest, 2);
    assert ReadContinuation(s, 3) == Some(cp / 64 % 64);
    assert ReadContinuation(s, 6) == Some(cp % 64);
    Utf8ThreeBytes(cp);
    assert DecodeThree(s, cp / 4096) == Some((c, 9));
  }

  lemma DecodeFourByteChar(c: char, rest: string)
    requires 0x1_0000 <= c as int
    ensures DecodeOne(PercentBytes(Utf8(c)) + rest) == Some((c, 12))
  {
    var cp := c as int;
    var bs := Utf8(c);
    var s := PercentBytes(bs) + rest;
    ReadEncodedByte(bs, rest, 0);
    ReadEncodedByte(bs, rest, 1);
    ReadEncodedByte(bs, rest, 2);
    ReadEncodedByte(bs, rest, 3);
    assert ReadContinuation(s, 3) == Some(cp / 4096 % 64);
    assert ReadContinuation(s, 6) == Some(cp / 64 % 64);
    assert ReadContinuation(s, 9) == Some(cp % 64);
    Utf8FourBytes(cp);
    assert DecodeFour(s, cp / 262144) == Some((c, 12));
  }

  /** Lead byte and two continuation bytes reassemble the code point. */
  lemma Utf8ThreeBytes(cp: nat)
    ensures (cp / 4096) * 4096 + (cp / 64 % 64) * 64 + cp % 64 == cp
  {
    var q := cp / 64;
    assert cp == q * 64 + cp % 64;
    assert q == (q / 64) * 64 + q % 64;
    assert cp / 4096 == q / 64;
  }

  /** Lead byte and three continuation bytes reassemble the code point. */
  lemma Utf8FourBytes(cp: nat)
    ensures (cp / 262144) * 262144 + (cp / 4096 % 64) * 4096 + (cp / 64 % 64) * 64 + cp % 64 == cp
  {
    Utf8ThreeBytes(cp);
    var q2 := cp / 4096;
    assert q2 == (q2 / 64) * 64 + q2 % 64;
    assert cp / 262144 == q2 / 64;
  }

  /** Decoding the front of an encoded character gives the character back
      and consumes exactly its encoding, whatever follows it. */
  lemma DecodeOneEncodeChar(c: char, rest: string)
    ensures DecodeOne(EncodeChar(c) + rest) == Some((c, |EncodeChar(c)|))
  {
    var cp := c as int;
    if IsUnreserved(c) {
      assert (EncodeChar(c) + rest)[0] == c;
    } else if cp < 0x80 {
      ReadEncodedByte(Utf8(c), rest, 0);
    } else if cp < 0x800 {
      DecodeTwoByteChar(c, rest);
    } else if cp < 0x1_0000 {
      DecodeThreeByteChar(c, rest);
    } else {
      DecodeFourByteChar(c, rest);
    }
  }

  /** Round trip: `decodeURIComponent(encodeURIComponent(s)) == s`. */
  lemma {:induction false} DecodeEncode(s: string)
    ensures Decode(Encode(s)) == Some(s)
  {
    if s != [] {
      var e := EncodeChar(s[0]);
      var tail := Encode(s[1..]);
      DecodeOneEncodeChar(s[0], tail);
      assert (e + tail)[|e|..] == tail;
      DecodeEncode(s[1..]);
      assert [s[0]] + s[1..] == s;
    }
  }
}
