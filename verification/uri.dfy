/** `encodeURIComponent` and `decodeURIComponent` as the ECMAScript language
    specification defines them (sections Encode and Decode of the URI handling
    functions): characters outside the unreserved set become the UTF-8 bytes
    of their code point written as `%XY`; decoding reverses that and fails
    (a `URIError` in JavaScript) on a malformed escape or invalid UTF-8. */
module Uri {
  import opened Wrappers
  import Text

  type byte = b: int | 0 <= b < 256

  /** The characters `encodeURIComponent` leaves as they are. */
  predicate IsUnreserved(c: char) {
    ('A' <= c <= 'Z') || ('a' <= c <= 'z') || ('0' <= c <= '9')
    || c == '-' || c == '_' || c == '.' || c == '!' || c == '~' || c == '*'
    || c == '\'' || c == '(' || c == ')'
  }

  predicate IsHex(c: char) {
    ('0' <= c <= '9') || ('A' <= c <= 'F') || ('a' <= c <= 'f')
  }

  function HexDigit(v: nat): (c: char)
    requires v < 16
    ensures IsHex(c) && IsUnreserved(c)
  {
    if v < 10 then ('0' as int + v) as char else ('A' as int + v - 10) as char
  }

  function HexValue(c: char): (v: nat)
    requires IsHex(c)
    ensures v < 16
  {
    if '0' <= c <= '9' then c as int - '0' as int
    else if 'A' <= c <= 'F' then c as int - 'A' as int + 10
    else c as int - 'a' as int + 10
  }

  lemma HexRoundTrip(v: nat)
    requires v < 16
    ensures HexValue(HexDigit(v)) == v
  {
  }

  // ---------------------------------------------------------------------------
  // Encoding

  /** The UTF-8 bytes of one code point. */
  function Utf8(c: char): (bs: seq<byte>)
    ensures 1 <= |bs| <= 4
  {
    var cp := c as int;
    if cp < 0x80 then [cp]
    else if cp < 0x800 then [0xC0 + cp / 64, 0x80 + cp % 64]
    else if cp < 0x10000 then [0xE0 + cp / 4096, 0x80 + (cp / 64) % 64, 0x80 + cp % 64]
    else [0xF0 + cp / 262144, 0x80 + (cp / 4096) % 64, 0x80 + (cp / 64) % 64, 0x80 + cp % 64]
  }

  predicate IsEncodedChar(c: char) {
    IsUnreserved(c) || c == '%'
  }

  function EscapeBytes(bs: seq<byte>): (r: string)
    ensures |r| == 3 * |bs|
    ensures forall i :: 0 <= i < |r| ==> IsEncodedChar(r[i])
  {
    if bs == [] then []
    else ['%', HexDigit(bs[0] / 16), HexDigit(bs[0] % 16)] + EscapeBytes(bs[1..])
  }

  function EncodeChar(c: char): (r: string)
    ensures |r| >= 1
    ensures forall i :: 0 <= i < |r| ==> IsEncodedChar(r[i])
  {
    if IsUnreserved(c) then [c] else EscapeBytes(Utf8(c))
  }

  /** `encodeURIComponent(s)`. Dafny characters are Unicode scalar values, so
      the lone-surrogate failure of the JavaScript function cannot arise. */
  function Encode(s: string): (r: string)
    ensures forall i :: 0 <= i < |r| ==> IsEncodedChar(r[i])
  {
    if s == [] then [] else EncodeChar(s[0]) + Encode(s[1..])
  }

  /** An encoded component never contains a `/`, so it stays one path segment. */
  lemma EncodeHasNoSlash(s: string)
    ensures Text.NoChar(Encode(s), '/')
  {
  }

  // ---------------------------------------------------------------------------
  // Decoding

  /** The byte written as `%XY` at index k, if there is one. */
  function EscapedByte(s: string, k: nat): (r: Option<byte>)
    ensures r.Some? ==> k + 3 <= |s| && s[k] == '%'
  {
    if k + 3 <= |s| && s[k] == '%' && IsHex(s[k + 1]) && IsHex(s[k + 2])
    then Some(16 * HexValue(s[k + 1]) + HexValue(s[k + 2]))
    else None
  }

  /** A UTF-8 continuation byte written as `%XY` at index k. */
  function ContinuationAt(s: string, k: nat): (r: Option<byte>)
    ensures r.Some? ==> k + 3 <= |s| && 0x80 <= r.value < 0xC0
  {
    match EscapedByte(s, k)
    case Some(b) => if 0x80 <= b < 0xC0 then Some(b) else None
    case None => None
  }

  /** Decodes the escape sequence that starts `s` (a `%`): the character and
      the number of characters the sequence spans, or None where
      `decodeURIComponent` throws. */
  function DecodeEscape(s: string): (r: Option<(char, nat)>)
    ensures r.Some? ==> 3 <= r.value.1 <= |s|
  {
    match EscapedByte(s, 0)
    case None => None
    case Some(b0) =>
      if b0 < 0x80 then Some((b0 as char, 3))
      else if b0 < 0xC0 then None
      else if b0 < 0xE0 then
        match ContinuationAt(s, 3)
        case None => None
        case Some(b1) =>
          var cp := (b0 as int - 0xC0) * 64 + (b1 as int - 0x80);
          if cp < 0x80 then None else Some((cp as char, 6))
      else if b0 < 0xF0 then
        match (ContinuationAt(s, 3), ContinuationAt(s, 6))
        case (Some(b1), Some(b2)) =>
          var cp := (b0 as int - 0xE0) * 4096 + (b1 as int - 0x80) * 64 + (b2 as int - 0x80);
          if cp < 0x800 || (0xD800 <= cp < 0xE000) then None else Some((cp as char, 9))
        case _ => None
      else if b0 < 0xF8 then
        match (ContinuationAt(s, 3), ContinuationAt(s, 6), ContinuationAt(s, 9))
        case (Some(b1), Some(b2), Some(b3)) =>
          var cp := (b0 as int - 0xF0) * 262144 + (b1 as int - 0x80) * 4096 + (b2 as int - 0x80) * 64 + (b3 as int - 0x80);
          if cp < 0x10000 || cp > 0x10FFFF then None else Some((cp as char, 12))
        case _ => None
      else None
  }

  /** `decodeURIComponent(s)`, None where it throws `URIError`. */
  function Decode(s: string): Option<string>
    decreases |s|
  {
    if s == [] then Some([])
    else if s[0] != '%' then
      match Decode(s[1..])
      case None => None
      case Some(t) => Some([s[0]] + t)
    else
      match DecodeEscape(s)
      case None => None
      case Some((c, n)) =>
        match Decode(s[n..])
        case None => None
        case Some(t) => Some([c] + t)
  }

  /** A string with no `%` decodes to itself. */
  lemma {:induction false} DecodeWithoutPercent(s: string)
    requires Text.NoChar(s, '%')
    ensures Decode(s) == Some(s)
  {
    if s != [] {
      DecodeWithoutPercent(s[1..]);
      assert [s[0]] + s[1..] == s;
    }
  }

  /** A `%` not followed by two hexadecimal digits makes decoding fail. */
  lemma MalformedEscapeFails(s: string)
    requires |s| >= 1 && s[0] == '%'
    requires |s| < 3 || !IsHex(s[1]) || !IsHex(s[2])
    ensures Decode(s) == None
  {
  }

  // ---------------------------------------------------------------------------
  // Round trip: decodeURIComponent(encodeURIComponent(s)) == s

  /** Reading an escape is unaffected by text in front of it. */
  lemma EscapedByteShift(p: string, t: string, k: nat)
    ensures EscapedByte(p + t, |p| + k) == EscapedByte(t, k)
  {
    if k + 3 <= |t| {
      assert (p + t)[|p| + k] == t[k];
      assert (p + t)[|p| + k + 1] == t[k + 1];
      assert (p + t)[|p| + k + 2] == t[k + 2];
    }
  }

  /** The first escape of `EscapeBytes(bs)` reads back as the first byte. */
  lemma EscapedByteFirst(bs: seq<byte>, rest: string)
    requires bs != []
    ensures EscapedByte(EscapeBytes(bs) + rest, 0) == Some(bs[0])
  {
    var b := bs[0];
    var e := EscapeBytes(bs) + rest;
    HexRoundTrip(b / 16);
    HexRoundTrip(b % 16);
    assert e[0] == '%' && e[1] == HexDigit(b / 16) && e[2] == HexDigit(b % 16);
  }

  /** The j-th escape of `EscapeBytes(bs)` reads back as the j-th byte. */
  lemma {:induction false} EscapedByteOfEscapeBytes(bs: seq<byte>, rest: string, j: nat)
    requires j < |bs|
    ensures EscapedByte(EscapeBytes(bs) + rest, 3 * j) == Some(bs[j])
    decreases |bs|
  {
    if j == 0 {
      EscapedByteFirst(bs, rest);
    } else {
      var h: string := ['%', HexDigit(bs[0] / 16), HexDigit(bs[0] % 16)];
      var t := EscapeBytes(bs[1..]) + rest;
      assert EscapeBytes(bs) + rest == h + t;
      EscapedByteOfEscapeBytes(bs[1..], rest, j - 1);
      EscapedByteShift(h, t, 3 * (j - 1));
    }
  }

  lemma Utf8TwoBytes(cp: int)
    requires 0x80 <= cp < 0x800
    ensures 0xC0 <= 0xC0 + cp / 64 < 0xE0
    ensures (cp / 64) * 64 + cp % 64 == cp
  {
  }

  lemma Utf8ThreeBytes(cp: int)
    requires 0x800 <= cp < 0x10000
    ensures 0xE0 <= 0xE0 + cp / 4096 < 0xF0
    ensures (cp / 4096) * 4096 + ((cp / 64) % 64) * 64 + cp % 64 == cp
  {
    var q := cp / 64;
    assert q * 64 + cp % 64 == cp;
    assert (q / 64) * 64 + q % 64 == q;
    assert q / 64 == cp / 4096;
  }

  lemma Utf8FourBytes(cp: int)
    requires 0x10000 <= cp < 0x110000
    ensures 0xF0 <= 0xF0 + cp / 262144 < 0xF8
    ensures (cp / 262144) * 262144 + ((cp / 4096) % 64) * 4096 + ((cp / 64) % 64) * 64 + cp % 64 == cp
  {
    var q := cp / 64;
    var q2 := q / 64;
    assert q * 64 + cp % 64 == cp;
    assert q2 * 64 + q % 64 == q;
    assert (q2 / 64) * 64 + q2 % 64 == q2;
    assert q2 == cp / 4096;
    assert q2 / 64 == cp / 262144;
  }

  lemma DecodeEscapeOneByte(c: char, rest: string)
    requires c as int < 0x80
    ensures DecodeEscape(EscapeBytes(Utf8(c)) + rest) == Some((c, 3))
  {
    EscapedByteOfEscapeBytes(Utf8(c), rest, 0);
  }

  lemma DecodeEscapeTwoBytes(c: char, rest: string)
    requires 0x80 <= c as int < 0x800
    ensures DecodeEscape(EscapeBytes(Utf8(c)) + rest) == Some((c, 6))
  {
    var bs := Utf8(c);
    Utf8TwoBytes(c as int);
    EscapedByteOfEscapeBytes(bs, rest, 0);
    EscapedByteOfEscapeBytes(bs, rest, 1);
  }

  lemma DecodeEscapeThreeBytes(c: char, rest: string)
    requires 0x800 <= c as int < 0x10000
    ensures DecodeEscape(EscapeBytes(Utf8(c)) + rest) == Some((c, 9))
  {
    var bs := Utf8(c);
    Utf8ThreeBytes(c as int);
    EscapedByteOfEscapeBytes(bs, rest, 0);
    EscapedByteOfEscapeBytes(bs, rest, 1);
    EscapedByteOfEscapeBytes(bs, rest, 2);
  }

  lemma DecodeEscapeFourBytes(c: char, rest: string)
    requires 0x10000 <= c as int
    ensures DecodeEscape(EscapeBytes(Utf8(c)) + rest) == Some((c, 12))
  {
    var bs := Utf8(c);
    Utf8FourBytes(c as int);
    EscapedByteOfEscapeBytes(bs, rest, 0);
    EscapedByteOfEscapeBytes(bs, rest, 1);
    EscapedByteOfEscapeBytes(bs, rest, 2);
    EscapedByteOfEscapeBytes(bs, rest, 3);
  }

  /** The escape sequence of a character's UTF-8 bytes decodes to that character. */
  lemma DecodeEscapeOfUtf8(c: char, rest: string)
    ensures DecodeEscape(EscapeBytes(Utf8(c)) + rest) == Some((c, 3 * |Utf8(c)|))
  {
    var cp := c as int;
    if cp < 0x80 {
      DecodeEscapeOneByte(c, rest);
    } else if cp < 0x800 {
      DecodeEscapeTwoBytes(c, rest);
    } else if cp < 0x10000 {
      DecodeEscapeThreeBytes(c, rest);
    } else {
      DecodeEscapeFourBytes(c, rest);
    }
  }

  /** Decoding goes through one encoded character and carries on after it. */
  lemma DecodeEncodedChar(c: char, rest: string)
    requires Decode(rest).Some?
    ensures Decode(EncodeChar(c) + rest) == Some([c] + Decode(rest).value)
  {
    var e := EncodeChar(c) + rest;
    if IsUnreserved(c) {
      assert e[1..] == rest;
    } else {
      DecodeEscapeOfUtf8(c, rest);
      assert e[3 * |Utf8(c)|..] == rest;
    }
  }

  /** Decoding an encoded component gives back the component. */
  lemma {:induction false} DecodeEncode(s: string)
    ensures Decode(Encode(s)) == Some(s)
  {
    if s != [] {
      DecodeEncode(s[1..]);
      DecodeEncodedChar(s[0], Encode(s[1..]));
      assert [s[0]] + s[1..] == s;
    }
  }
}
