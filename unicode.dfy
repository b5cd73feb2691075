/**
 * The two text encodings the login code applies to passwords: UTF-8
 * (section 3 of RFC 3629, `str.encode()`) for PBKDF2 and UTF-16LE (sections
 * 2.1 and 3.1 of RFC 2781, `str.encode("utf_16_le")`, no byte-order mark) for
 * the MD5 scheme. A Dafny `char` is a Unicode scalar value, so neither encoder
 * can fail; each is paired with a decoder and the round trip is proved.
 */
module Unicode {
  import opened Wrappers
  import opened Hex

  predicate IsScalar(cp: int)
  {
    (0 <= cp < 0xD800) || (0xE000 <= cp < 0x11_0000)
  }

  lemma CharIsScalar(c: char)
    ensures IsScalar(c as int)
  {
  }

  function ToChar(cp: int): (c: char)
    requires IsScalar(cp)
    ensures c as int == cp
  {
    cp as char
  }

  // ---------------------------------------------------------------------------
  // UTF-8
  // ---------------------------------------------------------------------------

  function Utf8Char(c: char): (b: seq<byte>)
    ensures 1 <= |b| <= 4
  {
    var cp := c as int;
    CharIsScalar(c);
    if cp < 0x80 then [cp as byte]
    else if cp < 0x800 then [(0xC0 + cp / 64) as byte, (0x80 + cp % 64) as byte]
    else if cp < 0x1_0000 then
      [(0xE0 + cp / 4096) as byte, (0x80 + cp / 64 % 64) as byte, (0x80 + cp % 64) as byte]
    else
      [(0xF0 + cp / 262144) as byte, (0x80 + cp / 4096 % 64) as byte,
       (0x80 + cp / 64 % 64) as byte, (0x80 + cp % 64) as byte]
  }

  /** `s.encode("utf-8")`. */
  function Utf8Encode(s: string): (b: seq<byte>)
    ensures |s| <= |b| <= 4 * |s|
  {
    if s == [] then [] else Utf8Char(s[0]) + Utf8Encode(s[1..])
  }

  predicate IsCont(b: byte)
  {
    0x80 <= b < 0xC0
  }

  /** Reads one well-formed UTF-8 sequence from the front of `b`: the character
      and the number of bytes it took. Overlong forms, surrogates and code
      points above U+10FFFF are refused. */
  function Utf8DecodeChar(b: seq<byte>): (r: Option<(char, nat)>)
    ensures r.Some? ==> 1 <= r.value.1 <= |b|
  {
    if b == [] then None
    else
      var b0 := b[0] as int;
      if b0 < 0x80 then Some((ToChar(b0), 1))
      else if 0xC2 <= b0 < 0xE0 && |b| >= 2 && IsCont(b[1]) then
        var cp := (b0 - 0xC0) * 64 + (b[1] as int - 0x80);
        Some((ToChar(cp), 2))
      else if 0xE0 <= b0 < 0xF0 && |b| >= 3 && IsCont(b[1]) && IsCont(b[2]) then
        var cp := (b0 - 0xE0) * 4096 + (b[1] as int - 0x80) * 64 + (b[2] as int - 0x80);
        if 0x800 <= cp && IsScalar(cp) then Some((ToChar(cp), 3)) else None
      else if 0xF0 <= b0 < 0xF5 && |b| >= 4 && IsCont(b[1]) && IsCont(b[2]) && IsCont(b[3]) then
        var cp := (b0 - 0xF0) * 262144 + (b[1] as int - 0x80) * 4096
                  + (b[2] as int - 0x80) * 64 + (b[3] as int - 0x80);
        if 0x1_0000 <= cp < 0x11_0000 then Some((ToChar(cp), 4)) else None
      else None
  }

  /** Strict UTF-8 decoding (`bytes.decode("utf-8")`). */
  function Utf8Decode(b: seq<byte>): Option<string>
    decreases |b|
  {
    if b == [] then Some("")
    else
      match Utf8DecodeChar(b)
      case None => None
      case Some((c, n)) =>
        match Utf8Decode(b[n..])
        case None => None
        case Some(rest) => Some([c] + rest)
  }

  /** The arithmetic of a two-byte sequence: lead and continuation byte are
      in range and give the code point back. */
  lemma Utf8Bytes2(cp: int)
    requires 0x80 <= cp < 0x800
    ensures 0xC2 <= 0xC0 + cp / 64 < 0xE0 && 0x80 <= 0x80 + cp % 64 < 0xC0
    ensures cp / 64 * 64 + cp % 64 == cp
  {
  }

  lemma Utf8Bytes3(cp: int)
    requires 0x800 <= cp < 0x1_0000
    ensures 0xE0 <= 0xE0 + cp / 4096 < 0xF0 && 0x80 <= 0x80 + cp / 64 % 64 < 0xC0
    ensures cp / 4096 * 4096 + cp / 64 % 64 * 64 + cp % 64 == cp
  {
    assert cp / 64 == cp / 4096 * 64 + cp / 64 % 64;
  }

  lemma Utf8Bytes4(cp: int)
    requires 0x1_0000 <= cp < 0x11_0000
    ensures 0xF0 <= 0xF0 + cp / 262144 < 0xF5 && 0x80 <= 0x80 + cp / 4096 % 64 < 0xC0
    ensures cp / 262144 * 262144 + cp / 4096 % 64 * 4096 + cp / 64 % 64 * 64 + cp % 64 == cp
  {
    assert cp / 64 == cp / 4096 * 64 + cp / 64 % 64;
    assert cp / 4096 == cp / 262144 * 64 + cp / 4096 % 64;
  }

  lemma Utf8CharRoundTrip(c: char, rest: seq<byte>)
    ensures Utf8DecodeChar(Utf8Char(c) + rest) == Some((c, |Utf8Char(c)|))
  {
    var cp := c as int;
    CharIsScalar(c);
    if 0x80 <= cp < 0x800 {
      Utf8Bytes2(cp);
    } else if 0x800 <= cp < 0x1_0000 {
      Utf8Bytes3(cp);
    } else if 0x1_0000 <= cp {
      Utf8Bytes4(cp);
    }
  }

  /** Decoding the UTF-8 encoding of a string gives the string back; in
      particular different passwords give different PBKDF2 inputs. */
  lemma {:induction false} Utf8RoundTrip(s: string)
    ensures Utf8Decode(Utf8Encode(s)) == Some(s)
  {
    if s != [] {
      var b := Utf8Encode(s);
      var n := |Utf8Char(s[0])|;
      Utf8CharRoundTrip(s[0], Utf8Encode(s[1..]));
      assert b[n..] == Utf8Encode(s[1..]);
      Utf8RoundTrip(s[1..]);
      assert [s[0]] + s[1..] == s;
    }
  }

  /** Characters below U+0080 are encoded as themselves, one byte each. */
  lemma {:induction false} Utf8Ascii(s: string)
    requires forall i :: 0 <= i < |s| ==> s[i] as int < 0x80
    ensures |Utf8Encode(s)| == |s|
    ensures forall i :: 0 <= i < |s| ==> Utf8Encode(s)[i] as int == s[i] as int
  {
    if s != [] {
      Utf8Ascii(s[1..]);
    }
  }

  // ---------------------------------------------------------------------------
  // UTF-16LE
  // ---------------------------------------------------------------------------

  /** One 16-bit code unit, low byte first. */
  function Unit(u: int): (b: seq<byte>)
    requires 0 <= u < 0x1_0000
    ensures |b| == 2
  {
    [(u % 256) as byte, (u / 256) as byte]
  }

  function Utf16LeChar(c: char): (b: seq<byte>)
    ensures |b| == 2 || |b| == 4
  {
    var cp := c as int;
    CharIsScalar(c);
    if cp < 0x1_0000 then Unit(cp)
    else
      var v := cp - 0x1_0000;
      Unit(0xD800 + v / 1024) + Unit(0xDC00 + v % 1024)
  }

  /** `s.encode("utf_16_le")`: code units in little-endian order, characters
      outside the Basic Multilingual Plane as a surrogate pair, no byte-order
      mark. */
  function Utf16LeEncode(s: string): (b: seq<byte>)
    ensures 2 * |s| <= |b| <= 4 * |s|
  {
    if s == [] then [] else Utf16LeChar(s[0]) + Utf16LeEncode(s[1..])
  }

  /** Reads one character from the front of `b`: a unit outside the surrogate
      range, or a high surrogate followed by a low one. */
  function Utf16LeDecodeChar(b: seq<byte>): (r: Option<(char, nat)>)
    ensures r.Some? ==> 1 <= r.value.1 <= |b|
  {
    if |b| < 2 then None
    else
      var u := b[0] as int + 256 * b[1] as int;
      if u < 0xD800 || 0xE000 <= u then Some((ToChar(u), 2))
      else if u < 0xDC00 && |b| >= 4 then
        var w := b[2] as int + 256 * b[3] as int;
        if 0xDC00 <= w < 0xE000 then
          Some((ToChar(0x1_0000 + (u - 0xD800) * 1024 + (w - 0xDC00)), 4))
        else None
      else None
  }

  /** Strict UTF-16LE decoding (`bytes.decode("utf_16_le")`). */
  function Utf16LeDecode(b: seq<byte>): Option<string>
    decreases |b|
  {
    if b == [] then Some("")
    else
      match Utf16LeDecodeChar(b)
      case None => None
      case Some((c, n)) =>
        match Utf16LeDecode(b[n..])
        case None => None
        case Some(rest) => Some([c] + rest)
  }

  lemma Utf16LeCharRoundTrip(c: char, rest: seq<byte>)
    ensures Utf16LeDecodeChar(Utf16LeChar(c) + rest) == Some((c, |Utf16LeChar(c)|))
  {
    var cp := c as int;
    CharIsScalar(c);
    if cp < 0x1_0000 {
      assert cp % 256 + 256 * (cp / 256) == cp;
    } else {
      var v := cp - 0x1_0000;
      var hi := 0xD800 + v / 1024;
      var lo := 0xDC00 + v % 1024;
      assert hi % 256 + 256 * (hi / 256) == hi;
      assert lo % 256 + 256 * (lo / 256) == lo;
      assert (v / 1024) * 1024 + v % 1024 == v;
    }
  }

  /** Decoding the UTF-16LE encoding of a string gives the string back. */
  lemma {:induction false} Utf16LeRoundTrip(s: string)
    ensures Utf16LeDecode(Utf16LeEncode(s)) == Some(s)
  {
    if s != [] {
      var b := Utf16LeEncode(s);
      var n := |Utf16LeChar(s[0])|;
      Utf16LeCharRoundTrip(s[0], Utf16LeEncode(s[1..]));
      assert b[n..] == Utf16LeEncode(s[1..]);
      Utf16LeRoundTrip(s[1..]);
      assert [s[0]] + s[1..] == s;
    }
  }

  /** Different strings have different UTF-16LE encodings. */
  lemma Utf16LeInjective(s: string, t: string)
    requires Utf16LeEncode(s) == Utf16LeEncode(t)
    ensures s == t
  {
    Utf16LeRoundTrip(s);
    Utf16LeRoundTrip(t);
  }

  /** In the Basic Multilingual Plane every character takes two bytes, low byte
      first: character `i` sits at bytes `2i` and `2i + 1`. */
  lemma {:induction false} Utf16LeBmp(s: string)
    requires forall i :: 0 <= i < |s| ==> s[i] as int < 0x1_0000
    ensures |Utf16LeEncode(s)| == 2 * |s|
    ensures forall i :: 0 <= i < |s| ==>
      Utf16LeEncode(s)[2 * i] as int == s[i] as int % 256 &&
      Utf16LeEncode(s)[2 * i + 1] as int == s[i] as int / 256
  {
    if s != [] {
      Utf16LeBmp(s[1..]);
      var b := Utf16LeEncode(s);
      assert b[2..] == Utf16LeEncode(s[1..]);
      forall i | 1 <= i < |s|
        ensures b[2 * i] as int == s[i] as int % 256 && b[2 * i + 1] as int == s[i] as int / 256
      {
        assert s[1..][i - 1] == s[i];
        assert b[2 * i] == b[2..][2 * (i - 1)];
        assert b[2 * i + 1] == b[2..][2 * (i - 1) + 1];
      }
    }
  }
}
