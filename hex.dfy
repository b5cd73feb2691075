/**
 * Bytes and their Base16 text form (section 8 of RFC 4648) as Python's
 * `bytes.hex()` writes it and `bytes.fromhex()` reads it.
 */
module Hex {
  import opened Wrappers

  newtype byte = x: int | 0 <= x < 256

  predicate IsHexDigit(c: char)
  {
    ('0' <= c <= '9') || ('a' <= c <= 'f') || ('A' <= c <= 'F')
  }

  predicate IsLowerHexDigit(c: char)
  {
    ('0' <= c <= '9') || ('a' <= c <= 'f')
  }

  /** Text made of lower-case hex digits only, the form `bytes.hex()` writes. */
  predicate IsLowerHex(s: string)
  {
    forall i :: 0 <= i < |s| ==> IsLowerHexDigit(s[i])
  }

  /** The white space `bytes.fromhex` skips between byte pairs (ASCII only). */
  predicate IsAsciiSpace(c: char)
  {
    c == ' ' || ('\t' <= c <= '\r')
  }

  function HexValue(c: char): (v: int)
    requires IsHexDigit(c)
    ensures 0 <= v < 16
  {
    if '0' <= c <= '9' then c as int - '0' as int
    else if 'a' <= c <= 'f' then c as int - 'a' as int + 10
    else c as int - 'A' as int + 10
  }

  function LowerHexChar(v: int): (c: char)
    requires 0 <= v < 16
    ensures IsLowerHexDigit(c) && IsHexDigit(c) && HexValue(c) == v
  {
    if v < 10 then (v + '0' as int) as char else (v - 10 + 'a' as int) as char
  }

  /** `bytes.hex()`: two lower-case digits per byte, high nibble first. */
  function ToHex(b: seq<byte>): (h: string)
    ensures |h| == 2 * |b|
    ensures IsLowerHex(h)
  {
    if b == [] then ""
    else [LowerHexChar(b[0] as int / 16), LowerHexChar(b[0] as int % 16)] + ToHex(b[1..])
  }

  /** `bytes.fromhex(s)`: pairs of hex digits of either case, ASCII white space
      allowed before each pair; `None` stands for the `ValueError` raised on any
      other character or an unpaired digit. */
  function FromHex(s: string): (r: Option<seq<byte>>)
    ensures r.Some? ==> 2 * |r.value| <= |s|
    decreases |s|
  {
    if s == [] then Some([])
    else if IsAsciiSpace(s[0]) then FromHex(s[1..])
    else if |s| >= 2 && IsHexDigit(s[0]) && IsHexDigit(s[1]) then
      match FromHex(s[2..])
      case None => None
      case Some(rest) => Some([(HexValue(s[0]) * 16 + HexValue(s[1])) as byte] + rest)
    else None
  }

  /** `bytes.fromhex(b.hex()) == b`. */
  lemma {:induction false} FromHexToHex(b: seq<byte>)
    ensures FromHex(ToHex(b)) == Some(b)
  {
    if b != [] {
      var h := ToHex(b);
      FromHexToHex(b[1..]);
      assert h[2..] == ToHex(b[1..]);
      assert [b[0]] + b[1..] == b;
    }
  }

  /** Hex text decodes to half as many bytes as it has digits. */
  lemma {:induction false} FromHexLength(s: string)
    requires FromHex(s).Some?
    requires forall i :: 0 <= i < |s| ==> IsHexDigit(s[i])
    ensures |s| % 2 == 0 && |FromHex(s).value| == |s| / 2
    decreases |s|
  {
    if s != [] {
      FromHexLength(s[2..]);
    }
  }
}
