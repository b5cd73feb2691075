/**
 * The two Python string built-ins the login code leans on: `str.split(sep)`
 * with a one-character separator, and `int(text)` for base-10 text. Both are
 * given with an independent partner (`Join`, `ShowInt`) and the round trips
 * that tie them together.
 */
module PyStr {
  import opened Wrappers

  // ---------------------------------------------------------------------------
  // str.split(sep)
  // ---------------------------------------------------------------------------

  /** `s.split(sep)`: every separator cuts, empty fields are kept, and the
      result always has one more field than `s` has separators. */
  function Split(s: string, sep: char): (parts: seq<string>)
    ensures |parts| >= 1
    ensures forall i :: 0 <= i < |parts| ==> sep !in parts[i]
    decreases |s|
  {
    if s == [] then [""]
    else
      var rest := Split(s[1..], sep);
      if s[0] == sep then [""] + rest
      else [[s[0]] + rest[0]] + rest[1..]
  }

  /** `sep.join(parts)`. */
  function Join(parts: seq<string>, sep: char): string
    decreases |parts|
  {
    if |parts| == 0 then ""
    else if |parts| == 1 then parts[0]
    else parts[0] + [sep] + Join(parts[1..], sep)
  }

  /** Number of occurrences of `c` in `s`. */
  function Count(s: string, c: char): nat
  {
    if s == [] then 0 else (if s[0] == c then 1 else 0) + Count(s[1..], c)
  }

  /** Joining the fields again gives back the string that was split. */
  lemma {:induction false} JoinSplit(s: string, sep: char)
    ensures Join(Split(s, sep), sep) == s
    decreases |s|
  {
    if s != [] {
      JoinSplit(s[1..], sep);
      var rest := Split(s[1..], sep);
      if s[0] == sep {
        assert Split(s, sep) == [""] + rest;
        assert ([""] + rest)[1..] == rest;
        assert s == [sep] + s[1..];
      } else if |rest| == 1 {
        assert s == [s[0]] + s[1..];
      } else {
        var head := [s[0]] + rest[0];
        var parts := [head] + rest[1..];
        assert parts[1..] == rest[1..];
        assert Join(rest, sep) == rest[0] + [sep] + Join(rest[1..], sep);
        assert s == [s[0]] + s[1..];
      }
    }
  }

  /** The field count is one more than the separator count, so "fewer than
      five fields" means "fewer than four separators". */
  lemma {:induction false} SplitCount(s: string, sep: char)
    ensures |Split(s, sep)| == Count(s, sep) + 1
    decreases |s|
  {
    if s != [] {
      SplitCount(s[1..], sep);
    }
  }

  /** A field free of separators, followed by a separator, is split off as the
      first field. */
  lemma {:induction false} SplitFieldThenSep(x: string, sep: char, y: string)
    requires sep !in x
    ensures Split(x + [sep] + y, sep) == [x] + Split(y, sep)
    decreases |x|
  {
    if x == [] {
      assert x + [sep] + y == [sep] + y;
      assert ([sep] + y)[1..] == y;
    } else {
      var s := x + [sep] + y;
      assert s[0] == x[0] && s[1..] == x[1..] + [sep] + y;
      SplitFieldThenSep(x[1..], sep, y);
      assert [x[0]] + x[1..] == x;
    }
  }

  /** A string with no separator is one field. */
  lemma {:induction false} SplitNoSep(x: string, sep: char)
    requires sep !in x
    ensures Split(x, sep) == [x]
    decreases |x|
  {
    if x != [] {
      SplitNoSep(x[1..], sep);
      assert [x[0]] + x[1..] == x;
    }
  }

  /** Splitting a join of separator-free fields gives back exactly those fields:
      this is how the gateway's `"2$iter1$salt1$iter2$salt2"` is read back. */
  lemma {:induction false} SplitJoin(parts: seq<string>, sep: char)
    requires |parts| >= 1
    requires forall i :: 0 <= i < |parts| ==> sep !in parts[i]
    ensures Split(Join(parts, sep), sep) == parts
    decreases |parts|
  {
    if |parts| == 1 {
      SplitNoSep(parts[0], sep);
    } else {
      SplitJoin(parts[1..], sep);
      SplitFieldThenSep(parts[0], sep, Join(parts[1..], sep));
      assert [parts[0]] + parts[1..] == parts;
    }
  }

  // ---------------------------------------------------------------------------
  // int(text), base 10
  // ---------------------------------------------------------------------------

  /** The white space `int()` strips from both ends of its argument: the
      ASCII characters tab to carriage return and space, and the non-ASCII
      characters `str.isspace()` accepts. The ASCII separators U+001C to
      U+001F count for `str.isspace()` but not for `int()`. */
  predicate IsSpace(c: char)
  {
    || ('\t' <= c <= '\r')
    || c == ' ' || c == '\U{85}' || c == '\U{A0}' || c == '\U{1680}'
    || ('\U{2000}' <= c <= '\U{200A}')
    || c == '\U{2028}' || c == '\U{2029}' || c == '\U{202F}' || c == '\U{205F}' || c == '\U{3000}'
  }

  predicate IsDigit(c: char)
  {
    '0' <= c <= '9'
  }

  function DigitValue(c: char): (v: nat)
    requires IsDigit(c)
    ensures v < 10
  {
    c as int - '0' as int
  }

  function DigitChar(v: nat): (c: char)
    requires v < 10
    ensures IsDigit(c) && DigitValue(c) == v
  {
    (v + '0' as int) as char
  }

  predicate AllSpace(s: string)
  {
    forall i :: 0 <= i < |s| ==> IsSpace(s[i])
  }

  function StripLeft(s: string): string
  {
    if s != [] && IsSpace(s[0]) then StripLeft(s[1..]) else s
  }

  function StripRight(s: string): string
  {
    if s != [] && IsSpace(s[|s| - 1]) then StripRight(s[..|s| - 1]) else s
  }

  /** `StripLeft` removes white space from the front, and all of it. */
  lemma {:induction false} StripLeftSpec(s: string)
    ensures var t := StripLeft(s);
      && |t| <= |s| && t == s[|s| - |t|..]
      && (t == [] || !IsSpace(t[0]))
      && AllSpace(s[..|s| - |t|])
  {
    if s != [] && IsSpace(s[0]) {
      StripLeftSpec(s[1..]);
      var n := |s| - |StripLeft(s)|;
      assert forall i :: 1 <= i < n ==> s[i] == s[1..][..n - 1][i - 1];
    }
  }

  /** `StripRight` removes white space from the back, and all of it. */
  lemma {:induction false} StripRightSpec(s: string)
    ensures var t := StripRight(s);
      && |t| <= |s| && t == s[..|t|]
      && (t == [] || !IsSpace(t[|t| - 1]))
      && AllSpace(s[|t|..])
  {
    if s != [] && IsSpace(s[|s| - 1]) {
      StripRightSpec(s[..|s| - 1]);
      var k := |StripRight(s)|;
      assert forall i :: k <= i < |s| - 1 ==> s[i] == s[..|s| - 1][k..][i - k];
    }
  }

  /** The stripping `int()` applies before it reads the digits: what is left
      neither starts nor ends with white space;
      `StripLeftSpec` and `StripRightSpec` say that only white space is
      removed. */
  function Strip(s: string): (r: string)
    ensures |r| <= |s|
    ensures r == [] || (!IsSpace(r[0]) && !IsSpace(r[|r| - 1]))
  {
    StripLeftSpec(s);
    StripRightSpec(StripLeft(s));
    StripRight(StripLeft(s))
  }

  /** The digit part of a base-10 literal: a digit, then digits each optionally
      preceded by a single underscore (`1_000` is accepted, `_1`, `1_` and
      `1__0` are not). */
  function ParseDigits(d: string): (r: Option<nat>)
    ensures r.Some? ==> d != [] && IsDigit(d[0]) && IsDigit(d[|d| - 1])
    decreases |d|
  {
    if d == [] || !IsDigit(d[|d| - 1]) then None
    else
      var last := DigitValue(d[|d| - 1]);
      var prefix := d[..|d| - 1];
      if prefix == [] then Some(last)
      else
        var body := if prefix[|prefix| - 1] == '_' then prefix[..|prefix| - 1] else prefix;
        match ParseDigits(body)
        case None => None
        case Some(v) => Some(10 * v + last)
  }

  /** `int(text)`: strip white space, accept an optional sign, then digits;
      `None` stands for the `ValueError` Python raises otherwise. An accepted
      text, stripped, ends in a digit and starts with a digit or a sign, and
      only a `-` gives a negative number. */
  function ParseInt(text: string): (r: Option<int>)
    ensures r.Some? ==>
      var t := Strip(text);
      && t != [] && IsDigit(t[|t| - 1])
      && (IsDigit(t[0]) || t[0] == '-' || t[0] == '+')
      && (r.value < 0 ==> t[0] == '-')
  {
    ParseSigned(Strip(text))
  }

  /** The sign and digits of an already stripped text. */
  function ParseSigned(t: string): (r: Option<int>)
    ensures r.Some? ==>
      && t != [] && IsDigit(t[|t| - 1])
      && (IsDigit(t[0]) || t[0] == '-' || t[0] == '+')
      && (r.value < 0 ==> t[0] == '-')
  {
    if t != [] && (t[0] == '-' || t[0] == '+') then
      match ParseDigits(t[1..])
      case None => None
      case Some(v) => Some(if t[0] == '-' then -(v as int) else v)
    else
      match ParseDigits(t)
      case None => None
      case Some(v) => Some(v)
  }

  /** Canonical decimal digits of a natural number. */
  function ShowNat(n: nat): (s: string)
    ensures |s| >= 1
    ensures forall i :: 0 <= i < |s| ==> IsDigit(s[i])
  {
    if n < 10 then [DigitChar(n)] else ShowNat(n / 10) + [DigitChar(n % 10)]
  }

  /** `str(n)` for an integer: what the gateway writes into `BlockTime`, the
      iteration counts and the device's numeric replies. */
  function ShowInt(n: int): string
  {
    if n < 0 then "-" + ShowNat(-n) else ShowNat(n)
  }

  lemma {:induction false} ParseShowNat(n: nat)
    ensures ParseDigits(ShowNat(n)) == Some(n)
  {
    if n >= 10 {
      ParseShowNat(n / 10);
      var s := ShowNat(n);
      assert s[..|s| - 1] == ShowNat(n / 10);
    }
  }

  /** Stripping removes exactly the white space around a core that neither
      starts nor ends with white space. */
  lemma StripAround(ws1: string, core: string, ws2: string)
    requires AllSpace(ws1) && AllSpace(ws2)
    requires core != [] && !IsSpace(core[0]) && !IsSpace(core[|core| - 1])
    ensures Strip(ws1 + core + ws2) == core
  {
    var s := ws1 + core + ws2;
    var l := StripLeft(s);
    StripLeftSpec(s);
    assert s[|ws1|] == core[0];
    assert l == core + ws2;
    var r := StripRight(l);
    StripRightSpec(l);
    assert l[|core| - 1] == core[|core| - 1];
    assert r == core;
  }

  /** `int` reads back `str(n)` once white space has been stripped. */
  lemma ParseStripped(text: string, n: int)
    requires Strip(text) == ShowInt(n)
    ensures ParseInt(text) == Some(n)
  {
    ParseSignedShow(n);
  }

  /** The sign and digits of `str(n)` read back as `n`. */
  lemma ParseSignedShow(n: int)
    ensures ParseSigned(ShowInt(n)) == Some(n)
  {
    if n < 0 {
      ParseSignedNegative(-n);
    } else {
      ParseSignedNatural(n);
    }
  }

  lemma ParseSignedNatural(m: nat)
    ensures ParseSigned(ShowNat(m)) == Some(m)
  {
    var d := ShowNat(m);
    ParseShowNat(m);
    assert IsDigit(d[0]);
    assert !(d[0] == '-' || d[0] == '+');
  }

  lemma ParseSignedNegative(m: nat)
    requires m > 0
    ensures ParseSigned("-" + ShowNat(m)) == Some(-(m as int))
  {
    var d := ShowNat(m);
    var t := "-" + d;
    ParseShowNat(m);
    assert t[0] == '-' && t[1..] == d;
  }

  /** `int(str(n)) == n`, also with white space around the digits, as in a
      reply that ends in a newline. */
  lemma ParseShowInt(n: int, ws1: string, ws2: string)
    requires AllSpace(ws1) && AllSpace(ws2)
    ensures ParseInt(ws1 + ShowInt(n) + ws2) == Some(n)
  {
    var s := ShowInt(n);
    var m: nat := if n < 0 then -n else n;
    var digits := ShowNat(m);
    assert s[|s| - 1] == digits[|digits| - 1];
    StripAround(ws1, s, ws2);
    ParseStripped(ws1 + s + ws2, n);
  }

  /** `int()` skips a tab before the digits. */
  lemma TabIsSpace()
    ensures ParseInt("\t5") == Some(5)
  {
    ParseShowInt(5, "\t", "");
    assert "\t" + ShowInt(5) + "" == "\t5";
  }

  /** `int()` does not skip the ASCII file separator U+001C, although
      `str.isspace()` accepts it. */
  lemma SeparatorIsNotSpace()
    ensures ParseInt("\U{1C}5") == None
  {
    var t := "\U{1C}5";
    StripAround([], t, []);
    assert [] + t + [] == t;
    assert !IsDigit(t[0]) && t[0] != '-' && t[0] != '+';
  }
}
