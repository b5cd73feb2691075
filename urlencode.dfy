/**
 * Form encoding as Python's `urllib.parse.urlencode` performs it with its
 * default `quote_plus`: each key and value is UTF-8 encoded; bytes of the
 * unreserved set of section 2.3 of RFC 3986 stay as they are, a space becomes
 * `+`, every other byte becomes `%XX` with upper-case hex digits (section 2.1);
 * pairs are written `key=value` and joined by `&`.
 *
 * Also the ordered parameter dictionaries the client builds: `dict.update`
 * and the `requests` rule that a parameter whose value is `None` is not sent.
 */
module UrlEncode {
  import opened Wrappers
  import opened Hex
  import opened Unicode
  import opened PyStr

  /** `_ALWAYS_SAFE` of `urllib.parse`: letters, digits and `_.-~`. */
  predicate IsUnreserved(b: byte)
  {
    ('A' as int <= b as int <= 'Z' as int) || ('a' as int <= b as int <= 'z' as int)
    || ('0' as int <= b as int <= '9' as int)
    || b as int == '_' as int || b as int == '.' as int || b as int == '-' as int || b as int == '~' as int
  }

  function UpperHexChar(v: int): (c: char)
    requires 0 <= v < 16
    ensures IsHexDigit(c) && HexValue(c) == v
  {
    if v < 10 then (v + '0' as int) as char else (v - 10 + 'A' as int) as char
  }

  function QuoteByte(b: byte): string
  {
    if IsUnreserved(b) then [b as int as char]
    else if b == 0x20 then "+"
    else ['%', UpperHexChar(b as int / 16), UpperHexChar(b as int % 16)]
  }

  /** `quote_from_bytes` with `' '` mapped to `+`. */
  function QuotePlusBytes(bs: seq<byte>): string
  {
    if bs == [] then "" else QuoteByte(bs[0]) + QuotePlusBytes(bs[1..])
  }

  /** `quote_plus(s)`: the result holds neither form delimiter, and decoding
      it gives back the UTF-8 bytes of `s`. */
  function QuotePlus(s: string): (r: string)
    ensures '&' !in r && '=' !in r
    ensures UnquotePlus(r) == Some(Utf8Encode(s))
  {
    QuotedHasNoDelimiters(Utf8Encode(s));
    UnquoteQuoteBytes(Utf8Encode(s));
    QuotePlusBytes(Utf8Encode(s))
  }

  /** The `key=value` fields of a form body, each side quoted. */
  function FormFields(pairs: seq<(string, string)>): (f: seq<string>)
    ensures |f| == |pairs|
    ensures forall i :: 0 <= i < |f| ==> f[i] == QuotePlus(pairs[i].0) + "=" + QuotePlus(pairs[i].1)
  {
    if pairs == [] then []
    else [QuotePlus(pairs[0].0) + "=" + QuotePlus(pairs[0].1)] + FormFields(pairs[1..])
  }

  /** `urlencode(pairs)` for string keys and values, in the given order: a
      non-empty body splits on `&` into exactly its fields. */
  function FormEncode(pairs: seq<(string, string)>): (r: string)
    ensures pairs != [] ==> Split(r, '&') == FormFields(pairs)
  {
    var fields := FormFields(pairs);
    if pairs == [] then Join(fields, '&')
    else
      assert forall i :: 0 <= i < |fields| ==> '&' !in fields[i];
      SplitJoin(fields, '&');
      Join(fields, '&')
  }

  /** `unquote_to_bytes` after mapping `+` back to a space: the partner of
      `QuotePlusBytes`. `%` must be followed by two hex digits of either case. */
  function UnquotePlus(t: string): Option<seq<byte>>
    decreases |t|
  {
    if t == [] then Some([])
    else if t[0] == '+' then
      match UnquotePlus(t[1..])
      case None => None
      case Some(rest) => Some([0x20 as byte] + rest)
    else if t[0] == '%' then
      if |t| >= 3 && IsHexDigit(t[1]) && IsHexDigit(t[2]) then
        match UnquotePlus(t[3..])
        case None => None
        case Some(rest) => Some([(HexValue(t[1]) * 16 + HexValue(t[2])) as byte] + rest)
      else None
    else if t[0] as int < 256 && IsUnreserved(t[0] as int as byte) then
      match UnquotePlus(t[1..])
      case None => None
      case Some(rest) => Some([t[0] as int as byte] + rest)
    else None
  }

  lemma {:induction false} UnquoteQuoteBytes(bs: seq<byte>)
    ensures UnquotePlus(QuotePlusBytes(bs)) == Some(bs)
  {
    if bs != [] {
      var q := QuoteByte(bs[0]);
      var t := QuotePlusBytes(bs);
      UnquoteQuoteBytes(bs[1..]);
      assert t[|q|..] == QuotePlusBytes(bs[1..]);
      if !IsUnreserved(bs[0]) && bs[0] != 0x20 {
        assert (bs[0] as int / 16) * 16 + bs[0] as int % 16 == bs[0] as int;
      }
      assert [bs[0]] + bs[1..] == bs;
    }
  }

  /** The unreserved characters, as characters. */
  predicate IsUnreservedChar(c: char)
  {
    ('A' <= c <= 'Z') || ('a' <= c <= 'z') || ('0' <= c <= '9') || c == '_' || c == '.' || c == '-' || c == '~'
  }

  /** Text made only of unreserved characters is quoted as itself, as the
      field names `username` and `response` are. */
  lemma {:induction false} QuotePlusUnreserved(s: string)
    requires forall i :: 0 <= i < |s| ==> IsUnreservedChar(s[i])
    ensures QuotePlus(s) == s
  {
    if s != [] {
      QuotePlusUnreserved(s[1..]);
      var b := s[0] as int as byte;
      assert Utf8Encode(s) == [b] + Utf8Encode(s[1..]);
      assert ([b] + Utf8Encode(s[1..]))[1..] == Utf8Encode(s[1..]);
      assert QuotePlusBytes(Utf8Encode(s)) == QuoteByte(b) + QuotePlusBytes(Utf8Encode(s[1..]));
      assert QuoteByte(b) == [s[0]];
      assert [s[0]] + s[1..] == s;
    }
  }

  /** Quoted text never holds the form delimiters `&` and `=`. */
  lemma {:induction false} QuotedHasNoDelimiters(bs: seq<byte>)
    ensures '&' !in QuotePlusBytes(bs) && '=' !in QuotePlusBytes(bs)
  {
    if bs != [] {
      QuotedHasNoDelimiters(bs[1..]);
      var q := QuoteByte(bs[0]);
      assert '&' !in q && '=' !in q;
    }
  }

  /** A two-field form body splits on `&` into exactly its two fields, key
      first, so the gateway reads `username` and `response` back unchanged. */
  lemma FormEncodeTwoFields(k1: string, v1: string, k2: string, v2: string)
    ensures Split(FormEncode([(k1, v1), (k2, v2)]), '&')
      == [QuotePlus(k1) + "=" + QuotePlus(v1), QuotePlus(k2) + "=" + QuotePlus(v2)]
  {
    var fields := FormFields([(k1, v1), (k2, v2)]);
    assert fields == [fields[0], fields[1]];
  }

  // ---------------------------------------------------------------------------
  // Ordered parameter dictionaries
  // ---------------------------------------------------------------------------

  /** A request parameter: its value is `None` when the caller passed `None`. */
  type Param = (string, Option<string>)

  function Keys(d: seq<Param>): set<string>
  {
    if d == [] then {} else {d[0].0} + Keys(d[1..])
  }

  /** Keys of a Python dict are distinct. */
  predicate DistinctKeys(d: seq<Param>)
  {
    forall i, j :: 0 <= i < j < |d| ==> d[i].0 != d[j].0
  }

  /** The value stored under `k`, if `k` is a key. */
  function Lookup(d: seq<Param>, k: string): (r: Option<Option<string>>)
    ensures r.Some? <==> k in Keys(d)
  {
    if d == [] then None else if d[0].0 == k then Some(d[0].1) else Lookup(d[1..], k)
  }

  /** `d[k] = v`: an existing key keeps its place, a new one goes last. */
  function Put(d: seq<Param>, k: string, v: Option<string>): (r: seq<Param>)
    ensures Keys(r) == Keys(d) + {k}
    ensures Lookup(r, k) == Some(v)
    ensures forall j :: j != k ==> Lookup(r, j) == Lookup(d, j)
    ensures |d| <= |r| <= |d| + 1 && forall i :: 0 <= i < |d| ==> r[i].0 == d[i].0
  {
    if d == [] then [(k, v)]
    else if d[0].0 == k then [(k, v)] + d[1..]
    else [d[0]] + Put(d[1..], k, v)
  }

  /** `d.update(kw)`: the pairs of `kw` are put in order, each adding at most
      one entry; the keys of `d` keep their places. */
  function Update(d: seq<Param>, kw: seq<Param>): (r: seq<Param>)
    ensures |d| <= |r| <= |d| + |kw|
    ensures forall i :: 0 <= i < |d| ==> r[i].0 == d[i].0
    decreases |kw|
  {
    if kw == [] then d else Update(Put(d, kw[0].0, kw[0].1), kw[1..])
  }

  /** After `d.update(kw)` the keys are those of both, and the keys of `d` keep
      their places at the front. */
  lemma {:induction false} UpdateKeys(d: seq<Param>, kw: seq<Param>)
    ensures Keys(Update(d, kw)) == Keys(d) + Keys(kw)
    ensures |d| <= |Update(d, kw)|
    ensures forall i :: 0 <= i < |d| ==> Update(d, kw)[i].0 == d[i].0
    decreases |kw|
  {
    if kw != [] {
      UpdateKeys(Put(d, kw[0].0, kw[0].1), kw[1..]);
    }
  }

  /** After `d.update(kw)` a key of `kw` holds the value `kw` gives it, and
      every other key keeps the value it had in `d`. */
  lemma {:induction false} UpdateLookup(d: seq<Param>, kw: seq<Param>, k: string)
    requires DistinctKeys(kw)
    ensures Lookup(Update(d, kw), k) == if k in Keys(kw) then Lookup(kw, k) else Lookup(d, k)
    decreases |kw|
  {
    if kw != [] {
      var d' := Put(d, kw[0].0, kw[0].1);
      UpdateLookup(d', kw[1..], k);
      if k == kw[0].0 {
        KeysAt(kw[1..], k);
      }
    }
  }

  /** Putting a key that is not yet present appends it. */
  lemma {:induction false} PutNew(d: seq<Param>, k: string, v: Option<string>)
    requires k !in Keys(d)
    ensures Put(d, k, v) == d + [(k, v)]
  {
    if d != [] {
      PutNew(d[1..], k, v);
      assert [d[0]] + (d[1..] + [(k, v)]) == d + [(k, v)];
    }
  }

  /** Updating with distinct keys that are all new appends the pairs in
      order. */
  lemma {:induction false} UpdateNew(d: seq<Param>, kw: seq<Param>)
    requires DistinctKeys(kw)
    requires forall i :: 0 <= i < |kw| ==> kw[i].0 !in Keys(d)
    ensures Update(d, kw) == d + kw
    decreases |kw|
  {
    if kw != [] {
      var d' := d + [kw[0]];
      var rest := kw[1..];
      NewKeysAfterPut(d, kw);
      assert Update(d, kw) == Update(d', rest);
      UpdateNew(d', rest);
      assert kw == [kw[0]] + rest;
      SeqAssoc(d, [kw[0]], rest);
    }
  }

  /** One step of `UpdateNew`: the first new pair is appended, and the rest
      are still distinct and new. */
  lemma NewKeysAfterPut(d: seq<Param>, kw: seq<Param>)
    requires kw != [] && DistinctKeys(kw)
    requires forall i :: 0 <= i < |kw| ==> kw[i].0 !in Keys(d)
    ensures Put(d, kw[0].0, kw[0].1) == d + [kw[0]]
    ensures DistinctKeys(kw[1..])
    ensures forall i :: 0 <= i < |kw[1..]| ==> kw[1..][i].0 !in Keys(d + [kw[0]])
  {
    PutNew(d, kw[0].0, kw[0].1);
    assert Keys(d + [kw[0]]) == Keys(d) + {kw[0].0};
    var rest := kw[1..];
    forall i | 0 <= i < |rest| ensures rest[i].0 !in Keys(d + [kw[0]]) {
      assert rest[i] == kw[i + 1];
      assert kw[i + 1].0 != kw[0].0;
    }
    forall i, j | 0 <= i < j < |rest| ensures rest[i].0 != rest[j].0 {
      assert rest[i] == kw[i + 1] && rest[j] == kw[j + 1];
    }
  }

  /** A key that no later pair mentions is not among the later keys. */
  lemma {:induction false} KeysAt(d: seq<Param>, k: string)
    requires forall i :: 0 <= i < |d| ==> d[i].0 != k
    ensures k !in Keys(d)
  {
    if d != [] {
      KeysAt(d[1..], k);
    }
  }

  /** The pairs `requests` actually sends: those whose value is not `None`. */
  function DropNone(d: seq<Param>): (r: seq<(string, string)>)
    ensures forall k, v :: (k, v) in r <==> (k, Some(v)) in d
  {
    if d == [] then []
    else
      var rest := DropNone(d[1..]);
      assert forall p :: p in d <==> p == d[0] || p in d[1..];
      match d[0].1
      case None => rest
      case Some(v) => [(d[0].0, v)] + rest
  }
}
