/**
 * The FRITZ!OS challenge-response codec (AVM's reference login script of
 * 2020-09-25): the login state the gateway reports, the choice between the
 * PBKDF2 and the legacy MD5 scheme, and the response each scheme computes.
 *
 * The hash primitives themselves (MD5, RFC 1321; PBKDF2-HMAC-SHA256, section
 * 5.2 of RFC 8018) are library code: they enter as a `HashSuite` parameter
 * whose only known property is the length of what it returns.
 */
module ChallengeCodec {
  import opened Wrappers
  import opened Exceptions
  import opened PyStr
  import opened Hex
  import opened Unicode

  type Digest16 = s: seq<byte> | |s| == 16 witness seq(16, _ => 0 as byte)
  type Digest32 = s: seq<byte> | |s| == 32 witness seq(32, _ => 0 as byte)

  /** `hashlib.md5(data).digest()` and
      `hashlib.pbkdf2_hmac("sha256", password, salt, iterations)`. */
  datatype HashSuite = HashSuite(
    md5: seq<byte> -> Digest16,
    pbkdf2Sha256: (seq<byte>, seq<byte>, int) -> Digest32)

  /** Largest iteration count `hashlib.pbkdf2_hmac` accepts (a C `int`). */
  const INT_MAX: int := 0x7FFF_FFFF

  /** Smallest value of the C `long` that `hashlib.pbkdf2_hmac` converts its
      iteration count to, on a 64-bit platform; a smaller Python `int` fails
      that conversion. */
  const LONG_MIN: int := -0x8000_0000_0000_0000

  /** What the gateway's login page reports: the challenge to answer and the
      number of seconds a new attempt must wait. */
  datatype LoginState = LoginState(challenge: string, blocktime: int) {
    /** `challenge.startswith("2$")`. */
    predicate IsPbkdf2()
    {
      "2$" <= challenge
    }
  }

  /** `is_pbkdf2` holds exactly when the challenge's first two characters are
      `2` and `$`; the first `$`-field of such a challenge is then `"2"`. */
  lemma IsPbkdf2Iff(state: LoginState)
    ensures state.IsPbkdf2() <==>
      |state.challenge| >= 2 && state.challenge[0] == '2' && state.challenge[1] == '$'
    ensures state.IsPbkdf2() ==>
      |Split(state.challenge, '$')| >= 2 && Split(state.challenge, '$')[0] == "2"
  {
    var c := state.challenge;
    if state.IsPbkdf2() {
      assert c[..2] == "2$";
      var rest := Split(c[1..], '$');
      assert c[1..][0] == '$';
      assert rest == [""] + Split(c[2..], '$') by {
        assert c[1..][1..] == c[2..];
      }
      assert Split(c, '$') == [[c[0]] + rest[0]] + rest[1..];
    }
  }

  // ---------------------------------------------------------------------------
  // PBKDF2 scheme
  // ---------------------------------------------------------------------------

  /** `parts[i]`. */
  function Field(parts: seq<string>, i: nat): (r: Result<string, Exc>)
    ensures r.Ok? <==> i < |parts|
    ensures r.Ok? ==> r.value == parts[i]
    ensures r.Err? ==> r.error == Builtin(IndexError)
  {
    if i < |parts| then Ok(parts[i]) else Err(Builtin(IndexError))
  }

  /** `int(parts[i])`: `IndexError` when there is no such field, `ValueError`
      when it is not a decimal integer. */
  function IntField(parts: seq<string>, i: nat): (r: Result<int, Exc>)
    ensures r.Ok? <==> i < |parts| && ParseInt(parts[i]).Some?
    ensures r.Ok? ==> r.value == ParseInt(parts[i]).value
    ensures r.Err? ==> r.error == Builtin(if i < |parts| then ValueError else IndexError)
  {
    var text :- Field(parts, i);
    match ParseInt(text)
    case None => Err(Builtin(ValueError))
    case Some(n) => Ok(n)
  }

  /** `bytes.fromhex(parts[i])`: `IndexError` when there is no such field,
      `ValueError` when it is not hex. */
  function HexField(parts: seq<string>, i: nat): (r: Result<seq<byte>, Exc>)
    ensures r.Ok? <==> i < |parts| && FromHex(parts[i]).Some?
    ensures r.Ok? ==> r.value == FromHex(parts[i]).value
    ensures r.Err? ==> r.error == Builtin(if i < |parts| then ValueError else IndexError)
  {
    var text :- Field(parts, i);
    match FromHex(text)
    case None => Err(Builtin(ValueError))
    case Some(b) => Ok(b)
  }

  /** One `hashlib.pbkdf2_hmac("sha256", ...)` call: the conversion of the
      iteration count to a C `long`, the check that password and salt each fit
      in INT_MAX bytes, then the two checks it makes on the count before
      hashing. */
  function Pbkdf2(h: HashSuite, password: seq<byte>, salt: seq<byte>, iterations: int): (r: Result<Digest32, Exc>)
    ensures r.Ok? <==> |password| <= INT_MAX && |salt| <= INT_MAX && 1 <= iterations <= INT_MAX
    ensures r.Ok? ==> r.value == h.pbkdf2Sha256(password, salt, iterations)
    ensures r == Err(Builtin(ValueError)) <==>
      |password| <= INT_MAX && |salt| <= INT_MAX && LONG_MIN <= iterations < 1
    ensures r == Err(Builtin(OverflowError)) <==>
      iterations < LONG_MIN || |password| > INT_MAX || |salt| > INT_MAX || iterations > INT_MAX
  {
    if iterations < LONG_MIN then Err(Builtin(OverflowError))
    else if |password| > INT_MAX || |salt| > INT_MAX then Err(Builtin(OverflowError))
    else if iterations < 1 then Err(Builtin(ValueError))
    else if iterations > INT_MAX then Err(Builtin(OverflowError))
    else Ok(h.pbkdf2Sha256(password, salt, iterations))
  }

  /** `calculate_pbkdf2_response`: read `2$iter1$salt1$iter2$salt2`, hash the
      UTF-8 password with the static salt, hash that digest's raw bytes with the
      dynamic salt, and answer `salt2$<hex of the second digest>`. The second
      salt is echoed exactly as the challenge spelled it. */
  function Pbkdf2Response(h: HashSuite, challenge: string, password: string): (r: Result<string, Exc>)
    ensures r.Err? ==> r.error in {Builtin(IndexError), Builtin(ValueError), Builtin(OverflowError)}
    ensures r.Ok? ==> |Split(challenge, '$')| >= 5
    ensures r.Ok? ==>
      var salt2 := Split(challenge, '$')[4];
      && |r.value| == |salt2| + 1 + 64
      && r.value[..|salt2|] == salt2
      && r.value[|salt2|] == '$'
      && IsLowerHex(r.value[|salt2| + 1..])
  {
    var parts := Split(challenge, '$');
    var iter1 :- IntField(parts, 1);
    var salt1 :- HexField(parts, 2);
    var iter2 :- IntField(parts, 3);
    var salt2 :- HexField(parts, 4);
    var hash1 :- Pbkdf2(h, Utf8Encode(password), salt1, iter1);
    var hash2 :- Pbkdf2(h, hash1, salt2, iter2);
    var hex := ToHex(hash2);
    var r := parts[4] + "$" + hex;
    assert r[|parts[4]| + 1..] == hex;
    Ok(r)
  }

  /** A challenge with fewer than five `$`-fields fails on the missing index. */
  lemma Pbkdf2FewFieldsFails(h: HashSuite, challenge: string, password: string)
    requires Count(challenge, '$') < 4
    ensures Pbkdf2Response(h, challenge, password).Err?
  {
    SplitCount(challenge, '$');
  }

  lemma {:induction false} ShowNatHasNoDollar(n: nat)
    ensures '$' !in ShowNat(n)
  {
    if n >= 10 {
      ShowNatHasNoDollar(n / 10);
    }
  }

  lemma HexHasNoDollar(b: seq<byte>)
    ensures '$' !in ToHex(b)
  {
  }

  /** The gateway's challenge, written out from its parts: the fixed version
      field, the decimal iteration counts, the hex salts, then any further
      fields. */
  function GatewayChallenge(iter1: nat, salt1: seq<byte>, iter2: nat, salt2: seq<byte>, extra: seq<string>): string
  {
    Join(GatewayFields(iter1, salt1, iter2, salt2, extra), '$')
  }

  /** Once the four fields parse, the password's UTF-8 bytes and both salts
      fit in INT_MAX bytes and both iteration counts are in range, the
      response is the verbatim fifth field, `$`, and the hex of the second
      round keyed by the first round's digest. */
  lemma Pbkdf2ResponseOfFields(h: HashSuite, challenge: string, password: string,
                               iter1: int, salt1: seq<byte>, iter2: int, salt2: seq<byte>)
    requires IntField(Split(challenge, '$'), 1) == Ok(iter1)
    requires HexField(Split(challenge, '$'), 2) == Ok(salt1)
    requires IntField(Split(challenge, '$'), 3) == Ok(iter2)
    requires HexField(Split(challenge, '$'), 4) == Ok(salt2)
    requires |Utf8Encode(password)| <= INT_MAX && |salt1| <= INT_MAX && |salt2| <= INT_MAX
    requires 1 <= iter1 <= INT_MAX && 1 <= iter2 <= INT_MAX
    ensures |Split(challenge, '$')| >= 5
    ensures Pbkdf2Response(h, challenge, password)
      == Ok(Split(challenge, '$')[4] + "$" +
            ToHex(h.pbkdf2Sha256(h.pbkdf2Sha256(Utf8Encode(password), salt1, iter1), salt2, iter2)))
  {
  }

  /** Every outcome of `calculate_pbkdf2_response`: the first of fields 1 to
      4 that is missing or does not parse raises its error; then the two
      rounds are checked in order, each raising `OverflowError` for a count
      below -2^63 or a password or salt longer than INT_MAX bytes, then
      `ValueError` for a count below 1 and `OverflowError` for one above
      INT_MAX; the call succeeds exactly when all four fields parse, the
      password's UTF-8 bytes and both salts fit in INT_MAX bytes and both
      counts are from 1 to INT_MAX, and its answer
      is then field 4 verbatim, `$`, and the hex of the chained rounds. */
  lemma Pbkdf2ResponseCases(h: HashSuite, challenge: string, password: string)
    ensures var parts := Split(challenge, '$');
      var i1, s1, i2, s2 := IntField(parts, 1), HexField(parts, 2), IntField(parts, 3), HexField(parts, 4);
      var r := Pbkdf2Response(h, challenge, password);
      && (i1.Err? ==> r == Err(i1.error))
      && (i1.Ok? && s1.Err? ==> r == Err(s1.error))
      && (i1.Ok? && s1.Ok? && i2.Err? ==> r == Err(i2.error))
      && (i1.Ok? && s1.Ok? && i2.Ok? && s2.Err? ==> r == Err(s2.error))
      && (i1.Ok? && s1.Ok? && i2.Ok? && s2.Ok? &&
          !(|Utf8Encode(password)| <= INT_MAX && |s1.value| <= INT_MAX && 1 <= i1.value <= INT_MAX) ==>
            r == Err(Builtin(
              if |Utf8Encode(password)| <= INT_MAX && |s1.value| <= INT_MAX && LONG_MIN <= i1.value < 1
              then ValueError else OverflowError)))
      && (i1.Ok? && s1.Ok? && i2.Ok? && s2.Ok? &&
          |Utf8Encode(password)| <= INT_MAX && |s1.value| <= INT_MAX && 1 <= i1.value <= INT_MAX &&
          !(|s2.value| <= INT_MAX && 1 <= i2.value <= INT_MAX) ==>
            r == Err(Builtin(if |s2.value| <= INT_MAX && LONG_MIN <= i2.value < 1 then ValueError else OverflowError)))
      && (r.Ok? <==>
            i1.Ok? && s1.Ok? && i2.Ok? && s2.Ok? &&
            |Utf8Encode(password)| <= INT_MAX && |s1.value| <= INT_MAX && |s2.value| <= INT_MAX &&
            1 <= i1.value <= INT_MAX && 1 <= i2.value <= INT_MAX)
      && (r.Ok? ==>
            r.value == parts[4] + "$" +
              ToHex(h.pbkdf2Sha256(h.pbkdf2Sha256(Utf8Encode(password), s1.value, i1.value), s2.value, i2.value)))
  {
    var parts := Split(challenge, '$');
    var i1, s1, i2, s2 := IntField(parts, 1), HexField(parts, 2), IntField(parts, 3), HexField(parts, 4);
    var r := Pbkdf2Response(h, challenge, password);
    if i1.Ok? && s1.Ok? && i2.Ok? && s2.Ok? {
      var p1 := Pbkdf2(h, Utf8Encode(password), s1.value, i1.value);
      if p1.Ok? {
        var p2 := Pbkdf2(h, p1.value, s2.value, i2.value);
        assert r == if p2.Ok? then Ok(parts[4] + "$" + ToHex(p2.value)) else Err(p2.error);
      } else {
        assert r == Err(p1.error);
      }
    }
  }

  /** The fields of a challenge the gateway writes out, in order. */
  function GatewayFields(iter1: nat, salt1: seq<byte>, iter2: nat, salt2: seq<byte>, extra: seq<string>): seq<string>
  {
    ["2", ShowInt(iter1), ToHex(salt1), ShowInt(iter2), ToHex(salt2)] + extra
  }

  lemma IntFieldShow(parts: seq<string>, i: nat, n: int)
    requires i < |parts| && parts[i] == ShowInt(n)
    ensures IntField(parts, i) == Ok(n)
  {
    ParseShowInt(n, "", "");
    assert "" + ShowInt(n) + "" == ShowInt(n);
  }

  lemma HexFieldShow(parts: seq<string>, i: nat, b: seq<byte>)
    requires i < |parts| && parts[i] == ToHex(b)
    ensures HexField(parts, i) == Ok(b)
  {
    FromHexToHex(b);
  }

  /** A challenge the gateway writes out splits into the fields it was
      joined from. */
  lemma GatewaySplit(iter1: nat, salt1: seq<byte>, iter2: nat, salt2: seq<byte>, extra: seq<string>)
    requires forall i :: 0 <= i < |extra| ==> '$' !in extra[i]
    ensures Split(GatewayChallenge(iter1, salt1, iter2, salt2, extra), '$') == GatewayFields(iter1, salt1, iter2, salt2, extra)
  {
    var fields := GatewayFields(iter1, salt1, iter2, salt2, extra);
    ShowNatHasNoDollar(iter1);
    ShowNatHasNoDollar(iter2);
    HexHasNoDollar(salt1);
    HexHasNoDollar(salt2);
    forall i | 0 <= i < |fields| ensures '$' !in fields[i] {
      if i >= 5 {
        assert fields[i] == extra[i - 5];
      }
    }
    SplitJoin(fields, '$');
  }

  /** The parts of a challenge the gateway writes out read back as the values
      they were written from. */
  lemma GatewayChallengeFields(iter1: nat, salt1: seq<byte>, iter2: nat, salt2: seq<byte>, extra: seq<string>)
    requires forall i :: 0 <= i < |extra| ==> '$' !in extra[i]
    ensures var parts := Split(GatewayChallenge(iter1, salt1, iter2, salt2, extra), '$');
      && |parts| == 5 + |extra| && parts[5..] == extra
      && IntField(parts, 1) == Ok(iter1 as int)
      && HexField(parts, 2) == Ok(salt1)
      && IntField(parts, 3) == Ok(iter2 as int)
      && HexField(parts, 4) == Ok(salt2)
      && parts[4] == ToHex(salt2)
  {
    var fields := GatewayFields(iter1, salt1, iter2, salt2, extra);
    GatewaySplit(iter1, salt1, iter2, salt2, extra);
    IntFieldShow(fields, 1, iter1);
    HexFieldShow(fields, 2, salt1);
    IntFieldShow(fields, 3, iter2);
    HexFieldShow(fields, 4, salt2);
  }

  /** For every challenge the gateway can issue, the response is the hex of the
      second salt, `$`, and the hex of the second PBKDF2 round, which is keyed by
      the first round's raw digest; fields after the fifth are ignored. */
  lemma Pbkdf2ResponseOfChallenge(h: HashSuite, iter1: nat, salt1: seq<byte>, iter2: nat, salt2: seq<byte>,
                                  extra: seq<string>, password: string)
    requires |Utf8Encode(password)| <= INT_MAX && |salt1| <= INT_MAX && |salt2| <= INT_MAX
    requires 1 <= iter1 <= INT_MAX && 1 <= iter2 <= INT_MAX
    requires forall i :: 0 <= i < |extra| ==> '$' !in extra[i]
    ensures Pbkdf2Response(h, GatewayChallenge(iter1, salt1, iter2, salt2, extra), password)
      == Ok(ToHex(salt2) + "$" +
            ToHex(h.pbkdf2Sha256(h.pbkdf2Sha256(Utf8Encode(password), salt1, iter1), salt2, iter2)))
  {
    var challenge := GatewayChallenge(iter1, salt1, iter2, salt2, extra);
    GatewayChallengeFields(iter1, salt1, iter2, salt2, extra);
    Pbkdf2ResponseOfFields(h, challenge, password, iter1, salt1, iter2, salt2);
  }

  /** The hex after the `$` decodes to exactly the second PBKDF2 digest. */
  lemma Pbkdf2ResponseDigest(h: HashSuite, iter1: nat, salt1: seq<byte>, iter2: nat, salt2: seq<byte>,
                             extra: seq<string>, password: string)
    requires |Utf8Encode(password)| <= INT_MAX && |salt1| <= INT_MAX && |salt2| <= INT_MAX
    requires 1 <= iter1 <= INT_MAX && 1 <= iter2 <= INT_MAX
    requires forall i :: 0 <= i < |extra| ==> '$' !in extra[i]
    ensures var r := Pbkdf2Response(h, GatewayChallenge(iter1, salt1, iter2, salt2, extra), password);
      && r.Ok?
      && |r.value| == 2 * |salt2| + 65
      && FromHex(r.value[2 * |salt2| + 1..])
         == Some(h.pbkdf2Sha256(h.pbkdf2Sha256(Utf8Encode(password), salt1, iter1), salt2, iter2))
  {
    Pbkdf2ResponseOfChallenge(h, iter1, salt1, iter2, salt2, extra, password);
    var hash2 := h.pbkdf2Sha256(h.pbkdf2Sha256(Utf8Encode(password), salt1, iter1), salt2, iter2);
    var r := ToHex(salt2) + "$" + ToHex(hash2);
    assert r[2 * |salt2| + 1..] == ToHex(hash2);
    FromHexToHex(hash2);
  }

  // ---------------------------------------------------------------------------
  // Legacy MD5 scheme
  // ---------------------------------------------------------------------------

  /** The bytes MD5 is taken of: `(challenge + "-" + password)` in UTF-16LE,
      two bytes for each character of the Basic Multilingual Plane and four
      for any other. */
  function Md5Input(challenge: string, password: string): (r: seq<byte>)
    ensures 2 * (|challenge| + 1 + |password|) <= |r| <= 4 * (|challenge| + 1 + |password|)
  {
    Utf16LeEncode(challenge + "-" + password)
  }

  /** `calculate_md5_response`: `challenge-<32 lower-case hex digits>`. */
  function Md5Response(h: HashSuite, challenge: string, password: string): (r: string)
    ensures |r| == |challenge| + 1 + 32
    ensures r[..|challenge| + 1] == challenge + "-"
    ensures IsLowerHex(r[|challenge| + 1..])
  {
    var hex := ToHex(h.md5(Md5Input(challenge, password)));
    var r := challenge + "-" + hex;
    assert r[|challenge| + 1..] == hex;
    r
  }

  /** The hex after `challenge-` decodes to the MD5 of the UTF-16LE input. */
  lemma Md5ResponseDigest(h: HashSuite, challenge: string, password: string)
    ensures var r := Md5Response(h, challenge, password);
      FromHex(r[|challenge| + 1..]) == Some(h.md5(Md5Input(challenge, password)))
  {
    var digest := h.md5(Md5Input(challenge, password));
    var r := Md5Response(h, challenge, password);
    assert r[|challenge| + 1..] == ToHex(digest);
    FromHexToHex(digest);
  }

  /** Different passwords give different MD5 inputs, non-ASCII ones included:
      the UTF-16LE encoding loses nothing. */
  lemma Md5InputInjective(challenge: string, p1: string, p2: string)
    requires Md5Input(challenge, p1) == Md5Input(challenge, p2)
    ensures p1 == p2
  {
    Utf16LeInjective(challenge + "-" + p1, challenge + "-" + p2);
    var n := |challenge| + 1;
    assert p1 == (challenge + "-" + p1)[n..];
    assert p2 == (challenge + "-" + p2)[n..];
  }

  // ---------------------------------------------------------------------------
  // Dispatch
  // ---------------------------------------------------------------------------

  /** The response `get_sid` sends: PBKDF2 when the challenge starts with
      `2$`, MD5 otherwise; only the PBKDF2 path can fail. */
  function ChallengeResponse(h: HashSuite, state: LoginState, password: string): (r: Result<string, Exc>)
    ensures !state.IsPbkdf2() ==> r == Ok(Md5Response(h, state.challenge, password))
    ensures state.IsPbkdf2() ==> r == Pbkdf2Response(h, state.challenge, password)
  {
    if state.IsPbkdf2() then Pbkdf2Response(h, state.challenge, password)
    else Ok(Md5Response(h, state.challenge, password))
  }

  /** The only errors computing a response can raise. */
  lemma ChallengeResponseErrors(h: HashSuite, state: LoginState, password: string)
    ensures var r := ChallengeResponse(h, state, password);
      r.Err? ==> r.error in {Builtin(IndexError), Builtin(ValueError), Builtin(OverflowError)}
  {
    if state.IsPbkdf2() {
      var r := Pbkdf2Response(h, state.challenge, password);
      assert r.Err? ==> r.error in {Builtin(IndexError), Builtin(ValueError), Builtin(OverflowError)};
    }
  }
}
