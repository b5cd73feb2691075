/**
 * What the client does to the outside world, recorded in order: HTTP
 * requests, pauses, console output, database inserts and the process exit.
 * The sleeps are events, not waits.
 */
module Trace {

  /** One set of telemetry: watts, watt-hours and degrees Celsius. */
  datatype Reading = Reading(power: real, energy: int, temperature: real)

  datatype Effect =
    | HttpGet(url: string, params: seq<(string, string)>)  // the query parameters actually sent
    | HttpPost(url: string, body: string)                  // a form-encoded body
    | Sleep(seconds: int)
    | Show(reading: Reading)                               // the three console lines
    | Insert(reading: Reading)                             // the database sink
    | Exit(status: int)                                    // `sys.exit(status)`

  /** What kind of thing an effect does, without its details. */
  datatype EffectKind = GetKind | PostKind | SleepKind | ShowKind | InsertKind | ExitKind

  function KindOf(e: Effect): EffectKind
  {
    match e
    case HttpGet(_, _) => GetKind
    case HttpPost(_, _) => PostKind
    case Sleep(_) => SleepKind
    case Show(_) => ShowKind
    case Insert(_) => InsertKind
    case Exit(_) => ExitKind
  }

  /** The kinds of effect that occur in `effects`. */
  function Kinds(effects: seq<Effect>): set<EffectKind>
  {
    if effects == [] then {} else {KindOf(effects[0])} + Kinds(effects[1..])
  }

  /** A kind is in `Kinds` exactly when some effect of that kind occurs. */
  lemma {:induction false} KindsOccur(effects: seq<Effect>, k: EffectKind)
    ensures k in Kinds(effects) <==> exists i :: 0 <= i < |effects| && KindOf(effects[i]) == k
  {
    if effects != [] {
      KindsOccur(effects[1..], k);
      if k in Kinds(effects[1..]) {
        var i :| 0 <= i < |effects[1..]| && KindOf(effects[1..][i]) == k;
        assert KindOf(effects[i + 1]) == k;
      }
      if exists i :: 0 <= i < |effects| && KindOf(effects[i]) == k {
        var i :| 0 <= i < |effects| && KindOf(effects[i]) == k;
        if i > 0 {
          assert KindOf(effects[1..][i - 1]) == k;
        }
      }
    }
  }

  lemma {:induction false} KindsAppend(a: seq<Effect>, b: seq<Effect>)
    ensures Kinds(a + b) == Kinds(a) + Kinds(b)
  {
    if a != [] {
      assert (a + b)[1..] == a[1..] + b;
      KindsAppend(a[1..], b);
    } else {
      assert a + b == b;
    }
  }

  lemma KindsOne(e: Effect)
    ensures Kinds([e]) == {KindOf(e)}
  {
    assert [e][1..] == [];
  }

  /** No `sys.exit` among the effects. */
  predicate NoExit(effects: seq<Effect>)
  {
    ExitKind !in Kinds(effects)
  }

  /** Nothing stored among the effects. */
  predicate NoInsert(effects: seq<Effect>)
  {
    InsertKind !in Kinds(effects)
  }

  /** No login response posted among the effects. */
  predicate NoPost(effects: seq<Effect>)
  {
    PostKind !in Kinds(effects)
  }

  /** Only requests and pauses, as in a login. */
  predicate OnlyTransport(effects: seq<Effect>)
  {
    Kinds(effects) <= {GetKind, PostKind, SleepKind}
  }

  /** Seconds spent in `Sleep` events. */
  function SleepTotal(effects: seq<Effect>): int
  {
    if effects == [] then 0
    else (if effects[0].Sleep? then effects[0].seconds else 0) + SleepTotal(effects[1..])
  }

  lemma {:induction false} SleepTotalAppend(a: seq<Effect>, b: seq<Effect>)
    ensures SleepTotal(a + b) == SleepTotal(a) + SleepTotal(b)
  {
    if a != [] {
      assert (a + b)[1..] == a[1..] + b;
      SleepTotalAppend(a[1..], b);
    } else {
      assert a + b == b;
    }
  }
}
