/**
 * What one iteration of `run`, and the loop as a whole, promise: a valid
 * session is reused, a missing or invalid one is renewed, the readings are
 * taken in order and converted, a reading is stored only when storing is
 * enabled, and a failure ends in a pause or in `sys.exit(1)`, never both and
 * never before the end.
 *
 * The iteration lemmas hold for any outcome `l` of `get_sid` that only makes
 * requests and waits; `GetSidOnlyTransport` shows the real one does.
 */
module PollingFacts {
  import opened Wrappers
  import opened Exceptions
  import opened PyStr
  import opened ChallengeCodec
  import opened Trace
  import opened Session
  import opened Polling

  // ---------------------------------------------------------------------------
  // What each stage does
  // ---------------------------------------------------------------------------

  /** The session part only makes requests and waits when the login does. */
  lemma SessionStageKinds(l: Login, cfg: Config, sid: Option<string>, dataId: Option<int>, rep: Replies)
    requires OnlyTransport(l.effects)
    ensures OnlyTransport(SessionStage(l, cfg, sid, dataId, rep).effects)
  {
    SessionStageCases(l, cfg, sid, dataId, rep);
    var probe := [ProbeRequest(cfg.url, sid)];
    KindsOne(probe[0]);
    KindsAppend(probe, l.effects);
    assert [] + l.effects == l.effects;
  }

  /** The reads make one to three requests and nothing else. */
  lemma ReadStageKinds(cfg: Config, sid: Option<string>, rep: Replies)
    ensures Kinds(ReadStage(cfg, sid, rep).1) == {GetKind}
  {
    var q1 := [ReadRequest(cfg, sid, POWER_CMD)];
    var q2 := [ReadRequest(cfg, sid, ENERGY_CMD)];
    var q3 := [ReadRequest(cfg, sid, TEMPERATURE_CMD)];
    KindsOne(q1[0]);
    KindsOne(q2[0]);
    KindsOne(q3[0]);
    KindsAppend(q1, q2);
    KindsAppend(q1 + q2, q3);
    var e := ReadStage(cfg, sid, rep).1;
    assert e == q1 || e == q1 + q2 || e == q1 + q2 + q3;
  }

  /** Showing and storing: it inserts exactly when storing is enabled; then
      the row id becomes what the insert returned, `None` after a database
      failure, and the insert is followed by the back-off pause whether it
      succeeded or not; otherwise the row id stays. */
  lemma PersistStageKinds(s: Settings, reading: Reading, insert: Option<int>, dataId: Option<int>)
    ensures var (newId, e) := PersistStage(s, reading, insert, dataId);
      && Kinds(e) <= {ShowKind, InsertKind, SleepKind}
      && (InsertKind in Kinds(e) <==> s.toPostgresql)
      && (s.toPostgresql ==>
            newId == insert && |e| >= 2 && e[|e| - 1] == Sleep(s.backoff) && e[|e| - 2] == Insert(reading))
      && (!s.toPostgresql ==> newId == dataId && SleepKind !in Kinds(e))
  {
    var show := if s.printConsole then [Show(reading)] else [];
    KindsOne(Show(reading));
    KindsOne(Insert(reading));
    KindsOne(Sleep(s.backoff));
    assert Kinds(show) <= {ShowKind};
    KindsAppend(show, [Insert(reading)]);
    KindsAppend([Insert(reading)], [Sleep(s.backoff)]);
    assert [Insert(reading), Sleep(s.backoff)] == [Insert(reading)] + [Sleep(s.backoff)];
    KindsAppend(show, [Insert(reading), Sleep(s.backoff)]);
  }

  /** The `try` body adds to the session part only requests, console output,
      inserts and pauses, and an insert only when storing is enabled and the
      session and the reads succeeded. Storing never raises: the body raises
      only in the session part or in a read. The row id changes only to what
      the insert returned. */
  lemma TryBodyKinds(l: Login, cfg: Config, s: Settings, sid: Option<string>, dataId: Option<int>, rep: Replies)
    ensures var a := SessionStage(l, cfg, sid, dataId, rep);
      var t := TryBody(l, cfg, s, sid, dataId, rep);
      && Kinds(t.effects) <= Kinds(a.effects) + {GetKind, ShowKind, InsertKind, SleepKind}
      && (InsertKind in Kinds(t.effects) ==>
            InsertKind in Kinds(a.effects)
            || (s.toPostgresql && a.raised.None? && ReadStage(cfg, a.sid, rep).0.Ok?))
      && (t.dataId != dataId ==> s.toPostgresql && t.dataId == rep.insert)
      && (t.raised.Some? ==> a.raised.Some? || ReadStage(cfg, a.sid, rep).0.Err?)
  {
    var a := SessionStage(l, cfg, sid, dataId, rep);
    TryBodyStages(l, cfg, s, sid, dataId, rep);
    SessionStageCases(l, cfg, sid, dataId, rep);
    if a.raised.None? {
      var rs := ReadStage(cfg, a.sid, rep);
      ReadStageKinds(cfg, a.sid, rep);
      KindsAppend(a.effects, rs.1);
      if rs.0.Ok? {
        PersistStageKinds(s, rs.0.value, rep.insert, dataId);
        KindsAppend(a.effects + rs.1, PersistStage(s, rs.0.value, rep.insert, dataId).1);
      }
    }
  }

  /** The `except` clauses: the process exits exactly when the `try` body
      raised something other than a `ConnectionError`, with `sys.exit(1)` as
      the last effect; a `ConnectionError` is followed by the ten-second pause.
      Neither changes the session id or the row id. */
  lemma ExceptPolicy(a: Attempt)
    ensures var r := Except(a);
      && r.sid == a.sid && r.dataId == a.dataId
      && (r.exited <==> a.raised.Some? && !IsConnectionError(a.raised.value))
      && (r.exited ==> r.effects == a.effects + [Exit(1)])
      && (a.raised.Some? && IsConnectionError(a.raised.value) ==>
            r.effects == a.effects + [Sleep(CONNECTION_PAUSE)])
      && (a.raised.None? ==> r.effects == a.effects)
      && |r.effects| >= |a.effects| && r.effects[..|a.effects|] == a.effects
      && Kinds(r.effects) ==
           Kinds(a.effects) + (if a.raised.None? then {}
                               else if IsConnectionError(a.raised.value) then {SleepKind}
                               else {ExitKind})
  {
    KindsAppend(a.effects, [Exit(1)]);
    KindsAppend(a.effects, [Sleep(CONNECTION_PAUSE)]);
    KindsOne(Exit(1));
    KindsOne(Sleep(CONNECTION_PAUSE));
  }

  /** Only the session part sets the session id or depends on `get_sid`: the
      rest of the iteration only adds effects, and a failure of the session
      part goes straight to the `except` clauses. */
  lemma IterationExtendsSession(l: Login, cfg: Config, s: Settings, sid: Option<string>, dataId: Option<int>,
                                rep: Replies)
    ensures var a := SessionStage(l, cfg, sid, dataId, rep);
      var r := IterateWith(l, cfg, s, sid, dataId, rep);
      && r.sid == a.sid
      && |r.effects| >= |a.effects| && r.effects[..|a.effects|] == a.effects
      && (a.raised.Some? ==> r == Except(a))
  {
    var a := SessionStage(l, cfg, sid, dataId, rep);
    TryBodyStages(l, cfg, s, sid, dataId, rep);
    var t := TryBody(l, cfg, s, sid, dataId, rep);
    assert |t.effects| >= |a.effects| && t.effects[..|a.effects|] == a.effects;
    ExceptPolicy(t);
  }

  lemma IterationThroughSession(l1: Login, l2: Login, cfg: Config, s: Settings, sid: Option<string>,
                                dataId: Option<int>, rep: Replies)
    requires SessionStage(l1, cfg, sid, dataId, rep) == SessionStage(l2, cfg, sid, dataId, rep)
    ensures IterateWith(l1, cfg, s, sid, dataId, rep) == IterateWith(l2, cfg, s, sid, dataId, rep)
  {
  }

  // ---------------------------------------------------------------------------
  // The session
  // ---------------------------------------------------------------------------

  /** A stored session that the probe accepts is kept: the iteration starts
      with the probe, never posts a login, and does not depend on what
      `get_sid` would have done. */
  lemma SessionReuse(l1: Login, l2: Login, cfg: Config, s: Settings, sid: Option<string>, dataId: Option<int>,
                     rep: Replies)
    requires sid.Some? && ProbeValid(rep.probe) == Ok(true)
    ensures var r := IterateWith(l1, cfg, s, sid, dataId, rep);
      && r == IterateWith(l2, cfg, s, sid, dataId, rep)
      && |r.effects| >= 1 && r.effects[0] == ProbeRequest(cfg.url, sid)
      && r.sid == sid
      && NoPost(r.effects)
  {
    SessionStageCases(l1, cfg, sid, dataId, rep);
    SessionStageCases(l2, cfg, sid, dataId, rep);
    IterationThroughSession(l1, l2, cfg, s, sid, dataId, rep);
    ReusedSession(l1, cfg, s, sid, dataId, rep);
  }

  lemma ReusedSession(l: Login, cfg: Config, s: Settings, sid: Option<string>, dataId: Option<int>,
                      rep: Replies)
    requires sid.Some? && ProbeValid(rep.probe) == Ok(true)
    ensures var r := IterateWith(l, cfg, s, sid, dataId, rep);
      && |r.effects| >= 1 && r.effects[0] == ProbeRequest(cfg.url, sid)
      && r.sid == sid
      && NoPost(r.effects)
  {
    SessionStageCases(l, cfg, sid, dataId, rep);
    var a := SessionStage(l, cfg, sid, dataId, rep);
    assert a.effects == [ProbeRequest(cfg.url, sid)];
    var t := TryBody(l, cfg, s, sid, dataId, rep);
    KindsOne(ProbeRequest(cfg.url, sid));
    TryBodyKinds(l, cfg, s, sid, dataId, rep);
    assert PostKind !in Kinds(t.effects);
    ExceptPolicy(t);
    assert t.effects[0] == a.effects[0];
  }

  /** With no stored session, or one the probe rejects, the iteration logs in
      right after the probe: the new session id is what `get_sid` returned,
      and a failed login leaves the old one and ends the iteration there. */
  lemma LoginWhenNeeded(l: Login, cfg: Config, s: Settings, sid: Option<string>, dataId: Option<int>,
                        rep: Replies)
    requires sid.None? || ProbeValid(rep.probe) == Ok(false)
    ensures var r := IterateWith(l, cfg, s, sid, dataId, rep);
      var pre := if sid.None? then [] else [ProbeRequest(cfg.url, sid)];
      && |r.effects| >= |pre| + |l.effects|
      && r.effects[..|pre| + |l.effects|] == pre + l.effects
      && (l.outcome.Ok? ==> r.sid == l.outcome.value)
      && (l.outcome.Err? ==>
            var e := l.outcome.error;
            r == StepResult(sid, dataId,
                            pre + l.effects + [if IsConnectionError(e) then Sleep(CONNECTION_PAUSE) else Exit(1)],
                            !IsConnectionError(e)))
  {
    var pre := if sid.None? then [] else [ProbeRequest(cfg.url, sid)];
    SessionStageCases(l, cfg, sid, dataId, rep);
    IterationExtendsSession(l, cfg, s, sid, dataId, rep);
    ExceptPolicy(SessionStage(l, cfg, sid, dataId, rep));
  }

  /** A login that fails always ends the process: `get_sid` rewraps every
      transport failure, so none of its errors is a `ConnectionError`. */
  lemma LoginFailureExits(h: HashSuite, cfg: Config, s: Settings, sid: Option<string>, dataId: Option<int>,
                          rep: Replies)
    requires sid.None? || ProbeValid(rep.probe) == Ok(false)
    requires LoginOf(h, cfg, rep).outcome.Err?
    ensures var r := Iterate(h, cfg, s, sid, dataId, rep);
      r.exited && r.sid == sid && r.dataId == dataId && r.effects[|r.effects| - 1] == Exit(1)
  {
    GetSidNeverConnectionError(h, cfg.url, cfg.user, cfg.password, rep.state, rep.login);
    LoginWhenNeeded(LoginOf(h, cfg, rep), cfg, s, sid, dataId, rep);
  }

  // ---------------------------------------------------------------------------
  // The readings
  // ---------------------------------------------------------------------------

  /** Replies that are decimal integers, with any surrounding whitespace, give
      the reading in watts, watt-hours and degrees, after the three requests
      in the order power, energy, temperature. */
  lemma ReadsOfNumbers(cfg: Config, sid: Option<string>, rep: Replies, mW: int, wh: int, tenths: int)
    requires rep.power.Text? && Strip(rep.power.body) == ShowInt(mW)
    requires rep.energy.Text? && Strip(rep.energy.body) == ShowInt(wh)
    requires rep.temperature.Text? && Strip(rep.temperature.body) == ShowInt(tenths)
    ensures var (reading, effects) := ReadStage(cfg, sid, rep);
      && reading.Ok?
      && reading.value.power * 1000.0 == mW as real
      && reading.value.energy == wh
      && reading.value.temperature * 10.0 == tenths as real
      && effects == [ReadRequest(cfg, sid, POWER_CMD), ReadRequest(cfg, sid, ENERGY_CMD),
                     ReadRequest(cfg, sid, TEMPERATURE_CMD)]
  {
    ParseStripped(rep.power.body, mW);
    ParseStripped(rep.energy.body, wh);
    ParseStripped(rep.temperature.body, tenths);
    assert ReadValue(rep.power) == Ok(mW);
    assert ReadValue(rep.energy) == Ok(wh);
    assert ReadValue(rep.temperature) == Ok(tenths);
    ReadStageCases(cfg, sid, rep);
  }

  /** The text the plug sends for an unknown value is not an integer. */
  lemma InvalIsNotAnInteger()
    ensures ParseInt("inval") == None
  {
    NotAnIntegerWithLetter("inval", 0);
  }

  /** A text holding a letter, of either case, is not an integer. */
  lemma NotAnIntegerWithLetter(text: string, k: nat)
    requires k < |text| && ('a' <= text[k] <= 'z' || 'A' <= text[k] <= 'Z')
    ensures ParseInt(text) == None
  {
    NotAnIntegerWithForeign(text, k);
  }

  /** A text holding a character that is neither white space, a digit, an
      underscore nor a sign is not an integer. */
  lemma NotAnIntegerWithForeign(text: string, k: nat)
    requires k < |text| && !IsSpace(text[k]) && !IsDigit(text[k])
    requires text[k] != '_' && text[k] != '-' && text[k] != '+'
    ensures ParseInt(text) == None
  {
    StripLeftSpec(text);
    var l := StripLeft(text);
    StripRightSpec(l);
    var t := Strip(text);
    var i := |text| - |l|;
    assert k >= i;
    assert l[k - i] == text[k];
    assert k - i < |t|;
    assert t[k - i] == text[k];
    ForeignDigits(t, k - i);
  }

  /** The digits after an optional sign do not parse when a foreign
      character is among them. */
  lemma ForeignDigits(t: string, j: nat)
    requires j < |t| && !IsDigit(t[j]) && t[j] != '_' && t[j] != '-' && t[j] != '+'
    ensures t[0] == '-' || t[0] == '+' ==> ParseDigits(t[1..]) == None
    ensures t[0] != '-' && t[0] != '+' ==> ParseDigits(t) == None
  {
    if t[0] == '-' || t[0] == '+' {
      assert t[1..][j - 1] == t[j];
      DigitsOnly(t[1..], j - 1);
    } else {
      DigitsOnly(t, j);
    }
  }

  /** `ParseDigits` rejects a text with a character that is neither a digit
      nor an underscore. */
  lemma {:induction false} DigitsOnly(d: string, k: nat)
    requires k < |d| && !IsDigit(d[k]) && d[k] != '_'
    ensures ParseDigits(d) == None
    decreases |d|
  {
    if k < |d| - 1 && IsDigit(d[|d| - 1]) {
      var prefix := d[..|d| - 1];
      var body := if prefix[|prefix| - 1] == '_' then prefix[..|prefix| - 1] else prefix;
      assert body[k] == d[k];
      DigitsOnly(body, k);
    }
  }

  /** A read whose reply is not an integer raises `ValueError` and ends the
      process; nothing is stored and the row id stays. */
  lemma UnparsableReadExits(l: Login, cfg: Config, s: Settings, sid: Option<string>, dataId: Option<int>,
                            rep: Replies)
    requires SessionStage(l, cfg, sid, dataId, rep).raised.None?
    requires OnlyTransport(l.effects)
    requires || (rep.power.Text? && ParseInt(rep.power.body).None?)
             || (ReadValue(rep.power).Ok? && rep.energy.Text? && ParseInt(rep.energy.body).None?)
             || (ReadValue(rep.power).Ok? && ReadValue(rep.energy).Ok?
                 && rep.temperature.Text? && ParseInt(rep.temperature.body).None?)
    ensures var r := IterateWith(l, cfg, s, sid, dataId, rep);
      && r.exited
      && r.effects[|r.effects| - 1] == Exit(1)
      && r.dataId == dataId
      && NoInsert(r.effects)
  {
    var a := SessionStage(l, cfg, sid, dataId, rep);
    var rs := ReadStage(cfg, a.sid, rep);
    assert rs.0 == Err(Builtin(ValueError));
    TryBodyStages(l, cfg, s, sid, dataId, rep);
    var t := TryBody(l, cfg, s, sid, dataId, rep);
    assert t == Attempt(a.sid, dataId, a.effects + rs.1, Some(Builtin(ValueError)));
    SessionStageKinds(l, cfg, sid, dataId, rep);
    TryBodyKinds(l, cfg, s, sid, dataId, rep);
    ExceptPolicy(t);
  }

  // ---------------------------------------------------------------------------
  // Storing
  // ---------------------------------------------------------------------------

  /** After the session part, three successful reads give their three
      requests, then the reading is shown when `print_console` is set and, when
      `to_postgresql` is set, stored with what the insert returned kept as the
      row id (`None` after a database failure) and followed by the back-off
      pause. */
  lemma MeasureOfReadings(cfg: Config, s: Settings, sid: Option<string>, dataId: Option<int>,
                          rep: Replies, mW: int, wh: int, tenths: int)
    requires ReadValue(rep.power) == Ok(mW) && ReadValue(rep.energy) == Ok(wh)
    requires ReadValue(rep.temperature) == Ok(tenths)
    ensures var rd := Convert(mW, wh, tenths);
      var requests := [ReadRequest(cfg, sid, POWER_CMD), ReadRequest(cfg, sid, ENERGY_CMD),
                       ReadRequest(cfg, sid, TEMPERATURE_CMD)];
      var show := if s.printConsole then [Show(rd)] else [];
      var store := if s.toPostgresql then [Insert(rd), Sleep(s.backoff)] else [];
      MeasureStage(cfg, s, sid, dataId, rep) ==
        Attempt(sid, if s.toPostgresql then rep.insert else dataId, requests + show + store, None)
  {
    var rd := Convert(mW, wh, tenths);
    var requests := [ReadRequest(cfg, sid, POWER_CMD), ReadRequest(cfg, sid, ENERGY_CMD),
                     ReadRequest(cfg, sid, TEMPERATURE_CMD)];
    var show := if s.printConsole then [Show(rd)] else [];
    var store := if s.toPostgresql then [Insert(rd), Sleep(s.backoff)] else [];
    ReadStageCases(cfg, sid, rep);
    assert [requests[0]] + [requests[1]] + [requests[2]] == requests;
    assert ReadStage(cfg, sid, rep) == (Ok(rd), requests);
    if !s.toPostgresql {
      assert show + store == show;
    }
    assert PersistStage(s, rd, rep.insert, dataId)
      == (if s.toPostgresql then rep.insert else dataId, show + store);
    SeqAssoc(requests, show, store);
  }

  /** An iteration that gets through the session and all three reads makes
      the session's effects, then the three requests, shows the reading when
      `print_console` is set and, when `to_postgresql` is set, stores it, keeps
      what the insert returned as the row id (`None` after a database
      failure) and pauses `BACKOFF_INTERVAL` seconds; it never exits. */
  lemma FullIteration(l: Login, cfg: Config, s: Settings, sid: Option<string>, dataId: Option<int>,
                      rep: Replies, mW: int, wh: int, tenths: int)
    requires SessionStage(l, cfg, sid, dataId, rep).raised.None?
    requires ReadValue(rep.power) == Ok(mW) && ReadValue(rep.energy) == Ok(wh)
    requires ReadValue(rep.temperature) == Ok(tenths)
    ensures var a := SessionStage(l, cfg, sid, dataId, rep);
      var rd := Convert(mW, wh, tenths);
      var requests := [ReadRequest(cfg, a.sid, POWER_CMD), ReadRequest(cfg, a.sid, ENERGY_CMD),
                    ReadRequest(cfg, a.sid, TEMPERATURE_CMD)];
      var show := if s.printConsole then [Show(rd)] else [];
      var store := if s.toPostgresql then [Insert(rd), Sleep(s.backoff)] else [];
      IterateWith(l, cfg, s, sid, dataId, rep) ==
        StepResult(a.sid, if s.toPostgresql then rep.insert else dataId,
                   a.effects + (requests + show + store), false)
  {
    var a := SessionStage(l, cfg, sid, dataId, rep);
    var rd := Convert(mW, wh, tenths);
    var requests := [ReadRequest(cfg, a.sid, POWER_CMD), ReadRequest(cfg, a.sid, ENERGY_CMD),
                     ReadRequest(cfg, a.sid, TEMPERATURE_CMD)];
    var show := if s.printConsole then [Show(rd)] else [];
    var store := if s.toPostgresql then [Insert(rd), Sleep(s.backoff)] else [];
    var newId := if s.toPostgresql then rep.insert else dataId;
    MeasureOfReadings(cfg, s, a.sid, dataId, rep, mW, wh, tenths);
    TryBodyStages(l, cfg, s, sid, dataId, rep);
    var t := TryBody(l, cfg, s, sid, dataId, rep);
    assert t == Attempt(a.sid, newId, a.effects + (requests + show + store), None);
    assert IterateWith(l, cfg, s, sid, dataId, rep) == Except(t);
  }

  /** An insert happens only when `to_postgresql` is set and the session and
      all three reads succeeded; the row id changes only to what the insert
      returned; and an insert, failed or not, never ends the process: it is
      followed by the back-off pause, which ends the iteration, and its reply
      becomes the row id. */
  lemma InsertOnlyWhenStoring(l: Login, cfg: Config, s: Settings, sid: Option<string>, dataId: Option<int>,
                              rep: Replies)
    requires OnlyTransport(l.effects)
    ensures var r := IterateWith(l, cfg, s, sid, dataId, rep);
      var a := SessionStage(l, cfg, sid, dataId, rep);
      && (!NoInsert(r.effects) ==>
            s.toPostgresql && a.raised.None? && ReadStage(cfg, a.sid, rep).0.Ok?)
      && (r.dataId != dataId ==> s.toPostgresql && r.dataId == rep.insert)
      && (!NoInsert(r.effects) ==>
            && !r.exited && r.dataId == rep.insert
            && r.effects[|r.effects| - 1] == Sleep(s.backoff) && r.effects[|r.effects| - 2].Insert?)
  {
    var a := SessionStage(l, cfg, sid, dataId, rep);
    var rs := ReadStage(cfg, a.sid, rep);
    if s.toPostgresql && a.raised.None? && rs.0.Ok? {
      StoredIteration(l, cfg, s, sid, dataId, rep);
    } else {
      SessionStageKinds(l, cfg, sid, dataId, rep);
      TryBodyKinds(l, cfg, s, sid, dataId, rep);
      ExceptPolicy(TryBody(l, cfg, s, sid, dataId, rep));
    }
  }

  /** An iteration whose session part and reads succeed while storing is
      enabled ends with the insert and the back-off pause, keeping the
      insert's reply as the row id. */
  lemma StoredIteration(l: Login, cfg: Config, s: Settings, sid: Option<string>, dataId: Option<int>,
                        rep: Replies)
    requires s.toPostgresql
    requires SessionStage(l, cfg, sid, dataId, rep).raised.None?
    requires ReadStage(cfg, SessionStage(l, cfg, sid, dataId, rep).sid, rep).0.Ok?
    ensures var r := IterateWith(l, cfg, s, sid, dataId, rep);
      && !r.exited && r.dataId == rep.insert
      && |r.effects| >= 2
      && r.effects[|r.effects| - 1] == Sleep(s.backoff) && r.effects[|r.effects| - 2].Insert?
  {
    var a := SessionStage(l, cfg, sid, dataId, rep);
    var rs := ReadStage(cfg, a.sid, rep);
    TryBodyStages(l, cfg, s, sid, dataId, rep);
    PersistStageKinds(s, rs.0.value, rep.insert, dataId);
    var ps := PersistStage(s, rs.0.value, rep.insert, dataId);
    var e := a.effects + rs.1 + ps.1;
    assert e[|e| - 1] == ps.1[|ps.1| - 1] && e[|e| - 2] == ps.1[|ps.1| - 2];
  }

  // ---------------------------------------------------------------------------
  // Failures
  // ---------------------------------------------------------------------------

  /** The process exits exactly when the `try` body raised something other
      than a `ConnectionError`; then `sys.exit(1)` is the last effect and the
      only one, since neither `get_sid` nor the rest of the body exits. */
  lemma ErrorPolicy(l: Login, cfg: Config, s: Settings, sid: Option<string>, dataId: Option<int>,
                    rep: Replies)
    requires OnlyTransport(l.effects)
    ensures var t := TryBody(l, cfg, s, sid, dataId, rep);
      var r := IterateWith(l, cfg, s, sid, dataId, rep);
      && r.sid == t.sid && r.dataId == t.dataId
      && (r.exited <==> t.raised.Some? && !IsConnectionError(t.raised.value))
      && (r.exited <==> !NoExit(r.effects))
      && (r.exited ==> r.effects == t.effects + [Exit(1)] && NoExit(t.effects))
      && (t.raised.Some? && IsConnectionError(t.raised.value) ==>
            r.effects == t.effects + [Sleep(CONNECTION_PAUSE)])
  {
    TryBodyNoExit(l, cfg, s, sid, dataId, rep);
    ExceptPolicy(TryBody(l, cfg, s, sid, dataId, rep));
  }

  /** Neither `get_sid` nor the rest of the `try` body exits. */
  lemma TryBodyNoExit(l: Login, cfg: Config, s: Settings, sid: Option<string>, dataId: Option<int>,
                      rep: Replies)
    requires OnlyTransport(l.effects)
    ensures NoExit(TryBody(l, cfg, s, sid, dataId, rep).effects)
  {
    SessionStageKinds(l, cfg, sid, dataId, rep);
    TryBodyKinds(l, cfg, s, sid, dataId, rep);
  }

  /** A `ConnectionError` while reading keeps the session for the next
      iteration and costs a ten-second pause instead of a login. */
  lemma ReadConnectionErrorKeepsSession(l: Login, cfg: Config, s: Settings, sid: Option<string>,
                                        dataId: Option<int>, rep: Replies)
    requires sid.Some? && ProbeValid(rep.probe) == Ok(true)
    requires rep.power == TextFailed(ConnectionError)
    ensures IterateWith(l, cfg, s, sid, dataId, rep) ==
      StepResult(sid, dataId, [ProbeRequest(cfg.url, sid), ReadRequest(cfg, sid, POWER_CMD),
                               Sleep(CONNECTION_PAUSE)], false)
  {
    TryBodyStages(l, cfg, s, sid, dataId, rep);
  }

  /** The real iteration: `get_sid` only makes requests and waits, so the
      `except` clauses behave as `ErrorPolicy` says. */
  lemma IterationExitsLast(h: HashSuite, cfg: Config, s: Settings, sid: Option<string>, dataId: Option<int>,
                           rep: Replies)
    ensures var r := Iterate(h, cfg, s, sid, dataId, rep);
      && (r.exited <==> !NoExit(r.effects))
      && (r.exited ==> |r.effects| >= 1 && r.effects[|r.effects| - 1] == Exit(1)
                       && NoExit(r.effects[..|r.effects| - 1]))
  {
    var l := LoginOf(h, cfg, rep);
    GetSidOnlyTransport(h, cfg.url, cfg.user, cfg.password, rep.state, rep.login);
    ErrorPolicy(l, cfg, s, sid, dataId, rep);
    var t := TryBody(l, cfg, s, sid, dataId, rep);
    var r := IterateWith(l, cfg, s, sid, dataId, rep);
    if r.exited {
      assert r.effects[..|r.effects| - 1] == t.effects;
    }
  }

  // ---------------------------------------------------------------------------
  // The loop
  // ---------------------------------------------------------------------------

  /** A trace whose exit, if any, is its last effect and its only one, present
      exactly when `exited` holds. */
  predicate ExitShape(exited: bool, effects: seq<Effect>)
  {
    && (exited <==> !NoExit(effects))
    && (exited ==> |effects| >= 1 && effects[|effects| - 1] == Exit(1)
                   && NoExit(effects[..|effects| - 1]))
  }

  /** An iteration result whose exit, if any, is its last effect and its
      only one, present exactly when the iteration exited. */
  predicate ExitsLast(r: StepResult)
  {
    ExitShape(r.exited, r.effects)
  }

  /** Effects without an exit, in front of a trace of that shape, keep the
      shape. */
  lemma ExitShapeAppend(a: seq<Effect>, b: seq<Effect>, exited: bool)
    requires NoExit(a) && ExitShape(exited, b)
    ensures ExitShape(exited, a + b)
  {
    KindsAppend(a, b);
    if exited {
      DropLastAppend(a, b);
      KindsAppend(a, b[..|b| - 1]);
    }
  }

  /** Every iteration `step` performs exits only last. */
  ghost predicate AlwaysExitsLast(step: StepFn)
  {
    forall sid: Option<string>, dataId: Option<int>, rep: Replies :: ExitsLast(step(sid, dataId, rep))
  }

  /** Every iteration `step` performs stores nothing and keeps the row id. */
  ghost predicate NeverStores(step: StepFn)
  {
    forall sid: Option<string>, dataId: Option<int>, rep: Replies ::
      NoInsert(step(sid, dataId, rep).effects) && step(sid, dataId, rep).dataId == dataId
  }

  /** The iterations of `run` exit only last. */
  lemma IterationsExitLast(h: HashSuite, cfg: Config, s: Settings)
    ensures AlwaysExitsLast(IterationOf(h, cfg, s))
  {
    forall sid: Option<string>, dataId: Option<int>, rep: Replies
      ensures ExitsLast(IterationOf(h, cfg, s)(sid, dataId, rep))
    {
      IterationExitsLast(h, cfg, s, sid, dataId, rep);
    }
  }

  /** With `to_postgresql` unset, the iterations of `run` store nothing. */
  lemma IterationsNeverStore(h: HashSuite, cfg: Config, s: Settings)
    requires !s.toPostgresql
    ensures NeverStores(IterationOf(h, cfg, s))
  {
    forall sid: Option<string>, dataId: Option<int>, rep: Replies
      ensures NoInsert(IterationOf(h, cfg, s)(sid, dataId, rep).effects)
      ensures IterationOf(h, cfg, s)(sid, dataId, rep).dataId == dataId
    {
      GetSidOnlyTransport(h, cfg.url, cfg.user, cfg.password, rep.state, rep.login);
      InsertOnlyWhenStoring(LoginOf(h, cfg, rep), cfg, s, sid, dataId, rep);
    }
  }

  lemma DropLastAppend(a: seq<Effect>, b: seq<Effect>)
    requires |b| >= 1
    ensures (a + b)[..|a + b| - 1] == a + b[..|b| - 1]
    ensures (a + b)[|a + b| - 1] == b[|b| - 1]
  {
  }

  /** A loop whose iterations exit only last ends in `sys.exit(1)` exactly
      when an exit is among its effects, and then the exit is the last effect
      and the only one. */
  lemma {:induction false} RunExitsLast(step: StepFn, sid: Option<string>, dataId: Option<int>,
                                        script: seq<Cycle>)
    requires AlwaysExitsLast(step)
    ensures var r := RunSpec(step, sid, dataId, script);
      ExitShape(r.end.Exited?, r.effects) && (r.end.Exited? ==> r.end.status == 1)
    decreases |script|
  {
    if script != [] && script[0].Iteration? {
      var i := step(sid, dataId, script[0].replies);
      assert ExitsLast(i);
      if !i.exited {
        var rest := RunSpec(step, i.sid, i.dataId, script[1..]);
        RunExitsLast(step, i.sid, i.dataId, script[1..]);
        ExitShapeAppend(i.effects, rest.effects, rest.end.Exited?);
      }
    }
  }

  /** A loop whose iterations store nothing stores nothing and keeps the row
      id. */
  lemma {:induction false} RunWithoutStoring(step: StepFn, sid: Option<string>, dataId: Option<int>,
                                             script: seq<Cycle>)
    requires NeverStores(step)
    ensures var r := RunSpec(step, sid, dataId, script);
      NoInsert(r.effects) && r.dataId == dataId
    decreases |script|
  {
    if script != [] && script[0].Iteration? {
      var i := step(sid, dataId, script[0].replies);
      if !i.exited {
        RunWithoutStoring(step, i.sid, i.dataId, script[1..]);
        var rest := RunSpec(step, i.sid, i.dataId, script[1..]);
        KindsAppend(i.effects, rest.effects);
      }
    }
  }

  /** `run` itself: it exits only last, and with `to_postgresql` unset it
      stores nothing and keeps the row id. */
  lemma RunOfIterations(h: HashSuite, cfg: Config, s: Settings, sid: Option<string>, dataId: Option<int>,
                        script: seq<Cycle>)
    ensures var r := RunSpec(IterationOf(h, cfg, s), sid, dataId, script);
      && (r.end.Exited? <==> !NoExit(r.effects))
      && (r.end.Exited? ==> r.effects[|r.effects| - 1] == Exit(1) && NoExit(r.effects[..|r.effects| - 1]))
      && (!s.toPostgresql ==> NoInsert(r.effects) && r.dataId == dataId)
  {
    IterationsExitLast(h, cfg, s);
    RunExitsLast(IterationOf(h, cfg, s), sid, dataId, script);
    if !s.toPostgresql {
      IterationsNeverStore(h, cfg, s);
      RunWithoutStoring(IterationOf(h, cfg, s), sid, dataId, script);
    }
  }
}
