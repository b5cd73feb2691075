/**
 * One pass of the polling loop of `DectToPostgres.run`, and the loop itself,
 * as functions of the replies the gateway, the smart plug and the database
 * give: make sure there is a session (probe it, log in again when there is
 * none or the probe says it is invalid), read power, energy and temperature,
 * show and store the reading, and route a failure to a pause (a
 * `ConnectionError`) or to `sys.exit(1)` (anything else).
 *
 * The `Poller` class in module `Runner` performs the same steps on its
 * fields; its methods are proved to agree with these functions.
 */
module Polling {
  import opened Wrappers
  import opened Exceptions
  import opened PyStr
  import opened ChallengeCodec
  import opened Trace
  import opened Session
  import opened UrlEncode

  const POWER_CMD: string := "getswitchpower"       // milliwatts, "inval" when unknown
  const ENERGY_CMD: string := "getswitchenergy"     // watt-hours since first use, "inval" when unknown
  const TEMPERATURE_CMD: string := "gettemperature" // tenths of a degree Celsius, may be negative

  /** The pause after a `ConnectionError`, in seconds. */
  const CONNECTION_PAUSE: int := 10

  /** What `run` reads from the DECT 210 section of the configuration. */
  datatype Config = Config(url: string, user: string, password: string, ain: string)

  /** The attributes of the object that steer an iteration. */
  datatype Settings = Settings(printConsole: bool, toPostgresql: bool, backoff: int)

  /** Reply to a device request: the text of the response, or the class of the
      exception the transport raised. */
  datatype TextReply = TextFailed(cls: ExcClass) | Text(body: string)

  /** Everything the outside world answers during one iteration. A reply that
      the iteration does not reach is ignored. `insert` is what
      `insert_dect_210` returns: the id of the new row, or `None` when the
      database failed, since it catches and prints every exception itself. */
  datatype Replies = Replies(probe: ProbeReply, state: StateReply, login: SidReply,
                             power: TextReply, energy: TextReply, temperature: TextReply,
                             insert: Option<int>)

  /** One turn of the `while True` loop, or a `KeyboardInterrupt` before it. */
  datatype Cycle = Interrupt | Iteration(replies: Replies)

  /** The state and the effects of the `try` body of one iteration, and the
      exception it raised, if any. */
  datatype Attempt = Attempt(sid: Option<string>, dataId: Option<int>, effects: seq<Effect>,
                             raised: Option<Exc>)

  /** One whole iteration: the new state, the effects and whether the process
      exited. */
  datatype StepResult = StepResult(sid: Option<string>, dataId: Option<int>, effects: seq<Effect>,
                                   exited: bool)

  // ---------------------------------------------------------------------------
  // One iteration
  // ---------------------------------------------------------------------------

  /** The request for one reading, `retrieve_data(url, self.sid, cmd,
      ain=ain)`, with the session id as it stands; `ReadRequestIsRetrieve`
      shows it is the request `retrieve_data` builds with no extra keywords. */
  function ReadRequest(cfg: Config, sid: Option<string>, cmd: string): (r: Effect)
    ensures r.HttpGet? && r.url == SwitchUrl(cfg.url)
  {
    HttpGet(SwitchUrl(cfg.url), DropNone([("ain", Some(cfg.ain)), ("switchcmd", Some(cmd)), ("sid", sid)]))
  }

  lemma ReadRequestIsRetrieve(cfg: Config, sid: Option<string>, cmd: string)
    ensures ReadRequest(cfg, sid, cmd) == RetrieveRequest(cfg.url, sid, cmd, Some(cfg.ain), [])
  {
  }

  /** `int(retrieve_data(...))`: a transport failure passes through, a text
      that is not a decimal integer (such as `inval`) raises `ValueError`. */
  function ReadValue(reply: TextReply): (r: Result<int, Exc>)
    ensures r.Ok? <==> reply.Text? && ParseInt(reply.body).Some?
    ensures r.Ok? ==> r.value == ParseInt(reply.body).value
    ensures reply.Text? && ParseInt(reply.body).None? ==> r == Err(Builtin(ValueError))
    ensures reply.TextFailed? ==> r == Err(Builtin(reply.cls))
  {
    match reply
    case TextFailed(cls) => Err(Builtin(cls))
    case Text(body) =>
      match ParseInt(body)
      case None => Err(Builtin(ValueError))
      case Some(n) => Ok(n)
  }

  /** Milliwatts to watts, tenths of a degree to degrees; watt-hours stay. */
  function Convert(milliwatts: int, wattHours: int, tenths: int): (r: Reading)
    ensures r.power * 1000.0 == milliwatts as real
    ensures r.energy == wattHours
    ensures r.temperature * 10.0 == tenths as real
  {
    Reading(milliwatts as real / 1000.0, wattHours, tenths as real / 10.0)
  }

  /** What `self.get_sid(url, username, password)` gives in an iteration. */
  function LoginOf(h: HashSuite, cfg: Config, rep: Replies): Login
  {
    GetSid(h, cfg.url, cfg.user, cfg.password, rep.state, rep.login)
  }

  /** `get_sid` as a function of the replies of an iteration. */
  function LoginsOf(h: HashSuite, cfg: Config): Replies -> Login
  {
    rep => LoginOf(h, cfg, rep)
  }

  /** The login of an iteration: `self.sid = self.get_sid(...)`, after the
      effects `pre` of the probe. */
  function LoginStage(l: Login, sid: Option<string>, dataId: Option<int>, pre: seq<Effect>): (a: Attempt)
    ensures a.dataId == dataId
  {
    match l.outcome
    case Err(e) => Attempt(sid, dataId, pre + l.effects, Some(e))
    case Ok(newSid) => Attempt(newSid, dataId, pre + l.effects, None)
  }

  /** `if not self.validate_sid(url, self.sid): self.sid = self.get_sid(...)`;
      with no session yet there is nothing to probe and the iteration logs in. */
  function SessionStage(l: Login, cfg: Config, sid: Option<string>, dataId: Option<int>,
                        rep: Replies): (a: Attempt)
    ensures a.dataId == dataId
  {
    if sid.None? then LoginStage(l, sid, dataId, [])
    else
      var probe := [ProbeRequest(cfg.url, sid)];
      match ProbeValid(rep.probe)
      case Err(e) => Attempt(sid, dataId, probe, Some(e))
      case Ok(valid) =>
        if valid then Attempt(sid, dataId, probe, None)
        else LoginStage(l, sid, dataId, probe)
  }

  /** The four ways the session part of an iteration can go: no session (log
      in), a failed probe, a valid session (keep it), an invalid one (log in
      after the probe). */
  lemma SessionStageCases(l: Login, cfg: Config, sid: Option<string>, dataId: Option<int>, rep: Replies)
    ensures var a := SessionStage(l, cfg, sid, dataId, rep);
      var la := LoginStage(l, sid, dataId, []);
      var probe := [ProbeRequest(cfg.url, sid)];
      && (sid.None? ==> a == la)
      && (sid.Some? && ProbeValid(rep.probe).Err? ==>
            a == Attempt(sid, dataId, probe, Some(ProbeValid(rep.probe).error)))
      && (sid.Some? && ProbeValid(rep.probe) == Ok(true) ==> a == Attempt(sid, dataId, probe, None))
      && (sid.Some? && ProbeValid(rep.probe) == Ok(false) ==>
            a == Attempt(la.sid, la.dataId, probe + la.effects, la.raised))
  {
  }

  /** The three reads, in order, each stopping the iteration when it fails:
      the requests made are a prefix of power, energy, temperature, and the
      reading is there exactly when all three replies are integers. */
  function ReadStage(cfg: Config, sid: Option<string>, rep: Replies): (r: (Result<Reading, Exc>, seq<Effect>))
    ensures 1 <= |r.1| <= 3 && r.1[0] == ReadRequest(cfg, sid, POWER_CMD)
    ensures |r.1| >= 2 ==> r.1[1] == ReadRequest(cfg, sid, ENERGY_CMD)
    ensures |r.1| == 3 ==> r.1[2] == ReadRequest(cfg, sid, TEMPERATURE_CMD)
    ensures r.0.Ok? <==> ReadValue(rep.power).Ok? && ReadValue(rep.energy).Ok? && ReadValue(rep.temperature).Ok?
    ensures r.0.Ok? ==> |r.1| == 3
  {
    var r1 := [ReadRequest(cfg, sid, POWER_CMD)];
    match ReadValue(rep.power)
    case Err(e) => (Err(e), r1)
    case Ok(p) =>
      var r2 := r1 + [ReadRequest(cfg, sid, ENERGY_CMD)];
      match ReadValue(rep.energy)
      case Err(e) => (Err(e), r2)
      case Ok(w) =>
        var r3 := r2 + [ReadRequest(cfg, sid, TEMPERATURE_CMD)];
        match ReadValue(rep.temperature)
        case Err(e) => (Err(e), r3)
        case Ok(t) => (Ok(Convert(p, w, t)), r3)
  }

  /** `ReadStage` by the outcome of each read, in order. */
  lemma ReadStageCases(cfg: Config, sid: Option<string>, rep: Replies)
    ensures var r1 := [ReadRequest(cfg, sid, POWER_CMD)];
      var r2 := r1 + [ReadRequest(cfg, sid, ENERGY_CMD)];
      var r3 := r2 + [ReadRequest(cfg, sid, TEMPERATURE_CMD)];
      var p, w, t := ReadValue(rep.power), ReadValue(rep.energy), ReadValue(rep.temperature);
      ReadStage(cfg, sid, rep) ==
        if p.Err? then (Err(p.error), r1)
        else if w.Err? then (Err(w.error), r2)
        else if t.Err? then (Err(t.error), r3)
        else (Ok(Convert(p.value, w.value, t.value)), r3)
  {
  }

  /** Print the reading when `print_console` is set; when `to_postgresql` is
      set, insert it, keep what the insert returned as the row id (`None`
      after a database failure) and pause `BACKOFF_INTERVAL` seconds. Nothing
      here raises. */
  function PersistStage(s: Settings, reading: Reading, insert: Option<int>, dataId: Option<int>)
    : (r: (Option<int>, seq<Effect>))
    ensures Insert(reading) in r.1 <==> s.toPostgresql
    ensures r.0 != dataId ==> s.toPostgresql && r.0 == insert
  {
    var show := if s.printConsole then [Show(reading)] else [];
    if !s.toPostgresql then (dataId, show)
    else (insert, show + [Insert(reading), Sleep(s.backoff)])
  }

  /** The part of the `try` body after the session part: the three reads with
      the session id `sid`, then showing and storing. The effects are those of
      this part alone. It keeps the session id, and it raises exactly when a
      read fails, then keeping the row id. */
  function MeasureStage(cfg: Config, s: Settings, sid: Option<string>, dataId: Option<int>,
                        rep: Replies): (m: Attempt)
    ensures m.sid == sid
    ensures m.raised.Some? <==> ReadStage(cfg, sid, rep).0.Err?
    ensures m.raised.Some? ==> m.dataId == dataId
  {
    var (reading, readEffects) := ReadStage(cfg, sid, rep);
    match reading
    case Err(e) => Attempt(sid, dataId, readEffects, Some(e))
    case Ok(rd) =>
      var (newId, persist) := PersistStage(s, rd, rep.insert, dataId);
      Attempt(sid, newId, readEffects + persist, None)
  }

  /** The `try` body of one iteration: the session part's effects come
      first, and only the session part sets the session id. */
  function TryBody(l: Login, cfg: Config, s: Settings, sid: Option<string>, dataId: Option<int>,
                   rep: Replies): (t: Attempt)
    ensures var a := SessionStage(l, cfg, sid, dataId, rep);
      t.sid == a.sid && a.effects <= t.effects
  {
    var a := SessionStage(l, cfg, sid, dataId, rep);
    if a.raised.Some? then a
    else
      var m := MeasureStage(cfg, s, a.sid, dataId, rep);
      Attempt(m.sid, m.dataId, a.effects + m.effects, m.raised)
  }

  /** `TryBody` in terms of its three stages. */
  lemma TryBodyStages(l: Login, cfg: Config, s: Settings, sid: Option<string>, dataId: Option<int>, rep: Replies)
    ensures var a := SessionStage(l, cfg, sid, dataId, rep);
      a.raised.Some? ==> TryBody(l, cfg, s, sid, dataId, rep) == a
    ensures var a := SessionStage(l, cfg, sid, dataId, rep);
      var m := MeasureStage(cfg, s, a.sid, dataId, rep);
      a.raised.None? ==> TryBody(l, cfg, s, sid, dataId, rep) == Attempt(m.sid, m.dataId, a.effects + m.effects, m.raised)
    ensures var a := SessionStage(l, cfg, sid, dataId, rep);
      var rs := ReadStage(cfg, a.sid, rep);
      a.raised.None? && rs.0.Err? ==>
        TryBody(l, cfg, s, sid, dataId, rep) == Attempt(a.sid, dataId, a.effects + rs.1, Some(rs.0.error))
    ensures var a := SessionStage(l, cfg, sid, dataId, rep);
      var rs := ReadStage(cfg, a.sid, rep);
      a.raised.None? && rs.0.Ok? ==>
        var ps := PersistStage(s, rs.0.value, rep.insert, dataId);
        TryBody(l, cfg, s, sid, dataId, rep) == Attempt(a.sid, ps.0, a.effects + rs.1 + ps.1, None)
  {
    var a := SessionStage(l, cfg, sid, dataId, rep);
    if a.raised.None? {
      MeasureStageCases(cfg, s, a.sid, dataId, rep);
      var rs := ReadStage(cfg, a.sid, rep);
      if rs.0.Ok? {
        var ps := PersistStage(s, rs.0.value, rep.insert, dataId);
        SeqAssoc(a.effects, rs.1, ps.1);
      }
    }
  }

  /** `MeasureStage` by the outcome of the reads. */
  lemma MeasureStageCases(cfg: Config, s: Settings, sid: Option<string>, dataId: Option<int>, rep: Replies)
    ensures var rs := ReadStage(cfg, sid, rep);
      rs.0.Err? ==> MeasureStage(cfg, s, sid, dataId, rep) == Attempt(sid, dataId, rs.1, Some(rs.0.error))
    ensures var rs := ReadStage(cfg, sid, rep);
      rs.0.Ok? ==>
        var ps := PersistStage(s, rs.0.value, rep.insert, dataId);
        MeasureStage(cfg, s, sid, dataId, rep) == Attempt(sid, ps.0, rs.1 + ps.1, None)
  {
  }

  /** The `except` clauses: a `ConnectionError` pauses ten seconds and the loop
      goes on; any other exception ends the process with status 1. */
  function Iterate(h: HashSuite, cfg: Config, s: Settings, sid: Option<string>, dataId: Option<int>,
                   rep: Replies): (r: StepResult)
    ensures r.sid == SessionStage(LoginOf(h, cfg, rep), cfg, sid, dataId, rep).sid
    ensures r.exited ==> |r.effects| >= 1 && r.effects[|r.effects| - 1] == Exit(1)
  {
    IterateWith(LoginOf(h, cfg, rep), cfg, s, sid, dataId, rep)
  }

  /** `Iterate` for a given outcome of `get_sid`: an iteration that exits
      ends with `sys.exit(1)`. */
  function IterateWith(l: Login, cfg: Config, s: Settings, sid: Option<string>, dataId: Option<int>,
                       rep: Replies): (r: StepResult)
    ensures r.exited ==> |r.effects| >= 1 && r.effects[|r.effects| - 1] == Exit(1)
  {
    Except(TryBody(l, cfg, s, sid, dataId, rep))
  }

  /** The `except` clauses after the `try` body `a`: they keep the state,
      add at most one effect, and exit exactly when `a` raised something other
      than a `ConnectionError`. */
  function Except(a: Attempt): (r: StepResult)
    ensures r.sid == a.sid && r.dataId == a.dataId
    ensures r.exited <==> a.raised.Some? && !IsConnectionError(a.raised.value)
    ensures a.effects <= r.effects && |r.effects| <= |a.effects| + 1
  {
    match a.raised
    case None => StepResult(a.sid, a.dataId, a.effects, false)
    case Some(e) =>
      if IsConnectionError(e) then StepResult(a.sid, a.dataId, a.effects + [Sleep(CONNECTION_PAUSE)], false)
      else StepResult(a.sid, a.dataId, a.effects + [Exit(1)], true)
  }

  // ---------------------------------------------------------------------------
  // The loop
  // ---------------------------------------------------------------------------

  /** How `run` ended: a `KeyboardInterrupt`, `sys.exit`, or the scripted
      cycles ran out while the loop would still go on. */
  datatype RunEnd = Stopped | Exited(status: int) | ScriptExhausted

  datatype RunResult = RunResult(sid: Option<string>, dataId: Option<int>, effects: seq<Effect>, end: RunEnd)

  /** One iteration as a function of the state and the replies. */
  type StepFn = (Option<string>, Option<int>, Replies) -> StepResult

  /** `Iterate` with the hash primitives, configuration and settings fixed. */
  function IterationOf(h: HashSuite, cfg: Config, s: Settings): StepFn
  {
    (sid: Option<string>, dataId: Option<int>, rep: Replies) => Iterate(h, cfg, s, sid, dataId, rep)
  }

  /** `step` performs the iterations `IterateWith` describes for the outcomes
      of `get_sid` that `login` gives. */
  ghost predicate Iterates(step: StepFn, login: Replies -> Login, cfg: Config, s: Settings)
  {
    forall sid: Option<string>, dataId: Option<int>, rep: Replies
      {:trigger IterateWith(login(rep), cfg, s, sid, dataId, rep)} ::
      step(sid, dataId, rep) == IterateWith(login(rep), cfg, s, sid, dataId, rep)
  }

  /** `while True:` over the scripted cycles, from the given state, each
      iteration performed by `step`. The loop ends only by `sys.exit(1)`, by a
      `KeyboardInterrupt`, or when the script runs out, and it runs out only
      when no cycle is an interrupt. */
  function RunSpec(step: StepFn, sid: Option<string>, dataId: Option<int>, script: seq<Cycle>): (r: RunResult)
    ensures r.end.Exited? ==> r.end.status == 1
    ensures r.end.ScriptExhausted? ==> forall i :: 0 <= i < |script| ==> script[i].Iteration?
    decreases |script|
  {
    if script == [] then RunResult(sid, dataId, [], ScriptExhausted)
    else
      match script[0]
      case Interrupt => RunResult(sid, dataId, [], Stopped)
      case Iteration(rep) =>
        var r := step(sid, dataId, rep);
        if r.exited then RunResult(r.sid, r.dataId, r.effects, Exited(1))
        else
          var rest := RunSpec(step, r.sid, r.dataId, script[1..]);
          RunResult(rest.sid, rest.dataId, r.effects + rest.effects, rest.end)
  }

  /** `RunSpec` at position `i` of the script, one iteration unfolded. */
  lemma RunSpecAt(step: StepFn, sid: Option<string>, dataId: Option<int>, script: seq<Cycle>, i: nat)
    requires i < |script| && script[i].Iteration?
    ensures var r := step(sid, dataId, script[i].replies);
      var rest := RunSpec(step, r.sid, r.dataId, script[i + 1..]);
      RunSpec(step, sid, dataId, script[i..]) ==
        if r.exited then RunResult(r.sid, r.dataId, r.effects, Exited(1))
        else RunResult(rest.sid, rest.dataId, r.effects + rest.effects, rest.end)
  {
    assert script[i..][0] == script[i] && script[i..][1..] == script[i + 1..];
  }
}
