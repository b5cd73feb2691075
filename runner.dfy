/**
 * `DectToPostgres` as the object `run` drives: the session id and the id of
 * the last stored row are fields that each iteration overwrites, and every
 * effect is appended to `trace`. Each method is proved to leave the fields
 * and the trace exactly as the functions of module `Polling` say.
 */
module Runner {
  import opened Wrappers
  import opened Exceptions
  import opened ChallengeCodec
  import opened Trace
  import opened Session
  import opened Polling

  class Poller {
    var sid: Option<string>
    var dataId: Option<int>
    var printConsole: bool
    var toPostgresql: bool
    const BACKOFF_INTERVAL: int := 30
    var trace: seq<Effect>

    /** No session and no stored row yet; readings are printed, not stored. */
    constructor ()
      ensures sid == None && dataId == None
      ensures printConsole && !toPostgresql
      ensures trace == []
    {
      sid := None;
      dataId := None;
      printConsole := true;
      toPostgresql := false;
      trace := [];
    }

    /** `int(retrieve_data(url, self.sid, cmd, ain=ain))`. */
    method Read(cfg: Config, cmd: string, reply: TextReply) returns (value: Result<int, Exc>)
      modifies this
      ensures trace == old(trace) + [ReadRequest(cfg, sid, cmd)]
      ensures value == ReadValue(reply)
      ensures sid == old(sid) && dataId == old(dataId)
      ensures printConsole == old(printConsole) && toPostgresql == old(toPostgresql)
    {
      trace := trace + [ReadRequest(cfg, sid, cmd)];
      match reply {
        case TextFailed(cls) =>
          value := Err(Builtin(cls));
        case Text(body) =>
          var n := PyStr.ParseInt(body);
          if n.None? {
            value := Err(Builtin(ValueError));
          } else {
            value := Ok(n.value);
          }
      }
    }

    /** `self.validate_sid(url, self.sid)` on a stored session: the probe
        request, then whether the session must be renewed. */
    method Probe(cfg: Config, rep: Replies) returns (raised: Option<Exc>, needLogin: bool)
      requires sid.Some?
      modifies this
      ensures trace == old(trace) + [ProbeRequest(cfg.url, sid)]
      ensures raised.Some? <==> ProbeValid(rep.probe).Err?
      ensures raised.Some? ==> raised.value == ProbeValid(rep.probe).error
      ensures raised.None? ==> (needLogin <==> !ProbeValid(rep.probe).value)
      ensures sid == old(sid) && dataId == old(dataId)
      ensures printConsole == old(printConsole) && toPostgresql == old(toPostgresql)
    {
      trace := trace + [ProbeRequest(cfg.url, sid)];
      needLogin := false;
      var valid := ProbeValid(rep.probe);
      if valid.Err? {
        return Some(valid.error), needLogin;
      }
      raised := None;
      needLogin := !valid.value;
    }

    /** `self.sid = self.get_sid(url, username, password)`; `login` is the
        call, made only here. */
    method LogIn(login: Replies -> Login, rep: Replies) returns (raised: Option<Exc>)
      modifies this
      ensures var a := LoginStage(login(rep), old(sid), old(dataId), []);
        sid == a.sid && dataId == a.dataId && trace == old(trace) + a.effects && raised == a.raised
      ensures printConsole == old(printConsole) && toPostgresql == old(toPostgresql)
    {
      var l := login(rep);
      trace := trace + l.effects;
      if l.outcome.Err? {
        return Some(l.outcome.error);
      }
      sid := l.outcome.value;
      raised := None;
    }

    /** The session part of the `try` body: probe the stored session, and log
        in again when there is none or the probe says it is invalid. */
    method EnsureSession(login: Replies -> Login, cfg: Config, rep: Replies) returns (raised: Option<Exc>)
      modifies this
      ensures var a := SessionStage(login(rep), cfg, old(sid), old(dataId), rep);
        sid == a.sid && dataId == a.dataId && trace == old(trace) + a.effects && raised == a.raised
      ensures printConsole == old(printConsole) && toPostgresql == old(toPostgresql)
    {
      SessionStageCases(login(rep), cfg, sid, dataId, rep);
      if sid.None? {
        raised := LogIn(login, rep);
        return;
      }
      var needLogin;
      raised, needLogin := Probe(cfg, rep);
      if raised.None? && needLogin {
        raised := LogIn(login, rep);
      }
    }

    /** The three reads of an iteration, power, energy and temperature, each
        with the session id as it stands, stopping at the first failure. */
    method ReadAll(cfg: Config, rep: Replies) returns (reading: Result<Reading, Exc>)
      modifies this
      ensures reading == ReadStage(cfg, sid, rep).0
      ensures trace == old(trace) + ReadStage(cfg, sid, rep).1
      ensures sid == old(sid) && dataId == old(dataId)
      ensures printConsole == old(printConsole) && toPostgresql == old(toPostgresql)
    {
      ReadStageCases(cfg, sid, rep);
      ghost var t0 := trace;
      ghost var r1 := [ReadRequest(cfg, sid, POWER_CMD)];
      ghost var r2 := [ReadRequest(cfg, sid, ENERGY_CMD)];
      ghost var r3 := [ReadRequest(cfg, sid, TEMPERATURE_CMD)];
      var power := Read(cfg, POWER_CMD, rep.power);
      if power.Err? {
        return Err(power.error);
      }
      var energy := Read(cfg, ENERGY_CMD, rep.energy);
      SeqAssoc(t0, r1, r2);
      if energy.Err? {
        return Err(energy.error);
      }
      var temperature := Read(cfg, TEMPERATURE_CMD, rep.temperature);
      SeqAssoc(t0, r1 + r2, r3);
      if temperature.Err? {
        return Err(temperature.error);
      }
      reading := Ok(Convert(power.value, energy.value, temperature.value));
    }

    /** Print the reading, and store it when `to_postgresql` is set, keeping
        what `insert_dect_210` returned as the row id. */
    method Persist(reading: Reading, insert: Option<int>)
      modifies this
      ensures var p := PersistStage(Settings(old(printConsole), old(toPostgresql), BACKOFF_INTERVAL), reading, insert, old(dataId));
        dataId == p.0 && trace == old(trace) + p.1
      ensures sid == old(sid)
      ensures printConsole == old(printConsole) && toPostgresql == old(toPostgresql)
    {
      if printConsole {
        trace := trace + [Show(reading)];
      }
      if toPostgresql {
        trace := trace + [Insert(reading)];
        dataId := insert;
        trace := trace + [Sleep(BACKOFF_INTERVAL)];
      }
    }

    /** The reads, then showing and storing, with the session id as it
        stands. */
    method Measure(cfg: Config, rep: Replies) returns (raised: Option<Exc>)
      modifies this
      ensures var m := MeasureStage(cfg, Settings(old(printConsole), old(toPostgresql), BACKOFF_INTERVAL),
                                    old(sid), old(dataId), rep);
        sid == m.sid && dataId == m.dataId && trace == old(trace) + m.effects && raised == m.raised
      ensures printConsole == old(printConsole) && toPostgresql == old(toPostgresql)
    {
      ghost var t0 := trace;
      ghost var rs := ReadStage(cfg, sid, rep);
      var reading := ReadAll(cfg, rep);
      if reading.Err? {
        return Some(reading.error);
      }
      ghost var ps := PersistStage(Settings(printConsole, toPostgresql, BACKOFF_INTERVAL), reading.value, rep.insert, dataId);
      Persist(reading.value, rep.insert);
      raised := None;
      SeqAssoc(t0, rs.1, ps.1);
    }

    /** The `try` body of one iteration. */
    method TryIteration(login: Replies -> Login, cfg: Config, rep: Replies) returns (raised: Option<Exc>)
      modifies this
      ensures var a := TryBody(login(rep), cfg, Settings(old(printConsole), old(toPostgresql), BACKOFF_INTERVAL), old(sid), old(dataId), rep);
        sid == a.sid && dataId == a.dataId && trace == old(trace) + a.effects && raised == a.raised
      ensures printConsole == old(printConsole) && toPostgresql == old(toPostgresql)
    {
      ghost var t0 := trace;
      TryBodyStages(login(rep), cfg, Settings(printConsole, toPostgresql, BACKOFF_INTERVAL), sid, dataId, rep);
      ghost var a := SessionStage(login(rep), cfg, sid, dataId, rep);
      raised := EnsureSession(login, cfg, rep);
      if raised.Some? {
        return;
      }
      ghost var m := MeasureStage(cfg, Settings(printConsole, toPostgresql, BACKOFF_INTERVAL), sid, dataId, rep);
      raised := Measure(cfg, rep);
      SeqAssoc(t0, a.effects, m.effects);
    }

    /** One iteration of the `while True` loop, with its `except` clauses;
        `exited` is true when it ended in `sys.exit(1)`. */
    method Step(step: StepFn, login: Replies -> Login, cfg: Config, rep: Replies) returns (exited: bool)
      requires Iterates(step, login, cfg, Settings(printConsole, toPostgresql, BACKOFF_INTERVAL))
      modifies this
      ensures var r := step(old(sid), old(dataId), rep);
        sid == r.sid && dataId == r.dataId && trace == old(trace) + r.effects && exited == r.exited
      ensures printConsole == old(printConsole) && toPostgresql == old(toPostgresql)
    {
      ghost var s := Settings(printConsole, toPostgresql, BACKOFF_INTERVAL);
      assert step(sid, dataId, rep) == IterateWith(login(rep), cfg, s, sid, dataId, rep);
      var raised := TryIteration(login, cfg, rep);
      exited := false;
      if raised.Some? {
        if IsConnectionError(raised.value) {
          trace := trace + [Sleep(CONNECTION_PAUSE)];
        } else {
          trace := trace + [Exit(1)];
          exited := true;
        }
      }
    }

    /** The `while True` loop over the scripted cycles. */
    method Loop(step: StepFn, login: Replies -> Login, cfg: Config, script: seq<Cycle>) returns (end: RunEnd)
      requires Iterates(step, login, cfg, Settings(printConsole, toPostgresql, BACKOFF_INTERVAL))
      modifies this
      ensures var r := RunSpec(step, old(sid), old(dataId), script);
        sid == r.sid && dataId == r.dataId && trace == old(trace) + r.effects && end == r.end
      ensures printConsole == old(printConsole) && toPostgresql == old(toPostgresql)
    {
      ghost var s := Settings(printConsole, toPostgresql, BACKOFF_INTERVAL);
      ghost var t0 := trace;
      ghost var done: seq<Effect> := [];
      var i := 0;
      while i < |script|
        invariant 0 <= i <= |script|
        invariant Settings(printConsole, toPostgresql, BACKOFF_INTERVAL) == s
        invariant trace == t0 + done
        invariant var r := RunSpec(step, sid, dataId, script[i..]);
          RunSpec(step, old(sid), old(dataId), script) == RunResult(r.sid, r.dataId, done + r.effects, r.end)
      {
        match script[i] {
          case Interrupt =>
            assert script[i..][0] == script[i];
            return Stopped;
          case Iteration(rep) =>
            RunSpecAt(step, sid, dataId, script, i);
            ghost var r := step(sid, dataId, rep);
            var exited := Step(step, login, cfg, rep);
            SeqAssoc(t0, done, r.effects);
            if exited {
              return Exited(1);
            }
            ghost var rest := RunSpec(step, sid, dataId, script[i + 1..]);
            SeqAssoc(done, r.effects, rest.effects);
            done := done + r.effects;
        }
        i := i + 1;
      }
      assert script[i..] == [];
      end := ScriptExhausted;
    }

    /** `run`: iterate until a `KeyboardInterrupt` or an exit, or until the
        scripted cycles run out, logging in with `get_sid` when needed. */
    method Run(h: HashSuite, cfg: Config, script: seq<Cycle>) returns (end: RunEnd)
      modifies this
      ensures var r := RunSpec(IterationOf(h, cfg, Settings(old(printConsole), old(toPostgresql), BACKOFF_INTERVAL)),
                               old(sid), old(dataId), script);
        sid == r.sid && dataId == r.dataId && trace == old(trace) + r.effects && end == r.end
      ensures printConsole == old(printConsole) && toPostgresql == old(toPostgresql)
    {
      var s := Settings(printConsole, toPostgresql, BACKOFF_INTERVAL);
      end := Loop(IterationOf(h, cfg, s), LoginsOf(h, cfg), cfg, script);
    }
  }
}
