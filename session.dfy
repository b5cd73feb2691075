/**
 * The session client and the login flow: the routes, the login state read
 * from the gateway, the form body of the response, the `get_sid` sequence of
 * fetch, compute, wait and send, the `validate_sid` probe, and the parameters
 * of a device request.
 *
 * Every gateway round trip is an input: the already parsed XML fields of the
 * reply, or the class of the exception the transport raised.
 */
module Session {
  import opened Wrappers
  import opened Exceptions
  import opened PyStr
  import opened Hex
  import opened UrlEncode
  import opened ChallengeCodec
  import opened Trace

  const LOGIN_SID_ROUTE: string := "/login_sid.lua?version=2"
  const AUTOSWITCH_ROUTE: string := "/webservices/homeautoswitch.lua"

  /** The session id the gateway answers with when the login was refused. */
  const SENTINEL_SID: string := "0000000000000000"

  const FAILED_CHALLENGE: string := "failed to get challenge"
  const FAILED_LOGIN: string := "failed to login"
  const WRONG_CREDENTIALS: string := "wrong username or password"

  function LoginUrl(boxUrl: string): string
  {
    boxUrl + LOGIN_SID_ROUTE
  }

  function SwitchUrl(boxUrl: string): string
  {
    boxUrl + AUTOSWITCH_ROUTE
  }

  /** Reply to the unauthenticated GET of the login page: the text of the
      `Challenge` and `BlockTime` elements (`None` when an element is empty), or
      the class of the exception raised while fetching or parsing it (a missing
      element raises `AttributeError`). */
  datatype StateReply =
    | StateFailed(cls: ExcClass)
    | StateXml(challenge: Option<string>, blockTime: Option<string>)

  /** Reply to the POST of the response: the text of the `SID` element, or the
      class of the exception raised. */
  datatype SidReply =
    | SidFailed(cls: ExcClass)
    | SidXml(sid: Option<string>)

  /** `get_login_state` after the fetch: `int()` of the block time, then the
      `LoginState` constructor, which needs the challenge text. */
  function GetLoginState(reply: StateReply): (r: Result<LoginState, Exc>)
    ensures r.Ok? ==> reply.StateXml? && reply.challenge == Some(r.value.challenge)
  {
    match reply
    case StateFailed(cls) => Err(Builtin(cls))
    case StateXml(challenge, blockTime) =>
      match blockTime
      case None => Err(Builtin(TypeError))
      case Some(text) =>
        match ParseInt(text)
        case None => Err(Builtin(ValueError))
        case Some(blocktime) =>
          match challenge
          case None => Err(Builtin(AttributeError))
          case Some(c) => Ok(LoginState(c, blocktime))
  }

  /** The block time is the decimal integer written in `BlockTime`, white
      space around it allowed. */
  lemma GetLoginStateBlockTime(c: string, n: int, ws1: string, ws2: string)
    requires AllSpace(ws1) && AllSpace(ws2)
    ensures GetLoginState(StateXml(Some(c), Some(ws1 + ShowInt(n) + ws2))) == Ok(LoginState(c, n))
  {
    ParseShowInt(n, ws1, ws2);
  }

  /** The body `send_response` posts: exactly two fields, `username` first,
      then `response`, each value quoted, so that `UnquotePlus` reads each
      back. */
  function SendResponseBody(username: string, response: string): (r: string)
    ensures Split(r, '&') == ["username" + "=" + QuotePlus(username), "response" + "=" + QuotePlus(response)]
  {
    FieldNamesQuoted();
    NamedFieldsWritten(USERNAME_FIELD, RESPONSE_FIELD, username, response);
    FormEncode(SendResponseFields(username, response))
  }

  /** The field names are unreserved text, so they are written as they are. */
  lemma FieldNamesQuoted()
    ensures QuotePlus("username") == "username" && QuotePlus("response") == "response"
  {
    var u := "username";
    var r := "response";
    assert forall i :: 0 <= i < |u| ==> IsUnreservedChar(u[i]);
    assert forall i :: 0 <= i < |r| ==> IsUnreservedChar(r[i]);
    QuotePlusUnreserved(u);
    QuotePlusUnreserved(r);
  }

  const USERNAME_FIELD: string := "username"
  const RESPONSE_FIELD: string := "response"

  /** The fields `send_response` posts, before form encoding. */
  function SendResponseFields(username: string, response: string): seq<(string, string)>
  {
    [(USERNAME_FIELD, username), (RESPONSE_FIELD, response)]
  }

  /** A two-field body whose names quote as themselves. */
  lemma NamedFieldsWritten(n1: string, n2: string, v1: string, v2: string)
    requires QuotePlus(n1) == n1 && QuotePlus(n2) == n2
    ensures Split(FormEncode([(n1, v1), (n2, v2)]), '&') == [n1 + "=" + QuotePlus(v1), n2 + "=" + QuotePlus(v2)]
  {
    FormEncodeTwoFields(n1, v1, n2, v2);
  }

  /** What `get_sid` returns, or raises, and what it did on the way. */
  datatype Login = Login(outcome: Result<Option<string>, Exc>, effects: seq<Effect>)

  /** `get_sid`: fetch the login state (any failure becomes "failed to get
      challenge"), compute the response (its errors pass through unwrapped),
      wait out a positive block time, post the response (any failure becomes
      "failed to login"), and refuse the all-zero session id. */
  function GetSid(h: HashSuite, boxUrl: string, username: string, password: string,
                  stateReply: StateReply, sidReply: SidReply): (l: Login)
    ensures |l.effects| >= 1 && l.effects[0] == HttpGet(LoginUrl(boxUrl), [])
  {
    var fetch := [HttpGet(LoginUrl(boxUrl), [])];
    match GetLoginState(stateReply)
    case Err(_) => Login(Err(Plain(FAILED_CHALLENGE)), fetch)
    case Ok(state) =>
      match ChallengeResponse(h, state, password)
      case Err(e) => Login(Err(e), fetch)
      case Ok(response) =>
        var effects := PostAfterWait(fetch[0], state.blocktime,
                                     HttpPost(LoginUrl(boxUrl), SendResponseBody(username, response)));
        match sidReply
        case SidFailed(_) => Login(Err(Plain(FAILED_LOGIN)), effects)
        case SidXml(sid) =>
          if sid == Some(SENTINEL_SID) then Login(Err(Plain(WRONG_CREDENTIALS)), effects)
          else Login(Ok(sid), effects)
  }

  /** `get_sid` succeeds exactly when the state parses, the response can be
      computed and the gateway answers with anything but the all-zero id; it
      then returns that answer unchanged, so it never returns the sentinel. */
  lemma GetSidOutcome(h: HashSuite, boxUrl: string, username: string, password: string,
                      stateReply: StateReply, sidReply: SidReply)
    ensures var l := GetSid(h, boxUrl, username, password, stateReply, sidReply);
      && (l.outcome.Ok? <==>
            && GetLoginState(stateReply).Ok?
            && ChallengeResponse(h, GetLoginState(stateReply).value, password).Ok?
            && sidReply.SidXml? && sidReply.sid != Some(SENTINEL_SID))
      && (l.outcome.Ok? ==> l.outcome.value == sidReply.sid)
      && l.outcome != Ok(Some(SENTINEL_SID))
  {
  }

  /** The three fixed failure messages: a failed fetch or unreadable state
      (nothing is sent), a failed post, and the sentinel id. A failure of the
      response computation passes through as the built-in error it is. */
  lemma GetSidFailures(h: HashSuite, boxUrl: string, username: string, password: string,
                       stateReply: StateReply, sidReply: SidReply)
    ensures var l := GetSid(h, boxUrl, username, password, stateReply, sidReply);
      && (GetLoginState(stateReply).Err? ==>
            l.outcome == Err(Plain(FAILED_CHALLENGE)) && l.effects == [HttpGet(LoginUrl(boxUrl), [])])
      && (GetLoginState(stateReply).Ok? ==>
            var response := ChallengeResponse(h, GetLoginState(stateReply).value, password);
            && (response.Err? ==>
                  l.outcome == Err(response.error) && l.effects == [HttpGet(LoginUrl(boxUrl), [])])
            && (response.Ok? && sidReply.SidFailed? ==> l.outcome == Err(Plain(FAILED_LOGIN)))
            && (response.Ok? && sidReply == SidXml(Some(SENTINEL_SID)) ==>
                  l.outcome == Err(Plain(WRONG_CREDENTIALS))))
  {
  }

  /** No failure of `get_sid` is a built-in `ConnectionError`: transport
      failures are rewrapped as plain `Exception`s, and the codec raises only
      `IndexError`, `ValueError` or `OverflowError`. */
  lemma GetSidNeverConnectionError(h: HashSuite, boxUrl: string, username: string, password: string,
                                   stateReply: StateReply, sidReply: SidReply)
    ensures var l := GetSid(h, boxUrl, username, password, stateReply, sidReply);
      l.outcome.Err? ==> !IsConnectionError(l.outcome.error)
  {
    GetSidOutcome(h, boxUrl, username, password, stateReply, sidReply);
    GetSidFailures(h, boxUrl, username, password, stateReply, sidReply);
    var s := GetLoginState(stateReply);
    if s.Ok? {
      ChallengeResponseErrors(h, s.value, password);
    }
  }

  /** `get_sid` only makes requests and waits: it neither stores nor exits. */
  lemma GetSidOnlyTransport(h: HashSuite, boxUrl: string, username: string, password: string,
                            stateReply: StateReply, sidReply: SidReply)
    ensures OnlyTransport(GetSid(h, boxUrl, username, password, stateReply, sidReply).effects)
  {
    GetSidFailures(h, boxUrl, username, password, stateReply, sidReply);
    var s := GetLoginState(stateReply);
    if s.Ok? && ChallengeResponse(h, s.value, password).Ok? {
      GetSidSequence(h, boxUrl, username, password, stateReply, sidReply);
    }
  }

  /** A fetch, a wait of `blocktime` seconds when it is positive, then a post. */
  function PostAfterWait(fetch: Effect, blocktime: int, post: Effect): (r: seq<Effect>)
    ensures |r| == if blocktime > 0 then 3 else 2
    ensures r[0] == fetch && r[|r| - 1] == post
    ensures blocktime > 0 ==> r[1] == Sleep(blocktime)
  {
    [fetch] + (if blocktime > 0 then [Sleep(blocktime)] else []) + [post]
  }

  /** The post comes last and is the only post; the only wait is one of
      `blocktime` seconds, present exactly when `blocktime` is positive. */
  lemma PostAfterWaitShape(fetch: Effect, blocktime: int, post: Effect)
    requires fetch.HttpGet? && post.HttpPost?
    ensures var e := PostAfterWait(fetch, blocktime, post);
      && e[|e| - 1] == post
      && (forall i :: 0 <= i < |e| - 1 ==> !e[i].HttpPost?)
      && SleepTotal(e) == (if blocktime > 0 then blocktime else 0)
      && (forall i :: 0 <= i < |e| && e[i].Sleep? ==> e[i] == Sleep(blocktime))
      && (blocktime > 0 <==> exists i :: 0 <= i < |e| && e[i].Sleep?)
      && OnlyTransport(e)
  {
    var wait := if blocktime > 0 then [Sleep(blocktime)] else [];
    var e := PostAfterWait(fetch, blocktime, post);
    assert SleepTotal([fetch]) == 0;
    assert SleepTotal([post]) == 0;
    SleepTotalAppend([fetch], wait);
    SleepTotalAppend([fetch] + wait, [post]);
    KindsAppend([fetch], wait);
    KindsAppend([fetch] + wait, [post]);
    KindsOne(fetch);
    KindsOne(post);
    if blocktime > 0 {
      KindsOne(Sleep(blocktime));
    }
    if blocktime > 0 {
      assert SleepTotal(wait) == blocktime;
      assert e[1].Sleep?;
    } else {
      assert e == [fetch, post];
    }
  }

  /** Once the login state is read: the response computed (the PBKDF2
      response when the challenge starts with `2$`, the MD5 response otherwise,
      as `ChallengeResponse` states) is posted last, after exactly one wait of `blocktime` seconds if that is
      positive and no wait otherwise. */
  lemma GetSidSequence(h: HashSuite, boxUrl: string, username: string, password: string,
                       stateReply: StateReply, sidReply: SidReply)
    requires GetLoginState(stateReply).Ok?
    requires ChallengeResponse(h, GetLoginState(stateReply).value, password).Ok?
    ensures var state := GetLoginState(stateReply).value;
      var l := GetSid(h, boxUrl, username, password, stateReply, sidReply);
      var response := ChallengeResponse(h, state, password).value;
      && l.effects == PostAfterWait(HttpGet(LoginUrl(boxUrl), []), state.blocktime,
                                    HttpPost(LoginUrl(boxUrl), SendResponseBody(username, response)))
      && l.effects[|l.effects| - 1] == HttpPost(LoginUrl(boxUrl), SendResponseBody(username, response))
      && (forall i :: 0 <= i < |l.effects| - 1 ==> !l.effects[i].HttpPost?)
      && SleepTotal(l.effects) == (if state.blocktime > 0 then state.blocktime else 0)
      && (forall i :: 0 <= i < |l.effects| && l.effects[i].Sleep? ==> l.effects[i] == Sleep(state.blocktime))
      && (state.blocktime > 0 <==> exists i :: 0 <= i < |l.effects| && l.effects[i].Sleep?)
      && OnlyTransport(l.effects)
  {
    var state := GetLoginState(stateReply).value;
    var response := ChallengeResponse(h, state, password).value;
    GetSidEffects(h, boxUrl, username, password, stateReply, sidReply);
    PostAfterWaitShape(HttpGet(LoginUrl(boxUrl), []), state.blocktime,
                       HttpPost(LoginUrl(boxUrl), SendResponseBody(username, response)));
  }

  lemma GetSidEffects(h: HashSuite, boxUrl: string, username: string, password: string,
                      stateReply: StateReply, sidReply: SidReply)
    requires GetLoginState(stateReply).Ok?
    requires ChallengeResponse(h, GetLoginState(stateReply).value, password).Ok?
    ensures var state := GetLoginState(stateReply).value;
      GetSid(h, boxUrl, username, password, stateReply, sidReply).effects ==
        PostAfterWait(HttpGet(LoginUrl(boxUrl), []), state.blocktime,
                      HttpPost(LoginUrl(boxUrl),
                               SendResponseBody(username, ChallengeResponse(h, state, password).value)))
  {
    var state := GetLoginState(stateReply).value;
    var response := ChallengeResponse(h, state, password).value;
    var effects := PostAfterWait(HttpGet(LoginUrl(boxUrl), []), state.blocktime,
                                 HttpPost(LoginUrl(boxUrl), SendResponseBody(username, response)));
    var l := GetSid(h, boxUrl, username, password, stateReply, sidReply);
    match sidReply
    case SidFailed(_) =>
      assert l == Login(Err(Plain(FAILED_LOGIN)), effects);
    case SidXml(sid) =>
      assert l.effects == effects;
  }

  // ---------------------------------------------------------------------------
  // validate_sid
  // ---------------------------------------------------------------------------

  /** Reply to the GET that probes a session: the HTTP status, or the class of
      the exception the transport raised. */
  datatype ProbeReply =
    | ProbeFailed(cls: ExcClass)
    | ProbeStatus(status: int)

  /** The request `validate_sid` makes: a GET of the login route whose only
      parameter is the session id; `requests` sends no parameter at all when
      the id is `None`. */
  function ProbeRequest(boxUrl: string, sid: Option<string>): (r: Effect)
    ensures r.HttpGet? && r.url == LoginUrl(boxUrl)
    ensures r.params == if sid.Some? then [("sid", sid.value)] else []
  {
    assert [("sid", sid)][1..] == [] && DropNone([]) == [];
    HttpGet(LoginUrl(boxUrl), DropNone([("sid", sid)]))
  }

  /** The truth value of the `requests` response `validate_sid` returns:
      `response.ok`, false only for a status from 400 to 599. It does not look
      at the session id in the reply. */
  function ProbeValid(reply: ProbeReply): (r: Result<bool, Exc>)
    ensures r.Err? <==> reply.ProbeFailed?
    ensures r.Ok? ==> (r.value <==> !(400 <= reply.status < 600))
  {
    match reply
    case ProbeFailed(cls) => Err(Builtin(cls))
    case ProbeStatus(status) => Ok(!(400 <= status < 600))
  }

  // ---------------------------------------------------------------------------
  // retrieve_data
  // ---------------------------------------------------------------------------

  /** What Python can bind to the `**kwargs` of `retrieve_data`: distinct
      names, none of them the name of a parameter of the method. */
  predicate ExtraKeywords(kwargs: seq<Param>)
  {
    && DistinctKeys(kwargs)
    && forall i :: 0 <= i < |kwargs| ==> kwargs[i].0 !in {"self", "box_url", "sid", "switchcmd", "ain"}
  }

  /** `{"ain": ain, "switchcmd": switchcmd, "sid": sid}`. */
  function FixedParams(ain: Option<string>, switchcmd: string, sid: Option<string>): (r: seq<Param>)
    ensures |r| == 3
    ensures Keys(r) == {"ain", "switchcmd", "sid"}
    ensures forall k ::
      Lookup(r, k) ==
        if k == "ain" then Some(ain)
        else if k == "switchcmd" then Some(Some(switchcmd))
        else if k == "sid" then Some(sid)
        else None
  {
    var a, b, c := ("ain", ain), ("switchcmd", Some(switchcmd)), ("sid", sid);
    ThreeParamKeys(a, b, c);
    forall k { ThreeParams(a, b, c, k); }
    [a, b, c]
  }

  /** The fixed parameters updated by `kwargs`. */
  function RetrieveParams(ain: Option<string>, switchcmd: string, sid: Option<string>, kwargs: seq<Param>): (r: seq<Param>)
    requires ExtraKeywords(kwargs)
    ensures |r| == 3 + |kwargs|
  {
    RetrieveParamsOrder(ain, switchcmd, sid, kwargs);
    Update(FixedParams(ain, switchcmd, sid), kwargs)
  }

  /** The extra keywords are new keys, so they follow the fixed ones. */
  lemma RetrieveParamsOrder(ain: Option<string>, switchcmd: string, sid: Option<string>, kwargs: seq<Param>)
    requires ExtraKeywords(kwargs)
    ensures Update(FixedParams(ain, switchcmd, sid), kwargs) == FixedParams(ain, switchcmd, sid) + kwargs
  {
    UpdateNew(FixedParams(ain, switchcmd, sid), kwargs);
  }

  /** The request has the keys `ain`, `switchcmd`, `sid` in that order, with
      the values the caller passed, then the extra keywords in the order they
      were given; a key holds the value given for it, and no other key is
      sent. */
  lemma RetrieveParamsSpec(ain: Option<string>, switchcmd: string, sid: Option<string>, kwargs: seq<Param>, k: string)
    requires ExtraKeywords(kwargs)
    ensures var p := RetrieveParams(ain, switchcmd, sid, kwargs);
      && p == [("ain", ain), ("switchcmd", Some(switchcmd)), ("sid", sid)] + kwargs
      && Keys(p) == {"ain", "switchcmd", "sid"} + Keys(kwargs)
      && Lookup(p, k) ==
           if k in Keys(kwargs) then Lookup(kwargs, k)
           else if k == "ain" then Some(ain)
           else if k == "switchcmd" then Some(Some(switchcmd))
           else if k == "sid" then Some(sid)
           else None
  {
    var fixed := FixedParams(ain, switchcmd, sid);
    assert fixed == [("ain", ain), ("switchcmd", Some(switchcmd)), ("sid", sid)];
    RetrieveParamsOrder(ain, switchcmd, sid, kwargs);
    UpdateKeys(fixed, kwargs);
    UpdateLookup(fixed, kwargs, k);
  }

  lemma ThreeParamKeys(a: Param, b: Param, c: Param)
    ensures Keys([a, b, c]) == {a.0, b.0, c.0}
  {
    ThreeParams(a, b, c, a.0);
  }

  lemma ThreeParams(a: Param, b: Param, c: Param, k: string)
    ensures Keys([a, b, c]) == {a.0, b.0, c.0}
    ensures Lookup([a, b, c], k) ==
      if k == a.0 then Some(a.1) else if k == b.0 then Some(b.1) else if k == c.0 then Some(c.1) else None
  {
    assert [a, b, c][1..] == [b, c];
    assert [b, c][1..] == [c];
    assert [c][1..] == [];
    assert Keys([c]) == {c.0};
    assert Keys([b, c]) == {b.0} + Keys([c]);
    assert Keys([a, b, c]) == {a.0} + Keys([b, c]);
    assert Lookup([b, c], k) == if k == b.0 then Some(b.1) else Lookup([c], k);
  }

  /** The request `retrieve_data` makes, to the automation route; its reply
      text is returned unchanged. The command is always sent, the session id
      and the actor identifier exactly when they are not `None`. */
  function RetrieveRequest(boxUrl: string, sid: Option<string>, switchcmd: string, ain: Option<string>,
                           kwargs: seq<Param>): (r: Effect)
    requires ExtraKeywords(kwargs)
    ensures r.HttpGet? && r.url == SwitchUrl(boxUrl)
    ensures ("switchcmd", switchcmd) in r.params
    ensures forall v :: ("sid", v) in r.params <==> sid == Some(v)
    ensures forall v :: ("ain", v) in r.params <==> ain == Some(v)
  {
    RetrieveSent(ain, switchcmd, sid, kwargs);
    HttpGet(SwitchUrl(boxUrl), DropNone(RetrieveParams(ain, switchcmd, sid, kwargs)))
  }

  /** The command is always sent; the session id and the actor identifier
      are sent exactly when they are not `None`, since no extra keyword can
      carry their names. */
  lemma RetrieveSent(ain: Option<string>, switchcmd: string, sid: Option<string>, kwargs: seq<Param>)
    requires ExtraKeywords(kwargs)
    ensures var q := DropNone(RetrieveParams(ain, switchcmd, sid, kwargs));
      && ("switchcmd", switchcmd) in q
      && (forall v :: ("sid", v) in q <==> sid == Some(v))
      && (forall v :: ("ain", v) in q <==> ain == Some(v))
  {
    var fixed := FixedParams(ain, switchcmd, sid);
    assert fixed == [("ain", ain), ("switchcmd", Some(switchcmd)), ("sid", sid)];
    RetrieveParamsOrder(ain, switchcmd, sid, kwargs);
    var p := RetrieveParams(ain, switchcmd, sid, kwargs);
    assert p == fixed + kwargs;
    forall k, x | (k, x) in kwargs
      ensures k != "sid" && k != "ain"
    {
      var i :| 0 <= i < |kwargs| && kwargs[i] == (k, x);
    }
    assert forall x :: ("sid", x) in p <==> x == sid;
    assert forall x :: ("ain", x) in p <==> x == ain;
    assert ("switchcmd", Some(switchcmd)) in p;
  }
}
