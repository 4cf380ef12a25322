/**
  The session with the pollution service: the two module-level tokens,
  `authenticate`, `refreshAuthToken` and `fetchPollutionData`
  (src/handler.ts:27-57, 66-83), as functions from one state to the next.

  The network is a script: `upstream` holds the replies the service gives, in
  the order in which the requests reach it, and `sent` logs the requests. Each
  request consumes one reply. A request made after the script has run out
  ends the run with `OutOfScript`, which says nothing about the service; it
  only marks the end of what the script describes.
 */
module Upstream {
  import opened Types

  /** A request, with what it carries that the handler chooses. */
  datatype Endpoint =
    | Login
    | Refresh(refreshToken: string)
    | Pollution(query: Query, bearer: Option<string>)

  /** The fields of a reply body that the handler reads. */
  datatype Body = Body(token: Option<string>, refreshToken: Option<string>, results: Option<seq<PollutionRecord>>)

  /** A reply: a body, or an error with the HTTP status of its response, if there was a response. */
  datatype Reply = Answered(data: Body) | Rejected(status: Option<int>)

  /** How a call ends: with a value, by throwing the error of a reply, or past the end of the script. */
  datatype Outcome<T> = Returned(value: T) | Threw(status: Option<int>) | OutOfScript

  datatype State = State(authToken: Option<string>, refreshToken: Option<string>, upstream: seq<Reply>, sent: seq<Endpoint>)

  /**
    `s` follows `st` by some requests: every reply consumed from the front of
    the script answers exactly one request appended to the log.
   */
  predicate Consumed(st: State, s: State) {
    && |s.upstream| <= |st.upstream|
    && s.upstream == st.upstream[|st.upstream| - |s.upstream|..]
    && |s.sent| == |st.sent| + (|st.upstream| - |s.upstream|)
    && st.sent <= s.sent
  }

  /** The last reply consumed between `st` and `s`. */
  function LastReply(st: State, s: State): Reply
    requires Consumed(st, s) && |s.upstream| < |st.upstream|
  {
    st.upstream[|st.upstream| - |s.upstream| - 1]
  }

  lemma ConsumedTrans(s0: State, s1: State, s2: State)
    requires Consumed(s0, s1) && Consumed(s1, s2)
    ensures Consumed(s0, s2)
  {
    assert s2.sent[..|s0.sent|] == s2.sent[..|s1.sent|][..|s0.sent|];
  }

  /** The state after a request `e` that the first scripted reply answers. */
  function Step(st: State, e: Endpoint): (s: State)
    requires st.upstream != []
    ensures Consumed(st, s) && |s.upstream| == |st.upstream| - 1
    ensures s == State(st.authToken, st.refreshToken, st.upstream[1..], st.sent + [e])
  {
    st.(upstream := st.upstream[1..], sent := st.sent + [e])
  }

  /** The outcome of a call that throws `e` when the call was a login rejected with `e`. */
  predicate ThrewOnLogin<T>(r: Outcome<T>, st: State, s: State)
    requires Consumed(st, s)
  {
    r.Threw? ==> |s.upstream| < |st.upstream| && s.sent[|s.sent| - 1] == Login && LastReply(st, s) == Rejected(r.status)
  }

  /** A later call that throws on a login makes the whole run throw on that login. */
  lemma ThrewOnLoginTrans<T>(r: Outcome<T>, st: State, s: State, fin: State)
    requires Consumed(st, s) && Consumed(s, fin) && ThrewOnLogin(r, s, fin)
    ensures Consumed(st, fin) && ThrewOnLogin(r, st, fin)
  {
    ConsumedTrans(st, s, fin);
  }

  /**
    `authenticate`: posts the credentials; on an answer both tokens are taken
    from the body and the new `authToken` is returned; on an error both tokens
    stay as they were and the error is rethrown.
   */
  function Authenticate(st: State): (res: (Outcome<Option<string>>, State))
    ensures Consumed(st, res.1)
    ensures st.upstream == [] ==> res == (OutOfScript, st)
    ensures st.upstream != [] ==> res.1.sent == st.sent + [Login] && res.1.upstream == st.upstream[1..]
    ensures res.0.Returned? <==> st.upstream != [] && st.upstream[0].Answered?
    ensures res.0.Returned? ==>
      && res.0.value == res.1.authToken == st.upstream[0].data.token
      && res.1.refreshToken == st.upstream[0].data.refreshToken
    ensures !res.0.Returned? ==> res.1.authToken == st.authToken && res.1.refreshToken == st.refreshToken
    ensures res.0.Threw? ==> Rejected(res.0.status) == st.upstream[0]
    ensures st.upstream != [] && st.upstream[0].Rejected? ==> res.0 == Threw(st.upstream[0].status)
  {
    if st.upstream == [] then (OutOfScript, st)
    else
      var s := Step(st, Login);
      match st.upstream[0]
      case Answered(b) => (Returned(b.token), s.(authToken := b.token, refreshToken := b.refreshToken))
      case Rejected(e) => (Threw(e), s)
  }

  /**
    `refreshAuthToken`: without a (truthy) refresh token it is `authenticate`;
    otherwise it posts the refresh token, and an answer replaces `authToken`
    only, while any error falls back to `authenticate`.
   */
  function RefreshAuthToken(st: State): (res: (Outcome<Option<string>>, State))
    ensures Consumed(st, res.1)
    ensures !res.0.OutOfScript? ==> |res.1.upstream| < |st.upstream|
    ensures res.0.Returned? ==> res.1.authToken == res.0.value
    ensures ThrewOnLogin(res.0, st, res.1)
    ensures !Present(st.refreshToken) ==> res == Authenticate(st)
    ensures Present(st.refreshToken) && st.upstream != [] ==> |res.1.sent| > |st.sent| && res.1.sent[|st.sent|] == Refresh(st.refreshToken.value)
    ensures Present(st.refreshToken) && st.upstream != [] && st.upstream[0].Answered? ==>
      && res.0 == Returned(st.upstream[0].data.token)
      && res.1.refreshToken == st.refreshToken
      && res.1.sent == st.sent + [Refresh(st.refreshToken.value)]
    ensures Present(st.refreshToken) && st.upstream != [] && st.upstream[0].Rejected? ==>
      res == Authenticate(Step(st, Refresh(st.refreshToken.value)))
  {
    if !Present(st.refreshToken) then Authenticate(st)
    else if st.upstream == [] then (OutOfScript, st)
    else
      var s := Step(st, Refresh(st.refreshToken.value));
      match st.upstream[0]
      case Answered(b) => (Returned(b.token), s.(authToken := b.token))
      case Rejected(_) =>
        var res := Authenticate(s);
        ConsumedTrans(st, s, res.1);
        assert res.1.sent[|st.sent|] == res.1.sent[..|s.sent|][|st.sent|];
        res
  }

  /** The error of a call that did not return, as the error of a call of another type. */
  function Rethrow<T, U>(r: Outcome<T>): Outcome<U>
    requires !r.Returned?
  {
    if r.Threw? then Threw(r.status) else OutOfScript
  }

  /** The token check at the start of `fetchPollutionData`: `if (!authToken) await authenticate()`. */
  function EnsureToken(st: State): (Outcome<Option<string>>, State) {
    if Present(st.authToken) then (Returned(st.authToken), st) else Authenticate(st)
  }

  /** The first request `fetchPollutionData` makes in state `st`. */
  function FirstRequest(q: Query, st: State): Endpoint {
    if Present(st.authToken) then Pollution(q, st.authToken) else Login
  }

  /**
    `fetchPollutionData(country, page, limit)`: authenticates first when no
    token is held, then asks for the records with the current token. A failure
    of either request goes to the `catch` block, `HandleFailure`. The call
    throws only when a login made inside the `catch` block is rejected, and it
    then throws that login's error.
   */
  function FetchPollutionData(q: Query, st: State): (res: (Outcome<seq<PollutionRecord>>, State))
    ensures Consumed(st, res.1)
    ensures ThrewOnLogin(res.0, st, res.1)
    decreases |st.upstream|, 1
  {
    var a := EnsureToken(st);
    if a.0.OutOfScript? then (OutOfScript, a.1)
    else if a.0.Threw? then
      var res := HandleFailure(q, a.0.status, a.1);
      ThrewOnLoginTrans(res.0, st, a.1, res.1);
      res
    else if a.1.upstream == [] then (OutOfScript, a.1)
    else
      var s := Step(a.1, Pollution(q, a.1.authToken));
      ConsumedTrans(st, a.1, s);
      match a.1.upstream[0]
      case Answered(b) => (Returned(b.results.GetOr([])), s)
      case Rejected(e) =>
        var res := HandleFailure(q, e, s);
        ThrewOnLoginTrans(res.0, st, s, res.1);
        res
  }

  /**
    The first request of `fetchPollutionData` is the login exactly when no
    token is held: with a token held, the pollution request goes first.
   */
  lemma FirstRequestWithToken(q: Query, st: State)
    requires st.upstream != [] && Present(st.authToken)
    ensures var fin := FetchPollutionData(q, st).1;
      |fin.sent| > |st.sent| && fin.sent[|st.sent|] == Pollution(q, st.authToken)
  {
    var fin := FetchPollutionData(q, st).1;
    var s := Step(st, Pollution(q, st.authToken));
    if st.upstream[0].Rejected? {
      assert fin == HandleFailure(q, st.upstream[0].status, s).1;
      FirstSent(st, s, fin);
    }
  }

  /** Without a token, the login goes first. */
  lemma FirstRequestWithoutToken(q: Query, st: State)
    requires st.upstream != [] && !Present(st.authToken)
    ensures var fin := FetchPollutionData(q, st).1;
      |fin.sent| > |st.sent| && fin.sent[|st.sent|] == Login
  {
    var fin := FetchPollutionData(q, st).1;
    var a := Authenticate(st);
    if a.0.Threw? {
      assert fin == HandleFailure(q, a.0.status, a.1).1;
      FirstSent(st, a.1, fin);
    } else if a.1.upstream != [] {
      var s := Step(a.1, Pollution(q, a.1.authToken));
      ConsumedTrans(st, a.1, s);
      FirstSent(st, a.1, s);
      if a.1.upstream[0].Rejected? {
        assert fin == HandleFailure(q, a.1.upstream[0].status, s).1;
        FirstSent(st, s, fin);
      }
    }
  }

  /** The first request made between `st` and `s` is still the first one at `fin`. */
  lemma FirstSent(st: State, s: State, fin: State)
    requires Consumed(st, s) && Consumed(s, fin)
    ensures |s.sent| > |st.sent| ==> |fin.sent| > |st.sent| && fin.sent[|st.sent|] == s.sent[|st.sent|]
  {
    assert fin.sent[..|s.sent|] == s.sent;
  }

  /**
    The `catch` block of `fetchPollutionData`: on a response with status 401 it
    refreshes the token and calls `fetchPollutionData` again with the same
    arguments, with no bound on how often; an error of the refresh escapes.
    Any other error gives `[]`.
   */
  function HandleFailure(q: Query, status: Option<int>, st: State): (res: (Outcome<seq<PollutionRecord>>, State))
    ensures Consumed(st, res.1)
    ensures ThrewOnLogin(res.0, st, res.1)
    decreases |st.upstream|, 0
  {
    if status == Some(401) then
      var r := RefreshAuthToken(st);
      if r.0.Returned? then
        var res := FetchPollutionData(q, r.1);
        ThrewOnLoginTrans(res.0, st, r.1, res.1);
        res
      else (Rethrow(r.0), r.1)
    else (Returned([]), st)
  }

  // ---------------------------------------------------------------------------
  // Properties of `fetchPollutionData`

  /** With a token held, an answer to the pollution request is returned as its `results`, or `[]`. */
  lemma SuccessReturnsResults(q: Query, st: State, b: Body)
    requires Present(st.authToken) && st.upstream != [] && st.upstream[0] == Answered(b)
    ensures FetchPollutionData(q, st) ==
      (Returned(b.results.GetOr([])), st.(upstream := st.upstream[1..], sent := st.sent + [Pollution(q, st.authToken)]))
    ensures b.results.Some? ==> FetchPollutionData(q, st).0 == Returned(b.results.value)
    ensures b.results.None? ==> FetchPollutionData(q, st).0 == Returned([])
  {
  }

  /**
    With no token held, as on the first call after the module is loaded, the
    call logs in and then asks for the records with the token of the login's
    answer, taken as it is; an answer to that request returns its `results`,
    or `[]`.
   */
  lemma LoginThenResults(q: Query, st: State, b0: Body, b: Body, rest: seq<Reply>)
    requires !Present(st.authToken) && st.upstream == [Answered(b0), Answered(b)] + rest
    ensures FetchPollutionData(q, st).0 == Returned(b.results.GetOr([]))
    ensures FetchPollutionData(q, st).1 ==
      State(b0.token, b0.refreshToken, rest, st.sent + [Login, Pollution(q, b0.token)])
  {
    var s1 := Step(st, Login).(authToken := b0.token, refreshToken := b0.refreshToken);
    assert st.upstream[1..] == [Answered(b)] + rest;
    assert Step(s1, Pollution(q, b0.token)).upstream == rest;
  }

  /**
    With no token held, a login answer followed by an error other than a 401
    on the pollution request gives `[]`, and nothing is thrown.
   */
  lemma LoginThenOtherFailure(q: Query, st: State, b0: Body, e: Option<int>, rest: seq<Reply>)
    requires !Present(st.authToken) && e != Some(401) && st.upstream == [Answered(b0), Rejected(e)] + rest
    ensures FetchPollutionData(q, st).0 == Returned([])
    ensures FetchPollutionData(q, st).1 ==
      State(b0.token, b0.refreshToken, rest, st.sent + [Login, Pollution(q, b0.token)])
  {
    var s1 := Step(st, Login).(authToken := b0.token, refreshToken := b0.refreshToken);
    assert st.upstream[1..] == [Rejected(e)] + rest;
    assert Step(s1, Pollution(q, b0.token)).upstream == rest;
  }

  /**
    With no token held, a login answer followed by a 401 on the pollution
    request enters the 401 branch of the `catch` block in the state the login
    left: `refreshAuthToken` runs, then the call is repeated.
   */
  lemma LoginThenUnauthorized(q: Query, st: State, b0: Body, rest: seq<Reply>)
    requires !Present(st.authToken) && st.upstream == [Answered(b0), Rejected(Some(401))] + rest
    ensures FetchPollutionData(q, st) ==
      HandleFailure(q, Some(401), State(b0.token, b0.refreshToken, rest, st.sent + [Login, Pollution(q, b0.token)]))
    ensures var (r, s2) := RefreshAuthToken(State(b0.token, b0.refreshToken, rest, st.sent + [Login, Pollution(q, b0.token)]));
      FetchPollutionData(q, st) == if r.Returned? then FetchPollutionData(q, s2) else (Rethrow(r), s2)
  {
    var s1 := Step(st, Login).(authToken := b0.token, refreshToken := b0.refreshToken);
    assert st.upstream[1..] == [Rejected(Some(401))] + rest;
    assert EnsureToken(st) == (Returned(b0.token), s1);
    var s := Step(s1, Pollution(q, b0.token));
    assert s == State(b0.token, b0.refreshToken, rest, st.sent + [Login, Pollution(q, b0.token)]);
    assert FetchPollutionData(q, st) == HandleFailure(q, Some(401), s);
  }

  /**
    An error other than a 401 on the first request, whether that is the login
    or the pollution request, gives `[]` after that one request, and nothing is
    thrown.
   */
  lemma OtherFailureReturnsEmpty(q: Query, st: State)
    requires st.upstream != [] && st.upstream[0].Rejected? && st.upstream[0].status != Some(401)
    ensures FetchPollutionData(q, st).0 == Returned([])
    ensures FetchPollutionData(q, st).1 ==
      st.(upstream := st.upstream[1..], sent := st.sent + [FirstRequest(q, st)])
  {
  }

  /**
    A 401 on the first request, whether that is the login or the pollution
    request, is followed by `refreshAuthToken`, and when that returns, by the
    same `fetchPollutionData` call again in the state the refresh leaves.
   */
  lemma RetriesAfterUnauthorized(q: Query, st: State)
    requires st.upstream != [] && st.upstream[0] == Rejected(Some(401))
    ensures var s1 := st.(upstream := st.upstream[1..], sent := st.sent + [FirstRequest(q, st)]);
      var (r, s2) := RefreshAuthToken(s1);
      FetchPollutionData(q, st) == if r.Returned? then FetchPollutionData(q, s2) else (Rethrow(r), s2)
  {
  }

  /** Every pollution request in `log` from position `from` on asks for `q`. */
  predicate AllAsk(log: seq<Endpoint>, from: nat, q: Query) {
    forall k :: from <= k < |log| && log[k].Pollution? ==> log[k].query == q
  }

  /** Retrying keeps the arguments: every pollution request a call makes carries its query. */
  lemma {:induction false} RetriesKeepQuery(q: Query, st: State)
    ensures AllAsk(FetchPollutionData(q, st).1.sent, |st.sent|, q)
    decreases |st.upstream|, 1
  {
    var a := EnsureToken(st);
    var fin := FetchPollutionData(q, st).1;
    assert AllAsk(a.1.sent, |st.sent|, q) by {
      if !Present(st.authToken) && st.upstream != [] {
        assert a.1.sent == st.sent + [Login];
      }
    }
    if a.0.Threw? {
      assert fin == HandleFailure(q, a.0.status, a.1).1;
      HandlerKeepsQuery(q, a.0.status, a.1);
      AllAskJoin(a.1.sent, fin.sent, |st.sent|, q);
    } else if a.0.Returned? && a.1.upstream != [] {
      var s := Step(a.1, Pollution(q, a.1.authToken));
      assert s.sent == a.1.sent + [Pollution(q, a.1.authToken)];
      if a.1.upstream[0].Rejected? {
        assert fin == HandleFailure(q, a.1.upstream[0].status, s).1;
        HandlerKeepsQuery(q, a.1.upstream[0].status, s);
        AllAskJoin(s.sent, fin.sent, |st.sent|, q);
      } else {
        assert fin == s;
      }
    } else {
      assert fin == a.1;
    }
  }

  lemma {:induction false} HandlerKeepsQuery(q: Query, status: Option<int>, st: State)
    ensures AllAsk(HandleFailure(q, status, st).1.sent, |st.sent|, q)
    decreases |st.upstream|, 0
  {
    if status == Some(401) {
      var r := RefreshAuthToken(st);
      RefreshSendsNoPollution(st);
      if r.0.Returned? {
        RetriesKeepQuery(q, r.1);
        AllAskJoin(r.1.sent, FetchPollutionData(q, r.1).1.sent, |st.sent|, q);
      }
    }
  }

  /** `refreshAuthToken` sends only refresh and login requests. */
  lemma RefreshSendsNoPollution(st: State)
    ensures var s := RefreshAuthToken(st).1;
      forall k :: |st.sent| <= k < |s.sent| ==> !s.sent[k].Pollution?
  {
    var s := RefreshAuthToken(st).1;
    if Present(st.refreshToken) && st.upstream != [] && st.upstream[0].Rejected? {
      var s1 := Step(st, Refresh(st.refreshToken.value));
      assert s == Authenticate(s1).1;
    }
  }

  /** `AllAsk` of a log from `from` and of its extension from the log's end gives `AllAsk` of the extension from `from`. */
  lemma AllAskJoin(log: seq<Endpoint>, ext: seq<Endpoint>, from: nat, q: Query)
    requires log <= ext && AllAsk(log, from, q) && AllAsk(ext, |log|, q)
    ensures AllAsk(ext, from, q)
  {
    forall k | from <= k < |ext| && ext[k].Pollution? ensures ext[k].query == q {
      if k < |log| {
        assert ext[k] == log[k];
      }
    }
  }

  // ---------------------------------------------------------------------------
  // The retry has no bound

  /** The number of pollution requests in `log`. */
  function PollutionRequests(log: seq<Endpoint>): nat {
    if log == [] then 0
    else PollutionRequests(log[..|log| - 1]) + (if log[|log| - 1].Pollution? then 1 else 0)
  }

  /** `n` rounds of a 401 on the pollution request, each followed by a refresh that hands out `token`. */
  function UnauthorizedRounds(n: nat, token: string): seq<Reply> {
    if n == 0 then []
    else [Rejected(Some(401)), Answered(Body(Some(token), None, None))] + UnauthorizedRounds(n - 1, token)
  }

  /**
    However many 401 replies the service gives, each is followed by a refresh
    and another pollution request: after `n` rounds of 401-and-refresh and one
    answer, the call returns that answer's records, having asked for the
    pollution data `n + 1` times.
   */
  lemma {:induction false} RetriesWithoutBound(n: nat, q: Query, st: State, token: string, b: Body)
    requires Present(st.authToken) && Present(st.refreshToken) && token != ""
    requires st.upstream == UnauthorizedRounds(n, token) + [Answered(b)]
    ensures FetchPollutionData(q, st).0 == Returned(b.results.GetOr([]))
    ensures FetchPollutionData(q, st).1.upstream == []
    ensures FetchPollutionData(q, st).1.refreshToken == st.refreshToken
    ensures PollutionRequests(FetchPollutionData(q, st).1.sent) == PollutionRequests(st.sent) + n + 1
  {
    var s1 := Step(st, Pollution(q, st.authToken));
    assert PollutionRequests(s1.sent) == PollutionRequests(st.sent) + 1 by {
      assert s1.sent[..|s1.sent| - 1] == st.sent;
    }
    if n > 0 {
      var rest := UnauthorizedRounds(n - 1, token) + [Answered(b)];
      assert st.upstream == [Rejected(Some(401)), Answered(Body(Some(token), None, None))] + rest;
      var s2 := Step(s1, Refresh(st.refreshToken.value)).(authToken := Some(token));
      assert s2.upstream == rest;
      assert RefreshAuthToken(s1) == (Returned(Some(token)), s2);
      assert PollutionRequests(s2.sent) == PollutionRequests(s1.sent) by {
        assert s2.sent[..|s2.sent| - 1] == s1.sent;
      }
      RetriesWithoutBound(n - 1, q, s2, token, b);
      assert FetchPollutionData(q, st) == HandleFailure(q, Some(401), s1);
    }
  }

  /**
    The error of a failed re-login escapes: with no refresh token, a 401
    followed by a rejected login makes the call throw that login's error.
   */
  lemma ThrowsWhenReloginFails(q: Query, st: State, e: Option<int>)
    requires Present(st.authToken) && !Present(st.refreshToken)
    requires st.upstream == [Rejected(Some(401)), Rejected(e)]
    ensures FetchPollutionData(q, st).0 == Threw(e)
    ensures FetchPollutionData(q, st).1.sent == st.sent + [Pollution(q, st.authToken), Login]
  {
    var s1 := Step(st, Pollution(q, st.authToken));
    assert s1.upstream == [Rejected(e)];
  }
}
