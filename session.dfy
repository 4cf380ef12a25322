/**
  The module-level state of src/handler.ts:27-28 as an object: the two tokens,
  plus the scripted service it talks to. Each method updates the fields in
  place and is proved to do what the function of the same name in `Upstream`
  describes.
 */
module Session {
  import opened Types
  import opened Upstream

  class Session {
    var authToken: Option<string>
    var refreshToken: Option<string>
    /** The replies the service has still to give, in order. */
    var upstream: seq<Reply>
    /** The requests made so far. */
    var sent: seq<Endpoint>

    function Snapshot(): State
      reads this
    {
      State(authToken, refreshToken, upstream, sent)
    }

    /** No token is held when the module is loaded. */
    constructor (script: seq<Reply>)
      ensures Snapshot() == State(None, None, script, [])
    {
      authToken := None;
      refreshToken := None;
      upstream := script;
      sent := [];
    }

    /** Makes request `e` and takes the next scripted reply, if there is one. */
    method Send(e: Endpoint) returns (reply: Option<Reply>)
      modifies this
      ensures old(upstream) == [] ==> reply == None && Snapshot() == old(Snapshot())
      ensures old(upstream) != [] ==> reply == Some(old(upstream)[0]) && Snapshot() == Step(old(Snapshot()), e)
    {
      if upstream == [] {
        return None;
      }
      reply := Some(upstream[0]);
      upstream := upstream[1..];
      sent := sent + [e];
    }

    method Authenticate() returns (r: Outcome<Option<string>>)
      modifies this
      ensures (r, Snapshot()) == Upstream.Authenticate(old(Snapshot()))
    {
      var reply := Send(Login);
      match reply
      case None => r := OutOfScript;
      case Some(Answered(b)) =>
        authToken := b.token;
        refreshToken := b.refreshToken;
        r := Returned(authToken);
      case Some(Rejected(e)) => r := Threw(e);
    }

    method RefreshAuthToken() returns (r: Outcome<Option<string>>)
      modifies this
      ensures (r, Snapshot()) == Upstream.RefreshAuthToken(old(Snapshot()))
    {
      if !Present(refreshToken) {
        r := Authenticate();
        return;
      }
      var reply := Send(Refresh(refreshToken.value));
      match reply
      case None => r := OutOfScript;
      case Some(Answered(b)) =>
        authToken := b.token;
        r := Returned(authToken);
      case Some(Rejected(_)) => r := Authenticate();
    }

    method FetchPollutionData(q: Query) returns (r: Outcome<seq<PollutionRecord>>)
      modifies this
      ensures (r, Snapshot()) == Upstream.FetchPollutionData(q, old(Snapshot()))
      decreases |upstream|, 1
    {
      ghost var st := Snapshot();
      if !Present(authToken) {
        var a := Authenticate();
        if a.OutOfScript? {
          return OutOfScript;
        } else if a.Threw? {
          r := HandleFailure(q, a.status);
          return;
        }
      }
      ghost var s := Snapshot();
      assert s == EnsureToken(st).1;
      var reply := Send(Pollution(q, authToken));
      match reply
      case None => r := OutOfScript;
      case Some(Answered(b)) => r := Returned(b.results.GetOr([]));
      case Some(Rejected(e)) => r := HandleFailure(q, e);
    }

    /** The `catch` block of `fetchPollutionData`. */
    method HandleFailure(q: Query, status: Option<int>) returns (r: Outcome<seq<PollutionRecord>>)
      modifies this
      ensures (r, Snapshot()) == Upstream.HandleFailure(q, status, old(Snapshot()))
      decreases |upstream|, 0
    {
      if status != Some(401) {
        return Returned([]);
      }
      var t := RefreshAuthToken();
      if t.Returned? {
        r := FetchPollutionData(q);
      } else {
        r := Rethrow(t);
      }
    }
  }
}
