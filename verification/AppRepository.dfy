/** The app's repository object: the stretches of `_refreshAccessToken` between two awaits, as
    methods on its fields, each tied to the step of the protocol it is. */
module AppRepository {
  import opened AuthStore
  import opened Wrappers
  import opened RefreshProtocol

  datatype Response = Tokens(next: Hash) | Unauthorized

  class ServerRepository {
    /** The completer of the refresh in progress; null when there is none. */
    var refreshLock: Option<CallId>
    /** Secure storage. */
    var tokens: map<DeviceId, Hash>
    /** Where each call stands: the suspended futures. */
    var calls: map<CallId, Call>

    ghost predicate Mirrors(s: State)
      reads this
    {
      refreshLock == s.lock && tokens == s.stored && calls == s.calls
    }

    constructor ()
      ensures Mirrors(INITIAL)
    {
      refreshLock, tokens, calls := None, map[], map[];
    }

    /** addServer saves the credentials of an enrolment. */
    method AddServer(server: DeviceId, token: Hash, ghost s: State, ghost a: Action)
      requires Mirrors(s) && a.AppEnrols? && a.device == server && a.hash == token && Enabled(s, a)
      modifies this
      ensures Mirrors(Next(s, a))
      ensures tokens == old(tokens)[server := token] && refreshLock == old(refreshLock) && calls == old(calls)
    {
      tokens := tokens[server := token];
    }

    method Begin(call: CallId, server: DeviceId, ghost s: State)
      requires Mirrors(s) && Enabled(s, Enter(call, server))
      modifies this
      ensures Mirrors(Next(s, Enter(call, server)))
      ensures calls == old(calls)[call := Waiting(server)]
      ensures tokens == old(tokens) && refreshLock == old(refreshLock)
    {
      calls := calls[call := Waiting(server)];
    }

    /** One pass of `while (_refreshLock != null)`: nothing is awaited between the test that fails
        and the creation of the new completer. */
    method TryLock(call: CallId, ghost s: State) returns (got: bool)
      requires Mirrors(s) && call in calls && calls[call].Waiting?
      modifies this
      ensures got == Enabled(s, Acquire(call))
      ensures Mirrors(if got then Next(s, Acquire(call)) else s)
      ensures got <==> old(refreshLock) == None
      ensures got ==> refreshLock == Some(call) && calls == old(calls)[call := Holding(old(calls)[call].server)]
    {
      if refreshLock != None {
        return false;
      }
      refreshLock := Some(call);
      calls := calls[call := Holding(calls[call].server)];
      return true;
    }

    /** Completes the completer and clears the field, as every way out of the `try` does. */
    method Release(call: CallId)
      modifies this
      ensures refreshLock == None && tokens == old(tokens) && calls == old(calls)[call := Returned]
    {
      refreshLock := None;
      calls := calls[call := Returned];
    }

    /** Reads the stored token, looks the server up (`known` says if that succeeds) and posts the
        token; without a token or server the call ends here. */
    method Post(call: CallId, known: bool, request: RequestId, ghost next: Hash, ghost s: State)
      returns (token: Option<Hash>)
      requires Mirrors(s) && call in calls && calls[call].Holding?
      requires request !in s.handlers && next !in s.mentioned
      modifies this
      ensures token.Some? <==>
        known && Enabled(s, Send(call, request, next)) && s.stored[s.calls[call].server] != ""
      ensures token.Some? ==>
        && Mirrors(Next(s, Send(call, request, next)))
        && Next(s, Send(call, request, next)).handlers[request] == Received(token.value, next)
      ensures token.None? ==> Enabled(s, GiveUp(call)) && Mirrors(Next(s, GiveUp(call)))
      ensures tokens == old(tokens)
      ensures var server := old(calls)[call].server;
        if token.Some? then
          && server in tokens && token == Some(tokens[server])
          && refreshLock == old(refreshLock) && calls == old(calls)[call := Sent(server, tokens[server], request)]
        else refreshLock == None && calls == old(calls)[call := Returned]
    {
      var server := calls[call].server;
      if server !in tokens || tokens[server] == "" || !known {
        Release(call);
        return None;
      }
      token := Some(tokens[server]);
      calls := calls[call := Sent(server, tokens[server], request)];
    }

    method OnResponse(call: CallId, response: Response, ghost s: State)
      requires Mirrors(s) && Enabled(s, Hear(call))
      requires response == match s.handlers[s.calls[call].request]
                           case Granted(n) => Tokens(n)
                           case _ => Unauthorized
      modifies this
      ensures Mirrors(Next(s, Hear(call)))
      ensures tokens == old(tokens)
      ensures match response
        case Tokens(next) =>
          refreshLock == old(refreshLock) && calls == old(calls)[call := Answered(old(calls)[call].server, next)]
        case Unauthorized => refreshLock == None && calls == old(calls)[call := Returned]
    {
      match response
      case Tokens(next) => calls := calls[call := Answered(calls[call].server, next)];
      case Unauthorized => Release(call);
    }

    method SaveTokens(call: CallId, ghost s: State)
      requires Mirrors(s) && Enabled(s, Save(call))
      modifies this
      ensures Mirrors(Next(s, Save(call)))
      ensures var Answered(server, next) := old(calls)[call];
        && tokens == old(tokens)[server := next]
        && refreshLock == old(refreshLock) && calls == old(calls)[call := Saved(server)]
    {
      var server, next := calls[call].server, calls[call].next;
      tokens := tokens[server := next];
      calls := calls[call := Saved(server)];
    }

    method Finish(call: CallId, ghost s: State)
      requires Mirrors(s) && Enabled(s, Leave(call))
      modifies this
      ensures Mirrors(Next(s, Leave(call)))
      ensures refreshLock == None && tokens == old(tokens) && calls == old(calls)[call := Returned]
    {
      Release(call);
    }
  }
}
