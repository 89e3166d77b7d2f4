/**
 Reading the state off the log: what is stored after a run is what the log says was issued and has not
 ended since. `introspect` and `userinfo` therefore answer exactly from the history of responses.
 */
module History {
  import opened Wrappers
  import opened Scope
  import opened Model

  // ----- runs -----

  ghost predicate WellKeyed(clients: map<string, Client>) {
    forall id | id in clients :: clients[id].clientId == id
  }

  /** The builder registers every client under its own id. */
  lemma {:induction false} BuilderIsWellKeyed(calls: seq<Registration>)
    ensures WellKeyed(Build(calls))
  {
    if calls != [] {
      BuilderIsWellKeyed(calls[..|calls| - 1]);
    }
  }

  /** The last registration of an id decides what the client is. */
  lemma {:induction false} BuilderKeepsTheLast(calls: seq<Registration>, k: nat)
    requires k < |calls| && forall l | k < l < |calls| :: calls[l].clientId != calls[k].clientId
    ensures calls[k].clientId in Build(calls)
    ensures var client := Build(calls)[calls[k].clientId];
              && client.clientSecret == calls[k].clientSecret
              && (forall uri :: uri in client.redirectUris <==> uri in calls[k].redirectUris)
              && (forall scope :: scope in client.allowedScopes <==> scope in calls[k].scopes)
  {
    if k < |calls| - 1 {
      BuilderKeepsTheLast(calls[..|calls| - 1], k);
    }
  }

  /** An id that is never registered is unknown, but for the default client, which is then as built in. */
  lemma {:induction false} BuilderStartsWithDefault(calls: seq<Registration>, id: string)
    requires forall k | 0 <= k < |calls| :: calls[k].clientId != id
    ensures id in Build(calls) <==> id == "mock-client"
    ensures id == "mock-client" ==>
              Build(calls)[id] == Client(id, "mock-secret", {"https://example.com/callback"},
                                         {"profile", "openid", "email"})
  {
    if calls != [] {
      BuilderStartsWithDefault(calls[..|calls| - 1], id);
    }
  }

  lemma {:induction false} RunStarts(env: Env, init: State, log: Log)
    requires Run(env, init, log)
    ensures Start(init)
    ensures WellKeyed(init.clients)
    ensures init == Initial(init.clients)
  {
    if log == [] {
      var calls :| init == Initial(Build(calls));
      BuilderIsWellKeyed(calls);
    } else {
      RunStarts(env, init, log[..|log| - 1]);
    }
  }

  lemma StepKeepsClients(env: Env, s: State, e: Event, o: Oracle)
    ensures Step(env, s, e, o).0.clients == s.clients
  {
  }

  lemma {:induction false} ClientsNeverChange(env: Env, init: State, log: Log)
    ensures After(env, init, log).clients == init.clients
  {
    if log != [] {
      var before, last := log[..|log| - 1], log[|log| - 1];
      StepKeepsClients(env, After(env, init, before), last.event, last.oracle);
      ClientsNeverChange(env, init, before);
    }
  }

  lemma {:induction false} RunOfPrefix(env: Env, init: State, log: Log, k: nat)
    requires Run(env, init, log) && k <= |log|
    ensures Run(env, init, log[..k])
  {
    if k == |log| {
      assert log[..k] == log;
    } else {
      RunOfPrefix(env, init, log[..|log| - 1], k);
      assert log[..|log| - 1][..k] == log[..k];
    }
  }

  /** Every entry of a run answers the state that the entries before it lead to. */
  lemma RunAt(env: Env, init: State, log: Log, k: nat)
    requires Run(env, init, log) && k < |log|
    ensures Run(env, init, log[..k]) && Run(env, init, log[..k + 1])
    ensures Plausible(After(env, init, log[..k]), log[..k], log[k].event, log[k].oracle)
    ensures (After(env, init, log[..k + 1]), log[k].response)
         == Step(env, After(env, init, log[..k]), log[k].event, log[k].oracle)
  {
    RunOfPrefix(env, init, log, k + 1);
    assert log[..k + 1][..k] == log[..k] && log[..k + 1][k] == log[k];
  }

  /** A run goes on with any plausible request. */
  lemma RunExtends(env: Env, init: State, log: Log, e: Event, o: Oracle)
    requires Run(env, init, log) && Plausible(After(env, init, log), log, e, o)
    ensures var (s', r) := Step(env, After(env, init, log), e, o);
              Run(env, init, log + [Entry(e, o, r)]) && After(env, init, log + [Entry(e, o, r)]) == s'
  {
    var more := log + [Entry(e, o, Step(env, After(env, init, log), e, o).1)];
    assert more[..|more| - 1] == log;
  }

  // ----- what an entry issues and ends -----

  datatype Kind = AccessTokens | RefreshTokens | Codes | Devices | Approvals

  /** The keys in use in one of the four collections, and the device codes that wait to be exchanged. */
  function Stored(s: State, kind: Kind): set<string> {
    match kind
    case AccessTokens => s.access
    case RefreshTokens => s.refresh.Keys
    case Codes => s.codes.Keys
    case Devices => s.devices.Keys
    case Approvals => set d | d in s.devices && s.devices[d].status.Approved?
  }

  /**
   The response gave `t` out. An authorization code is also stored, though given to nobody, when its
   registered redirect URI turns out not to be a URL.
   */
  predicate Issues(kind: Kind, e: Entry, t: string) {
    match kind
    case AccessTokens => e.response.Tokens? && e.response.accessToken == t
    case RefreshTokens => e.response.Tokens? && e.response.refreshToken == Some(t)
    case Codes =>
      && e.event.AuthorizeEvent? && e.oracle.code == t
      && (e.response.Redirect? || e.response == Failed(InvalidRequest(RedirectNotUrl)))
    case Devices => e.response.DeviceGrant? && e.response.deviceCode == t
    case Approvals => e.event.ApproveEvent? && e.response.Done? && e.oracle.pick == t
  }

  /** A token request that reaches the lookup of this code. */
  predicate PresentsCode(e: Event, code: string) {
    e.TokenEvent? && e.call.CodeCall? && e.call.code == code
  }

  predicate PresentsRefresh(e: Event, token: string) {
    e.TokenEvent? && e.call.RefreshCall? && e.call.token == token
  }

  predicate PresentsDevice(e: Event, deviceCode: string) {
    e.TokenEvent? && e.call.DeviceCall? && e.call.deviceCode == deviceCode
  }

  predicate Revokes(e: Event, token: string) {
    e.RevokeEvent? && e.named == Ok(token)
  }

  /**
   The entry puts an end to `t`: a revocation that names it, whoever sends it; any presentation of a code
   or refresh token, successful or not; a device exchange that fails to sign. An approval ends with a denial,
   with an exchange, with a presentation after the deadline, or with a new entry under the same code.
   */
  predicate Ends(kind: Kind, e: Entry, t: string) {
    match kind
    case AccessTokens => Revokes(e.event, t)
    case RefreshTokens => Revokes(e.event, t) || PresentsRefresh(e.event, t)
    case Codes => PresentsCode(e.event, t)
    case Devices => PresentsDevice(e.event, t) && e.response == Failed(ServerError)
    case Approvals =>
      || (e.event.DenyEvent? && e.response.Done? && e.oracle.pick == t)
      || (PresentsDevice(e.event, t)
          && (e.response.Tokens? || e.response == Failed(ExpiredToken) || e.response == Failed(ServerError)))
      || Issues(Devices, e, t)
  }

  ghost predicate UntouchedSince(kind: Kind, log: Log, i: nat, t: string) {
    forall j | i < j < |log| :: !Ends(kind, log[j], t)
  }

  /** `t` was issued, and nothing after that ended it. */
  ghost predicate Live(kind: Kind, log: Log, t: string) {
    exists i: nat | i < |log| :: Issues(kind, log[i], t) && UntouchedSince(kind, log, i, t)
  }

  lemma LiveStep(kind: Kind, log: Log, t: string)
    requires log != []
    ensures Live(kind, log, t) <==>
              || Issues(kind, log[|log| - 1], t)
              || (Live(kind, log[..|log| - 1], t) && !Ends(kind, log[|log| - 1], t))
  {
  }

  // ----- the reachable states -----

  ghost predicate SoundCode(env: Env, s: State, c: AuthorizationCode) {
    && c.clientId in s.clients
    && c.redirectUri in s.clients[c.clientId].redirectUris
    && c.scope != {} && c.scope <= s.clients[c.clientId].allowedScopes
    && (env.pkce ==> c.challenge.Some?)
  }

  /** What holds of every reachable state. */
  ghost predicate Sound(env: Env, s: State) {
    && WellKeyed(s.clients)
    && (forall c | c in s.codes :: SoundCode(env, s, s.codes[c]))
    && (forall t | t in s.refresh ::
          s.refresh[t].clientId in s.clients && s.refresh[t].scope <= s.clients[s.refresh[t].clientId].allowedScopes)
    && (forall d | d in s.devices ::
          s.devices[d].clientId in s.clients && s.devices[d].scope <= s.clients[s.devices[d].clientId].allowedScopes)
  }

  lemma AuthorizeKeepsSound(env: Env, s: State, e: Event, o: Oracle)
    requires Sound(env, s) && e.AuthorizeEvent?
    ensures Sound(env, AuthorizeStep(env, s, e, o).0)
  {
  }

  lemma IssueKeepsSound(env: Env, s: State, id: string, scope: set<string>, nonce: Option<string>, o: Oracle)
    requires Sound(env, s) && id in s.clients && scope <= s.clients[id].allowedScopes
    ensures Sound(env, IssueStep(s, s.clients[id], scope, nonce, o).0)
  {
  }

  lemma CodeKeepsSound(env: Env, s: State, call: TokenCall, o: Oracle)
    requires Sound(env, s) && call.CodeCall?
    ensures Sound(env, CodeStep(env, s, call, o).0)
  {
    if call.code in s.codes && CodeFault(env, s.codes[call.code], call).None? {
      var entry := s.codes[call.code];
      IssueKeepsSound(env, s.(codes := s.codes - {call.code}), entry.clientId, entry.scope, entry.nonce, o);
    }
  }

  lemma RefreshKeepsSound(env: Env, s: State, call: TokenCall, o: Oracle)
    requires Sound(env, s) && call.RefreshCall?
    ensures Sound(env, RefreshStep(s, call, o).0)
  {
    if call.token in s.refresh && s.refresh[call.token].clientId == call.caller.clientId {
      var entry := s.refresh[call.token];
      IssueKeepsSound(env, s.(refresh := s.refresh - {call.token}), entry.clientId, entry.scope, None, o);
    }
  }

  lemma DeviceKeepsSound(env: Env, s: State, call: TokenCall, o: Oracle)
    requires Sound(env, s) && call.DeviceCall?
    ensures Sound(env, DeviceStep(s, call, o).0)
  {
    if call.deviceCode in s.devices && s.devices[call.deviceCode].clientId == call.caller.clientId {
      var entry := s.devices[call.deviceCode];
      IssueKeepsSound(env, s.(devices := s.devices[call.deviceCode := entry.(status := Completed)]),
                      entry.clientId, entry.scope, None, o);
    }
  }

  lemma StepKeepsSound(env: Env, s: State, e: Event, o: Oracle)
    requires Sound(env, s)
    ensures Sound(env, Step(env, s, e, o).0)
  {
    match e
    case AuthorizeEvent(_, _, _, _, _, _, _, _) => AuthorizeKeepsSound(env, s, e, o);
    case TokenEvent(call) =>
      match call {
        case CodeCall(_, _, _, _) => CodeKeepsSound(env, s, call, o);
        case RefreshCall(_, _) => RefreshKeepsSound(env, s, call, o);
        case DeviceCall(_, _) => DeviceKeepsSound(env, s, call, o);
        case _ =>
      }
    case _ =>
  }

  /** Every stored grant names a registered client and stays within what that client is allowed. */
  lemma {:induction false} ReachableIsSound(env: Env, init: State, log: Log)
    requires Run(env, init, log)
    ensures Sound(env, After(env, init, log))
  {
    RunStarts(env, init, log);
    if log != [] {
      var before, last := log[..|log| - 1], log[|log| - 1];
      ReachableIsSound(env, init, before);
      StepKeepsSound(env, After(env, init, before), last.event, last.oracle);
    }
  }

  lemma NoDeadBranch(env: Env, s: State, call: TokenCall, o: Oracle)
    requires Sound(env, s) && (call.CodeCall? || call.RefreshCall? || call.DeviceCall?)
    ensures TokenStep(env, s, call, o).1 != Failed(InvalidClient(UnknownClient))
    ensures TokenStep(env, s, call, o).1 != Failed(InvalidGrant(NoChallenge))
  {
    match call
    case CodeCall(_, _, _, _) =>
      assert call.code in s.codes ==> SoundCode(env, s, s.codes[call.code]);
    case RefreshCall(_, _) =>
    case DeviceCall(_, _) =>
  }

  /**
   Error branches of the handlers that no run takes: once a code, refresh token or device entry has been
   found and matched with its client, that client is registered, and with PKCE the code has a challenge.
   */
  lemma DeadBranches(env: Env, init: State, log: Log, k: nat)
    requires Run(env, init, log) && k < |log| && log[k].event.TokenEvent?
    requires var call := log[k].event.call; call.CodeCall? || call.RefreshCall? || call.DeviceCall?
    ensures log[k].response != Failed(InvalidClient(UnknownClient))
    ensures log[k].response != Failed(InvalidGrant(NoChallenge))
  {
    RunAt(env, init, log, k);
    ReachableIsSound(env, init, log[..k]);
    NoDeadBranch(env, After(env, init, log[..k]), log[k].event.call, log[k].oracle);
  }

  /** A token response is made to its caller, for scopes the caller is allowed. */
  predicate WithinAllowance(clients: map<string, Client>, id: string, scope: set<string>) {
    id in clients && scope <= clients[id].allowedScopes
  }

  lemma TokenStepStaysWithin(env: Env, s: State, call: TokenCall, o: Oracle) returns (scope: set<string>)
    requires Sound(env, s) && TokenStep(env, s, call, o).1.Tokens?
    ensures !call.Refused? && WithinAllowance(s.clients, call.caller.clientId, scope)
    ensures var r := TokenStep(env, s, call, o).1; r.audience == call.caller.clientId && r.scope == ScopeText(scope)
  {
    match call
    case CodeCall(_, code, _, _) =>
      assert SoundCode(env, s, s.codes[code]);
      scope := s.codes[code].scope;
    case ClientCall(caller, requested) => scope := EffectiveScope(requested, s.clients[caller.clientId]);
    case RefreshCall(_, token) => scope := s.refresh[token].scope;
    case DeviceCall(_, deviceCode) => scope := s.devices[deviceCode].scope;
  }

  /** Every token of a run is for the client that asked, and names scopes that this client is allowed. */
  lemma TokensStayWithin(env: Env, init: State, log: Log, k: nat) returns (scope: set<string>)
    requires Run(env, init, log) && k < |log| && log[k].response.Tokens?
    ensures log[k].event.TokenEvent? && !log[k].event.call.Refused?
    ensures log[k].response.audience == log[k].event.call.caller.clientId
    ensures WithinAllowance(init.clients, log[k].response.audience, scope) && log[k].response.scope == ScopeText(scope)
  {
    var past := log[..k];
    RunAt(env, init, log, k);
    ReachableIsSound(env, init, past);
    ClientsNeverChange(env, init, past);
    scope := TokenStepStaysWithin(env, After(env, init, past), log[k].event.call, log[k].oracle);
  }

  /**
   A client gets a token in its own name exactly with its registered secret, when signing works. The token is
   for what it asked and is allowed, or for all it is allowed if it asked for nothing.
   */
  lemma ClientCredentials(env: Env, init: State, log: Log, k: nat)
    requires Run(env, init, log) && k < |log|
    requires log[k].event.TokenEvent? && log[k].event.call.ClientCall?
    ensures var caller := log[k].event.call.caller;
              log[k].response.Tokens? <==>
                && caller.clientId in init.clients && init.clients[caller.clientId].clientSecret == caller.clientSecret
                && log[k].oracle.accessToken.Some?
    ensures log[k].response.Tokens? ==>
              && log[k].response.refreshToken.None? && log[k].response.idToken.None?
              && var allowed := init.clients[log[k].event.call.caller.clientId].allowedScopes;
                 var requested := log[k].event.call.requested;
                 log[k].response.scope == ScopeText(if requested == {} then allowed else requested * allowed)
  {
    RunAt(env, init, log, k);
    ClientsNeverChange(env, init, log[..k]);
  }

  // ----- the state follows the log -----

  /** What one step changes in the collections: what it issues goes in, what it ends goes out. */
  ghost predicate Moves(s: State, e: Entry, s': State, kind: Kind, t: string) {
    t in Stored(s', kind) <==> Issues(kind, e, t) || (t in Stored(s, kind) && !Ends(kind, e, t))
  }

  lemma CodeMoves(env: Env, s: State, call: TokenCall, o: Oracle, kind: Kind, t: string)
    requires call.CodeCall?
    ensures var (s', r) := CodeStep(env, s, call, o); Moves(s, Entry(TokenEvent(call), o, r), s', kind, t)
  {
  }

  lemma RefreshMoves(s: State, call: TokenCall, o: Oracle, kind: Kind, t: string)
    requires call.RefreshCall?
    ensures var (s', r) := RefreshStep(s, call, o); Moves(s, Entry(TokenEvent(call), o, r), s', kind, t)
  {
  }

  lemma DeviceIssueMoves(env: Env, s: State, call: TokenCall, entry: Device, o: Oracle, kind: Kind, t: string)
    requires Sound(env, s) && call.DeviceCall?
    requires call.deviceCode in s.devices && s.devices[call.deviceCode] == entry
    requires entry.clientId == call.caller.clientId
    ensures var (s', r) := DeviceIssueStep(s, call, entry, o); Moves(s, Entry(TokenEvent(call), o, r), s', kind, t)
  {
  }

  /** The presentation of a device code reaches the exchange. */
  predicate Exchanges(s: State, call: TokenCall, o: Oracle)
    requires call.DeviceCall?
  {
    && call.deviceCode in s.devices && s.devices[call.deviceCode].clientId == call.caller.clientId
    && StatusAt(s.devices[call.deviceCode], o.now).Approved?
  }

  lemma DeviceWaitMoves(env: Env, s: State, call: TokenCall, o: Oracle, kind: Kind, t: string)
    requires call.DeviceCall? && !Exchanges(s, call, o)
    ensures var (s', r) := DeviceStep(s, call, o); Moves(s, Entry(TokenEvent(call), o, r), s', kind, t)
  {
  }

  lemma DeviceMoves(env: Env, s: State, call: TokenCall, o: Oracle, kind: Kind, t: string)
    requires Sound(env, s) && call.DeviceCall?
    ensures var (s', r) := DeviceStep(s, call, o); Moves(s, Entry(TokenEvent(call), o, r), s', kind, t)
  {
    if Exchanges(s, call, o) {
      var entry := s.devices[call.deviceCode];
      var (s', r) := DeviceIssueStep(s, call, entry, o);
      assert DeviceStep(s, call, o) == (s', r);
      DeviceIssueMoves(env, s, call, entry, o, kind, t);
    } else {
      DeviceWaitMoves(env, s, call, o, kind, t);
    }
  }

  lemma AuthorizeMoves(env: Env, s: State, e: Event, o: Oracle, kind: Kind, t: string)
    requires e.AuthorizeEvent?
    ensures var (s', r) := AuthorizeStep(env, s, e, o); Moves(s, Entry(e, o, r), s', kind, t)
  {
  }

  lemma DeviceEventMoves(env: Env, s: State, e: Event, o: Oracle, kind: Kind, t: string)
    requires e.DeviceEvent?
    ensures var (s', r) := DeviceAuthorizationStep(env, s, e.clientId, e.requested, o);
              Moves(s, Entry(e, o, r), s', kind, t)
  {
  }

  lemma DecideMoves(s: State, e: Event, o: Oracle, kind: Kind, t: string)
    requires e.ApproveEvent? || e.DenyEvent?
    ensures var (s', r) := DecideStep(s, e.userCode, if e.ApproveEvent? then Approved else Denied, o);
              Moves(s, Entry(e, o, r), s', kind, t)
  {
  }

  lemma TokenMoves(env: Env, s: State, call: TokenCall, o: Oracle, kind: Kind, t: string)
    requires Sound(env, s)
    ensures var (s', r) := TokenStep(env, s, call, o); Moves(s, Entry(TokenEvent(call), o, r), s', kind, t)
  {
    match call
    case CodeCall(_, _, _, _) => CodeMoves(env, s, call, o, kind, t);
    case RefreshCall(_, _) => RefreshMoves(s, call, o, kind, t);
    case DeviceCall(_, _) => DeviceMoves(env, s, call, o, kind, t);
    case _ =>
  }

  lemma StepMoves(env: Env, s: State, e: Event, o: Oracle, kind: Kind, t: string)
    requires Sound(env, s)
    ensures var (s', r) := Step(env, s, e, o); Moves(s, Entry(e, o, r), s', kind, t)
  {
    match e
    case AuthorizeEvent(_, _, _, _, _, _, _, _) => AuthorizeMoves(env, s, e, o, kind, t);
    case DeviceEvent(_, _) => DeviceEventMoves(env, s, e, o, kind, t);
    case ApproveEvent(_) => DecideMoves(s, e, o, kind, t);
    case DenyEvent(_) => DecideMoves(s, e, o, kind, t);
    case TokenEvent(call) => TokenMoves(env, s, call, o, kind, t);
    case _ =>
  }

  /**
   A string is stored in a collection exactly when the log says it is live: an access token is good iff some
   response gave it out and no later revocation named it; a refresh token iff it has since been neither
   revoked nor presented, even by the wrong client; a device entry disappears only when signing fails.
   */
  lemma {:induction false} StateFollowsLog(env: Env, init: State, log: Log, kind: Kind, t: string)
    requires Run(env, init, log)
    ensures t in Stored(After(env, init, log), kind) <==> Live(kind, log, t)
  {
    if log == [] {
      RunStarts(env, init, log);
    } else {
      var before, last := log[..|log| - 1], log[|log| - 1];
      StateFollowsLog(env, init, before, kind, t);
      LiveStep(kind, log, t);
      ReachableIsSound(env, init, before);
      StepMoves(env, After(env, init, before), last.event, last.oracle, kind, t);
    }
  }

  /** `introspect` answers from the history of the responses (section 2.2 of RFC 7662). */
  lemma IntrospectionFollowsLog(env: Env, init: State, log: Log, k: nat, t: string)
    requires Run(env, init, log) && k < |log|
    requires log[k].event == IntrospectEvent(Ok(t))
    ensures log[k].response == Introspection(Live(AccessTokens, log[..k], t) || Live(RefreshTokens, log[..k], t))
  {
    RunAt(env, init, log, k);
    StateFollowsLog(env, init, log[..k], AccessTokens, t);
    StateFollowsLog(env, init, log[..k], RefreshTokens, t);
  }

  /** `userinfo` serves the claims exactly to the access tokens that are live. */
  lemma UserInfoFollowsLog(env: Env, init: State, log: Log, k: nat, t: string)
    requires Run(env, init, log) && k < |log|
    requires log[k].event == UserInfoEvent(Ok(t))
    ensures log[k].response ==
              if Live(AccessTokens, log[..k], t) then Claims else Failed(InvalidToken(UnknownAccessToken))
  {
    RunAt(env, init, log, k);
    StateFollowsLog(env, init, log[..k], AccessTokens, t);
  }

  // ----- what is stored was generated -----

  /** A response to a token request gives out no other refresh token than the one just drawn. */
  lemma TokenRequestDraws(env: Env, s: State, call: TokenCall, o: Oracle)
    ensures var r := TokenStep(env, s, call, o).1;
              && (r.Failed? || r.Tokens?)
              && (r.Tokens? && r.refreshToken.Some? ==> r.refreshToken == Some(o.code))
  {
  }

  /** The other requests give out no tokens, and a device code only if it was just drawn. */
  lemma OtherRequestDraws(env: Env, s: State, e: Event, o: Oracle)
    requires !e.TokenEvent?
    ensures var r := Step(env, s, e, o).1;
              !r.Tokens? && (r.DeviceGrant? ==> e.DeviceEvent? && r.deviceCode == o.code)
  {
  }

  lemma IssuedWasDrawn(env: Env, init: State, log: Log, i: nat, kind: Kind, t: string)
    requires Run(env, init, log) && i < |log| && kind != AccessTokens && kind != Approvals && Issues(kind, log[i], t)
    ensures Draws(log[i].event) && log[i].oracle.code == t
  {
    RunAt(env, init, log, i);
    if log[i].event.TokenEvent? {
      TokenRequestDraws(env, After(env, init, log[..i]), log[i].event.call, log[i].oracle);
    } else {
      OtherRequestDraws(env, After(env, init, log[..i]), log[i].event, log[i].oracle);
    }
  }

  /** Every stored code, refresh token and device code came out of the generator. */
  lemma StoredWasGenerated(env: Env, init: State, log: Log, kind: Kind, t: string)
    requires Run(env, init, log) && t in Stored(After(env, init, log), kind)
    requires kind != AccessTokens && kind != Approvals
    ensures t in Generated(log)
  {
    StateFollowsLog(env, init, log, kind, t);
    var i: nat :| i < |log| && Issues(kind, log[i], t);
    IssuedWasDrawn(env, init, log, i, kind, t);
  }

  lemma DrawnBefore(log: Log, i: nat, j: nat)
    requires i < j < |log| && Draws(log[i].event)
    ensures log[i].oracle.code in Generated(log[..j])
  {
    assert log[..j][i] == log[i];
  }

  lemma NotDrawnAgain(env: Env, init: State, log: Log, i: nat)
    requires Run(env, init, log) && i < |log| - 1 && Draws(log[i].event)
    ensures Draws(log[|log| - 1].event) ==> log[|log| - 1].oracle.code != log[i].oracle.code
  {
    DrawnBefore(log, i, |log| - 1);
  }

  /** The generator's freshness: two entries never draw the same string. */
  lemma DrawnOnce(env: Env, init: State, log: Log, i: nat, j: nat)
    requires Run(env, init, log) && i < |log| && j < |log|
    requires Draws(log[i].event) && Draws(log[j].event) && log[i].oracle.code == log[j].oracle.code
    ensures i == j
  {
    if i < j {
      DrawnBefore(log, i, j);
      RunAt(env, init, log, j);
    } else if j < i {
      DrawnBefore(log, j, i);
      RunAt(env, init, log, i);
    }
  }
}
