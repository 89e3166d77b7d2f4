/**
 The state of the mock authorization server and what one request does to it.

 Each handler holds the write lock from its first access to the state until it returns, so a request
 is one atomic step. The specification of a step separates what a handler reads from the request alone
 (`Read`: credentials, dispatch, missing parameters, parsed scopes) from the transition it then performs on
 the state (`Step`).

 What the server draws from outside is in `Oracle`: the clock, the random strings, the signed tokens
 (`None` where signing fails) and the entry the hash map yields first when several user codes match.
 What its libraries compute is in `Env`.
 */
module Model {
  import opened Wrappers
  import opened Text
  import opened Scope

  // ----- library functions and features -----

  datatype Decoded = NotBase64 | NotUtf8 | Decoded(text: string)

  datatype Env = Env(
    s256: string -> string,          // URL-safe base64 of the SHA-256 digest
    parsesAsUrl: string -> bool,     // Url::parse succeeds
    decodeBasic: string -> Decoded,  // base64, then UTF-8
    pkce: bool,                      // the feature "pkce"
    deviceCode: bool)                // the feature "device_code"

  /** Nanoseconds. */
  type Time = int

  const DEVICE_LIFETIME: Time := 10 * 60 * 1_000_000_000

  datatype Oracle = Oracle(
    now: Time,
    code: string,
    userCode: string,
    accessToken: Option<string>,
    idToken: Option<string>,
    pick: string)

  /** Both the access and the id token are signed. */
  predicate SigningWorks(o: Oracle) {
    o.accessToken.Some? && o.idToken.Some?
  }

  /** The oracle of a request that draws nothing. */
  const QUIET := Oracle(0, "", "", None, None, "")

  // ----- state -----

  datatype Client = Client(
    clientId: string,
    clientSecret: string,
    redirectUris: set<string>,
    allowedScopes: set<string>)

  datatype AuthorizationCode = AuthorizationCode(
    clientId: string,
    redirectUri: string,
    scope: set<string>,
    challenge: Option<string>,
    nonce: Option<string>)

  datatype RefreshToken = RefreshToken(clientId: string, scope: set<string>)

  const U32: nat := 0x1_0000_0000

  type u32 = n: nat | n < U32

  datatype Status = Pending(pollCount: u32) | Approved | Denied | Expired | Completed

  datatype Device = Device(
    clientId: string,
    scope: set<string>,
    userCode: string,
    expiresAt: Time,
    status: Status)

  datatype State = State(
    clients: map<string, Client>,
    codes: map<string, AuthorizationCode>,
    refresh: map<string, RefreshToken>,
    access: set<string>,
    devices: map<string, Device>)

  // ----- the builder -----

  datatype Registration = Registration(
    clientId: string,
    clientSecret: string,
    redirectUris: seq<string>,
    scopes: seq<string>)

  function DefaultClients(): map<string, Client> {
    map["mock-client" := Client(
      "mock-client", "mock-secret", {"https://example.com/callback"}, {"openid", "profile", "email"})]
  }

  /** `with_client`: adds or replaces a client. */
  function WithClient(clients: map<string, Client>, r: Registration): map<string, Client> {
    clients[r.clientId := Client(
      r.clientId, r.clientSecret, set u | u in r.redirectUris, set s | s in r.scopes)]
  }

  function Build(calls: seq<Registration>): map<string, Client> {
    if calls == [] then DefaultClients()
    else WithClient(Build(calls[..|calls| - 1]), calls[|calls| - 1])
  }

  /** The state a server starts in. */
  function Initial(clients: map<string, Client>): State {
    State(clients, map[], map[], {}, map[])
  }

  // ----- requests and responses -----

  /** A header whose bytes are not visible ASCII has no text. */
  datatype Header = Opaque | Text(text: string)

  datatype AuthorizeQuery = AuthorizeQuery(
    responseType: string,
    clientId: string,
    redirectUri: string,
    scope: Option<string>,
    state: Option<string>,
    challenge: Option<string>,
    challengeMethod: Option<string>,
    nonce: Option<string>)

  datatype TokenForm = TokenForm(
    grantType: string,
    code: Option<string>,
    redirectUri: Option<string>,
    codeVerifier: Option<string>,
    refreshToken: Option<string>,
    clientId: Option<string>,
    clientSecret: Option<string>,
    deviceCode: Option<string>,
    scope: Option<string>)

  datatype Request =
    | Authorize(query: AuthorizeQuery)
    | Token(authorization: Option<Header>, form: TokenForm)
    | DeviceAuthorization(clientId: string, scope: Option<string>)
    | UserInfo(authorization: Option<Header>)
    | Introspect(authorization: Option<Header>, token: Option<string>)
    | Revoke(authorization: Option<Header>, token: Option<string>)
    | Approve(userCode: string)
    | Deny(userCode: string)

  datatype IdToken = IdToken(text: string, nonce: Option<string>)

  datatype Response =
    | Redirect(uri: string, code: string, state: Option<string>)
    | Tokens(
        accessToken: string,
        audience: string,
        scope: string,
        idToken: Option<IdToken>,
        refreshToken: Option<string>)
    | DeviceGrant(deviceCode: string, userCode: string)
    | Claims
    | Introspection(active: bool)
    | Done
    | NoSuchUserCode
    | Failed(error: MockError)

  datatype MockError =
    | InvalidRequest(request: RequestFault)
    | InvalidClient(client: ClientFault)
    | InvalidGrant(grant: GrantFault)
    | InvalidScope
    | InvalidToken(token: TokenFault)
    | AccessDenied
    | AuthorizationPending
    | SlowDown
    | ExpiredToken
    | ServerError

  datatype RequestFault =
    | UnsupportedResponseType | RedirectNotRegistered | MethodNotS256 | MissingMethod | MissingChallenge
    | RedirectNotUrl | UnsupportedGrantType | MissingParameter | DeviceCodeDisabled

  datatype ClientFault =
    | UnknownClient | WrongSecret | BadAuthorization | MissingCredential | DeviceOfOtherClient

  datatype GrantFault =
    | UnknownCode | CodeOfOtherClient | RedirectMismatch | NoChallenge | VerifierMismatch
    | UnknownRefreshToken | RefreshOfOtherClient | UnknownDeviceCode | DeviceUsed

  datatype TokenFault = NoBearer | UnknownAccessToken

  // ----- what a handler reads from the request alone -----

  datatype Credentials = Credentials(clientId: string, clientSecret: string)

  function ExtractCredentials(
    env: Env,
    authorization: Option<Header>,
    clientId: Option<string>,
    clientSecret: Option<string>): Result<Credentials, MockError>
  {
    match authorization
    case Some(Opaque) => Err(InvalidClient(BadAuthorization))
    case Some(Text(text)) =>
      var encoded := StripPrefix(text, "Basic ");
      if encoded.None? || !env.decodeBasic(encoded.value).Decoded? then Err(InvalidClient(BadAuthorization))
      else (
        match SplitOnce(env.decodeBasic(encoded.value).text, ':')
        case Some((id, secret)) => Ok(Credentials(id, secret))
        case None => Err(InvalidClient(BadAuthorization)))
    case None =>
      if clientId.None? || clientSecret.None? then Err(InvalidClient(MissingCredential))
      else Ok(Credentials(clientId.value, clientSecret.value))
  }

  function ExtractBearer(authorization: Option<Header>): Result<string, MockError> {
    match authorization
    case Some(Text(text)) =>
      (match StripPrefix(text, "Bearer ")
       case Some(token) => Ok(token)
       case None => Err(InvalidToken(NoBearer)))
    case _ => Err(InvalidToken(NoBearer))
  }

  /** The token that an introspection or a revocation names, once its credentials have been read. */
  function TokenParameter(env: Env, authorization: Option<Header>, token: Option<string>): Result<string, MockError> {
    match ExtractCredentials(env, authorization, None, None)
    case Err(e) => Err(e)
    case Ok(_) => if token.None? then Err(InvalidRequest(MissingParameter)) else Ok(token.value)
  }

  /** A token request with its credentials, dispatched on its grant type. The verifier is read only with PKCE. */
  datatype TokenCall =
    | CodeCall(caller: Credentials, code: string, redirectUri: string, verifier: string)
    | ClientCall(caller: Credentials, requested: set<string>)
    | RefreshCall(caller: Credentials, token: string)
    | DeviceCall(caller: Credentials, deviceCode: string)
    | Refused(error: MockError)

  function ReadToken(env: Env, authorization: Option<Header>, form: TokenForm): TokenCall {
    match ExtractCredentials(env, authorization, form.clientId, form.clientSecret)
    case Err(e) => Refused(e)
    case Ok(caller) =>
      if form.grantType == "authorization_code" then
        if form.code.None? || form.redirectUri.None? || (env.pkce && form.codeVerifier.None?)
        then Refused(InvalidRequest(MissingParameter))
        else CodeCall(caller, form.code.value, form.redirectUri.value,
                      if env.pkce then form.codeVerifier.value else "")
      else if form.grantType == "client_credentials" then
        ClientCall(caller, ParseScope(form.scope))
      else if form.grantType == "refresh_token" then
        if form.refreshToken.None? then Refused(InvalidRequest(MissingParameter))
        else RefreshCall(caller, form.refreshToken.value)
      else if form.grantType == "urn:ietf:params:oauth:grant-type:device_code" || form.grantType == "device_code" then
        if form.deviceCode.None? then Refused(InvalidRequest(MissingParameter))
        else DeviceCall(caller, form.deviceCode.value)
      else Refused(InvalidRequest(UnsupportedGrantType))
  }

  datatype PkceMethod = S256 | OtherMethod | NoMethod

  /** A request as its handler understands it before it looks at the state. */
  datatype Event =
    | AuthorizeEvent(
        codeResponse: bool,
        clientId: string,
        redirectUri: string,
        requested: set<string>,
        state: Option<string>,
        challenge: Option<string>,
        pkceMethod: PkceMethod,
        nonce: Option<string>)
    | TokenEvent(call: TokenCall)
    | DeviceEvent(clientId: string, requested: set<string>)
    | UserInfoEvent(bearer: Result<string, MockError>)
    | IntrospectEvent(named: Result<string, MockError>)
    | RevokeEvent(named: Result<string, MockError>)
    | ApproveEvent(userCode: string)
    | DenyEvent(userCode: string)

  function ReadAuthorize(q: AuthorizeQuery): Event {
    AuthorizeEvent(
      q.responseType == "code", q.clientId, q.redirectUri, ParseScope(q.scope), q.state, q.challenge,
      match q.challengeMethod
      case None => NoMethod
      case Some(m) => if m == "S256" then S256 else OtherMethod,
      q.nonce)
  }

  function Read(env: Env, request: Request): Event {
    match request
    case Authorize(q) => ReadAuthorize(q)
    case Token(authorization, form) => TokenEvent(ReadToken(env, authorization, form))
    case DeviceAuthorization(clientId, scope) => DeviceEvent(clientId, ParseScope(scope))
    case UserInfo(authorization) => UserInfoEvent(ExtractBearer(authorization))
    case Introspect(authorization, token) => IntrospectEvent(TokenParameter(env, authorization, token))
    case Revoke(authorization, token) => RevokeEvent(TokenParameter(env, authorization, token))
    case Approve(userCode) => ApproveEvent(userCode)
    case Deny(userCode) => DenyEvent(userCode)
  }

  // ----- transitions -----

  function PkceFault(e: Event): Option<RequestFault>
    requires e.AuthorizeEvent?
  {
    match e.pkceMethod
    case NoMethod => Some(MissingMethod)
    case OtherMethod => Some(MethodNotS256)
    case S256 => if e.challenge.None? then Some(MissingChallenge) else None
  }

  /** An empty scope request stands for everything the client is allowed. */
  function EffectiveScope(requested: set<string>, client: Client): set<string> {
    if requested == {} then client.allowedScopes else requested * client.allowedScopes
  }

  function AuthorizeStep(env: Env, s: State, e: Event, o: Oracle): (State, Response)
    requires e.AuthorizeEvent?
  {
    if !e.codeResponse then
      (s, Failed(InvalidRequest(UnsupportedResponseType)))
    else if e.clientId !in s.clients then
      (s, Failed(InvalidClient(UnknownClient)))
    else
      var client := s.clients[e.clientId];
      var allowed := e.requested * client.allowedScopes;
      if e.redirectUri !in client.redirectUris then
        (s, Failed(InvalidRequest(RedirectNotRegistered)))
      else if allowed == {} then
        (s, Failed(InvalidScope))
      else if env.pkce && PkceFault(e).Some? then
        (s, Failed(InvalidRequest(PkceFault(e).value)))
      else
        var entry := AuthorizationCode(client.clientId, e.redirectUri, allowed, e.challenge, e.nonce);
        (s.(codes := s.codes[o.code := entry]),
         if env.parsesAsUrl(e.redirectUri) then Redirect(e.redirectUri, o.code, e.state)
         else Failed(InvalidRequest(RedirectNotUrl)))
  }

  /** Signs an access and an id token and stores a new refresh token; nothing is stored if signing fails. */
  ghost function IssueStep(s: State, client: Client, scope: set<string>, nonce: Option<string>, o: Oracle)
    : (State, Response)
  {
    if o.accessToken.None? || o.idToken.None? then
      (s, Failed(ServerError))
    else
      (s.(refresh := s.refresh[o.code := RefreshToken(client.clientId, scope)],
          access := s.access + {o.accessToken.value}),
       Tokens(o.accessToken.value, client.clientId, ScopeText(scope),
              Some(IdToken(o.idToken.value, nonce)), Some(o.code)))
  }

  /** Why a code that was found must not be exchanged. */
  function CodeFault(env: Env, entry: AuthorizationCode, call: TokenCall): Option<GrantFault>
    requires call.CodeCall?
  {
    if entry.clientId != call.caller.clientId then Some(CodeOfOtherClient)
    else if entry.redirectUri != call.redirectUri then Some(RedirectMismatch)
    else if env.pkce && entry.challenge.None? then Some(NoChallenge)
    else if env.pkce && env.s256(call.verifier) != entry.challenge.value then Some(VerifierMismatch)
    else None
  }

  ghost function CodeStep(env: Env, s: State, call: TokenCall, o: Oracle): (State, Response)
    requires call.CodeCall?
  {
    if call.code !in s.codes then
      (s, Failed(InvalidGrant(UnknownCode)))
    else
      var entry := s.codes[call.code];
      var burnt := s.(codes := s.codes - {call.code});
      if CodeFault(env, entry, call).Some? then
        (burnt, Failed(InvalidGrant(CodeFault(env, entry, call).value)))
      else if call.caller.clientId !in s.clients then
        (burnt, Failed(InvalidClient(UnknownClient)))
      else
        IssueStep(burnt, s.clients[call.caller.clientId], entry.scope, entry.nonce, o)
  }

  ghost function ClientStep(s: State, call: TokenCall, o: Oracle): (State, Response)
    requires call.ClientCall?
  {
    if call.caller.clientId !in s.clients then
      (s, Failed(InvalidClient(UnknownClient)))
    else
      var client := s.clients[call.caller.clientId];
      if client.clientSecret != call.caller.clientSecret then
        (s, Failed(InvalidClient(WrongSecret)))
      else if o.accessToken.None? then
        (s, Failed(ServerError))
      else
        (s.(access := s.access + {o.accessToken.value}),
         Tokens(o.accessToken.value, client.clientId, ScopeText(EffectiveScope(call.requested, client)), None, None))
  }

  ghost function RefreshStep(s: State, call: TokenCall, o: Oracle): (State, Response)
    requires call.RefreshCall?
  {
    if call.token !in s.refresh then
      (s, Failed(InvalidGrant(UnknownRefreshToken)))
    else
      var entry := s.refresh[call.token];
      var burnt := s.(refresh := s.refresh - {call.token});
      if entry.clientId != call.caller.clientId then
        (burnt, Failed(InvalidGrant(RefreshOfOtherClient)))
      else if call.caller.clientId !in s.clients then
        (burnt, Failed(InvalidClient(UnknownClient)))
      else
        IssueStep(burnt, s.clients[call.caller.clientId], entry.scope, None, o)
  }

  /** `*poll_count += 1` on a `u32`, as a release build computes it. */
  function NextPoll(n: u32): u32 {
    (n + 1) % U32
  }

  /** The status a device entry has at a time: the deadline overrides whatever was stored. */
  function StatusAt(d: Device, now: Time): Status {
    if now > d.expiresAt then Expired else d.status
  }

  /** The exchange of an approved entry: completed, or lost where an early return skips the reinsertion. */
  ghost function DeviceIssueStep(s: State, call: TokenCall, entry: Device, o: Oracle): (State, Response)
    requires call.DeviceCall?
  {
    var lost := s.(devices := s.devices - {call.deviceCode});
    var completed := s.(devices := s.devices[call.deviceCode := entry.(status := Completed)]);
    if call.caller.clientId !in s.clients then
      (lost, Failed(InvalidClient(UnknownClient)))
    else if o.accessToken.None? || o.idToken.None? then
      (lost, Failed(ServerError))
    else
      IssueStep(completed, s.clients[call.caller.clientId], entry.scope, None, o)
  }

  ghost function DeviceStep(s: State, call: TokenCall, o: Oracle): (State, Response)
    requires call.DeviceCall?
  {
    if call.deviceCode !in s.devices then
      (s, Failed(InvalidGrant(UnknownDeviceCode)))
    else
      var entry := s.devices[call.deviceCode];
      if entry.clientId != call.caller.clientId then
        (s, Failed(InvalidClient(DeviceOfOtherClient)))
      else
        match StatusAt(entry, o.now)
        case Pending(n) =>
          (s.(devices := s.devices[call.deviceCode := entry.(status := Pending(NextPoll(n)))]),
           Failed(if NextPoll(n) % 3 == 0 then SlowDown else AuthorizationPending))
        case Approved => DeviceIssueStep(s, call, entry, o)
        case Denied => (s, Failed(AccessDenied))
        case Expired =>
          (s.(devices := s.devices[call.deviceCode := entry.(status := Expired)]), Failed(ExpiredToken))
        case Completed => (s, Failed(InvalidGrant(DeviceUsed)))
  }

  ghost function TokenStep(env: Env, s: State, call: TokenCall, o: Oracle): (State, Response)
  {
    match call
    case CodeCall(_, _, _, _) => CodeStep(env, s, call, o)
    case ClientCall(_, _) => ClientStep(s, call, o)
    case RefreshCall(_, _) => RefreshStep(s, call, o)
    case DeviceCall(_, _) => DeviceStep(s, call, o)
    case Refused(e) => (s, Failed(e))
  }

  function DeviceAuthorizationStep(env: Env, s: State, clientId: string, requested: set<string>, o: Oracle)
    : (State, Response)
  {
    if !env.deviceCode then
      (s, Failed(InvalidRequest(DeviceCodeDisabled)))
    else if clientId !in s.clients then
      (s, Failed(InvalidClient(UnknownClient)))
    else
      var client := s.clients[clientId];
      var userCode := AsciiUpper(o.userCode);
      var scope := EffectiveScope(requested, client);
      var entry := Device(client.clientId, scope, userCode, o.now + DEVICE_LIFETIME, Pending(0));
      (s.(devices := s.devices[o.code := entry]), DeviceGrant(o.code, userCode))
  }

  predicate MatchesUserCode(s: State, key: string, userCode: string) {
    key in s.devices && EqIgnoreAsciiCase(s.devices[key].userCode, userCode)
  }

  function DecideStep(s: State, userCode: string, verdict: Status, o: Oracle): (State, Response) {
    if MatchesUserCode(s, o.pick, userCode) then
      (s.(devices := s.devices[o.pick := s.devices[o.pick].(status := verdict)]), Done)
    else
      (s, NoSuchUserCode)
  }

  function UserInfoAnswer(s: State, bearer: Result<string, MockError>): Response {
    match bearer
    case Err(e) => Failed(e)
    case Ok(token) => if token in s.access then Claims else Failed(InvalidToken(UnknownAccessToken))
  }

  function IntrospectAnswer(s: State, named: Result<string, MockError>): Response {
    match named
    case Err(e) => Failed(e)
    case Ok(t) => Introspection(t in s.access || t in s.refresh)
  }

  function RevokeStep(s: State, named: Result<string, MockError>): (State, Response) {
    match named
    case Err(e) => (s, Failed(e))
    case Ok(t) => (s.(access := s.access - {t}, refresh := s.refresh - {t}), Done)
  }

  /** What one request does. */
  ghost function Step(env: Env, s: State, e: Event, o: Oracle): (State, Response) {
    match e
    case AuthorizeEvent(_, _, _, _, _, _, _, _) => AuthorizeStep(env, s, e, o)
    case TokenEvent(call) => TokenStep(env, s, call, o)
    case DeviceEvent(clientId, requested) => DeviceAuthorizationStep(env, s, clientId, requested, o)
    case UserInfoEvent(bearer) => (s, UserInfoAnswer(s, bearer))
    case IntrospectEvent(named) => (s, IntrospectAnswer(s, named))
    case RevokeEvent(named) => RevokeStep(s, named)
    case ApproveEvent(userCode) => DecideStep(s, userCode, Approved, o)
    case DenyEvent(userCode) => DecideStep(s, userCode, Denied, o)
  }

  // ----- runs -----

  /** One request of a run, what was drawn for it, and its response. */
  datatype Entry = Entry(event: Event, oracle: Oracle, response: Response)

  type Log = seq<Entry>

  /** The state a log of requests leads to. */
  ghost function After(env: Env, init: State, log: Log): State {
    if log == [] then init
    else
      var last := log[|log| - 1];
      Step(env, After(env, init, log[..|log| - 1]), last.event, last.oracle).0
  }

  /** The requests whose handlers may call `generate_code`. */
  predicate Draws(e: Event) {
    e.AuthorizeEvent? || e.TokenEvent? || e.DeviceEvent?
  }

  /** Every string `generate_code` has produced. */
  ghost function Generated(log: Log): set<string> {
    set i | 0 <= i < |log| && Draws(log[i].event) :: log[i].oracle.code
  }

  /**
   The assumptions on what is drawn: 32 random characters never repeat, and the search for a user code
   finds some matching entry if there is one. Nothing is assumed of the clock or of the signed tokens.
   */
  ghost predicate Plausible(s: State, log: Log, e: Event, o: Oracle) {
    && (Draws(e) ==> o.code !in Generated(log))
    && (e.ApproveEvent? || e.DenyEvent? ==>
          forall key | MatchesUserCode(s, key, e.userCode) :: MatchesUserCode(s, o.pick, e.userCode))
  }

  /** The server starts empty, with the clients some builder registered. */
  ghost predicate Start(init: State) {
    exists calls: seq<Registration> :: init == Initial(Build(calls))
  }

  /** The log records a run from `init`: any sequence of requests, made by any clients. */
  ghost predicate Run(env: Env, init: State, log: Log) {
    if log == [] then Start(init)
    else
      var before, last := log[..|log| - 1], log[|log| - 1];
      && Run(env, init, before)
      && Plausible(After(env, init, before), before, last.event, last.oracle)
      && last.response == Step(env, After(env, init, before), last.event, last.oracle).1
  }
}
