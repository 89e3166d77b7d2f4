/** Every answer of the endpoints, read off the log and the fields of the requests. */
module Answers {
  import opened Wrappers
  import opened Scope
  import opened Model
  import opened History
  import opened Requests
  import Codes
  import Families

  // ----- the authorization endpoint -----

  /** The client and its redirect URI are registered. */
  predicate Registered(clients: map<string, Client>, q: AuthorizeQuery) {
    q.clientId in clients && q.redirectUri in clients[q.clientId].redirectUris
  }

  /** The request is for the code flow of a registered client and redirect URI, for some scope it is allowed. */
  predicate Admissible(clients: map<string, Client>, q: AuthorizeQuery) {
    && q.responseType == "code" && Registered(clients, q)
    && exists w | w in ParseScope(q.scope) :: w in clients[q.clientId].allowedScopes
  }

  lemma SomeAllowed(requested: set<string>, allowed: set<string>)
    ensures requested * allowed == {} <==> !exists w | w in requested :: w in allowed
  {
    if w :| w in requested && w in allowed {
      assert w in requested * allowed;
    }
    if w :| w in requested * allowed {
      assert w in requested && w in allowed;
    }
  }

  lemma AuthorizeStepAnswers(env: Env, s: State, q: AuthorizeQuery, o: Oracle)
    ensures var r, clients := AuthorizeStep(env, s, ReadAuthorize(q), o).1, s.clients;
            var withS256 := q.challengeMethod == Some("S256") && q.challenge.Some?;
              && (r == Failed(InvalidRequest(UnsupportedResponseType)) <==> q.responseType != "code")
              && (r == Failed(InvalidClient(UnknownClient)) <==> q.responseType == "code" && q.clientId !in clients)
              && (r == Failed(InvalidRequest(RedirectNotRegistered)) <==>
                    q.responseType == "code" && q.clientId in clients && !Registered(clients, q))
              && (r == Failed(InvalidScope) <==>
                    q.responseType == "code" && Registered(clients, q) && !Admissible(clients, q))
              && (r == Failed(InvalidRequest(MissingMethod)) <==>
                    Admissible(clients, q) && env.pkce && q.challengeMethod.None?)
              && (r == Failed(InvalidRequest(MethodNotS256)) <==>
                    Admissible(clients, q) && env.pkce && q.challengeMethod.Some? && q.challengeMethod.value != "S256")
              && (r == Failed(InvalidRequest(MissingChallenge)) <==>
                    Admissible(clients, q) && env.pkce && q.challengeMethod == Some("S256") && q.challenge.None?)
              && (Issues(Kind.Codes, Entry(ReadAuthorize(q), o, r), o.code) <==>
                    Admissible(clients, q) && (env.pkce ==> withS256))
              && (r == Failed(InvalidRequest(RedirectNotUrl)) <==>
                    Admissible(clients, q) && (env.pkce ==> withS256) && !env.parsesAsUrl(q.redirectUri))
              && (r == Redirect(q.redirectUri, o.code, q.state) <==>
                    Admissible(clients, q) && (env.pkce ==> withS256) && env.parsesAsUrl(q.redirectUri))
  {
    if q.clientId in s.clients {
      SomeAllowed(ParseScope(q.scope), s.clients[q.clientId].allowedScopes);
    }
  }

  /**
   Every answer to an authorization request. With PKCE only S256 challenges are accepted. What is accepted stores a
   code, which is handed out with the state of the request if the redirect URI is a URL.
   */
  lemma AuthorizationAnswers(env: Env, init: State, log: Log, k: nat, q: AuthorizeQuery)
    requires Run(env, init, log) && k < |log| && log[k].event == Read(env, Request.Authorize(q))
    ensures var r, clients := log[k].response, init.clients;
            var withS256 := q.challengeMethod == Some("S256") && q.challenge.Some?;
              && (r == Failed(InvalidRequest(UnsupportedResponseType)) <==> q.responseType != "code")
              && (r == Failed(InvalidClient(UnknownClient)) <==> q.responseType == "code" && q.clientId !in clients)
              && (r == Failed(InvalidRequest(RedirectNotRegistered)) <==>
                    q.responseType == "code" && q.clientId in clients && !Registered(clients, q))
              && (r == Failed(InvalidScope) <==>
                    q.responseType == "code" && Registered(clients, q) && !Admissible(clients, q))
              && (r == Failed(InvalidRequest(MissingMethod)) <==>
                    Admissible(clients, q) && env.pkce && q.challengeMethod.None?)
              && (r == Failed(InvalidRequest(MethodNotS256)) <==>
                    Admissible(clients, q) && env.pkce && q.challengeMethod.Some? && q.challengeMethod.value != "S256")
              && (r == Failed(InvalidRequest(MissingChallenge)) <==>
                    Admissible(clients, q) && env.pkce && q.challengeMethod == Some("S256") && q.challenge.None?)
              && (Issues(Kind.Codes, log[k], log[k].oracle.code) <==>
                    Admissible(clients, q) && (env.pkce ==> withS256))
              && (r == Failed(InvalidRequest(RedirectNotUrl)) <==>
                    Admissible(clients, q) && (env.pkce ==> withS256) && !env.parsesAsUrl(q.redirectUri))
              && (r == Redirect(q.redirectUri, log[k].oracle.code, q.state) <==>
                    Admissible(clients, q) && (env.pkce ==> withS256) && env.parsesAsUrl(q.redirectUri))
  {
    RunAt(env, init, log, k);
    ClientsNeverChange(env, init, log[..k]);
    AuthorizeStepAnswers(env, After(env, init, log[..k]), q, log[k].oracle);
  }

  // ----- the token endpoint -----

  /** Entry `i` created the code that entry `j` presents, and nobody presented it between. */
  ghost predicate Offers(log: Log, i: nat, j: nat)
    requires j < |log| && log[j].event.TokenEvent? && log[j].event.call.CodeCall?
  {
    && i < j
    && Issues(Kind.Codes, log[i], log[j].event.call.code)
    && forall k | i < k < j :: !PresentsCode(log[k].event, log[j].event.call.code)
  }

  lemma CodeStepAnswers(env: Env, s: State, call: TokenCall, o: Oracle)
    requires call.CodeCall? && Sound(env, s)
    ensures call.code !in s.codes ==> CodeStep(env, s, call, o).1 == Failed(InvalidGrant(UnknownCode))
    ensures call.code in s.codes ==>
              var r, entry := CodeStep(env, s, call, o).1, s.codes[call.code];
              var own := entry.clientId == call.caller.clientId;
              var there := own && entry.redirectUri == call.redirectUri;
              var verified := there && (env.pkce ==> entry.challenge == Some(env.s256(call.verifier)));
                && r != Failed(InvalidGrant(UnknownCode))
                && (r == Failed(InvalidGrant(CodeOfOtherClient)) <==> !own)
                && (r == Failed(InvalidGrant(RedirectMismatch)) <==> own && !there)
                && (r == Failed(InvalidGrant(VerifierMismatch)) <==> there && !verified)
                && (r == Failed(ServerError) <==> verified && !SigningWorks(o))
                && (r.Tokens? <==> verified && SigningWorks(o))
  {
    if call.code in s.codes {
      assert SoundCode(env, s, s.codes[call.code]);
    }
  }

  /** A stored code has one offer, and is as that request left it. */
  lemma OfferFollowsLog(env: Env, init: State, log: Log, j: nat)
    requires Run(env, init, log) && j < |log|
    requires log[j].event.TokenEvent? && log[j].event.call.CodeCall?
    ensures log[j].event.call.code in After(env, init, log[..j]).codes <==> exists i: nat :: Offers(log, i, j)
    ensures forall i: nat | Offers(log, i, j) ::
              && log[i].event.AuthorizeEvent? && log[i].event.clientId in init.clients
              && log[j].event.call.code in After(env, init, log[..j]).codes
              && After(env, init, log[..j]).codes[log[j].event.call.code] == Codes.Granted(init.clients, log[i].event)
  {
    var past, c := log[..j], log[j].event.call.code;
    RunAt(env, init, log, j);
    if c in After(env, init, past).codes {
      var i := Codes.StoredCodeOrigin(env, init, past, c);
      assert forall k | i < k < j :: past[k] == log[k];
      assert Offers(log, i, j);
    }
    forall i: nat | Offers(log, i, j)
      ensures log[i].event.AuthorizeEvent? && log[i].event.clientId in init.clients
      ensures c in After(env, init, past).codes
      ensures After(env, init, past).codes[c] == Codes.Granted(init.clients, log[i].event)
    {
      assert past[i] == log[i];
      assert UntouchedSince(Kind.Codes, past, i, c);
      StateFollowsLog(env, init, past, Kind.Codes, c);
      Codes.CodeIsAsGranted(env, init, past, i, c);
    }
  }

  /**
   Every answer to the presentation of a code: unknown without an offer, and against the offer its client, its
   redirect URI and with PKCE its challenge are compared, in this order, before anything is signed.
   */
  lemma CodeAnswers(env: Env, init: State, log: Log, j: nat)
    requires Run(env, init, log) && j < |log|
    requires log[j].event.TokenEvent? && log[j].event.call.CodeCall?
    ensures log[j].response == Failed(InvalidGrant(UnknownCode)) <==> !exists i: nat :: Offers(log, i, j)
    ensures forall i: nat | Offers(log, i, j) ::
              log[i].event.AuthorizeEvent? &&
              var r, e, call := log[j].response, log[i].event, log[j].event.call;
              var own := e.clientId == call.caller.clientId;
              var there := own && e.redirectUri == call.redirectUri;
              var verified := there && (env.pkce ==> e.challenge == Some(env.s256(call.verifier)));
                && (r == Failed(InvalidGrant(CodeOfOtherClient)) <==> !own)
                && (r == Failed(InvalidGrant(RedirectMismatch)) <==> own && !there)
                && (r == Failed(InvalidGrant(VerifierMismatch)) <==> there && !verified)
                && (r == Failed(ServerError) <==> verified && !SigningWorks(log[j].oracle))
                && (r.Tokens? <==> verified && SigningWorks(log[j].oracle))
  {
    var s, call := After(env, init, log[..j]), log[j].event.call;
    RunAt(env, init, log, j);
    ReachableIsSound(env, init, log[..j]);
    CodeStepAnswers(env, s, call, log[j].oracle);
    OfferFollowsLog(env, init, log, j);
  }

  lemma RefreshStepAnswers(env: Env, s: State, call: TokenCall, o: Oracle)
    requires call.RefreshCall? && Sound(env, s)
    ensures var r := RefreshStep(s, call, o).1;
              && (r == Failed(InvalidGrant(UnknownRefreshToken)) <==> call.token !in s.refresh)
              && (call.token in s.refresh ==>
                    var own := s.refresh[call.token].clientId == call.caller.clientId;
                      && (r == Failed(InvalidGrant(RefreshOfOtherClient)) <==> !own)
                      && (r == Failed(ServerError) <==> own && !SigningWorks(o))
                      && (r.Tokens? <==> own && SigningWorks(o)))
              && (r.Tokens? ==>
                    && r.accessToken == o.accessToken.value && r.refreshToken == Some(o.code)
                    && r.idToken == Some(IdToken(o.idToken.value, None)))
  {
  }

  /**
   Every answer to the presentation of a refresh token: unknown unless it is live by the log, refused to all but the
   client of the exchange at its root, and otherwise replaced, if signing works, by the token just drawn.
   */
  lemma RefreshAnswers(env: Env, init: State, log: Log, j: nat)
    requires Run(env, init, log) && j < |log|
    requires log[j].event.TokenEvent? && log[j].event.call.RefreshCall?
    ensures var r, o, call, past := log[j].response, log[j].oracle, log[j].event.call, log[..j];
            var grant := Families.RootGrant(env, init, past, Families.Root(past, call.token));
            var live := Live(RefreshTokens, past, call.token);
            var own := live && grant.Some? && grant.value.clientId == call.caller.clientId;
              && (live ==> grant.Some?)
              && (r == Failed(InvalidGrant(UnknownRefreshToken)) <==> !live)
              && (r == Failed(InvalidGrant(RefreshOfOtherClient)) <==> live && !own)
              && (r == Failed(ServerError) <==> own && !SigningWorks(o))
              && (r.Tokens? <==> own && SigningWorks(o))
              && (own && SigningWorks(o) ==>
                    r == Tokens(o.accessToken.value, grant.value.clientId, ScopeText(grant.value.scope),
                                Some(IdToken(o.idToken.value, None)), Some(o.code)))
  {
    var call, past := log[j].event.call, log[..j];
    var s := After(env, init, past);
    RunAt(env, init, log, j);
    ReachableIsSound(env, init, past);
    RefreshStepAnswers(env, s, call, log[j].oracle);
    StateFollowsLog(env, init, past, RefreshTokens, call.token);
    if call.token in s.refresh {
      Families.TokensKeepRootGrant(env, init, past, call.token);
      Families.IssueDescribed(env, s, call, log[j].oracle);
    }
  }

  /**
   Every answer to a request for a client's own token, in terms of the header and the form. The credentials the
   request carries must be a registered id and its secret; the scope is what it asked for and is allowed, or all it
   is allowed if it asked for nothing.
   */
  lemma ClientAnswers(
    env: Env, init: State, log: Log, k: nat, authorization: Option<Header>, form: TokenForm, c: Credentials)
    requires Run(env, init, log) && k < |log| && log[k].event == Read(env, Request.Token(authorization, form))
    requires form.grantType == "client_credentials"
    requires Carries(env, authorization, form.clientId, form.clientSecret, c)
    ensures var r, o := log[k].response, log[k].oracle;
            var known := c.clientId in init.clients;
            var allowed := known && init.clients[c.clientId].clientSecret == c.clientSecret;
              && (r == Failed(InvalidClient(UnknownClient)) <==> !known)
              && (r == Failed(InvalidClient(WrongSecret)) <==> known && !allowed)
              && (r == Failed(ServerError) <==> allowed && o.accessToken.None?)
              && (r.Tokens? <==> allowed && o.accessToken.Some?)
    ensures log[k].response.Tokens? ==>
              var allowed, requested := init.clients[c.clientId].allowedScopes, ParseScope(form.scope);
                log[k].response == Tokens(log[k].oracle.accessToken.value, c.clientId,
                  ScopeText(if requested == {} then allowed else requested * allowed), None, None)
  {
    TokenRequestIsRead(env, authorization, form, ClientCall(c, ParseScope(form.scope)));
    RunAt(env, init, log, k);
    RunStarts(env, init, log);
    ClientsNeverChange(env, init, log[..k]);
  }

  // ----- tokens that are shown or named -----

  /** `userinfo` serves the claims exactly to a header that shows a live access token. */
  lemma UserInfoAnswers(env: Env, init: State, log: Log, k: nat, authorization: Option<Header>)
    requires Run(env, init, log) && k < |log| && log[k].event == Read(env, Request.UserInfo(authorization))
    ensures log[k].response == Claims <==>
              exists t: string :: authorization == Some(Header.Text("Bearer " + t)) && Live(AccessTokens, log[..k], t)
    ensures log[k].response == Failed(InvalidToken(NoBearer)) <==>
              forall t: string :: authorization != Some(Header.Text("Bearer " + t))
    ensures log[k].response == Claims || log[k].response == Failed(InvalidToken(NoBearer))
            || log[k].response == Failed(InvalidToken(UnknownAccessToken))
  {
    RunAt(env, init, log, k);
    var read := log[k].event.bearer;
    BearerIsRead(env, authorization, if read.Ok? then read.value else "");
    if read.Ok? {
      UserInfoFollowsLog(env, init, log, k, read.value);
    }
    forall t: string ensures read == Ok(t) <==> authorization == Some(Header.Text("Bearer " + t)) {
      BearerIsRead(env, authorization, t);
    }
  }

  /** `introspect` wants a Basic header, with any credentials, and answers for the token that the form names. */
  lemma IntrospectionAnswers(
    env: Env, init: State, log: Log, k: nat, authorization: Option<Header>, token: Option<string>)
    requires Run(env, init, log) && k < |log| && log[k].event == Read(env, Request.Introspect(authorization, token))
    ensures var r, anonymous := log[k].response, CarriesNone(env, authorization, None, None);
              && (anonymous ==> r == Failed(NoCredentials(authorization)))
              && (!anonymous && token.None? ==> r == Failed(InvalidRequest(MissingParameter)))
              && (!anonymous && token.Some? ==>
                    r == Introspection(Live(AccessTokens, log[..k], token.value)
                                       || Live(RefreshTokens, log[..k], token.value)))
  {
    RunAt(env, init, log, k);
    TokenIsNamed(env, authorization, token);
    if log[k].event.named.Ok? {
      IntrospectionFollowsLog(env, init, log, k, token.value);
    }
  }

  /** After a revocation, by whatever credentials, the token that the form names is live in neither collection. */
  lemma RevocationAnswers(
    env: Env, init: State, log: Log, k: nat, authorization: Option<Header>, token: Option<string>)
    requires Run(env, init, log) && k < |log| && log[k].event == Read(env, Request.Revoke(authorization, token))
    ensures var r, anonymous := log[k].response, CarriesNone(env, authorization, None, None);
              && (anonymous ==> r == Failed(NoCredentials(authorization)))
              && (!anonymous && token.None? ==> r == Failed(InvalidRequest(MissingParameter)))
              && (!anonymous && token.Some? ==>
                    && r == Done
                    && !Live(AccessTokens, log[..k + 1], token.value)
                    && !Live(RefreshTokens, log[..k + 1], token.value))
    ensures forall t | token != Some(t) ::
              && (Live(AccessTokens, log[..k + 1], t) <==> Live(AccessTokens, log[..k], t))
              && (Live(RefreshTokens, log[..k + 1], t) <==> Live(RefreshTokens, log[..k], t))
  {
    var named := log[k].event.named;
    TokenIsNamed(env, authorization, token);
    forall t ensures Live(AccessTokens, log[..k + 1], t) <==> Live(AccessTokens, log[..k], t) && named != Ok(t) {
      RevocationEnds(env, init, log, k, named, AccessTokens, t);
    }
    forall t ensures Live(RefreshTokens, log[..k + 1], t) <==> Live(RefreshTokens, log[..k], t) && named != Ok(t) {
      RevocationEnds(env, init, log, k, named, RefreshTokens, t);
    }
  }

  lemma RevocationEnds(
    env: Env, init: State, log: Log, k: nat, named: Result<string, MockError>, kind: Kind, t: string)
    requires Run(env, init, log) && k < |log| && log[k].event == RevokeEvent(named)
    requires kind == AccessTokens || kind == RefreshTokens
    ensures log[k].response == match named case Err(e) => Failed(e) case Ok(_) => Done
    ensures Live(kind, log[..k + 1], t) <==> Live(kind, log[..k], t) && named != Ok(t)
  {
    RunAt(env, init, log, k);
    assert log[..k + 1][k] == log[k] && log[..k + 1][..k] == log[..k];
    LiveStep(kind, log[..k + 1], t);
  }
}
