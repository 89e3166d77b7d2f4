/**
 The server as the program runs it: handlers that insert into, remove from and update the collections of
 `InnerState`. Each handler is proved to perform the transition of `Model`, and the ghost `log` records
 the requests served, so that every object that is `Valid` is at the end of a run.
 */
module Server {
  import opened Wrappers
  import opened Text
  import opened Scope
  import opened Model
  import opened History

  class MockServer {
    const env: Env
    var clients: map<string, Client>
    var authorizationCodes: map<string, AuthorizationCode>
    var refreshTokens: map<string, RefreshToken>
    var accessTokens: set<string>
    var deviceCodes: map<string, Device>

    ghost const init: State
    ghost var log: Log

    ghost function View(): State
      reads this
    {
      State(clients, authorizationCodes, refreshTokens, accessTokens, deviceCodes)
    }

    ghost predicate Valid()
      reads this
    {
      Run(env, init, log) && View() == After(env, init, log)
    }

    constructor (env: Env, calls: seq<Registration>)
      ensures Valid()
      ensures this.env == env && log == [] && View() == Initial(Build(calls))
    {
      this.env := env;
      clients := Build(calls);
      authorizationCodes, refreshTokens, accessTokens, deviceCodes := map[], map[], {}, map[];
      init := Initial(Build(calls));
      log := [];
    }

    /** Appends a served request to the log. */
    ghost method Record(before: State, e: Event, o: Oracle, response: Response)
      requires Run(env, init, log) && before == After(env, init, log)
      requires Plausible(before, log, e, o)
      requires (View(), response) == Step(env, before, e, o)
      modifies this`log
      ensures Valid() && log == old(log) + [Entry(e, o, response)]
    {
      var entry := Entry(e, o, response);
      var log' := log + [entry];
      assert log'[..|log'| - 1] == log;
      log := log';
    }

    // ----- the authorization endpoint -----

    method HandleAuthorize(query: AuthorizeQuery, o: Oracle) returns (r: Response)
      modifies this`authorizationCodes
      ensures (View(), r) == AuthorizeStep(env, old(View()), ReadAuthorize(query), o)
    {
      if query.responseType != "code" {
        return Failed(InvalidRequest(UnsupportedResponseType));
      }
      if query.clientId !in clients {
        return Failed(InvalidClient(UnknownClient));
      }
      var client := clients[query.clientId];
      if query.redirectUri !in client.redirectUris {
        return Failed(InvalidRequest(RedirectNotRegistered));
      }
      var scopeSet := ParseScope(query.scope);
      var allowed := scopeSet * client.allowedScopes;
      if allowed == {} {
        return Failed(InvalidScope);
      }
      if env.pkce {
        if query.challengeMethod.Some? {
          if query.challengeMethod.value != "S256" {
            return Failed(InvalidRequest(MethodNotS256));
          }
        } else {
          return Failed(InvalidRequest(MissingMethod));
        }
        if query.challenge.None? {
          return Failed(InvalidRequest(MissingChallenge));
        }
      }
      var code := o.code;
      authorizationCodes := authorizationCodes[code :=
        AuthorizationCode(client.clientId, query.redirectUri, allowed, query.challenge, query.nonce)];
      if !env.parsesAsUrl(query.redirectUri) {
        return Failed(InvalidRequest(RedirectNotUrl));
      }
      return Redirect(query.redirectUri, code, query.state);
    }

    // ----- the token endpoint -----

    method IssueRefreshToken(client: Client, scope: set<string>, o: Oracle) returns (token: string)
      modifies this`refreshTokens
      ensures token == o.code
      ensures refreshTokens == old(refreshTokens)[token := RefreshToken(client.clientId, scope)]
    {
      token := o.code;
      refreshTokens := refreshTokens[token := RefreshToken(client.clientId, scope)];
    }

    method HandleAuthorizationCode(credentials: Credentials, form: TokenForm, o: Oracle) returns (r: Response)
      modifies this`authorizationCodes, this`refreshTokens, this`accessTokens
      ensures form.code.None? || form.redirectUri.None? || (env.pkce && form.codeVerifier.None?) ==>
                r == Failed(InvalidRequest(MissingParameter)) && View() == old(View())
      ensures form.code.Some? && form.redirectUri.Some? && (env.pkce ==> form.codeVerifier.Some?) ==>
                (View(), r) == CodeStep(env, old(View()),
                  CodeCall(credentials, form.code.value, form.redirectUri.value,
                           if env.pkce then form.codeVerifier.value else ""), o)
    {
      if form.code.None? || form.redirectUri.None? {
        return Failed(InvalidRequest(MissingParameter));
      }
      if env.pkce && form.codeVerifier.None? {
        return Failed(InvalidRequest(MissingParameter));
      }
      var code := form.code.value;
      if code !in authorizationCodes {
        return Failed(InvalidGrant(UnknownCode));
      }
      var entry := authorizationCodes[code];
      authorizationCodes := authorizationCodes - {code};
      if entry.clientId != credentials.clientId {
        return Failed(InvalidGrant(CodeOfOtherClient));
      }
      if entry.redirectUri != form.redirectUri.value {
        return Failed(InvalidGrant(RedirectMismatch));
      }
      if env.pkce {
        if entry.challenge.None? {
          return Failed(InvalidGrant(NoChallenge));
        }
        if env.s256(form.codeVerifier.value) != entry.challenge.value {
          return Failed(InvalidGrant(VerifierMismatch));
        }
      }
      if credentials.clientId !in clients {
        return Failed(InvalidClient(UnknownClient));
      }
      var client := clients[credentials.clientId];
      if o.accessToken.None? || o.idToken.None? {
        return Failed(ServerError);
      }
      var refreshToken := IssueRefreshToken(client, entry.scope, o);
      accessTokens := accessTokens + {o.accessToken.value};
      var scope := ScopeToString(entry.scope);
      return Tokens(o.accessToken.value, client.clientId, scope,
                    Some(IdToken(o.idToken.value, entry.nonce)), Some(refreshToken));
    }

    method HandleClientCredentials(credentials: Credentials, form: TokenForm, o: Oracle) returns (r: Response)
      modifies this`accessTokens
      ensures (View(), r) == ClientStep(old(View()), ClientCall(credentials, ParseScope(form.scope)), o)
    {
      if credentials.clientId !in clients {
        return Failed(InvalidClient(UnknownClient));
      }
      var client := clients[credentials.clientId];
      if client.clientSecret != credentials.clientSecret {
        return Failed(InvalidClient(WrongSecret));
      }
      var requested := ParseScope(form.scope);
      var scope := if requested == {} then client.allowedScopes else requested * client.allowedScopes;
      if o.accessToken.None? {
        return Failed(ServerError);
      }
      accessTokens := accessTokens + {o.accessToken.value};
      var text := ScopeToString(scope);
      return Tokens(o.accessToken.value, client.clientId, text, None, None);
    }

    method HandleRefreshToken(credentials: Credentials, form: TokenForm, o: Oracle) returns (r: Response)
      modifies this`refreshTokens, this`accessTokens
      ensures form.refreshToken.None? ==> r == Failed(InvalidRequest(MissingParameter)) && View() == old(View())
      ensures form.refreshToken.Some? ==>
                (View(), r) == RefreshStep(old(View()), RefreshCall(credentials, form.refreshToken.value), o)
    {
      if form.refreshToken.None? {
        return Failed(InvalidRequest(MissingParameter));
      }
      var token := form.refreshToken.value;
      if token !in refreshTokens {
        return Failed(InvalidGrant(UnknownRefreshToken));
      }
      var entry := refreshTokens[token];
      refreshTokens := refreshTokens - {token};
      if entry.clientId != credentials.clientId {
        return Failed(InvalidGrant(RefreshOfOtherClient));
      }
      if credentials.clientId !in clients {
        return Failed(InvalidClient(UnknownClient));
      }
      var client := clients[credentials.clientId];
      if o.accessToken.None? || o.idToken.None? {
        return Failed(ServerError);
      }
      var refreshToken := IssueRefreshToken(client, entry.scope, o);
      accessTokens := accessTokens + {o.accessToken.value};
      var scope := ScopeToString(entry.scope);
      return Tokens(o.accessToken.value, client.clientId, scope,
                    Some(IdToken(o.idToken.value, None)), Some(refreshToken));
    }

    /** Removes the entry, and puts it back on every path but the ones that fail to issue. */
    method HandleDeviceCode(credentials: Credentials, form: TokenForm, o: Oracle) returns (r: Response)
      modifies this`deviceCodes, this`refreshTokens, this`accessTokens
      ensures form.deviceCode.None? ==> r == Failed(InvalidRequest(MissingParameter)) && View() == old(View())
      ensures form.deviceCode.Some? ==>
                (View(), r) == DeviceStep(old(View()), DeviceCall(credentials, form.deviceCode.value), o)
    {
      if form.deviceCode.None? {
        return Failed(InvalidRequest(MissingParameter));
      }
      var deviceCode := form.deviceCode.value;
      if deviceCode !in deviceCodes {
        return Failed(InvalidGrant(UnknownDeviceCode));
      }
      var entry := deviceCodes[deviceCode];
      deviceCodes := deviceCodes - {deviceCode};
      if entry.clientId != credentials.clientId {
        deviceCodes := deviceCodes[deviceCode := entry];
        assert deviceCodes == old(deviceCodes);
        return Failed(InvalidClient(DeviceOfOtherClient));
      }
      if o.now > entry.expiresAt {
        entry := entry.(status := Expired);
      }
      match entry.status {
        case Pending(n) =>
          var pollCount := NextPoll(n);
          entry := entry.(status := Pending(pollCount));
          r := Failed(if pollCount % 3 == 0 then SlowDown else AuthorizationPending);
        case Approved =>
          if credentials.clientId !in clients {
            return Failed(InvalidClient(UnknownClient));
          }
          var client := clients[credentials.clientId];
          if o.accessToken.None? || o.idToken.None? {
            return Failed(ServerError);
          }
          var refreshToken := IssueRefreshToken(client, entry.scope, o);
          accessTokens := accessTokens + {o.accessToken.value};
          var scope := ScopeToString(entry.scope);
          entry := entry.(status := Completed);
          r := Tokens(o.accessToken.value, client.clientId, scope,
                      Some(IdToken(o.idToken.value, None)), Some(refreshToken));
        case Denied => r := Failed(AccessDenied);
        case Expired => r := Failed(ExpiredToken);
        case Completed => r := Failed(InvalidGrant(DeviceUsed));
      }
      deviceCodes := deviceCodes[deviceCode := entry];
      assert deviceCodes == old(deviceCodes)[deviceCode := entry];
      assert entry == old(deviceCodes)[deviceCode] ==> deviceCodes == old(deviceCodes);
    }

    method HandleToken(authorization: Option<Header>, form: TokenForm, o: Oracle) returns (r: Response)
      modifies this`authorizationCodes, this`refreshTokens, this`accessTokens, this`deviceCodes
      ensures (View(), r) == TokenStep(env, old(View()), ReadToken(env, authorization, form), o)
    {
      var credentials := ExtractCredentials(env, authorization, form.clientId, form.clientSecret);
      if credentials.Err? {
        return Failed(credentials.error);
      }
      if form.grantType == "authorization_code" {
        r := HandleAuthorizationCode(credentials.value, form, o);
      } else if form.grantType == "client_credentials" {
        r := HandleClientCredentials(credentials.value, form, o);
      } else if form.grantType == "refresh_token" {
        r := HandleRefreshToken(credentials.value, form, o);
      } else if form.grantType == "urn:ietf:params:oauth:grant-type:device_code" || form.grantType == "device_code" {
        r := HandleDeviceCode(credentials.value, form, o);
      } else {
        r := Failed(InvalidRequest(UnsupportedGrantType));
      }
    }

    // ----- the endpoints, and the two methods that stand for the user -----

    method Authorize(query: AuthorizeQuery, o: Oracle) returns (r: Response)
      requires Valid() && Plausible(View(), log, Read(env, Request.Authorize(query)), o)
      modifies this
      ensures Valid() && log == old(log) + [Entry(Read(env, Request.Authorize(query)), o, r)]
    {
      ghost var before := View();
      r := HandleAuthorize(query, o);
      Record(before, Read(env, Request.Authorize(query)), o, r);
    }

    method Token(authorization: Option<Header>, form: TokenForm, o: Oracle) returns (r: Response)
      requires Valid() && Plausible(View(), log, Read(env, Request.Token(authorization, form)), o)
      modifies this
      ensures Valid() && log == old(log) + [Entry(Read(env, Request.Token(authorization, form)), o, r)]
    {
      ghost var before := View();
      r := HandleToken(authorization, form, o);
      Record(before, Read(env, Request.Token(authorization, form)), o, r);
    }

    method DeviceAuthorization(clientId: string, scope: Option<string>, o: Oracle) returns (r: Response)
      requires Valid() && Plausible(View(), log, Read(env, Request.DeviceAuthorization(clientId, scope)), o)
      modifies this
      ensures Valid() && log == old(log) + [Entry(Read(env, Request.DeviceAuthorization(clientId, scope)), o, r)]
    {
      ghost var before := View();
      if !env.deviceCode {
        r := Failed(InvalidRequest(DeviceCodeDisabled));
      } else if clientId !in clients {
        r := Failed(InvalidClient(UnknownClient));
      } else {
        var client := clients[clientId];
        var requested := ParseScope(scope);
        var granted := if requested == {} then client.allowedScopes else requested * client.allowedScopes;
        var userCode := AsciiUpper(o.userCode);
        var entry := Device(client.clientId, granted, userCode, o.now + DEVICE_LIFETIME, Pending(0));
        deviceCodes := deviceCodes[o.code := entry];
        r := DeviceGrant(o.code, userCode);
      }
      Record(before, Read(env, Request.DeviceAuthorization(clientId, scope)), o, r);
    }

    method UserInfo(authorization: Option<Header>) returns (r: Response)
      requires Valid()
      modifies this`log
      ensures Valid() && log == old(log) + [Entry(Read(env, Request.UserInfo(authorization)), QUIET, r)]
      ensures ExtractBearer(authorization).Ok? ==>
                r == if Live(AccessTokens, old(log), ExtractBearer(authorization).value) then Claims
                     else Failed(InvalidToken(UnknownAccessToken))
    {
      ghost var before := View();
      if ExtractBearer(authorization).Ok? {
        StateFollowsLog(env, init, log, AccessTokens, ExtractBearer(authorization).value);
      }
      var token := ExtractBearer(authorization);
      if token.Err? {
        r := Failed(token.error);
      } else if token.value !in accessTokens {
        r := Failed(InvalidToken(UnknownAccessToken));
      } else {
        r := Claims;
      }
      Record(before, Read(env, Request.UserInfo(authorization)), QUIET, r);
    }

    method Introspect(authorization: Option<Header>, token: Option<string>) returns (r: Response)
      requires Valid()
      modifies this`log
      ensures Valid() && log == old(log) + [Entry(Read(env, Request.Introspect(authorization, token)), QUIET, r)]
      ensures TokenParameter(env, authorization, token).Ok? ==>
                var t := TokenParameter(env, authorization, token).value;
                r == Introspection(Live(AccessTokens, old(log), t) || Live(RefreshTokens, old(log), t))
    {
      ghost var before := View();
      var named := TokenParameter(env, authorization, token);
      if named.Ok? {
        StateFollowsLog(env, init, log, AccessTokens, named.value);
        StateFollowsLog(env, init, log, RefreshTokens, named.value);
      }
      if named.Err? {
        r := Failed(named.error);
      } else {
        r := Introspection(named.value in accessTokens || named.value in refreshTokens);
      }
      Record(before, Read(env, Request.Introspect(authorization, token)), QUIET, r);
    }

    method Revoke(authorization: Option<Header>, token: Option<string>) returns (r: Response)
      requires Valid()
      modifies this
      ensures Valid() && log == old(log) + [Entry(Read(env, Request.Revoke(authorization, token)), QUIET, r)]
      ensures TokenParameter(env, authorization, token).Ok? ==>
                var t := TokenParameter(env, authorization, token).value;
                r == Done && accessTokens == old(accessTokens) - {t} && refreshTokens == old(refreshTokens) - {t}
    {
      ghost var before := View();
      var named := TokenParameter(env, authorization, token);
      if named.Err? {
        r := Failed(named.error);
      } else {
        accessTokens := accessTokens - {named.value};
        refreshTokens := refreshTokens - {named.value};
        r := Done;
      }
      Record(before, Read(env, Request.Revoke(authorization, token)), QUIET, r);
    }

    /** Overwrites the status of some entry with this user code; `key` is the device code it found. */
    method Decide(userCode: string, verdict: Status) returns (r: Response, ghost key: string)
      modifies this`deviceCodes
      ensures (View(), r) == DecideStep(old(View()), userCode, verdict, QUIET.(pick := key))
      ensures r == NoSuchUserCode <==> forall k :: !MatchesUserCode(old(View()), k, userCode)
    {
      var found := set k | k in deviceCodes && EqIgnoreAsciiCase(deviceCodes[k].userCode, userCode);
      if found == {} {
        assert forall k :: MatchesUserCode(View(), k, userCode) ==> k in found;
        return NoSuchUserCode, "";
      }
      var k :| k in found;
      assert MatchesUserCode(View(), k, userCode);
      deviceCodes := deviceCodes[k := deviceCodes[k].(status := verdict)];
      return Done, k;
    }

    method ApproveDeviceCode(userCode: string) returns (r: Response, ghost key: string)
      requires Valid()
      modifies this
      ensures Valid() && log == old(log) + [Entry(Read(env, Approve(userCode)), QUIET.(pick := key), r)]
    {
      ghost var before := View();
      r, key := Decide(userCode, Approved);
      Record(before, Read(env, Approve(userCode)), QUIET.(pick := key), r);
    }

    method DenyDeviceCode(userCode: string) returns (r: Response, ghost key: string)
      requires Valid()
      modifies this
      ensures Valid() && log == old(log) + [Entry(Read(env, Deny(userCode)), QUIET.(pick := key), r)]
    {
      ghost var before := View();
      r, key := Decide(userCode, Denied);
      Record(before, Read(env, Deny(userCode)), QUIET.(pick := key), r);
    }
  }
}
