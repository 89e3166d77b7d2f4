/** What the handlers read from a request, stated on its headers and form fields. */
module Requests {
  import opened Wrappers
  import opened Text
  import opened Scope
  import opened Model

  // ----- credentials -----

  /**
   A request carries these credentials: in a Basic header, split at the first colon, whatever its form holds;
   or, without any header, in the two fields of its form.
   */
  ghost predicate Carries(
    env: Env, authorization: Option<Header>, clientId: Option<string>, clientSecret: Option<string>, c: Credentials)
  {
    match authorization
    case None => clientId == Some(c.clientId) && clientSecret == Some(c.clientSecret)
    case Some(Opaque) => false
    case Some(Text(text)) =>
      && ':' !in c.clientId
      && exists encoded: string {:trigger "Basic " + encoded} ::
           text == "Basic " + encoded && env.decodeBasic(encoded) == Decoded(c.clientId + ":" + c.clientSecret)
  }

  /** What is split at its first colon is put together again by no other pair. */
  lemma SplitIsUnique(s: string, left: string, right: string)
    requires ':' !in left && s == left + ":" + right
    ensures SplitOnce(s, ':') == Some((left, right))
  {
    assert s[|left|] == ':';
    var r := SplitOnce(s, ':');
    if r.Some? {
      var (l, t) := r.value;
      assert s[|l|] == ':';
      assert |l| == |left|;
      assert l == s[..|l|] && left == s[..|left|];
      assert t == s[|l| + 1..] && right == s[|left| + 1..];
    }
  }

  lemma CredentialsAreCarried(
    env: Env, authorization: Option<Header>, clientId: Option<string>, clientSecret: Option<string>, c: Credentials)
    ensures ExtractCredentials(env, authorization, clientId, clientSecret) == Ok(c)
            <==> Carries(env, authorization, clientId, clientSecret, c)
  {
    if authorization.Some? && authorization.value.Text? {
      var text := authorization.value.text;
      var rest := StripPrefix(text, "Basic ");
      if rest.Some? {
        assert text == "Basic " + rest.value;
        if env.decodeBasic(rest.value) == Decoded(c.clientId + ":" + c.clientSecret) && ':' !in c.clientId {
          SplitIsUnique(c.clientId + ":" + c.clientSecret, c.clientId, c.clientSecret);
        }
      }
      if Carries(env, authorization, clientId, clientSecret, c) {
        var encoded: string :| text == "Basic " + encoded
          && env.decodeBasic(encoded) == Decoded(c.clientId + ":" + c.clientSecret);
        assert "Basic " <= text && text[|"Basic "|..] == encoded;
      }
    }
  }

  ghost predicate CarriesNone(
    env: Env, authorization: Option<Header>, clientId: Option<string>, clientSecret: Option<string>)
  {
    forall c :: !Carries(env, authorization, clientId, clientSecret, c)
  }

  /** The answer to a request without credentials. */
  function NoCredentials(authorization: Option<Header>): MockError {
    InvalidClient(if authorization.Some? then BadAuthorization else MissingCredential)
  }

  lemma CredentialsAreMissing(
    env: Env, authorization: Option<Header>, clientId: Option<string>, clientSecret: Option<string>)
    ensures var read := ExtractCredentials(env, authorization, clientId, clientSecret);
              if CarriesNone(env, authorization, clientId, clientSecret)
              then read == Err(NoCredentials(authorization))
              else read.Ok? && Carries(env, authorization, clientId, clientSecret, read.value)
  {
    var read := ExtractCredentials(env, authorization, clientId, clientSecret);
    if read.Ok? {
      CredentialsAreCarried(env, authorization, clientId, clientSecret, read.value);
    } else {
      forall c ensures !Carries(env, authorization, clientId, clientSecret, c) {
        CredentialsAreCarried(env, authorization, clientId, clientSecret, c);
      }
    }
  }

  // ----- token requests -----

  const DEVICE_GRANT := "urn:ietf:params:oauth:grant-type:device_code"

  /** The form asks for what the call does: its grant type, and each parameter under its own name. */
  predicate Asks(env: Env, form: TokenForm, call: TokenCall) {
    match call
    case CodeCall(_, code, redirectUri, verifier) =>
      && form.grantType == "authorization_code"
      && form.code == Some(code) && form.redirectUri == Some(redirectUri)
      && if env.pkce then form.codeVerifier == Some(verifier) else verifier == ""
    case ClientCall(_, requested) => form.grantType == "client_credentials" && requested == ParseScope(form.scope)
    case RefreshCall(_, token) => form.grantType == "refresh_token" && form.refreshToken == Some(token)
    case DeviceCall(_, deviceCode) =>
      (form.grantType == DEVICE_GRANT || form.grantType == "device_code") && form.deviceCode == Some(deviceCode)
    case Refused(_) => false
  }

  /** A parameter of a known grant type is not there. */
  predicate Lacks(env: Env, form: TokenForm) {
    || (form.grantType == "authorization_code"
        && (form.code.None? || form.redirectUri.None? || (env.pkce && form.codeVerifier.None?)))
    || (form.grantType == "refresh_token" && form.refreshToken.None?)
    || ((form.grantType == DEVICE_GRANT || form.grantType == "device_code") && form.deviceCode.None?)
  }

  predicate KnownGrant(grantType: string) {
    grantType in {"authorization_code", "client_credentials", "refresh_token", DEVICE_GRANT, "device_code"}
  }

  /** A token request is read as a call exactly if it carries the caller's credentials and asks for that call. */
  lemma TokenRequestIsRead(env: Env, authorization: Option<Header>, form: TokenForm, call: TokenCall)
    requires !call.Refused?
    ensures Read(env, Request.Token(authorization, form)) == TokenEvent(call)
            <==> Carries(env, authorization, form.clientId, form.clientSecret, call.caller) && Asks(env, form, call)
  {
    CredentialsAreCarried(env, authorization, form.clientId, form.clientSecret, call.caller);
  }

  /** Every other token request is refused: for its credentials first, then its grant type, then its parameters. */
  lemma TokenRequestIsRefused(env: Env, authorization: Option<Header>, form: TokenForm, error: MockError)
    ensures Read(env, Request.Token(authorization, form)) == TokenEvent(Refused(error)) <==>
              var anonymous := CarriesNone(env, authorization, form.clientId, form.clientSecret);
              || (anonymous && error == NoCredentials(authorization))
              || (!anonymous && !KnownGrant(form.grantType) && error == InvalidRequest(UnsupportedGrantType))
              || (!anonymous && Lacks(env, form) && error == InvalidRequest(MissingParameter))
  {
    CredentialsAreMissing(env, authorization, form.clientId, form.clientSecret);
  }

  // ----- the other requests -----

  /** A bearer token is what follows "Bearer " in the header; every other header is refused. */
  lemma BearerIsRead(env: Env, authorization: Option<Header>, token: string)
    ensures Read(env, Request.UserInfo(authorization)) == UserInfoEvent(Ok(token))
            <==> authorization == Some(Header.Text("Bearer " + token))
    ensures Read(env, Request.UserInfo(authorization)).bearer.Err? ==>
              Read(env, Request.UserInfo(authorization)).bearer.error == InvalidToken(NoBearer)
  {
    if authorization.Some? && authorization.value.Text? {
      var text := authorization.value.text;
      if "Bearer " <= text {
        assert text == "Bearer " + text[|"Bearer "|..];
      }
      if text == "Bearer " + token {
        assert text[|"Bearer "|..] == token;
      }
    }
  }

  /** What an introspection or a revocation names: its `token` field, if a Basic header carries any credentials. */
  function Named(anonymous: bool, authorization: Option<Header>, token: Option<string>): Result<string, MockError> {
    if anonymous then Err(NoCredentials(authorization))
    else if token.None? then Err(InvalidRequest(MissingParameter))
    else Ok(token.value)
  }

  lemma TokenIsNamed(env: Env, authorization: Option<Header>, token: Option<string>)
    ensures var named := Named(CarriesNone(env, authorization, None, None), authorization, token);
              && Read(env, Request.Introspect(authorization, token)) == IntrospectEvent(named)
              && Read(env, Request.Revoke(authorization, token)) == RevokeEvent(named)
  {
    CredentialsAreMissing(env, authorization, None, None);
  }
}
