/** Authorization codes over whole runs (section 4.1.2 of RFC 6749, section 4.6 of RFC 7636). */
module Codes {
  import opened Wrappers
  import opened Scope
  import opened Model
  import opened History

  /** What an authorization request that stores a code stores under it. */
  function Granted(clients: map<string, Client>, e: Event): AuthorizationCode
    requires e.AuthorizeEvent? && e.clientId in clients
  {
    AuthorizationCode(
      e.clientId, e.redirectUri, e.requested * clients[e.clientId].allowedScopes, e.challenge, e.nonce)
  }

  lemma StepKeepsCode(env: Env, s: State, e: Event, o: Oracle, c: string)
    requires c in s.codes && c in Step(env, s, e, o).0.codes
    requires e.AuthorizeEvent? ==> o.code != c
    ensures Step(env, s, e, o).0.codes[c] == s.codes[c]
  {
  }

  lemma AuthorizeGrants(env: Env, s: State, e: Event, o: Oracle)
    requires WellKeyed(s.clients) && e.AuthorizeEvent?
    requires Issues(Kind.Codes, Entry(e, o, Step(env, s, e, o).1), o.code)
    ensures var s' := Step(env, s, e, o).0;
              e.clientId in s.clients && o.code in s'.codes && s'.codes[o.code] == Granted(s.clients, e)
  {
  }

  /**
   Which authorization requests create a code: those of a registered client and redirect URI, for some scope
   that the client is allowed, and with PKCE with an S256 challenge. Only if the URI is a URL is it handed out.
   */
  lemma CodeIsCreated(env: Env, init: State, log: Log, k: nat)
    requires Run(env, init, log) && k < |log| && log[k].event.AuthorizeEvent?
    ensures var e, code := log[k].event, log[k].oracle.code;
              Issues(Kind.Codes, log[k], code) <==>
                && e.codeResponse
                && e.clientId in init.clients && e.redirectUri in init.clients[e.clientId].redirectUris
                && e.requested * init.clients[e.clientId].allowedScopes != {}
                && (env.pkce ==> e.pkceMethod.S256? && e.challenge.Some?)
    ensures var e, code := log[k].event, log[k].oracle.code;
              log[k].response.Redirect? <==> Issues(Kind.Codes, log[k], code) && env.parsesAsUrl(e.redirectUri)
    ensures log[k].response.Redirect? ==>
              log[k].response == Redirect(log[k].event.redirectUri, log[k].oracle.code, log[k].event.state)
  {
    RunAt(env, init, log, k);
    ClientsNeverChange(env, init, log[..k]);
  }

  lemma LastGrant(env: Env, init: State, log: Log, c: string)
    requires Run(env, init, log) && log != [] && Issues(Kind.Codes, log[|log| - 1], c)
    ensures var e := log[|log| - 1].event;
              && e.clientId in init.clients
              && c in After(env, init, log).codes && After(env, init, log).codes[c] == Granted(init.clients, e)
  {
    var before, last := log[..|log| - 1], log[|log| - 1];
    ReachableIsSound(env, init, before);
    ClientsNeverChange(env, init, before);
    AuthorizeGrants(env, After(env, init, before), last.event, last.oracle);
  }

  /** A stored code that the last entry did not create was stored before it, as it is now. */
  lemma OldCode(env: Env, init: State, log: Log, i: nat, c: string)
    requires Run(env, init, log) && i < |log| - 1
    requires Issues(Kind.Codes, log[i], c) && c in After(env, init, log).codes
    ensures var s := After(env, init, log[..|log| - 1]);
              c in s.codes && s.codes[c] == After(env, init, log).codes[c]
  {
    var before, last := log[..|log| - 1], log[|log| - 1];
    NotDrawnAgain(env, init, log, i);
    ReachableIsSound(env, init, before);
    StepMoves(env, After(env, init, before), last.event, last.oracle, Kind.Codes, c);
    StepKeepsCode(env, After(env, init, before), last.event, last.oracle, c);
  }

  /** A code that is still stored is as the one request that created it left it. */
  lemma {:induction false} CodeIsAsGranted(env: Env, init: State, log: Log, i: nat, c: string)
    requires Run(env, init, log) && i < |log|
    requires Issues(Kind.Codes, log[i], c) && c in After(env, init, log).codes
    ensures log[i].event.clientId in init.clients
    ensures After(env, init, log).codes[c] == Granted(init.clients, log[i].event)
  {
    if i == |log| - 1 {
      LastGrant(env, init, log, c);
    } else {
      OldCode(env, init, log, i, c);
      CodeIsAsGranted(env, init, log[..|log| - 1], i, c);
    }
  }

  /** Entry `i` created the code that entry `j` presents, nobody presented it between, and all its terms match. */
  ghost predicate Redeems(env: Env, log: Log, i: nat, j: nat)
    requires j < |log| && log[j].event.TokenEvent? && log[j].event.call.CodeCall?
  {
    var call := log[j].event.call;
    && i < j
    && Issues(Kind.Codes, log[i], call.code)
    && (forall k | i < k < j :: !PresentsCode(log[k].event, call.code))
    && log[i].event.clientId == call.caller.clientId
    && log[i].event.redirectUri == call.redirectUri
    && (env.pkce ==> log[i].event.challenge == Some(env.s256(call.verifier)))
  }

  /** A stored code was created by some entry and not presented since. */
  lemma StoredCodeOrigin(env: Env, init: State, log: Log, c: string) returns (i: nat)
    requires Run(env, init, log) && c in After(env, init, log).codes
    ensures i < |log| && Issues(Kind.Codes, log[i], c)
    ensures forall k | i < k < |log| :: !PresentsCode(log[k].event, c)
    ensures log[i].event.clientId in init.clients
    ensures After(env, init, log).codes[c] == Granted(init.clients, log[i].event)
  {
    StateFollowsLog(env, init, log, Kind.Codes, c);
    i :| i < |log| && Issues(Kind.Codes, log[i], c) && UntouchedSince(Kind.Codes, log, i, c);
    forall k | i < k < |log| ensures !PresentsCode(log[k].event, c) {
      assert !Ends(Kind.Codes, log[k], c);
    }
    CodeIsAsGranted(env, init, log, i, c);
  }

  /** What decides the exchange of a code that is found in the state. */
  lemma CodeStepDecides(env: Env, s: State, call: TokenCall, o: Oracle)
    requires call.CodeCall? && Sound(env, s)
    ensures CodeStep(env, s, call, o).1.Tokens? <==>
              && call.code in s.codes
              && s.codes[call.code].clientId == call.caller.clientId
              && s.codes[call.code].redirectUri == call.redirectUri
              && (env.pkce ==> s.codes[call.code].challenge == Some(env.s256(call.verifier)))
              && SigningWorks(o)
    ensures CodeStep(env, s, call, o).1.Tokens? ==>
              var entry := s.codes[call.code];
              CodeStep(env, s, call, o).1 ==
                Tokens(o.accessToken.value, entry.clientId, ScopeText(entry.scope),
                       Some(IdToken(o.idToken.value, entry.nonce)), Some(o.code))
  {
  }

  /**
   A code is exchanged exactly when signing works and one earlier authorization created it, for the same
   client, redirect URI and S256 challenge, with no presentation of it, good or bad, in between.
   */
  lemma CodeExchange(env: Env, init: State, log: Log, j: nat)
    requires Run(env, init, log) && j < |log|
    requires log[j].event.TokenEvent? && log[j].event.call.CodeCall?
    ensures log[j].response.Tokens? <==>
              && SigningWorks(log[j].oracle)
              && exists i: nat :: Redeems(env, log, i, j)
  {
    var call, s, past := log[j].event.call, After(env, init, log[..j]), log[..j];
    RunAt(env, init, log, j);
    ReachableIsSound(env, init, past);
    CodeStepDecides(env, s, call, log[j].oracle);
    if log[j].response.Tokens? {
      var i := StoredCodeOrigin(env, init, past, call.code);
      forall k | i < k < j ensures !PresentsCode(log[k].event, call.code) {
        assert past[k] == log[k];
      }
      assert Redeems(env, log, i, j);
    }
    if i: nat :| Redeems(env, log, i, j) {
      RedeemedIsStored(env, init, log, i, j);
    }
  }

  lemma RedeemedIsStored(env: Env, init: State, log: Log, i: nat, j: nat)
    requires Run(env, init, log) && j < |log|
    requires log[j].event.TokenEvent? && log[j].event.call.CodeCall?
    requires Redeems(env, log, i, j)
    ensures Run(env, init, log[..j]) && Sound(env, After(env, init, log[..j]))
    ensures log[i].event.clientId in init.clients
    ensures var s, c := After(env, init, log[..j]), log[j].event.call.code;
              c in s.codes && s.codes[c] == Granted(init.clients, log[i].event)
  {
    var past, c := log[..j], log[j].event.call.code;
    RunAt(env, init, log, j);
    assert past[i] == log[i];
    assert UntouchedSince(Kind.Codes, past, i, c);
    StateFollowsLog(env, init, past, Kind.Codes, c);
    CodeIsAsGranted(env, init, past, i, c);
    ReachableIsSound(env, init, past);
  }

  /**
   The tokens are for the client and carry the nonce of the authorization request, and the scope they name
   parses to what that request asked for and the client is allowed, in whatever order it was written.
   */
  lemma ExchangeGrantsTheRequest(env: Env, init: State, log: Log, i: nat, j: nat, q: AuthorizeQuery)
    requires Run(env, init, log) && j < |log|
    requires log[j].event.TokenEvent? && log[j].event.call.CodeCall? && log[j].response.Tokens?
    requires Redeems(env, log, i, j) && log[i].event == ReadAuthorize(q)
    ensures q.clientId in init.clients && q.redirectUri in init.clients[q.clientId].redirectUris
    ensures var r := log[j].response;
              && r.audience == q.clientId
              && r.idToken.Some? && r.idToken.value.nonce == q.nonce
              && ParseScope(Some(r.scope)) == ParseScope(q.scope) * init.clients[q.clientId].allowedScopes
              && ParseScope(Some(r.scope)) != {}
  {
    var call, s := log[j].event.call, After(env, init, log[..j]);
    RedeemedIsStored(env, init, log, i, j);
    ClientsNeverChange(env, init, log[..j]);
    RunAt(env, init, log, j);
    CodeStepDecides(env, s, call, log[j].oracle);
    var scope := s.codes[call.code].scope;
    assert SoundCode(env, s, s.codes[call.code]);
    ParsedWords(q.scope);
    RoundTrip(scope);
  }

  /** Once a code exists, its first presentation is its last chance: every later one finds no such code. */
  lemma CodeIsSingleUse(env: Env, init: State, log: Log, k: nat, i: nat, j: nat, c: string)
    requires Run(env, init, log) && k < i < j < |log|
    requires Issues(Kind.Codes, log[k], c)
    requires PresentsCode(log[i].event, c) && PresentsCode(log[j].event, c)
    ensures log[j].response == Failed(InvalidGrant(UnknownCode))
  {
    var past := log[..j];
    RunAt(env, init, log, j);
    if c in After(env, init, past).codes {
      var k' := StoredCodeOrigin(env, init, past, c);
      assert past[k'] == log[k'] && past[i] == log[i];
      IssuedWasDrawn(env, init, log, k, Kind.Codes, c);
      IssuedWasDrawn(env, init, log, k', Kind.Codes, c);
      DrawnOnce(env, init, log, k, k');
      assert false;
    }
  }

  /** At most one exchange of any code succeeds in a run. */
  lemma CodeSucceedsOnce(env: Env, init: State, log: Log, i: nat, j: nat, c: string)
    requires Run(env, init, log) && i < |log| && j < |log|
    requires PresentsCode(log[i].event, c) && log[i].response.Tokens?
    requires PresentsCode(log[j].event, c) && log[j].response.Tokens?
    ensures i == j
  {
    CodeExchange(env, init, log, i);
    CodeExchange(env, init, log, j);
    var k: nat :| Redeems(env, log, k, i);
    var k': nat :| Redeems(env, log, k', j);
    if i < j {
      CodeIsSingleUse(env, init, log, k, i, j, c);
    } else if j < i {
      CodeIsSingleUse(env, init, log, k', j, i, c);
    }
  }
}
