/** Refresh tokens over any number of rotations (section 6 of RFC 6749). */
module Families {
  import opened Wrappers
  import opened Scope
  import opened Model
  import opened History

  /** A successful code or device exchange: the start of a family of refresh tokens. */
  predicate IsRoot(e: Entry) {
    e.event.TokenEvent? && (e.event.call.CodeCall? || e.event.call.DeviceCall?) && e.response.Tokens?
  }

  /** A successful rotation. */
  predicate IsRotation(e: Entry) {
    e.event.TokenEvent? && e.event.call.RefreshCall? && e.response.Tokens?
  }

  /**
   The index of the exchange that a refresh token descends from: the entry that gave it out, or, where that
   was a rotation, the root of the token that was presented for it. -1 for a string never given out.
   */
  function Root(log: Log, t: string): int {
    if log == [] then -1
    else
      var before, last := log[..|log| - 1], log[|log| - 1];
      if !Issues(RefreshTokens, last, t) then Root(before, t)
      else if IsRotation(last) then Root(before, last.event.call.token)
      else |log| - 1
  }

  /** The client and scope of the code or device entry that a root exchanged. */
  ghost function RootGrant(env: Env, init: State, log: Log, root: int): Option<RefreshToken> {
    if 0 <= root < |log| && IsRoot(log[root]) then
      var s, call := After(env, init, log[..root]), log[root].event.call;
      if call.CodeCall? && call.code in s.codes then
        Some(RefreshToken(s.codes[call.code].clientId, s.codes[call.code].scope))
      else if call.DeviceCall? && call.deviceCode in s.devices then
        Some(RefreshToken(s.devices[call.deviceCode].clientId, s.devices[call.deviceCode].scope))
      else None
    else None
  }

  lemma RootGrantOfPrefix(env: Env, init: State, log: Log, root: int)
    requires log != [] && root < |log| - 1
    ensures RootGrant(env, init, log[..|log| - 1], root) == RootGrant(env, init, log, root)
  {
    if 0 <= root {
      assert log[..|log| - 1][..root] == log[..root];
    }
  }

  /** Where the refresh tokens of a state descend from. */
  ghost predicate Family(env: Env, init: State, log: Log, t: string, entry: RefreshToken) {
    Root(log, t) < |log| && RootGrant(env, init, log, Root(log, t)) == Some(entry)
  }

  /** What a step that gives out a refresh token stores and answers. */
  lemma IssueDescribed(env: Env, s: State, call: TokenCall, o: Oracle)
    requires Sound(env, s)
    ensures var (s', r) := TokenStep(env, s, call, o);
              r.Tokens? && r.refreshToken.Some? ==>
                && o.code in s'.refresh
                && r.refreshToken == Some(o.code)
                && r.audience == s'.refresh[o.code].clientId
                && r.scope == ScopeText(s'.refresh[o.code].scope)
                && (call.CodeCall? || call.RefreshCall? || call.DeviceCall?)
                && (call.CodeCall? ==>
                      call.code in s.codes
                      && s'.refresh[o.code] == RefreshToken(s.codes[call.code].clientId, s.codes[call.code].scope))
                && (call.RefreshCall? ==> call.token in s.refresh && s'.refresh[o.code] == s.refresh[call.token])
                && (call.DeviceCall? ==>
                      call.deviceCode in s.devices
                      && s'.refresh[o.code]
                           == RefreshToken(s.devices[call.deviceCode].clientId, s.devices[call.deviceCode].scope))
  {
  }

  lemma StepKeepsRefresh(env: Env, s: State, e: Event, o: Oracle, t: string)
    requires t in s.refresh && t in Step(env, s, e, o).0.refresh && (Draws(e) ==> o.code != t)
    ensures Step(env, s, e, o).0.refresh[t] == s.refresh[t]
  {
  }

  /** A stored token that the last entry did not give out was stored before it, as it is now. */
  lemma OldToken(env: Env, init: State, log: Log, t: string)
    requires Run(env, init, log) && log != []
    requires t in After(env, init, log).refresh && !Issues(RefreshTokens, log[|log| - 1], t)
    ensures var s := After(env, init, log[..|log| - 1]);
              t in s.refresh && s.refresh[t] == After(env, init, log).refresh[t]
  {
    var before, last := log[..|log| - 1], log[|log| - 1];
    ReachableIsSound(env, init, before);
    StepMoves(env, After(env, init, before), last.event, last.oracle, RefreshTokens, t);
    StoredWasGenerated(env, init, before, RefreshTokens, t);
    StepKeepsRefresh(env, After(env, init, before), last.event, last.oracle, t);
  }

  /** A token the last entry gave out is the one it drew, and was not stored before. */
  lemma NewToken(env: Env, init: State, log: Log, t: string)
    requires Run(env, init, log) && log != [] && Issues(RefreshTokens, log[|log| - 1], t)
    ensures var s := After(env, init, log[..|log| - 1]);
              && Sound(env, s)
              && log[|log| - 1].event.TokenEvent? && log[|log| - 1].oracle.code == t
              && t !in s.refresh
  {
    var before := log[..|log| - 1];
    ReachableIsSound(env, init, before);
    IssuedWasDrawn(env, init, log, |log| - 1, RefreshTokens, t);
    if t in After(env, init, before).refresh {
      StoredWasGenerated(env, init, before, RefreshTokens, t);
      assert false;
    }
  }

  /** Every stored refresh token has exactly the client and scope of the exchange at its root. */
  lemma {:induction false} TokensKeepRootGrant(env: Env, init: State, log: Log, t: string)
    requires Run(env, init, log) && t in After(env, init, log).refresh
    ensures Family(env, init, log, t, After(env, init, log).refresh[t])
  {
    RunStarts(env, init, log);
    var before, last := log[..|log| - 1], log[|log| - 1];
    if Issues(RefreshTokens, last, t) {
      NewToken(env, init, log, t);
      IssueDescribed(env, After(env, init, before), last.event.call, last.oracle);
      if IsRotation(last) {
        TokensKeepRootGrant(env, init, before, last.event.call.token);
        RootGrantOfPrefix(env, init, log, Root(log, t));
      } else {
        assert log[..|log| - 1] == before && IsRoot(last);
      }
    } else {
      OldToken(env, init, log, t);
      TokensKeepRootGrant(env, init, before, t);
      RootGrantOfPrefix(env, init, log, Root(log, t));
    }
  }

  /** At any time at most one refresh token of a family is stored. */
  lemma {:induction false} OneLiveTokenPerFamily(env: Env, init: State, log: Log, t: string, u: string)
    requires Run(env, init, log)
    requires t in After(env, init, log).refresh && u in After(env, init, log).refresh
    requires Root(log, t) == Root(log, u)
    ensures t == u
    decreases |log|, 1
  {
    RunStarts(env, init, log);
    var before, last := log[..|log| - 1], log[|log| - 1];
    if t == u {
    } else if Issues(RefreshTokens, last, t) {
      NewestIsAlone(env, init, log, t, u);
    } else if Issues(RefreshTokens, last, u) {
      NewestIsAlone(env, init, log, u, t);
    } else {
      OldToken(env, init, log, t);
      OldToken(env, init, log, u);
      OneLiveTokenPerFamily(env, init, before, t, u);
    }
  }

  /** The token just given out shares its root with no other stored token. */
  lemma {:induction false} NewestIsAlone(env: Env, init: State, log: Log, t: string, u: string)
    requires Run(env, init, log) && log != [] && t != u
    requires Issues(RefreshTokens, log[|log| - 1], t)
    requires t in After(env, init, log).refresh && u in After(env, init, log).refresh
    ensures Root(log, t) != Root(log, u)
    decreases |log|, 0
  {
    var before, last := log[..|log| - 1], log[|log| - 1];
    OldToken(env, init, log, u);
    TokensKeepRootGrant(env, init, before, u);
    NewToken(env, init, log, t);
    IssueDescribed(env, After(env, init, before), last.event.call, last.oracle);
    if IsRotation(last) && Root(before, last.event.call.token) == Root(before, u) {
      OneLiveTokenPerFamily(env, init, before, last.event.call.token, u);
      StepMoves(env, After(env, init, before), last.event, last.oracle, RefreshTokens, u);
    }
  }

  /**
   Each response that gives out a refresh token is for the client of the root of its family, and names the
   root's scope, over any number of rotations.
   */
  lemma RotationKeepsGrant(env: Env, init: State, log: Log, k: nat, t: string)
    requires Run(env, init, log) && k < |log| && Issues(RefreshTokens, log[k], t)
    ensures var grant := RootGrant(env, init, log[..k + 1], Root(log[..k + 1], t));
              && grant.Some?
              && log[k].response.audience == grant.value.clientId
              && log[k].response.scope == ScopeText(grant.value.scope)
  {
    var past := log[..k + 1];
    RunAt(env, init, log, k);
    assert past[..k] == log[..k] && past[k] == log[k];
    NewToken(env, init, past, t);
    IssueDescribed(env, After(env, init, log[..k]), log[k].event.call, log[k].oracle);
    TokensKeepRootGrant(env, init, past, t);
  }

  lemma RefreshStepDecides(env: Env, s: State, call: TokenCall, o: Oracle)
    requires call.RefreshCall? && Sound(env, s)
    ensures RefreshStep(s, call, o).1.Tokens? <==>
              && call.token in s.refresh && s.refresh[call.token].clientId == call.caller.clientId
              && SigningWorks(o)
  {
  }

  /**
   A refresh token is exchanged exactly when signing works, some response gave the token out and it has since
   been neither presented nor revoked, and the caller is the client of the exchange it descends from.
   */
  lemma RefreshExchange(env: Env, init: State, log: Log, j: nat)
    requires Run(env, init, log) && j < |log|
    requires log[j].event.TokenEvent? && log[j].event.call.RefreshCall?
    ensures var call, past := log[j].event.call, log[..j];
            var grant := RootGrant(env, init, past, Root(past, call.token));
              log[j].response.Tokens? <==>
                && Live(RefreshTokens, past, call.token)
                && grant.Some? && grant.value.clientId == call.caller.clientId
                && SigningWorks(log[j].oracle)
  {
    var call, past := log[j].event.call, log[..j];
    RunAt(env, init, log, j);
    ReachableIsSound(env, init, past);
    RefreshStepDecides(env, After(env, init, past), call, log[j].oracle);
    StateFollowsLog(env, init, past, RefreshTokens, call.token);
    if call.token in After(env, init, past).refresh {
      TokensKeepRootGrant(env, init, past, call.token);
    }
  }

  /** The root of a token never changes once it is given out. */
  lemma {:induction false} RootIsStable(env: Env, init: State, log: Log, k: nat, t: string)
    requires Run(env, init, log) && k < |log| && Issues(RefreshTokens, log[k], t)
    ensures Root(log, t) == Root(log[..k + 1], t)
  {
    if k == |log| - 1 {
      assert log[..k + 1] == log;
    } else {
      var before := log[..|log| - 1];
      if Issues(RefreshTokens, log[|log| - 1], t) {
        IssuedWasDrawn(env, init, log, k, RefreshTokens, t);
        IssuedWasDrawn(env, init, log, |log| - 1, RefreshTokens, t);
        DrawnOnce(env, init, log, k, |log| - 1);
        assert false;
      }
      RootIsStable(env, init, before, k, t);
      assert before[..k + 1] == log[..k + 1];
    }
  }
}
