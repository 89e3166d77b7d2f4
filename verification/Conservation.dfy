/** How many codes and refresh tokens are stored, computed from the log alone. */
module Conservation {
  import opened Wrappers
  import opened Model
  import opened History
  import opened Families

  /** What the entries of a log are counted by. `before` is the log up to the entry. */
  datatype Tally = CodesStored | CodesPresented | FamiliesStarted | RotationsFailed | TokensRevoked

  ghost predicate Counts(tally: Tally, before: Log, e: Entry) {
    match tally
    case CodesStored => Issues(Kind.Codes, e, e.oracle.code)
    case CodesPresented => e.event.TokenEvent? && e.event.call.CodeCall? && Live(Kind.Codes, before, e.event.call.code)
    case FamiliesStarted => IsRoot(e)
    case RotationsFailed =>
      && e.event.TokenEvent? && e.event.call.RefreshCall? && !e.response.Tokens?
      && Live(RefreshTokens, before, e.event.call.token)
    case TokensRevoked => e.event.RevokeEvent? && e.event.named.Ok? && Live(RefreshTokens, before, e.event.named.value)
  }

  ghost function Count(tally: Tally, log: Log): nat {
    if log == [] then 0
    else
      var before, last := log[..|log| - 1], log[|log| - 1];
      Count(tally, before) + if Counts(tally, before, last) then 1 else 0
  }

  /** The change one entry makes to the number of stored codes. */
  ghost function CodeDelta(before: Log, e: Entry): int {
    (if Counts(CodesStored, before, e) then 1 else 0) - (if Counts(CodesPresented, before, e) then 1 else 0)
  }

  ghost function RefreshDelta(before: Log, e: Entry): int {
    (if Counts(FamiliesStarted, before, e) then 1 else 0)
    - (if Counts(RotationsFailed, before, e) then 1 else 0)
    - (if Counts(TokensRevoked, before, e) then 1 else 0)
  }

  /** The strings an entry adds to a collection and takes out of it. */
  ghost predicate Changes(s: set<string>, s': set<string>, added: set<string>, removed: set<string>) {
    s' == (s - removed) + added && added !! s && removed <= s
  }

  lemma ChangesSize(s: set<string>, s': set<string>, added: set<string>, removed: set<string>)
    requires Changes(s, s', added, removed)
    ensures |s'| == |s| + |added| - |removed|
  {
    assert |s - removed| == |s| - |removed|;
    assert (s - removed) !! added;
  }

  /** The code an entry takes out, if any. */
  function CodeTaken(s: State, e: Event): set<string> {
    if e.TokenEvent? && e.call.CodeCall? && e.call.code in s.codes then {e.call.code} else {}
  }

  function CodeAdded(e: Entry): set<string> {
    if Issues(Kind.Codes, e, e.oracle.code) then {e.oracle.code} else {}
  }

  lemma ChangesCodes(s: State, e: Entry, s': State)
    requires forall t :: Moves(s, e, s', Kind.Codes, t)
    requires e.event.AuthorizeEvent? ==> e.oracle.code !in s.codes
    ensures Changes(Stored(s, Kind.Codes), Stored(s', Kind.Codes), CodeAdded(e), CodeTaken(s, e.event))
  {
    forall t ensures t in Stored(s', Kind.Codes)
                <==> t in (Stored(s, Kind.Codes) - CodeTaken(s, e.event)) + CodeAdded(e) {
      assert Moves(s, e, s', Kind.Codes, t);
    }
  }

  /** `|authorization_codes|` is the codes created less the presentations that found one. */
  lemma {:induction false} CodesAreConserved(env: Env, init: State, log: Log)
    requires Run(env, init, log)
    ensures |After(env, init, log).codes.Keys| == Count(CodesStored, log) - Count(CodesPresented, log)
  {
    if log == [] {
      RunStarts(env, init, log);
    } else {
      var before := log[..|log| - 1];
      CodesAreConserved(env, init, before);
      LastCodeDelta(env, init, log);
    }
  }

  lemma LastMoves(env: Env, init: State, log: Log, kind: Kind, t: string)
    requires Run(env, init, log) && log != []
    ensures Moves(After(env, init, log[..|log| - 1]), log[|log| - 1], After(env, init, log), kind, t)
  {
    var before, last := log[..|log| - 1], log[|log| - 1];
    ReachableIsSound(env, init, before);
    StepMoves(env, After(env, init, before), last.event, last.oracle, kind, t);
  }

  lemma LastDrawnIsUnused(env: Env, init: State, log: Log, kind: Kind)
    requires Run(env, init, log) && log != [] && kind != AccessTokens && kind != Approvals
    requires Draws(log[|log| - 1].event)
    ensures log[|log| - 1].oracle.code !in Stored(After(env, init, log[..|log| - 1]), kind)
  {
    var before, code := log[..|log| - 1], log[|log| - 1].oracle.code;
    if code in Stored(After(env, init, before), kind) {
      StoredWasGenerated(env, init, before, kind, code);
    }
  }

  lemma LastCodeDelta(env: Env, init: State, log: Log)
    requires Run(env, init, log) && log != []
    ensures var before := log[..|log| - 1];
              |After(env, init, log).codes.Keys|
                == |After(env, init, before).codes.Keys| + CodeDelta(before, log[|log| - 1])
  {
    var before, last := log[..|log| - 1], log[|log| - 1];
    var s, s' := After(env, init, before), After(env, init, log);
    forall t ensures Moves(s, last, s', Kind.Codes, t) { LastMoves(env, init, log, Kind.Codes, t); }
    if last.event.AuthorizeEvent? {
      LastDrawnIsUnused(env, init, log, Kind.Codes);
    }
    if last.event.TokenEvent? && last.event.call.CodeCall? {
      StateFollowsLog(env, init, before, Kind.Codes, last.event.call.code);
    }
    ChangesCodes(s, last, s');
    ChangesSize(Stored(s, Kind.Codes), Stored(s', Kind.Codes), CodeAdded(last), CodeTaken(s, last.event));
  }

  /** Which stored refresh token an entry takes out, if any. */
  function RefreshTaken(s: State, e: Event): set<string> {
    if e.TokenEvent? && e.call.RefreshCall? && e.call.token in s.refresh then {e.call.token}
    else if e.RevokeEvent? && e.named.Ok? && e.named.value in s.refresh then {e.named.value}
    else {}
  }

  function RefreshAdded(e: Entry): set<string> {
    if e.response.Tokens? && e.response.refreshToken.Some? then {e.oracle.code} else {}
  }

  lemma ChangesRefresh(s: State, e: Entry, s': State)
    requires forall t :: Moves(s, e, s', RefreshTokens, t)
    requires e.response.Tokens? && e.response.refreshToken.Some? ==>
               e.response.refreshToken == Some(e.oracle.code) && e.oracle.code !in s.refresh
    ensures Changes(Stored(s, RefreshTokens), Stored(s', RefreshTokens), RefreshAdded(e), RefreshTaken(s, e.event))
  {
    forall t ensures t in Stored(s', RefreshTokens)
                <==> t in (Stored(s, RefreshTokens) - RefreshTaken(s, e.event)) + RefreshAdded(e) {
      assert Moves(s, e, s', RefreshTokens, t);
    }
  }

  /** A token response gives out a refresh token exactly for a root or a rotation, and a rotation takes one. */
  lemma WhoGetsRefresh(env: Env, s: State, e: Event, o: Oracle)
    ensures var entry := Entry(e, o, Step(env, s, e, o).1);
              && (entry.response.Tokens? && entry.response.refreshToken.Some? <==> IsRoot(entry) || IsRotation(entry))
              && (IsRotation(entry) ==> e.call.token in s.refresh)
  {
  }

  lemma LastRefreshChanges(env: Env, init: State, log: Log)
    requires Run(env, init, log) && log != []
    ensures var s, s', last := After(env, init, log[..|log| - 1]), After(env, init, log), log[|log| - 1];
              Changes(Stored(s, RefreshTokens), Stored(s', RefreshTokens),
                      RefreshAdded(last), RefreshTaken(s, last.event))
  {
    var s, s', last := After(env, init, log[..|log| - 1]), After(env, init, log), log[|log| - 1];
    forall t ensures Moves(s, last, s', RefreshTokens, t) { LastMoves(env, init, log, RefreshTokens, t); }
    if last.response.Tokens? && last.response.refreshToken.Some? {
      IssuedWasDrawn(env, init, log, |log| - 1, RefreshTokens, last.response.refreshToken.value);
      LastDrawnIsUnused(env, init, log, RefreshTokens);
    }
    ChangesRefresh(s, last, s');
  }

  /** The sizes of what an entry adds and takes, in terms of the log. */
  lemma RefreshDeltaIs(s: State, before: Log, e: Entry)
    requires forall t :: t in s.refresh.Keys <==> Live(RefreshTokens, before, t)
    requires e.response.Tokens? && e.response.refreshToken.Some? <==> IsRoot(e) || IsRotation(e)
    requires IsRotation(e) ==> e.event.call.token in s.refresh
    ensures |RefreshAdded(e)| - |RefreshTaken(s, e.event)| == RefreshDelta(before, e)
  {
  }

  lemma LastRefreshDelta(env: Env, init: State, log: Log)
    requires Run(env, init, log) && log != []
    ensures var before := log[..|log| - 1];
              |After(env, init, log).refresh.Keys|
                == |After(env, init, before).refresh.Keys| + RefreshDelta(before, log[|log| - 1])
  {
    var before, last := log[..|log| - 1], log[|log| - 1];
    var s, s' := After(env, init, before), After(env, init, log);
    LastRefreshChanges(env, init, log);
    WhoGetsRefresh(env, s, last.event, last.oracle);
    forall t ensures t in s.refresh.Keys <==> Live(RefreshTokens, before, t) {
      StateFollowsLog(env, init, before, RefreshTokens, t);
    }
    RefreshDeltaIs(s, before, last);
    ChangesSize(Stored(s, RefreshTokens), Stored(s', RefreshTokens), RefreshAdded(last), RefreshTaken(s, last.event));
  }

  /**
   `|refresh_tokens|` is the successful code and device exchanges, less the presentations of a stored token
   that failed, less the revocations that hit one. Successful rotations do not change it.
   */
  lemma {:induction false} RefreshTokensAreConserved(env: Env, init: State, log: Log)
    requires Run(env, init, log)
    ensures |After(env, init, log).refresh.Keys|
              == Count(FamiliesStarted, log) - Count(RotationsFailed, log) - Count(TokensRevoked, log)
  {
    if log == [] {
      RunStarts(env, init, log);
    } else {
      RefreshTokensAreConserved(env, init, log[..|log| - 1]);
      LastRefreshDelta(env, init, log);
    }
  }
}
