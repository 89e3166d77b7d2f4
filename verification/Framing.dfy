/** What the requests of one client can do to the grants of another. */
module Framing {
  import opened Wrappers
  import opened Model
  import opened History

  /** The client in whose name a request is made; none for requests that are refused or name no client. */
  function Caller(e: Event): Option<string> {
    match e
    case AuthorizeEvent(_, clientId, _, _, _, _, _, _) => Some(clientId)
    case TokenEvent(call) => if call.Refused? then None else Some(call.caller.clientId)
    case DeviceEvent(clientId, _) => Some(clientId)
    case _ => None
  }

  /** A request that client `c` did not make, and not a decision of the user on a device code. */
  predicate Foreign(e: Event, c: string) {
    Caller(e) != Some(c) && !e.ApproveEvent? && !e.DenyEvent?
  }

  /**
   What belongs to client `c` under this key: a device entry is untouched, and neither appears nor changes
   hands; a code or a refresh token is at most removed.
   */
  predicate FramedAt(s: State, s': State, c: string, key: string) {
    && (key in s.devices && s.devices[key].clientId == c ==>
          key in s'.devices && s'.devices[key] == s.devices[key])
    && (key in s'.devices && s'.devices[key].clientId == c ==>
          key in s.devices && s'.devices[key] == s.devices[key])
    && (key in s'.codes && s'.codes[key].clientId == c ==> key in s.codes && s'.codes[key] == s.codes[key])
    && (key in s'.refresh && s'.refresh[key].clientId == c ==> key in s.refresh && s'.refresh[key] == s.refresh[key])
  }

  predicate Unused(s: State, code: string) {
    code !in s.codes && code !in s.refresh && code !in s.devices
  }

  lemma AuthorizeFrames(env: Env, s: State, e: Event, o: Oracle, c: string, key: string)
    requires Sound(env, s) && e.AuthorizeEvent? && e.clientId != c
    ensures FramedAt(s, AuthorizeStep(env, s, e, o).0, c, key)
  {
  }

  lemma CodeFrames(env: Env, s: State, call: TokenCall, o: Oracle, c: string, key: string)
    requires Sound(env, s) && call.CodeCall? && call.caller.clientId != c && Unused(s, o.code)
    ensures FramedAt(s, CodeStep(env, s, call, o).0, c, key)
  {
  }

  lemma RefreshFrames(env: Env, s: State, call: TokenCall, o: Oracle, c: string, key: string)
    requires Sound(env, s) && call.RefreshCall? && call.caller.clientId != c && Unused(s, o.code)
    ensures FramedAt(s, RefreshStep(s, call, o).0, c, key)
  {
  }

  lemma DeviceIssueFrames(env: Env, s: State, call: TokenCall, entry: Device, o: Oracle, c: string, key: string)
    requires Sound(env, s) && call.DeviceCall? && call.caller.clientId != c && Unused(s, o.code)
    requires call.deviceCode in s.devices && s.devices[call.deviceCode] == entry
    requires entry.clientId == call.caller.clientId
    ensures FramedAt(s, DeviceIssueStep(s, call, entry, o).0, c, key)
  {
  }

  lemma DeviceFrames(env: Env, s: State, call: TokenCall, o: Oracle, c: string, key: string)
    requires Sound(env, s) && call.DeviceCall? && call.caller.clientId != c && Unused(s, o.code)
    ensures FramedAt(s, DeviceStep(s, call, o).0, c, key)
  {
    if call.deviceCode in s.devices && s.devices[call.deviceCode].clientId == call.caller.clientId {
      DeviceIssueFrames(env, s, call, s.devices[call.deviceCode], o, c, key);
    }
  }

  lemma DeviceEventFrames(env: Env, s: State, e: Event, o: Oracle, c: string, key: string)
    requires Sound(env, s) && e.DeviceEvent? && e.clientId != c && Unused(s, o.code)
    ensures FramedAt(s, DeviceAuthorizationStep(env, s, e.clientId, e.requested, o).0, c, key)
  {
  }

  lemma RevokeFrames(s: State, named: Result<string, MockError>, c: string, key: string)
    ensures FramedAt(s, RevokeStep(s, named).0, c, key)
  {
  }

  lemma ClientFrames(s: State, call: TokenCall, o: Oracle, c: string, key: string)
    requires call.ClientCall?
    ensures FramedAt(s, ClientStep(s, call, o).0, c, key)
  {
  }

  lemma TokenFrames(env: Env, s: State, call: TokenCall, o: Oracle, c: string, key: string)
    requires Sound(env, s) && Foreign(TokenEvent(call), c) && Unused(s, o.code)
    ensures FramedAt(s, TokenStep(env, s, call, o).0, c, key)
  {
    match call
    case CodeCall(_, _, _, _) => CodeFrames(env, s, call, o, c, key);
    case ClientCall(_, _) => ClientFrames(s, call, o, c, key);
    case RefreshCall(_, _) => RefreshFrames(env, s, call, o, c, key);
    case DeviceCall(_, _) => DeviceFrames(env, s, call, o, c, key);
    case Refused(_) =>
  }

  lemma StepFrames(env: Env, s: State, e: Event, o: Oracle, c: string, key: string)
    requires Sound(env, s) && Foreign(e, c) && (Draws(e) ==> Unused(s, o.code))
    ensures FramedAt(s, Step(env, s, e, o).0, c, key)
  {
    match e
    case AuthorizeEvent(_, _, _, _, _, _, _, _) => AuthorizeFrames(env, s, e, o, c, key);
    case TokenEvent(call) => TokenFrames(env, s, call, o, c, key);
    case DeviceEvent(_, _) => DeviceEventFrames(env, s, e, o, c, key);
    case RevokeEvent(named) => RevokeFrames(s, named, c, key);
    case UserInfoEvent(_) =>
    case IntrospectEvent(_) =>
  }

  /** What the next entry of a run draws is not in use. */
  lemma DrawnIsUnused(env: Env, init: State, log: Log, code: string)
    requires Run(env, init, log) && code !in Generated(log)
    ensures Unused(After(env, init, log), code)
  {
    var s := After(env, init, log);
    if code in s.codes { StoredWasGenerated(env, init, log, Kind.Codes, code); }
    if code in s.refresh { StoredWasGenerated(env, init, log, RefreshTokens, code); }
    if code in s.devices { StoredWasGenerated(env, init, log, Kind.Devices, code); }
  }

  /**
   However many requests of other clients follow, client `c` keeps its device entries as they are, and gains
   no code and no refresh token; it can lose codes and refresh tokens that others present or revoke.
   */
  lemma {:induction false} OthersOnlyRemove(env: Env, init: State, log: Log, k: nat, c: string, key: string)
    requires Run(env, init, log) && k <= |log|
    requires forall i | k <= i < |log| :: Foreign(log[i].event, c)
    ensures FramedAt(After(env, init, log[..k]), After(env, init, log), c, key)
  {
    if k == |log| {
      assert log[..k] == log;
    } else {
      var before, last := log[..|log| - 1], log[|log| - 1];
      OthersOnlyRemove(env, init, before, k, c, key);
      assert before[..k] == log[..k];
      ReachableIsSound(env, init, before);
      if Draws(last.event) {
        DrawnIsUnused(env, init, before, last.oracle.code);
      }
      StepFrames(env, After(env, init, before), last.event, last.oracle, c, key);
    }
  }
}
