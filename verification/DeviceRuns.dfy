/** Runs that reach what the theorems on device codes allow: any number of exchanges, and the loss of an entry. */
module DeviceRuns {
  import opened Wrappers
  import opened Model
  import opened History
  import opened Devices

  lemma CountsOfLast(log: Log, e: Entry, d: string)
    ensures ExchangeCount(log + [e], d) == ExchangeCount(log, d) + if ExchangeSucceeds(e, d) then 1 else 0
    ensures ApprovalCount(log + [e], d) == ApprovalCount(log, d) + if ApprovalHits(e, d) then 1 else 0
  {
    var more := log + [e];
    assert more[..|more| - 1] == log;
  }

  lemma GeneratedAfter(log: Log, e: Entry)
    ensures Generated(log + [e]) == Generated(log) + if Draws(e.event) then {e.oracle.code} else {}
  {
    var more := log + [e];
    assert forall i | 0 <= i < |log| :: more[i] == log[i];
    assert more[|log|] == e;
  }

  lemma ApprovalStep(env: Env, s: State, d: string, o: Oracle)
    requires d in s.devices && o.pick == d
    ensures Step(env, s, ApproveEvent(s.devices[d].userCode), o)
         == (s.(devices := s.devices[d := s.devices[d].(status := Approved)]), Done)
  {
  }

  /** The user can approve a stored entry whatever its status. */
  lemma Approves(env: Env, init: State, log: Log, d: string, o: Oracle) returns (approved: Log)
    requires Run(env, init, log) && d in After(env, init, log).devices && o.pick == d
    ensures var s, s' := After(env, init, log), After(env, init, approved);
              && Run(env, init, approved)
              && approved == log + [Entry(ApproveEvent(s.devices[d].userCode), o, Done)]
              && s'.clients == s.clients
              && d in s'.devices && s'.devices[d] == s.devices[d].(status := Approved)
    ensures ExchangeCount(approved, d) == ExchangeCount(log, d)
    ensures ApprovalCount(approved, d) == ApprovalCount(log, d) + 1
    ensures Generated(approved) == Generated(log)
  {
    var s := After(env, init, log);
    var e := Entry(ApproveEvent(s.devices[d].userCode), o, Done);
    ApprovalStep(env, s, d, o);
    RunExtends(env, init, log, e.event, o);
    approved := log + [e];
    CountsOfLast(log, e, d);
    GeneratedAfter(log, e);
  }

  /** What the presentation of an approved entry does, depending on the signing. */
  lemma ExchangeStep(env: Env, s: State, call: TokenCall, o: Oracle)
    requires call.DeviceCall? && call.caller.clientId in s.clients && Exchanges(s, call, o)
    ensures var (s', r) := Step(env, s, TokenEvent(call), o);
            var d := call.deviceCode;
              if SigningWorks(o) then
                r.Tokens? && d in s'.devices && s'.devices[d] == s.devices[d].(status := Completed)
              else r == Failed(ServerError) && d !in s'.devices
  {
  }

  /** The owner presents an approved entry in time. */
  lemma Presents(env: Env, init: State, log: Log, d: string, o: Oracle, secret: string) returns (presented: Log)
    requires Run(env, init, log) && d in After(env, init, log).devices
    requires After(env, init, log).devices[d].status.Approved?
    requires o.now <= After(env, init, log).devices[d].expiresAt && o.code !in Generated(log)
    ensures Run(env, init, presented) && |presented| == |log| + 1 && log <= presented
    ensures var s, s', last := After(env, init, log), After(env, init, presented), presented[|log|];
              && last.event == TokenEvent(DeviceCall(Credentials(s.devices[d].clientId, secret), d))
              && last.oracle == o
              && if SigningWorks(o) then
                   && last.response.Tokens?
                   && d in s'.devices && s'.devices[d] == s.devices[d].(status := Completed)
                 else last.response == Failed(ServerError) && d !in s'.devices
    ensures ExchangeCount(presented, d) == ExchangeCount(log, d) + if SigningWorks(o) then 1 else 0
    ensures ApprovalCount(presented, d) == ApprovalCount(log, d)
    ensures Generated(presented) == Generated(log) + {o.code}
  {
    var s := After(env, init, log);
    var call := DeviceCall(Credentials(s.devices[d].clientId, secret), d);
    ReachableIsSound(env, init, log);
    ExchangeStep(env, s, call, o);
    RunExtends(env, init, log, TokenEvent(call), o);
    var e := Entry(TokenEvent(call), o, Step(env, s, TokenEvent(call), o).1);
    presented := log + [e];
    CountsOfLast(log, e, d);
    GeneratedAfter(log, e);
  }

  /**
   Whatever became of a stored entry, a completed exchange or a denial included, the user can approve it, and
   before the deadline its owner can then exchange it.
   */
  lemma Reissues(env: Env, init: State, log: Log, d: string, o: Oracle, o': Oracle, secret: string)
    returns (log': Log)
    requires Run(env, init, log) && d in After(env, init, log).devices
    requires o.pick == d && o'.code !in Generated(log) && SigningWorks(o')
    requires o'.now <= After(env, init, log).devices[d].expiresAt
    ensures Run(env, init, log') && |log'| == |log| + 2 && log <= log'
    ensures var entry, approval, exchange := After(env, init, log).devices[d], log'[|log|], log'[|log| + 1];
              && approval.event == ApproveEvent(entry.userCode) && approval.oracle == o
              && exchange.event == TokenEvent(DeviceCall(Credentials(entry.clientId, secret), d))
              && exchange.oracle == o' && exchange.response.Tokens?
              && d in After(env, init, log').devices
              && After(env, init, log').devices[d] == entry.(status := Completed)
    ensures ExchangeCount(log', d) == ExchangeCount(log, d) + 1
    ensures ApprovalCount(log', d) == ApprovalCount(log, d) + 1
    ensures Generated(log') == Generated(log) + {o'.code}
  {
    var approved := Approves(env, init, log, d, o);
    log' := Presents(env, init, approved, d, o', secret);
  }

  // ----- runs from a new server -----

  /** Strings that differ because their lengths do. */
  function Drawn(n: nat): string {
    seq(n + 1, _ => 'x')
  }

  function Drawing(n: nat, accessToken: Option<string>, idToken: Option<string>): Oracle {
    Oracle(0, Drawn(n), Drawn(n), accessToken, idToken, Drawn(0))
  }

  /** The run of one device authorization request. */
  lemma FirstRequest(env: Env, calls: seq<Registration>, c: string) returns (log: Log)
    requires env.deviceCode && c in Build(calls)
    ensures var init := Initial(Build(calls));
              && Run(env, init, log) && |log| == 1
              && Issues(Kind.Devices, log[0], Drawn(0)) && log[0].oracle.now == 0
              && Drawn(0) in After(env, init, log).devices
              && After(env, init, log).devices[Drawn(0)] == Requested(init.clients, log[0].event, log[0].oracle)
    ensures log[0].event == DeviceEvent(c, {}) && Generated(log) == {Drawn(0)}
    ensures ExchangeCount(log, Drawn(0)) == ApprovalCount(log, Drawn(0)) == 0
  {
    var init, e, o := Initial(Build(calls)), DeviceEvent(c, {}), Drawing(0, None, None);
    BuilderIsWellKeyed(calls);
    RunExtends(env, init, [], e, o);
    var entry := Entry(e, o, DeviceGrant(o.code, Requested(init.clients, e, o).userCode));
    log := [] + [entry];
    CountsOfLast([], entry, Drawn(0));
    GeneratedAfter([], entry);
  }

  /** After one request of client `c` the device code has been approved and exchanged `n` times. */
  ghost predicate Exchanged(env: Env, init: State, log: Log, c: string, n: nat) {
    && Run(env, init, log) && |log| == 2 * n + 1
    && log[0].event == DeviceEvent(c, {}) && Issues(Kind.Devices, log[0], Drawn(0))
    && ExchangeCount(log, Drawn(0)) == ApprovalCount(log, Drawn(0)) == n
    && Drawn(0) in After(env, init, log).devices
    && After(env, init, log).devices[Drawn(0)].expiresAt == DEVICE_LIFETIME
    && NoLonger(Generated(log), n + 1)
  }

  ghost predicate NoLonger(codes: set<string>, n: nat) {
    forall code | code in codes :: |code| <= n
  }

  lemma NextIsFresh(codes: set<string>, n: nat)
    requires NoLonger(codes, n + 1)
    ensures Drawn(n + 1) !in codes && NoLonger(codes + {Drawn(n + 1)}, n + 2)
  {
    assert |Drawn(n + 1)| == n + 2;
  }

  lemma OneMore(env: Env, init: State, log: Log, c: string, n: nat) returns (log': Log)
    requires Exchanged(env, init, log, c, n)
    ensures Exchanged(env, init, log', c, n + 1)
  {
    var o := Drawing(n + 1, Some(""), Some(""));
    NextIsFresh(Generated(log), n);
    log' := Reissues(env, init, log, Drawn(0), o, o, "");
    assert log'[0] == log[0];
  }

  /**
   The bound on exchanges is reached: on any server with the feature, any of its clients can exchange one device
   code any number of times, with an approval for each.
   */
  lemma {:induction false} ExchangesAreUnbounded(env: Env, calls: seq<Registration>, c: string, n: nat)
    returns (log: Log)
    requires env.deviceCode && c in Build(calls)
    ensures Exchanged(env, Initial(Build(calls)), log, c, n)
  {
    if n == 0 {
      log := FirstRequest(env, calls, c);
    } else {
      var shorter := ExchangesAreUnbounded(env, calls, c, n - 1);
      log := OneMore(env, Initial(Build(calls)), shorter, c, n - 1);
    }
  }

  /** An entry can be lost: on any server with the feature, to an access or an id token that is not signed. */
  lemma LossIsReached(
    env: Env, calls: seq<Registration>, c: string, accessToken: Option<string>, idToken: Option<string>)
    returns (log: Log)
    requires env.deviceCode && c in Build(calls) && (accessToken.None? || idToken.None?)
    ensures Run(env, Initial(Build(calls)), log) && |log| == 3
    ensures log[0].event == DeviceEvent(c, {}) && Issues(Kind.Devices, log[0], Drawn(0))
    ensures log[2].oracle.accessToken == accessToken && log[2].oracle.idToken == idToken
    ensures Wastes(log, 2, Drawn(0)) && Drawn(0) !in After(env, Initial(Build(calls)), log).devices
  {
    var init, o := Initial(Build(calls)), Drawing(1, accessToken, idToken);
    var first := FirstRequest(env, calls, c);
    var approved := Approves(env, init, first, Drawn(0), o);
    assert |Drawn(1)| != |Drawn(0)|;
    log := Presents(env, init, approved, Drawn(0), o, "");
    WasteIsServerError(env, init, log, 2, Drawn(0));
  }
}
