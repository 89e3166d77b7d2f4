/** The life of a device entry: creation, polling, decision, one exchange (RFC 8628). */
module Devices {
  import opened Wrappers
  import opened Text
  import opened Scope
  import opened Model
  import opened History

  // ----- what never changes -----

  /** Two versions of an entry differ at most in their status. */
  predicate SameGrant(d: Device, d': Device) {
    d'.(status := d.status) == d
  }

  predicate CreatesDevice(e: Event, o: Oracle, d: string) {
    e.DeviceEvent? && o.code == d
  }

  /** What a step may do to an entry it does not create: move its status, but never to Pending from elsewhere. */
  lemma StepKeepsDevice(env: Env, s: State, e: Event, o: Oracle, d: string)
    requires d in s.devices && d in Step(env, s, e, o).0.devices && !CreatesDevice(e, o, d)
    ensures var d' := Step(env, s, e, o).0.devices[d];
              SameGrant(s.devices[d], d') && (d'.status.Pending? ==> s.devices[d].status.Pending?)
  {
  }

  /** What a device authorization request stores. */
  function Requested(clients: map<string, Client>, e: Event, o: Oracle): Device
    requires e.DeviceEvent? && e.clientId in clients
  {
    Device(e.clientId, EffectiveScope(e.requested, clients[e.clientId]), AsciiUpper(o.userCode),
           o.now + DEVICE_LIFETIME, Pending(0))
  }

  lemma DeviceEventCreates(env: Env, s: State, e: Event, o: Oracle)
    requires WellKeyed(s.clients) && e.DeviceEvent? && Step(env, s, e, o).1.DeviceGrant?
    ensures var s' := Step(env, s, e, o).0;
              e.clientId in s.clients && o.code in s'.devices && s'.devices[o.code] == Requested(s.clients, e, o)
  {
  }

  /** Which device authorization requests are granted. */
  lemma DeviceIsCreated(env: Env, init: State, log: Log, k: nat)
    requires Run(env, init, log) && k < |log| && log[k].event.DeviceEvent?
    ensures log[k].response.DeviceGrant? <==> env.deviceCode && log[k].event.clientId in init.clients
    ensures log[k].response.DeviceGrant? ==> Issues(Kind.Devices, log[k], log[k].oracle.code)
  {
    RunAt(env, init, log, k);
    ClientsNeverChange(env, init, log[..k]);
  }

  lemma LastCreated(env: Env, init: State, log: Log, d: string)
    requires Run(env, init, log) && log != [] && Issues(Kind.Devices, log[|log| - 1], d)
    ensures var last := log[|log| - 1];
              && last.event.DeviceEvent? && last.event.clientId in init.clients
              && d in After(env, init, log).devices
              && After(env, init, log).devices[d] == Requested(init.clients, last.event, last.oracle)
  {
    var before, last := log[..|log| - 1], log[|log| - 1];
    IssuedWasDrawn(env, init, log, |log| - 1, Kind.Devices, d);
    ReachableIsSound(env, init, before);
    ClientsNeverChange(env, init, before);
    DeviceGrantIsFromDeviceEvent(env, init, log, |log| - 1);
    DeviceEventCreates(env, After(env, init, before), last.event, last.oracle);
  }

  lemma DeviceGrantIsFromDeviceEvent(env: Env, init: State, log: Log, i: nat)
    requires Run(env, init, log) && i < |log| && log[i].response.DeviceGrant?
    ensures log[i].event.DeviceEvent?
  {
    RunAt(env, init, log, i);
    if log[i].event.TokenEvent? {
      TokenRequestDraws(env, After(env, init, log[..i]), log[i].event.call, log[i].oracle);
    }
  }

  /** An entry that the last request did not create was there before it, with the same grant. */
  lemma OldDevice(env: Env, init: State, log: Log, i: nat, d: string)
    requires Run(env, init, log) && i < |log| - 1
    requires Issues(Kind.Devices, log[i], d) && d in After(env, init, log).devices
    ensures var s, s' := After(env, init, log[..|log| - 1]), After(env, init, log);
              && d in s.devices && SameGrant(s.devices[d], s'.devices[d])
              && (s'.devices[d].status.Pending? ==> s.devices[d].status.Pending?)
    ensures !CreatesDevice(log[|log| - 1].event, log[|log| - 1].oracle, d)
  {
    var before, last := log[..|log| - 1], log[|log| - 1];
    IssuedWasDrawn(env, init, log, i, Kind.Devices, d);
    NotDrawnAgain(env, init, log, i);
    ReachableIsSound(env, init, before);
    StepMoves(env, After(env, init, before), last.event, last.oracle, Kind.Devices, d);
    if Issues(Kind.Devices, last, d) {
      DeviceGrantIsFromDeviceEvent(env, init, log, |log| - 1);
      IssuedWasDrawn(env, init, log, |log| - 1, Kind.Devices, d);
    }
    StepKeepsDevice(env, After(env, init, before), last.event, last.oracle, d);
  }

  /** Client, scope, user code and deadline of an entry are for ever those of the request that created it. */
  lemma {:induction false} GrantNeverChanges(env: Env, init: State, log: Log, i: nat, d: string)
    requires Run(env, init, log) && i < |log|
    requires Issues(Kind.Devices, log[i], d) && d in After(env, init, log).devices
    ensures log[i].event.DeviceEvent? && log[i].event.clientId in init.clients
    ensures SameGrant(Requested(init.clients, log[i].event, log[i].oracle), After(env, init, log).devices[d])
  {
    if i == |log| - 1 {
      LastCreated(env, init, log, d);
    } else {
      OldDevice(env, init, log, i, d);
      GrantNeverChanges(env, init, log[..|log| - 1], i, d);
    }
  }

  /** An entry that has left Pending never returns to it, whatever approvals and denials follow. */
  lemma {:induction false} NeverPendingAgain(env: Env, init: State, log: Log, k: nat, d: string)
    requires Run(env, init, log) && k <= |log|
    requires d in After(env, init, log[..k]).devices && !After(env, init, log[..k]).devices[d].status.Pending?
    ensures d in After(env, init, log).devices ==> !After(env, init, log).devices[d].status.Pending?
  {
    if k == |log| {
      assert log[..k] == log;
    } else {
      var before := log[..|log| - 1];
      assert before[..k] == log[..k];
      RunOfPrefix(env, init, log, k);
      NeverPendingAgain(env, init, before, k, d);
      StateFollowsLog(env, init, log[..k], Kind.Devices, d);
      var i: nat :| i < k && Issues(Kind.Devices, log[..k][i], d);
      if d in After(env, init, log).devices {
        assert log[i] == log[..k][i];
        OldDevice(env, init, log, i, d);
      }
    }
  }

  // ----- the exchange -----

  /** What decides the presentation of a device code. */
  lemma DeviceStepDecides(env: Env, s: State, call: TokenCall, o: Oracle)
    requires call.DeviceCall? && Sound(env, s)
    ensures var r := DeviceStep(s, call, o).1;
              && (r.Tokens? <==> Exchanges(s, call, o) && SigningWorks(o))
              && (r == Failed(ServerError) <==> Exchanges(s, call, o) && !SigningWorks(o))
              && (r == Failed(InvalidGrant(UnknownDeviceCode)) <==> call.deviceCode !in s.devices)
    ensures DeviceStep(s, call, o).1.Tokens? ==>
              var entry := s.devices[call.deviceCode];
              DeviceStep(s, call, o).1 ==
                Tokens(o.accessToken.value, entry.clientId, ScopeText(entry.scope),
                       Some(IdToken(o.idToken.value, None)), Some(o.code))
  {
  }

  /** Entry `i` created the device code that entry `j` presents, and for the same client. */
  ghost predicate Owner(log: Log, i: nat, j: nat)
    requires j < |log| && log[j].event.TokenEvent? && log[j].event.call.DeviceCall?
  {
    && i < j
    && Issues(Kind.Devices, log[i], log[j].event.call.deviceCode)
    && log[i].event.DeviceEvent? && log[i].event.clientId == log[j].event.call.caller.clientId
  }

  /** The owner presents the device code within ten minutes of its creation. */
  ghost predicate InTime(log: Log, i: nat, j: nat)
    requires j < |log| && log[j].event.TokenEvent? && log[j].event.call.DeviceCall?
  {
    Owner(log, i, j) && log[j].oracle.now - log[i].oracle.now <= 600_000_000_000
  }

  /**
   The presentation at `j` is in order: its owner presents the device code within ten minutes of its creation,
   and an approval that hit it has since been neither denied, used, nor found expired.
   */
  ghost predicate Ready(log: Log, j: nat)
    requires j < |log| && log[j].event.TokenEvent? && log[j].event.call.DeviceCall?
  {
    Live(Approvals, log[..j], log[j].event.call.deviceCode) && exists i: nat :: InTime(log, i, j)
  }

  /** The owner and the deadline of a stored entry are those of the one request that created it. */
  lemma OwnerFollowsLog(env: Env, init: State, log: Log, j: nat)
    requires Run(env, init, log) && j < |log|
    requires log[j].event.TokenEvent? && log[j].event.call.DeviceCall?
    requires log[j].event.call.deviceCode in After(env, init, log[..j]).devices
    ensures var entry := After(env, init, log[..j]).devices[log[j].event.call.deviceCode];
              && ((exists i: nat :: Owner(log, i, j)) <==> entry.clientId == log[j].event.call.caller.clientId)
              && ((exists i: nat :: InTime(log, i, j)) <==>
                    entry.clientId == log[j].event.call.caller.clientId && log[j].oracle.now <= entry.expiresAt)
  {
    var past, d := log[..j], log[j].event.call.deviceCode;
    var entry := After(env, init, past).devices[d];
    RunAt(env, init, log, j);
    StateFollowsLog(env, init, past, Kind.Devices, d);
    var i: nat :| i < |past| && Issues(Kind.Devices, past[i], d);
    GrantNeverChanges(env, init, past, i, d);
    assert past[i] == log[i];
    if entry.clientId == log[j].event.call.caller.clientId {
      assert Owner(log, i, j);
      assert log[j].oracle.now <= entry.expiresAt ==> InTime(log, i, j);
    }
    if i': nat :| Owner(log, i', j) {
      IssuedWasDrawn(env, init, log, i, Kind.Devices, d);
      forall k: nat | Owner(log, k, j) ensures k == i {
        IssuedWasDrawn(env, init, log, k, Kind.Devices, d);
        DrawnOnce(env, init, log, i, k);
      }
    }
  }

  /** The presentations in order are those that reach the exchange. */
  lemma ReadyFollowsLog(env: Env, init: State, log: Log, j: nat)
    requires Run(env, init, log) && j < |log|
    requires log[j].event.TokenEvent? && log[j].event.call.DeviceCall?
    ensures Ready(log, j) <==> Exchanges(After(env, init, log[..j]), log[j].event.call, log[j].oracle)
  {
    var s, d := After(env, init, log[..j]), log[j].event.call.deviceCode;
    RunAt(env, init, log, j);
    StateFollowsLog(env, init, log[..j], Approvals, d);
    if d in s.devices {
      OwnerFollowsLog(env, init, log, j);
    }
  }

  /**
   A device code is exchanged exactly when the presentation is in order and signing works. An approval after
   the deadline does not help. If the presentation is in order and signing fails, the answer is
   `server_error`, and only then.
   */
  lemma DeviceExchange(env: Env, init: State, log: Log, j: nat)
    requires Run(env, init, log) && j < |log|
    requires log[j].event.TokenEvent? && log[j].event.call.DeviceCall?
    ensures log[j].response.Tokens? <==> Ready(log, j) && SigningWorks(log[j].oracle)
    ensures log[j].response == Failed(ServerError) <==> Ready(log, j) && !SigningWorks(log[j].oracle)
  {
    RunAt(env, init, log, j);
    ReadyFollowsLog(env, init, log, j);
    ReachableIsSound(env, init, log[..j]);
    DeviceStepDecides(env, After(env, init, log[..j]), log[j].event.call, log[j].oracle);
  }

  /**
   The tokens are for the client of the device request and name the scope it asked for and is allowed. The
   text parses to that scope if and only if its members are scope tokens; those of a nonempty request are.
   */
  lemma ExchangeGrantsTheRequest(
    env: Env, init: State, log: Log, i: nat, j: nat, clientId: string, scope: Option<string>)
    requires Run(env, init, log) && j < |log|
    requires log[j].event.TokenEvent? && log[j].event.call.DeviceCall? && log[j].response.Tokens?
    requires InTime(log, i, j) && log[i].event == Read(env, DeviceAuthorization(clientId, scope))
    ensures clientId in init.clients && log[j].response.audience == clientId
    ensures var text, granted := log[j].response.scope, EffectiveScope(ParseScope(scope), init.clients[clientId]);
              && text == ScopeText(granted)
              && (ParseScope(Some(text)) == granted <==> forall w | w in granted :: IsWord(w))
              && (ParseScope(scope) != {} ==> ParseScope(Some(text)) == granted)
  {
    var past, call := log[..j], log[j].event.call;
    RunAt(env, init, log, j);
    ReachableIsSound(env, init, past);
    DeviceStepDecides(env, After(env, init, past), call, log[j].oracle);
    assert past[i] == log[i];
    GrantNeverChanges(env, init, past, i, call.deviceCode);
    ParsedWords(scope);
    RoundTrip(EffectiveScope(ParseScope(scope), init.clients[clientId]));
  }

  // ----- loss -----

  /** The presentation at `k` is in order, but signing fails. */
  ghost predicate Wastes(log: Log, k: nat, d: string)
    requires k < |log|
  {
    PresentsDevice(log[k].event, d) && Ready(log, k) && !SigningWorks(log[k].oracle)
  }

  lemma WasteIsServerError(env: Env, init: State, log: Log, k: nat, d: string)
    requires Run(env, init, log) && k < |log|
    ensures Wastes(log, k, d) <==> Ends(Kind.Devices, log[k], d)
  {
    if PresentsDevice(log[k].event, d) {
      DeviceExchange(env, init, log, k);
    }
  }

  /**
   An entry is lost exactly when signing fails for a presentation in order: from its creation on it is
   stored until then, although every presentation first removes it.
   */
  lemma DeviceIsKept(env: Env, init: State, log: Log, i: nat, d: string)
    requires Run(env, init, log) && i < |log| && Issues(Kind.Devices, log[i], d)
    ensures d in After(env, init, log).devices <==> forall k | i < k < |log| :: !Wastes(log, k, d)
  {
    StateFollowsLog(env, init, log, Kind.Devices, d);
    forall k | i < k < |log| ensures Wastes(log, k, d) <==> Ends(Kind.Devices, log[k], d) {
      WasteIsServerError(env, init, log, k, d);
    }
    if Live(Kind.Devices, log, d) {
      var i': nat :| i' < |log| && Issues(Kind.Devices, log[i'], d) && UntouchedSince(Kind.Devices, log, i', d);
      IssuedWasDrawn(env, init, log, i, Kind.Devices, d);
      IssuedWasDrawn(env, init, log, i', Kind.Devices, d);
      DrawnOnce(env, init, log, i, i');
    } else {
      assert !UntouchedSince(Kind.Devices, log, i, d);
    }
  }

  /** A lost entry does not come back: every later presentation of its code, by anyone, finds none. */
  lemma LostForGood(env: Env, init: State, log: Log, k: nat, j: nat, d: string)
    requires Run(env, init, log) && k < j < |log|
    requires Wastes(log, k, d) && PresentsDevice(log[j].event, d)
    ensures log[j].response == Failed(InvalidGrant(UnknownDeviceCode))
  {
    var past := log[..j];
    var i: nat :| InTime(log, i, k);
    RunAt(env, init, log, j);
    assert past[i] == log[i] && past[k] == log[k];
    WasteIsServerError(env, init, log, k, d);
    WasteIsServerError(env, init, past, k, d);
    DeviceIsKept(env, init, past, i, d);
  }

  // ----- the issuance bound -----

  predicate ApprovalHits(e: Entry, d: string) {
    e.event.ApproveEvent? && e.response.Done? && e.oracle.pick == d
  }

  predicate ExchangeSucceeds(e: Entry, d: string) {
    PresentsDevice(e.event, d) && e.response.Tokens?
  }

  /** How many approvals have hit an entry. */
  function ApprovalCount(log: Log, d: string): nat {
    if log == [] then 0
    else ApprovalCount(log[..|log| - 1], d) + if ApprovalHits(log[|log| - 1], d) then 1 else 0
  }

  /** How often a device code has been exchanged. */
  function ExchangeCount(log: Log, d: string): nat {
    if log == [] then 0
    else ExchangeCount(log[..|log| - 1], d) + if ExchangeSucceeds(log[|log| - 1], d) then 1 else 0
  }

  function Waiting(s: State, d: string): nat {
    if d in s.devices && s.devices[d].status.Approved? then 1 else 0
  }

  lemma StepUsesApprovals(env: Env, s: State, e: Event, o: Oracle, d: string)
    ensures var (s', r) := Step(env, s, e, o);
              (if ExchangeSucceeds(Entry(e, o, r), d) then 1 else 0) + Waiting(s', d)
                <= Waiting(s, d) + (if ApprovalHits(Entry(e, o, r), d) then 1 else 0)
  {
  }

  /**
   Each exchange of a device code uses up an approval of its own: the exchanges, and one more while an
   approval waits, never outnumber the approvals that hit the entry. `approve_device_code` overwrites any
   status, so an approval of a completed entry does allow a further exchange.
   */
  lemma {:induction false} ExchangesNeedApprovals(env: Env, init: State, log: Log, d: string)
    requires Run(env, init, log)
    ensures ExchangeCount(log, d) + Waiting(After(env, init, log), d) <= ApprovalCount(log, d)
  {
    if log == [] {
      RunStarts(env, init, log);
    } else {
      var before, last := log[..|log| - 1], log[|log| - 1];
      ExchangesNeedApprovals(env, init, before, d);
      StepUsesApprovals(env, After(env, init, before), last.event, last.oracle, d);
    }
  }

  // ----- polling -----

  /** A poll by the owner of an entry, before its deadline. */
  predicate OwnerPoll(e: Entry, d: string, entry: Device) {
    PresentsDevice(e.event, d) && e.event.call.caller.clientId == entry.clientId && e.oracle.now <= entry.expiresAt
  }

  function PollCount(log: Log, d: string, entry: Device): nat {
    if log == [] then 0
    else PollCount(log[..|log| - 1], d, entry) + if OwnerPoll(log[|log| - 1], d, entry) then 1 else 0
  }

  /** How many presentations of a device code were answered with this error. */
  function AnswerCount(log: Log, d: string, answer: MockError): nat {
    if log == [] then 0
    else
      AnswerCount(log[..|log| - 1], d, answer)
      + if PresentsDevice(log[|log| - 1].event, d) && log[|log| - 1].response == Failed(answer) then 1 else 0
  }

  /** How many of the first `n` polls are told to slow down; `n / 3` until the counter wraps around. */
  function SlowDowns(n: nat): nat {
    (n / U32) * ((U32 - 1) / 3 + 1) + n % U32 / 3
  }

  lemma SlowDownsBeforeWrap(n: nat)
    requires n < 4_294_967_296
    ensures SlowDowns(n) == n / 3
  {
  }

  lemma NextQuotient(n: nat)
    ensures if n % U32 == U32 - 1 then (n + 1) / U32 == n / U32 + 1 && (n + 1) % U32 == 0
            else (n + 1) / U32 == n / U32 && (n + 1) % U32 == n % U32 + 1
  {
    var q, m := n / U32, n % U32;
    assert n + 1 == (if m == U32 - 1 then (q + 1) * U32 else q * U32 + (m + 1));
  }

  /** The next poll is told to slow down exactly if the count says so, across a wrap-around too. */
  lemma NextSlowDown(n: nat)
    ensures NextPoll(n % U32) == (n + 1) % U32
    ensures SlowDowns(n + 1) == SlowDowns(n) + if NextPoll(n % U32) % 3 == 0 then 1 else 0
  {
    var q, m, each := n / U32, n % U32, (U32 - 1) / 3 + 1;
    NextQuotient(n);
    NextThird(m);
    assert (q + 1) * each == q * each + each;
  }

  lemma NextThird(m: nat)
    ensures (m + 1) / 3 == m / 3 + if (m + 1) % 3 == 0 then 1 else 0
  {
  }

  /** What `n` polls make of the counter and of the two kinds of answers. */
  predicate Tally(n: nat, counter: u32, slow: nat, pending: nat) {
    counter == n % U32 && slow == SlowDowns(n) && slow + pending == n
  }

  lemma NextTally(n: nat, counter: u32, slow: nat, pending: nat)
    requires Tally(n, counter, slow, pending)
    ensures if NextPoll(counter) % 3 == 0 then Tally(n + 1, NextPoll(counter), slow + 1, pending)
            else Tally(n + 1, NextPoll(counter), slow, pending + 1)
  {
    NextSlowDown(n);
  }

  /** The counter and the answers since an entry was created are what its owner's polls make them. */
  ghost predicate CountsPolls(entry: Device, since: Log, d: string) {
    && entry.status.Pending?
    && Tally(PollCount(since, d, entry), entry.status.pollCount,
             AnswerCount(since, d, SlowDown), AnswerCount(since, d, AuthorizationPending))
  }

  lemma {:induction false} PollCountIgnoresStatus(log: Log, d: string, entry: Device, entry': Device)
    requires SameGrant(entry, entry')
    ensures PollCount(log, d, entry) == PollCount(log, d, entry')
  {
    if log != [] {
      PollCountIgnoresStatus(log[..|log| - 1], d, entry, entry');
    }
  }

  /** How one request moves an entry that is Pending before and after it. */
  predicate PollMoves(entry: Device, entry': Device, e: Entry, d: string)
    requires entry.status.Pending? && entry'.status.Pending?
  {
    var n := entry.status.pollCount;
    if OwnerPoll(e, d, entry) then
      && entry'.status.pollCount == NextPoll(n)
      && e.response == Failed(if NextPoll(n) % 3 == 0 then SlowDown else AuthorizationPending)
    else
      && entry'.status.pollCount == n
      && (PresentsDevice(e.event, d) ==> e.response != Failed(SlowDown) && e.response != Failed(AuthorizationPending))
  }

  lemma NoPollsYet(entry: Device, d: string)
    requires entry.status == Pending(0)
    ensures CountsPolls(entry, [], d)
  {
  }

  lemma CountsOfOneMore(since: Log, e: Entry, d: string, entry: Device)
    ensures PollCount(since + [e], d, entry) == PollCount(since, d, entry) + if OwnerPoll(e, d, entry) then 1 else 0
    ensures forall answer :: AnswerCount(since + [e], d, answer) == AnswerCount(since, d, answer)
              + if PresentsDevice(e.event, d) && e.response == Failed(answer) then 1 else 0
  {
    var more := since + [e];
    assert more[..|more| - 1] == since && more[|more| - 1] == e;
  }

  lemma OnePollMore(entry: Device, entry': Device, since: Log, e: Entry, d: string)
    requires CountsPolls(entry, since, d) && SameGrant(entry, entry') && entry'.status.Pending?
    requires PollMoves(entry, entry', e, d)
    ensures CountsPolls(entry', since + [e], d)
  {
    var n := PollCount(since, d, entry);
    CountsOfOneMore(since, e, d, entry);
    PollCountIgnoresStatus(since + [e], d, entry, entry');
    NextTally(n, entry.status.pollCount, AnswerCount(since, d, SlowDown), AnswerCount(since, d, AuthorizationPending));
  }

  lemma StepPolls(env: Env, s: State, e: Event, o: Oracle, d: string)
    requires d in s.devices && d in Step(env, s, e, o).0.devices && !CreatesDevice(e, o, d)
    requires s.devices[d].status.Pending? && Step(env, s, e, o).0.devices[d].status.Pending?
    ensures var (s', r) := Step(env, s, e, o); PollMoves(s.devices[d], s'.devices[d], Entry(e, o, r), d)
  {
  }

  lemma LastPoll(env: Env, init: State, log: Log, i: nat, d: string)
    requires Run(env, init, log) && i < |log| - 1 && Issues(Kind.Devices, log[i], d)
    requires d in After(env, init, log).devices && After(env, init, log).devices[d].status.Pending?
    ensures var s, s' := After(env, init, log[..|log| - 1]), After(env, init, log);
              && d in s.devices && SameGrant(s.devices[d], s'.devices[d]) && s.devices[d].status.Pending?
              && PollMoves(s.devices[d], s'.devices[d], log[|log| - 1], d)
  {
    OldDevice(env, init, log, i, d);
    StepPolls(env, After(env, init, log[..|log| - 1]), log[|log| - 1].event, log[|log| - 1].oracle, d);
  }

  /**
   While an entry is Pending its counter is the number of its owner's polls before the deadline, whatever
   other requests come between; every third of them was told to slow down and the others that the
   authorization is pending (section 3.5 of RFC 8628). The counter is a `u32`.
   */
  lemma {:induction false} PollsAreCounted(env: Env, init: State, log: Log, i: nat, d: string)
    requires Run(env, init, log) && i < |log| && Issues(Kind.Devices, log[i], d)
    requires d in After(env, init, log).devices && After(env, init, log).devices[d].status.Pending?
    ensures CountsPolls(After(env, init, log).devices[d], log[i + 1..], d)
  {
    if i == |log| - 1 {
      LastCreated(env, init, log, d);
      NoPollsYet(After(env, init, log).devices[d], d);
      assert log[i + 1..] == [];
    } else {
      var before, last := log[..|log| - 1], log[|log| - 1];
      LastPoll(env, init, log, i, d);
      PollsAreCounted(env, init, before, i, d);
      OnePollMore(After(env, init, before).devices[d], After(env, init, log).devices[d], before[i + 1..], last, d);
      assert before[i + 1..] + [last] == log[i + 1..];
    }
  }
}
