/** Every answer to the presentation of a device code, and to the user's decisions, read off the log. */
module DeviceAnswers {
  import opened Wrappers
  import opened Text
  import opened Scope
  import opened Model
  import opened History
  import opened Devices

  // ----- verdicts -----

  /** What an entry of the log decides on a device code: a decision of the user, an exchange, or its expiry. */
  function Verdict(e: Entry, d: string): Option<Status> {
    if e.event.ApproveEvent? && e.response.Done? && e.oracle.pick == d then Some(Approved)
    else if e.event.DenyEvent? && e.response.Done? && e.oracle.pick == d then Some(Denied)
    else if PresentsDevice(e.event, d) && e.response.Tokens? then Some(Completed)
    else if PresentsDevice(e.event, d) && e.response == Failed(ExpiredToken) then Some(Expired)
    else None
  }

  /** No entry has decided on the device code. */
  ghost predicate Undecided(log: Log, d: string) {
    forall k | 0 <= k < |log| :: Verdict(log[k], d) == None
  }

  /** This is the last verdict on the device code. */
  ghost predicate Stands(log: Log, d: string, verdict: Status) {
    exists k: nat | k < |log| ::
      && Verdict(log[k], d) == Some(verdict)
      && forall l | k < l < |log| :: Verdict(log[l], d) == None
  }

  lemma UndecidedStep(log: Log, d: string)
    requires log != []
    ensures Undecided(log, d) <==> Verdict(log[|log| - 1], d).None? && Undecided(log[..|log| - 1], d)
  {
    var before := log[..|log| - 1];
    assert forall k | 0 <= k < |before| :: before[k] == log[k];
  }

  lemma StandsStep(log: Log, d: string, verdict: Status)
    requires log != []
    ensures Verdict(log[|log| - 1], d) == Some(verdict) ==> Stands(log, d, verdict)
    ensures Verdict(log[|log| - 1], d).None? && Stands(log[..|log| - 1], d, verdict) ==> Stands(log, d, verdict)
  {
    var before, last := log[..|log| - 1], log[|log| - 1];
    if Verdict(last, d).None? && Stands(before, d, verdict) {
      var k: nat :| k < |before| && Verdict(before[k], d) == Some(verdict)
        && forall l | k < l < |before| :: Verdict(before[l], d) == None;
      forall l | k < l < |log| ensures Verdict(log[l], d) == None {
        if l < |before| {
          assert log[l] == before[l];
        }
      }
      assert Verdict(log[k], d) == Some(verdict);
    }
  }

  /** At most one verdict stands, and none while a code is undecided. */
  lemma OneVerdictStands(log: Log, d: string, v: Status, v': Status)
    requires Stands(log, d, v)
    ensures !Undecided(log, d) && (Stands(log, d, v') ==> v == v')
  {
  }

  lemma VerdictHitsStored(env: Env, s: State, e: Event, o: Oracle, d: string)
    requires Verdict(Entry(e, o, Step(env, s, e, o).1), d).Some?
    ensures d in s.devices
  {
  }

  lemma StepKeepsVerdict(env: Env, s: State, e: Event, o: Oracle, d: string)
    requires d in s.devices && d in Step(env, s, e, o).0.devices && !CreatesDevice(e, o, d)
    ensures var (s', r) := Step(env, s, e, o);
            var was, now := s.devices[d].status, s'.devices[d].status;
              match Verdict(Entry(e, o, r), d)
              case Some(v) => now == v
              case None => now == was || (now.Pending? && was.Pending?)
  {
  }

  /** A status that is Pending, or else the verdict that stands. */
  ghost predicate Shows(log: Log, d: string, status: Status) {
    if status.Pending? then Undecided(log, d) else Stands(log, d, status)
  }

  /** Only what the generator has produced can be decided on. */
  lemma VerdictIsOnGenerated(env: Env, init: State, log: Log, k: nat, d: string)
    requires Run(env, init, log) && k < |log| && Verdict(log[k], d).Some?
    ensures d in Generated(log[..k])
  {
    RunAt(env, init, log, k);
    VerdictHitsStored(env, After(env, init, log[..k]), log[k].event, log[k].oracle, d);
    StoredWasGenerated(env, init, log[..k], Kind.Devices, d);
  }

  lemma GeneratedGrows(log: Log, k: nat)
    requires k <= |log|
    ensures Generated(log[..k]) <= Generated(log)
  {
    assert forall i | 0 <= i < k :: log[..k][i] == log[i];
  }

  lemma UngeneratedIsUndecided(env: Env, init: State, log: Log, d: string)
    requires Run(env, init, log) && d !in Generated(log)
    ensures Undecided(log, d)
  {
    forall k | 0 <= k < |log| ensures Verdict(log[k], d) == None {
      GeneratedGrows(log, k);
      if Verdict(log[k], d).Some? {
        VerdictIsOnGenerated(env, init, log, k, d);
        assert false;
      }
    }
  }

  lemma NewIsUndecided(env: Env, init: State, log: Log, d: string)
    requires Run(env, init, log) && log != [] && Issues(Kind.Devices, log[|log| - 1], d)
    ensures Undecided(log, d)
  {
    IssuedWasDrawn(env, init, log, |log| - 1, Kind.Devices, d);
    UngeneratedIsUndecided(env, init, log[..|log| - 1], d);
    UndecidedStep(log, d);
  }

  /** The status of a stored entry is the verdict that stands, and Pending while there is none. */
  lemma {:induction false} StatusFollowsLog(env: Env, init: State, log: Log, d: string)
    requires Run(env, init, log) && d in After(env, init, log).devices
    ensures Shows(log, d, After(env, init, log).devices[d].status)
  {
    RunStarts(env, init, log);
    var before, last := log[..|log| - 1], log[|log| - 1];
    if Issues(Kind.Devices, last, d) {
      LastCreated(env, init, log, d);
      NewIsUndecided(env, init, log, d);
    } else {
      StateFollowsLog(env, init, log, Kind.Devices, d);
      var i: nat :| i < |log| && Issues(Kind.Devices, log[i], d);
      OldDevice(env, init, log, i, d);
      StatusFollowsLog(env, init, before, d);
      StepKeepsVerdict(env, After(env, init, before), last.event, last.oracle, d);
      UndecidedStep(log, d);
      StandsStep(log, d, After(env, init, log).devices[d].status);
    }
  }

  // ----- the answers to a presentation -----

  /** The answer is one of those to a code that waits for its user. */
  predicate Waits(r: Response) {
    r == Failed(SlowDown) || r == Failed(AuthorizationPending)
  }

  /** The answer for an entry, by who presents it, when, and its status. */
  predicate AnswerFor(entry: Device, clientId: string, now: Time, r: Response) {
    var own := entry.clientId == clientId;
    var inTime := own && now <= entry.expiresAt;
    && (r == Failed(InvalidClient(DeviceOfOtherClient)) <==> !own)
    && (r == Failed(ExpiredToken) <==> own && (!inTime || entry.status == Expired))
    && (r == Failed(AccessDenied) <==> inTime && entry.status == Denied)
    && (r == Failed(InvalidGrant(DeviceUsed)) <==> inTime && entry.status == Completed)
    && (Waits(r) <==> inTime && entry.status.Pending?)
    && (r.Tokens? || r == Failed(ServerError) <==> inTime && entry.status == Approved)
  }

  lemma StepAnswers(env: Env, s: State, call: TokenCall, o: Oracle)
    requires call.DeviceCall? && Sound(env, s) && call.deviceCode in s.devices
    ensures AnswerFor(s.devices[call.deviceCode], call.caller.clientId, o.now, DeviceStep(s, call, o).1)
  {
  }

  lemma StateAnswers(env: Env, init: State, log: Log, j: nat)
    requires Run(env, init, log) && j < |log|
    requires log[j].event.TokenEvent? && log[j].event.call.DeviceCall?
    requires log[j].event.call.deviceCode in After(env, init, log[..j]).devices
    ensures var call := log[j].event.call;
              AnswerFor(After(env, init, log[..j]).devices[call.deviceCode], call.caller.clientId,
                        log[j].oracle.now, log[j].response)
  {
    RunAt(env, init, log, j);
    ReachableIsSound(env, init, log[..j]);
    StepAnswers(env, After(env, init, log[..j]), log[j].event.call, log[j].oracle);
  }

  /** The code is stored, and its owner presents it. */
  ghost predicate Owns(log: Log, j: nat)
    requires j < |log| && log[j].event.TokenEvent? && log[j].event.call.DeviceCall?
  {
    Live(Kind.Devices, log[..j], log[j].event.call.deviceCode) && exists i: nat :: Owner(log, i, j)
  }

  /** The code is stored, and its owner presents it within ten minutes of its creation. */
  ghost predicate OwnsInTime(log: Log, j: nat)
    requires j < |log| && log[j].event.TokenEvent? && log[j].event.call.DeviceCall?
  {
    Live(Kind.Devices, log[..j], log[j].event.call.deviceCode) && exists i: nat :: InTime(log, i, j)
  }

  lemma OwnsFollowsLog(env: Env, init: State, log: Log, j: nat)
    requires Run(env, init, log) && j < |log|
    requires log[j].event.TokenEvent? && log[j].event.call.DeviceCall?
    ensures var s, call := After(env, init, log[..j]), log[j].event.call;
              && (Live(Kind.Devices, log[..j], call.deviceCode) <==> call.deviceCode in s.devices)
              && (Owns(log, j) <==>
                    call.deviceCode in s.devices && s.devices[call.deviceCode].clientId == call.caller.clientId)
              && (OwnsInTime(log, j) <==>
                    && call.deviceCode in s.devices && s.devices[call.deviceCode].clientId == call.caller.clientId
                    && log[j].oracle.now <= s.devices[call.deviceCode].expiresAt)
  {
    RunAt(env, init, log, j);
    StateFollowsLog(env, init, log[..j], Kind.Devices, log[j].event.call.deviceCode);
    if log[j].event.call.deviceCode in After(env, init, log[..j]).devices {
      OwnerFollowsLog(env, init, log, j);
    }
  }

  /** A code that is not stored is unknown, and only such a code. */
  lemma UnknownDevice(env: Env, init: State, log: Log, j: nat)
    requires Run(env, init, log) && j < |log|
    requires log[j].event.TokenEvent? && log[j].event.call.DeviceCall?
    ensures log[j].response == Failed(InvalidGrant(UnknownDeviceCode))
            <==> !Live(Kind.Devices, log[..j], log[j].event.call.deviceCode)
  {
    RunAt(env, init, log, j);
    ReachableIsSound(env, init, log[..j]);
    DeviceStepDecides(env, After(env, init, log[..j]), log[j].event.call, log[j].oracle);
    StateFollowsLog(env, init, log[..j], Kind.Devices, log[j].event.call.deviceCode);
  }

  /**
   Every answer to the presentation of a device code that is stored. One of another client is refused and learns
   nothing else; after ten minutes the code is expired. Within them its owner learns of the verdict that stands,
   denied, used up, expired or approved, and is told to wait while there is none.
   */
  lemma PresentationAnswers(env: Env, init: State, log: Log, j: nat)
    requires Run(env, init, log) && j < |log|
    requires log[j].event.TokenEvent? && log[j].event.call.DeviceCall?
    ensures var r, past, d := log[j].response, log[..j], log[j].event.call.deviceCode;
              && (r == Failed(InvalidClient(DeviceOfOtherClient)) <==> Live(Kind.Devices, past, d) && !Owns(log, j))
              && (r == Failed(ExpiredToken) <==> Owns(log, j) && (!OwnsInTime(log, j) || Stands(past, d, Expired)))
              && (r == Failed(AccessDenied) <==> OwnsInTime(log, j) && Stands(past, d, Denied))
              && (r == Failed(InvalidGrant(DeviceUsed)) <==> OwnsInTime(log, j) && Stands(past, d, Completed))
              && (Waits(r) <==> OwnsInTime(log, j) && Undecided(past, d))
              && (r.Tokens? || r == Failed(ServerError) <==> OwnsInTime(log, j) && Stands(past, d, Approved))
  {
    var past, call := log[..j], log[j].event.call;
    UnknownDevice(env, init, log, j);
    OwnsFollowsLog(env, init, log, j);
    if call.deviceCode in After(env, init, past).devices {
      PastAnswers(env, init, log, j);
    }
  }

  lemma PastAnswers(env: Env, init: State, log: Log, j: nat)
    requires Run(env, init, log) && j < |log|
    requires log[j].event.TokenEvent? && log[j].event.call.DeviceCall?
    requires log[j].event.call.deviceCode in After(env, init, log[..j]).devices
    ensures var r, past, call := log[j].response, log[..j], log[j].event.call;
            var d, entry := call.deviceCode, After(env, init, log[..j]).devices[call.deviceCode];
            var own := entry.clientId == call.caller.clientId;
            var inTime := own && log[j].oracle.now <= entry.expiresAt;
              && (r == Failed(InvalidClient(DeviceOfOtherClient)) <==> !own)
              && (r == Failed(ExpiredToken) <==> own && (!inTime || Stands(past, d, Expired)))
              && (r == Failed(AccessDenied) <==> inTime && Stands(past, d, Denied))
              && (r == Failed(InvalidGrant(DeviceUsed)) <==> inTime && Stands(past, d, Completed))
              && (Waits(r) <==> inTime && Undecided(past, d))
              && (r.Tokens? || r == Failed(ServerError) <==> inTime && Stands(past, d, Approved))
  {
    var s, call := After(env, init, log[..j]), log[j].event.call;
    StateAnswers(env, init, log, j);
    RunOfPrefix(env, init, log, j);
    StatusFollowsLog(env, init, log[..j], call.deviceCode);
    VerdictIsStatus(log[..j], call.deviceCode, s.devices[call.deviceCode].status);
  }

  lemma VerdictIsStatus(log: Log, d: string, status: Status)
    requires Shows(log, d, status)
    ensures Undecided(log, d) <==> status.Pending?
    ensures forall v: Status | !v.Pending? :: Stands(log, d, v) <==> v == status
  {
    forall v: Status | !v.Pending? ensures Stands(log, d, v) <==> v == status {
      if Stands(log, d, v) && !status.Pending? {
        OneVerdictStands(log, d, status, v);
      }
    }
  }

  // ----- the request and the user's decisions -----

  /**
   A device request is refused without the feature, then for an unknown client; otherwise it is granted, with the
   drawn user code in upper case.
   */
  lemma RequestAnswers(env: Env, init: State, log: Log, k: nat, clientId: string, scope: Option<string>)
    requires Run(env, init, log) && k < |log|
    requires log[k].event == Read(env, DeviceAuthorization(clientId, scope))
    ensures var r := log[k].response;
              && (r == Failed(InvalidRequest(DeviceCodeDisabled)) <==> !env.deviceCode)
              && (r == Failed(InvalidClient(UnknownClient)) <==> env.deviceCode && clientId !in init.clients)
              && (r.DeviceGrant? <==> env.deviceCode && clientId in init.clients)
    ensures log[k].response.DeviceGrant? ==>
              var shown := log[k].response.userCode;
              && log[k].response.deviceCode == log[k].oracle.code && SameLetters(log[k].oracle.userCode, shown)
              && forall i | 0 <= i < |shown| :: !('a' <= shown[i] <= 'z')
  {
    RunAt(env, init, log, k);
    ClientsNeverChange(env, init, log[..k]);
    UpperMeans(log[k].oracle.userCode, AsciiUpper(log[k].oracle.userCode));
  }

  /** The device code `d` is stored, and was given out with this user code, in letters of any case. */
  ghost predicate Answers(log: Log, d: string, userCode: string) {
    && Live(Kind.Devices, log, d)
    && exists i: nat | i < |log| :: Issues(Kind.Devices, log[i], d) && SameLetters(log[i].response.userCode, userCode)
  }

  lemma ShownUserCode(env: Env, init: State, log: Log, i: nat, d: string)
    requires Run(env, init, log) && i < |log|
    requires Issues(Kind.Devices, log[i], d) && d in After(env, init, log).devices
    ensures log[i].response.userCode == After(env, init, log).devices[d].userCode
  {
    GrantNeverChanges(env, init, log, i, d);
    RunAt(env, init, log, i);
  }

  lemma AnswersFollowsLog(env: Env, init: State, log: Log, d: string, userCode: string)
    requires Run(env, init, log)
    ensures Answers(log, d, userCode) <==> MatchesUserCode(After(env, init, log), d, userCode)
  {
    var s := After(env, init, log);
    StateFollowsLog(env, init, log, Kind.Devices, d);
    if d in s.devices {
      var i: nat :| i < |log| && Issues(Kind.Devices, log[i], d);
      IgnoringCaseMeans(s.devices[d].userCode, userCode);
      ShownUserCode(env, init, log, i, d);
      if i': nat :| i' < |log| && Issues(Kind.Devices, log[i'], d)
                    && SameLetters(log[i'].response.userCode, userCode) {
        ShownUserCode(env, init, log, i', d);
      }
    }
  }

  /** A decision hits an entry with the user code, if there is one, and changes its status alone. */
  lemma DecisionStep(env: Env, s: State, userCode: string, approve: bool, o: Oracle)
    ensures var (s', r) := Step(env, s, Read(env, if approve then Approve(userCode) else Deny(userCode)), o);
              if MatchesUserCode(s, o.pick, userCode) then r == Done && s'.devices - {o.pick} == s.devices - {o.pick}
              else r == NoSuchUserCode
  {
  }

  lemma DecisionIsVerdict(env: Env, userCode: string, approve: bool, o: Oracle)
    ensures Verdict(Entry(Read(env, if approve then Approve(userCode) else Deny(userCode)), o, Done), o.pick)
            == Some(if approve then Approved else Denied)
  {
  }

  lemma LastVerdictStands(log: Log, k: nat, d: string, verdict: Status)
    requires k < |log| && Verdict(log[k], d) == Some(verdict)
    ensures Stands(log[..k + 1], d, verdict)
  {
    assert log[..k + 1][k] == log[k];
    StandsStep(log[..k + 1], d, verdict);
  }

  /** A decision fails exactly if no stored device code answers to the user code. */
  lemma DecisionHits(env: Env, init: State, log: Log, k: nat, userCode: string)
    requires Run(env, init, log) && k < |log|
    requires log[k].event == ApproveEvent(userCode) || log[k].event == DenyEvent(userCode)
    ensures (exists d :: Answers(log[..k], d, userCode)) <==> Answers(log[..k], log[k].oracle.pick, userCode)
    ensures Answers(log[..k], log[k].oracle.pick, userCode)
            <==> MatchesUserCode(After(env, init, log[..k]), log[k].oracle.pick, userCode)
  {
    RunAt(env, init, log, k);
    AnswersFollowsLog(env, init, log[..k], log[k].oracle.pick, userCode);
    if d :| Answers(log[..k], d, userCode) {
      AnswersFollowsLog(env, init, log[..k], d, userCode);
    }
  }

  /**
   A decision hits one device code that answers to the user code, and that verdict then stands on it and all others
   are left alone; it fails exactly if no stored device code answers to it.
   */
  lemma DecisionAnswers(env: Env, init: State, log: Log, k: nat, userCode: string, approve: bool)
    requires Run(env, init, log) && k < |log|
    requires log[k].event == Read(env, if approve then Approve(userCode) else Deny(userCode))
    ensures log[k].response == NoSuchUserCode <==> forall d :: !Answers(log[..k], d, userCode)
    ensures log[k].response != NoSuchUserCode ==>
              && log[k].response == Done && Answers(log[..k], log[k].oracle.pick, userCode)
              && Stands(log[..k + 1], log[k].oracle.pick, if approve then Approved else Denied)
              && After(env, init, log[..k + 1]).devices - {log[k].oracle.pick}
                   == After(env, init, log[..k]).devices - {log[k].oracle.pick}
  {
    var o := log[k].oracle;
    RunAt(env, init, log, k);
    DecisionHits(env, init, log, k, userCode);
    DecisionStep(env, After(env, init, log[..k]), userCode, approve, o);
    if log[k].response != NoSuchUserCode {
      assert log[k] == Entry(log[k].event, o, Done);
      DecisionIsVerdict(env, userCode, approve, o);
      LastVerdictStands(log, k, o.pick, if approve then Approved else Denied);
    }
  }
}
