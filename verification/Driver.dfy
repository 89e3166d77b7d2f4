/**
 The driver of the conformance modules. The HTTP client, the trigger and the clock are oracles: what each
 call will return is given beforehand. A call that raises `RuntimeError` has no result.
 */
module Driver {
  import opened Wrappers

  // ----- polling one module -----

  datatype Info = Info(status: Option<string>, result: Option<string>)

  /** `clock(0)` is read for the deadline and `clock(k + 1)` before poll `k`, which answers `infos(k)`. */
  datatype Polling = Polling(clock: nat -> real, infos: nat -> Option<Info>)

  const TIMEOUT := 900.0
  const MAX_POLLS: nat := 450

  /** The clock does not go back before the first poll, and each sleep takes two seconds or more. */
  ghost predicate Advances(p: Polling) {
    p.clock(0) <= p.clock(1) && forall k: nat | 1 <= k :: p.clock(k) + 2.0 <= p.clock(k + 1)
  }

  predicate InTime(p: Polling, k: nat) {
    p.clock(k + 1) < p.clock(0) + TIMEOUT
  }

  predicate Terminal(i: Info) {
    i.status == Some("FINISHED") || i.status == Some("INTERRUPTED")
  }

  predicate Acceptable(i: Info) {
    i.status == Some("FINISHED") && i.result.Some? && i.result.value in {"PASSED", "WARNING", "REVIEW", "SKIPPED"}
  }

  /** Poll `k` is made and the module still runs. */
  predicate GoesOn(p: Polling, k: nat) {
    InTime(p, k) && p.infos(k).Some? && !Terminal(p.infos(k).value)
  }

  /** The polling comes to its end at `n`: past the deadline, with a failed request, or with a terminal status. */
  ghost predicate EndsAt(p: Polling, n: nat) {
    !GoesOn(p, n) && forall k: nat | k < n :: GoesOn(p, k)
  }

  /** The module finished in time with an acceptable result, and no request failed before. */
  ghost predicate Succeeds(p: Polling) {
    exists n: nat :: EndsAt(p, n) && InTime(p, n) && p.infos(n).Some? && Acceptable(p.infos(n).value)
  }

  /** A request fails in time, while the module still runs. */
  ghost predicate RequestFails(p: Polling) {
    exists n: nat :: EndsAt(p, n) && InTime(p, n) && p.infos(n).None?
  }

  lemma {:induction false} TimePasses(p: Polling, k: nat)
    requires Advances(p)
    ensures p.clock(0) + 2.0 * k as real <= p.clock(k + 1)
  {
    if k > 0 {
      TimePasses(p, k - 1);
    }
  }

  datatype Outcome = Returned(success: bool) | Raised

  /**
   Makes at most 450 polls. Returns true exactly for a success; anything else is false, or an exception exactly
   where a request failed or `failFast` is set.
   */
  method PollModule(p: Polling, failFast: bool) returns (r: Outcome, polls: nat)
    requires Advances(p)
    ensures r == Returned(true) <==> Succeeds(p)
    ensures r == Raised <==> (failFast && !Succeeds(p)) || RequestFails(p)
    ensures polls <= MAX_POLLS
    ensures EndsAt(p, polls) || (polls > 0 && EndsAt(p, polls - 1))
  {
    var deadline := p.clock(0) + TIMEOUT;
    polls := 0;
    while p.clock(polls + 1) < deadline
      invariant deadline == p.clock(0) + TIMEOUT
      invariant polls <= MAX_POLLS
      invariant forall k: nat | k < polls :: GoesOn(p, k)
      decreases MAX_POLLS - polls
    {
      TimePasses(p, polls);
      assert polls < MAX_POLLS;
      var info := p.infos(polls);
      ghost var n := polls;
      polls := polls + 1;
      if info.None? {
        EndedHere(p, n);
        return Raised, polls;
      }
      if Terminal(info.value) {
        EndedHere(p, n);
        if !Acceptable(info.value) {
          return if failFast then Raised else Returned(false), polls;
        }
        return Returned(true), polls;
      }
    }
    EndedHere(p, polls);
    r := if failFast then Raised else Returned(false);
  }

  lemma EndedHere(p: Polling, n: nat)
    requires !GoesOn(p, n) && forall k: nat | k < n :: GoesOn(p, k)
    ensures EndsAt(p, n)
    ensures Succeeds(p) <==> InTime(p, n) && p.infos(n).Some? && Acceptable(p.infos(n).value)
    ensures RequestFails(p) <==> InTime(p, n) && p.infos(n).None?
  {
  }

  /** Report `k` comes within 900 seconds, and says that the module still runs. */
  predicate StillRuns(p: Polling, k: nat) {
    && p.clock(k + 1) - p.clock(0) < 900.0
    && p.infos(k).Some? && p.infos(k).value.status !in {Some("FINISHED"), Some("INTERRUPTED")}
  }

  /** Report `n` comes within 900 seconds, and says that the module has finished with a passing result. */
  predicate Passes(p: Polling, n: nat) {
    && p.clock(n + 1) - p.clock(0) < 900.0
    && p.infos(n).Some? && p.infos(n).value.status == Some("FINISHED")
    && p.infos(n).value.result in {Some("PASSED"), Some("WARNING"), Some("REVIEW"), Some("SKIPPED")}
  }

  lemma ReportMeans(p: Polling, k: nat)
    ensures GoesOn(p, k) <==> StillRuns(p, k)
    ensures Passes(p, k) <==> InTime(p, k) && p.infos(k).Some? && Acceptable(p.infos(k).value)
    ensures Passes(p, k) ==> !GoesOn(p, k)
  {
  }

  /** A success is a passing report that follows only reports of a running module. */
  lemma SucceedsMeans(p: Polling)
    ensures Succeeds(p) <==> exists n: nat :: Passes(p, n) && forall k: nat | k < n :: StillRuns(p, k)
  {
    forall k: nat ensures (GoesOn(p, k) <==> StillRuns(p, k)) && (Passes(p, k) ==> !GoesOn(p, k)) {
      ReportMeans(p, k);
    }
    if n: nat :| EndsAt(p, n) && InTime(p, n) && p.infos(n).Some? && Acceptable(p.infos(n).value) {
      assert Passes(p, n);
    }
    if n: nat :| Passes(p, n) && forall k: nat | k < n :: StillRuns(p, k) {
      ReportMeans(p, n);
      assert EndsAt(p, n);
    }
  }

  // ----- the modules of a plan -----

  /** What happens to a module: its first info request, the two ways to start it, the trigger, the polls. */
  datatype World = World(info: Option<Info>, startPost: bool, startFallback: bool, trigger: bool, polling: Polling)

  /** A module of a plan: its identifier stands under one of three keys. */
  datatype PlanModule = PlanModule(
    moduleId: Option<string>,
    id: Option<string>,
    underscoreId: Option<string>,
    world: World)

  /** A module as the driver keeps it. */
  datatype Module = Module(id: string, world: World)

  /** Python's `a or b`: an absent or empty string gives way to the next. */
  function Or(s: Option<string>, t: Option<string>): Option<string> {
    if s.Some? && s.value != "" then s else t
  }

  /** The module has an identifier, and it is `id`: the first of the three that is there and not empty. */
  predicate Identifies(m: PlanModule, id: string) {
    && id != ""
    && (m.moduleId == Some(id)
        || (m.moduleId in [None, Some("")]
            && (m.id == Some(id) || (m.id in [None, Some("")] && m.underscoreId == Some(id)))))
  }

  function Chosen(m: PlanModule): seq<Module> {
    if m.moduleId.Some? && m.moduleId.value != "" then [Module(m.moduleId.value, m.world)]
    else if m.id.Some? && m.id.value != "" then [Module(m.id.value, m.world)]
    else if m.underscoreId.Some? && m.underscoreId.value != "" then [Module(m.underscoreId.value, m.world)]
    else []
  }

  /** The modules that have an identifier, in plan order. */
  function Normalized(plan: seq<PlanModule>): seq<Module> {
    if plan == [] then []
    else Normalized(plan[..|plan| - 1]) + Chosen(plan[|plan| - 1])
  }

  /** What is kept are the modules of the plan that have an identifier, each with its identifier. */
  lemma {:induction false} NormalizedSelects(plan: seq<PlanModule>, m: Module)
    ensures m in Normalized(plan) <==> exists p | p in plan :: Identifies(p, m.id) && p.world == m.world
  {
    if plan != [] {
      var front, last := plan[..|plan| - 1], plan[|plan| - 1];
      NormalizedSelects(front, m);
      assert plan == front + [last];
      assert m in Chosen(last) <==> Identifies(last, m.id) && last.world == m.world;
      if m in Normalized(plan) {
        if p :| p in front && Identifies(p, m.id) && p.world == m.world {
          assert p in plan;
        } else {
          assert last in plan;
        }
      }
    }
  }

  ghost predicate HasId(m: PlanModule) {
    exists id :: Identifies(m, id)
  }

  lemma ChosenMeans(m: PlanModule)
    ensures if HasId(m) then |Chosen(m)| == 1 && Identifies(m, Chosen(m)[0].id) && Chosen(m)[0].world == m.world
            else Chosen(m) == []
  {
    if Chosen(m) != [] {
      assert Identifies(m, Chosen(m)[0].id);
    }
  }

  /**
   The modules kept have places in the plan, one for each and in plan order; they are the places with an identifier,
   and each module has the identifier and the world of its place.
   */
  ghost predicate KeptAt(plan: seq<PlanModule>, modules: seq<Module>, places: seq<nat>) {
    && |places| == |modules|
    && (forall k | 0 <= k < |places| ::
          && places[k] < |plan|
          && Identifies(plan[places[k]], modules[k].id) && modules[k].world == plan[places[k]].world)
    && (forall k, l | 0 <= k < l < |places| :: places[k] < places[l])
    && (forall i | 0 <= i < |plan| && HasId(plan[i]) :: i in places)
  }

  lemma KeepOneMore(plan: seq<PlanModule>, last: PlanModule, modules: seq<Module>, places: seq<nat>)
    requires KeptAt(plan, modules, places)
    ensures KeptAt(plan + [last], modules + Chosen(last), if HasId(last) then places + [|plan|] else places)
  {
    var plan', places' := plan + [last], if HasId(last) then places + [|plan|] else places;
    ChosenMeans(last);
    forall i | 0 <= i < |plan'| && HasId(plan'[i]) ensures i in places' {
      if i < |plan| {
        assert plan'[i] == plan[i] && i in places;
      } else {
        assert places'[|places|] == i;
      }
    }
  }

  /** `ensure_modules` keeps plan order and loses no module that has an identifier. */
  lemma {:induction false} NormalizedKeepsOrder(plan: seq<PlanModule>) returns (places: seq<nat>)
    ensures KeptAt(plan, Normalized(plan), places)
  {
    if plan == [] {
      places := [];
    } else {
      var front, last := plan[..|plan| - 1], plan[|plan| - 1];
      assert plan == front + [last];
      var before := NormalizedKeepsOrder(front);
      KeepOneMore(front, last, Normalized(front), before);
      places := if HasId(last) then before + [|front|] else before;
    }
  }

  method EnsureModules(plan: seq<PlanModule>) returns (r: Option<seq<Module>>)
    ensures r == if Normalized(plan) == [] then None else Some(Normalized(plan))
  {
    var normalized: seq<Module> := [];
    for i := 0 to |plan|
      invariant normalized == Normalized(plan[..i])
    {
      assert plan[..i + 1][..i] == plan[..i];
      var id := Or(Or(plan[i].moduleId, plan[i].id), plan[i].underscoreId);
      if id.None? || id.value == "" {
        continue;
      }
      normalized := normalized + [Module(id.value, plan[i].world)];
    }
    assert plan[..|plan|] == plan;
    r := if normalized == [] then None else Some(normalized);
  }

  // ----- driving them -----

  predicate NeedsStart(w: World)
    requires w.info.Some?
  {
    w.info.value.status == Some("CREATED") || w.info.value.status == Some("CONFIGURED")
  }

  /** The info request and, where one is due, the start succeed; their exceptions leave the driver in any mode. */
  predicate SetsUp(w: World) {
    w.info.Some? && (NeedsStart(w) ==> w.startPost || w.startFallback)
  }

  predicate NeedsTrigger(w: World)
    requires w.info.Some?
  {
    NeedsStart(w) || w.info.value.status == Some("WAITING")
  }

  /** The module is set up, triggered where that is due, and polled to a success. */
  ghost predicate Good(w: World) {
    SetsUp(w) && (NeedsTrigger(w) ==> w.trigger) && Succeeds(w.polling)
  }

  /** What is asked of a module, by the status it reports first: one that is new must start and be triggered. */
  lemma GoodMeans(w: World)
    ensures w.info.None? ==> !Good(w)
    ensures w.info.Some? ==>
              (Good(w) <==>
                match w.info.value.status
                case Some("CREATED") => (w.startPost || w.startFallback) && w.trigger && Succeeds(w.polling)
                case Some("CONFIGURED") => (w.startPost || w.startFallback) && w.trigger && Succeeds(w.polling)
                case Some("WAITING") => w.trigger && Succeeds(w.polling)
                case _ => Succeeds(w.polling))
  {
  }

  method StartModule(w: World) returns (ok: bool)
    ensures ok == (w.startPost || w.startFallback)
  {
    ok := w.startPost;
    if !ok {
      ok := w.startFallback;
    }
  }

  /** The loop body for one module: whether it raises out of the driver, and whether the module succeeded. */
  method DriveModule(w: World, failFast: bool) returns (raised: bool, ok: bool)
    requires Advances(w.polling)
    ensures !raised ==> (ok <==> Good(w))
    ensures raised <==> !SetsUp(w) || (failFast && !Good(w))
  {
    if w.info.None? {
      return true, false;
    }
    var status := w.info.value.status;
    if status == Some("CREATED") {
      var started := StartModule(w);
      if !started {
        return true, false;
      }
      status := Some("WAITING");
    }
    if status == Some("CONFIGURED") {
      var started := StartModule(w);
      if !started {
        return true, false;
      }
      status := Some("WAITING");
    }
    if status == Some("WAITING") && !w.trigger {
      return failFast, false;
    }
    var polled, polls := PollModule(w.polling, failFast);
    if polled.Raised? {
      return failFast, false;
    }
    return false, polled.success;
  }

  /**
   Without `failFast` and with every info and start request succeeding, all modules are visited and the
   answer is true exactly if all are good. With `failFast` the driver stops at the first that is not.
   */
  method DriveModules(plan: seq<PlanModule>, failFast: bool) returns (r: Outcome, visited: nat)
    requires forall m | m in plan :: Advances(m.world.polling)
    ensures r == Returned(true) <==> Normalized(plan) != [] && forall m | m in Normalized(plan) :: Good(m.world)
    ensures failFast ==> r != Returned(false)
    ensures visited <= |Normalized(plan)| && (r.Returned? ==> visited == |Normalized(plan)| > 0)
    ensures r.Returned? ==> forall m | m in Normalized(plan) :: SetsUp(m.world)
    ensures !failFast && Normalized(plan) != [] && (forall m | m in Normalized(plan) :: SetsUp(m.world)) ==>
              visited == |Normalized(plan)| && r.Returned?
    ensures r.Raised? && visited > 0 ==>
              var w := Normalized(plan)[visited - 1].world;
              && (!SetsUp(w) || (failFast && !Good(w)))
              && forall j | 0 <= j < visited - 1 ::
                   SetsUp(Normalized(plan)[j].world) && (failFast ==> Good(Normalized(plan)[j].world))
  {
    visited := 0;
    var ensured := EnsureModules(plan);
    if ensured.None? {
      return Raised, visited;
    }
    var modules := ensured.value;
    var overallSuccess := true;
    for i := 0 to |modules|
      invariant visited == i
      invariant overallSuccess <==> forall j | 0 <= j < i :: Good(modules[j].world)
      invariant forall j | 0 <= j < i :: SetsUp(modules[j].world)
      invariant failFast ==> overallSuccess
    {
      visited := visited + 1;
      NormalizedSelects(plan, modules[i]);
      var raised, ok := DriveModule(modules[i].world, failFast);
      if raised {
        return Raised, visited;
      }
      overallSuccess := overallSuccess && ok;
    }
    r := Returned(overallSuccess);
  }
}
