/**
 * Half-open progress on the transport's own interleavings: which requests of a half-open episode still owe the breaker
 * a report, and which have left without one.
 */
module ProbeDuties {
  import opened Prelude
  import opened CircuitBreakers
  import opened HttpTransports

  /**
   * The requests admitted in the current half-open episode: those in flight, the ones among them that asked under an
   * older generation than the current one, and how many have left without a report, cancelled or asked under an
   * older generation (`strayed`), or because the generation has moved since they asked (`overtaken`). `foreign` counts
   * the successes reported meanwhile by requests admitted before the episode.
   */
  datatype Episode = Episode(
    running: set<RequestId>,
    outdated: set<RequestId>,
    strayed: nat,
    overtaken: nat,
    foreign: nat
  )

  const NONE := Episode({}, {}, 0, 0, 0)

  /** `owed` are the network changes that have bumped the generation and still have to reset the breaker. */
  datatype World = World(state: State, episode: Episode, owed: nat)

  const OUTSET := World(INITIAL, NONE, 0)

  predicate Possible(w: World, a: Action) {
    Enabled(w.state, a) && (a.ResetBreaker? ==> w.owed > 0)
  }

  function Leave(e: Episode, id: RequestId): Episode {
    e.(running := e.running - {id}, outdated := e.outdated - {id})
  }

  /** The episode after an action that leaves the breaker half open. */
  function Continue(c: BreakerConfig, s: State, e: Episode, a: Action): Episode
    requires Enabled(s, a)
  {
    match a
    case Ask(id, now) =>
      if !Admits(c, s.breaker, now) then e
      else
        var before := if s.breaker.state == HalfOpen then e else NONE;
        var outdated := if s.requests[id].gen == s.generation then {} else {id};
        before.(running := before.running + {id}, outdated := before.outdated + outdated)
    case Succeed(id) => if id in e.running then Leave(e, id) else e.(foreign := e.foreign + 1)
    case Cancel(id) => if id in e.running then Leave(e, id).(strayed := e.strayed + 1) else e
    case Check(id) =>
      if id !in e.running || s.requests[id].gen == s.generation then e
      else if id in e.outdated then Leave(e, id).(strayed := e.strayed + 1)
      else Leave(e, id).(overtaken := e.overtaken + 1)
    case _ => e
  }

  function Next(c: BreakerConfig, w: World, a: Action): World
    requires Possible(w, a)
  {
    var s := Apply(c, w.state, a);
    World(s,
          if s.breaker.state == HalfOpen then Continue(c, w.state, w.episode, a) else NONE,
          if a.Bump? then w.owed + 1 else if a.ResetBreaker? then w.owed - 1 else w.owed)
  }

  function Run(c: BreakerConfig, w: World, actions: seq<Action>): Option<World> {
    if actions == [] then Some(w)
    else
      var before := Run(c, w, actions[..|actions| - 1]);
      if before.Some? && Possible(before.value, actions[|actions| - 1])
      then Some(Next(c, before.value, actions[|actions| - 1]))
      else None
  }

  // ------------------------------------------------------------- what every run keeps

  predicate InFlightOf(s: State, id: RequestId) {
    id in s.requests && !s.requests[id].stage.Loaded?
  }

  ghost predicate RequestsKnown(w: World) {
    && (forall id :: id in w.state.requests ==> id < w.state.started && w.state.requests[id].gen <= w.state.generation)
    && (forall id :: id in w.episode.running ==> InFlightOf(w.state, id))
    && w.episode.outdated <= w.episode.running
  }

  /** Every probe admitted is in flight, counted as a success, or has left without a report, and nothing else is. */
  ghost predicate Counted(c: BreakerConfig, w: World) {
    var b, e := w.state.breaker, w.episode;
    b.state == HalfOpen ==>
      && |e.running| + (b.successes - e.foreign) + e.strayed + e.overtaken == 1 + Min(b.probes, c.halfOpenMaxRequests)
      && e.foreign <= b.successes < Max(1, c.successThreshold)
  }

  /** A probe is only overtaken by a network change that still has to reset the breaker. */
  ghost predicate OvertakenByChanges(w: World) {
    && (forall id :: id in w.episode.running && id !in w.episode.outdated && id in w.state.requests ==>
          w.state.requests[id].gen == w.state.generation || w.owed > 0)
    && (w.episode.overtaken > 0 ==> w.owed > 0)
  }

  ghost predicate Inv(c: BreakerConfig, w: World) {
    RequestsKnown(w) && Counted(c, w) && OvertakenByChanges(w)
  }

  lemma RequestsKnownKept(c: BreakerConfig, w: World, a: Action)
    requires RequestsKnown(w) && Possible(w, a)
    ensures RequestsKnown(Next(c, w, a))
  {
  }

  lemma LeaveShrinks(e: Episode, id: RequestId)
    ensures |Leave(e, id).running| == if id in e.running then |e.running| - 1 else |e.running|
  {
    if id !in e.running {
      assert e.running - {id} == e.running;
    }
  }

  lemma CountedKept(c: BreakerConfig, w: World, a: Action)
    requires RequestsKnown(w) && Counted(c, w) && Possible(w, a)
    ensures Counted(c, Next(c, w, a))
  {
    match a {
      case Ask(id, now) => AskCounted(c, w, id, now);
      case Succeed(id) => SuccessCounted(c, w, id);
      case Cancel(id) => CancelCounted(c, w, id);
      case Check(id) => CheckCounted(c, w, id);
      case _ =>
    }
  }

  /** A probe's success moves it from those in flight to the successes. */
  lemma SuccessCounted(c: BreakerConfig, w: World, id: RequestId)
    requires RequestsKnown(w) && Counted(c, w) && Possible(w, Action.Succeed(id))
    ensures Counted(c, Next(c, w, Action.Succeed(id)))
  {
    LeaveShrinks(w.episode, id);
  }

  lemma CancelCounted(c: BreakerConfig, w: World, id: RequestId)
    requires RequestsKnown(w) && Counted(c, w) && Possible(w, Action.Cancel(id))
    ensures Counted(c, Next(c, w, Action.Cancel(id)))
  {
    LeaveShrinks(w.episode, id);
  }

  lemma CheckCounted(c: BreakerConfig, w: World, id: RequestId)
    requires RequestsKnown(w) && Counted(c, w) && Possible(w, Check(id))
    ensures Counted(c, Next(c, w, Check(id)))
  {
    if id in w.episode.running && w.state.requests[id].gen != w.state.generation {
      UnreportedCounted(c, w, id);
    }
  }

  /** A probe whose failure goes unreported moves to those that left without a report. */
  lemma UnreportedCounted(c: BreakerConfig, w: World, id: RequestId)
    requires RequestsKnown(w) && Counted(c, w) && Possible(w, Check(id))
    requires id in w.episode.running && w.state.requests[id].gen != w.state.generation
    ensures Counted(c, Next(c, w, Check(id)))
  {
    var e, next := w.episode, Next(c, w, Check(id));
    LeaveShrinks(e, id);
    assert next.state.breaker == w.state.breaker;
    if w.state.breaker.state == HalfOpen {
      assert next.episode.running == Leave(e, id).running;
      assert next.episode.strayed + next.episode.overtaken == e.strayed + e.overtaken + 1;
    }
  }

  lemma AskCounted(c: BreakerConfig, w: World, id: RequestId, now: nat)
    requires RequestsKnown(w) && Counted(c, w) && Possible(w, Action.Ask(id, now))
    ensures Counted(c, Next(c, w, Action.Ask(id, now)))
  {
    assert id !in w.episode.running;
    assert |w.episode.running + {id}| == |w.episode.running| + 1;
  }

  lemma OvertakenByChangesKept(c: BreakerConfig, w: World, a: Action)
    requires RequestsKnown(w) && OvertakenByChanges(w) && Possible(w, a)
    ensures OvertakenByChanges(Next(c, w, a))
  {
  }

  lemma {:induction false} EveryRunAccounts(c: BreakerConfig, actions: seq<Action>)
    requires Run(c, OUTSET, actions).Some?
    ensures Inv(c, Run(c, OUTSET, actions).value)
  {
    if actions != [] {
      var front := actions[..|actions| - 1];
      EveryRunAccounts(c, front);
      RequestsKnownKept(c, Run(c, OUTSET, front).value, actions[|actions| - 1]);
      CountedKept(c, Run(c, OUTSET, front).value, actions[|actions| - 1]);
      OvertakenByChangesKept(c, Run(c, OUTSET, front).value, actions[|actions| - 1]);
    }
  }

  // ------------------------------------------------------------- progress

  /** A half-open breaker that refuses every request. */
  predicate Refusing(c: BreakerConfig, s: State) {
    s.breaker.state == HalfOpen && s.breaker.probes >= c.halfOpenMaxRequests
  }

  /** A request of the episode that reports whether it succeeds or fails, as its generation is the current one. */
  predicate OwesAReport(w: World, id: RequestId) {
    id in w.episode.running && InFlightOf(w.state, id) && w.state.requests[id].gen == w.state.generation
  }

  /**
   * For every interleaving: where the successes demanded can be had from the probes admitted, a half-open breaker that
   * refuses has a request in flight that owes it a report, unless a probe of this episode was cancelled or had asked
   * under an older generation, or a network change is about to reset the breaker.
   */
  lemma RefusalHasAReportOwed(c: BreakerConfig, actions: seq<Action>)
    requires c.successThreshold <= c.halfOpenMaxRequests + 1
    requires Run(c, OUTSET, actions).Some? && Refusing(c, Run(c, OUTSET, actions).value.state)
    ensures var w := Run(c, OUTSET, actions).value;
            (exists id :: OwesAReport(w, id)) || w.episode.strayed > 0 || w.episode.outdated != {} || w.owed > 0
  {
    EveryRunAccounts(c, actions);
    var w := Run(c, OUTSET, actions).value;
    if w.episode.strayed == 0 && w.episode.outdated == {} && w.owed == 0 {
      var id :| id in w.episode.running;
      assert OwesAReport(w, id);
    }
  }

  /** No action of the run cancels a request, or asks for one under a generation that has passed. */
  ghost predicate Prompt(c: BreakerConfig, actions: seq<Action>)
    requires Run(c, OUTSET, actions).Some?
  {
    forall i :: 0 <= i < |actions| && Run(c, OUTSET, actions[..i]).Some? ==>
      var s := Run(c, OUTSET, actions[..i]).value.state;
      && !actions[i].Cancel?
      && (actions[i].Ask? && actions[i].id in s.requests ==> s.requests[actions[i].id].gen == s.generation)
  }

  /** Without cancellations and outdated questions, nothing strays. */
  lemma {:induction false} PromptRunsDoNotStray(c: BreakerConfig, actions: seq<Action>)
    requires Run(c, OUTSET, actions).Some? && Prompt(c, actions)
    ensures var e := Run(c, OUTSET, actions).value.episode; e.strayed == 0 && e.outdated == {}
  {
    if actions != [] {
      var n := |actions| - 1;
      var front := actions[..n];
      forall i | 0 <= i < n && Run(c, OUTSET, front[..i]).Some?
        ensures var s := Run(c, OUTSET, front[..i]).value.state;
                && !front[i].Cancel?
                && (front[i].Ask? && front[i].id in s.requests ==> s.requests[front[i].id].gen == s.generation)
      {
        assert front[..i] == actions[..i];
      }
      PromptRunsDoNotStray(c, front);
    }
  }

  /** So a prompt run with no reset outstanding never leaves a half-open breaker refusing with no report to come. */
  lemma PromptRunsMakeProgress(c: BreakerConfig, actions: seq<Action>)
    requires c.successThreshold <= c.halfOpenMaxRequests + 1
    requires Run(c, OUTSET, actions).Some? && Prompt(c, actions)
    requires Refusing(c, Run(c, OUTSET, actions).value.state) && Run(c, OUTSET, actions).value.owed == 0
    ensures exists id :: OwesAReport(Run(c, OUTSET, actions).value, id)
  {
    PromptRunsDoNotStray(c, actions);
    RefusalHasAReportOwed(c, actions);
  }

  /**
   * Exactly when a half-open breaker refuses with no probe of its episode in flight: when those that reported success
   * and those that left without a report are all that were admitted.
   */
  lemma NoProbeInFlightExactly(c: BreakerConfig, actions: seq<Action>)
    requires Run(c, OUTSET, actions).Some? && Refusing(c, Run(c, OUTSET, actions).value.state)
    ensures var w := Run(c, OUTSET, actions).value;
            var e := w.episode;
            && e.foreign <= w.state.breaker.successes
            && (e.running == {} <==>
                (w.state.breaker.successes - e.foreign) + e.strayed + e.overtaken == c.halfOpenMaxRequests + 1)
  {
    EveryRunAccounts(c, actions);
    if |Run(c, OUTSET, actions).value.episode.running| == 0 {
      assert Run(c, OUTSET, actions).value.episode.running == {};
    }
  }

  // ------------------------------------------------------------- when prompt runs can strand the breaker

  /** A half-open breaker that refuses everything, with no request in flight and no reset to come. */
  predicate Stranded(c: BreakerConfig, w: World) {
    Refusing(c, w.state) && w.state.requests == map[] && w.owed == 0
  }

  ghost predicate CanBeStranded(c: BreakerConfig) {
    exists actions :: Run(c, OUTSET, actions).Some? && Prompt(c, actions) && Stranded(c, Run(c, OUTSET, actions).value)
  }

  /** Prompt runs can strand the breaker exactly when it demands more successes than it admits probes. */
  lemma StrandedExactlyWhenProbesCannotSuffice(c: BreakerConfig)
    ensures CanBeStranded(c) <==> c.successThreshold > c.halfOpenMaxRequests + 1
  {
    if c.successThreshold > c.halfOpenMaxRequests + 1 {
      var actions, _ := ProbedRun(c, c.halfOpenMaxRequests + 1);
      assert Stranded(c, Run(c, OUTSET, actions).value);
    } else {
      forall actions | Run(c, OUTSET, actions).Some? && Prompt(c, actions)
        ensures !Stranded(c, Run(c, OUTSET, actions).value)
      {
        if Stranded(c, Run(c, OUTSET, actions).value) {
          PromptRunsMakeProgress(c, actions);
        }
      }
    }
  }

  /** A run goes on promptly with one more action. */
  lemma GoOn(c: BreakerConfig, actions: seq<Action>, w: World, a: Action) returns (longer: seq<Action>)
    requires Run(c, OUTSET, actions) == Some(w) && Prompt(c, actions) && Possible(w, a) && !a.Cancel?
    requires a.Ask? && a.id in w.state.requests ==> w.state.requests[a.id].gen == w.state.generation
    ensures Run(c, OUTSET, longer) == Some(Next(c, w, a)) && Prompt(c, longer)
  {
    longer := actions + [a];
    RunSnoc(c, actions, a);
    forall i | 0 <= i < |longer| && Run(c, OUTSET, longer[..i]).Some?
      ensures var s := Run(c, OUTSET, longer[..i]).value.state;
              && !longer[i].Cancel?
              && (longer[i].Ask? && longer[i].id in s.requests ==> s.requests[longer[i].id].gen == s.generation)
    {
      assert longer[..i] == if i < |actions| then actions[..i] else actions;
    }
  }

  /** On the first network, with `next` requests begun, these of them in flight, and this episode. */
  function Underway(b: Breaker, requests: map<RequestId, InFlight>, next: RequestId, e: Episode): World {
    World(State(b, 0, requests, next, {}, {}), e, 0)
  }

  function Alone(id: RequestId, stage: Stage): map<RequestId, InFlight> {
    map[id := InFlight(0, stage)]
  }

  function AsProbe(b: Breaker, id: RequestId): Episode {
    if b.state == HalfOpen then NONE.(running := {id}) else NONE
  }

  /** A request by itself is begun and admitted; if that leaves the breaker half open, as a probe. */
  lemma RequestAdmitted(c: BreakerConfig, actions: seq<Action>, b: Breaker, id: RequestId, now: nat)
    returns (longer: seq<Action>)
    requires Run(c, OUTSET, actions) == Some(Underway(b, map[], id, NONE)) && Prompt(c, actions) && Admits(c, b, now)
    ensures var asked := Step(c, b, Op.Request(now));
            Run(c, OUTSET, longer) == Some(Underway(asked, Alone(id, Running), id + 1, AsProbe(asked, id)))
    ensures Prompt(c, longer)
  {
    longer := GoOn(c, actions, Underway(b, map[], id, NONE), Begin);
    assert Run(c, OUTSET, longer).value == Underway(b, Alone(id, Loaded), id + 1, NONE);
    AdmittedAsProbe(c, b, id, now);
    longer := GoOn(c, longer, Underway(b, Alone(id, Loaded), id + 1, NONE), Action.Ask(id, now));
  }

  lemma AdmittedAsProbe(c: BreakerConfig, b: Breaker, id: RequestId, now: nat)
    requires Admits(c, b, now)
    ensures var asked := Step(c, b, Op.Request(now));
            Next(c, Underway(b, Alone(id, Loaded), id + 1, NONE), Action.Ask(id, now))
            == Underway(asked, Alone(id, Running), id + 1, AsProbe(asked, id))
  {
    var next := Next(c, Underway(b, Alone(id, Loaded), id + 1, NONE), Action.Ask(id, now));
    assert next.state.requests == Alone(id, Running);
    if next.state.breaker.state == HalfOpen {
      assert next.episode.running == {id} && next.episode.outdated == {};
    }
  }

  /** A request by itself fails on a closed breaker. */
  lemma FailingRequest(c: BreakerConfig, actions: seq<Action>, b: Breaker, id: RequestId) returns (longer: seq<Action>)
    requires Run(c, OUTSET, actions) == Some(Underway(b, map[], id, NONE)) && Prompt(c, actions) && b.state == Closed
    ensures Run(c, OUTSET, longer) == Some(Underway(Step(c, b, Failure(0)), map[], id + 1, NONE)) && Prompt(c, longer)
  {
    longer := RequestAdmitted(c, actions, b, id, 0);
    longer := GoOn(c, longer, Underway(b, Alone(id, Running), id + 1, NONE), Action.Fail(id));
    assert Run(c, OUTSET, longer).value == Underway(b, Alone(id, Failing), id + 1, NONE);
    longer := FailureReported(c, longer, b, id);
  }

  lemma FailureReported(c: BreakerConfig, actions: seq<Action>, b: Breaker, id: RequestId)
    returns (longer: seq<Action>)
    requires Run(c, OUTSET, actions) == Some(Underway(b, Alone(id, Failing), id + 1, NONE))
    requires Prompt(c, actions) && b.state == Closed
    ensures Run(c, OUTSET, longer) == Some(Underway(Step(c, b, Failure(0)), map[], id + 1, NONE)) && Prompt(c, longer)
  {
    longer := GoOn(c, actions, Underway(b, Alone(id, Failing), id + 1, NONE), Check(id));
    assert Run(c, OUTSET, longer).value == Underway(b, Alone(id, Cleared), id + 1, NONE);
    longer := GoOn(c, longer, Underway(b, Alone(id, Cleared), id + 1, NONE), Action.Report(id, 0));
    assert Run(c, OUTSET, longer).value.state.requests == map[];
  }

  /** A request by itself is admitted as a probe and succeeds, which is not enough to close the breaker. */
  lemma SucceedingProbe(c: BreakerConfig, actions: seq<Action>, b: Breaker, id: RequestId, now: nat)
    returns (longer: seq<Action>)
    requires Run(c, OUTSET, actions) == Some(Underway(b, map[], id, NONE)) && Prompt(c, actions)
    requires b.state != Closed && Admits(c, b, now)
    requires (if b.state == HalfOpen then b.successes else 0) + 1 < c.successThreshold
    ensures Run(c, OUTSET, longer)
         == Some(Underway(Step(c, Step(c, b, Op.Request(now)), Success), map[], id + 1, NONE))
    ensures Prompt(c, longer)
  {
    var asked := Step(c, b, Op.Request(now));
    longer := RequestAdmitted(c, actions, b, id, now);
    ProbeSucceeds(c, asked, id);
    longer := GoOn(c, longer, Underway(asked, Alone(id, Running), id + 1, AsProbe(asked, id)), Action.Succeed(id));
  }

  lemma ProbeSucceeds(c: BreakerConfig, b: Breaker, id: RequestId)
    requires b.state == HalfOpen && b.successes + 1 < c.successThreshold
    ensures Next(c, Underway(b, Alone(id, Running), id + 1, AsProbe(b, id)), Action.Succeed(id))
         == Underway(Step(c, b, Success), map[], id + 1, NONE)
  {
    var next := Next(c, Underway(b, Alone(id, Running), id + 1, AsProbe(b, id)), Action.Succeed(id));
    assert next.state.requests == map[];
    assert next.episode.running == {} && next.episode.outdated == {};
  }

  /** The breaker after this many failures in a row. */
  function Failed(c: BreakerConfig, k: nat): Breaker {
    Breaker(if k < Max(1, c.failureThreshold) then Closed else Open, k, 0, 0, 0)
  }

  lemma {:induction false} FailedRun(c: BreakerConfig, k: nat) returns (actions: seq<Action>)
    requires k <= Max(1, c.failureThreshold)
    ensures Run(c, OUTSET, actions) == Some(Underway(Failed(c, k), map[], k, NONE)) && Prompt(c, actions)
  {
    if k == 0 {
      actions := [];
    } else {
      actions := FailedRun(c, k - 1);
      actions := FailingRequest(c, actions, Failed(c, k - 1), k - 1);
    }
  }

  /** After the last of those, this many probes that succeeded. */
  lemma {:induction false} ProbedRun(c: BreakerConfig, k: nat) returns (actions: seq<Action>, id: RequestId)
    requires 1 <= k <= c.halfOpenMaxRequests + 1 < c.successThreshold
    ensures var b := Breaker(HalfOpen, Max(1, c.failureThreshold), k, 0, k - 1);
            Run(c, OUTSET, actions) == Some(Underway(b, map[], id, NONE))
    ensures Prompt(c, actions)
  {
    var n := Max(1, c.failureThreshold);
    if k == 1 {
      actions := FailedRun(c, n);
      actions := SucceedingProbe(c, actions, Failed(c, n), n, c.resetTimeoutMs);
      id := n + 1;
    } else {
      actions, id := ProbedRun(c, k - 1);
      actions := SucceedingProbe(c, actions, Breaker(HalfOpen, n, k - 1, 0, k - 2), id, c.resetTimeoutMs);
      id := id + 1;
    }
  }

  // ------------------------------------------------------------- how probes are lost without a cancellation

  lemma RunSnoc(c: BreakerConfig, actions: seq<Action>, a: Action)
    requires Run(c, OUTSET, actions).Some? && Possible(Run(c, OUTSET, actions).value, a)
    ensures Run(c, OUTSET, actions + [a]) == Some(Next(c, Run(c, OUTSET, actions).value, a))
  {
    assert (actions + [a])[..|actions|] == actions;
  }

  const SMALL := BreakerConfig(1, 1, 0, 0)

  /**
   * Request 0 loads its generation before a network change and asks after it, as the probe of a breaker that request 1
   * has tripped on the new network. It fails, and its failure is not reported: nothing is cancelled, nothing is in
   * flight, no reset is owed, and the half-open breaker refuses everything.
   */
  lemma OutdatedProbeStrandsTheBreaker() returns (actions: seq<Action>)
    ensures Run(SMALL, OUTSET, actions).Some? && forall a <- actions :: !a.Cancel?
    ensures var w := Run(SMALL, OUTSET, actions).value;
            Refusing(SMALL, w.state) && w.state.requests == map[] && w.owed == 0 && w.episode.strayed == 1
  {
    actions := TrippedOnTheNewNetwork();
    RunSnoc(SMALL, actions, Ask(0, 0));
    actions := actions + [Ask(0, 0)];
    RunSnoc(SMALL, actions, Fail(0));
    actions := actions + [Fail(0)];
    RunSnoc(SMALL, actions, Check(0));
    actions := actions + [Check(0)];
    assert Run(SMALL, OUTSET, actions).value.state.requests == map[];
  }

  /** Request 0 has loaded its generation before the change, and request 1 after it. */
  lemma BegunAroundTheChange() returns (actions: seq<Action>)
    ensures Run(SMALL, OUTSET, actions).Some? && forall a <- actions :: !a.Cancel?
    ensures Run(SMALL, OUTSET, actions).value
         == World(State(NEW, 1, map[0 := InFlight(0, Loaded), 1 := InFlight(1, Loaded)], 2, {}, {}), NONE, 0)
  {
    actions := [];
    RunSnoc(SMALL, actions, Begin);
    actions := actions + [Begin];
    RunSnoc(SMALL, actions, Bump);
    actions := actions + [Bump];
    RunSnoc(SMALL, actions, ResetBreaker);
    actions := actions + [ResetBreaker];
    RunSnoc(SMALL, actions, Begin);
    actions := actions + [Begin];
  }

  /** Request 1 has failed and passed its check. */
  lemma ClearedAfterTheChange() returns (actions: seq<Action>)
    ensures Run(SMALL, OUTSET, actions).Some? && forall a <- actions :: !a.Cancel?
    ensures Run(SMALL, OUTSET, actions).value
         == World(State(NEW, 1, map[0 := InFlight(0, Loaded), 1 := InFlight(1, Cleared)], 2, {}, {}), NONE, 0)
  {
    actions := BegunAroundTheChange();
    RunSnoc(SMALL, actions, Action.Ask(1, 0));
    actions := actions + [Action.Ask(1, 0)];
    RunSnoc(SMALL, actions, Action.Fail(1));
    actions := actions + [Action.Fail(1)];
    RunSnoc(SMALL, actions, Check(1));
    actions := actions + [Check(1)];
  }

  lemma TrippedOnTheNewNetwork() returns (actions: seq<Action>)
    ensures Run(SMALL, OUTSET, actions).Some? && forall a <- actions :: !a.Cancel?
    ensures var w := Run(SMALL, OUTSET, actions).value;
            && w.state.breaker.state == Open && w.state.breaker.openedAt == 0 && w.owed == 0 && w.episode == NONE
            && w.state.generation == 1 && w.state.requests == map[0 := InFlight(0, Loaded)]
  {
    actions := ClearedAfterTheChange();
    RunSnoc(SMALL, actions, Action.Report(1, 0));
    actions := actions + [Action.Report(1, 0)];
    assert Run(SMALL, OUTSET, actions).value.state.requests == map[0 := InFlight(0, Loaded)];
  }
}
