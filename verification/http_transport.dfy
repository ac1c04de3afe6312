/** The transport around the breaker: network generations, in-flight requests, and which exits report to the breaker. */
module HttpTransports {
  import opened Prelude
  import opened CircuitBreakers

  // ------------------------------------------------------------- interleavings of requests and network changes

  type RequestId = nat

  /** Where a request stands; `gen` is the generation loaded at its start, `Cleared` has found it unchanged. */
  datatype Stage = Loaded | Running | Failing | Cleared

  datatype InFlight = InFlight(gen: nat, stage: Stage)

  /**
   * `stragglers` are the requests that stood between their check and their report at the latest bump, `stale` the
   * failures of older generations reported since that bump, by request.
   */
  datatype State = State(
    breaker: Breaker,
    generation: nat,
    requests: map<RequestId, InFlight>,
    started: nat,
    stragglers: set<RequestId>,
    stale: set<RequestId>
  )

  const INITIAL := State(NEW, 0, map[], 0, {}, {})

  datatype Action =
    | Begin                                  // load the generation
    | Ask(id: RequestId, now: nat)           // before_request
    | Succeed(id: RequestId)                 // on_success, unguarded
    | Fail(id: RequestId)
    | Cancel(id: RequestId)                  // return without reporting
    | Check(id: RequestId)                   // compare the generation
    | Report(id: RequestId, now: nat)        // on_failure
    | Bump                                   // network_changed: fetch_add
    | ResetBreaker                           // network_changed: cb.reset()

  predicate At(s: State, id: RequestId, stage: Stage) {
    id in s.requests && s.requests[id].stage == stage
  }

  predicate Enabled(s: State, a: Action) {
    match a
    case Ask(id, _) => At(s, id, Loaded)
    case Succeed(id) => At(s, id, Running)
    case Fail(id) => At(s, id, Running)
    case Cancel(id) => At(s, id, Running)
    case Check(id) => At(s, id, Failing)
    case Report(id, _) => At(s, id, Cleared)
    case _ => true
  }

  function MoveTo(s: State, id: RequestId, stage: Stage): State
    requires id in s.requests
  {
    s.(requests := s.requests[id := s.requests[id].(stage := stage)])
  }

  /** The requests between their check and their report. */
  function Reporting(s: State): set<RequestId> {
    set id | id in s.requests && s.requests[id].stage == Cleared
  }

  function Gone(s: State, id: RequestId): State {
    s.(requests := s.requests - {id})
  }

  function Apply(c: BreakerConfig, s: State, a: Action): State
    requires Enabled(s, a)
  {
    match a
    case Begin => s.(requests := s.requests[s.started := InFlight(s.generation, Loaded)], started := s.started + 1)
    case Ask(id, now) =>
      var asked := s.(breaker := Step(c, s.breaker, Op.Request(now)));
      if Admits(c, s.breaker, now) then MoveTo(asked, id, Running) else Gone(asked, id)
    case Succeed(id) => Gone(s.(breaker := Step(c, s.breaker, Success)), id)
    case Fail(id) => MoveTo(s, id, Failing)
    case Cancel(id) => Gone(s, id)
    case Check(id) => if s.requests[id].gen == s.generation then MoveTo(s, id, Cleared) else Gone(s, id)
    case Report(id, now) =>
      var reported := Gone(s.(breaker := Step(c, s.breaker, Failure(now))), id);
      if s.requests[id].gen == s.generation then reported else reported.(stale := s.stale + {id})
    case Bump =>
      s.(generation := s.generation + 1, stragglers := Reporting(s), stale := {})
    case ResetBreaker => s.(breaker := Step(c, s.breaker, Reset))
  }

  function Exec(c: BreakerConfig, s: State, actions: seq<Action>): Option<State> {
    if actions == [] then Some(s)
    else
      var before := Exec(c, s, actions[..|actions| - 1]);
      if before.Some? && Enabled(before.value, actions[|actions| - 1])
      then Some(Apply(c, before.value, actions[|actions| - 1]))
      else None
  }

  /** Only stragglers can report across the latest bump; each reports once, and none is still to come from elsewhere. */
  ghost predicate OnlyStragglersLag(s: State) {
    && (forall id :: id in s.requests ==> id < s.started && s.requests[id].gen <= s.generation)
    && (forall id :: id in s.stragglers ==> id < s.started)
    && (forall id :: id in s.requests && s.requests[id].stage == Cleared && s.requests[id].gen < s.generation ==>
                       id in s.stragglers)
    && s.stale <= s.stragglers
    && (forall id :: id in s.stale ==> id !in s.requests)
  }

  lemma OnlyStragglersLagKept(c: BreakerConfig, s: State, a: Action)
    requires OnlyStragglersLag(s) && Enabled(s, a)
    ensures OnlyStragglersLag(Apply(c, s, a))
  {
  }

  lemma {:induction false} EveryRunLagsOnlyByStragglers(c: BreakerConfig, actions: seq<Action>)
    requires Exec(c, INITIAL, actions).Some?
    ensures OnlyStragglersLag(Exec(c, INITIAL, actions).value)
  {
    if actions != [] {
      var front := actions[..|actions| - 1];
      EveryRunLagsOnlyByStragglers(c, front);
      OnlyStragglersLagKept(c, Exec(c, INITIAL, front).value, actions[|actions| - 1]);
    }
  }

  /** A failure is only reported by a request of the current generation, or by one whose check preceded the bump. */
  lemma {:induction false} StaleFailureIsAStraggler(c: BreakerConfig, actions: seq<Action>, id: RequestId, now: nat)
    requires Exec(c, INITIAL, actions).Some?
    requires Enabled(Exec(c, INITIAL, actions).value, Report(id, now))
    ensures var s := Exec(c, INITIAL, actions).value;
            s.requests[id].gen == s.generation || id in s.stragglers
  {
    EveryRunLagsOnlyByStragglers(c, actions);
  }

  /** The new network is charged with at most one failure per straggler; without stragglers, with none. */
  lemma {:induction false} StaleFailuresAreBounded(c: BreakerConfig, actions: seq<Action>)
    requires Exec(c, INITIAL, actions).Some?
    ensures var s := Exec(c, INITIAL, actions).value;
            |s.stale| <= |s.stragglers| && (s.stragglers == {} ==> s.stale == {})
  {
    EveryRunLagsOnlyByStragglers(c, actions);
    var s := Exec(c, INITIAL, actions).value;
    SubsetSize(s.stale, s.stragglers);
  }

  lemma {:induction false} SubsetSize(a: set<RequestId>, b: set<RequestId>)
    requires a <= b
    ensures |a| <= |b|
    decreases a
  {
    if a != {} {
      var x :| x in a;
      SubsetSize(a - {x}, b - {x});
    }
  }

  // ------------------------------------------------------------- the failures a reset breaker has counted

  /** How many failures of the current generation, and of older ones, were reported over a stretch of a run. */
  function CountReports(c: BreakerConfig, s: State, actions: seq<Action>, current: bool): nat
    requires Exec(c, s, actions).Some?
  {
    if actions == [] then 0
    else
      var n := |actions| - 1;
      var before := Exec(c, s, actions[..n]).value;
      CountReports(c, s, actions[..n], current)
      + if actions[n].Report? && (before.requests[actions[n].id].gen == before.generation) == current then 1 else 0
  }

  predicate NoNetworkChange(actions: seq<Action>) {
    forall i :: 0 <= i < |actions| ==> !actions[i].Bump? && !actions[i].ResetBreaker?
  }

  /** Until the next network change, a breaker just reset has counted at most the failures reported since. */
  lemma {:induction false} ResetBreakerCountsReports(c: BreakerConfig, actions: seq<Action>, after: seq<Action>)
    requires Exec(c, INITIAL, actions).Some?
    requires var s := Exec(c, INITIAL, actions).value; s.breaker.failures == 0 && s.breaker.state == Closed
    requires Exec(c, Exec(c, INITIAL, actions).value, after).Some? && NoNetworkChange(after)
    ensures var s := Exec(c, INITIAL, actions).value;
            var e := Exec(c, s, after).value;
            && e.generation == s.generation && e.stragglers == s.stragglers
            && |e.stale| == |s.stale| + CountReports(c, s, after, false)
            && e.breaker.failures <= CountReports(c, s, after, true) + CountReports(c, s, after, false)
  {
    var s := Exec(c, INITIAL, actions).value;
    if after != [] {
      var n := |after| - 1;
      ResetBreakerCountsReports(c, actions, after[..n]);
      ExecSplit(c, INITIAL, actions, after[..n]);
      EveryRunLagsOnlyByStragglers(c, actions + after[..n]);
      OneActionCounts(c, Exec(c, s, after[..n]).value, after[n]);
    }
  }

  /**
   * After `network_changed` has bumped and reset, and until the next change, the breaker holds at most the failures
   * reported since by requests of the new generation and one for each straggler.
   */
  lemma ResetBreakerCountsFreshFailures(c: BreakerConfig, actions: seq<Action>, after: seq<Action>)
    requires Exec(c, INITIAL, actions).Some?
    requires var s := Exec(c, INITIAL, actions).value; s.breaker.failures == 0 && s.breaker.state == Closed
    requires Exec(c, Exec(c, INITIAL, actions).value, after).Some? && NoNetworkChange(after)
    ensures var s := Exec(c, INITIAL, actions).value;
            Exec(c, s, after).value.breaker.failures <= CountReports(c, s, after, true) + |s.stragglers|
  {
    ResetBreakerCountsReports(c, actions, after);
    ExecSplit(c, INITIAL, actions, after);
    StaleFailuresAreBounded(c, actions + after);
  }

  lemma OneActionCounts(c: BreakerConfig, s: State, a: Action)
    requires OnlyStragglersLag(s) && Enabled(s, a) && !a.Bump? && !a.ResetBreaker?
    ensures var e := Apply(c, s, a);
            && e.generation == s.generation && e.stragglers == s.stragglers
            && |e.stale| == |s.stale| + (if a.Report? && s.requests[a.id].gen != s.generation then 1 else 0)
            && e.breaker.failures <= s.breaker.failures + (if a.Report? then 1 else 0)
  {
  }

  lemma {:induction false} ExecSplit(c: BreakerConfig, s: State, a: seq<Action>, b: seq<Action>)
    requires Exec(c, s, a).Some?
    ensures Exec(c, s, a + b) == Exec(c, Exec(c, s, a).value, b)
  {
    if b == [] {
      assert a + b == a;
    } else {
      ExecSplit(c, s, a, b[..|b| - 1]);
      assert (a + b)[..|a + b| - 1] == a + b[..|b| - 1];
    }
  }

  // ------------------------------------------------------------- one request through execute_with_token

  /** How the request is scheduled: through the priority queue, a semaphore permit, or not at all. */
  datatype Scheduling = PriorityQueue | Semaphore | Unlimited

  datatype Ending = Refused | CancelledWaiting | CancelledRunning | Answered | Errored

  class HttpTransport {
    const breaker: CircuitBreaker?
    const scheduling: Scheduling
    var networkGeneration: nat
    var pendingRequests: set<RequestId>

    constructor (config: Option<BreakerConfig>, scheduling: Scheduling)
      ensures this.scheduling == scheduling && networkGeneration == 0
      ensures breaker != null <==> config.Some?
      ensures breaker != null ==> fresh(breaker) && breaker.config == config.value && breaker.Model() == NEW
    {
      this.scheduling := scheduling;
      if config.Some? {
        breaker := new CircuitBreaker(config.value);
      } else {
        breaker := null;
      }
      networkGeneration := 0;
      pendingRequests := {};
    }

    /** Bumps the generation, then resets the breaker. */
    method NetworkChanged()
      modifies this`networkGeneration, breaker
      ensures networkGeneration == old(networkGeneration) + 1
      ensures breaker != null ==> breaker.Model() == Step(breaker.config, old(breaker.Model()), Reset)
    {
      networkGeneration := networkGeneration + 1;
      if breaker != null {
        breaker.ResetBreaker();
      }
    }

    /** So many network changes, one after the other. */
    method NetworkChanges(n: nat)
      modifies this`networkGeneration, breaker
      ensures networkGeneration == old(networkGeneration) + n
      ensures breaker != null ==> breaker.Model() == AfterFrom(breaker.config, old(breaker.Model()), Resets(n))
    {
      for i := 0 to n
        invariant networkGeneration == old(networkGeneration) + i
        invariant breaker != null ==> breaker.Model() == AfterFrom(breaker.config, old(breaker.Model()), Resets(i))
      {
        NetworkChanged();
        if breaker != null {
          AfterSnoc(breaker.config, old(breaker.Model()), Resets(i), Reset);
        }
      }
    }

    /**
     * One request on its own, while network changes happen: `early` ones between the load of the generation and the
     * question to the breaker, `later` ones after it. The breaker sees the resets and the request, and then one report
     * exactly if the request was answered, or failed with no network change since the load. A cancellation is such a
     * failure on the queue path, and silent otherwise.
     */
    method ExecuteWithToken(id: RequestId, now: nat, early: nat, later: nat) returns (ending: Ending)
      requires breaker != null ==> breaker.openedAtMs <= now
      modifies this`networkGeneration, this`pendingRequests, breaker
      ensures ending.Refused? <==>
                breaker != null
                && !Admits(breaker.config, AfterFrom(breaker.config, old(breaker.Model()), Resets(early)), now)
      ensures ending.CancelledWaiting? ==> scheduling.Semaphore?
      ensures ending.CancelledRunning? ==> !scheduling.PriorityQueue?
      ensures breaker != null ==>
                breaker.Model() == AfterFrom(breaker.config, old(breaker.Model()), Trail(ending, early, later, now))
      ensures networkGeneration == old(networkGeneration) + early + if ending.Refused? then 0 else later
      ensures pendingRequests == if Silent(ending) then old(pendingRequests) else old(pendingRequests) - {id}
    {
      var genAtStart := networkGeneration;
      NetworkChanges(early);
      if breaker != null {
        RefusalIsSeen(breaker.config, old(breaker.Model()), early, later, now);
        KeepsOpenedAt(breaker.config, old(breaker.Model()), early);
        var admitted := breaker.BeforeRequest(now);
        if !admitted {
          pendingRequests := pendingRequests - {id};
          return Refused;
        }
      }
      NetworkChanges(later);
      ending := Work();
      if !Silent(ending) {
        pendingRequests := pendingRequests - {id};
        Report(ending, networkGeneration == genAtStart, now);
      }
      if breaker != null {
        TrailIsSeen(breaker.config, old(breaker.Model()), ending, early, later, now);
      }
    }

    /** The exchange itself, or a cancellation of it; one in the queue is an ordinary error result. */
    method Work() returns (ending: Ending)
      ensures !ending.Refused? && (ending.CancelledWaiting? ==> scheduling.Semaphore?)
      ensures ending.CancelledRunning? ==> !scheduling.PriorityQueue?
    {
      var cancelled: bool := *;
      var waiting: bool := *;
      var ok: bool := *;
      match scheduling {
        case PriorityQueue =>
          ok := ok && !cancelled;
        case Semaphore =>
          if cancelled {
            return if waiting then CancelledWaiting else CancelledRunning;
          }
        case Unlimited =>
          if cancelled {
            return CancelledRunning;
          }
      }
      ending := if ok then Answered else Errored;
    }

    /** The report to the breaker; a failure only under an unchanged generation. */
    method Report(ending: Ending, sameNetwork: bool, now: nat)
      requires ending.Answered? || ending.Errored?
      modifies breaker
      ensures breaker != null ==>
                breaker.Model() == if ending.Answered? then Step(breaker.config, old(breaker.Model()), Success)
                                   else if sameNetwork then Step(breaker.config, old(breaker.Model()), Failure(now))
                                   else old(breaker.Model())
    {
      if breaker != null {
        if ending.Answered? {
          breaker.OnSuccess();
        } else if sameNetwork {
          breaker.OnFailure(now);
        }
      }
    }
  }

  lemma AfterSnoc(c: BreakerConfig, b: Breaker, ops: seq<Op>, op: Op)
    ensures AfterFrom(c, b, ops + [op]) == Step(c, AfterFrom(c, b, ops), op)
  {
    assert (ops + [op])[..|ops|] == ops;
  }

  lemma {:induction false} AfterConcat(c: BreakerConfig, b: Breaker, first: seq<Op>, second: seq<Op>)
    ensures AfterFrom(c, b, first + second) == AfterFrom(c, AfterFrom(c, b, first), second)
  {
    if second == [] {
      assert first + second == first;
    } else {
      var n := |second| - 1;
      AfterConcat(c, b, first, second[..n]);
      assert (first + second)[..|first| + n] == first + second[..n];
    }
  }

  /** What a breaker comes to over a request that was admitted. */
  lemma RefusalIsSeen(c: BreakerConfig, b: Breaker, early: nat, later: nat, now: nat)
    ensures AfterFrom(c, b, Trail(Refused, early, later, now))
         == Step(c, AfterFrom(c, b, Resets(early)), Op.Request(now))
  {
    AfterSnoc(c, b, Resets(early), Op.Request(now));
    assert Resets(early) + [Op.Request(now)] + [] + [] == Resets(early) + [Op.Request(now)];
  }

  lemma TrailIsSeen(c: BreakerConfig, b: Breaker, ending: Ending, early: nat, later: nat, now: nat)
    requires !ending.Refused?
    ensures var before := AfterFrom(c, Step(c, AfterFrom(c, b, Resets(early)), Op.Request(now)), Resets(later));
            AfterFrom(c, b, Trail(ending, early, later, now))
            == if ending.Answered? then Step(c, before, Success)
               else if ending.Errored? && early == 0 && later == 0 then Step(c, before, Failure(now))
               else before
  {
    var asked := Resets(early) + [Op.Request(now)];
    AfterSnoc(c, b, Resets(early), Op.Request(now));
    AfterConcat(c, b, asked, Resets(later));
    if ending.Answered? {
      AfterSnoc(c, b, asked + Resets(later), Success);
    } else if ending.Errored? && early == 0 && later == 0 {
      AfterSnoc(c, b, asked + Resets(later), Failure(now));
    } else {
      assert asked + Resets(later) + [] == asked + Resets(later);
    }
  }

  lemma {:induction false} KeepsOpenedAt(c: BreakerConfig, b: Breaker, n: nat)
    ensures AfterFrom(c, b, Resets(n)).openedAt == b.openedAt
  {
    if n > 0 {
      KeepsOpenedAt(c, b, n - 1);
      AfterSnoc(c, b, Resets(n - 1), Reset);
    }
  }

  /** A cancelled request leaves without a report and without cleaning up its pending entry. */
  predicate Silent(ending: Ending) {
    ending.CancelledWaiting? || ending.CancelledRunning?
  }

  function Resets(n: nat): seq<Op> {
    if n == 0 then [] else Resets(n - 1) + [Reset]
  }

  /** Everything the breaker is told during one request. */
  function Trail(ending: Ending, early: nat, later: nat, now: nat): seq<Op> {
    Resets(early) + [Op.Request(now)]
    + (if ending.Refused? then [] else Resets(later))
    + (if ending.Answered? then [Success]
       else if ending.Errored? && early == 0 && later == 0 then [Failure(now)]
       else [])
  }
}
