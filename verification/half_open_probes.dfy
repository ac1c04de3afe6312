/** Whether a half-open breaker can get stuck: the probes it admitted, and the reports they still owe. */
module HalfOpenProbes {
  import opened Prelude
  import opened CircuitBreakers

  /** `running` are the probes of the current half-open episode that have not reported yet. */
  datatype World = World(breaker: Breaker, running: nat)

  const START := World(NEW, 0)

  /** Requests asking, probes reporting, and reports of requests admitted outside the current episode. */
  datatype Act =
    | Ask(at: nat)
    | ProbeReports(op: Op)
    | StrayReports(op: Op)
    | NetworkReset
    | ProbeAbandoned              // never reports: cancelled, or failed after asking under an older generation

  predicate IsReport(op: Op) {
    op.Success? || op.Failure?
  }

  predicate Possible(w: World, a: Act) {
    match a
    case Ask(_) => true
    case ProbeReports(op) => w.breaker.state == HalfOpen && w.running > 0 && IsReport(op)
    case StrayReports(op) => IsReport(op)
    case NetworkReset => true
    case ProbeAbandoned => w.breaker.state == HalfOpen && w.running > 0
  }

  function OpOf(a: Act): Op
    requires !a.ProbeAbandoned?
  {
    match a
    case Ask(now) => Request(now)
    case ProbeReports(op) => op
    case StrayReports(op) => op
    case NetworkReset => Reset
  }

  function Next(c: BreakerConfig, w: World, a: Act): World
    requires Possible(w, a)
  {
    if a.ProbeAbandoned? then w.(running := w.running - 1)
    else
      var b := Step(c, w.breaker, OpOf(a));
      var running :=
        if b.state != HalfOpen then 0
        else if a.Ask? && w.breaker.state == Open then 1
        else if a.Ask? && Admits(c, w.breaker, a.at) then w.running + 1
        else if a.ProbeReports? then w.running - 1
        else w.running;
      World(b, running)
  }

  function Exec(c: BreakerConfig, w: World, acts: seq<Act>): Option<World> {
    if acts == [] then Some(w)
    else
      var before := Exec(c, w, acts[..|acts| - 1]);
      if before.Some? && Possible(before.value, acts[|acts| - 1])
      then Some(Next(c, before.value, acts[|acts| - 1]))
      else None
  }

  /** Every probe reports in the end: none is abandoned. */
  predicate Dutiful(acts: seq<Act>) {
    forall i :: 0 <= i < |acts| ==> !acts[i].ProbeAbandoned?
  }

  /** A half-open breaker that refuses everything while no probe is left to change that. */
  predicate Stuck(c: BreakerConfig, w: World) {
    w.breaker.state == HalfOpen && w.breaker.probes >= c.halfOpenMaxRequests && w.running == 0
  }

  /** Each admitted probe is still running or has been counted as a success. */
  lemma {:induction false} ProbesAreAccountedFor(c: BreakerConfig, acts: seq<Act>)
    requires Dutiful(acts) && Exec(c, START, acts).Some?
    ensures var w := Exec(c, START, acts).value;
            w.breaker.state == HalfOpen ==>
              && w.running + w.breaker.successes >= 1 + Min(w.breaker.probes, c.halfOpenMaxRequests)
              && w.breaker.successes < Max(1, c.successThreshold)
  {
    if acts != [] {
      ProbesAreAccountedFor(c, acts[..|acts| - 1]);
    }
  }

  /** Refusals never touch anything but the request counter, so a stuck breaker refuses whoever asks, ever after. */
  lemma {:induction false} StuckForGood(c: BreakerConfig, w: World, asks: seq<Act>, now: nat)
    requires Stuck(c, w) && forall i :: 0 <= i < |asks| ==> asks[i].Ask?
    ensures Exec(c, w, asks).Some? && Stuck(c, Exec(c, w, asks).value)
    ensures !Admits(c, Exec(c, w, asks).value.breaker, now)
  {
    if asks != [] {
      StuckForGood(c, w, asks[..|asks| - 1], now);
    }
  }

  // ------------------------------------------------------------- a run that gets stuck

  function Repeat(a: Act, n: nat): seq<Act> {
    if n == 0 then [] else Repeat(a, n - 1) + [a]
  }

  lemma ExecSnoc(c: BreakerConfig, w: World, acts: seq<Act>, a: Act)
    requires Exec(c, w, acts).Some? && Possible(Exec(c, w, acts).value, a)
    ensures Exec(c, w, acts + [a]) == Some(Next(c, Exec(c, w, acts).value, a))
  {
    assert (acts + [a])[..|acts|] == acts;
  }

  lemma {:induction false} ExecSplit(c: BreakerConfig, w: World, a: seq<Act>, b: seq<Act>)
    requires Exec(c, w, a).Some?
    ensures Exec(c, w, a + b) == Exec(c, Exec(c, w, a).value, b)
  {
    if b == [] {
      assert a + b == a;
    } else {
      ExecSplit(c, w, a, b[..|b| - 1]);
      assert (a + b)[..|a + b| - 1] == a + b[..|b| - 1];
    }
  }

  /** Failures trip a fresh breaker. */
  lemma {:induction false} TripRun(c: BreakerConfig, n: nat)
    requires n < c.failureThreshold
    ensures Exec(c, START, Repeat(StrayReports(Failure(0)), n)) == Some(START.(breaker := NEW.(failures := n)))
  {
    if n > 0 {
      TripRun(c, n - 1);
      ExecSnoc(c, START, Repeat(StrayReports(Failure(0)), n - 1), StrayReports(Failure(0)));
    }
  }

  lemma {:induction false} AskRun(c: BreakerConfig, w: World, now: nat, n: nat)
    requires w.breaker.state == HalfOpen && w.breaker.probes + n <= c.halfOpenMaxRequests
    ensures Exec(c, w, Repeat(Ask(now), n))
            == Some(World(w.breaker.(probes := w.breaker.probes + n), w.running + n))
  {
    if n > 0 {
      AskRun(c, w, now, n - 1);
      ExecSnoc(c, w, Repeat(Ask(now), n - 1), Ask(now));
    }
  }

  lemma {:induction false} SucceedRun(c: BreakerConfig, w: World, n: nat)
    requires w.breaker.state == HalfOpen && n <= w.running
    requires w.breaker.successes + n < c.successThreshold
    ensures Exec(c, w, Repeat(ProbeReports(Success), n))
            == Some(World(w.breaker.(successes := w.breaker.successes + n), w.running - n))
  {
    if n > 0 {
      SucceedRun(c, w, n - 1);
      ExecSnoc(c, w, Repeat(ProbeReports(Success), n - 1), ProbeReports(Success));
    }
  }

  lemma {:induction false} RepeatDutiful(a: Act, n: nat)
    requires !a.ProbeAbandoned?
    ensures Dutiful(Repeat(a, n))
  {
    if n > 0 {
      RepeatDutiful(a, n - 1);
    }
  }

  /** Tripped, reopened after the timeout, every admission used. */
  function FullEpisode(c: BreakerConfig): seq<Act>
    requires c.failureThreshold >= 1
  {
    Repeat(StrayReports(Failure(0)), c.failureThreshold - 1) + [StrayReports(Failure(0)), Ask(c.resetTimeoutMs)]
    + Repeat(Ask(c.resetTimeoutMs), c.halfOpenMaxRequests)
  }

  lemma FullEpisodeRuns(c: BreakerConfig) returns (w: World)
    requires c.failureThreshold >= 1
    ensures Exec(c, START, FullEpisode(c)) == Some(w)
    ensures w.breaker.state == HalfOpen && w.breaker.probes == c.halfOpenMaxRequests
    ensures w.breaker.successes == 0 && w.running == c.halfOpenMaxRequests + 1
  {
    var trip := Repeat(StrayReports(Failure(0)), c.failureThreshold - 1);
    var fail, ask := StrayReports(Failure(0)), Ask(c.resetTimeoutMs);
    var open := EpisodeOpens(c);
    var asks := Repeat(ask, c.halfOpenMaxRequests);
    var opening := trip + [fail, ask];
    ExecSplit(c, START, opening, asks);
    AskRun(c, open, c.resetTimeoutMs, c.halfOpenMaxRequests);
    assert FullEpisode(c) == opening + asks;
    w := World(open.breaker.(probes := c.halfOpenMaxRequests), c.halfOpenMaxRequests + 1);
  }

  lemma FullEpisodeIsDutiful(c: BreakerConfig)
    requires c.failureThreshold >= 1
    ensures Dutiful(FullEpisode(c))
  {
    RepeatDutiful(StrayReports(Failure(0)), c.failureThreshold - 1);
    RepeatDutiful(Ask(c.resetTimeoutMs), c.halfOpenMaxRequests);
  }

  /** The failure that trips the breaker, and the request that half-opens it after the timeout. */
  lemma EpisodeOpens(c: BreakerConfig) returns (w: World)
    requires c.failureThreshold >= 1
    ensures var trip := Repeat(StrayReports(Failure(0)), c.failureThreshold - 1);
            Exec(c, START, trip + [StrayReports(Failure(0)), Ask(c.resetTimeoutMs)]) == Some(w)
    ensures w.breaker.state == HalfOpen && w.breaker.probes == 0 && w.breaker.successes == 0 && w.running == 1
  {
    var trip := Repeat(StrayReports(Failure(0)), c.failureThreshold - 1);
    var fail, ask := StrayReports(Failure(0)), Ask(c.resetTimeoutMs);
    TripRun(c, c.failureThreshold - 1);
    ExecSnoc(c, START, trip, fail);
    ExecSnoc(c, START, trip + [fail], ask);
    assert trip + [fail] + [ask] == trip + [fail, ask];
    w := Exec(c, START, trip + [fail, ask]).value;
  }

  /** Some run in which every probe reports ends stuck. */
  ghost predicate CanGetStuck(c: BreakerConfig) {
    exists acts :: Dutiful(acts) && Exec(c, START, acts).Some? && Stuck(c, Exec(c, START, acts).value)
  }

  /**
   * With dutiful probes a half-open breaker can get stuck exactly when it demands more successes than it admits
   * probes: success_threshold > half_open_max_requests + 1.
   */
  lemma StuckExactlyWhenProbesCannotSuffice(c: BreakerConfig)
    requires c.failureThreshold >= 1
    ensures CanGetStuck(c) <==> c.successThreshold > c.halfOpenMaxRequests + 1
  {
    if c.successThreshold > c.halfOpenMaxRequests + 1 {
      var w := FullEpisodeRuns(c);
      var report := Repeat(ProbeReports(Success), c.halfOpenMaxRequests + 1);
      SucceedRun(c, w, c.halfOpenMaxRequests + 1);
      RepeatDutiful(ProbeReports(Success), c.halfOpenMaxRequests + 1);
      ExecSplit(c, START, FullEpisode(c), report);
      FullEpisodeIsDutiful(c);
      assert Dutiful(FullEpisode(c) + report);
    } else {
      forall acts | Dutiful(acts) && Exec(c, START, acts).Some? ensures !Stuck(c, Exec(c, START, acts).value) {
        ProbesAreAccountedFor(c, acts);
      }
    }
  }

  lemma {:induction false} AbandonRun(c: BreakerConfig, w: World, n: nat)
    requires w.breaker.state == HalfOpen && n <= w.running
    ensures Exec(c, w, Repeat(ProbeAbandoned, n)) == Some(w.(running := w.running - n))
  {
    if n > 0 {
      AbandonRun(c, w, n - 1);
      ExecSnoc(c, w, Repeat(ProbeAbandoned, n - 1), ProbeAbandoned);
    }
  }

  /** The duty to report matters: whatever the thresholds, abandoning its probes strands a half-open breaker. */
  lemma AbandonedProbesStrandTheBreaker(c: BreakerConfig) returns (acts: seq<Act>)
    requires c.failureThreshold >= 1
    ensures Exec(c, START, acts).Some? && Stuck(c, Exec(c, START, acts).value)
  {
    var w := FullEpisodeRuns(c);
    AbandonRun(c, w, c.halfOpenMaxRequests + 1);
    acts := FullEpisode(c) + Repeat(ProbeAbandoned, c.halfOpenMaxRequests + 1);
    ExecSplit(c, START, FullEpisode(c), Repeat(ProbeAbandoned, c.halfOpenMaxRequests + 1));
  }
}
