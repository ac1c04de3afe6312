/** The circuit breaker: its operations, and what its state says about the history of operations. */
module CircuitBreakers {
  import opened Prelude

  datatype CbState = Closed | Open | HalfOpen

  datatype BreakerConfig = BreakerConfig(
    failureThreshold: nat,
    successThreshold: nat,
    resetTimeoutMs: nat,
    halfOpenMaxRequests: nat
  )

  /** `probes` counts the requests that asked while half open, admitted or not. */
  datatype Breaker = Breaker(state: CbState, failures: nat, successes: nat, openedAt: nat, probes: nat)

  const NEW := Breaker(Closed, 0, 0, 0, 0)

  datatype Op = Request(at: nat) | Success | Failure(at: nat) | Reset

  predicate Admits(c: BreakerConfig, b: Breaker, now: nat) {
    match b.state
    case Closed => true
    case Open => now - b.openedAt >= c.resetTimeoutMs
    case HalfOpen => b.probes < c.halfOpenMaxRequests
  }

  function Step(c: BreakerConfig, b: Breaker, op: Op): Breaker {
    match op
    case Request(now) =>
      if b.state == HalfOpen then b.(probes := b.probes + 1)
      else if b.state == Open && Admits(c, b, now) then b.(state := HalfOpen, probes := 0, successes := 0)
      else b
    case Success =>
      if b.state == Closed then b.(failures := 0)
      else if b.state == HalfOpen then
        if b.successes + 1 >= c.successThreshold then b.(state := Closed, failures := 0, successes := 0)
        else b.(successes := b.successes + 1)
      else b
    case Failure(now) =>
      if b.state == Closed then
        if b.failures + 1 >= c.failureThreshold then b.(state := Open, failures := b.failures + 1, openedAt := now)
        else b.(failures := b.failures + 1)
      else if b.state == HalfOpen then b.(state := Open, openedAt := now, successes := 0)
      else b
    case Reset => b.(state := Closed, failures := 0, successes := 0, probes := 0)
  }

  /** The first step of a reset, under the state lock. */
  function CloseState(b: Breaker): Breaker {
    b.(state := Closed)
  }

  /** The three that follow: failures, then successes, then probes are cleared. */
  function ClearCounter(b: Breaker, k: nat): Breaker {
    if k == 0 then b.(failures := 0) else if k == 1 then b.(successes := 0) else b.(probes := 0)
  }

  // ------------------------------------------------------------- the object

  class CircuitBreaker {
    const config: BreakerConfig
    var state: CbState
    var failureCount: nat
    var successCount: nat
    var openedAtMs: nat
    var halfOpenRequests: nat

    ghost function Model(): Breaker
      reads this
    {
      Breaker(state, failureCount, successCount, openedAtMs, halfOpenRequests)
    }

    constructor (config: BreakerConfig)
      ensures this.config == config && Model() == NEW
    {
      this.config := config;
      state := Closed;
      failureCount := 0;
      successCount := 0;
      openedAtMs := 0;
      halfOpenRequests := 0;
    }

    method BeforeRequest(now: nat) returns (admitted: bool)
      requires openedAtMs <= now
      modifies this
      ensures Model() == Step(config, old(Model()), Request(now))
      ensures admitted == Admits(config, old(Model()), now)
    {
      match state {
        case Closed =>
          admitted := true;
        case Open =>
          admitted := now - openedAtMs >= config.resetTimeoutMs;
          if admitted {
            state := HalfOpen;
            halfOpenRequests := 0;
            successCount := 0;
          }
        case HalfOpen =>
          var count := halfOpenRequests;
          halfOpenRequests := halfOpenRequests + 1;
          admitted := count < config.halfOpenMaxRequests;
      }
    }

    method OnSuccess()
      modifies this
      ensures Model() == Step(config, old(Model()), Success)
    {
      match state {
        case Closed =>
          failureCount := 0;
        case HalfOpen =>
          successCount := successCount + 1;
          if successCount >= config.successThreshold {
            state := Closed;
            failureCount := 0;
            successCount := 0;
          }
        case Open =>
      }
    }

    method OnFailure(now: nat)
      modifies this
      ensures Model() == Step(config, old(Model()), Failure(now))
    {
      match state {
        case Closed =>
          failureCount := failureCount + 1;
          if failureCount >= config.failureThreshold {
            state := Open;
            openedAtMs := now;
          }
        case HalfOpen =>
          state := Open;
          openedAtMs := now;
          successCount := 0;
        case Open =>
      }
    }

    /** All the steps of a reset, if nothing happens in between. */
    method ResetBreaker()
      modifies this
      ensures Model() == Step(config, old(Model()), Reset)
    {
      SetClosed();
      ClearCount(0);
      ClearCount(1);
      ClearCount(2);
    }

    method SetClosed()
      modifies this
      ensures Model() == CloseState(old(Model()))
    {
      state := Closed;
    }

    method ClearCount(k: nat)
      requires k < 3
      modifies this
      ensures Model() == ClearCounter(old(Model()), k)
    {
      match k {
        case 0 => failureCount := 0;
        case 1 => successCount := 0;
        case _ => halfOpenRequests := 0;
      }
    }
  }

  // ------------------------------------------------------------- histories

  function AfterFrom(c: BreakerConfig, b: Breaker, ops: seq<Op>): Breaker {
    if ops == [] then b else Step(c, AfterFrom(c, b, ops[..|ops| - 1]), ops[|ops| - 1])
  }

  /** The breaker a history of operations leads to. */
  function After(c: BreakerConfig, ops: seq<Op>): Breaker {
    AfterFrom(c, NEW, ops)
  }

  /** The failures reported since the last success or reset, which are also the only ways into Closed. */
  function FailuresInARow(ops: seq<Op>): nat {
    if ops == [] then 0
    else
      match ops[|ops| - 1]
      case Success => 0
      case Reset => 0
      case Failure(_) => FailuresInARow(ops[..|ops| - 1]) + 1
      case Request(_) => FailuresInARow(ops[..|ops| - 1])
  }

  /** In Closed the count is exactly the failures in a row, and always below the threshold. */
  lemma {:induction false} ClosedCountsFailuresInARow(c: BreakerConfig, ops: seq<Op>)
    requires c.failureThreshold >= 1
    requires After(c, ops).state == Closed
    ensures After(c, ops).failures == FailuresInARow(ops) < c.failureThreshold
  {
    if ops != [] {
      var front := ops[..|ops| - 1];
      if After(c, front).state == Closed {
        ClosedCountsFailuresInARow(c, front);
      }
    }
  }

  /** So a closed breaker trips on exactly the failure that completes the row. */
  lemma TripsExactlyAtThreshold(c: BreakerConfig, ops: seq<Op>, now: nat)
    requires c.failureThreshold >= 1
    requires After(c, ops).state == Closed
    ensures After(c, ops + [Failure(now)]).state
            == if FailuresInARow(ops) + 1 >= c.failureThreshold then Open else Closed
  {
    ClosedCountsFailuresInARow(c, ops);
    assert (ops + [Failure(now)])[..|ops|] == ops;
  }

  /** An open breaker was opened by a reported failure; since then nothing was admitted and nothing was reset. */
  lemma {:induction false} OpenSinceItsFailure(c: BreakerConfig, ops: seq<Op>) returns (i: nat)
    requires After(c, ops).state == Open
    ensures i < |ops| && ops[i] == Failure(After(c, ops).openedAt)
    ensures forall j :: i < j < |ops| ==>
              && ops[j] != Reset
              && (ops[j].Request? ==> ops[j].at - ops[i].at < c.resetTimeoutMs)
  {
    var front, last := ops[..|ops| - 1], ops[|ops| - 1];
    if After(c, front).state == Open {
      i := OpenSinceItsFailure(c, front);
    } else {
      i := |ops| - 1;
    }
  }

  // ------------------------------------------------------------- half-open episodes

  function CountRequests(ops: seq<Op>): nat {
    if ops == [] then 0 else CountRequests(ops[..|ops| - 1]) + if ops[|ops| - 1].Request? then 1 else 0
  }

  function CountSuccesses(ops: seq<Op>): nat {
    if ops == [] then 0 else CountSuccesses(ops[..|ops| - 1]) + if ops[|ops| - 1].Success? then 1 else 0
  }

  function CountAdmitted(c: BreakerConfig, b: Breaker, ops: seq<Op>): nat {
    if ops == [] then 0
    else
      var front, last := ops[..|ops| - 1], ops[|ops| - 1];
      CountAdmitted(c, b, front)
      + if last.Request? && Admits(c, AfterFrom(c, b, front), last.at) then 1 else 0
  }

  /** The request at position i turned the breaker half open, and it has stayed so since. */
  ghost predicate Episode(c: BreakerConfig, ops: seq<Op>, i: nat) {
    && i < |ops| && ops[i].Request?
    && After(c, ops[..i]).state == Open
    && forall j :: i < j <= |ops| ==> After(c, ops[..j]).state == HalfOpen
  }

  lemma {:induction false} HalfOpenHasAnEpisode(c: BreakerConfig, ops: seq<Op>) returns (i: nat)
    requires After(c, ops).state == HalfOpen
    ensures Episode(c, ops, i)
  {
    var n := |ops| - 1;
    var front := ops[..n];
    assert ops[..|ops|] == ops;
    if After(c, front).state == HalfOpen {
      i := HalfOpenHasAnEpisode(c, front);
      assert front[..i] == ops[..i];
      forall j | i < j <= |ops| ensures After(c, ops[..j]).state == HalfOpen {
        if j <= n {
          assert front[..j] == ops[..j];
        }
      }
    } else {
      i := n;
    }
  }

  /**
   * During an episode: no failure and no reset was reported, the counters are the successes and the requests since
   * the transition, and with the transition itself at most half_open_max_requests + 1 requests were admitted.
   */
  lemma {:induction false} EpisodeCounters(c: BreakerConfig, ops: seq<Op>, i: nat)
    requires Episode(c, ops, i)
    ensures var b, since := After(c, ops), ops[i + 1..];
            && b.successes == CountSuccesses(since)
            && b.probes == CountRequests(since)
            && (forall j :: i < j < |ops| ==> !ops[j].Failure? && !ops[j].Reset?)
            && CountAdmitted(c, After(c, ops[..i]), ops[i..]) == 1 + Min(CountRequests(since), c.halfOpenMaxRequests)
    ensures CountSuccesses(ops[i + 1..]) < Max(1, c.successThreshold)
  {
    EpisodeTallies(c, ops, i);
    EpisodeIsUndisturbed(c, ops, i);
    EpisodeAdmissions(c, ops, i);
  }

  /** The operations since position i, with and without the last one. */
  lemma SinceSnoc(ops: seq<Op>, i: nat)
    requires i < |ops| - 1
    ensures var n := |ops| - 1;
            ops[i..] == ops[..n][i..] + [ops[n]] && ops[i + 1..] == ops[..n][i + 1..] + [ops[n]]
    ensures ops[..|ops| - 1][..i] == ops[..i]
  {
  }

  lemma CountsSnoc(ops: seq<Op>, op: Op)
    ensures CountRequests(ops + [op]) == CountRequests(ops) + if op.Request? then 1 else 0
    ensures CountSuccesses(ops + [op]) == CountSuccesses(ops) + if op.Success? then 1 else 0
  {
    assert (ops + [op])[..|ops|] == ops;
  }

  lemma AdmittedSnoc(c: BreakerConfig, b: Breaker, ops: seq<Op>, op: Op)
    ensures CountAdmitted(c, b, ops + [op])
         == CountAdmitted(c, b, ops) + if op.Request? && Admits(c, AfterFrom(c, b, ops), op.at) then 1 else 0
  {
    assert (ops + [op])[..|ops|] == ops;
  }

  lemma {:induction false} EpisodeTallies(c: BreakerConfig, ops: seq<Op>, i: nat)
    requires Episode(c, ops, i)
    ensures After(c, ops).successes == CountSuccesses(ops[i + 1..]) < Max(1, c.successThreshold)
    ensures After(c, ops).probes == CountRequests(ops[i + 1..])
  {
    var n := |ops| - 1;
    assert ops[..|ops|] == ops;
    if i < n {
      EpisodeShrinks(c, ops, i);
      EpisodeTallies(c, ops[..n], i);
      SinceSnoc(ops, i);
      CountsSnoc(ops[..n][i + 1..], ops[n]);
    }
  }

  lemma {:induction false} EpisodeIsUndisturbed(c: BreakerConfig, ops: seq<Op>, i: nat)
    requires Episode(c, ops, i)
    ensures forall j :: i < j < |ops| ==> !ops[j].Failure? && !ops[j].Reset?
  {
    var n := |ops| - 1;
    assert ops[..|ops|] == ops;
    if i < n {
      EpisodeShrinks(c, ops, i);
      EpisodeIsUndisturbed(c, ops[..n], i);
    }
  }

  lemma {:induction false} EpisodeAdmissions(c: BreakerConfig, ops: seq<Op>, i: nat)
    requires Episode(c, ops, i)
    ensures CountAdmitted(c, After(c, ops[..i]), ops[i..])
         == 1 + Min(CountRequests(ops[i + 1..]), c.halfOpenMaxRequests)
  {
    var n := |ops| - 1;
    var before := After(c, ops[..i]);
    if i == n {
      assert ops[i..] == [ops[n]] && ops[i + 1..] == [] && ops[..|ops|] == ops;
      OpeningIsAdmitted(c, before, ops[n]);
    } else {
      EpisodeShrinks(c, ops, i);
      EpisodeAdmissions(c, ops[..n], i);
      EpisodeTallies(c, ops[..n], i);
      AfterSplit(c, ops[..n], i);
      SinceSnoc(ops, i);
      CountsSnoc(ops[..n][i + 1..], ops[n]);
      AdmittedSnoc(c, before, ops[..n][i..], ops[n]);
    }
  }

  lemma OpeningIsAdmitted(c: BreakerConfig, b: Breaker, op: Op)
    requires b.state == Open && op.Request? && Step(c, b, op).state == HalfOpen
    ensures CountAdmitted(c, b, [op]) == 1
  {
    AdmittedSnoc(c, b, [], op);
    assert [] + [op] == [op];
  }

  lemma EpisodeShrinks(c: BreakerConfig, ops: seq<Op>, i: nat)
    requires Episode(c, ops, i) && i < |ops| - 1
    ensures Episode(c, ops[..|ops| - 1], i) && After(c, ops[..|ops| - 1]).state == HalfOpen
  {
    var front := ops[..|ops| - 1];
    assert front[..i] == ops[..i];
    forall j | i < j <= |front| ensures After(c, front[..j]).state == HalfOpen {
      assert front[..j] == ops[..j];
    }
    assert front[..|front|] == front;
  }

  lemma {:induction false} AfterSplit(c: BreakerConfig, ops: seq<Op>, i: nat)
    requires i <= |ops|
    ensures AfterFrom(c, After(c, ops[..i]), ops[i..]) == After(c, ops)
  {
    if i == |ops| {
      assert ops[..i] == ops;
    } else {
      var n := |ops| - 1;
      AfterSplit(c, ops[..n], i);
      assert ops[..n][..i] == ops[..i];
      assert ops[i..][..n - i] == ops[..n][i..];
    }
  }

  /** Closing an episode without a reset takes success_threshold successes, the last one now, and no failure. */
  lemma ClosingTakesTheSuccesses(c: BreakerConfig, ops: seq<Op>, op: Op) returns (i: nat)
    requires After(c, ops).state == HalfOpen && op != Reset
    requires After(c, ops + [op]).state == Closed
    ensures Episode(c, ops, i) && op == Success
    ensures CountSuccesses(ops[i + 1..]) + 1 == Max(1, c.successThreshold)
    ensures forall j :: i < j < |ops| ==> !ops[j].Failure?
  {
    assert (ops + [op])[..|ops|] == ops;
    i := HalfOpenHasAnEpisode(c, ops);
    EpisodeCounters(c, ops, i);
  }
}
