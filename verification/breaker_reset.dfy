/**
 * `reset()` at the grain of the code: it releases the state lock before it clears the three counters, one after the
 * other, and every other operation may run in between. Any number of resets may be under way.
 */
module BreakerResets {
  import opened Prelude
  import opened CircuitBreakers

  type ResetId = nat

  /** How many of its counters a reset under way has cleared. */
  datatype World = World(breaker: Breaker, resets: map<ResetId, nat>)

  const OUTSET := World(NEW, map[])

  datatype Action =
    | Operate(op: Op)              // a request, success or failure, under the state lock
    | Release(id: ResetId)         // the state is set to closed, and the lock released
    | Clear(id: ResetId)           // the next counter is cleared

  predicate Possible(w: World, a: Action) {
    match a
    case Operate(op) => op != Reset
    case Release(id) => id !in w.resets
    case Clear(id) => id in w.resets
  }

  function Next(c: BreakerConfig, w: World, a: Action): World
    requires Possible(w, a)
  {
    match a
    case Operate(op) => w.(breaker := Step(c, w.breaker, op))
    case Release(id) => World(CloseState(w.breaker), w.resets[id := 0])
    case Clear(id) =>
      var k := w.resets[id];
      World(ClearCounter(w.breaker, k), if k < 2 then w.resets[id := k + 1] else w.resets - {id})
  }

  function Run(c: BreakerConfig, w: World, actions: seq<Action>): Option<World> {
    if actions == [] then Some(w)
    else
      var before := Run(c, w, actions[..|actions| - 1]);
      if before.Some? && Possible(before.value, actions[|actions| - 1])
      then Some(Next(c, before.value, actions[|actions| - 1]))
      else None
  }

  lemma RunSnoc(c: BreakerConfig, actions: seq<Action>, a: Action)
    requires Run(c, OUTSET, actions).Some? && Possible(Run(c, OUTSET, actions).value, a)
    ensures Run(c, OUTSET, actions + [a]) == Some(Next(c, Run(c, OUTSET, actions).value, a))
  {
    assert (actions + [a])[..|actions|] == actions;
  }

  // ------------------------------------------------------------- resets that are not disturbed act at once

  /** The run as operations, every reset at the point where it sets the state. */
  function AtOnce(actions: seq<Action>): seq<Op> {
    if actions == [] then []
    else
      var front := AtOnce(actions[..|actions| - 1]);
      match actions[|actions| - 1]
      case Operate(op) => front + [op]
      case Release(_) => front + [Reset]
      case Clear(_) => front
  }

  /** No failure is reported while a reset is under way. */
  ghost predicate Undisturbed(c: BreakerConfig, actions: seq<Action>)
    requires Run(c, OUTSET, actions).Some?
  {
    forall i :: 0 <= i < |actions| && Run(c, OUTSET, actions[..i]).Some? ==>
      !(actions[i].Operate? && actions[i].op.Failure? && Run(c, OUTSET, actions[..i]).value.resets != map[])
  }

  /** While resets are under way the breaker is closed, and what they have cleared stays so. */
  predicate Agree(w: World, b: Breaker) {
    if w.resets == map[] then w.breaker == b
    else
      && w.breaker.state == b.state == Closed && w.breaker.openedAt == b.openedAt
      && b.failures == b.successes == b.probes == 0
      && (forall id :: id in w.resets ==> w.resets[id] <= 2)
      && ((exists id :: id in w.resets && w.resets[id] >= 1) ==> w.breaker.failures == 0)
      && ((exists id :: id in w.resets && w.resets[id] >= 2) ==> w.breaker.successes == 0)
  }

  /** So an undisturbed run, as soon as no reset is under way, stands where atomic resets would have led. */
  lemma {:induction false} UndisturbedResetsActAtOnce(c: BreakerConfig, actions: seq<Action>)
    requires Run(c, OUTSET, actions).Some? && Undisturbed(c, actions)
    ensures Agree(Run(c, OUTSET, actions).value, After(c, AtOnce(actions)))
  {
    if actions != [] {
      var n := |actions| - 1;
      var front := actions[..n];
      UndisturbedPrefix(c, actions);
      UndisturbedResetsActAtOnce(c, front);
      AgreementKept(c, Run(c, OUTSET, front).value, AtOnce(front), actions[n]);
    }
  }

  lemma UndisturbedPrefix(c: BreakerConfig, actions: seq<Action>)
    requires actions != [] && Run(c, OUTSET, actions).Some? && Undisturbed(c, actions)
    ensures Undisturbed(c, actions[..|actions| - 1])
  {
    var front := actions[..|actions| - 1];
    forall i | 0 <= i < |front| && Run(c, OUTSET, front[..i]).Some?
      ensures !(front[i].Operate? && front[i].op.Failure? && Run(c, OUTSET, front[..i]).value.resets != map[])
    {
      assert front[..i] == actions[..i];
    }
  }

  lemma AgreementKept(c: BreakerConfig, w: World, ops: seq<Op>, a: Action)
    requires Agree(w, After(c, ops)) && Possible(w, a)
    requires a.Operate? && a.op.Failure? ==> w.resets == map[]
    ensures Agree(Next(c, w, a), match a case Operate(op) => After(c, ops + [op])
                                         case Release(_) => After(c, ops + [Reset])
                                         case Clear(_) => After(c, ops))
  {
    match a {
      case Operate(op) =>
        assert (ops + [op])[..|ops|] == ops;
      case Release(id) =>
        assert (ops + [Reset])[..|ops|] == ops;
        assert Next(c, w, a).resets != map[] by {
          assert id in Next(c, w, a).resets;
        }
      case Clear(id) =>
        ClearingAgrees(c, w, After(c, ops), id);
    }
  }

  lemma ClearingAgrees(c: BreakerConfig, w: World, b: Breaker, id: ResetId)
    requires Agree(w, b) && id in w.resets
    ensures Agree(Next(c, w, Clear(id)), b)
  {
    var next := Next(c, w, Clear(id));
    if w.resets[id] < 2 {
      assert id in next.resets;
    }
  }

  /**
   * When a closed breaker trips: with no reset under way, and no failure reported while one was, exactly on the failure
   * that completes the row since the last success or reset.
   */
  lemma TripsAtThresholdIfUndisturbed(c: BreakerConfig, actions: seq<Action>, now: nat)
    requires c.failureThreshold >= 1
    requires Run(c, OUTSET, actions).Some? && Undisturbed(c, actions)
    requires var w := Run(c, OUTSET, actions).value; w.resets == map[] && w.breaker.state == Closed
    ensures Step(c, Run(c, OUTSET, actions).value.breaker, Failure(now)).state
            == if FailuresInARow(AtOnce(actions)) + 1 >= c.failureThreshold then Open else Closed
  {
    UndisturbedResetsActAtOnce(c, actions);
    var ops := AtOnce(actions);
    TripsExactlyAtThreshold(c, ops, now);
    assert (ops + [Failure(now)])[..|ops|] == ops;
  }

  // ------------------------------------------------------------- and one that is disturbed can be undone

  /** A closed breaker opens on a failure that does not complete the row since the last success or reset. */
  predicate TripsEarly(c: BreakerConfig, actions: seq<Action>, now: nat) {
    && Run(c, OUTSET, actions).Some?
    && Run(c, OUTSET, actions).value.breaker.state == Closed
    && Step(c, Run(c, OUTSET, actions).value.breaker, Failure(now)).state == Open
    && FailuresInARow(AtOnce(actions)) + 1 < c.failureThreshold
  }

  /** That can happen exactly if more than one failure is needed to trip. */
  lemma TripsEarlyExactly(c: BreakerConfig)
    ensures (exists actions, now :: TripsEarly(c, actions, now)) <==> c.failureThreshold >= 2
  {
    if c.failureThreshold >= 2 {
      var actions := ReleasedAtTheBrink(c);
      assert TripsEarly(c, actions, 0);
    }
  }

  lemma {:induction false} FailuresRun(c: BreakerConfig, k: nat) returns (actions: seq<Action>)
    requires k < c.failureThreshold
    ensures Run(c, OUTSET, actions) == Some(World(Breaker(Closed, k, 0, 0, 0), map[]))
  {
    if k == 0 {
      actions := [];
    } else {
      actions := FailuresRun(c, k - 1);
      RunSnoc(c, actions, Operate(Failure(0)));
      actions := actions + [Operate(Failure(0))];
    }
  }

  /** One failure short of the threshold, a reset has set the state and cleared nothing yet. */
  lemma ReleasedAtTheBrink(c: BreakerConfig) returns (actions: seq<Action>)
    requires c.failureThreshold >= 2
    ensures Run(c, OUTSET, actions) == Some(World(Breaker(Closed, c.failureThreshold - 1, 0, 0, 0), map[0 := 0]))
    ensures FailuresInARow(AtOnce(actions)) == 0
  {
    var before := FailuresRun(c, c.failureThreshold - 1);
    RunSnoc(c, before, Release(0));
    actions := before + [Release(0)];
    assert actions[..|actions| - 1] == before;
  }

  /**
   * The first failure on the new network opens the breaker just reset, and the reset then finishes: the breaker stays
   * open, where one that resets at once has counted a single failure.
   */
  lemma OneFailureUndoesTheReset(c: BreakerConfig) returns (actions: seq<Action>)
    requires c.failureThreshold >= 2
    ensures Run(c, OUTSET, actions) == Some(World(Breaker(Open, 0, 0, 0, 0), map[]))
    ensures FailuresInARow(AtOnce(actions)) == 1
  {
    actions := FailedMeanwhile(c);
    for k := 0 to 3
      invariant Run(c, OUTSET, actions).Some? && FailuresInARow(AtOnce(actions)) == 1
      invariant var w := Run(c, OUTSET, actions).value;
                && w.breaker == Breaker(Open, if k == 0 then c.failureThreshold else 0, 0, 0, 0)
                && w.resets == if k < 3 then map[0 := k] else map[]
    {
      RunSnoc(c, actions, Clear(0));
      ClearIsNoOperation(actions, 0);
      actions := actions + [Clear(0)];
    }
    assert Run(c, OUTSET, actions).value.resets == map[];
  }

  lemma FailedMeanwhile(c: BreakerConfig) returns (actions: seq<Action>)
    requires c.failureThreshold >= 2
    ensures Run(c, OUTSET, actions) == Some(World(Breaker(Open, c.failureThreshold, 0, 0, 0), map[0 := 0]))
    ensures FailuresInARow(AtOnce(actions)) == 1
  {
    var before := ReleasedAtTheBrink(c);
    RunSnoc(c, before, Operate(Failure(0)));
    actions := before + [Operate(Failure(0))];
    assert actions[..|actions| - 1] == before;
    var ops := AtOnce(before);
    assert (ops + [Failure(0)])[..|ops|] == ops;
  }

  lemma ClearIsNoOperation(actions: seq<Action>, id: ResetId)
    ensures AtOnce(actions + [Clear(id)]) == AtOnce(actions)
  {
    assert (actions + [Clear(id)])[..|actions|] == actions;
  }
}
