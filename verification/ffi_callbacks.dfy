/**
 * Event callbacks across the C boundary, and `catcher_ws_destroy`, which promises that no callback follows it. Client
 * tasks and destroying threads are cut into the steps the code performs atomically, in any interleaving. A callback
 * runs with the read lock held and marking needs the write lock, so a mark waits until no callback runs.
 */
module FfiCallbacks {
  import opened Prelude
  import opened HandleRegistries

  type Id = nat

  type CallId = nat

  /** A client's task. `Passed` has found its id not cancelled and has not registered its handle yet. */
  datatype Stage =
    | Connecting
    | Connected
    | Passed
    | Looping
    | Calling
    | Leaving
    | Reporting
    | CallingError
    | Finished

  datatype Progress = Called | Marked | Returned

  datatype Destroy = Destroy(id: Id, at: Progress)

  datatype Event = CallbackBegins(id: Id) | CallbackEnds(id: Id) | DestroyReturns(id: Id)

  datatype State = State(
    next: nat,
    registered: set<Id>,
    cancelled: set<Id>,
    tasks: map<Id, Stage>,
    destroys: map<CallId, Destroy>,
    closed: set<Id>,
    log: seq<Event>
  )

  const INITIAL := State(1, {}, {}, map[], map[], {}, [])

  datatype Step =
    | Create
    | ConnectOk(id: Id)
    | ConnectFails(id: Id)
    | CheckCancelled(id: Id)
    | Register(id: Id)
    | Invoke(id: Id)                      // an event arrives, or the connect error is reported
    | CallbackReturns(id: Id)
    | EventsEnd(id: Id)
    | Unregister(id: Id)
    | CallDestroy(call: CallId, id: Id)
    | Mark(call: CallId)
    | RemoveAndReturn(call: CallId)

  predicate TaskAt(s: State, id: Id, stage: Stage) {
    id in s.tasks && s.tasks[id] == stage
  }

  /** Its callback is running, with the read lock held. */
  predicate InCallback(s: State, id: Id) {
    TaskAt(s, id, Calling) || TaskAt(s, id, CallingError)
  }

  predicate DestroyAt(s: State, call: CallId, at: Progress) {
    call in s.destroys && s.destroys[call].at == at
  }

  predicate Enabled(s: State, step: Step) {
    match step
    case Create => true
    case ConnectOk(id) => TaskAt(s, id, Connecting)
    case ConnectFails(id) => TaskAt(s, id, Connecting)
    case CheckCancelled(id) => TaskAt(s, id, Connected)
    case Register(id) => TaskAt(s, id, Passed)
    case Invoke(id) => TaskAt(s, id, Looping) || TaskAt(s, id, Reporting)
    case CallbackReturns(id) => InCallback(s, id)
    case EventsEnd(id) => TaskAt(s, id, Looping)
    case Unregister(id) => TaskAt(s, id, Leaving)
    case CallDestroy(call, _) => call !in s.destroys
    case Mark(call) => DestroyAt(s, call, Called) && forall id <- s.tasks :: !InCallback(s, id)
    case RemoveAndReturn(call) => DestroyAt(s, call, Marked)
  }

  function Go(s: State, id: Id, stage: Stage): State {
    s.(tasks := s.tasks[id := stage])
  }

  function Logged(s: State, e: Event): State {
    s.(log := s.log + [e])
  }

  function Apply(s: State, step: Step): State
    requires Enabled(s, step)
  {
    match step
    case Create => Go(s, s.next, Connecting).(next := s.next + 1)
    case ConnectOk(id) => Go(s, id, Connected)
    case ConnectFails(id) => Go(s, id, Reporting)
    case CheckCancelled(id) =>
      if id in s.cancelled then Go(s, id, Finished).(closed := s.closed + {id}) else Go(s, id, Passed)
    case Register(id) => Go(s, id, Looping).(registered := s.registered + {id})
    case Invoke(id) =>
      if s.tasks[id].Looping? then
        if id in s.cancelled then Go(s, id, Leaving) else Logged(Go(s, id, Calling), CallbackBegins(id))
      else
        if id in s.cancelled then Go(s, id, Finished) else Logged(Go(s, id, CallingError), CallbackBegins(id))
    case CallbackReturns(id) =>
      Logged(Go(s, id, if s.tasks[id].Calling? then Looping else Finished), CallbackEnds(id))
    case EventsEnd(id) => Go(s, id, Leaving)
    case Unregister(id) => Go(s, id, Finished).(registered := s.registered - {id})
    case CallDestroy(call, id) => s.(destroys := s.destroys[call := Destroy(id, Called)])
    case Mark(call) =>
      var d := s.destroys[call];
      s.(cancelled := s.cancelled + {d.id}, destroys := s.destroys[call := d.(at := Marked)])
    case RemoveAndReturn(call) =>
      var d := s.destroys[call];
      Logged(s.(registered := s.registered - {d.id},
                closed := if d.id in s.registered then s.closed + {d.id} else s.closed,
                destroys := s.destroys[call := d.(at := Returned)]),
             DestroyReturns(d.id))
  }

  predicate Runs(s: State, steps: seq<Step>)
    decreases |steps|
  {
    steps == [] || (Enabled(s, steps[0]) && Runs(Apply(s, steps[0]), steps[1..]))
  }

  function Exec(s: State, steps: seq<Step>): State
    requires Runs(s, steps)
    decreases |steps|
  {
    if steps == [] then s else Exec(Apply(s, steps[0]), steps[1..])
  }

  // ------------------------------------------------------------- what every step keeps

  /** No callback of an id begins or ends after a destroy of it returned. */
  ghost predicate Silenced(log: seq<Event>) {
    forall i, j :: 0 <= i < j < |log| && log[i].DestroyReturns? ==>
      log[j] != CallbackBegins(log[i].id) && log[j] != CallbackEnds(log[i].id)
  }

  ghost predicate Inv(s: State) {
    && s.next >= 1
    && (forall id :: id in s.tasks <==> 1 <= id < s.next)
    && (forall id :: InCallback(s, id) ==> id !in s.cancelled)
    && (forall c <- s.destroys :: s.destroys[c].at != Called ==> s.destroys[c].id in s.cancelled)
    && (forall i :: 0 <= i < |s.log| && s.log[i].DestroyReturns? ==> s.log[i].id in s.cancelled)
    && Silenced(s.log)
    && InvRegistry(s)
  }

  /** A registered handle has a task in its loop; a task in its loop is registered, or was told to close. */
  ghost predicate InvRegistry(s: State) {
    && (forall id <- s.registered :: TaskAt(s, id, Looping) || TaskAt(s, id, Calling) || TaskAt(s, id, Leaving))
    && (forall id :: TaskAt(s, id, Looping) || TaskAt(s, id, Calling) ==> id in s.registered || id in s.closed)
  }

  lemma LogStep(s: State, e: Event)
    requires Silenced(s.log)
    requires forall i :: 0 <= i < |s.log| && s.log[i].DestroyReturns? ==> s.log[i].id in s.cancelled
    requires e.DestroyReturns? || e.id !in s.cancelled
    ensures Silenced(s.log + [e])
  {
  }

  lemma StepKeepsRegistry(s: State, step: Step)
    requires Inv(s) && Enabled(s, step)
    ensures InvRegistry(Apply(s, step))
  {
  }

  lemma StepKeepsInv(s: State, step: Step)
    requires Inv(s) && Enabled(s, step)
    ensures Inv(Apply(s, step))
  {
    StepKeepsRegistry(s, step);
    match step {
      case Invoke(id) => if id !in s.cancelled { LogStep(s, CallbackBegins(id)); }
      case CallbackReturns(id) => LogStep(s, CallbackEnds(id));
      case RemoveAndReturn(call) => LogStep(s, DestroyReturns(s.destroys[call].id));
      case _ =>
    }
  }

  lemma {:induction false} RunKeepsInv(s: State, steps: seq<Step>)
    requires Inv(s) && Runs(s, steps)
    ensures Inv(Exec(s, steps))
    decreases |steps|
  {
    if steps != [] {
      StepKeepsInv(s, steps[0]);
      RunKeepsInv(Apply(s, steps[0]), steps[1..]);
    }
  }

  // ------------------------------------------------------------- over whole runs

  /** Once a destroy has returned, no callback of its id is running, and none begins or ends any more. */
  lemma NoCallbackAfterDestroy(steps: seq<Step>, i: nat)
    requires Runs(INITIAL, steps)
    requires i < |Exec(INITIAL, steps).log| && Exec(INITIAL, steps).log[i].DestroyReturns?
    ensures var s := Exec(INITIAL, steps);
            && !InCallback(s, s.log[i].id)
            && forall j :: i < j < |s.log| ==>
                 s.log[j] != CallbackBegins(s.log[i].id) && s.log[j] != CallbackEnds(s.log[i].id)
  {
    RunKeepsInv(INITIAL, steps);
  }

  /** An id created is one no earlier client had. */
  lemma {:induction false} IdsAreNeverReused(s: State, steps: seq<Step>)
    requires Inv(s) && Runs(s, steps)
    ensures s.tasks.Keys <= Exec(s, steps).tasks.Keys
    ensures steps != [] && steps[0].Create? ==> s.next !in s.tasks && s.next in Exec(s, steps).tasks
    ensures Exec(s, steps).next !in Exec(s, steps).tasks && s.next <= Exec(s, steps).next
    decreases |steps|
  {
    if steps != [] {
      StepKeepsInv(s, steps[0]);
      IdsAreNeverReused(Apply(s, steps[0]), steps[1..]);
    }
  }

  /** A finished task leaves nothing in the registry, and when every task has finished the registry is empty. */
  lemma FinishedTasksLeaveNothing(steps: seq<Step>)
    requires Runs(INITIAL, steps)
    ensures var s := Exec(INITIAL, steps);
            && (forall id :: TaskAt(s, id, Finished) ==> id !in s.registered)
            && ((forall id <- s.tasks :: s.tasks[id].Finished?) ==> s.registered == {})
  {
    RunKeepsInv(INITIAL, steps);
  }

  // ------------------------------------------------------------- what destroy does not do

  /** A destroyed id that is not between its check and its registration never enters the registry again. */
  lemma {:induction false} StaysOut(s: State, steps: seq<Step>, id: Id)
    requires Inv(s) && Runs(s, steps)
    requires id in s.cancelled && id !in s.registered && !TaskAt(s, id, Passed)
    ensures id !in Exec(s, steps).registered
    decreases |steps|
  {
    if steps != [] {
      StepKeepsInv(s, steps[0]);
      StaysOut(Apply(s, steps[0]), steps[1..], id);
    }
  }

  ghost predicate CanRegister(s: State, id: Id) {
    exists steps :: Runs(s, steps) && id in Exec(s, steps).registered
  }

  /** A destroy misses the handle exactly when it finds the client between its check of the cancelled ids and its
      registration: then, and only then, can the handle be registered after the destroy has returned. */
  lemma MissedExactly(s: State, call: CallId)
    requires Inv(s) && Enabled(s, RemoveAndReturn(call))
    ensures TaskAt(s, s.destroys[call].id, Passed)
            <==> CanRegister(Apply(s, RemoveAndReturn(call)), s.destroys[call].id)
  {
    var id, after := s.destroys[call].id, Apply(s, RemoveAndReturn(call));
    StepKeepsInv(s, RemoveAndReturn(call));
    if TaskAt(s, id, Passed) {
      RegistersNext(after, id);
    } else {
      forall steps | Runs(after, steps) ensures id !in Exec(after, steps).registered {
        StaysOut(after, steps, id);
      }
    }
  }

  lemma RegistersNext(s: State, id: Id)
    requires TaskAt(s, id, Passed)
    ensures CanRegister(s, id)
  {
    RunsOn(s, [], Register(id));
    assert id in Exec(s, [] + [Step.Register(id)]).registered;
  }

  lemma {:induction false} RunsOn(s: State, steps: seq<Step>, step: Step)
    requires Runs(s, steps) && Enabled(Exec(s, steps), step)
    ensures Runs(s, steps + [step]) && Exec(s, steps + [step]) == Apply(Exec(s, steps), step)
    decreases |steps|
  {
    if steps == [] {
      assert ([] + [step])[1..] == [];
      assert Runs(Apply(s, step), []) && Exec(Apply(s, step), []) == Apply(s, step);
      assert [] + [step] == [step];
    } else {
      RunsOn(Apply(s, steps[0]), steps[1..], step);
      assert (steps + [step])[1..] == steps[1..] + [step];
    }
  }

  /** Such a miss can happen: a client that connects, finds itself active, and is destroyed before it registers. */
  lemma MissIsReachable() returns (steps: seq<Step>)
    ensures Runs(INITIAL, steps) && Enabled(Exec(INITIAL, steps), RemoveAndReturn(0))
    ensures Exec(INITIAL, steps).destroys[0].id == 1 && TaskAt(Exec(INITIAL, steps), 1, Passed)
  {
    steps := [];
    RunsOn(INITIAL, steps, Create);
    steps := steps + [Create];
    RunsOn(INITIAL, steps, ConnectOk(1));
    steps := steps + [ConnectOk(1)];
    RunsOn(INITIAL, steps, CheckCancelled(1));
    steps := steps + [CheckCancelled(1)];
    RunsOn(INITIAL, steps, CallDestroy(0, 1));
    steps := steps + [CallDestroy(0, 1)];
    RunsOn(INITIAL, steps, Mark(0));
    steps := steps + [Mark(0)];
  }

  /** A destroy waits for every running callback, so one called from inside a callback never returns. */
  lemma {:induction false} DestroyWaitsForCallbacks(s: State, steps: seq<Step>, id: Id, call: CallId)
    requires Runs(s, steps) && InCallback(s, id) && DestroyAt(s, call, Called)
    requires id < s.next && CallbackReturns(id) !in steps
    ensures DestroyAt(Exec(s, steps), call, Called)
    decreases |steps|
  {
    if steps != [] {
      assert steps[0] != CallbackReturns(id);
      DestroyWaitsForCallbacks(Apply(s, steps[0]), steps[1..], id, call);
    }
  }

  // ------------------------------------------------------------- the code, step by step

  class WsFfi {
    const registry: HandleRegistry<Id>
    var cancelled: set<Id>
    var tasks: map<Id, Stage>             // the local state of every client task
    var destroys: map<CallId, Destroy>    // and of every call of destroy
    ghost var closed: set<Id>
    ghost var log: seq<Event>

    ghost function Model(): State
      reads this, registry
    {
      State(registry.next, registry.handles.Keys, cancelled, tasks, destroys, closed, log)
    }

    constructor ()
      ensures Model() == INITIAL && fresh(registry)
    {
      registry := new HandleRegistry();
      cancelled, tasks, destroys, closed, log := {}, map[], map[], {}, [];
    }

    method CreateClient() returns (id: Id)
      modifies this, registry
      ensures id == old(Model()).next && Model() == Apply(old(Model()), Create)
    {
      id := registry.NextId();
      tasks := tasks[id := Connecting];
    }

    method FinishConnect(id: Id, ok: bool)
      requires TaskAt(Model(), id, Connecting)
      modifies this
      ensures Model() == Apply(old(Model()), if ok then ConnectOk(id) else ConnectFails(id))
    {
      tasks := tasks[id := if ok then Connected else Reporting];
    }

    method CheckWsCancelled(id: Id)
      requires Enabled(Model(), CheckCancelled(id))
      modifies this
      ensures Model() == Apply(old(Model()), CheckCancelled(id))
    {
      if id in cancelled {
        closed := closed + {id};
        tasks := tasks[id := Finished];
      } else {
        tasks := tasks[id := Passed];
      }
    }

    method RegisterHandle(id: Id)
      requires Enabled(Model(), Register(id))
      modifies this, registry
      ensures Model() == Apply(old(Model()), Register(id))
    {
      registry.InsertWithId(id, id);
      tasks := tasks[id := Looping];
    }

    /** `invoke_event_callback_if_active`, up to the call itself, which runs with the read lock still held. */
    method InvokeIfActive(id: Id) returns (active: bool)
      requires Enabled(Model(), Invoke(id))
      modifies this
      ensures Model() == Apply(old(Model()), Invoke(id))
      ensures active <==> InCallback(Model(), id)
    {
      active := id !in cancelled;
      if active {
        log := log + [CallbackBegins(id)];
      }
      tasks := tasks[id := if tasks[id].Looping? then if active then Calling else Leaving
                           else if active then CallingError else Finished];
    }

    method ReturnFromCallback(id: Id)
      requires Enabled(Model(), CallbackReturns(id))
      modifies this
      ensures Model() == Apply(old(Model()), CallbackReturns(id))
    {
      log := log + [CallbackEnds(id)];
      tasks := tasks[id := if tasks[id].Calling? then Looping else Finished];
    }

    method EndOfEvents(id: Id)
      requires Enabled(Model(), EventsEnd(id))
      modifies this
      ensures Model() == Apply(old(Model()), EventsEnd(id))
    {
      tasks := tasks[id := Leaving];
    }

    method UnregisterHandle(id: Id)
      requires Enabled(Model(), Unregister(id))
      modifies this, registry
      ensures Model() == Apply(old(Model()), Unregister(id))
    {
      var _ := registry.Remove(id);
      tasks := tasks[id := Finished];
    }

    method BeginDestroy(call: CallId, id: Id)
      requires Enabled(Model(), CallDestroy(call, id))
      modifies this
      ensures Model() == Apply(old(Model()), CallDestroy(call, id))
    {
      destroys := destroys[call := Destroy(id, Called)];
    }

    method MarkWsCancelled(call: CallId)
      requires Enabled(Model(), Mark(call))
      modifies this
      ensures Model() == Apply(old(Model()), Mark(call))
    {
      cancelled := cancelled + {destroys[call].id};
      destroys := destroys[call := destroys[call].(at := Marked)];
    }

    method FinishDestroy(call: CallId)
      requires Enabled(Model(), RemoveAndReturn(call))
      modifies this, registry
      ensures Model() == Apply(old(Model()), RemoveAndReturn(call))
    {
      var id := destroys[call].id;
      var removed := registry.Remove(id);
      if removed.Some? {
        closed := closed + {id};
      }
      destroys := destroys[call := destroys[call].(at := Returned)];
      log := log + [DestroyReturns(id)];
    }
  }
}
