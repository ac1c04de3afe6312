/**
 * The stale-aware DNS cache, shared by foreground lookups, background refreshes and `clear_cache`. Every task is cut
 * into the steps the code performs atomically, and any task may take the next step.
 */
module DnsCache {
  import opened Prelude

  type Host = string

  type TaskId = nat

  /** A foreground lookup: generation loaded, lookup running since generation `begun`, answered, told to invalidate. */
  datatype ResolveStep = Loaded | LookingUp(begun: nat) | Answered | MustInvalidate | StaleSeen

  /** A background refresh. `Checked` has found the generation unchanged and is about to insert. */
  datatype RefreshStep = Spawned | Querying(begun: nat) | Found(begun: nat) | Checked(begun: nat) | Finishing

  /** `clear_cache`: generation bumped, entries invalidated; clearing the markers ends it. */
  datatype ClearStep = Bumped | Invalidated

  datatype Task =
    | Resolve(host: Host, gen: nat, at: ResolveStep)
    | Refresh(host: Host, gen: nat, now: RefreshStep)
    | Clear(stage: ClearStep)

  /**
   * The shared state. A cache entry is represented by the generation in which its lookup began. `clears` counts
   * finished marker clearings, and `orphans` are the hosts whose old entry has lost its remover: a refresh inserted it
   * after its generation had passed, or the lookup about to remove it was dropped.
   */
  datatype State = State(
    generation: nat,
    cache: map<Host, nat>,
    refreshing: set<Host>,
    tasks: map<TaskId, Task>,
    clears: nat,
    orphans: set<Host>
  )

  const INITIAL := State(0, map[], {}, map[], 0, {})

  datatype Step =
    | ResolveStart(id: TaskId, host: Host)
    | ResolveLookup(id: TaskId)
    | ResolveInsert(id: TaskId)
    | ResolveAnswer(id: TaskId)         // cached, shared with another lookup, or failed: nothing inserted
    | ResolveCheck(id: TaskId)
    | ResolveInvalidate(id: TaskId)
    | ResolveCancel(id: TaskId)         // the caller drops the future at an await
    | StaleHit(id: TaskId, host: Host)
    | StaleMark(id: TaskId)
    | RefreshQuery(id: TaskId)
    | RefreshAnswer(id: TaskId, ok: bool)
    | RefreshCheck(id: TaskId)
    | RefreshInsert(id: TaskId)
    | RefreshFinish(id: TaskId)
    | ClearBump(id: TaskId)
    | ClearInvalidate(id: TaskId)
    | ClearMarkers(id: TaskId)
    | Evict(host: Host)                 // capacity or time to live

  predicate ResolveAt(s: State, id: TaskId, at: ResolveStep) {
    id in s.tasks && s.tasks[id].Resolve? && s.tasks[id].at == at
  }

  predicate RefreshAt(s: State, id: TaskId, now: RefreshStep) {
    id in s.tasks && s.tasks[id].Refresh? && s.tasks[id].now == now
  }

  predicate Enabled(s: State, step: Step) {
    match step
    case ResolveStart(id, _) => id !in s.tasks
    case ResolveLookup(id) => ResolveAt(s, id, Loaded)
    case ResolveInsert(id) => id in s.tasks && s.tasks[id].Resolve? && s.tasks[id].at.LookingUp?
    case ResolveAnswer(id) =>
      id in s.tasks && s.tasks[id].Resolve? && (s.tasks[id].at.Loaded? || s.tasks[id].at.LookingUp?)
    case ResolveCheck(id) => ResolveAt(s, id, Answered)
    case ResolveInvalidate(id) => ResolveAt(s, id, MustInvalidate)
    case ResolveCancel(id) => id in s.tasks && s.tasks[id].Resolve? && !s.tasks[id].at.StaleSeen?
    case StaleHit(id, _) => id !in s.tasks
    case StaleMark(id) => ResolveAt(s, id, StaleSeen)
    case RefreshQuery(id) => RefreshAt(s, id, Spawned)
    case RefreshAnswer(id, _) => id in s.tasks && s.tasks[id].Refresh? && s.tasks[id].now.Querying?
    case RefreshCheck(id) => id in s.tasks && s.tasks[id].Refresh? && s.tasks[id].now.Found?
    case RefreshInsert(id) => id in s.tasks && s.tasks[id].Refresh? && s.tasks[id].now.Checked?
    case RefreshFinish(id) => RefreshAt(s, id, Finishing)
    case ClearBump(id) => id !in s.tasks
    case ClearInvalidate(id) => id in s.tasks && s.tasks[id] == Clear(Bumped)
    case ClearMarkers(id) => id in s.tasks && s.tasks[id] == Clear(Invalidated)
    case Evict(_) => true
  }

  function Go(s: State, id: TaskId, t: Task): State {
    s.(tasks := s.tasks[id := t])
  }

  function Done(s: State, id: TaskId): State {
    s.(tasks := s.tasks - {id})
  }

  function Insert(s: State, host: Host, begun: nat, late: bool): State {
    s.(cache := s.cache[host := begun], orphans := if late then s.orphans + {host} else s.orphans - {host})
  }

  function Drop(s: State, host: Host): State {
    s.(cache := s.cache - {host}, orphans := s.orphans - {host})
  }

  /** A foreground lookup on this host has answered under an old generation and will remove whatever is cached. */
  predicate OwesRemoval(s: State, id: TaskId, host: Host) {
    && id in s.tasks && s.tasks[id].Resolve? && s.tasks[id].host == host
    && (s.tasks[id].at.MustInvalidate? || (s.tasks[id].at.Answered? && s.tasks[id].gen < s.generation))
  }

  predicate Stale(s: State, host: Host) {
    host in s.cache && s.cache[host] < s.generation
  }

  /** The step drops a lookup that would have removed an old entry. */
  predicate AbandonsRemoval(s: State, step: Step) {
    && step.ResolveCancel? && Enabled(s, step)
    && OwesRemoval(s, step.id, s.tasks[step.id].host) && Stale(s, s.tasks[step.id].host)
  }

  function Apply(s: State, step: Step): State
    requires Enabled(s, step)
  {
    match step
    case ResolveStart(id, host) => Go(s, id, Resolve(host, s.generation, Loaded))
    case ResolveLookup(id) => Go(s, id, s.tasks[id].(at := LookingUp(s.generation)))
    case ResolveInsert(id) =>
      var t := s.tasks[id];
      Go(Insert(s, t.host, t.at.begun, false), id, t.(at := Answered))
    case ResolveAnswer(id) => Go(s, id, s.tasks[id].(at := Answered))
    case ResolveCheck(id) =>
      if s.tasks[id].gen == s.generation then Done(s, id) else Go(s, id, s.tasks[id].(at := MustInvalidate))
    case ResolveInvalidate(id) => Done(Drop(s, s.tasks[id].host), id)
    case ResolveCancel(id) =>
      Done(if AbandonsRemoval(s, step) then s.(orphans := s.orphans + {s.tasks[id].host}) else s, id)
    case StaleHit(id, host) => Go(s, id, Resolve(host, s.generation, StaleSeen))
    case StaleMark(id) =>
      var t := s.tasks[id];
      if t.host in s.refreshing then Done(s, id)
      else Go(s.(refreshing := s.refreshing + {t.host}), id, Refresh(t.host, t.gen, Spawned))
    case RefreshQuery(id) => Go(s, id, s.tasks[id].(now := Querying(s.generation)))
    case RefreshAnswer(id, ok) =>
      var t := s.tasks[id];
      Go(s, id, t.(now := if ok then Found(t.now.begun) else Finishing))
    case RefreshCheck(id) =>
      var t := s.tasks[id];
      Go(s, id, t.(now := if t.gen == s.generation then Checked(t.now.begun) else Finishing))
    case RefreshInsert(id) =>
      var t := s.tasks[id];
      Go(Insert(s, t.host, t.now.begun, t.gen != s.generation), id, t.(now := Finishing))
    case RefreshFinish(id) => Done(s.(refreshing := s.refreshing - {s.tasks[id].host}), id)
    case ClearBump(id) => Go(s.(generation := s.generation + 1), id, Clear(Bumped))
    case ClearInvalidate(id) => Go(s.(cache := map[], orphans := {}), id, Clear(Invalidated))
    case ClearMarkers(id) => Done(s.(refreshing := {}, clears := s.clears + 1), id)
    case Evict(host) => Drop(s, host)
  }

  // ------------------------------------------------------------- the invariant

  predicate OwesInvalidation(s: State, id: TaskId) {
    id in s.tasks && s.tasks[id] == Clear(Bumped)
  }

  ghost predicate Owed(s: State, host: Host) {
    || (exists id :: OwesRemoval(s, id, host))
    || (exists id :: OwesInvalidation(s, id))
  }

  predicate TaskTimely(s: State, t: Task) {
    match t
    case Resolve(_, gen, at) => gen <= s.generation && (at.LookingUp? ==> gen <= at.begun <= s.generation)
    case Refresh(_, gen, now) =>
      && gen <= s.generation
      && (now.Querying? ==> gen <= now.begun <= s.generation)
      && (now.Found? ==> gen <= now.begun <= s.generation)
      && (now.Checked? ==> gen == now.begun)
    case Clear(_) => true
  }

  ghost predicate Timely(s: State) {
    forall id :: id in s.tasks ==> TaskTimely(s, s.tasks[id])
  }

  /** An entry from an older generation has someone who still owes its removal, or is an orphan. */
  ghost predicate DebtsKnown(s: State) {
    && (forall host :: host in s.cache ==> s.cache[host] <= s.generation)
    && (forall host :: Stale(s, host) && host !in s.orphans ==> Owed(s, host))
    && (forall host :: host in s.orphans ==> Stale(s, host))
  }

  ghost predicate Inv(s: State) {
    Timely(s) && DebtsKnown(s)
  }

  lemma TimelyKept(s: State, step: Step)
    requires Timely(s) && Enabled(s, step)
    ensures Timely(Apply(s, step))
  {
    var s' := Apply(s, step);
    forall id | id in s'.tasks ensures TaskTimely(s', s'.tasks[id]) {
      if id in s.tasks {
        assert TaskTimely(s, s.tasks[id]);
      }
    }
  }

  /** A debt is settled only by the step that removes the entry. */
  lemma DebtsKept(s: State, step: Step)
    requires Inv(s) && Enabled(s, step)
    ensures DebtsKnown(Apply(s, step))
  {
    var s' := Apply(s, step);
    if step.ClearBump? {
      assert OwesInvalidation(s', step.id);
    }
    if step.RefreshInsert? || step.ResolveInsert? {
      assert TaskTimely(s, s.tasks[step.id]);
    }
    forall host | Stale(s', host) && host !in s'.orphans ensures Owed(s', host) {
      if step.ResolveInsert? && s.tasks[step.id].host == host {
        assert OwesRemoval(s', step.id, host);
      } else if !step.ClearBump? && !(step.RefreshInsert? && s.tasks[step.id].host == host) {
        DebtStays(s, step, host);
      }
    }
  }

  lemma DebtStays(s: State, step: Step, host: Host)
    requires Inv(s) && Enabled(s, step) && !step.ClearBump?
    requires Owed(s, host) && Stale(s, host) && host in Apply(s, step).cache && host !in Apply(s, step).orphans
    ensures Owed(Apply(s, step), host)
  {
    var s' := Apply(s, step);
    if id :| OwesRemoval(s, id, host) {
      assert OwesRemoval(s', id, host);
    } else {
      var id :| OwesInvalidation(s, id);
      assert OwesInvalidation(s', id);
    }
  }

  // ------------------------------------------------------------- runs

  /** The state after a schedule, if every step of it was possible. */
  function Exec(s: State, schedule: seq<Step>): Option<State> {
    if schedule == [] then Some(s)
    else
      var before := Exec(s, schedule[..|schedule| - 1]);
      if before.Some? && Enabled(before.value, schedule[|schedule| - 1])
      then Some(Apply(before.value, schedule[|schedule| - 1]))
      else None
  }

  lemma {:induction false} EveryRunKeepsTheInvariant(schedule: seq<Step>)
    requires Exec(INITIAL, schedule).Some?
    ensures Inv(Exec(INITIAL, schedule).value)
  {
    if schedule != [] {
      var front, last := schedule[..|schedule| - 1], schedule[|schedule| - 1];
      EveryRunKeepsTheInvariant(front);
      TimelyKept(Exec(INITIAL, front).value, last);
      DebtsKept(Exec(INITIAL, front).value, last);
    }
  }

  lemma ExecOneMore(schedule: seq<Step>, i: nat, s: State)
    requires i < |schedule| && Exec(INITIAL, schedule[..i]) == Some(s) && Enabled(s, schedule[i])
    ensures Exec(INITIAL, schedule[..i + 1]) == Some(Apply(s, schedule[i]))
  {
    assert schedule[..i + 1][..i] == schedule[..i];
  }

  predicate AtRest(s: State) {
    s.tasks == map[]
  }

  /** Every entry came from a lookup begun in the current generation. */
  ghost predicate Clean(s: State) {
    forall host :: host in s.cache ==> s.cache[host] == s.generation
  }

  /** Once nothing is in flight, the cache is clean exactly when it holds no orphan. */
  lemma CleanAtRestExactly(schedule: seq<Step>)
    requires Exec(INITIAL, schedule).Some? && AtRest(Exec(INITIAL, schedule).value)
    ensures var s := Exec(INITIAL, schedule).value; Clean(s) <==> s.orphans == {}
  {
    EveryRunKeepsTheInvariant(schedule);
    var s := Exec(INITIAL, schedule).value;
    if s.orphans != {} {
      var host :| host in s.orphans;
      assert Stale(s, host);
    } else {
      forall host | host in s.cache ensures s.cache[host] == s.generation {
        assert Stale(s, host) ==> Owed(s, host);
      }
    }
  }

  /** The step inserts for a refresh although the generation has moved since its check. */
  predicate InsertsLate(s: State, step: Step) {
    step.RefreshInsert? && Enabled(s, step) && s.tasks[step.id].gen != s.generation
  }

  predicate OvertakenInsert(schedule: seq<Step>, i: nat)
    requires i < |schedule| && Exec(INITIAL, schedule[..i]).Some?
  {
    InsertsLate(Exec(INITIAL, schedule[..i]).value, schedule[i])
  }

  predicate AbandonedRemoval(schedule: seq<Step>, i: nat)
    requires i < |schedule| && Exec(INITIAL, schedule[..i]).Some?
  {
    AbandonsRemoval(Exec(INITIAL, schedule[..i]).value, schedule[i])
  }

  lemma {:induction false} PrefixRuns(schedule: seq<Step>, i: nat)
    requires Exec(INITIAL, schedule).Some? && i <= |schedule|
    ensures Exec(INITIAL, schedule[..i]).Some?
  {
    if i == |schedule| {
      assert schedule[..i] == schedule;
    } else {
      assert schedule[..|schedule| - 1][..i] == schedule[..i];
      PrefixRuns(schedule[..|schedule| - 1], i);
    }
  }

  /**
   * Where a refresh checks and inserts in one step, as far as bumps go, and no lookup about to remove an old entry is
   * dropped, no interleaving leaves a stale entry.
   */
  lemma {:induction false} NoOvertakingNoResidue(schedule: seq<Step>)
    requires Exec(INITIAL, schedule).Some?
    requires forall i :: 0 <= i < |schedule| && Exec(INITIAL, schedule[..i]).Some? ==>
               !OvertakenInsert(schedule, i) && !AbandonedRemoval(schedule, i)
    ensures Exec(INITIAL, schedule).value.orphans == {}
    ensures AtRest(Exec(INITIAL, schedule).value) ==> Clean(Exec(INITIAL, schedule).value)
  {
    if schedule != [] {
      var n := |schedule| - 1;
      var front := schedule[..n];
      forall i | 0 <= i < n && Exec(INITIAL, front[..i]).Some?
        ensures !OvertakenInsert(front, i) && !AbandonedRemoval(front, i)
      {
        assert front[..i] == schedule[..i];
        assert !OvertakenInsert(schedule, i) && !AbandonedRemoval(schedule, i);
      }
      NoOvertakingNoResidue(front);
      assert !OvertakenInsert(schedule, n) && !AbandonedRemoval(schedule, n);
    }
    if AtRest(Exec(INITIAL, schedule).value) {
      CleanAtRestExactly(schedule);
    }
  }

  // ------------------------------------------------------------- the race the code leaves open

  const RACE_HOST: Host := "a"

  const RACE: seq<Step> := [
    ResolveStart(0, RACE_HOST), ResolveLookup(0), ResolveInsert(0), ResolveCheck(0),   // a first answer is cached
    StaleHit(1, RACE_HOST), StaleMark(1), RefreshQuery(1), RefreshAnswer(1, true), RefreshCheck(1),
    ClearBump(2), ClearInvalidate(2), ClearMarkers(2),                                  // the network changes here
    RefreshInsert(1), RefreshFinish(1)
  ]

  /** The state before the i-th step of the race. */
  function RaceState(i: nat): State
    requires i <= |RACE|
  {
    var h := RACE_HOST;
    if i == 0 then INITIAL
    else if i == 1 then INITIAL.(tasks := map[0 := Resolve(h, 0, Loaded)])
    else if i == 2 then INITIAL.(tasks := map[0 := Resolve(h, 0, LookingUp(0))])
    else if i == 3 then INITIAL.(cache := map[h := 0], tasks := map[0 := Resolve(h, 0, Answered)])
    else if i == 4 then INITIAL.(cache := map[h := 0])
    else if i == 5 then INITIAL.(cache := map[h := 0], tasks := map[1 := Resolve(h, 0, StaleSeen)])
    else if i == 6 then RaceRefreshing(Spawned)
    else if i == 7 then RaceRefreshing(Querying(0))
    else if i == 8 then RaceRefreshing(Found(0))
    else if i == 9 then RaceRefreshing(Checked(0))
    else if i == 10 then State(1, map[h := 0], {h}, map[1 := Refresh(h, 0, Checked(0)), 2 := Clear(Bumped)], 0, {})
    else if i == 11 then State(1, map[], {h}, map[1 := Refresh(h, 0, Checked(0)), 2 := Clear(Invalidated)], 0, {})
    else if i == 12 then State(1, map[], {}, map[1 := Refresh(h, 0, Checked(0))], 1, {})
    else if i == 13 then State(1, map[h := 0], {}, map[1 := Refresh(h, 0, Finishing)], 1, {h})
    else State(1, map[h := 0], {}, map[], 1, {h})
  }

  function RaceRefreshing(now: RefreshStep): State {
    State(0, map[RACE_HOST := 0], {RACE_HOST}, map[1 := Refresh(RACE_HOST, 0, now)], 0, {})
  }

  lemma RaceStep(i: nat)
    requires i < |RACE|
    ensures Enabled(RaceState(i), RACE[i])
    ensures Apply(RaceState(i), RACE[i]) == RaceState(i + 1)
  {
    if i < 7 {
      EarlyRaceStep(i);
    } else {
      LateRaceStep(i);
    }
  }

  lemma EarlyRaceStep(i: nat)
    requires i < 7
    ensures Enabled(RaceState(i), RACE[i])
    ensures Apply(RaceState(i), RACE[i]) == RaceState(i + 1)
  {
    var a, b := Apply(RaceState(i), RACE[i]), RaceState(i + 1);
    assert a.tasks == b.tasks;
    assert a.cache == b.cache;
    assert a.refreshing == b.refreshing && a.orphans == b.orphans;
  }

  lemma LateRaceStep(i: nat)
    requires 7 <= i < |RACE|
    ensures Enabled(RaceState(i), RACE[i])
    ensures Apply(RaceState(i), RACE[i]) == RaceState(i + 1)
  {
    var a, b := Apply(RaceState(i), RACE[i]), RaceState(i + 1);
    assert a.tasks == b.tasks;
    assert a.cache == b.cache;
    assert a.refreshing == b.refreshing && a.orphans == b.orphans;
  }

  lemma {:induction false} RaceRuns(i: nat)
    requires i <= |RACE|
    ensures Exec(INITIAL, RACE[..i]) == Some(RaceState(i))
  {
    if i > 0 {
      RaceRuns(i - 1);
      RaceStep(i - 1);
      ExecOneMore(RACE, i - 1, RaceState(i - 1));
    }
  }

  /**
   * Generation safety fails at the grain of the code: a refresh that has checked the generation and not yet inserted
   * is overtaken by a whole `clear_cache`, and the old network's answer stays cached with nobody left to remove it.
   */
  lemma OvertakenRefreshLeavesAStaleEntry()
    ensures Exec(INITIAL, RACE) == Some(State(1, map[RACE_HOST := 0], {}, map[], 1, {RACE_HOST}))
    ensures AtRest(Exec(INITIAL, RACE).value) && !Clean(Exec(INITIAL, RACE).value)
  {
    RaceRuns(|RACE|);
    assert RACE[..|RACE|] == RACE;
    assert RACE_HOST in Exec(INITIAL, RACE).value.cache;
  }

  const DROPPED: seq<Step> := [
    ResolveStart(0, RACE_HOST), ResolveLookup(0),
    ClearBump(1), ClearInvalidate(1), ClearMarkers(1),                                  // the network changes here
    ResolveInsert(0), ResolveCancel(0)
  ]

  /** The state before the i-th step of that run. */
  function DroppedState(i: nat): State
    requires i <= |DROPPED|
  {
    var lookup := Resolve(RACE_HOST, 0, LookingUp(0));
    if i == 0 then INITIAL
    else if i == 1 then State(0, map[], {}, map[0 := Resolve(RACE_HOST, 0, Loaded)], 0, {})
    else if i == 2 then State(0, map[], {}, map[0 := lookup], 0, {})
    else if i == 3 then State(1, map[], {}, map[0 := lookup, 1 := Clear(Bumped)], 0, {})
    else if i == 4 then State(1, map[], {}, map[0 := lookup, 1 := Clear(Invalidated)], 0, {})
    else if i == 5 then State(1, map[], {}, map[0 := lookup], 1, {})
    else if i == 6 then State(1, map[RACE_HOST := 0], {}, map[0 := Resolve(RACE_HOST, 0, Answered)], 1, {})
    else State(1, map[RACE_HOST := 0], {}, map[], 1, {RACE_HOST})
  }

  lemma DroppedStep(i: nat)
    requires i < |DROPPED|
    ensures Enabled(DroppedState(i), DROPPED[i])
    ensures Apply(DroppedState(i), DROPPED[i]) == DroppedState(i + 1)
  {
    var a, b := Apply(DroppedState(i), DROPPED[i]), DroppedState(i + 1);
    assert a.tasks == b.tasks;
    assert a.cache == b.cache;
    assert a.refreshing == b.refreshing && a.orphans == b.orphans;
  }

  lemma {:induction false} DroppedRuns(i: nat)
    requires i <= |DROPPED|
    ensures Exec(INITIAL, DROPPED[..i]) == Some(DroppedState(i))
  {
    if i > 0 {
      DroppedRuns(i - 1);
      DroppedStep(i - 1);
      ExecOneMore(DROPPED, i - 1, DroppedState(i - 1));
    }
  }

  /**
   * Nor does the re-check of a lookup help when its future is dropped before it: the answer of a lookup begun before a
   * whole `clear_cache` and cached after it stays.
   */
  lemma DroppedLookupLeavesAStaleEntry()
    ensures Exec(INITIAL, DROPPED) == Some(State(1, map[RACE_HOST := 0], {}, map[], 1, {RACE_HOST}))
    ensures AtRest(Exec(INITIAL, DROPPED).value) && !Clean(Exec(INITIAL, DROPPED).value)
  {
    DroppedRuns(|DROPPED|);
    assert DROPPED[..|DROPPED|] == DROPPED;
    assert RACE_HOST in Exec(INITIAL, DROPPED).value.cache;
  }

  // ------------------------------------------------------------- single flight

  /** The refreshes in flight for a host. */
  function Refreshes(s: State, host: Host): set<TaskId> {
    set id | id in s.tasks && s.tasks[id].Refresh? && s.tasks[id].host == host
  }

  function Marked(s: State, host: Host): nat {
    if host in s.refreshing then 1 else 0
  }

  predicate SingleFlight(s: State, host: Host) {
    && |Refreshes(s, host)| <= s.clears + Marked(s, host)
    && (host in s.refreshing ==> Refreshes(s, host) != {})
  }

  lemma RefreshesChange(s: State, step: Step, host: Host)
    requires Enabled(s, step)
    ensures Refreshes(Apply(s, step), host)
            == if step.StaleMark? && s.tasks[step.id].host == host && host !in s.refreshing
               then Refreshes(s, host) + {step.id}
               else if step.RefreshFinish? && s.tasks[step.id].host == host then Refreshes(s, host) - {step.id}
               else Refreshes(s, host)
  {
  }

  lemma SingleFlightKept(s: State, step: Step, host: Host)
    requires SingleFlight(s, host) && Enabled(s, step)
    ensures SingleFlight(Apply(s, step), host)
  {
    RefreshesChange(s, step, host);
    if step.RefreshFinish? && s.tasks[step.id].host == host {
      assert step.id in Refreshes(s, host);
    }
  }

  /** At most one refresh per host, plus one for every clear; a marker is never left without a refresh behind it. */
  lemma {:induction false} EveryRunRefreshesOnce(schedule: seq<Step>, host: Host)
    requires Exec(INITIAL, schedule).Some?
    ensures var s := Exec(INITIAL, schedule).value;
            && |Refreshes(s, host)| <= s.clears + Marked(s, host)
            && (host in s.refreshing ==> Refreshes(s, host) != {})
  {
    if schedule == [] {
      assert Refreshes(INITIAL, host) == {};
    } else {
      var front := schedule[..|schedule| - 1];
      EveryRunRefreshesOnce(front, host);
      SingleFlightKept(Exec(INITIAL, front).value, schedule[|schedule| - 1], host);
    }
  }

  /** So a host is never blocked for good: at rest no marker is left and a stale hit may refresh again. */
  lemma NeverBlockedForGood(schedule: seq<Step>, host: Host)
    requires Exec(INITIAL, schedule).Some? && AtRest(Exec(INITIAL, schedule).value)
    ensures host !in Exec(INITIAL, schedule).value.refreshing
  {
    EveryRunRefreshesOnce(schedule, host);
    assert Refreshes(Exec(INITIAL, schedule).value, host) == {};
  }

  // ------------------------------------------------------------- which schedules leave a stale entry

  /** The step writes or removes the entry of this host. */
  predicate Touches(s: State, step: Step, host: Host)
    requires Enabled(s, step)
  {
    match step
    case ResolveInsert(id) => s.tasks[id].host == host
    case RefreshInsert(id) => s.tasks[id].host == host
    case ResolveInvalidate(id) => s.tasks[id].host == host
    case ClearInvalidate(_) => true
    case Evict(h) => h == host
    case _ => false
  }

  /**
   * Since a step of the run last wrote or removed this host's entry, nothing is left to remove it: that step was an
   * overtaken insert, or a lookup about to remove the entry has been dropped since.
   */
  ghost predicate LeftBehind(schedule: seq<Step>, host: Host)
    requires Exec(INITIAL, schedule).Some?
  {
    if schedule == [] then false
    else
      var n := |schedule| - 1;
      var s := Exec(INITIAL, schedule[..n]).value;
      if Touches(s, schedule[n], host) then OvertakenInsert(schedule, n)
      else (AbandonedRemoval(schedule, n) && s.tasks[schedule[n].id].host == host) || LeftBehind(schedule[..n], host)
  }

  lemma {:induction false} OrphanedExactly(schedule: seq<Step>, host: Host)
    requires Exec(INITIAL, schedule).Some?
    ensures host in Exec(INITIAL, schedule).value.orphans <==> LeftBehind(schedule, host)
  {
    if schedule != [] {
      var n := |schedule| - 1;
      OrphanedExactly(schedule[..n], host);
      OrphanedByAStep(Exec(INITIAL, schedule[..n]).value, schedule[n], host);
    }
  }

  lemma OrphanedByAStep(s: State, step: Step, host: Host)
    requires Enabled(s, step)
    ensures host in Apply(s, step).orphans
            <==> if Touches(s, step, host) then InsertsLate(s, step)
                 else (AbandonsRemoval(s, step) && s.tasks[step.id].host == host) || host in s.orphans
  {
  }

  /** Main result: a run at rest has a clean cache unless, for some host, an old entry was left behind. */
  lemma CleanUnlessLeftBehind(schedule: seq<Step>)
    requires Exec(INITIAL, schedule).Some? && AtRest(Exec(INITIAL, schedule).value)
    ensures Clean(Exec(INITIAL, schedule).value) <==> forall host :: !LeftBehind(schedule, host)
  {
    CleanAtRestExactly(schedule);
    var orphans := Exec(INITIAL, schedule).value.orphans;
    if orphans != {} {
      var host :| host in orphans;
      OrphanedExactly(schedule, host);
      assert LeftBehind(schedule, host);
    } else {
      forall host ensures !LeftBehind(schedule, host) {
        OrphanedExactly(schedule, host);
      }
    }
  }

  // ------------------------------------------------------------- the resolver, changed in place

  /** The resolver's shared fields; each method is one atomic stretch of `resolve_zero_port` or `clear_cache`. */
  class HickoryDnsResolver {
    var generation: nat
    var cache: map<Host, nat>
    var refreshing: set<Host>
    var tasks: map<TaskId, Task>      // the local state of every running task
    ghost var clears: nat
    ghost var orphans: set<Host>

    ghost function Model(): State
      reads this
    {
      State(generation, cache, refreshing, tasks, clears, orphans)
    }

    constructor ()
      ensures Model() == INITIAL
    {
      generation := 0;
      cache := map[];
      refreshing := {};
      tasks := map[];
      clears := 0;
      orphans := {};
    }

    method LoadGeneration(id: TaskId, host: Host)
      requires Enabled(Model(), ResolveStart(id, host))
      modifies this
      ensures Model() == Apply(old(Model()), ResolveStart(id, host))
    {
      tasks := tasks[id := Resolve(host, generation, Loaded)];
    }

    /** A stale entry is served at once; the generation is loaded before the marker is tried. */
    method ServeStale(id: TaskId, host: Host)
      requires Enabled(Model(), StaleHit(id, host))
      modifies this
      ensures Model() == Apply(old(Model()), StaleHit(id, host))
    {
      tasks := tasks[id := Resolve(host, generation, StaleSeen)];
    }

    method BeginLookup(id: TaskId)
      requires Enabled(Model(), ResolveLookup(id))
      modifies this
      ensures Model() == Apply(old(Model()), ResolveLookup(id))
    {
      tasks := tasks[id := tasks[id].(at := LookingUp(generation))];
    }

    /** `try_get_with`: a lookup of its own is inserted; a cached, shared or failed one inserts nothing. */
    method FinishLookup(id: TaskId, own: bool)
      requires Enabled(Model(), if own then ResolveInsert(id) else ResolveAnswer(id))
      modifies this
      ensures Model() == Apply(old(Model()), if own then ResolveInsert(id) else ResolveAnswer(id))
    {
      var task := tasks[id];
      if own {
        cache := cache[task.host := task.at.begun];
        orphans := orphans - {task.host};
      }
      tasks := tasks[id := task.(at := Answered)];
    }

    method RecheckGeneration(id: TaskId)
      requires Enabled(Model(), ResolveCheck(id))
      modifies this
      ensures Model() == Apply(old(Model()), ResolveCheck(id))
    {
      if generation != tasks[id].gen {
        tasks := tasks[id := tasks[id].(at := MustInvalidate)];
      } else {
        tasks := tasks - {id};
      }
    }

    method InvalidateEntry(id: TaskId)
      requires Enabled(Model(), ResolveInvalidate(id))
      modifies this
      ensures Model() == Apply(old(Model()), ResolveInvalidate(id))
    {
      cache := cache - {tasks[id].host};
      orphans := orphans - {tasks[id].host};
      tasks := tasks - {id};
    }

    /** The future of a lookup is dropped where it awaits. */
    method DropLookup(id: TaskId)
      requires Enabled(Model(), ResolveCancel(id))
      modifies this
      ensures Model() == Apply(old(Model()), ResolveCancel(id))
    {
      if AbandonsRemoval(Model(), ResolveCancel(id)) {
        orphans := orphans + {tasks[id].host};
      }
      tasks := tasks - {id};
    }

    /** `refreshing.lock().insert(key)`: only the lookup that sets the marker spawns a refresh. */
    method TryRefresh(id: TaskId) returns (spawned: bool)
      requires Enabled(Model(), StaleMark(id))
      modifies this
      ensures Model() == Apply(old(Model()), StaleMark(id))
      ensures spawned <==> old(tasks[id].host) !in old(refreshing)
    {
      var task := tasks[id];
      spawned := task.host !in refreshing;
      if spawned {
        refreshing := refreshing + {task.host};
        tasks := tasks[id := Refresh(task.host, task.gen, Spawned)];
      } else {
        tasks := tasks - {id};
      }
    }

    method RefreshStepOn(id: TaskId, ok: bool)
      requires id in tasks && tasks[id].Refresh?
      modifies this
      ensures Model() == Apply(old(Model()), NextOfRefresh(id, old(tasks[id].now), ok))
    {
      var task := tasks[id];
      match task.now {
        case Spawned =>
          tasks := tasks[id := task.(now := Querying(generation))];
        case Querying(begun) =>
          tasks := tasks[id := task.(now := if ok then Found(begun) else Finishing)];
        case Found(begun) =>
          tasks := tasks[id := task.(now := if generation == task.gen then Checked(begun) else Finishing)];
        case Checked(begun) =>
          cache := cache[task.host := begun];
          orphans := if task.gen != generation then orphans + {task.host} else orphans - {task.host};
          tasks := tasks[id := task.(now := Finishing)];
        case Finishing =>
          refreshing := refreshing - {task.host};
          tasks := tasks - {id};
      }
    }

    method BumpGeneration(id: TaskId)
      requires Enabled(Model(), ClearBump(id))
      modifies this
      ensures Model() == Apply(old(Model()), ClearBump(id))
    {
      generation := generation + 1;
      tasks := tasks[id := Clear(Bumped)];
    }

    method InvalidateAll(id: TaskId)
      requires Enabled(Model(), Step.ClearInvalidate(id))
      modifies this
      ensures Model() == Apply(old(Model()), Step.ClearInvalidate(id))
    {
      cache := map[];
      orphans := {};
      tasks := tasks[id := Clear(Invalidated)];
    }

    method ReleaseMarkers(id: TaskId)
      requires Enabled(Model(), Step.ClearMarkers(id))
      modifies this
      ensures Model() == Apply(old(Model()), Step.ClearMarkers(id))
    {
      refreshing := {};
      clears := clears + 1;
      tasks := tasks - {id};
    }
  }

  /** What a refresh does next; `ok` is the outcome of its query. */
  function NextOfRefresh(id: TaskId, now: RefreshStep, ok: bool): Step {
    match now
    case Spawned => RefreshQuery(id)
    case Querying(_) => RefreshAnswer(id, ok)
    case Found(_) => RefreshCheck(id)
    case Checked(_) => Step.RefreshInsert(id)
    case Finishing => Step.RefreshFinish(id)
  }
}
