/**
 * The grammar of a client's observable run: commands taken from the channel, events emitted, and what a session hears:
 * the ticks that fire, and the pongs and data frames that arrive. The automaton is what the connection manager is
 * proved to follow; the lemmas say what following it means.
 */
module EventGrammar {
  import opened Prelude
  import opened WsTypes
  import opened MessageCodec
  import Heartbeat
  import Reconnect

  /** What a session's stream gives: a tick or pong for the heartbeat, or a data frame. */
  datatype Given = Pulse(signal: Heartbeat.Signal) | Arrived(frame: Frame)

  datatype Observation =
    | Took(command: Command)
    | Emitted(event: Event)
    | Heard(given: Given)

  type Trace = seq<Observation>

  /**
   * `Gap` is the time between two sessions: the url last connected, the last backoff attempt announced since the
   * backoff was reset, whether a network change lets the next session use another endpoint, whether the immediate
   * reconnect is still to be announced, and whether an attempt is announced and may therefore succeed.
   */
  datatype Phase =
    | Start
    | Session(url: Url)
    | Leaving(url: Url)
    | Gap(url: Url, attempt: nat, roaming: bool, immediate: bool, announced: bool)
    | Closed
    | Illegal

  function OnSession(config: ClientConfig, url: Url, o: Observation): Phase {
    match o
    case Took(Text(_)) => Session(url)
    case Took(Binary(_)) => Session(url)
    case Took(Close(_, _)) => Closed
    case Took(NetworkChanged) => Leaving(url)
    case Heard(given) =>
      if given.Arrived? || given.signal.Pong? || config.heartbeat.Some? then Session(url) else Illegal
    case Emitted(Message(_, _)) => Session(url)
    case Emitted(Error(_)) => Session(url)
    case Emitted(HeartbeatRtt(_)) => if config.heartbeat.Some? then Session(url) else Illegal
    case Emitted(Disconnected(_, _)) => Gap(url, 0, false, false, false)
    case _ => Illegal
  }

  function OnGap(config: ClientConfig, p: Phase, o: Observation): Phase
    requires p.Gap?
  {
    match o
    case Took(Text(_)) => p
    case Took(Binary(_)) => p
    case Took(Close(_, _)) => Closed
    case Took(NetworkChanged) => p.(attempt := 0, roaming := true)
    case Emitted(Error(_)) => p
    case Emitted(Reconnecting(n, delay)) =>
      if n == 0 then
        if p.immediate && delay == 0 then p.(immediate := false, announced := true) else Illegal
      else if !p.immediate && config.reconnect.Some? && n == p.attempt + 1 <= config.reconnect.value.maxAttempts
      then p.(attempt := n, announced := true)
      else Illegal
    case Emitted(Disconnected(code, reason)) =>
      if p.announced && code == 1006 && (reason == ReplayFailed || reason == ReplayTimeout)
      then p.(announced := false)
      else Illegal
    case Emitted(Connected(url, _)) =>
      if p.announced && (url == p.url || (p.roaming && url in config.urls)) then Session(url) else Illegal
    case _ => Illegal
  }

  function Move(config: ClientConfig, p: Phase, o: Observation): Phase {
    match p
    case Start => if o.Emitted? && o.event.Connected? then Session(o.event.url) else Illegal
    case Session(url) => OnSession(config, url, o)
    case Leaving(url) =>
      if o == Emitted(Disconnected(1006, NetworkSwitch)) then Gap(url, 0, true, true, false) else Illegal
    case Gap(_, _, _, _, _) => OnGap(config, p, o)
    case Closed => Illegal
    case Illegal => Illegal
  }

  /** The commands taken, in the order the trace shows them. */
  function Taken(trace: Trace): seq<Command> {
    if trace == [] then []
    else
      Taken(trace[..|trace| - 1]) + if trace[|trace| - 1].Took? then [trace[|trace| - 1].command] else []
  }

  function After(config: ClientConfig, trace: Trace): Phase {
    if trace == [] then Start else Move(config, After(config, trace[..|trace| - 1]), trace[|trace| - 1])
  }

  predicate Legal(config: ClientConfig, trace: Trace) {
    !After(config, trace).Illegal?
  }

  lemma AfterSnoc(config: ClientConfig, trace: Trace, o: Observation)
    ensures After(config, trace + [o]) == Move(config, After(config, trace), o)
  {
    assert (trace + [o])[..|trace|] == trace;
  }

  lemma StepAt(config: ClientConfig, trace: Trace, i: nat)
    requires i < |trace|
    ensures After(config, trace[..i + 1]) == Move(config, After(config, trace[..i]), trace[i])
  {
    assert trace[..i + 1] == trace[..i] + [trace[i]];
    AfterSnoc(config, trace[..i], trace[i]);
  }

  lemma {:induction false} PrefixLegal(config: ClientConfig, trace: Trace, i: nat)
    requires Legal(config, trace) && i <= |trace|
    ensures Legal(config, trace[..i])
  {
    if i == |trace| {
      assert trace[..i] == trace;
    } else {
      assert trace[..|trace| - 1][..i] == trace[..i];
      PrefixLegal(config, trace[..|trace| - 1], i);
    }
  }

  /** One legal step in context: what the automaton allows at position i. */
  lemma LegalStep(config: ClientConfig, trace: Trace, i: nat) returns (before: Phase, after: Phase)
    requires Legal(config, trace) && i < |trace|
    ensures before == After(config, trace[..i]) && after == After(config, trace[..i + 1])
    ensures after == Move(config, before, trace[i]) && !before.Illegal? && !after.Illegal?
  {
    PrefixLegal(config, trace, i);
    PrefixLegal(config, trace, i + 1);
    StepAt(config, trace, i);
    before, after := After(config, trace[..i]), After(config, trace[..i + 1]);
  }

  // ------------------------------------------------------------- positions of events

  predicate IsConnected(o: Observation) { o.Emitted? && o.event.Connected? }

  predicate IsDisconnected(o: Observation) { o.Emitted? && o.event.Disconnected? }

  predicate IsReconnecting(o: Observation) { o.Emitted? && o.event.Reconnecting? }

  predicate IsBackoff(o: Observation) { IsReconnecting(o) && o.event.attempt > 0 }

  predicate IsTraffic(o: Observation) { o.Emitted? && (o.event.Message? || o.event.HeartbeatRtt?) }

  predicate IsNetworkChange(o: Observation) { o == Took(NetworkChanged) }

  predicate IsClose(o: Observation) { o.Took? && o.command.Close? }

  /** Session i is open at position j: opened by a Connected there and not ended by a Disconnected since. */
  ghost predicate SessionOpen(trace: Trace, i: nat, j: nat) {
    && i < j <= |trace|
    && IsConnected(trace[i])
    && (forall m :: i < m < j ==> !IsDisconnected(trace[m]) && !IsConnected(trace[m]))
  }

  lemma {:induction false} WhoOpenedTheSession(config: ClientConfig, trace: Trace, j: nat) returns (i: nat)
    requires Legal(config, trace) && j <= |trace|
    requires After(config, trace[..j]).Session? || After(config, trace[..j]).Leaving?
    ensures SessionOpen(trace, i, j)
    ensures trace[i].event.url == After(config, trace[..j]).url
  {
    var before, after := LegalStep(config, trace, j - 1);
    if before.Session? {
      i := WhoOpenedTheSession(config, trace, j - 1);
    } else {
      i := j - 1;
    }
  }

  /** Messages and round-trip times are only reported inside a session, and not once a close was requested. */
  lemma TrafficOnlyInSession(config: ClientConfig, trace: Trace, j: nat) returns (i: nat)
    requires Legal(config, trace) && j < |trace| && IsTraffic(trace[j])
    ensures SessionOpen(trace, i, j)
    ensures forall m :: i < m < j ==> !IsNetworkChange(trace[m]) && !IsClose(trace[m])
  {
    var before, _ := LegalStep(config, trace, j);
    i := WhoOpenedTheSession(config, trace, j);
    forall m | i < m < j ensures !IsNetworkChange(trace[m]) && !IsClose(trace[m]) {
      NetworkChangeEnds(config, trace, i, m);
      CloseEndsTheRun(config, trace, m);
    }
  }

  lemma CloseEndsTheRun(config: ClientConfig, trace: Trace, m: nat)
    requires Legal(config, trace) && m < |trace|
    ensures IsClose(trace[m]) ==> m == |trace| - 1
  {
    if IsClose(trace[m]) {
      NothingAfterClose(config, trace, m);
    }
  }

  /** After a network change in a session comes its Disconnected. */
  lemma NetworkChangeEnds(config: ClientConfig, trace: Trace, i: nat, m: nat)
    requires Legal(config, trace) && m + 1 < |trace| && SessionOpen(trace, i, m)
    ensures IsNetworkChange(trace[m]) ==> IsDisconnected(trace[m + 1])
  {
    if IsNetworkChange(trace[m]) {
      SessionStaysOpen(config, trace, i, m);
      var _, left := LegalStep(config, trace, m);
      var _, gone := LegalStep(config, trace, m + 1);
    }
  }

  lemma {:induction false} SessionStaysOpen(config: ClientConfig, trace: Trace, i: nat, j: nat)
    requires Legal(config, trace) && j < |trace| && SessionOpen(trace, i, j)
    ensures After(config, trace[..j]).Session? || After(config, trace[..j]).Leaving?
    decreases j
  {
    var before, after := LegalStep(config, trace, j - 1);
    var _, _ := LegalStep(config, trace, j);
    if j - 1 > i {
      SessionStaysOpen(config, trace, i, j - 1);
    }
  }

  /** A requested close is the last thing observed: nothing is emitted and nothing is taken after it. */
  lemma NothingAfterClose(config: ClientConfig, trace: Trace, i: nat)
    requires Legal(config, trace) && i < |trace|
    requires trace[i].Took? && trace[i].command.Close?
    ensures i == |trace| - 1
  {
    var _, after := LegalStep(config, trace, i);
    if i < |trace| - 1 {
      var _, _ := LegalStep(config, trace, i + 1);
    }
  }

  lemma IntoTheGap(config: ClientConfig, p: Phase, o: Observation)
    requires Move(config, p, o).Gap?
    ensures if IsDisconnected(o) then !Move(config, p, o).announced
            else p.Gap? && !IsConnected(o) && (Move(config, p, o).announced ==> p.announced || IsReconnecting(o))
  {
  }

  /** In a gap, a Disconnected lies behind; if an attempt is announced, a Reconnecting follows the last of them. */
  lemma {:induction false} HowTheGapArose(config: ClientConfig, trace: Trace, j: nat) returns (d: nat, r: nat)
    requires Legal(config, trace) && j <= |trace| && After(config, trace[..j]).Gap?
    ensures d < j && IsDisconnected(trace[d])
    ensures forall m :: d < m < j ==> !IsDisconnected(trace[m]) && !IsConnected(trace[m])
    ensures After(config, trace[..j]).announced ==> d < r < j && IsReconnecting(trace[r])
  {
    var before, after := LegalStep(config, trace, j - 1);
    IntoTheGap(config, before, trace[j - 1]);
    d, r := j - 1, 0;
    if !IsDisconnected(trace[j - 1]) {
      d, r := HowTheGapArose(config, trace, j - 1);
      if IsReconnecting(trace[j - 1]) {
        r := j - 1;
      }
    }
  }

  /** Between two sessions there is a Disconnected and, after the last of them, a Reconnecting. */
  lemma SessionsAreSeparated(config: ClientConfig, trace: Trace, i: nat, j: nat) returns (d: nat, r: nat)
    requires Legal(config, trace) && i < j < |trace|
    requires IsConnected(trace[i]) && IsConnected(trace[j])
    ensures i < d < r < j && IsDisconnected(trace[d]) && IsReconnecting(trace[r])
    ensures forall m :: d < m < j ==> !IsDisconnected(trace[m])
  {
    var _, start := LegalStep(config, trace, i);
    var before, _ := LegalStep(config, trace, j);
    if before.Start? {
      NotBackToStart(config, trace, j);
    }
    d, r := HowTheGapArose(config, trace, j);
  }

  lemma NotBackToStart(config: ClientConfig, trace: Trace, j: nat)
    requires Legal(config, trace) && 0 < j <= |trace|
    ensures !After(config, trace[..j]).Start?
  {
    var _, _ := LegalStep(config, trace, j - 1);
  }

  // ------------------------------------------------------------- backoff numbering

  function CountBackoffs(trace: Trace): nat {
    if trace == [] then 0
    else CountBackoffs(trace[..|trace| - 1]) + if IsBackoff(trace[|trace| - 1]) then 1 else 0
  }

  function CountNetworkChanges(trace: Trace): nat {
    if trace == [] then 0
    else CountNetworkChanges(trace[..|trace| - 1]) + if IsNetworkChange(trace[|trace| - 1]) then 1 else 0
  }

  /** The attempt number last announced in this stretch since the last network change, 0 if none. */
  function LastAttempt(trace: Trace): nat {
    if trace == [] then 0
    else
      var o := trace[|trace| - 1];
      if IsBackoff(o) then o.event.attempt
      else if IsNetworkChange(o) then 0
      else LastAttempt(trace[..|trace| - 1])
  }

  /** A stretch of the trace within one gap: it follows the end of a session and no new one begins in it. */
  ghost predicate WithinGap(config: ClientConfig, before: Trace, gap: Trace) {
    && Legal(config, before + gap)
    && (After(config, before).Session? || After(config, before).Leaving?)
    && gap != [] && IsDisconnected(gap[0])
    && (forall m :: 0 <= m < |gap| ==> !IsConnected(gap[m]))
    && !After(config, before + gap).Closed?
  }

  lemma GapShrinks(config: ClientConfig, before: Trace, gap: Trace)
    requires WithinGap(config, before, gap) && |gap| > 1
    ensures WithinGap(config, before, gap[..|gap| - 1])
    ensures After(config, before + gap)
            == Move(config, After(config, before + gap[..|gap| - 1]), gap[|gap| - 1])
  {
    var front := gap[..|gap| - 1];
    assert before + gap == (before + front) + [gap[|gap| - 1]];
    AfterSnoc(config, before + front, gap[|gap| - 1]);
  }

  /** Backoff attempts count on from the last one announced, and restart only because a network change was taken. */
  lemma {:induction false} GapTracksAttempts(config: ClientConfig, before: Trace, gap: Trace)
    requires WithinGap(config, before, gap)
    ensures After(config, before + gap).Gap?
    ensures After(config, before + gap).attempt == LastAttempt(gap)
  {
    if |gap| == 1 {
      AfterSnoc(config, before, gap[0]);
      assert before + gap == before + [gap[0]];
    } else {
      GapShrinks(config, before, gap);
      GapTracksAttempts(config, before, gap[..|gap| - 1]);
    }
  }

  lemma BackoffNumbering(config: ClientConfig, before: Trace, gap: Trace, attempt: nat, delay: nat)
    requires WithinGap(config, before, gap)
    requires Legal(config, before + gap + [Emitted(Reconnecting(attempt, delay))]) && attempt > 0
    ensures attempt == LastAttempt(gap) + 1
    ensures config.reconnect.Some? && attempt <= config.reconnect.value.maxAttempts
  {
    GapTracksAttempts(config, before, gap);
    AfterSnoc(config, before + gap, Emitted(Reconnecting(attempt, delay)));
  }

  /** `max` announcements for each network change taken. */
  function Budget(max: nat, changes: nat): (budget: nat)
    ensures budget == max * changes
  {
    if changes == 0 then 0 else Budget(max, changes - 1) + max
  }

  lemma {:induction false} BackoffsWithinBudget(config: ClientConfig, before: Trace, gap: Trace)
    requires WithinGap(config, before, gap)
    ensures config.reconnect.None? ==> CountBackoffs(gap) == 0
    ensures config.reconnect.Some? ==>
              && LastAttempt(gap) <= config.reconnect.value.maxAttempts
              && CountBackoffs(gap)
                 <= Budget(config.reconnect.value.maxAttempts, CountNetworkChanges(gap)) + LastAttempt(gap)
  {
    if |gap| > 1 {
      var front, o := gap[..|gap| - 1], gap[|gap| - 1];
      GapShrinks(config, before, gap);
      GapTracksAttempts(config, before, front);
      BackoffsWithinBudget(config, before, front);
    }
  }

  /** A gap in which k network changes are taken announces at most max_attempts * (k + 1) backoff attempts. */
  lemma BackoffsAreBounded(config: ClientConfig, before: Trace, gap: Trace)
    requires WithinGap(config, before, gap)
    requires config.reconnect.Some?
    ensures CountBackoffs(gap) <= config.reconnect.value.maxAttempts * (CountNetworkChanges(gap) + 1)
  {
    BackoffsWithinBudget(config, before, gap);
    assert Budget(config.reconnect.value.maxAttempts, CountNetworkChanges(gap) + 1)
        == Budget(config.reconnect.value.maxAttempts, CountNetworkChanges(gap)) + config.reconnect.value.maxAttempts;
  }

  /** The delay announced with a backoff attempt is the one its number calls for. */
  ghost predicate DelayFits(config: ClientConfig, o: Observation) {
    IsBackoff(o) ==>
      && config.reconnect.Some?
      && o.event.delayMs == Reconnect.BackoffDelay(config.reconnect.value, o.event.attempt)
  }

  /** With a multiplier of at least one, the delays announced between two network changes never shrink. */
  lemma DelaysGrowWithinGap(config: ClientConfig, before: Trace, gap: Trace, attempt: nat, delay: nat, i: nat)
    requires WithinGap(config, before, gap)
    requires Legal(config, before + gap + [Emitted(Reconnecting(attempt, delay))]) && attempt > 0
    requires DelayFits(config, Emitted(Reconnecting(attempt, delay)))
    requires config.reconnect.Some? && config.reconnect.value.backoffMultiplier >= 1.0
    requires i < |gap| && IsBackoff(gap[i]) && DelayFits(config, gap[i])
    requires forall m :: i < m < |gap| ==> !IsNetworkChange(gap[m])
    ensures gap[i].event.delayMs <= delay && gap[i].event.attempt < attempt
  {
    BackoffNumbering(config, before, gap, attempt, delay);
    LastAttemptGrows(config, before, gap, i);
    Reconnect.BackoffNeverShrinks(config.reconnect.value, gap[i].event.attempt, attempt);
  }

  lemma {:induction false} LastAttemptGrows(config: ClientConfig, before: Trace, gap: Trace, i: nat)
    requires WithinGap(config, before, gap)
    requires i < |gap| && IsBackoff(gap[i])
    requires forall m :: i < m < |gap| ==> !IsNetworkChange(gap[m])
    ensures gap[i].event.attempt <= LastAttempt(gap)
  {
    if i < |gap| - 1 {
      var front := gap[..|gap| - 1];
      GapShrinks(config, before, gap);
      GapTracksAttempts(config, before, front);
      LastAttemptGrows(config, before, front, i);
    }
  }

  // ------------------------------------------------------------- endpoints

  /** The phases in which the client is bound to one endpoint. */
  predicate BoundTo(p: Phase, url: Url) {
    p.Closed? || ((p.Session? || p.Gap?) && p.url == url && (p.Gap? ==> !p.roaming))
  }

  lemma MoveKeepsEndpoint(config: ClientConfig, p: Phase, o: Observation, url: Url)
    requires BoundTo(p, url) && !IsNetworkChange(o) && !Move(config, p, o).Illegal?
    ensures BoundTo(Move(config, p, o), url)
  {
  }

  /** Without a network change in between, a session is resumed on the endpoint of the previous one. */
  lemma {:induction false} EndpointSticks(config: ClientConfig, trace: Trace, i: nat, j: nat)
    requires Legal(config, trace) && i < j <= |trace| && IsConnected(trace[i])
    requires forall m :: i < m < j ==> !IsNetworkChange(trace[m])
    ensures BoundTo(After(config, trace[..j]), trace[i].event.url)
  {
    var before, after := LegalStep(config, trace, j - 1);
    if i < j - 1 {
      EndpointSticks(config, trace, i, j - 1);
      MoveKeepsEndpoint(config, before, trace[j - 1], trace[i].event.url);
    }
  }

  lemma ReconnectsToTheSameEndpoint(config: ClientConfig, trace: Trace, i: nat, j: nat)
    requires Legal(config, trace) && i < j < |trace| && IsConnected(trace[i]) && IsConnected(trace[j])
    requires forall m :: i < m < j ==> !IsNetworkChange(trace[m])
    ensures trace[j].event.url == trace[i].event.url
  {
    EndpointSticks(config, trace, i, j);
    var _, _ := LegalStep(config, trace, j);
  }
}
