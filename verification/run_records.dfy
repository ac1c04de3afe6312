/**
 * What a run's trace shows of its sessions, and what follows for the wire. The marks along a trace carry the
 * automaton's phase, the sessions so far, the heartbeat of the current one and the event it owes; the theorems speak of
 * trace positions and of what the connections were sent and gave.
 */
module RunRecords {
  import opened Prelude
  import opened MessageCodec
  import opened WsTypes
  import opened SessionLog
  import opened EventGrammar
  import Heartbeat

  // ------------------------------------------------------------- the sessions a trace shows

  /** A Connected opens a session; what is taken or heard in it counts for it. */
  function NextSpans(spans: seq<Span>, phase: Phase, taken: nat, o: Observation): seq<Span> {
    if IsConnected(o) then spans + [Span(taken, taken, [])]
    else if spans == [] || !phase.Session? then spans
    else
      match o
      case Took(_) => CountOne(spans)
      case Heard(given) => HearOne(spans, given)
      case Emitted(_) => spans
  }

  // ------------------------------------------------------------- the heartbeat along a trace

  const LOST := Emitted(Disconnected(1006, HeartbeatLost))

  function NextBeat(config: ClientConfig, phase: Phase, beat: Option<Heartbeat.Beat>, o: Observation)
    : Option<Heartbeat.Beat>
  {
    if IsConnected(o) then Some(Heartbeat.FRESH)
    else if o.Heard? && o.given.Pulse? && phase.Session? && beat.Some? && config.heartbeat.Some?
    then Heartbeat.OnSignal(config.heartbeat.value, beat.value, o.given.signal)
    else beat
  }

  /** The ticks and pongs among what was heard. */
  function Pulses(heard: seq<Given>): seq<Heartbeat.Signal> {
    if heard == [] then []
    else
      var last := heard[|heard| - 1];
      Pulses(heard[..|heard| - 1]) + if last.Pulse? then [last.signal] else []
  }

  /** What a session has heard makes of its heartbeat; None once its ticks gave the connection up. */
  function BeatAfter(config: ClientConfig, heard: seq<Given>): Option<Heartbeat.Beat> {
    if config.heartbeat.Some? then Heartbeat.AfterSignals(config.heartbeat.value, Pulses(heard))
    else Some(Heartbeat.FRESH)
  }

  // ------------------------------------------------------------- the events a session owes

  /** The event a data frame gives. */
  function Delivery(codec: CodecConfig, frame: Frame): Event {
    var received := Receive(frame, codec);
    if received.Ok? then Event.Message(received.value.data, received.value.isBinary) else Event.Error(DecodeFailure)
  }

  /**
   * The event a session answers an observation with: a data frame is delivered, a pong reported under a heartbeat, and
   * a message that does not encode reported as such.
   */
  function Answer(config: ClientConfig, beat: Option<Heartbeat.Beat>, o: Observation): Option<Event> {
    match o
    case Heard(Arrived(frame)) => Some(Delivery(config.codec, frame))
    case Heard(Pulse(Pong(now))) =>
      if config.heartbeat.Some? && beat.Some? then Some(HeartbeatRtt(Heartbeat.RoundTrip(beat.value, now))) else None
    case Took(command) =>
      if IsMessage(command) && EncodeCommand(config.codec, command).None? then Some(Event.Error(EncodeFailure))
      else None
    case _ => None
  }

  /** An event that is due comes at once, and no other comes but the end of the session. */
  predicate Answers(due: Option<Event>, o: Observation) {
    if due.Some? then o == Emitted(due.value) else o.Emitted? ==> IsDisconnected(o)
  }

  // ------------------------------------------------------------- marks

  /** Where a run stands after each observation. */
  datatype Mark = Mark(
    phase: Phase,
    taken: nat,
    spans: seq<Span>,
    beat: Option<Heartbeat.Beat>,
    due: Option<Event>
  )

  const OUTSET := Mark(Start, 0, [], Some(Heartbeat.FRESH), None)

  function NextDue(config: ClientConfig, phase: Phase, beat: Option<Heartbeat.Beat>, o: Observation): Option<Event> {
    if phase.Session? then Answer(config, beat, o) else None
  }

  function NextMark(config: ClientConfig, a: Mark, o: Observation): Mark {
    Mark(Move(config, a.phase, o),
         a.taken + (if o.Took? then 1 else 0),
         NextSpans(a.spans, a.phase, a.taken, o),
         NextBeat(config, a.phase, a.beat, o),
         NextDue(config, a.phase, a.beat, o))
  }

  ghost predicate Follows(config: ClientConfig, commands: seq<Command>, a: Mark, o: Observation, b: Mark) {
    && b == NextMark(config, a, o) && !b.phase.Illegal?
    && (o.Took? ==> a.taken < |commands| && o.command == commands[a.taken])
    && (a.phase.Session? ==> (o == LOST <==> a.beat.None?) && Answers(a.due, o))
    && DelayFits(config, o)
  }

  /** The trace is a run of the automaton over the commands in channel order, with these marks along the way. */
  ghost predicate Recorded(config: ClientConfig, commands: seq<Command>, trace: Trace, marks: seq<Mark>) {
    && |marks| == |trace| + 1
    && marks[0] == OUTSET
    && forall i {:trigger trace[i]} :: 0 <= i < |trace| ==> Follows(config, commands, marks[i], trace[i], marks[i + 1])
  }

  lemma RecordedSnoc(config: ClientConfig, commands: seq<Command>, trace: Trace, marks: seq<Mark>, o: Observation)
    requires Recorded(config, commands, trace, marks)
    requires Follows(config, commands, marks[|trace|], o, NextMark(config, marks[|trace|], o))
    ensures Recorded(config, commands, trace + [o], marks + [NextMark(config, marks[|trace|], o)])
  {
  }

  // ------------------------------------------------------------- marks are told by the trace alone

  function Spans(config: ClientConfig, trace: Trace): seq<Span> {
    if trace == [] then []
    else
      var front := trace[..|trace| - 1];
      NextSpans(Spans(config, front), After(config, front), |Taken(front)|, trace[|trace| - 1])
  }

  /** What the session opened last has heard. */
  function LastHeard(spans: seq<Span>): seq<Given> {
    if spans == [] then [] else spans[|spans| - 1].heard
  }

  function BeatOf(config: ClientConfig, trace: Trace): Option<Heartbeat.Beat> {
    BeatAfter(config, LastHeard(Spans(config, trace)))
  }

  function DueAfter(config: ClientConfig, trace: Trace): Option<Event> {
    if trace == [] then None
    else
      var front := trace[..|trace| - 1];
      NextDue(config, After(config, front), BeatOf(config, front), trace[|trace| - 1])
  }

  function MarkAfter(config: ClientConfig, trace: Trace): Mark {
    Mark(After(config, trace), |Taken(trace)|, Spans(config, trace), BeatOf(config, trace), DueAfter(config, trace))
  }

  lemma {:induction false} RecordedTaken(config: ClientConfig, commands: seq<Command>, trace: Trace, marks: seq<Mark>)
    requires Recorded(config, commands, trace, marks)
    ensures marks[|trace|].taken <= |commands| && Taken(trace) == commands[..marks[|trace|].taken]
  {
    if trace != [] {
      var n := |trace| - 1;
      RecordedTaken(config, commands, trace[..n], marks[..n + 1]);
      assert Follows(config, commands, marks[n], trace[n], marks[n + 1]);
    }
  }

  /** The last mark is what the trace alone tells. */
  lemma {:induction false} RecordedRun(config: ClientConfig, commands: seq<Command>, trace: Trace, marks: seq<Mark>)
    requires Recorded(config, commands, trace, marks)
    ensures marks[|trace|] == MarkAfter(config, trace)
  {
    if trace == [] {
      assert marks[0] == OUTSET;
    } else {
      var n := |trace| - 1;
      PrefixRecorded(config, commands, trace, marks, n);
      RecordedRun(config, commands, trace[..n], marks[..n + 1]);
      LastMark(config, commands, trace, marks);
    }
  }

  lemma LastMark(config: ClientConfig, commands: seq<Command>, trace: Trace, marks: seq<Mark>)
    requires Recorded(config, commands, trace, marks) && trace != []
    requires marks[|trace| - 1] == MarkAfter(config, trace[..|trace| - 1])
    ensures marks[|trace|] == MarkAfter(config, trace)
  {
    var n := |trace| - 1;
    assert marks[n + 1] == NextMark(config, marks[n], trace[n]) by {
      assert Follows(config, commands, marks[n], trace[n], marks[n + 1]);
    }
    assert marks[n].phase.Session? ==> marks[n].spans != [] by {
      ShownAt(config, commands, trace, marks, n);
    }
    MarkStep(config, trace[..n], trace[n]);
    assert trace[..n] + [trace[n]] == trace;
  }

  lemma MarkStep(config: ClientConfig, trace: Trace, o: Observation)
    requires After(config, trace).Session? ==> Spans(config, trace) != []
    ensures MarkAfter(config, trace + [o]) == NextMark(config, MarkAfter(config, trace), o)
  {
    StepOn(config, trace, o);
    DueStep(config, trace, o);
    HeardStep(config, Spans(config, trace), After(config, trace), |Taken(trace)|, o);
  }

  lemma StepOn(config: ClientConfig, trace: Trace, o: Observation)
    ensures After(config, trace + [o]) == Move(config, After(config, trace), o)
    ensures |Taken(trace + [o])| == |Taken(trace)| + if o.Took? then 1 else 0
    ensures Spans(config, trace + [o]) == NextSpans(Spans(config, trace), After(config, trace), |Taken(trace)|, o)
  {
    assert (trace + [o])[..|trace|] == trace;
  }

  lemma DueStep(config: ClientConfig, trace: Trace, o: Observation)
    ensures DueAfter(config, trace + [o]) == NextDue(config, After(config, trace), BeatOf(config, trace), o)
  {
    assert (trace + [o])[..|trace|] == trace;
  }

  lemma HeardStep(config: ClientConfig, spans: seq<Span>, phase: Phase, taken: nat, o: Observation)
    requires phase.Session? ==> spans != []
    ensures BeatAfter(config, LastHeard(NextSpans(spans, phase, taken, o)))
         == NextBeat(config, phase, BeatAfter(config, LastHeard(spans)), o)
  {
    if o.Heard? && phase.Session? {
      BeatStep(config, LastHeard(spans), o.given);
    }
  }

  lemma BeatStep(config: ClientConfig, heard: seq<Given>, given: Given)
    ensures BeatAfter(config, heard + [given])
            == if BeatAfter(config, heard).None? || config.heartbeat.None? || given.Arrived?
               then BeatAfter(config, heard)
               else Heartbeat.OnSignal(config.heartbeat.value, BeatAfter(config, heard).value, given.signal)
  {
    var pulses := Pulses(heard);
    assert (heard + [given])[..|heard|] == heard;
    if given.Arrived? {
      assert pulses + [] == pulses;
    } else {
      assert (pulses + [given.signal])[..|pulses|] == pulses;
    }
  }

  lemma PrefixRecorded(config: ClientConfig, commands: seq<Command>, trace: Trace, marks: seq<Mark>, i: nat)
    requires Recorded(config, commands, trace, marks) && i <= |trace|
    ensures Recorded(config, commands, trace[..i], marks[..i + 1])
  {
  }

  lemma MarkAt(config: ClientConfig, commands: seq<Command>, trace: Trace, marks: seq<Mark>, i: nat)
    requires Recorded(config, commands, trace, marks) && i <= |trace|
    ensures marks[i] == MarkAfter(config, trace[..i])
  {
    PrefixRecorded(config, commands, trace, marks, i);
    RecordedRun(config, commands, trace[..i], marks[..i + 1]);
  }

  // ------------------------------------------------------------- how the sessions develop

  /** A session the automaton is in is the last one shown, and has counted everything taken. */
  lemma {:induction false} ShownAt(
    config: ClientConfig, commands: seq<Command>, trace: Trace, marks: seq<Mark>, m: nat)
    requires Recorded(config, commands, trace, marks) && m <= |trace|
    ensures marks[m].phase.Session? ==> marks[m].spans != [] && LastEnd(marks[m].spans) == marks[m].taken
    ensures forall n :: 0 <= n < |marks[m].spans| ==>
              marks[m].spans[n].upto <= marks[m].spans[n].end <= marks[m].taken
  {
    if m > 0 {
      ShownAt(config, commands, trace, marks, m - 1);
      assert Follows(config, commands, marks[m - 1], trace[m - 1], marks[m]);
    }
  }

  function CountConnected(trace: Trace, m: nat): nat
    requires m <= |trace|
  {
    if m == 0 then 0 else CountConnected(trace, m - 1) + if IsConnected(trace[m - 1]) then 1 else 0
  }

  lemma OneMoreIfConnected(spans: seq<Span>, phase: Phase, taken: nat, o: Observation)
    ensures |NextSpans(spans, phase, taken, o)| == |spans| + if IsConnected(o) then 1 else 0
  {
  }

  /** As many sessions as Connected events. */
  lemma {:induction false} OneSessionPerConnected(
    config: ClientConfig, commands: seq<Command>, trace: Trace, marks: seq<Mark>, m: nat)
    requires Recorded(config, commands, trace, marks) && m <= |trace|
    ensures |marks[m].spans| == CountConnected(trace, m)
  {
    if m > 0 {
      OneSessionPerConnected(config, commands, trace, marks, m - 1);
      assert Follows(config, commands, marks[m - 1], trace[m - 1], marks[m]);
      OneMoreIfConnected(marks[m - 1].spans, marks[m - 1].phase, marks[m - 1].taken, trace[m - 1]);
    }
  }

  /** A session opened at position i keeps its place and its beginning, and those before it keep theirs. */
  lemma {:induction false} OpenedAt(
    config: ClientConfig, commands: seq<Command>, trace: Trace, marks: seq<Mark>, i: nat, m: nat)
    requires Recorded(config, commands, trace, marks) && i < m <= |trace| && IsConnected(trace[i])
    ensures var n := |marks[i].spans|;
            && n < |marks[m].spans| && marks[m].spans[..n] == marks[i].spans
            && marks[m].spans[n].upto == marks[i].taken
    decreases m
  {
    assert Follows(config, commands, marks[m - 1], trace[m - 1], marks[m]);
    if i < m - 1 {
      OpenedAt(config, commands, trace, marks, i, m - 1);
    }
  }

  /** Out of a session, the sessions so far are settled, and any later one begins with at least as much taken. */
  lemma {:induction false} SettledAt(
    config: ClientConfig, commands: seq<Command>, trace: Trace, marks: seq<Mark>, p: nat, m: nat)
    requires Recorded(config, commands, trace, marks) && p <= m <= |trace| && !marks[p].phase.Session?
    ensures var before, spans := marks[p].spans, marks[m].spans;
            && |before| <= |spans| && spans[..|before|] == before && marks[p].taken <= marks[m].taken
            && (marks[m].phase.Session? ==> |before| < |spans|)
            && (forall n :: |before| <= n < |spans| ==> spans[n].upto >= marks[p].taken)
    decreases m
  {
    if p < m {
      SettledAt(config, commands, trace, marks, p, m - 1);
      assert Follows(config, commands, marks[m - 1], trace[m - 1], marks[m]);
    }
  }

  /** What a session has counted stays counted. */
  lemma {:induction false} CountedAt(
    config: ClientConfig, commands: seq<Command>, trace: Trace, marks: seq<Mark>, p: nat, m: nat)
    requires Recorded(config, commands, trace, marks) && p <= m <= |trace| && marks[p].spans != []
    ensures var n := |marks[p].spans| - 1;
            && n < |marks[m].spans|
            && marks[m].spans[n].upto == marks[p].spans[n].upto && marks[m].spans[n].end >= marks[p].spans[n].end
    decreases m
  {
    if p < m {
      CountedAt(config, commands, trace, marks, p, m - 1);
      assert Follows(config, commands, marks[m - 1], trace[m - 1], marks[m]);
    }
  }

  /** What was heard among the observations from..to. */
  function HeardIn(trace: Trace, from: nat, to: nat): seq<Given>
    requires to <= |trace|
  {
    if to <= from then []
    else if trace[to - 1].Heard? then HeardIn(trace, from, to - 1) + [trace[to - 1].given]
    else HeardIn(trace, from, to - 1)
  }

  /** While it is not ended, a session opened at position i has counted everything since. */
  lemma {:induction false} OpenUntil(
    config: ClientConfig, commands: seq<Command>, trace: Trace, marks: seq<Mark>, i: nat, e: nat)
    requires Recorded(config, commands, trace, marks) && SessionOpen(trace, i, e)
    ensures marks[e].spans == marks[i].spans + [Span(marks[i].taken, marks[e].taken, HeardIn(trace, i + 1, e))]
    ensures marks[e].phase.Session? || marks[e].phase.Leaving? || marks[e].phase.Closed?
    decreases e
  {
    assert Follows(config, commands, marks[e - 1], trace[e - 1], marks[e]);
    if i < e - 1 {
      OpenUntil(config, commands, trace, marks, i, e - 1);
    }
  }

  /** The session opened at position i and ended at e covers exactly what was taken and heard between them. */
  lemma SessionShown(config: ClientConfig, commands: seq<Command>, trace: Trace, marks: seq<Mark>, i: nat, e: nat)
    requires Recorded(config, commands, trace, marks) && SessionOpen(trace, i, e)
    requires e == |trace| || IsDisconnected(trace[e])
    ensures var n, spans := |marks[i].spans|, marks[|trace|].spans;
            n < |spans| && spans[n] == Span(marks[i].taken, marks[e].taken, HeardIn(trace, i + 1, e))
  {
    OpenUntil(config, commands, trace, marks, i, e);
    if e < |trace| {
      assert Follows(config, commands, marks[e], trace[e], marks[e + 1]);
      SettledAt(config, commands, trace, marks, e + 1, |trace|);
    }
  }

  // ------------------------------------------------------------- conservation, over the trace

  /** The connections of a run are the sessions its trace shows, and those whose replay failed. */
  ghost predicate Kept(
    config: ClientConfig, commands: seq<Command>, trace: Trace, marks: seq<Mark>, history: seq<Connection>)
  {
    && Recorded(config, commands, trace, marks)
    && marks[|trace|].taken <= |commands|
    && WellFormed(config.codec, commands, history)
    && Sessions(history) == marks[|trace|].spans
  }

  /**
   * The session opened at position i begins by sending, in order and without loss, a frame for every encodable
   * command taken since the session before it ended; only then follow the frames of commands taken in it.
   */
  lemma SessionStartsWithTheBacklog(
    config: ClientConfig, commands: seq<Command>, trace: Trace, marks: seq<Mark>, history: seq<Connection>, i: nat)
    returns (k: nat)
    requires Kept(config, commands, trace, marks, history)
    requires i < |trace| && IsConnected(trace[i])
    ensures k < |history| && history[k].live && history[k].upto == marks[i].taken
    ensures |marks[i].spans| < |marks[|trace|].spans| && SpanOf(history[k]) == marks[|trace|].spans[|marks[i].spans|]
    ensures LastEnd(marks[i].spans) <= marks[i].taken <= history[k].end <= |commands|
    ensures var backlog := Carried(config.codec, commands[LastEnd(marks[i].spans)..marks[i].taken]);
            && backlog <= Frames(history[k].log)
            && AllSent(history[k].log[..|backlog|])
            && Frames(history[k].log)[|backlog|..] == Carried(config.codec, commands[marks[i].taken..history[k].end])
  {
    OpenedAt(config, commands, trace, marks, i, |trace|);
    k := NthSession(config.codec, commands, history, |marks[i].spans|);
    assert WellCarried(config.codec, commands, history[k]);
    ReplayComesFirst(config.codec, commands, history[k]);
  }

  /** Connection k carries the command taken at p: as a live one of the session it was taken in, or in the replay. */
  ghost predicate CarriedBy(
    config: ClientConfig, commands: seq<Command>, marks: seq<Mark>, history: seq<Connection>, p: nat, k: nat)
    requires p < |marks| && marks[p].taken < |commands|
  {
    var a := marks[p];
    && k < |history| && DealtWith(config.codec, commands, history, k, a.taken)
    && if a.phase.Session? then a.spans != [] && history[k].upto == a.spans[|a.spans| - 1].upto
       else a.taken < history[k].upto
  }

  /** The j-th command was taken since the last session ended and waits with its frame; no connection carries it. */
  ghost predicate InBacklog(
    codec: CodecConfig, commands: seq<Command>, marks: seq<Mark>, history: seq<Connection>, j: nat)
    requires marks != [] && j < |commands| && EncodeCommand(codec, commands[j]).Some?
  {
    var from, upto := LastEnd(marks[|marks| - 1].spans), marks[|marks| - 1].taken;
    && from <= j < upto <= |commands|
    && EncodeCommand(codec, commands[j]).value in Carried(codec, commands[from..upto])
    && forall k :: 0 <= k < |history| ==> !Carries(history[k], j)
  }

  /**
   * Conservation over a run: an encodable command taken in a session is carried by exactly that session's connection;
   * one taken between sessions is carried by exactly one replay, where it is surely sent, or no session has begun since
   * and it is still in the backlog.
   */
  lemma EveryCommandAccountedFor(
    config: ClientConfig, commands: seq<Command>, trace: Trace, marks: seq<Mark>, history: seq<Connection>, p: nat)
    requires Kept(config, commands, trace, marks, history)
    requires p < |trace| && trace[p].Took? && EncodeCommand(config.codec, trace[p].command).Some?
    ensures marks[p].taken < |commands| && trace[p].command == commands[marks[p].taken]
    ensures marks[p].phase.Session? ==> exists k: nat :: CarriedBy(config, commands, marks, history, p, k)
    ensures !marks[p].phase.Session? ==>
              if marks[p].taken < LastEnd(marks[|trace|].spans)
              then exists k: nat :: CarriedBy(config, commands, marks, history, p, k)
              else InBacklog(config.codec, commands, marks, history, marks[p].taken)
  {
    assert Follows(config, commands, marks[p], trace[p], marks[p + 1]);
    CoveredIsTheLastEnd(history);
    TakenGrows(config, commands, trace, marks, p + 1, |trace|);
    ShownAt(config, commands, trace, marks, |trace|);
    if marks[p].phase.Session? {
      TakenInSession(config, commands, trace, marks, history, p);
    } else if marks[p].taken < Covered(history) {
      TakenBetweenSessions(config, commands, trace, marks, history, p);
    } else {
      StillWaiting(config, commands, trace, marks, history, marks[p].taken);
    }
  }

  lemma {:induction false} TakenGrows(
    config: ClientConfig, commands: seq<Command>, trace: Trace, marks: seq<Mark>, p: nat, m: nat)
    requires Recorded(config, commands, trace, marks) && p <= m <= |trace|
    ensures marks[p].taken <= marks[m].taken
    decreases m
  {
    if p < m {
      TakenGrows(config, commands, trace, marks, p, m - 1);
      assert Follows(config, commands, marks[m - 1], trace[m - 1], marks[m]);
    }
  }

  lemma TakenInSession(
    config: ClientConfig, commands: seq<Command>, trace: Trace, marks: seq<Mark>, history: seq<Connection>, p: nat)
    requires Kept(config, commands, trace, marks, history)
    requires p < |trace| && trace[p].Took? && marks[p].phase.Session?
    requires marks[p].taken < |commands| && EncodeCommand(config.codec, commands[marks[p].taken]).Some?
    ensures exists k: nat :: CarriedBy(config, commands, marks, history, p, k)
  {
    SessionTakes(config, commands, trace, marks, p);
    var k := NthSession(config.codec, commands, history, |marks[p].spans| - 1);
    CarrierDealsWith(config.codec, commands, history, k, marks[p].taken);
    assert CarriedBy(config, commands, marks, history, p, k);
  }

  /** A command taken in a session is counted by that session, and stays so. */
  lemma SessionTakes(config: ClientConfig, commands: seq<Command>, trace: Trace, marks: seq<Mark>, p: nat)
    requires Recorded(config, commands, trace, marks)
    requires p < |trace| && trace[p].Took? && marks[p].phase.Session?
    ensures var n, spans := |marks[p].spans| - 1, marks[|trace|].spans;
            && 0 <= n < |spans| && spans[n].upto == marks[p].spans[n].upto
            && spans[n].upto <= marks[p].taken < spans[n].end
  {
    ShownAt(config, commands, trace, marks, p);
    assert Follows(config, commands, marks[p], trace[p], marks[p + 1]);
    CountedAt(config, commands, trace, marks, p + 1, |trace|);
  }

  lemma TakenBetweenSessions(
    config: ClientConfig, commands: seq<Command>, trace: Trace, marks: seq<Mark>, history: seq<Connection>, p: nat)
    requires Kept(config, commands, trace, marks, history)
    requires p < |trace| && trace[p].Took? && !marks[p].phase.Session?
    requires marks[p].taken < Covered(history) <= marks[|trace|].taken
    requires EncodeCommand(config.codec, commands[marks[p].taken]).Some?
    ensures exists k: nat :: CarriedBy(config, commands, marks, history, p, k)
  {
    var j := marks[p].taken;
    EveryCommandCarriedOnce(config.codec, commands, history, marks[|trace|].taken, j);
    var k: nat :| k < |history| && DealtWith(config.codec, commands, history, k, j);
    InNoSession(config, commands, trace, marks, p);
    SpanIsShown(history, k);
    assert CarriedBy(config, commands, marks, history, p, k);
  }

  lemma StillWaiting(
    config: ClientConfig, commands: seq<Command>, trace: Trace, marks: seq<Mark>, history: seq<Connection>, j: nat)
    requires Kept(config, commands, trace, marks, history)
    requires Covered(history) <= j < marks[|trace|].taken && EncodeCommand(config.codec, commands[j]).Some?
    ensures InBacklog(config.codec, commands, marks, history, j)
  {
    CoveredIsTheLastEnd(history);
    EveryCommandCarriedOnce(config.codec, commands, history, marks[|trace|].taken, j);
  }

  /** A command taken outside a session lies in none of the stretches the sessions count. */
  lemma InNoSession(config: ClientConfig, commands: seq<Command>, trace: Trace, marks: seq<Mark>, p: nat)
    requires Recorded(config, commands, trace, marks)
    requires p < |trace| && trace[p].Took? && !marks[p].phase.Session?
    ensures forall span <- marks[|trace|].spans :: !(span.upto <= marks[p].taken < span.end)
  {
    assert Follows(config, commands, marks[p], trace[p], marks[p + 1]);
    SettledAt(config, commands, trace, marks, p + 1, |trace|);
    ShownAt(config, commands, trace, marks, p);
    var before, spans := marks[p].spans, marks[|trace|].spans;
    forall n | 0 <= n < |spans| ensures !(spans[n].upto <= marks[p].taken < spans[n].end) {
      assert n < |before| ==> spans[n] == before[n];
    }
  }

  lemma {:induction false} SpanIsShown(history: seq<Connection>, k: nat)
    requires k < |history| && history[k].live
    ensures SpanOf(history[k]) in Sessions(history)
  {
    if k < |history| - 1 {
      SpanIsShown(history[..|history| - 1], k);
    }
  }

  // ------------------------------------------------------------- events answer, over the trace

  /** In a session every event answers the observation just before it, and every answer due follows at once. */
  lemma EventsAnswer(config: ClientConfig, commands: seq<Command>, trace: Trace, marks: seq<Mark>, i: nat)
    requires Recorded(config, commands, trace, marks) && i + 1 < |trace|
    requires marks[i].phase.Session? && marks[i + 1].phase.Session?
    ensures var answer := Answer(config, marks[i].beat, trace[i]);
            if answer.Some? then trace[i + 1] == Emitted(answer.value)
            else trace[i + 1].Emitted? ==> IsDisconnected(trace[i + 1])
  {
    assert Follows(config, commands, marks[i], trace[i], marks[i + 1]);
    assert Follows(config, commands, marks[i + 1], trace[i + 1], marks[i + 2]);
  }

  /** An event that tells the application of a data frame. */
  predicate IsReport(event: Event) {
    event.Message? || event == Event.Error(DecodeFailure)
  }

  /** The reports among the observations from..to. */
  function Reports(trace: Trace, from: nat, to: nat): seq<Event>
    requires to <= |trace|
  {
    if to <= from then []
    else
      var o := trace[to - 1];
      Reports(trace, from, to - 1) + if o.Emitted? && IsReport(o.event) then [o.event] else []
  }

  /** What the data frames among those things give, in order. */
  function Deliveries(codec: CodecConfig, heard: seq<Given>): seq<Event> {
    if heard == [] then []
    else
      var last := heard[|heard| - 1];
      Deliveries(codec, heard[..|heard| - 1]) + if last.Arrived? then [Delivery(codec, last.frame)] else []
  }

  lemma DeliveriesSnoc(codec: CodecConfig, heard: seq<Given>, given: Given)
    ensures Deliveries(codec, heard + [given])
         == Deliveries(codec, heard) + if given.Arrived? then [Delivery(codec, given.frame)] else []
  {
    assert (heard + [given])[..|heard|] == heard;
  }

  function Pending(due: Option<Event>): seq<Event> {
    if due.Some? && IsReport(due.value) then [due.value] else []
  }

  /** Inbound conservation within a session: what is reported, and may be due, is what the frames heard give. */
  lemma {:induction false} ReportsAreDeliveries(
    config: ClientConfig, commands: seq<Command>, trace: Trace, marks: seq<Mark>, i: nat, e: nat)
    requires Recorded(config, commands, trace, marks) && SessionOpen(trace, i, e)
    ensures Reports(trace, i + 1, e) + Pending(marks[e].due) == Deliveries(config.codec, HeardIn(trace, i + 1, e))
    decreases e
  {
    if i == e - 1 {
      assert Follows(config, commands, marks[i], trace[i], marks[e]);
    } else {
      StillInSession(config, commands, trace, marks, i, e);
      ReportsAreDeliveries(config, commands, trace, marks, i, e - 1);
      ReportOrDelivery(config, marks[e - 1], trace[e - 1], Reports(trace, i + 1, e - 1), HeardIn(trace, i + 1, e - 1));
    }
  }

  /** As long as a session is not ended, each further observation is one made in it. */
  lemma StillInSession(
    config: ClientConfig, commands: seq<Command>, trace: Trace, marks: seq<Mark>, i: nat, e: nat)
    requires Recorded(config, commands, trace, marks) && SessionOpen(trace, i, e) && i < e - 1
    ensures SessionOpen(trace, i, e - 1) && marks[e] == NextMark(config, marks[e - 1], trace[e - 1])
    ensures marks[e - 1].phase.Session? && Answers(marks[e - 1].due, trace[e - 1])
  {
    OpenUntil(config, commands, trace, marks, i, e - 1);
    OnlySessionsGoOn(config, commands, marks[e - 1], trace[e - 1], marks[e]);
  }

  lemma OnlySessionsGoOn(config: ClientConfig, commands: seq<Command>, a: Mark, o: Observation, b: Mark)
    requires Follows(config, commands, a, o, b) && !IsDisconnected(o)
    requires a.phase.Session? || a.phase.Leaving? || a.phase.Closed?
    ensures a.phase.Session? && Answers(a.due, o) && b == NextMark(config, a, o)
  {
  }

  /** One observation of a session: it is the report due, or it brings one about, or neither. */
  lemma ReportOrDelivery(config: ClientConfig, a: Mark, o: Observation, reports: seq<Event>, heard: seq<Given>)
    requires reports + Pending(a.due) == Deliveries(config.codec, heard)
    requires a.phase.Session? && Answers(a.due, o)
    ensures (reports + if o.Emitted? && IsReport(o.event) then [o.event] else []) + Pending(NextMark(config, a, o).due)
         == Deliveries(config.codec, if o.Heard? then heard + [o.given] else heard)
  {
    if o.Heard? {
      DeliveriesSnoc(config.codec, heard, o.given);
    }
  }

  /**
   * Inbound conservation over a run: what the session opened at i and ended at e has told the application of data
   * frames is exactly what the frames its connection gave decode to, in order, one event for each.
   */
  lemma EveryFrameIsReported(
    config: ClientConfig, commands: seq<Command>, trace: Trace, marks: seq<Mark>, history: seq<Connection>, i: nat,
    e: nat) returns (k: nat)
    requires Kept(config, commands, trace, marks, history) && SessionOpen(trace, i, e)
    requires if e < |trace| then IsDisconnected(trace[e]) else marks[e].due.None?
    ensures k < |history| && history[k].live
    ensures |marks[i].spans| < |marks[|trace|].spans| && SpanOf(history[k]) == marks[|trace|].spans[|marks[i].spans|]
    ensures Reports(trace, i + 1, e) == Deliveries(config.codec, history[k].heard)
  {
    SessionShown(config, commands, trace, marks, i, e);
    k := NthSession(config.codec, commands, history, |marks[i].spans|);
    ReportsAreDeliveries(config, commands, trace, marks, i, e);
    if e < |trace| {
      NothingDueAtTheEnd(config, commands, trace, marks, i, e);
    }
    assert Reports(trace, i + 1, e) + [] == Reports(trace, i + 1, e);
  }

  /** No session is ended with a report due. */
  lemma NothingDueAtTheEnd(
    config: ClientConfig, commands: seq<Command>, trace: Trace, marks: seq<Mark>, i: nat, e: nat)
    requires Recorded(config, commands, trace, marks) && SessionOpen(trace, i, e)
    requires e < |trace| && IsDisconnected(trace[e])
    ensures Pending(marks[e].due) == []
  {
    assert Follows(config, commands, marks[e - 1], trace[e - 1], marks[e]);
    assert Follows(config, commands, marks[e], trace[e], marks[e + 1]);
  }

  // ------------------------------------------------------------- the heartbeat, over the trace

  /** A session ends in a heartbeat timeout exactly when, and as soon as, its signals have given it up. */
  lemma LossIsGivingUp(config: ClientConfig, commands: seq<Command>, trace: Trace, marks: seq<Mark>, i: nat)
    requires Recorded(config, commands, trace, marks) && i < |trace| && marks[i].phase.Session?
    ensures trace[i] == LOST <==> BeatAfter(config, LastHeard(marks[i].spans)).None?
  {
    MarkAt(config, commands, trace, marks, i);
    assert Follows(config, commands, marks[i], trace[i], marks[i + 1]);
  }

  /** A session whose every ping is answered before the next tick is never ended as lost. */
  lemma ResponsiveSessionIsKept(config: ClientConfig, commands: seq<Command>, trace: Trace, marks: seq<Mark>, i: nat)
    requires Recorded(config, commands, trace, marks) && i < |trace| && marks[i].phase.Session?
    requires Heartbeat.Responsive(Pulses(LastHeard(marks[i].spans)))
    ensures trace[i] != LOST
  {
    LossIsGivingUp(config, commands, trace, marks, i);
    if config.heartbeat.Some? {
      Heartbeat.ResponsivePeerIsKept(config.heartbeat.value, Pulses(LastHeard(marks[i].spans)));
    }
  }

  /** A session silent for max(1, max_missed_pongs) + 1 ticks since its last pong is ended as lost there and then. */
  lemma SilentSessionIsDropped(
    config: ClientConfig, commands: seq<Command>, trace: Trace, marks: seq<Mark>, i: nat,
    signals: seq<Heartbeat.Signal>, ticks: seq<Heartbeat.Signal>)
    requires Recorded(config, commands, trace, marks) && i <= |trace| && marks[i].phase.Session?
    requires config.heartbeat.Some? && Pulses(LastHeard(marks[i].spans)) == signals + ticks
    requires signals == [] || signals[|signals| - 1].Pong?
    requires Heartbeat.AllTicks(ticks) && |ticks| >= Max(1, config.heartbeat.value.maxMissedPongs) + 1
    ensures marks[i].beat.None? && (i < |trace| ==> trace[i] == LOST)
  {
    MarkAt(config, commands, trace, marks, i);
    Heartbeat.SilentPeerIsDropped(config.heartbeat.value, signals, ticks);
    if i < |trace| {
      assert Follows(config, commands, marks[i], trace[i], marks[i + 1]);
    }
  }
}
