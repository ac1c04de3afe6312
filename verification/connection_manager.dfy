/**
 * The connection manager: a session loop serving one connection, and the reconnect phase between two sessions. Peers,
 * sockets and time answer arbitrarily; the commands of all handles are one sequence in channel order, of which a
 * `try_recv` may see any further part.
 */
module ConnectionManagers {
  import opened Prelude
  import opened MessageCodec
  import opened WsTypes
  import opened SessionLog
  import opened EventGrammar
  import opened RunRecords
  import Heartbeat
  import Reconnect

  // ------------------------------------------------------------- the environment

  datatype SendStatus = Sent | Failed | TimedOut

  datatype Incoming =
    | Data(frame: Frame)
    | PingFrame
    | PongFrame
    | CloseFrame(code: nat, reason: string)
    | OtherFrame
    | StreamEnded

  /** Which branch of the select loop becomes ready. */
  datatype Ready = UserCommand | HeartbeatTick | IncomingFrame(incoming: Incoming)

  /** What the session hears of it. */
  function HeardOf(ready: Ready, now: nat): seq<Given> {
    match ready
    case HeartbeatTick => [Pulse(Heartbeat.Tick(now))]
    case IncomingFrame(PongFrame) => [Pulse(Heartbeat.Pong(now))]
    case IncomingFrame(Data(frame)) => [Arrived(frame)]
    case _ => []
  }

  /** Remembers how many turns of select loops there have been. */
  class Clock {
    ghost var turns: nat

    constructor ()
      ensures turns == 0
    {
      turns := 0;
    }
  }

  /** One established transport connection. It remembers the user frames handed to it, and the ticks, pongs and data
      frames it gave. */
  class WsStream {
    const url: Url
    ghost var log: seq<Attempt>
    ghost var heard: seq<Given>

    constructor (url: Url)
      ensures this.url == url && log == [] && heard == []
    {
      this.url := url;
      log, heard := [], [];
    }

    /** `send_frame_with_timeout` of a user frame. */
    method Send(frame: Frame) returns (status: SendStatus)
      modifies this`log
      ensures log == old(log) + [Attempt(frame, status.Sent?)]
    {
      status := *;
      log := log + [Attempt(frame, status.Sent?)];
    }

    /** The same of a close or ping frame. */
    method SendControl() returns (status: SendStatus)
    {
      status := *;
    }

    /** `select!`: whatever is ready, and a tick only with a heartbeat configured. */
    method Select(clock: Clock, now: nat, ticking: bool) returns (ready: Ready)
      modifies this`heard, clock
      ensures clock.turns == old(clock.turns) + 1
      ensures ready.HeartbeatTick? ==> ticking
      ensures heard == old(heard) + HeardOf(ready, now)
    {
      ready := *;
      if ready.HeartbeatTick? && !ticking {
        ready := UserCommand;
      }
      heard := heard + HeardOf(ready, now);
      clock.turns := clock.turns + 1;
    }
  }

  /** Where connections come from; it remembers every one it established. */
  class Network {
    ghost var established: seq<WsStream>

    ghost predicate Valid()
      reads this
    {
      forall j, k :: 0 <= j < k < |established| ==> established[j] != established[k]
    }

    constructor ()
      ensures Valid() && established == []
    {
      established := [];
    }

    method Connect(url: Url) returns (stream: WsStream?, latencyMs: nat)
      requires Valid()
      modifies this
      ensures Valid()
      ensures if stream == null then established == old(established)
              else fresh(stream) && established == old(established) + [stream]
                   && stream.url == url && stream.log == [] && stream.heard == []
    {
      var refused: bool := *;
      latencyMs := *;
      stream := null;
      if !refused && latencyMs >= 0 {
        stream := new WsStream(url);
        established := established + [stream];
      } else {
        latencyMs := 0;
      }
    }

    /** Racing or not, the endpoint reached is one of those configured. */
    method ConnectAnyEndpoint(urls: seq<Url>) returns (stream: WsStream?, latencyMs: nat)
      requires Valid()
      modifies this
      ensures Valid()
      ensures if stream == null then established == old(established)
              else fresh(stream) && established == old(established) + [stream]
                   && stream.url in urls && stream.log == [] && stream.heard == []
    {
      stream, latencyMs := null, 0;
      var winner: int := *;
      if 0 <= winner < |urls| {
        stream, latencyMs := Connect(urls[winner]);
      }
    }
  }

  function SendFailure(status: SendStatus): Reason {
    if status.TimedOut? then SendTimeout else SendFailed
  }

  function ReplayFailure(status: SendStatus): Reason {
    if status.TimedOut? then ReplayTimeout else ReplayFailed
  }

  // ------------------------------------------------------------- replaying the buffer

  /** Every frame of the buffer was sent, in order; or the sending stopped at the first that failed. */
  ghost predicate Replayed(codec: CodecConfig, buffered: seq<Command>, complete: bool, log: seq<Attempt>) {
    var backlog := Carried(codec, buffered);
    && OnlyLastMayFail(log) && Frames(log) <= backlog
    && (complete ==> AllSent(log) && Frames(log) == backlog)
    && (!complete ==> log != [] && !log[|log| - 1].sent)
  }

  /** Sends each buffered command that encodes, until a send fails. */
  method ReplayBufferedCommands(stream: WsStream, codec: CodecConfig, buffered: seq<Command>)
    returns (status: SendStatus)
    requires stream.log == []
    modifies stream`log
    ensures Replayed(codec, buffered, status.Sent?, stream.log)
  {
    for i := 0 to |buffered|
      invariant AllSent(stream.log) && Frames(stream.log) == Carried(codec, buffered[..i])
    {
      var frame := EncodeCommand(codec, buffered[i]);
      assert buffered[..i + 1] == buffered[..i] + [buffered[i]];
      CarriedSnoc(codec, buffered[..i], buffered[i]);
      if frame.Some? {
        status := stream.Send(frame.value);
        if !status.Sent? {
          CarriedPrefix(codec, buffered, i + 1);
          return;
        }
      }
    }
    assert buffered[..|buffered|] == buffered;
    status := Sent;
  }

  // ------------------------------------------------------------- steps of the history

  function FrameOf(codec: CodecConfig, command: Command): seq<Frame> {
    var frame := EncodeCommand(codec, command);
    if frame.Some? then [frame.value] else []
  }

  function Extend(c: Connection, attempts: seq<Attempt>): Connection {
    c.(end := c.end + 1, log := c.log + attempts)
  }

  lemma ExtendKeepsCarrying(codec: CodecConfig, commands: seq<Command>, c: Connection, attempts: seq<Attempt>)
    requires WellCarried(codec, commands, c) && c.live && AllSent(c.log)
    requires c.end < |commands| && Frames(attempts) == FrameOf(codec, commands[c.end])
    ensures WellCarried(codec, commands, Extend(c, attempts))
    ensures AllSent(attempts) ==> AllSent(Extend(c, attempts).log)
  {
    var next := Extend(c, attempts);
    assert commands[c.from..c.end + 1] == commands[c.from..c.end] + [commands[c.end]];
    CarriedSnoc(codec, commands[c.from..c.end], commands[c.end]);
    assert Frames(next.log) == Frames(c.log) + Frames(attempts);
    ReplayComesFirst(codec, commands, c);
    var replayed := |Carried(codec, commands[c.from..c.upto])|;
    assert replayed <= |c.log|;
    assert next.log[..replayed] == c.log[..replayed];
  }

  /** The commands from..to, built up one by one. */
  function Stretch(commands: seq<Command>, from: nat, to: nat): (s: seq<Command>)
    requires to <= |commands|
  {
    if to <= from then [] else Stretch(commands, from, to - 1) + [commands[to - 1]]
  }

  lemma {:induction false} StretchIsSlice(commands: seq<Command>, from: nat, to: nat)
    requires from <= to <= |commands|
    ensures Stretch(commands, from, to) == commands[from..to]
  {
    if from < to {
      StretchIsSlice(commands, from, to - 1);
    }
  }

  /** What was taken since `covered`, and the messages among it. */
  ghost predicate Backlog(
    commands: seq<Command>, covered: nat, taken: nat, pending: seq<Command>, buffered: seq<Command>)
  {
    covered <= taken <= |commands| && pending == Stretch(commands, covered, taken) && buffered == Messages(pending)
  }

  lemma BacklogGrows(
    commands: seq<Command>, covered: nat, taken: nat, pending: seq<Command>, buffered: seq<Command>)
    requires taken < |commands| && Backlog(commands, covered, taken, pending, buffered)
    ensures Backlog(commands, covered, taken + 1, pending + [commands[taken]],
                    if IsMessage(commands[taken]) then buffered + [commands[taken]] else buffered)
  {
    MessagesSnoc(pending, commands[taken]);
  }

  /** A freshly opened connection, after replaying the backlog into it. */
  lemma ReplayedConnection(
    codec: CodecConfig, commands: seq<Command>, covered: nat, taken: nat, complete: bool, log: seq<Attempt>)
    requires covered <= taken <= |commands|
    requires Replayed(codec, Messages(Stretch(commands, covered, taken)), complete, log)
    ensures WellCarried(codec, commands, Connection(covered, taken, taken, log, complete, []))
    ensures complete ==> AllSent(log)
  {
    var backlog := commands[covered..taken];
    assert Replayed(codec, Messages(backlog), complete, log) by {
      StretchIsSlice(commands, covered, taken);
    }
    BufferCarriesTheSame(codec, backlog);
  }

  // ------------------------------------------------------------- the manager

  /** How a session ended; `Observed` cuts the run where the observation ends. */
  datatype Outcome =
    | CleanClose
    | Dropped(code: nat, reason: Reason)
    | HeartbeatTimeout
    | NetworkSwitched
    | Observed

  /** The earlier connections are well-formed, with this coverage and these sessions, and the current one follows. */
  ghost predicate Accounts(
    codec: CodecConfig, commands: seq<Command>, closed: seq<Connection>, base: nat, shown: seq<Span>,
    current: Connection)
  {
    && WellFormed(codec, commands, closed) && Covered(closed) == base && Sessions(closed) == shown
    && WellCarried(codec, commands, current) && current.from == base
  }

  /** One more connection, after the replay of what was taken since. */
  lemma NextAccounts(
    codec: CodecConfig, commands: seq<Command>, closed: seq<Connection>, base: nat, shown: seq<Span>,
    current: Connection, taken: nat, complete: bool, log: seq<Attempt>)
    requires Accounts(codec, commands, closed, base, shown, current)
    requires (if current.live then current.end else base) <= taken <= |commands|
    requires Replayed(codec, Messages(Stretch(commands, if current.live then current.end else base, taken)), complete,
                      log)
    ensures var dealt := if current.live then current.end else base;
            && Accounts(codec, commands, closed + [current], dealt,
                        if current.live then shown + [SpanOf(current)] else shown,
                        Connection(dealt, taken, taken, log, complete, []))
            && (complete ==> AllSent(log))
  {
    ReplayedConnection(codec, commands, if current.live then current.end else base, taken, complete, log);
    WellFormedSnoc(codec, commands, closed, current);
  }

  /** The books the manager keeps, each closed under `Opened`. */
  datatype Book = TraceBook | HistoryBook | BacklogBook | WireBook

  class ConnectionManager {
    const config: ClientConfig
    const commands: seq<Command>
    const network: Network
    const clock: Clock
    const reconnectMgr: Reconnect.ReconnectManager?
    var taken: nat
    var currentUrl: Url
    var firstLatency: nat
    var stream: WsStream?
    var buffered: seq<Command>
    var trace: Trace
    ghost var pending: seq<Command>    // commands taken that no session has dealt with
    ghost var phase: Phase
    ghost var spans: seq<Span>
    ghost var beat: Option<Heartbeat.Beat>
    ghost var due: Option<Event>       // the event the session owes for the last observation
    ghost var marks: seq<Mark>
    ghost var current: Connection      // the connection established last, and its stream
    ghost var conn: WsStream
    ghost var closed: seq<Connection>  // the connections before it, and theirs
    ghost var earlier: seq<WsStream>
    ghost var base: nat                // what the sessions among those have dealt with, and what they were
    ghost var shown: seq<Span>

    ghost predicate Tracked()
      reads `taken, `trace, `marks, `phase, `spans, `beat, `due
    {
      forall u: bool {:trigger Opened(TraceBook, u)} :: Opened(TraceBook, u) ==>
        && Recorded(config, commands, trace, marks)
        && marks[|trace|] == Mark(phase, taken, spans, beat, due)
    }

    /** The accounts of the connections so far. */
    ghost predicate Archived()
      reads `closed, `base, `shown, `current
    {
      forall u: bool {:trigger Opened(HistoryBook, u)} :: Opened(HistoryBook, u) ==>
        Accounts(config.codec, commands, closed, base, shown, current)
    }

    ghost predicate Valid()
      reads `taken, `current, `closed, `base, `shown, `trace, `marks, `phase, `spans, `beat, `due
    {
      && taken <= |commands|
      && Archived() && Dealt() <= taken
      && Tracked() && !phase.Illegal?
      && (config.reconnect.Some? <==> reconnectMgr != null)
      && (reconnectMgr != null ==> reconnectMgr.config == config.reconnect.value)
    }

    ghost function History(): seq<Connection>
      reads `closed, `current
    {
      closed + [current]
    }

    /** How many commands the sessions so far have dealt with. */
    ghost function Dealt(): nat
      reads `current, `base
    {
      if current.live then current.end else base
    }

    ghost function SessionsSoFar(): seq<Span>
      reads `current, `shown
    {
      if current.live then shown + [SpanOf(current)] else shown
    }

    static ghost predicate Stored(streams: seq<WsStream>, connections: seq<Connection>)
      reads streams
    {
      && |streams| == |connections|
      && forall k :: 0 <= k < |streams| ==>
           streams[k].log == connections[k].log && streams[k].heard == connections[k].heard
    }

    /** These connections, the last of them `conn`, are what the network established, but for `more`. */
    static ghost predicate Established(network: Network, earlier: seq<WsStream>, conn: WsStream, more: seq<WsStream>)
      reads network
    {
      network.Valid() && network.established == earlier + [conn] + more && conn !in earlier
    }

    /** The history is exactly those connections: what each was sent and gave, the last one up to what is added. */
    ghost predicate WiredUpTo(attempts: seq<Attempt>, given: seq<Given>, more: seq<WsStream>)
      reads `current, `conn, `closed, `earlier, network, earlier, conn
    {
      forall u: bool {:trigger Opened(WireBook, u)} :: Opened(WireBook, u) ==>
        && Established(network, earlier, conn, more) && Stored(earlier, closed)
        && conn.log == current.log + attempts && conn.heard == current.heard + given
    }

    static lemma OneMore(network: Network, earlier: seq<WsStream>, conn: WsStream, dialled: WsStream)
      requires Established(network, earlier, conn, [dialled])
      ensures Established(network, earlier + [conn], dialled, []) && dialled !in earlier + [conn]
    {
      var n := |earlier|;
      assert network.established == (earlier + [conn]) + [dialled] + [];
      assert network.established[n + 1] == dialled;
      forall k | 0 <= k <= n ensures (earlier + [conn])[k] != dialled {
        assert network.established[k] == (earlier + [conn])[k];
      }
    }

    static lemma StoredMore(earlier: seq<WsStream>, closed: seq<Connection>, conn: WsStream, current: Connection)
      requires Stored(earlier, closed) && conn.log == current.log && conn.heard == current.heard
      ensures Stored(earlier + [conn], closed + [current])
    {
    }

    ghost predicate Wired()
      reads `current, `conn, `closed, `earlier, network, earlier, conn
    {
      WiredUpTo([], [], [])
    }

    /** The buffer holds exactly the messages no session has dealt with, and the trace shows the sessions so far. */
    ghost predicate BacklogBuffered()
      reads `taken, `current, `base, `shown, `pending, `buffered, `spans
    {
      BacklogIs(taken) && SessionsSoFar() == spans
    }

    /** `Backlog`, for the first so many commands. */
    ghost predicate BacklogIs(upto: nat)
      reads `current, `base, `pending, `buffered
    {
      forall u: bool {:trigger Opened(BacklogBook, u)} :: Opened(BacklogBook, u) ==>
        Backlog(commands, Dealt(), upto, pending, buffered)
    }

    /** The endpoint a reconnect may come up on. */
    ghost predicate EndpointAllowedIn(p: Phase)
      reads `currentUrl
      requires p.Gap?
    {
      currentUrl == p.url || (p.roaming && currentUrl in config.urls)
    }

    ghost predicate EndpointAllowed()
      reads `currentUrl, `phase
    {
      phase.Gap? && EndpointAllowedIn(phase)
    }

    /** A close was requested, or every handle is gone. */
    ghost predicate Over()
      reads `phase, `taken
    {
      phase.Closed? || taken == |commands|
    }

    /** The reconnect configuration allows no further attempt. */
    ghost predicate Exhausted()
      reads this, reconnectMgr
    {
      reconnectMgr == null || reconnectMgr.attempt > reconnectMgr.config.maxAttempts
    }

    /** The current connection is a session that has dealt with everything taken, and the trace shows it. */
    ghost predicate UpToDate()
      reads `current, `taken, `shown, `spans
    {
      current.live && AllSent(current.log) && current.end == taken && spans == shown + [SpanOf(current)]
    }

    ghost predicate InSession()
      reads `current, `taken, `phase, `currentUrl, `shown, `spans, `beat, `due
    {
      UpToDate() && phase == Phase.Session(currentUrl) && beat.Some? && due.None?
    }

    /** A session has not been given up, and owes no event. */
    ghost predicate Rested()
      reads `phase, `beat, `due
    {
      phase.Session? ==> beat.Some? && due.None?
    }

    /** A new connection is up and its backlog replayed. */
    ghost predicate BacklogReplayed()
      reads `current, `taken, `shown, `spans
    {
      && current.live && AllSent(current.log) && current.heard == []
      && current.upto == current.end == taken && spans == shown
    }

    /** Only the Connected event is missing. */
    ghost predicate ReadyToServe()
      reads `stream, `conn, `current, `taken, `phase, `currentUrl, `shown, `spans
    {
      && stream == conn && conn.url == currentUrl && BacklogReplayed()
      && (phase == Start || (phase.Gap? && phase.announced && EndpointAllowed()))
    }

    constructor (
      config: ClientConfig, commands: seq<Command>, network: Network, clock: Clock, stream: WsStream, latencyMs: nat)
      requires network.Valid() && network.established == [stream] && stream.log == [] && stream.heard == []
      ensures this.config == config && this.commands == commands && this.network == network
      ensures this.clock == clock
      ensures Valid() && ReadyToServe() && Wired() && trace == []
      ensures reconnectMgr != null ==> fresh(reconnectMgr) && reconnectMgr.attempt == 0
    {
      this.config := config;
      this.commands := commands;
      this.network := network;
      this.clock := clock;
      if config.reconnect.Some? {
        reconnectMgr := new Reconnect.ReconnectManager(config.reconnect.value);
      } else {
        reconnectMgr := null;
      }
      taken := 0;
      currentUrl := stream.url;
      firstLatency := latencyMs;
      this.stream := stream;
      buffered, pending := [], [];
      trace := [];
      phase, spans, beat, due := Start, [], Some(Heartbeat.FRESH), None;
      marks := [OUTSET];
      current, conn := Connection(0, 0, 0, [], true, []), stream;
      closed, earlier, base, shown := [], [], 0, [];
    }

    /** Enters an observation into the trace: an event sent, or something heard. */
    method Observe(o: Observation)
      requires Tracked() && !Move(config, phase, o).Illegal? && DelayFits(config, o)
      requires !o.Took? && (phase.Session? ==> (o == LOST <==> beat.None?) && Answers(due, o))
      modifies this`trace, this`phase, this`spans, this`beat, this`due, this`marks
      ensures Tracked() && trace == old(trace) + [o]
      ensures phase == Move(config, old(phase), o)
      ensures spans == NextSpans(old(spans), old(phase), taken, o)
      ensures beat == NextBeat(config, old(phase), old(beat), o)
      ensures due == NextDue(config, old(phase), old(beat), o)
    {
      ghost var next := NextMark(config, Mark(phase, taken, spans, beat, due), o);
      assert Recorded(config, commands, trace + [o], marks + [next]) && |marks| == |trace| + 1 by {
        assert Opened(TraceBook, true);
        RecordedSnoc(config, commands, trace, marks, o);
      }
      phase, spans, beat, due := next.phase, next.spans, next.beat, next.due;
      trace := trace + [o];
      marks := marks + [next];
    }

    method Emit(event: Event)
      requires Valid() && !Move(config, phase, Emitted(event)).Illegal?
      requires !IsBackoff(Emitted(event))
      requires phase.Session? ==> (Emitted(event) == LOST <==> beat.None?) && Answers(due, Emitted(event))
      modifies this`trace, this`phase, this`spans, this`beat, this`due, this`marks
      ensures Valid()
      ensures trace == old(trace) + [Emitted(event)] && due.None?
      ensures phase == Move(config, old(phase), Emitted(event))
      ensures if event.Connected? then spans == old(spans) + [Span(taken, taken, [])] && beat == Some(Heartbeat.FRESH)
              else spans == old(spans) && beat == old(beat)
    {
      Observe(Emitted(event));
    }

    method EmitBackoff(attempt: nat, delayMs: nat)
      requires Valid() && config.reconnect.Some? && phase.Gap? && !phase.immediate
      requires attempt == phase.attempt + 1 <= config.reconnect.value.maxAttempts
      requires delayMs == Reconnect.BackoffDelay(config.reconnect.value, attempt)
      modifies this`trace, this`phase, this`spans, this`beat, this`due, this`marks
      ensures Valid()
      ensures trace == old(trace) + [Emitted(Reconnecting(attempt, delayMs))]
      ensures phase == old(phase).(attempt := attempt, announced := true) && spans == old(spans)
    {
      Observe(Emitted(Reconnecting(attempt, delayMs)));
    }

    /** Takes the next command off the channel. */
    method Take() returns (command: Command)
      requires Valid() && taken < |commands| && Rested()
      requires !Move(config, phase, Took(commands[taken])).Illegal?
      modifies this`trace, this`phase, this`spans, this`beat, this`due, this`marks, this`taken
      ensures Valid()
      ensures taken == old(taken) + 1 && command == commands[old(taken)]
      ensures trace == old(trace) + [Took(command)]
      ensures phase == Move(config, old(phase), Took(command)) && beat == old(beat)
      ensures due == NextDue(config, old(phase), old(beat), Took(command))
      ensures spans == if old(phase).Session? && old(spans) != [] then CountOne(old(spans)) else old(spans)
    {
      command := commands[taken];
      ObserveTaking(command);
    }

    /** Enters the taking of a command into the trace. */
    method ObserveTaking(command: Command)
      requires Tracked() && taken < |commands| && command == commands[taken]
      requires !Move(config, phase, Took(command)).Illegal? && Rested()
      modifies this`trace, this`phase, this`spans, this`beat, this`due, this`marks, this`taken
      ensures Tracked() && trace == old(trace) + [Took(command)] && taken == old(taken) + 1
      ensures phase == Move(config, old(phase), Took(command)) && beat == old(beat)
      ensures due == NextDue(config, old(phase), old(beat), Took(command))
      ensures spans == NextSpans(old(spans), old(phase), old(taken), Took(command))
    {
      ghost var next := NextMark(config, Mark(phase, taken, spans, beat, due), Took(command));
      assert Recorded(config, commands, trace + [Took(command)], marks + [next]) && |marks| == |trace| + 1 by {
        assert Opened(TraceBook, true);
        RecordedSnoc(config, commands, trace, marks, Took(command));
      }
      phase, spans, due := next.phase, next.spans, next.due;
      trace := trace + [Took(command)];
      taken := taken + 1;
      marks := marks + [next];
    }

    /** Notes a tick, a pong or a data frame of the session's stream. */
    method Hear(given: Given)
      requires Valid() && InSession() && WiredUpTo([], [given], [])
      requires given.Pulse? && given.signal.Tick? ==> config.heartbeat.Some?
      modifies this`trace, this`phase, this`spans, this`beat, this`due, this`marks, this`current
      ensures Valid() && UpToDate() && Wired() && phase == old(phase)
      ensures trace == old(trace) + [Heard(given)] && due == Answer(config, old(beat), Heard(given))
      ensures beat == if given.Pulse? && config.heartbeat.Some?
                      then Heartbeat.OnSignal(config.heartbeat.value, old(beat).value, given.signal)
                      else old(beat)
    {
      Observe(Heard(given));
      Note(given);
    }

    /** The current connection's record takes up what its stream has given. */
    ghost method Note(given: Given)
      requires Archived() && WiredUpTo([], [given], [])
      modifies this`current
      ensures Archived() && Wired() && current == old(current).(heard := old(current).heard + [given])
    {
      Change(current.(heard := current.heard + [given]));
    }

    /** The current connection goes on; it stays well carried from where it began. */
    ghost method Change(next: Connection)
      requires Archived() && next.from == current.from
      requires WellCarried(config.codec, commands, current) ==> WellCarried(config.codec, commands, next)
      modifies this`current
      ensures Archived() && current == next
    {
      assert Accounts(config.codec, commands, closed, base, shown, next) by {
        assert Opened(HistoryBook, true);
      }
      current := next;
    }

    method RebuildClientAfterNetworkChange()
      requires Valid() && phase.Gap?
      modifies this`trace, this`phase, this`spans, this`beat, this`due, this`marks
      ensures Valid() && phase == old(phase) && spans == old(spans)
      ensures trace == old(trace) || trace == old(trace) + [Emitted(Event.Error(RebuildFailure))]
    {
      var failed: bool := *;
      if failed {
        Emit(Event.Error(RebuildFailure));
      }
    }

    /** Takes one command while no session is up: messages are buffered, control commands are not. */
    method TakeWhileDown() returns (command: Command)
      requires Valid() && BacklogBuffered() && phase.Gap? && taken < |commands|
      modifies this`trace, this`phase, this`spans, this`beat, this`due, this`marks
      modifies this`taken, this`buffered, this`pending
      ensures Valid() && BacklogBuffered()
      ensures taken == old(taken) + 1 && command == commands[old(taken)]
      ensures phase == if command.Close? then Closed
                       else if command.NetworkChanged? then old(phase).(attempt := 0, roaming := true)
                       else old(phase)
    {
      command := Take();
      Buffer(command);
    }

    /** Enters the command just taken into the backlog. */
    method Buffer(command: Command)
      requires 0 < taken <= |commands| && command == commands[taken - 1] && SessionsSoFar() == spans
      requires BacklogIs(taken - 1)
      modifies this`buffered, this`pending
      ensures BacklogBuffered()
    {
      var more := if IsMessage(command) then buffered + [command] else buffered;
      assert Backlog(commands, Dealt(), taken, pending + [command], more) by {
        assert Opened(BacklogBook, true);
        BacklogGrows(commands, Dealt(), taken - 1, pending, buffered);
      }
      pending := pending + [command];
      buffered := more;
    }

    /** `try_recv` until nothing more has arrived; stops at a close request or when all handles are gone. */
    method DrainCommands() returns (stop: bool, changed: bool)
      requires Valid() && BacklogBuffered() && phase.Gap?
      modifies this`trace, this`phase, this`spans, this`beat, this`due, this`marks
      modifies this`taken, this`buffered, this`pending
      ensures Valid() && BacklogBuffered() && old(taken) <= taken
      ensures changed ==> old(taken) < taken
      ensures !stop ==> phase == if changed then old(phase).(attempt := 0, roaming := true) else old(phase)
      ensures (stop ==> Over()) && (phase.Gap? || phase.Closed?)
    {
      changed := false;
      while taken < |commands|
        invariant Valid() && BacklogBuffered() && old(taken) <= taken
        invariant changed ==> old(taken) < taken
        invariant phase == if changed then old(phase).(attempt := 0, roaming := true) else old(phase)
      {
        var empty: bool := *;
        if empty {
          return false, changed;
        }
        var command := TakeWhileDown();
        if command.Close? {
          return true, changed;
        }
        changed := changed || command.NetworkChanged?;
      }
      stop := *;
    }

    /** Sleeps out the backoff delay while listening: a close aborts, a network change cuts the delay short. */
    method AwaitBackoff() returns (abort: bool, skip: bool)
      requires Valid() && BacklogBuffered() && phase.Gap?
      modifies this`trace, this`phase, this`spans, this`beat, this`due, this`marks
      modifies this`taken, this`buffered, this`pending
      ensures Valid() && BacklogBuffered() && old(taken) <= taken
      ensures skip ==> old(taken) < taken
      ensures !abort ==> phase == if skip then old(phase).(attempt := 0, roaming := true) else old(phase)
      ensures (abort ==> Over()) && (phase.Gap? || phase.Closed?)
    {
      while taken < |commands|
        invariant Valid() && BacklogBuffered() && old(taken) <= taken
        invariant phase == old(phase)
      {
        var elapsed: bool := *;
        if elapsed {
          return false, false;
        }
        var command := TakeWhileDown();
        if command.Close? {
          return true, false;
        }
        if command.NetworkChanged? {
          return false, true;
        }
      }
      abort, skip := *, false;
    }

    /** Replays the backlog into a connection just opened and enters it into the history. */
    method Replay(dialled: WsStream) returns (status: SendStatus)
      requires Valid() && BacklogBuffered() && WiredUpTo([], [], [dialled])
      requires dialled.log == [] && dialled.heard == []
      modifies this`current, this`conn, this`closed, this`earlier, this`base, this`shown, dialled`log
      ensures Valid() && Wired() && conn == dialled
      ensures if status.Sent? then BacklogReplayed() else BacklogBuffered()
    {
      assert dialled != conn && dialled !in earlier by {
        assert Opened(WireBook, true);
        OneMore(network, earlier, conn, dialled);
      }
      status := ReplayBufferedCommands(dialled, config.codec, buffered);
      EnterConnection(dialled, status.Sent?);
    }

    /** A connection the backlog has been replayed on goes into the accounts. */
    lemma NextConnection(log: seq<Attempt>, complete: bool) returns (next: Connection)
      requires Archived() && BacklogBuffered() && Dealt() <= taken <= |commands|
      requires Replayed(config.codec, buffered, complete, log)
      ensures next == Connection(Dealt(), taken, taken, log, complete, [])
      ensures Accounts(config.codec, commands, closed + [current], Dealt(), SessionsSoFar(), next)
      ensures complete ==> AllSent(log)
    {
      next := Connection(Dealt(), taken, taken, log, complete, []);
      assert Opened(HistoryBook, true) && Opened(BacklogBook, true);
      NextAccounts(config.codec, commands, closed, base, shown, current, taken, complete, log);
    }

    /** Enters a connection into the history; its session starts if the replay was complete. */
    ghost method EnterConnection(dialled: WsStream, complete: bool)
      requires Valid() && BacklogBuffered() && WiredUpTo([], [], [dialled])
      requires Replayed(config.codec, buffered, complete, dialled.log) && dialled.heard == []
      modifies this`current, this`conn, this`closed, this`earlier, this`base, this`shown
      ensures Valid() && Wired() && conn == dialled
      ensures if complete then BacklogReplayed() else BacklogBuffered()
    {
      var next := NextConnection(dialled.log, complete);
      GoOnTo(dialled, next);
    }

    /** The connection established before goes to the earlier ones. */
    lemma WiredBehind(dialled: WsStream)
      requires WiredUpTo([], [], [dialled])
      ensures Established(network, earlier + [conn], dialled, []) && Stored(earlier + [conn], closed + [current])
    {
      assert Opened(WireBook, true);
      OneMore(network, earlier, conn, dialled);
      StoredMore(earlier, closed, conn, current);
    }

    /** The new connection is the current one, and the previous one has gone to the earlier ones. */
    ghost method GoOnTo(dialled: WsStream, next: Connection)
      requires Accounts(config.codec, commands, closed + [current], Dealt(), SessionsSoFar(), next)
      requires WiredUpTo([], [], [dialled]) && next.log == dialled.log && next.heard == dialled.heard
      modifies this`current, this`conn, this`closed, this`earlier, this`base, this`shown
      ensures Archived() && Wired() && current == next && conn == dialled && closed == old(closed) + [old(current)]
      ensures base == old(Dealt()) && shown == old(SessionsSoFar())
    {
      WiredBehind(dialled);
      Succeed(next);
      Rewire(dialled);
    }

    /** The current connection joins those before it. */
    ghost method Succeed(next: Connection)
      requires Accounts(config.codec, commands, closed + [current], Dealt(), SessionsSoFar(), next)
      modifies this`current, this`closed, this`base, this`shown
      ensures Archived() && current == next && closed == old(closed) + [old(current)]
      ensures base == old(Dealt()) && shown == old(SessionsSoFar())
    {
      base, shown, closed, current := Dealt(), SessionsSoFar(), closed + [current], next;
    }

    ghost method Rewire(dialled: WsStream)
      requires Established(network, earlier + [conn], dialled, []) && Stored(earlier + [conn], closed)
      requires dialled.log == current.log && dialled.heard == current.heard
      modifies this`conn, this`earlier
      ensures Wired() && conn == dialled
    {
      earlier, conn := earlier + [conn], dialled;
    }

    /** The backoff delay of one announced attempt, and the commands that arrive during it. */
    method WaitForAttempt() returns (abort: bool, skip: bool)
      requires Valid() && BacklogBuffered() && phase.Gap?
      modifies this`trace, this`phase, this`spans, this`beat, this`due, this`marks
      modifies this`taken, this`buffered, this`pending
      ensures Valid() && BacklogBuffered() && old(taken) <= taken
      ensures skip ==> old(taken) < taken
      ensures !abort ==> phase == if skip then old(phase).(attempt := 0, roaming := true) else old(phase)
      ensures (abort ==> Over()) && (phase.Gap? || phase.Closed?)
    {
      abort, skip := AwaitBackoff();
      if !abort {
        var stop, changed := DrainCommands();
        abort, skip := stop, skip || changed;
      }
    }

    /** Connects to the current endpoint, or to any of them after a network change. */
    method Dial(raceEndpoints: bool) returns (dialled: WsStream?, latencyMs: nat)
      requires Wired() && phase.Gap? && phase.roaming == raceEndpoints && EndpointAllowed()
      modifies this`currentUrl, network
      ensures EndpointAllowed()
      ensures !raceEndpoints || dialled == null ==> currentUrl == old(currentUrl)
      ensures if dialled == null then Wired()
              else fresh(dialled) && dialled.url == currentUrl && dialled.log == [] && dialled.heard == []
                   && WiredUpTo([], [], [dialled])
    {
      assert Opened(WireBook, true);
      if raceEndpoints {
        dialled, latencyMs := network.ConnectAnyEndpoint(config.urls);
        if dialled != null {
          currentUrl := dialled.url;
        }
      } else {
        dialled, latencyMs := network.Connect(currentUrl);
      }
    }

    /** The replayed connection becomes the stream of the next session. */
    method Adopt(dialled: WsStream, latencyMs: nat)
      modifies this`firstLatency, this`stream
      ensures stream == dialled && firstLatency == latencyMs
    {
      stream := dialled;
      firstLatency := latencyMs;
    }

    method ReportReplayFailure(status: SendStatus)
      requires Valid() && BacklogBuffered() && phase.Gap? && phase.announced
      modifies this`trace, this`phase, this`spans, this`beat, this`due, this`marks
      ensures Valid() && BacklogBuffered() && phase == old(phase).(announced := false)
      ensures trace == old(trace) + [Emitted(Disconnected(1006, ReplayFailure(status)))]
    {
      Emit(Disconnected(1006, ReplayFailure(status)));
    }

    /** One connect attempt, with the replay that must succeed before a session can start. */
    method TryConnect(raceEndpoints: bool) returns (connected: bool, refused: bool)
      requires Valid() && BacklogBuffered() && Wired() && stream == null
      requires phase.Gap? && phase.announced && phase.roaming == raceEndpoints && EndpointAllowed()
      modifies this`currentUrl, this`firstLatency, this`stream, network
      modifies this`current, this`conn, this`closed, this`earlier, this`base, this`shown
      modifies this`trace, this`phase, this`spans, this`beat, this`due, this`marks
      ensures Valid() && EndpointAllowed() && Wired()
      ensures refused ==> !connected
      ensures connected ==> ReadyToServe() && fresh(stream) && phase == old(phase) && trace == old(trace)
      ensures !connected ==> BacklogBuffered() && stream == null && phase == old(phase).(announced := refused)
      ensures refused ==> trace == old(trace)
      ensures !connected && !refused ==>
                exists status: SendStatus ::
                  trace == old(trace) + [Emitted(Disconnected(1006, ReplayFailure(status)))]
    {
      var dialled, latencyMs := Dial(raceEndpoints);
      connected, refused := false, dialled == null;
      if dialled != null {
        connected := TryReplay(dialled, latencyMs);
      }
    }

    method TryReplay(dialled: WsStream, latencyMs: nat) returns (connected: bool)
      requires Valid() && BacklogBuffered() && stream == null && phase.Gap? && phase.announced && EndpointAllowed()
      requires dialled.url == currentUrl && dialled.log == [] && dialled.heard == [] && WiredUpTo([], [], [dialled])
      modifies this`firstLatency, this`stream, dialled`log
      modifies this`current, this`conn, this`closed, this`earlier, this`base, this`shown
      modifies this`trace, this`phase, this`spans, this`beat, this`due, this`marks
      ensures Valid() && EndpointAllowed() && Wired()
      ensures connected ==> ReadyToServe() && stream == dialled && phase == old(phase) && trace == old(trace)
      ensures !connected ==> BacklogBuffered() && stream == null && phase == old(phase).(announced := false)
      ensures !connected ==>
                exists status: SendStatus ::
                  trace == old(trace) + [Emitted(Disconnected(1006, ReplayFailure(status)))]
    {
      var status := Replay(dialled);
      connected := status.Sent?;
      if connected {
        Adopt(dialled, latencyMs);
      } else {
        ReportReplayFailure(status);
      }
    }

    /** Counts one more attempt and announces it, unless the attempts are used up. */
    method AnnounceAttempt() returns (more: bool)
      requires reconnectMgr != null && reconnectMgr.attempt <= reconnectMgr.config.maxAttempts
      requires Valid() && BacklogBuffered()
      requires phase.Gap? && !phase.immediate && phase.attempt == reconnectMgr.attempt
      modifies this`trace, this`phase, this`spans, this`beat, this`due, this`marks, reconnectMgr
      ensures Valid() && BacklogBuffered()
      ensures reconnectMgr.attempt == old(reconnectMgr.attempt) + 1
      ensures more <==> reconnectMgr.attempt <= reconnectMgr.config.maxAttempts
      ensures phase == if more then old(phase).(attempt := reconnectMgr.attempt, announced := true) else old(phase)
      ensures !more ==> trace == old(trace)
      ensures more ==> |trace| == |old(trace)| + 1 && trace[..|old(trace)|] == old(trace)
                       && IsBackoff(trace[|old(trace)|]) && trace[|old(trace)|].event.attempt == reconnectMgr.attempt
    {
      var delay := reconnectMgr.OnDisconnect();
      more := delay.Some?;
      if more {
        EmitBackoff(reconnectMgr.attempt, delay.value);
      }
    }

    /** Backoff, reconnect, replay: until a session can start, the attempts are used up, or a close is requested. */
    method BackoffLoop(networkChanged: bool) returns (reconnected: bool)
      requires reconnectMgr != null && reconnectMgr.attempt == 0
      requires Valid() && BacklogBuffered() && Wired() && stream == null
      requires phase.Gap? && !phase.immediate && phase.attempt == 0 && phase.roaming == networkChanged
      requires EndpointAllowed()
      modifies this, reconnectMgr, network
      ensures Valid() && Wired()
      ensures reconnected ==> ReadyToServe() && phase.Gap? && reconnectMgr.attempt == 0 && fresh(stream)
      ensures !reconnected ==> BacklogBuffered() && (Over() || Exhausted()) && !phase.Session?
    {
      var raceEndpoints := networkChanged;
      while true
        invariant Valid() && BacklogBuffered() && Wired() && stream == null
        invariant phase.Gap? && !phase.immediate && phase.attempt == reconnectMgr.attempt
        invariant phase.roaming == raceEndpoints && EndpointAllowed()
        invariant reconnectMgr.attempt <= reconnectMgr.config.maxAttempts
        decreases |commands| - taken, reconnectMgr.config.maxAttempts - reconnectMgr.attempt
      {
        var more := AnnounceAttempt();
        if !more {
          return false;
        }
        var connected, abort;
        connected, abort, raceEndpoints := MakeAttempt(raceEndpoints);
        if connected || abort {
          return connected;
        }
      }
    }

    /** One announced attempt: the wait, then the connect. */
    method MakeAttempt(racing: bool) returns (connected: bool, abort: bool, raceEndpoints: bool)
      requires Valid() && BacklogBuffered() && Wired() && stream == null && reconnectMgr != null
      requires phase.Gap? && !phase.immediate && phase.announced && phase.attempt == reconnectMgr.attempt
      requires phase.roaming == racing && EndpointAllowed()
      modifies this, reconnectMgr, network
      ensures Valid() && Wired() && old(taken) <= taken
      ensures connected ==> !abort && ReadyToServe() && phase.Gap? && reconnectMgr.attempt == 0 && fresh(stream)
      ensures !connected ==> BacklogBuffered() && stream == null
      ensures abort ==> Over() && !phase.Session?
      ensures !connected && !abort ==>
                && phase.Gap? && !phase.immediate && phase.attempt == reconnectMgr.attempt
                && phase.roaming == raceEndpoints && EndpointAllowed()
                && (reconnectMgr.attempt == old(reconnectMgr.attempt)
                    || (reconnectMgr.attempt == 0 && old(taken) < taken))
    {
      connected := false;
      abort, raceEndpoints := AwaitAttempt(racing);
      if !abort {
        var refused;
        connected, refused := TryConnect(raceEndpoints);
        if connected {
          NoteConnected();
        }
      }
    }

    /** Tells the reconnect manager, if there is one, that a connection is up. */
    method NoteConnected()
      requires Valid() && Wired() && ReadyToServe() && phase.Gap?
      modifies reconnectMgr
      ensures Valid() && Wired() && ReadyToServe() && (reconnectMgr != null ==> reconnectMgr.attempt == 0)
    {
      if reconnectMgr != null {
        reconnectMgr.OnConnected();
      }
    }

    /** The wait before an attempt; a network change during it starts the count anew. */
    method AwaitAttempt(racing: bool) returns (abort: bool, raceEndpoints: bool)
      requires Valid() && BacklogBuffered() && reconnectMgr != null
      requires phase.Gap? && !phase.immediate && phase.announced && phase.attempt == reconnectMgr.attempt
      requires phase.roaming == racing && EndpointAllowed()
      modifies this`trace, this`phase, this`spans, this`beat, this`due, this`marks
      modifies this`taken, this`buffered, this`pending
      modifies reconnectMgr
      ensures Valid() && BacklogBuffered() && old(taken) <= taken
      ensures abort ==> Over() && !phase.Session?
      ensures !abort ==>
                && phase.Gap? && !phase.immediate && phase.announced && phase.attempt == reconnectMgr.attempt
                && phase.roaming == raceEndpoints && EndpointAllowed()
                && (reconnectMgr.attempt == old(reconnectMgr.attempt)
                    || (reconnectMgr.attempt == 0 && old(taken) < taken))
    {
      raceEndpoints := racing;
      var skip;
      abort, skip := WaitForAttempt();
      if !abort && skip {
        RebuildClientAfterNetworkChange();
        reconnectMgr.Reset();
        raceEndpoints := true;
      }
    }

    method AnnounceImmediate()
      requires Valid() && BacklogBuffered() && phase.Gap? && phase.immediate
      modifies this`trace, this`phase, this`spans, this`beat, this`due, this`marks
      ensures Valid() && BacklogBuffered() && phase == old(phase).(immediate := false, announced := true)
      ensures trace == old(trace) + [Emitted(Reconnecting(0, 0))]
    {
      Emit(Reconnecting(0, 0));
    }

    method ReportRefusal()
      requires Valid() && BacklogBuffered() && phase.Gap?
      modifies this`trace, this`phase, this`spans, this`beat, this`due, this`marks
      ensures Valid() && BacklogBuffered() && phase == old(phase)
      ensures trace == old(trace) + [Emitted(Event.Error(ReconnectFailure))]
    {
      Emit(Event.Error(ReconnectFailure));
    }

    /** The one attempt made at once after a network change, on any endpoint. */
    method DialAtOnce() returns (connected: bool)
      requires Valid() && BacklogBuffered() && Wired() && stream == null
      requires phase.Gap? && phase.immediate && phase.attempt == 0 && phase.roaming && phase.url == currentUrl
      modifies this`currentUrl, this`firstLatency, this`stream, network
      modifies this`current, this`conn, this`closed, this`earlier, this`base, this`shown
      modifies this`trace, this`phase, this`spans, this`beat, this`due, this`marks
      ensures Valid() && EndpointAllowed() && Wired() && (connected <==> stream != null)
      ensures phase.roaming && !phase.immediate && phase.attempt == 0
      ensures connected ==> ReadyToServe() && fresh(stream)
      ensures !connected ==> BacklogBuffered() && currentUrl == old(currentUrl)
    {
      AnnounceImmediate();
      var urlBefore := currentUrl;
      var refused;
      connected, refused := TryConnect(true);
      if !connected {
        StayWith(urlBefore, refused);
      }
    }

    /** An endpoint is only kept once its session can start. */
    method StayWith(urlBefore: Url, refused: bool)
      requires Valid() && BacklogBuffered() && phase.Gap? && phase.url == urlBefore
      modifies this`currentUrl, this`trace, this`phase, this`spans, this`beat, this`due, this`marks
      ensures Valid() && BacklogBuffered() && EndpointAllowed() && phase == old(phase) && currentUrl == urlBefore
      ensures trace == if refused && config.reconnect.None?
                       then old(trace) + [Emitted(Event.Error(ReconnectFailure))] else old(trace)
    {
      currentUrl := urlBefore;
      if refused && config.reconnect.None? {
        ReportRefusal();
      }
    }

    method DrainAndRebuild() returns (stop: bool)
      requires Valid() && BacklogBuffered() && phase == Gap(currentUrl, 0, true, true, false)
      modifies this`trace, this`phase, this`spans, this`beat, this`due, this`marks
      modifies this`taken, this`buffered, this`pending
      ensures Valid() && BacklogBuffered()
      ensures if stop then Over() && !phase.Session? else phase == old(phase)
    {
      var changed;
      stop, changed := DrainCommands();
      if !stop {
        RebuildClientAfterNetworkChange();
      }
    }

    /** The network-change path: drain the channel, rebuild the client, reset the backoff, dial at once. */
    method ReconnectAtOnce() returns (reconnected: bool, abort: bool)
      requires Valid() && BacklogBuffered() && Wired() && stream == null
      requires phase == Gap(currentUrl, 0, true, true, false)
      modifies this, reconnectMgr, network
      ensures Valid() && Wired()
      ensures reconnected ==> !abort && ReadyToServe() && phase.Gap? && fresh(stream)
      ensures reconnectMgr != null && !abort ==> reconnectMgr.attempt == 0
      ensures !reconnected ==> BacklogBuffered() && (abort ==> Over()) && !phase.Session?
      ensures !reconnected && !abort ==>
                && stream == null && EndpointAllowed() && phase.roaming && !phase.immediate && phase.attempt == 0
    {
      abort := DrainAndRebuild();
      if abort {
        return false, true;
      }
      if reconnectMgr != null {
        reconnectMgr.Reset();
      }
      reconnected := DialAtOnce();
      if reconnected {
        NoteConnected();
      }
    }

    /** Enters what happened to the command just taken into the current session's log. */
    ghost method LogServed(attempts: seq<Attempt>)
      requires Valid() && current.live && AllSent(current.log) && current.end + 1 == taken
      requires WiredUpTo(attempts, [], []) && spans == CountOne(shown + [SpanOf(current)])
      requires Frames(attempts) == FrameOf(config.codec, commands[current.end])
      modifies this`current
      ensures Valid() && Wired() && current.live && current.end == taken && spans == shown + [SpanOf(current)]
      ensures AllSent(attempts) ==> AllSent(current.log)
    {
      if WellCarried(config.codec, commands, current) {
        ExtendKeepsCarrying(config.codec, commands, current, attempts);
      }
      assert AllSent(attempts) ==> AllSent(Extend(current, attempts).log);
      Change(Extend(current, attempts));
    }

    /** Encodes a message and sends it; an encoding failure is reported and the session goes on. */
    method Transmit(writer: WsStream, command: Command) returns (status: SendStatus, ghost attempts: seq<Attempt>)
      requires Valid() && (IsMessage(command) ==> phase.Session? && beat.Some?) && Wired() && writer == conn
      requires due == Answer(config, beat, Took(command))
      modifies this`trace, this`phase, this`spans, this`beat, this`due, this`marks, writer`log
      ensures Valid() && WiredUpTo(attempts, [], [])
      ensures phase == old(phase) && spans == old(spans) && beat == old(beat) && due.None?
      ensures Frames(attempts) == FrameOf(config.codec, command)
      ensures if status.Sent? then AllSent(attempts) else attempts != [] && !attempts[|attempts| - 1].sent
      ensures trace == if IsMessage(command) && EncodeCommand(config.codec, command).None?
                       then old(trace) + [Emitted(Event.Error(EncodeFailure))] else old(trace)
    {
      var frame := EncodeCommand(config.codec, command);
      status, attempts := Sent, [];
      if frame.Some? {
        status := SendOn(writer, frame.value);
        attempts := [Attempt(frame.value, status.Sent?)];
      } else if IsMessage(command) {
        Emit(Event.Error(EncodeFailure));
      }
    }

    method SendOn(writer: WsStream, frame: Frame) returns (status: SendStatus)
      requires Wired() && writer == conn
      modifies writer`log
      ensures WiredUpTo([Attempt(frame, status.Sent?)], [], [])
    {
      status := writer.Send(frame);
    }

    /** Takes the next command and serves it on the current connection. */
    method ServeNext(writer: WsStream) returns (command: Command, status: SendStatus)
      requires Valid() && InSession() && Wired() && writer == conn && taken < |commands|
      modifies this`trace, this`phase, this`spans, this`beat, this`due, this`marks, this`taken, this`current, writer`log
      ensures Valid() && Wired() && Settled() && taken == old(taken) + 1
      ensures command == commands[old(taken)]
      ensures phase == Move(config, old(phase), Took(command)) && beat == old(beat) && due.None?
      ensures status.Sent? ==> AllSent(current.log)
    {
      command := Take();
      ghost var attempts: seq<Attempt>;
      status, attempts := Transmit(writer, command);
      LogServed(attempts);
    }

    /** What a command can do to the session that takes it. */
    ghost predicate EndsAs(command: Command, end: Option<Outcome>) {
      match command
      case Close(_, _) => end == Some(CleanClose)
      case NetworkChanged => end == Some(NetworkSwitched)
      case _ =>
        end.None? || (exists status: SendStatus :: !status.Sent? && end == Some(Dropped(1006, SendFailure(status))))
    }

    /** The command branch of the select loop; None lets the session go on. */
    method CommandBranch(writer: WsStream) returns (end: Option<Outcome>)
      requires Valid() && InSession() && Wired() && writer == conn
      modifies this`trace, this`phase, this`spans, this`beat, this`due, this`marks, this`taken, this`current, writer`log
      ensures Valid() && Wired() && Settled() && beat == old(beat) && due.None?
      ensures end.None? ==> InSession()
      ensures end.Some? ==> !end.value.Observed? && !end.value.HeartbeatTimeout?
      ensures if old(taken) == |commands| then taken == old(taken) && end == Some(CleanClose)
              else taken == old(taken) + 1 && EndsAs(commands[old(taken)], end)
      ensures end == Some(CleanClose) ==> Over()
      ensures end == Some(NetworkSwitched) ==> phase == Phase.Leaving(currentUrl)
      ensures end.Some? && end.value.Dropped? ==> phase == Phase.Session(currentUrl)
    {
      if taken == |commands| {
        return Some(CleanClose);                 // every handle is gone
      }
      var command, status := ServeNext(writer);
      match command {
        case Close(_, _) =>
          var _ := writer.SendControl();
          end := Some(CleanClose);
        case NetworkChanged =>
          end := Some(NetworkSwitched);
        case _ =>
          end := if status.Sent? then None else Some(Dropped(1006, SendFailure(status)));
      }
    }

    /** Tells the application of a data frame: the message, or that it does not decode. */
    method DeliverData(frame: Frame)
      requires Valid() && InSession() && WiredUpTo([], [Arrived(frame)], [])
      modifies this`trace, this`phase, this`spans, this`beat, this`due, this`marks, this`current
      ensures Valid() && InSession() && Wired() && beat == old(beat)
      ensures trace == old(trace) + [Heard(Arrived(frame)), Emitted(Delivery(config.codec, frame))]
    {
      Hear(Arrived(frame));
      var received := Receive(frame, config.codec);
      if received.Ok? {
        Emit(Event.Message(received.value.data, received.value.isBinary));
      } else {
        Emit(Event.Error(DecodeFailure));
      }
    }

    /** The heartbeat state, if any, is what the session's signals have made of it. */
    ghost predicate HeartbeatInStep(hb: Heartbeat.HeartbeatState?, now: nat)
      reads `beat, hb, if hb != null then {hb.mgr} else {}
    {
      && (hb != null <==> config.heartbeat.Some?)
      && (hb != null ==>
            && hb.Valid() && hb.clock <= now && hb.mgr.config == config.heartbeat.value && beat == Some(hb.Value()))
    }

    method DeliverPong(hb: Heartbeat.HeartbeatState, now: nat)
      requires Valid() && UpToDate() && phase == Phase.Session(currentUrl)
      requires config.heartbeat.Some? && hb.mgr.config == config.heartbeat.value
      requires hb.Valid() && hb.clock <= now && beat == Some(Heartbeat.PongStep(hb.Value(), now))
      requires due == Some(HeartbeatRtt(Heartbeat.RoundTrip(hb.Value(), now)))
      modifies this`trace, this`phase, this`spans, this`beat, this`due, this`marks, hb, hb.mgr
      ensures Valid() && InSession() && HeartbeatInStep(hb, now)
      ensures trace == old(trace) + [Emitted(HeartbeatRtt(Heartbeat.RoundTrip(old(hb.Value()), now)))]
    {
      var rttMs := hb.OnPong(now);
      Emit(HeartbeatRtt(rttMs));
    }

    /** The trace after a turn in which this became ready: what is heard, and at once the event it calls for. */
    ghost function Shown(before: Trace, ready: Ready, pulse: Option<Heartbeat.Beat>, now: nat): Trace {
      match ready
      case HeartbeatTick => before + [Heard(Pulse(Heartbeat.Tick(now)))]
      case IncomingFrame(Data(frame)) =>
        before + [Heard(Arrived(frame)), Emitted(Delivery(config.codec, frame))]
      case IncomingFrame(PongFrame) =>
        var answer := Answer(config, pulse, Heard(Pulse(Heartbeat.Pong(now))));
        before + [Heard(Pulse(Heartbeat.Pong(now)))] + if answer.Some? then [Emitted(answer.value)] else []
      case _ => before
    }

    /** The frame branch of the select loop. */
    method FrameBranch(writer: WsStream, incoming: Incoming, hb: Heartbeat.HeartbeatState?, now: nat)
      returns (end: Option<Outcome>)
      requires Valid() && InSession() && HeartbeatInStep(hb, now)
      requires WiredUpTo([], HeardOf(IncomingFrame(incoming), now), [])
      modifies this`trace, this`phase, this`spans, this`beat, this`due, this`marks, this`current
      modifies hb, if hb != null then {hb.mgr} else {}
      ensures Valid() && InSession() && Wired() && HeartbeatInStep(hb, now)
      ensures end == match incoming
                     case CloseFrame(code, reason) => Some(Dropped(code, PeerClose(reason)))
                     case StreamEnded => Some(Dropped(1006, StreamEnd))
                     case _ => None
      ensures trace == Shown(old(trace), IncomingFrame(incoming), old(beat), now)
    {
      end := None;
      match incoming {
        case Data(frame) =>
          DeliverData(frame);
        case PongFrame =>
          PongBranch(hb, now);
        case CloseFrame(code, reason) =>
          var _ := writer.SendControl();
          end := Some(Dropped(code, PeerClose(reason)));
        case StreamEnded =>
          end := Some(Dropped(1006, StreamEnd));
        case _ =>
      }
    }

    method PongBranch(hb: Heartbeat.HeartbeatState?, now: nat)
      requires Valid() && InSession() && HeartbeatInStep(hb, now)
      requires WiredUpTo([], [Pulse(Heartbeat.Pong(now))], [])
      modifies this`trace, this`phase, this`spans, this`beat, this`due, this`marks, this`current
      modifies hb, if hb != null then {hb.mgr} else {}
      ensures Valid() && InSession() && Wired() && HeartbeatInStep(hb, now)
      ensures trace == old(trace) + [Heard(Pulse(Heartbeat.Pong(now)))]
                       + if hb == null then []
                         else [Emitted(HeartbeatRtt(Heartbeat.RoundTrip(old(beat).value, now)))]
    {
      Hear(Pulse(Heartbeat.Pong(now)));
      if hb != null {
        DeliverPong(hb, now);
      }
    }

    /** The heartbeat takes the tick. */
    method DeliverTick(hb: Heartbeat.HeartbeatState, now: nat) returns (givenUp: bool)
      requires config.heartbeat.Some? && hb.mgr.config == config.heartbeat.value && hb.Valid() && hb.clock <= now
      requires Valid() && UpToDate() && Wired() && beat == Heartbeat.TickStep(config.heartbeat.value, hb.Value(), now)
      modifies hb, hb.mgr
      ensures Valid() && UpToDate() && Wired()
      ensures givenUp <==> beat.None?
      ensures !givenUp ==> HeartbeatInStep(hb, now)
    {
      givenUp := hb.OnTick(now);
    }

    /** The heartbeat branch of the select loop: check for silence, then send the next ping. */
    method TickBranch(writer: WsStream, hb: Heartbeat.HeartbeatState, now: nat) returns (end: Option<Outcome>)
      requires Valid() && InSession() && HeartbeatInStep(hb, now)
      requires WiredUpTo([], [Pulse(Heartbeat.Tick(now))], [])
      modifies this`trace, this`phase, this`spans, this`beat, this`due, this`marks, this`current, hb, hb.mgr
      ensures Valid() && UpToDate() && Wired() && phase == old(phase) && due.None?
      ensures trace == old(trace) + [Heard(Pulse(Heartbeat.Tick(now)))]
      ensures beat == Heartbeat.TickStep(config.heartbeat.value, old(hb.Value()), now)
      ensures end == Some(HeartbeatTimeout) || end == Some(Dropped(1006, PingSendTimeout)) || end == None
      ensures end == Some(HeartbeatTimeout) <==> beat.None?
      ensures end != Some(HeartbeatTimeout) ==> HeartbeatInStep(hb, now)
    {
      Hear(Pulse(Heartbeat.Tick(now)));
      var givenUp := DeliverTick(hb, now);
      if givenUp {
        return Some(HeartbeatTimeout);
      }
      var status := writer.SendControl();
      end := if status.TimedOut? then Some(Dropped(1006, PingSendTimeout)) else None;
    }

    method StartHeartbeat() returns (hb: Heartbeat.HeartbeatState?)
      requires beat == Some(Heartbeat.FRESH)
      ensures hb != null ==> fresh(hb) && fresh(hb.mgr)
      ensures HeartbeatInStep(hb, 0)
    {
      hb := null;
      if config.heartbeat.Some? {
        hb := new Heartbeat.HeartbeatState(config.heartbeat.value);
      }
    }

    /** Waits until a branch is ready; the history does not know yet what the stream gave. */
    method Await(writer: WsStream, now: nat, ticking: bool) returns (ready: Ready)
      requires Wired() && writer == conn
      modifies writer`heard, clock
      ensures WiredUpTo([], HeardOf(ready, now), []) && clock.turns == old(clock.turns) + 1
      ensures writer.heard == old(writer.heard) + HeardOf(ready, now)
      ensures ready.HeartbeatTick? ==> ticking
    {
      ready := writer.Select(clock, now, ticking);
    }

    /** One turn of the select loop: whichever branch is ready. */
    method TakeTurn(writer: WsStream, hb: Heartbeat.HeartbeatState?, now: nat)
      returns (ready: Ready, end: Option<Outcome>)
      requires Valid() && InSession() && Wired() && writer == conn && HeartbeatInStep(hb, now)
      modifies this`trace, this`phase, this`spans, this`beat, this`due, this`marks, this`taken, this`current
      modifies writer, clock, hb, if hb != null then {hb.mgr} else {}
      ensures Valid() && Wired() && Settled() && clock.turns == old(clock.turns) + 1
      ensures writer.heard == old(writer.heard) + HeardOf(ready, now)
      ensures !ready.UserCommand? ==> trace == Shown(old(trace), ready, old(beat), now)
      ensures end.None? ==> InSession() && HeartbeatInStep(hb, now)
      ensures end.Some? ==> Ended(end.value)
    {
      end := None;
      ready := Await(writer, now, hb != null);
      match ready {
        case UserCommand =>
          end := CommandBranch(writer);
        case HeartbeatTick =>
          end := TickBranch(writer, hb, now);
        case IncomingFrame(incoming) =>
          end := FrameBranch(writer, incoming, hb, now);
      }
    }

    /** The current session has dealt with everything taken, whatever became of its last frame. */
    ghost predicate Settled()
      reads `current, `taken, `shown, `spans
    {
      current.live && current.end == taken && spans == shown + [SpanOf(current)]
    }

    /** What is left of a session that ended this way. */
    ghost predicate Ended(outcome: Outcome)
      reads `phase, `currentUrl, `beat, `due, `taken
    {
      due.None? &&
      match outcome
      case CleanClose => Over() && beat.Some?
      case NetworkSwitched => phase == Phase.Leaving(currentUrl)
      case HeartbeatTimeout => phase == Phase.Session(currentUrl) && beat.None?
      case Dropped(_, reason) => phase == Phase.Session(currentUrl) && beat.Some? && reason != HeartbeatLost
      case Observed => false
    }

    /** Serves one connection until it ends; `horizon` is how many turns of the select loop are observed. */
    method RunSession(horizon: nat) returns (outcome: Outcome, left: nat)
      requires Valid() && InSession() && Wired() && stream == conn
      requires beat == Some(Heartbeat.FRESH)
      modifies this, stream, clock
      ensures Valid() && Wired() && Settled()
      ensures stream == null && left <= horizon && currentUrl == old(currentUrl)
      ensures clock.turns == old(clock.turns) + (horizon - left)
      ensures if outcome.Observed? then left == 0 && InSession() else left < horizon && Ended(outcome)
    {
      var writer := stream;
      stream := null;
      left := horizon;
      var hb := StartHeartbeat();
      var now: nat := 0;
      while left > 0
        invariant Valid() && InSession() && Wired() && writer == conn && stream == null && left <= horizon
        invariant currentUrl == old(currentUrl) && clock.turns == old(clock.turns) + (horizon - left)
        invariant hb != null ==> fresh(hb) && fresh(hb.mgr)
        invariant HeartbeatInStep(hb, now)
      {
        left := left - 1;
        var elapsed: int := *;
        now := now + Max(0, elapsed);
        var _, end := TakeTurn(writer, hb, now);
        if end.Some? {
          return end.value, left;
        }
      }
      outcome := Observed;
    }

    /** The reconnect phase between two sessions. */
    method ReconnectPhase(networkChanged: bool) returns (reconnected: bool)
      requires Valid() && Wired() && Settled() && stream == null
      requires phase == Gap(currentUrl, 0, networkChanged, networkChanged, false)
      requires reconnectMgr != null ==> reconnectMgr.attempt == 0
      modifies this, reconnectMgr, network
      ensures Valid() && Wired()
      ensures reconnected ==> ReadyToServe() && fresh(stream) && (reconnectMgr != null ==> reconnectMgr.attempt == 0)
      ensures !reconnected ==> BacklogBuffered() && (Over() || Exhausted()) && !phase.Session?
    {
      buffered, pending := [], [];
      if networkChanged {
        var abort;
        reconnected, abort := ReconnectAtOnce();
        if reconnected || abort {
          return;
        }
      }
      if reconnectMgr == null {
        return false;
      }
      reconnected := BackoffLoop(networkChanged);
    }

    /** Ends the session that just stopped with its Disconnected event. */
    method AnnounceEnd(outcome: Outcome)
      requires Valid() && Ended(outcome) && !outcome.CleanClose?
      modifies this`trace, this`phase, this`spans, this`beat, this`due, this`marks
      ensures Valid() && spans == old(spans)
      ensures phase == Gap(currentUrl, 0, outcome.NetworkSwitched?, outcome.NetworkSwitched?, false)
      ensures var code := if outcome.Dropped? then outcome.code else 1006;
              var reason := if outcome.Dropped? then outcome.reason
                            else if outcome.NetworkSwitched? then NetworkSwitch else HeartbeatLost;
              trace == old(trace) + [Emitted(Disconnected(code, reason))]
    {
      match outcome {
        case HeartbeatTimeout => Emit(Disconnected(1006, HeartbeatLost));
        case NetworkSwitched => Emit(Disconnected(1006, NetworkSwitch));
        case Dropped(code, reason) => Emit(Disconnected(code, reason));
      }
    }

    method AnnounceSession()
      requires Valid() && ReadyToServe()
      modifies this`trace, this`phase, this`spans, this`beat, this`due, this`marks
      ensures Valid() && InSession() && stream == conn && beat == Some(Heartbeat.FRESH)
      ensures trace == old(trace) + [Emitted(Connected(stream.url, firstLatency))]
    {
      Emit(Connected(currentUrl, firstLatency));
    }

    lemma KeptSoFar()
      requires Valid() && SessionsSoFar() == spans
      ensures Kept(config, commands, trace, marks, History())
      ensures marks[|trace|] == MarkAfter(config, trace) == Mark(phase, taken, spans, beat, due)
      ensures Legal(config, trace) && Taken(trace) == commands[..taken]
    {
      assert Opened(HistoryBook, true) && Opened(TraceBook, true);
      WellFormedSnoc(config.codec, commands, closed, current);
      RecordedRun(config, commands, trace, marks);
      RecordedTaken(config, commands, trace, marks);
    }

    /** What every connection the network ever established was sent and gave is what the history says. */
    lemma WireShown()
      requires Wired()
      ensures |network.established| == |History()|
      ensures forall k :: 0 <= k < |network.established| ==>
                network.established[k].log == History()[k].log && network.established[k].heard == History()[k].heard
    {
      assert Opened(WireBook, true);
    }

    /** One session from its Connected event on, and the reconnect phase after it, unless the manager stops. */
    method ServeOnce(horizon: nat) returns (goesOn: bool, ended: bool, left: nat)
      requires Valid() && ReadyToServe() && Wired() && (reconnectMgr != null ==> reconnectMgr.attempt == 0)
      modifies this, reconnectMgr, network, clock, stream
      ensures Valid() && Wired()
      ensures goesOn ==>
                && ReadyToServe() && fresh(stream) && left < horizon
                && (reconnectMgr != null ==> reconnectMgr.attempt == 0)
      ensures !goesOn ==>
                SessionsSoFar() == spans && (Settled() || BacklogBuffered()) && Rested()
      ensures !goesOn ==> if ended then Over() || Exhausted() else left == 0
      ensures left <= horizon && clock.turns == old(clock.turns) + (horizon - left)
    {
      AnnounceSession();
      var outcome: Outcome;
      outcome, left := RunSession(horizon);
      ended, goesOn := !outcome.Observed?, false;
      if ended && !outcome.CleanClose? {
        AnnounceEnd(outcome);
        goesOn := ReconnectPhase(outcome.NetworkSwitched?);
      }
    }

    /** The whole manager: sessions and reconnect phases, for every behaviour of peers, network and time. */
    method Run(horizon: nat) returns (ended: bool)
      requires Valid() && ReadyToServe() && Wired() && (reconnectMgr != null ==> reconnectMgr.attempt == 0)
      modifies this, reconnectMgr, network, clock, stream
      ensures Valid() && (Settled() || BacklogBuffered())
      ensures if ended then Over() || Exhausted() else clock.turns == old(clock.turns) + horizon
      ensures |network.established| == |History()|
      ensures forall k :: 0 <= k < |network.established| ==>
                network.established[k].log == History()[k].log && network.established[k].heard == History()[k].heard
      ensures Kept(config, commands, trace, marks, History())
      ensures marks[|trace|] == MarkAfter(config, trace) == Mark(phase, taken, spans, beat, due) && Rested()
      ensures Legal(config, trace) && Taken(trace) == commands[..taken]
    {
      var left, goesOn := horizon, true;
      ended := false;
      while goesOn
        invariant Valid() && Wired()
        invariant goesOn ==> ReadyToServe() && (reconnectMgr != null ==> reconnectMgr.attempt == 0)
        invariant goesOn ==> stream == old(stream) || fresh(stream)
        invariant !goesOn ==>
                    SessionsSoFar() == spans && (Settled() || BacklogBuffered()) && Rested()
        invariant !goesOn ==> if ended then Over() || Exhausted() else left == 0
        invariant 0 <= left <= horizon && clock.turns == old(clock.turns) + (horizon - left)
        decreases goesOn, left
      {
        goesOn, ended, left := ServeOnce(left);
      }
      KeptSoFar();
      WireShown();
    }
  }
}
