/**
 * The history of a client's connections, and what it says about every command: which connection carried it, in what
 * order, and whether it was lost.
 */
module SessionLog {
  import opened Prelude
  import opened MessageCodec
  import opened WsTypes
  import opened EventGrammar

  /** A user frame handed to a connection; `sent` is false when the send failed or timed out. */
  datatype Attempt = Attempt(frame: Frame, sent: bool)

  /**
   * One established transport connection. Commands are numbered in channel order: `from` is the first not carried by
   * an earlier session, `upto` the number taken when this connection was opened, `end` the number taken when it was
   * given up (or now). It is `live` once it became a session; otherwise its replay failed. `heard` are the ticks, pongs
   * and data frames it gave.
   */
  datatype Connection = Connection(
    from: nat,
    upto: nat,
    end: nat,
    log: seq<Attempt>,
    live: bool,
    heard: seq<Given>
  )

  /** What the event trace shows of a session: the commands taken when it began and ended, and what it heard. */
  datatype Span = Span(upto: nat, end: nat, heard: seq<Given>)

  /** The last session takes one more command, or hears one thing more. */
  function CountOne(spans: seq<Span>): seq<Span>
    requires spans != []
  {
    var n := |spans| - 1;
    spans[..n] + [spans[n].(end := spans[n].end + 1)]
  }

  function HearOne(spans: seq<Span>, given: Given): seq<Span>
    requires spans != []
  {
    var n := |spans| - 1;
    spans[..n] + [spans[n].(heard := spans[n].heard + [given])]
  }

  function SpanOf(c: Connection): Span {
    Span(c.upto, c.end, c.heard)
  }

  /** The sessions among the connections, in order. */
  function Sessions(history: seq<Connection>): seq<Span> {
    if history == [] then []
    else
      Sessions(history[..|history| - 1]) + if history[|history| - 1].live then [SpanOf(history[|history| - 1])] else []
  }

  lemma SessionsSnoc(history: seq<Connection>, c: Connection)
    ensures Sessions(history + [c]) == if c.live then Sessions(history) + [SpanOf(c)] else Sessions(history)
  {
    assert (history + [c])[..|history|] == history;
  }

  // ------------------------------------------------------------- frames of commands

  function EncodeCommand(codec: CodecConfig, command: Command): Option<Frame> {
    if command.Text? && EncodeText(command.text, codec).Ok? then Some(EncodeText(command.text, codec).value)
    else if command.Binary? && EncodeBinary(command.data, codec).Ok? then Some(EncodeBinary(command.data, codec).value)
    else None
  }

  /** The frames a connection carries for a run of commands: one for each that encodes, in order. */
  function Carried(codec: CodecConfig, commands: seq<Command>): seq<Frame> {
    if commands == [] then []
    else
      var last := EncodeCommand(codec, commands[|commands| - 1]);
      Carried(codec, commands[..|commands| - 1]) + if last.Some? then [last.value] else []
  }

  predicate IsMessage(command: Command) {
    command.Text? || command.Binary?
  }

  /** What the reconnect buffer holds after taking a run of commands. */
  function Messages(commands: seq<Command>): seq<Command> {
    if commands == [] then []
    else
      var last := commands[|commands| - 1];
      Messages(commands[..|commands| - 1]) + if IsMessage(last) then [last] else []
  }

  lemma CarriedSnoc(codec: CodecConfig, commands: seq<Command>, command: Command)
    ensures Carried(codec, commands + [command])
            == Carried(codec, commands) + if EncodeCommand(codec, command).Some?
                                          then [EncodeCommand(codec, command).value] else []
  {
    assert (commands + [command])[..|commands|] == commands;
  }

  lemma {:induction false} CarriedConcat(codec: CodecConfig, a: seq<Command>, b: seq<Command>)
    ensures Carried(codec, a + b) == Carried(codec, a) + Carried(codec, b)
  {
    if b == [] {
      assert a + b == a;
    } else {
      var front, last := b[..|b| - 1], b[|b| - 1];
      CarriedConcat(codec, a, front);
      assert a + b == (a + front) + [last] && b == front + [last];
      CarriedSnoc(codec, a + front, last);
      CarriedSnoc(codec, front, last);
    }
  }

  lemma CarriedPrefix(codec: CodecConfig, commands: seq<Command>, n: nat)
    requires n <= |commands|
    ensures Carried(codec, commands[..n]) <= Carried(codec, commands)
  {
    assert commands == commands[..n] + commands[n..];
    CarriedConcat(codec, commands[..n], commands[n..]);
  }

  lemma MessagesSnoc(commands: seq<Command>, command: Command)
    ensures Messages(commands + [command])
            == if IsMessage(command) then Messages(commands) + [command] else Messages(commands)
  {
    assert (commands + [command])[..|commands|] == commands;
  }

  /** Dropping the control commands while buffering loses no frame. */
  lemma {:induction false} BufferCarriesTheSame(codec: CodecConfig, commands: seq<Command>)
    ensures Carried(codec, Messages(commands)) == Carried(codec, commands)
  {
    if commands != [] {
      var front, last := commands[..|commands| - 1], commands[|commands| - 1];
      BufferCarriesTheSame(codec, front);
      if IsMessage(last) {
        CarriedSnoc(codec, Messages(front), last);
      } else {
        assert Messages(commands) == Messages(front);
        assert Carried(codec, commands) == Carried(codec, front);
      }
    }
  }

  /** The frame of command i sits right after the frames of the commands before it. */
  lemma CarriedPosition(codec: CodecConfig, commands: seq<Command>, from: nat, i: nat, end: nat)
    requires from <= i < end <= |commands|
    requires EncodeCommand(codec, commands[i]).Some?
    ensures var p := |Carried(codec, commands[from..i])|;
            var frames := Carried(codec, commands[from..end]);
            p < |frames| && frames[p] == EncodeCommand(codec, commands[i]).value
  {
    var a, b := commands[from..i], commands[i + 1..end];
    assert commands[from..end] == (a + [commands[i]]) + b;
    CarriedConcat(codec, a + [commands[i]], b);
    CarriedSnoc(codec, a, commands[i]);
  }

  // ------------------------------------------------------------- histories

  function Frames(log: seq<Attempt>): (frames: seq<Frame>)
    ensures |frames| == |log|
    ensures forall j :: 0 <= j < |log| ==> frames[j] == log[j].frame
  {
    seq(|log|, j requires 0 <= j < |log| => log[j].frame)
  }

  /** Nothing is handed to a connection after a failed send. */
  predicate OnlyLastMayFail(log: seq<Attempt>) {
    forall j :: 0 <= j < |log| - 1 ==> log[j].sent
  }

  predicate AllSent(log: seq<Attempt>) {
    forall j :: 0 <= j < |log| ==> log[j].sent
  }

  ghost predicate WellCarried(codec: CodecConfig, commands: seq<Command>, c: Connection) {
    && c.from <= c.upto <= c.end <= |commands|
    && OnlyLastMayFail(c.log)
    && if c.live then
         && Frames(c.log) == Carried(codec, commands[c.from..c.end])
         && AllSent(c.log[..Min(|c.log|, |Carried(codec, commands[c.from..c.upto])|)])
       else
         && c.end == c.upto
         && Frames(c.log) <= Carried(codec, commands[c.from..c.upto])
         && c.log != [] && !c.log[|c.log| - 1].sent
  }

  /** How many commands the sessions so far have dealt with. */
  function Covered(history: seq<Connection>): nat {
    if history == [] then 0
    else if history[|history| - 1].live then history[|history| - 1].end
    else Covered(history[..|history| - 1])
  }

  /** Every connection resumes exactly where the sessions before it stopped. */
  ghost predicate WellFormed(codec: CodecConfig, commands: seq<Command>, history: seq<Connection>) {
    forall k :: 0 <= k < |history| ==>
      WellCarried(codec, commands, history[k]) && history[k].from == Covered(history[..k])
  }

  lemma {:induction false} WellFormedSnoc(
    codec: CodecConfig, commands: seq<Command>, history: seq<Connection>, c: Connection)
    requires WellFormed(codec, commands, history)
    requires WellCarried(codec, commands, c) && c.from == Covered(history)
    ensures WellFormed(codec, commands, history + [c])
    ensures Covered(history + [c]) == if c.live then c.end else Covered(history)
    ensures Sessions(history + [c]) == if c.live then Sessions(history) + [SpanOf(c)] else Sessions(history)
  {
    var h := history + [c];
    assert h[..|history|] == history;
    SessionsSnoc(history, c);
    forall k | 0 <= k < |h| ensures WellCarried(codec, commands, h[k]) && h[k].from == Covered(h[..k]) {
      if k < |history| {
        assert h[..k] == history[..k];
      }
    }
  }

  lemma {:induction false} CoveredBounded(codec: CodecConfig, commands: seq<Command>, history: seq<Connection>)
    requires WellFormed(codec, commands, history)
    ensures Covered(history) <= |commands|
  {
    if history != [] {
      var front := history[..|history| - 1];
      PrefixWellFormed(codec, commands, history, |history| - 1);
      CoveredBounded(codec, commands, front);
    }
  }

  lemma {:induction false} PrefixWellFormed(
    codec: CodecConfig, commands: seq<Command>, history: seq<Connection>, n: nat)
    requires n <= |history| && WellFormed(codec, commands, history)
    ensures WellFormed(codec, commands, history[..n])
  {
    var prefix := history[..n];
    forall k | 0 <= k < n
      ensures WellCarried(codec, commands, prefix[k]) && prefix[k].from == Covered(prefix[..k])
    {
      assert prefix[..k] == history[..k];
    }
  }

  // ------------------------------------------------------------- the theorems

  /** The session k took command i from the channel or from the reconnect buffer. */
  predicate Carries(c: Connection, i: nat) {
    c.live && c.from <= i < c.end
  }

  /** Where the frame of command i stands in the log of a connection that carries it. */
  ghost function Slot(codec: CodecConfig, commands: seq<Command>, c: Connection, i: nat): nat
    requires c.from <= i <= |commands|
  {
    |Carried(codec, commands[c.from..i])|
  }

  /** No command before `Covered` is missing: a session carries it. */
  lemma {:induction false} SomeSessionCarries(
    codec: CodecConfig, commands: seq<Command>, history: seq<Connection>, i: nat) returns (k: nat)
    requires WellFormed(codec, commands, history)
    requires i < Covered(history)
    ensures k < |history| && Carries(history[k], i)
  {
    var last := |history| - 1;
    if history[last].live && history[last].from <= i {
      return last;
    }
    PrefixWellFormed(codec, commands, history, |history| - 1);
    assert history[last].from == Covered(history[..last]);
    k := SomeSessionCarries(codec, commands, history[..last], i);
  }

  /** What is covered is what had been taken when the last session ended. */
  lemma {:induction false} CoveredIsTheLastEnd(history: seq<Connection>)
    ensures Covered(history) == LastEnd(Sessions(history))
  {
    if history != [] {
      CoveredIsTheLastEnd(history[..|history| - 1]);
    }
  }

  function LastEnd(spans: seq<Span>): nat {
    if spans == [] then 0 else spans[|spans| - 1].end
  }

  /** The connection of the n-th session; it takes up exactly where the session before it ended. */
  lemma {:induction false} NthSession(
    codec: CodecConfig, commands: seq<Command>, history: seq<Connection>, n: nat) returns (k: nat)
    requires WellFormed(codec, commands, history) && n < |Sessions(history)|
    ensures k < |history| && history[k].live && SpanOf(history[k]) == Sessions(history)[n]
    ensures history[k].from == LastEnd(Sessions(history)[..n])
  {
    var last := |history| - 1;
    if n < |Sessions(history[..last])| {
      PrefixWellFormed(codec, commands, history, last);
      k := NthSession(codec, commands, history[..last], n);
      assert Sessions(history)[..n] == Sessions(history[..last])[..n];
    } else {
      k := last;
      assert history[last].from == Covered(history[..last]);
      CoveredIsTheLastEnd(history[..last]);
      assert Sessions(history)[..n] == Sessions(history[..last]);
    }
  }

  /** Coverage only grows along the history. */
  lemma {:induction false} CoveredGrows(
    codec: CodecConfig, commands: seq<Command>, history: seq<Connection>, k: nat)
    requires WellFormed(codec, commands, history) && k <= |history|
    ensures Covered(history[..k]) <= Covered(history)
  {
    if k == |history| {
      assert history[..k] == history;
    } else {
      var last := |history| - 1;
      PrefixWellFormed(codec, commands, history, last);
      assert history[..last][..k] == history[..k];
      CoveredGrows(codec, commands, history[..last], k);
      LastOnlyAdds(codec, commands, history);
    }
  }

  lemma LastOnlyAdds(codec: CodecConfig, commands: seq<Command>, history: seq<Connection>)
    requires WellFormed(codec, commands, history) && history != []
    ensures Covered(history[..|history| - 1]) <= Covered(history)
  {
    var last := history[|history| - 1];
    assert WellCarried(codec, commands, last) && last.from == Covered(history[..|history| - 1]);
  }

  /** Once session k is over, the history has covered everything up to its end. */
  lemma {:induction false} CoveredAfter(
    codec: CodecConfig, commands: seq<Command>, history: seq<Connection>, k: nat, l: nat)
    requires WellFormed(codec, commands, history)
    requires k < l <= |history| && history[k].live
    ensures history[k].end <= Covered(history[..l])
  {
    PrefixWellFormed(codec, commands, history, l);
    CoveredGrows(codec, commands, history[..l], k + 1);
    var upToK := history[..l][..k + 1];
    assert upToK[|upToK| - 1] == history[k];
  }

  /** Sessions are disjoint and ordered: a later session only carries later commands. */
  lemma {:induction false} SessionsInCommandOrder(
    codec: CodecConfig, commands: seq<Command>, history: seq<Connection>, k: nat, l: nat)
    requires WellFormed(codec, commands, history)
    requires k < l < |history| && history[k].live
    ensures history[k].end <= history[l].from
  {
    CoveredAfter(codec, commands, history, k, l);
  }

  /** Session k is the only one carrying command i; its frame is in place, and was sent unless it came last. */
  ghost predicate DealtWith(codec: CodecConfig, commands: seq<Command>, history: seq<Connection>, k: nat, i: nat)
    requires k < |history| && i < |commands|
  {
    var c := history[k];
    && Carries(c, i)
    && (forall l :: 0 <= l < |history| && Carries(history[l], i) ==> l == k)
    && FrameInPlace(codec, commands, c, i)
  }

  /** The frame of command i stands at its own slot; only the last frame of a session, and no replayed one, is lost. */
  ghost predicate FrameInPlace(codec: CodecConfig, commands: seq<Command>, c: Connection, i: nat)
    requires i < |commands| && c.from <= i
  {
    var slot := Slot(codec, commands, c, i);
    && slot < |c.log|
    && Some(c.log[slot].frame) == EncodeCommand(codec, commands[i])
    && (!c.log[slot].sent ==> slot == |c.log| - 1 && i >= c.upto)
  }

  lemma CarriedInPlace(codec: CodecConfig, commands: seq<Command>, c: Connection, i: nat)
    requires WellCarried(codec, commands, c) && Carries(c, i)
    requires EncodeCommand(codec, commands[i]).Some?
    ensures FrameInPlace(codec, commands, c, i)
  {
    var slot := Slot(codec, commands, c, i);
    CarriedPosition(codec, commands, c.from, i, c.end);
    assert Frames(c.log)[slot] == c.log[slot].frame;
    if i < c.upto {
      CarriedPosition(codec, commands, c.from, i, c.upto);
      var replayed := c.log[..Min(|c.log|, |Carried(codec, commands[c.from..c.upto])|)];
      assert replayed[slot] == c.log[slot];
    }
  }

  /**
   * Conservation: a command taken from the channel that encodes is either still waiting for a session, or exactly one
   * session carries it; there its frame was handed over at its own place in command order, and it was sent unless it
   * was the last thing that session did.
   */
  lemma {:induction false} EveryCommandCarriedOnce(
    codec: CodecConfig, commands: seq<Command>, history: seq<Connection>, taken: nat, i: nat)
    requires WellFormed(codec, commands, history)
    requires Covered(history) <= taken <= |commands|
    requires i < taken && EncodeCommand(codec, commands[i]).Some?
    ensures i >= Covered(history) ==>
              && EncodeCommand(codec, commands[i]).value in Carried(codec, commands[Covered(history)..taken])
              && (forall k :: 0 <= k < |history| ==> !Carries(history[k], i))
    ensures i < Covered(history) ==>
              exists k: nat :: k < |history| && DealtWith(codec, commands, history, k, i)
  {
    if i >= Covered(history) {
      CarriedPosition(codec, commands, Covered(history), i, taken);
      forall k | 0 <= k < |history| ensures !Carries(history[k], i) {
        if history[k].live {
          CoveredAfter(codec, commands, history, k, |history|);
          assert history[..|history|] == history;
        }
      }
    } else {
      var k := SomeSessionCarries(codec, commands, history, i);
      CarrierDealsWith(codec, commands, history, k, i);
      assert DealtWith(codec, commands, history, k, i);
    }
  }

  lemma CarrierDealsWith(codec: CodecConfig, commands: seq<Command>, history: seq<Connection>, k: nat, i: nat)
    requires WellFormed(codec, commands, history)
    requires k < |history| && Carries(history[k], i)
    requires i < |commands| && EncodeCommand(codec, commands[i]).Some?
    ensures DealtWith(codec, commands, history, k, i)
  {
    assert WellCarried(codec, commands, history[k]);
    CarriedInPlace(codec, commands, history[k], i);
    forall l | 0 <= l < |history| && Carries(history[l], i) ensures l == k {
      if l < k {
        SessionsInCommandOrder(codec, commands, history, l, k);
      } else if k < l {
        SessionsInCommandOrder(codec, commands, history, k, l);
      }
    }
  }

  /** A session begins by replaying, in order and without loss, what was buffered since the previous one. */
  lemma ReplayComesFirst(codec: CodecConfig, commands: seq<Command>, c: Connection)
    requires WellCarried(codec, commands, c) && c.live
    ensures var backlog := Carried(codec, commands[c.from..c.upto]);
            && backlog <= Frames(c.log)
            && AllSent(c.log[..|backlog|])
            && Frames(c.log)[|backlog|..] == Carried(codec, commands[c.upto..c.end])
  {
    assert commands[c.from..c.end] == commands[c.from..c.upto] + commands[c.upto..c.end];
    CarriedConcat(codec, commands[c.from..c.upto], commands[c.upto..c.end]);
  }

  // ------------------------------------------------------------- the other end

  function AsMessage(command: Command): Message
    requires IsMessage(command)
  {
    if command.Text? then Message.Message(command.text, false) else Message.Message(command.data, true)
  }

  /** What the applications hand over in a run of commands: the messages that encode, in order. */
  function Payloads(codec: CodecConfig, commands: seq<Command>): seq<Message> {
    if commands == [] then []
    else
      var last := commands[|commands| - 1];
      Payloads(codec, commands[..|commands| - 1])
      + if EncodeCommand(codec, last).Some? then [AsMessage(last)] else []
  }

  /** The peer can tell this message apart and is willing to hold it. */
  predicate Deliverable(sender: CodecConfig, receiver: CodecConfig, message: Message) {
    && !Masquerades(message, sender)
    && (Enveloped(message, sender) ==> Accepts(receiver.maxPayloadBytes, |message.data|))
  }

  /** A peer decoding what a session carries gets exactly the messages handed over, in order and of the same kind. */
  lemma {:induction false} PeerReceivesTheMessages(sender: CodecConfig, receiver: CodecConfig, commands: seq<Command>)
    requires !sender.msgpack && !receiver.msgpack
    requires sender.libraries == receiver.libraries && Lossless(sender.libraries)
    requires forall i :: 0 <= i < |commands| && IsMessage(commands[i]) ==>
                           Deliverable(sender, receiver, AsMessage(commands[i]))
    ensures var frames, payloads := Carried(sender, commands), Payloads(sender, commands);
            && |frames| == |payloads|
            && forall j :: 0 <= j < |frames| ==> Receive(frames[j], receiver) == Ok(payloads[j])
  {
    if commands != [] {
      var last := commands[|commands| - 1];
      PeerReceivesTheMessages(sender, receiver, commands[..|commands| - 1]);
      if EncodeCommand(sender, last).Some? {
        MessageRoundTrip(AsMessage(last), sender, receiver);
      }
    }
  }
}
