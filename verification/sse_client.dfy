/** The reconnecting client's reader: one connection attempt, writing into cells shared across attempts. */
module SseClients {
  import opened Prelude
  import opened SseRouting
  import opened SseStreams

  datatype ReadyState = Connecting | Open | Closed

  datatype Attempt =
    | StreamEnded
    | ConsumerGone
    | ReadFailed
    | NoContent
    | HttpError(status: nat)

  class SseClient {
    var lines: seq<string>               // what the consumer's channel was sent
    var lastEventId: string
    var reconnectDelay: Option<u64>
    var readyState: ReadyState
    const patience: Option<nat>          // how many lines the consumer takes before it goes away, if ever

    ghost function Progress(): Reading
      reads this
    {
      Reading(lines, lastEventId, reconnectDelay)
    }

    /** The consumer takes this many lines in all. */
    predicate Takes(n: nat) {
      patience.None? || n <= patience.value
    }

    predicate Valid()
      reads this`lines
    {
      Takes(|lines|)
    }

    constructor (patience: Option<nat>)
      ensures Valid() && Progress() == NOTHING && readyState == Connecting && this.patience == patience
    {
      lines, lastEventId, reconnectDelay := [], "", None;
      readyState, this.patience := Connecting, patience;
    }

    method Send(line: string) returns (ok: bool)
      modifies this`lines
      ensures ok == Takes(|old(lines)| + 1)
      ensures lines == if ok then old(lines) + [line] else old(lines)
    {
      ok := Takes(|lines| + 1);
      if ok {
        lines := lines + [line];
      }
    }

    /** Routes one raw line; false when the consumer has gone and would have been sent it. */
    method Route(raw: string) returns (ok: bool)
      modifies this`lines, this`lastEventId, this`reconnectDelay
      ensures ok == (Absorb(old(Progress()), raw).lines == old(lines) || Takes(|old(lines)| + 1))
      ensures Progress() == if ok then Absorb(old(Progress()), raw) else old(Progress())
    {
      ok := true;
      match RouteLine(StripCarriageReturns(raw)) {
        case Yield(l) => ok := Send(l);
        case SetLastEventId(id) => lastEventId := id;
        case SetRetry(ms) => reconnectDelay := Some(ms);
        case Silent =>
      }
    }

    /** The lines sent are those of the reading, as many as the consumer takes; one more would not be taken. */
    ghost predicate CutShort(whole: Reading)
      reads this
    {
      lines < whole.lines && !Takes(|lines| + 1)
    }

    /** Routes every finished line of the buffer. */
    method DrainBuffer(buffer: string, ghost text: string, ghost start: Reading) returns (rest: string, ok: bool)
      requires Valid() && Absorbed(start, Progress(), buffer, text)
      modifies this`lines, this`lastEventId, this`reconnectDelay
      ensures Valid() && (ok ==> Absorbed(start, Progress(), rest, text) && '\n' !in rest)
      ensures !ok ==> CutShort(AbsorbAll(start, Split(text).finished))
    {
      rest, ok := buffer, true;
      var i := FindNewline(rest);
      while i >= 0
        invariant Valid() && ok && Absorbed(start, Progress(), rest, text)
        invariant i < 0 ==> '\n' !in rest
        invariant i >= 0 ==> FirstNewline(rest, i)
        decreases |rest|
      {
        rest, ok := TakeLine(rest, i, text, start);
        if !ok {
          return;
        }
        i := FindNewline(rest);
      }
    }

    /** Drains one line off the buffer and routes it. */
    method TakeLine(buffer: string, i: int, ghost text: string, ghost start: Reading) returns (rest: string, ok: bool)
      requires Valid() && Absorbed(start, Progress(), buffer, text) && FirstNewline(buffer, i)
      modifies this`lines, this`lastEventId, this`reconnectDelay
      ensures Valid() && |rest| < |buffer|
      ensures if ok then Absorbed(start, Progress(), rest, text) else CutShort(AbsorbAll(start, Split(text).finished))
    {
      AbsorbedLineOff(start, Progress(), buffer, text, i);
      rest := buffer[i + 1..];
      ghost var before := Progress();
      ok := Route(buffer[..i]);
      if !ok {
        RefusedIsMore(before, buffer[..i], Split(rest).finished);
      }
    }

    /** The chunk loop. */
    method ReadBody(inputs: seq<Input>) returns (buffer: string, result: Attempt)
      requires Valid() && readyState == Open
      modifies this
      ensures Valid() && readyState == if result.ConsumerGone? then Closed else Open
      ensures match result
              case StreamEnded =>
                && ReadError !in inputs && '\n' !in buffer
                && Absorbed(old(Progress()), Progress(), buffer, Texts(inputs))
              case ReadFailed => ReadUpToError(old(Progress()), Progress(), inputs)
              case ConsumerGone => CutShort(AbsorbAll(old(Progress()), Lines(Texts(inputs))))
              case _ => false
    {
      buffer := "";
      ghost var start := Progress();
      AbsorbedNothing(start);
      for n := 0 to |inputs|
        invariant Absorbed(start, Progress(), buffer, Texts(inputs[..n])) && '\n' !in buffer
        invariant Valid() && ReadError !in inputs[..n] && readyState == Open
      {
        assert inputs[..n + 1] == inputs[..n] + [inputs[n]];
        AbsorbedInput(start, Progress(), buffer, inputs[..n], inputs[n]);
        match inputs[n] {
          case ReadError =>
            NothingFinished(start, Progress(), buffer, Texts(inputs[..n]));
            return buffer, ReadFailed;
          case NotReady =>
          case Chunk(chunk) =>
            var ok;
            buffer, ok := DrainBuffer(buffer + chunk, Texts(inputs[..n + 1]), start);
            if !ok {
              PrefixLines(start, inputs, n + 1);
              readyState := Closed;
              return buffer, ConsumerGone;
            }
        }
      }
      assert inputs[..|inputs|] == inputs;
      result := StreamEnded;
    }

    /** What a 200 answer comes to: everything read, up to a read error, or as much as the consumer takes. */
    ghost predicate Outcome(result: Attempt, start: Reading, inputs: seq<Input>)
      reads this
    {
      var whole := AbsorbAll(start, Lines(Texts(inputs)));
      match result
      case StreamEnded =>
        ReadError !in inputs && if Takes(|whole.lines|) then Progress() == whole else CutShort(whole)
      case ReadFailed => ReadUpToError(start, Progress(), inputs)
      case ConsumerGone => CutShort(whole)
      case _ => false
    }

    /**
     * One attempt. The cells and the channel advance by exactly the lines of the whole text, unless the consumer goes
     * away before it has taken them; a read failure leaves out the piece still open.
     */
    method ConnectOnce(status: nat, inputs: seq<Input>) returns (result: Attempt)
      requires Valid()
      modifies this
      ensures Valid()
      ensures result.NoContent? <==> status == 204
      ensures result.HttpError? <==> status != 204 && status != 200
      ensures status != 200 ==> Progress() == old(Progress())
      ensures readyState == if status == 204 || result.ConsumerGone? then Closed
                            else if status == 200 then Open else old(readyState)
      ensures status == 200 ==> Outcome(result, old(Progress()), inputs)
    {
      if status == 204 {
        readyState := Closed;
        return NoContent;
      }
      if status != 200 {
        return HttpError(status);
      }
      readyState := Open;
      var buffer;
      buffer, result := ReadBody(inputs);
      if result.StreamEnded? {
        RouteTail(buffer, old(Progress()), Texts(inputs));
      }
    }

    /** The stream has ended: what is left in the buffer is the last line. */
    method RouteTail(buffer: string, ghost start: Reading, ghost text: string)
      requires Valid() && Absorbed(start, Progress(), buffer, text) && '\n' !in buffer
      modifies this`lines, this`lastEventId, this`reconnectDelay
      ensures Valid()
      ensures var whole := AbsorbAll(start, Lines(text));
              if Takes(|whole.lines|) then Progress() == whole else CutShort(whole)
    {
      AbsorbedAtEnd(start, Progress(), buffer, text);
      if buffer != "" {
        ghost var before := Progress();
        var ok := Route(buffer);
        if !ok {
          RefusedIsMore(before, buffer, []);
        }
      }
    }
  }

  /** Everything before the first read error has been read, but for the piece it left open. */
  ghost predicate ReadUpToError(start: Reading, progress: Reading, inputs: seq<Input>) {
    exists n ::
      && 0 <= n < |inputs| && inputs[n] == ReadError && ReadError !in inputs[..n]
      && progress == AbsorbAll(start, Split(Texts(inputs[..n])).finished)
  }

  /** A line that would be sent makes the lines longer, whatever follows it. */
  lemma RefusedIsMore(r: Reading, line: string, rest: seq<string>)
    requires Absorb(r, line).lines != r.lines
    ensures r.lines < AbsorbAll(Absorb(r, line), rest).lines
  {
    AbsorbOnlyAdds(Absorb(r, line), rest);
  }

  /** Reading on never takes lines back. */
  lemma {:induction false} AbsorbOnlyAdds(r: Reading, lines: seq<string>)
    ensures r.lines <= AbsorbAll(r, lines).lines
  {
    if lines != [] {
      AbsorbOnlyAdds(r, lines[..|lines| - 1]);
    }
  }

  lemma PrefixLines(start: Reading, inputs: seq<Input>, n: nat)
    requires n <= |inputs|
    ensures AbsorbAll(start, Split(Texts(inputs[..n])).finished).lines <= AbsorbAll(start, Lines(Texts(inputs))).lines
  {
    assert inputs == inputs[..n] + inputs[n..];
    TextsConcat(inputs[..n], inputs[n..]);
    var early, late := Texts(inputs[..n]), Texts(inputs[n..]);
    SplitResumes(early, late);
    var before := AbsorbAll(start, Split(early).finished);
    var more := Split(Split(early).rest + late).finished;
    AbsorbConcat(start, Split(early).finished, more);
    AbsorbOnlyAdds(before, more);
    var whole := Split(early + late);
    AbsorbLast(start, whole.finished, whole.rest);
    AbsorbOnlyAdds(AbsorbAll(start, whole.finished), [whole.rest]);
    AbsorbConcat(start, whole.finished, [whole.rest]);
  }

  lemma {:induction false} TextsConcat(a: seq<Input>, b: seq<Input>)
    ensures Texts(a + b) == Texts(a) + Texts(b)
  {
    if b == [] {
      assert a + b == a;
    } else {
      TextsConcat(a, b[..|b| - 1]);
      assert (a + b)[..|a + b| - 1] == a + b[..|b| - 1];
    }
  }

  /** The two readers agree: on the same input without read errors, an attempt whose consumer takes all its lines has
      read the same lines, last event id and retry delay as a pull stream drained to its end. */
  method ReadBothWays(inputs: seq<Input>, patience: Option<nat>) returns (pulled: Reading, pushed: Reading)
    ensures pulled == Read(Texts(inputs))
    ensures ReadError !in inputs && (patience.None? || |pulled.lines| <= patience.value) ==> pushed == pulled
  {
    var stream := new SseStream(inputs);
    var lines := CollectLines(stream);
    pulled := Reading(lines, stream.lastEventId, stream.reconnectDelay);
    var client := new SseClient(patience);
    var result := client.ConnectOnce(200, inputs);
    pushed := Reading(client.lines, client.lastEventId, client.reconnectDelay);
  }
}
