/** Two incremental SSE readers, and the splitting of the whole text they both amount to. */
module SseStreams {
  import opened Prelude
  import opened SseRouting

  // ------------------------------------------------------------- the reference: split the whole text, route each line

  /** A text cut at its newlines: the lines they end, and what follows the last of them. */
  datatype Cut = Cut(finished: seq<string>, rest: string)

  function Split(text: string): Cut {
    if text == [] then Cut([], "")
    else
      var front, c := Split(text[..|text| - 1]), text[|text| - 1];
      if c == '\n' then Cut(front.finished + [front.rest], "") else Cut(front.finished, front.rest + [c])
  }

  function Joined(lines: seq<string>): string {
    if lines == [] then "" else Joined(lines[..|lines| - 1]) + lines[|lines| - 1] + "\n"
  }

  /** What makes it the split: the pieces contain no newline, and joined by newlines they are the text. */
  lemma {:induction false} SplitIsTheSplit(text: string)
    ensures var cut := Split(text);
            && Joined(cut.finished) + cut.rest == text
            && '\n' !in cut.rest
            && forall i :: 0 <= i < |cut.finished| ==> '\n' !in cut.finished[i]
  {
    SplitJoins(text);
    NoNewlineInside(text);
  }

  lemma {:induction false} SplitJoins(text: string)
    ensures Joined(Split(text).finished) + Split(text).rest == text
  {
    if text != [] {
      var front, c := text[..|text| - 1], text[|text| - 1];
      var cut := Split(front);
      SplitJoins(front);
      assert text == front + [c];
      assert Joined(cut.finished) + (cut.rest + [c]) == front + [c];
      if c == '\n' {
        JoinedSnoc(cut.finished, cut.rest);
      }
    }
  }

  lemma {:induction false} NoNewlineInside(text: string)
    ensures '\n' !in Split(text).rest
    ensures forall i :: 0 <= i < |Split(text).finished| ==> '\n' !in Split(text).finished[i]
  {
    if text != [] {
      NoNewlineInside(text[..|text| - 1]);
    }
  }

  lemma JoinedSnoc(lines: seq<string>, line: string)
    ensures Joined(lines + [line]) + "" == Joined(lines) + (line + "\n")
  {
    assert (lines + [line])[..|lines|] == lines;
  }

  /** The lines of a complete text: a last piece without a newline counts unless it is empty. */
  function Lines(text: string): seq<string> {
    var cut := Split(text);
    if cut.rest == "" then cut.finished else cut.finished + [cut.rest]
  }

  function StripCarriageReturns(line: string): string {
    if line != [] && line[|line| - 1] == '\r' then StripCarriageReturns(line[..|line| - 1]) else line
  }

  /** What has been read: content lines, the last event id and the retry delay. */
  datatype Reading = Reading(lines: seq<string>, lastEventId: string, retry: Option<u64>)

  const NOTHING := Reading([], "", None)

  function Absorb(r: Reading, line: string): Reading {
    match RouteLine(StripCarriageReturns(line))
    case Yield(l) => r.(lines := r.lines + [l])
    case SetLastEventId(id) => r.(lastEventId := id)
    case SetRetry(ms) => r.(retry := Some(ms))
    case Silent => r
  }

  function AbsorbAll(r: Reading, lines: seq<string>): Reading {
    if lines == [] then r else Absorb(AbsorbAll(r, lines[..|lines| - 1]), lines[|lines| - 1])
  }

  function Read(text: string): Reading {
    AbsorbAll(NOTHING, Lines(text))
  }

  // ------------------------------------------------------------- splitting piecemeal

  /** A text cut anywhere: the second part continues the piece the first one left open. */
  lemma {:induction false} SplitResumes(a: string, b: string)
    ensures Split(a + b).finished == Split(a).finished + Split(Split(a).rest + b).finished
    ensures Split(a + b).rest == Split(Split(a).rest + b).rest
  {
    var open := Split(a).rest;
    if b == [] {
      assert a + b == a && open + b == open;
      SplitIsTheSplit(a);
      NoNewlineNoSplit(open);
    } else {
      var front, c := b[..|b| - 1], b[|b| - 1];
      SplitResumes(a, front);
      assert a + b == (a + front) + [c] && open + b == (open + front) + [c];
      SplitSnoc(a + front, c);
      SplitSnoc(open + front, c);
    }
  }

  lemma SplitSnoc(text: string, c: char)
    ensures Split(text + [c])
            == if c == '\n' then Cut(Split(text).finished + [Split(text).rest], "")
               else Cut(Split(text).finished, Split(text).rest + [c])
  {
    assert (text + [c])[..|text|] == text;
  }

  lemma {:induction false} NoNewlineNoSplit(text: string)
    requires '\n' !in text
    ensures Split(text) == Cut([], text)
  {
    if text != [] {
      NoNewlineNoSplit(text[..|text| - 1]);
      assert text == text[..|text| - 1] + [text[|text| - 1]];
    }
  }

  predicate FirstNewline(buffer: string, i: int) {
    0 <= i < |buffer| && buffer[i] == '\n' && '\n' !in buffer[..i]
  }

  /** Taking the first line off a buffer. */
  lemma FirstLineOff(buffer: string, i: int)
    requires FirstNewline(buffer, i)
    ensures Split(buffer).finished == [buffer[..i]] + Split(buffer[i + 1..]).finished
    ensures Split(buffer).rest == Split(buffer[i + 1..]).rest
  {
    var line, tail := buffer[..i], buffer[i + 1..];
    var head := line + ['\n'];
    assert Split(head) == Cut([line], "") by {
      NoNewlineNoSplit(line);
      SplitSnoc(line, '\n');
    }
    assert buffer == head + tail;
    SplitResumes(head, tail);
    assert "" + tail == tail;
  }

  lemma {:induction false} AbsorbConcat(r: Reading, a: seq<string>, b: seq<string>)
    ensures AbsorbAll(r, a + b) == AbsorbAll(AbsorbAll(r, a), b)
  {
    if b == [] {
      assert a + b == a;
    } else {
      AbsorbConcat(r, a, b[..|b| - 1]);
      assert (a + b)[..|a + b| - 1] == a + b[..|b| - 1];
    }
  }

  lemma AbsorbOne(r: Reading, line: string, rest: seq<string>)
    ensures AbsorbAll(r, [line] + rest) == AbsorbAll(Absorb(r, line), rest)
  {
    AbsorbConcat(r, [line], rest);
    assert [line][..0] == [];
  }

  lemma AbsorbLast(r: Reading, lines: seq<string>, line: string)
    ensures AbsorbAll(r, lines + [line]) == Absorb(AbsorbAll(r, lines), line)
  {
    assert (lines + [line])[..|lines|] == lines;
  }

  /** `find('\n')`, with -1 for none. */
  method FindNewline(buffer: string) returns (i: int)
    ensures i < 0 ==> '\n' !in buffer
    ensures i >= 0 ==> FirstNewline(buffer, i)
  {
    for j := 0 to |buffer|
      invariant '\n' !in buffer[..j]
    {
      if buffer[j] == '\n' {
        return j;
      }
    }
    i := -1;
  }

  // ------------------------------------------------------------- the pull stream

  /** What the byte stream has next; when there is nothing more, it has ended. Chunks are already decoded text. */
  datatype Input = Chunk(text: string) | ReadError | NotReady

  datatype Poll = Line(line: string) | Failure | Pending | End

  /** What is closed under `Opened`. */
  datatype Topic = Splitting | Streaming

  /**
   * From a reading it started with, a reader has absorbed what is finished of a text, but for what it still buffers;
   * the piece still open is the same in both.
   */
  ghost predicate Absorbed(start: Reading, progress: Reading, buffer: string, text: string) {
    forall u: bool {:trigger Opened(Splitting, u)} :: Opened(Splitting, u) ==>
      && Split(buffer).rest == Split(text).rest
      && AbsorbAll(progress, Split(buffer).finished) == AbsorbAll(start, Split(text).finished)
  }

  lemma AbsorbedNothing(start: Reading)
    ensures Absorbed(start, start, "", "")
  {
  }

  lemma AbsorbedGrows(start: Reading, progress: Reading, buffer: string, text: string, chunk: string)
    requires Absorbed(start, progress, buffer, text)
    ensures Absorbed(start, progress, buffer + chunk, text + chunk)
  {
    assert Opened(Splitting, true);
    SplitResumes(text, chunk);
    SplitResumes(buffer, chunk);
    var ended := Split(Split(text).rest + chunk).finished;
    AbsorbConcat(start, Split(text).finished, ended);
    AbsorbConcat(progress, Split(buffer).finished, ended);
  }

  lemma AbsorbedLineOff(start: Reading, progress: Reading, buffer: string, text: string, i: int)
    requires Absorbed(start, progress, buffer, text) && FirstNewline(buffer, i)
    ensures Absorbed(start, Absorb(progress, buffer[..i]), buffer[i + 1..], text)
    ensures AbsorbAll(Absorb(progress, buffer[..i]), Split(buffer[i + 1..]).finished)
            == AbsorbAll(start, Split(text).finished)
  {
    assert Opened(Splitting, true);
    FirstLineOff(buffer, i);
    AbsorbOne(progress, buffer[..i], Split(buffer[i + 1..]).finished);
  }

  lemma NothingFinished(start: Reading, progress: Reading, buffer: string, text: string)
    requires Absorbed(start, progress, buffer, text) && '\n' !in buffer
    ensures progress == AbsorbAll(start, Split(text).finished) && buffer == Split(text).rest
  {
    assert Opened(Splitting, true);
    NoNewlineNoSplit(buffer);
  }

  /** At the end of the text, the open piece is the last line. */
  lemma AbsorbedAtEnd(start: Reading, progress: Reading, buffer: string, text: string)
    requires Absorbed(start, progress, buffer, text) && '\n' !in buffer
    ensures AbsorbAll(start, Lines(text)) == if buffer == "" then progress else Absorb(progress, buffer)
  {
    NothingFinished(start, progress, buffer, text);
    AbsorbLast(start, Split(text).finished, buffer);
  }

  lemma AbsorbedInput(start: Reading, progress: Reading, buffer: string, seen: seq<Input>, input: Input)
    requires Absorbed(start, progress, buffer, Texts(seen))
    ensures Absorbed(start, progress, if input.Chunk? then buffer + input.text else buffer, Texts(seen + [input]))
  {
    TextsSnoc(seen, input);
    if input.Chunk? {
      AbsorbedGrows(start, progress, buffer, Texts(seen), input.text);
    } else {
      assert Texts(seen) + "" == Texts(seen);
    }
  }

  ghost predicate Received(progress: Reading, buffer: string, seen: seq<Input>, done: bool) {
    forall u: bool {:trigger Opened(Streaming, u)} :: Opened(Streaming, u) ==>
      if done then progress == Read(Texts(seen)) else Absorbed(NOTHING, progress, buffer, Texts(seen))
  }

  lemma ReceivedInput(progress: Reading, buffer: string, seen: seq<Input>, input: Input)
    requires Received(progress, buffer, seen, false)
    ensures Received(progress, if input.Chunk? then buffer + input.text else buffer, seen + [input], false)
  {
    assert Opened(Streaming, true);
    AbsorbedInput(NOTHING, progress, buffer, seen, input);
  }

  lemma ReceivedLine(progress: Reading, buffer: string, seen: seq<Input>, i: int)
    requires Received(progress, buffer, seen, false) && FirstNewline(buffer, i)
    ensures Received(Absorb(progress, buffer[..i]), buffer[i + 1..], seen, false)
  {
    assert Opened(Streaming, true);
    AbsorbedLineOff(NOTHING, progress, buffer, Texts(seen), i);
  }

  lemma ReceivedAll(progress: Reading, buffer: string, seen: seq<Input>)
    requires Received(progress, buffer, seen, false) && '\n' !in buffer
    ensures Received(if buffer == "" then progress else Absorb(progress, buffer), "", seen, true)
  {
    assert Opened(Streaming, true);
    AbsorbedAtEnd(NOTHING, progress, buffer, Texts(seen));
  }

  class SseStream {
    var source: seq<Input>
    var buffer: string
    var pendingLines: seq<string>
    var lastEventId: string
    var reconnectDelay: Option<u64>
    var done: bool
    ghost const inputs: seq<Input>        // everything the byte stream will ever bring
    ghost var seen: seq<Input>            // the part of it consumed
    ghost var yielded: seq<string>        // every line handed out

    ghost function Progress(): Reading
      reads this
    {
      Reading(yielded + pendingLines, lastEventId, reconnectDelay)
    }

    /** What is absorbed and what is still buffered make up the text received. */
    ghost predicate Valid()
      reads this
    {
      seen + source == inputs && (done ==> source == [] && buffer == "") && Received(Progress(), buffer, seen, done)
    }

    constructor (source: seq<Input>)
      ensures Valid() && !done && yielded == [] && this.source == source && inputs == source
    {
      this.source := source;
      buffer, pendingLines, lastEventId, reconnectDelay, done := "", [], "", None, false;
      inputs, seen, yielded := source, [], [];
      AbsorbedNothing(NOTHING);
    }

    method ProcessLine(line: string, ghost raw: string)
      requires line == StripCarriageReturns(raw)
      modifies this`pendingLines, this`lastEventId, this`reconnectDelay
      ensures Progress() == Absorb(old(Progress()), raw)
    {
      match RouteLine(line) {
        case Yield(l) =>
          pendingLines := pendingLines + [l];
          assert yielded + pendingLines == old(yielded + pendingLines) + [l];
        case SetLastEventId(id) =>
          lastEventId := id;
        case SetRetry(ms) =>
          reconnectDelay := Some(ms);
        case Silent =>
      }
    }

    method ProcessBuffer()
      requires Valid() && !done
      modifies this`buffer, this`pendingLines, this`lastEventId, this`reconnectDelay
      ensures Valid() && '\n' !in buffer
      ensures |buffer| < |old(buffer)| || (buffer == old(buffer) && pendingLines == old(pendingLines))
    {
      var i := FindNewline(buffer);
      while i >= 0
        invariant i < 0 ==> '\n' !in buffer
        invariant i >= 0 ==> FirstNewline(buffer, i)
        invariant Valid() && !done
        invariant |buffer| < |old(buffer)| || (buffer == old(buffer) && pendingLines == old(pendingLines))
        decreases |buffer|
      {
        TakeLine(i);
        i := FindNewline(buffer);
      }
    }

    /** Drains one line off the buffer and routes it. */
    method TakeLine(i: int)
      requires Valid() && !done && FirstNewline(buffer, i)
      modifies this`buffer, this`pendingLines, this`lastEventId, this`reconnectDelay
      ensures Valid() && |buffer| < |old(buffer)|
    {
      var raw := buffer[..i];
      ReceivedLine(Progress(), buffer, seen, i);
      buffer := buffer[i + 1..];
      ProcessLine(StripCarriageReturns(raw), raw);
    }

    /** The stream has ended: what is left in the buffer is the last line. */
    method ProcessTail()
      requires Valid() && !done && source == [] && '\n' !in buffer
      modifies this`buffer, this`pendingLines, this`lastEventId, this`reconnectDelay, this`done
      ensures Valid() && done
    {
      done := true;
      ReceivedAll(Progress(), buffer, seen);
      if buffer != "" {
        var raw := buffer;
        buffer := "";
        ProcessLine(StripCarriageReturns(raw), raw);
      }
    }

    /** Polls the byte stream; a chunk goes into the buffer. */
    method NextInput() returns (input: Input)
      requires Valid() && !done && source != []
      modifies this`source, this`seen, this`buffer
      ensures Valid() && |source| < |old(source)| && seen == old(seen) + [input]
    {
      input := source[0];
      ReceivedInput(Progress(), buffer, seen, input);
      assert seen + source == (seen + [input]) + source[1..];
      buffer := if input.Chunk? then buffer + input.text else buffer;
      source := source[1..];
      seen := seen + [input];
    }

    method Pop() returns (line: string)
      requires Valid() && pendingLines != []
      modifies this`pendingLines, this`yielded
      ensures Valid() && line == old(pendingLines)[0] && yielded == old(yielded) + [line]
      ensures |pendingLines| < |old(pendingLines)|
    {
      line := pendingLines[0];
      pendingLines := pendingLines[1..];
      yielded := yielded + [line];
      assert yielded + pendingLines == old(yielded + pendingLines);
    }

    /** The next item: pending lines first, then whatever the byte stream brings. */
    method PollNext() returns (item: Poll)
      requires Valid()
      modifies this
      ensures Valid()
      ensures yielded == old(yielded) + if item.Line? then [item.line] else []
      ensures item.End? ==> done && pendingLines == []
      ensures item.Failure? ==> |source| < |old(source)| && seen[|seen| - 1] == ReadError
      ensures item.Pending? ==> |source| < |old(source)| && seen[|seen| - 1] == NotReady
      ensures |source| <= |old(source)| && (old(done) ==> done)
      ensures item.Line? && |source| == |old(source)| && done == old(done) ==>
                |buffer| < |old(buffer)| || (buffer == old(buffer) && |pendingLines| < |old(pendingLines)|)
    {
      while true
        invariant Valid() && yielded == old(yielded) && |source| <= |old(source)| && (old(done) ==> done)
        invariant |source| == |old(source)| && done == old(done) ==>
                    |buffer| < |old(buffer)| || (buffer == old(buffer) && pendingLines == old(pendingLines))
        decreases |source|, if done then 0 else 1, if pendingLines == [] then 1 else 0
      {
        if pendingLines != [] {
          var line := Pop();
          return Line(line);
        }
        if done {
          return End;
        }
        ProcessBuffer();
        if pendingLines != [] {
          continue;
        }
        if source == [] {
          ProcessTail();
          if pendingLines == [] {
            return End;
          }
        } else {
          var input := NextInput();
          if input.ReadError? {
            return Failure;
          }
          if input.NotReady? {
            return Pending;
          }
        }
      }
    }
  }

  /** Chunking invariance: however the text is cut, and whatever failures and waits lie between, the lines, the last
      event id and the retry delay are those of splitting and routing the whole text at once. */
  method CollectLines(stream: SseStream) returns (lines: seq<string>)
    requires stream.Valid() && !stream.done && stream.yielded == [] && stream.seen == []
    modifies stream
    ensures stream.done
    ensures Reading(lines, stream.lastEventId, stream.reconnectDelay) == Read(Texts(old(stream.source)))
  {
    lines := [];
    assert stream.inputs == stream.source;
    var atEnd := false;
    while !atEnd
      invariant stream.Valid() && lines == stream.yielded
      invariant atEnd ==> stream.done && stream.pendingLines == []
      decreases |stream.source|, if stream.done then 0 else 1, |stream.buffer|, |stream.pendingLines|,
                if atEnd then 0 else 1
    {
      var item := stream.PollNext();
      if item.Line? {
        lines := lines + [item.line];
      }
      atEnd := item.End?;
    }
    assert stream.seen == stream.inputs;
    assert stream.yielded + stream.pendingLines == stream.yielded;
    assert Opened(Streaming, true);
  }

  /** The text of the chunks among the inputs. */
  function Texts(inputs: seq<Input>): string {
    if inputs == [] then ""
    else
      var last := inputs[|inputs| - 1];
      Texts(inputs[..|inputs| - 1]) + if last.Chunk? then last.text else ""
  }

  lemma TextsSnoc(inputs: seq<Input>, input: Input)
    ensures Texts(inputs + [input]) == Texts(inputs) + if input.Chunk? then input.text else ""
  {
    assert (inputs + [input])[..|inputs|] == inputs;
  }
}
