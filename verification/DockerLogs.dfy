/** Docker's multiplexed log stream: decodeRawStream and dockerLineAssembler of
    internal/dockerapi/client.go.  time.Parse is a parameter: a predicate on
    byte strings. */
module DockerLogs {
  newtype byte = x: int | 0 <= x < 256
  type bytes = seq<byte>

  datatype Frame = Frame(stream: byte, payload: bytes)
  datatype Line = Line(stream: byte, text: bytes)
  datatype Outcome =
    Finished | FrameTooLarge(size: nat) | PayloadTruncated | LineTooLong | HandlerFailed | ReaderFailed | ContextDone

  const MAX_FRAME: nat := 16 * 1024 * 1024
  const MAX_LINE: nat := 2 * 1024 * 1024
  const LF: byte := 10
  const CR: byte := 13
  const BLANK: byte := 32

  // ------------------------------------------------------------------- framing

  function BigEndian(b: bytes): nat
    requires |b| == 4
  {
    ((b[0] as nat * 256 + b[1] as nat) * 256 + b[2] as nat) * 256 + b[3] as nat
  }

  /** What the stream decodes to when every frame is accepted, and how it ends. */
  function Decode(input: bytes): (seq<Frame>, Outcome)
    decreases |input|
  {
    if |input| < 8 then ([], Finished)
    else
      var size := BigEndian(input[4..8]);
      if size > MAX_FRAME then ([], FrameTooLarge(size))
      else if |input| < 8 + size then ([], PayloadTruncated)
      else
        var (rest, end) := Decode(input[8 + size..]);
        ([Frame(input[0], input[8..8 + size])] + rest, end)
  }

  // ------------------------------------------------------------------ assembly

  function IndexByte(b: bytes, c: byte): (i: int)
    ensures i == -1 ==> c !in b
    ensures i != -1 ==> 0 <= i < |b| && b[i] == c && c !in b[..i]
  {
    if b == [] then -1
    else if b[0] == c then 0
    else var i := IndexByte(b[1..], c); if i == -1 then -1 else i + 1
  }

  function TrimCr(b: bytes): bytes {
    if b != [] && b[|b| - 1] == CR then b[..|b| - 1] else b
  }

  /** The complete lines of a text, and what follows its last line feed. */
  function Lines(b: bytes): seq<bytes>
    decreases |b|
  {
    var i := IndexByte(b, LF);
    if i == -1 then [] else [TrimCr(b[..i])] + Lines(b[i + 1..])
  }

  function Tail(b: bytes): bytes
    decreases |b|
  {
    var i := IndexByte(b, LF);
    if i == -1 then b else Tail(b[i + 1..])
  }

  /** stripDockerContinuationTimestamp */
  function Strip(payload: bytes, isStamp: bytes -> bool): bytes {
    var space := IndexByte(payload, BLANK);
    if space <= 0 || !isStamp(payload[..space]) then payload else payload[space + 1..]
  }

  datatype Assembly = Assembly(buffers: map<byte, bytes>, lines: seq<Line>)

  function Buffer(a: Assembly, stream: byte): bytes {
    if stream in a.buffers then a.buffers[stream] else []
  }

  predicate LogStream(stream: byte) {
    stream == 1 || stream == 2
  }

  function Tagged(stream: byte, texts: seq<bytes>): seq<Line> {
    seq(|texts|, i requires 0 <= i < |texts| => Line(stream, texts[i]))
  }

  /** The buffer as WriteFrame extends it. */
  function Extended(a: Assembly, f: Frame, isStamp: bytes -> bool): bytes {
    var held := Buffer(a, f.stream);
    held + if held != [] then Strip(f.payload, isStamp) else f.payload
  }

  predicate Accepts(a: Assembly, f: Frame, isStamp: bytes -> bool) {
    !LogStream(f.stream) || |Extended(a, f, isStamp)| <= MAX_LINE
  }

  function Write(a: Assembly, f: Frame, isStamp: bytes -> bool): Assembly {
    if !LogStream(f.stream) || !Accepts(a, f, isStamp) then a
    else
      var text := Extended(a, f, isStamp);
      Assembly(a.buffers[f.stream := Tail(text)], a.lines + Tagged(f.stream, Lines(text)))
  }

  function FlushOne(a: Assembly, stream: byte): Assembly {
    if Buffer(a, stream) == [] then a
    else Assembly(a.buffers[stream := []], a.lines + [Line(stream, TrimCr(Buffer(a, stream)))])
  }

  function Flushed(a: Assembly): Assembly {
    FlushOne(FlushOne(a, 1), 2)
  }

  /** Frames in turn, up to the first one that is refused. */
  function Feed(a: Assembly, frames: seq<Frame>, isStamp: bytes -> bool): (Assembly, bool) {
    if frames == [] then (a, true)
    else
      var (b, ok) := Feed(a, frames[..|frames| - 1], isStamp);
      if ok then (Write(b, frames[|frames| - 1], isStamp), Accepts(b, frames[|frames| - 1], isStamp)) else (b, false)
  }

  // --------------------------------------------------- what can stop a read early

  /** The line handler's verdict on a line, given with all lines before it. */
  type Handler = seq<Line> -> bool

  /** How the bytes of a read stop coming, and after how many frames the context
      is done. */
  datatype ReaderEnd = EndOfFile | ReadCancelled | ReadBroken
  datatype Surroundings = Surroundings(readerEnd: ReaderEnd, doneAfter: nat -> bool)

  /** Lines handed over in turn, up to the first one that the handler refuses. */
  function Handed(lines: seq<Line>, more: seq<Line>, refuses: Handler): (seq<Line>, bool)
    decreases |more|
  {
    if more == [] then (lines, true)
    else if refuses(lines + [more[0]]) then (lines, false)
    else Handed(lines + [more[0]], more[1..], refuses)
  }

  /** WriteFrame: a refused line leaves the buffer as it was. */
  function Written(a: Assembly, f: Frame, isStamp: bytes -> bool, refuses: Handler): (Assembly, Outcome) {
    if !LogStream(f.stream) then (a, Finished)
    else if !Accepts(a, f, isStamp) then (a, LineTooLong)
    else
      var text := Extended(a, f, isStamp);
      var (lines, ok) := Handed(a.lines, Tagged(f.stream, Lines(text)), refuses);
      if ok then (Assembly(a.buffers[f.stream := Tail(text)], lines), Finished) else (a.(lines := lines), HandlerFailed)
  }

  function FlushedOneTo(a: Assembly, stream: byte, refuses: Handler): (Assembly, bool) {
    if Buffer(a, stream) != [] && refuses(a.lines + [Line(stream, TrimCr(Buffer(a, stream)))]) then (a, false)
    else (FlushOne(a, stream), true)
  }

  /** Flush stops at a refused line. */
  function FlushedTo(a: Assembly, refuses: Handler): (Assembly, bool) {
    var (b, ok) := FlushedOneTo(a, 1, refuses);
    if ok then FlushedOneTo(b, 2, refuses) else (b, false)
  }

  /** dockerLineAssembler; lines are those its handler took. */
  class LineAssembler {
    const isStamp: bytes -> bool
    const refuses: Handler
    var buffers: map<byte, bytes>
    var lines: seq<Line>

    function State(): Assembly
      reads this
    {
      Assembly(buffers, lines)
    }

    constructor (isStamp: bytes -> bool, refuses: Handler)
      ensures State() == Assembly(map[], []) && this.isStamp == isStamp && this.refuses == refuses
    {
      this.isStamp, this.refuses := isStamp, refuses;
      buffers, lines := map[], [];
    }

    method WriteFrame(stream: byte, payload: bytes) returns (outcome: Outcome)
      modifies this
      ensures (State(), outcome) == Written(old(State()), Frame(stream, payload), isStamp, refuses)
    {
      if stream != 1 && stream != 2 { return Finished; }
      var content := payload;
      var buffer := if stream in buffers then buffers[stream] else [];
      if |buffer| > 0 { content := Strip(content, isStamp); }
      buffer := buffer + content;
      if |buffer| > MAX_LINE { return LineTooLong; }
      var taken;
      buffer, taken := EmitLines(stream, buffer);
      if !taken { return HandlerFailed; }
      buffers := buffers[stream := buffer];
      return Finished;
    }

    /** The line loop of WriteFrame. */
    method EmitLines(stream: byte, text: bytes) returns (buffer: bytes, taken: bool)
      modifies this`lines
      ensures (lines, taken) == Handed(old(lines), Tagged(stream, Lines(text)), refuses)
      ensures taken ==> buffer == Tail(text)
    {
      buffer := text;
      while true
        invariant Handed(old(lines), Tagged(stream, Lines(text)), refuses)
          == Handed(lines, Tagged(stream, Lines(buffer)), refuses)
        invariant Tail(text) == Tail(buffer)
        decreases |buffer|
      {
        var index := IndexByte(buffer, LF);
        if index < 0 {
          return buffer, true;
        }
        var line := TrimCr(buffer[..index]);
        TaggedFirst(stream, line, Lines(buffer[index + 1..]));
        if refuses(lines + [Line(stream, line)]) { return buffer, false; }
        lines := lines + [Line(stream, line)];
        buffer := buffer[index + 1..];
      }
    }

    method Flush() returns (taken: bool)
      modifies this
      ensures (State(), taken) == FlushedTo(old(State()), refuses)
    {
      for stream := 1 to 3
        invariant stream == 1 ==> State() == old(State())
        invariant stream == 2 ==> (State(), true) == FlushedOneTo(old(State()), 1, refuses)
        invariant stream == 3 ==> (State(), true) == FlushedTo(old(State()), refuses)
      {
        var s := stream as byte;
        var buffer := if s in buffers then buffers[s] else [];
        if |buffer| == 0 { continue; }
        if refuses(lines + [Line(s, TrimCr(buffer))]) { return false; }
        lines := lines + [Line(s, TrimCr(buffer))];
        buffers := buffers[s := []];
      }
      return true;
    }
  }

  lemma TaggedFirst(stream: byte, line: bytes, rest: seq<bytes>)
    ensures var tagged := Tagged(stream, [line] + rest);
      tagged != [] && tagged[0] == Line(stream, line) && tagged[1..] == Tagged(stream, rest)
  {
  }

  /** A whole read after count frames: how it goes on and ends. */
  function ReadOn(
    a: Assembly, input: bytes, count: nat, isStamp: bytes -> bool, refuses: Handler, around: Surroundings):
    (Assembly, Outcome)
    decreases |input|
  {
    if |input| < 8 then (a, if around.readerEnd.ReadBroken? then ReaderFailed else Finished)
    else
      var size := BigEndian(input[4..8]);
      if size > MAX_FRAME then (a, FrameTooLarge(size))
      else if |input| < 8 + size then (a, if around.readerEnd.EndOfFile? then PayloadTruncated else ReaderFailed)
      else
        var (b, outcome) := Written(a, Frame(input[0], input[8..8 + size]), isStamp, refuses);
        if !outcome.Finished? then (b, outcome)
        else if around.doneAfter(count + 1) then (b, ContextDone)
        else ReadOn(b, input[8 + size..], count + 1, isStamp, refuses, around)
  }

  /** Reading one header and payload: a frame, or the end of the read. */
  datatype Pull = Pulled(frame: Frame) | Stopped(outcome: Outcome)

  function NextAt(input: bytes, at: nat, readerEnd: ReaderEnd): Pull
    requires at <= |input|
  {
    if |input| - at < 8 then Stopped(if readerEnd.ReadBroken? then ReaderFailed else Finished)
    else
      var size := BigEndian(input[at..at + 8][4..8]);
      if size > MAX_FRAME then Stopped(FrameTooLarge(size))
      else if |input| - at - 8 < size then Stopped(if readerEnd.EndOfFile? then PayloadTruncated else ReaderFailed)
      else Pulled(Frame(input[at], input[at + 8..at + 8 + size]))
  }

  method PullFrame(input: bytes, at: nat, readerEnd: ReaderEnd) returns (pull: Pull)
    requires at <= |input|
    ensures pull == NextAt(input, at, readerEnd)
    ensures pull.Pulled? ==> at + 8 + |pull.frame.payload| <= |input|
  {
    if |input| - at < 8 {
      return Stopped(if readerEnd.ReadBroken? then ReaderFailed else Finished);
    }
    var header := input[at..at + 8];
    var size := BigEndian(header[4..8]);
    if size > MAX_FRAME { return Stopped(FrameTooLarge(size)); }
    if |input| - at - 8 < size {
      return Stopped(if readerEnd.EndOfFile? then PayloadTruncated else ReaderFailed);
    }
    return Pulled(Frame(header[0], input[at + 8..at + 8 + size]));
  }

  /** decodeRawStream with the assembler's WriteFrame as its handler. */
  method DecodeRawStream(input: bytes, assembler: LineAssembler, around: Surroundings) returns (end: Outcome)
    modifies assembler
    ensures (assembler.State(), end)
      == ReadOn(old(assembler.State()), input, 0, assembler.isStamp, assembler.refuses, around)
  {
    hide Written, ReadOn, NextAt;
    var at, count := 0, 0;
    assert input[0..] == input;
    while true
      invariant 0 <= at <= |input|
      invariant ReadOn(old(assembler.State()), input, 0, assembler.isStamp, assembler.refuses, around)
        == ReadOn(assembler.State(), input[at..], count, assembler.isStamp, assembler.refuses, around)
      decreases |input| - at
    {
      ReadOnStep(assembler.State(), input, at, count, assembler.isStamp, assembler.refuses, around);
      var pull := PullFrame(input, at, around.readerEnd);
      if pull.Stopped? { return pull.outcome; }
      var outcome := assembler.WriteFrame(pull.frame.stream, pull.frame.payload);
      if !outcome.Finished? { return outcome; }
      at, count := at + 8 + |pull.frame.payload|, count + 1;
      if around.doneAfter(count) { return ContextDone; }
    }
    return Finished;
  }

  /** The end of streamLogs: the read and the flush, which never hides the error
      of the read. */
  function Streamed(
    input: bytes, isStamp: bytes -> bool, refuses: Handler, around: Surroundings): (Assembly, Outcome)
  {
    var (a, end) := ReadOn(EMPTY, input, 0, isStamp, refuses, around);
    var (b, taken) := FlushedTo(a, refuses);
    (b, if end.Finished? && !taken then HandlerFailed else end)
  }

  method StreamLogs(input: bytes, isStamp: bytes -> bool, refuses: Handler, around: Surroundings)
    returns (lines: seq<Line>, end: Outcome)
    ensures lines == Streamed(input, isStamp, refuses, around).0.lines
    ensures end == Streamed(input, isStamp, refuses, around).1
  {
    hide ReadOn, FlushedTo;
    var assembler := new LineAssembler(isStamp, refuses);
    end := DecodeRawStream(input, assembler, around);
    var taken := assembler.Flush();
    if end.Finished? && !taken { end := HandlerFailed; }
    lines := assembler.lines;
  }

  lemma ReadOnStep(
    a: Assembly, input: bytes, at: nat, count: nat, isStamp: bytes -> bool, refuses: Handler, around: Surroundings)
    requires at <= |input|
    ensures ReadOn(a, input[at..], count, isStamp, refuses, around) ==
      match NextAt(input, at, around.readerEnd)
      case Stopped(outcome) => (a, outcome)
      case Pulled(f) =>
        var (b, outcome) := Written(a, f, isStamp, refuses);
        if !outcome.Finished? then (b, outcome)
        else if around.doneAfter(count + 1) then (b, ContextDone)
        else ReadOn(b, input[at + 8 + |f.payload|..], count + 1, isStamp, refuses, around)
  {
    hide Written, BigEndian;
    var rest := input[at..];
    if |rest| >= 8 {
      HeaderAt(input, at);
      var size := BigEndian(rest[4..8]);
      if size <= MAX_FRAME && |rest| >= 8 + size {
        assert rest[8..8 + size] == input[at + 8..at + 8 + size] && rest[8 + size..] == input[at + 8 + size..];
      }
    }
  }

  lemma HeaderAt(input: bytes, at: nat)
    requires at + 8 <= |input|
    ensures input[at..at + 8][4..8] == input[at..][4..8]
  {
    var header, rest := input[at..at + 8], input[at..];
    assert forall k :: 4 <= k < 8 ==> header[k] == rest[k];
  }

  // ------------------------------------------- a read is the feeding of its frames

  lemma {:induction false} FeedFirst(a: Assembly, f: Frame, rest: seq<Frame>, isStamp: bytes -> bool)
    ensures Feed(a, [f] + rest, isStamp) ==
      if Accepts(a, f, isStamp) then Feed(Write(a, f, isStamp), rest, isStamp) else (a, false)
  {
    hide Write, Accepts;
    RefusedWrite(a, f, isStamp);
    var frames := [f] + rest;
    if rest == [] {
      assert frames[..0] == [] && frames[0] == f;
    } else {
      FeedFirst(a, f, rest[..|rest| - 1], isStamp);
      assert frames[..|frames| - 1] == [f] + rest[..|rest| - 1];
    }
  }

  lemma RefusedWrite(a: Assembly, f: Frame, isStamp: bytes -> bool)
    ensures !Accepts(a, f, isStamp) ==> Write(a, f, isStamp) == a
  {
  }

  lemma {:induction false} HandedPrefix(lines: seq<Line>, more: seq<Line>, refuses: Handler)
    ensures Handed(lines, more, refuses).0 <= lines + more
    ensures Handed(lines, more, refuses).1 ==> Handed(lines, more, refuses).0 == lines + more
    ensures (forall ls :: !refuses(ls)) ==> Handed(lines, more, refuses).1
    decreases |more|
  {
    if more == [] {
      assert lines + more == lines;
    } else {
      HandedPrefix(lines + [more[0]], more[1..], refuses);
      assert lines + [more[0]] + more[1..] == lines + more;
      assert lines <= lines + more;
    }
  }

  /** A frame that is written without a fault is written as the specification
      says, and a fault hands over a prefix of its lines. */
  lemma WrittenIsWrite(a: Assembly, f: Frame, isStamp: bytes -> bool, refuses: Handler)
    ensures var (b, outcome) := Written(a, f, isStamp, refuses);
      && (outcome.Finished? ==> b == Write(a, f, isStamp) && Accepts(a, f, isStamp))
      && b.lines <= Write(a, f, isStamp).lines
      && (outcome == LineTooLong <==> !Accepts(a, f, isStamp))
      && (outcome.Finished? || outcome == LineTooLong || outcome == HandlerFailed)
      && ((forall ls :: !refuses(ls)) ==> outcome != HandlerFailed)
  {
    HandedPrefix(a.lines, Tagged(f.stream, Lines(Extended(a, f, isStamp))), refuses);
  }

  lemma {:induction false} FeedKeepsLines(a: Assembly, frames: seq<Frame>, isStamp: bytes -> bool)
    ensures a.lines <= Feed(a, frames, isStamp).0.lines
  {
    hide Accepts;
    if frames != [] { FeedKeepsLines(a, frames[..|frames| - 1], isStamp); }
  }

  /** However a read is stopped, by its reader, its handler or its context, the
      lines handed over are the first of those its frames yield. */
  lemma {:induction false} StoppedReadIsPrefix(
    a: Assembly, input: bytes, count: nat, isStamp: bytes -> bool, refuses: Handler, around: Surroundings)
    ensures ReadOn(a, input, count, isStamp, refuses, around).0.lines <= Feed(a, Decode(input).0, isStamp).0.lines
    decreases |input|
  {
    hide Written, Write, Accepts, BigEndian, Feed;
    FeedKeepsLines(a, Decode(input).0, isStamp);
    if |input| >= 8 && BigEndian(input[4..8]) <= MAX_FRAME && |input| >= 8 + BigEndian(input[4..8]) {
      var size := BigEndian(input[4..8]);
      var f, rest := Frame(input[0], input[8..8 + size]), Decode(input[8 + size..]).0;
      WrittenIsWrite(a, f, isStamp, refuses);
      RefusedWrite(a, f, isStamp);
      FeedFirst(a, f, rest, isStamp);
      FeedKeepsLines(Write(a, f, isStamp), rest, isStamp);
      StoppedReadIsPrefix(Write(a, f, isStamp), input[8 + size..], count + 1, isStamp, refuses, around);
    }
  }

  /** How a read ends that nothing but its bytes can stop. */
  function Ending(a: Assembly, input: bytes, isStamp: bytes -> bool, readerEnd: ReaderEnd): Outcome {
    var (frames, end) := Decode(input);
    if !Feed(a, frames, isStamp).1 then LineTooLong
    else if end.Finished? then if readerEnd.ReadBroken? then ReaderFailed else Finished
    else if end.PayloadTruncated? && !readerEnd.EndOfFile? then ReaderFailed
    else end
  }

  /** When the handler takes every line and the context stays, a read feeds
      exactly the decoded frames, up to a line that is too long. */
  lemma {:induction false} CalmReadFeeds(
    a: Assembly, input: bytes, count: nat, isStamp: bytes -> bool, refuses: Handler, around: Surroundings)
    requires (forall ls :: !refuses(ls)) && forall n :: !around.doneAfter(n)
    ensures ReadOn(a, input, count, isStamp, refuses, around)
      == (Feed(a, Decode(input).0, isStamp).0, Ending(a, input, isStamp, around.readerEnd))
    decreases |input|
  {
    hide Written, Write, Accepts, BigEndian;
    if |input| >= 8 && BigEndian(input[4..8]) <= MAX_FRAME && |input| >= 8 + BigEndian(input[4..8]) {
      var size := BigEndian(input[4..8]);
      var f, rest := Frame(input[0], input[8..8 + size]), Decode(input[8 + size..]).0;
      WrittenIsWrite(a, f, isStamp, refuses);
      RefusedWrite(a, f, isStamp);
      FeedFirst(a, f, rest, isStamp);
      TooLongStops(a, f, isStamp, refuses);
      CalmReadFeeds(Write(a, f, isStamp), input[8 + size..], count + 1, isStamp, refuses, around);
    }
  }

  lemma TooLongStops(a: Assembly, f: Frame, isStamp: bytes -> bool, refuses: Handler)
    ensures !Accepts(a, f, isStamp) ==> Written(a, f, isStamp, refuses) == (a, LineTooLong)
  {
  }

  // ------------------------------------------------ what a handler or a context can stop

  /** Every line handed over was accepted, given all lines before it. */
  ghost predicate AllTaken(lines: seq<Line>, refuses: Handler) {
    forall n :: 0 < n <= |lines| ==> !refuses(lines[..n])
  }

  /** Some line was refused, given the lines handed over before it. */
  ghost predicate SomeRefused(lines: seq<Line>, refuses: Handler) {
    exists k, line :: RefusedAfter(lines, k, line, refuses)
  }

  predicate RefusedAfter(lines: seq<Line>, k: int, line: Line, refuses: Handler) {
    0 <= k <= |lines| && refuses(lines[..k] + [line])
  }

  lemma TakenMore(lines: seq<Line>, line: Line, refuses: Handler)
    requires AllTaken(lines, refuses) && !refuses(lines + [line])
    ensures AllTaken(lines + [line], refuses)
  {
    var more := lines + [line];
    forall n | 0 < n <= |more| ensures !refuses(more[..n]) {
      if n <= |lines| { assert more[..n] == lines[..n]; } else { assert more[..n] == more; }
    }
  }

  lemma RefusedMore(lines: seq<Line>, more: seq<Line>, refuses: Handler)
    requires SomeRefused(lines, refuses) && lines <= more
    ensures SomeRefused(more, refuses)
  {
    var k, line :| RefusedAfter(lines, k, line, refuses);
    assert more[..k] == lines[..k];
    assert RefusedAfter(more, k, line, refuses);
  }

  lemma RefusedHere(lines: seq<Line>, line: Line, refuses: Handler)
    requires refuses(lines + [line])
    ensures SomeRefused(lines, refuses)
  {
    assert lines[..|lines|] == lines;
    assert RefusedAfter(lines, |lines|, line, refuses);
  }

  lemma {:induction false} HandedTaken(lines: seq<Line>, more: seq<Line>, refuses: Handler)
    requires AllTaken(lines, refuses)
    ensures AllTaken(Handed(lines, more, refuses).0, refuses)
    ensures !Handed(lines, more, refuses).1 ==> SomeRefused(Handed(lines, more, refuses).0, refuses)
    decreases |more|
  {
    hide AllTaken, SomeRefused;
    if more != [] {
      if refuses(lines + [more[0]]) {
        RefusedHere(lines, more[0], refuses);
      } else {
        TakenMore(lines, more[0], refuses);
        HandedTaken(lines + [more[0]], more[1..], refuses);
      }
    }
  }

  lemma WrittenTaken(a: Assembly, f: Frame, isStamp: bytes -> bool, refuses: Handler)
    requires AllTaken(a.lines, refuses)
    ensures var (b, outcome) := Written(a, f, isStamp, refuses);
      AllTaken(b.lines, refuses) && (outcome == HandlerFailed ==> SomeRefused(b.lines, refuses))
  {
    hide AllTaken, SomeRefused, Tagged, Lines;
    HandedTaken(a.lines, Tagged(f.stream, Lines(Extended(a, f, isStamp))), refuses);
  }

  lemma {:induction false} ReadTaken(
    a: Assembly, input: bytes, count: nat, isStamp: bytes -> bool, refuses: Handler, around: Surroundings)
    requires AllTaken(a.lines, refuses)
    ensures var (b, end) := ReadOn(a, input, count, isStamp, refuses, around);
      AllTaken(b.lines, refuses) && (end == HandlerFailed ==> SomeRefused(b.lines, refuses))
    decreases |input|
  {
    hide AllTaken, SomeRefused, Written, BigEndian;
    if |input| >= 8 && BigEndian(input[4..8]) <= MAX_FRAME && |input| >= 8 + BigEndian(input[4..8]) {
      var size := BigEndian(input[4..8]);
      var f := Frame(input[0], input[8..8 + size]);
      WrittenTaken(a, f, isStamp, refuses);
      ReadTaken(Written(a, f, isStamp, refuses).0, input[8 + size..], count + 1, isStamp, refuses, around);
    }
  }

  lemma FlushedOneTaken(a: Assembly, stream: byte, refuses: Handler)
    requires AllTaken(a.lines, refuses)
    ensures var (b, ok) := FlushedOneTo(a, stream, refuses);
      && AllTaken(b.lines, refuses) && (!ok ==> SomeRefused(b.lines, refuses)) && a.lines <= b.lines
  {
    hide AllTaken, SomeRefused;
    if Buffer(a, stream) != [] {
      var line := Line(stream, TrimCr(Buffer(a, stream)));
      if refuses(a.lines + [line]) { RefusedHere(a.lines, line, refuses); } else { TakenMore(a.lines, line, refuses); }
    }
  }

  /** No line is handed over that the handler refuses, and a stream that ends with
      the handler's error was refused one. */
  lemma RefusalsAreKept(input: bytes, isStamp: bytes -> bool, refuses: Handler, around: Surroundings)
    ensures var (a, end) := Streamed(input, isStamp, refuses, around);
      AllTaken(a.lines, refuses) && (end == HandlerFailed ==> SomeRefused(a.lines, refuses))
  {
    hide AllTaken, SomeRefused, ReadOn, FlushedOneTo;
    NothingTaken(refuses);
    ReadTaken(EMPTY, input, 0, isStamp, refuses, around);
    var (a, end) := ReadOn(EMPTY, input, 0, isStamp, refuses, around);
    FlushedOneTaken(a, 1, refuses);
    var b := FlushedOneTo(a, 1, refuses).0;
    FlushedOneTaken(b, 2, refuses);
    if end == HandlerFailed {
      RefusedMore(a.lines, b.lines, refuses);
      RefusedMore(a.lines, FlushedOneTo(b, 2, refuses).0.lines, refuses);
    }
  }

  lemma NothingTaken(refuses: Handler)
    ensures AllTaken([], refuses)
  {
  }

  /** A read that goes to its end has fed every frame. */
  lemma {:induction false} FinishedReadFeeds(
    a: Assembly, input: bytes, count: nat, isStamp: bytes -> bool, refuses: Handler, around: Surroundings)
    requires ReadOn(a, input, count, isStamp, refuses, around).1 == Finished
    ensures Decode(input).1 == Finished
    ensures Feed(a, Decode(input).0, isStamp) == (ReadOn(a, input, count, isStamp, refuses, around).0, true)
    decreases |input|
  {
    hide Written, Write, Accepts, BigEndian;
    if |input| >= 8 && BigEndian(input[4..8]) <= MAX_FRAME && |input| >= 8 + BigEndian(input[4..8]) {
      var size := BigEndian(input[4..8]);
      var f, rest := Frame(input[0], input[8..8 + size]), Decode(input[8 + size..]).0;
      WrittenIsWrite(a, f, isStamp, refuses);
      FeedFirst(a, f, rest, isStamp);
      FinishedReadFeeds(Write(a, f, isStamp), input[8 + size..], count + 1, isStamp, refuses, around);
    }
  }

  /** Success means that nothing was skipped: every frame was read, and all lines
      of all streams were handed over. */
  lemma FinishedMeansAll(input: bytes, isStamp: bytes -> bool, refuses: Handler, around: Surroundings)
    requires Streamed(input, isStamp, refuses, around).1 == Finished
    ensures Decode(input).1 == Finished && Feed(EMPTY, Decode(input).0, isStamp).1
    ensures Streamed(input, isStamp, refuses, around).0 == Flushed(Feed(EMPTY, Decode(input).0, isStamp).0)
  {
    hide ReadOn, FlushedTo, Flushed, Feed, Decode;
    FinishedReadFeeds(EMPTY, input, 0, isStamp, refuses, around);
    FlushedToIsFlushed(ReadOn(EMPTY, input, 0, isStamp, refuses, around).0, refuses);
  }

  /** A context that is done after n more frames, and not before, stops the read
      there. */
  lemma {:induction false} ContextStopsRead(
    a: Assembly, input: bytes, count: nat, n: nat, isStamp: bytes -> bool, refuses: Handler, around: Surroundings)
    requires (forall ls :: !refuses(ls)) && 0 < n <= |Decode(input).0|
    requires around.doneAfter(count + n) && forall m :: count < m < count + n ==> !around.doneAfter(m)
    requires Feed(a, Decode(input).0[..n], isStamp).1
    ensures ReadOn(a, input, count, isStamp, refuses, around) == (Feed(a, Decode(input).0[..n], isStamp).0, ContextDone)
    decreases |input|
  {
    hide Written, Write, Accepts, BigEndian;
    var size := BigEndian(input[4..8]);
    var f, rest := Frame(input[0], input[8..8 + size]), Decode(input[8 + size..]).0;
    assert Decode(input).0 == [f] + rest;
    assert Decode(input).0[..n] == [f] + rest[..n - 1];
    WrittenIsWrite(a, f, isStamp, refuses);
    RefusedWrite(a, f, isStamp);
    FeedFirst(a, f, rest[..n - 1], isStamp);
    TooLongStops(a, f, isStamp, refuses);
    if n > 1 {
      ContextStopsRead(Write(a, f, isStamp), input[8 + size..], count + 1, n - 1, isStamp, refuses, around);
    }
  }

  /** A flush hands over what is left, stream one first, up to a refusal. */
  lemma FlushedToIsFlushed(a: Assembly, refuses: Handler)
    ensures var (b, ok) := FlushedTo(a, refuses);
      && b.lines <= Flushed(a).lines
      && (ok ==> b == Flushed(a))
      && ((forall ls :: !refuses(ls)) ==> ok)
  {
  }

  // -------------------------------------------- encoding frames, and reading back

  function SizeBytes(n: nat): bytes
    requires n < 0x1_0000_0000
  {
    [(n / 0x100_0000) as byte, (n / 0x1_0000 % 256) as byte, (n / 256 % 256) as byte, (n % 256) as byte]
  }

  /** A frame as the Docker engine writes it. */
  function Encode(f: Frame): bytes
    requires |f.payload| <= MAX_FRAME
  {
    [f.stream, 0, 0, 0] + SizeBytes(|f.payload|) + f.payload
  }

  ghost predicate AllEncodable(frames: seq<Frame>) {
    forall i :: 0 <= i < |frames| ==> |frames[i].payload| <= MAX_FRAME
  }

  function EncodeAll(frames: seq<Frame>): bytes
    requires AllEncodable(frames)
  {
    if frames == [] then [] else Encode(frames[0]) + EncodeAll(frames[1..])
  }

  /** The first byte of a size counts most. */
  lemma BigEndianOrder()
    ensures BigEndian([1, 2, 3, 4]) == 0x0102_0304
  {
  }

  lemma SizeRoundTrip(n: nat)
    requires n < 0x1_0000_0000
    ensures BigEndian(SizeBytes(n)) == n
  {
    var high, upper, lower := n / 0x100_0000, n / 0x1_0000, n / 256;
    assert upper / 256 == high && high * 256 + upper % 256 == upper;
    assert lower / 256 == upper && upper * 256 + lower % 256 == lower;
    assert lower * 256 + n % 256 == n;
  }

  lemma DecodeOne(f: Frame, rest: bytes)
    requires |f.payload| <= MAX_FRAME
    ensures Decode(Encode(f) + rest) == ([f] + Decode(rest).0, Decode(rest).1)
  {
    var input := Encode(f) + rest;
    assert input[4..8] == SizeBytes(|f.payload|);
    assert input[8..8 + |f.payload|] == f.payload && input[8 + |f.payload|..] == rest;
    SizeRoundTrip(|f.payload|);
  }

  /** Decoding undoes encoding, and leaves what follows to be decoded. */
  lemma {:induction false} DecodeEncode(frames: seq<Frame>, more: bytes)
    requires AllEncodable(frames)
    ensures Decode(EncodeAll(frames) + more) == (frames + Decode(more).0, Decode(more).1)
  {
    hide Decode, Encode;
    if frames == [] {
      assert [] + more == more;
      assert frames + Decode(more).0 == Decode(more).0;
    } else {
      var rest := EncodeAll(frames[1..]) + more;
      Regroup(Encode(frames[0]), EncodeAll(frames[1..]), more);
      DecodeOne(frames[0], rest);
      DecodeEncode(frames[1..], more);
      assert frames == [frames[0]] + frames[1..];
      assert [frames[0]] + (frames[1..] + Decode(more).0) == frames + Decode(more).0;
    }
  }

  // ----------------------------------------------------- lines of a whole text

  lemma {:induction false} IndexByteIs(before: bytes, c: byte, after: bytes)
    requires c !in before
    ensures IndexByte(before + [c] + after, c) == |before|
  {
    var b := before + [c] + after;
    if before != [] {
      IndexByteIs(before[1..], c, after);
      assert b[1..] == before[1..] + [c] + after;
    }
  }

  lemma FirstLine(line: bytes, rest: bytes)
    requires LF !in line
    ensures Lines(line + [LF] + rest) == [TrimCr(line)] + Lines(rest)
    ensures Tail(line + [LF] + rest) == Tail(rest)
  {
    var b := line + [LF] + rest;
    IndexByteIs(line, LF, rest);
    assert b[..|line|] == line && b[|line| + 1..] == rest;
  }

  lemma NoLine(b: bytes)
    requires LF !in b
    ensures Lines(b) == [] && Tail(b) == b
  {
  }

  /** Every text is a first line and a rest, or has no line feed. */
  lemma SplitLine(b: bytes) returns (line: bytes, rest: bytes)
    requires LF in b
    ensures LF !in line && b == line + [LF] + rest
  {
    var i := IndexByte(b, LF);
    line, rest := b[..i], b[i + 1..];
  }

  lemma Regroup(a: bytes, b: bytes, c: bytes)
    ensures (a + b) + c == a + (b + c)
  {
  }

  lemma RegroupLines(a: seq<bytes>, b: seq<bytes>, c: seq<bytes>)
    ensures (a + b) + c == a + (b + c)
    ensures [] + a == a
  {
  }

  /** Cutting a text anywhere: the lines of the front, then those of the rest
      with the unfinished tail put before it. */
  lemma {:induction false} LinesConcat(x: bytes, y: bytes)
    ensures Lines(x + y) == Lines(x) + Lines(Tail(x) + y)
    ensures Tail(x + y) == Tail(Tail(x) + y)
    decreases |x|
  {
    hide Lines, Tail, TrimCr;
    if LF !in x {
      NoLine(x);
      RegroupLines(Lines(x + y), [], []);
    } else {
      var line, rest := SplitLine(x);
      FirstLine(line, rest);
      LinesConcat(rest, y);
      Regroup(line + [LF], rest, y);
      FirstLine(line, rest + y);
      RegroupLines([TrimCr(line)], Lines(rest), Lines(Tail(rest) + y));
    }
  }

  lemma {:induction false} TailPlain(b: bytes)
    ensures LF !in Tail(b)
    ensures Lines(Tail(b)) == [] && Tail(Tail(b)) == Tail(b)
    decreases |b|
  {
    var i := IndexByte(b, LF);
    if i != -1 { TailPlain(b[i + 1..]); }
  }

  // ------------------------------------- what lines are, whatever computes them

  predicate EndsInCr(b: bytes) {
    b != [] && b[|b| - 1] == CR
  }

  /** The line that a raw line stands for: one carriage return at its end is no
      part of it. */
  predicate IsLineOf(raw: bytes, line: bytes) {
    raw == line + [CR] || (raw == line && !EndsInCr(raw))
  }

  /** The text is these lines, each ended by a line feed or by a carriage return
      and a line feed, and then an unfinished rest. */
  ghost predicate MadeOf(text: bytes, lines: seq<bytes>, rest: bytes)
    decreases |lines|
  {
    if lines == [] then LF !in text && text == rest
    else exists raw, more :: Begins(text, raw, more) && IsLineOf(raw, lines[0]) && MadeOf(more, lines[1..], rest)
  }

  predicate Begins(text: bytes, raw: bytes, more: bytes) {
    LF !in raw && text == raw + [LF] + more
  }

  lemma TrimmedIsLine(raw: bytes, line: bytes)
    ensures IsLineOf(raw, line) <==> line == TrimCr(raw)
  {
    if EndsInCr(raw) { assert raw == raw[..|raw| - 1] + [CR]; }
  }

  /** Every text is made of lines and a rest in exactly one way, and that is how it
      is read. */
  lemma {:induction false} LinesExact(text: bytes, lines: seq<bytes>, rest: bytes)
    ensures MadeOf(text, lines, rest) <==> lines == Lines(text) && rest == Tail(text)
    decreases |text|
  {
    hide Lines, Tail, TrimCr, IsLineOf, EndsInCr;
    if LF !in text {
      NoLine(text);
    } else {
      var raw, more := SplitLine(text);
      FirstLine(raw, more);
      if lines != [] {
        LinesExact(more, lines[1..], rest);
        TrimmedIsLine(raw, lines[0]);
        assert Begins(text, raw, more);
        if MadeOf(text, lines, rest) {
          var raw', more' :| Begins(text, raw', more') && IsLineOf(raw', lines[0]) && MadeOf(more', lines[1..], rest);
          CutOnce(raw, more, raw', more');
        }
      }
    }
  }

  lemma CutOnce(a: bytes, b: bytes, c: bytes, d: bytes)
    requires LF !in a && LF !in c && a + [LF] + b == c + [LF] + d
    ensures a == c && b == d
  {
    IndexByteIs(a, LF, b);
    IndexByteIs(c, LF, d);
    assert (a + [LF] + b)[..|a|] == a && (c + [LF] + d)[..|c|] == c;
    assert (a + [LF] + b)[|a| + 1..] == b && (c + [LF] + d)[|c| + 1..] == d;
  }

  /** All lines of a text, an unfinished last one included. */
  function AllLines(text: bytes): seq<bytes> {
    Lines(text) + if Tail(text) == [] then [] else [TrimCr(Tail(text))]
  }

  /** What a flush adds is what a line feed would have made a line. */
  lemma FlushEndsLine(text: bytes)
    ensures AllLines(text) == if Tail(text) == [] then Lines(text) else Lines(text + [LF])
  {
    TailPlain(text);
    LinesConcat(text, [LF]);
    FirstLine(Tail(text), []);
    assert Tail(text) + [LF] + [] == Tail(text) + [LF];
    NoLine([]);
    RegroupLines([TrimCr(Tail(text))], [], []);
  }

  /** Each line followed by a line feed. */
  function Ended(lines: seq<bytes>): bytes {
    if lines == [] then [] else lines[0] + [LF] + Ended(lines[1..])
  }

  /** Without carriage returns nothing is lost: the lines and the rest, put
      together again, are the text. */
  lemma {:induction false} LinesKeepText(text: bytes)
    requires CR !in text
    ensures Ended(Lines(text)) + Tail(text) == text
    decreases |text|
  {
    hide Lines, Tail, TrimCr;
    if LF !in text {
      NoLine(text);
    } else {
      var raw, more := SplitLine(text);
      FirstLine(raw, more);
      TrimmedIsLine(raw, raw);
      assert raw == TrimCr(raw) by { assert forall i :: 0 <= i < |raw| ==> raw[i] == text[i]; }
      assert CR !in more by { assert forall i :: 0 <= i < |more| ==> more[i] == text[|raw| + 1 + i]; }
      LinesKeepText(more);
      assert ([raw] + Lines(more))[1..] == Lines(more);
      Regroup(raw + [LF], Ended(Lines(more)), Tail(more));
    }
  }

  /** The text with a line feed at its end, as a flush treats it. */
  function Completed(text: bytes): bytes {
    if text == [] || text[|text| - 1] == LF then text else text + [LF]
  }

  /** All lines of a text, the flushed one included, are those it is made of. */
  lemma AllLinesMade(text: bytes)
    ensures MadeOf(Completed(text), AllLines(text), [])
  {
    hide AllLines, MadeOf;
    FlushEndsLine(text);
    TailEmptyIff(text);
    TailEmptyIff(Completed(text));
    LinesExact(Completed(text), AllLines(text), []);
  }

  lemma {:induction false} TailEmptyIff(text: bytes)
    ensures Tail(text) == [] <==> text == [] || text[|text| - 1] == LF
    decreases |text|
  {
    hide Tail;
    if LF !in text {
      NoLine(text);
    } else {
      var raw, more := SplitLine(text);
      FirstLine(raw, more);
      TailEmptyIff(more);
    }
  }

  /** With the flush nothing is lost either, up to a last line feed. */
  lemma AllLinesKeepText(text: bytes)
    requires CR !in text
    ensures Ended(AllLines(text)) == Completed(text)
  {
    hide Ended, AllLines, Lines, Tail;
    FlushEndsLine(text);
    TailEmptyIff(text);
    TailEmptyIff(Completed(text));
    LinesKeepText(Completed(text));
  }

  // ------------------------------------------- the text each stream is made of

  function Payloads(frames: seq<Frame>, stream: byte): seq<bytes> {
    if frames == [] then []
    else Payloads(frames[..|frames| - 1], stream)
         + if frames[|frames| - 1].stream == stream then [frames[|frames| - 1].payload] else []
  }

  /** The payload that counts after the text so far: a continuation loses its
      own timestamp. */
  function Counted(text: bytes, payload: bytes, isStamp: bytes -> bool): bytes {
    if Tail(text) != [] then Strip(payload, isStamp) else payload
  }

  /** The text that a sequence of payloads spells. */
  function Spelt(payloads: seq<bytes>, isStamp: bytes -> bool): bytes {
    if payloads == [] then []
    else
      var text := Spelt(payloads[..|payloads| - 1], isStamp);
      text + Counted(text, payloads[|payloads| - 1], isStamp)
  }

  function TextOf(frames: seq<Frame>, stream: byte, isStamp: bytes -> bool): bytes {
    Spelt(Payloads(frames, stream), isStamp)
  }

  function On(lines: seq<Line>, stream: byte): seq<bytes> {
    if lines == [] then []
    else
      var last := lines[|lines| - 1];
      On(lines[..|lines| - 1], stream) + if last.stream == stream then [last.text] else []
  }

  lemma {:induction false} OnAppend(a: seq<Line>, b: seq<Line>, stream: byte)
    ensures On(a + b, stream) == On(a, stream) + On(b, stream)
  {
    if b == [] {
      assert a + b == a;
    } else {
      OnAppend(a, b[..|b| - 1], stream);
      assert (a + b)[..|a + b| - 1] == a + b[..|b| - 1];
    }
  }

  lemma {:induction false} OnTagged(s: byte, texts: seq<bytes>, stream: byte)
    ensures On(Tagged(s, texts), stream) == if s == stream then texts else []
  {
    if texts != [] {
      OnTagged(s, texts[..|texts| - 1], stream);
      assert Tagged(s, texts)[..|texts| - 1] == Tagged(s, texts[..|texts| - 1]);
      assert texts == texts[..|texts| - 1] + [texts[|texts| - 1]];
    }
  }

  /** The stream's buffer and emitted lines are those of its text. */
  ghost predicate Spells(a: Assembly, stream: byte, text: bytes) {
    On(a.lines, stream) == Lines(text) && Buffer(a, stream) == Tail(text)
  }

  const EMPTY := Assembly(map[], [])

  /** One frame extends the text of its own stream and leaves the other alone. */
  lemma WriteSpells(a: Assembly, f: Frame, isStamp: bytes -> bool, stream: byte, text: bytes)
    requires Accepts(a, f, isStamp) && LogStream(stream) && Spells(a, stream, text)
    ensures var longer := if f.stream == stream then text + Counted(text, f.payload, isStamp) else text;
      Spells(Write(a, f, isStamp), stream, longer)
  {
    if LogStream(f.stream) {
      var new_ := Lines(Extended(a, f, isStamp));
      OnAppend(a.lines, Tagged(f.stream, new_), stream);
      OnTagged(f.stream, new_, stream);
      if f.stream == stream {
        LinesConcat(text, Counted(text, f.payload, isStamp));
        TailPlain(text);
      }
    }
  }

  /** Chunking invariance: as long as no frame is refused, what a stream has
      emitted and what it still holds are determined by the text its own payloads
      spell, whatever the frame boundaries and the interleaving. */
  lemma {:induction false} FeedSpells(frames: seq<Frame>, isStamp: bytes -> bool, stream: byte)
    requires LogStream(stream) && Feed(EMPTY, frames, isStamp).1
    ensures Spells(Feed(EMPTY, frames, isStamp).0, stream, TextOf(frames, stream, isStamp))
  {
    if frames != [] {
      var front, f := frames[..|frames| - 1], frames[|frames| - 1];
      FeedSpells(front, isStamp, stream);
      WriteSpells(Feed(EMPTY, front, isStamp).0, f, isStamp, stream, TextOf(front, stream, isStamp));
      var ps := Payloads(front, stream);
      if f.stream == stream {
        assert (ps + [f.payload])[..|ps|] == ps;
      } else {
        assert ps + [] == ps;
      }
    }
  }

  lemma FlushSpells(a: Assembly, stream: byte, text: bytes)
    requires LogStream(stream) && Spells(a, stream, text)
    ensures On(Flushed(a).lines, stream) == AllLines(text)
    ensures Buffer(Flushed(a), stream) == []
  {
    var b := FlushOne(a, 1);
    OnAppend(a.lines, [Line(1, TrimCr(Buffer(a, 1)))], stream);
    OnAppend(b.lines, [Line(2, TrimCr(Buffer(b, 2)))], stream);
    assert forall x: Line :: [x][..0] == [];
    assert forall s: seq<bytes> :: s + [] == s;
  }

  // ------------------------------------------------------------- main theorems

  /** No line, with the payload that extends it, passes the limit. */
  predicate Fits(frames: seq<Frame>, isStamp: bytes -> bool) {
    frames == [] ||
    var front, f := frames[..|frames| - 1], frames[|frames| - 1];
    var text := TextOf(front, f.stream, isStamp);
    Fits(front, isStamp) && (LogStream(f.stream) ==> |Tail(text)| + |Counted(text, f.payload, isStamp)| <= MAX_LINE)
  }

  /** The read goes through exactly when the lines fit. */
  lemma {:induction false} FeedFits(frames: seq<Frame>, isStamp: bytes -> bool)
    ensures Feed(EMPTY, frames, isStamp).1 <==> Fits(frames, isStamp)
  {
    if frames != [] {
      var front, f := frames[..|frames| - 1], frames[|frames| - 1];
      FeedFits(front, isStamp);
      if Fits(front, isStamp) && LogStream(f.stream) { FeedSpells(front, isStamp, f.stream); }
    }
  }

  function Flatten(parts: seq<bytes>): bytes {
    if parts == [] then [] else Flatten(parts[..|parts| - 1]) + parts[|parts| - 1]
  }

  /** The lines a whole input yields on one stream, after the final flush. */
  function LinesRead(input: bytes, isStamp: bytes -> bool, stream: byte): seq<bytes> {
    On(Flushed(Feed(EMPTY, Decode(input).0, isStamp).0).lines, stream)
  }

  /** The payload does not start with a stamp and a blank. */
  predicate Unstamped(payload: bytes, isStamp: bytes -> bool) {
    var space := IndexByte(payload, BLANK);
    space <= 0 || !isStamp(payload[..space])
  }

  lemma {:induction false} UnstampedSpell(payloads: seq<bytes>, isStamp: bytes -> bool)
    requires forall i :: 0 <= i < |payloads| ==> Unstamped(payloads[i], isStamp)
    ensures Spelt(payloads, isStamp) == Flatten(payloads)
  {
    if payloads != [] { UnstampedSpell(payloads[..|payloads| - 1], isStamp); }
  }

  lemma {:induction false} PayloadsUnstamped(frames: seq<Frame>, isStamp: bytes -> bool, stream: byte)
    requires forall i :: 0 <= i < |frames| ==> Unstamped(frames[i].payload, isStamp)
    ensures forall i :: 0 <= i < |Payloads(frames, stream)| ==> Unstamped(Payloads(frames, stream)[i], isStamp)
  {
    if frames != [] { PayloadsUnstamped(frames[..|frames| - 1], isStamp, stream); }
  }

  /** From the first byte to the last line handed over: when the handler takes every
      line and the context stays, frames that fit are read to their end, and each
      stream's lines are those that its text is made of. */
  lemma StreamSpells(
    frames: seq<Frame>, isStamp: bytes -> bool, refuses: Handler, around: Surroundings, stream: byte)
    requires AllEncodable(frames) && Fits(frames, isStamp) && stream in {1, 2}
    requires (forall ls :: !refuses(ls)) && (forall n :: !around.doneAfter(n)) && !around.readerEnd.ReadBroken?
    ensures var (a, end) := Streamed(EncodeAll(frames), isStamp, refuses, around);
      end == Finished && MadeOf(Completed(TextOf(frames, stream, isStamp)), On(a.lines, stream), [])
  {
    hide ReadOn, FlushedTo, Flushed, Feed, Fits, TextOf, AllLines, EncodeAll, MadeOf;
    AllLinesMade(TextOf(frames, stream, isStamp));
    var input := EncodeAll(frames);
    CalmReadFeeds(EMPTY, input, 0, isStamp, refuses, around);
    EncodedDecode(frames);
    FeedFits(frames, isStamp);
    FlushedToIsFlushed(Feed(EMPTY, frames, isStamp).0, refuses);
    ReadSpells(frames, isStamp, stream);
  }

  lemma EncodedDecode(frames: seq<Frame>)
    requires AllEncodable(frames)
    ensures Decode(EncodeAll(frames)) == (frames, Finished)
  {
    DecodeEncode(frames, []);
    assert EncodeAll(frames) + [] == EncodeAll(frames);
    assert frames + [] == frames;
  }

  /** What is read from encoded frames is what their payloads spell. */
  lemma ReadSpells(frames: seq<Frame>, isStamp: bytes -> bool, stream: byte)
    requires AllEncodable(frames) && Fits(frames, isStamp) && stream in {1, 2}
    ensures LinesRead(EncodeAll(frames), isStamp, stream) == AllLines(TextOf(frames, stream, isStamp))
  {
    DecodeEncode(frames, []);
    assert EncodeAll(frames) + [] == EncodeAll(frames);
    assert frames + [] == frames;
    FeedFits(frames, isStamp);
    FeedSpells(frames, isStamp, stream);
    FlushSpells(Feed(EMPTY, frames, isStamp).0, stream, TextOf(frames, stream, isStamp));
  }

  /** Chunking invariance, from bytes to lines: without stamps, a stream's lines
      are those that its payloads, put end to end, are made of. */
  lemma ChunkingInvariant(frames: seq<Frame>, isStamp: bytes -> bool, stream: byte)
    requires AllEncodable(frames) && Fits(frames, isStamp) && stream in {1, 2}
    requires forall i :: 0 <= i < |frames| ==> Unstamped(frames[i].payload, isStamp)
    ensures MadeOf(Completed(Flatten(Payloads(frames, stream))), LinesRead(EncodeAll(frames), isStamp, stream), [])
  {
    hide Fits, Unstamped, Flatten, Payloads, LinesRead, EncodeAll, AllLines, MadeOf;
    ChunkedLines(frames, isStamp, stream);
    AllLinesMade(Flatten(Payloads(frames, stream)));
  }

  lemma ChunkedLines(frames: seq<Frame>, isStamp: bytes -> bool, stream: byte)
    requires AllEncodable(frames) && Fits(frames, isStamp) && LogStream(stream)
    requires forall i :: 0 <= i < |frames| ==> Unstamped(frames[i].payload, isStamp)
    ensures LinesRead(EncodeAll(frames), isStamp, stream) == AllLines(Flatten(Payloads(frames, stream)))
  {
    ReadSpells(frames, isStamp, stream);
    PayloadsUnstamped(frames, isStamp, stream);
    UnstampedSpell(Payloads(frames, stream), isStamp);
  }

  /** No byte is lost, added or moved to the other stream: without stamps and
      carriage returns, the lines of a stream, each ended again, are its payloads
      end to end, up to a last line feed. */
  lemma NoByteLost(frames: seq<Frame>, isStamp: bytes -> bool, stream: byte)
    requires AllEncodable(frames) && Fits(frames, isStamp) && stream in {1, 2}
    requires forall i :: 0 <= i < |frames| ==> Unstamped(frames[i].payload, isStamp)
    requires CR !in Flatten(Payloads(frames, stream))
    ensures var read, sent := LinesRead(EncodeAll(frames), isStamp, stream), Flatten(Payloads(frames, stream));
      Ended(read) == Completed(sent)
  {
    hide Fits, Unstamped, Flatten, Payloads, LinesRead, EncodeAll, AllLines, Ended;
    ChunkedLines(frames, isStamp, stream);
    AllLinesKeepText(Flatten(Payloads(frames, stream)));
  }

  // --- lines cut into timestamped frames

  /** One piece of a long line as Docker sends it. */
  datatype Piece = Piece(stamp: bytes, chunk: bytes)

  predicate Stamp(stamp: bytes, isStamp: bytes -> bool) {
    stamp != [] && BLANK !in stamp && LF !in stamp && isStamp(stamp)
  }

  ghost predicate StampedLine(pieces: seq<Piece>, isStamp: bytes -> bool) {
    && pieces != []
    && forall i :: 0 <= i < |pieces| ==> Stamp(pieces[i].stamp, isStamp) && LF !in pieces[i].chunk
  }

  function Prefixed(p: Piece): bytes {
    p.stamp + [BLANK] + p.chunk
  }

  function Chunks(pieces: seq<Piece>): seq<bytes> {
    seq(|pieces|, i requires 0 <= i < |pieces| => pieces[i].chunk)
  }

  /** The line feed comes with the last piece. */
  function LinePayloads(pieces: seq<Piece>): (payloads: seq<bytes>)
    ensures |payloads| == |pieces|
  {
    seq(|pieces|, i requires 0 <= i < |pieces| =>
      if i == |pieces| - 1 then Prefixed(pieces[i]) + [LF] else Prefixed(pieces[i]))
  }

  /** The line put together again: first stamp, blank, original text. */
  function Reassembled(pieces: seq<Piece>): bytes
    requires pieces != []
  {
    pieces[0].stamp + [BLANK] + Flatten(Chunks(pieces))
  }

  lemma StripPiece(stamp: bytes, rest: bytes, isStamp: bytes -> bool)
    requires Stamp(stamp, isStamp)
    ensures Strip(stamp + [BLANK] + rest, isStamp) == rest
  {
    IndexByteIs(stamp, BLANK, rest);
    assert (stamp + [BLANK] + rest)[..|stamp|] == stamp && (stamp + [BLANK] + rest)[|stamp| + 1..] == rest;
  }

  lemma {:induction false} FlattenPlain(parts: seq<bytes>)
    requires forall i :: 0 <= i < |parts| ==> LF !in parts[i]
    ensures LF !in Flatten(parts)
  {
    if parts != [] { FlattenPlain(parts[..|parts| - 1]); }
  }

  lemma ReassembledPlain(pieces: seq<Piece>, isStamp: bytes -> bool)
    requires StampedLine(pieces, isStamp)
    ensures LF !in Reassembled(pieces) && Reassembled(pieces) != []
  {
    FlattenPlain(Chunks(pieces));
  }

  lemma TailAfterLine(text: bytes, more: bytes)
    requires Tail(text) == [] && LF !in more
    ensures Tail(text + more) == more && Tail(text + more + [LF]) == []
  {
    LinesConcat(text, more);
    NoLine(more);
    assert [] + more == more;
    LinesConcat(text + more, [LF]);
    FirstLine(more, []);
    assert more + [LF] + [] == more + [LF];
  }

  lemma SpeltOne(payloads: seq<bytes>, payload: bytes, isStamp: bytes -> bool)
    ensures Spelt(payloads + [payload], isStamp)
      == Spelt(payloads, isStamp) + Counted(Spelt(payloads, isStamp), payload, isStamp)
  {
    assert (payloads + [payload])[..|payloads|] == payloads;
  }

  lemma FlattenChunks(pieces: seq<Piece>, i: nat)
    requires 0 < i < |pieces|
    ensures Reassembled(pieces[..i + 1]) == Reassembled(pieces[..i]) + pieces[i].chunk
  {
    assert Chunks(pieces[..i + 1])[..i] == Chunks(pieces[..i]);
  }

  lemma FlattenFirst(pieces: seq<Piece>)
    requires pieces != []
    ensures Reassembled(pieces[..1]) == Prefixed(pieces[0])
  {
    assert Chunks(pieces[..1]) == [pieces[0].chunk];
    assert [pieces[0].chunk][..0] == [];
    assert Flatten([pieces[0].chunk]) == [] + pieces[0].chunk == pieces[0].chunk;
  }

  /** A first piece starts the line with its stamp. */
  lemma SpeltStart(payloads: seq<bytes>, payload: bytes, isStamp: bytes -> bool)
    requires Tail(Spelt(payloads, isStamp)) == []
    ensures Spelt(payloads + [payload], isStamp) == Spelt(payloads, isStamp) + payload
  {
    SpeltOne(payloads, payload, isStamp);
  }

  /** A later piece adds to the line without its stamp. */
  lemma SpeltContinue(payloads: seq<bytes>, text: bytes, line: bytes, stamp: bytes, rest: bytes, isStamp: bytes -> bool)
    requires Spelt(payloads, isStamp) == text + line
    requires Tail(text) == [] && LF !in line && line != [] && Stamp(stamp, isStamp)
    ensures Spelt(payloads + [stamp + [BLANK] + rest], isStamp) == text + (line + rest)
  {
    hide Spelt, Tail, Strip;
    SpeltOne(payloads, stamp + [BLANK] + rest, isStamp);
    TailAfterLine(text, line);
    StripPiece(stamp, rest, isStamp);
    Regroup(text, line, rest);
  }

  lemma PayloadsUpTo(before: seq<bytes>, pieces: seq<Piece>, i: nat)
    requires i < |pieces|
    ensures before + LinePayloads(pieces)[..i + 1] == (before + LinePayloads(pieces)[..i]) + [LinePayloads(pieces)[i]]
    ensures i < |pieces| - 1 ==> LinePayloads(pieces)[i] == pieces[i].stamp + [BLANK] + pieces[i].chunk
    ensures i == |pieces| - 1 ==> LinePayloads(pieces)[i] == pieces[i].stamp + [BLANK] + (pieces[i].chunk + [LF])
    ensures before + LinePayloads(pieces)[..0] == before
    ensures LinePayloads(pieces)[..|pieces|] == LinePayloads(pieces)
  {
  }

  lemma FrontStamped(pieces: seq<Piece>, i: nat, isStamp: bytes -> bool)
    requires StampedLine(pieces, isStamp) && 0 < i <= |pieces|
    ensures LF !in Reassembled(pieces[..i]) && Reassembled(pieces[..i]) != []
  {
    ReassembledPlain(pieces[..i], isStamp);
  }

  /** The pieces before the last spell the line so far, with one stamp. */
  lemma {:induction false} SpeltPieces(before: seq<bytes>, pieces: seq<Piece>, i: nat, isStamp: bytes -> bool)
    requires StampedLine(pieces, isStamp) && 0 < i < |pieces|
    requires Tail(Spelt(before, isStamp)) == []
    ensures Spelt(before + LinePayloads(pieces)[..i], isStamp) == Spelt(before, isStamp) + Reassembled(pieces[..i])
  {
    hide Spelt, Tail, LinePayloads, Reassembled;
    var j := i - 1;
    PayloadsUpTo(before, pieces, j);
    if j == 0 {
      SpeltStart(before, Prefixed(pieces[0]), isStamp);
      FlattenFirst(pieces);
    } else {
      SpeltPieces(before, pieces, j, isStamp);
      FrontStamped(pieces, j, isStamp);
      SpeltContinue(before + LinePayloads(pieces)[..j], Spelt(before, isStamp), Reassembled(pieces[..j]),
                    pieces[j].stamp, pieces[j].chunk, isStamp);
      FlattenChunks(pieces, j);
    }
  }

  /** All the pieces spell the whole line and its line feed. */
  lemma SpeltLine(before: seq<bytes>, pieces: seq<Piece>, isStamp: bytes -> bool)
    requires StampedLine(pieces, isStamp) && Tail(Spelt(before, isStamp)) == []
    ensures Spelt(before + LinePayloads(pieces), isStamp) == Spelt(before, isStamp) + (Reassembled(pieces) + [LF])
    ensures Tail(Spelt(before + LinePayloads(pieces), isStamp)) == []
  {
    hide Spelt, Tail, LinePayloads, Reassembled, Stamp;
    var text := Spelt(before, isStamp);
    var n := |pieces| - 1;
    PayloadsUpTo(before, pieces, n);
    assert pieces[..n + 1] == pieces;
    if n == 0 {
      SpeltStart(before, Prefixed(pieces[0]) + [LF], isStamp);
      FlattenFirst(pieces);
      Regroup(pieces[0].stamp + [BLANK], pieces[0].chunk, [LF]);
    } else {
      SpeltPieces(before, pieces, n, isStamp);
      FrontStamped(pieces, n, isStamp);
      SpeltContinue(before + LinePayloads(pieces)[..n], text, Reassembled(pieces[..n]),
                    pieces[n].stamp, pieces[n].chunk + [LF], isStamp);
      FlattenChunks(pieces, n);
      Regroup(Reassembled(pieces[..n]), pieces[n].chunk, [LF]);
    }
    ReassembledPlain(pieces, isStamp);
    TailAfterLine(text, Reassembled(pieces));
    Regroup(text, Reassembled(pieces), [LF]);
  }

  function AllPayloads(lines: seq<seq<Piece>>): seq<bytes> {
    if lines == [] then [] else AllPayloads(lines[..|lines| - 1]) + LinePayloads(lines[|lines| - 1])
  }

  ghost predicate AllStamped(lines: seq<seq<Piece>>, isStamp: bytes -> bool) {
    forall i :: 0 <= i < |lines| ==> StampedLine(lines[i], isStamp)
  }

  /** What comes out: each line once, less one carriage return. */
  function Expected(lines: seq<seq<Piece>>): seq<bytes>
    requires forall i :: 0 <= i < |lines| ==> lines[i] != []
  {
    seq(|lines|, i requires 0 <= i < |lines| => TrimCr(Reassembled(lines[i])))
  }

  lemma SpeltNothing(isStamp: bytes -> bool)
    ensures Tail(Spelt([], isStamp)) == [] && Lines(Spelt([], isStamp)) == []
  {
  }

  lemma {:induction false} SpeltLines(lines: seq<seq<Piece>>, isStamp: bytes -> bool)
    requires AllStamped(lines, isStamp)
    ensures Tail(Spelt(AllPayloads(lines), isStamp)) == []
    ensures Lines(Spelt(AllPayloads(lines), isStamp)) == Expected(lines)
  {
    hide Spelt, Tail, Lines, TrimCr, Reassembled, LinePayloads;
    if lines == [] {
      SpeltNothing(isStamp);
    } else {
      var front, last := lines[..|lines| - 1], lines[|lines| - 1];
      SpeltLines(front, isStamp);
      SpeltOneMore(AllPayloads(front), last, isStamp);
      assert Expected(lines) == Expected(front) + [TrimCr(Reassembled(last))];
    }
  }

  lemma SpeltOneMore(before: seq<bytes>, pieces: seq<Piece>, isStamp: bytes -> bool)
    requires StampedLine(pieces, isStamp) && Tail(Spelt(before, isStamp)) == []
    ensures Tail(Spelt(before + LinePayloads(pieces), isStamp)) == []
    ensures Lines(Spelt(before + LinePayloads(pieces), isStamp))
      == Lines(Spelt(before, isStamp)) + [TrimCr(Reassembled(pieces))]
  {
    hide Spelt, Tail, LinePayloads, Reassembled, Lines, TrimCr;
    SpeltLine(before, pieces, isStamp);
    LinesConcat(Spelt(before, isStamp), Reassembled(pieces) + [LF]);
    ReassembledPlain(pieces, isStamp);
    OneWholeLine(Reassembled(pieces));
  }

  lemma OneWholeLine(line: bytes)
    requires LF !in line
    ensures Lines([] + (line + [LF])) == [TrimCr(line)]
  {
    FirstLine(line, []);
    assert [] + (line + [LF]) == line + [LF] + [];
    NoLine([]);
    RegroupLines([TrimCr(line)], [], []);
  }

  /** The timestamped round trip, from bytes to lines: lines cut into pieces in
      any way, each piece stamped and framed, interleaved in any way with the
      other stream, come back whole, with their first stamp only. */
  lemma TimestampedRoundTrip(lines: seq<seq<Piece>>, frames: seq<Frame>, isStamp: bytes -> bool, stream: byte)
    requires stream in {1, 2} && AllStamped(lines, isStamp)
    requires AllEncodable(frames) && Fits(frames, isStamp) && Payloads(frames, stream) == AllPayloads(lines)
    ensures var read := LinesRead(EncodeAll(frames), isStamp, stream);
      |read| == |lines| && forall i :: 0 <= i < |lines| ==> IsLineOf(Reassembled(lines[i]), read[i])
  {
    hide Fits, Spelt, TrimCr, IsLineOf, Reassembled, LinesRead;
    ReadSpells(frames, isStamp, stream);
    SpeltLines(lines, isStamp);
    RegroupLines(Expected(lines), [], []);
    forall i | 0 <= i < |lines| ensures IsLineOf(Reassembled(lines[i]), Expected(lines)[i]) {
      TrimmedIsLine(Reassembled(lines[i]), Expected(lines)[i]);
    }
  }
}
