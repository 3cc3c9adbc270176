/** The two goroutines of Text.Read and their channels, as a state machine over every interleaving
    (net/protocol/common.go, net/protocol/text.go). */
module LinePipeline {
  import opened Common
  import opened Lines

  /** readChunks' goroutine. `last` remembers that the read that gave the data also gave an error. */
  datatype Producer =
    | AtLoopTop
    | InRead
    | BeforeSend(data: string, last: bool)
    | InSend(data: string, last: bool)
    | Returning
    | Returned

  /** Read's goroutine. `last` marks the line sent after the loop over the chunks. */
  datatype Splitter =
    | Receiving(pending: string)
    | Scanning(pending: string)
    | LineBeforeSend(line: string, pending: string, last: bool)
    | LineInSend(line: string, pending: string, last: bool)
    | Leaving
    | Left

  /** A Go channel of capacity one. */
  datatype Channel<T> = Channel(buffer: seq<T>, closed: bool)

  datatype State = State(
    cancelled: bool,
    producer: Producer,
    chunks: Channel<string>,
    splitter: Splitter,
    lines: Channel<string>,
    ghost delivered: string,      // all bytes the reader has handed out
    ghost passed: string,         // those put on the chunk channel
    ghost received: string,       // those taken off it
    ghost dropped: bool,          // a chunk was abandoned in send
    ghost sent: seq<string>,      // lines put on the line channel
    ghost taken: seq<string>)     // lines the caller has received

  datatype Step =
    | Cancel
    | Look
    | ReaderReturns(data: string, failed: bool)
    | SendLooks
    | SendChunk
    | SendGivesUp
    | CloseChunks
    | ReceiveChunk
    | ChunksEnded
    | Scan
    | LineSendLooks
    | SendLine
    | LineSendGivesUp
    | CloseLines
    | TakeLine

  /** What the caller of Read starts with: both goroutines running, or the early returns for a context that
      was already done when readChunks or Read looked at it. */
  ghost predicate Init(s: State) {
    && s.chunks.buffer == [] && s.lines == Channel([], s.splitter.Left?)
    && s.delivered == s.passed == s.received == "" && !s.dropped && s.sent == s.taken == []
    && (if s.chunks.closed then s.producer == Returned && s.cancelled else s.producer == AtLoopTop)
    && (s.splitter == Receiving("") || (s.splitter == Left && s.cancelled))
  }

  function AfterChunk(last: bool): Producer {
    if last then Returning else AtLoopTop
  }

  /** One atomic step of either goroutine, the caller or the context; None when it cannot be taken. */
  function Next(s: State, step: Step): Option<State> {
    match step
    case Cancel => Some(s.(cancelled := true))

    case Look =>
      if s.producer != AtLoopTop then None
      else Some(s.(producer := if s.cancelled then Returning else InRead))
    case ReaderReturns(data, failed) =>
      if s.producer != InRead then None
      else Some(s.(delivered := s.delivered + data,
                   producer := if data != "" then BeforeSend(data, failed) else AfterChunk(failed)))
    case SendLooks =>
      if !s.producer.BeforeSend? then None
      else if s.cancelled then Some(s.(producer := Returning, dropped := true))
      else Some(s.(producer := InSend(s.producer.data, s.producer.last)))
    case SendChunk =>
      if !s.producer.InSend? || s.chunks.buffer != [] then None
      else Some(s.(producer := AfterChunk(s.producer.last), chunks := s.chunks.(buffer := [s.producer.data]),
                   passed := s.passed + s.producer.data))
    case SendGivesUp =>
      if !s.producer.InSend? || !s.cancelled then None
      else Some(s.(producer := Returning, dropped := true))
    case CloseChunks =>
      if s.producer != Returning then None
      else Some(s.(producer := Returned, chunks := s.chunks.(closed := true)))

    case ReceiveChunk =>
      if !s.splitter.Receiving? || s.chunks.buffer == [] then None
      else Some(s.(splitter := Scanning(s.splitter.pending + s.chunks.buffer[0]),
                   chunks := s.chunks.(buffer := s.chunks.buffer[1..]),
                   received := s.received + s.chunks.buffer[0]))
    case ChunksEnded =>
      if !s.splitter.Receiving? || s.chunks != Channel([], true) then None
      else
        var pending := s.splitter.pending;
        Some(s.(splitter := if pending != "" then LineBeforeSend(TrimCarriageReturn(pending), "", true) else Leaving))
    case Scan =>
      if !s.splitter.Scanning? then None
      else
        var pending := s.splitter.pending;
        var idx := IndexByte(pending, '\n');
        Some(s.(splitter := if idx < 0 then Receiving(pending)
                            else LineBeforeSend(TrimCarriageReturn(pending[..idx]), pending[idx + 1..], false)))
    case LineSendLooks =>
      if !s.splitter.LineBeforeSend? then None
      else if s.cancelled then Some(s.(splitter := Leaving))
      else Some(s.(splitter := LineInSend(s.splitter.line, s.splitter.pending, s.splitter.last)))
    case SendLine =>
      if !s.splitter.LineInSend? || s.lines.buffer != [] then None
      else Some(s.(splitter := if s.splitter.last then Leaving else Scanning(s.splitter.pending),
                   lines := s.lines.(buffer := [s.splitter.line]), sent := s.sent + [s.splitter.line]))
    case LineSendGivesUp =>
      if !s.splitter.LineInSend? || !s.cancelled then None
      else Some(s.(splitter := Leaving))
    case CloseLines =>
      if s.splitter != Leaving then None
      else Some(s.(splitter := Left, lines := s.lines.(closed := true)))
    case TakeLine =>
      if s.lines.buffer == [] then None
      else Some(s.(lines := s.lines.(buffer := s.lines.buffer[1..]), taken := s.taken + s.lines.buffer))
  }

  // ---------- The invariant ----------

  function InFlight(p: Producer): string {
    if p.BeforeSend? || p.InSend? then p.data else ""
  }

  /** Bytes on the chunk side: nothing is lost except a chunk abandoned under cancellation, which is the last. */
  ghost predicate BytesAccounted(s: State) {
    && |s.chunks.buffer| <= 1
    && s.passed == s.received + Flatten(s.chunks.buffer)
    && (if s.dropped then s.cancelled && s.passed <= s.delivered && (s.producer.Returning? || s.producer.Returned?)
        else s.delivered == s.passed + InFlight(s.producer))
    && (s.chunks.closed <==> s.producer.Returned?)
  }

  /** Lines on the splitter side, as a function of the bytes received. */
  ghost predicate LinesAccounted(s: State) {
    match s.splitter
    case Receiving(p) => '\n' !in p && s.sent == CompleteLines(s.received) && p == Remainder(s.received)
    case Scanning(p) => s.sent + CompleteLines(p) == CompleteLines(s.received) && Remainder(p) == Remainder(s.received)
    case LineBeforeSend(line, p, last) => LineAccounted(s, line, p, last)
    case LineInSend(line, p, last) => LineAccounted(s, line, p, last) && (last ==> !s.dropped)
    case Leaving => Finished(s)
    case Left => Finished(s)
  }

  ghost predicate LineAccounted(s: State, line: string, pending: string, last: bool) {
    if last then
      && s.chunks == Channel([], true)
      && s.sent == CompleteLines(s.received)
      && s.sent + [line] == LinesOf(s.received)
    else
      && (s.sent + [line]) + CompleteLines(pending) == CompleteLines(s.received)
      && Remainder(pending) == Remainder(s.received)
  }

  /** When the splitter is done it has sent every line of the stream, unless the context was cancelled. */
  ghost predicate Finished(s: State) {
    || (s.cancelled && s.sent <= CompleteLines(s.received))
    || (s.chunks == Channel([], true) && !s.dropped && s.sent == LinesOf(s.received))
  }

  ghost predicate Inv(s: State) {
    && BytesAccounted(s)
    && LinesAccounted(s)
    && |s.lines.buffer| <= 1
    && s.sent == s.taken + s.lines.buffer
    && (s.lines.closed <==> s.splitter.Left?)
  }

  lemma InitInv(s: State)
    requires Init(s)
    ensures Inv(s)
  {
  }

  lemma ProducerKeepsInv(s: State, step: Step)
    requires Inv(s) && Next(s, step).Some?
    requires || step.Cancel? || step.Look? || step.ReaderReturns? || step.SendLooks? || step.SendChunk?
             || step.SendGivesUp? || step.CloseChunks?
    ensures Inv(Next(s, step).value)
  {
    hide CompleteLines, Remainder, LinesOf, TrimCarriageReturn, IndexByte;
    var t := Next(s, step).value;
    if step.SendChunk? {
      assert Flatten(t.chunks.buffer) == s.producer.data + Flatten(t.chunks.buffer[1..]);
      assert t.passed == t.received + Flatten(t.chunks.buffer);
    }
  }

  lemma ReceiveKeepsInv(s: State)
    requires Inv(s) && Next(s, ReceiveChunk).Some?
    ensures Inv(Next(s, ReceiveChunk).value)
  {
    var t := Next(s, ReceiveChunk).value;
    var chunk := s.chunks.buffer[0];
    assert Flatten(s.chunks.buffer) == chunk + Flatten(s.chunks.buffer[1..]);
    assert t.chunks.buffer == [];
    AppendExtendsRemainder(s.received, chunk);
  }

  lemma ScanFindsNoNewline(s: State)
    requires Inv(s) && s.splitter.Scanning? && '\n' !in s.splitter.pending
    ensures LinesAccounted(s.(splitter := Receiving(s.splitter.pending)))
  {
    WithoutNewline(s.splitter.pending);
  }

  lemma ScanFindsLine(s: State, line: string, rest: string)
    requires Inv(s) && s.splitter.Scanning?
    requires CompleteLines(s.splitter.pending) == [TrimCarriageReturn(line)] + CompleteLines(rest)
    requires Remainder(s.splitter.pending) == Remainder(rest)
    ensures LinesAccounted(s.(splitter := LineBeforeSend(TrimCarriageReturn(line), rest, false)))
  {
    ConcatAssociates(s.sent, [TrimCarriageReturn(line)], CompleteLines(rest));
  }

  lemma ScanKeepsInv(s: State)
    requires Inv(s) && Next(s, Scan).Some?
    ensures Inv(Next(s, Scan).value)
  {
    var p := s.splitter.pending;
    var idx := IndexByte(p, '\n');
    if idx < 0 {
      ScanFindsNoNewline(s);
    } else {
      var (line, rest) := (p[..idx], p[idx + 1..]);
      assert p == line + "\n" + rest;
      FirstLine(line, rest);
      ScanFindsLine(s, line, rest);
    }
  }

  lemma SplitterKeepsInv(s: State, step: Step)
    requires Inv(s) && Next(s, step).Some?
    requires || step.ChunksEnded? || step.LineSendLooks? || step.SendLine? || step.LineSendGivesUp? || step.CloseLines?
             || step.TakeLine?
    ensures Inv(Next(s, step).value)
  {
    hide CompleteLines, Remainder, TrimCarriageReturn, IndexByte;
  }

  lemma StepKeepsInv(s: State, step: Step)
    requires Inv(s) && Next(s, step).Some?
    ensures Inv(Next(s, step).value)
  {
    match step
    case ReceiveChunk => ReceiveKeepsInv(s);
    case Scan => ScanKeepsInv(s);
    case ChunksEnded => SplitterKeepsInv(s, step);
    case LineSendLooks => SplitterKeepsInv(s, step);
    case SendLine => SplitterKeepsInv(s, step);
    case LineSendGivesUp => SplitterKeepsInv(s, step);
    case CloseLines => SplitterKeepsInv(s, step);
    case TakeLine => SplitterKeepsInv(s, step);
    case _ => ProducerKeepsInv(s, step);
  }

  // ---------- Every run ----------

  /** `t` is reached from `s` by the given steps, in that order. */
  ghost predicate Runs(s: State, steps: seq<Step>, t: State)
    decreases |steps|
  {
    if steps == [] then s == t
    else Next(s, steps[0]).Some? && Runs(Next(s, steps[0]).value, steps[1..], t)
  }

  lemma {:induction false} RunKeepsInv(s: State, steps: seq<Step>, t: State)
    requires Inv(s) && Runs(s, steps, t)
    ensures Inv(t)
    decreases |steps|
  {
    if steps != [] {
      StepKeepsInv(s, steps[0]);
      RunKeepsInv(Next(s, steps[0]).value, steps[1..], t);
    }
  }

  /** All the bytes that the reader handed out in some steps. */
  function GivenBytes(steps: seq<Step>): string {
    if steps == [] then ""
    else (if steps[0].ReaderReturns? then steps[0].data else "") + GivenBytes(steps[1..])
  }

  lemma StepDelivers(s: State, step: Step)
    requires Next(s, step).Some?
    ensures Next(s, step).value.delivered == s.delivered + if step.ReaderReturns? then step.data else ""
    ensures Next(s, step).value.cancelled <==> s.cancelled || step.Cancel?
  {
  }

  lemma {:induction false} RunDelivers(s: State, steps: seq<Step>, t: State)
    requires Runs(s, steps, t)
    ensures t.delivered == s.delivered + GivenBytes(steps)
    ensures t.cancelled <==> s.cancelled || Cancel in steps
    decreases |steps|
  {
    hide Next;
    if steps != [] {
      StepDelivers(s, steps[0]);
      RunDelivers(Next(s, steps[0]).value, steps[1..], t);
      assert steps == [steps[0]] + steps[1..];
    }
  }

  lemma RunFacts(s: State, steps: seq<Step>, t: State)
    requires Init(s) && Runs(s, steps, t)
    ensures Inv(t) && t.delivered == GivenBytes(steps) && (t.cancelled <==> s.cancelled || Cancel in steps)
  {
    hide Runs, Inv;
    InitInv(s);
    RunKeepsInv(s, steps, t);
    RunDelivers(s, steps, t);
  }

  /** However the bytes are cut, and however reader, splitter, caller and cancellation interleave, the lines sent are
      the first lines of the bytes that the reader returned, and the caller receives them in that order. */
  lemma SentIsPrefix(s: State, steps: seq<Step>, t: State)
    requires Init(s) && Runs(s, steps, t)
    ensures t.sent <= LinesOf(GivenBytes(steps))
    ensures t.sent == t.taken + t.lines.buffer && |t.lines.buffer| <= 1
  {
    RunFacts(s, steps, t);
    InvGivesPrefix(t);
  }

  /** When the line channel is closed and the context was never cancelled, every line was sent. */
  lemma CompleteUnlessCancelled(s: State, steps: seq<Step>, t: State)
    requires Init(s) && Runs(s, steps, t)
    requires t.lines.closed && !s.cancelled && Cancel !in steps
    ensures t.taken + t.lines.buffer == t.sent == LinesOf(GivenBytes(steps))
    ensures t.producer == Returned && t.chunks == Channel([], true)
  {
    RunFacts(s, steps, t);
    AllSent(t);
  }

  lemma AllSent(t: State)
    requires Inv(t) && t.splitter.Left? && !t.cancelled
    ensures t.lines.closed && t.taken + t.lines.buffer == t.sent == LinesOf(t.delivered)
    ensures t.producer == Returned && t.chunks == Channel([], true)
  {
    assert t.passed == t.received + "" == t.received;
  }

  /** An unterminated last line goes out only once the reader has finished and nothing was abandoned: never
      because a cancellation cut the stream short. */
  lemma NoLineIsCutShort(s: State, steps: seq<Step>, t: State)
    requires Init(s) && Runs(s, steps, t)
    requires !(t.sent <= CompleteLines(GivenBytes(steps)))
    ensures t.sent == LinesOf(GivenBytes(steps)) && !t.dropped
    ensures t.producer == Returned && t.chunks == Channel([], true)
  {
    RunFacts(s, steps, t);
    InvGivesPrefix(t);
  }

  lemma InvGivesPrefix(t: State)
    requires Inv(t)
    ensures || t.sent <= CompleteLines(t.delivered) <= LinesOf(t.delivered)
            || (t.sent == LinesOf(t.delivered) && !t.dropped && t.producer == Returned && t.chunks == Channel([], true))
  {
    assert t.received <= t.passed <= t.delivered;
    CompleteLinesGrow(t.received, t.delivered);
    if !(t.sent <= CompleteLines(t.received)) {
      assert t.passed == t.received + "" == t.received;
    }
  }

  /** Marshalled messages come out of an undisturbed pipeline as they went in exactly when all of them are clean; ended
      by carriage return and newline they do when they hold no newline. */
  lemma MessagesComeThrough(s: State, steps: seq<Step>, t: State, messages: seq<string>)
    requires Init(s) && Runs(s, steps, t)
    requires t.lines.closed && !s.cancelled && Cancel !in steps
    ensures GivenBytes(steps) == Marshalled(messages) ==>
              (t.taken + t.lines.buffer == messages <==> forall m | m in messages :: Clean(m))
    ensures GivenBytes(steps) == WithCrlf(messages) ==>
              (t.taken + t.lines.buffer == messages <==> forall m | m in messages :: '\n' !in m)
  {
    CompleteUnlessCancelled(s, steps, t);
    RoundTrip(messages);
    CrlfRoundTrip(messages);
  }

  // ---------- Nothing gets stuck ----------

  function SplitterStep(s: State): Step {
    match s.splitter
    case Receiving(_) => if s.chunks.buffer != [] then ReceiveChunk else ChunksEnded
    case Scanning(_) => Scan
    case LineBeforeSend(_, _, _) => LineSendLooks
    case LineInSend(_, _, _) => if s.lines.buffer == [] then SendLine else TakeLine
    case Leaving => CloseLines
    case Left => CloseLines
  }

  lemma SplitterCanGoOn(s: State)
    requires Inv(s) && !s.splitter.Left? && (s.producer.Returned? || s.chunks.buffer != [])
    ensures Next(s, SplitterStep(s)).Some?
  {
    hide CompleteLines, Remainder, LinesOf, TrimCarriageReturn, IndexByte;
  }

  lemma BlockedIsCancelled(s: State)
    requires Inv(s) && s.splitter.Left? && s.producer.InSend?
    ensures s.cancelled
  {
    hide CompleteLines, Remainder, LinesOf;
  }

  function LiveStep(s: State): Step {
    match s.producer
    case AtLoopTop => Look
    case InRead => ReaderReturns("", true)
    case BeforeSend(_, _) => SendLooks
    case InSend(_, _) =>
      if s.chunks.buffer == [] then SendChunk else if s.splitter.Left? then SendGivesUp else SplitterStep(s)
    case Returning => CloseChunks
    case Returned => SplitterStep(s)
  }

  /** Until both goroutines have returned, one of them, the reader they wait for or the caller can go on. */
  lemma NeverStuck(s: State)
    requires Inv(s) && !Done(s)
    ensures !LiveStep(s).Cancel? && Next(s, LiveStep(s)).Some?
  {
    hide Inv;
    if !s.splitter.Left? && (s.producer.Returned? || s.chunks.buffer != []) {
      SplitterCanGoOn(s);
    }
    if s.splitter.Left? && s.producer.InSend? {
      BlockedIsCancelled(s);
    }
  }

  ghost predicate Done(s: State) {
    s.producer.Returned? && s.splitter.Left?
  }

  /** The bytes that have been handed out and are not yet in a line, and how far each goroutine is from its next
      wait. */
  ghost function StepsLeft(s: State): nat {
    10 * (|InFlight(s.producer)| + |Flatten(s.chunks.buffer)| + Waiting(s.splitter))
    + (match s.producer
       case BeforeSend(_, _) => 9
       case InSend(_, _) => 8
       case AtLoopTop => 4
       case InRead => 3
       case Returning => 1
       case Returned => 0)
    + (match s.splitter
       case Receiving(_) => 2
       case Scanning(_) => 3
       case LineBeforeSend(_, _, _) => 6
       case LineInSend(_, _, _) => 5
       case Leaving => 1
       case Left => 0)
    + 2 * |s.chunks.buffer| + |s.lines.buffer|
  }

  ghost function Waiting(x: Splitter): nat {
    match x
    case Receiving(p) => |p|
    case Scanning(p) => |p|
    case LineBeforeSend(_, p, _) => |p|
    case LineInSend(_, p, _) => |p|
    case _ => 0
  }

  lemma OneChunk(d: string)
    ensures Flatten([]) == "" && Flatten([d]) == d
  {
    assert Flatten([d]) == d + Flatten([]);
  }

  ghost predicate Buffered(s: State) {
    && |s.chunks.buffer| <= 1 && |s.lines.buffer| <= 1
    && |Flatten(s.chunks.buffer)| == if s.chunks.buffer == [] then 0 else |s.chunks.buffer[0]|
  }

  lemma BufferIsChunk(s: State)
    requires Inv(s)
    ensures Buffered(s)
  {
    if s.chunks.buffer != [] {
      assert s.chunks.buffer == [s.chunks.buffer[0]];
      OneChunk(s.chunks.buffer[0]);
    }
  }

  ghost predicate Nearer(s: State, t: State) {
    !t.cancelled && t.delivered == s.delivered && StepsLeft(t) < StepsLeft(s)
  }

  lemma ProducerMoves(s: State, step: Step)
    requires Buffered(s) && !s.cancelled && Next(s, step).Some? && Buffered(Next(s, step).value)
    requires step.Look? || step == ReaderReturns("", true) || step.SendLooks? || step.SendChunk? || step.CloseChunks?
    ensures Nearer(s, Next(s, step).value)
  {
    hide Flatten;
  }

  lemma SplitterMoves(s: State, step: Step)
    requires Buffered(s) && !s.cancelled && Next(s, step).Some? && Buffered(Next(s, step).value)
    requires || step.ReceiveChunk? || step.ChunksEnded? || step.Scan? || step.LineSendLooks? || step.SendLine?
             || step.CloseLines? || step.TakeLine?
    ensures Nearer(s, Next(s, step).value)
  {
    hide Flatten, TrimCarriageReturn;
  }

  lemma LiveStepMoves(s: State)
    requires Inv(s) && !s.cancelled && !Done(s) && Next(s, LiveStep(s)).Some?
    ensures Nearer(s, Next(s, LiveStep(s)).value)
  {
    hide Inv, Next, Nearer, Buffered;
    StepKeepsInv(s, LiveStep(s));
    BufferIsChunk(s);
    BufferIsChunk(Next(s, LiveStep(s)).value);
    match LiveStep(s)
    case ReceiveChunk => SplitterMoves(s, LiveStep(s));
    case ChunksEnded => SplitterMoves(s, LiveStep(s));
    case Scan => SplitterMoves(s, LiveStep(s));
    case LineSendLooks => SplitterMoves(s, LiveStep(s));
    case SendLine => SplitterMoves(s, LiveStep(s));
    case CloseLines => SplitterMoves(s, LiveStep(s));
    case TakeLine => SplitterMoves(s, LiveStep(s));
    case SendGivesUp => BlockedIsCancelled(s);
    case _ => ProducerMoves(s, LiveStep(s));
  }

  /** Left alone, and with nothing more to read, an uncancelled pipeline with a caller that takes its lines runs to its
      end. */
  lemma {:induction false} RunsToItsEnd(s: State) returns (steps: seq<Step>, t: State)
    requires Inv(s) && !s.cancelled
    ensures Runs(s, steps, t) && Inv(t) && Done(t) && !t.cancelled && t.delivered == s.delivered
    decreases StepsLeft(s)
  {
    hide Inv, Next, StepsLeft;
    if Done(s) {
      return [], s;
    }
    var step := LiveStep(s);
    NeverStuck(s);
    LiveStepMoves(s);
    StepKeepsInv(s, step);
    var rest;
    rest, t := RunsToItsEnd(Next(s, step).value);
    steps := [step] + rest;
    assert steps[1..] == rest;
  }

  /** From wherever an uncancelled run has come, the caller can still get every line of what the reader returned. */
  lemma AllLinesCanArrive(s: State, steps: seq<Step>, t: State) returns (more: seq<Step>, u: State)
    requires Init(s) && Runs(s, steps, t) && !s.cancelled && Cancel !in steps
    ensures Runs(t, more, u) && Done(u) && u.lines.closed
    ensures u.taken + u.lines.buffer == LinesOf(GivenBytes(steps))
  {
    RunFacts(s, steps, t);
    more, u := RunsToItsEnd(t);
    AllSent(u);
  }

  /** What is left to do for both goroutines once the context is done. */
  ghost function ToDo(s: State): nat {
    (match s.producer case Returned => 0 case Returning => 1 case _ => 2)
    + match s.splitter
      case Receiving(_) => 3 + 2 * |s.chunks.buffer|
      case Scanning(_) => 4 + 2 * |s.chunks.buffer|
      case LineBeforeSend(_, _, _) => 2
      case LineInSend(_, _, _) => 2
      case Leaving => 1
      case Left => 0
  }

  function WindingStep(s: State): Step {
    match s.producer
    case AtLoopTop => Look
    case InRead => ReaderReturns("", true)
    case BeforeSend(_, _) => SendLooks
    case InSend(_, _) => SendGivesUp
    case Returning => CloseChunks
    case Returned => if s.splitter.LineInSend? then LineSendGivesUp else SplitterStep(s)
  }

  lemma WindingStepMoves(s: State)
    requires Inv(s) && s.cancelled && !(s.producer.Returned? && s.splitter.Left?)
    ensures var step := WindingStep(s);
            && !step.Cancel? && !step.TakeLine? && Next(s, step).Some?
            && Next(s, step).value.cancelled && ToDo(Next(s, step).value) < ToDo(s)
  {
    hide CompleteLines, Remainder, LinesOf, TrimCarriageReturn, IndexByte;
  }

  /** Once the context is done both goroutines return, even when the caller takes no more lines, if only the reader
      comes back from the read it may be in. */
  lemma {:induction false} CancelledWindsDown(s: State) returns (steps: seq<Step>, t: State)
    requires Inv(s) && s.cancelled
    ensures Runs(s, steps, t) && t.producer.Returned? && t.splitter.Left? && t.chunks.closed && t.lines.closed
    ensures TakeLine !in steps && forall step | step in steps && step.ReaderReturns? :: step.data == ""
    decreases ToDo(s)
  {
    hide Next, ToDo, CompleteLines, Remainder, LinesOf;
    if s.producer.Returned? && s.splitter.Left? {
      return [], s;
    }
    var step := WindingStep(s);
    WindingStepMoves(s);
    StepKeepsInv(s, step);
    var rest;
    rest, t := CancelledWindsDown(Next(s, step).value);
    steps := [step] + rest;
    assert steps[1..] == rest;
  }
}
