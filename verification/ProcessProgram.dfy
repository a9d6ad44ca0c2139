/**
 * src/scripting/ProcessHost.cpp: one program as a state machine, from its start to its release, whatever the other
 * programs do.
 */
module ProcessProgram {
  import opened Foundation
  import opened ProcessMailbox
  import opened ProcessText
  import opened ProcessEvents

  datatype Waiting = Waiting(request: int, maximum: nat)

  /** ProcessHost::Running. Its two decoders are known by what they hold back. */
  datatype Running = Running(
    owner: string,
    decoders: Decoders,
    binaryOutput: bool,
    pullOutput: bool,
    reader: Option<Waiting>,
    retiring: bool,
    stopping: bool)

  /** What happened to a program so far, kept beside the state of the host. */
  datatype Past = Past(
    binary: bool,             // its output is read as bytes
    pull: bool,               // its output is read on demand
    started: bool,            // its launch succeeded
    intact: bool,             // it was never stopped while read on demand, and its owner never withdrew
    exited: bool,             // its producer reported the end
    appended: seq<Written>,   // everything its producer put into the mailbox
    taken: seq<Written>,      // everything that left the mailbox
    accepted: seq<Waiting>,   // every read that was accepted
    events: seq<Event>)       // everything that crossed to its owner

  datatype Program = Program(pending: Option<Pending>, running: Option<Running>, past: Past)

  // ----- The operations ----------------------------------------------------------------------------------

  /** The end of start: the program runs, or its launch failed after its producers had begun. */
  function Launched(owner: string, binaryOutput: bool, pullOutput: bool, started: bool): Program {
    var binary := binaryOutput || pullOutput;
    Program(None,
            if started then Some(Running(owner, Decoders([], []), binary, pullOutput, None, false, false)) else None,
            Past(binary, pullOutput, started, started, false, [], [], [], []))
  }

  function Entry(program: Program): Pending {
    if program.pending.Some? then program.pending.value else Empty
  }

  /** The part of the wait condition that looks at this program alone. */
  predicate HasRoom(program: Program, stream: Stream, length: nat) {
    program.past.pull ==>
      && Entry(program).bytes + length <= MAXIMUM_PULL_BYTES
      && (Merges(Entry(program), stream) || |Entry(program).chunks| < MAXIMUM_PULL_CHUNKS)
  }

  function Append(program: Program, stream: Stream, bytes: seq<Byte>): Program {
    Program(Some(Appended(Entry(program), stream, bytes)), program.running,
            program.past.(appended := program.past.appended + Tag(stream, bytes)))
  }

  function Exit(program: Program, end: End): Program {
    Program(Some(Entry(program).(exit := Some(end))), program.running, program.past.(exited := true))
  }

  /** Whether a read of the program is accepted. */
  predicate Readable(program: Program) {
    program.running.Some? && program.running.value.pullOutput && !program.running.value.retiring
        && program.running.value.reader.None?
  }

  function Read(program: Program, reader: Waiting): Program
    requires Readable(program)
  {
    program.(running := Some(program.running.value.(reader := Some(reader))),
             past := program.past.(accepted := program.past.accepted + [reader]))
  }

  function Stop(program: Program): Program {
    if program.running.None? then program
    else
      var pull := program.running.value.pullOutput;
      program.(running := Some(program.running.value.(stopping := pull)),
               past := program.past.(intact := program.past.intact && !pull))
  }

  function Forget(program: Program): Program {
    if program.running.None? then program
    else
      var reader := program.running.value.reader;
      program.(running := Some(program.running.value.(retiring := true, reader := None)),
               past := program.past.(intact := false,
                                     events := program.past.events
                                         + (if reader.Some? then [Withdrawn(reader.value.request)] else [])))
  }

  // ----- Delivery ------------------------------------------------------------------------------------------

  predicate Pulls(program: Program) {
    program.running.Some? && program.running.value.pullOutput && !program.running.value.retiring
  }

  /** A program read on demand without a reader keeps its output in the mailbox. */
  predicate Skipped(program: Program) {
    Pulls(program) && program.running.value.reader.None? && !program.running.value.stopping
  }

  /** How many bytes a delivery takes of a program it does not skip. */
  function Share(program: Program): nat
    requires program.pending.Some? && !Skipped(program)
  {
    if Pulls(program) && !program.running.value.stopping then program.running.value.reader.value.maximum
    else program.pending.value.bytes
  }

  datatype Handed = Handed(running: Option<Running>, events: seq<Event>)

  /** The chunks of an event, and the decoders after them. A stopped program sends nothing more. */
  function RenderFor(running: Running, chunks: seq<Chunk>, exit: Option<End>): Rendered {
    if running.stopping then
      Rendered(if exit.Some? && !running.binaryOutput then FinishText(running.decoders) else [], running.decoders)
    else if running.binaryOutput then Rendered(RenderBinary(chunks), running.decoders)
    else
      var rendered := RenderText(running.decoders, chunks);
      if exit.Some? then Rendered(rendered.pieces + FinishText(rendered.decoders), Decoders([], []))
      else rendered
  }

  /** The second half of deliver for one program. */
  function HandOver(running: Option<Running>, chunks: seq<Chunk>, exit: Option<End>): Handed {
    if running.None? || (running.value.stopping && exit.None?) then Handed(running, [])
    else
      var program := running.value;
      var rendered := RenderFor(program, chunks, exit);
      var ended := if exit.Some? then Some(OutcomeOf(exit.value)) else None;
      var answers := program.pullOutput && !program.retiring && program.reader.Some?;
      var output := if answers then [Reply(program.reader.value.request, rendered.pieces, ended)]
                    else if rendered.pieces != [] && !program.retiring then [OutputNotice(rendered.pieces)]
                    else [];
      var notice := if exit.Some? && !program.retiring then [ExitNotice(ended.value)] else [];
      Handed(if exit.Some? then None
             else Some(program.(decoders := rendered.decoders, reader := if answers then None else program.reader)),
             output + notice)
  }

  /** One visit of the mailbox for one program, and what its owner hears of it. */
  function Deliver(program: Program): Program
    requires program.pending.Some? ==> Kept(program.pending.value)
  {
    if program.pending.None? || Skipped(program) then program
    else
      var source := program.pending.value;
      var drained := Drain(source, Share(program));
      var exit := if drained.rest.chunks == [] then source.exit else None;
      var handed := HandOver(program.running, drained.taken, exit);
      Program(if drained.rest.chunks == [] then None else Some(drained.rest),
              handed.running,
              program.past.(taken := program.past.taken + Flat(drained.taken),
                            events := program.past.events + handed.events))
  }

  // ----- What holds at every moment ------------------------------------------------------------------------

  function Left(program: Program): seq<Written>
    requires program.pending.Some? ==> Kept(program.pending.value)
  {
    if program.pending.Some? then Remainder(program.pending.value) else []
  }

  /** Conservation: what was taken followed by what the mailbox holds is what was appended. */
  predicate Stored(program: Program) {
    && (program.pending.Some? ==>
          && Kept(program.pending.value)
          && (program.pending.value.chunks != [] || program.pending.value.exit.Some?)
          && (program.past.pull ==>
              program.pending.value.bytes <= MAXIMUM_PULL_BYTES
              && |program.pending.value.chunks| <= MAXIMUM_PULL_CHUNKS))
    && program.past.taken + Left(program) == program.past.appended
  }

  /** The end a producer reported stays in the mailbox until the release, which nothing but that end causes. */
  predicate EndKept(program: Program) {
    && (program.pending.Some? && program.pending.value.exit.Some? ==> program.past.exited)
    && (program.past.exited ==>
        (program.pending.Some? && program.pending.value.exit.Some?) || (program.running.None? && program.pending.None?))
    && (program.running.None? && program.past.started ==> program.past.exited && program.pending.None?)
    && (program.running.Some? ==> program.past.started)
  }

  ghost predicate Flags(program: Program) {
    program.running.Some? ==>
      var running := program.running.value;
      && running.binaryOutput == program.past.binary && running.pullOutput == program.past.pull
      && (running.pullOutput ==> running.binaryOutput)
      && (program.past.intact <==> !running.stopping && !running.retiring)
      && (running.stopping ==> running.pullOutput)
      && (running.reader.Some? ==> running.pullOutput && !running.retiring)
      && BothUnfinished(running.decoders)
  }

  function ReaderOf(program: Program): Option<Waiting> {
    if program.running.Some? then program.running.value.reader else None
  }

  /**
   * Every accepted read is answered once, in order, within its bound, and with nothing only when the program ended or
   * the read was withdrawn.
   */
  ghost predicate Answered(program: Program) {
    AnsweredWith(AnswersOf(program.past.events), program.past.accepted, ReaderOf(program))
  }

  predicate AnsweredWith(answers: seq<Answer>, accepted: seq<Waiting>, reader: Option<Waiting>) {
    && |accepted| == |answers| + (if reader.Some? then 1 else 0)
    && (reader.Some? ==> accepted[|answers|] == reader.value)
    && (forall k | 0 <= k < |accepted| :: 1 <= accepted[k].maximum <= MAXIMUM_READ_BYTES)
    && (forall k | 0 <= k < |answers| :: AnswersTo(answers[k], accepted[k]))
  }

  predicate AnswersTo(answer: Answer, reader: Waiting) {
    && answer.request == reader.request
    && (answer.withdrawn || (answer.size <= reader.maximum && (answer.size > 0 || answer.ended)))
  }

  /** What an intact program wrote is what its owner received: its bytes, or the text they decode to. */
  ghost predicate Received(program: Program) {
    program.past.intact ==>
      var pieces := PiecesOf(program.past.events);
      if program.past.binary then BytesOf(pieces) == program.past.taken
      else forall stream: Stream :: ReceivedText(program, TextOf(pieces, stream), stream)
  }

  ghost predicate ReceivedText(program: Program, text: seq<Byte>, stream: Stream) {
    var decoded := Decode(OnStream(program.past.taken, stream));
    if program.running.Some? then decoded == Decoded(text, program.running.value.decoders.Held(stream))
    else text == decoded.text + Ending(decoded.held)
  }

  /** The end is told after everything else, once every byte was taken, and exactly the release tells it. */
  predicate EndsLast(program: Program) {
    var events := program.past.events;
    && (program.running.Some? ==> !EndTold(events))
    && (EndTold(events) ==> program.past.exited && program.pending.None? && program.past.taken == program.past.appended)
    && (program.running.None? && program.past.started && program.past.intact ==>
        events != [] && events[|events| - 1].ExitNotice?)
    && (program.running.None? && !program.past.started ==> events == [])
    && (forall k | 0 <= k < |events| - 1 :: !events[k].ExitNotice?)
  }

  ghost predicate Sound(program: Program) {
    && Stored(program)
    && EndKept(program)
    && Flags(program)
    && Answered(program)
    && (program.past.intact && !program.past.started ==> false)
    && Received(program)
    && EndsLast(program)
  }
}
