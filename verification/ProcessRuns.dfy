/** src/scripting/ProcessHost.cpp: every operation keeps a program sound, so every run of the host does. */
module ProcessRuns {
  import opened Foundation
  import opened ProcessMailbox
  import opened ProcessText
  import opened ProcessEvents
  import opened ProcessProgram

  // ----- The operations other than delivery --------------------------------------------------------------

  lemma LaunchedSound(owner: string, binaryOutput: bool, pullOutput: bool, started: bool)
    ensures Sound(Launched(owner, binaryOutput, pullOutput, started))
  {
  }

  /** What the owner received does not change while nothing is taken and nothing is told. */
  lemma ReceivedStays(program: Program, after: Program)
    requires Received(program)
    requires after.past.taken == program.past.taken && after.past.events == program.past.events
        && after.past.binary == program.past.binary
    requires after.past.intact ==> program.past.intact
    requires after.running.Some? == program.running.Some?
    requires after.running.Some? ==> after.running.value.decoders == program.running.value.decoders
    ensures Received(after)
  {
    if after.past.intact && !after.past.binary {
      forall s: Stream
        ensures ReceivedText(after, TextOf(PiecesOf(after.past.events), s), s)
      {
        assert ReceivedText(program, TextOf(PiecesOf(program.past.events), s), s);
      }
    }
  }

  lemma AppendStored(program: Program, stream: Stream, bytes: seq<Byte>)
    requires Stored(program) && bytes != [] && HasRoom(program, stream, |bytes|)
    ensures Stored(Append(program, stream, bytes))
    ensures Left(Append(program, stream, bytes)) == Left(program) + Tag(stream, bytes)
  {
    AppendedLast(Entry(program), stream, bytes);
    assert Left(Append(program, stream, bytes)) == Left(program) + Tag(stream, bytes);
    Associative(program.past.taken, Left(program), Tag(stream, bytes));
  }

  lemma AppendSound(program: Program, stream: Stream, bytes: seq<Byte>)
    requires Sound(program) && !program.past.exited && bytes != [] && HasRoom(program, stream, |bytes|)
    ensures Sound(Append(program, stream, bytes))
    ensures Left(Append(program, stream, bytes)) == Left(program) + Tag(stream, bytes)
  {
    AppendStored(program, stream, bytes);
    ReceivedStays(program, Append(program, stream, bytes));
  }

  lemma ExitSound(program: Program, end: End)
    requires Sound(program) && !program.past.exited
    ensures Sound(Exit(program, end)) && Left(Exit(program, end)) == Left(program)
  {
    var after := Exit(program, end);
    assert after.pending.value.exit == Some(end);
    ReceivedStays(program, after);
  }

  lemma ReadSound(program: Program, reader: Waiting)
    requires Sound(program) && Readable(program) && 1 <= reader.maximum <= MAXIMUM_READ_BYTES
    ensures Sound(Read(program, reader))
  {
    ReceivedStays(program, Read(program, reader));
  }

  lemma StopSound(program: Program)
    requires Sound(program)
    ensures Sound(Stop(program))
  {
    ReceivedStays(program, Stop(program));
  }

  /** Withdrawing answers the waiting read, and nothing else hears of it. */
  lemma ForgetAnswers(program: Program)
    requires program.running.Some? && Answered(program)
    ensures Answered(Forget(program))
    ensures EndTold(Forget(program).past.events) <==> EndTold(program.past.events)
  {
    var reader, events := program.running.value.reader, program.past.events;
    var told := if reader.Some? then [Withdrawn(reader.value.request)] else [];
    AnswersOfConcat(events, told);
    if reader.Some? {
      assert told[1..] == [];
      assert AnswersOf(told) == [Answer(reader.value.request, 0, false, true)];
      assert forall k | 0 <= k < |events + told| :: (events + told)[k] == if k < |events| then events[k] else told[0];
    } else {
      assert events + told == events;
    }
  }

  lemma ForgetSound(program: Program)
    requires Sound(program)
    ensures Sound(Forget(program))
    ensures program.running.Some? ==>
        Forget(program).running.value.retiring && Forget(program).running.value.reader.None?
  {
    if program.running.Some? {
      ForgetAnswers(program);
      assert Stored(Forget(program));
      assert forall k | 0 <= k < |program.past.events| :: !TellsEnd(program.past.events[k]);
    }
  }

  // ----- Delivery ------------------------------------------------------------------------------------------

  lemma {:induction false} DrainShrinks(source: Pending, remaining: nat)
    requires Kept(source)
    ensures var rest := Drain(source, remaining).rest;
      rest.bytes <= source.bytes && |rest.chunks| <= |source.chunks|
    decreases |source.chunks|
  {
    if source.chunks != [] && remaining > 0 && remaining >= |source.chunks[0].bytes| - source.offset {
      WithoutFirst(source);
      DrainShrinks(source.(chunks := source.chunks[1..], bytes := source.bytes - |source.chunks[0].bytes|, offset := 0),
                   remaining - (|source.chunks[0].bytes| - source.offset));
    }
  }

  /** What one visit takes of a program it does not skip. */
  function Visit(program: Program): Drained
    requires program.pending.Some? && Kept(program.pending.value) && !Skipped(program)
  {
    Drain(program.pending.value, Share(program))
  }

  /** The end that leaves with a visit. */
  function VisitExit(program: Program): Option<End>
    requires program.pending.Some? && Kept(program.pending.value) && !Skipped(program)
  {
    if Visit(program).rest.chunks == [] then program.pending.value.exit else None
  }

  /** Taken and kept bytes together stay what was appended. */
  lemma VisitConserves(taken: seq<Written>, source: Pending, share: nat, appended: seq<Written>)
    requires Kept(source) && taken + Remainder(source) == appended
    ensures var drained := Drain(source, share);
      && Kept(drained.rest)
      && (taken + Flat(drained.taken)) + Remainder(drained.rest) == appended
      && (drained.rest.chunks == [] ==> taken + Flat(drained.taken) == appended)
  {
    DrainConserves(source, share);
    DrainedIffEmpty(source, share);
    var drained := Drain(source, share);
    Associative(taken, Flat(drained.taken), Remainder(drained.rest));
  }

  lemma DeliverStored(program: Program)
    requires Stored(program)
    ensures Stored(Deliver(program))
    ensures Deliver(program).past.appended == program.past.appended
  {
    if program.pending.Some? && !Skipped(program) {
      VisitConserves(program.past.taken, program.pending.value, Share(program), program.past.appended);
      DrainShrinks(program.pending.value, Share(program));
      var after := Deliver(program);
      assert after.pending.None? ==> after.past.taken + [] == after.past.taken;
    }
  }

  lemma DeliverEndKept(program: Program)
    requires Stored(program) && EndKept(program)
    ensures EndKept(Deliver(program))
  {
    if program.pending.Some? && !Skipped(program) {
      DrainConserves(program.pending.value, Share(program));
    }
  }

  lemma RenderForUnfinished(running: Running, chunks: seq<Chunk>, exit: Option<End>)
    requires BothUnfinished(running.decoders)
    ensures BothUnfinished(RenderFor(running, chunks, exit).decoders)
  {
    if !running.stopping && !running.binaryOutput {
      RenderTextDecodes(running.decoders, chunks, Output);
    }
  }

  lemma DeliverFlags(program: Program)
    requires Stored(program) && Flags(program)
    ensures Flags(Deliver(program))
  {
    if program.pending.Some? && !Skipped(program) && program.running.Some? {
      RenderForUnfinished(program.running.value, Visit(program).taken, VisitExit(program));
    }
  }

  /** What a hand-over answers: one answer exactly when a reader waits and something is handed over. */
  lemma HandOverAnswers(running: Running, chunks: seq<Chunk>, exit: Option<End>)
    ensures var handed := HandOver(Some(running), chunks, exit);
      AnswersOf(handed.events) ==
        if (running.stopping && exit.None?)
            || !(running.pullOutput && !running.retiring && running.reader.Some?) then []
        else [Answer(running.reader.value.request, |BytesOf(RenderFor(running, chunks, exit).pieces)|, exit.Some?,
            false)]
  {
    var handed := HandOver(Some(running), chunks, exit);
    if !(running.stopping && exit.None?) {
      var notice := if exit.Some? && !running.retiring then [ExitNotice(OutcomeOf(exit.value))] else [];
      assert AnswersOf(notice) == [] by {
        assert notice != [] ==> notice[1..] == [];
      }
      var output := handed.events[..|handed.events| - |notice|];
      assert handed.events == output + notice;
      AnswersOfConcat(output, notice);
      assert output != [] ==> output[1..] == [];
    }
  }

  /** A read of at least one byte gets some unless there are none. */
  lemma ReadTakes(source: Pending, maximum: nat)
    requires Kept(source) && maximum >= 1
    ensures var taken := Drain(source, maximum).taken;
      |Flat(taken)| <= maximum && (Flat(taken) == [] ==> source.chunks == [])
  {
    DrainConserves(source, maximum);
    if source.chunks != [] {
      RemainderFirst(source);
    }
  }

  /** A reply is never empty unless the program ended, and never larger than its read allows. */
  lemma ReplySize(program: Program)
    requires Sound(program) && program.pending.Some? && !Skipped(program) && Pulls(program)
        && program.running.value.reader.Some?
    requires !program.running.value.stopping || VisitExit(program).Some?
    ensures var size := |BytesOf(RenderFor(program.running.value, Visit(program).taken, VisitExit(program)).pieces)|;
      size <= program.running.value.reader.value.maximum && (size > 0 || VisitExit(program).Some?)
  {
    var running, source := program.running.value, program.pending.value;
    if !running.stopping {
      var maximum := running.reader.value.maximum;
      assert maximum >= 1 by {
        var accepted := program.past.accepted;
        assert ReaderOf(program).value == accepted[|accepted| - 1];
      }
      ReadTakes(source, maximum);
      RenderBinaryCarries(Visit(program).taken);
    }
  }

  /** What one visit answers, and whom it leaves waiting. */
  lemma VisitAnswers(program: Program) returns (answers: seq<Answer>)
    requires Sound(program) && program.pending.Some? && !Skipped(program) && program.running.Some?
    ensures AnswersOf(Deliver(program).past.events) == AnswersOf(program.past.events) + answers
    ensures if answers == [] then ReaderOf(Deliver(program)) == ReaderOf(program)
            else
              && |answers| == 1 && ReaderOf(program).Some? && ReaderOf(Deliver(program)).None?
              && AnswersTo(answers[0], ReaderOf(program).value)
  {
    var running, chunks, exit := program.running.value, Visit(program).taken, VisitExit(program);
    var events := HandOver(program.running, chunks, exit).events;
    HandOverAnswers(running, chunks, exit);
    AnswersOfConcat(program.past.events, events);
    answers := AnswersOf(events);
    if answers != [] {
      ReplySize(program);
    }
  }

  lemma DeliverAnswered(program: Program)
    requires Sound(program)
    ensures Answered(Deliver(program))
  {
    if program.pending.Some? && !Skipped(program) && program.running.Some? {
      var answers := VisitAnswers(program);
      var before := AnswersOf(program.past.events);
      assert answers == [] ==> before + answers == before;
    }
  }

  /** A program whose owner still listens hears every piece. */
  lemma HandOverPieces(running: Running, chunks: seq<Chunk>, exit: Option<End>)
    requires !running.retiring && !running.stopping
    ensures PiecesOf(HandOver(Some(running), chunks, exit).events) == RenderFor(running, chunks, exit).pieces
  {
    var handed, pieces := HandOver(Some(running), chunks, exit), RenderFor(running, chunks, exit).pieces;
    var notice := if exit.Some? then [ExitNotice(OutcomeOf(exit.value))] else [];
    assert PiecesOf(notice) == [] by {
      assert notice != [] ==> notice[1..] == [];
    }
    var output := handed.events[..|handed.events| - |notice|];
    assert handed.events == output + notice;
    PiecesOfConcat(output, notice);
    assert output != [] ==> output[1..] == [];
    assert PiecesOf(output) == pieces;
  }

  lemma DeliverReceivedBytes(program: Program)
    requires Sound(program) && program.past.intact && program.past.binary
    ensures BytesOf(PiecesOf(Deliver(program).past.events)) == Deliver(program).past.taken
  {
    if program.pending.Some? && !Skipped(program) {
      var running, chunks, exit := program.running.value, Visit(program).taken, VisitExit(program);
      var events := HandOver(program.running, chunks, exit).events;
      HandOverPieces(running, chunks, exit);
      RenderBinaryCarries(chunks);
      PiecesOfConcat(program.past.events, events);
      BytesOfConcat(PiecesOf(program.past.events), RenderBinary(chunks));
    }
  }

  /** The text of one visit goes on where the decoder of its stream stopped. */
  lemma RenderForText(running: Running, before: seq<Written>, chunks: seq<Chunk>, exit: Option<End>, stream: Stream,
      text: seq<Byte>)
    requires !running.stopping && !running.binaryOutput && BothUnfinished(running.decoders)
    requires Decode(OnStream(before, stream)) == Decoded(text, running.decoders.Held(stream))
    ensures var rendered, decoded := RenderFor(running, chunks, exit), Decode(OnStream(before + Flat(chunks), stream));
      && text + TextOf(rendered.pieces, stream) == decoded.text + (if exit.Some? then Ending(decoded.held) else [])
      && (exit.None? ==> rendered.decoders.Held(stream) == decoded.held)
  {
    var bytes, more := OnStream(before, stream), OnStream(Flat(chunks), stream);
    var rendered := RenderText(running.decoders, chunks);
    RenderTextDecodes(running.decoders, chunks, stream);
    OnStreamConcat(before, Flat(chunks), stream);
    DecodeContinues(bytes, more);
    var later := TextOf(rendered.pieces, stream);
    if exit.Some? {
      TextOfConcat(rendered.pieces, FinishText(rendered.decoders), stream);
      FinishTextEnds(rendered.decoders, stream);
      Associative(text, later, Ending(rendered.decoders.Held(stream)));
    }
  }

  lemma DeliverReceivedText(program: Program, stream: Stream)
    requires Sound(program) && program.past.intact && !program.past.binary
    ensures ReceivedText(Deliver(program), TextOf(PiecesOf(Deliver(program).past.events), stream), stream)
  {
    var text := TextOf(PiecesOf(program.past.events), stream);
    assert ReceivedText(program, text, stream);
    if program.pending.Some? && !Skipped(program) {
      var running, chunks, exit := program.running.value, Visit(program).taken, VisitExit(program);
      var events := HandOver(program.running, chunks, exit).events;
      HandOverPieces(running, chunks, exit);
      PiecesOfConcat(program.past.events, events);
      TextOfConcat(PiecesOf(program.past.events), PiecesOf(events), stream);
      RenderForText(running, program.past.taken, chunks, exit, stream, text);
      var after := Deliver(program);
      assert TextOf(PiecesOf(after.past.events), stream) ==
          text + TextOf(RenderFor(running, chunks, exit).pieces, stream);
      assert after.past.taken == program.past.taken + Flat(chunks);
    }
  }

  lemma DeliverReceived(program: Program)
    requires Sound(program)
    ensures Received(Deliver(program))
  {
    if program.past.intact {
      if program.past.binary {
        DeliverReceivedBytes(program);
      } else {
        forall stream: Stream
          ensures ReceivedText(Deliver(program), TextOf(PiecesOf(Deliver(program).past.events), stream), stream)
        {
          DeliverReceivedText(program, stream);
        }
      }
    }
  }

  /** A hand-over tells the end exactly when it releases the program, and then last. */
  lemma HandOverEnds(running: Running, chunks: seq<Chunk>, exit: Option<End>)
    ensures var handed := HandOver(Some(running), chunks, exit);
      && (handed.running.None? <==> exit.Some?)
      && (exit.None? ==> !EndTold(handed.events))
      && (exit.Some? && !running.retiring ==> handed.events != [] && handed.events[|handed.events| - 1].ExitNotice?)
      && (forall k | 0 <= k < |handed.events| - 1 :: !handed.events[k].ExitNotice?)
  {
  }

  /** Events told after a run without an end. */
  lemma EndsJoin(events: seq<Event>, told: seq<Event>)
    requires !EndTold(events)
    ensures EndTold(events + told) <==> EndTold(told)
    ensures told != [] ==> (events + told)[|events + told| - 1] == told[|told| - 1]
    ensures (forall k | 0 <= k < |told| - 1 :: !told[k].ExitNotice?) ==>
        forall k | 0 <= k < |events + told| - 1 :: !(events + told)[k].ExitNotice?
  {
    var all := events + told;
    assert forall k | 0 <= k < |told| :: all[|events| + k] == told[k];
    assert forall k | 0 <= k < |all| :: all[k] == if k < |events| then events[k] else told[k - |events|];
  }

  lemma DeliverEndsLast(program: Program)
    requires Sound(program)
    ensures EndsLast(Deliver(program))
  {
    if program.pending.Some? && !Skipped(program) && program.running.Some? {
      DeliverStored(program);
      var exit := VisitExit(program);
      var told := HandOver(program.running, Visit(program).taken, exit).events;
      HandOverEnds(program.running.value, Visit(program).taken, exit);
      EndsJoin(program.past.events, told);
      assert exit.Some? ==> Left(Deliver(program)) == [];
    }
  }

  lemma DeliverSound(program: Program)
    requires Sound(program)
    ensures Sound(Deliver(program))
  {
    DeliverStored(program);
    DeliverEndKept(program);
    DeliverFlags(program);
    DeliverAnswered(program);
    DeliverReceived(program);
    DeliverEndsLast(program);
  }

  /** What may be left in the mailbox when nobody is told to visit it: output kept for a reader that has not come. */
  predicate Settled(program: Program) {
    program.pending.Some? ==> Skipped(program)
  }

  /** A delivery leaves nothing behind that another delivery without a new read would take. */
  lemma DeliverSettles(program: Program)
    requires Sound(program)
    ensures Settled(Deliver(program))
  {
    if program.pending.Some? && !Skipped(program) {
      var source := program.pending.value;
      if !Pulls(program) || program.running.value.stopping {
        DrainWhole(source);
      }
    }
  }

  // ----- Whole runs ----------------------------------------------------------------------------------------

  /** One step of the host as one program sees it: what its producer, its owner or a delivery does. */
  datatype Step =
    | AppendStep(stream: Stream, bytes: seq<Byte>)
    | ExitStep(end: End)
    | ReadStep(reader: Waiting)
    | StopStep
    | ForgetStep
    | DeliverStep

  /**
   * A producer writes nothing after its end and waits while there is no room, and a read is accepted only when it may
   * be.
   */
  predicate Enabled(program: Program, step: Step) {
    match step
    case AppendStep(stream, bytes) => !program.past.exited && bytes != [] && HasRoom(program, stream, |bytes|)
    case ExitStep(_) => !program.past.exited
    case ReadStep(reader) => Readable(program) && 1 <= reader.maximum <= MAXIMUM_READ_BYTES
    case _ => true
  }

  function Take(program: Program, step: Step): Program
    requires Enabled(program, step)
    requires program.pending.Some? ==> Kept(program.pending.value)
  {
    match step
    case AppendStep(stream, bytes) => Append(program, stream, bytes)
    case ExitStep(end) => Exit(program, end)
    case ReadStep(reader) => Read(program, reader)
    case StopStep => Stop(program)
    case ForgetStep => Forget(program)
    case DeliverStep => Deliver(program)
  }

  /** `last` is where the steps lead, each of them enabled when it is taken. */
  ghost predicate Run(first: Program, steps: seq<Step>, last: Program)
    requires Sound(first)
    decreases |steps|
  {
    if steps == [] then last == first
    else
      Enabled(first, steps[0]) &&
      (TakeSound(first, steps[0]); Run(Take(first, steps[0]), steps[1..], last))
  }

  lemma TakeSound(program: Program, step: Step)
    requires Sound(program) && Enabled(program, step)
    ensures Sound(Take(program, step))
  {
    match step {
      case AppendStep(stream, bytes) => AppendSound(program, stream, bytes);
      case ExitStep(end) => ExitSound(program, end);
      case ReadStep(reader) => ReadSound(program, reader);
      case StopStep => StopSound(program);
      case ForgetStep => ForgetSound(program);
      case DeliverStep => DeliverSound(program);
    }
  }

  lemma {:induction false} RunSound(first: Program, steps: seq<Step>, last: Program)
    requires Sound(first) && Run(first, steps, last)
    ensures Sound(last)
    decreases |steps|
  {
    if steps != [] {
      TakeSound(first, steps[0]);
      RunSound(Take(first, steps[0]), steps[1..], last);
    }
  }

  /**
   * In every run of a program read as bytes, neither stopped nor forgotten, the bytes its owner received followed by
   * what the mailbox holds are what the program wrote.
   */
  lemma BytesConserved(owner: string, binaryOutput: bool, pullOutput: bool, steps: seq<Step>, last: Program)
    requires (LaunchedSound(owner, binaryOutput, pullOutput,
        true); Run(Launched(owner, binaryOutput, pullOutput, true), steps, last))
    requires last.past.intact && last.past.binary
    ensures last.pending.Some? ==> Kept(last.pending.value)
    ensures BytesOf(PiecesOf(last.past.events)) + Left(last) == last.past.appended
  {
    LaunchedSound(owner, binaryOutput, pullOutput, true);
    RunSound(Launched(owner, binaryOutput, pullOutput, true), steps, last);
  }

  /**
   * In every run of a program read as text, neither stopped nor forgotten, the text its owner received of a stream is
   * what the decoder makes of the bytes taken so far, and once the end is told it is the substitution of all the
   * bytes the program wrote there.
   */
  lemma TextConserved(owner: string, steps: seq<Step>, last: Program, stream: Stream)
    requires (LaunchedSound(owner, false, false, true); Run(Launched(owner, false, false, true), steps, last))
    requires last.past.intact && !last.past.binary
    ensures last.past.taken <= last.past.appended
    ensures TextOf(PiecesOf(last.past.events), stream) ==
        Decode(OnStream(last.past.taken, stream)).text
        + (if last.running.Some? then [] else Ending(Decode(OnStream(last.past.taken, stream)).held))
    ensures EndTold(last.past.events) ==>
        Substitution(OnStream(last.past.appended, stream), TextOf(PiecesOf(last.past.events), stream))
  {
    LaunchedSound(owner, false, false, true);
    RunSound(Launched(owner, false, false, true), steps, last);
    var text := TextOf(PiecesOf(last.past.events), stream);
    assert ReceivedText(last, text, stream);
    if EndTold(last.past.events) {
      DecodeIsSubstitution(OnStream(last.past.appended, stream), text);
    }
  }

  /**
   * In every run each accepted read is answered at most once and in order, with at most its maximum and with nothing
   * only at the end or on a withdrawal; at most one waits, and none once the program was released.
   */
  lemma ReadersAnswered(owner: string, binaryOutput: bool, pullOutput: bool, started: bool, steps: seq<Step>,
      last: Program)
    requires (LaunchedSound(owner, binaryOutput, pullOutput,
        started); Run(Launched(owner, binaryOutput, pullOutput, started), steps, last))
    ensures
      var answers, accepted := AnswersOf(last.past.events), last.past.accepted;
      && |answers| <= |accepted| <= |answers| + 1
      && (last.running.None? ==> |answers| == |accepted|)
      && (forall k | 0 <= k < |answers| :: answers[k].request == accepted[k].request)
      && (forall k | 0 <= k < |answers| && !answers[k].withdrawn ::
           answers[k].size <= accepted[k].maximum && (answers[k].size > 0 || answers[k].ended))
  {
    LaunchedSound(owner, binaryOutput, pullOutput, started);
    RunSound(Launched(owner, binaryOutput, pullOutput, started), steps, last);
    var answers, accepted := AnswersOf(last.past.events), last.past.accepted;
    assert AnsweredWith(answers, accepted, ReaderOf(last));
    assert forall k | 0 <= k < |answers| :: AnswersTo(answers[k], accepted[k]);
  }

  /**
   * In every run the end of a program is told only once everything it wrote has left the mailbox, with the release,
   * and nothing follows the exit notice.
   */
  lemma EndToldLast(owner: string, binaryOutput: bool, pullOutput: bool, started: bool, steps: seq<Step>, last: Program)
    requires (LaunchedSound(owner, binaryOutput, pullOutput,
        started); Run(Launched(owner, binaryOutput, pullOutput, started), steps, last))
    ensures EndTold(last.past.events) ==>
              last.past.exited && last.running.None? && last.pending.None? && last.past.taken == last.past.appended
    ensures forall k | 0 <= k < |last.past.events| - 1 :: !last.past.events[k].ExitNotice?
  {
    LaunchedSound(owner, binaryOutput, pullOutput, started);
    RunSound(Launched(owner, binaryOutput, pullOutput, started), steps, last);
  }
}
