/**
 * src/scripting/ProcessHost.cpp: what its operations do to a program, told by the fields they leave, and what a run of
 * steps leaves of all its program wrote, read and reported.
 */
module ProcessLaws {
  import opened Foundation
  import opened ProcessMailbox
  import opened ProcessText
  import opened ProcessEvents
  import opened ProcessProgram
  import opened ProcessRuns

  // ----- What a delivery does ------------------------------------------------------------------------------

  /** The end that waits behind the output of a program. */
  function EndOf(program: Program): Option<End> {
    if program.pending.Some? then program.pending.value.exit else None
  }

  /** Output waits for the reads of an owner that still wants it. */
  predicate OnDemand(program: Program) {
    && program.running.Some? && program.running.value.pullOutput
    && !program.running.value.retiring && !program.running.value.stopping
  }

  /**
   * The code is told as it was reported, and the program failed exactly if it crashed or ended with another code than
   * 0.
   */
  predicate OutcomeTold(outcome: Outcome, end: End) {
    outcome.code == end.code && (outcome.failed <==> end.crashed || end.code != 0)
  }

  predicate LastTells(events: seq<Event>, end: End) {
    events != [] && events[|events| - 1].ExitNotice? && OutcomeTold(events[|events| - 1].outcome, end)
  }

  /** Nothing of a program is left in the mailbox, and with its end it is released and its owner told. */
  predicate Cleared(before: Program, after: Program) {
    && after.pending.None?
    && after.past.taken == after.past.appended == before.past.appended
    && (EndOf(before).Some? ==>
          && after.running.None?
          && (before.running.Some? && !before.running.value.retiring ==>
              LastTells(after.past.events, EndOf(before).value)))
  }

  /** What a delivery of a program without its end leaves as it is. */
  predicate GoesOn(before: Running, after: Running) {
    after == before.(decoders := after.decoders)
  }

  function Least(left: nat, right: nat): nat {
    if left < right then left else right
  }

  /** A read gets what there is, up to its maximum, and the end with the last of it. */
  ghost predicate ReadAnswered(before: Program, after: Program, reader: Waiting)
    requires before.pending.Some? ==> Kept(before.pending.value)
    requires after.pending.Some? ==> Kept(after.pending.value)
  {
    var left := Left(before);
    var count := Least(reader.maximum, |left|);
    var ended := count == |left| && EndOf(before).Some?;
    var told := |before.past.events|;
    && after.past.taken == before.past.taken + left[..count] && Left(after) == left[count..]
    && |after.past.events| == told + (if ended then 2 else 1)
    && after.past.events[..told] == before.past.events
    && after.past.events[told].Reply? && after.past.events[told].request == reader.request
    && BytesOf(after.past.events[told].pieces) == left[..count]
    && (after.past.events[told].ended.Some? <==> ended)
    && (ended ==>
          && OutcomeTold(after.past.events[told].ended.value, EndOf(before).value)
          && LastTells(after.past.events, EndOf(before).value) && after.running.None?)
    && (!ended ==> after.running.Some? && after.running.value.reader.None? && OnDemand(after))
  }

  lemma ReadOfAll(source: Pending, share: nat)
    requires Kept(source)
    ensures
      var drained, count := Drain(source, share), Least(share, |Remainder(source)|);
      && Kept(drained.rest)
      && Flat(drained.taken) == Remainder(source)[..count] && Remainder(drained.rest) == Remainder(source)[count..]
      && (drained.rest.chunks == [] <==> count == |Remainder(source)|)
      && drained.rest.exit == source.exit
  {
    DrainConserves(source, share);
    DrainedIffEmpty(source, share);
    var drained, all := Drain(source, share), Remainder(source);
    assert (Flat(drained.taken) + Remainder(drained.rest))[..|Flat(drained.taken)|] == Flat(drained.taken);
    assert (Flat(drained.taken) + Remainder(drained.rest))[|Flat(drained.taken)|..] == Remainder(drained.rest);
    assert all[..|all|] == all;
    if drained.rest.chunks != [] {
      RemainderFirst(drained.rest);
    }
  }

  /** Who hears what of a hand-over. */
  lemma HandOverTells(running: Running, chunks: seq<Chunk>, exit: Option<End>)
    ensures
      var handed := HandOver(Some(running), chunks, exit);
      && (exit.Some? <==> handed.running.None?)
      && (exit.Some? && !running.retiring ==> LastTells(handed.events, exit.value))
      && (running.retiring ==> handed.events == [])
      && (exit.None? && (running.stopping || running.retiring || running.reader.None?) ==>
          GoesOn(running, handed.running.value))
  {
  }

  lemma HandOverListens(running: Running, chunks: seq<Chunk>, exit: Option<End>)
    ensures
      var handed := HandOver(Some(running), chunks, exit);
      handed.running.Some? ==>
        handed.running.value.retiring == running.retiring && handed.running.value.stopping == running.stopping
  {
  }

  lemma HandOverToNobody(chunks: seq<Chunk>, exit: Option<End>)
    ensures HandOver(None, chunks, exit) == ProcessProgram.Handed(None, [])
  {
  }

  lemma HandOverReplies(running: Running, chunks: seq<Chunk>, exit: Option<End>)
    requires running.pullOutput && running.binaryOutput && !running.retiring && !running.stopping
        && running.reader.Some?
    ensures
      var handed := HandOver(Some(running), chunks, exit);
      && |handed.events| == (if exit.Some? then 2 else 1)
      && handed.events[0].Reply? && handed.events[0].request == running.reader.value.request
      && BytesOf(handed.events[0].pieces) == Flat(chunks)
      && (handed.events[0].ended.Some? <==> exit.Some?)
      && (exit.Some? ==> OutcomeTold(handed.events[0].ended.value, exit.value) && handed.running.None?)
      && (exit.None? ==> handed.running == Some(running.(reader := None)))
  {
    RenderBinaryCarries(chunks);
  }

  /** A delivery leaves nothing of a program whose output does not wait for reads. */
  lemma DeliverClears(program: Program)
    requires Sound(program) && !OnDemand(program)
    ensures Cleared(program, Deliver(program))
    ensures EndOf(program).None? && program.running.Some? ==>
              Deliver(program).running.Some?
              && Deliver(program).running.value.retiring == program.running.value.retiring
              && Deliver(program).running.value.stopping == program.running.value.stopping
              && Deliver(program).running.value.pullOutput == program.running.value.pullOutput
              && Deliver(program).running.value.owner == program.running.value.owner
  {
    hide HandOver, Received, Answered, RenderFor;
    assert Stored(program) && Flags(program);
    if program.pending.Some? {
      var source := program.pending.value;
      DrainWhole(source);
      ReadOfAll(source, Share(program));
      var told := HandOver(program.running, Visit(program).taken, VisitExit(program)).events;
      LastJoined(program.past.events, told);
      if program.running.Some? {
        HandOverTells(program.running.value, Visit(program).taken, VisitExit(program));
      } else {
        HandOverToNobody(Visit(program).taken, VisitExit(program));
      }
    }
  }

  lemma LastJoined(events: seq<Event>, told: seq<Event>)
    ensures told != [] ==> events + told != [] && (events + told)[|events + told| - 1] == told[|told| - 1]
    ensures told == [] ==> events + told == events
  {
  }

  lemma SoundKept(program: Program)
    requires Sound(program)
    ensures program.pending.Some? ==> Kept(program.pending.value)
    ensures program.running.Some? && !program.running.value.pullOutput ==> !program.running.value.stopping
    ensures program.running.Some? && program.running.value.retiring ==> program.running.value.reader.None?
  {
    assert Stored(program) && Flags(program);
  }

  /**
   * A delivery answers the read that waits, if there is anything to answer it with, and else leaves the program
   * alone.
   */
  lemma DeliverAnswers(program: Program)
    requires Sound(program) && OnDemand(program)
    ensures program.running.value.reader.None? || program.pending.None? ==> Deliver(program) == program
    ensures Deliver(program).pending.Some? ==> Kept(Deliver(program).pending.value)
    ensures program.running.value.reader.Some? && program.pending.Some? ==>
              ReadAnswered(program, Deliver(program), program.running.value.reader.value)
  {
    hide HandOver, Received, Answered, RenderFor;
    assert Stored(program) && Flags(program);
    if program.running.value.reader.Some? && program.pending.Some? {
      var running := program.running.value;
      ReadOfAll(program.pending.value, Share(program));
      HandOverReplies(running, Visit(program).taken, VisitExit(program));
      HandOverTells(running, Visit(program).taken, VisitExit(program));
    }
  }

  // ----- What the owner's calls do -------------------------------------------------------------------------

  /** A stopped program that is read on demand has given up its output, and ends for its owner with its exit. */
  predicate GivenUp(before: Program, after: Program)
    requires before.running.Some?
  {
    && Cleared(before, after)
    && (EndOf(before).None? ==> after.running.Some? && after.running.value.stopping)
  }

  lemma StopGivesUp(program: Program)
    requires Sound(program) && program.running.Some?
    ensures program.running.value.pullOutput ==> GivenUp(program, Deliver(Stop(program)))
    ensures !program.running.value.pullOutput ==>
        Deliver(Stop(program)) == Deliver(program) && Stop(program).past == program.past
  {
    SoundKept(program);
    hide Deliver, Sound;
    StopSound(program);
    SoundKept(Stop(program));
    if program.running.value.pullOutput {
      DeliverClears(Stop(program));
    }
  }

  /** A withdrawn program answers the read that waits, tells nobody anything more and leaves nothing behind. */
  predicate Retired(before: Program, after: Program)
    requires before.running.Some?
  {
    var reader := before.running.value.reader;
    && after.pending.None? && after.past.taken == after.past.appended == before.past.appended
    && after.past.events == before.past.events + (if reader.Some? then [Withdrawn(reader.value.request)] else [])
    && (after.running.None? <==> EndOf(before).Some?)
    && (after.running.Some? ==> after.running.value.retiring && after.running.value.reader.None?)
  }

  lemma ForgetRetires(program: Program)
    requires Sound(program) && program.running.Some?
    ensures Retired(program, Deliver(Forget(program)))
  {
    hide Deliver, Sound;
    ForgetSound(program);
    SoundKept(Forget(program));
    DeliverClears(Forget(program));
    DeliverSilent(Forget(program));
    DeliverSound(Forget(program));
    SoundKept(Deliver(Forget(program)));
  }

  /** An accepted read is answered from what the mailbox holds, or waits. */
  ghost predicate ReadOrWaiting(before: Program, after: Program, reader: Waiting)
    requires before.running.Some?
    requires before.pending.Some? ==> Kept(before.pending.value)
    requires after.pending.Some? ==> Kept(after.pending.value)
  {
    if before.running.value.stopping then Cleared(before, after)
    else if before.pending.Some? then ReadAnswered(before, after, reader)
    else
      && after.pending.None? && after.past.events == before.past.events && after.past.taken == before.past.taken
      && after.running == Some(before.running.value.(reader := Some(reader)))
  }

  lemma ReadIsAnswered(program: Program, reader: Waiting)
    requires Sound(program) && Readable(program) && 1 <= reader.maximum <= MAXIMUM_READ_BYTES
    ensures program.pending.Some? ==> Kept(program.pending.value)
    ensures Deliver(Read(program, reader)).pending.Some? ==> Kept(Deliver(Read(program, reader)).pending.value)
    ensures ReadOrWaiting(program, Deliver(Read(program, reader)), reader)
  {
    hide Deliver, Sound;
    SoundKept(program);
    ReadSound(program, reader);
    SoundKept(Read(program, reader));
    DeliverSound(Read(program, reader));
    SoundKept(Deliver(Read(program, reader)));
    if program.running.value.stopping {
      DeliverClears(Read(program, reader));
    } else {
      DeliverAnswers(Read(program, reader));
    }
  }

  // ----- Runs and their steps ------------------------------------------------------------------------------

  /** Everything the steps write. */
  function WrittenIn(steps: seq<Step>): seq<Written> {
    if steps == [] then []
    else (if steps[0].AppendStep? then Tag(steps[0].stream, steps[0].bytes) else []) + WrittenIn(steps[1..])
  }

  function ReadsIn(steps: seq<Step>): seq<Waiting> {
    if steps == [] then []
    else (if steps[0].ReadStep? then [steps[0].reader] else []) + ReadsIn(steps[1..])
  }

  /** The end the producer reports. */
  function EndIn(steps: seq<Step>): Option<End> {
    if steps == [] then None
    else if steps[0].ExitStep? then Some(steps[0].end)
    else EndIn(steps[1..])
  }

  lemma StepHistory(program: Program, step: Step)
    requires Sound(program) && Enabled(program, step)
    ensures
      var after := Take(program, step);
      && after.past.appended == program.past.appended + WrittenIn([step])
      && after.past.accepted == program.past.accepted + ReadsIn([step])
      && (after.past.exited <==> program.past.exited || step.ExitStep?)
      && after.past.pull == program.past.pull && after.past.binary == program.past.binary
          && after.past.started == program.past.started
  {
    assert [step][1..] == [];
    match step {
      case AppendStep(stream, bytes) => assert WrittenIn([step]) == Tag(stream, bytes);
      case ReadStep(reader) => assert ReadsIn([step]) == [reader];
      case _ =>
    }
  }

  /** What a program is said to have written and read, and whether it ended, is what its steps did. */
  lemma {:induction false} HistoryOfRun(first: Program, steps: seq<Step>, last: Program)
    requires Sound(first) && Run(first, steps, last)
    ensures last.past.appended == first.past.appended + WrittenIn(steps)
    ensures last.past.accepted == first.past.accepted + ReadsIn(steps)
    ensures last.past.exited <==> first.past.exited || EndIn(steps).Some?
    ensures last.past.pull == first.past.pull && last.past.binary == first.past.binary
        && last.past.started == first.past.started
    decreases |steps|
  {
    hide Sound, Take, Enabled;
    if steps != [] {
      SoundKept(first);
      TakeSound(first, steps[0]);
      StepHistory(first, steps[0]);
      HistoryOfRun(Take(first, steps[0]), steps[1..], last);
      assert [steps[0]][1..] == [];
      assert WrittenIn([steps[0]]) + WrittenIn(steps[1..]) == WrittenIn(steps);
      assert ReadsIn([steps[0]]) + ReadsIn(steps[1..]) == ReadsIn(steps);
      Associative(first.past.appended, WrittenIn([steps[0]]), WrittenIn(steps[1..]));
      Associative(first.past.accepted, ReadsIn([steps[0]]), ReadsIn(steps[1..]));
    }
  }

  // ----- The end -------------------------------------------------------------------------------------------

  function OutcomeIn(event: Event): Option<Outcome> {
    match event
    case ExitNotice(outcome) => Some(outcome)
    case Reply(_, _, ended) => ended
    case _ => None
  }

  /** Whatever is told of an end is told of the end that was reported. */
  predicate TellsOf(program: Program, end: Option<End>) {
    && (program.past.exited <==> end.Some?)
    && (EndOf(program).Some? ==> EndOf(program) == end)
    && (forall k | 0 <= k < |program.past.events| && OutcomeIn(program.past.events[k]).Some? ::
          end.Some? && OutcomeTold(OutcomeIn(program.past.events[k]).value, end.value))
  }

  lemma HandOverTellsOf(running: Option<Running>, chunks: seq<Chunk>, exit: Option<End>)
    ensures
      var events := HandOver(running, chunks, exit).events;
      forall k | 0 <= k < |events| && OutcomeIn(events[k]).Some? :: exit.Some?
          && OutcomeTold(OutcomeIn(events[k]).value, exit.value)
  {
  }

  lemma DeliverTellsOf(program: Program, end: Option<End>)
    requires Sound(program) && TellsOf(program, end)
    ensures TellsOf(Deliver(program), end)
  {
    hide HandOver, Received, Answered, RenderFor;
    assert Stored(program);
    if program.pending.Some? && !Skipped(program) {
      DrainConserves(program.pending.value, Share(program));
      var told := HandOver(program.running, Visit(program).taken, VisitExit(program)).events;
      HandOverTellsOf(program.running, Visit(program).taken, VisitExit(program));
      var events := program.past.events + told;
      assert Deliver(program).past.events == events;
      assert forall k | 0 <= k < |events| :: events[k] == if k < |program.past.events| then program.past.events[k]
          else told[k - |program.past.events|];
    }
  }

  lemma StepTellsOf(program: Program, step: Step, end: Option<End>)
    requires Sound(program) && Enabled(program, step) && TellsOf(program, end)
    ensures TellsOf(Take(program, step), if step.ExitStep? then Some(step.end) else end)
  {
    hide Sound;
    if step.DeliverStep? {
      DeliverTellsOf(program, end);
    }
  }

  lemma {:induction false} RunTellsOf(first: Program, steps: seq<Step>, last: Program, end: Option<End>)
    requires Sound(first) && Run(first, steps, last) && TellsOf(first, end)
    ensures TellsOf(last, if EndIn(steps).Some? then EndIn(steps) else end)
    decreases |steps|
  {
    hide Sound, Take, TellsOf;
    if steps != [] {
      SoundKept(first);
      TakeSound(first, steps[0]);
      StepTellsOf(first, steps[0], end);
      var next := if steps[0].ExitStep? then Some(steps[0].end) else end;
      RunTellsOf(Take(first, steps[0]), steps[1..], last, next);
      if steps[0].ExitStep? {
        StepHistory(first, steps[0]);
        NoSecondEnd(Take(first, steps[0]), steps[1..], last);
      }
    }
  }

  /** A producer reports one end. */
  lemma {:induction false} NoSecondEnd(first: Program, steps: seq<Step>, last: Program)
    requires Sound(first) && Run(first, steps, last) && first.past.exited
    ensures EndIn(steps) == None
    decreases |steps|
  {
    if steps != [] {
      SoundKept(first);
      TakeSound(first, steps[0]);
      StepHistory(first, steps[0]);
      NoSecondEnd(Take(first, steps[0]), steps[1..], last);
    }
  }

  /**
   * In every run the end that is told, in a notice or a reply, has the code that was reported and failed if it
   * crashed or that code is not 0.
   */
  lemma OutcomeIsReported(owner: string, binaryOutput: bool, pullOutput: bool, started: bool, steps: seq<Step>,
      last: Program)
    requires (LaunchedSound(owner, binaryOutput, pullOutput,
        started); Run(Launched(owner, binaryOutput, pullOutput, started), steps, last))
    ensures forall k | 0 <= k < |last.past.events| && OutcomeIn(last.past.events[k]).Some? ::
              EndIn(steps).Some? && OutcomeTold(OutcomeIn(last.past.events[k]).value, EndIn(steps).value)
  {
    LaunchedSound(owner, binaryOutput, pullOutput, started);
    RunTellsOf(Launched(owner, binaryOutput, pullOutput, started), steps, last, None);
  }

  // ----- Owners that listen --------------------------------------------------------------------------------

  lemma {:induction false} RunLast(first: Program, steps: seq<Step>, step: Step,
      last: Program) returns (before: Program)
    requires Sound(first) && Run(first, steps + [step], last)
    ensures Run(first, steps, before) && Sound(before) && Enabled(before, step) && last == Take(before, step)
    decreases |steps|
  {
    hide Sound, Enabled, Take;
    if steps == [] {
      assert (steps + [step])[1..] == [];
      TakeSound(first, step) by {
        assert (steps + [step])[0] == step;
      }
      before := first;
    } else {
      assert (steps + [step])[0] == steps[0] && (steps + [step])[1..] == steps[1..] + [step];
      SoundKept(first);
      TakeSound(first, steps[0]);
      before := RunLast(Take(first, steps[0]), steps[1..], step, last);
    }
  }

  /** The owner was not withdrawn, and heard of the end if the program was released. */
  predicate Listening(program: Program) {
    && (program.running.Some? ==> !program.running.value.retiring)
    && (program.running.None? && program.past.started ==>
        program.past.events != [] && program.past.events[|program.past.events| - 1].ExitNotice?)
  }

  lemma StepListens(program: Program, step: Step)
    requires Sound(program) && Enabled(program, step) && Listening(program) && !step.ForgetStep?
    ensures Listening(Take(program, step))
  {
    hide HandOver, Received, Answered, RenderFor;
    if step.DeliverStep? && program.pending.Some? && !Skipped(program) {
      assert Stored(program);
      var told := HandOver(program.running, Visit(program).taken, VisitExit(program)).events;
      LastJoined(program.past.events, told);
      if program.running.Some? {
        HandOverTells(program.running.value, Visit(program).taken, VisitExit(program));
        HandOverListens(program.running.value, Visit(program).taken, VisitExit(program));
      } else {
        HandOverToNobody(Visit(program).taken, VisitExit(program));
      }
    }
  }

  lemma {:induction false} RunListens(first: Program, steps: seq<Step>, last: Program)
    requires Sound(first) && Run(first, steps, last) && Listening(first) && ForgetStep !in steps
    ensures Listening(last)
    decreases |steps|
  {
    hide Sound, Take, Listening;
    if steps != [] {
      assert steps[0] in steps && forall step | step in steps[1..] :: step in steps;
      SoundKept(first);
      TakeSound(first, steps[0]);
      StepListens(first, steps[0]);
      RunListens(Take(first, steps[0]), steps[1..], last);
    }
  }

  /** Only a withdrawal, or the stop of a program read on demand, costs the owner output. */
  lemma {:induction false} RunIntact(first: Program, steps: seq<Step>, last: Program)
    requires Sound(first) && Run(first, steps, last) && first.past.intact
    requires ForgetStep !in steps && (first.past.pull ==> StopStep !in steps)
    ensures last.past.intact
    decreases |steps|
  {
    hide Received, Answered;
    if steps != [] {
      assert steps[0] in steps && forall step | step in steps[1..] :: step in steps;
      SoundKept(first);
      TakeSound(first, steps[0]);
      StepHistory(first, steps[0]);
      assert Flags(first);
      RunIntact(Take(first, steps[0]), steps[1..], last);
    }
  }

  // ----- Stopped and withdrawn programs in runs ------------------------------------------------------------

  predicate Halted(program: Program) {
    program.running.Some? ==> program.running.value.stopping
  }

  lemma StepHalts(program: Program, step: Step)
    requires Sound(program) && Enabled(program, step)
    ensures Halted(program) ==> Halted(Take(program, step))
    ensures step.StopStep? && program.past.pull ==> Halted(Take(program, step))
  {
    hide Received, Answered;
    assert Flags(program);
  }

  lemma {:induction false} RunHalts(first: Program, steps: seq<Step>, last: Program)
    requires Sound(first) && Run(first, steps, last)
    requires Halted(first) || (first.past.pull && StopStep in steps)
    ensures Halted(last)
    decreases |steps|
  {
    hide Sound, Take, Halted;
    if steps != [] {
      assert steps == [steps[0]] + steps[1..];
      SoundKept(first);
      TakeSound(first, steps[0]);
      StepHalts(first, steps[0]);
      StepHistory(first, steps[0]);
      RunHalts(Take(first, steps[0]), steps[1..], last);
    }
  }

  lemma NotOnDemand(program: Program)
    requires Sound(program) && (Halted(program) || !program.past.pull)
    ensures !OnDemand(program)
  {
    assert Flags(program);
  }

  /**
   * In every run in which a program read on demand was stopped, and in every run of any other program, a delivery
   * leaves nothing in the mailbox. Once the program has ended it releases the program, and unless its owner was
   * withdrawn the last the owner hears is that end.
   */
  lemma DeliveredInRun(owner: string, binaryOutput: bool, pullOutput: bool, steps: seq<Step>, last: Program)
    requires (LaunchedSound(owner, binaryOutput, pullOutput,
        true); Run(Launched(owner, binaryOutput, pullOutput, true), steps + [DeliverStep], last))
    requires !pullOutput || StopStep in steps
    ensures last.pending.None? && last.past.taken == WrittenIn(steps)
    ensures EndIn(steps).Some? <==> last.running.None?
    ensures EndIn(steps).Some? && ForgetStep !in steps ==> LastTells(last.past.events, EndIn(steps).value)
  {
    LaunchedSound(owner, binaryOutput, pullOutput, true);
    LaunchedFacts(owner, binaryOutput, pullOutput);
    hide *;
    DeliveredFrom(Launched(owner, binaryOutput, pullOutput, true), steps, last);
  }

  lemma LaunchedFacts(owner: string, binaryOutput: bool, pullOutput: bool)
    ensures
      var first := Launched(owner, binaryOutput, pullOutput, true);
      && first.past.started && first.past.pull == pullOutput && first.past.appended == [] && !first.past.exited
      && Listening(first) && TellsOf(first, None)
  {
  }

  lemma DeliveredFrom(first: Program, steps: seq<Step>, last: Program)
    requires Sound(first) && Run(first, steps + [DeliverStep], last)
    requires first.past.started && first.past.appended == [] && !first.past.exited && Listening(first)
        && TellsOf(first, None)
    requires !first.past.pull || StopStep in steps
    ensures last.pending.None? && last.past.taken == WrittenIn(steps)
    ensures EndIn(steps).Some? <==> last.running.None?
    ensures EndIn(steps).Some? && ForgetStep !in steps ==> LastTells(last.past.events, EndIn(steps).value)
  {
    hide *;
    var before := RunLast(first, steps, DeliverStep, last);
    TakeDelivers(before);
    HistoryOfRun(first, steps, before);
    assert [] + WrittenIn(steps) == WrittenIn(steps);
    if first.past.pull {
      RunHalts(first, steps, before);
    }
    DeliveredLast(before, steps);
    if ForgetStep !in steps {
      RunListens(first, steps, before);
      RunTellsOf(first, steps, before, None);
      DeliveredIsHeard(before, EndIn(steps));
    }
  }

  lemma TakeDelivers(program: Program)
    requires Sound(program)
    ensures Enabled(program, DeliverStep) && (program.pending.Some? ==> Kept(program.pending.value))
    ensures Take(program, DeliverStep) == Deliver(program)
  {
    SoundKept(program);
  }

  lemma DeliveredLast(before: Program, steps: seq<Step>)
    requires Sound(before) && before.past.started && (Halted(before) || !before.past.pull)
    requires before.past.appended == WrittenIn(steps) && (before.past.exited <==> EndIn(steps).Some?)
    ensures before.pending.Some? ==> Kept(before.pending.value)
    ensures Deliver(before).pending.None? && Deliver(before).past.taken == WrittenIn(steps)
    ensures EndIn(steps).Some? <==> Deliver(before).running.None?
  {
    SoundKept(before);
    hide Sound, Deliver;
    NotOnDemand(before);
    DeliverClears(before);
    DeliverSound(before);
    StepHistory(before, DeliverStep);
    ReleasedIffEnded(Deliver(before));
  }

  lemma DeliveredIsHeard(before: Program, end: Option<End>)
    requires Sound(before) && before.past.started && Listening(before) && TellsOf(before, end)
    ensures before.pending.Some? ==> Kept(before.pending.value)
    ensures end.Some? && Deliver(before).running.None? ==> LastTells(Deliver(before).past.events, end.value)
  {
    hide *;
    TakeDelivers(before);
    StepListens(before, DeliverStep);
    DeliverTellsOf(before, end);
    StepHistory(before, DeliverStep);
    HeardOf(Deliver(before), end);
  }

  lemma HeardOf(program: Program, end: Option<End>)
    requires Listening(program) && TellsOf(program, end) && program.past.started
    ensures end.Some? && program.running.None? ==> LastTells(program.past.events, end.value)
  {
    var events := program.past.events;
    assert program.running.None? ==> OutcomeIn(events[|events| - 1]).Some?;
  }

  lemma ReleasedIffEnded(program: Program)
    requires Sound(program) && program.past.started && program.pending.None?
    ensures program.running.None? <==> program.past.exited
  {
  }

  predicate Silent(program: Program) {
    program.running.Some? ==> program.running.value.retiring
  }

  lemma DeliverSilent(program: Program)
    requires Sound(program) && Silent(program)
    ensures Silent(Deliver(program)) && Deliver(program).past.events == program.past.events
  {
    hide HandOver, Received, Answered, RenderFor;
    assert Stored(program);
    if program.pending.Some? {
      var told := HandOver(program.running, Visit(program).taken, VisitExit(program)).events;
      LastJoined(program.past.events, told);
      if program.running.Some? {
        HandOverTells(program.running.value, Visit(program).taken, VisitExit(program));
        HandOverListens(program.running.value, Visit(program).taken, VisitExit(program));
      } else {
        HandOverToNobody(Visit(program).taken, VisitExit(program));
      }
    }
  }

  lemma StepSilent(program: Program, step: Step)
    requires Sound(program) && Enabled(program, step) && Silent(program)
    ensures Silent(Take(program, step)) && Take(program, step).past.events == program.past.events
  {
    hide Deliver;
    if step.DeliverStep? {
      DeliverSilent(program);
    }
    assert Flags(program);
  }

  /** Whatever happens behind a withdrawal, the owner hears nothing of the program any more. */
  lemma {:induction false} RunSilent(first: Program, steps: seq<Step>, last: Program)
    requires Sound(first) && Run(first, steps, last) && Silent(first)
    ensures Silent(last) && last.past.events == first.past.events
    decreases |steps|
  {
    hide Sound, Take, Silent;
    if steps != [] {
      SoundKept(first);
      TakeSound(first, steps[0]);
      StepSilent(first, steps[0]);
      RunSilent(Take(first, steps[0]), steps[1..], last);
    }
  }

  // ----- What a run promises its owner ---------------------------------------------------------------------

  /**
   * In every run of a program read as bytes, whose owner was not withdrawn and did not stop a program it reads on
   * demand, the bytes the owner received followed by what the mailbox holds are all the program wrote.
   */
  lemma BytesReceived(owner: string, binaryOutput: bool, pullOutput: bool, steps: seq<Step>, last: Program)
    requires (LaunchedSound(owner, binaryOutput, pullOutput,
        true); Run(Launched(owner, binaryOutput, pullOutput, true), steps, last))
    requires (binaryOutput || pullOutput) && ForgetStep !in steps && (pullOutput ==> StopStep !in steps)
    ensures last.pending.Some? ==> Kept(last.pending.value)
    ensures BytesOf(PiecesOf(last.past.events)) + Left(last) == WrittenIn(steps)
  {
    var first := Launched(owner, binaryOutput, pullOutput, true);
    LaunchedSound(owner, binaryOutput, pullOutput, true);
    RunIntact(first, steps, last);
    HistoryOfRun(first, steps, last);
    assert [] + WrittenIn(steps) == WrittenIn(steps);
    BytesConserved(owner, binaryOutput, pullOutput, steps, last);
  }

  /**
   * In every run of a program read as text whose owner was not withdrawn, a delivery behind its end has told the
   * owner the Unicode substitution of everything it wrote, on each stream.
   */
  lemma TextReceived(owner: string, steps: seq<Step>, last: Program, stream: Stream)
    requires (LaunchedSound(owner, false, false, true); Run(Launched(owner, false, false, true),
        steps + [DeliverStep], last))
    requires ForgetStep !in steps && EndIn(steps).Some?
    ensures Substitution(OnStream(WrittenIn(steps), stream), TextOf(PiecesOf(last.past.events), stream))
  {
    var first := Launched(owner, false, false, true);
    LaunchedSound(owner, false, false, true);
    RunIntact(first, steps + [DeliverStep], last);
    HistoryOfRun(first, steps + [DeliverStep], last);
    DeliveredInRun(owner, false, false, steps, last);
    WrittenApart(steps, DeliverStep);
    assert [] + WrittenIn(steps) == WrittenIn(steps);
    assert TellsEnd(last.past.events[|last.past.events| - 1]);
    TextConserved(owner, steps + [DeliverStep], last, stream);
  }

  lemma {:induction false} WrittenApart(steps: seq<Step>, step: Step)
    requires !step.AppendStep?
    ensures WrittenIn(steps + [step]) == WrittenIn(steps)
  {
    if steps == [] {
      assert [step][1..] == [];
      assert steps + [step] == [step];
    } else {
      assert (steps + [step])[1..] == steps[1..] + [step];
      WrittenApart(steps[1..], step);
    }
  }

  // ----- Runs go on ----------------------------------------------------------------------------------------

  /** A run can always be stopped, withdrawn and delivered to, and go on with whatever its program may do next. */
  lemma {:induction false} RunGoesOn(first: Program, steps: seq<Step>, last: Program, step: Step)
    requires Sound(first) && Run(first, steps, last)
    ensures Sound(last) && Run(first, [], first)
    ensures last.pending.Some? ==> Kept(last.pending.value)
    ensures Enabled(last, StopStep) && Enabled(last, ForgetStep) && Enabled(last, DeliverStep)
    ensures !last.past.exited ==> forall end :: Enabled(last, ExitStep(end))
    ensures !last.past.exited && !last.past.pull ==>
        forall stream, bytes | bytes != [] :: Enabled(last, AppendStep(stream, bytes))
    ensures Enabled(last, step) ==> Run(first, steps + [step], Take(last, step))
    decreases |steps|
  {
    RunSound(first, steps, last);
    SoundKept(last);
    hide Sound, Take;
    if steps == [] {
      assert steps + [step] == [step] && [step][1..] == [];
      if Enabled(last, step) {
        TakeSound(last, step);
      }
    } else {
      assert (steps + [step])[0] == steps[0] && (steps + [step])[1..] == steps[1..] + [step];
      SoundKept(first);
      TakeSound(first, steps[0]);
      RunGoesOn(Take(first, steps[0]), steps[1..], last, step);
    }
  }
}
