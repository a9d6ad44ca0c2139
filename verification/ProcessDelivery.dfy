/**
 * src/scripting/ProcessHost.cpp: a delivery takes from the mailbox under its lock and hands over behind it. Producers
 * that append or end in between lead where they would lead behind the whole delivery.
 */
module ProcessDelivery {
  import opened Foundation
  import opened ProcessMailbox
  import opened ProcessEvents
  import opened ProcessProgram
  import opened ProcessHost

  // ----- The two halves of a delivery --------------------------------------------------------------------

  /** What a delivery took of a program and has yet to hand over. */
  datatype Arrived = Arrived(chunks: seq<Chunk>, exit: Option<End>)

  predicate Storing(program: Program) {
    program.pending.Some? ==> ProcessMailbox.Kept(program.pending.value)
  }

  /** The first loop of deliver passes the program by. */
  predicate PassedBy(program: Program) {
    program.pending.None? || Skipped(program)
  }

  /** The first loop of deliver for one program. */
  function Collected(program: Program): Program
    requires Storing(program)
  {
    if PassedBy(program) then program
    else
      var drained := Drain(program.pending.value, Share(program));
      program.(pending := if drained.rest.chunks == [] then None else Some(drained.rest),
               past := program.past.(taken := program.past.taken + Flat(drained.taken)))
  }

  function Taken(program: Program): Arrived
    requires Storing(program) && !PassedBy(program)
  {
    var drained := Drain(program.pending.value, Share(program));
    Arrived(drained.taken, if drained.rest.chunks == [] then program.pending.value.exit else None)
  }

  /** The second loop of deliver for one program. */
  function Handed(program: Program, arrived: Arrived): Program {
    var handed := HandOver(program.running, arrived.chunks, arrived.exit);
    program.(running := handed.running, past := program.past.(events := program.past.events + handed.events))
  }

  /** Both loops make the delivery. */
  lemma DeliverInTwo(program: Program)
    requires Storing(program)
    ensures Deliver(program) == if PassedBy(program) then program else Handed(Collected(program), Taken(program))
  {
  }

  // ----- Producers in between ------------------------------------------------------------------------------

  /** What the threads share: the programs, the two counters, the wake flag and the deliveries that are queued. */
  datatype Shared = Shared(programs: map<int, Program>, bytes: int, chunks: int, posted: bool, deliveries: nat)

  /** A producer adds a piece, or reports the end. */
  datatype Produce = Appends(id: int, stream: Stream, piece: seq<Byte>) | Exits(id: int, end: End)

  /** What happens while a delivery hands over: a producer goes on, or the next program gets what arrived. */
  datatype Move = Producer(produce: Produce) | Hand(id: int, arrived: Arrived)

  predicate Enabled(shared: Shared, produce: Produce) {
    && produce.id in shared.programs && !shared.programs[produce.id].past.exited
    && (produce.Appends? ==>
         produce.piece != []
           && Room(shared.programs, shared.bytes, shared.chunks, produce.id, produce.stream, |produce.piece|))
  }

  function Produced(shared: Shared, produce: Produce): Shared
    requires produce.id in shared.programs
  {
    var program := shared.programs[produce.id];
    var woken := shared.(posted := true, deliveries := shared.deliveries + if shared.posted then 0 else 1);
    match produce
    case Appends(id, stream, piece) =>
      woken.(programs := shared.programs[id := Append(program, stream, piece)],
             bytes := shared.bytes + |piece|,
             chunks := shared.chunks + if Merges(Entry(program), stream) then 0 else 1)
    case Exits(id, end) => woken.(programs := shared.programs[id := Exit(program, end)])
  }

  function HandedTo(shared: Shared, id: int, arrived: Arrived): Shared
    requires id in shared.programs
  {
    shared.(programs := shared.programs[id := Handed(shared.programs[id], arrived)])
  }

  /** A program's producer and its hand-over touch nothing in common. */
  lemma CommuteOne(program: Program, arrived: Arrived, produce: Produce)
    ensures produce.Appends? ==>
        Append(Handed(program, arrived), produce.stream, produce.piece) ==
        Handed(Append(program, produce.stream, produce.piece), arrived)
    ensures produce.Exits? ==>
        Exit(Handed(program, arrived), produce.end) == Handed(Exit(program, produce.end), arrived)
    ensures Entry(Handed(program, arrived)) == Entry(program)
  {
    hide HandOver, Appended;
  }

  lemma Commute(shared: Shared, id: int, arrived: Arrived, produce: Produce)
    requires id in shared.programs && produce.id in shared.programs
    ensures Enabled(HandedTo(shared, id, arrived), produce) <==> Enabled(shared, produce)
    ensures Produced(HandedTo(shared, id, arrived), produce) == HandedTo(Produced(shared, produce), id, arrived)
  {
    hide Handed, Append, Exit;
    HandedSame(shared.programs[id], arrived);
    CommuteOne(shared.programs[id], arrived, produce);
    var left, right := Produced(HandedTo(shared, id, arrived), produce),
        HandedTo(Produced(shared, produce), id, arrived);
    assert left.programs == right.programs;
  }

  lemma HandedSame(program: Program, arrived: Arrived)
    ensures Handed(program, arrived).past.exited == program.past.exited
        && Handed(program, arrived).past.pull == program.past.pull
  {
  }

  /** The moves can happen in this order. */
  predicate Interleaves(shared: Shared, moves: seq<Move>)
    decreases |moves|
  {
    moves != [] ==>
      match moves[0]
      case Producer(produce) => Enabled(shared, produce) && Interleaves(Produced(shared, produce), moves[1..])
      case Hand(id, arrived) => id in shared.programs && Interleaves(HandedTo(shared, id, arrived), moves[1..])
  }

  function Interleaved(shared: Shared, moves: seq<Move>): Shared
    requires Interleaves(shared, moves)
    decreases |moves|
  {
    if moves == [] then shared
    else
      match moves[0]
      case Producer(produce) => Interleaved(Produced(shared, produce), moves[1..])
      case Hand(id, arrived) => Interleaved(HandedTo(shared, id, arrived), moves[1..])
  }

  function HandsIn(moves: seq<Move>): seq<(int, Arrived)>
    decreases |moves|
  {
    if moves == [] then []
    else (if moves[0].Hand? then [(moves[0].id, moves[0].arrived)] else []) + HandsIn(moves[1..])
  }

  function ProducersIn(moves: seq<Move>): seq<Move>
    decreases |moves|
  {
    if moves == [] then []
    else (if moves[0].Producer? then [moves[0]] else []) + ProducersIn(moves[1..])
  }

  predicate Known(programs: map<int, Program>, hands: seq<(int, Arrived)>) {
    forall hand | hand in hands :: hand.0 in programs
  }

  function HandedAll(shared: Shared, hands: seq<(int, Arrived)>): Shared
    requires Known(shared.programs, hands)
    decreases |hands|
  {
    if hands == [] then shared
    else
      assert hands[0] in hands && forall hand | hand in hands[1..] :: hand in hands;
      HandedAll(HandedTo(shared, hands[0].0, hands[0].1), hands[1..])
  }

  lemma {:induction false} CommuteAll(shared: Shared, hands: seq<(int, Arrived)>, produce: Produce)
    requires Known(shared.programs, hands) && Enabled(shared, produce)
    ensures Enabled(HandedAll(shared, hands), produce)
    ensures Known(Produced(shared, produce).programs, hands)
    ensures Produced(HandedAll(shared, hands), produce) == HandedAll(Produced(shared, produce), hands)
    decreases |hands|
  {
    hide Handed, Append, Exit, Room;
    if hands != [] {
      assert hands[0] in hands && forall hand | hand in hands[1..] :: hand in hands;
      Commute(shared, hands[0].0, hands[0].1, produce);
      CommuteAll(HandedTo(shared, hands[0].0, hands[0].1), hands[1..], produce);
    }
  }

  /** However producers go on in between, the delivery might as well have handed over everything before. */
  lemma {:induction false} HandsFirst(shared: Shared, moves: seq<Move>)
    requires Interleaves(shared, moves)
    ensures Known(shared.programs, HandsIn(moves))
    ensures Interleaves(HandedAll(shared, HandsIn(moves)), ProducersIn(moves))
    ensures Interleaved(shared, moves) == Interleaved(HandedAll(shared, HandsIn(moves)), ProducersIn(moves))
    decreases |moves|
  {
    hide Produced, HandedTo, Enabled;
    if moves != [] {
      var rest := moves[1..];
      match moves[0] {
        case Producer(produce) =>
          ProducedKeys(shared, produce);
          HandsFirst(Produced(shared, produce), rest);
          CommuteAll(shared, HandsIn(rest), produce);
          assert HandsIn(moves) == HandsIn(rest);
          assert ProducersIn(moves)[0] == moves[0] && ProducersIn(moves)[1..] == ProducersIn(rest);
        case Hand(id, arrived) =>
          HandsFirst(HandedTo(shared, id, arrived), rest);
          HandedKeys(shared, id, arrived);
          assert HandsIn(moves)[0] == (id, arrived) && HandsIn(moves)[1..] == HandsIn(rest);
          assert ProducersIn(moves) == ProducersIn(rest);
      }
    }
  }

  lemma ProducedKeys(shared: Shared, produce: Produce)
    requires Enabled(shared, produce)
    ensures produce.id in shared.programs && Produced(shared, produce).programs.Keys == shared.programs.Keys
  {
  }

  lemma HandedKeys(shared: Shared, id: int, arrived: Arrived)
    requires id in shared.programs
    ensures HandedTo(shared, id, arrived).programs.Keys == shared.programs.Keys
  {
  }

  // ----- The whole delivery --------------------------------------------------------------------------------

  predicate AllStoring(programs: map<int, Program>) {
    forall id | id in programs :: Storing(programs[id])
  }

  /** The programs after the first loop. */
  function CollectedAll(programs: map<int, Program>): map<int, Program>
    requires AllStoring(programs)
  {
    map id | id in programs :: Collected(programs[id])
  }

  /** What the first loop took of the identities up to `last`, in the order of the map. */
  function TakenAll(programs: map<int, Program>, last: nat): seq<(int, Arrived)>
    requires AllStoring(programs)
  {
    if last == 0 then []
    else TakenAll(programs, last - 1) + if last in programs
        && !PassedBy(programs[last]) then [(last, Taken(programs[last]))] else []
  }

  /** The programs once the second loop has come to `last`. */
  function DeliveredTo(programs: map<int, Program>, last: nat): map<int, Program>
    requires AllStoring(programs)
  {
    map id | id in programs :: if 1 <= id <= last then Deliver(programs[id]) else Collected(programs[id])
  }

  lemma {:induction false} HandedAllApart(shared: Shared, front: seq<(int, Arrived)>, back: seq<(int, Arrived)>)
    requires Known(shared.programs, front + back)
    ensures Known(shared.programs, front) && Known(HandedAll(shared, front).programs, back)
    ensures HandedAll(shared, front + back) == HandedAll(HandedAll(shared, front), back)
    decreases |front|
  {
    hide Handed;
    if front == [] {
      assert front + back == back;
    } else {
      assert front[0] in front + back && forall hand | hand in front :: hand in front + back;
      assert (front + back)[1..] == front[1..] + back
          && forall hand | hand in front[1..] + back :: hand in front + back;
      HandedAllApart(HandedTo(shared, front[0].0, front[0].1), front[1..], back);
    }
  }

  lemma {:induction false} TakenKnown(programs: map<int, Program>, last: nat)
    requires AllStoring(programs)
    ensures Known(programs, TakenAll(programs, last))
  {
    if last > 0 {
      TakenKnown(programs, last - 1);
    }
  }

  /** Handing over everything that was taken delivers to each program in turn. */
  lemma {:induction false} HandedIsDelivered(shared: Shared, programs: map<int, Program>, last: nat)
    requires AllStoring(programs) && shared.programs == CollectedAll(programs)
    ensures Known(shared.programs, TakenAll(programs, last))
    ensures HandedAll(shared, TakenAll(programs, last)) == shared.(programs := DeliveredTo(programs, last))
  {
    hide Handed, Collected, Taken, PassedBy, DeliveredTo, CollectedAll;
    TakenKnown(programs, last);
    DeliveredNext(programs, last);
    DeliveredNext(programs, 0);
    if last > 0 {
      HandedIsDelivered(shared, programs, last - 1);
      var front := TakenAll(programs, last - 1);
      if last in programs && !PassedBy(programs[last]) {
        var hand := (last, Taken(programs[last]));
        assert TakenAll(programs, last) == front + [hand];
        HandedAllApart(shared, front, [hand]);
        assert HandedAll(HandedAll(shared, front), [hand]) == HandedTo(HandedAll(shared, front), last, hand.1);
      } else {
        assert TakenAll(programs, last) == front;
      }
    }
  }

  lemma DeliveredNext(programs: map<int, Program>, last: nat)
    requires AllStoring(programs)
    ensures DeliveredTo(programs, 0) == CollectedAll(programs) && DeliveredTo(programs, last).Keys == programs.Keys
    ensures last > 0 ==>
              var before := DeliveredTo(programs, last - 1);
              DeliveredTo(programs, last) ==
                if last in programs && !PassedBy(programs[last]) then before[last := Handed(before[last],
                    Taken(programs[last]))] else before
  {
    hide Handed, Collected, Taken, PassedBy, Deliver;
    if last in programs {
      DeliverInTwo(programs[last]);
      PassedByCollected(programs[last]);
    }
  }

  lemma PassedByCollected(program: Program)
    requires Storing(program)
    ensures PassedBy(program) ==> Collected(program) == program
  {
  }

  /**
   * A delivery with producers going on anywhere behind its lock is the delivery as one step, which leaves each program
   * delivered to, and then those producers.
   */
  lemma DeliverIsOneStep(programs: map<int, Program>, last: nat, collected: Shared, moves: seq<Move>)
    requires AllStoring(programs) && (forall id | id in programs :: 1 <= id <= last)
        && collected.programs == CollectedAll(programs)
    requires Interleaves(collected, moves) && HandsIn(moves) == TakenAll(programs, last)
    ensures
      var delivered := collected.(programs := DeliveredTo(programs, last));
      && Delivered(programs, delivered.programs)
      && Interleaves(delivered, ProducersIn(moves))
      && Interleaved(collected, moves) == Interleaved(delivered, ProducersIn(moves))
  {
    hide Interleaves, Interleaved, Deliver, Collected, TakenAll;
    HandsFirst(collected, moves);
    HandedIsDelivered(collected, programs, last);
  }
}
