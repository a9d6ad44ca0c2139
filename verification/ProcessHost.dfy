/** src/scripting/ProcessHost.cpp: the host of all programs, its shared mailbox with two counters and the wake flag. */
module ProcessHost {
  import opened Foundation
  import opened ProcessMailbox
  import opened ProcessEvents
  import opened ProcessProgram
  import opened ProcessRuns
  import opened ProcessLaws

  // ----- Sums over all programs ----------------------------------------------------------------------------

  /** What the entries of the identities up to `last` hold together. */
  function Bytes(programs: map<int, Program>, last: nat): nat {
    if last == 0 then 0
    else Bytes(programs, last - 1) + if last in programs then Entry(programs[last]).bytes else 0
  }

  function Chunks(programs: map<int, Program>, last: nat): nat {
    if last == 0 then 0
    else Chunks(programs, last - 1) + if last in programs then |Entry(programs[last]).chunks| else 0
  }

  /** The counters are the sums over every entry, within their bounds. */
  predicate Counted(programs: map<int, Program>, last: nat, bytes: int, chunks: int) {
    && bytes == Bytes(programs, last) <= MAXIMUM_PENDING_BYTES
    && chunks == Chunks(programs, last) <= MAXIMUM_PENDING_CHUNKS
  }

  function EntryOf(programs: map<int, Program>, id: int): Pending {
    if id in programs then Entry(programs[id]) else Empty
  }

  /** Changing one program changes the sums by what that program counts for. */
  lemma {:induction false} SumsOfUpdate(programs: map<int, Program>, last: nat, id: int, program: Program)
    requires 1 <= id
    ensures Bytes(programs[id := program], last) ==
        Bytes(programs, last) + (if id <= last then Entry(program).bytes - EntryOf(programs, id).bytes else 0)
    ensures Chunks(programs[id := program], last) ==
        Chunks(programs, last) + (if id <= last then |Entry(program).chunks| - |EntryOf(programs, id).chunks| else 0)
    ensures id <= last ==>
              EntryOf(programs, id).bytes <= Bytes(programs, last)
                && |EntryOf(programs, id).chunks| <= Chunks(programs, last)
  {
    if last > 0 {
      SumsOfUpdate(programs, last - 1, id, program);
    }
  }

  lemma CountOne(programs: map<int, Program>, last: nat, id: int, program: Program, bytes: int, chunks: int)
    requires id in programs && 1 <= id <= last && Counted(programs, last, bytes, chunks)
    requires bytes - Entry(programs[id]).bytes + Entry(program).bytes <= MAXIMUM_PENDING_BYTES
    requires chunks - |Entry(programs[id]).chunks| + |Entry(program).chunks| <= MAXIMUM_PENDING_CHUNKS
    ensures Entry(programs[id]).bytes <= bytes && |Entry(programs[id]).chunks| <= chunks
    ensures Counted(programs[id := program], last, bytes - Entry(programs[id]).bytes + Entry(program).bytes,
        chunks - |Entry(programs[id]).chunks| + |Entry(program).chunks|)
  {
    SumsOfUpdate(programs, last, id, program);
  }

  lemma CountNew(programs: map<int, Program>, last: nat, program: Program, bytes: int, chunks: int)
    requires last + 1 !in programs && Counted(programs, last, bytes, chunks) && program.pending.None?
    ensures Counted(programs[last + 1 := program], last + 1, bytes, chunks)
  {
    SumsOfUpdate(programs, last, last + 1, program);
  }

  /** What every step of every thread keeps, apart from the wake. */
  ghost predicate Consistent(programs: map<int, Program>, last: nat, bytes: int, chunks: int) {
    && (forall id | id in programs :: 1 <= id <= last)
    && (forall id {:trigger Sound(programs[id])} | id in programs :: Sound(programs[id]))
    && Counted(programs, last, bytes, chunks)
  }

  predicate AllSettled(programs: map<int, Program>) {
    forall id | id in programs :: Settled(programs[id])
  }

  lemma StartKeeps(programs: map<int, Program>, last: nat, bytes: int, chunks: int, owner: string,
      binaryOutput: bool, pullOutput: bool, started: bool)
    requires Consistent(programs, last, bytes, chunks)
    ensures Consistent(programs[last + 1 := Launched(owner, binaryOutput, pullOutput, started)], last + 1, bytes,
        chunks)
  {
    LaunchedSound(owner, binaryOutput, pullOutput, started);
    CountNew(programs, last, Launched(owner, binaryOutput, pullOutput, started), bytes, chunks);
  }

  /** The wait condition of the output callback. */
  predicate Room(programs: map<int, Program>, bytes: int, chunks: int, id: int, stream: Stream, length: nat)
    requires id in programs
  {
    && bytes + length <= MAXIMUM_PENDING_BYTES
    && (Merges(Entry(programs[id]), stream) || chunks < MAXIMUM_PENDING_CHUNKS)
    && HasRoom(programs[id], stream, length)
  }

  lemma OutputKeeps(programs: map<int, Program>, last: nat, bytes: int, chunks: int, id: int, stream: Stream,
      piece: seq<Byte>)
    requires Consistent(programs, last, bytes, chunks) && id in programs && !programs[id].past.exited && piece != []
    requires Room(programs, bytes, chunks, id, stream, |piece|)
    ensures Consistent(programs[id := Append(programs[id], stream, piece)], last, bytes + |piece|,
        chunks + if Merges(Entry(programs[id]), stream) then 0 else 1)
  {
    AppendSound(programs[id], stream, piece);
    CountOne(programs, last, id, Append(programs[id], stream, piece), bytes, chunks);
  }

  lemma ExitKeeps(programs: map<int, Program>, last: nat, bytes: int, chunks: int, id: int, end: End)
    requires Consistent(programs, last, bytes, chunks) && id in programs && !programs[id].past.exited
    ensures Consistent(programs[id := Exit(programs[id], end)], last, bytes, chunks)
  {
    ExitSound(programs[id], end);
    CountOne(programs, last, id, Exit(programs[id], end), bytes, chunks);
  }

  lemma ReadKeeps(programs: map<int, Program>, last: nat, bytes: int, chunks: int, id: int, reader: Waiting)
    requires Consistent(programs, last, bytes, chunks) && id in programs && Readable(programs[id])
        && 1 <= reader.maximum <= MAXIMUM_READ_BYTES
    ensures Consistent(programs[id := Read(programs[id], reader)], last, bytes, chunks)
  {
    ReadSound(programs[id], reader);
    CountOne(programs, last, id, Read(programs[id], reader), bytes, chunks);
  }

  lemma StopKeeps(programs: map<int, Program>, last: nat, bytes: int, chunks: int, id: int)
    requires Consistent(programs, last, bytes, chunks) && id in programs
    ensures Consistent(programs[id := Stop(programs[id])], last, bytes, chunks)
  {
    StopSound(programs[id]);
    CountOne(programs, last, id, Stop(programs[id]), bytes, chunks);
  }

  lemma ForgetKeeps(programs: map<int, Program>, last: nat, bytes: int, chunks: int, id: int)
    requires Consistent(programs, last, bytes, chunks) && id in programs
    ensures Consistent(programs[id := Forget(programs[id])], last, bytes, chunks)
  {
    ForgetSound(programs[id]);
    CountOne(programs, last, id, Forget(programs[id]), bytes, chunks);
  }

  lemma SoundStored(program: Program)
    requires Sound(program)
    ensures Stored(program)
  {
  }

  lemma DeliverShrinks(program: Program)
    requires Stored(program)
    ensures Entry(Deliver(program)).bytes <= Entry(program).bytes
        && |Entry(Deliver(program)).chunks| <= |Entry(program).chunks|
  {
    if program.pending.Some? && !Skipped(program) {
      DrainShrinks(program.pending.value, Share(program));
    }
  }

  lemma DeliverKeeps(programs: map<int, Program>, last: nat, bytes: int, chunks: int, id: int)
    requires Consistent(programs, last, bytes, chunks) && id in programs
    requires programs[id].pending.Some? ==> Kept(programs[id].pending.value)
    ensures var program, after := programs[id], Deliver(programs[id]);
      && Entry(program).bytes <= bytes && |Entry(program).chunks| <= chunks
      && Consistent(programs[id := after], last, bytes - Entry(program).bytes + Entry(after).bytes,
          chunks - |Entry(program).chunks| + |Entry(after).chunks|)
      && Settled(after)
  {
    hide Sound, Bytes, Chunks, Settled;
    var program := programs[id];
    assert Stored(program) by {
      SoundStored(program);
    }
    hide Stored;
    DeliverSound(program);
    DeliverSettles(program);
    DeliverShrinks(program);
    CountOne(programs, last, id, Deliver(program), bytes, chunks);
  }

  /** Every program takes one delivery, whatever the others do. */
  ghost predicate Delivered(programs: map<int, Program>, after: map<int, Program>) {
    && after.Keys == programs.Keys
    && forall id | id in programs ::
        && (programs[id].pending.Some? ==> Kept(programs[id].pending.value))
        && after[id] == Deliver(programs[id])
  }

  /** The programs below an identity took their delivery, and the others wait for it. */
  ghost predicate DeliveredBelow(programs: map<int, Program>, after: map<int, Program>, id: int) {
    && after.Keys == programs.Keys
    && forall other | other in programs ::
        && (programs[other].pending.Some? ==> Kept(programs[other].pending.value))
        && (if other < id then after[other] == Deliver(programs[other]) && Settled(after[other])
            else after[other] == programs[other])
  }

  lemma DeliveredNext(programs: map<int, Program>, after: map<int, Program>, next: map<int, Program>, id: int)
    requires DeliveredBelow(programs, after, id)
    requires if id in after then next == after[id := Deliver(programs[id])] && Settled(next[id]) else next == after
    ensures DeliveredBelow(programs, next, id + 1)
  {
  }

  lemma ConsistentKept(programs: map<int, Program>, last: nat, bytes: int, chunks: int)
    requires Consistent(programs, last, bytes, chunks)
    ensures forall id | id in programs && programs[id].pending.Some? :: Kept(programs[id].pending.value)
  {
    forall id | id in programs && programs[id].pending.Some?
      ensures Kept(programs[id].pending.value)
    {
      assert Sound(programs[id]);
    }
  }

  // ----- When a producer goes on ---------------------------------------------------------------------------

  /** What the programs read on demand hold while nobody reads them. */
  function KeptBytes(programs: map<int, Program>, last: nat): nat {
    if last == 0 then 0
    else KeptBytes(programs, last - 1) + if last in programs
        && Skipped(programs[last]) then Entry(programs[last]).bytes else 0
  }

  function KeptChunks(programs: map<int, Program>, last: nat): nat {
    if last == 0 then 0
    else KeptChunks(programs, last - 1) + if last in programs
        && Skipped(programs[last]) then |Entry(programs[last]).chunks| else 0
  }

  /** How many programs nobody reads. */
  function Unread(programs: map<int, Program>, last: nat): nat {
    if last == 0 then 0
    else Unread(programs, last - 1) + if last in programs && Skipped(programs[last]) then 1 else 0
  }

  /** They are as many as there are. */
  lemma {:induction false} UnreadCounts(programs: map<int, Program>, last: nat)
    ensures Unread(programs, last) == |set id | id in programs && 1 <= id <= last && Skipped(programs[id])|
  {
    var unread := set id | id in programs && 1 <= id <= last && Skipped(programs[id]);
    if last > 0 {
      UnreadCounts(programs, last - 1);
      var fewer := set id | id in programs && 1 <= id <= last - 1 && Skipped(programs[id]);
      assert unread == fewer + if last in programs && Skipped(programs[last]) then {last} else {};
    } else {
      assert unread == {};
    }
  }

  lemma {:induction false} SettledSums(programs: map<int, Program>, last: nat)
    requires AllSettled(programs)
    ensures Bytes(programs, last) == KeptBytes(programs, last) && Chunks(programs, last) == KeptChunks(programs, last)
  {
    if last > 0 {
      SettledSums(programs, last - 1);
      assert last in programs ==> Settled(programs[last]);
    }
  }

  lemma KeptOfOne(program: Program)
    requires Sound(program)
    ensures Skipped(program) ==>
        Entry(program).bytes <= MAXIMUM_PULL_BYTES && |Entry(program).chunks| <= MAXIMUM_PULL_CHUNKS
    ensures Settled(program) && !program.past.pull ==> program.pending.None?
  {
    assert Stored(program) && Flags(program);
  }

  lemma {:induction false} KeptBound(programs: map<int, Program>, last: nat)
    requires forall id | id in programs :: Sound(programs[id])
    ensures KeptBytes(programs, last) <= Unread(programs, last) * MAXIMUM_PULL_BYTES
    ensures KeptChunks(programs, last) <= Unread(programs, last) * MAXIMUM_PULL_CHUNKS
  {
    hide Sound, Skipped, Entry;
    if last > 0 {
      KeptBound(programs, last - 1);
      if last in programs {
        KeptOfOne(programs[last]);
      }
    }
  }

  /**
   * Once a delivery was made, a producer goes on exactly if its piece fits beside what the programs nobody reads
   * hold, and into its own share if it is one of them.
   */
  lemma ProducerGoesOn(programs: map<int, Program>, last: nat, bytes: int, chunks: int, id: int, stream: Stream,
      length: nat)
    requires Consistent(programs, last, bytes, chunks) && AllSettled(programs) && id in programs
    ensures programs[id].past.pull ==>
              (Room(programs, bytes, chunks, id, stream, length) <==>
                && KeptBytes(programs, last) + length <= MAXIMUM_PENDING_BYTES
                && Entry(programs[id]).bytes + length <= MAXIMUM_PULL_BYTES
                && (Merges(Entry(programs[id]), stream)
                    || (KeptChunks(programs, last) < MAXIMUM_PENDING_CHUNKS
                    && |Entry(programs[id]).chunks| < MAXIMUM_PULL_CHUNKS)))
    ensures !programs[id].past.pull ==>
              (Room(programs, bytes, chunks, id, stream, length) <==>
                KeptBytes(programs, last) + length <= MAXIMUM_PENDING_BYTES
                    && KeptChunks(programs, last) < MAXIMUM_PENDING_CHUNKS)
  {
    hide Sound;
    assert Settled(programs[id]) && Sound(programs[id]);
    SettledSums(programs, last);
    KeptOfOne(programs[id]);
  }

  /** While at most three programs are read on demand by nobody, no other program waits with a piece of up to 1 MiB. */
  lemma ThreeNeverBlock(programs: map<int, Program>, last: nat, bytes: int, chunks: int, id: int, stream: Stream,
      length: nat)
    requires Consistent(programs, last, bytes, chunks) && AllSettled(programs) && id in programs
        && !programs[id].past.pull
    requires Unread(programs, last) <= 3 && length <= MAXIMUM_PULL_BYTES
    ensures Room(programs, bytes, chunks, id, stream, length)
  {
    hide Sound, Room;
    KeptBound(programs, last);
    ProducerGoesOn(programs, last, bytes, chunks, id, stream, length);
  }

  predicate Full(program: Program) {
    Skipped(program) && Entry(program).bytes == MAXIMUM_PULL_BYTES
  }

  /**
   * Four programs that nobody reads, each with its whole share, leave room for no byte of any program, and a delivery
   * leaves the four as they are.
   */
  lemma FourBlockEverybody(programs: map<int, Program>, last: nat, bytes: int, chunks: int, full: seq<int>)
    requires Consistent(programs, last, bytes, chunks) && |full| == 4
    requires forall k | 0 <= k < 4 :: full[k] in programs && Full(programs[full[k]])
    requires forall j, k | 0 <= j < k < 4 :: full[j] != full[k]
    ensures bytes == MAXIMUM_PENDING_BYTES
    ensures forall id, stream, length: nat | id in programs
        && length > 0 :: !Room(programs, bytes, chunks, id, stream, length)
    ensures forall after, k | Delivered(programs, after) && 0 <= k < 4 ::
              full[k] in after && after[full[k]] == programs[full[k]]
  {
    hide Sound, Bytes, Chunks, Skipped, Delivered;
    var emptied := programs;
    for k := 0 to 4
      invariant emptied.Keys == programs.Keys
      invariant forall j | k <= j < 4 :: emptied[full[j]] == programs[full[j]]
      invariant Bytes(programs, last) == Bytes(emptied, last) + k * MAXIMUM_PULL_BYTES
    {
      var program := emptied[full[k]].(pending := None);
      SumsOfUpdate(emptied, last, full[k], program);
      emptied := emptied[full[k] := program];
    }
    assert bytes == MAXIMUM_PENDING_BYTES;
    forall after, k | Delivered(programs, after) && 0 <= k < 4
      ensures full[k] in after && after[full[k]] == programs[full[k]]
    {
      UnreadStays(programs, after, full[k]);
    }
  }

  // Four programs of one plugin, read on demand, of which the first ones have written their whole share.

  function Launching(owner: string, count: nat): map<int, Program> {
    if count == 0 then map[] else Launching(owner, count - 1)[count := Launched(owner, true, true, true)]
  }

  function Filling(owner: string, stream: Stream, piece: seq<Byte>, filled: nat): map<int, Program>
    requires filled <= 4
  {
    if filled == 0 then Launching(owner, 4)
    else Filling(owner, stream, piece, filled - 1)[filled := Append(Launched(owner, true, true, true), stream, piece)]
  }

  lemma {:induction false} LaunchingKeeps(owner: string, count: nat)
    ensures Consistent(Launching(owner, count), count, 0, 0)
    ensures forall id :: id in Launching(owner, count) <==> 1 <= id <= count
    ensures forall id | id in Launching(owner, count) ::
        Launching(owner, count)[id] == Launched(owner, true, true, true)
  {
    hide Sound;
    if count > 0 {
      LaunchingKeeps(owner, count - 1);
      StartKeeps(Launching(owner, count - 1), count - 1, 0, 0, owner, true, true, true);
    }
  }

  /** Each of the four finds room for its whole share, after whatever the ones before it have written. */
  lemma {:induction false} FillingKeeps(owner: string, stream: Stream, piece: seq<Byte>, filled: nat)
    requires filled <= 4 && |piece| == MAXIMUM_PULL_BYTES
    ensures
      var programs := Filling(owner, stream, piece, filled);
      && (forall id :: id in programs <==> 1 <= id <= 4)
      && (forall id | 1 <= id <= filled :: programs[id] == Append(Launched(owner, true, true, true), stream, piece))
      && (forall id | filled < id <= 4 :: programs[id] == Launched(owner, true, true, true))
      && Consistent(programs, 4, filled * MAXIMUM_PULL_BYTES, filled)
      && (filled < 4 ==> Room(programs, filled * MAXIMUM_PULL_BYTES, filled, filled + 1, stream, |piece|))
  {
    hide Sound, Consistent, Append;
    LaunchingKeeps(owner, 4);
    if filled > 0 {
      FillingKeeps(owner, stream, piece, filled - 1);
      var before := Filling(owner, stream, piece, filled - 1);
      OutputKeeps(before, 4, (filled - 1) * MAXIMUM_PULL_BYTES, filled - 1, filled, stream, piece);
    }
  }

  /**
   * So four programs nobody reads do come to make everybody wait: each starts, and writes its share while there is
   * room.
   */
  lemma FourCanBlock(owner: string, stream: Stream, piece: seq<Byte>)
    requires |piece| == MAXIMUM_PULL_BYTES
    ensures
      var programs := Filling(owner, stream, piece, 4);
      && Consistent(programs, 4, MAXIMUM_PENDING_BYTES, 4)
      && AllSettled(programs)
      && (forall id | id in programs :: Full(programs[id]))
      && (forall id, other, length: nat | id in programs
          && length > 0 :: !Room(programs, MAXIMUM_PENDING_BYTES, 4, id, other, length))
  {
    hide Sound, Consistent, Room;
    var programs := Filling(owner, stream, piece, 4);
    FillingKeeps(owner, stream, piece, 4);
    FourBlockEverybody(programs, 4, MAXIMUM_PENDING_BYTES, 4, [1, 2, 3, 4]);
  }

  lemma UnreadStays(programs: map<int, Program>, after: map<int, Program>, id: int)
    requires Delivered(programs, after) && id in programs && Skipped(programs[id])
    ensures id in after && after[id] == programs[id]
  {
  }

  // ----- Owners and rounds ---------------------------------------------------------------------------------

  predicate Owned(program: Program, plugin: string) {
    program.running.Some? && program.running.value.owner == plugin
  }

  /** Every program after its plugin was withdrawn. */
  function ForgetOwned(programs: map<int, Program>, plugin: string): map<int, Program> {
    map id | id in programs :: if Owned(programs[id], plugin) then Forget(programs[id]) else programs[id]
  }

  lemma OthersDelivered(programs: map<int, Program>, after: map<int, Program>, plugin: string)
    requires Delivered(ForgetOwned(programs, plugin), after)
    ensures after.Keys == programs.Keys
    ensures forall id | id in programs && !Owned(programs[id], plugin) ::
              && (programs[id].pending.Some? ==> Kept(programs[id].pending.value))
              && after[id] == ProcessProgram.Deliver(programs[id])
  {
    assert forall id | id in programs && !Owned(programs[id], plugin) ::
             ForgetOwned(programs, plugin)[id] == programs[id];
  }

  /** How much of the bytes at an offset one round of the output callback asks room for. */
  function RoundLength(pull: bool, left: nat): (length: nat)
    ensures length <= left && length <= MAXIMUM_PENDING_BYTES && (pull ==> length <= MAXIMUM_PULL_BYTES)
    ensures length == left || length == MAXIMUM_PENDING_BYTES || (pull && length == MAXIMUM_PULL_BYTES)
  {
    var most := if pull then MAXIMUM_PULL_BYTES else MAXIMUM_PENDING_BYTES;
    if left < most then left else most
  }

  lemma DrainEnds(entry: Pending, share: nat)
    requires Kept(entry) && (entry.chunks == [] || share == 0)
    ensures Drain(entry, share) == Drained([], entry)
  {
  }

  /** One round of the inner loop of deliver is one step of the drain. */
  lemma DrainStep(entry: Pending, share: nat, count: nat)
    requires Kept(entry) && entry.chunks != [] && share > 0
    requires count == (if share < |entry.chunks[0].bytes| - entry.offset then share
        else |entry.chunks[0].bytes| - entry.offset)
    ensures var chunk := entry.chunks[0];
      var piece := Chunk(chunk.stream, chunk.bytes[entry.offset..entry.offset + count]);
      var next := if count == |chunk.bytes| - entry.offset
                  then entry.(chunks := entry.chunks[1..], bytes := |Flat(entry.chunks[1..])|, offset := 0)
                  else entry.(offset := entry.offset + count);
      && Kept(next)
      && Drain(entry, share) == Drained([piece] + Drain(next, share - count).taken, Drain(next, share - count).rest)
  {
    var chunk := entry.chunks[0];
    WithoutFirst(entry);
    if count == |chunk.bytes| - entry.offset {
      assert chunk.bytes[entry.offset..entry.offset + count] == chunk.bytes[entry.offset..];
    } else {
      assert Drain(entry.(offset := entry.offset + count), 0).taken == [];
    }
  }

  class ProcessHost {
    var programs: map<int, Program>
    var bytes: nat
    var chunks: nat
    var posted: bool
    var closed: bool
    var deliveries: nat   // deliveries waiting in the queue of the interface thread
    var next: nat

    /** What holds between any two steps of any threads, until the host closes. */
    ghost predicate Valid()
      reads this
    {
      && (!closed ==>
            && Consistent(programs, next, bytes, chunks)
            && (posted ==> deliveries > 0)
            && (!posted ==> AllSettled(programs)))
    }

    constructor ()
      ensures Valid() && programs == map[] && !closed && !posted && deliveries == 0
    {
      programs, bytes, chunks, posted, closed, deliveries, next := map[], 0, 0, false, false, 0, 0;
    }

    /** The wake flag and its delivery, set together under the lock of the mailbox. */
    method Post()
      modifies this`posted, this`deliveries
      ensures posted && deliveries == old(deliveries) + (if old(posted) then 0 else 1)
    {
      if posted {
        return;
      }
      posted := true;
      deliveries := deliveries + 1;
    }

    method Start(owner: string, binaryOutput: bool, pullOutput: bool, started: bool) returns (identity: int)
      requires Valid() && !closed
      modifies this
      ensures Valid() && !closed && identity !in old(programs)
      ensures programs == old(programs)[identity := Launched(owner, binaryOutput, pullOutput, started)]
      ensures programs[identity].pending.None? && (programs[identity].running.Some? <==> started)
      ensures started ==>
                var running := programs[identity].running.value;
                && running.owner == owner && running.pullOutput == pullOutput
                    && (running.binaryOutput <==> binaryOutput || pullOutput)
                && running.reader.None? && !running.retiring && !running.stopping
      ensures posted == old(posted) && deliveries == old(deliveries)
    {
      StartKeeps(programs, next, bytes, chunks, owner, binaryOutput, pullOutput, started);
      next := next + 1;
      identity := next;
      programs := programs[identity := Launched(owner, binaryOutput, pullOutput, started)];
    }

    /** The wait condition, whose subtractions are of unsigned numbers and never go below zero. */
    method Waits(identity: int, stream: Stream, length: nat) returns (room: bool)
      requires Consistent(programs, next, bytes, chunks) && identity in programs
      ensures room <==> Room(programs, bytes, chunks, identity, stream, length)
    {
      assert Sound(programs[identity]);
      var entry := Entry(programs[identity]);
      var merged := Merges(entry, stream);
      var free: nat := MAXIMUM_PENDING_BYTES - bytes;
      room := length <= free && (merged || chunks < MAXIMUM_PENDING_CHUNKS);
      if room && programs[identity].past.pull {
        var pullFree: nat := MAXIMUM_PULL_BYTES - entry.bytes;
        room := length <= pullFree && (merged || |entry.chunks| < MAXIMUM_PULL_CHUNKS);
      }
    }

    /** One round of the output callback of a producer: it waits at its offset, or appends and moves on. */
    method Output(identity: int, stream: Stream, written: seq<Byte>, offset: nat) returns (reached: nat)
      requires Valid() && identity in programs && offset < |written| && !programs[identity].past.exited
      modifies this
      ensures Valid() && closed == old(closed)
      ensures old(closed) ==> reached == |written| && programs == old(programs)
      ensures !old(closed) ==>
        var length := RoundLength(old(programs[identity]).past.pull, |written| - offset);
        if Room(old(programs), old(bytes), old(chunks), identity, stream, length)
        then
          && reached == offset + length && posted
          && programs == old(programs)[identity := Append(old(programs)[identity], stream, written[offset..reached])]
        else reached == offset && programs == old(programs) && posted == old(posted)
      ensures !old(closed) ==>
        var before, after := old(programs)[identity].past, programs[identity].past;
        after.appended == before.appended + Tag(stream, written[offset..reached])
            && after == before.(appended := after.appended)
    {
      hide Consistent, Sound, Append, Room;
      if closed {
        return |written|;
      }
      var length := RoundLength(programs[identity].past.pull, |written| - offset);
      var room := Waits(identity, stream, length);
      if !room {
        return offset;
      }
      reached := offset + length;
      var piece := written[offset..reached];
      Put(identity, stream, piece);
      Post();
    }

    /** The piece joins what the mailbox holds of the program. */
    method Put(identity: int, stream: Stream, piece: seq<Byte>)
      requires Consistent(programs, next, bytes, chunks) && identity in programs
      requires piece != [] && !programs[identity].past.exited
          && Room(programs, bytes, chunks, identity, stream, |piece|)
      modifies this`programs, this`bytes, this`chunks
      ensures Consistent(programs, next, bytes, chunks)
      ensures programs == old(programs)[identity := Append(old(programs)[identity], stream, piece)]
      ensures var before, after := old(programs)[identity].past, programs[identity].past;
        after == before.(appended := before.appended + Tag(stream, piece))
    {
      OutputKeeps(programs, next, bytes, chunks, identity, stream, piece);
      hide Consistent, Appended;
      if !Merges(Entry(programs[identity]), stream) {
        chunks := chunks + 1;
      }
      bytes := bytes + |piece|;
      programs := programs[identity := Append(programs[identity], stream, piece)];
    }

    /** The exit callback of a producer. */
    method Exited(identity: int, end: End)
      requires Valid() && identity in programs && !programs[identity].past.exited
      modifies this
      ensures Valid() && closed == old(closed)
      ensures programs == if old(closed) then old(programs)
          else old(programs)[identity := Exit(old(programs)[identity], end)]
      ensures !closed ==> posted
      ensures !closed ==>
                EndOf(programs[identity]) == Some(end)
                  && programs[identity].past == old(programs)[identity].past.(exited := true)
    {
      if closed {
        return;
      }
      ExitKeeps(programs, next, bytes, chunks, identity, end);
      programs := programs[identity := Exit(programs[identity], end)];
      Post();
    }

    /** The inner loop of deliver: chunks leave the front of an entry, and the counters with them. */
    method TakeFrom(entry: Pending, share: nat) returns (taken: seq<Chunk>, rest: Pending)
      requires Kept(entry) && entry.bytes <= bytes && |entry.chunks| <= chunks
      modifies this`bytes, this`chunks
      ensures Drained(taken, rest) == Drain(entry, share)
      ensures rest.bytes <= entry.bytes && |rest.chunks| <= |entry.chunks|
      ensures bytes == old(bytes) - entry.bytes + rest.bytes && chunks == old(chunks) - |entry.chunks| + |rest.chunks|
    {
      hide Drain, Remainder;
      taken, rest := [], entry;
      var remaining := share;
      assert [] + Drain(entry, share).taken == Drain(entry, share).taken;
      while rest.chunks != [] && remaining > 0
        invariant 0 <= remaining && Kept(rest) && rest.bytes <= entry.bytes && |rest.chunks| <= |entry.chunks|
        invariant bytes == old(bytes) - entry.bytes + rest.bytes
            && chunks == old(chunks) - |entry.chunks| + |rest.chunks|
        invariant taken + Drain(rest, remaining).taken == Drain(entry, share).taken
        invariant Drain(rest, remaining).rest == Drain(entry, share).rest
        decreases remaining
      {
        var chunk := rest.chunks[0];
        var left := |chunk.bytes| - rest.offset;
        var count := if remaining < left then remaining else left;
        var piece := Chunk(chunk.stream, chunk.bytes[rest.offset..rest.offset + count]);
        DrainStep(rest, remaining, count);
        Associative(taken, [piece],
            Drain(if count == left then rest.(chunks := rest.chunks[1..], bytes := |Flat(rest.chunks[1..])|,
            offset := 0) else rest.(offset := rest.offset + count), remaining - count).taken);
        WithoutFirst(rest);
        taken := taken + [piece];
        remaining := remaining - count;
        if count == left {
          bytes := bytes - |chunk.bytes|;
          rest := rest.(chunks := rest.chunks[1..], bytes := rest.bytes - |chunk.bytes|, offset := 0);
          chunks := chunks - 1;
        } else {
          rest := rest.(offset := rest.offset + count);
        }
      }
      DrainEnds(rest, remaining);
      assert taken + [] == taken;
    }

    /** One round of the outer loop of deliver, with the part of its second loop that hands over what the round took. */
    method DeliverOne(id: int)
      requires Consistent(programs, next, bytes, chunks) && id in programs
      requires programs[id].pending.Some? ==> Kept(programs[id].pending.value)
      modifies this`programs, this`bytes, this`chunks
      ensures programs == old(programs)[id := ProcessProgram.Deliver(old(programs)[id])]
      ensures Consistent(programs, next, bytes, chunks) && Settled(programs[id])
    {
      DeliverKeeps(programs, next, bytes, chunks, id);
      var program := programs[id];
      if program.pending.None? || Skipped(program) {
        assert programs[id := program] == programs;
        return;
      }
      var entry := program.pending.value;
      var taken, rest := TakeFrom(entry, Share(program));
      DrainedIffEmpty(entry, Share(program));
      var exit := if rest.chunks == [] then entry.exit else None;
      var handed := HandOver(program.running, taken, exit);
      programs := programs[id := Program(if rest.chunks == [] then None else Some(rest), handed.running,
                                         program.past.(taken := program.past.taken + Flat(taken),
                                             events := program.past.events + handed.events))];
    }

    /** Everything that arrived reaches its owner, and the wake flag comes down. */
    method Deliver()
      requires !closed && Consistent(programs, next, bytes, chunks)
      modifies this
      ensures Valid() && !closed && !posted
      ensures Delivered(old(programs), programs)
      ensures deliveries == old(deliveries) && next == old(next)
    {
      ConsistentKept(programs, next, bytes, chunks);
      for id := 1 to next + 1
        invariant DeliveredBelow(old(programs), programs, id)
        invariant Consistent(programs, next, bytes, chunks)
        invariant !closed && deliveries == old(deliveries) && next == old(next)
      {
        ghost var before := programs;
        if id in programs {
          DeliverOne(id);
        }
        DeliveredNext(old(programs), before, programs, id);
      }
      posted := false;
    }

    /** A delivery that waited in the queue of the interface thread. */
    method Delivery()
      requires Valid() && deliveries > 0
      modifies this
      ensures Valid() && deliveries == old(deliveries) - 1 && closed == old(closed)
      ensures !closed ==> Delivered(old(programs), programs) && !posted
      ensures closed ==> programs == old(programs)
    {
      if !closed {
        Deliver();
      }
      deliveries := deliveries - 1;
    }

    method Read(plugin: string, identity: int, request: int, maximum: nat) returns (accepted: bool)
      requires Valid() && !closed
      modifies this
      ensures Valid() && !closed
      ensures accepted ==>
                && identity in old(programs) && old(programs)[identity].running.Some?
                && var running := old(programs)[identity].running.value;
                   running.owner == plugin && running.pullOutput && !running.retiring && running.reader.None?
      ensures !accepted && 1 <= maximum <= MAXIMUM_READ_BYTES && identity in old(programs)
              && old(programs)[identity].running.Some? && old(programs)[identity].running.value.owner == plugin ==>
                var running := old(programs)[identity].running.value;
                !running.pullOutput || running.retiring || running.reader.Some?
      ensures accepted <==>
                1 <= maximum <= MAXIMUM_READ_BYTES && identity in old(programs)
                  && Owned(old(programs)[identity], plugin) && Readable(old(programs)[identity])
      ensures accepted ==>
                !posted
                  && Delivered(old(programs)[identity := ProcessProgram.Read(old(programs)[identity],
                     Waiting(request, maximum))], programs)
      ensures accepted ==>
                && (old(programs)[identity].pending.Some? ==> Kept(old(programs)[identity].pending.value))
                && (programs[identity].pending.Some? ==> Kept(programs[identity].pending.value))
                && ReadOrWaiting(old(programs)[identity], programs[identity], Waiting(request, maximum))
      ensures !accepted ==> programs == old(programs) && posted == old(posted)
    {
      if !(1 <= maximum <= MAXIMUM_READ_BYTES) || identity !in programs || !Owned(programs[identity], plugin)
          || !Readable(programs[identity]) {
        return false;
      }
      ReadKeeps(programs, next, bytes, chunks, identity, Waiting(request, maximum));
      ReadIsAnswered(programs[identity], Waiting(request, maximum));
      programs := programs[identity := ProcessProgram.Read(programs[identity], Waiting(request, maximum))];
      Deliver();
      return true;
    }

    method Stop(plugin: string, identity: int) returns (known: bool)
      requires Valid() && !closed
      modifies this
      ensures Valid() && !closed
      ensures known <==> identity in old(programs) && Owned(old(programs)[identity], plugin)
      ensures known <==>
                && identity in old(programs) && old(programs)[identity].running.Some?
                && old(programs)[identity].running.value.owner == plugin
      ensures known ==>
                !posted
                  && Delivered(old(programs)[identity := ProcessProgram.Stop(old(programs)[identity])], programs)
      ensures known && old(programs)[identity].running.value.pullOutput ==>
                GivenUp(old(programs)[identity], programs[identity])
      ensures known && !old(programs)[identity].running.value.pullOutput ==>
                && (old(programs)[identity].pending.Some? ==> Kept(old(programs)[identity].pending.value))
                && programs[identity] == ProcessProgram.Deliver(old(programs)[identity])
      ensures !known ==> programs == old(programs) && posted == old(posted)
    {
      if identity !in programs || !Owned(programs[identity], plugin) {
        return false;
      }
      StopKeeps(programs, next, bytes, chunks, identity);
      ConsistentKept(programs, next, bytes, chunks);
      StopGivesUp(programs[identity]);
      programs := programs[identity := ProcessProgram.Stop(programs[identity])];
      Deliver();
      return true;
    }

    method Forget(plugin: string)
      requires Valid() && !closed
      modifies this
      ensures Valid() && !closed && !posted
      ensures Delivered(ForgetOwned(old(programs), plugin), programs)
      ensures programs.Keys == old(programs).Keys
      ensures forall id | id in programs && old(programs)[id].running.Some?
                && old(programs)[id].running.value.owner == plugin :: Retired(old(programs)[id], programs[id])
      ensures forall id | id in programs && (old(programs)[id].running.Some? ==>
                old(programs)[id].running.value.owner != plugin) ::
                  && (old(programs)[id].pending.Some? ==> Kept(old(programs)[id].pending.value))
                  && programs[id] == ProcessProgram.Deliver(old(programs)[id])
    {
      for id := 1 to next + 1
        invariant programs.Keys == old(programs).Keys
        invariant forall other | other in programs :: programs[other] == if other >= id
            || !Owned(old(programs)[other], plugin) then old(programs)[other]
            else ProcessProgram.Forget(old(programs)[other])
        invariant Consistent(programs, next, bytes, chunks) && !closed && next == old(next)
      {
        if id in programs && Owned(programs[id], plugin) {
          ForgetKeeps(programs, next, bytes, chunks, id);
          programs := programs[id := ProcessProgram.Forget(programs[id])];
        }
      }
      assert programs == ForgetOwned(old(programs), plugin);
      Deliver();
      forall id | id in programs && Owned(old(programs)[id], plugin)
        ensures Retired(old(programs)[id], programs[id])
      {
        ForgetRetires(old(programs)[id]);
      }
      OthersDelivered(old(programs), programs, plugin);
    }

    /** The end of the host: what waits in the mailbox is dropped, and every waiting producer returns. */
    method Close()
      requires Valid()
      modifies this
      ensures Valid() && closed && programs.Keys == old(programs).Keys
      ensures forall id | id in programs :: programs[id] == old(programs)[id].(pending := None)
    {
      closed := true;
      programs := map id | id in programs :: programs[id].(pending := None);
    }
  }
}
