/**
 * src/scripting/ProcessHost.h and ProcessHost.cpp: what the mailbox keeps for one program, and the two operations on
 * it.
 */
module ProcessMailbox {
  import opened Foundation

  datatype Stream = Output | Error

  /** One byte as its program wrote it, with the stream it went to. */
  datatype Written = Written(stream: Stream, byte: Byte)

  datatype Chunk = Chunk(stream: Stream, bytes: seq<Byte>)

  datatype End = End(code: int, crashed: bool)

  /** ProcessHost::Pending: chunks not taken yet, the first of them already read up to `offset`. */
  datatype Pending = Pending(chunks: seq<Chunk>, bytes: nat, offset: nat, exit: Option<End>)

  const MAXIMUM_PENDING_BYTES: nat := 0x40_0000
  const MAXIMUM_PENDING_CHUNKS: nat := 4096
  const MAXIMUM_PULL_BYTES: nat := 0x10_0000
  const MAXIMUM_PULL_CHUNKS: nat := 1024
  const MAXIMUM_READ_BYTES: nat := 65536

  const Empty: Pending := Pending([], 0, 0, None)

  // ----- Chunks as the bytes they hold ---------------------------------------------------------------

  function Tag(stream: Stream, bytes: seq<Byte>): (written: seq<Written>)
    ensures |written| == |bytes|
    ensures forall k | 0 <= k < |bytes| :: written[k] == Written(stream, bytes[k])
  {
    seq(|bytes|, k requires 0 <= k < |bytes| => Written(stream, bytes[k]))
  }

  function Flat(chunks: seq<Chunk>): seq<Written> {
    if chunks == [] then [] else Tag(chunks[0].stream, chunks[0].bytes) + Flat(chunks[1..])
  }

  lemma TagConcat(stream: Stream, left: seq<Byte>, right: seq<Byte>)
    ensures Tag(stream, left + right) == Tag(stream, left) + Tag(stream, right)
  {
  }

  lemma {:induction false} FlatConcat(left: seq<Chunk>, right: seq<Chunk>)
    ensures Flat(left + right) == Flat(left) + Flat(right)
  {
    if left == [] {
      assert left + right == right;
    } else {
      assert (left + right)[1..] == left[1..] + right;
      FlatConcat(left[1..], right);
      Associative(Tag(left[0].stream, left[0].bytes), Flat(left[1..]), Flat(right));
    }
  }

  lemma FlatOne(chunk: Chunk)
    ensures Flat([chunk]) == Tag(chunk.stream, chunk.bytes)
  {
    assert [chunk][1..] == [];
  }

  /** No chunk is empty, the counter is the sum of the whole chunks, and the offset lies inside the first of them. */
  predicate Kept(pending: Pending) {
    && (forall k | 0 <= k < |pending.chunks| :: pending.chunks[k].bytes != [])
    && pending.bytes == |Flat(pending.chunks)|
    && (if pending.chunks == [] then pending.offset == 0 else pending.offset < |pending.chunks[0].bytes|)
  }

  /** What a program wrote and nobody has taken yet. */
  function Remainder(pending: Pending): seq<Written>
    requires Kept(pending)
  {
    Flat(pending.chunks)[if pending.offset <= |Flat(pending.chunks)| then pending.offset else 0..]
  }

  lemma RemainderFirst(pending: Pending)
    requires Kept(pending) && pending.chunks != []
    ensures pending.offset <= |Flat(pending.chunks)|
    ensures Remainder(pending) ==
        Tag(pending.chunks[0].stream, pending.chunks[0].bytes[pending.offset..]) + Flat(pending.chunks[1..])
  {
  }

  // ----- The producer ------------------------------------------------------------------------------------

  /** Whether the next bytes of a stream join the last chunk. */
  predicate Merges(pending: Pending, stream: Stream) {
    pending.chunks != [] && pending.chunks[|pending.chunks| - 1].stream == stream
  }

  function Appended(pending: Pending, stream: Stream, bytes: seq<Byte>): Pending {
    var count := |pending.chunks|;
    var chunks := if Merges(pending, stream)
                  then pending.chunks[..count - 1] + [Chunk(stream, pending.chunks[count - 1].bytes + bytes)]
                  else pending.chunks + [Chunk(stream, bytes)];
    pending.(chunks := chunks, bytes := pending.bytes + |bytes|)
  }

  /** Whether or not the bytes join the last chunk, they come after everything the mailbox holds. */
  lemma AppendedLast(pending: Pending, stream: Stream, bytes: seq<Byte>)
    requires Kept(pending) && bytes != []
    ensures Kept(Appended(pending, stream, bytes))
    ensures Remainder(Appended(pending, stream, bytes)) == Remainder(pending) + Tag(stream, bytes)
    ensures Flat(Appended(pending, stream, bytes).chunks) == Flat(pending.chunks) + Tag(stream, bytes)
  {
    var count := |pending.chunks|;
    var after := Appended(pending, stream, bytes);
    if Merges(pending, stream) {
      var front, last := pending.chunks[..count - 1], pending.chunks[count - 1];
      var longer := Chunk(stream, last.bytes + bytes);
      assert pending.chunks == front + [last];
      FlatConcat(front, [last]);
      FlatConcat(front, [longer]);
      FlatOne(last);
      FlatOne(longer);
      TagConcat(stream, last.bytes, bytes);
      Associative(Flat(front), Tag(stream, last.bytes), Tag(stream, bytes));
    } else {
      FlatConcat(pending.chunks, [Chunk(stream, bytes)]);
      FlatOne(Chunk(stream, bytes));
    }
    assert Flat(after.chunks) == Flat(pending.chunks) + Tag(stream, bytes);
    if pending.chunks != [] {
      RemainderFirst(pending);
    }
    DropOfConcat(Flat(pending.chunks), Tag(stream, bytes), pending.offset);
  }

  /** Bytes of the stream that was written last join its chunk, and others make a chunk of their own. */
  lemma ChunksOfStreams(pending: Pending, stream: Stream, bytes: seq<Byte>, other: Stream, more: seq<Byte>)
    ensures
      var once := Appended(pending, stream, bytes);
      |Appended(once, other, more).chunks| == |once.chunks| + if other == stream then 0 else 1
    ensures pending.chunks == [] ==> |Appended(pending, stream, bytes).chunks| == 1
  {
  }

  lemma DropOfConcat<T>(left: seq<T>, right: seq<T>, count: nat)
    requires count <= |left|
    ensures (left + right)[count..] == left[count..] + right
  {
  }

  // ----- The reader ----------------------------------------------------------------------------------------

  /** What a visit of the mailbox takes and what it leaves. */
  datatype Drained = Drained(taken: seq<Chunk>, rest: Pending)

  /** Takes up to `remaining` bytes from the front. */
  function Drain(source: Pending, remaining: nat): Drained
    requires Kept(source)
    decreases |source.chunks|
  {
    if source.chunks == [] || remaining == 0 then Drained([], source)
    else
      var chunk := source.chunks[0];
      var left := |chunk.bytes| - source.offset;
      if remaining < left then
        Drained([Chunk(chunk.stream, chunk.bytes[source.offset..source.offset + remaining])],
            source.(offset := source.offset + remaining))
      else
        WithoutFirst(source);
        var later := Drain(source.(chunks := source.chunks[1..], bytes := source.bytes - |chunk.bytes|, offset := 0),
            remaining - left);
        Drained([Chunk(chunk.stream, chunk.bytes[source.offset..])] + later.taken, later.rest)
  }

  lemma WithoutFirst(source: Pending)
    requires Kept(source) && source.chunks != []
    ensures source.bytes >= |source.chunks[0].bytes|
    ensures Kept(source.(chunks := source.chunks[1..], bytes := source.bytes - |source.chunks[0].bytes|, offset := 0))
  {
  }

  /** Nothing is lost, repeated or reordered, and exactly as much is taken as was asked for or is there. */
  ghost predicate Conserved(source: Pending, remaining: nat, drained: Drained)
    requires Kept(source)
  {
    && Kept(drained.rest) && drained.rest.exit == source.exit
    && Flat(drained.taken) + Remainder(drained.rest) == Remainder(source)
    && |Flat(drained.taken)| == (if remaining <= |Remainder(source)| then remaining else |Remainder(source)|)
  }

  /** A front chunk read in two pieces is the chunk. */
  lemma FrontInTwo(source: Pending, count: nat)
    requires Kept(source) && source.chunks != [] && source.offset + count < |source.chunks[0].bytes|
    ensures var chunk := source.chunks[0];
      Conserved(source, count, Drained([Chunk(chunk.stream, chunk.bytes[source.offset..source.offset + count])],
          source.(offset := source.offset + count)))
  {
    var chunk, rest := source.chunks[0], source.(offset := source.offset + count);
    var head, tail := chunk.bytes[source.offset..source.offset + count], chunk.bytes[source.offset + count..];
    RemainderFirst(source);
    RemainderFirst(rest);
    assert chunk.bytes[source.offset..] == head + tail;
    TagConcat(chunk.stream, head, tail);
    FlatOne(Chunk(chunk.stream, head));
    Associative(Tag(chunk.stream, head), Tag(chunk.stream, tail), Flat(source.chunks[1..]));
  }

  /** A front chunk taken whole comes before what is taken behind it. */
  lemma FrontWhole(first: Chunk, taken: seq<Chunk>, left: seq<Written>)
    ensures Flat([first] + taken) + left == Tag(first.stream, first.bytes) + (Flat(taken) + left)
  {
    FlatConcat([first], taken);
    FlatOne(first);
    Associative(Tag(first.stream, first.bytes), Flat(taken), left);
  }

  lemma {:induction false} DrainConserves(source: Pending, remaining: nat)
    requires Kept(source)
    ensures Conserved(source, remaining, Drain(source, remaining))
    decreases |source.chunks|
  {
    if source.chunks == [] || remaining == 0 {
      assert [] + Remainder(source) == Remainder(source);
    } else {
      var chunk := source.chunks[0];
      var left := |chunk.bytes| - source.offset;
      if remaining < left {
        FrontInTwo(source, remaining);
      } else {
        WithoutFirst(source);
        var rest := source.(chunks := source.chunks[1..], bytes := source.bytes - |chunk.bytes|, offset := 0);
        DrainConserves(rest, remaining - left);
        var later := Drain(rest, remaining - left);
        RemainderFirst(source);
        FrontWhole(Chunk(chunk.stream, chunk.bytes[source.offset..]), later.taken, Remainder(later.rest));
      }
    }
  }

  /** Asking for as much as the counter says takes everything, even when the front was partly read. */
  lemma DrainWhole(source: Pending)
    requires Kept(source)
    ensures Drain(source, source.bytes).rest.chunks == []
    ensures Flat(Drain(source, source.bytes).taken) == Remainder(source)
  {
    DrainConserves(source, source.bytes);
    var rest := Drain(source, source.bytes).rest;
    if rest.chunks != [] {
      RemainderFirst(rest);
    }
  }

  /** The end of a program may leave with the visit that takes the last byte, and with no earlier one. */
  lemma DrainedIffEmpty(source: Pending, remaining: nat)
    requires Kept(source)
    ensures Drain(source, remaining).rest.chunks == [] <==> Flat(Drain(source, remaining).taken) == Remainder(source)
    ensures Drain(source, remaining).rest.chunks == [] ==>
        Drain(source, remaining).rest == source.(chunks := [], bytes := 0, offset := 0)
  {
    DrainConserves(source, remaining);
    var drained := Drain(source, remaining);
    if drained.rest.chunks != [] {
      RemainderFirst(drained.rest);
    }
    assert |Remainder(source)| == |Flat(drained.taken)| + |Remainder(drained.rest)|;
  }
}
