/** src/scripting/ProcessHost.cpp: what a plugin receives of the chunks taken for its program. */
module ProcessEvents {
  import opened Foundation
  import opened ProcessMailbox
  import opened ProcessText
  import Base64

  /** One chunk of an event: text of a program read as text, Base64 of a program read as bytes. */
  datatype Piece = Text(stream: Stream, text: seq<Byte>) | Binary(stream: Stream, content: string)

  datatype Outcome = Outcome(code: int, failed: bool)

  /** What crosses to the plugin: output and exit notices, and the replies to its reads. */
  datatype Event =
    | OutputNotice(pieces: seq<Piece>)
    | ExitNotice(outcome: Outcome)
    | Reply(request: int, pieces: seq<Piece>, ended: Option<Outcome>)
    | Withdrawn(request: int)

  function OutcomeOf(end: End): Outcome {
    Outcome(end.code, end.crashed || end.code != 0)
  }

  // ----- What the events carry ---------------------------------------------------------------------------

  function PiecesIn(event: Event): seq<Piece> {
    match event
    case OutputNotice(pieces) => pieces
    case Reply(_, pieces, _) => pieces
    case _ => []
  }

  function PiecesOf(events: seq<Event>): seq<Piece> {
    if events == [] then [] else PiecesIn(events[0]) + PiecesOf(events[1..])
  }

  /** The text of one stream, in the order it arrived. */
  function TextOf(pieces: seq<Piece>, stream: Stream): seq<Byte> {
    if pieces == [] then []
    else (if pieces[0].Text? && pieces[0].stream == stream then pieces[0].text else []) + TextOf(pieces[1..], stream)
  }

  /** The bytes a Base64 content stands for. */
  ghost function Content(content: string): seq<Byte> {
    if exists bytes :: Base64.Encoded(bytes) == content then var bytes :| Base64.Encoded(bytes) == content; bytes
        else []
  }

  lemma ContentOfEncoded(bytes: seq<Byte>)
    ensures Content(Base64.Encoded(bytes)) == bytes
  {
    Base64.EncodedInjective(Content(Base64.Encoded(bytes)), bytes);
  }

  /** The bytes of all streams, in the order they arrived. */
  ghost function BytesOf(pieces: seq<Piece>): seq<Written> {
    if pieces == [] then []
    else (if pieces[0].Binary? then Tag(pieces[0].stream, Content(pieces[0].content)) else []) + BytesOf(pieces[1..])
  }

  lemma {:induction false} PiecesOfConcat(left: seq<Event>, right: seq<Event>)
    ensures PiecesOf(left + right) == PiecesOf(left) + PiecesOf(right)
  {
    if left == [] {
      assert left + right == right;
    } else {
      assert (left + right)[1..] == left[1..] + right;
      PiecesOfConcat(left[1..], right);
      Associative(PiecesIn(left[0]), PiecesOf(left[1..]), PiecesOf(right));
    }
  }

  lemma {:induction false} TextOfConcat(left: seq<Piece>, right: seq<Piece>, stream: Stream)
    ensures TextOf(left + right, stream) == TextOf(left, stream) + TextOf(right, stream)
  {
    if left == [] {
      assert left + right == right;
    } else {
      assert (left + right)[1..] == left[1..] + right;
      TextOfConcat(left[1..], right, stream);
      Associative(if left[0].Text? && left[0].stream == stream then left[0].text
          else [], TextOf(left[1..], stream), TextOf(right, stream));
    }
  }

  lemma {:induction false} BytesOfConcat(left: seq<Piece>, right: seq<Piece>)
    ensures BytesOf(left + right) == BytesOf(left) + BytesOf(right)
  {
    if left == [] {
      assert left + right == right;
    } else {
      assert (left + right)[1..] == left[1..] + right;
      BytesOfConcat(left[1..], right);
      Associative(if left[0].Binary? then Tag(left[0].stream, Content(left[0].content))
          else [], BytesOf(left[1..]), BytesOf(right));
    }
  }

  // ----- One stream of what was written --------------------------------------------------------------------

  function OnStream(written: seq<Written>, stream: Stream): seq<Byte> {
    if written == [] then []
    else (if written[0].stream == stream then [written[0].byte] else []) + OnStream(written[1..], stream)
  }

  lemma {:induction false} OnStreamConcat(left: seq<Written>, right: seq<Written>, stream: Stream)
    ensures OnStream(left + right, stream) == OnStream(left, stream) + OnStream(right, stream)
  {
    if left == [] {
      assert left + right == right;
    } else {
      assert (left + right)[1..] == left[1..] + right;
      OnStreamConcat(left[1..], right, stream);
      Associative(if left[0].stream == stream then [left[0].byte]
          else [], OnStream(left[1..], stream), OnStream(right, stream));
    }
  }

  lemma {:induction false} OnStreamOfTag(tagged: Stream, bytes: seq<Byte>, stream: Stream)
    ensures OnStream(Tag(tagged, bytes), stream) == if tagged == stream then bytes else []
  {
    if bytes != [] {
      assert Tag(tagged, bytes)[1..] == Tag(tagged, bytes[1..]);
      OnStreamOfTag(tagged, bytes[1..], stream);
      assert [bytes[0]] + bytes[1..] == bytes;
    }
  }

  // ----- Rendering as text ---------------------------------------------------------------------------------

  /** What the two decoders of a program hold back, output and error each on its own. */
  datatype Decoders = Decoders(output: seq<Byte>, error: seq<Byte>) {
    function Held(stream: Stream): seq<Byte> {
      if stream == Output then output else error
    }

    function With(stream: Stream, held: seq<Byte>): Decoders {
      if stream == Output then this.(output := held) else this.(error := held)
    }
  }

  ghost predicate BothUnfinished(decoders: Decoders) {
    Unfinished(decoders.output) && Unfinished(decoders.error)
  }

  datatype Rendered = Rendered(pieces: seq<Piece>, decoders: Decoders)

  /** A chunk whose bytes complete no character is not sent. */
  function TextPieces(stream: Stream, text: seq<Byte>): seq<Piece> {
    if text == [] then [] else [Text(stream, text)]
  }

  function RenderText(decoders: Decoders, chunks: seq<Chunk>): Rendered
    decreases |chunks|
  {
    if chunks == [] then Rendered([], decoders)
    else
      var stream := chunks[0].stream;
      var decoded := Decode(decoders.Held(stream) + chunks[0].bytes);
      var rest := RenderText(decoders.With(stream, decoded.held), chunks[1..]);
      Rendered(TextPieces(stream, decoded.text) + rest.pieces, rest.decoders)
  }

  lemma TextOfPieces(stream: Stream, text: seq<Byte>, other: Stream)
    ensures TextOf(TextPieces(stream, text), other) == if stream == other then text else []
  {
    if text != [] {
      assert TextPieces(stream, text)[1..] == [];
    }
  }

  /** However the chunks cut and mix the streams, the text of a stream is the decoding of its own bytes. */
  lemma {:induction false} RenderTextDecodes(decoders: Decoders, chunks: seq<Chunk>, stream: Stream)
    requires BothUnfinished(decoders)
    ensures var rendered, decoded := RenderText(decoders, chunks),
        Decode(decoders.Held(stream) + OnStream(Flat(chunks), stream));
      && BothUnfinished(rendered.decoders)
      && TextOf(rendered.pieces, stream) == decoded.text && rendered.decoders.Held(stream) == decoded.held
    decreases |chunks|
  {
    if chunks == [] {
      assert decoders.Held(stream) + [] == decoders.Held(stream);
      WaitsIffUnfinished(decoders.Held(stream));
    } else {
      var tagged, bytes := chunks[0].stream, chunks[0].bytes;
      var first := decoders.Held(tagged) + bytes;
      var decoded := Decode(first);
      DecodeAnswers(first);
      var next := decoders.With(tagged, decoded.held);
      RenderTextDecodes(next, chunks[1..], stream);
      var later := OnStream(Flat(chunks[1..]), stream);
      OnStreamConcat(Tag(tagged, bytes), Flat(chunks[1..]), stream);
      OnStreamOfTag(tagged, bytes, stream);
      TextOfConcat(TextPieces(tagged, decoded.text), RenderText(next, chunks[1..]).pieces, stream);
      TextOfPieces(tagged, decoded.text, stream);
      if tagged == stream {
        DecodeContinues(first, later);
        Associative(decoders.Held(stream), bytes, later);
      } else {
        assert [] + later == later;
        assert [] + TextOf(RenderText(next, chunks[1..]).pieces, stream) ==
            TextOf(RenderText(next, chunks[1..]).pieces, stream);
      }
    }
  }

  /** The end of a program finishes both decoders, output first. */
  function FinishText(decoders: Decoders): seq<Piece> {
    TextPieces(Output, Ending(decoders.output)) + TextPieces(Error, Ending(decoders.error))
  }

  lemma FinishTextEnds(decoders: Decoders, stream: Stream)
    ensures TextOf(FinishText(decoders), stream) == Ending(decoders.Held(stream))
  {
    TextOfConcat(TextPieces(Output, Ending(decoders.output)), TextPieces(Error, Ending(decoders.error)), stream);
    TextOfPieces(Output, Ending(decoders.output), stream);
    TextOfPieces(Error, Ending(decoders.error), stream);
  }

  // ----- Rendering as bytes --------------------------------------------------------------------------------

  function RenderBinary(chunks: seq<Chunk>): seq<Piece> {
    if chunks == [] then [] else [Binary(chunks[0].stream, Base64.Encoded(chunks[0].bytes))] + RenderBinary(chunks[1..])
  }

  lemma {:induction false} RenderBinaryCarries(chunks: seq<Chunk>)
    ensures BytesOf(RenderBinary(chunks)) == Flat(chunks)
    ensures |RenderBinary(chunks)| == |chunks|
  {
    if chunks != [] {
      RenderBinaryCarries(chunks[1..]);
      ContentOfEncoded(chunks[0].bytes);
      assert RenderBinary(chunks)[1..] == RenderBinary(chunks[1..]);
    }
  }

  // ----- Replies and ends ----------------------------------------------------------------------------------

  /** What one reply tells its reader: how many bytes, whether the program ended, whether the read was withdrawn. */
  datatype Answer = Answer(request: int, size: nat, ended: bool, withdrawn: bool)

  ghost function AnswersIn(event: Event): seq<Answer> {
    match event
    case Reply(request, pieces, ended) => [Answer(request, |BytesOf(pieces)|, ended.Some?, false)]
    case Withdrawn(request) => [Answer(request, 0, false, true)]
    case _ => []
  }

  ghost function AnswersOf(events: seq<Event>): seq<Answer> {
    if events == [] then [] else AnswersIn(events[0]) + AnswersOf(events[1..])
  }

  lemma {:induction false} AnswersOfConcat(left: seq<Event>, right: seq<Event>)
    ensures AnswersOf(left + right) == AnswersOf(left) + AnswersOf(right)
  {
    if left == [] {
      assert left + right == right;
    } else {
      assert (left + right)[1..] == left[1..] + right;
      AnswersOfConcat(left[1..], right);
      Associative(AnswersIn(left[0]), AnswersOf(left[1..]), AnswersOf(right));
    }
  }

  /** Whether an event tells its plugin that the program ended. */
  predicate TellsEnd(event: Event) {
    event.ExitNotice? || (event.Reply? && event.ended.Some?)
  }

  predicate EndTold(events: seq<Event>) {
    exists k | 0 <= k < |events| :: TellsEnd(events[k])
  }
}
