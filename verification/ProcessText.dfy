/**
 * src/process/ProcessText.cpp: the incremental decoder, proved against the substitution of maximal subparts of
 * section 3.9 of the Unicode Standard.
 */
module ProcessText {
  import opened Foundation
  import opened Utf8

  // ----- One look at the front of what is pending ---------------------------------------------------

  /** How many bytes from the front agree with one character, counting on from `matched`. */
  function MatchedFrom(bytes: seq<Byte>, matched: nat): (total: nat)
    requires 1 <= matched <= |bytes| && Opens(bytes[..matched])
    ensures matched <= total <= |bytes| && Opens(bytes[..total])
    ensures total < |bytes| && total < SequenceLength(bytes[0]) ==> !Follows(bytes[0], total, bytes[total])
    decreases |bytes| - matched
  {
    if matched < SequenceLength(bytes[0]) && matched < |bytes| && Follows(bytes[0], matched, bytes[matched]) then
      assert Opens(bytes[..matched + 1]);
      MatchedFrom(bytes, matched + 1)
    else matched
  }

  function Matched(bytes: seq<Byte>): (total: nat)
    requires bytes != []
    ensures total <= |bytes| && total <= SequenceLength(bytes[0])
  {
    if SequenceLength(bytes[0]) == 0 then 0 else
      assert Opens(bytes[..1]);
      MatchedFrom(bytes, 1)
  }

  /** U+FFFD. */
  const REPLACEMENT: seq<Byte> := [0xEF, 0xBF, 0xBD]

  /** What the decoder answers and what it keeps for the next read. */
  datatype Decoded = Decoded(text: seq<Byte>, held: seq<Byte>)

  /** Whether the bytes open a character whose rest has not arrived. */
  predicate Waits(bytes: seq<Byte>) {
    bytes != [] && 0 < Matched(bytes) == |bytes| && Matched(bytes) < SequenceLength(bytes[0])
  }

  /** How many bytes one look at the front takes off. */
  function Width(bytes: seq<Byte>): (width: nat)
    requires bytes != []
    ensures 1 <= width <= |bytes|
  {
    if Matched(bytes) == 0 then 1 else Matched(bytes)
  }

  /** What one look at the front answers. */
  function Front(bytes: seq<Byte>): seq<Byte>
    requires bytes != []
  {
    if 0 < Matched(bytes) == SequenceLength(bytes[0]) then bytes[..Matched(bytes)] else REPLACEMENT
  }

  function Decode(bytes: seq<Byte>): Decoded
    decreases |bytes|
  {
    if bytes == [] || Waits(bytes) then Decoded([], bytes)
    else
      var rest := Decode(bytes[Width(bytes)..]);
      Decoded(Front(bytes) + rest.text, rest.held)
  }

  /** The replacement an unfinished character leaves at the end. */
  function Ending(held: seq<Byte>): seq<Byte> {
    if held == [] then [] else REPLACEMENT
  }

  // ----- The independent reference: section 3.9 of the Unicode Standard ---------------------------

  ghost predicate Encodes(bytes: seq<Byte>) {
    exists c: Scalar :: Encoding(c) == bytes
  }

  /** The initial part of some character. */
  ghost predicate StartsCharacter(bytes: seq<Byte>) {
    exists c: Scalar :: bytes <= Encoding(c)
  }

  /** Whether a whole character stands at the front, `length` bytes long. */
  ghost predicate CharacterAt(bytes: seq<Byte>, length: nat) {
    1 <= length <= |bytes| && Encodes(bytes[..length])
  }

  /** The longest initial part of a character, or one byte when the first byte starts none. */
  ghost predicate MaximalSubpart(bytes: seq<Byte>, length: nat) {
    && 1 <= length <= |bytes|
    && (length == 1 || StartsCharacter(bytes[..length]))
    && forall longer | length < longer <= |bytes| :: !StartsCharacter(bytes[..longer])
  }

  /** The text with each maximal subpart of what is not UTF-8 replaced by U+FFFD. */
  ghost predicate Substitution(bytes: seq<Byte>, text: seq<Byte>)
    decreases |bytes|
  {
    if bytes == [] then text == []
    else if exists length :: CharacterAt(bytes, length) then
      exists length: nat, rest :: CharacterAt(bytes, length) && text == bytes[..length] + rest
          && Substitution(bytes[length..], rest)
    else
      exists length: nat, rest :: MaximalSubpart(bytes, length) && text == REPLACEMENT + rest
          && Substitution(bytes[length..], rest)
  }

  // ----- The table and the standard agree -------------------------------------------------------------

  lemma EncodesIsCharacter(bytes: seq<Byte>)
    ensures Encodes(bytes) <==> IsCharacter(bytes)
  {
    if c: Scalar :| Encoding(c) == bytes {
      EncodingIsCharacter(c);
    }
    if IsCharacter(bytes) {
      CharacterIsEncoding(bytes);
    }
  }

  /** A byte that may stand at a place of a sequence. */
  function Filler(lead: Byte, offset: nat): (byte: Byte)
    ensures Follows(lead, offset, byte)
  {
    if offset > 1 then 0x80
    else if lead == 0xE0 then 0xA0
    else if lead == 0xF0 then 0x90
    else 0x80
  }

  /** Every opening of the table goes on to a whole character. */
  lemma {:induction false} OpensStartsCharacter(bytes: seq<Byte>)
    requires Opens(bytes)
    ensures StartsCharacter(bytes)
    decreases SequenceLength(bytes[0]) - |bytes|
  {
    if |bytes| == SequenceLength(bytes[0]) {
      CharacterIsEncoding(bytes);
    } else {
      var longer := bytes + [Filler(bytes[0], |bytes|)];
      OpensStartsCharacter(longer);
      var c: Scalar :| longer <= Encoding(c);
      assert bytes <= longer <= Encoding(c);
    }
  }

  lemma StartsCharacterIffOpens(bytes: seq<Byte>)
    requires bytes != []
    ensures StartsCharacter(bytes) <==> Opens(bytes)
  {
    if Opens(bytes) {
      OpensStartsCharacter(bytes);
    }
    if c: Scalar :| bytes <= Encoding(c) {
      EncodingIsCharacter(c);
      assert forall k | 0 <= k < |bytes| :: bytes[k] == Encoding(c)[k];
    }
  }

  /** What is matched is the longest front the table lets open a character. */
  lemma MatchedIsLongest(bytes: seq<Byte>, length: nat)
    requires bytes != [] && 1 <= length <= |bytes|
    ensures Opens(bytes[..length]) <==> length <= Matched(bytes)
  {
    var matched := Matched(bytes);
    var front := bytes[..length];
    assert forall k | 0 <= k < length :: front[k] == bytes[k];
    assert Opens(front) ==> forall k | 1 <= k < length :: Follows(bytes[0], k, front[k]);
    if length <= matched {
      assert forall k | 1 <= k < length :: bytes[..length][k] == bytes[..matched][k];
    }
  }

  lemma CharacterAtIffMatched(bytes: seq<Byte>, length: nat)
    requires bytes != []
    ensures CharacterAt(bytes, length) <==> length == SequenceLength(bytes[0]) == Matched(bytes) > 0
  {
    if 1 <= length <= |bytes| {
      EncodesIsCharacter(bytes[..length]);
      MatchedIsLongest(bytes, length);
    }
  }

  lemma MaximalSubpartIffMatched(bytes: seq<Byte>, length: nat)
    requires bytes != []
    ensures MaximalSubpart(bytes, length) <==> length == if Matched(bytes) == 0 then 1 else Matched(bytes)
  {
    forall k | 1 <= k <= |bytes|
      ensures StartsCharacter(bytes[..k]) <==> k <= Matched(bytes)
    {
      StartsCharacterIffOpens(bytes[..k]);
      MatchedIsLongest(bytes, k);
    }
  }

  /** One step of a substitution is one look of the decoder. */
  lemma SubstitutionStep(bytes: seq<Byte>, text: seq<Byte>)
    requires bytes != []
    ensures Substitution(bytes, text) <==>
      exists rest :: text == Front(bytes) + rest && Substitution(bytes[Width(bytes)..], rest)
  {
    var step, front := Width(bytes), Front(bytes);
    forall k: nat
      ensures CharacterAt(bytes, k) <==> k == SequenceLength(bytes[0]) == Matched(bytes) > 0
      ensures MaximalSubpart(bytes, k) <==> k == step
    {
      CharacterAtIffMatched(bytes, k);
      MaximalSubpartIffMatched(bytes, k);
    }
    if rest :| text == front + rest && Substitution(bytes[step..], rest) {
      if CharacterAt(bytes, step) {
        assert text == bytes[..step] + rest;
      } else {
        assert MaximalSubpart(bytes, step) && text == REPLACEMENT + rest;
      }
    }
  }

  /** The text of the decoder with the ending of what it keeps. */
  function Whole(bytes: seq<Byte>): seq<Byte> {
    Decode(bytes).text + Ending(Decode(bytes).held)
  }

  lemma WholeStep(bytes: seq<Byte>)
    requires bytes != []
    ensures Whole(bytes) == Front(bytes) + Whole(bytes[Width(bytes)..])
  {
    if Waits(bytes) {
      assert bytes[Width(bytes)..] == [];
    }
  }

  /** The whole answer of the decoder, with its ending, is the one text the standard allows. */
  lemma {:induction false} DecodeIsSubstitution(bytes: seq<Byte>, text: seq<Byte>)
    ensures Substitution(bytes, text) <==> text == Whole(bytes)
    decreases |bytes|
  {
    if bytes != [] {
      var later := bytes[Width(bytes)..];
      SubstitutionStep(bytes, text);
      WholeStep(bytes);
      DecodeIsSubstitution(later, Whole(later));
      forall rest | Substitution(later, rest)
        ensures rest == Whole(later)
      {
        DecodeIsSubstitution(later, rest);
      }
    }
  }

  // ----- What the decoder keeps and answers --------------------------------------------------------------

  lemma ReplacementIsCharacter()
    ensures IsCharacter(REPLACEMENT) && REPLACEMENT == Encoding(0xFFFD) && WellFormed(REPLACEMENT)
  {
    CharacterIsWellFormed(REPLACEMENT);
  }

  lemma FrontIsCharacter(bytes: seq<Byte>)
    requires bytes != []
    ensures WellFormed(Front(bytes))
  {
    ReplacementIsCharacter();
    if 0 < Matched(bytes) == SequenceLength(bytes[0]) {
      MatchedIsLongest(bytes, Matched(bytes));
      CharacterIsWellFormed(bytes[..Matched(bytes)]);
    }
  }

  /** The proper opening of a character, which is all the decoder ever keeps. */
  predicate Unfinished(held: seq<Byte>) {
    held == [] || (Opens(held) && |held| < SequenceLength(held[0]))
  }

  lemma WaitsIffUnfinished(bytes: seq<Byte>)
    ensures bytes == [] || Waits(bytes) <==> Unfinished(bytes)
  {
    if bytes != [] {
      assert bytes[..|bytes|] == bytes;
      MatchedIsLongest(bytes, |bytes|);
    }
  }

  /** The answers are always UTF-8, and what is kept is a proper opening of one character, at most three bytes. */
  lemma {:induction false} DecodeAnswers(bytes: seq<Byte>)
    ensures WellFormed(Decode(bytes).text)
    ensures Unfinished(Decode(bytes).held) && |Decode(bytes).held| <= 3
    decreases |bytes|
  {
    WaitsIffUnfinished(bytes);
    if bytes != [] && !Waits(bytes) {
      var rest := bytes[Width(bytes)..];
      DecodeAnswers(rest);
      FrontIsCharacter(bytes);
      WellFormedConcat(Front(bytes), Decode(rest).text);
    }
  }

  /** UTF-8 passes through unchanged with nothing kept. */
  lemma {:induction false} DecodeKeepsText(bytes: seq<Byte>)
    requires WellFormed(bytes)
    ensures Decode(bytes) == Decoded(bytes, [])
    decreases |bytes|
  {
    if bytes != [] {
      var length := SequenceLength(bytes[0]);
      MatchedIsLongest(bytes, length);
      DecodeKeepsText(bytes[length..]);
      assert bytes == bytes[..length] + bytes[length..];
    }
  }

  /** The decoder changes nothing exactly when the bytes are UTF-8. */
  lemma DecodeUnchangedIffText(bytes: seq<Byte>)
    ensures Whole(bytes) == bytes <==> WellFormed(bytes)
  {
    if WellFormed(bytes) {
      DecodeKeepsText(bytes);
    }
    DecodeAnswers(bytes);
    ReplacementIsCharacter();
    WellFormedConcat(Decode(bytes).text, Ending(Decode(bytes).held));
  }

  // ----- Chunk independence --------------------------------------------------------------------------------

  /** Bytes that arrive later change nothing about a place the decoder has already passed. */
  lemma LookStable(bytes: seq<Byte>, more: seq<Byte>)
    requires bytes != [] && !Waits(bytes)
    ensures !Waits(bytes + more) && Width(bytes + more) == Width(bytes) && Front(bytes + more) == Front(bytes)
  {
    var all, matched := bytes + more, Matched(bytes);
    if matched > 0 {
      MatchedIsLongest(bytes, matched);
      MatchedIsLongest(all, matched);
      assert all[..matched] == bytes[..matched];
      if matched < |bytes| {
        MatchedIsLongest(bytes, matched + 1);
        MatchedIsLongest(all, matched + 1);
        assert all[..matched + 1] == bytes[..matched + 1];
      }
    }
  }

  /** Decoding what was kept followed by what arrives goes on where the first read stopped. */
  lemma {:induction false} DecodeContinues(bytes: seq<Byte>, more: seq<Byte>)
    ensures Decode(bytes + more).text == Decode(bytes).text + Decode(Decode(bytes).held + more).text
    ensures Decode(bytes + more).held == Decode(Decode(bytes).held + more).held
    decreases |bytes|
  {
    if bytes == [] || Waits(bytes) {
      var first := Decode(bytes);
      assert first == Decoded([], bytes);
      var later := Decode(bytes + more).text;
      assert [] + later == later;
    } else {
      var rest := bytes[Width(bytes)..];
      DecodeContinues(rest, more);
      LookStable(bytes, more);
      DropOfConcat(bytes, more, Width(bytes));
      Associative(Front(bytes), Decode(rest).text, Decode(Decode(rest).held + more).text);
    }
  }

  lemma DropOfConcat(bytes: seq<Byte>, more: seq<Byte>, width: nat)
    requires width <= |bytes|
    ensures (bytes + more)[width..] == bytes[width..] + more
  {
  }

  /** The answers of successive reads, and what is kept after them. */
  function Reads(held: seq<Byte>, chunks: seq<seq<Byte>>): Decoded
    decreases |chunks|
  {
    if chunks == [] then Decoded([], held)
    else
      var first := Decode(held + chunks[0]);
      var rest := Reads(first.held, chunks[1..]);
      Decoded(first.text + rest.text, rest.held)
  }

  lemma {:induction false} ReadsDecodeWhole(held: seq<Byte>, chunks: seq<seq<Byte>>)
    requires Unfinished(held)
    ensures Reads(held, chunks) == Decode(held + Concat(chunks))
    decreases |chunks|
  {
    if chunks == [] {
      assert held + Concat(chunks) == held;
      WaitsIffUnfinished(held);
    } else {
      var first, later := held + chunks[0], Concat(chunks[1..]);
      DecodeAnswers(first);
      var answer := Decode(first);
      ReadsDecodeWhole(answer.held, chunks[1..]);
      DecodeContinues(first, later);
      Associative(held, chunks[0], later);
      var rest := Reads(answer.held, chunks[1..]);
      assert rest == Decode(answer.held + later);
      assert Reads(held, chunks) == Decoded(answer.text + rest.text, rest.held);
    }
  }

  /** However the bytes of a program are cut into reads, its text is the substitution of all of them at once. */
  lemma ReadsAreSubstitution(chunks: seq<seq<Byte>>, text: seq<Byte>)
    ensures text == Reads([], chunks).text + Ending(Reads([], chunks).held) <==> Substitution(Concat(chunks), text)
    ensures |Reads([], chunks).held| <= 3
  {
    ReadsDecodeWhole([], chunks);
    assert [] + Concat(chunks) == Concat(chunks);
    DecodeIsSubstitution(Concat(chunks), text);
    DecodeAnswers(Concat(chunks));
  }

  // ----- The decoder itself --------------------------------------------------------------------------------

  class ProcessText {
    var pending: seq<Byte>

    constructor ()
      ensures pending == []
    {
      pending := [];
    }

    /** One look at the front, in the terms of the loop: the answer so far grows by the front, or the rest waits. */
    static lemma Advance(assembled: seq<Byte>, bytes: seq<Byte>, index: nat, matched: nat, front: seq<Byte>, next: nat)
      requires index < next <= |bytes| && matched == Matched(bytes[index..])
      requires var length := SequenceLength(bytes[index]);
        if length > 0 && matched == length then next == index + length && front == bytes[index..next]
        else next == index + (if matched == 0 then 1 else matched) && front == REPLACEMENT
      ensures if 0 < matched < SequenceLength(bytes[index])
          && index + matched == |bytes| then Decode(bytes[index..]) == Decoded([], bytes[index..])
        else Continues(Decode(bytes[index..]), assembled, Decode(bytes[next..]), assembled + front)
    {
      var rest, step := bytes[index..], next - index;
      Look(rest, bytes[index], step, front);
      DropDrop(bytes, index, step);
      if !Waits(rest) {
        var later := Decode(bytes[next..]);
        assert Decode(rest) == Decoded(front + later.text, later.held);
        Associative(assembled, front, later.text);
      }
    }

    static lemma Look(rest: seq<Byte>, lead: Byte, step: nat, front: seq<Byte>)
      requires rest != [] && rest[0] == lead && 1 <= step <= |rest|
      requires var length := SequenceLength(lead);
        if length > 0 && Matched(rest) == length then step == length && front == rest[..step]
        else step == (if Matched(rest) == 0 then 1 else Matched(rest)) && front == REPLACEMENT
      ensures Width(rest) == step && Front(rest) == front
    {
    }

    /** Two places of one read promise the same answer and keep the same bytes. */
    static ghost predicate Continues(rest: Decoded, answered: seq<Byte>, later: Decoded, answeredLater: seq<Byte>) {
      answered + rest.text == answeredLater + later.text && rest.held == later.held
    }

    /** The inner loop of take: how many bytes at `index` agree with one character. */
    static method Match(bytes: seq<Byte>, index: nat) returns (matched: nat)
      requires index < |bytes|
      ensures matched == Matched(bytes[index..])
    {
      ghost var rest := bytes[index..];
      var lead := bytes[index];
      var length := SequenceLength(lead);
      matched := if length == 0 then 0 else 1;
      while matched > 0 && matched < length && index + matched < |bytes|
          && Follows(lead, matched, bytes[index + matched])
        invariant matched <= length && index + matched <= |bytes|
        invariant matched == 0 <==> length == 0
        invariant matched > 0 ==> Opens(rest[..matched]) && MatchedFrom(rest, matched) == Matched(rest)
        decreases length - matched
      {
        assert Opens(rest[..matched + 1]);
        matched := matched + 1;
      }
    }

    method Take(bytes: seq<Byte>) returns (assembled: seq<Byte>)
      modifies this
      ensures Decoded(assembled, pending) == Decode(old(pending) + bytes)
    {
      pending := pending + bytes;
      assembled := [];
      var index := 0;
      ghost var all := pending;
      ghost var whole := Decode(all);
      ghost var rest := Decode(all[0..]);
      assert all[0..] == all;
      while index < |pending|
        invariant index <= |all| && pending == all
        invariant rest == Decode(all[index..])
        invariant Continues(whole, [], rest, assembled)
      {
        var length := SequenceLength(pending[index]);
        var matched := Match(pending, index);
        if length > 0 && matched == length {
          var next := index + length;
          Advance(assembled, all, index, matched, all[index..next], next);
          assembled, index := assembled + pending[index..next], next;
          rest := Decode(all[next..]);
          continue;
        }
        var next := index + if matched == 0 then 1 else matched;
        Advance(assembled, all, index, matched, REPLACEMENT, next);
        if length > 0 && index + matched == |pending| {
          break;
        }
        assembled, index := assembled + REPLACEMENT, next;
        rest := Decode(all[next..]);
      }
      pending := pending[index..];
      assert rest == Decoded([], pending);
      assert [] + whole.text == whole.text && assembled + [] == assembled;
    }

    method Finish() returns (rest: seq<Byte>)
      modifies this
      ensures rest == Ending(old(pending)) && pending == []
    {
      if pending == [] {
        return [];
      }
      pending := [];
      return REPLACEMENT;
    }
  }
}
