/** src/text/Utf8Helper.cpp: the byte table of UTF-8, proved to be exactly the encoding of section 3 of RFC 3629. */
module Utf8 {
  import opened Foundation

  // ----- The table the program uses ------------------------------------------------------------

  /** How many bytes the character opened by `lead` takes, or 0 when no character opens with it. */
  function SequenceLength(lead: Byte): nat {
    if lead < 0x80 then 1
    else if 0xC2 <= lead <= 0xDF then 2
    else if 0xE0 <= lead <= 0xEF then 3
    else if 0xF0 <= lead <= 0xF4 then 4
    else 0
  }

  /** Whether `byte` may stand `offset` bytes after `lead`. */
  predicate Follows(lead: Byte, offset: nat, byte: Byte) {
    if offset > 1 || (lead != 0xE0 && lead != 0xED && lead != 0xF0 && lead != 0xF4) then 0x80 <= byte <= 0xBF
    else if lead == 0xE0 then 0xA0 <= byte <= 0xBF
    else if lead == 0xED then 0x80 <= byte <= 0x9F
    else if lead == 0xF0 then 0x90 <= byte <= 0xBF
    else 0x80 <= byte <= 0x8F
  }

  /** The first bytes of a character, up to the whole of it, as the table spells it. */
  predicate Opens(bytes: seq<Byte>) {
    && bytes != []
    && |bytes| <= SequenceLength(bytes[0])
    && forall offset | 1 <= offset < |bytes| :: Follows(bytes[0], offset, bytes[offset])
  }

  /** One whole character, as the table spells it. */
  predicate IsCharacter(bytes: seq<Byte>) {
    Opens(bytes) && |bytes| == SequenceLength(bytes[0])
  }

  /** A text the table cuts into whole characters without a rest. */
  predicate WellFormed(text: seq<Byte>) {
    text == [] ||
    (var length := SequenceLength(text[0]);
     0 < length <= |text| && IsCharacter(text[..length]) && WellFormed(text[length..]))
  }

  // ----- The independent reference: section 3 of RFC 3629 ---------------------------------------

  type Scalar = c: int | 0 <= c <= 0x10FFFF && !(0xD800 <= c <= 0xDFFF)

  function Encoding(c: Scalar): seq<Byte> {
    var code: int := c;
    if code < 0x80 then [code]
    else if code < 0x800 then [0xC0 + code / 64, 0x80 + code % 64]
    else if code < 0x10000 then [0xE0 + code / 4096, 0x80 + code / 64 % 64, 0x80 + code % 64]
    else [0xF0 + code / 262144, 0x80 + code / 4096 % 64, 0x80 + code / 64 % 64, 0x80 + code % 64]
  }

  function EncodingOf(characters: seq<Scalar>): seq<Byte> {
    if characters == [] then [] else Encoding(characters[0]) + EncodingOf(characters[1..])
  }

  /** The bits a byte of a sequence carries once the marker of its place is taken off. */
  function Bits(byte: Byte, marker: nat): int {
    byte as int - marker
  }

  /** The code point a character of the table carries. */
  function CodePoint(bytes: seq<Byte>): int
    requires IsCharacter(bytes)
  {
    match |bytes|
    case 1 => bytes[0]
    case 2 => Bits(bytes[0], 0xC0) * 64 + Bits(bytes[1], 0x80)
    case 3 => Bits(bytes[0], 0xE0) * 4096 + Bits(bytes[1], 0x80) * 64 + Bits(bytes[2], 0x80)
    case _ =>
      Bits(bytes[0], 0xF0) * 262144 + Bits(bytes[1], 0x80) * 4096 + Bits(bytes[2], 0x80) * 64 + Bits(bytes[3], 0x80)
  }

  /** The encoding of every scalar value is a character of the table. */
  lemma EncodingIsCharacter(c: Scalar)
    ensures IsCharacter(Encoding(c)) && CodePoint(Encoding(c)) == c
  {
    if c < 0x800 {
    } else if c < 0x10000 {
      ThreeByteEncoding(c);
    } else {
      FourByteEncoding(c);
    }
  }

  lemma ThreeByteEncoding(c: Scalar)
    requires 0x800 <= c < 0x10000
    ensures IsCharacter(Encoding(c)) && CodePoint(Encoding(c)) == c
  {
    var code: int := c;
    var top, middle := code / 4096, code / 64 % 64;
    assert code / 64 == top * 64 + middle;
    assert code == (top * 64 + middle) * 64 + code % 64;
  }

  lemma FourByteEncoding(c: Scalar)
    requires 0x10000 <= c
    ensures IsCharacter(Encoding(c)) && CodePoint(Encoding(c)) == c
  {
    var code: int := c;
    var top, upper, middle := code / 262144, code / 4096 % 64, code / 64 % 64;
    assert code / 4096 == top * 64 + upper;
    assert code / 64 == (top * 64 + upper) * 64 + middle;
    assert code == ((top * 64 + upper) * 64 + middle) * 64 + code % 64;
  }

  /**
   * Every character of the table is the encoding of one scalar value: no overlong form, no surrogate, nothing beyond
   * Unicode.
   */
  lemma CharacterIsEncoding(bytes: seq<Byte>)
    requires IsCharacter(bytes)
    ensures 0 <= CodePoint(bytes) <= 0x10FFFF && !(0xD800 <= CodePoint(bytes) <= 0xDFFF)
        && Encoding(CodePoint(bytes)) == bytes
  {
    match |bytes| {
      case 1 =>
      case 2 =>
        assert Follows(bytes[0], 1, bytes[1]);
      case 3 => ThreeBytes(bytes);
      case _ => FourBytes(bytes);
    }
  }

  lemma ThreeBytes(bytes: seq<Byte>)
    requires IsCharacter(bytes) && |bytes| == 3
    ensures 0 <= CodePoint(bytes) <= 0x10FFFF && !(0xD800 <= CodePoint(bytes) <= 0xDFFF)
        && Encoding(CodePoint(bytes)) == bytes
  {
    assert Follows(bytes[0], 1, bytes[1]) && Follows(bytes[0], 2, bytes[2]);
    var a, b, c := Bits(bytes[0], 0xE0), Bits(bytes[1], 0x80), Bits(bytes[2], 0x80);
    Split(a * 64 + b, c);
    Split(a, b);
    assert CodePoint(bytes) / 4096 == a;
  }

  lemma FourBytes(bytes: seq<Byte>)
    requires IsCharacter(bytes) && |bytes| == 4
    ensures 0 <= CodePoint(bytes) <= 0x10FFFF && !(0xD800 <= CodePoint(bytes) <= 0xDFFF)
        && Encoding(CodePoint(bytes)) == bytes
  {
    assert Follows(bytes[0], 1, bytes[1]) && Follows(bytes[0], 2, bytes[2]) && Follows(bytes[0], 3, bytes[3]);
    var a, b, c, d := Bits(bytes[0], 0xF0), Bits(bytes[1], 0x80), Bits(bytes[2], 0x80), Bits(bytes[3], 0x80);
    Split((a * 64 + b) * 64 + c, d);
    Split(a * 64 + b, c);
    Split(a, b);
    assert CodePoint(bytes) / 4096 == a * 64 + b && CodePoint(bytes) / 262144 == a;
  }

  /** Six bits appended below a number come off again. */
  lemma Split(high: int, low: int)
    requires 0 <= low < 64
    ensures (high * 64 + low) / 64 == high && (high * 64 + low) % 64 == low
  {
  }

  /** The table accepts exactly the texts that encode a list of scalar values. */
  lemma {:induction false} WellFormedIffEncoding(text: seq<Byte>)
    ensures WellFormed(text) <==> exists characters: seq<Scalar> :: EncodingOf(characters) == text
  {
    if WellFormed(text) {
      var characters := Characters(text);
      assert EncodingOf(characters) == text;
    }
    if characters: seq<Scalar> :| EncodingOf(characters) == text {
      EncodingIsWellFormed(characters);
    }
  }

  /** The scalar values a well-formed text spells. */
  function {:induction false} Characters(text: seq<Byte>): (characters: seq<Scalar>)
    requires WellFormed(text)
    ensures EncodingOf(characters) == text
  {
    if text == [] then []
    else
      var length := SequenceLength(text[0]);
      CharacterIsEncoding(text[..length]);
      [CodePoint(text[..length])] + Characters(text[length..])
  }

  lemma {:induction false} EncodingIsWellFormed(characters: seq<Scalar>)
    ensures WellFormed(EncodingOf(characters))
    ensures Characters(EncodingOf(characters)) == characters
  {
    if characters != [] {
      var first := Encoding(characters[0]);
      var rest := EncodingOf(characters[1..]);
      EncodingIsCharacter(characters[0]);
      EncodingIsWellFormed(characters[1..]);
      assert (first + rest)[..|first|] == first && (first + rest)[|first|..] == rest;
    }
  }

  // ----- Texts built from texts -------------------------------------------------------------------

  lemma {:induction false} WellFormedConcat(left: seq<Byte>, right: seq<Byte>)
    requires WellFormed(left)
    ensures WellFormed(left + right) <==> WellFormed(right)
  {
    if left == [] {
      assert left + right == right;
    } else {
      var length := SequenceLength(left[0]);
      assert (left + right)[..length] == left[..length];
      assert (left + right)[length..] == left[length..] + right;
      WellFormedConcat(left[length..], right);
    }
  }

  lemma CharacterIsWellFormed(bytes: seq<Byte>)
    requires IsCharacter(bytes)
    ensures WellFormed(bytes)
  {
    assert bytes[..|bytes|] == bytes && bytes[|bytes|..] == [];
  }

  /** A well-formed text may be cut before any byte below 0x80, since such a byte stands inside no longer character. */
  lemma {:induction false} WellFormedCut(text: seq<Byte>, at: nat)
    requires WellFormed(text) && at <= |text|
    requires at == |text| || text[at] < 0x80
    ensures WellFormed(text[..at]) && WellFormed(text[at..])
  {
    if at == 0 {
      assert text[0..] == text;
    } else {
      var length := SequenceLength(text[0]);
      assert IsCharacter(text[..length]);
      assert at < length ==> Follows(text[0], at, text[..length][at]);
      assert text[length..][at - length..] == text[at..];
      WellFormedCut(text[length..], at - length);
      assert text[..at][..length] == text[..length] && text[..at][length..] == text[length..][..at - length];
    }
  }

  // ----- The operations ---------------------------------------------------------------------------

  /** Utf8Helper::valid: whether the bytes are UTF-8. */
  method Valid(text: seq<Byte>) returns (valid: bool)
    ensures valid <==> exists characters: seq<Scalar> :: EncodingOf(characters) == text
  {
    WellFormedIffEncoding(text);
    var index := 0;
    while index < |text|
      invariant index <= |text|
      invariant WellFormed(text) <==> WellFormed(text[index..])
    {
      ghost var rest := text[index..];
      var lead := text[index];
      var length := SequenceLength(lead);
      if length == 0 || index + length > |text| {
        return false;
      }
      var offset := 1;
      while offset < length
        invariant 1 <= offset <= length
        invariant forall k | 1 <= k < offset :: Follows(lead, k, rest[k])
      {
        if !Follows(lead, offset, text[index + offset]) {
          assert !Follows(lead, offset, rest[..length][offset]);
          return false;
        }
        offset := offset + 1;
      }
      assert IsCharacter(rest[..length]);
      assert rest[length..] == text[index + length..];
      index := index + length;
    }
    assert text[|text|..] == [];
    return true;
  }

  /** The bytes the first `characters` leads of a text span, where a byte that opens nothing counts as one character. */
  function Span(text: seq<Byte>, characters: nat): nat {
    if characters == 0 || text == [] then 0
    else
      var length := if SequenceLength(text[0]) == 0 then 1 else SequenceLength(text[0]);
      if length >= |text| then |text| else length + Span(text[length..], characters - 1)
  }

  /** Utf8Helper::truncated: the text up to a number of characters. */
  method Truncated(text: seq<Byte>, characters: nat) returns (kept: seq<Byte>)
    ensures Span(text, characters) <= |text| && kept == text[..Span(text, characters)]
  {
    var index, counted := 0, 0;
    while counted < characters && index < |text|
      invariant counted <= characters
      invariant 0 <= index
      invariant if index <= |text| then Span(text, characters) == index + Span(text[index..], characters - counted)
          else Span(text, characters) == |text|
    {
      var length := SequenceLength(text[index]);
      ghost var rest, step := text[index..], if length == 0 then 1 else length;
      assert step <= |rest| ==> rest[step..] == text[index + step..];
      index := index + if length == 0 then 1 else length;
      counted := counted + 1;
    }
    kept := text[..if index < |text| then index else |text|];
  }

  /** A truncated text is the encoding of its first scalar values, never a character cut in two. */
  lemma {:induction false} TruncatedKeepsCharacters(characters: seq<Scalar>, count: nat)
    ensures Span(EncodingOf(characters), count) <= |EncodingOf(characters)|
    ensures EncodingOf(characters)[..Span(EncodingOf(characters), count)] ==
        EncodingOf(if count < |characters| then characters[..count] else characters)
  {
    var text := EncodingOf(characters);
    if characters != [] && count > 0 {
      var first := Encoding(characters[0]);
      EncodingIsCharacter(characters[0]);
      assert text[0] == first[0] && text[|first|..] == EncodingOf(characters[1..]);
      TruncatedKeepsCharacters(characters[1..], count - 1);
      var kept := if count < |characters| then characters[..count] else characters;
      var rest := if count - 1 < |characters[1..]| then characters[1..][..count - 1] else characters[1..];
      assert kept[1..] == rest;
      var inner := EncodingOf(characters[1..]);
      var span := Span(inner, count - 1);
      assert Span(text, count) == |first| + span;
      assert (first + inner)[..|first| + span] == first + inner[..span];
    } else if count == 0 && characters != [] {
      assert characters[..0] == [];
    }
  }
}
