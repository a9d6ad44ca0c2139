/** src/text/Base64Helper.cpp: the coder of section 4 of RFC 4648 and its exact inverse. */
module Base64 {
  import opened Foundation

  // ----- The mapping of RFC 4648 -----------------------------------------------------------------------

  /** A group of six bits. */
  type Sextet = d: int | 0 <= d < 64

  /** Table 1 of RFC 4648. */
  function Letter(digit: Sextet): char {
    var code: int := digit;
    if code < 26 then (code + 'A' as int) as char
    else if code < 52 then (code - 26 + 'a' as int) as char
    else if code < 62 then (code - 52 + '0' as int) as char
    else if code == 62 then '+' else '/'
  }

  /** Base64Helper::value: the digit a letter stands for, or -1 for any other character. */
  function Value(character: char): (digit: int)
    ensures -1 <= digit < 64
    ensures digit >= 0 ==> Letter(digit) == character
    ensures digit < 0 ==> forall d: Sextet :: Letter(d) != character
  {
    if 'A' <= character <= 'Z' then character as int - 'A' as int
    else if 'a' <= character <= 'z' then character as int - 'a' as int + 26
    else if '0' <= character <= '9' then character as int - '0' as int + 52
    else if character == '+' then 62
    else if character == '/' then 63
    else -1
  }

  /** The alphabet as the encoder spells it. */
  const ALPHABET: string := "ABCDEFGHIJKLMNOPQRSTUVWXYZ" + "abcdefghijklmnopqrstuvwxyz" + "0123456789+/"

  lemma LetterOfAlphabet(digit: Sextet)
    ensures |ALPHABET| == 64 && Letter(digit) == ALPHABET[digit]
  {
    var upper, lower, others := "ABCDEFGHIJKLMNOPQRSTUVWXYZ", "abcdefghijklmnopqrstuvwxyz", "0123456789+/";
    assert upper[0] == 'A' && upper[25] == 'Z' && lower[0] == 'a' && lower[25] == 'z' && others[0] == '0'
        && others[11] == '/';
    assert ALPHABET == upper + lower + others;
    if digit < 26 {
      assert ALPHABET[digit] == upper[digit];
    } else if digit < 52 {
      assert ALPHABET[digit] == lower[digit - 26];
    } else {
      assert ALPHABET[digit] == others[digit - 52];
    }
  }

  lemma ValueOfLetter(digit: Sextet)
    ensures Value(Letter(digit)) == digit && Letter(digit) != '='
  {
  }

  /** The bits of one to three bytes, first bit first, in groups of six, the last one filled with zero bits. */
  function Group(bytes: seq<Byte>): (group: seq<Sextet>)
    requires 1 <= |bytes| <= 3
    ensures |group| == |bytes| + 1
  {
    var first: int := bytes[0];
    if |bytes| == 1 then [first / 4, first % 4 * 16]
    else
      var second: int := bytes[1];
      if |bytes| == 2 then [first / 4, first % 4 * 16 + second / 16, second % 16 * 4]
      else
        var third: int := bytes[2];
        [first / 4, first % 4 * 16 + second / 16, second % 16 * 4 + third / 64, third % 64]
  }

  function Sextets(bytes: seq<Byte>): seq<Sextet> {
    if bytes == [] then []
    else if |bytes| <= 3 then Group(bytes)
    else Group(bytes[..3]) + Sextets(bytes[3..])
  }

  /** Padding fills the last group of four letters. */
  function Padding(bytes: seq<Byte>): (padding: string)
    ensures padding == "" || padding == "=" || padding == "=="
  {
    match |bytes|
    case 0 => ""
    case 1 => "=="
    case 2 => "="
    case 3 => ""
    case _ => Padding(bytes[3..])
  }

  function Letters(sextets: seq<Sextet>): (text: string)
    ensures |text| == |sextets|
    ensures forall k | 0 <= k < |text| :: text[k] == Letter(sextets[k])
  {
    seq(|sextets|, k requires 0 <= k < |sextets| => Letter(sextets[k]))
  }

  function Encoded(bytes: seq<Byte>): string {
    Letters(Sextets(bytes)) + Padding(bytes)
  }

  lemma LettersConcat(left: seq<Sextet>, right: seq<Sextet>)
    ensures Letters(left + right) == Letters(left) + Letters(right)
  {
  }

  lemma LettersInjective(one: seq<Sextet>, other: seq<Sextet>)
    requires Letters(one) == Letters(other)
    ensures one == other
  {
    assert |one| == |Letters(other)| == |other|;
    forall k | 0 <= k < |one| ensures one[k] == other[k] {
      assert Letters(one)[k] == Letters(other)[k];
      ValueOfLetter(one[k]);
      ValueOfLetter(other[k]);
    }
  }

  // ----- The way back --------------------------------------------------------------------------------------

  /** The bytes whole groups of eight bits make, the value of the bits left over and how many they are. */
  datatype Unpacked = Unpacked(bytes: seq<Byte>, rest: int, bits: int)

  predicate Fits(unpacked: Unpacked) {
    match unpacked.bits
    case 0 => unpacked.rest == 0
    case 2 => 0 <= unpacked.rest < 4
    case 4 => 0 <= unpacked.rest < 16
    case 6 => 0 <= unpacked.rest < 64
    case _ => false
  }

  /** One more digit. */
  function Push(unpacked: Unpacked, digit: Sextet): (next: Unpacked)
    requires Fits(unpacked)
    ensures Fits(next)
  {
    var value: int := digit;
    match unpacked.bits
    case 0 => Unpacked(unpacked.bytes, value, 6)
    case 6 => Unpacked(unpacked.bytes + [unpacked.rest * 4 + value / 16], value % 16, 4)
    case 4 => Unpacked(unpacked.bytes + [unpacked.rest * 16 + value / 4], value % 4, 2)
    case _ => Unpacked(unpacked.bytes + [unpacked.rest * 64 + value], 0, 0)
  }

  function Feed(unpacked: Unpacked, sextets: seq<Sextet>): (fed: Unpacked)
    requires Fits(unpacked)
    ensures Fits(fed)
    decreases |sextets|
  {
    if sextets == [] then unpacked else Feed(Push(unpacked, sextets[0]), sextets[1..])
  }

  const Nothing := Unpacked([], 0, 0)

  lemma {:induction false} FeedConcat(unpacked: Unpacked, left: seq<Sextet>, right: seq<Sextet>)
    requires Fits(unpacked)
    ensures Feed(unpacked, left + right) == Feed(Feed(unpacked, left), right)
    decreases |left|
  {
    if left == [] {
      assert left + right == right;
    } else {
      assert (left + right)[1..] == left[1..] + right;
      FeedConcat(Push(unpacked, left[0]), left[1..], right);
    }
  }

  lemma FeedOne(unpacked: Unpacked, digit: Sextet)
    requires Fits(unpacked)
    ensures Feed(unpacked, [digit]) == Push(unpacked, digit)
  {
    assert [digit][1..] == [];
  }

  /** What the digits of one group make of whole groups before them. */
  lemma FeedGroup(unpacked: Unpacked, group: seq<Sextet>)
    requires Fits(unpacked) && unpacked.bits == 0 && 2 <= |group| <= 4
    ensures var two := Push(Push(unpacked, group[0]), group[1]);
      Feed(unpacked, group) ==
        if |group| == 2 then two
        else if |group| == 3 then Push(two, group[2])
        else Push(Push(two, group[2]), group[3])
  {
    var one := Push(unpacked, group[0]);
    var two := Push(one, group[1]);
    DropDrop(group, 1, 1);
    assert Feed(unpacked, group) == Feed(two, group[2..]);
    if |group| == 2 {
      assert group[2..] == [];
    } else if |group| == 3 {
      assert group[2..] == [group[2]];
      FeedOne(two, group[2]);
    } else {
      assert group[2..] == [group[2]] + [group[3]];
      FeedConcat(two, [group[2]], [group[3]]);
      FeedOne(two, group[2]);
      FeedOne(Push(two, group[2]), group[3]);
    }
  }

  /** Unpacking undoes the grouping of one to three bytes. */
  lemma FeedGroupOf(unpacked: Unpacked, tail: seq<Byte>)
    requires Fits(unpacked) && unpacked.bits == 0 && 1 <= |tail| <= 3
    ensures var fed := Feed(unpacked, Group(tail));
      fed.bytes == unpacked.bytes + tail && fed.rest == 0
          && fed.bits == (match |tail| case 1 => 4 case 2 => 2 case _ => 0)
  {
    var group := Group(tail);
    FeedGroup(unpacked, group);
    JoinBits(tail[0], if |tail| > 1 then tail[1] else 0, if |tail| > 2 then tail[2] else 0);
    var fed := Feed(unpacked, group);
    assert fed.bytes == unpacked.bytes + tail;
  }

  /** Cutting three bytes into groups of six bits and joining them again. */
  lemma JoinBits(a: int, b: int, c: int)
    requires 0 <= a < 256 && 0 <= b < 256 && 0 <= c < 256
    ensures a / 4 * 4 + (a % 4 * 16 + b / 16) / 16 == a
    ensures (a % 4 * 16 + b / 16) % 16 * 16 + (b % 16 * 4 + c / 64) / 4 == b
    ensures (b % 16 * 4 + c / 64) % 4 * 64 + c % 64 == c
  {
  }

  lemma {:induction false} FeedSextets(unpacked: Unpacked, bytes: seq<Byte>)
    requires Fits(unpacked) && unpacked.bits == 0
    ensures Feed(unpacked, Sextets(bytes)).bytes == unpacked.bytes + bytes
    ensures Feed(unpacked, Sextets(bytes)).rest == 0
    ensures Feed(unpacked, Sextets(bytes)).bits == 2 * |Padding(bytes)|
    decreases |bytes|
  {
    if 1 <= |bytes| <= 3 {
      FeedGroupOf(unpacked, bytes);
    } else if bytes != [] {
      FeedGroupOf(unpacked, bytes[..3]);
      FeedConcat(unpacked, Group(bytes[..3]), Sextets(bytes[3..]));
      FeedSextets(Feed(unpacked, Group(bytes[..3])), bytes[3..]);
      assert unpacked.bytes + bytes[..3] + bytes[3..] == unpacked.bytes + bytes;
    }
  }

  /** A group of digits that leaves no bit over is the grouping of the bytes it adds. */
  lemma GroupOfFed(unpacked: Unpacked, group: seq<Sextet>) returns (tail: seq<Byte>)
    requires Fits(unpacked) && unpacked.bits == 0 && 2 <= |group| <= 4
    requires Feed(unpacked, group).rest == 0
    ensures |tail| == |group| - 1 && Group(tail) == group && Feed(unpacked, group).bytes == unpacked.bytes + tail
  {
    hide Feed;
    FeedGroup(unpacked, group);
    var a: int, b: int := group[0], group[1];
    var c: int := if |group| > 2 then group[2] else 0;
    var d: int := if |group| > 3 then group[3] else 0;
    SplitBits(a, b, c, d);
    tail := [a * 4 + b / 16, b % 16 * 16 + c / 4, c % 4 * 64 + d][..|group| - 1];
    assert Group(tail) == group;
    assert Feed(unpacked, group).bytes == unpacked.bytes + tail;
  }

  /** Joining four digits and cutting the bytes into groups of six bits again. */
  lemma SplitBits(a: int, b: int, c: int, d: int)
    requires 0 <= a < 64 && 0 <= b < 64 && 0 <= c < 64 && 0 <= d < 64
    ensures (a * 4 + b / 16) / 4 == a
    ensures (a * 4 + b / 16) % 4 * 16 + (b % 16 * 16 + c / 4) / 16 == b
    ensures (b % 16 * 16 + c / 4) % 16 * 4 + (c % 4 * 64 + d) / 64 == c
    ensures (c % 4 * 64 + d) % 64 == d
  {
  }

  /** Digits that end no byte halfway and leave no bit over are the grouping of what they unpack to. */
  lemma {:induction false} SextetsOfFed(unpacked: Unpacked, sextets: seq<Sextet>) returns (bytes: seq<Byte>)
    requires Fits(unpacked) && unpacked.bits == 0
    requires Feed(unpacked, sextets).rest == 0 && Feed(unpacked, sextets).bits != 6
    ensures Sextets(bytes) == sextets && Feed(unpacked, sextets).bytes == unpacked.bytes + bytes
    decreases |sextets|
  {
    if sextets == [] {
      return [];
    }
    if |sextets| <= 4 {
      bytes := GroupOfFed(unpacked, sextets);
    } else {
      var group, rest := sextets[..4], sextets[4..];
      assert sextets == group + rest;
      FeedConcat(unpacked, group, rest);
      FeedGroup(unpacked, group);
      var first := GroupOfFed(unpacked, group);
      var later := SextetsOfFed(Feed(unpacked, group), rest);
      bytes := first + later;
      assert later != [];
      assert bytes[..3] == first && bytes[3..] == later;
      Associative(unpacked.bytes, first, later);
    }
  }

  // ----- Lengths -------------------------------------------------------------------------------------------

  /** The bits left over tell how far the digits reach into a group of four. */
  lemma {:induction false} BitsOfLength(unpacked: Unpacked, sextets: seq<Sextet>, before: nat)
    requires Fits(unpacked) && unpacked.bits == Left(before)
    ensures Feed(unpacked, sextets).bits == Left(before + |sextets|)
    decreases |sextets|
  {
    if sextets != [] {
      LeftNext(before);
      BitsOfLength(Push(unpacked, sextets[0]), sextets[1..], before + 1);
    }
  }

  function Left(count: nat): int {
    match count % 4
    case 0 => 0
    case 1 => 6
    case 2 => 4
    case _ => 2
  }

  lemma LeftNext(count: nat)
    ensures Left(count + 1) == (match Left(count) case 0 => 6 case 6 => 4 case 4 => 2 case _ => 0)
  {
  }

  /** An encoded text is whole groups of four, and its letters never end in the first place of one. */
  lemma EncodedShape(bytes: seq<Byte>)
    ensures var count := |Sextets(bytes)|;
      && |Encoded(bytes)| == count + |Padding(bytes)| && |Encoded(bytes)| % 4 == 0 && count % 4 != 1
      && Encoded(bytes)[..count] == Letters(Sextets(bytes)) && Encoded(bytes)[count..] == Padding(bytes)
  {
    var letters, padding := Letters(Sextets(bytes)), Padding(bytes);
    assert (letters + padding)[..|letters|] == letters && (letters + padding)[|letters|..] == padding;
    FeedSextets(Nothing, bytes);
    BitsOfLength(Nothing, Sextets(bytes), 0);
    PaddingFills(|letters|, |padding|);
  }

  lemma PaddingFills(count: nat, padding: nat)
    requires padding <= 2 && Left(count) == 2 * padding
    ensures (count + padding) % 4 == 0 && count % 4 != 1
  {
  }

  lemma PaddingUnique(count: nat, one: nat, other: nat)
    requires one <= 2 && other <= 2 && (count + one) % 4 == 0 && (count + other) % 4 == 0
    ensures one == other
  {
  }

  /** A text whose padding begins at `length` encodes nothing but what its letters spell. */
  lemma EncodedLetters(bytes: seq<Byte>, text: string, length: nat)
    requires text == Encoded(bytes) && length <= |text| && |text| - length <= 2
    requires forall k | length <= k < |text| :: text[k] == '='
    requires |text| - length == 2 || length == 0 || text[length - 1] != '='
    ensures length % 4 != 1 && |text| % 4 == 0
    ensures text[..length] == Letters(Sextets(bytes))
  {
    EncodedShape(bytes);
    var count := |Sextets(bytes)|;
    forall k | 0 <= k < |text|
      ensures text[k] == '=' <==> count <= k
    {
      if k < count {
        assert text[k] == text[..count][k];
        ValueOfLetter(Sextets(bytes)[k]);
      } else {
        assert text[k] == text[count..][k - count];
      }
    }
    assert length < |text| ==> text[length] == '=';
    assert length > 0 ==> (text[length - 1] == '=' <==> count <= length - 1);
    assert length == count;
  }

  /** No two byte strings share a text. */
  lemma EncodedInjective(one: seq<Byte>, other: seq<Byte>)
    requires Encoded(one) == Encoded(other)
    ensures one == other
  {
    EncodedShape(one);
    var text, length := Encoded(one), |Sextets(one)|;
    forall k | length <= k < |text| ensures text[k] == '=' {
      assert text[k] == text[length..][k - length];
    }
    if length > 0 {
      assert text[length - 1] == text[..length][length - 1];
      ValueOfLetter(Sextets(one)[length - 1]);
    }
    EncodedLetters(other, text, length);
    LettersInjective(Sextets(one), Sextets(other));
    FeedSextets(Nothing, one);
    FeedSextets(Nothing, other);
    assert [] + one == one && [] + other == other;
  }

  // ----- The coder -----------------------------------------------------------------------------------------

  /** The letters and the padding of one group. */
  function Quantum(bytes: seq<Byte>): string
    requires 1 <= |bytes| <= 3
  {
    Letters(Group(bytes)) + Padding(bytes)
  }

  lemma EncodedFirst(bytes: seq<Byte>)
    requires |bytes| > 3
    ensures Encoded(bytes) == Quantum(bytes[..3]) + Encoded(bytes[3..])
  {
    LettersConcat(Group(bytes[..3]), Sextets(bytes[3..]));
    Associative(Letters(Group(bytes[..3])), Letters(Sextets(bytes[3..])), Padding(bytes[3..]));
    assert Quantum(bytes[..3]) == Letters(Group(bytes[..3]));
  }

  lemma Whole64(quotient: int, rest: int)
    requires 0 <= rest < 64
    ensures (64 * quotient + rest) % 64 == rest
  {
  }

  /** The four places of one quantum in the 24 bits of its bytes. */
  lemma QuantumOfBits(a: int, b: int, c: int)
    requires 0 <= a < 256 && 0 <= b < 256 && 0 <= c < 256
    ensures var bits := a * 65536 + b * 256 + c;
      && bits / 262144 % 64 == a / 4
      && bits / 4096 % 64 == a % 4 * 16 + b / 16
      && bits / 64 % 64 == b % 16 * 4 + c / 64
      && bits % 64 == c % 64
  {
    var bits := a * 65536 + b * 256 + c;
    assert bits / 64 == a * 1024 + b * 4 + c / 64;
    assert bits / 4096 == a * 16 + b / 16;
    assert bits / 262144 == a / 4;
    assert bits == 64 * (a * 1024 + b * 4 + c / 64) + c % 64;
    Whole64(a * 1024 + b * 4 + c / 64, c % 64);
    assert a * 1024 + b * 4 + c / 64 == 64 * (a * 16 + b / 16) + (b % 16 * 4 + c / 64);
    Whole64(a * 16 + b / 16, b % 16 * 4 + c / 64);
    assert a * 16 + b / 16 == 64 * (a / 4) + (a % 4 * 16 + b / 16);
    Whole64(a / 4, a % 4 * 16 + b / 16);
  }

  /**
   * Base64Helper::encode. Shifts to the left multiply, shifts to the right divide, and values joined by `|` share no
   * bits, so they add.
   */
  method Encode(bytes: seq<Byte>) returns (encoded: string)
    ensures encoded == Encoded(bytes)
  {
    encoded := "";
    var offset := 0;
    assert bytes[0..] == bytes;
    while offset < |bytes|
      invariant 0 <= offset
      invariant if offset < |bytes| then Encoded(bytes) == encoded + Encoded(bytes[offset..])
          else Encoded(bytes) == encoded
    {
      var quantum := EncodeQuantum(bytes, offset);
      if offset + 3 < |bytes| {
        EncodedFirst(bytes[offset..]);
        DropDrop(bytes, offset, 3);
        Associative(encoded, quantum, Encoded(bytes[offset + 3..]));
      } else {
        assert bytes[offset..|bytes|] == bytes[offset..];
      }
      encoded := encoded + quantum;
      offset := offset + 3;
    }
  }

  /** One round of encode. */
  method EncodeQuantum(bytes: seq<Byte>, offset: nat) returns (quantum: string)
    requires offset < |bytes|
    ensures quantum == Quantum(bytes[offset..if offset + 3 <= |bytes| then offset + 3 else |bytes|])
  {
    var first := bytes[offset];
    var second := if offset + 1 < |bytes| then bytes[offset + 1] else 0;
    var third := if offset + 2 < |bytes| then bytes[offset + 2] else 0;
    var bits := first as int * 65536 + second as int * 256 + third as int;
    quantum := [Letter(bits / 262144 % 64)];
    quantum := quantum + [Letter(bits / 4096 % 64)];
    quantum := quantum + [if offset + 1 < |bytes| then Letter(bits / 64 % 64) else '='];
    quantum := quantum + [if offset + 2 < |bytes| then Letter(bits % 64) else '='];
    QuantumOfBits(first, second, third);
    ghost var group := bytes[offset..if offset + 3 <= |bytes| then offset + 3 else |bytes|];
    assert group[0] == first && (|group| > 1 ==> group[1] == second) && (|group| > 2 ==> group[2] == third);
    assert |quantum| == 4 && quantum[0] == Letter(Group(group)[0]) && quantum[1] == Letter(Group(group)[1]);
    assert if |group| > 1 then quantum[2] == Letter(Group(group)[2]) else quantum[2] == '=';
    assert if |group| > 2 then quantum[3] == Letter(Group(group)[3]) else quantum[3] == '=';
  }

  lemma Whole256(quotient: int, rest: int)
    requires 0 <= rest < 256
    ensures (256 * quotient + rest) % 256 == rest
  {
  }

  /** The top eight of fourteen, ten or eight bits, and what stays below them. */
  lemma TopOfTwelve(rest: int, above: int, digit: int)
    requires 0 <= rest < 64 && 0 <= digit < 64
    ensures var next := (64 * above + rest) * 64 + digit;
      next / 16 % 256 == rest * 4 + digit / 16 && next % 16 == digit % 16
  {
    var next := (64 * above + rest) * 64 + digit;
    assert next / 16 == 256 * above + (rest * 4 + digit / 16);
    Whole256(above, rest * 4 + digit / 16);
  }

  lemma TopOfTen(rest: int, above: int, digit: int)
    requires 0 <= rest < 16 && 0 <= digit < 64
    ensures var next := (16 * above + rest) * 64 + digit;
      next / 4 % 256 == rest * 16 + digit / 4 && next % 4 == digit % 4
  {
    var next := (16 * above + rest) * 64 + digit;
    assert next / 4 == 256 * above + (rest * 16 + digit / 4);
    Whole256(above, rest * 16 + digit / 4);
  }

  lemma TopOfEight(rest: int, above: int, digit: int)
    requires 0 <= rest < 4 && 0 <= digit < 64
    ensures ((4 * above + rest) * 64 + digit) % 256 == rest * 64 + digit
  {
    Whole256(above, rest * 64 + digit);
  }

  /** The accumulator after one more digit, in the 32 bits of an unsigned int. */
  function Shift(buffer: int, digit: Sextet): (next: int)
    requires 0 <= buffer
    ensures 0 <= next < 0x1_0000_0000
  {
    buffer * 64 % 0x1_0000_0000 + digit
  }

  /** Two to the number of bits left over. */
  function Power(bits: int): (power: int)
    ensures power > 0
  {
    match bits
    case 0 => 1
    case 2 => 4
    case 4 => 16
    case _ => 64
  }

  /** What the shift pushes out of the accumulator was answered long before. */
  lemma Wrapped(buffer: int)
    requires 0 <= buffer < 0x1_0000_0000
    ensures buffer * 64 % 0x1_0000_0000 == buffer % 0x400_0000 * 64
  {
    var lost, kept := buffer / 0x400_0000, buffer % 0x400_0000;
    assert buffer * 64 == lost * 0x1_0000_0000 + kept * 64;
  }

  /** The bits that were not answered yet are kept. */
  lemma Kept64(buffer: int)
    requires 0 <= buffer < 0x1_0000_0000
    ensures buffer % 0x400_0000 == 64 * (buffer % 0x400_0000 / 64) + buffer % 64
  {
    assert buffer == 64 * (0x10_0000 * (buffer / 0x400_0000)) + buffer % 0x400_0000;
  }

  lemma Kept16(buffer: int)
    requires 0 <= buffer < 0x1_0000_0000
    ensures buffer % 0x400_0000 == 16 * (buffer % 0x400_0000 / 16) + buffer % 16
  {
    assert buffer == 16 * (0x40_0000 * (buffer / 0x400_0000)) + buffer % 0x400_0000;
  }

  lemma Kept4(buffer: int)
    requires 0 <= buffer < 0x1_0000_0000
    ensures buffer % 0x400_0000 == 4 * (buffer % 0x400_0000 / 4) + buffer % 4
  {
    assert buffer == 4 * (0x100_0000 * (buffer / 0x400_0000)) + buffer % 0x400_0000;
  }

  /** One round of the decoder pushes one digit. */
  lemma Accumulate(unpacked: Unpacked, buffer: int, digit: Sextet)
    requires 0 <= buffer < 0x1_0000_0000 && Fits(unpacked) && unpacked.rest == buffer % Power(unpacked.bits)
    ensures var next, pushed := Shift(buffer, digit), Push(unpacked, digit);
      && pushed.rest == next % Power(pushed.bits)
      && pushed.bytes == unpacked.bytes + (if unpacked.bits == 0 then [] else [next / Power(pushed.bits) % 256])
  {
    match unpacked.bits {
      case 0 => Place0(buffer, digit);
      case 6 => Place6(buffer, digit);
      case 4 => Place4(buffer, digit);
      case _ => Place2(buffer, digit);
    }
  }

  lemma Place0(buffer: int, digit: Sextet)
    requires 0 <= buffer < 0x1_0000_0000
    ensures Shift(buffer, digit) % 64 == digit
  {
    Wrapped(buffer);
  }

  lemma Place6(buffer: int, digit: Sextet)
    requires 0 <= buffer < 0x1_0000_0000
    ensures Shift(buffer, digit) / 16 % 256 == buffer % 64 * 4 + digit as int / 16
    ensures Shift(buffer, digit) % 16 == digit as int % 16
  {
    Wrapped(buffer);
    Kept64(buffer);
    TopOfTwelve(buffer % 64, buffer % 0x400_0000 / 64, digit);
  }

  lemma Place4(buffer: int, digit: Sextet)
    requires 0 <= buffer < 0x1_0000_0000
    ensures Shift(buffer, digit) / 4 % 256 == buffer % 16 * 16 + digit as int / 4
    ensures Shift(buffer, digit) % 4 == digit as int % 4
  {
    Wrapped(buffer);
    Kept16(buffer);
    TopOfTen(buffer % 16, buffer % 0x400_0000 / 16, digit);
  }

  lemma Place2(buffer: int, digit: Sextet)
    requires 0 <= buffer < 0x1_0000_0000
    ensures Shift(buffer, digit) % 256 == buffer % 4 * 64 + digit
  {
    Wrapped(buffer);
    Kept4(buffer);
    TopOfEight(buffer % 4, buffer % 0x400_0000 / 4, digit);
  }

  lemma LetterHasValue(sextets: seq<Sextet>, letters: string, index: nat)
    requires letters == Letters(sextets) && index < |letters|
    ensures Value(letters[index]) >= 0
  {
    ValueOfLetter(sextets[index]);
  }

  /** Base64Helper::decode: an answer exactly for the encoded texts, and then the bytes they encode. */
  method Decode(text: string) returns (decoded: Option<seq<Byte>>)
    ensures decoded.Some? ==> text == Encoded(decoded.value)
    ensures decoded.None? ==> forall bytes: seq<Byte> :: text != Encoded(bytes)
  {
    var length := |text|;
    while length > 0 && |text| - length < 2 && text[length - 1] == '='
      invariant 0 <= length <= |text| && |text| - length <= 2
      invariant forall k | length <= k < |text| :: text[k] == '='
    {
      length := length - 1;
    }
    ghost var letters := text[..length];
    forall bytes: seq<Byte> | text == Encoded(bytes)
      ensures |text| % 4 == 0 && length % 4 != 1 && letters == Letters(Sextets(bytes))
    {
      EncodedLetters(bytes, text, length);
    }
    if |text| % 4 != 0 || length % 4 == 1 {
      return None;
    }
    var bytes: seq<Byte> := [];
    var buffer, bits, index := 0, 0, 0;
    ghost var sextets: seq<Sextet> := [];
    while index < length
      invariant 0 <= index <= length
      invariant |sextets| == index && Letters(sextets) == letters[..index]
      invariant 0 <= buffer < 0x1_0000_0000
      invariant Feed(Nothing, sextets) == Unpacked(bytes, buffer % Power(bits), bits)
    {
      var digit := Value(text[index]);
      if digit < 0 {
        forall original: seq<Byte>
          ensures text != Encoded(original)
        {
          if text == Encoded(original) {
            LetterHasValue(Sextets(original), letters, index);
          }
        }
        return None;
      }
      ghost var unpacked := Feed(Nothing, sextets);
      Accumulate(unpacked, buffer, digit);
      FeedConcat(Nothing, sextets, [digit]);
      FeedOne(unpacked, digit);
      assert Letters(sextets + [digit]) == letters[..index + 1];
      sextets := sextets + [digit];
      buffer := Shift(buffer, digit);
      bits := bits + 6;
      if bits >= 8 {
        bits := bits - 8;
        bytes := bytes + [buffer / Power(bits) % 256];
      }
      index := index + 1;
    }
    assert letters[..index] == letters;
    if bits > 0 && buffer % Power(bits) != 0 {
      forall original: seq<Byte>
        ensures text != Encoded(original)
      {
        if text == Encoded(original) {
          LettersInjective(sextets, Sextets(original));
          FeedSextets(Nothing, original);
        }
      }
      return None;
    }
    DecodedEncodes(text, length, sextets);
    return Some(bytes);
  }

  lemma LeftHalfway(count: nat)
    ensures Left(0) == 0 && (Left(count) == 6 <==> count % 4 == 1)
  {
  }

  /** A text of whole groups whose letters leave no bit over encodes the bytes they unpack to. */
  lemma DecodedEncodes(text: string, length: nat, sextets: seq<Sextet>)
    requires length <= |text| && |text| - length <= 2 && |text| % 4 == 0 && length % 4 != 1
    requires forall k | length <= k < |text| :: text[k] == '='
    requires text[..length] == Letters(sextets) && Feed(Nothing, sextets).rest == 0
    ensures text == Encoded(Feed(Nothing, sextets).bytes)
  {
    hide Feed, Sextets, Padding, Letters, Left;
    LeftHalfway(|sextets|);
    BitsOfLength(Nothing, sextets, 0);
    var bytes := SextetsOfFed(Nothing, sextets);
    assert [] + bytes == bytes;
    EncodedShape(bytes);
    PaddingUnique(length, |text| - length, |Padding(bytes)|);
    assert text[length..] == Padding(bytes);
    assert text == text[..length] + text[length..];
  }
}
