/** src/files/TextSearch.cpp: one pass over the folded file against a search of it line by line. */
module TextSearch {
  import opened Foundation
  import opened Utf8
  import TreeWalk

  const NEWLINE: Byte := 10
  const RETURN: Byte := 13
  const MATCH_CHARACTERS: nat := 400

  // ----- Folding, finding and trimming ---------------------------------------------------------------

  function FoldByte(byte: Byte): Byte {
    if 65 <= byte <= 90 then byte + 32 else byte
  }

  /** The text in lowercase ASCII letters. */
  function Fold(text: seq<Byte>): (folded: seq<Byte>)
    ensures |folded| == |text|
    ensures forall k | 0 <= k < |text| :: folded[k] == FoldByte(text[k])
  {
    seq(|text|, k requires 0 <= k < |text| => FoldByte(text[k]))
  }

  /** The letters from A to Z are lowered, and nothing else is changed. */
  lemma FoldLowersLetters(text: seq<Byte>, k: nat)
    requires k < |text|
    ensures 'A' as int <= text[k] <= 'Z' as int ==> Fold(text)[k] - 'a' as int == text[k] - 'A' as int
    ensures !('A' as int <= text[k] <= 'Z' as int) ==> Fold(text)[k] == text[k]
  {
  }

  /** TextSearch::folded, letter by letter in place. */
  method Folded(text: seq<Byte>) returns (lowered: seq<Byte>)
    ensures lowered == Fold(text)
  {
    lowered := text;
    for k := 0 to |text|
      invariant |lowered| == |text|
      invariant forall j | 0 <= j < |text| :: lowered[j] == if j < k then FoldByte(text[j]) else text[j]
    {
      if 65 <= lowered[k] <= 90 {
        lowered := lowered[k := lowered[k] + 32];
      }
    }
  }

  /** The text stands at a place of the folded haystack. */
  predicate OccursAt(haystack: seq<Byte>, wanted: seq<Byte>, at: int) {
    0 <= at <= |haystack| - |wanted| && haystack[at..at + |wanted|] == wanted
  }

  /** std::string::find: the first place from `from` on. */
  function Find(haystack: seq<Byte>, wanted: seq<Byte>, from: nat): (found: Option<nat>)
    ensures found.Some? ==> found.value >= from && OccursAt(haystack, wanted, found.value)
    ensures forall k | from <= k && (found.Some? ==> k < found.value) :: !OccursAt(haystack, wanted, k)
    decreases |haystack| - from
  {
    if from + |wanted| > |haystack| then None
    else if haystack[from..from + |wanted|] == wanted then Some(from)
    else Find(haystack, wanted, from + 1)
  }

  predicate Blank(byte: Byte) {
    byte == 32 || byte == 9 || byte == 13
  }

  /** The line without the blanks at its ends. */
  function Trimmed(line: seq<Byte>): (trimmed: seq<Byte>)
    ensures trimmed != [] ==> !Blank(trimmed[0]) && !Blank(trimmed[|trimmed| - 1])
    ensures trimmed == [] ==> forall k | 0 <= k < |line| :: Blank(line[k])
    decreases |line|
  {
    if line == [] then []
    else if Blank(line[0]) then
      var rest := line[1..];
      assert forall k | 1 <= k < |line| :: line[k] == rest[k - 1];
      Trimmed(rest)
    else if Blank(line[|line| - 1]) then
      assert line[..|line| - 1][0] == line[0];
      Trimmed(line[..|line| - 1])
    else line
  }

  /** Outside the slice the line is blank. */
  predicate Around(line: seq<Byte>, from: nat, to: nat) {
    from <= to <= |line| && forall k | 0 <= k < |line| && !(from <= k < to) ::
      line[k] == ' ' as int || line[k] == '\t' as int || line[k] == '\r' as int
  }

  lemma AroundBehind(line: seq<Byte>, from: nat, to: nat)
    requires line != [] && Blank(line[0]) && Around(line[1..], from, to)
    ensures Around(line, from + 1, to + 1) && line[from + 1..to + 1] == line[1..][from..to]
  {
    assert forall k | 1 <= k < |line| :: line[k] == line[1..][k - 1];
  }

  lemma AroundFront(line: seq<Byte>, from: nat, to: nat)
    requires line != [] && Blank(line[|line| - 1]) && Around(line[..|line| - 1], from, to)
    ensures Around(line, from, to) && line[from..to] == line[..|line| - 1][from..to]
  {
    assert forall k | 0 <= k < |line| - 1 :: line[k] == line[..|line| - 1][k];
  }

  /** The trimmed line is a slice of the line, and what lies outside it is blank. */
  lemma {:induction false} TrimmedIsSlice(line: seq<Byte>) returns (from: nat, to: nat)
    ensures Around(line, from, to) && from <= to <= |line| && Trimmed(line) == line[from..to]
    decreases |line|
  {
    hide Around;
    if line != [] && Blank(line[0]) {
      from, to := TrimmedIsSlice(line[1..]);
      AroundBehind(line, from, to);
      from, to := from + 1, to + 1;
    } else if line != [] && Blank(line[|line| - 1]) {
      from, to := TrimmedIsSlice(line[..|line| - 1]);
      AroundFront(line, from, to);
    } else {
      from, to := 0, |line|;
      AroundAll(line);
    }
  }

  /** No blank stands at either end of the trimmed line. */
  lemma TrimmedEnds(line: seq<Byte>, blank: Byte)
    requires blank == ' ' as int || blank == '\t' as int || blank == '\r' as int
    ensures Trimmed(line) != [] ==> Trimmed(line)[0] != blank && Trimmed(line)[|Trimmed(line)| - 1] != blank
  {
  }

  lemma AroundAll(line: seq<Byte>)
    ensures Around(line, 0, |line|) && line[0..|line|] == line
  {
  }

  // ----- The reference: line by line -----------------------------------------------------------------------

  datatype Match = Match(path: string, line: nat, text: seq<Byte>)

  /** Where the line that reaches over `at` ends. */
  function LineEnd(content: seq<Byte>, at: nat): (end: nat)
    requires at <= |content|
    ensures at <= end <= |content|
    ensures end == |content| || content[end] == NEWLINE
    ensures forall k | at <= k < end :: content[k] != NEWLINE
    decreases |content| - at
  {
    if at == |content| || content[at] == NEWLINE then at else LineEnd(content, at + 1)
  }

  predicate Contains(line: seq<Byte>, wanted: seq<Byte>) {
    exists k | 0 <= k <= |line| :: OccursAt(Fold(line), wanted, k)
  }

  /** What is answered of a line. */
  function Reported(line: seq<Byte>): seq<Byte> {
    var trimmed := Trimmed(line);
    var span := Span(trimmed, MATCH_CHARACTERS);
    trimmed[..if span <= |trimmed| then span else |trimmed|]
  }

  method Report(line: seq<Byte>) returns (text: seq<Byte>)
    ensures text == Reported(line)
  {
    text := Truncated(Trimmed(line), MATCH_CHARACTERS);
  }

  /** What one line adds to the answer. */
  function LineMatch(path: string, number: nat, line: seq<Byte>, wanted: seq<Byte>): seq<Match> {
    if Contains(line, wanted) then [Match(path, number, Reported(line))] else []
  }

  /** The lines from `start` on that contain the text, each once with its number. */
  function LineMatches(path: string, content: seq<Byte>, wanted: seq<Byte>, start: nat, number: nat): seq<Match>
    decreases |content| + 1 - start
  {
    if start > |content| then []
    else
      var end := LineEnd(content, start);
      LineMatch(path, number, content[start..end], wanted) + LineMatches(path, content, wanted, end + 1, number + 1)
  }

  // ----- Places of the whole file and places of a line -----------------------------------------------------

  /** A place inside a line of the file is a place of that line. */
  lemma OccursInLine(content: seq<Byte>, wanted: seq<Byte>, start: nat, end: nat, at: int)
    requires start <= end <= |content|
    ensures OccursAt(Fold(content[start..end]), wanted, at - start) <==>
        start <= at <= end - |wanted| && OccursAt(Fold(content), wanted, at)
  {
    var line := Fold(content[start..end]);
    assert line == Fold(content)[start..end];
    if start <= at <= end - |wanted| {
      assert line[at - start..at - start + |wanted|] == Fold(content)[at..at + |wanted|];
    }
  }

  /** A text without line breaks stands inside one line. */
  lemma OccurrenceInOneLine(content: seq<Byte>, wanted: seq<Byte>, at: nat)
    requires OccursAt(Fold(content), wanted, at) && NEWLINE !in wanted
    ensures at + |wanted| <= LineEnd(content, at)
  {
    var part := Fold(content)[at..at + |wanted|];
    assert forall k | 0 <= k < |wanted| :: part[k] == FoldByte(content[at + k]) == wanted[k];
    assert forall k | at <= k < at + |wanted| :: content[k] != NEWLINE by {
      forall k | at <= k < at + |wanted|
        ensures content[k] != NEWLINE
      {
        assert part[k - at] == wanted[k - at];
      }
    }
  }

  lemma ContainsNot(content: seq<Byte>, wanted: seq<Byte>, start: nat, end: nat)
    requires start <= end <= |content|
    requires forall k | start <= k <= end - |wanted| :: !OccursAt(Fold(content), wanted, k)
    ensures !Contains(content[start..end], wanted)
  {
    forall k
      ensures !OccursAt(Fold(content[start..end]), wanted, k)
    {
      OccursInLine(content, wanted, start, end, start + k);
    }
  }

  /** The answer from a line on is what the line adds and the answer from the next line on. */
  lemma LineStep(path: string, content: seq<Byte>, wanted: seq<Byte>, start: nat, number: nat, end: nat,
      found: seq<Match>, later: seq<Match>)
    requires start <= end <= |content| && end == LineEnd(content, start)
    requires found == LineMatch(path, number, content[start..end], wanted)
    requires later == LineMatches(path, content, wanted, end + 1, number + 1)
    ensures LineMatches(path, content, wanted, start, number) == found + later
  {
    hide LineEnd, LineMatch;
  }

  /** A line before the first place holds nothing. */
  lemma LineWithout(path: string, content: seq<Byte>, wanted: seq<Byte>, start: nat, number: nat, end: nat,
      later: seq<Match>)
    requires start <= end <= |content| && end == LineEnd(content, start)
    requires forall k | start <= k <= end - |wanted| :: !OccursAt(Fold(content), wanted, k)
    requires later == LineMatches(path, content, wanted, end + 1, number + 1)
    ensures LineMatches(path, content, wanted, start, number) == later
  {
    ContainsNot(content, wanted, start, end);
    LineStep(path, content, wanted, start, number, end, [], later);
  }

  /** The line of a place holds the text. */
  lemma ContainsThere(content: seq<Byte>, wanted: seq<Byte>, start: nat, at: nat, end: nat)
    requires start <= at && OccursAt(Fold(content), wanted, at) && NEWLINE !in wanted
    requires end == LineEnd(content, at)
    ensures Contains(content[start..end], wanted)
  {
    OccurrenceInOneLine(content, wanted, at);
    OccursInLine(content, wanted, start, end, at);
  }

  /** The line of a place is the next one answered. */
  lemma LineWith(path: string, content: seq<Byte>, wanted: seq<Byte>, start: nat, number: nat, at: nat, end: nat)
    requires start <= at && OccursAt(Fold(content), wanted, at) && NEWLINE !in wanted
    requires forall k | start <= k < at :: content[k] != NEWLINE
    requires end == LineEnd(content, at)
    ensures LineMatches(path, content, wanted, start, number) ==
              [Match(path, number, Reported(content[start..end]))]
                  + LineMatches(path, content, wanted, end + 1, number + 1)
  {
    LineEndSame(content, start, at);
    ContainsThere(content, wanted, start, at, end);
    LineStep(path, content, wanted, start, number, end, [Match(path, number, Reported(content[start..end]))],
        LineMatches(path, content, wanted, end + 1, number + 1));
  }

  lemma {:induction false} LineEndSame(content: seq<Byte>, start: nat, at: nat)
    requires start <= at <= |content| && forall k | start <= k < at :: content[k] != NEWLINE
    ensures LineEnd(content, start) == LineEnd(content, at)
    decreases at - start
  {
    if start < at {
      LineEndSame(content, start + 1, at);
    }
  }

  /** Without a further place no line from there on holds the text. */
  lemma {:induction false} NoMoreLines(path: string, content: seq<Byte>, wanted: seq<Byte>, start: nat, number: nat)
    requires forall k | start <= k :: !OccursAt(Fold(content), wanted, k)
    ensures LineMatches(path, content, wanted, start, number) == []
    decreases |content| + 1 - start
  {
    if start <= |content| {
      var end := LineEnd(content, start);
      NoMoreLines(path, content, wanted, end + 1, number + 1);
      LineWithout(path, content, wanted, start, number, end, []);
    }
  }

  // ----- One file ------------------------------------------------------------------------------------------

  /** What may be kept of further matches when `kept` are there already. */
  function UpTo<T>(kept: seq<T>, more: seq<T>, maximum: nat): seq<T>
    requires |kept| <= maximum
  {
    kept + more[..if |kept| + |more| <= maximum then |more| else maximum - |kept|]
  }

  /** What is left of a search: with what is kept it makes the answer of the whole. */
  ghost predicate Ahead(before: seq<Match>, all: seq<Match>, kept: seq<Match>, rest: seq<Match>, maximum: nat)
    requires |before| <= maximum
  {
    |kept| <= maximum && UpTo(before, all, maximum) == UpTo(kept, rest, maximum) && |before| + |all| == |kept| + |rest|
  }

  lemma AheadStart(before: seq<Match>, all: seq<Match>, maximum: nat)
    requires |before| <= maximum
    ensures Ahead(before, all, before, all, maximum)
  {
  }

  lemma AheadStep(before: seq<Match>, all: seq<Match>, kept: seq<Match>, one: Match, rest: seq<Match>, maximum: nat)
    requires |before| <= maximum && Ahead(before, all, kept, [one] + rest, maximum)
    ensures if |kept| == maximum then UpTo(before, all, maximum) == kept && |before| + |all| > maximum
      else Ahead(before, all, kept + [one], rest, maximum)
  {
  }

  lemma AheadDone(before: seq<Match>, all: seq<Match>, kept: seq<Match>, maximum: nat)
    requires |before| <= maximum && Ahead(before, all, kept, [], maximum)
    ensures UpTo(before, all, maximum) == kept && |before| + |all| <= maximum
  {
  }

  /** The inner loop: lines are counted up to a place, and none of those passed holds the text. */
  method CountLines(ghost path: string, content: seq<Byte>, ghost wanted: seq<Byte>, start: nat, number: nat,
      at: nat, ghost rest: seq<Match>)
    returns (line: nat, lineStart: nat)
    requires start <= at <= |content|
    requires forall k | start <= k < at :: !OccursAt(Fold(content), wanted, k)
    requires rest == LineMatches(path, content, wanted, start, number)
    ensures start <= lineStart <= at && forall k | lineStart <= k < at :: content[k] != NEWLINE
    ensures rest == LineMatches(path, content, wanted, lineStart, line)
  {
    hide LineMatches, Fold;
    line, lineStart := number, start;
    var counted := start;
    while counted < at
      invariant start <= lineStart <= counted <= at
      invariant forall k | lineStart <= k < counted :: content[k] != NEWLINE
      invariant rest == LineMatches(path, content, wanted, lineStart, line)
    {
      if content[counted] == NEWLINE {
        LineEndSame(content, lineStart, counted);
        ghost var later := LineMatches(path, content, wanted, counted + 1, line + 1);
        LineWithout(path, content, wanted, lineStart, line, counted, later);
        line := line + 1;
        lineStart := counted + 1;
      }
      counted := counted + 1;
    }
  }

  /**
   * The part of the visitor that reads one file as text: every line that contains the text, once and in order, as
   * long as there is room.
   */
  method SearchContent(path: string, content: seq<Byte>, wanted: seq<Byte>, before: seq<Match>,
      maximum: nat) returns (matches: seq<Match>, room: bool)
    requires NEWLINE !in wanted && |before| <= maximum
    ensures matches == UpTo(before, LineMatches(path, content, wanted, 0, 1), maximum)
    ensures room <==> |before| + |LineMatches(path, content, wanted, 0, 1)| <= maximum
  {
    hide LineMatches, UpTo, Ahead, Reported, Fold;
    var haystack := Folded(content);
    ghost var all := LineMatches(path, content, wanted, 0, 1);
    matches := before;
    var line, lineStart := 1, 0;
    ghost var rest := all;
    AheadStart(before, all, maximum);
    var at := Find(haystack, wanted, 0);
    while at.Some?
      invariant 0 <= lineStart && 0 <= line
      invariant at.Some? ==> lineStart <= at.value && OccursAt(haystack, wanted, at.value)
      invariant forall k | lineStart <= k && (at.Some? ==> k < at.value) :: !OccursAt(haystack, wanted, k)
      invariant rest == LineMatches(path, content, wanted, lineStart, line)
      invariant |matches| <= maximum && Ahead(before, all, matches, rest, maximum)
      decreases |content| + 1 - lineStart
    {
      line, lineStart := CountLines(path, content, wanted, lineStart, line, at.value, rest);
      var lineEnd := LineEnd(content, at.value);
      var number, found := line, content[lineStart..lineEnd];
      ghost var one := Match(path, number, Reported(found));
      line := line + 1;
      ghost var later := LineMatches(path, content, wanted, lineEnd + 1, line);
      LineWith(path, content, wanted, lineStart, number, at.value, lineEnd);
      AheadStep(before, all, matches, one, later, maximum);
      if |matches| == maximum {
        return matches, false;
      }
      var kept := Report(found);
      matches := matches + [Match(path, number, kept)];
      lineStart := lineEnd + 1;
      rest := later;
      at := if lineStart > |content| then None else Find(haystack, wanted, lineStart);
    }
    NoMoreLines(path, content, wanted, lineStart, line);
    AheadDone(before, all, matches, maximum);
    return matches, true;
  }

  // ----- The answers of one file, read from its lines ---------------------------------------------------

  /** The lines of a file from a place on, without their line breaks. */
  function Lines(content: seq<Byte>, start: nat): (lines: seq<seq<Byte>>)
    decreases |content| + 1 - start
  {
    if start > |content| then []
    else [content[start..LineEnd(content, start)]] + Lines(content, LineEnd(content, start) + 1)
  }

  function Joined(lines: seq<seq<Byte>>): seq<Byte> {
    if |lines| == 0 then []
    else if |lines| == 1 then lines[0]
    else lines[0] + [NEWLINE] + Joined(lines[1..])
  }

  lemma JoinedStep(line: seq<Byte>, later: seq<seq<Byte>>)
    ensures Joined([line] + later) == if later == [] then line else line + [NEWLINE] + Joined(later)
  {
    assert ([line] + later)[1..] == later;
  }

  lemma LinesStep(content: seq<Byte>, start: nat)
    ensures start > |content| ==> Lines(content, start) == []
    ensures start <= |content| ==>
              Lines(content, start) == [content[start..LineEnd(content, start)]]
                  + Lines(content, LineEnd(content, start) + 1)
  {
    hide LineEnd;
  }

  /** The lines are the file, cut at line breaks. */
  lemma {:induction false} LinesJoin(content: seq<Byte>, start: nat)
    requires start <= |content|
    ensures Lines(content, start) != [] && Joined(Lines(content, start)) == content[start..]
    decreases |content| - start
  {
    hide Joined, LineEnd, Lines;
    var end := LineEnd(content, start);
    LinesStep(content, start);
    LinesStep(content, end + 1);
    JoinedStep(content[start..end], Lines(content, end + 1));
    if end < |content| {
      LinesJoin(content, end + 1);
      CutAtBreak(content, start, end);
    }
  }

  lemma CutAtBreak(content: seq<Byte>, start: nat, end: nat)
    requires start <= end < |content| && content[end] == NEWLINE
    ensures content[start..] == content[start..end] + [NEWLINE] + content[end + 1..]
  {
  }

  /** No line break is left in a line. */
  lemma {:induction false} LinesUnbroken(content: seq<Byte>, start: nat)
    ensures forall k | 0 <= k < |Lines(content, start)| :: NEWLINE !in Lines(content, start)[k]
    decreases |content| + 1 - start
  {
    hide LineEnd;
    if start <= |content| {
      LinesUnbroken(content, LineEnd(content, start) + 1);
    }
  }

  /** A match answers one line of the file that contains the text, under the number of that line. */
  ghost predicate Answers(one: Match, path: string, lines: seq<seq<Byte>>, wanted: seq<Byte>, number: nat) {
    && number <= one.line < number + |lines|
    && Contains(lines[one.line - number], wanted)
    && one == Match(path, one.line, Reported(lines[one.line - number]))
  }

  /** Exactly the lines that contain the text are answered, each once, in order and under its own number. */
  lemma MatchesAreLines(path: string, content: seq<Byte>, wanted: seq<Byte>, start: nat, number: nat)
    ensures forall i | 0 <= i < |LineMatches(path, content, wanted, start, number)| ::
              Answers(LineMatches(path, content, wanted, start, number)[i], path, Lines(content, start), wanted, number)
    ensures forall i, j | 0 <= i < j < |LineMatches(path, content, wanted, start, number)| ::
              LineMatches(path, content, wanted, start, number)[i].line < LineMatches(path, content, wanted, start,
                  number)[j].line
    ensures forall k | 0 <= k < |Lines(content, start)| && Contains(Lines(content, start)[k], wanted) ::
              Match(path, number + k, Reported(Lines(content, start)[k])) in LineMatches(path, content, wanted,
                  start, number)
  {
    hide LineMatches, Lines, Answers;
    MatchesInOrder(path, content, wanted, start, number);
  }

  lemma {:induction false} MatchesInOrder(path: string, content: seq<Byte>, wanted: seq<Byte>, start: nat, number: nat)
    ensures InOrder(LineMatches(path, content, wanted, start, number), path, Lines(content, start), wanted, number)
    decreases |content| + 1 - start
  {
    hide *;
    LinesStep(content, start);
    if start <= |content| {
      var end := LineEnd(content, start);
      var found := LineMatch(path, number, content[start..end], wanted);
      var later := LineMatches(path, content, wanted, end + 1, number + 1);
      MatchesInOrder(path, content, wanted, end + 1, number + 1);
      MatchesPrepend(path, content[start..end], Lines(content, end + 1), wanted, number, later);
      LineStep(path, content, wanted, start, number, end, found, later);
    } else {
      NothingBeyond(path, content, wanted, start, number);
    }
  }

  lemma NothingBeyond(path: string, content: seq<Byte>, wanted: seq<Byte>, start: nat, number: nat)
    requires start > |content|
    ensures InOrder(LineMatches(path, content, wanted, start, number), path, [], wanted, number)
  {
  }

  ghost predicate InOrder(found: seq<Match>, path: string, lines: seq<seq<Byte>>, wanted: seq<Byte>, number: nat) {
    && (forall i | 0 <= i < |found| :: Answers(found[i], path, lines, wanted, number))
    && (forall i, j | 0 <= i < j < |found| :: found[i].line < found[j].line)
    && (forall k | 0 <= k < |lines|
        && Contains(lines[k], wanted) :: Match(path, number + k, Reported(lines[k])) in found)
  }

  lemma MatchesPrepend(path: string, line: seq<Byte>, lines: seq<seq<Byte>>, wanted: seq<Byte>, number: nat,
      later: seq<Match>)
    requires InOrder(later, path, lines, wanted, number + 1)
    ensures InOrder(LineMatch(path, number, line, wanted) + later, path, [line] + lines, wanted, number)
  {
    hide Reported, Contains;
    var first, all := LineMatch(path, number, line, wanted), [line] + lines;
    var found := first + later;
    forall i | 0 <= i < |found|
      ensures Answers(found[i], path, all, wanted, number)
      ensures |first| <= i ==> number < found[i].line
    {
      if |first| <= i {
        assert Answers(later[i - |first|], path, lines, wanted, number + 1);
        assert all[found[i].line - number] == lines[found[i].line - number - 1];
      }
    }
    forall k | 0 <= k < |all| && Contains(all[k], wanted)
      ensures Match(path, number + k, Reported(all[k])) in found
    {
      if k == 0 {
        assert found[0] == Match(path, number, Reported(line));
      } else {
        assert all[k] == lines[k - 1];
        assert Match(path, number + 1 + (k - 1), Reported(lines[k - 1])) in later;
      }
    }
  }

  /** A text that holds a line break is held by no line, so nothing is lost when it is not looked for. */
  lemma NoLineHoldsBreak(content: seq<Byte>, wanted: seq<Byte>, k: nat)
    requires NEWLINE in wanted && k < |Lines(content, 0)|
    ensures !Contains(Lines(content, 0)[k], wanted)
  {
    LinesUnbroken(content, 0);
    var line := Lines(content, 0)[k];
    forall at
      ensures !OccursAt(Fold(line), wanted, at)
    {
      if OccursAt(Fold(line), wanted, at) {
        OccurrenceHasNoBreak(line, wanted, at);
      }
    }
  }

  lemma OccurrenceHasNoBreak(line: seq<Byte>, wanted: seq<Byte>, at: int)
    requires OccursAt(Fold(line), wanted, at) && NEWLINE !in line
    ensures NEWLINE !in wanted
  {
    forall b | 0 <= b < |wanted|
      ensures wanted[b] != NEWLINE
    {
      assert Fold(line)[at..at + |wanted|][b] == FoldByte(line[at + b]);
      assert line[at + b] in line;
    }
  }

  // ----- The text of an answer -----------------------------------------------------------------------------

  lemma {:induction false} TrimmedIsText(line: seq<Byte>)
    requires WellFormed(line)
    ensures WellFormed(Trimmed(line))
    decreases |line|
  {
    if line != [] {
      if Blank(line[0]) {
        TrimmedIsText(line[1..]);
      } else if Blank(line[|line| - 1]) {
        WellFormedCut(line, |line| - 1);
        TrimmedIsText(line[..|line| - 1]);
      }
    }
  }

  /**
   * What is answered of a line is text of at most 400 characters that the trimmed line starts with, and the whole of
   * it when it is not longer.
   */
  lemma ReportedIsText(line: seq<Byte>)
    requires WellFormed(line)
    ensures WellFormed(Trimmed(line)) && WellFormed(Reported(line))
    ensures Reported(line) <= Trimmed(line)
    ensures |Characters(Reported(line))| <= MATCH_CHARACTERS
    ensures |Characters(Trimmed(line))| <= MATCH_CHARACTERS ==> Reported(line) == Trimmed(line)
    ensures |Characters(Trimmed(line))| > MATCH_CHARACTERS ==> |Characters(Reported(line))| == MATCH_CHARACTERS
  {
    TrimmedIsText(line);
    var trimmed := Trimmed(line);
    var characters := Characters(trimmed);
    TruncatedKeepsCharacters(characters, MATCH_CHARACTERS);
    EncodingIsWellFormed(if MATCH_CHARACTERS < |characters| then characters[..MATCH_CHARACTERS] else characters);
  }

  lemma LineIsText(content: seq<Byte>, start: nat, end: nat)
    requires start <= end <= |content| && WellFormed(content[start..]) && (end == |content| || content[end] == NEWLINE)
    ensures WellFormed(content[start..end])
    ensures end < |content| ==> WellFormed(content[end + 1..])
  {
    var rest := content[start..];
    WellFormedCut(rest, end - start);
    assert rest[..end - start] == content[start..end];
    if end < |content| {
      DropDrop(content, start, end - start);
      assert content[end..][1..] == content[end + 1..];
    }
  }

  /** The lines of a well-formed file are well formed. */
  lemma {:induction false} LinesAreText(content: seq<Byte>, start: nat)
    requires start <= |content| ==> WellFormed(content[start..])
    ensures forall k | 0 <= k < |Lines(content, start)| :: WellFormed(Lines(content, start)[k])
    decreases |content| + 1 - start
  {
    hide WellFormed;
    if start <= |content| {
      LineIsText(content, start, LineEnd(content, start));
      LinesAreText(content, LineEnd(content, start) + 1);
    }
  }

  /** Every text answered of a well-formed file is valid UTF-8 of at most 400 characters. */
  lemma AnswersAreText(path: string, content: seq<Byte>, wanted: seq<Byte>)
    requires WellFormed(content)
    ensures forall i | 0 <= i < |LineMatches(path, content, wanted, 0, 1)| ::
              && WellFormed(LineMatches(path, content, wanted, 0, 1)[i].text)
              && |Characters(LineMatches(path, content, wanted, 0, 1)[i].text)| <= MATCH_CHARACTERS
  {
    hide Reported, Contains, Lines, LineMatches;
    assert content[0..] == content;
    var lines, found := Lines(content, 0), LineMatches(path, content, wanted, 0, 1);
    LinesAreText(content, 0);
    MatchesAreLines(path, content, wanted, 0, 1);
    forall i | 0 <= i < |found|
      ensures WellFormed(found[i].text) && |Characters(found[i].text)| <= MATCH_CHARACTERS
    {
      assert Answers(found[i], path, lines, wanted, 1);
      ReportedIsText(lines[found[i].line - 1]);
    }
  }

  // ----- All the files of a walk ---------------------------------------------------------------------------

  /** What the machine answers of a file: no size, a size but not that many bytes, or all its bytes. */
  datatype File = NoSize | Unread(size: nat) | Read(bytes: seq<Byte>)

  function Size(file: File): Option<nat> {
    match file
    case NoSize => None
    case Unread(size) => Some(size)
    case Read(bytes) => Some(|bytes|)
  }

  /** The file was looked at, or is not one to look at. */
  predicate Reached(file: File, maximumBytes: nat) {
    file.Read? || (file.Unread? && (file.size == 0 || file.size > maximumBytes))
  }

  /** A file is searched when it holds text: within the bound, without a NUL byte and spelled as UTF-8. */
  predicate HoldsText(file: File, maximumBytes: nat) {
    file.Read? && 0 < |file.bytes| <= maximumBytes && 0 !in file.bytes && WellFormed(file.bytes)
  }

  function FileMatches(path: string, file: File, wanted: seq<Byte>, maximumBytes: nat): seq<Match> {
    if HoldsText(file, maximumBytes) then LineMatches(path, file.bytes, wanted, 0, 1) else []
  }

  /** The matching lines of every file, file by file. */
  function AllMatches(files: seq<(string, File)>, wanted: seq<Byte>, maximumBytes: nat): seq<Match> {
    if files == [] then []
    else FileMatches(files[0].0, files[0].1, wanted, maximumBytes) + AllMatches(files[1..], wanted, maximumBytes)
  }

  lemma AheadFile(before: seq<Match>, all: seq<Match>, kept: seq<Match>, found: seq<Match>, later: seq<Match>,
      maximum: nat)
    requires |before| <= maximum && |kept| <= maximum && Ahead(before, all, kept, found + later, maximum)
    ensures if |kept| + |found| <= maximum then Ahead(before, all, UpTo(kept, found, maximum), later, maximum)
      else UpTo(before, all, maximum) == UpTo(kept, found, maximum) && |before| + |all| > maximum
  {
    if |kept| + |found| <= maximum {
      Associative(kept, found, later);
      assert UpTo(kept, found, maximum) == kept + found;
      var cut := if |kept| + |found| + |later| <= maximum then |later| else maximum - |kept| - |found|;
      assert (found + later)[..|found| + cut] == found + later[..cut];
      Associative(kept, found, later[..cut]);
    } else {
      assert (found + later)[..maximum - |kept|] == found[..maximum - |kept|];
    }
  }

  lemma ReachedNext(files: seq<(string, File)>, visited: nat, maximumBytes: nat)
    requires visited < |files|
    ensures AllReached(files[..visited + 1], maximumBytes) <==>
        AllReached(files[..visited], maximumBytes) && Reached(files[visited].1, maximumBytes)
  {
    assert files[..visited + 1] == files[..visited] + [files[visited]];
  }

  predicate AllReached(files: seq<(string, File)>, maximumBytes: nat) {
    forall k | 0 <= k < |files| :: Reached(files[k].1, maximumBytes)
  }

  /** The found lines that the visitor fills. */
  class Search {
    var matches: seq<Match>
    var complete: bool

    constructor ()
      ensures matches == [] && complete
    {
      matches, complete := [], true;
    }

    /** The visitor of one file; it answers whether the walk goes on. */
    method Visit(path: string, file: File, wanted: seq<Byte>, maximumMatches: nat,
        maximumBytes: nat) returns (onward: bool)
      requires NEWLINE !in wanted && |matches| <= maximumMatches
      modifies this
      ensures matches == UpTo(old(matches), FileMatches(path, file, wanted, maximumBytes), maximumMatches)
      ensures onward <==> |old(matches)| + |FileMatches(path, file, wanted, maximumBytes)| <= maximumMatches
      ensures complete == (old(complete) && onward && Reached(file, maximumBytes))
    {
      hide LineMatches;
      match Size(file)
      case None =>
        complete := false;
        return true;
      case Some(size) =>
        if size == 0 || size > maximumBytes {
          return true;
        }
        if !file.Read? {
          complete := false;
          return true;
        }
        var text := Valid(file.bytes);
        WellFormedIffEncoding(file.bytes);
        if 0 in file.bytes || !text {
          return true;
        }
        matches, onward := SearchContent(path, file.bytes, wanted, matches, maximumMatches);
        complete := complete && onward;
    }
  }

  /** A text that spans lines is looked for in no file. */
  predicate Spans(wanted: seq<Byte>) {
    NEWLINE in wanted || RETURN in wanted
  }

  /** What is answered of the files a walk hands out. */
  function Answer(text: seq<Byte>, files: seq<(string, File)>, maximumMatches: nat, maximumBytes: nat): (seq<Match>,
      bool) {
    var wanted := Fold(text);
    if Spans(wanted) then ([], true)
    else
      var all := AllMatches(files, wanted, maximumBytes);
      (UpTo([], all, maximumMatches), |all| <= maximumMatches && AllReached(files, maximumBytes))
  }

  /**
   * TextSearch::search over the files a walk hands out: the first lines that contain the text, up to the bound, and
   * whether those are all.
   */
  method SearchFiles(text: seq<Byte>, files: seq<(string, File)>, maximumMatches: nat,
      maximumBytes: nat) returns (matches: seq<Match>, complete: bool)
    ensures (matches, complete) == Answer(text, files, maximumMatches, maximumBytes)
  {
    hide UpTo, Ahead, FileMatches, Reached, Fold;
    var found := new Search();
    var wanted := Folded(text);
    if NEWLINE in wanted || RETURN in wanted {
      return [], true;
    }
    ghost var all := AllMatches(files, wanted, maximumBytes);
    ghost var rest := all;
    AheadStart([], all, maximumMatches);
    var visited := 0;
    assert files[0..] == files && AllReached(files[..0], maximumBytes);
    while visited < |files|
      invariant 0 <= visited <= |files| && |found.matches| <= maximumMatches && fresh(found)
      invariant rest == AllMatches(files[visited..], wanted, maximumBytes)
      invariant Ahead([], all, found.matches, rest, maximumMatches)
      invariant found.complete <==> AllReached(files[..visited], maximumBytes)
    {
      ghost var kept := found.matches;
      var onward := found.Visit(files[visited].0, files[visited].1, wanted, maximumMatches, maximumBytes);
      ghost var here := FileMatches(files[visited].0, files[visited].1, wanted, maximumBytes);
      ghost var later := AllMatches(files[visited + 1..], wanted, maximumBytes);
      assert files[visited..][1..] == files[visited + 1..];
      AheadFile([], all, kept, here, later, maximumMatches);
      ReachedNext(files, visited, maximumBytes);
      if !onward {
        return found.matches, found.complete;
      }
      rest := later;
      visited := visited + 1;
    }
    AheadDone([], all, found.matches, maximumMatches);
    assert files[..visited] == files;
    return found.matches, found.complete;
  }

  // ----- What refusing a text costs ------------------------------------------------------------------------

  predicate LineHolds(content: seq<Byte>, wanted: seq<Byte>) {
    exists k | 0 <= k < |Lines(content, 0)| :: Contains(Lines(content, 0)[k], wanted)
  }

  /** No line of a file that is searched contains the text. */
  predicate NoLineHolds(files: seq<(string, File)>, wanted: seq<Byte>, maximumBytes: nat) {
    forall k | 0 <= k < |files| && HoldsText(files[k].1, maximumBytes) :: !LineHolds(files[k].1.bytes, wanted)
  }

  lemma NoMatchIffNoLine(path: string, content: seq<Byte>, wanted: seq<Byte>)
    ensures LineMatches(path, content, wanted, 0, 1) == [] <==> !LineHolds(content, wanted)
  {
    hide LineMatches, Lines, Contains, Reported;
    var found, lines := LineMatches(path, content, wanted, 0, 1), Lines(content, 0);
    MatchesAreLines(path, content, wanted, 0, 1);
    if found != [] {
      assert Answers(found[0], path, lines, wanted, 1);
      assert Contains(lines[found[0].line - 1], wanted);
    }
    if LineHolds(content, wanted) {
      var k :| 0 <= k < |lines| && Contains(lines[k], wanted);
      assert Match(path, 1 + k, Reported(lines[k])) in found;
    }
  }

  lemma {:induction false} NoMatchesIffNoLines(files: seq<(string, File)>, wanted: seq<Byte>, maximumBytes: nat)
    ensures AllMatches(files, wanted, maximumBytes) == [] <==> NoLineHolds(files, wanted, maximumBytes)
    decreases |files|
  {
    hide LineMatches, LineHolds;
    if files != [] {
      var first, rest := files[0], files[1..];
      NoMatchesIffNoLines(rest, wanted, maximumBytes);
      if HoldsText(first.1, maximumBytes) {
        NoMatchIffNoLine(first.0, first.1.bytes, wanted);
      }
      assert forall k | 0 <= k < |rest| :: rest[k] == files[k + 1];
      assert NoLineHolds(files, wanted, maximumBytes) ==> NoLineHolds(rest, wanted, maximumBytes);
      assert forall k | 1 <= k < |files| :: files[k] == rest[k - 1];
    }
  }

  lemma {:induction false} BreakNowhere(files: seq<(string, File)>, wanted: seq<Byte>, maximumBytes: nat)
    requires NEWLINE in wanted
    ensures NoLineHolds(files, wanted, maximumBytes)
  {
    forall k, j | 0 <= k < |files| && HoldsText(files[k].1, maximumBytes) && 0 <= j < |Lines(files[k].1.bytes, 0)|
      ensures !Contains(Lines(files[k].1.bytes, 0)[j], wanted)
    {
      NoLineHoldsBreak(files[k].1.bytes, wanted, j);
    }
  }

  /**
   * The matches answered are those of a search line by line if and only if the text holds no carriage return, no
   * match is asked for, or no line of a searched file holds it.
   */
  lemma AnswerIsLineByLine(text: seq<Byte>, files: seq<(string, File)>, maximumMatches: nat, maximumBytes: nat)
    ensures Answer(text, files, maximumMatches, maximumBytes).0 == UpTo([],
            AllMatches(files, Fold(text), maximumBytes), maximumMatches) <==>
              RETURN !in Fold(text) || maximumMatches == 0 || NoLineHolds(files, Fold(text), maximumBytes)
    ensures Answer(text, files, maximumMatches,
            maximumBytes).1 == (|AllMatches(files, Fold(text), maximumBytes)| <= maximumMatches
              && AllReached(files, maximumBytes)) <==>
              !Spans(Fold(text)) || (|AllMatches(files, Fold(text), maximumBytes)| <= maximumMatches
                  && AllReached(files, maximumBytes))
  {
    hide AllMatches, AllReached, NoLineHolds;
    NoMatchesIffNoLines(files, Fold(text), maximumBytes);
    if NEWLINE in Fold(text) {
      BreakNowhere(files, Fold(text), maximumBytes);
    }
  }

  /** The text "o\r" stands in the first line of the file "foo\r\n", and is answered as standing nowhere. */
  lemma ReturnIsLost(path: string)
    ensures
      var content, text := [102, 111, 111, 13, 10], [111, 13];
      && LineMatches(path, content, Fold(text), 0, 1) != []
      && Answer(text, [(path, Read(content))], 1, 5) == ([], true)
  {
    var content: seq<Byte>, text: seq<Byte> := [102, 111, 111, 13, 10], [111, 13];
    assert Fold(text) == text;
    assert LineEnd(content, 4) == 4;
    LineEndSame(content, 0, 4);
    var line: seq<Byte> := [102, 111, 111, 13];
    assert content[0..4] == line && Fold(line) == line;
    assert OccursAt(Fold(line), text, 2);
    assert Contains(line, text);
    LineStep(path, content, text, 0, 1, 4, LineMatch(path, 1, line, text), LineMatches(path, content, text, 5, 2));
  }

  // ----- What is found, file by file -----------------------------------------------------------------------

  /** The answer up to a bound are the first ones. */
  lemma UpToIsFirst<T>(all: seq<T>, maximum: nat)
    ensures UpTo([], all, maximum) <= all
    ensures |UpTo([], all, maximum)| == (if |all| <= maximum then |all| else maximum)
  {
  }

  /**
   * The match answers a line of the file, which is no larger than the bound, without a NUL byte and spelled as UTF-8.
   */
  ghost predicate AnswersFile(one: Match, path: string, file: File, wanted: seq<Byte>, maximumBytes: nat) {
    && file.Read? && 0 < |file.bytes| <= maximumBytes && 0 !in file.bytes && WellFormed(file.bytes)
    && 1 <= one.line <= |Lines(file.bytes, 0)|
    && Contains(Lines(file.bytes, 0)[one.line - 1], wanted)
    && one == Match(path, one.line, Reported(Lines(file.bytes, 0)[one.line - 1]))
  }

  lemma FileMatchesAreLines(path: string, file: File, wanted: seq<Byte>, maximumBytes: nat, one: Match)
    ensures one in FileMatches(path, file, wanted, maximumBytes) <==> AnswersFile(one, path, file, wanted, maximumBytes)
  {
    hide LineMatches, Lines, Contains, Reported, WellFormed;
    if HoldsText(file, maximumBytes) {
      MatchesAreLines(path, file.bytes, wanted, 0, 1);
    }
  }

  /** Exactly the matching lines of the files that hold text are found, whatever the other files hold. */
  lemma {:induction false} AllMatchesAreLines(files: seq<(string, File)>, wanted: seq<Byte>, maximumBytes: nat,
      one: Match)
    ensures one in AllMatches(files, wanted, maximumBytes) <==>
              exists k | 0 <= k < |files| :: AnswersFile(one, files[k].0, files[k].1, wanted, maximumBytes)
    decreases |files|
  {
    hide FileMatches, AnswersFile;
    if files != [] {
      var rest := files[1..];
      FileMatchesAreLines(files[0].0, files[0].1, wanted, maximumBytes, one);
      AllMatchesAreLines(rest, wanted, maximumBytes, one);
      assert forall k | 0 <= k < |rest| :: rest[k] == files[k + 1];
      if k :| 0 <= k < |files| && AnswersFile(one, files[k].0, files[k].1, wanted, maximumBytes) {
        assert k > 0 ==> files[k] == rest[k - 1];
      }
      if k :| 0 <= k < |rest| && AnswersFile(one, rest[k].0, rest[k].1, wanted, maximumBytes) {
        assert AnswersFile(one, files[k + 1].0, files[k + 1].1, wanted, maximumBytes);
      }
    }
  }

  /** The files were all looked at exactly if each was read, or has a size that is none or beyond the bound. */
  lemma AllReachedIff(files: seq<(string, File)>, maximumBytes: nat)
    ensures AllReached(files, maximumBytes) <==>
              forall k | 0 <= k < |files| ::
                && files[k].1 != NoSize
                && (forall size: nat | files[k].1 == Unread(size) :: size == 0 || size > maximumBytes)
  {
  }

  // ----- A search of a whole tree --------------------------------------------------------------------------

  /** The files at the paths. */
  function FilesAt(paths: seq<string>, contents: string -> File): (files: seq<(string, File)>)
    ensures |files| == |paths| && forall k | 0 <= k < |paths| :: files[k] == (paths[k], contents(paths[k]))
  {
    seq(|paths|, k requires 0 <= k < |paths| => (paths[k], contents(paths[k])))
  }

  /** The visitor goes on while all that was found is within the bound. */
  function Wants(contents: string -> File, wanted: seq<Byte>, maximumMatches: nat,
      maximumBytes: nat): TreeWalk.Visitor {
    (handed: seq<string>) => |AllMatches(FilesAt(handed, contents), wanted, maximumBytes)| <= maximumMatches
  }

  lemma {:induction false} FewerFiles(files: seq<(string, File)>, more: seq<(string, File)>, wanted: seq<Byte>,
      maximumBytes: nat)
    requires files <= more
    ensures AllMatches(files, wanted, maximumBytes) <= AllMatches(more, wanted, maximumBytes)
    decreases |files|
  {
    hide FileMatches;
    if files != [] {
      FewerFiles(files[1..], more[1..], wanted, maximumBytes);
    }
  }

  /** The visitor wants every file of a listing exactly if all its matches are within the bound. */
  lemma WantsListing(listing: seq<string>, contents: string -> File, wanted: seq<Byte>, maximumMatches: nat,
      maximumBytes: nat)
    ensures TreeWalk.Accepted(Wants(contents, wanted, maximumMatches, maximumBytes), listing) <==>
              listing == [] || |AllMatches(FilesAt(listing, contents), wanted, maximumBytes)| <= maximumMatches
  {
    hide AllMatches;
    var visitor := Wants(contents, wanted, maximumMatches, maximumBytes);
    forall k | 0 <= k <= |listing|
      ensures |AllMatches(FilesAt(listing[..k], contents), wanted,
          maximumBytes)| <= |AllMatches(FilesAt(listing, contents), wanted, maximumBytes)|
    {
      assert FilesAt(listing[..k], contents) == FilesAt(listing, contents)[..k];
      FewerFiles(FilesAt(listing[..k], contents), FilesAt(listing, contents), wanted, maximumBytes);
    }
    if TreeWalk.Accepted(visitor, listing) && listing != [] {
      assert visitor(listing[..|listing|]);
      assert listing[..|listing|] == listing;
    }
  }

  /** Every file of the tree was reached and all its matches fit. */
  predicate AllFound(files: seq<(string, File)>, wanted: seq<Byte>, maximumMatches: nat, maximumBytes: nat) {
    |AllMatches(files, wanted, maximumBytes)| <= maximumMatches && AllReached(files, maximumBytes)
  }

  /** A walk whose last file was refused found as much as a walk of everything. */
  lemma RefusedIsEnough(handed: seq<string>, listing: seq<string>, contents: string -> File, wanted: seq<Byte>,
      maximumMatches: nat, maximumBytes: nat)
    requires handed <= listing && !Wants(contents, wanted, maximumMatches, maximumBytes)(handed)
    ensures UpTo([], AllMatches(FilesAt(handed, contents), wanted, maximumBytes), maximumMatches) ==
              UpTo([], AllMatches(FilesAt(listing, contents), wanted, maximumBytes), maximumMatches)
    ensures |AllMatches(FilesAt(listing, contents), wanted, maximumBytes)| > maximumMatches
  {
    hide AllMatches;
    assert FilesAt(handed, contents) <= FilesAt(listing, contents);
    FewerFiles(FilesAt(handed, contents), FilesAt(listing, contents), wanted, maximumBytes);
  }

  /** TextSearch::search: the walk and the visitor together. */
  method SearchTree(root: Option<seq<TreeWalk.Entry>>, contents: string -> File, text: seq<Byte>,
      skipped: seq<string>, stops: nat -> bool, maximumMatches: nat, maximumBytes: nat)
    returns (found: Option<(seq<Match>, bool)>)
    requires TreeWalk.Lasting(stops)
    ensures Spans(Fold(text)) ==> found == Some(([], true))
    ensures !Spans(Fold(text)) ==> (found == None <==> root == None)
    ensures !Spans(Fold(text)) && root.Some? && found.value.1 ==>
              var files := FilesAt(TreeWalk.Listing("", root.value, skipped), contents);
              && TreeWalk.Readable(root.value, skipped)
                  && TreeWalk.Inspections(root.value, skipped) <= TreeWalk.MAXIMUM_ENTRIES
              && AllFound(files, Fold(text), maximumMatches, maximumBytes)
              && found.value.0 == UpTo([], AllMatches(files, Fold(text), maximumBytes), maximumMatches)
    ensures !Spans(Fold(text)) && root.Some? && TreeWalk.Unstopped(stops) ==>
              (found.value.1 <==>
                 && TreeWalk.Readable(root.value, skipped)
                     && TreeWalk.Inspections(root.value, skipped) <= TreeWalk.MAXIMUM_ENTRIES
                 && AllFound(FilesAt(TreeWalk.Listing("", root.value, skipped), contents), Fold(text),
                     maximumMatches, maximumBytes))
    ensures !Spans(Fold(text)) && root.Some? && TreeWalk.Unstopped(stops)
            && TreeWalk.Inspections(root.value, skipped) <= TreeWalk.MAXIMUM_ENTRIES ==>
              found.value.0 == UpTo([],
                  AllMatches(FilesAt(TreeWalk.Listing("", root.value, skipped), contents), Fold(text), maximumBytes),
                  maximumMatches)
    ensures !Spans(Fold(text)) && root.Some? && TreeWalk.Unstopped(stops) ==>
              var files := FilesAt(TreeWalk.FirstFiles(root.value, skipped, TreeWalk.MAXIMUM_ENTRIES), contents);
              found.value.0 == UpTo([], AllMatches(files, Fold(text), maximumBytes), maximumMatches)
  {
    hide AllMatches, UpTo, AllReached, Fold, FilesAt, Wants, Spans, TreeWalk.Listing, TreeWalk.Inspections,
        TreeWalk.Readable, TreeWalk.Accepted, TreeWalk.FirstFiles;
    var wanted := Folded(text);
    if Spans(wanted) {
      return Some(([], true));
    }
    var visitor := Wants(contents, wanted, maximumMatches, maximumBytes);
    var visited, handed := TreeWalk.Visit(root, skipped, visitor, stops, TreeWalk.MAXIMUM_ENTRIES);
    if visited == None {
      return None;
    }
    ghost var listing := TreeWalk.Listing("", root.value, skipped);
    WantsListing(listing, contents, wanted, maximumMatches, maximumBytes);
    NoFiles(contents, wanted, maximumBytes);
    if handed != [] && !visitor(handed) {
      RefusedIsEnough(handed, listing, contents, wanted, maximumMatches, maximumBytes);
      RefusedIsEnough(handed, TreeWalk.FirstFiles(root.value, skipped, TreeWalk.MAXIMUM_ENTRIES), contents, wanted,
          maximumMatches, maximumBytes);
    }
    var matches, complete := SearchFiles(text, FilesAt(handed, contents), maximumMatches, maximumBytes);
    return Some((matches, complete && visited.value));
  }

  lemma NoFiles(contents: string -> File, wanted: seq<Byte>, maximumBytes: nat)
    ensures |AllMatches(FilesAt([], contents), wanted, maximumBytes)| == 0
  {
  }
}
