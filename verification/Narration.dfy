/**
 The bridge's test for internal narration: every line that is not blank opens with "I will" as whole words.
 Unicode's character classes are outside the model and enter as two predicates.
 */
module Narration {
  import opened Common
  import opened Utf8
  import opened Wire
  import opened Proto
  import opened Transcript
  import opened Poller
  import opened RowHistory

  const NEWLINE: Byte := 10
  const PREFIX: Bytes := [73, 32, 119, 105, 108, 108] // "I will"

  /** blank: trimming all white space leaves nothing; word: the first character is a letter or a digit. */
  datatype Unicode = Unicode(blank: Bytes -> bool, word: Bytes -> bool)

  function Lines(text: Bytes): (lines: seq<Bytes>)
    ensures |lines| >= 1
  {
    if text == [] then [[]]
    else if text[0] == NEWLINE then [[]] + Lines(text[1..])
    else
      var rest := Lines(text[1..]);
      [[text[0]] + rest[0]] + rest[1..]
  }

  function Join(lines: seq<Bytes>): Bytes {
    if lines == [] then [] else if |lines| == 1 then lines[0] else lines[0] + [NEWLINE] + Join(lines[1..])
  }

  lemma JoinOf(first: Bytes, rest: seq<Bytes>)
    ensures Join([first] + rest) == if rest == [] then first else first + [NEWLINE] + Join(rest)
  {
    assert ([first] + rest)[1..] == rest;
  }

  lemma JoinLonger(b: Byte, rest: seq<Bytes>)
    requires rest != []
    ensures Join([[]] + rest) == [NEWLINE] + Join(rest)
    ensures Join([[b] + rest[0]] + rest[1..]) == [b] + Join(rest)
  {
    hide Join;
    JoinOf([], rest);
    JoinOf(rest[0], rest[1..]);
    JoinOf([b] + rest[0], rest[1..]);
    assert [rest[0]] + rest[1..] == rest;
    var joined := Join(rest[1..]);
    assert [b] + rest[0] + [NEWLINE] + joined == [b] + (rest[0] + [NEWLINE] + joined);
  }

  /** Lines is the one way to cut text at its newlines. */
  lemma {:induction false} LinesCut(text: Bytes)
    ensures Join(Lines(text)) == text
    ensures forall line :: line in Lines(text) ==> NEWLINE !in line
  {
    if text != [] {
      var b, rest := text[0], Lines(text[1..]);
      LinesCut(text[1..]);
      JoinLonger(b, rest);
      assert text == [b] + text[1..];
      var lines := Lines(text);
      assert lines == if b == NEWLINE then [[]] + rest else [[b] + rest[0]] + rest[1..];
      hide Lines, Join;
      assert rest[0] in rest;
      forall line | line in lines
        ensures NEWLINE !in line
      {
        assert line in rest || line == [] || line == [b] + rest[0];
      }
    }
  }

  function TrimLeft(line: Bytes): Bytes {
    if line != [] && line[0] in {32, 9, 13, 10} then TrimLeft(line[1..]) else line
  }

  predicate IsNarrationLine(u: Unicode, line: Bytes) {
    PREFIX <= line && (line[|PREFIX|..] == [] || !u.word(line[|PREFIX|..]))
  }

  predicate ProseLine(u: Unicode, line: Bytes) {
    !u.blank(line) && !IsNarrationLine(u, TrimLeft(line))
  }

  predicate IsNarration(u: Unicode, text: Bytes) {
    && (exists line :: line in Lines(text) && !u.blank(line))
    && forall line :: line in Lines(text) ==> !ProseLine(u, line)
  }

  method ComputeIsNarration(u: Unicode, text: Bytes) returns (narration: bool)
    ensures narration == IsNarration(u, text)
  {
    var lines := Lines(text);
    narration := false;
    for i := 0 to |lines|
      invariant narration <==> exists k :: 0 <= k < i && !u.blank(lines[k])
      invariant forall k :: 0 <= k < i ==> !ProseLine(u, lines[k])
    {
      if u.blank(lines[i]) {
        continue;
      }
      if !IsNarrationLine(u, TrimLeft(lines[i])) {
        assert ProseLine(u, lines[i]);
        return false;
      }
      narration := true;
    }
  }

  /** Lines of a text with one more byte in front. */
  function Before(b: Byte, lines: seq<Bytes>): seq<Bytes>
    requires lines != []
  {
    if b == NEWLINE then [[]] + lines else [[b] + lines[0]] + lines[1..]
  }

  lemma LinesOfLonger(b: Byte, text: Bytes)
    ensures Lines([b] + text) == Before(b, Lines(text))
  {
    assert ([b] + text)[1..] == text;
  }

  lemma BeforeMore(b: Byte, lines: seq<Bytes>, more: seq<Bytes>)
    requires lines != []
    ensures Before(b, lines + more) == Before(b, lines) + more
  {
    assert b != NEWLINE ==> (lines + more)[1..] == lines[1..] + more;
  }

  lemma FirstApart(a: Bytes, b: Bytes)
    requires a != []
    ensures a == [a[0]] + a[1..] && a + [NEWLINE] + b == [a[0]] + (a[1..] + [NEWLINE] + b)
  {
  }

  lemma {:induction false} LinesOfJoined(a: Bytes, b: Bytes)
    ensures Lines(a + [NEWLINE] + b) == Lines(a) + Lines(b)
  {
    if a == [] {
      LinesOfLonger(NEWLINE, b);
      assert a + [NEWLINE] + b == [NEWLINE] + b;
    } else {
      hide Lines, Before;
      FirstApart(a, b);
      LinesOfJoined(a[1..], b);
      LinesOfLonger(a[0], a[1..]);
      LinesOfLonger(a[0], a[1..] + [NEWLINE] + b);
      BeforeMore(a[0], Lines(a[1..]), Lines(b));
    }
  }

  /** And the only way: lines without newlines that join to a text are its lines. */
  lemma {:induction false} LinesUnique(lines: seq<Bytes>)
    requires lines != [] && forall line :: line in lines ==> NEWLINE !in line
    ensures Lines(Join(lines)) == lines
  {
    assert lines[0] in lines;
    NoNewline(lines[0]);
    if |lines| == 1 {
      assert lines == [lines[0]];
    } else {
      var rest := lines[1..];
      assert forall line :: line in rest ==> line in lines;
      LinesUnique(rest);
      hide Lines;
      LinesOfJoined(lines[0], Join(rest));
      assert [lines[0]] + rest == lines;
    }
  }

  predicate Blank(u: Unicode, text: Bytes) {
    forall line :: line in Lines(text) ==> u.blank(line)
  }

  /** Text of two blocks of lines is narration when neither block has prose and one of them narrates. */
  lemma NarrationOfBlocks(u: Unicode, a: Bytes, b: Bytes)
    ensures IsNarration(u, a + [NEWLINE] + b) <==>
      && (IsNarration(u, a) || Blank(u, a))
      && (IsNarration(u, b) || Blank(u, b))
      && !(Blank(u, a) && Blank(u, b))
  {
    hide Lines, IsNarrationLine;
    LinesOfJoined(a, b);
    var both := Lines(a + [NEWLINE] + b);
    assert forall line :: line in both <==> line in Lines(a) || line in Lines(b);
  }

  /** A finished line of prose settles a growing row: it is not narration again, however it grows. */
  lemma {:induction false} ProseSettles(u: Unicode, a: Bytes, b: Bytes, line: Bytes)
    requires line in Lines(a) && ProseLine(u, line)
    ensures !IsNarration(u, a + [NEWLINE] + b)
  {
    LinesOfJoined(a, b);
    assert line in Lines(a) + Lines(b);
  }

  lemma {:induction false} ProseSettlesAfter(u: Unicode, a: Bytes, b: Bytes, line: Bytes)
    requires line in Lines(b) && ProseLine(u, line)
    ensures !IsNarration(u, a + [NEWLINE] + b)
  {
    LinesOfJoined(a, b);
    assert line in Lines(a) + Lines(b);
  }

  /**
   One line with text in it is narration exactly if, past leading blanks, it opens with "I will", and nothing, or no
   letter or digit, follows.
   */
  lemma {:induction false} OneLineIff(u: Unicode, indent: Bytes, body: Bytes)
    requires forall i :: 0 <= i < |indent| ==> indent[i] in {32, 9, 13}
    requires NEWLINE !in body && (body != [] ==> body[0] !in {32, 9, 13}) && !u.blank(indent + body)
    ensures IsNarration(u, indent + body) <==>
            |body| >= 6 && body[..6] == [73, 32, 119, 105, 108, 108] && (|body| == 6 || !u.word(body[6..]))
  {
    forall b | b in indent
      ensures b != NEWLINE
    {
      var i :| 0 <= i < |indent| && indent[i] == b;
    }
    NoNewline(indent + body);
    Trimmed(indent, body);
    assert [indent + body][0] in [indent + body];
    hide Lines;
    assert PREFIX <= body <==> |body| >= 6 && body[..6] == PREFIX;
  }

  lemma {:induction false} Trimmed(indent: Bytes, body: Bytes)
    requires forall i :: 0 <= i < |indent| ==> indent[i] in {32, 9, 13}
    requires body != [] ==> body[0] !in {32, 9, 13} && body[0] != NEWLINE
    ensures TrimLeft(indent + body) == body
  {
    if indent == [] {
      assert indent + body == body;
    } else {
      assert (indent + body)[1..] == indent[1..] + body;
      Trimmed(indent[1..], body);
    }
  }

  // ----- what hiding narration costs -----

  /**
   Two polls of a growing row, the first of which met narration and the second prose: the narration is dropped,
   while a single poll would have sent it.
   */
  lemma {:induction false} HidingDependsOnSchedule(o: Options, idx: int, said: Bytes, more: Bytes)
    requires said != [] && more != [] && ValidUtf8(said) && ValidUtf8(said + more)
    requires |TextPayload(said)| < TWO_63 && |TextPayload(said + more)| < TWO_63
    requires o.Hides(said) && !o.Hides(said + more)
    ensures var early, late := Step(idx, STEP_TYPE_TEXT, TextPayload(said)), Step(idx, STEP_TYPE_TEXT, TextPayload(said + more));
      && ChunkText(Watch(o, UNSEEN, [early, late]).1) == more
      && ChunkText(Watch(o, UNSEEN, [late]).1) == said + more
  {
    hide StepText, ValidUtf8, TextPayload, NextDelta;
    var early, late := Step(idx, STEP_TYPE_TEXT, TextPayload(said)), Step(idx, STEP_TYPE_TEXT, TextPayload(said + more));
    TextRoundTrip(said);
    TextRoundTrip(said + more);
    assert ValidUtf8([]) by { EmptyIsValid(); }
    ObserveGrownText(o, [], early);
    ObserveGrownText(o, [], late);
    ObserveGrownText(o, said, late);
    assert (said + more)[|said|..] == more;
    assert [early, late][..1] == [early] && [early][..0] == [] && [late][..0] == [];
    assert Watch(o, UNSEEN, [early]).1 == [];
    assert ChunkText([Chunk(more)]) == more && ChunkText([Chunk(said + more)]) == said + more by {
      assert [Chunk(more)][..0] == [] && [Chunk(said + more)][..0] == [];
    }
  }

  lemma EmptyIsValid()
    ensures ValidUtf8([])
  {
  }

  predicate AsciiBlank(text: Bytes) {
    forall i :: 0 <= i < |text| ==> text[i] in {9, 10, 11, 12, 13, 32}
  }

  predicate AsciiWord(text: Bytes) {
    text != [] && (48 <= text[0] <= 57 || 65 <= text[0] <= 90 || 97 <= text[0] <= 122)
  }

  const ASCII: Unicode := Unicode(AsciiBlank, AsciiWord)

  /** Such a row exists: "I will" is narration, and "I will" followed by a line "ok" is not. */
  lemma NarrationTurnsToProse()
    ensures IsNarration(ASCII, PREFIX)
    ensures !IsNarration(ASCII, PREFIX + [NEWLINE] + [111, 107])
    ensures ValidUtf8(PREFIX) && ValidUtf8(PREFIX + [NEWLINE] + [111, 107])
  {
    hide ValidUtf8, Lines;
    var ok: Bytes := [111, 107];
    NoNewline(ok);
    NoNewline(PREFIX);
    assert TrimLeft(PREFIX) == PREFIX && TrimLeft(ok) == ok;
    assert PREFIX[|PREFIX|..] == [];
    assert !AsciiBlank(PREFIX) by { assert PREFIX[0] == 73; }
    assert !AsciiBlank(ok) by { assert ok[0] == 111; }
    assert PREFIX in Lines(PREFIX);
    assert ok in Lines(ok) && ProseLine(ASCII, ok);
    ProseSettlesAfter(ASCII, PREFIX, ok, ok);
    AsciiIsValid(PREFIX);
    AsciiIsValid(PREFIX + [NEWLINE] + ok);
  }

  lemma {:induction false} NoNewline(text: Bytes)
    requires NEWLINE !in text
    ensures Lines(text) == [text]
  {
    if text != [] {
      assert text[0] in text;
      assert forall b :: b in text[1..] ==> b in text;
      NoNewline(text[1..]);
      assert [text[0]] + text[1..] == text;
    }
  }

  lemma {:induction false} AsciiIsValid(text: Bytes)
    requires forall i :: 0 <= i < |text| ==> text[i] <= 0x7F
    ensures ValidUtf8(text)
  {
    if text != [] {
      AsciiIsValid(text[1..]);
    }
  }

  /**
   The failing input at the poller itself: a row read as "I will" and then with a line "ok" added is streamed without
   its first line, and a poller that reads it once streams it all.
   */
  lemma HiddenLineIsLost(isJson: Bytes -> bool, idx: int)
    ensures var o := Options(false, t => IsNarration(ASCII, t), isJson);
      var prose: Bytes := [NEWLINE, 111, 107];
      var early, late := Step(idx, STEP_TYPE_TEXT, TextPayload(PREFIX)), Step(idx, STEP_TYPE_TEXT, TextPayload(PREFIX + prose));
      && ChunkText(Watch(o, UNSEEN, [early, late]).1) == prose
      && ChunkText(Watch(o, UNSEEN, [late]).1) == PREFIX + prose
  {
    hide ValidUtf8, TextPayload, Watch, ChunkText, IsNarration;
    var o := Options(false, t => IsNarration(ASCII, t), isJson);
    var prose: Bytes := [NEWLINE, 111, 107];
    NarrationTurnsToProse();
    assert PREFIX + [NEWLINE] + [111, 107] == PREFIX + prose;
    ShortPayload(PREFIX);
    ShortPayload(PREFIX + prose);
    HidingDependsOnSchedule(o, idx, PREFIX, prose);
  }

  lemma ShortPayload(text: Bytes)
    requires |text| < 100
    ensures |TextPayload(text)| < TWO_63
  {
    assert |VarintBytes(8 * FIELD_TEXT_BODY + 2)| == 1 && |VarintBytes(8 * FIELD_TEXT + 2)| == 2;
    assert |VarintBytes(|text|)| == 1;
    assert |VarintBytes(|PbString(FIELD_TEXT_BODY, text)|)| == 1;
  }
}
