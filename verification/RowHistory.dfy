/**
 One row over a whole turn: the successive versions of the row that polls happen to read,
 and what is emitted for it.
 */
module RowHistory {
  import opened Common
  import opened Utf8
  import opened Proto
  import opened Transcript
  import opened Poller

  /** The poller's treatment of one row, version after version. */
  function Watch(o: Options, v: View, hist: seq<Step>): (View, seq<Update>) {
    if hist == [] then (v, [])
    else
      var (mid, sent) := Watch(o, v, hist[..|hist| - 1]);
      var (end, more) := Observe(o, mid, hist[|hist| - 1]);
      (end, sent + more)
  }

  const UNSEEN := View(0, false)

  /** A later version of a row: its text has only gained bytes, and a tool call once decodable stays. */
  ghost predicate Extends(o: Options, a: Step, b: Step) {
    && a.idx == b.idx && a.stepType == b.stepType
    && (StepText(a.payload).Some? ==> StepText(b.payload).Some? && StepText(a.payload).value <= StepText(b.payload).value)
    && (StepToolCall(a.payload, o.isJson).Some? ==> StepToolCall(b.payload, o.isJson) == StepToolCall(a.payload, o.isJson))
  }

  ghost predicate Grows(o: Options, hist: seq<Step>) {
    forall i, j :: 0 <= i < j < |hist| ==> Extends(o, hist[i], hist[j])
  }

  lemma GrowsFront(o: Options, hist: seq<Step>)
    requires hist != [] && Grows(o, hist)
    ensures Grows(o, hist[..|hist| - 1])
  {
  }

  // ----- text rows -----

  function TextOf(step: Step): Bytes {
    StepText(step.payload).GetOr([])
  }

  /** The text of the newest version read; nothing before the row is read or decodable. */
  function Latest(hist: seq<Step>): Bytes {
    if hist == [] then [] else TextOf(hist[|hist| - 1])
  }

  /** A stretch of a row's text, and whether the poll that first saw its end showed it. */
  datatype Piece = Piece(text: Bytes, shown: bool)

  /** The row's text cut where each poll found its end. */
  function Pieces(o: Options, hist: seq<Step>): seq<Piece> {
    if hist == [] then []
    else
      var front, text := hist[..|hist| - 1], Latest(hist);
      Pieces(o, front) + [Piece(if |Latest(front)| <= |text| then text[|Latest(front)|..] else [], !o.Hides(text))]
  }

  function Whole(pieces: seq<Piece>): Bytes {
    if pieces == [] then [] else Whole(pieces[..|pieces| - 1]) + pieces[|pieces| - 1].text
  }

  function ShownChunks(pieces: seq<Piece>): seq<Update> {
    if pieces == [] then []
    else
      var last := pieces[|pieces| - 1];
      ShownChunks(pieces[..|pieces| - 1]) + (if last.shown && last.text != [] then [Chunk(last.text)] else [])
  }

  function ChunkText(updates: seq<Update>): Bytes {
    if updates == [] then []
    else
      var last := updates[|updates| - 1];
      ChunkText(updates[..|updates| - 1]) + (if last.Chunk? then last.text else [])
  }

  ghost predicate TextRow(hist: seq<Step>) {
    forall s :: s in hist ==> s.stepType == STEP_TYPE_TEXT
  }

  lemma LatestGrows(o: Options, hist: seq<Step>)
    requires hist != [] && Grows(o, hist)
    ensures Latest(hist[..|hist| - 1]) <= Latest(hist)
    ensures ValidUtf8(Latest(hist)) && ValidUtf8(Latest(hist[..|hist| - 1]))
  {
    hide StepText, StepToolCall;
    var front := hist[..|hist| - 1];
    if front != [] {
      assert Extends(o, hist[|hist| - 2], hist[|hist| - 1]);
    }
  }

  /** One reading of a text row whose text so far was sent or passed over. */
  lemma ObserveGrownText(o: Options, before: Bytes, step: Step)
    requires step.stepType == STEP_TYPE_TEXT
    requires ValidUtf8(before) && ValidUtf8(TextOf(step)) && before <= TextOf(step)
    ensures var text := TextOf(step); var rest := text[|before|..];
      Observe(o, View(|before|, false), step) ==
        (View(|text|, false), if !o.Hides(text) && rest != [] then [Chunk(rest)] else [])
  {
    hide StepText, NextDelta, ObserveTool, ValidUtf8;
    NextDeltaOfGrowth(before, TextOf(step));
  }

  lemma PiecesStep(o: Options, hist: seq<Step>)
    requires hist != [] && Latest(hist[..|hist| - 1]) <= Latest(hist)
    ensures var front := hist[..|hist| - 1]; var last := Piece(Latest(hist)[|Latest(front)|..], !o.Hides(Latest(hist)));
      && Pieces(o, hist) == Pieces(o, front) + [last]
      && Whole(Pieces(o, hist)) == Whole(Pieces(o, front)) + last.text
      && ShownChunks(Pieces(o, hist)) ==
           ShownChunks(Pieces(o, front)) + (if last.shown && last.text != [] then [Chunk(last.text)] else [])
  {
    hide Latest, Options.Hides;
    var pieces := Pieces(o, hist);
    assert pieces[..|pieces| - 1] == Pieces(o, hist[..|hist| - 1]);
  }

  /**
   A text row that only gains bytes: its text is the pieces laid end to end, each shown piece goes out once and in
   order as one chunk, nothing else goes out, and the watermark is always the length of the text read last.
   */
  lemma {:induction false} TextRowPieces(o: Options, hist: seq<Step>)
    requires Grows(o, hist) && TextRow(hist)
    ensures Whole(Pieces(o, hist)) == Latest(hist)
    ensures Watch(o, UNSEEN, hist) == (View(|Latest(hist)|, false), ShownChunks(Pieces(o, hist)))
  {
    if hist == [] {
    } else {
      var front, last := hist[..|hist| - 1], hist[|hist| - 1];
      assert TextRow(front) by {
        assert forall s :: s in front ==> s in hist;
      }
      assert last.stepType == STEP_TYPE_TEXT by {
        assert last in hist;
      }
      assert Latest(hist) == TextOf(last);
      GrowsFront(o, hist);
      LatestGrows(o, hist);
      hide Observe, Latest, TextOf, TextRow, Grows, ValidUtf8, Pieces, Whole, ShownChunks, Options.Hides;
      TextRowPieces(o, front);
      ObserveGrownText(o, Latest(front), last);
      PiecesStep(o, hist);
      assert Latest(front) + Latest(hist)[|Latest(front)|..] == Latest(hist);
    }
  }

  lemma {:induction false} ChunkTextAppend(a: seq<Update>, b: seq<Update>)
    ensures ChunkText(a + b) == ChunkText(a) + ChunkText(b)
  {
    if b == [] {
      assert a + b == a;
    } else {
      assert (a + b)[..|a + b| - 1] == a + b[..|b| - 1];
      ChunkTextAppend(a, b[..|b| - 1]);
    }
  }

  lemma {:induction false} AllShown(pieces: seq<Piece>)
    requires forall p :: p in pieces && p.text != [] ==> p.shown
    ensures ChunkText(ShownChunks(pieces)) == Whole(pieces)
  {
    if pieces != [] {
      var front, last := pieces[..|pieces| - 1], pieces[|pieces| - 1];
      assert last in pieces;
      AllShown(front);
      ChunkTextAppend(ShownChunks(front), if last.shown && last.text != [] then [Chunk(last.text)] else []);
    }
  }

  /** When nothing is hidden the chunks of a growing text row spell exactly its latest text. */
  lemma TextRowConserved(o: Options, hist: seq<Step>)
    requires Grows(o, hist) && TextRow(hist) && o.showNarration
    ensures ChunkText(Watch(o, UNSEEN, hist).1) == Latest(hist)
  {
    TextRowPieces(o, hist);
    PiecesShownUnless(o, hist);
    AllShown(Pieces(o, hist));
  }

  lemma {:induction false} PiecesShownUnless(o: Options, hist: seq<Step>)
    requires forall s :: s in hist && TextOf(s) != [] ==> !o.Hides(TextOf(s))
    ensures forall p :: p in Pieces(o, hist) && p.text != [] ==> p.shown
  {
    if hist != [] {
      var front := hist[..|hist| - 1];
      assert forall s :: s in front ==> s in hist;
      PiecesShownUnless(o, front);
      assert hist[|hist| - 1] in hist;
    }
  }

  // ----- hidden narration -----

  lemma {:induction false} ShownLength(pieces: seq<Piece>)
    ensures |ChunkText(ShownChunks(pieces))| <= |Whole(pieces)|
    ensures (exists p :: p in pieces && p.text != [] && p.shown) ==> ChunkText(ShownChunks(pieces)) != []
    ensures (exists p :: p in pieces && p.text != [] && !p.shown) ==> |ChunkText(ShownChunks(pieces))| < |Whole(pieces)|
    ensures (forall p :: p in pieces && p.text != [] ==> !p.shown) ==> ShownChunks(pieces) == []
  {
    if pieces != [] {
      var front, last := pieces[..|pieces| - 1], pieces[|pieces| - 1];
      ShownLength(front);
      assert forall p :: p in pieces <==> p in front || p == last;
      ChunkTextAppend(ShownChunks(front), if last.shown && last.text != [] then [Chunk(last.text)] else []);
    }
  }

  /** Every non-empty version read accounts for a non-empty piece treated as that version was. */
  lemma {:induction false} PieceOfVersion(o: Options, hist: seq<Step>, i: nat)
    requires Grows(o, hist) && TextRow(hist)
    requires i < |hist| && TextOf(hist[i]) != []
    ensures exists p :: p in Pieces(o, hist) && p.text != [] && p.shown == !o.Hides(TextOf(hist[i]))
  {
    hide TextOf, Extends, Whole, ShownChunks, ValidUtf8, Options.Hides;
    var front, text := hist[..|hist| - 1], Latest(hist);
    LatestGrows(o, hist);
    GrowsFront(o, hist);
    assert forall s :: s in front ==> s in hist;
    PiecesStep(o, hist);
    var last := Piece(text[|Latest(front)|..], !o.Hides(text));
    assert last in Pieces(o, hist);
    if i < |front| {
      PieceOfVersion(o, front, i);
    } else if Latest(front) == text {
      PieceOfVersion(o, front, |front| - 1);
    } else {
      assert last.text != [];
    }
  }

  /** Every version that is not empty is treated as narration, or none is, just as the newest one. */
  ghost predicate NarrationSettled(o: Options, hist: seq<Step>) {
    forall s :: s in hist && TextOf(s) != [] ==> (o.Hides(TextOf(s)) <==> o.Hides(Latest(hist)))
  }

  /** With narration hidden, what goes out for a row is independent of the poll schedule exactly when narration never flips. */
  lemma HiddenRowIff(o: Options, hist: seq<Step>)
    requires hist != [] && Grows(o, hist) && TextRow(hist)
    ensures ChunkText(Watch(o, UNSEEN, hist).1) == ChunkText(Watch(o, UNSEEN, hist[|hist| - 1..]).1)
            <==> NarrationSettled(o, hist)
  {
    var text, pieces := Latest(hist), Pieces(o, hist);
    TextRowPieces(o, hist);
    FreshRow(o, hist);
    ShownLength(pieces);
    if NarrationSettled(o, hist) {
      if o.Hides(text) {
        PiecesHiddenUnless(o, hist);
      } else {
        PiecesShownUnless(o, hist);
        AllShown(pieces);
      }
    } else {
      var s :| s in hist && TextOf(s) != [] && !(o.Hides(TextOf(s)) <==> o.Hides(text));
      var i: nat :| i < |hist| && hist[i] == s;
      PieceOfVersion(o, hist, i);
    }
  }

  lemma {:induction false} PiecesHiddenUnless(o: Options, hist: seq<Step>)
    requires forall s :: s in hist && TextOf(s) != [] ==> o.Hides(TextOf(s))
    ensures forall p :: p in Pieces(o, hist) && p.text != [] ==> !p.shown
  {
    if hist != [] {
      var front := hist[..|hist| - 1];
      assert forall s :: s in front ==> s in hist;
      PiecesHiddenUnless(o, front);
      assert hist[|hist| - 1] in hist;
    }
  }

  /** A poll that meets the row for the first time sends its whole text, or hides it all. */
  lemma FreshRow(o: Options, hist: seq<Step>)
    requires hist != [] && Grows(o, hist) && TextRow(hist)
    ensures ChunkText(Watch(o, UNSEEN, hist[|hist| - 1..]).1) == if o.Hides(Latest(hist)) then [] else Latest(hist)
  {
    var newest, text := hist[|hist| - 1..], Latest(hist);
    assert newest == [hist[|hist| - 1]] && newest[..0] == [];
    TextRowPieces(o, newest);
    PiecesStep(o, newest);
    assert Latest(newest) == text && text[0..] == text;
    var last := Piece(text, !o.Hides(text));
    assert ShownChunks(Pieces(o, newest)) == if last.shown && text != [] then [Chunk(text)] else [];
    if last.shown && text != [] {
      assert [Chunk(text)][..0] == [];
    }
  }

  // ----- tool rows -----

  /** A tool row whose call stays once decodable: the pair of the call goes out once, and only when there is one. */
  lemma {:induction false} ToolRowOnce(o: Options, hist: seq<Step>)
    requires Grows(o, hist)
    requires forall s :: s in hist ==> s.stepType in TOOL_STEP_TYPES
    ensures var (view, updates) := Watch(o, UNSEEN, hist);
      var call := if hist == [] then None else StepToolCall(hist[|hist| - 1].payload, o.isJson);
      && view == View(0, call.Some?)
      && updates ==
           if call.None? then []
           else
             var last := hist[|hist| - 1];
             [ToolStart(last.idx, last.stepType, call.value), ToolDone(last.idx, last.stepType, call.value.name)]
  {
    hide StepText, StepToolCall;
    if hist != [] {
      var front, last := hist[..|hist| - 1], hist[|hist| - 1];
      assert last in hist;
      assert forall s :: s in front ==> s in hist;
      GrowsFront(o, hist);
      ToolRowOnce(o, front);
      if front != [] {
        assert Extends(o, hist[|hist| - 2], last);
      }
    }
  }
}
