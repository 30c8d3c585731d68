/**
 Prompt turns one after another: each starts from the session the one before recorded, polls while agy runs,
 drains the tail, and records how far it read.
 */
module Turns {
  import opened Common
  import opened Proto
  import opened Transcript
  import opened Poller
  import opened RowHistory
  import opened PollRuns

  datatype StoredSession = StoredSession(conversationID: ConvId, lastStepIdx: int, modelID: string)

  // ----- one turn -----

  /** The directory as it was before the child started, and what each poll of the turn met. */
  datatype Turn = Turn(listing: Option<set<ConvId>>, inputs: seq<Input>)

  /** Only a session without a conversation looks for a new one. */
  function SnapshotFor(sess: StoredSession, listing: Option<set<ConvId>>): Option<set<ConvId>> {
    if sess.conversationID == "" then listing else None
  }

  ghost function TurnRun(o: Options, sess: StoredSession, turn: Turn): (State, seq<Emission>) {
    Run(o, SnapshotFor(sess, turn.listing), Initial(sess.conversationID, sess.lastStepIdx), turn.inputs)
  }

  /** What the prompt handler stores when the turn is over; a turn that bound nothing stores nothing. */
  ghost function Recorded(o: Options, sess: StoredSession, turn: Turn): StoredSession {
    var end := TurnRun(o, sess, turn).0;
    if end.conversationID == "" then sess
    else StoredSession(end.conversationID, end.progress.lastIdx, sess.modelID)
  }

  /** The row contract of the steps query: nothing at or below the base. */
  ghost predicate AboveBase(base: int, inputs: seq<Input>) {
    forall i, s :: 0 <= i < |inputs| && inputs[i].read.Rows? && s in inputs[i].read.steps ==> s.idx > base
  }

  lemma {:induction false} ReadAllRows(o: Options, p: Progress, steps: seq<Step>)
    ensures forall e :: e in ReadAll(o, p, steps).1 ==> exists s :: s in steps && s.idx == e.row
  {
    if steps != [] {
      hide Observe;
      var front, last := steps[..|steps| - 1], steps[|steps| - 1];
      ReadAllRows(o, p, front);
      var (mid, log) := ReadAll(o, p, front);
      var (_, updates) := ReadStep(o, mid, last);
      forall e | e in log + Tag(last.idx, updates)
        ensures exists s :: s in steps && s.idx == e.row
      {
        if e in log {
          var s :| s in front && s.idx == e.row;
          assert s in steps;
        } else {
          assert e in Tag(last.idx, updates);
          assert last in steps;
        }
      }
    }
  }

  /** A turn emits only rows above its base and no further than the index it records, which never falls. */
  lemma {:induction false} TurnStaysInWindow(o: Options, snapshot: Option<set<ConvId>>, s: State, base: int, inputs: seq<Input>)
    requires AboveBase(base, inputs) && s.progress.lastIdx >= base
    ensures var (end, log) := Run(o, snapshot, s, inputs);
      && s.progress.lastIdx <= end.progress.lastIdx
      && (forall e :: e in log ==> base < e.row <= end.progress.lastIdx)
      && (s.conversationID != "" ==> end.conversationID == s.conversationID)
      && (end.conversationID == "" ==> log == [] && end.progress == s.progress)
  {
    if inputs != [] {
      hide PollOnce, ReadAll, NewSince;
      var n := |inputs| - 1;
      TurnStaysInWindow(o, snapshot, s, base, inputs[..n]);
      var mid := Run(o, snapshot, s, inputs[..n]).0;
      PollRows(o, snapshot, mid, inputs[n]);
      var rows := RowsRead(snapshot, mid.conversationID, inputs[n]);
      ReadAllLastIdx(o, mid.progress, rows);
      ReadAllRows(o, mid.progress, rows);
      NoRowsNoChange(o, mid.progress);
    }
  }

  lemma NoRowsNoChange(o: Options, p: Progress)
    ensures ReadAll(o, p, []) == (p, [])
  {
  }

  // ----- chains of turns -----

  ghost function SessionAfter(o: Options, sess: StoredSession, turns: seq<Turn>): StoredSession {
    if turns == [] then sess
    else Recorded(o, SessionAfter(o, sess, turns[..|turns| - 1]), turns[|turns| - 1])
  }

  ghost function SessionAt(o: Options, sess: StoredSession, turns: seq<Turn>, k: nat): StoredSession
    requires k <= |turns|
  {
    SessionAfter(o, sess, turns[..k])
  }

  ghost function LogAt(o: Options, sess: StoredSession, turns: seq<Turn>, k: nat): seq<Emission>
    requires k < |turns|
  {
    TurnRun(o, SessionAt(o, sess, turns, k), turns[k]).1
  }

  ghost predicate ChainContract(o: Options, sess: StoredSession, turns: seq<Turn>) {
    forall k :: 0 <= k < |turns| ==> AboveBase(SessionAt(o, sess, turns, k).lastStepIdx, turns[k].inputs)
  }

  lemma {:induction false} TurnInChain(o: Options, sess: StoredSession, turns: seq<Turn>, k: nat)
    requires ChainContract(o, sess, turns) && k < |turns|
    ensures var here, next := SessionAt(o, sess, turns, k), SessionAt(o, sess, turns, k + 1);
      && here.lastStepIdx <= next.lastStepIdx
      && (here.conversationID != "" ==> next.conversationID == here.conversationID)
      && next.modelID == here.modelID
      && forall e :: e in LogAt(o, sess, turns, k) ==> here.lastStepIdx < e.row <= next.lastStepIdx
  {
    hide Run, AboveBase;
    var here := SessionAt(o, sess, turns, k);
    assert turns[..k + 1][..k] == turns[..k] && turns[..k + 1][k] == turns[k];
    assert SessionAt(o, sess, turns, k + 1) == Recorded(o, here, turns[k]);
    TurnStaysInWindow(o, SnapshotFor(here, turns[k].listing), Initial(here.conversationID, here.lastStepIdx),
      here.lastStepIdx, turns[k].inputs);
  }

  lemma {:induction false} ChainMonotone(o: Options, sess: StoredSession, turns: seq<Turn>, j: nat, k: nat)
    requires ChainContract(o, sess, turns) && j <= k <= |turns|
    ensures SessionAt(o, sess, turns, j).lastStepIdx <= SessionAt(o, sess, turns, k).lastStepIdx
    ensures SessionAt(o, sess, turns, j).conversationID != "" ==>
              SessionAt(o, sess, turns, k).conversationID == SessionAt(o, sess, turns, j).conversationID
    decreases k - j
  {
    if j < k {
      hide *;
      ChainMonotone(o, sess, turns, j, k - 1);
      TurnInChain(o, sess, turns, k - 1);
    }
  }

  /**
   In any chain of turns, each started from the session recorded by the one before: turn k emits only rows in
   (LastStepIdx_k, LastStepIdx_k+1], no row is emitted by two turns, and a binding once made stays.
   */
  lemma {:induction false} TurnsAreDisjoint(o: Options, sess: StoredSession, turns: seq<Turn>, j: nat, k: nat)
    requires ChainContract(o, sess, turns) && j < k < |turns|
    ensures forall e, f :: e in LogAt(o, sess, turns, j) && f in LogAt(o, sess, turns, k) ==> e.row < f.row
    ensures SessionAt(o, sess, turns, j).lastStepIdx <= SessionAt(o, sess, turns, k).lastStepIdx
    ensures SessionAt(o, sess, turns, j).conversationID != "" ==>
              SessionAt(o, sess, turns, k).conversationID == SessionAt(o, sess, turns, j).conversationID
  {
    hide SessionAt, ChainContract, LogAt;
    TurnInChain(o, sess, turns, j);
    TurnInChain(o, sess, turns, k);
    ChainMonotone(o, sess, turns, j, k);
    ChainMonotone(o, sess, turns, j + 1, k);
  }

  /** The row contract bounds what a turn can emit by the held index, and by nothing else: some turn emits any row above. */
  lemma RowEmittableIff(o: Options, held: StoredSession, r: int)
    requires held.conversationID != ""
    ensures (exists turn: Turn, e ::
               AboveBase(held.lastStepIdx, turn.inputs) && e in TurnRun(o, held, turn).1 && e.row == r)
            <==> held.lastStepIdx < r
  {
    hide Run, AboveBase;
    forall turn: Turn, e | AboveBase(held.lastStepIdx, turn.inputs) && e in TurnRun(o, held, turn).1
      ensures held.lastStepIdx < e.row
    {
      TurnStaysInWindow(o, SnapshotFor(held, turn.listing), Initial(held.conversationID, held.lastStepIdx),
        held.lastStepIdx, turn.inputs);
    }
    if held.lastStepIdx < r {
      OneToolTurn(o, held, r);
    }
  }

  lemma OneToolTurn(o: Options, held: StoredSession, r: int)
    requires held.conversationID != "" && held.lastStepIdx < r
    ensures exists turn: Turn, e ::
              AboveBase(held.lastStepIdx, turn.inputs) && e in TurnRun(o, held, turn).1 && e.row == r
  {
    hide StepText, StepToolCall, ToolPayload;
    var step := Step(r, 5, ToolPayload([120], []));
    var input := Input(false, Unreadable, Rows([step]));
    var turn := Turn(None, [input]);
    var initial := Initial(held.conversationID, held.lastStepIdx);
    assert AboveBase(held.lastStepIdx, turn.inputs);
    assert [input][..0] == [] && [step][..0] == [];
    NoRowsNoChange(o, initial.progress);
    assert StepToolCall(step.payload, o.isJson).Some? by { XIsAName(o); }
    var pair := ToolPair(step, StepToolCall(step.payload, o.isJson).value);
    assert Observe(o, UNSEEN, step).1 == pair;
    assert ReadAll(o, initial.progress, [step]).1 == [] + Tag(r, pair);
    assert PollOnce(o, None, initial, input).log == ReadAll(o, initial.progress, [step]).1;
    assert Run(o, None, initial, [input][..0]) == (initial, []);
    assert TurnRun(o, held, turn) == Run(o, None, initial, [input]);
    assert TurnRun(o, held, turn).1 == [] + ([] + Tag(r, pair));
    assert Tag(r, pair)[0] in TurnRun(o, held, turn).1;
  }

  lemma XIsAName(o: Options)
    ensures StepToolCall(ToolPayload([120], []), o.isJson).Some?
  {
    hide StepToolCall;
    var name: Bytes := [120];
    assert name[1..] == [];
    ToolRoundTrip(name, [], o.isJson);
  }

  // ----- turns from a held session -----

  /** A turn's reads are queries of a growing database, above the index of the session value it runs from. */
  ghost predicate RanOver(o: Options, sess: StoredSession, turn: Turn, dbs: seq<Db>) {
    turn.inputs != [] && Environment(o, sess.lastStepIdx, turn.inputs, dbs)
  }

  ghost predicate EndsWithRead(sess: StoredSession, turn: Turn) {
    && turn.inputs != []
    && var n := |turn.inputs| - 1; var snapshot := SnapshotFor(sess, turn.listing);
       Succeeds(snapshot, ConvAfter(snapshot, sess.conversationID, turn.inputs[..n]), turn.inputs[n])
  }

  /** What a turn sends for a row, in order. */
  ghost function SentFor(o: Options, sess: StoredSession, turn: Turn, r: int): seq<Update> {
    UpdatesOf(TurnRun(o, sess, turn).1, r)
  }

  /** A row with updates was read, as a text row or as a tool row, and what went out is what its versions give. */
  lemma {:induction false} SentRow(o: Options, sess: StoredSession, turn: Turn, dbs: seq<Db>, r: int)
    requires RanOver(o, sess, turn, dbs)
    ensures var hist := History(SnapshotFor(sess, turn.listing), sess.conversationID, turn.inputs, r);
      && SentFor(o, sess, turn, r) == Watch(o, UNSEEN, hist).1
      && Tracks(o, hist, r, sess.lastStepIdx, dbs[|dbs| - 1])
      && (TextRow(hist) || forall s :: s in hist ==> s.stepType in TOOL_STEP_TYPES)
  {
    hide Bound, PollOnce, Watch, Extends;
    var snapshot := SnapshotFor(sess, turn.listing);
    var hist := History(snapshot, sess.conversationID, turn.inputs, r);
    RunRow(o, snapshot, Initial(sess.conversationID, sess.lastStepIdx), turn.inputs, r);
    HistoryTracks(o, snapshot, sess.conversationID, sess.lastStepIdx, turn.inputs, dbs, r);
    OneKindOfRow(o, hist, r, sess.lastStepIdx, dbs[|dbs| - 1]);
  }

  /** The shown pieces of its text, with narration shown all of it, or the pair of its call. */
  lemma {:induction false} SentIs(o: Options, hist: seq<Step>)
    requires hist != [] && Grows(o, hist)
    requires TextRow(hist) || forall s :: s in hist ==> s.stepType in TOOL_STEP_TYPES
    ensures var sent, last := Watch(o, UNSEEN, hist).1, hist[|hist| - 1];
      && (TextRow(hist) ==>
            && ToolUpdatesOf(sent) == [] && (sent != [] <==> ShowsText(o, hist))
            && (sent != [] ==> TextOf(last) != [])
            && (o.showNarration ==> ChunkText(sent) == TextOf(last) && (sent == [] <==> TextOf(last) == [])))
      && (!TextRow(hist) ==>
            var call := StepToolCall(last.payload, o.isJson);
            sent == if call.Some? then ToolPair(last, call.value) else [])
  {
    hide Extends, Observe, Watch, TextOf, StepText, StepToolCall, ShowsText;
    if TextRow(hist) {
      TextRowPieces(o, hist);
      NoToolsInChunks(Pieces(o, hist));
      ShownTexts(Pieces(o, hist));
      ShownIff(o, hist);
      ShownLength(Pieces(o, hist));
      if o.showNarration {
        TextRowConserved(o, hist);
      }
    } else {
      ToolRowOnce(o, hist);
    }
  }

  lemma {:induction false} ShownTexts(pieces: seq<Piece>)
    ensures ChunkText(ShownChunks(pieces)) == [] <==> ShownChunks(pieces) == []
  {
    if pieces != [] {
      var front, last := pieces[..|pieces| - 1], pieces[|pieces| - 1];
      ShownTexts(front);
      var shown := ShownChunks(front);
      if last.shown && last.text != [] {
        ChunkTextAppend(shown, [Chunk(last.text)]);
        assert [Chunk(last.text)][..0] == [];
        assert ChunkText([Chunk(last.text)]) == last.text;
      } else {
        assert shown + [] == shown;
      }
    }
  }

  /** What went out for a version of a row goes out again for any later version of it. */
  lemma LaterSaysMore(o: Options, early: seq<Step>, late: seq<Step>)
    requires early != [] && late != [] && Grows(o, early) && Grows(o, late)
    requires TextRow(early) || forall s :: s in early ==> s.stepType in TOOL_STEP_TYPES
    requires TextRow(late) || forall s :: s in late ==> s.stepType in TOOL_STEP_TYPES
    requires Extends(o, early[|early| - 1], late[|late| - 1])
    ensures var sent, again := Watch(o, UNSEEN, early).1, Watch(o, UNSEEN, late).1;
      sent != [] ==>
        && ToolUpdatesOf(sent) == ToolUpdatesOf(again)
        && (again != [] <==> (TextRow(late) ==> ShowsText(o, late)))
        && (o.showNarration ==> again != [] && ChunkText(sent) <= ChunkText(again))
  {
    hide Grows, Watch, StepText, StepToolCall, ShowsText;
    SentIs(o, early);
    SentIs(o, late);
    assert early[|early| - 1] in early && late[|late| - 1] in late;
  }

  /** Some version that was read had text and was not hidden. */
  ghost predicate ShowsText(o: Options, hist: seq<Step>) {
    exists s :: s in hist && TextOf(s) != [] && !o.Hides(TextOf(s))
  }

  lemma {:induction false} ShownIff(o: Options, hist: seq<Step>)
    requires Grows(o, hist) && TextRow(hist)
    ensures ShownChunks(Pieces(o, hist)) != [] <==> ShowsText(o, hist)
  {
    hide TextOf, Extends, Options.Hides, ShownChunks;
    if ShowsText(o, hist) {
      var s :| s in hist && TextOf(s) != [] && !o.Hides(TextOf(s));
      var i: nat :| i < |hist| && hist[i] == s;
      PieceOfVersion(o, hist, i);
      ShownLength(Pieces(o, hist));
      assert ChunkText(ShownChunks(Pieces(o, hist))) != [];
      ShownTexts(Pieces(o, hist));
    } else {
      PiecesHiddenUnless(o, hist);
      ShownLength(Pieces(o, hist));
    }
  }

  /**
   For two turns over one growing conversation, the second started from whatever session value it held and ending in a
   successful read: a row the first turn sent is sent again exactly if it lies above the held index and, for text with
   narration hidden, some reading of the second turn shows it. A tool pair goes out again equal; text, with narration
   shown, in full.
   */
  lemma {:induction false} RowRepeatedIff(o: Options, sess: StoredSession, first: Turn, firstDbs: seq<Db>, held: StoredSession, second: Turn, secondDbs: seq<Db>, r: int)
    requires RanOver(o, sess, first, firstDbs) && RanOver(o, held, second, secondDbs)
    requires EndsWithRead(held, second)
    requires DbGrows(o, firstDbs[|firstDbs| - 1], secondDbs[|secondDbs| - 1])
    requires SentFor(o, sess, first, r) != []
    ensures var sent, again := SentFor(o, sess, first, r), SentFor(o, held, second, r);
      var read := History(SnapshotFor(held, second.listing), held.conversationID, second.inputs, r);
      && (again != [] <==> r > held.lastStepIdx && (TextRow(read) ==> ShowsText(o, read)))
      && (r > held.lastStepIdx ==> ToolUpdatesOf(sent) == ToolUpdatesOf(again))
      && (r > held.lastStepIdx && o.showNarration ==> again != [] && ChunkText(sent) <= ChunkText(again))
  {
    hide Bound, Extends, Watch, TurnRun, Query, Succeeds, ConvAfter, ShowsText, ToolUpdatesOf;
    SentRow(o, sess, first, firstDbs, r);
    SentRow(o, held, second, secondDbs, r);
    var snapshot := SnapshotFor(held, second.listing);
    var early := History(SnapshotFor(sess, first.listing), sess.conversationID, first.inputs, r);
    var late := History(snapshot, held.conversationID, second.inputs, r);
    var was, now := firstDbs[|firstDbs| - 1], secondDbs[|secondDbs| - 1];
    NothingSeen(o);
    assert early[|early| - 1] in early;
    HistoryEnds(o, snapshot, held.conversationID, held.lastStepIdx, second.inputs, secondDbs, r);
    VersionsOfQuery(now, held.lastStepIdx, r);
    GrowthKeepsRow(o, was, now, sess.lastStepIdx, r);
    if r > held.lastStepIdx {
      assert late[|late| - 1] == late[|late| - 1..][0] == StepOf(now, r);
      ExtendsTransitive(o, early[|early| - 1], StepOf(was, r), StepOf(now, r));
      LaterSaysMore(o, early, late);
    }
  }

  lemma NothingSeen(o: Options)
    ensures Watch(o, UNSEEN, []).1 == []
  {
  }

  lemma {:induction false} SentMeansEmitted(log: seq<Emission>, r: int)
    requires UpdatesOf(log, r) != []
    ensures exists e :: e in log && e.row == r
  {
    var last := log[|log| - 1];
    if last.row == r {
      assert last in log;
    } else {
      SentMeansEmitted(log[..|log| - 1], r);
      var e :| e in log[..|log| - 1] && e.row == r;
      assert e in log;
    }
  }

  lemma {:induction false} RanAboveBase(o: Options, sess: StoredSession, turn: Turn, dbs: seq<Db>)
    requires RanOver(o, sess, turn, dbs)
    ensures AboveBase(sess.lastStepIdx, turn.inputs)
  {
    hide DbGrows, Query;
    forall i, s | 0 <= i < |turn.inputs| && turn.inputs[i].read.Rows? && s in turn.inputs[i].read.steps
      ensures s.idx > sess.lastStepIdx
    {
      QueryContract(dbs[i], sess.lastStepIdx);
    }
  }

  /**
   So a turn from the same held session as the turn before it, the stale hold, sends again every row that turn sent, and
   one from the session that turn recorded sends none of them.
   */
  lemma {:induction false} StaleTurnRepeats(o: Options, sess: StoredSession, first: Turn, firstDbs: seq<Db>, stale: Turn, staleDbs: seq<Db>, next: Turn, nextDbs: seq<Db>, r: int)
    requires sess.conversationID != ""
    requires RanOver(o, sess, first, firstDbs) && SentFor(o, sess, first, r) != []
    requires RanOver(o, sess, stale, staleDbs) && EndsWithRead(sess, stale)
    requires var recorded := Recorded(o, sess, first); RanOver(o, recorded, next, nextDbs) && EndsWithRead(recorded, next)
    requires DbGrows(o, firstDbs[|firstDbs| - 1], staleDbs[|staleDbs| - 1])
    requires DbGrows(o, firstDbs[|firstDbs| - 1], nextDbs[|nextDbs| - 1])
    ensures var sent, again := SentFor(o, sess, first, r), SentFor(o, sess, stale, r);
      && ToolUpdatesOf(sent) == ToolUpdatesOf(again)
      && (o.showNarration ==> again != [] && ChunkText(sent) <= ChunkText(again))
    ensures SentFor(o, Recorded(o, sess, first), next, r) == []
  {
    hide Run, RanOver, EndsWithRead, AboveBase, DbGrows;
    RanAboveBase(o, sess, first, firstDbs);
    TurnStaysInWindow(o, SnapshotFor(sess, first.listing), Initial(sess.conversationID, sess.lastStepIdx), sess.lastStepIdx, first.inputs);
    SentMeansEmitted(TurnRun(o, sess, first).1, r);
    RowRepeatedIff(o, sess, first, firstDbs, sess, stale, staleDbs, r);
    RowRepeatedIff(o, sess, first, firstDbs, Recorded(o, sess, first), next, nextDbs, r);
  }
}
