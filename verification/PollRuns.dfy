/**
 Whole turns: any number of polls, failed ones among them, of a database that agy extends between reads.
 What a turn emits does not depend on when the polls fell.
 */
module PollRuns {
  import opened Common
  import opened Proto
  import opened Transcript
  import opened Poller
  import opened RowHistory

  // ----- runs of the poller -----

  ghost function Run(o: Options, snapshot: Option<set<ConvId>>, s: State, inputs: seq<Input>): (State, seq<Emission>) {
    if inputs == [] then (s, [])
    else
      var (mid, log) := Run(o, snapshot, s, inputs[..|inputs| - 1]);
      var polled := PollOnce(o, snapshot, mid, inputs[|inputs| - 1]);
      (polled.state, log + polled.log)
  }

  ghost function ConvAfter(snapshot: Option<set<ConvId>>, conv: ConvId, inputs: seq<Input>): ConvId {
    if inputs == [] then conv
    else Bound(snapshot, ConvAfter(snapshot, conv, inputs[..|inputs| - 1]), inputs[|inputs| - 1]).0
  }

  /** The rows a poll gets to see: none while unbound, on an error, or before the table exists. */
  ghost function RowsRead(snapshot: Option<set<ConvId>>, conv: ConvId, input: Input): seq<Step> {
    var (bound, error) := Bound(snapshot, conv, input);
    if error.None? && bound != "" && input.read.Rows? then input.read.steps else []
  }

  ghost predicate Succeeds(snapshot: Option<set<ConvId>>, conv: ConvId, input: Input) {
    var (bound, error) := Bound(snapshot, conv, input);
    error.None? && bound != "" && input.read.Rows?
  }

  /** The versions of one row among the rows of one read. */
  function Versions(steps: seq<Step>, idx: int): seq<Step> {
    if steps == [] then []
    else
      var last := steps[|steps| - 1];
      Versions(steps[..|steps| - 1], idx) + (if last.idx == idx then [last] else [])
  }

  /** The versions of one row a turn reads, in order. */
  ghost function History(snapshot: Option<set<ConvId>>, conv: ConvId, inputs: seq<Input>, idx: int): seq<Step> {
    if inputs == [] then []
    else
      var front, last := inputs[..|inputs| - 1], inputs[|inputs| - 1];
      History(snapshot, conv, front, idx) + Versions(RowsRead(snapshot, ConvAfter(snapshot, conv, front), last), idx)
  }

  function UpdatesOf(log: seq<Emission>, idx: int): seq<Update> {
    if log == [] then []
    else
      var last := log[|log| - 1];
      UpdatesOf(log[..|log| - 1], idx) + (if last.row == idx then [last.update] else [])
  }

  // ----- rows are independent -----

  lemma {:induction false} UpdatesOfAppend(a: seq<Emission>, b: seq<Emission>, idx: int)
    ensures UpdatesOf(a + b, idx) == UpdatesOf(a, idx) + UpdatesOf(b, idx)
  {
    if b == [] {
      assert a + b == a;
    } else {
      assert (a + b)[..|a + b| - 1] == a + b[..|b| - 1];
      UpdatesOfAppend(a, b[..|b| - 1], idx);
    }
  }

  lemma {:induction false} UpdatesOfTag(row: int, updates: seq<Update>, idx: int)
    ensures UpdatesOf(Tag(row, updates), idx) == if row == idx then updates else []
  {
    if updates != [] {
      var n := |updates| - 1;
      assert Tag(row, updates)[..n] == Tag(row, updates[..n]);
      UpdatesOfTag(row, updates[..n], idx);
      assert updates == updates[..n] + [updates[n]];
    }
  }

  lemma {:induction false} WatchAppend(o: Options, v: View, a: seq<Step>, b: seq<Step>)
    ensures var (mid, sent) := Watch(o, v, a); var (end, more) := Watch(o, mid, b);
            Watch(o, v, a + b) == (end, sent + more)
  {
    hide Observe;
    if b == [] {
      assert a + b == a;
      var (_, sent) := Watch(o, v, a);
      assert sent + [] == sent;
    } else {
      assert (a + b)[..|a + b| - 1] == a + b[..|b| - 1];
      WatchAppend(o, v, a, b[..|b| - 1]);
      var (mid, sent) := Watch(o, v, a);
      var (late, more) := Watch(o, mid, b[..|b| - 1]);
      var last := Observe(o, late, b[|b| - 1]).1;
      assert (sent + more) + last == sent + (more + last);
    }
  }

  lemma {:induction false} ReadStepRow(o: Options, p: Progress, step: Step, idx: int)
    ensures var (q, updates) := ReadStep(o, p, step);
      && (step.idx == idx ==> (q.ViewOf(idx), updates) == Observe(o, p.ViewOf(idx), step))
      && (step.idx != idx ==> q.ViewOf(idx) == p.ViewOf(idx))
  {
    hide StepText, StepToolCall;
    var (after, updates) := Observe(o, p.ViewOf(step.idx), step);
    assert p.ViewOf(step.idx).toolSent ==> after.toolSent;
  }

  /** A poll changes and emits for a row what the versions of that row alone determine. */
  lemma {:induction false} ReadAllRow(o: Options, p: Progress, steps: seq<Step>, idx: int)
    ensures var (q, log) := ReadAll(o, p, steps);
            (q.ViewOf(idx), UpdatesOf(log, idx)) == Watch(o, p.ViewOf(idx), Versions(steps, idx))
  {
    if steps != [] {
      hide Observe, ReadStep, Tag;
      var front, last := steps[..|steps| - 1], steps[|steps| - 1];
      ReadAllRow(o, p, front, idx);
      var (mid, log) := ReadAll(o, p, front);
      ReadStepRow(o, mid, last, idx);
      var (_, updates) := ReadStep(o, mid, last);
      UpdatesOfAppend(log, Tag(last.idx, updates), idx);
      UpdatesOfTag(last.idx, updates, idx);
      WatchAppend(o, p.ViewOf(idx), Versions(front, idx), if last.idx == idx then [last] else []);
      WatchOne(o, mid.ViewOf(idx), last);
    }
  }

  lemma WatchOne(o: Options, v: View, step: Step)
    ensures Watch(o, v, [step]) == Observe(o, v, step)
    ensures Watch(o, v, []) == (v, [])
  {
    hide Observe;
    assert [step][..0] == [];
    var (end, sent) := Observe(o, v, step);
    assert [] + sent == sent;
  }

  lemma {:induction false} PollRows(o: Options, snapshot: Option<set<ConvId>>, s: State, input: Input)
    ensures var polled := PollOnce(o, snapshot, s, input);
      && (polled.state.progress, polled.log) == ReadAll(o, s.progress, RowsRead(snapshot, s.conversationID, input))
      && polled.state.conversationID == Bound(snapshot, s.conversationID, input).0
  {
    hide NewSince;
    assert ReadAll(o, s.progress, []) == (s.progress, []);
  }

  lemma {:induction false} RunConv(o: Options, snapshot: Option<set<ConvId>>, s: State, inputs: seq<Input>)
    ensures Run(o, snapshot, s, inputs).0.conversationID == ConvAfter(snapshot, s.conversationID, inputs)
  {
    if inputs != [] {
      hide Bound, PollOnce;
      var front, last := inputs[..|inputs| - 1], inputs[|inputs| - 1];
      RunConv(o, snapshot, s, front);
      PollRows(o, snapshot, Run(o, snapshot, s, front).0, last);
    }
  }

  /** What a turn emits for a row is what the successive versions of that row determine. */
  lemma {:induction false} RunRow(o: Options, snapshot: Option<set<ConvId>>, s: State, inputs: seq<Input>, idx: int)
    ensures var (end, log) := Run(o, snapshot, s, inputs);
            (end.progress.ViewOf(idx), UpdatesOf(log, idx)) ==
            Watch(o, s.progress.ViewOf(idx), History(snapshot, s.conversationID, inputs, idx))
  {
    if inputs != [] {
      hide Bound, PollOnce, ReadAll, RowsRead, ConvAfter, Progress.ViewOf;
      var front, last := inputs[..|inputs| - 1], inputs[|inputs| - 1];
      var (mid, log) := Run(o, snapshot, s, front);
      RunRow(o, snapshot, s, front, idx);
      RunConv(o, snapshot, s, front);
      var rows := RowsRead(snapshot, mid.conversationID, last);
      PollRows(o, snapshot, mid, last);
      ReadAllRow(o, mid.progress, rows, idx);
      UpdatesOfAppend(log, PollOnce(o, snapshot, mid, last).log, idx);
      WatchAppend(o, s.progress.ViewOf(idx), History(snapshot, s.conversationID, front, idx), Versions(rows, idx));
    }
  }

  // ----- the environment -----

  function StepOf(db: Db, idx: int): Step
    requires idx in db
  {
    Step(idx, db[idx].stepType, db[idx].payload)
  }

  /** agy adds rows and lengthens them; it removes none. */
  ghost predicate DbGrows(o: Options, earlier: Db, later: Db) {
    forall k :: k in earlier ==> k in later && Extends(o, StepOf(earlier, k), StepOf(later, k))
  }

  /** The database at each poll, growing, and every successful read a query of it. */
  ghost predicate Environment(o: Options, base: int, inputs: seq<Input>, dbs: seq<Db>) {
    && |dbs| == |inputs|
    && (forall i, j :: 0 <= i < j < |dbs| ==> DbGrows(o, dbs[i], dbs[j]))
    && forall i :: 0 <= i < |dbs| && inputs[i].read.Rows? ==> inputs[i].read.steps == Query(dbs[i], base)
  }

  predicate Wanted(db: Db, base: int, idx: int) {
    idx in db && idx > base && Selected(db[idx])
  }

  lemma {:induction false} VersionsOfOrdered(steps: seq<Step>, idx: int)
    requires Ordered(steps)
    ensures (forall s :: s in steps ==> s.idx != idx) ==> Versions(steps, idx) == []
    ensures forall s :: s in steps && s.idx == idx ==> Versions(steps, idx) == [s]
  {
    if steps != [] {
      var front, last := steps[..|steps| - 1], steps[|steps| - 1];
      VersionsOfOrdered(front, idx);
      assert forall s :: s in steps <==> s in front || s == last;
    }
  }

  lemma VersionsOfQuery(db: Db, base: int, idx: int)
    ensures Versions(Query(db, base), idx) == if Wanted(db, base, idx) then [StepOf(db, idx)] else []
  {
    QueryContract(db, base);
    VersionsOfOrdered(Query(db, base), idx);
    if Wanted(db, base, idx) {
      assert StepOf(db, idx) in Query(db, base);
    }
  }

  // ----- poll-schedule independence -----

  lemma {:induction false} ExtendsTransitive(o: Options, a: Step, b: Step, c: Step)
    requires Extends(o, a, b) && Extends(o, b, c)
    ensures Extends(o, a, c)
  {
    hide StepText, StepToolCall;
  }

  lemma ExtendsSelf(o: Options, a: Step)
    ensures Extends(o, a, a)
  {
    hide StepText, StepToolCall;
  }

  /** The versions read of one row, up to a database they all still extend to. */
  ghost predicate Tracks(o: Options, hist: seq<Step>, idx: int, base: int, db: Db) {
    && Grows(o, hist)
    && forall s :: s in hist ==> s.idx == idx && Wanted(db, base, idx) && Extends(o, s, StepOf(db, idx))
  }

  lemma {:induction false} TracksLater(o: Options, hist: seq<Step>, idx: int, base: int, earlier: Db, later: Db)
    requires Tracks(o, hist, idx, base, earlier) && DbGrows(o, earlier, later)
    ensures Tracks(o, hist, idx, base, later)
  {
    forall s | s in hist
      ensures Wanted(later, base, idx) && Extends(o, s, StepOf(later, idx))
    {
      ExtendsTransitive(o, s, StepOf(earlier, idx), StepOf(later, idx));
    }
  }

  lemma {:induction false} TracksOneMore(o: Options, hist: seq<Step>, idx: int, base: int, db: Db)
    requires Tracks(o, hist, idx, base, db) && Wanted(db, base, idx)
    ensures Tracks(o, hist + [StepOf(db, idx)], idx, base, db)
  {
    ExtendsSelf(o, StepOf(db, idx));
    var longer := hist + [StepOf(db, idx)];
    forall i, j | 0 <= i < j < |longer|
      ensures Extends(o, longer[i], longer[j])
    {
      if j == |hist| {
        assert hist[i] in hist;
      }
    }
  }

  /** Each poll adds the row as it stands to the versions read of it, or nothing. */
  lemma {:induction false} HistoryStep(o: Options, snapshot: Option<set<ConvId>>, conv: ConvId, base: int, inputs: seq<Input>, dbs: seq<Db>, idx: int)
    requires Environment(o, base, inputs, dbs) && inputs != []
    ensures var front, db := inputs[..|inputs| - 1], dbs[|dbs| - 1];
      History(snapshot, conv, inputs, idx) == History(snapshot, conv, front, idx) +
        (if Succeeds(snapshot, ConvAfter(snapshot, conv, front), inputs[|inputs| - 1]) && Wanted(db, base, idx)
         then [StepOf(db, idx)] else [])
  {
    hide Bound, DbGrows, Query;
    VersionsOfQuery(dbs[|dbs| - 1], base, idx);
    assert Versions([], idx) == [];
  }

  /** Whatever the schedule, the versions a turn reads of a row grow into the row of the last database. */
  lemma {:induction false} HistoryTracks(o: Options, snapshot: Option<set<ConvId>>, conv: ConvId, base: int, inputs: seq<Input>, dbs: seq<Db>, idx: int)
    requires Environment(o, base, inputs, dbs) && inputs != []
    ensures Tracks(o, History(snapshot, conv, inputs, idx), idx, base, dbs[|dbs| - 1])
  {
    hide Extends, Bound, Wanted;
    var n := |inputs| - 1;
    var front, db := inputs[..n], dbs[n];
    var hist := History(snapshot, conv, front, idx);
    if n > 0 {
      HistoryTracks(o, snapshot, conv, base, front, dbs[..n], idx);
      TracksLater(o, hist, idx, base, dbs[n - 1], db);
    } else {
      assert Tracks(o, [], idx, base, db);
    }
    HistoryStep(o, snapshot, conv, base, inputs, dbs, idx);
    hide Tracks, History, Environment, Succeeds, ConvAfter;
    if Succeeds(snapshot, ConvAfter(snapshot, conv, front), inputs[n]) && Wanted(db, base, idx) {
      TracksOneMore(o, hist, idx, base, db);
    } else {
      assert hist + [] == hist;
    }
  }

  lemma {:induction false} HistoryEnds(o: Options, snapshot: Option<set<ConvId>>, conv: ConvId, base: int, inputs: seq<Input>, dbs: seq<Db>, idx: int)
    requires Environment(o, base, inputs, dbs) && inputs != []
    requires Succeeds(snapshot, ConvAfter(snapshot, conv, inputs[..|inputs| - 1]), inputs[|inputs| - 1])
    ensures var hist, db := History(snapshot, conv, inputs, idx), dbs[|dbs| - 1];
      && (hist != [] <==> Wanted(db, base, idx))
      && (hist != [] ==> hist[|hist| - 1..] == Versions(Query(db, base), idx))
      && (hist == [] ==> hist == Versions(Query(db, base), idx))
  {
    hide Extends, Bound;
    VersionsOfQuery(dbs[|dbs| - 1], base, idx);
    HistoryTracks(o, snapshot, conv, base, inputs, dbs, idx);
    var hist := History(snapshot, conv, inputs, idx);
    if hist != [] {
      assert hist[0] in hist;
    }
  }

  function ToolUpdatesOf(updates: seq<Update>): seq<Update> {
    if updates == [] then []
    else
      var last := updates[|updates| - 1];
      ToolUpdatesOf(updates[..|updates| - 1]) + (if last.Chunk? then [] else [last])
  }

  /**
   One row against a single poll of its final version: the same marks and the same tool pair whatever the schedule,
   and the same text exactly when hiding never flipped.
   */
  lemma RowIndependent(o: Options, hist: seq<Step>)
    requires Grows(o, hist) && hist != []
    requires TextRow(hist) || forall s :: s in hist ==> s.stepType in TOOL_STEP_TYPES
    ensures var (view, sent) := Watch(o, UNSEEN, hist); var (view', sent') := Watch(o, UNSEEN, hist[|hist| - 1..]);
      && view == view'
      && ToolUpdatesOf(sent) == ToolUpdatesOf(sent')
      && (ChunkText(sent) == ChunkText(sent') <==> (TextRow(hist) ==> NarrationSettled(o, hist)))
  {
    hide StepText, StepToolCall, Observe, Extends, Watch;
    var newest := hist[|hist| - 1..];
    assert newest == [hist[|hist| - 1]];
    assert hist[|hist| - 1] in hist;
    if TextRow(hist) {
      HiddenRowIff(o, hist);
      TextRowPieces(o, hist);
      TextRowPieces(o, newest);
      NoToolsInChunks(Pieces(o, hist));
      NoToolsInChunks(Pieces(o, newest));
    } else {
      ToolRowOnce(o, hist);
      ToolRowOnce(o, newest);
    }
  }

  lemma {:induction false} NoToolsInChunks(pieces: seq<Piece>)
    ensures ToolUpdatesOf(ShownChunks(pieces)) == []
  {
    if pieces != [] {
      NoToolsInChunks(pieces[..|pieces| - 1]);
      var shown := ShownChunks(pieces);
      var front := ShownChunks(pieces[..|pieces| - 1]);
      assert shown != front ==> shown[..|shown| - 1] == front;
    }
  }

  lemma {:induction false} ReadAllLastIdx(o: Options, p: Progress, steps: seq<Step>)
    ensures var q := ReadAll(o, p, steps).0;
      && p.lastIdx <= q.lastIdx
      && (forall s :: s in steps ==> s.idx <= q.lastIdx)
      && (q.lastIdx == p.lastIdx || exists s :: s in steps && s.idx == q.lastIdx)
  {
    if steps != [] {
      hide Observe;
      var front, last := steps[..|steps| - 1], steps[|steps| - 1];
      ReadAllLastIdx(o, p, front);
      assert forall s :: s in steps <==> s in front || s == last;
    }
  }

  /** The recorded index is the base or the index of a row that is still in the database. */
  lemma {:induction false} RunLastIdx(o: Options, snapshot: Option<set<ConvId>>, conv: ConvId, base: int, inputs: seq<Input>, dbs: seq<Db>)
    requires Environment(o, base, inputs, dbs) && inputs != []
    ensures var l := Run(o, snapshot, Initial(conv, base), inputs).0.progress.lastIdx;
            l == base || (l > base && Wanted(dbs[|dbs| - 1], base, l))
  {
    hide Extends, Bound, PollOnce, ReadAll;
    var n := |inputs| - 1;
    var front, db := inputs[..n], dbs[n];
    var mid := Run(o, snapshot, Initial(conv, base), front).0;
    if n > 0 {
      RunLastIdx(o, snapshot, conv, base, front, dbs[..n]);
      var l := mid.progress.lastIdx;
      assert l != base ==> Wanted(db, base, l) by {
        GrowthKeepsRow(o, dbs[n - 1], db, base, l);
      }
    }
    PollRows(o, snapshot, mid, inputs[n]);
    var rows := RowsRead(snapshot, mid.conversationID, inputs[n]);
    ReadAllLastIdx(o, mid.progress, rows);
    QueryContract(db, base);
  }

  lemma {:induction false} GrowthKeepsRow(o: Options, earlier: Db, later: Db, base: int, idx: int)
    requires DbGrows(o, earlier, later)
    ensures Wanted(earlier, base, idx) ==> Wanted(later, base, idx)
  {
    hide StepText, StepToolCall;
  }

  /**
   A turn ends where one poll of the final database would: the same recorded index, the same marks and the same tool
   pairs whatever the schedule of polls, failed polls and growth. Row by row the text is the same as well exactly
   when no hidden row changed between narration and prose under the polls, so always when narration is shown.
   */
  lemma {:induction false} ScheduleIndependence(o: Options, snapshot: Option<set<ConvId>>, conv: ConvId, base: int, inputs: seq<Input>, dbs: seq<Db>)
    requires Environment(o, base, inputs, dbs) && inputs != []
    requires Succeeds(snapshot, ConvAfter(snapshot, conv, inputs[..|inputs| - 1]), inputs[|inputs| - 1])
    ensures var (end, log) := Run(o, snapshot, Initial(conv, base), inputs);
      var (once, onceLog) := ReadAll(o, Progress(base, map[], {}), Query(dbs[|dbs| - 1], base));
      && end.progress.lastIdx == once.lastIdx
      && forall idx ::
        && end.progress.ViewOf(idx) == once.ViewOf(idx)
        && ToolUpdatesOf(UpdatesOf(log, idx)) == ToolUpdatesOf(UpdatesOf(onceLog, idx))
        && (ChunkText(UpdatesOf(log, idx)) == ChunkText(UpdatesOf(onceLog, idx)) <==>
            var hist := History(snapshot, conv, inputs, idx); hist != [] && TextRow(hist) ==> NarrationSettled(o, hist))
  {
    hide StepText, StepToolCall, Extends, Bound, PollOnce, ReadAll, Watch;
    var initial, p, db := Initial(conv, base), Progress(base, map[], {}), dbs[|dbs| - 1];
    var (end, log) := Run(o, snapshot, initial, inputs);
    var (once, onceLog) := ReadAll(o, p, Query(db, base));
    SameLastIdx(o, snapshot, conv, base, inputs, dbs);
    forall idx
      ensures end.progress.ViewOf(idx) == once.ViewOf(idx)
      ensures ToolUpdatesOf(UpdatesOf(log, idx)) == ToolUpdatesOf(UpdatesOf(onceLog, idx))
      ensures ChunkText(UpdatesOf(log, idx)) == ChunkText(UpdatesOf(onceLog, idx)) <==>
              var hist := History(snapshot, conv, inputs, idx); hist != [] && TextRow(hist) ==> NarrationSettled(o, hist)
    {
      var hist := History(snapshot, conv, inputs, idx);
      RunRow(o, snapshot, initial, inputs, idx);
      ReadAllRow(o, p, Query(db, base), idx);
      HistoryTracks(o, snapshot, conv, base, inputs, dbs, idx);
      HistoryEnds(o, snapshot, conv, base, inputs, dbs, idx);
      if hist != [] {
        OneKindOfRow(o, hist, idx, base, db);
        RowIndependent(o, hist);
      }
    }
  }

  lemma {:induction false} OneKindOfRow(o: Options, hist: seq<Step>, idx: int, base: int, db: Db)
    requires Tracks(o, hist, idx, base, db)
    ensures TextRow(hist) || forall s :: s in hist ==> s.stepType in TOOL_STEP_TYPES
  {
    hide StepText, StepToolCall;
  }

  lemma {:induction false} SameLastIdx(o: Options, snapshot: Option<set<ConvId>>, conv: ConvId, base: int, inputs: seq<Input>, dbs: seq<Db>)
    requires Environment(o, base, inputs, dbs) && inputs != []
    requires Succeeds(snapshot, ConvAfter(snapshot, conv, inputs[..|inputs| - 1]), inputs[|inputs| - 1])
    ensures Run(o, snapshot, Initial(conv, base), inputs).0.progress.lastIdx ==
            ReadAll(o, Progress(base, map[], {}), Query(dbs[|dbs| - 1], base)).0.lastIdx
  {
    hide StepText, StepToolCall, Extends, Bound, PollOnce, ReadAll, Watch;
    var n := |inputs| - 1;
    var front, db := inputs[..n], dbs[n];
    var mid := Run(o, snapshot, Initial(conv, base), front).0;
    RunLastIdx(o, snapshot, conv, base, inputs, dbs);
    RunConv(o, snapshot, Initial(conv, base), front);
    PollRows(o, snapshot, mid, inputs[n]);
    ReadAllLastIdx(o, mid.progress, Query(db, base));
    ReadAllLastIdx(o, Progress(base, map[], {}), Query(db, base));
    QueryContract(db, base);
    var l := Run(o, snapshot, Initial(conv, base), inputs).0.progress.lastIdx;
    if l != base {
      assert StepOf(db, l) in Query(db, base);
    }
  }

  /** Every chunk of a text row, in order: the shown pieces of its text, each once. Hidden pieces are the rest of the text. */
  lemma {:induction false} TurnEmitsPieces(o: Options, snapshot: Option<set<ConvId>>, conv: ConvId, base: int, inputs: seq<Input>, dbs: seq<Db>, idx: int)
    requires Environment(o, base, inputs, dbs) && inputs != []
    requires TextRow(History(snapshot, conv, inputs, idx))
    ensures var (end, log) := Run(o, snapshot, Initial(conv, base), inputs);
      var hist := History(snapshot, conv, inputs, idx);
      && UpdatesOf(log, idx) == ShownChunks(Pieces(o, hist))
      && Whole(Pieces(o, hist)) == Latest(hist)
      && end.progress.ViewOf(idx).mark == |Latest(hist)|
  {
    hide StepText, StepToolCall, Extends, Bound, PollOnce, Watch, Pieces, ShownChunks, Whole;
    RunRow(o, snapshot, Initial(conv, base), inputs, idx);
    HistoryTracks(o, snapshot, conv, base, inputs, dbs, idx);
    TextRowPieces(o, History(snapshot, conv, inputs, idx));
  }

  /** With narration shown, the chunks of every text row spell the row's text in the final database. */
  lemma {:induction false} TurnEmitsEverything(o: Options, snapshot: Option<set<ConvId>>, conv: ConvId, base: int, inputs: seq<Input>, dbs: seq<Db>, idx: int)
    requires Environment(o, base, inputs, dbs) && inputs != [] && o.showNarration
    requires Succeeds(snapshot, ConvAfter(snapshot, conv, inputs[..|inputs| - 1]), inputs[|inputs| - 1])
    requires var db := dbs[|dbs| - 1]; idx in db && db[idx].stepType == STEP_TYPE_TEXT && idx > base
    ensures ChunkText(UpdatesOf(Run(o, snapshot, Initial(conv, base), inputs).1, idx)) == TextOf(StepOf(dbs[|dbs| - 1], idx))
  {
    hide StepText, StepToolCall, Bound, PollOnce, Watch, Pieces, ShownChunks, Whole, TextOf;
    RunRow(o, snapshot, Initial(conv, base), inputs, idx);
    HistoryTracks(o, snapshot, conv, base, inputs, dbs, idx);
    HistoryEnds(o, snapshot, conv, base, inputs, dbs, idx);
    VersionsOfQuery(dbs[|dbs| - 1], base, idx);
    var hist := History(snapshot, conv, inputs, idx);
    assert hist[|hist| - 1] == hist[|hist| - 1..][0];
    TextRowConserved(o, hist);
  }
}
