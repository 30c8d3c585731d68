/**
 The tail of a turn: once agy has exited, the conversation is polled until a clean read brings nothing new,
 within a fixed number of attempts.
 */
module Drain {
  import opened Common
  import opened Utf8
  import opened Proto
  import opened Transcript
  import opened Poller
  import opened RowHistory
  import opened PollRuns

  const FINAL_DRAIN_ATTEMPTS := 5

  /** What one attempt meets: what the poll reads, how many updates the client accepts, and the deadline. */
  datatype Attempt = Attempt(input: Input, accepts: nat, expired: bool, sleepCut: bool)

  datatype Stop = Deadline | DeliveryFailed | Quiet | BudgetSpent

  ghost function Inputs(attempts: seq<Attempt>): seq<Input> {
    seq(|attempts|, i requires 0 <= i < |attempts| => attempts[i].input)
  }

  /** The k-th poll of a drain. */
  ghost function PollAt(o: Options, snapshot: Option<set<ConvId>>, s: State, attempts: seq<Attempt>, k: nat): Polled
    requires k < |attempts|
  {
    PollOnce(o, snapshot, Run(o, snapshot, s, Inputs(attempts[..k])).0, attempts[k].input)
  }

  ghost predicate Delivered(p: Polled, a: Attempt) {
    |p.log| <= a.accepts
  }

  /** A poll after which the drain looks again: it failed, or it brought something. */
  ghost predicate LooksAgain(p: Polled, a: Attempt) {
    !a.expired && Delivered(p, a) && (p.error.Some? || p.log != []) && !a.sleepCut
  }

  /** The deadline passed while waiting after a poll that asked for another. */
  ghost predicate CutWhileWaiting(p: Polled, a: Attempt) {
    !a.expired && Delivered(p, a) && (p.error.Some? || p.log != []) && a.sleepCut
  }

  ghost predicate IsQuiet(p: Polled) {
    p.error.None? && p.log == []
  }

  lemma {:induction false} RunSnoc(o: Options, snapshot: Option<set<ConvId>>, s: State, attempts: seq<Attempt>, k: nat)
    requires k < |attempts|
    ensures var (mid, log) := Run(o, snapshot, s, Inputs(attempts[..k]));
            Run(o, snapshot, s, Inputs(attempts[..k + 1])) ==
            (PollAt(o, snapshot, s, attempts, k).state, log + PollAt(o, snapshot, s, attempts, k).log)
  {
    hide PollOnce;
    var longer := Inputs(attempts[..k + 1]);
    assert longer[..|longer| - 1] == Inputs(attempts[..k]);
    assert longer[|longer| - 1] == attempts[k].input;
  }

  /** One poll whose updates are handed to the client one by one until it refuses. */
  method PollAndEmit(poller: TurnPoller, a: Attempt) returns (emitted: seq<Update>, pollFailed: bool, emitFailed: bool)
    modifies poller
    ensures var p := PollOnce(poller.options, poller.snapshot, old(poller.Value()), a.input);
      && poller.Value() == p.state
      && pollFailed == p.error.Some?
      && emitFailed == !Delivered(p, a)
      && emitted == (if Delivered(p, a) then Updates(p.log) else Updates(p.log)[..a.accepts])
  {
    hide PollOnce;
    ErrorsBringNothing(poller.options, poller.snapshot, poller.Value(), a.input);
    var updates, error := poller.Poll(a.input);
    if error.Some? {
      return [], true, false;
    }
    emitted := [];
    for i := 0 to |updates|
      invariant i <= a.accepts && emitted == updates[..i]
    {
      if i == a.accepts {
        return emitted, false, true;
      }
      emitted := emitted + [updates[i]];
    }
    return emitted, false, false;
  }

  lemma {:induction false} ErrorsBringNothing(o: Options, snapshot: Option<set<ConvId>>, s: State, input: Input)
    ensures PollOnce(o, snapshot, s, input).error.Some? ==> PollOnce(o, snapshot, s, input).log == []
  {
  }

  /** The first n polls all ask for another. */
  ghost predicate KeepsLooking(o: Options, snapshot: Option<set<ConvId>>, s: State, attempts: seq<Attempt>, n: nat)
    requires n <= |attempts|
  {
    forall k: nat :: k < n ==> LooksAgain(PollAt(o, snapshot, s, attempts, k), attempts[k])
  }

  /** How a drain ends: after how many polls, and why. */
  ghost predicate EndsAs(o: Options, snapshot: Option<set<ConvId>>, s: State, attempts: seq<Attempt>, polls: nat, stop: Stop)
    requires |attempts| == FINAL_DRAIN_ATTEMPTS
  {
    && polls <= FINAL_DRAIN_ATTEMPTS && (forall k :: 0 <= k < polls ==> !attempts[k].expired)
    && KeepsLooking(o, snapshot, s, attempts, if polls == 0 then 0 else polls - 1)
    && (stop == Quiet <==> polls > 0 && IsQuiet(PollAt(o, snapshot, s, attempts, polls - 1)))
    && (stop == DeliveryFailed <==>
          polls > 0 && !Delivered(PollAt(o, snapshot, s, attempts, polls - 1), attempts[polls - 1]))
    && (stop == BudgetSpent <==>
          polls == FINAL_DRAIN_ATTEMPTS && KeepsLooking(o, snapshot, s, attempts, FINAL_DRAIN_ATTEMPTS))
    && (stop == Deadline <==>
          (polls < FINAL_DRAIN_ATTEMPTS && attempts[polls].expired && KeepsLooking(o, snapshot, s, attempts, polls)) ||
          (polls > 0 && CutWhileWaiting(PollAt(o, snapshot, s, attempts, polls - 1), attempts[polls - 1])))
  }

  /** These conditions leave a drain one way to end. */
  lemma {:induction false} OneEnding(o: Options, snapshot: Option<set<ConvId>>, s: State, attempts: seq<Attempt>,
                  polls: nat, stop: Stop, otherPolls: nat, otherStop: Stop)
    requires |attempts| == FINAL_DRAIN_ATTEMPTS
    requires EndsAs(o, snapshot, s, attempts, polls, stop) && EndsAs(o, snapshot, s, attempts, otherPolls, otherStop)
    ensures polls == otherPolls && stop == otherStop
  {
    hide PollOnce, PollAt;
    if polls < otherPolls {
      EndsOnce(o, snapshot, s, attempts, polls, stop, otherPolls);
    } else if otherPolls < polls {
      EndsOnce(o, snapshot, s, attempts, otherPolls, otherStop, polls);
    }
  }

  /** A drain that has ended has not kept looking. */
  lemma {:induction false} EndsOnce(o: Options, snapshot: Option<set<ConvId>>, s: State, attempts: seq<Attempt>, polls: nat, stop: Stop, later: nat)
    requires |attempts| == FINAL_DRAIN_ATTEMPTS && polls < later <= FINAL_DRAIN_ATTEMPTS
    requires EndsAs(o, snapshot, s, attempts, polls, stop)
    ensures attempts[polls].expired || !KeepsLooking(o, snapshot, s, attempts, later - 1)
  {
    hide PollOnce, PollAt;
    if polls > 0 && KeepsLooking(o, snapshot, s, attempts, later - 1) {
      assert LooksAgain(PollAt(o, snapshot, s, attempts, polls - 1), attempts[polls - 1]);
    }
  }

  /** drainFinal. */
  method DrainFinal(poller: TurnPoller, attempts: seq<Attempt>) returns (polls: nat, stop: Stop, sent: seq<Update>)
    requires |attempts| == FINAL_DRAIN_ATTEMPTS
    modifies poller
    ensures var o, snapshot, s := poller.options, poller.snapshot, old(poller.Value());
      && EndsAs(o, snapshot, s, attempts, polls, stop)
      && poller.Value() == Run(o, snapshot, s, Inputs(attempts[..polls])).0
      && (stop != DeliveryFailed ==> sent == Updates(Run(o, snapshot, s, Inputs(attempts[..polls])).1))
      && (stop == DeliveryFailed ==>
            sent == Updates(Run(o, snapshot, s, Inputs(attempts[..polls - 1])).1) +
                    Updates(PollAt(o, snapshot, s, attempts, polls - 1).log)[..attempts[polls - 1].accepts])
  {
    hide PollOnce, Run, Updates;
    ghost var o, snapshot, s := poller.options, poller.snapshot, poller.Value();
    polls, sent := 0, [];
    DrainStart(o, snapshot, s, attempts);
    while polls < FINAL_DRAIN_ATTEMPTS
      invariant polls <= FINAL_DRAIN_ATTEMPTS
      invariant var (end, log) := Run(o, snapshot, s, Inputs(attempts[..polls]));
                poller.Value() == end && sent == Updates(log)
      invariant KeepsLooking(o, snapshot, s, attempts, polls)
    {
      var a := attempts[polls];
      if a.expired {
        return polls, Deadline, sent;
      }
      RunSnoc(o, snapshot, s, attempts, polls);
      UpdatesAppend(Run(o, snapshot, s, Inputs(attempts[..polls])).1, PollAt(o, snapshot, s, attempts, polls).log);
      ErrorsBringNothing(o, snapshot, poller.Value(), a.input);
      var emitted, pollFailed, emitFailed := PollAndEmit(poller, a);
      polls, sent := polls + 1, sent + emitted;
      if emitFailed {
        return polls, DeliveryFailed, sent;
      }
      if !pollFailed && |emitted| == 0 {
        return polls, Quiet, sent;
      }
      if a.sleepCut {
        return polls, Deadline, sent;
      }
    }
    return polls, BudgetSpent, sent;
  }

  lemma {:induction false} DrainStart(o: Options, snapshot: Option<set<ConvId>>, s: State, attempts: seq<Attempt>)
    ensures Run(o, snapshot, s, Inputs(attempts[..0])) == (s, [])
    ensures Updates([]) == []
  {
  }

  // ----- what a drain achieves -----

  /** A quiet poll either read the conversation, or found none bound, or no steps table: the last two read nothing. */
  lemma {:induction false} QuietPollIff(o: Options, snapshot: Option<set<ConvId>>, s: State, input: Input)
    ensures IsQuiet(PollOnce(o, snapshot, s, input)) <==>
            var (conv, error) := Bound(snapshot, s.conversationID, input);
            error.None? && (conv == "" || input.read.NoStepsTable? ||
              (input.read.Rows? && ReadAll(o, s.progress, input.read.steps).1 == []))
  {
    hide ReadAll;
  }

  lemma {:induction false} EnvironmentFront(o: Options, base: int, inputs: seq<Input>, dbs: seq<Db>)
    requires Environment(o, base, inputs, dbs)
    ensures |dbs| == |inputs|
    ensures inputs != [] ==> Environment(o, base, inputs[..|inputs| - 1], dbs[..|dbs| - 1])
  {
    hide DbGrows;
  }

  lemma {:induction false} SettledHistory(o: Options, snapshot: Option<set<ConvId>>, conv: ConvId, base: int, inputs: seq<Input>, dbs: seq<Db>, k: nat, idx: int)
    requires Environment(o, base, inputs, dbs) && k < |inputs|
    requires Succeeds(snapshot, ConvAfter(snapshot, conv, inputs[..k]), inputs[k])
    requires forall i :: k <= i < |dbs| ==> dbs[i] == dbs[k]
    requires Wanted(dbs[k], base, idx)
    ensures var hist := History(snapshot, conv, inputs, idx);
            hist != [] && hist[|hist| - 1] == StepOf(dbs[k], idx)
  {
    hide Extends, Bound, Wanted, Succeeds, History, Environment, ConvAfter;
    var n := |inputs| - 1;
    EnvironmentFront(o, base, inputs, dbs);
    HistoryStep(o, snapshot, conv, base, inputs, dbs, idx);
    if n == k {
      assert inputs[..|inputs| - 1] == inputs[..k];
      HistoryEnds(o, snapshot, conv, base, inputs, dbs, idx);
      var hist := History(snapshot, conv, inputs, idx);
      assert hist[|hist| - 1] == hist[|hist| - 1..][0];
    } else {
      assert inputs[..n][..k] == inputs[..k];
      SettledHistory(o, snapshot, conv, base, inputs[..n], dbs[..n], k, idx);
    }
  }

  /**
   Once agy has stopped writing, one clean read anywhere in what is left of the turn is enough: failed reads before
   or after it lose nothing, and every text row has gone out in full (narration shown).
   */
  lemma {:induction false} OneCleanReadCompletes(o: Options, snapshot: Option<set<ConvId>>, conv: ConvId, base: int, inputs: seq<Input>, dbs: seq<Db>, k: nat, idx: int)
    requires Environment(o, base, inputs, dbs) && k < |inputs| && o.showNarration
    requires Succeeds(snapshot, ConvAfter(snapshot, conv, inputs[..k]), inputs[k])
    requires forall i :: k <= i < |dbs| ==> dbs[i] == dbs[k]
    requires Wanted(dbs[k], base, idx) && dbs[k][idx].stepType == STEP_TYPE_TEXT
    ensures ChunkText(UpdatesOf(Run(o, snapshot, Initial(conv, base), inputs).1, idx)) == TextOf(StepOf(dbs[k], idx))
  {
    hide Extends, Bound, Run, Watch, TextOf, ChunkText, History, ConvAfter, Succeeds, Tracks;
    RunRow(o, snapshot, Initial(conv, base), inputs, idx);
    HistoryTracks(o, snapshot, conv, base, inputs, dbs, idx);
    SettledHistory(o, snapshot, conv, base, inputs, dbs, k, idx);
    var hist := History(snapshot, conv, inputs, idx);
    TextHistory(o, hist, idx, base, dbs[|dbs| - 1]);
    TextRowConserved(o, hist);
  }

  lemma {:induction false} TextHistory(o: Options, hist: seq<Step>, idx: int, base: int, db: Db)
    requires Tracks(o, hist, idx, base, db) && hist != [] && hist[|hist| - 1].stepType == STEP_TYPE_TEXT
    ensures Grows(o, hist) && TextRow(hist)
  {
    hide Extends;
    OneKindOfRow(o, hist, idx, base, db);
    assert hist[|hist| - 1] in hist;
  }

  /** What has gone out of a row's text after these polls. */
  ghost function SentText(o: Options, snapshot: Option<set<ConvId>>, conv: ConvId, base: int, inputs: seq<Input>, idx: int): Bytes {
    ChunkText(UpdatesOf(Run(o, snapshot, Initial(conv, base), inputs).1, idx))
  }

  /** The i-th poll reads the conversation. */
  ghost predicate Reads(snapshot: Option<set<ConvId>>, conv: ConvId, inputs: seq<Input>, i: nat)
    requires i < |inputs|
  {
    Succeeds(snapshot, ConvAfter(snapshot, conv, inputs[..i]), inputs[i])
  }

  lemma {:induction false} NoReadNoChange(o: Options, snapshot: Option<set<ConvId>>, conv: ConvId, base: int, inputs: seq<Input>, dbs: seq<Db>, k: nat, idx: int)
    requires Environment(o, base, inputs, dbs) && k <= |inputs|
    requires forall i :: k <= i < |inputs| ==> !Reads(snapshot, conv, inputs, i)
    ensures History(snapshot, conv, inputs, idx) == History(snapshot, conv, inputs[..k], idx)
    decreases |inputs|
  {
    hide Bound, Wanted, Succeeds, History, Environment, ConvAfter;
    if k == |inputs| {
      assert inputs[..k] == inputs;
    } else {
      var n := |inputs| - 1;
      var front := inputs[..n];
      assert !Reads(snapshot, conv, inputs, n);
      EnvironmentFront(o, base, inputs, dbs);
      HistoryStep(o, snapshot, conv, base, inputs, dbs, idx);
      forall i | k <= i < n
        ensures !Reads(snapshot, conv, front, i)
      {
        assert front[..i] == inputs[..i] && !Reads(snapshot, conv, inputs, i);
      }
      NoReadNoChange(o, snapshot, conv, base, front, dbs[..n], k, idx);
      assert front[..k] == inputs[..k];
      assert History(snapshot, conv, front, idx) + [] == History(snapshot, conv, front, idx);
    }
  }

  /**
   Once agy has stopped writing, a text row still owed is delivered by the rest of the turn exactly if one of its polls
   reads the conversation (narration shown).
   */
  lemma {:induction false} DeliveredIff(o: Options, snapshot: Option<set<ConvId>>, conv: ConvId, base: int, inputs: seq<Input>, dbs: seq<Db>, k: nat, idx: int)
    requires Environment(o, base, inputs, dbs) && k < |inputs| && o.showNarration
    requires forall i :: k <= i < |dbs| ==> dbs[i] == dbs[k]
    requires Wanted(dbs[k], base, idx) && dbs[k][idx].stepType == STEP_TYPE_TEXT
    requires SentText(o, snapshot, conv, base, inputs[..k], idx) != TextOf(StepOf(dbs[k], idx))
    ensures SentText(o, snapshot, conv, base, inputs, idx) == TextOf(StepOf(dbs[k], idx)) <==>
            exists i :: k <= i < |inputs| && Reads(snapshot, conv, inputs, i)
  {
    hide Extends, Bound, PollOnce, Watch, TextOf, ChunkText, Run, History, ConvAfter, Succeeds;
    if i :| k <= i < |inputs| && Reads(snapshot, conv, inputs, i) {
      OneCleanReadCompletes(o, snapshot, conv, base, inputs, dbs, i, idx);
    } else {
      NoReadNoChange(o, snapshot, conv, base, inputs, dbs, k, idx);
      RunRow(o, snapshot, Initial(conv, base), inputs, idx);
      RunRow(o, snapshot, Initial(conv, base), inputs[..k], idx);
    }
  }

  lemma {:induction false} RunOn(o: Options, snapshot: Option<set<ConvId>>, s: State, a: seq<Input>, b: seq<Input>)
    ensures var (mid, log) := Run(o, snapshot, s, a); var (end, more) := Run(o, snapshot, mid, b);
            Run(o, snapshot, s, a + b) == (end, log + more)
  {
    hide PollOnce;
    var (mid, log) := Run(o, snapshot, s, a);
    if b == [] {
      assert a + b == a && log + [] == log;
    } else {
      var n := |b| - 1;
      RunOn(o, snapshot, s, a, b[..n]);
      assert (a + b)[..|a + b| - 1] == a + b[..n];
      var (late, more) := Run(o, snapshot, mid, b[..n]);
      var last := PollOnce(o, snapshot, late, b[n]).log;
      assert (log + more) + last == log + (more + last);
    }
  }

  /** A poll taken for quiet either read the conversation, or found none bound or no steps table. */
  lemma {:induction false} QuietUnread(o: Options, snapshot: Option<set<ConvId>>, conv: ConvId, base: int, before: seq<Input>, attempts: seq<Attempt>, polls: nat)
    requires |attempts| == FINAL_DRAIN_ATTEMPTS
    requires EndsAs(o, snapshot, Run(o, snapshot, Initial(conv, base), before).0, attempts, polls, Quiet)
    ensures var inputs := before + Inputs(attempts[..polls]); var n := |inputs| - 1;
      && n >= |before|
      && (!Reads(snapshot, conv, inputs, n) ==>
            Bound(snapshot, ConvAfter(snapshot, conv, inputs[..n]), inputs[n]).0 == "" || inputs[n].read.NoStepsTable?)
  {
    hide PollOnce, Run, Bound, ConvAfter;
    var inputs, start := before + Inputs(attempts[..polls]), Initial(conv, base);
    var n := |inputs| - 1;
    var front := before + Inputs(attempts[..polls - 1]);
    assert inputs[..n] == front && inputs[n] == attempts[polls - 1].input;
    var mid := Run(o, snapshot, start, before).0;
    RunOn(o, snapshot, start, before, Inputs(attempts[..polls - 1]));
    RunConv(o, snapshot, start, front);
    QuietPollIff(o, snapshot, Run(o, snapshot, start, front).0, inputs[n]);
  }

  /**
   What a drain that ends quiet delivers: after the polls made while agy ran, a row still owed goes out exactly if some
   poll of the drain reads the conversation. If none does, the one taken for quiet found no conversation bound or no
   steps table.
   */
  lemma {:induction false} QuietDrainDeliversIff(o: Options, snapshot: Option<set<ConvId>>, conv: ConvId, base: int, before: seq<Input>,
                              attempts: seq<Attempt>, polls: nat, dbs: seq<Db>, idx: int)
    requires |attempts| == FINAL_DRAIN_ATTEMPTS && o.showNarration
    requires EndsAs(o, snapshot, Run(o, snapshot, Initial(conv, base), before).0, attempts, polls, Quiet)
    requires Environment(o, base, before + Inputs(attempts[..polls]), dbs)
    requires forall i :: |before| <= i < |dbs| ==> dbs[i] == dbs[|before|]
    requires var db := dbs[|before|]; Wanted(db, base, idx) && db[idx].stepType == STEP_TYPE_TEXT
    requires SentText(o, snapshot, conv, base, before, idx) != TextOf(StepOf(dbs[|before|], idx))
    ensures var inputs := before + Inputs(attempts[..polls]);
      var last := inputs[|inputs| - 1]; var bound := Bound(snapshot, ConvAfter(snapshot, conv, inputs[..|inputs| - 1]), last).0;
      var delivered := SentText(o, snapshot, conv, base, inputs, idx) == TextOf(StepOf(dbs[|before|], idx));
      && (delivered <==> exists i :: |before| <= i < |inputs| && Reads(snapshot, conv, inputs, i))
      && (!delivered ==> bound == "" || last.read.NoStepsTable?)
  {
    var inputs := before + Inputs(attempts[..polls]);
    assert inputs[..|before|] == before;
    QuietUnread(o, snapshot, conv, base, before, attempts, polls);
    hide EndsAs, Run, ConvAfter, Bound, SentText, TextOf, Environment;
    DeliveredIff(o, snapshot, conv, base, inputs, dbs, |before|, idx);
  }

  // ----- drains that end too early -----

  lemma {:induction false} OnePoll(o: Options, snapshot: Option<set<ConvId>>, s: State, attempts: seq<Attempt>)
    requires attempts != []
    ensures PollAt(o, snapshot, s, attempts, 0) == PollOnce(o, snapshot, s, attempts[0].input)
    ensures Run(o, snapshot, s, Inputs(attempts[..1])) ==
            (PollAt(o, snapshot, s, attempts, 0).state, PollAt(o, snapshot, s, attempts, 0).log)
  {
    hide PollOnce;
    RunSnoc(o, snapshot, s, attempts, 0);
    DrainStart(o, snapshot, s, attempts);
    assert [] + PollAt(o, snapshot, s, attempts, 0).log == PollAt(o, snapshot, s, attempts, 0).log;
  }

  /** Without the directory listing from before the start, a new conversation is never bound: the drain reads nothing. */
  lemma UnboundDrainIsQuiet(o: Options, base: int, attempts: seq<Attempt>)
    requires |attempts| == FINAL_DRAIN_ATTEMPTS && !attempts[0].expired
    ensures EndsAs(o, None, Initial("", base), attempts, 1, Quiet)
    ensures Run(o, None, Initial("", base), Inputs(attempts[..1])).1 == []
  {
    hide Run, EndsAs;
    OnePoll(o, None, Initial("", base), attempts);
    QuietFirst(o, None, Initial("", base), attempts);
  }

  /**
   A drain whose first poll comes before the steps table ends there, quiet and with nothing sent, although its second
   poll would have read a whole row; had the first poll failed, it would have gone on.
   */
  lemma {:induction false} QuietTooEarly(o: Options, conv: ConvId, base: int, attempts: seq<Attempt>, idx: int, text: Bytes)
    requires |attempts| == FINAL_DRAIN_ATTEMPTS && conv != "" && o.showNarration
    requires !attempts[0].expired && !attempts[0].sleepCut
    requires text != [] && ValidUtf8(text) && |TextPayload(text)| < TWO_63
    requires attempts[0].input.read == NoStepsTable
    requires attempts[1].input.read == Rows([Step(idx, STEP_TYPE_TEXT, TextPayload(text))])
    ensures EndsAs(o, None, Initial(conv, base), attempts, 1, Quiet)
    ensures SentText(o, None, conv, base, Inputs(attempts[..1]), idx) == []
    ensures SentText(o, None, conv, base, Inputs(attempts[..2]), idx) == text
    ensures var busy := attempts[0 := attempts[0].(input := attempts[0].input.(read := Busy))];
      LooksAgain(PollAt(o, None, Initial(conv, base), busy, 0), busy[0])
  {
    var start := Initial(conv, base);
    var failing := attempts[0 := attempts[0].(input := attempts[0].input.(read := Busy))];
    hide Run, TextPayload, ValidUtf8, ReadAll, EndsAs;
    OnePoll(o, None, start, attempts);
    OnePoll(o, None, start, failing);
    RunSnoc(o, None, start, attempts, 1);
    QuietFirst(o, None, start, attempts);
    UnseenRow(o, start.progress, idx, text);
    var log := Tag(idx, [Chunk(text)]);
    assert PollAt(o, None, start, attempts, 0) == Polled(start.(schemaMissing := true), [], None);
    assert PollAt(o, None, start, attempts, 1).log == log;
    hide PollAt, PollOnce, Tag;
    assert [] + log == log;
    UpdatesOfTag(idx, [Chunk(text)], idx);
    OneChunk(text, idx);
  }

  /** A drain whose first poll is quiet ends with it. */
  lemma {:induction false} QuietFirst(o: Options, snapshot: Option<set<ConvId>>, s: State, attempts: seq<Attempt>)
    requires |attempts| == FINAL_DRAIN_ATTEMPTS && !attempts[0].expired
    requires IsQuiet(PollOnce(o, snapshot, s, attempts[0].input))
    ensures EndsAs(o, snapshot, s, attempts, 1, Quiet)
  {
    hide PollOnce, Run;
    OnePoll(o, snapshot, s, attempts);
  }

  lemma {:induction false} UnseenRow(o: Options, p: Progress, idx: int, text: Bytes)
    requires o.showNarration && text != [] && ValidUtf8(text) && |TextPayload(text)| < TWO_63
    requires p.ViewOf(idx) == UNSEEN
    ensures ReadAll(o, p, [Step(idx, STEP_TYPE_TEXT, TextPayload(text))]).1 == Tag(idx, [Chunk(text)])
  {
    hide TextPayload, StepText, ValidUtf8, Tag;
    var step := Step(idx, STEP_TYPE_TEXT, TextPayload(text));
    TextRoundTrip(text);
    EmptyText(o);
    hide Options.Hides;
    ObserveGrownText(o, [], step);
    assert text[0..] == text;
    ReadAllSnoc(o, p, [step], 0);
    ReadAllNone(o, p);
    assert [step][..0] == [] && [step][..1] == [step];
    hide Observe, ReadAll;
    assert ReadStep(o, p, step).1 == [Chunk(text)];
    assert [] + Tag(idx, [Chunk(text)]) == Tag(idx, [Chunk(text)]);
  }

  lemma OneChunk(text: Bytes, idx: int)
    ensures ChunkText([Chunk(text)]) == text && UpdatesOf([], idx) == [] && ChunkText([]) == []
  {
    assert [Chunk(text)][..0] == [];
  }

  lemma EmptyText(o: Options)
    ensures ValidUtf8([]) && (o.showNarration ==> forall text :: !o.Hides(text))
  {
  }
}
