/**
 Which conversation a turn reads, in terms of the directory listings its polls see, and what is recorded of it.
 */
module Binding {
  import opened Common
  import opened Proto
  import opened Transcript
  import opened Poller
  import opened RowHistory
  import opened PollRuns
  import opened Turns

  /** The poll sees exactly one conversation that was not there before the turn. */
  predicate ShowsOneNew(before: set<ConvId>, input: Input, id: ConvId) {
    !input.cancelled && input.listing.Listed? && input.listing.now - before == {id}
  }

  lemma NothingNew(before: set<ConvId>, now: set<ConvId>)
    ensures now - before == {} <==> now <= before
  {
    if now - before == {} {
      forall id | id in now
        ensures id in before
      {
        assert id !in now - before;
      }
    }
  }

  // ----- one poll -----

  /** What an unbound poller makes of a listing, by the files that are new in it. */
  lemma {:induction false} NewConversationIsBound(o: Options, before: set<ConvId>, s: State, input: Input)
    requires s.conversationID == "" && !input.cancelled && input.listing.Listed?
    ensures var created, polled := input.listing.now - before, PollOnce(o, Some(before), s, input);
      && (forall id :: id != "" ==> (polled.state.conversationID == id <==> created == {id}))
      && (created == {} ==> polled == Polled(s, [], None))
      && (polled.error == Some(AmbiguousConversation) <==> created != {} && forall id :: created != {id})
      && (polled.error == Some(AmbiguousConversation) ==> polled.state == s && polled.log == [])
  {
    hide ReadAll;
    var created := input.listing.now - before;
    NothingNew(before, input.listing.now);
    if id :| created == {id} {
      assert forall other :: created == {other} ==> other in created && other == id;
    }
  }

  /** A poller that is bound, or never to be bound, keeps its binding; a failed look changes nothing at all. */
  lemma {:induction false} BindingKept(o: Options, snapshot: Option<set<ConvId>>, s: State, input: Input)
    ensures s.conversationID != "" || snapshot.None? ==>
              PollOnce(o, snapshot, s, input).state.conversationID == s.conversationID
    ensures s.conversationID == "" && snapshot.Some? && input.cancelled ==>
              PollOnce(o, snapshot, s, input) == Polled(s, [], Some(ContextDone))
    ensures s.conversationID == "" && snapshot.Some? && !input.cancelled && input.listing.Unreadable? ==>
              PollOnce(o, snapshot, s, input) == Polled(s, [], Some(ListingFailed))
    ensures s.conversationID != "" ==>
      && (PollOnce(o, snapshot, s, input).error.Some? <==> input.read.Busy?)
      && (PollOnce(o, snapshot, s, input).state.schemaMissing <==>
            input.read.NoStepsTable? || (input.read.Busy? && s.schemaMissing))
  {
    hide ReadAll, NewSince;
  }

  // ----- whole turns -----

  /** The k-th poll is the first to see one new conversation, this one. */
  ghost predicate FirstSeen(before: set<ConvId>, inputs: seq<Input>, k: nat, id: ConvId) {
    && k < |inputs| && id != "" && ShowsOneNew(before, inputs[k], id)
    && forall i, other :: 0 <= i < k && other != "" ==> !ShowsOneNew(before, inputs[i], other)
  }

  ghost predicate NoneSeen(before: set<ConvId>, inputs: seq<Input>) {
    forall i, other :: 0 <= i < |inputs| && other != "" ==> !ShowsOneNew(before, inputs[i], other)
  }

  lemma {:induction false} StaysUnbound(before: set<ConvId>, inputs: seq<Input>, n: nat)
    requires n <= |inputs|
    requires forall i, other :: 0 <= i < n && other != "" ==> !ShowsOneNew(before, inputs[i], other)
    ensures ConvAfter(Some(before), "", inputs[..n]) == ""
    decreases n
  {
    if n > 0 {
      StaysUnbound(before, inputs, n - 1);
      assert inputs[..n][..n - 1] == inputs[..n - 1];
      var last := inputs[n - 1];
      NewOrNothing(before, last);
      var conv := Bound(Some(before), "", last).0;
      assert ShowsOneNew(before, last, conv) || conv == "";
    }
  }

  lemma {:induction false} NewOrNothing(before: set<ConvId>, input: Input)
    ensures var bound := Bound(Some(before), "", input);
      && (forall id :: id != "" ==> (bound.0 == id <==> ShowsOneNew(before, input, id)))
      && (bound.0 != "" ==> bound.1.None?)
  {
    if !input.cancelled && input.listing.Listed? {
      var created := input.listing.now - before;
      NothingNew(before, input.listing.now);
      if id :| created == {id} {
        assert forall other :: created == {other} ==> other in created && other == id;
      }
    }
  }

  /** A turn that starts unbound is bound, from the first poll that sees one new conversation on, to that one. */
  lemma {:induction false} BoundFromFirst(before: set<ConvId>, inputs: seq<Input>, k: nat, id: ConvId, n: nat)
    requires FirstSeen(before, inputs, k, id) && n <= |inputs|
    ensures ConvAfter(Some(before), "", inputs[..n]) == if n <= k then "" else id
    decreases n
  {
    hide ShowsOneNew;
    if n <= k {
      StaysUnbound(before, inputs, n);
    } else {
      BoundFromFirst(before, inputs, k, id, n - 1);
      assert inputs[..n][..n - 1] == inputs[..n - 1];
      NewOrNothing(before, inputs[n - 1]);
    }
  }

  /** Once bound, a poll succeeds exactly if its read does. */
  lemma {:induction false} BoundReads(snapshot: Option<set<ConvId>>, conv: ConvId, input: Input)
    requires conv != ""
    ensures Succeeds(snapshot, conv, input) <==> input.read.Rows?
  {
  }

  lemma {:induction false} ReadsFrom(before: set<ConvId>, inputs: seq<Input>, k: nat, id: ConvId, n: nat)
    requires FirstSeen(before, inputs, k, id) && k <= n < |inputs|
    ensures Succeeds(Some(before), ConvAfter(Some(before), "", inputs[..n]), inputs[n]) <==> inputs[n].read.Rows?
  {
    BoundFromFirst(before, inputs, k, id, n);
    if n == k {
      NewOrNothing(before, inputs[n]);
    } else {
      BoundReads(Some(before), id, inputs[n]);
    }
  }

  /**
   The first turn of a session, from listings and reads alone: if a poll sees one new conversation and the last poll,
   that one or a later, reads, then the turn ends bound to it, and with narration shown every text row of the final
   database has been streamed in full.
   */
  lemma {:induction false} FreshTurnEmitsEverything(o: Options, before: set<ConvId>, base: int, inputs: seq<Input>, dbs: seq<Db>, k: nat, id: ConvId, idx: int)
    requires Environment(o, base, inputs, dbs) && o.showNarration
    requires FirstSeen(before, inputs, k, id) && inputs[|inputs| - 1].read.Rows?
    requires var db := dbs[|dbs| - 1]; idx in db && db[idx].stepType == STEP_TYPE_TEXT && idx > base
    ensures var (end, log) := Run(o, Some(before), Initial("", base), inputs);
      && end.conversationID == id
      && ChunkText(UpdatesOf(log, idx)) == TextOf(StepOf(dbs[|dbs| - 1], idx))
  {
    hide Environment, FirstSeen, Succeeds, ConvAfter, Run, TextOf, ChunkText;
    var n := |inputs| - 1;
    SeenInside(before, inputs, k, id);
    ReadsFrom(before, inputs, k, id, n);
    BoundFromFirst(before, inputs, k, id, n + 1);
    assert inputs[..n + 1] == inputs;
    RunConv(o, Some(before), Initial("", base), inputs);
    TurnEmitsEverything(o, Some(before), "", base, inputs, dbs, idx);
  }

  lemma SeenInside(before: set<ConvId>, inputs: seq<Input>, k: nat, id: ConvId)
    requires FirstSeen(before, inputs, k, id)
    ensures k < |inputs| && id != ""
  {
  }

  /** What a turn's end says of it: whether it streamed anything. */
  lemma {:induction false} HadUpdatesIff(o: Options, snapshot: Option<set<ConvId>>, conv: ConvId, base: int, inputs: seq<Input>)
    ensures var (end, log) := Run(o, snapshot, Initial(conv, base), inputs); end.hadUpdates <==> log != []
  {
    if inputs != [] {
      hide ReadAll, Bound;
      HadUpdatesIff(o, snapshot, conv, base, inputs[..|inputs| - 1]);
    }
  }

  // ----- what is recorded -----

  /** The conversation of a turn, by the session it starts from and the listings its polls see. */
  ghost predicate Finds(sess: StoredSession, turn: Turn, conv: ConvId) {
    conv != "" &&
    if sess.conversationID != "" then conv == sess.conversationID
    else turn.listing.Some? && exists k :: FirstSeen(turn.listing.value, turn.inputs, k, conv)
  }

  ghost predicate FindsNone(sess: StoredSession, turn: Turn) {
    sess.conversationID == "" && (turn.listing.Some? ==> NoneSeen(turn.listing.value, turn.inputs))
  }

  lemma {:induction false} ConvKept(snapshot: Option<set<ConvId>>, conv: ConvId, inputs: seq<Input>)
    requires conv != "" || snapshot.None?
    ensures ConvAfter(snapshot, conv, inputs) == conv
  {
    if inputs != [] {
      ConvKept(snapshot, conv, inputs[..|inputs| - 1]);
    }
  }

  /** A turn records the conversation it found, and stores nothing new if it found none. */
  lemma {:induction false} RecordsWhatItFound(o: Options, sess: StoredSession, turn: Turn, conv: ConvId)
    ensures Finds(sess, turn, conv) ==> TurnRun(o, sess, turn).0.conversationID == Recorded(o, sess, turn).conversationID == conv
    ensures FindsNone(sess, turn) ==> Recorded(o, sess, turn) == sess
    ensures Recorded(o, sess, turn).modelID == sess.modelID
  {
    hide Run, ConvAfter, FirstSeen, ShowsOneNew;
    var snapshot, all := SnapshotFor(sess, turn.listing), turn.inputs;
    RunConv(o, snapshot, Initial(sess.conversationID, sess.lastStepIdx), all);
    assert all[..|all|] == all;
    if sess.conversationID != "" || snapshot.None? {
      ConvKept(snapshot, sess.conversationID, all);
    } else {
      if k: nat :| FirstSeen(turn.listing.value, all, k, conv) {
        SeenInside(turn.listing.value, all, k, conv);
        BoundFromFirst(turn.listing.value, all, k, conv, |all|);
      }
      if NoneSeen(turn.listing.value, all) {
        StaysUnbound(turn.listing.value, all, |all|);
      }
    }
  }

  /** In a chain, the conversation a turn found is the one the next turn starts from, and polls throughout. */
  lemma {:induction false} NextTurnReadsIt(o: Options, sess: StoredSession, turns: seq<Turn>, k: nat, conv: ConvId)
    requires k < |turns| && Finds(SessionAt(o, sess, turns, k), turns[k], conv)
    ensures SessionAt(o, sess, turns, k + 1).conversationID == conv
    ensures k + 1 < |turns| ==>
      var next, turn := SessionAt(o, sess, turns, k + 1), turns[k + 1];
      && SnapshotFor(next, turn.listing) == None
      && forall n :: 0 <= n <= |turn.inputs| ==>
           Run(o, None, Initial(conv, next.lastStepIdx), turn.inputs[..n]).0.conversationID == conv
  {
    hide Run, ConvAfter, Finds;
    var here := SessionAt(o, sess, turns, k);
    assert turns[..k + 1][..k] == turns[..k] && turns[..k + 1][k] == turns[k];
    assert SessionAt(o, sess, turns, k + 1) == Recorded(o, here, turns[k]);
    RecordsWhatItFound(o, here, turns[k], conv);
    FoundIsNamed(here, turns[k], conv);
    if k + 1 < |turns| {
      var next, turn := SessionAt(o, sess, turns, k + 1), turns[k + 1];
      forall n | 0 <= n <= |turn.inputs|
        ensures Run(o, None, Initial(conv, next.lastStepIdx), turn.inputs[..n]).0.conversationID == conv
      {
        RunConv(o, None, Initial(conv, next.lastStepIdx), turn.inputs[..n]);
        ConvKept(None, conv, turn.inputs[..n]);
      }
    }
  }

  lemma FoundIsNamed(sess: StoredSession, turn: Turn, conv: ConvId)
    requires Finds(sess, turn, conv)
    ensures conv != ""
  {
  }

  /** A successful poll of the turn read this row. */
  ghost predicate RowRead(snapshot: Option<set<ConvId>>, conv: ConvId, inputs: seq<Input>, r: int) {
    exists i, s ::
      0 <= i < |inputs| && Succeeds(snapshot, ConvAfter(snapshot, conv, inputs[..i]), inputs[i]) &&
      s in inputs[i].read.steps && s.idx == r
  }

  lemma {:induction false} RowReadFront(snapshot: Option<set<ConvId>>, conv: ConvId, inputs: seq<Input>, r: int)
    requires inputs != []
    ensures var n := |inputs| - 1;
      RowRead(snapshot, conv, inputs, r) <==>
      RowRead(snapshot, conv, inputs[..n], r) ||
      exists s :: s in RowsRead(snapshot, ConvAfter(snapshot, conv, inputs[..n]), inputs[n]) && s.idx == r
  {
    hide Bound, ConvAfter;
    var n := |inputs| - 1;
    forall i | 0 <= i < n
      ensures inputs[..n][..i] == inputs[..i]
    {
    }
    if RowRead(snapshot, conv, inputs[..n], r) {
      var i, s :| 0 <= i < n && Succeeds(snapshot, ConvAfter(snapshot, conv, inputs[..n][..i]), inputs[..n][i]) &&
                  s in inputs[..n][i].read.steps && s.idx == r;
      assert inputs[..n][..i] == inputs[..i];
    }
    if RowRead(snapshot, conv, inputs, r) {
      var i, s :| 0 <= i < |inputs| && Succeeds(snapshot, ConvAfter(snapshot, conv, inputs[..i]), inputs[i]) &&
                  s in inputs[i].read.steps && s.idx == r;
      if i < n {
        assert inputs[..n][..i] == inputs[..i] && inputs[..n][i] == inputs[i];
      } else {
        assert s in RowsRead(snapshot, ConvAfter(snapshot, conv, inputs[..n]), inputs[n]);
      }
    }
  }

  /** The index a turn ends with is the largest among its base and the rows its successful polls read. */
  lemma {:induction false} IndexIsLargest(o: Options, snapshot: Option<set<ConvId>>, conv: ConvId, base: int, inputs: seq<Input>)
    ensures var l := Run(o, snapshot, Initial(conv, base), inputs).0.progress.lastIdx;
      && l >= base && (forall r :: RowRead(snapshot, conv, inputs, r) ==> r <= l)
      && (l == base || RowRead(snapshot, conv, inputs, l))
  {
    if inputs != [] {
      hide PollOnce, ReadAll, RowsRead, RowRead, ConvAfter;
      var n := |inputs| - 1;
      IndexIsLargest(o, snapshot, conv, base, inputs[..n]);
      var mid := Run(o, snapshot, Initial(conv, base), inputs[..n]).0;
      RunConv(o, snapshot, Initial(conv, base), inputs[..n]);
      PollRows(o, snapshot, mid, inputs[n]);
      ReadAllLastIdx(o, mid.progress, RowsRead(snapshot, mid.conversationID, inputs[n]));
      forall r
        ensures RowRead(snapshot, conv, inputs, r) <==>
                RowRead(snapshot, conv, inputs[..n], r) ||
                exists s :: s in RowsRead(snapshot, ConvAfter(snapshot, conv, inputs[..n]), inputs[n]) && s.idx == r
      {
        RowReadFront(snapshot, conv, inputs, r);
      }
    }
  }

  /** So a turn that found a conversation records that largest index. */
  lemma {:induction false} RecordsLargestIndex(o: Options, sess: StoredSession, turn: Turn, conv: ConvId)
    requires Finds(sess, turn, conv)
    ensures var snapshot, l := SnapshotFor(sess, turn.listing), Recorded(o, sess, turn).lastStepIdx;
      && l >= sess.lastStepIdx && (forall r :: RowRead(snapshot, sess.conversationID, turn.inputs, r) ==> r <= l)
      && (l == sess.lastStepIdx || RowRead(snapshot, sess.conversationID, turn.inputs, l))
  {
    hide Run, RowRead, Finds;
    RecordsWhatItFound(o, sess, turn, conv);
    FoundIsNamed(sess, turn, conv);
    IndexIsLargest(o, SnapshotFor(sess, turn.listing), sess.conversationID, sess.lastStepIdx, turn.inputs);
  }
}
