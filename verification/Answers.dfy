/** Which response each caller of the RPC table gets, and how each call ends. */
module Answers {
  import opened Common
  import opened Correlation

  /** The caller's response: about to be sent, in its channel, or returned to it. */
  ghost predicate Gets(s: System, id: int, r: Response) {
    || (s.reader == Sending(r) && r.id == id)
    || (id in s.table.chans && s.table.chans[id].queue == [r])
    || In(s, id, Returned(Answered(r)))
  }

  /** The harness's response to this id arrives while the request is in the table. */
  predicate Arrives(s: System, a: Action, id: int, r: Response) {
    a == Lookup(r) && r.id == id && id in s.table.pending
  }

  predicate Arrived(s: System, actions: seq<Action>, id: int, r: Response)
    decreases |actions|
  {
    && actions != [] && Enabled(s, actions[0])
    && (Arrives(s, actions[0], id, r) || Arrived(Step(s, actions[0]), actions[1..], id, r))
  }

  ghost predicate HasAnswer(s: System, id: int) {
    id in s.calls && s.calls[id].Returned? && s.calls[id].outcome.Answered?
  }

  /** Every value sent on a channel is still in it or was returned. */
  ghost predicate AllCounted(s: System, id: int) {
    && (id in s.table.chans ==> s.table.chans[id].sends == |s.table.chans[id].queue| + (if HasAnswer(s, id) then 1 else 0))
    && (id !in s.table.chans ==> !HasAnswer(s, id))
  }

  lemma {:induction false} StepKeeps(s: System, a: Action, id: int, r: Response)
    requires Sound(s) && AllCounted(s, id) && Enabled(s, a)
    ensures Gets(s, id, r) || Arrives(s, a, id, r) ==> Gets(Step(s, a), id, r)
    ensures AllCounted(Step(s, a), id)
  {
    assert CallSound(s, id) && (a.Enter? ==> CallSound(s, a.id));
    assert id in s.table.chans ==> s.table.chans[id].queue == [] || s.table.chans[id].queue == [s.table.chans[id].queue[0]];
    hide CallsSound, PendingUntouched;
  }

  lemma {:induction false} StepOrigin(s: System, a: Action, id: int, r: Response)
    requires Sound(s) && AllCounted(s, id) && Enabled(s, a)
    ensures Gets(Step(s, a), id, r) ==> Gets(s, id, r) || Arrives(s, a, id, r)
  {
    assert CallSound(s, id) && (a.Enter? ==> CallSound(s, a.id));
    assert id in s.table.chans ==> s.table.chans[id].queue == [] || s.table.chans[id].queue == [s.table.chans[id].queue[0]];
    hide CallsSound, PendingUntouched;
    if a.Send? && id == s.reader.response.id {
      var queue := Step(s, a).table.chans[id].queue;
      assert queue == [s.reader.response] && (queue == [r] ==> queue[0] == r);
    }
  }

  lemma {:induction false} RunGets(s: System, actions: seq<Action>, id: int, r: Response)
    requires Sound(s) && AllCounted(s, id) && Exec(s, actions).Some?
    ensures Gets(Exec(s, actions).value, id, r) <==> Gets(s, id, r) || Arrived(s, actions, id, r)
    ensures AllCounted(Exec(s, actions).value, id)
    decreases |actions|
  {
    if actions != [] {
      hide Sound, Step, Enabled, Gets, Arrives, AllCounted;
      StepKeeps(s, actions[0], id, r);
      StepOrigin(s, actions[0], id, r);
      StepSound(s, actions[0]);
      RunGets(Step(s, actions[0]), actions[1..], id, r);
    }
  }

  /**
   Over every run: a caller's response is on its way, in its channel or returned exactly if it arrived for the caller's
   id while the request was in the table.
   */
  lemma {:induction false} ResponseIff(actions: seq<Action>, id: int, r: Response)
    requires Exec(START, actions).Some?
    ensures Gets(Exec(START, actions).value, id, r) <==> Arrived(START, actions, id, r)
  {
    hide Exec, Arrived, Sound;
    StartSound();
    RunGets(START, actions, id, r);
  }

  /** At most one response does: the first to arrive takes the request out of the table for good. */
  lemma {:induction false} FirstOnly(actions: seq<Action>, id: int, r: Response, other: Response)
    requires Exec(START, actions).Some? && Arrived(START, actions, id, r) && Arrived(START, actions, id, other)
    ensures r == other
  {
    hide Exec, Arrived;
    StartSound();
    Correlates(START, actions);
    RunGets(START, actions, id, r);
    RunGets(START, actions, id, other);
    assert CallSound(Exec(START, actions).value, id);
  }

  /** So, with the reader not about to send, a channel has had a value exactly if a response arrived in time. */
  lemma {:induction false} ValueIff(actions: seq<Action>, id: int)
    requires Exec(START, actions).Some? && !Exec(START, actions).value.reader.Sending?
    ensures var s := Exec(START, actions).value;
      (id in s.table.chans && s.table.chans[id].sends == 1) <==> exists r :: Arrived(START, actions, id, r)
  {
    hide Exec, Arrived;
    StartSound();
    Correlates(START, actions);
    var s := Exec(START, actions).value;
    RunGets(START, actions, id, Response(id, ""));
    if id in s.table.chans && s.table.chans[id].sends == 1 {
      var r := if HasAnswer(s, id) then s.calls[id].outcome.response else s.table.chans[id].queue[0];
      assert Gets(s, id, r);
      RunGets(START, actions, id, r);
    }
    if r :| Arrived(START, actions, id, r) {
      RunGets(START, actions, id, r);
      assert CallSound(s, id);
    }
  }

  /** A waiting caller whose response arrives returns with it. */
  lemma {:induction false} AnswerReachesCaller(s: System, r: Response)
    requires Sound(s) && s.reader.Scanning? && In(s, r.id, Awaiting) && r.id in s.table.pending
    ensures var end := Exec(s, [Lookup(r)] + ([Send] + ([TakeResponse(r.id)] + [])));
      end.Some? && In(end.value, r.id, Returned(Answered(r))) && end.value.reader.Scanning?
  {
    hide CallsSound, ChansSound;
    var sending := Step(s, Lookup(r));
    var sent := Step(sending, Send);
    var end := Step(sent, TakeResponse(r.id));
    assert Enabled(sent, TakeResponse(r.id)) && In(end, r.id, Returned(Answered(r)));
    hide Exec, Step, Enabled;
    ExecStep(sent, TakeResponse(r.id), []);
    ExecStep(sending, Send, [TakeResponse(r.id)] + []);
    ExecStep(s, Lookup(r), [Send] + ([TakeResponse(r.id)] + []));
  }

  // ----- outcomes -----

  /** What ends a call, and as what. */
  predicate Ends(s: System, a: Action, id: int, o: Outcome) {
    match o
    case Answered(r) => a == TakeResponse(id) && id in s.table.chans && s.table.chans[id].queue == [r]
    case ConnectionLost => a == TakeClosed(id) || a == SeeDone(id)
    case GaveUp => a == Withdraw(id)
  }

  predicate Ended(s: System, actions: seq<Action>, id: int, o: Outcome)
    decreases |actions|
  {
    && actions != [] && Enabled(s, actions[0])
    && (Ends(s, actions[0], id, o) || Ended(Step(s, actions[0]), actions[1..], id, o))
  }

  lemma {:induction false} StepEnds(s: System, a: Action, id: int, o: Outcome)
    requires Sound(s) && Enabled(s, a)
    ensures In(Step(s, a), id, Returned(o)) <==> In(s, id, Returned(o)) || Ends(s, a, id, o)
  {
    assert CallSound(s, id) && CallSound(s, s.lastId + 1);
    assert id in s.table.chans ==> |s.table.chans[id].queue| <= 1;
    hide CallsSound, PendingUntouched, ReaderSound;
  }

  /**
   A call returns a response exactly if it took it from its channel, the lost connection exactly if its channel was
   closed or it saw the end, and its own failure exactly if it withdrew after a failed write or its context's end.
   */
  lemma {:induction false} OutcomeIff(s: System, actions: seq<Action>, id: int, o: Outcome)
    requires Sound(s) && Exec(s, actions).Some?
    ensures In(Exec(s, actions).value, id, Returned(o)) <==> In(s, id, Returned(o)) || Ended(s, actions, id, o)
    decreases |actions|
  {
    if actions != [] {
      hide Sound, Step, Enabled, In, Ends;
      StepEnds(s, actions[0], id, o);
      StepSound(s, actions[0]);
      OutcomeIff(Step(s, actions[0]), actions[1..], id, o);
    }
  }
}
