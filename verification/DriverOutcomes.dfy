/**
 What the driver's turns get: every event, callback, closed channel and outcome is traced to the step of the run that
 caused it, and every such step has its effect.
 */
module DriverOutcomes {
  import opened Common
  import opened Driver

  // ----- events -----

  predicate HasOutcome(s: System, id: int, o: Outcome) {
    id in s.turns && (s.turns[id] == Leaving(o) || s.turns[id] == Over(o))
  }

  /** The turn's terminal event: about to be sent, in its channel, or taken. */
  ghost predicate Gets(s: System, id: int, e: Event) {
    || (id in s.sending && s.sending[id] == e)
    || (id in s.mailbox && s.mailbox[id] == e)
    || HasOutcome(s, id, Got(e))
  }

  /** A terminal frame for a request still in the table, or the death of the current worker while it is there. */
  predicate Brings(s: System, a: Action, id: int, e: Event) {
    && id in s.core.pending
    && ((a.TerminalFrame? && a.id == id && a.event == e) || (a == WorkerDies(s.core.generation) && e == WorkerExited))
  }

  predicate Brought(s: System, actions: seq<Action>, id: int, e: Event)
    decreases |actions|
  {
    && actions != [] && Enabled(s, actions[0])
    && (Brings(s, actions[0], id, e) || Brought(Step(s, actions[0]), actions[1..], id, e))
  }

  /** The places of one request, apart from what else the run holds. */
  ghost predicate Placed(s: System, id: int) {
    && OnePlaceOf(s, id) && (id in s.turns ==> id <= s.core.lastId)
    && (id !in s.turns ==> id !in s.core.pending && id !in s.sending && id !in s.mailbox)
  }

  lemma {:induction false} StepKeepsEvent(s: System, a: Action, id: int, e: Event)
    requires Placed(s, id) && Enabled(s, a)
    ensures Gets(s, id, e) || Brings(s, a, id, e) ==> Gets(Step(s, a), id, e)
  {
  }

  lemma {:induction false} StepEventOrigin(s: System, a: Action, id: int, e: Event)
    requires Placed(s, id) && Enabled(s, a)
    ensures Gets(Step(s, a), id, e) ==> Gets(s, id, e) || Brings(s, a, id, e)
  {
  }

  lemma {:induction false} StepGets(s: System, a: Action, id: int, e: Event)
    requires Demuxed(s) && Enabled(s, a)
    ensures Gets(Step(s, a), id, e) <==> Gets(s, id, e) || Brings(s, a, id, e)
  {
    assert OnePlaceOf(s, id);
    hide Step, Gets, Brings, Enabled, OnePlaceOf;
    StepKeepsEvent(s, a, id, e);
    StepEventOrigin(s, a, id, e);
  }

  lemma {:induction false} RunGets(s: System, actions: seq<Action>, id: int, e: Event)
    requires Demuxed(s) && Exec(s, actions).Some?
    ensures Gets(Exec(s, actions).value, id, e) <==> Gets(s, id, e) || Brought(s, actions, id, e)
    decreases |actions|
  {
    if actions != [] {
      hide Demuxed, Step, Enabled, Gets, Brings;
      StepGets(s, actions[0], id, e);
      StepDemuxes(s, actions[0]);
      RunGets(Step(s, actions[0]), actions[1..], id, e);
    }
  }

  /**
   Over every run, Close included: a turn has an event, on its way, in its channel or taken, exactly if a terminal frame
   carried that event while the turn's request was in the table, or it is the notice of the death of the worker then
   current.
   */
  lemma {:induction false} EventIff(actions: seq<Action>, id: int, e: Event)
    requires Exec(START, actions).Some?
    ensures Gets(Exec(START, actions).value, id, e) <==> Brought(START, actions, id, e)
  {
    hide Exec, Brought, WellRun;
    assert Demuxed(START) by { StartIsDemuxed(); }
    RunGets(START, actions, id, e);
  }

  lemma StartIsDemuxed()
    ensures Demuxed(START)
  {
  }

  lemma {:induction false} ExecThree(s: System, a: Action, b: Action, c: Action)
    requires Enabled(s, a) && Enabled(Step(s, a), b) && Enabled(Step(Step(s, a), b), c)
    ensures Exec(s, [a, b, c]) == Some(Step(Step(Step(s, a), b), c))
  {
    hide Step, Enabled;
    assert [a, b, c][1..] == [b, c] && [b, c][1..] == [c] && [c][1..] == [];
    assert Exec(Step(Step(s, a), b), [c]) == Exec(Step(Step(Step(s, a), b), c), []);
    assert Exec(Step(s, a), [b, c]) == Exec(Step(Step(s, a), b), [c]);
  }

  /** A waiting turn whose answer arrives takes that answer. */
  lemma {:induction false} AnswerReachesTurn(s: System, gen: nat, id: int, e: Event)
    requires WellRun(s) && gen in s.loops && InSelect(s, id) && id in s.core.pending
    ensures Exec(s, [TerminalFrame(gen, id, e), Deliver(id), TurnTakes(id)]).Some?
    ensures At(Exec(s, [TerminalFrame(gen, id, e), Deliver(id), TurnTakes(id)]).value, id, Over(Got(e)))
  {
    assert OnePlaceOf(s, id);
    hide Demuxed, CurrentWorker, Accounted;
    ExecThree(s, TerminalFrame(gen, id, e), Deliver(id), TurnTakes(id));
  }

  // ----- callbacks -----

  /** The callback a step calls: an event frame's, if its request is still in the table. */
  function CallOf(s: System, a: Action): seq<int> {
    if a.EventFrame? && a.id in s.core.pending then [a.id] else []
  }

  function CallLog(s: System, actions: seq<Action>): seq<int>
    decreases |actions|
  {
    if actions == [] || !Enabled(s, actions[0]) then []
    else CallOf(s, actions[0]) + CallLog(Step(s, actions[0]), actions[1..])
  }

  lemma StepCalls(s: System, a: Action)
    requires Demuxed(s) && Enabled(s, a)
    ensures Step(s, a).called == s.called + CallOf(s, a)
  {
    assert s.core.callbacks == s.core.pending;
    hide IdsFresh, ClosesOnce, OnePlace;
    assert s.called + [] == s.called;
  }

  /** Callbacks are called for exactly the event frames whose request is still in the table, in their order. */
  lemma {:induction false} CallbacksExact(s: System, actions: seq<Action>)
    requires Demuxed(s) && Exec(s, actions).Some?
    ensures Exec(s, actions).value.called == s.called + CallLog(s, actions)
    decreases |actions|
  {
    hide Demuxed, Step, Enabled, CallOf;
    if actions != [] {
      var next, rest := Step(s, actions[0]), actions[1..];
      StepCalls(s, actions[0]);
      StepDemuxes(s, actions[0]);
      CallbacksExact(next, rest);
      var one := CallOf(s, actions[0]);
      assert (s.called + one) + CallLog(next, rest) == s.called + (one + CallLog(next, rest));
    } else {
      assert s.called + [] == s.called;
    }
  }

  // ----- ready and gone -----

  predicate Signals(s: System, a: Action, c: Signal) {
    match c
    case Gone(gen) => gen == s.core.generation && a == WorkerDies(gen)
    case Ready(gen) => gen == s.core.generation && (a.ReadyFrame? || a.StartFails? || a == WorkerDies(gen))
  }

  predicate Signalled(s: System, actions: seq<Action>, c: Signal)
    decreases |actions|
  {
    && actions != [] && Enabled(s, actions[0])
    && (Signals(s, actions[0], c) || Signalled(Step(s, actions[0]), actions[1..], c))
  }

  lemma {:induction false} StepSignals(s: System, a: Action, c: Signal)
    requires Enabled(s, a)
    ensures Step(s, a).core.IsClosed(c) <==> s.core.IsClosed(c) || Signals(s, a, c)
  {
  }

  /**
   A generation's gone channel is closed exactly if its worker died while it was the current one; its ready channel
   exactly if a ready frame came, or its start failed, or its worker died, while it was the current one.
   */
  lemma {:induction false} SignalIff(s: System, actions: seq<Action>, c: Signal)
    requires Exec(s, actions).Some?
    ensures Exec(s, actions).value.core.IsClosed(c) <==> s.core.IsClosed(c) || Signalled(s, actions, c)
    decreases |actions|
  {
    if actions != [] {
      hide Step, Enabled, Signals, Core.IsClosed;
      StepSignals(s, actions[0], c);
      SignalIff(Step(s, actions[0]), actions[1..], c);
    }
  }

  // ----- outcomes -----

  /** What ends a turn, and as what. */
  predicate Ends(s: System, a: Action, id: int, o: Outcome) {
    match o
    case Got(e) => a == TurnTakes(id) && id in s.mailbox && s.mailbox[id] == e
    case WriteFailed => a == WriteReturns(id, false) || (a == TurnCaptures(id) && !s.core.running)
    case Cancelled => a == ContextEnds(id)
    case WorkerGone => a == TurnSeesGone(id)
  }

  predicate Ended(s: System, actions: seq<Action>, id: int, o: Outcome)
    decreases |actions|
  {
    && actions != [] && Enabled(s, actions[0])
    && (Ends(s, actions[0], id, o) || Ended(Step(s, actions[0]), actions[1..], id, o))
  }

  lemma {:induction false} StepKeepsOutcome(s: System, a: Action, id: int, o: Outcome)
    requires (s.core.running <==> s.core.encoder.Some?) && (id in s.turns ==> id <= s.core.lastId) && Enabled(s, a)
    ensures HasOutcome(s, id, o) || Ends(s, a, id, o) ==> HasOutcome(Step(s, a), id, o)
  {
  }

  lemma {:induction false} StepOutcomeOrigin(s: System, a: Action, id: int, o: Outcome)
    requires (s.core.running <==> s.core.encoder.Some?) && Enabled(s, a)
    ensures HasOutcome(Step(s, a), id, o) ==> HasOutcome(s, id, o) || Ends(s, a, id, o)
  {
  }

  lemma {:induction false} StepEnds(s: System, a: Action, id: int, o: Outcome)
    requires WellRun(s) && Enabled(s, a)
    ensures HasOutcome(Step(s, a), id, o) <==> HasOutcome(s, id, o) || Ends(s, a, id, o)
  {
    hide Step, Enabled, HasOutcome, Ends;
    StepKeepsOutcome(s, a, id, o);
    StepOutcomeOrigin(s, a, id, o);
  }

  /**
   A turn's outcome is an event exactly if it took that event, a write failure exactly if its write failed or no worker
   ran when it came to write, a cancellation exactly if its context ended, a lost worker exactly if it saw the channel.
   */
  lemma {:induction false} OutcomeIff(s: System, actions: seq<Action>, id: int, o: Outcome)
    requires WellRun(s) && Exec(s, actions).Some?
    ensures HasOutcome(Exec(s, actions).value, id, o) <==> HasOutcome(s, id, o) || Ended(s, actions, id, o)
    decreases |actions|
  {
    if actions != [] {
      hide WellRun, Step, Enabled, HasOutcome, Ends;
      StepEnds(s, actions[0], id, o);
      StepWellRun(s, actions[0]);
      OutcomeIff(Step(s, actions[0]), actions[1..], id, o);
    }
  }

  // ----- a turn's way to a worker -----

  /** A turn that enters while a worker runs can reach it, and then waits for that worker and on its channel. */
  lemma {:induction false} TurnReachesWorker(s: System, id: int)
    requires WellRun(s) && s.core.running && At(s, id, Entered)
    ensures var end := Exec(s, [TurnCaptures(id), WriteReturns(id, true), TurnWatches(id)]);
      && end.Some? && At(end.value, id, Waiting(s.core.generation, s.core.generation))
      && s.core.generation in end.value.loops
  {
    hide Demuxed, Accounted;
    ExecThree(s, TurnCaptures(id), WriteReturns(id, true), TurnWatches(id));
  }

  /** Whichever worker it wrote to, a turn that begins to wait sees the end of the worker that is current then. */
  lemma {:induction false} WatchesCurrent(s: System, id: int)
    requires WellRun(s) && Enabled(s, TurnWatches(id)) && s.core.generation in s.loops
    ensures var waiting := Step(s, TurnWatches(id));
      && Enabled(waiting, WorkerDies(s.core.generation))
      && Enabled(Step(waiting, WorkerDies(s.core.generation)), TurnSeesGone(id))
  {
    hide Demuxed, Accounted, CurrentWorker;
  }
}
