/**
 The Claude SDK worker driver: one worker process at a time, numbered by generation, serving any number of
 turns; workers die and are restarted while turns wait.
 */
module Driver {
  import opened Common

  /** A channel that is only ever closed, by generation. */
  datatype Signal = Ready(gen: nat) | Gone(gen: nat)

  /** Fields guarded by the driver's mutex. encoder names the worker whose stdin it writes to. */
  datatype Core = Core(
    generation: nat, running: bool, encoder: Option<nat>,
    pending: set<int>, callbacks: set<int>, closed: multiset<Signal>, lastId: nat)
  {
    predicate IsClosed(s: Signal) {
      s in closed
    }

    function CloseOnce(s: Signal): Core {
      if IsClosed(s) then this else this.(closed := closed + multiset{s})
    }

    function NewGeneration(): Core {
      this.(generation := generation + 1)
    }

    function Install(): Core {
      this.(running := true, encoder := Some(generation))
    }

    function FailStart(gen: nat): Core {
      if gen != generation then this
      else this.(running := false, encoder := None).CloseOnce(Ready(generation))
    }

    function Shutdown(gen: nat): Core {
      if gen != generation then this
      else
        this.(running := false, encoder := None, pending := {}, callbacks := {})
            .CloseOnce(Gone(generation)).CloseOnce(Ready(generation))
    }

    function Register(): Core {
      this.(lastId := lastId + 1, pending := pending + {lastId + 1}, callbacks := callbacks + {lastId + 1})
    }

    function Forget(id: int): Core {
      this.(pending := pending - {id}, callbacks := callbacks - {id})
    }

    function Release(): Core {
      this.(running := false, encoder := None)
    }
  }

  class WorkerDriver {
    var generation: nat
    var running: bool
    var encoder: Option<nat>
    var pending: set<int>
    var callbacks: set<int>
    var closed: multiset<Signal>
    var lastId: nat

    constructor ()
      ensures Value() == Core(0, false, None, {}, {}, multiset{}, 0)
    {
      generation, running, encoder := 0, false, None;
      pending, callbacks, closed, lastId := {}, {}, multiset{}, 0;
    }

    function Value(): Core
      reads this
    {
      Core(generation, running, encoder, pending, callbacks, closed, lastId)
    }

    method CloseOnce(s: Signal)
      modifies this`closed
      ensures Value() == old(Value()).CloseOnce(s)
    {
      if s !in closed {
        closed := closed + multiset{s};
      }
    }

    /** startWorker: the first locked section, before the process is spawned. */
    method BeginStart() returns (gen: nat)
      modifies this`generation
      ensures Value() == old(Value()).NewGeneration() && gen == generation
    {
      generation := generation + 1;
      gen := generation;
    }

    /** startWorker: the process is up. */
    method InstallWorker()
      modifies this`running, this`encoder
      ensures Value() == old(Value()).Install()
    {
      running := true;
      encoder := Some(generation);
    }

    method FailStart(gen: nat)
      modifies this
      ensures Value() == old(Value()).FailStart(gen)
    {
      if gen != generation {
        return;
      }
      running := false;
      encoder := None;
      CloseOnce(Ready(generation));
    }

    /** shutdownWorker up to the unlock; the orphans are then sent an error each. */
    method ShutdownWorker(gen: nat) returns (orphans: set<int>)
      modifies this
      ensures Value() == old(Value()).Shutdown(gen)
      ensures orphans == if gen == old(generation) then old(pending) else {}
    {
      if gen != generation {
        return {};
      }
      CloseOnce(Gone(generation));
      orphans := pending;
      pending := {};
      callbacks := {};
      running := false;
      encoder := None;
      CloseOnce(Ready(generation));
    }

    /** deliverResult up to the unlock: whether a turn was waiting for this id. */
    method TakePending(id: int) returns (found: bool)
      modifies this`pending, this`callbacks
      ensures Value() == old(Value()).Forget(id)
      ensures found <==> id in old(pending)
    {
      found := id in pending;
      pending := pending - {id};
      callbacks := callbacks - {id};
    }

    /** runTurn: the first locked section. */
    method RegisterTurn() returns (id: int)
      modifies this
      ensures Value() == old(Value()).Register() && id == lastId == old(lastId) + 1
    {
      lastId := lastId + 1;
      id := lastId;
      pending := pending + {id};
      callbacks := callbacks + {id};
    }

    method ForgetRequest(id: int)
      modifies this`pending, this`callbacks
      ensures Value() == old(Value()).Forget(id)
    {
      pending := pending - {id};
      callbacks := callbacks - {id};
    }

    /** Close: let go of the worker; its read loop has yet to reap it. */
    method CloseDriver()
      modifies this`running, this`encoder
      ensures Value() == old(Value()).Release()
    {
      running := false;
      encoder := None;
    }
  }

  // ----- the protocol -----

  datatype Event = Frame(body: string) | WorkerExited

  datatype Outcome = Got(event: Event) | WriteFailed | Cancelled | WorkerGone

  /** worker: whose stdin the request went to; watch: whose gone channel the turn waits on. */
  datatype Phase =
    | Entered
    | Writing(worker: nat)
    | Written(worker: nat)
    | Waiting(worker: nat, watch: nat)
    | Leaving(outcome: Outcome)
    | Over(outcome: Outcome)

  /**
   loops: workers whose read loop has not run shutdownWorker yet. sending: events taken out of the table and about
   to be sent. mailbox: events in turns' channels, which hold one each. delivered, lost: ids whose event entered the
   channel, or fell to the default branch. called: ids whose callbacks a frame found, in order.
   */
  datatype System = System(
    core: Core, starting: bool, loops: set<nat>, turns: map<int, Phase>,
    sending: map<int, Event>, mailbox: map<int, Event>, delivered: multiset<int>, lost: set<int>, called: seq<int>)

  const START := System(Core(0, false, None, {}, {}, multiset{}, 0), false, {}, map[], map[], map[], multiset{}, {}, [])

  datatype Action =
    | StartBegins
    | StartSucceeds
    | StartFails
    | ReadyFrame(gen: nat)
    | EventFrame(gen: nat, id: int)
    | TerminalFrame(gen: nat, id: int, event: Event)
    | Deliver(id: int)
    | WorkerDies(gen: nat)
    | TurnEnters
    | TurnCaptures(id: int)
    | WriteReturns(id: int, ok: bool)
    | TurnWatches(id: int)
    | TurnTakes(id: int)
    | ContextEnds(id: int)
    | TurnSeesGone(id: int)
    | TurnForgets(id: int)
    | DriverCloses

  predicate At(s: System, id: int, phase: Phase) {
    id in s.turns && s.turns[id] == phase
  }

  predicate InSelect(s: System, id: int) {
    id in s.turns && s.turns[id].Waiting?
  }

  predicate Enabled(s: System, a: Action) {
    match a
    case StartBegins => !s.core.running && !s.starting
    case StartSucceeds => s.starting
    case StartFails => s.starting
    case ReadyFrame(gen) => gen in s.loops
    case EventFrame(gen, _) => gen in s.loops
    case TerminalFrame(gen, _, _) => gen in s.loops
    case Deliver(id) => id in s.sending
    case WorkerDies(gen) => gen in s.loops
    case TurnEnters => true
    case TurnCaptures(id) => At(s, id, Entered)
    case WriteReturns(id, _) => id in s.turns && s.turns[id].Writing?
    case TurnWatches(id) => id in s.turns && s.turns[id].Written?
    case TurnTakes(id) => InSelect(s, id) && id in s.mailbox
    case ContextEnds(id) => InSelect(s, id)
    case TurnSeesGone(id) => InSelect(s, id) && s.core.IsClosed(Gone(s.turns[id].watch))
    case TurnForgets(id) => id in s.turns && s.turns[id].Leaving?
    case DriverCloses => true
  }

  function Move(s: System, id: int, phase: Phase): System {
    s.(turns := s.turns[id := phase])
  }

  function Step(s: System, a: Action): System
    requires Enabled(s, a)
  {
    match a
    case StartBegins => s.(core := s.core.NewGeneration(), starting := true)
    case StartSucceeds =>
      s.(core := s.core.Install(), starting := false, loops := s.loops + {s.core.generation})
    case StartFails => s.(core := s.core.FailStart(s.core.generation), starting := false)
    case ReadyFrame(_) => s.(core := s.core.CloseOnce(Ready(s.core.generation)))
    case EventFrame(_, id) => if id in s.core.callbacks then s.(called := s.called + [id]) else s
    case TerminalFrame(_, id, event) =>
      s.(core := s.core.Forget(id), sending := if id in s.core.pending then s.sending[id := event] else s.sending)
    case Deliver(id) =>
      var rest := s.sending - {id};
      if id in s.mailbox then s.(sending := rest, lost := s.lost + {id})
      else s.(sending := rest, mailbox := s.mailbox[id := s.sending[id]], delivered := s.delivered + multiset{id})
    case WorkerDies(gen) =>
      var orphans := if gen == s.core.generation then s.core.pending else {};
      s.(core := s.core.Shutdown(gen), loops := s.loops - {gen},
         sending := s.sending + map id | id in orphans :: WorkerExited)
    case TurnEnters => Move(s, s.core.lastId + 1, Entered).(core := s.core.Register())
    case TurnCaptures(id) =>
      Move(s, id, if s.core.encoder.Some? then Writing(s.core.encoder.value) else Leaving(WriteFailed))
    case WriteReturns(id, ok) => Move(s, id, if ok then Written(s.turns[id].worker) else Leaving(WriteFailed))
    case TurnWatches(id) => Move(s, id, Waiting(s.turns[id].worker, s.core.generation))
    case TurnTakes(id) => Move(s, id, Over(Got(s.mailbox[id]))).(mailbox := s.mailbox - {id})
    case ContextEnds(id) =>
      Move(s, id, Leaving(Cancelled)).(core := if s.core.running then s.core.(lastId := s.core.lastId + 1) else s.core)
    case TurnSeesGone(id) => Move(s, id, Leaving(WorkerGone))
    case TurnForgets(id) => Move(s, id, Over(s.turns[id].outcome)).(core := s.core.Forget(id))
    case DriverCloses => s.(core := s.core.Release())
  }

  function Exec(s: System, actions: seq<Action>): Option<System>
    decreases |actions|
  {
    if actions == [] then Some(s)
    else if Enabled(s, actions[0]) then Exec(Step(s, actions[0]), actions[1..])
    else None
  }

  // ----- demultiplexing: holds in every run -----

  /** Where the one terminal event of a request can be; every request is in at most one of these places. */
  ghost predicate OnePlace(s: System) {
    && s.core.callbacks == s.core.pending
    && (forall id :: OnePlaceOf(s, id))
    && s.lost == {}
  }

  ghost predicate OnePlaceOf(s: System, id: int) {
    && (id in s.core.pending ==> id !in s.sending && id !in s.mailbox && s.delivered[id] == 0)
    && (id in s.sending ==> id !in s.mailbox && s.delivered[id] == 0)
    && s.delivered[id] <= 1
  }

  ghost predicate IdsFresh(s: System) {
    && (forall id :: id in s.turns ==> 1 <= id <= s.core.lastId)
    && (forall id :: id in s.core.pending ==> id in s.turns)
    && (forall id :: id in s.sending ==> id in s.turns)
    && (forall id :: id in s.mailbox ==> id in s.turns)
    && (forall id :: s.delivered[id] > 0 ==> id in s.turns)
  }

  ghost predicate ClosesOnce(s: System) {
    && (forall c :: s.core.closed[c] <= 1)
    && (forall g :: g in s.loops ==> g <= s.core.generation)
  }

  ghost predicate Demuxed(s: System) {
    OnePlace(s) && IdsFresh(s) && ClosesOnce(s)
  }

  lemma StepOnePlace(s: System, a: Action)
    requires Demuxed(s) && Enabled(s, a)
    ensures OnePlace(Step(s, a))
  {
    hide ClosesOnce;
    assert a.Deliver? ==> OnePlaceOf(s, a.id);
    forall id
      ensures OnePlaceOf(Step(s, a), id)
    {
      StepOnePlaceOf(s, a, id);
    }
  }

  lemma StepOnePlaceOf(s: System, a: Action, id: int)
    requires Demuxed(s) && Enabled(s, a)
    ensures OnePlaceOf(Step(s, a), id)
  {
    assert OnePlaceOf(s, id) && (a.Deliver? ==> OnePlaceOf(s, a.id));
    assert id == s.core.lastId + 1 ==> id !in s.turns;
    assert id !in s.turns ==> id !in s.core.pending && id !in s.sending && id !in s.mailbox && s.delivered[id] == 0;
    hide ClosesOnce, OnePlace, IdsFresh;
  }

  lemma StepIdsFresh(s: System, a: Action)
    requires Demuxed(s) && Enabled(s, a)
    ensures IdsFresh(Step(s, a))
  {
    hide ClosesOnce, OnePlace;
  }

  lemma StepClosesOnce(s: System, a: Action)
    requires Demuxed(s) && Enabled(s, a)
    ensures ClosesOnce(Step(s, a))
  {
    hide OnePlace, IdsFresh;
  }

  /**
   In every run, Close included: request ids are never reused across workers, no terminal event is lost to a full
   channel, no request is delivered two, and ready and gone of each generation are closed at most once.
   */
  lemma {:induction false} RunDemuxes(s: System, actions: seq<Action>)
    requires Demuxed(s) && Exec(s, actions).Some?
    ensures Demuxed(Exec(s, actions).value)
    decreases |actions|
  {
    if actions != [] {
      hide Demuxed, Step, Enabled, OnePlace, IdsFresh, ClosesOnce;
      assert Demuxed(Step(s, actions[0])) by { StepDemuxes(s, actions[0]); }
      RunDemuxes(Step(s, actions[0]), actions[1..]);
    }
  }

  lemma StepDemuxes(s: System, a: Action)
    requires Demuxed(s) && Enabled(s, a)
    ensures Demuxed(Step(s, a))
  {
    hide Step, Enabled, OnePlace, IdsFresh, ClosesOnce;
    StepOnePlace(s, a);
    StepIdsFresh(s, a);
    StepClosesOnce(s, a);
  }

  /** Once a request has left the table its callbacks are not found again, in any continuation. */
  lemma {:induction false} NoCallAfterTerminal(s: System, actions: seq<Action>, id: int)
    requires Demuxed(s) && id in s.turns && id !in s.core.callbacks
    requires Exec(s, actions).Some?
    ensures var end := Exec(s, actions).value;
      id !in end.core.callbacks && multiset(end.called)[id] == multiset(s.called)[id]
    decreases |actions|
  {
    if actions != [] {
      hide Demuxed, Enabled, Step;
      var next := Step(s, actions[0]);
      StepDemuxes(s, actions[0]);
      StepNoCall(s, actions[0], id);
      NoCallAfterTerminal(next, actions[1..], id);
    }
  }

  lemma StepNoCall(s: System, a: Action, id: int)
    requires Demuxed(s) && Enabled(s, a) && id in s.turns && id !in s.core.callbacks
    ensures var next := Step(s, a);
      id in next.turns && id !in next.core.callbacks && multiset(next.called)[id] == multiset(s.called)[id]
  {
  }

  /** The end of a superseded worker leaves the current one, its turns and every channel as they were. */
  lemma SupersededDeath(s: System, gen: nat)
    requires gen in s.loops && gen != s.core.generation
    ensures Step(s, WorkerDies(gen)) == s.(loops := s.loops - {gen})
  {
    assert s.sending + map[] == s.sending;
  }

  // ----- no stranded turn -----

  /** An event is in the turn's channel or on its way there. */
  ghost predicate HasEvent(s: System, id: int) {
    id in s.sending || id in s.mailbox
  }

  /** Registered with the live current worker, whose death will fail it. */
  ghost predicate Served(s: System, id: int, worker: nat) {
    id in s.core.pending && worker == s.core.generation && worker in s.loops
  }

  /** A turn that has chosen a worker is served by it or has an event; one that has not is still in the table or has an event. */
  ghost predicate AwakeTurn(s: System, id: int)
    requires id in s.turns
  {
    var phase := s.turns[id];
    && (phase.Entered? ==> id in s.core.pending || HasEvent(s, id))
    && (phase.Writing? || phase.Written? || phase.Waiting? ==> Served(s, id, phase.worker) || HasEvent(s, id))
  }

  ghost predicate Awake(s: System) {
    forall id :: id in s.turns ==> AwakeTurn(s, id)
  }

  /** An encoder is held only for the current worker while its read loop runs; a worker being started has none yet. */
  ghost predicate CurrentWorker(s: System) {
    && (s.core.running <==> s.core.encoder.Some?)
    && (s.core.running ==> s.core.encoder == Some(s.core.generation) && s.core.generation in s.loops)
    && (s.starting ==> !s.core.running && s.core.generation !in s.loops)
  }

  predicate Unfinished(phase: Phase) {
    phase.Entered? || phase.Writing? || phase.Written? || phase.Waiting?
  }

  /** No unfinished turn is forgotten: the table knows it, or it has its event. */
  ghost predicate Accounted(s: System) {
    forall id :: id in s.turns && Unfinished(s.turns[id]) ==> id in s.core.pending || HasEvent(s, id)
  }

  ghost predicate WellRun(s: System) {
    Demuxed(s) && CurrentWorker(s) && Accounted(s)
  }

  lemma StepCurrentWorker(s: System, a: Action)
    requires WellRun(s) && Enabled(s, a)
    ensures CurrentWorker(Step(s, a))
  {
    hide OnePlace, IdsFresh, Accounted;
  }

  lemma StepAccounted(s: System, a: Action)
    requires WellRun(s) && Enabled(s, a)
    ensures Accounted(Step(s, a))
  {
    hide Demuxed, CurrentWorker;
  }

  lemma StepWellRun(s: System, a: Action)
    requires WellRun(s) && Enabled(s, a)
    ensures WellRun(Step(s, a))
  {
    hide Step, Enabled, CurrentWorker, Accounted, Demuxed;
    StepDemuxes(s, a);
    StepCurrentWorker(s, a);
    StepAccounted(s, a);
  }

  lemma {:induction false} RunWellRun(s: System, actions: seq<Action>)
    requires WellRun(s) && Exec(s, actions).Some?
    ensures WellRun(Exec(s, actions).value)
    decreases |actions|
  {
    if actions != [] {
      hide WellRun, Step, Enabled;
      StepWellRun(s, actions[0]);
      RunWellRun(Step(s, actions[0]), actions[1..]);
    }
  }

  lemma StartIsSound()
    ensures WellRun(START) && Awake(START)
  {
  }

  /** In every run, Close included, an unfinished turn is in the table or has its event: it can always still be failed. */
  lemma NeverForgotten(actions: seq<Action>, id: int)
    requires Exec(START, actions).Some? && id in Exec(START, actions).value.turns
    ensures var s := Exec(START, actions).value; Unfinished(s.turns[id]) ==> id in s.core.pending || HasEvent(s, id)
  {
    hide Exec, Demuxed, CurrentWorker;
    StartIsSound();
    RunWellRun(START, actions);
  }

  // ----- exactly when a turn is stranded -----

  /** A turn past its capture that only the table still knows of. */
  ghost predicate OnlyRegistered(s: System, id: int) {
    && id in s.turns && (s.turns[id].Writing? || s.turns[id].Written? || s.turns[id].Waiting?)
    && id in s.core.pending
  }

  /** A worker is started while some turn is still registered with the one before. */
  ghost predicate EarlyRestart(s: System, a: Action) {
    a.StartBegins? && exists id :: OnlyRegistered(s, id)
  }

  lemma StepAwakeTurn(s: System, a: Action, id: int)
    requires WellRun(s) && Awake(s) && Enabled(s, a) && !EarlyRestart(s, a) && id in Step(s, a).turns
    ensures AwakeTurn(Step(s, a), id)
  {
    hide ClosesOnce, OnePlace;
    assert id in s.turns ==> AwakeTurn(s, id);
    assert a.StartBegins? ==> !OnlyRegistered(s, id);
  }

  /** Every step of every party, Close included, keeps all turns awake but an early restart, which never does. */
  lemma EarlyRestartIff(s: System, a: Action)
    requires WellRun(s) && Awake(s) && Enabled(s, a)
    ensures Awake(Step(s, a)) <==> !EarlyRestart(s, a)
  {
    if EarlyRestart(s, a) {
      var id :| OnlyRegistered(s, id);
      assert OnePlaceOf(s, id);
      assert id in Step(s, a).turns && !AwakeTurn(Step(s, a), id);
    } else {
      hide Step;
      forall id | id in Step(s, a).turns
        ensures AwakeTurn(Step(s, a), id)
      {
        StepAwakeTurn(s, a, id);
      }
    }
  }

  ghost predicate AwakeThroughout(s: System, actions: seq<Action>)
    decreases |actions|
  {
    Awake(s) && (actions != [] && Enabled(s, actions[0]) ==> AwakeThroughout(Step(s, actions[0]), actions[1..]))
  }

  ghost predicate NoEarlyRestart(s: System, actions: seq<Action>)
    decreases |actions|
  {
    actions != [] && Enabled(s, actions[0]) ==>
      !EarlyRestart(s, actions[0]) && NoEarlyRestart(Step(s, actions[0]), actions[1..])
  }

  /**
   No stranded turn: whatever the interleaving of worker death, restart, registration and Close, every turn past its
   capture of an encoder is at every moment registered with the live current worker or has its terminal event, exactly
   when no worker is started while a turn is still registered with an earlier one.
   */
  lemma {:induction false} NoStrandedTurn(s: System, actions: seq<Action>)
    requires WellRun(s) && Awake(s) && Exec(s, actions).Some?
    ensures AwakeThroughout(s, actions) <==> NoEarlyRestart(s, actions)
    decreases |actions|
  {
    if actions != [] {
      hide WellRun, Awake, Step, Enabled, EarlyRestart;
      EarlyRestartIff(s, actions[0]);
      if !EarlyRestart(s, actions[0]) {
        StepWellRun(s, actions[0]);
        NoStrandedTurn(Step(s, actions[0]), actions[1..]);
      }
    }
  }

  lemma {:induction false} AwakeAtTheEnd(s: System, actions: seq<Action>)
    requires Exec(s, actions).Some? && AwakeThroughout(s, actions)
    ensures Awake(Exec(s, actions).value)
    decreases |actions|
  {
    if actions != [] {
      hide Awake, Step, Enabled;
      AwakeAtTheEnd(Step(s, actions[0]), actions[1..]);
    }
  }

  // ----- without Close -----

  predicate WithoutClose(actions: seq<Action>) {
    forall a :: a in actions ==> !a.DriverCloses?
  }

  /** Until Close, a read loop means the current worker is running. */
  ghost predicate OneAtATime(s: System) {
    s.loops <= {s.core.generation} && (s.loops != {} ==> s.core.running)
  }

  lemma StepOneAtATime(s: System, a: Action)
    requires WellRun(s) && Awake(s) && OneAtATime(s) && Enabled(s, a) && !a.DriverCloses?
    ensures OneAtATime(Step(s, a)) && !EarlyRestart(s, a)
  {
    hide Accounted, IdsFresh, ClosesOnce;
    if a.StartBegins? {
      forall id
        ensures !OnlyRegistered(s, id)
      {
        assert OnePlaceOf(s, id) && (id in s.turns ==> AwakeTurn(s, id));
      }
    }
  }

  /** A driver that is not closed starts each worker after the last is reaped, so it never strands a turn. */
  lemma {:induction false} WithoutCloseIsOrderly(s: System, actions: seq<Action>)
    requires WellRun(s) && Awake(s) && OneAtATime(s)
    requires WithoutClose(actions) && Exec(s, actions).Some?
    ensures NoEarlyRestart(s, actions) && AwakeThroughout(s, actions)
    decreases |actions|
  {
    if actions != [] {
      hide WellRun, Awake, Step, Enabled, EarlyRestart, OneAtATime;
      StepOneAtATime(s, actions[0]);
      StepWellRun(s, actions[0]);
      EarlyRestartIff(s, actions[0]);
      assert actions[0] in actions && forall a :: a in actions[1..] ==> a in actions;
      WithoutCloseIsOrderly(Step(s, actions[0]), actions[1..]);
    }
  }

  /** From the start, without Close: every turn is served by the live current worker or has its event, or is on its way out. */
  lemma EveryTurnIsAwake(actions: seq<Action>, id: int)
    requires WithoutClose(actions) && Exec(START, actions).Some? && id in Exec(START, actions).value.turns
    ensures var s := Exec(START, actions).value;
      match s.turns[id]
      case Entered => id in s.core.pending || HasEvent(s, id)
      case Writing(worker) => Served(s, id, worker) || HasEvent(s, id)
      case Written(worker) => Served(s, id, worker) || HasEvent(s, id)
      case Waiting(worker, _) => Served(s, id, worker) || HasEvent(s, id)
      case Leaving(_) => true
      case Over(_) => true
  {
    hide Exec, WellRun, AwakeThroughout;
    StartIsSound();
    WithoutCloseIsOrderly(START, actions);
    AwakeAtTheEnd(START, actions);
    assert AwakeTurn(Exec(START, actions).value, id);
  }

  // ----- what releases a turn -----

  /** When the current worker dies every waiting turn, whichever worker it wrote to, has its event and can take it. */
  lemma DeathWakesEveryone(s: System, id: int)
    requires WellRun(s) && s.core.generation in s.loops && InSelect(s, id)
    ensures var dead := Step(s, WorkerDies(s.core.generation));
      && HasEvent(dead, id)
      && WellRun(dead)
      && var woken := if id in dead.sending then Step(dead, Deliver(id)) else dead;
         Enabled(woken, TurnTakes(id))
  {
    StepWellRun(s, WorkerDies(s.core.generation));
    hide Demuxed, CurrentWorker;
  }

  /** The worker the turn wrote to is gone, and neither an event nor the channel it watches says so. */
  ghost predicate Stranded(s: System, id: int) {
    && InSelect(s, id) && !HasEvent(s, id)
    && s.turns[id].worker < s.core.generation && s.turns[id].worker !in s.loops
    && !s.core.IsClosed(Gone(s.turns[id].watch))
  }

  /** Its own context, the end of the current, later worker, or a frame of some later worker that names it. */
  predicate Releases(s: System, a: Action, id: int) {
    a == ContextEnds(id) || a == WorkerDies(s.core.generation) || (a.TerminalFrame? && a.id == id)
  }

  lemma NothingElseReleases(s: System, a: Action, id: int)
    requires WellRun(s) && Stranded(s, id) && Enabled(s, a) && !Releases(s, a, id)
    ensures Stranded(Step(s, a), id)
  {
    assert id in s.core.pending && id != s.core.lastId + 1;
    hide Demuxed, CurrentWorker, Accounted;
  }

  /** Exactly these three release a stranded turn, and each does. */
  lemma StrandedUntil(s: System, a: Action, id: int)
    requires WellRun(s) && Stranded(s, id) && Enabled(s, a)
    ensures Stranded(Step(s, a), id) <==> !Releases(s, a, id)
    ensures Releases(s, a, id) ==> HasEvent(Step(s, a), id) || Step(s, a).turns[id].Leaving?
  {
    if Releases(s, a, id) {
      assert id in s.core.pending;
      hide Demuxed, CurrentWorker, Accounted;
    } else {
      hide Step, Enabled;
      NothingElseReleases(s, a, id);
    }
  }

  const ONE_TURN: seq<Action> :=
    [StartBegins, StartSucceeds, TurnEnters, TurnCaptures(1), WriteReturns(1, true), TurnWatches(1)]
  const CLOSE_AND_RESTART: seq<Action> := [DriverCloses, StartBegins, StartSucceeds, WorkerDies(1)]

  const ONE_WAITING := System(
    Core(1, true, Some(1), {1}, {1}, multiset{}, 1), false, {1}, map[1 := Waiting(1, 1)], map[], map[], multiset{}, {}, [])

  lemma OneTurnWaits()
    ensures Exec(START, ONE_TURN) == Some(ONE_WAITING)
  {
    var s2 := Step(Step(START, StartBegins), StartSucceeds);
    var s4 := Step(Step(s2, TurnEnters), TurnCaptures(1));
    assert s4 == ONE_WAITING.(turns := map[1 := Writing(1)]);
    var s6 := Step(Step(s4, WriteReturns(1, true)), TurnWatches(1));
    assert s6 == ONE_WAITING;
    ExecTwo(s4, WriteReturns(1, true), TurnWatches(1), []);
    ExecTwo(s2, TurnEnters, TurnCaptures(1), ONE_TURN[4..]);
    ExecTwo(START, StartBegins, StartSucceeds, ONE_TURN[2..]);
  }

  lemma {:induction false} ExecTwo(s: System, a: Action, b: Action, rest: seq<Action>)
    requires Enabled(s, a) && Enabled(Step(s, a), b)
    ensures Exec(s, [a, b] + rest) == Exec(Step(Step(s, a), b), rest)
  {
    hide Enabled, Step;
    assert ([a, b] + rest)[1..] == [b] + rest && ([b] + rest)[1..] == rest;
  }

  /** It does happen: Close, a new prompt that restarts the worker, and only then the reaping of the old one. */
  lemma CloseCanStrand()
    ensures Exec(START, ONE_TURN) == Some(ONE_WAITING)
    ensures Exec(ONE_WAITING, CLOSE_AND_RESTART).Some?
    ensures Stranded(Exec(ONE_WAITING, CLOSE_AND_RESTART).value, 1)
  {
    OneTurnWaits();
    var s2 := Step(Step(ONE_WAITING, DriverCloses), StartBegins);
    var s4 := Step(Step(s2, StartSucceeds), WorkerDies(1));
    assert s4.core.generation == 2 && s4.loops == {2} && s4.turns[1] == Waiting(1, 1);
    assert Stranded(s4, 1);
    ExecTwo(s2, StartSucceeds, WorkerDies(1), []);
    ExecTwo(ONE_WAITING, DriverCloses, StartBegins, CLOSE_AND_RESTART[2..]);
  }
}
