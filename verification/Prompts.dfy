/**
 Prompt turns and model options at the bridge, step by step. The read loop resolves a session, and only later registers
 a turn or writes an option, while earlier turns' goroutines record and release. Every writer writes the session value
 it holds, with its own part changed.
 */
module Prompts {
  import opened Common
  import opened Turns
  import opened Sessions

  /** Choosing: an option between its resolve and its write; Spawned: the turn's goroutine runs the agent. */
  datatype Phase = Choosing | Held | Running | Spawned | Recorded

  /** The session value a handler resolved, and when. */
  datatype Hold = Hold(id: SessionId, sess: StoredSession, at: nat, phase: Phase)

  /** loop: the handler the read loop is in the middle of. Handlers are numbered as they come. */
  datatype System = System(bridge: Bridge, holds: map<nat, Hold>, loop: Option<nat>, clock: nat)

  function Start(document: Document): System {
    System(Bridge(EMPTY, document), map[], None, 0)
  }

  datatype Action =
    | Creates(id: SessionId)
    | OptionReads(turn: nat, id: SessionId)
    | OptionWrites(turn: nat, model: string)     // the model was looked up
    | OptionFails(turn: nat)
    | Resolves(turn: nat, id: SessionId)
    | Registers(turn: nat)                       // refused, and the hold dropped, while the session has a turn
    | CommandWrites(turn: nat, model: string)    // a prompt that is a model command
    | CommandEnds(turn: nat)
    | Spawns(turn: nat)
    | Records(turn: nat, conv: string, idx: int)
    | Releases(turn: nat)
    | Restarts

  predicate InPhase(s: System, turn: nat, phase: Phase) {
    turn in s.holds && s.holds[turn].phase == phase
  }

  predicate InLoop(s: System, turn: nat, phase: Phase) {
    s.loop == Some(turn) && InPhase(s, turn, phase)
  }

  predicate Enabled(s: System, a: Action) {
    match a
    case Creates(id) => s.loop.None? && id !in s.bridge.document.Entries()
    case OptionReads(turn, _) => s.loop.None? && turn !in s.holds
    case OptionWrites(turn, _) => InLoop(s, turn, Choosing)
    case OptionFails(turn) => InLoop(s, turn, Choosing)
    case Resolves(turn, _) => s.loop.None? && turn !in s.holds
    case Registers(turn) => InLoop(s, turn, Held)
    case CommandWrites(turn, _) => InLoop(s, turn, Running)
    case CommandEnds(turn) => InLoop(s, turn, Running) || InLoop(s, turn, Recorded)
    case Spawns(turn) => InLoop(s, turn, Running)
    case Records(turn, _, _) => InPhase(s, turn, Spawned)
    case Releases(turn) => s.loop != Some(turn) && (InPhase(s, turn, Spawned) || InPhase(s, turn, Recorded))
    case Restarts => true
  }

  function Move(s: System, turn: nat, phase: Phase): System
    requires turn in s.holds
  {
    s.(holds := s.holds[turn := s.holds[turn].(phase := phase)])
  }

  function Take(s: System, turn: nat, id: SessionId, phase: Phase): System {
    var sess := s.bridge.Resolve(id);
    if sess.None? then s
    else
      s.(bridge := Act(s.bridge, Load(id)), holds := s.holds[turn := Hold(id, sess.value, s.clock, phase)], loop := Some(turn))
  }

  function Drop(s: System, turn: nat): System {
    s.(holds := s.holds - {turn}, loop := if s.loop == Some(turn) then None else s.loop)
  }

  function Put(s: System, id: SessionId, sess: StoredSession): System {
    s.(bridge := Act(s.bridge, Save(id, sess)))
  }

  function Effect(s: System, a: Action): System
    requires Enabled(s, a)
  {
    match a
    case Creates(id) => s.(bridge := Act(s.bridge, Create(id)))
    case OptionReads(turn, id) => Take(s, turn, id, Choosing)
    case OptionWrites(turn, model) => Drop(Put(s, s.holds[turn].id, s.holds[turn].sess.(modelID := model)), turn)
    case OptionFails(turn) => Drop(s, turn)
    case Resolves(turn, id) => Take(s, turn, id, Held)
    case Registers(turn) =>
      var id := s.holds[turn].id;
      if id in s.bridge.cache.turns then Drop(s, turn)
      else Move(s, turn, Running).(bridge := Act(s.bridge, TurnBegins(id, turn)))
    case CommandWrites(turn, model) => Move(Put(s, s.holds[turn].id, s.holds[turn].sess.(modelID := model)), turn, Recorded)
    case CommandEnds(turn) => Drop(s, turn).(bridge := Act(s.bridge, TurnEnds(s.holds[turn].id, turn)))
    case Spawns(turn) => Move(s, turn, Spawned).(loop := None)
    case Records(turn, conv, idx) =>
      var h := s.holds[turn];
      if conv == "" then Move(s, turn, Recorded)
      else Move(Put(s, h.id, StoredSession(conv, idx, h.sess.modelID)), turn, Recorded)
    case Releases(turn) => Drop(s, turn).(bridge := Act(s.bridge, TurnEnds(s.holds[turn].id, turn)))
    case Restarts => s.(bridge := Act(s.bridge, Restart), holds := map[], loop := None)
  }

  function Step(s: System, a: Action): System
    requires Enabled(s, a)
  {
    Effect(s, a).(clock := s.clock + 1)
  }

  function Exec(s: System, actions: seq<Action>): Option<System>
    decreases |actions|
  {
    if actions == [] then Some(s)
    else if Enabled(s, actions[0]) then Exec(Step(s, actions[0]), actions[1..])
    else None
  }

  // ----- what every run keeps -----

  /** The cache is current, and every hold was taken in the past. */
  ghost predicate Sound(s: System) {
    && Current(s.bridge, s.bridge.document.Entries())
    && forall turn :: turn in s.holds ==> s.holds[turn].at < s.clock
  }

  lemma {:induction false} SaveCurrent(b: Bridge, id: SessionId, sess: StoredSession)
    requires Current(b, b.document.Entries())
    ensures var next := Act(b, Save(id, sess));
      Current(next, next.document.Entries()) && next.document.Entries() == b.document.Entries()[id := sess]
  {
    hide Cache.Set;
    StepCurrent(b, b.document.Entries(), Save(id, sess));
  }

  /** Every other step leaves the document as it is. */
  lemma {:induction false} OthersCurrent(b: Bridge, a: BridgeAction)
    requires Current(b, b.document.Entries()) && !a.Save? && (a.Create? ==> a.id !in b.document.Entries())
    ensures Current(Act(b, a), b.document.Entries()) && Act(b, a).document == b.document
  {
    hide Cache.Set;
    StepCurrent(b, b.document.Entries(), a);
  }

  /** What a step writes, if anything: the value its handler holds, with its own part changed. */
  function Written(s: System, a: Action): Option<(SessionId, StoredSession)>
    requires Enabled(s, a)
  {
    match a
    case OptionWrites(turn, model) => Some((s.holds[turn].id, s.holds[turn].sess.(modelID := model)))
    case CommandWrites(turn, model) => Some((s.holds[turn].id, s.holds[turn].sess.(modelID := model)))
    case Records(turn, conv, idx) =>
      if conv == "" then None else Some((s.holds[turn].id, StoredSession(conv, idx, s.holds[turn].sess.modelID)))
    case _ => None
  }

  lemma {:induction false} StepWrites(s: System, a: Action)
    requires Sound(s) && Enabled(s, a)
    ensures var next, was := Step(s, a), s.bridge.document.Entries();
      && Sound(next)
      && next.bridge.document.Entries() ==
         match Written(s, a) { case None => was case Some((id, sess)) => was[id := sess] }
  {
    hide Current, Act, Bridge.Resolve;
    match a
    case Creates(id) => OthersCurrent(s.bridge, Create(id));
    case OptionReads(_, id) => OthersCurrent(s.bridge, Load(id));
    case Resolves(_, id) => OthersCurrent(s.bridge, Load(id));
    case OptionWrites(turn, model) => SaveCurrent(s.bridge, s.holds[turn].id, s.holds[turn].sess.(modelID := model));
    case OptionFails(_) =>
    case Registers(turn) => OthersCurrent(s.bridge, TurnBegins(s.holds[turn].id, turn));
    case CommandWrites(turn, model) => SaveCurrent(s.bridge, s.holds[turn].id, s.holds[turn].sess.(modelID := model));
    case CommandEnds(turn) => OthersCurrent(s.bridge, TurnEnds(s.holds[turn].id, turn));
    case Spawns(_) =>
    case Records(turn, conv, idx) =>
      SaveCurrent(s.bridge, s.holds[turn].id, StoredSession(conv, idx, s.holds[turn].sess.modelID));
    case Releases(turn) => OthersCurrent(s.bridge, TurnEnds(s.holds[turn].id, turn));
    case Restarts => OthersCurrent(s.bridge, Restart);
  }

  lemma {:induction false} ResolveWritten(s: System, id: SessionId)
    requires Sound(s) && id in s.bridge.document.Entries()
    ensures s.bridge.Resolve(id) == Some(s.bridge.document.Entries()[id])
  {
  }

  lemma {:induction false} RunSound(s: System, actions: seq<Action>)
    requires Sound(s) && Exec(s, actions).Some?
    ensures Sound(Exec(s, actions).value)
    decreases |actions|
  {
    if actions != [] {
      hide Sound, Step, Enabled, Written;
      StepWrites(s, actions[0]);
      RunSound(Step(s, actions[0]), actions[1..]);
    }
  }

  // ----- how long what was written stays -----

  /** One part of a session value: the selected model, or how far which conversation was read. */
  datatype Part = Model(model: string) | Reading(conv: string, idx: int) {
    predicate In(sess: StoredSession) {
      match this
      case Model(model) => sess.modelID == model
      case Reading(conv, idx) => sess.conversationID == conv && sess.lastStepIdx == idx
    }
  }

  /** The step sets this kind of part for the session: selections set the model, records the reading. */
  predicate SetsKind(s: System, a: Action, id: SessionId, part: Part) {
    && Enabled(s, a) && Written(s, a).Some? && Written(s, a).value.0 == id
    && (part.Model? <==> !a.Records?)
  }

  /** And this very part. */
  predicate Sets(s: System, a: Action, id: SessionId, part: Part) {
    SetsKind(s, a, id, part) && part.In(Written(s, a).value.1)
  }

  /** A handler that resolved the session before time since, and holds another part, writes the other kind. */
  predicate StaleWrite(s: System, a: Action, id: SessionId, part: Part, since: nat) {
    && (a.OptionWrites? || a.CommandWrites? || (a.Records? && a.conv != "")) && (part.Model? <==> a.Records?)
    && a.turn in s.holds && s.holds[a.turn].id == id
    && s.holds[a.turn].at < since && !part.In(s.holds[a.turn].sess)
  }

  predicate Has(s: System, id: SessionId, part: Part) {
    s.bridge.Resolve(id).Some? && part.In(s.bridge.Resolve(id).value)
  }

  ghost predicate KeptThroughout(s: System, actions: seq<Action>, id: SessionId, part: Part)
    decreases |actions|
  {
    && Has(s, id, part)
    && (actions != [] && Enabled(s, actions[0]) ==> KeptThroughout(Step(s, actions[0]), actions[1..], id, part))
  }

  ghost predicate NoStaleWrite(s: System, actions: seq<Action>, id: SessionId, part: Part, since: nat)
    decreases |actions|
  {
    actions != [] && Enabled(s, actions[0]) ==>
      && !StaleWrite(s, actions[0], id, part, since)
      && NoStaleWrite(Step(s, actions[0]), actions[1..], id, part, since)
  }

  ghost predicate NotSetAgain(s: System, actions: seq<Action>, id: SessionId, part: Part)
    decreases |actions|
  {
    actions != [] && Enabled(s, actions[0]) ==>
      !SetsKind(s, actions[0], id, part) && NotSetAgain(Step(s, actions[0]), actions[1..], id, part)
  }

  /** The part is the written one, and so held by every handler that resolved since. */
  ghost predicate InForce(s: System, id: SessionId, part: Part, since: nat) {
    && Sound(s) && since <= s.clock
    && id in s.bridge.document.Entries() && part.In(s.bridge.document.Entries()[id])
    && forall turn :: turn in s.holds && s.holds[turn].id == id && s.holds[turn].at >= since ==> part.In(s.holds[turn].sess)
  }

  lemma {:induction false} StepInForce(s: System, a: Action, id: SessionId, part: Part, since: nat)
    requires InForce(s, id, part, since) && Enabled(s, a) && !SetsKind(s, a, id, part)
    ensures if StaleWrite(s, a, id, part, since) then !Has(Step(s, a), id, part)
            else InForce(Step(s, a), id, part, since)
  {
    hide Step, Enabled, Sound, Bridge.Resolve, Written, SetsKind, Part.In;
    ResolveWritten(s, id);
    StepWrites(s, a);
    StepHolds(s, a);
    if Written(s, a).Some? && Written(s, a).value.0 == id {
      WritesHeld(s, a, id, part);
    } else {
      WritesOther(s, a, id, part, since);
    }
    if StaleWrite(s, a, id, part, since) {
      ResolveWritten(Step(s, a), id);
    }
  }

  /** What a step writes of the other kind is what its handler held. */
  lemma {:induction false} WritesHeld(s: System, a: Action, id: SessionId, part: Part)
    requires Enabled(s, a) && Written(s, a).Some? && Written(s, a).value.0 == id && !SetsKind(s, a, id, part)
    ensures (a.OptionWrites? || a.CommandWrites? || (a.Records? && a.conv != "")) && (part.Model? <==> a.Records?)
    ensures a.turn in s.holds && s.holds[a.turn].id == id
    ensures part.In(Written(s, a).value.1) <==> part.In(s.holds[a.turn].sess)
  {
  }

  lemma {:induction false} WritesOther(s: System, a: Action, id: SessionId, part: Part, since: nat)
    requires Enabled(s, a) && (Written(s, a).None? || Written(s, a).value.0 != id)
    ensures !StaleWrite(s, a, id, part, since)
  {
  }

  /** Handlers keep the value they hold; a new one holds what the session resolves to now. */
  lemma {:induction false} StepHolds(s: System, a: Action)
    requires Enabled(s, a)
    ensures forall turn :: turn in Step(s, a).holds ==>
      var h := Step(s, a).holds[turn];
      if turn in s.holds then h.id == s.holds[turn].id && h.sess == s.holds[turn].sess && h.at == s.holds[turn].at
      else h.at == s.clock && s.bridge.Resolve(h.id) == Some(h.sess)
    ensures Step(s, a).clock == s.clock + 1
  {
    hide Act, Bridge.Resolve;
  }

  lemma {:induction false} RunInForce(s: System, actions: seq<Action>, id: SessionId, part: Part, since: nat)
    requires InForce(s, id, part, since) && Exec(s, actions).Some? && NotSetAgain(s, actions, id, part)
    ensures KeptThroughout(s, actions, id, part) <==> NoStaleWrite(s, actions, id, part, since)
    decreases |actions|
  {
    ResolveWritten(s, id);
    if actions != [] {
      hide InForce, Step, Enabled, SetsKind, StaleWrite;
      StepInForce(s, actions[0], id, part, since);
      if !StaleWrite(s, actions[0], id, part, since) {
        RunInForce(Step(s, actions[0]), actions[1..], id, part, since);
      }
    }
  }

  /**
   What a step writes of its own part stays in force until that kind of part is next set, through evictions, restarts
   and other handlers, exactly if no handler that resolved the session before, holding another such part, writes the
   other kind.
   */
  lemma {:induction false} SurvivesIff(document: Document, before: seq<Action>, setter: Action, after: seq<Action>, id: SessionId, part: Part)
    requires Exec(Start(document), before).Some?
    requires var s := Exec(Start(document), before).value;
      && Sets(s, setter, id, part)
      && Exec(Step(s, setter), after).Some? && NotSetAgain(Step(s, setter), after, id, part)
    ensures var next := Step(Exec(Start(document), before).value, setter);
      KeptThroughout(next, after, id, part) <==> NoStaleWrite(next, after, id, part, next.clock)
  {
    hide Exec, KeptThroughout, NoStaleWrite, NotSetAgain;
    RunSound(Start(document), before);
    var s := Exec(Start(document), before).value;
    StepWrites(s, setter);
    hide Act, Current, Bridge.Resolve;
    RunInForce(Step(s, setter), after, id, part, Step(s, setter).clock);
  }

  /** A selected model: lost until the next selection exactly when a turn that resolved before it, with another model, records. */
  lemma {:induction false} SelectionSurvivesIff(document: Document, before: seq<Action>, choice: Action, after: seq<Action>, id: SessionId, model: string)
    requires Exec(Start(document), before).Some?
    requires var s := Exec(Start(document), before).value;
      && (choice.OptionWrites? || choice.CommandWrites?) && choice.model == model
      && Enabled(s, choice) && s.holds[choice.turn].id == id
      && Exec(Step(s, choice), after).Some? && NotSetAgain(Step(s, choice), after, id, Model(model))
    ensures var next := Step(Exec(Start(document), before).value, choice);
      KeptThroughout(next, after, id, Model(model)) <==> NoStaleWrite(next, after, id, Model(model), next.clock)
  {
    hide Exec, Step, KeptThroughout, NoStaleWrite, NotSetAgain;
    SurvivesIff(document, before, choice, after, id, Model(model));
  }

  /**
   A recorded conversation and index: lost until the next record exactly when a selection that resolved before it, with
   another conversation or index, is written.
   */
  lemma {:induction false} RecordSurvivesIff(document: Document, before: seq<Action>, turn: nat, conv: string, idx: int, after: seq<Action>)
    requires Exec(Start(document), before).Some? && conv != ""
    requires var s := Exec(Start(document), before).value;
      && Enabled(s, Records(turn, conv, idx))
      && var next := Step(s, Records(turn, conv, idx));
         Exec(next, after).Some? && NotSetAgain(next, after, s.holds[turn].id, Reading(conv, idx))
    ensures var s := Exec(Start(document), before).value;
      var next, id := Step(s, Records(turn, conv, idx)), s.holds[turn].id;
      KeptThroughout(next, after, id, Reading(conv, idx)) <==> NoStaleWrite(next, after, id, Reading(conv, idx), next.clock)
  {
    hide Exec, Step, KeptThroughout, NoStaleWrite, NotSetAgain;
    SurvivesIff(document, before, Records(turn, conv, idx), after, Exec(Start(document), before).value.holds[turn].id, Reading(conv, idx));
  }

  // ----- runs that lose what was written -----

  lemma {:induction false} ExecStep(s: System, a: Action, rest: seq<Action>)
    requires Enabled(s, a)
    ensures Exec(s, [a] + rest) == Exec(Step(s, a), rest)
    ensures Exec(Step(s, a), []) == Some(Step(s, a))
  {
    assert ([a] + rest)[1..] == rest;
  }

  /** A free session, known to the bridge, an idle read loop, and a turn that has not begun. */
  ghost predicate Ready(s: System, id: SessionId, sess: StoredSession, turn: nat) {
    && Sound(s) && s.loop.None? && s.bridge.Resolve(id) == Some(sess) && id !in s.bridge.cache.turns && turn !in s.holds
  }

  lemma {:induction false} LoadKeeps(b: Bridge, id: SessionId)
    ensures Act(b, Load(id)).cache.turns == b.cache.turns && Act(b, Load(id)).document == b.document
    ensures Act(b, Load(id)).Resolve(id) == b.Resolve(id)
  {
    if id !in b.cache.sessions && b.Resolve(id).Some? {
      SetKeeps(b.cache, id, b.Resolve(id).value);
    }
  }

  lemma {:induction false} SaveKeepsTurns(b: Bridge, id: SessionId, sess: StoredSession)
    ensures Act(b, Save(id, sess)).cache.turns == b.cache.turns
  {
  }

  /** The turn's goroutine runs, from the value the turn resolved. */
  ghost predicate Runs(s: System, id: SessionId, sess: StoredSession, turn: nat) {
    && Sound(s) && s.loop.None? && s.bridge.Resolve(id) == Some(sess)
    && InPhase(s, turn, Spawned) && s.holds[turn].id == id && s.holds[turn].sess == sess
    && id in s.bridge.cache.turns && s.bridge.cache.turns[id] == turn
  }

  /** Three steps of the read loop start a turn. */
  function Started(s: System, id: SessionId, turn: nat): System
    requires Enabled(s, Resolves(turn, id)) && s.bridge.Resolve(id).Some?
    requires id !in Act(s.bridge, Load(id)).cache.turns
  {
    Step(Step(Step(s, Resolves(turn, id)), Registers(turn)), Spawns(turn))
  }

  lemma {:induction false} TurnStarts(s: System, id: SessionId, sess: StoredSession, turn: nat, rest: seq<Action>)
    requires Ready(s, id, sess, turn)
    ensures id !in Act(s.bridge, Load(id)).cache.turns
    ensures Exec(s, [Resolves(turn, id)] + ([Registers(turn)] + ([Spawns(turn)] + rest))) == Exec(Started(s, id, turn), rest)
    ensures Runs(Started(s, id, turn), id, sess, turn)
    ensures Started(s, id, turn).holds.Keys == s.holds.Keys + {turn}
  {
    hide Exec, Current;
    LoadKeeps(s.bridge, id);
    TurnsKeepSessions(Act(s.bridge, Load(id)).cache, id, turn);
    hide Cache.Set, Cache.Evict;
    var held := Step(s, Resolves(turn, id));
    var running := Step(held, Registers(turn));
    StepWrites(s, Resolves(turn, id));
    StepWrites(held, Registers(turn));
    StepWrites(running, Spawns(turn));
    assert Runs(Started(s, id, turn), id, sess, turn);
    hide Step, Enabled;
    ExecStep(running, Spawns(turn), rest);
    ExecStep(held, Registers(turn), [Spawns(turn)] + rest);
    ExecStep(s, Resolves(turn, id), [Registers(turn)] + ([Spawns(turn)] + rest));
  }

  /** A model selected, and acknowledged, while a turn runs is undone when that turn records. */
  lemma {:induction false} ModelSelectedDuringTurnIsLost(s: System, id: SessionId, sess: StoredSession, turn: nat, option: nat, model: string, conv: string, idx: int)
    requires Ready(s, id, sess, turn) && option != turn && option !in s.holds && model != sess.modelID && conv != ""
    ensures var selected := [Resolves(turn, id)] + ([Registers(turn)] + ([Spawns(turn)] +
                            ([OptionReads(option, id)] + ([OptionWrites(option, model)] + []))));
      Exec(s, selected).Some? && Has(Exec(s, selected).value, id, Model(model))
    ensures var ended := [Resolves(turn, id)] + ([Registers(turn)] + ([Spawns(turn)] +
                         ([OptionReads(option, id)] + ([OptionWrites(option, model)] + ([Records(turn, conv, idx)] + [])))));
      Exec(s, ended).Some? && Exec(s, ended).value.bridge.Resolve(id) == Some(StoredSession(conv, idx, sess.modelID))
  {
    hide Exec, Sound;
    TurnStarts(s, id, sess, turn, [OptionReads(option, id)] + ([OptionWrites(option, model)] + []));
    TurnStarts(s, id, sess, turn, [OptionReads(option, id)] + ([OptionWrites(option, model)] + ([Records(turn, conv, idx)] + [])));
    OptionDuringTurn(Started(s, id, turn), id, sess, turn, option, model, conv, idx);
  }

  lemma {:induction false} OptionDuringTurn(s: System, id: SessionId, sess: StoredSession, turn: nat, option: nat, model: string, conv: string, idx: int)
    requires Runs(s, id, sess, turn) && option !in s.holds && conv != ""
    ensures var selected := [OptionReads(option, id)] + ([OptionWrites(option, model)] + []);
      Exec(s, selected).Some? && Has(Exec(s, selected).value, id, Model(model))
    ensures var ended := [OptionReads(option, id)] + ([OptionWrites(option, model)] + ([Records(turn, conv, idx)] + []));
      Exec(s, ended).Some? && Exec(s, ended).value.bridge.Resolve(id) == Some(StoredSession(conv, idx, sess.modelID))
  {
    hide Exec, Current, Act, Bridge.Resolve;
    var read := Step(s, OptionReads(option, id));
    var chosen := Step(read, OptionWrites(option, model));
    var ended := Step(chosen, Records(turn, conv, idx));
    StepWrites(s, OptionReads(option, id));
    StepWrites(read, OptionWrites(option, model));
    StepWrites(chosen, Records(turn, conv, idx));
    ResolveWritten(chosen, id);
    ResolveWritten(ended, id);
    hide Step, Enabled, Sound;
    ExecStep(s, OptionReads(option, id), [OptionWrites(option, model)] + []);
    ExecStep(read, OptionWrites(option, model), []);
    ExecStep(s, OptionReads(option, id), [OptionWrites(option, model)] + ([Records(turn, conv, idx)] + []));
    ExecStep(read, OptionWrites(option, model), [Records(turn, conv, idx)] + []);
    ExecStep(chosen, Records(turn, conv, idx), []);
  }

  /** A second prompt resolves while the first turn runs; that turn records and releases; the second registers. */
  function Overlap(id: SessionId, first: nat, second: nat, conv: string, idx: int, rest: seq<Action>): seq<Action> {
    [Resolves(second, id)] + ([Records(first, conv, idx)] + ([Releases(first)] + ([Registers(second)] + rest)))
  }

  lemma {:induction false} SecondResolves(s: System, id: SessionId, sess: StoredSession, first: nat, second: nat, conv: string, idx: int)
    returns (recorded: System)
    requires Runs(s, id, sess, first) && second !in s.holds && conv != ""
    ensures Enabled(s, Resolves(second, id))
    ensures Enabled(Step(s, Resolves(second, id)), Records(first, conv, idx))
    ensures recorded == Step(Step(s, Resolves(second, id)), Records(first, conv, idx))
    ensures Sound(recorded) && recorded.loop == Some(second)
    ensures InPhase(recorded, first, Recorded) && recorded.holds[first].id == id
    ensures InPhase(recorded, second, Held) && recorded.holds[second].id == id && recorded.holds[second].sess == sess
    ensures id in recorded.bridge.cache.turns && recorded.bridge.cache.turns[id] == first
    ensures var written := recorded.bridge.document.Entries();
      id in written && written[id] == StoredSession(conv, idx, sess.modelID)
  {
    hide Current;
    LoadKeeps(s.bridge, id);
    var both := Step(s, Resolves(second, id));
    SaveKeepsTurns(both.bridge, id, StoredSession(conv, idx, sess.modelID));
    hide Cache.Set, Cache.Evict;
    recorded := Step(both, Records(first, conv, idx));
    StepWrites(s, Resolves(second, id));
    StepWrites(both, Records(first, conv, idx));
  }

  lemma {:induction false} SecondRegisters(s: System, id: SessionId, sess: StoredSession, first: nat, second: nat, conv: string, idx: int, rest: seq<Action>)
    returns (end: System)
    requires Runs(s, id, sess, first) && second !in s.holds && conv != ""
    ensures Exec(s, Overlap(id, first, second, conv, idx, rest)) == Exec(end, rest)
    ensures Sound(end) && InLoop(end, second, Running) && end.holds[second].id == id && end.holds[second].sess == sess
    ensures end.bridge.Resolve(id) == Some(StoredSession(conv, idx, sess.modelID))
  {
    var recorded := SecondResolves(s, id, sess, first, second, conv, idx);
    end := FirstReleases(recorded, id, sess, first, second, rest);
    hide Exec, Step, Enabled, Sound;
    ResolveWritten(end, id);
    var last := [Releases(first)] + ([Registers(second)] + rest);
    ExecStep(Step(s, Resolves(second, id)), Records(first, conv, idx), last);
    ExecStep(s, Resolves(second, id), [Records(first, conv, idx)] + last);
  }

  lemma {:induction false} FirstReleases(s: System, id: SessionId, sess: StoredSession, first: nat, second: nat, rest: seq<Action>)
    returns (end: System)
    requires Sound(s) && s.loop == Some(second) && first != second
    requires InPhase(s, first, Recorded) && s.holds[first].id == id
    requires InPhase(s, second, Held) && s.holds[second].id == id && s.holds[second].sess == sess
    requires id in s.bridge.cache.turns && s.bridge.cache.turns[id] == first
    ensures Exec(s, [Releases(first)] + ([Registers(second)] + rest)) == Exec(end, rest)
    ensures Sound(end) && InLoop(end, second, Running) && end.holds[second].id == id && end.holds[second].sess == sess
    ensures end.bridge.document.Entries() == s.bridge.document.Entries()
  {
    hide Exec, Current, Cache.Set, Cache.Evict;
    var released := Step(s, Releases(first));
    end := Step(released, Registers(second));
    StepWrites(s, Releases(first));
    StepWrites(released, Registers(second));
    hide Step, Enabled, Sound;
    ExecStep(released, Registers(second), rest);
    ExecStep(s, Releases(first), [Registers(second)] + rest);
  }

  /**
   A prompt read while a turn runs resolves the session before that turn records and registers after it releases: it
   then runs from the index of before, although the bridge knows the new one. If it is a model command, it writes the
   old conversation and index back.
   */
  lemma {:induction false} HoldIsStale(s: System, id: SessionId, sess: StoredSession, first: nat, second: nat, conv: string, idx: int, model: string)
    requires Ready(s, id, sess, first) && second != first && second !in s.holds && conv != ""
    ensures var actions := [Resolves(first, id)] + ([Registers(first)] + ([Spawns(first)] +
                           Overlap(id, first, second, conv, idx, [])));
      && Exec(s, actions).Some?
      && var end := Exec(s, actions).value;
         && InLoop(end, second, Running) && end.holds[second].id == id && end.holds[second].sess == sess
         && end.bridge.Resolve(id) == Some(StoredSession(conv, idx, sess.modelID))
    ensures var actions := [Resolves(first, id)] + ([Registers(first)] + ([Spawns(first)] +
                           Overlap(id, first, second, conv, idx, [CommandWrites(second, model)] + [])));
      && Exec(s, actions).Some?
      && Exec(s, actions).value.bridge.Resolve(id) == Some(sess.(modelID := model))
  {
    hide Overlap;
    var command := [CommandWrites(second, model)] + [];
    TurnStarts(s, id, sess, first, Overlap(id, first, second, conv, idx, []));
    TurnStarts(s, id, sess, first, Overlap(id, first, second, conv, idx, command));
    var running := Started(s, id, first);
    hide Started, Step;
    var registered := SecondRegisters(running, id, sess, first, second, conv, idx, []);
    var last := SecondRegisters(running, id, sess, first, second, conv, idx, command);
    CommandWritesBack(last, id, sess, second, model);
  }

  lemma {:induction false} CommandWritesBack(s: System, id: SessionId, sess: StoredSession, turn: nat, model: string)
    requires Sound(s) && InLoop(s, turn, Running) && s.holds[turn].id == id && s.holds[turn].sess == sess
    ensures Exec(s, [CommandWrites(turn, model)] + []).Some?
    ensures Exec(s, [CommandWrites(turn, model)] + []).value.bridge.Resolve(id) == Some(sess.(modelID := model))
  {
    hide Current, Act, Bridge.Resolve;
    StepWrites(s, CommandWrites(turn, model));
    ResolveWritten(Step(s, CommandWrites(turn, model)), id);
    hide Exec;
    ExecStep(s, CommandWrites(turn, model), []);
  }

  // ----- when a session is busy -----

  predicate Occupies(s: System, turn: nat, id: SessionId) {
    turn in s.holds && s.holds[turn].id == id && s.holds[turn].phase in {Running, Spawned, Recorded}
  }

  ghost predicate BusyIsHeld(s: System) {
    forall id, turn :: (id in s.bridge.cache.turns && s.bridge.cache.turns[id] == turn) <==> Occupies(s, turn, id)
  }

  /** Which session gets or loses a turn at a step. */
  lemma {:induction false} StepTurns(s: System, a: Action)
    requires Enabled(s, a)
    ensures Step(s, a).bridge.cache.turns ==
      match a
      case Registers(turn) =>
        var id := s.holds[turn].id;
        if id in s.bridge.cache.turns then s.bridge.cache.turns else s.bridge.cache.turns[id := turn]
      case CommandEnds(turn) => s.bridge.cache.Unregister(s.holds[turn].id, turn).turns
      case Releases(turn) => s.bridge.cache.Unregister(s.holds[turn].id, turn).turns
      case Restarts => map[]
      case _ => s.bridge.cache.turns
  {
    hide Cache.Set;
    match a
    case Creates(id) => SetKeepsTurns(s.bridge.cache, id, NEW_SESSION);
    case OptionReads(_, id) => LoadKeeps(s.bridge, id);
    case Resolves(_, id) => LoadKeeps(s.bridge, id);
    case OptionWrites(turn, model) => SaveKeepsTurns(s.bridge, s.holds[turn].id, s.holds[turn].sess.(modelID := model));
    case CommandWrites(turn, model) => SaveKeepsTurns(s.bridge, s.holds[turn].id, s.holds[turn].sess.(modelID := model));
    case Records(turn, conv, idx) =>
      SaveKeepsTurns(s.bridge, s.holds[turn].id, StoredSession(conv, idx, s.holds[turn].sess.modelID));
    case _ =>
  }

  lemma {:induction false} StepOccupies(s: System, a: Action, turn: nat, id: SessionId)
    requires Enabled(s, a)
    ensures Occupies(Step(s, a), turn, id) <==>
      match a
      case Registers(t) => Occupies(s, turn, id) || (t == turn && s.holds[t].id == id && id !in s.bridge.cache.turns)
      case CommandEnds(t) => Occupies(s, turn, id) && t != turn
      case Releases(t) => Occupies(s, turn, id) && t != turn
      case Restarts => false
      case _ => Occupies(s, turn, id)
  {
    hide Act, Bridge.Resolve;
  }

  lemma {:induction false} StepBusyPair(s: System, a: Action, id: SessionId, turn: nat)
    requires BusyIsHeld(s) && Enabled(s, a)
    ensures (id in Step(s, a).bridge.cache.turns && Step(s, a).bridge.cache.turns[id] == turn) <==> Occupies(Step(s, a), turn, id)
  {
    StepTurns(s, a);
    StepOccupies(s, a, turn, id);
    hide Step;
    assert (id in s.bridge.cache.turns && s.bridge.cache.turns[id] == turn) <==> Occupies(s, turn, id);
    if id in s.bridge.cache.turns {
      assert Occupies(s, s.bridge.cache.turns[id], id);
    }
    if a.CommandEnds? || a.Releases? {
      assert Occupies(s, a.turn, s.holds[a.turn].id);
    }
  }

  lemma {:induction false} StepBusyIsHeld(s: System, a: Action)
    requires BusyIsHeld(s) && Enabled(s, a)
    ensures BusyIsHeld(Step(s, a))
  {
    forall id, turn: nat
      ensures (id in Step(s, a).bridge.cache.turns && Step(s, a).bridge.cache.turns[id] == turn) <==> Occupies(Step(s, a), turn, id)
    {
      StepBusyPair(s, a, id, turn);
    }
  }

  lemma {:induction false} SetKeepsTurns(c: Cache, id: SessionId, sess: StoredSession)
    ensures c.Set(id, sess).turns == c.turns
  {
  }

  /** On every run a session has a turn exactly while a registered handler of it, agent turn or model command, has not ended. */
  lemma {:induction false} BusyIff(document: Document, actions: seq<Action>, id: SessionId)
    requires Exec(Start(document), actions).Some?
    ensures var s := Exec(Start(document), actions).value;
      id in s.bridge.cache.turns <==> exists turn :: Occupies(s, turn, id)
  {
    hide Exec;
    RunBusyIsHeld(Start(document), actions);
    var s := Exec(Start(document), actions).value;
    if id in s.bridge.cache.turns {
      assert Occupies(s, s.bridge.cache.turns[id], id);
    }
  }

  lemma {:induction false} RunBusyIsHeld(s: System, actions: seq<Action>)
    requires BusyIsHeld(s) && Exec(s, actions).Some?
    ensures BusyIsHeld(Exec(s, actions).value)
    decreases |actions|
  {
    if actions != [] {
      hide BusyIsHeld, Step, Enabled;
      StepBusyIsHeld(s, actions[0]);
      RunBusyIsHeld(Step(s, actions[0]), actions[1..]);
    }
  }

  // ----- the read loop goes on -----

  /** The handler the read loop is in the middle of is one that can take its next step. */
  ghost predicate LoopSound(s: System) {
    s.loop.Some? ==>
      s.loop.value in s.holds && s.holds[s.loop.value].phase in {Choosing, Held, Running, Recorded}
  }

  lemma {:induction false} RunLoopSound(s: System, actions: seq<Action>)
    requires LoopSound(s) && Exec(s, actions).Some?
    ensures LoopSound(Exec(s, actions).value)
    decreases |actions|
  {
    if actions != [] {
      StepLoopSound(s, actions[0]);
      hide LoopSound, Step, Enabled;
      RunLoopSound(Step(s, actions[0]), actions[1..]);
    }
  }

  lemma {:induction false} StepLoopSound(s: System, a: Action)
    requires LoopSound(s) && Enabled(s, a)
    ensures LoopSound(Step(s, a))
  {
    hide Act, Bridge.Resolve;
  }

  /** The steps by which a handler of the read loop can end without a write. */
  function WayOut(s: System): seq<Action>
    requires s.loop.Some? && s.loop.value in s.holds
  {
    var turn := s.loop.value;
    match s.holds[turn].phase
    case Choosing => [OptionFails(turn)] + []
    case Held =>
      if s.holds[turn].id in s.bridge.cache.turns then [Registers(turn)] + []
      else [Registers(turn)] + ([CommandEnds(turn)] + [])
    case _ => [CommandEnds(turn)] + []
  }

  /** On every run the read loop can finish what it is doing, and then is free and holds nothing of it. */
  lemma {:induction false} ReadLoopGoesOn(document: Document, actions: seq<Action>)
    requires Exec(Start(document), actions).Some? && Exec(Start(document), actions).value.loop.Some?
    ensures var s := Exec(Start(document), actions).value;
      && s.loop.value in s.holds
      && Exec(s, WayOut(s)).Some?
      && Exec(s, WayOut(s)).value.loop.None? && s.loop.value !in Exec(s, WayOut(s)).value.holds
  {
    RunLoopSound(Start(document), actions);
    var s := Exec(Start(document), actions).value;
    var turn := s.loop.value;
    hide Exec, Act;
    match s.holds[turn].phase {
      case Choosing => ExecStep(s, OptionFails(turn), []);
      case Held =>
        ExecStep(s, Registers(turn), []);
        if s.holds[turn].id !in s.bridge.cache.turns {
          ExecStep(s, Registers(turn), [CommandEnds(turn)] + []);
          ExecStep(Step(s, Registers(turn)), CommandEnds(turn), []);
        }
      case Running => ExecStep(s, CommandEnds(turn), []);
      case Recorded => ExecStep(s, CommandEnds(turn), []);
      case Spawned =>
    }
  }

  /** Writing an option is such an end too, and so is handing a turn to its goroutine, which keeps its hold. */
  lemma {:induction false} WritesFreeTheLoop(s: System, turn: nat, model: string)
    ensures Enabled(s, OptionWrites(turn, model)) ==>
              Step(s, OptionWrites(turn, model)).loop.None? && turn !in Step(s, OptionWrites(turn, model)).holds
    ensures Enabled(s, Spawns(turn)) ==>
              Step(s, Spawns(turn)).loop.None? && InPhase(Step(s, Spawns(turn)), turn, Spawned)
  {
    hide Act;
  }
}
