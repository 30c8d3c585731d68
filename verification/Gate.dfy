/**
 Serve mode's turn gate: one conversation, one prompt turn in flight, however many connections there are;
 and the ways a cancel reaches the turn.
 */
module Gate {
  import opened Common

  type Conn = nat

  /** closes counts how often the turn's cancel channel was closed; a second close would be a panic. */
  datatype Turn = Turn(owner: Conn, running: bool, answered: bool, closes: nat)

  datatype Backend = Backend(turnsInFlight: int, active: Option<nat>, turns: seq<Turn>) {
    function Begin(owner: Conn): Backend {
      if turnsInFlight > 0 then this
      else Backend(turnsInFlight + 1, Some(|turns|), turns + [Turn(owner, true, false, 0)])
    }

    function End(k: nat): Backend
      requires k < |turns|
    {
      Backend(turnsInFlight - 1, if active == Some(k) then None else active, turns[k := turns[k].(running := false)])
    }

    /** cancelOnce.Do(close). */
    function CloseOnce(k: nat): Backend
      requires k < |turns|
    {
      if turns[k].closes > 0 then this else this.(turns := turns[k := turns[k].(closes := turns[k].closes + 1)])
    }

    predicate Owns(owner: Conn) {
      active.Some? && active.value < |turns| && turns[active.value].owner == owner
    }
  }

  class TurnGate {
    var turnsInFlight: int
    var active: Option<nat>
    var turns: seq<Turn>

    constructor ()
      ensures Value() == Backend(0, None, [])
    {
      turnsInFlight, active, turns := 0, None, [];
    }

    function Value(): Backend
      reads this
    {
      Backend(turnsInFlight, active, turns)
    }

    method BeginTurn(owner: Conn) returns (turn: Option<nat>)
      modifies this
      ensures Value() == old(Value()).Begin(owner)
      ensures turn == if old(turnsInFlight) > 0 then None else Some(|old(turns)|)
    {
      if turnsInFlight > 0 {
        return None;
      }
      turnsInFlight := turnsInFlight + 1;
      turns := turns + [Turn(owner, true, false, 0)];
      active := Some(|turns| - 1);
      return active;
    }

    method EndTurn(k: nat)
      requires k < |turns|
      modifies this
      ensures Value() == old(Value()).End(k)
    {
      turns := turns[k := turns[k].(running := false)];
      if active == Some(k) {
        active := None;
      }
      turnsInFlight := turnsInFlight - 1;
    }

    /** CancelInFlight: read the active turn under the lock, then close its channel outside it. */
    method CancelInFlight() returns (found: bool)
      requires active.Some? ==> active.value < |turns|
      modifies this`turns
      ensures found <==> active.Some?
      ensures Value() == if active.Some? then old(Value()).CloseOnce(active.value) else old(Value())
    {
      if active.None? {
        return false;
      }
      var k := active.value;
      if turns[k].closes == 0 {
        turns := turns[k := turns[k].(closes := 1)];
      }
      return true;
    }
  }

  // ----- runs over many connections -----

  /** A cancel on its way: after the owner check of a closing connection, or holding the turn it will cancel. */
  datatype Cancel = Checked(owner: Conn) | Holding(closer: Option<Conn>, turn: nat) | Finished

  datatype System = System(backend: Backend, cancels: seq<Cancel>)

  const START := System(Backend(0, None, []), [])

  datatype Action =
    | Prompt(conn: Conn)        // admitted or refused
    | Finish(turn: nat)         // the handler releases the gate
    | AnswerPrompt(turn: nat)   // and then answers
    | CancelArrives             // session/cancel, from any connection: reads the active turn
    | ConnectionCloses(conn: Conn) // passes the check that the active turn is its own
    | CloserCancels(c: nat)     // then reads the active turn again
    | CancelFires(c: nat)

  predicate Enabled(s: System, a: Action) {
    match a
    case Prompt(_) => true
    case Finish(k) => k < |s.backend.turns| && s.backend.turns[k].running
    case AnswerPrompt(k) => k < |s.backend.turns| && !s.backend.turns[k].running && !s.backend.turns[k].answered
    case CancelArrives => true
    case ConnectionCloses(conn) => s.backend.Owns(conn)
    case CloserCancels(c) => c < |s.cancels| && s.cancels[c].Checked?
    case CancelFires(c) => c < |s.cancels| && s.cancels[c].Holding? && s.cancels[c].turn < |s.backend.turns|
  }

  function Hold(closer: Option<Conn>, active: Option<nat>): Cancel {
    if active.Some? then Holding(closer, active.value) else Finished
  }

  function Step(s: System, a: Action): System
    requires Enabled(s, a)
  {
    match a
    case Prompt(conn) => s.(backend := s.backend.Begin(conn))
    case Finish(k) => s.(backend := s.backend.End(k))
    case AnswerPrompt(k) =>
      s.(backend := s.backend.(turns := s.backend.turns[k := s.backend.turns[k].(answered := true)]))
    case CancelArrives => s.(cancels := s.cancels + [Hold(None, s.backend.active)])
    case ConnectionCloses(conn) => s.(cancels := s.cancels + [Checked(conn)])
    case CloserCancels(c) => s.(cancels := s.cancels[c := Hold(Some(s.cancels[c].owner), s.backend.active)])
    case CancelFires(c) => System(s.backend.CloseOnce(s.cancels[c].turn), s.cancels[c := Finished])
  }

  function Exec(s: System, actions: seq<Action>): Option<System>
    decreases |actions|
  {
    if actions == [] then Some(s)
    else if Enabled(s, actions[0]) then Exec(Step(s, actions[0]), actions[1..])
    else None
  }

  /** The counter is 0 or 1, it is 1 exactly when a turn is active, and the active turn is the one running. */
  ghost predicate Gated(b: Backend) {
    && b.turnsInFlight == (if b.active.Some? then 1 else 0)
    && (b.active.Some? ==> b.active.value < |b.turns|)
    && (forall k :: 0 <= k < |b.turns| ==> (b.turns[k].running <==> b.active == Some(k)))
    && (forall k :: 0 <= k < |b.turns| ==> b.turns[k].closes <= 1)
    && (forall k :: 0 <= k < |b.turns| && b.turns[k].answered ==> !b.turns[k].running)
  }

  ghost predicate Sound(s: System) {
    Gated(s.backend) && forall c :: 0 <= c < |s.cancels| && s.cancels[c].Holding? ==> s.cancels[c].turn < |s.backend.turns|
  }

  lemma StepSound(s: System, a: Action)
    requires Sound(s) && Enabled(s, a)
    ensures Sound(Step(s, a))
  {
  }

  lemma {:induction false} RunSound(s: System, actions: seq<Action>)
    requires Sound(s) && Exec(s, actions).Some?
    ensures Sound(Exec(s, actions).value)
    decreases |actions|
  {
    if actions != [] {
      hide Sound, Step, Enabled;
      StepSound(s, actions[0]);
      RunSound(Step(s, actions[0]), actions[1..]);
    }
  }

  /**
   Across any number of connections the counter is 0 or 1 and counts the running turns: it is 1 exactly when a turn is
   active, and that one is the only one running. No cancel channel is closed twice by any path, and no running turn
   has been answered.
   */
  lemma GateHolds(actions: seq<Action>)
    requires Exec(START, actions).Some?
    ensures var b := Exec(START, actions).value.backend;
      && b.turnsInFlight in {0, 1}
      && (b.turnsInFlight == 1 <==> b.active.Some?)
      && (forall k :: 0 <= k < |b.turns| ==> (b.turns[k].running <==> b.active == Some(k)))
      && (forall k :: 0 <= k < |b.turns| ==> b.turns[k].closes <= 1 && !(b.turns[k].running && b.turns[k].answered))
  {
    hide Exec;
    RunSound(START, actions);
  }

  /**
   A prompt is admitted exactly when no turn runs, and an answered turn does not run: a client that prompts again on
   seeing its answer is refused only for a turn admitted since.
   */
  lemma AdmittedIff(actions: seq<Action>, conn: Conn)
    requires Exec(START, actions).Some?
    ensures var b := Exec(START, actions).value.backend;
      && (|b.Begin(conn).turns| == |b.turns| + 1 <==> forall k :: 0 <= k < |b.turns| ==> !b.turns[k].running)
      && (forall j, k :: 0 <= j < |b.turns| && 0 <= k < |b.turns| && b.turns[j].running && b.turns[k].running ==> j == k)
      && forall k :: 0 <= k < |b.turns| && b.turns[k].answered ==> b.active != Some(k)
  {
    hide Exec;
    RunSound(START, actions);
    var b := Exec(START, actions).value.backend;
    if b.active.Some? {
      assert b.turns[b.active.value].running;
    }
  }

  /** Who holds the gate after these actions, read off the actions alone: the first to ask after each release. */
  function Holder(owner: Option<Conn>, actions: seq<Action>): Option<Conn>
    decreases |actions|
  {
    if actions == [] then owner
    else
      match actions[0]
      case Prompt(conn) => Holder(if owner.None? then Some(conn) else owner, actions[1..])
      case Finish(_) => Holder(None, actions[1..])
      case _ => Holder(owner, actions[1..])
  }

  ghost predicate HeldBy(b: Backend, owner: Option<Conn>) {
    (b.active.Some? <==> owner.Some?) && (owner.Some? ==> b.Owns(owner.value))
  }

  lemma StepHolder(s: System, a: Action, owner: Option<Conn>)
    requires Sound(s) && HeldBy(s.backend, owner) && Enabled(s, a)
    ensures HeldBy(Step(s, a).backend, Holder(owner, [a]))
  {
    assert [a][1..] == [];
  }

  lemma {:induction false} RunHolder(s: System, actions: seq<Action>, owner: Option<Conn>)
    requires Sound(s) && HeldBy(s.backend, owner) && Exec(s, actions).Some?
    ensures HeldBy(Exec(s, actions).value.backend, Holder(owner, actions))
    decreases |actions|
  {
    if actions != [] {
      var a, rest := actions[0], actions[1..];
      assert [a][1..] == [];
      assert Holder(owner, actions) == Holder(Holder(owner, [a]), rest);
      hide Sound, HeldBy, Step, Enabled, Holder;
      StepHolder(s, a, owner);
      StepSound(s, a);
      RunHolder(Step(s, a), rest, Holder(owner, [a]));
    }
  }

  lemma StepActive(s: System, a: Action, k: nat)
    requires Sound(s) && Enabled(s, a) && k < |s.backend.turns|
    ensures var next := Step(s, a);
      && |s.backend.turns| <= |next.backend.turns|
      && (s.backend.active == Some(k) ==> (next.backend.active == Some(k) <==> a != Finish(k)))
      && (s.backend.active != Some(k) ==> next.backend.active != Some(k) && a != Finish(k))
  {
  }

  /** A turn stays active until it finishes and is never active again. */
  lemma {:induction false} RunActive(s: System, actions: seq<Action>, k: nat)
    requires Sound(s) && Exec(s, actions).Some? && k < |s.backend.turns|
    ensures s.backend.active == Some(k) ==>
              (Exec(s, actions).value.backend.active == Some(k) <==> Finish(k) !in actions)
    ensures s.backend.active != Some(k) ==> Exec(s, actions).value.backend.active != Some(k)
    decreases |actions|
  {
    if actions != [] {
      hide Sound, Step, Enabled;
      StepActive(s, actions[0], k);
      StepSound(s, actions[0]);
      RunActive(Step(s, actions[0]), actions[1..], k);
      assert actions == [actions[0]] + actions[1..];
    }
  }

  /** No turn but the first holder's is older than the check: whatever is active later was that one or came since. */
  lemma {:induction false} LaterTurns(s: System, actions: seq<Action>, k: nat, n: nat)
    requires Sound(s) && Exec(s, actions).Some? && k < n <= |s.backend.turns|
    requires s.backend.active.Some? ==> s.backend.active == Some(k) || s.backend.active.value >= n
    ensures var later := Exec(s, actions).value.backend.active;
      later.Some? ==> later == Some(k) || later.value >= n
    decreases |actions|
  {
    if actions != [] {
      hide Sound;
      StepActive(s, actions[0], k);
      StepSound(s, actions[0]);
      LaterTurns(Step(s, actions[0]), actions[1..], k, n);
    }
  }

  /** Its second read takes hold of the turn then active, which the closer will cancel. */
  lemma CloserCancelsActive(s: System, c: nat)
    requires Enabled(s, CloserCancels(c)) && Sound(s) && s.backend.active.Some?
    ensures var held := Step(s, CloserCancels(c));
      && Enabled(held, CancelFires(c))
      && Step(held, CancelFires(c)).backend.turns[s.backend.active.value].closes == 1
  {
  }

  /**
   What a closing connection cancels, after passing its check in any reachable state and whatever happens before it
   reads again: the very turn it checked exactly if that turn has not finished in between, and otherwise one admitted
   since. That one belongs to another connection exactly if the gate's last holder, by the order of prompts and
   releases in between, is another.
   */
  lemma CloserHitsOwnTurnIff(before: seq<Action>, conn: Conn, mid: seq<Action>)
    requires Exec(START, before).Some? && Exec(START, before).value.backend.Owns(conn)
    requires var checked := Step(Exec(START, before).value, ConnectionCloses(conn));
      Exec(checked, mid).Some? && Exec(checked, mid).value.backend.active.Some?
    ensures var s := Exec(START, before).value;
      var b := Exec(Step(s, ConnectionCloses(conn)), mid).value.backend;
      var own, hit := s.backend.active.value, b.active.value;
      && (hit == own <==> Finish(own) !in mid)
      && (hit != own ==> hit >= |s.backend.turns|)
      && hit < |b.turns|
      && (b.turns[hit].owner != conn <==> Holder(Some(conn), mid) != Some(conn))
    ensures var s := Exec(START, before).value;
      var end, c := Exec(Step(s, ConnectionCloses(conn)), mid).value, |s.cancels|;
      Enabled(end, CloserCancels(c)) ==>
        && Enabled(Step(end, CloserCancels(c)), CancelFires(c))
        && Step(Step(end, CloserCancels(c)), CancelFires(c)).backend.turns[end.backend.active.value].closes == 1
  {
    hide Exec, Holder;
    RunSound(START, before);
    var s := Exec(START, before).value;
    StepSound(s, ConnectionCloses(conn));
    var checked, own := Step(s, ConnectionCloses(conn)), s.backend.active.value;
    RunSound(checked, mid);
    RunActive(checked, mid, own);
    LaterTurns(checked, mid, own, |s.backend.turns|);
    RunHolder(checked, mid, Some(conn));
    var end := Exec(checked, mid).value;
    if Enabled(end, CloserCancels(|s.cancels|)) {
      CloserCancelsActive(end, |s.cancels|);
    }
  }

  /** Between its check and its cancel the turn may change hands, and then another connection's turn is cancelled. */
  lemma CloserCanCancelAnother()
    ensures var actions := [Prompt(1), ConnectionCloses(1), Finish(0), Prompt(2), CloserCancels(0), CancelFires(0)];
      && Exec(START, actions).Some?
      && Exec(START, actions).value.backend.turns == [Turn(1, false, false, 0), Turn(2, true, false, 1)]
  {
    var rest := [Prompt(1), ConnectionCloses(1), Finish(0), Prompt(2), CloserCancels(0), CancelFires(0)];
    var s1 := Step(START, Prompt(1));
    var s2 := Step(s1, ConnectionCloses(1));
    var s3 := Step(s2, Finish(0));
    var s4 := Step(s3, Prompt(2));
    assert s4 == System(Backend(1, Some(1), [Turn(1, false, false, 0), Turn(2, true, false, 0)]), [Checked(1)]);
    var s5 := Step(s4, CloserCancels(0));
    var s6 := Step(s5, CancelFires(0));
    hide Step, Enabled;
    ExecStep(s5, CancelFires(0), []);
    ExecStep(s4, CloserCancels(0), rest[5..]);
    ExecStep(s3, Prompt(2), rest[4..]);
    ExecStep(s2, Finish(0), rest[3..]);
    ExecStep(s1, ConnectionCloses(1), rest[2..]);
    ExecStep(START, Prompt(1), rest[1..]);
  }

  lemma ExecStep(s: System, a: Action, rest: seq<Action>)
    requires Enabled(s, a)
    ensures Exec(s, [a] + rest) == Exec(Step(s, a), rest)
  {
    assert ([a] + rest)[1..] == rest;
  }

  /** A cancel that fires on this turn. */
  predicate Hits(s: System, a: Action, k: nat) {
    a.CancelFires? && a.c < |s.cancels| && s.cancels[a.c].Holding? && s.cancels[a.c].turn == k
  }

  predicate Hit(s: System, actions: seq<Action>, k: nat)
    decreases |actions|
  {
    actions != [] && Enabled(s, actions[0]) && (Hits(s, actions[0], k) || Hit(Step(s, actions[0]), actions[1..], k))
  }

  ghost predicate Closed(s: System, k: nat) {
    k < |s.backend.turns| && s.backend.turns[k].closes == 1
  }

  lemma {:induction false} StepCloses(s: System, a: Action, k: nat)
    requires Sound(s) && Enabled(s, a)
    ensures Closed(Step(s, a), k) <==> Closed(s, k) || Hits(s, a, k)
  {
  }

  /** A turn's cancel channel is closed exactly if a cancel that holds the turn has fired. */
  lemma {:induction false} ClosedIff(s: System, actions: seq<Action>, k: nat)
    requires Sound(s) && Exec(s, actions).Some?
    ensures Closed(Exec(s, actions).value, k) <==> Closed(s, k) || Hit(s, actions, k)
    decreases |actions|
  {
    if actions != [] {
      hide Sound, Step, Enabled, Closed, Hits;
      StepCloses(s, actions[0], k);
      StepSound(s, actions[0]);
      ClosedIff(Step(s, actions[0]), actions[1..], k);
    }
  }

  lemma {:induction false} CancelWaits(s: System, actions: seq<Action>, c: nat, k: nat)
    requires Sound(s) && Exec(s, actions).Some? && c < |s.cancels| && s.cancels[c] == Holding(None, k)
    ensures var end := Exec(s, actions).value;
      if CancelFires(c) in actions then Closed(end, k) else c < |end.cancels| && end.cancels[c] == Holding(None, k)
    decreases |actions|
  {
    if actions != [] {
      var a, rest := actions[0], actions[1..];
      assert actions == [a] + rest;
      StepSound(s, a);
      if a == CancelFires(c) {
        ClosedIff(Step(s, a), rest, k);
      } else {
        CancelWaits(Step(s, a), rest, c, k);
      }
    }
  }

  /**
   A cancel that arrives while a turn is active, from whichever connection, closes that turn's channel when it fires,
   however late, and it can always fire.
   */
  lemma {:induction false} CancelReachesTurn(before: seq<Action>, mid: seq<Action>)
    requires Exec(START, before).Some? && Exec(START, before).value.backend.active.Some?
    requires Exec(Step(Exec(START, before).value, CancelArrives), mid).Some?
    ensures var s := Exec(START, before).value;
      var end, k, c := Exec(Step(s, CancelArrives), mid).value, s.backend.active.value, |s.cancels|;
      if CancelFires(c) in mid then Closed(end, k) else Enabled(end, CancelFires(c)) && Hits(end, CancelFires(c), k)
  {
    hide Exec;
    RunSound(START, before);
    var s := Exec(START, before).value;
    StepSound(s, CancelArrives);
    CancelWaits(Step(s, CancelArrives), mid, |s.cancels|, s.backend.active.value);
    RunSound(Step(s, CancelArrives), mid);
  }
}
