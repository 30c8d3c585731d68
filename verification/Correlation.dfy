/**
 The ACP client's request table: any number of concurrent callers, one reader of harness output.
 Request ids follow section 4 and responses section 5 of the JSON-RPC 2.0 specification.
 */
module Correlation {
  import opened Common

  datatype Response = Response(id: int, body: string)

  /** A response channel of capacity one; sends counts every value ever put in it. */
  datatype Chan = Chan(queue: seq<Response>, closed: bool, sends: nat)

  const FRESH_CHAN := Chan([], false, 0)

  // ----- the table under its lock -----

  datatype Table = Table(pending: set<int>, chans: map<int, Chan>) {
    function Open(id: int): Table {
      Table(pending + {id}, if id in chans then chans else chans[id := FRESH_CHAN])
    }

    function Drop(id: int): Table {
      this.(pending := pending - {id})
    }

    function CloseAll(): Table {
      Table({}, map id | id in chans :: if id in pending then chans[id].(closed := true) else chans[id])
    }

    /** Go panics when a closed channel is closed again. */
    predicate ClosesTwice() {
      exists id :: id in pending && id in chans && chans[id].closed
    }
  }

  class PendingTable {
    var pending: set<int>
    var chans: map<int, Chan>

    constructor ()
      ensures Value() == Table({}, map[])
    {
      pending, chans := {}, map[];
    }

    function Value(): Table
      reads this
    {
      Table(pending, chans)
    }

    /** sendRequest: make the channel and enter it. */
    method Register(id: int)
      requires id !in chans
      modifies this
      ensures Value() == old(Value()).Open(id)
      ensures chans[id] == FRESH_CHAN
    {
      chans := chans[id := FRESH_CHAN];
      pending := pending + {id};
    }

    /** sendRequest: withdraw after a failed write or a cancelled context. */
    method Forget(id: int)
      modifies this`pending
      ensures Value() == old(Value()).Drop(id)
    {
      pending := pending - {id};
    }

    /** handleResponse: look the id up and take it out. */
    method Take(id: int) returns (ok: bool)
      modifies this`pending
      ensures ok <==> id in old(pending)
      ensures Value() == old(Value()).Drop(id)
    {
      ok := id in pending;
      if ok {
        pending := pending - {id};
      }
    }

    /** readLoop at the end of input: close every pending channel and start an empty table. */
    method CloseAll()
      requires pending <= chans.Keys
      modifies this
      ensures Value() == old(Value()).CloseAll()
    {
      var left := pending;
      while left != {}
        invariant left <= pending == old(pending) && chans.Keys == old(chans.Keys)
        invariant forall id :: id in chans ==>
                    chans[id] == if id in old(pending) - left then old(chans)[id].(closed := true) else old(chans)[id]
        decreases left
      {
        var id := Pick(left);
        chans := chans[id := chans[id].(closed := true)];
        left := left - {id};
      }
      pending := {};
      ghost var closed := old(Value()).CloseAll().chans;
      assert left == {} && closed.Keys == chans.Keys;
      assert forall id | id in old(pending) :: id in old(pending) - left;
      assert forall id | id in chans :: chans[id] == closed[id];
    }
  }

  // ----- callers and reader -----

  datatype Outcome = Answered(response: Response) | ConnectionLost | GaveUp

  datatype Phase = Counted | Registered | Awaiting | Withdrawing | Returned(outcome: Outcome)

  datatype ReaderPhase = Scanning | Sending(response: Response) | InputOver | TableClosed | Stopped

  /** panicked: a send on a closed channel, a send with no room, or a second close has happened. */
  datatype System = System(
    lastId: nat, table: Table, calls: map<int, Phase>, reader: ReaderPhase, done: bool, received: seq<Response>, panicked: bool)

  const START := System(0, Table({}, map[]), map[], Scanning, false, [], false)

  datatype Action =
    | Begin
    | Enter(id: int)
    | WriteSucceeds(id: int)
    | WriteFails(id: int)
    | ContextEnds(id: int)
    | Withdraw(id: int)
    | TakeResponse(id: int)
    | TakeClosed(id: int)
    | SeeDone(id: int)
    | Lookup(response: Response)
    | Send
    | InputEnds
    | CloseTable
    | CloseDone

  predicate In(s: System, id: int, phase: Phase) {
    id in s.calls && s.calls[id] == phase
  }

  predicate Enabled(s: System, a: Action) {
    match a
    case Begin => true
    case Enter(id) => In(s, id, Counted)
    case WriteSucceeds(id) => In(s, id, Registered)
    case WriteFails(id) => In(s, id, Registered)
    case ContextEnds(id) => In(s, id, Awaiting)
    case Withdraw(id) => In(s, id, Withdrawing)
    case TakeResponse(id) => In(s, id, Awaiting) && id in s.table.chans && s.table.chans[id].queue != []
    case TakeClosed(id) => In(s, id, Awaiting) && id in s.table.chans && s.table.chans[id].queue == [] && s.table.chans[id].closed
    case SeeDone(id) => In(s, id, Awaiting) && s.done
    case Lookup(_) => s.reader.Scanning?
    case Send => s.reader.Sending?
    case InputEnds => s.reader.Scanning?
    case CloseTable => s.reader.InputOver?
    case CloseDone => s.reader.TableClosed?
  }

  function Move(s: System, id: int, phase: Phase): System {
    s.(calls := s.calls[id := phase])
  }

  function Put(t: Table, r: Response): Table {
    if r.id in t.chans
    then t.(chans := t.chans[r.id := t.chans[r.id].(queue := t.chans[r.id].queue + [r], sends := t.chans[r.id].sends + 1)])
    else t
  }

  function Step(s: System, a: Action): System
    requires Enabled(s, a)
  {
    match a
    case Begin => Move(s, s.lastId + 1, Counted).(lastId := s.lastId + 1)
    case Enter(id) => Move(s, id, Registered).(table := s.table.Open(id))
    case WriteSucceeds(id) => Move(s, id, Awaiting)
    case WriteFails(id) => Move(s, id, Withdrawing)
    case ContextEnds(id) => Move(s, id, Withdrawing)
    case Withdraw(id) => Move(s, id, Returned(GaveUp)).(table := s.table.Drop(id))
    case TakeResponse(id) =>
      var chan := s.table.chans[id];
      Move(s, id, Returned(Answered(chan.queue[0]))).(
        table := s.table.(chans := s.table.chans[id := chan.(queue := chan.queue[1..])]))
    case TakeClosed(id) => Move(s, id, Returned(ConnectionLost))
    case SeeDone(id) => Move(s, id, Returned(ConnectionLost))
    case Lookup(r) =>
      if r.id in s.table.pending
      then s.(table := s.table.Drop(r.id), reader := Sending(r), received := s.received + [r])
      else s.(received := s.received + [r])
    case Send =>
      var r := s.reader.response;
      var fits := r.id in s.table.chans && !s.table.chans[r.id].closed && |s.table.chans[r.id].queue| < 1;
      s.(table := Put(s.table, r), reader := Scanning, panicked := s.panicked || !fits)
    case InputEnds => s.(reader := InputOver)
    case CloseTable =>
      s.(table := s.table.CloseAll(), reader := TableClosed, panicked := s.panicked || s.table.ClosesTwice())
    case CloseDone => s.(done := true, reader := Stopped, panicked := s.panicked || s.done)
  }

  function Exec(s: System, actions: seq<Action>): Option<System>
    decreases |actions|
  {
    if actions == [] then Some(s)
    else if Enabled(s, actions[0]) then Exec(Step(s, actions[0]), actions[1..])
    else None
  }

  // ----- the invariant -----

  /** An entry still in the table has a channel nobody has touched. */
  ghost predicate PendingUntouched(s: System) {
    forall id :: id in s.table.pending ==> id in s.table.chans && s.table.chans[id] == FRESH_CHAN
  }

  ghost predicate ChansSound(s: System) {
    forall id :: id in s.table.chans ==>
      var chan := s.table.chans[id];
      && chan.sends <= 1 && |chan.queue| <= chan.sends
      && (chan.closed ==> chan.sends == 0)
      && forall r :: r in chan.queue ==> r.id == id && r in s.received
  }

  ghost predicate CallsSound(s: System) {
    forall id :: CallSound(s, id)
  }

  /** Ids are fresh, a call has its channel from its entry on, and an answer is a received response to the call's id. */
  ghost predicate CallSound(s: System, id: int) {
    && (id in s.calls ==> 1 <= id <= s.lastId)
    && (id in s.table.chans <==> id in s.calls && s.calls[id] != Counted)
    && (id in s.calls && s.calls[id].Returned? && s.calls[id].outcome.Answered? ==>
          s.calls[id].outcome.response.id == id && s.calls[id].outcome.response in s.received)
  }

  ghost predicate ReaderSound(s: System) {
    && (s.reader.Sending? ==>
          var r := s.reader.response;
          r in s.received && r.id !in s.table.pending && r.id in s.table.chans && s.table.chans[r.id] == FRESH_CHAN)
    && (s.done <==> s.reader.Stopped?)
  }

  ghost predicate Sound(s: System) {
    !s.panicked && PendingUntouched(s) && ChansSound(s) && CallsSound(s) && ReaderSound(s)
  }

  lemma StepPending(s: System, a: Action)
    requires Sound(s) && Enabled(s, a)
    ensures PendingUntouched(Step(s, a))
  {
    assert a.Enter? ==> CallSound(s, a.id);
  }

  lemma StepChans(s: System, a: Action)
    requires Sound(s) && Enabled(s, a)
    ensures ChansSound(Step(s, a))
  {
  }

  lemma StepCalls(s: System, a: Action)
    requires Sound(s) && Enabled(s, a)
    ensures CallsSound(Step(s, a))
  {
    forall id
      ensures CallSound(Step(s, a), id)
    {
      assert CallSound(s, id);
    }
  }

  lemma StepReader(s: System, a: Action)
    requires Sound(s) && Enabled(s, a)
    ensures ReaderSound(Step(s, a)) && !Step(s, a).panicked
  {
    assert a.Enter? ==> CallSound(s, a.id);
  }

  lemma StepSound(s: System, a: Action)
    requires Sound(s) && Enabled(s, a)
    ensures Sound(Step(s, a))
  {
    hide Step, Enabled, PendingUntouched, ChansSound, CallsSound, ReaderSound;
    StepPending(s, a);
    StepChans(s, a);
    StepCalls(s, a);
    StepReader(s, a);
  }

  /**
   Over any run with any number of requests: no channel is closed twice, sent on after close, or sent on without room
   (so the reader never blocks); each channel gets at most one value, and only a response to its own id.
   */
  lemma {:induction false} Correlates(s: System, actions: seq<Action>)
    requires Sound(s) && Exec(s, actions).Some?
    ensures Sound(Exec(s, actions).value)
    decreases |actions|
  {
    if actions != [] {
      hide Sound, Step, Enabled;
      StepSound(s, actions[0]);
      Correlates(Step(s, actions[0]), actions[1..]);
    }
  }

  lemma StartSound()
    ensures Sound(START)
  {
  }

  /** A caller that is answered gets a response the harness sent for that caller's id. */
  lemma AnswersMatch(actions: seq<Action>, id: int)
    requires Exec(START, actions).Some?
    ensures var s := Exec(START, actions).value;
            id in s.calls && s.calls[id].Returned? && s.calls[id].outcome.Answered? ==>
            s.calls[id].outcome.response.id == id && s.calls[id].outcome.response in s.received
  {
    hide Exec;
    StartSound();
    Correlates(START, actions);
    assert CallSound(Exec(START, actions).value, id);
  }

  /** What the reader still does once input is over. */
  function Remaining(reader: ReaderPhase): seq<Action> {
    match reader
    case InputOver => [CloseTable, CloseDone]
    case TableClosed => [CloseDone]
    case _ => []
  }

  /**
   Once input is over, wherever the reader is in shutting down, its remaining steps let every waiting caller return,
   also one that registered after the table was emptied.
   */
  lemma WaitersReturn(actions: seq<Action>, id: int)
    requires Exec(START, actions).Some?
    requires var s := Exec(START, actions).value;
      (s.reader.InputOver? || s.reader.TableClosed? || s.reader.Stopped?) && In(s, id, Awaiting)
    ensures var s := Exec(START, actions).value;
      && Exec(s, Remaining(s.reader) + [SeeDone(id)]).Some?
      && Sound(Exec(s, Remaining(s.reader) + [SeeDone(id)]).value)
      && In(Exec(s, Remaining(s.reader) + [SeeDone(id)]).value, id, Returned(ConnectionLost))
  {
    hide Exec;
    StartSound();
    Correlates(START, actions);
    var s := Exec(START, actions).value;
    assert s.done <==> s.reader.Stopped?;
    hide Sound;
    match s.reader {
      case InputOver =>
        assert [CloseTable, CloseDone] + [SeeDone(id)] == [CloseTable] + [CloseDone, SeeDone(id)];
        ExecStep(s, CloseTable, [CloseDone, SeeDone(id)]);
        LastSteps(Step(s, CloseTable), id);
      case TableClosed =>
        assert [CloseDone] + [SeeDone(id)] == [CloseDone, SeeDone(id)];
        LastSteps(s, id);
      case Scanning =>
      case Sending(_) =>
      case Stopped =>
        assert [] + [SeeDone(id)] == [SeeDone(id)] + [];
        ExecStep(s, SeeDone(id), []);
    }
    Correlates(s, Remaining(s.reader) + [SeeDone(id)]);
  }

  lemma LastSteps(s: System, id: int)
    requires s.reader.TableClosed? && In(s, id, Awaiting)
    ensures var s2 := Step(Step(s, CloseDone), SeeDone(id));
      Exec(s, [CloseDone, SeeDone(id)]) == Some(s2) && In(s2, id, Returned(ConnectionLost))
  {
    ExecStep(Step(s, CloseDone), SeeDone(id), []);
    ExecStep(s, CloseDone, [SeeDone(id)]);
  }

  /** Such a late caller exists: its entry stays in the emptied table. */
  lemma LateCaller()
    ensures var actions := [InputEnds, CloseTable, Begin, Enter(1), WriteSucceeds(1)];
      && Exec(START, actions).Some?
      && var s := Exec(START, actions).value;
         s.reader.TableClosed? && In(s, 1, Awaiting) && 1 in s.table.pending && !s.table.chans[1].closed
  {
    var all := [InputEnds, CloseTable, Begin, Enter(1), WriteSucceeds(1)];
    var s2 := LateStart();
    var s3 := Step(s2, Begin);
    var s4 := Step(s3, Enter(1));
    var s5 := Step(s4, WriteSucceeds(1));
    assert s5.reader.TableClosed? && In(s5, 1, Awaiting) && 1 in s5.table.pending && !s5.table.chans[1].closed;
    hide Step, Enabled, Exec;
    ExecStep(s4, WriteSucceeds(1), []);
    ExecStep(s3, Enter(1), all[4..]);
    ExecStep(s2, Begin, all[3..]);
    assert all[2..] == [Begin] + all[3..] && all[3..] == [Enter(1)] + all[4..] && all[4..] == [WriteSucceeds(1)] + [];
    assert [InputEnds] + ([CloseTable] + all[2..]) == all;
  }

  /** The table is emptied before anyone has asked for anything. */
  lemma LateStart() returns (s: System)
    ensures s == START.(reader := TableClosed)
    ensures forall rest {:trigger Exec(s, rest)} :: Exec(START, [InputEnds] + ([CloseTable] + rest)) == Exec(s, rest)
  {
    var s1 := Step(START, InputEnds);
    s := Step(s1, CloseTable);
    assert s.table.chans == map[];
    hide Step, Enabled, Exec;
    forall rest
      ensures Exec(START, [InputEnds] + ([CloseTable] + rest)) == Exec(s, rest)
    {
      ExecStep(s1, CloseTable, rest);
      ExecStep(START, InputEnds, [CloseTable] + rest);
    }
  }

  lemma ExecStep(s: System, a: Action, rest: seq<Action>)
    requires Enabled(s, a)
    ensures Exec(s, [a] + rest) == Exec(Step(s, a), rest)
    ensures Exec(s, []) == Some(s)
    ensures Exec(Step(s, a), []) == Some(Step(s, a))
  {
    assert ([a] + rest)[1..] == rest;
  }
}
