/**
 One prompt turn of serve mode: the select loop that races the agent's stream against cancellation, the client's
 disconnect and the force-cancel grace timer, and the mapping of stream events to updates.
 */
module PromptLoop {
  import opened Common

  datatype ToolCall = ToolCall(id: string, name: string, denied: bool, args: string)
  datatype ToolReport = ToolReport(id: string, name: string, status: string, head: string)
  datatype Usage = Usage(total: int, prompt: int, completion: int)

  /** One event of the turn's stream; a field left out is empty or None. */
  datatype Event = Event(warning: string, text: string, call: Option<ToolCall>, report: Option<ToolReport>, usage: Option<Usage>)

  datatype Status = Pending | Completed | ToolFailed

  datatype Update =
    | Chunk(text: string)
    | CallStarted(id: string, name: string, status: Status, input: string)
    | CallReported(id: string, name: string, status: Status, head: string)

  function MapToolStatus(status: string): Status {
    if status == "completed" then Completed
    else if status == "error" || status == "denied" then ToolFailed
    else Pending
  }

  /** The update an event becomes, if any: the first non-empty field decides, and warnings are only logged. */
  function Mapped(e: Event): Option<Update> {
    if e.warning != "" then None
    else if e.text != "" then Some(Chunk(e.text))
    else if e.call.Some? then
      var c := e.call.value;
      Some(CallStarted(c.id, c.name, if c.denied then ToolFailed else Pending, c.args))
    else if e.report.Some? then
      var r := e.report.value;
      Some(CallReported(r.id, r.name, MapToolStatus(r.status), r.head))
    else None
  }

  function Accounted(e: Event): Option<Usage> {
    if e.warning == "" && e.text == "" && e.call.None? && e.report.None? && e.usage.Some? &&
       (e.usage.value.total > 0 || e.usage.value.prompt > 0 || e.usage.value.completion > 0)
    then e.usage
    else None
  }

  function Updates(events: seq<Event>): seq<Update> {
    if events == [] then []
    else
      var last := Mapped(events[|events| - 1]);
      Updates(events[..|events| - 1]) + (if last.Some? then [last.value] else [])
  }

  function LastUsage(events: seq<Event>): Option<Usage> {
    if events == [] then None
    else
      var last := Accounted(events[|events| - 1]);
      if last.Some? then last else LastUsage(events[..|events| - 1])
  }

  /**
   A failure is shown for exactly the calls that were denied and the reports of an error or a denial, a completion for
   exactly the reports of one; and an event is never both an update and the turn's usage.
   */
  lemma StatusShown(e: Event)
    requires e.warning == "" && e.text == ""
    ensures var u := Mapped(e);
      && (u.Some? && u.value.status == ToolFailed <==>
            (e.call.Some? && e.call.value.denied) ||
            (e.call.None? && e.report.Some? && e.report.value.status in {"error", "denied"}))
      && (u.Some? && u.value.status == Completed <==>
            e.call.None? && e.report.Some? && e.report.value.status == "completed")
      && (Accounted(e).Some? ==> u.None?)
  {
    assert "completed" != "error" && "completed" != "denied" by {
      assert |"completed"| == 9 && |"error"| == 5 && |"denied"| == 6;
    }
  }

  /** What an update says of its event, field by field. */
  ghost predicate Tells(e: Event, u: Update) {
    match u
    case Chunk(text) => e.warning == "" && e.text == text != ""
    case CallStarted(id, name, status, input) =>
      && e.warning == "" && e.text == ""
      && exists denied :: e.call == Some(ToolCall(id, name, denied, input)) && status == if denied then ToolFailed else Pending
    case CallReported(id, name, status, head) =>
      && e.warning == "" && e.text == "" && e.call.None?
      && e.report.Some? && e.report.value.id == id && e.report.value.name == name && e.report.value.head == head
      && (status == Completed <==> e.report.value.status == "completed")
      && (status == ToolFailed <==> e.report.value.status in {"error", "denied"})
  }

  /** An event becomes the update that tells of it, and the turn's usage only if it holds nothing else and is not zero. */
  lemma EventMeansIff(e: Event, u: Update, usage: Usage)
    ensures Mapped(e) == Some(u) <==> Tells(e, u)
    ensures Accounted(e) == Some(usage) <==>
              && e == Event("", "", None, None, Some(usage))
              && (usage.total > 0 || usage.prompt > 0 || usage.completion > 0)
  {
    if e.call.Some? {
      assert e.call.value == ToolCall(e.call.value.id, e.call.value.name, e.call.value.denied, e.call.value.args);
    }
    StatusShown(Event("", "", e.call, e.report, e.usage));
    assert "completed" != "error" && "completed" != "denied" by {
      assert |"completed"| == 9 && |"error"| == 5 && |"denied"| == 6;
    }
  }

  /** The turn's usage is that of the last event that carries any. */
  lemma {:induction false} LastUsageIff(events: seq<Event>, u: Usage)
    ensures LastUsage(events) == Some(u) <==>
      exists k :: 0 <= k < |events| && Accounted(events[k]) == Some(u) &&
                  forall j :: k < j < |events| ==> Accounted(events[j]).None?
    ensures LastUsage(events).None? <==> forall k :: 0 <= k < |events| ==> Accounted(events[k]).None?
  {
    if events != [] {
      hide Accounted;
      var n := |events| - 1;
      var front := events[..n];
      LastUsageIff(front, u);
      if LastUsage(front) == Some(u) && Accounted(events[n]).None? {
        var k :| 0 <= k < n && Accounted(front[k]) == Some(u) && forall j :: k < j < n ==> Accounted(front[j]).None?;
        assert Accounted(events[k]) == Some(u) && forall j :: k < j < |events| ==> Accounted(events[j]).None?;
      }
      if k :| 0 <= k < |events| && Accounted(events[k]) == Some(u) && forall j :: k < j < |events| ==> Accounted(events[j]).None? {
        if k < n {
          assert Accounted(front[k]) == Some(u) && forall j :: k < j < n ==> Accounted(front[j]).None?;
        }
      }
    }
  }

  // ----- the loop -----

  datatype Ending = CleanEnd | Broken(canceledError: bool)

  /** What the turn runs against: the agent's stream, and how many updates the client's connection still accepts. */
  datatype Turn = Turn(stream: seq<Event>, ending: Ending, accepts: nat)

  datatype Pick =
    | CancelRequested  // the environment closes the turn's cancel channel
    | ClientLeaves     // the environment ends the connection's context
    | SeesClientGone   // from here on: what the select chose
    | SeesPumpStopped  // msgs closed: the pump quit on the ended context before delivering the stream's end
    | SeesEvent
    | SeesEnding
    | SeesCancel
    | SeesGraceExpired

  datatype Outcome = EndTurn | Cancelled | StreamBroke | EmitRefused

  datatype Loop = Loop(
    position: nat,            // stream events forwarded
    emitted: seq<Update>,
    usage: Option<Usage>,
    canceled: bool,
    listening: bool,          // cancelCh is not yet nil
    timers: nat,              // grace timers created
    cancelClosed: bool,
    clientGone: bool,
    outcome: Option<Outcome>)

  const START := Loop(0, [], None, false, true, 0, false, false, None)

  predicate Enabled(t: Turn, s: Loop, p: Pick) {
    s.outcome.None? &&
    match p
    case CancelRequested => !s.cancelClosed
    case ClientLeaves => true
    case SeesClientGone => s.clientGone
    case SeesPumpStopped => s.clientGone
    case SeesEvent => s.position < |t.stream|
    case SeesEnding => s.position == |t.stream|
    case SeesCancel => s.listening && s.cancelClosed
    case SeesGraceExpired => s.timers > 0
  }

  function FinishStop(canceled: bool): Outcome {
    if canceled then Cancelled else EndTurn
  }

  function EndingOutcome(ending: Ending, s: Loop): Outcome {
    if ending.CleanEnd? then FinishStop(s.canceled)
    else if ending.canceledError && (s.canceled || (s.listening && s.cancelClosed)) then Cancelled
    else StreamBroke
  }

  function Forward(t: Turn, s: Loop, e: Event): Loop {
    var update, usage := Mapped(e), Accounted(e);
    if update.Some? && |s.emitted| == t.accepts then s.(outcome := Some(EmitRefused))
    else s.(position := s.position + 1,
            emitted := if update.Some? then s.emitted + [update.value] else s.emitted,
            usage := if usage.Some? then usage else s.usage)
  }

  function Step(t: Turn, s: Loop, p: Pick): Loop
    requires Enabled(t, s, p)
  {
    match p
    case CancelRequested => s.(cancelClosed := true)
    case ClientLeaves => s.(clientGone := true)
    case SeesClientGone => s.(outcome := Some(Cancelled))
    case SeesPumpStopped => s.(outcome := Some(FinishStop(s.canceled)))
    case SeesEvent => Forward(t, s, t.stream[s.position])
    case SeesEnding => s.(outcome := Some(EndingOutcome(t.ending, s)))
    case SeesCancel => s.(canceled := true, listening := false, timers := s.timers + 1)
    case SeesGraceExpired => s.(outcome := Some(Cancelled))
  }

  function Exec(t: Turn, picks: seq<Pick>): Option<Loop> {
    if picks == [] then Some(START)
    else
      var n := |picks| - 1;
      var before := Exec(t, picks[..n]);
      if before.Some? && Enabled(t, before.value, picks[n]) then Some(Step(t, before.value, picks[n])) else None
  }

  lemma {:induction false} ExecPrefix(t: Turn, picks: seq<Pick>, i: nat)
    requires i <= |picks| && Exec(t, picks).Some?
    ensures Exec(t, picks[..i]).Some?
    decreases |picks|
  {
    if i == |picks| {
      assert picks[..i] == picks;
    } else {
      ExecPrefix(t, picks[..|picks| - 1], i);
      assert picks[..|picks| - 1][..i] == picks[..i];
    }
  }

  lemma ExecSnoc(t: Turn, picks: seq<Pick>, p: Pick)
    requires Exec(t, picks).Some? && Enabled(t, Exec(t, picks).value, p)
    ensures Exec(t, picks + [p]) == Some(Step(t, Exec(t, picks).value, p))
  {
    assert (picks + [p])[..|picks|] == picks;
  }

  /** mapStreamEvent: forwards one event; refused is the connection's write error. */
  method MapStreamEvent(e: Event, emitted: seq<Update>, accepts: nat)
    returns (sent: seq<Update>, usage: Option<Usage>, refused: bool)
    ensures refused <==> Mapped(e).Some? && |emitted| == accepts
    ensures !refused ==> sent == emitted + Updates([e]) && usage == Accounted(e)
    ensures refused ==> sent == emitted && usage == None
  {
    assert Updates([e]) == if Mapped(e).Some? then [Mapped(e).value] else [];
    sent, usage, refused := emitted, None, false;
    var update: Update;
    if e.warning != "" {
      return;
    } else if e.text != "" {
      update := Chunk(e.text);
    } else if e.call.Some? {
      var status := Pending;
      if e.call.value.denied {
        status := ToolFailed;
      }
      update := CallStarted(e.call.value.id, e.call.value.name, status, e.call.value.args);
    } else if e.report.Some? {
      var status := MapToolStatus(e.report.value.status);
      update := CallReported(e.report.value.id, e.report.value.name, status, e.report.value.head);
    } else {
      if e.usage.Some? {
        var u := e.usage.value;
        if u.total > 0 || u.prompt > 0 || u.completion > 0 {
          usage := Some(u);
        }
      }
      return;
    }
    if |emitted| == accepts {
      refused := true;
    } else {
      sent := emitted + [update];
    }
  }

  /** The select loop; picks is what each select chose, interleaved with what the environment did. */
  method Prompt(t: Turn, picks: seq<Pick>)
    returns (outcome: Option<Outcome>, usage: Option<Usage>, emitted: seq<Update>, timers: nat)
    requires Exec(t, picks).Some?
    ensures var s := Exec(t, picks).value;
      outcome == s.outcome && usage == s.usage && emitted == s.emitted && timers == s.timers
  {
    outcome, usage, emitted, timers := None, None, [], 0;
    var canceled, listening, position := false, true, 0;
    var cancelClosed, clientGone := false, false;
    assert picks[..0] == [];
    for i := 0 to |picks|
      invariant Exec(t, picks[..i]) ==
                Some(Loop(position, emitted, usage, canceled, listening, timers, cancelClosed, clientGone, outcome))
    {
      hide Mapped, Accounted, LastUsage;
      ExecPrefix(t, picks, i + 1);
      assert picks[..i + 1][..i] == picks[..i];
      match picks[i]
      case CancelRequested => cancelClosed := true;
      case ClientLeaves => clientGone := true;
      case SeesClientGone => outcome := Some(Cancelled);
      case SeesPumpStopped => outcome := Some(FinishStop(canceled));
      case SeesEvent =>
        var e := t.stream[position];
        assert Updates([e]) == if Mapped(e).Some? then [Mapped(e).value] else [];
        assert emitted + [] == emitted;
        var sent, u, refused := MapStreamEvent(e, emitted, t.accepts);
        if refused {
          outcome := Some(EmitRefused);
        } else {
          emitted, position := sent, position + 1;
          if u.Some? {
            usage := u;
          }
        }
      case SeesEnding =>
        if t.ending.CleanEnd? {
          outcome := Some(FinishStop(canceled));
        } else if t.ending.canceledError && (canceled || (listening && cancelClosed)) {
          outcome := Some(Cancelled);
        } else {
          outcome := Some(StreamBroke);
        }
      case SeesCancel =>
        canceled, listening, timers := true, false, timers + 1;
      case SeesGraceExpired => outcome := Some(Cancelled);
    }
    assert picks[..|picks|] == picks;
  }

  // ----- what every run keeps -----

  /** What was sent is the stream's updates up to here, in order; and one grace timer at most, armed by the cancel. */
  ghost predicate Faithful(t: Turn, picks: seq<Pick>, s: Loop) {
    && s.position <= |t.stream|
    && s.emitted == Updates(t.stream[..s.position])
    && |s.emitted| <= t.accepts
    && s.usage == LastUsage(t.stream[..s.position])
    && s.timers == (if s.canceled then 1 else 0)
    && (s.listening <==> !s.canceled)
    && (s.canceled <==> SeesCancel in picks)
    && (s.cancelClosed <==> CancelRequested in picks)
    && (s.clientGone <==> ClientLeaves in picks)
    && (s.canceled ==> s.cancelClosed)
  }

  lemma {:induction false} StepFaithful(t: Turn, picks: seq<Pick>, s: Loop, p: Pick)
    requires Faithful(t, picks, s) && Enabled(t, s, p)
    ensures Faithful(t, picks + [p], Step(t, s, p))
  {
    if p == SeesEvent {
      ForwardFaithful(t, s, t.stream[s.position]);
    }
    hide Updates, LastUsage, Forward, Mapped, Accounted;
    forall q: Pick
      ensures q in picks + [p] <==> q in picks || q == p
    {
    }
  }

  /** One event: what was sent stays the updates of what was forwarded. */
  lemma ForwardFaithful(t: Turn, s: Loop, e: Event)
    requires s.position < |t.stream| && e == t.stream[s.position]
    requires s.emitted == Updates(t.stream[..s.position]) && |s.emitted| <= t.accepts
    requires s.usage == LastUsage(t.stream[..s.position])
    ensures var next := Forward(t, s, e);
      && next.position <= |t.stream| && |next.emitted| <= t.accepts
      && next.emitted == Updates(t.stream[..next.position]) && next.usage == LastUsage(t.stream[..next.position])
      && next.(position := s.position, emitted := s.emitted, usage := s.usage, outcome := s.outcome) == s
  {
    hide Mapped, Accounted;
    assert t.stream[..s.position + 1][..s.position] == t.stream[..s.position];
  }

  lemma {:induction false} RunFaithful(t: Turn, picks: seq<Pick>)
    requires Exec(t, picks).Some?
    ensures Faithful(t, picks, Exec(t, picks).value)
  {
    if picks != [] {
      hide Faithful, Step, Enabled;
      var n := |picks| - 1;
      RunFaithful(t, picks[..n]);
      StepFaithful(t, picks[..n], Exec(t, picks[..n]).value, picks[n]);
      assert picks[..n] + [picks[n]] == picks;
    } else {
      assert t.stream[..0] == [];
    }
  }

  /** Every stop reason of a finished turn, in terms of what its loop saw and what had been requested. */
  lemma StopReasonIff(t: Turn, picks: seq<Pick>)
    requires Exec(t, picks).Some? && Exec(t, picks).value.outcome.Some?
    ensures var outcome, last := Exec(t, picks).value.outcome.value, picks[|picks| - 1];
      var clean := last == SeesPumpStopped || (last == SeesEnding && t.ending.CleanEnd?);
      var honoured := last == SeesEnding && t.ending == Broken(true) && CancelRequested in picks;
      && (outcome == EndTurn <==> clean && SeesCancel !in picks)
      && (outcome == Cancelled <==>
            last == SeesClientGone || last == SeesGraceExpired || honoured || (clean && SeesCancel in picks))
      && (outcome == StreamBroke <==> last == SeesEnding && t.ending.Broken? && !honoured)
      && (outcome == EmitRefused <==> last == SeesEvent)
  {
    hide LastUsage, Updates, Mapped, Accounted;
    var n := |picks| - 1;
    RunFaithful(t, picks[..n]);
    assert picks[..n] + [picks[n]] == picks;
  }

  /** A turn that ends as end_turn with its client still there has sent every update of the stream and its last usage. */
  lemma EndTurnIsComplete(t: Turn, picks: seq<Pick>)
    requires Exec(t, picks).Some? && Exec(t, picks).value.outcome == Some(EndTurn)
    requires ClientLeaves !in picks
    ensures var s := Exec(t, picks).value; s.emitted == Updates(t.stream) && s.usage == LastUsage(t.stream)
  {
    hide LastUsage, Updates, Mapped, Accounted;
    var n := |picks| - 1;
    RunFaithful(t, picks[..n]);
    RunFaithful(t, picks);
    assert picks[..n] + [picks[n]] == picks;
    assert t.stream[..|t.stream|] == t.stream;
  }

  lemma RefusedAt(t: Turn, picks: seq<Pick>)
    requires Exec(t, picks).Some? && Exec(t, picks).value.outcome == Some(EmitRefused)
    ensures var s := Exec(t, picks).value;
      s.position < |t.stream| && Mapped(t.stream[s.position]).Some? && |s.emitted| == t.accepts
  {
    hide Updates, LastUsage, Mapped, Accounted;
    var n := |picks| - 1;
    RunFaithful(t, picks[..n]);
    hide Exec, EndingOutcome, FinishStop;
    assert Exec(t, picks) == Some(Step(t, Exec(t, picks[..n]).value, picks[n])) by { ExecLast(t, picks); }
  }

  lemma ExecLast(t: Turn, picks: seq<Pick>)
    requires picks != [] && Exec(t, picks).Some?
    ensures var n := |picks| - 1;
      && Exec(t, picks[..n]).Some? && Enabled(t, Exec(t, picks[..n]).value, picks[n])
      && Exec(t, picks) == Some(Step(t, Exec(t, picks[..n]).value, picks[n]))
  {
  }

  /** A connection that accepts enough is never refused, and one that accepts less ends the turn at its limit. */
  lemma RefusedAtLimit(t: Turn, picks: seq<Pick>)
    requires Exec(t, picks).Some? && Exec(t, picks).value.outcome == Some(EmitRefused)
    ensures var s := Exec(t, picks).value; |s.emitted| == t.accepts < |Updates(t.stream)| && s.emitted < Updates(t.stream)
  {
    hide Updates, LastUsage, Mapped, Accounted, Exec, Step;
    RunFaithful(t, picks);
    RefusedAt(t, picks);
    var position := Exec(t, picks).value.position;
    UpdatesSnoc(t.stream[..position], t.stream[position]);
    assert t.stream[..position] + [t.stream[position]] == t.stream[..position + 1];
    UpdatesPrefix(t.stream, position + 1);
  }

  lemma UpdatesSnoc(events: seq<Event>, e: Event)
    ensures Updates(events + [e]) == Updates(events) + (if Mapped(e).Some? then [Mapped(e).value] else [])
  {
    assert (events + [e])[..|events|] == events;
  }

  lemma {:induction false} UpdatesPrefix(events: seq<Event>, i: nat)
    requires i <= |events|
    ensures Updates(events[..i]) <= Updates(events)
    decreases |events|
  {
    if i == |events| {
      assert events[..i] == events;
    } else {
      UpdatesPrefix(events[..|events| - 1], i);
      assert events[..|events| - 1][..i] == events[..i];
    }
  }

  /** Once the loop has seen the cancel, the grace timer can end the turn at any moment, and no ending is end_turn. */
  lemma CancelSettles(t: Turn, picks: seq<Pick>)
    requires Exec(t, picks).Some? && SeesCancel in picks
    ensures var s := Exec(t, picks).value;
      && s.outcome != Some(EndTurn)
      && (s.outcome.None? ==> Exec(t, picks + [SeesGraceExpired]) == Some(s.(outcome := Some(Cancelled))))
  {
    hide LastUsage, Updates, Mapped, Accounted;
    RunFaithful(t, picks);
    var s := Exec(t, picks).value;
    if s.outcome.Some? {
      StopReasonIff(t, picks);
    } else {
      ExecSnoc(t, picks, SeesGraceExpired);
    }
  }

  /**
   Requesting is not enough: any turn whose loop has not yet seen a cancel ends as end_turn if, after the request, the
   stream's clean end wins the select, and also if the client leaves and the stopped pump wins it, however little of
   the stream was forwarded.
   */
  lemma RequestedButEndTurn(t: Turn, picks: seq<Pick>)
    requires Exec(t, picks).Some? && Exec(t, picks).value.outcome.None? && SeesCancel !in picks
    ensures var s := Exec(t, picks).value;
      && (t.ending.CleanEnd? && s.position == |t.stream| && CancelRequested !in picks ==>
            Exec(t, picks + [CancelRequested] + [SeesEnding]) ==
            Some(s.(cancelClosed := true, outcome := Some(EndTurn))))
      && Exec(t, picks + [ClientLeaves] + [SeesPumpStopped]) == Some(s.(clientGone := true, outcome := Some(EndTurn)))
  {
    hide Exec, Updates, LastUsage, Mapped, Accounted;
    RunFaithful(t, picks);
    var s := Exec(t, picks).value;
    if t.ending.CleanEnd? && s.position == |t.stream| && CancelRequested !in picks {
      ExecSnoc(t, picks, CancelRequested);
      ExecSnoc(t, picks + [CancelRequested], SeesEnding);
    }
    ExecSnoc(t, picks, ClientLeaves);
    ExecSnoc(t, picks + [ClientLeaves], SeesPumpStopped);
  }
}
