/**
 The bridge's JSON-RPC dispatcher: lines in, one answer per request, prompt turns running beside the read loop.
 Requests and notifications are those of section 4 of the JSON-RPC 2.0 specification.
 */
module Dispatcher {
  import opened Common

  type RequestId = string
  type SessionId = string

  /** How a prompt's parameters turn out: refused, a model command answered on the spot, or a turn to run. */
  datatype Prompt = Refused | ModelCommand(session: SessionId) | AgentTurn(session: SessionId)

  datatype Method =
    | NoMethod
    | Initialize
    | SessionNew
    | SessionLoad
    | SessionPrompt(prompt: Prompt)
    | SessionCancel
    | SetConfigOption
    | Unknown

  /** id is None for a notification: the id is absent or null. */
  datatype Line = BlankLine | Unparseable | Message(id: Option<RequestId>, call: Method)

  /** A prompt turn and its request: answered when the reply is written, released when the session is free again. */
  datatype Flight = Flight(session: SessionId, id: RequestId, answered: bool, released: bool)

  datatype Answer = ToRequest(id: RequestId) | ToNull

  // ----- the dispatcher -----

  datatype State = State(received: seq<RequestId>, answers: seq<Answer>, flights: seq<Flight>, turns: map<SessionId, nat>)

  const START := State([], [], [], map[])

  class Bridge {
    var received: seq<RequestId> // requests read so far
    var answers: seq<Answer>     // replies written so far
    var flights: seq<Flight>     // prompt turns started so far
    var turns: map<SessionId, nat>

    constructor ()
      ensures Value() == START
    {
      received, answers, flights, turns := [], [], [], map[];
    }

    function Value(): State
      reads this
    {
      State(received, answers, flights, turns)
    }

    method Respond(id: Option<RequestId>)
      modifies this`answers
      ensures answers == old(answers) + (if id.Some? then [ToRequest(id.value)] else [])
    {
      if id.None? {
        return;
      }
      answers := answers + [ToRequest(id.value)];
    }

    method HandleSessionPrompt(id: RequestId, prompt: Prompt)
      modifies this
      ensures Value() == Prompted(old(Value()), id, prompt)
    {
      if prompt.Refused? {
        Respond(Some(id));
        return;
      }
      if prompt.session in turns {
        Respond(Some(id));
        return;
      }
      if prompt.ModelCommand? {
        Respond(Some(id));
        return;
      }
      turns := turns[prompt.session := |flights|];
      flights := flights + [Flight(prompt.session, id, false, false)];
    }

    method HandleLine(line: Line)
      modifies this
      ensures Value() == Handled(old(Value()), line)
    {
      match line
      case BlankLine => return;
      case Unparseable => answers := answers + [ToNull];
      case Message(id, call) =>
        var isRequest := id.Some?;
        if isRequest {
          received := received + [id.value];
        }
        match call {
          case NoMethod => Respond(id);
          case SessionPrompt(prompt) =>
            if isRequest {
              HandleSessionPrompt(id.value, prompt);
            }
          case SessionCancel => Respond(id);
          case Initialize => if isRequest { Respond(id); }
          case SessionNew => if isRequest { Respond(id); }
          case SessionLoad => if isRequest { Respond(id); }
          case SetConfigOption => if isRequest { Respond(id); }
          case Unknown => Respond(id);
        }
    }

    /** The turn's goroutine writes its one reply. */
    method AnswerTurn(k: nat)
      requires k < |flights| && !flights[k].answered
      modifies this`flights, this`answers
      ensures Value() == Answered(old(Value()), k)
    {
      Respond(Some(flights[k].id));
      flights := flights[k := flights[k].(answered := true)];
    }

    /** Its deferred unregisterTurn: the session is freed only if it is still this turn's. */
    method ReleaseTurn(k: nat)
      requires k < |flights| && flights[k].answered && !flights[k].released
      modifies this`flights, this`turns
      ensures Value() == Released(old(Value()), k)
    {
      var session := flights[k].session;
      if session in turns && turns[session] == k {
        turns := turns - {session};
      }
      flights := flights[k := flights[k].(released := true)];
    }
  }

  function Reply(s: State, id: RequestId): State {
    s.(answers := s.answers + [ToRequest(id)])
  }

  function Prompted(s: State, id: RequestId, prompt: Prompt): State {
    if prompt.AgentTurn? && prompt.session !in s.turns
    then s.(turns := s.turns[prompt.session := |s.flights|], flights := s.flights + [Flight(prompt.session, id, false, false)])
    else Reply(s, id)
  }

  function Handled(s: State, line: Line): State {
    match line
    case BlankLine => s
    case Unparseable => s.(answers := s.answers + [ToNull])
    case Message(None, _) => s
    case Message(Some(id), call) =>
      var seen := s.(received := s.received + [id]);
      if call.SessionPrompt? then Prompted(seen, id, call.prompt) else Reply(seen, id)
  }

  function Answered(s: State, k: nat): State
    requires k < |s.flights|
  {
    Reply(s, s.flights[k].id).(flights := s.flights[k := s.flights[k].(answered := true)])
  }

  function Released(s: State, k: nat): State
    requires k < |s.flights|
  {
    var session := s.flights[k].session;
    s.(turns := if session in s.turns && s.turns[session] == k then s.turns - {session} else s.turns,
       flights := s.flights[k := s.flights[k].(released := true)])
  }

  // ----- runs -----

  datatype Action = Read(line: Line) | TurnAnswers(k: nat) | TurnReleases(k: nat)

  predicate Enabled(s: State, a: Action) {
    match a
    case Read(_) => true
    case TurnAnswers(k) => k < |s.flights| && !s.flights[k].answered
    case TurnReleases(k) => k < |s.flights| && s.flights[k].answered && !s.flights[k].released
  }

  function Step(s: State, a: Action): State
    requires Enabled(s, a)
  {
    match a
    case Read(line) => Handled(s, line)
    case TurnAnswers(k) => Answered(s, k)
    case TurnReleases(k) => Released(s, k)
  }

  function Exec(s: State, actions: seq<Action>): Option<State>
    decreases |actions|
  {
    if actions == [] then Some(s)
    else if Enabled(s, actions[0]) then Exec(Step(s, actions[0]), actions[1..])
    else None
  }

  // ----- conservation -----

  /** Ids of the turns still owing an answer. */
  function Owing(flights: seq<Flight>): multiset<RequestId> {
    if flights == [] then multiset{}
    else
      var last := flights[|flights| - 1];
      Owing(flights[..|flights| - 1]) + (if last.answered then multiset{} else multiset{last.id})
  }

  function AnsweredIds(answers: seq<Answer>): multiset<RequestId> {
    if answers == [] then multiset{}
    else
      var last := answers[|answers| - 1];
      AnsweredIds(answers[..|answers| - 1]) + (if last.ToRequest? then multiset{last.id} else multiset{})
  }

  lemma OwingSnoc(flights: seq<Flight>, f: Flight)
    ensures Owing(flights + [f]) == Owing(flights) + (if f.answered then multiset{} else multiset{f.id})
  {
    assert (flights + [f])[..|flights|] == flights;
  }

  lemma AnsweredSnoc(answers: seq<Answer>, a: Answer)
    ensures AnsweredIds(answers + [a]) == AnsweredIds(answers) + (if a.ToRequest? then multiset{a.id} else multiset{})
  {
    assert (answers + [a])[..|answers|] == answers;
  }

  lemma {:induction false} OwingUpdate(flights: seq<Flight>, k: nat, f: Flight)
    requires k < |flights| && f.id == flights[k].id
    requires flights[k].answered ==> f.answered
    ensures Owing(flights) ==
            Owing(flights[k := f]) + (if f.answered && !flights[k].answered then multiset{f.id} else multiset{})
  {
    var n := |flights| - 1;
    if k < n {
      assert flights[k := f][..n] == flights[..n][k := f];
      OwingUpdate(flights[..n], k, f);
    } else {
      assert flights[k := f][..n] == flights[..n];
    }
  }

  /** Each request id read is answered or owed by a turn in flight, and nothing else is; null answers are extra. */
  ghost predicate Conserved(s: State) {
    multiset(s.received) == AnsweredIds(s.answers) + Owing(s.flights)
  }

  /** turns holds, for each session, its one turn not yet released. */
  ghost predicate OneTurnEach(s: State) {
    && (forall session :: session in s.turns ==>
          s.turns[session] < |s.flights| && s.flights[s.turns[session]].session == session && !s.flights[s.turns[session]].released)
    && (forall k :: 0 <= k < |s.flights| && !s.flights[k].released ==>
          s.flights[k].session in s.turns && s.turns[s.flights[k].session] == k)
    && (forall k :: 0 <= k < |s.flights| && s.flights[k].released ==> s.flights[k].answered)
  }

  lemma StepConserves(s: State, a: Action)
    requires Conserved(s) && Enabled(s, a)
    ensures Conserved(Step(s, a))
  {
    hide Owing, AnsweredIds;
    match a
    case Read(line) =>
      match line {
        case Unparseable => AnsweredSnoc(s.answers, ToNull);
        case Message(Some(id), call) =>
          AnsweredSnoc(s.answers, ToRequest(id));
          if call.SessionPrompt? && call.prompt.AgentTurn? {
            OwingSnoc(s.flights, Flight(call.prompt.session, id, false, false));
          }
        case _ =>
      }
    case TurnAnswers(k) =>
      AnsweredSnoc(s.answers, ToRequest(s.flights[k].id));
      OwingUpdate(s.flights, k, s.flights[k].(answered := true));
    case TurnReleases(k) =>
      OwingUpdate(s.flights, k, s.flights[k].(released := true));
  }

  lemma PromptedOneTurnEach(s: State, id: RequestId, prompt: Prompt)
    requires OneTurnEach(s)
    ensures OneTurnEach(Prompted(s, id, prompt))
  {
  }

  lemma ReleasedOneTurnEach(s: State, k: nat)
    requires OneTurnEach(s) && k < |s.flights| && s.flights[k].answered && !s.flights[k].released
    ensures OneTurnEach(Released(s, k))
  {
    assert s.turns[s.flights[k].session] == k;
  }

  lemma StepOneTurnEach(s: State, a: Action)
    requires OneTurnEach(s) && Enabled(s, a)
    ensures OneTurnEach(Step(s, a))
  {
    hide Prompted, Released;
    match a
    case Read(Message(Some(id), SessionPrompt(prompt))) =>
      PromptedOneTurnEach(s.(received := s.received + [id]), id, prompt);
    case TurnReleases(k) => ReleasedOneTurnEach(s, k);
    case _ =>
  }

  /** Over any run, no request is dropped or answered twice, and no session has two turns. */
  lemma {:induction false} RunConserves(s: State, actions: seq<Action>)
    requires Conserved(s) && OneTurnEach(s) && Exec(s, actions).Some?
    ensures Conserved(Exec(s, actions).value) && OneTurnEach(Exec(s, actions).value)
    decreases |actions|
  {
    if actions != [] {
      hide Conserved, OneTurnEach, Step, Enabled;
      StepConserves(s, actions[0]);
      StepOneTurnEach(s, actions[0]);
      RunConserves(Step(s, actions[0]), actions[1..]);
    }
  }

  /** A line that is not a request never gets an answer to a request id; only an unparseable one gets the null answer. */
  lemma NotificationsUnanswered(s: State, line: Line)
    requires line.BlankLine? || line.Unparseable? || (line.Message? && line.id.None?)
    ensures Handled(s, line) == if line.Unparseable? then s.(answers := s.answers + [ToNull]) else s
  {
  }

  lemma {:induction false} NothingOwed(flights: seq<Flight>)
    requires forall k :: 0 <= k < |flights| ==> flights[k].answered
    ensures Owing(flights) == multiset{}
  {
    if flights != [] {
      NothingOwed(flights[..|flights| - 1]);
    }
  }

  /** When Serve has waited for every handler, each request has been answered exactly as often as it was sent. */
  lemma AllAnswered(actions: seq<Action>)
    requires Exec(START, actions).Some?
    requires var fs := Exec(START, actions).value.flights; forall k :: 0 <= k < |fs| ==> fs[k].released
    ensures var s := Exec(START, actions).value; AnsweredIds(s.answers) == multiset(s.received) && s.turns == map[]
  {
    hide Exec;
    RunConserves(START, actions);
    NothingOwed(Exec(START, actions).value.flights);
  }

  /** Two turns of one session are never in flight together. */
  lemma OneTurnPerSession(actions: seq<Action>, j: nat, k: nat)
    requires Exec(START, actions).Some?
    requires j < k < |Exec(START, actions).value.flights|
    requires var fs := Exec(START, actions).value.flights; !fs[j].released && !fs[k].released
    ensures var fs := Exec(START, actions).value.flights; fs[j].session != fs[k].session
  {
    hide Exec;
    RunConserves(START, actions);
  }

  /**
   A prompt for a session is accepted exactly when no turn of that session is unreleased. The reply to a turn is
   written before its release, so a client that sends its next prompt on seeing the reply can still be refused.
   */
  lemma NextPromptIff(actions: seq<Action>, session: SessionId, id: RequestId)
    requires Exec(START, actions).Some?
    ensures var s := Exec(START, actions).value;
      (|Prompted(s, id, AgentTurn(session)).flights| == |s.flights| + 1) <==>
      (forall k :: 0 <= k < |s.flights| && s.flights[k].session == session ==> s.flights[k].released)
  {
    hide Exec;
    RunConserves(START, actions);
  }

  /**
   A prompt becomes the one new flight, unanswered, or is answered at once without a flight, never both or neither; the
   first exactly for an agent turn of a session without one.
   */
  lemma PromptSplits(s: State, id: RequestId, prompt: Prompt)
    ensures var next := Prompted(s, id, prompt);
      if prompt.AgentTurn? && prompt.session !in s.turns
      then next.answers == s.answers && next.flights == s.flights + [Flight(prompt.session, id, false, false)]
      else next.answers == s.answers + [ToRequest(id)] && next.flights == s.flights && next.turns == s.turns
  {
  }

  function Unparseables(actions: seq<Action>): nat {
    if actions == [] then 0
    else Unparseables(actions[1..]) + (if actions[0] == Read(Unparseable) then 1 else 0)
  }

  function NullAnswers(answers: seq<Answer>): nat {
    if answers == [] then 0
    else NullAnswers(answers[..|answers| - 1]) + (if answers[|answers| - 1].ToNull? then 1 else 0)
  }

  lemma {:induction false} NullSnoc(answers: seq<Answer>, a: Answer)
    ensures NullAnswers(answers + [a]) == NullAnswers(answers) + (if a.ToNull? then 1 else 0)
  {
    assert (answers + [a])[..|answers|] == answers;
  }

  lemma {:induction false} StepNullAnswers(s: State, a: Action)
    requires Enabled(s, a)
    ensures NullAnswers(Step(s, a).answers) == NullAnswers(s.answers) + (if a == Read(Unparseable) then 1 else 0)
  {
    hide NullAnswers;
    match a
    case Read(line) =>
      match line {
        case Unparseable => NullSnoc(s.answers, ToNull);
        case Message(Some(id), call) => NullSnoc(s.answers, ToRequest(id));
        case _ =>
      }
    case TurnAnswers(k) => NullSnoc(s.answers, ToRequest(s.flights[k].id));
    case TurnReleases(k) =>
  }

  /** Answers with the null id are as many as the lines that could not be parsed. */
  lemma {:induction false} NullAnswersExact(s: State, actions: seq<Action>)
    requires Exec(s, actions).Some?
    ensures NullAnswers(Exec(s, actions).value.answers) == NullAnswers(s.answers) + Unparseables(actions)
    decreases |actions|
  {
    if actions != [] {
      hide Step, Enabled, NullAnswers;
      StepNullAnswers(s, actions[0]);
      NullAnswersExact(Step(s, actions[0]), actions[1..]);
    }
  }

  lemma PromptAfterReplyRefused(session: SessionId, first: RequestId, second: RequestId)
    ensures var actions := [Read(Message(Some(first), SessionPrompt(AgentTurn(session)))), TurnAnswers(0),
                            Read(Message(Some(second), SessionPrompt(AgentTurn(session))))];
      && Exec(START, actions).Some?
      && Exec(START, actions).value.answers == [ToRequest(first), ToRequest(second)]
      && |Exec(START, actions).value.flights| == 1
  {
    var a, b, c := Read(Message(Some(first), SessionPrompt(AgentTurn(session)))), TurnAnswers(0),
                   Read(Message(Some(second), SessionPrompt(AgentTurn(session))));
    var s1 := Step(START, a);
    var s2 := Step(s1, b);
    var s3 := Step(s2, c);
    assert [a, b, c][1..] == [b, c] && [b, c][1..] == [c] && [c][1..] == [];
    assert Exec(s2, [c]) == Some(s3);
    assert Exec(s1, [b, c]) == Some(s3);
  }
}
