/**
 The text coalescer of the ACP client: streamed chunks are buffered and handed to OnChunk at message
 boundaries, by the reader of harness output and by the prompt call that closes the turn.
 */
module Coalescer {
  import opened Common

  // ----- the turn's buffer -----

  datatype Buffer = Buffer(text: string, closed: bool) {
    function Append(more: string): Buffer {
      if closed then this else Buffer(text + more, closed)
    }

    /** The locked part of a flush: what is taken out, and the buffer left behind. */
    function Take(closeTurn: bool): (Buffer, string) {
      if closed then (this, "") else (Buffer("", closeTurn), text)
    }
  }

  class ActiveTurn {
    const sessionID: string
    var textBuf: string
    var closed: bool
    var chunks: seq<string> // OnChunk calls so far

    constructor (sessionID: string)
      ensures this.sessionID == sessionID && Value() == Buffer("", false) && chunks == []
    {
      this.sessionID := sessionID;
      textBuf, closed, chunks := "", false, [];
    }

    function Value(): Buffer
      reads this
    {
      Buffer(textBuf, closed)
    }

    method AppendText(text: string)
      modifies this`textBuf
      ensures Value() == old(Value()).Append(text)
    {
      if text == "" {
        return;
      }
      if closed {
        return;
      }
      textBuf := textBuf + text;
    }

    /** flushInternal up to the release of the turn's lock. */
    method TakeText(closeTurn: bool) returns (text: string)
      modifies this`textBuf, this`closed
      ensures (Value(), text) == old(Value()).Take(closeTurn)
    {
      if closed {
        return "";
      }
      if closeTurn {
        closed := true;
      }
      if |textBuf| == 0 {
        return "";
      }
      text := textBuf;
      textBuf := "";
    }

    /** The rest of it, under the chunk lock. */
    method HandOver(text: string)
      modifies this`chunks
      ensures chunks == old(chunks) + (if text != "" then [text] else [])
    {
      if text != "" {
        chunks := chunks + [text];
      }
    }

    method FlushInternal(closeTurn: bool)
      modifies this
      ensures var (left, text) := old(Value()).Take(closeTurn);
        Value() == left && chunks == old(chunks) + (if text != "" then [text] else [])
    {
      var text := TakeText(closeTurn);
      HandOver(text);
    }
  }

  // ----- one reader and one closer, at lock granularity -----

  /** The reader flushes only before a boundary event: it takes, hands over, and then the event takes effect. */
  datatype Hand = Free | Holds(text: string) | Flushed {
    function Text(): string {
      if Holds? then text else ""
    }
  }

  datatype CloserPhase = NotYet | Closing(text: string) | Returned {
    function Text(): string {
      if Closing? then text else ""
    }
  }

  /**
   accepted: all text appended while the turn was open, in order; before: how much of it came before the prompt's
   response was handed to the caller, which closes the turn then or when it fails.
   */
  datatype System = System(
    buffer: Buffer, reader: Hand, closer: CloserPhase, chunks: seq<string>, accepted: string, before: Option<nat>)

  datatype Action =
    | ReaderAppends(text: string)
    | ReaderTakes
    | ReaderHandsOver
    | ReaderActs     // the boundary event reaches the callers
    | ReaderResponds // the prompt's response is handed to the caller, without a flush
    | CloserTakes
    | CloserHandsOver

  predicate Enabled(s: System, a: Action) {
    match a
    case ReaderAppends(_) => s.reader.Free?
    case ReaderTakes => s.reader.Free?
    case ReaderHandsOver => s.reader.Holds?
    case ReaderActs => s.reader.Flushed?
    case ReaderResponds => s.reader.Free? && s.before.None?
    case CloserTakes => s.closer.NotYet?
    case CloserHandsOver => s.closer.Closing?
  }

  function Step(s: System, a: Action): System
    requires Enabled(s, a)
  {
    match a
    case ReaderAppends(text) =>
      s.(buffer := s.buffer.Append(text), accepted := if s.buffer.closed then s.accepted else s.accepted + text)
    case ReaderTakes =>
      var (left, text) := s.buffer.Take(false);
      s.(buffer := left, reader := if text == "" then Flushed else Holds(text))
    case ReaderHandsOver =>
      s.(reader := Flushed, chunks := s.chunks + [s.reader.text])
    case ReaderActs => s.(reader := Free)
    case ReaderResponds => s.(before := Some(|s.accepted|))
    case CloserTakes =>
      var (left, text) := s.buffer.Take(true);
      s.(buffer := left, closer := if text == "" then Returned else Closing(text))
    case CloserHandsOver =>
      s.(closer := Returned, chunks := s.chunks + [s.closer.text])
  }

  const START := System(Buffer("", false), Free, NotYet, [], "", None)

  /** The state after a sequence of actions, each possible where it happens. */
  function Exec(actions: seq<Action>): Option<System> {
    if actions == [] then Some(START)
    else
      match Exec(actions[..|actions| - 1])
      case None => None
      case Some(s) =>
        var a := actions[|actions| - 1];
        if Enabled(s, a) then Some(Step(s, a)) else None
  }

  function Concat(chunks: seq<string>): string {
    if chunks == [] then "" else Concat(chunks[..|chunks| - 1]) + chunks[|chunks| - 1]
  }

  lemma ConcatSnoc(chunks: seq<string>, text: string)
    ensures Concat(chunks + [text]) == Concat(chunks) + text
  {
    assert (chunks + [text])[..|chunks|] == chunks;
  }

  /** Handed over, then held by the reader or the closer, then buffered: exactly the accepted text, in order. */
  ghost predicate Conserved(s: System) {
    && Concat(s.chunks) + s.reader.Text() + s.closer.Text() + s.buffer.text == s.accepted
    && (s.reader.Holds? ==> s.buffer.text == "" && s.closer.Text() == "")
    && (s.reader.Flushed? ==> s.buffer.text == "")
    && (s.buffer.closed <==> !s.closer.NotYet?)
    && (s.buffer.closed ==> s.buffer.text == "")
    && (forall c :: c in s.chunks ==> c != "")
    && s.reader != Holds("") && s.closer != Closing("")
    && (s.before.Some? ==> s.before.value <= |s.accepted|)
  }

  lemma StepConserves(s: System, a: Action)
    requires Conserved(s) && Enabled(s, a)
    ensures Conserved(Step(s, a))
  {
    hide Concat;
    match a
    case ReaderHandsOver => ConcatSnoc(s.chunks, s.reader.text);
    case CloserHandsOver => ConcatSnoc(s.chunks, s.closer.text);
    case _ =>
  }

  lemma {:induction false} Conservation(actions: seq<Action>)
    requires Exec(actions).Some?
    ensures Conserved(Exec(actions).value)
  {
    if actions != [] {
      hide Conserved, Step;
      Conservation(actions[..|actions| - 1]);
      StepConserves(Exec(actions[..|actions| - 1]).value, actions[|actions| - 1]);
    } else {
      assert Concat([]) == "";
    }
  }

  /** The text appended before the turn is closed. */
  function TextBeforeClose(actions: seq<Action>): string {
    if actions == [] then ""
    else
      var front, last := actions[..|actions| - 1], actions[|actions| - 1];
      TextBeforeClose(front) + (if last.ReaderAppends? && CloserTakes !in front then last.text else "")
  }

  /** The text that is accounted for is all text appended before the close. */
  lemma {:induction false} AcceptedIs(actions: seq<Action>)
    requires Exec(actions).Some?
    ensures Exec(actions).value.accepted == TextBeforeClose(actions)
    ensures Exec(actions).value.buffer.closed <==> CloserTakes in actions
  {
    if actions != [] {
      var front, last := actions[..|actions| - 1], actions[|actions| - 1];
      AcceptedIs(front);
      Conservation(front);
      assert actions == front + [last];
      assert Exec(actions).value == Step(Exec(front).value, last);
      hide Exec, Concat;
      assert TextBeforeClose(front) + "" == TextBeforeClose(front);
      assert last.ReaderTakes? && Exec(front).value.buffer.closed ==> Step(Exec(front).value, last).buffer.closed;
    }
  }

  /**
   When the closing call has returned, OnChunk has received all accepted text exactly when the reader is not
   between taking text and handing it over.
   */
  lemma ReturnIsCompleteIff(actions: seq<Action>)
    requires Exec(actions).Some? && Exec(actions).value.closer.Returned?
    ensures var s := Exec(actions).value;
      && (Concat(s.chunks) == s.accepted <==> !s.reader.Holds?)
      && (s.reader.Holds? ==> Concat(s.chunks) + s.reader.text == s.accepted)
  {
    hide Exec, Concat;
    Conservation(actions);
    var s := Exec(actions).value;
    if s.reader.Holds? {
      assert |Concat(s.chunks) + s.reader.text| > |Concat(s.chunks)|;
    }
  }

  /**
   A boundary event takes effect after all text accepted before it exactly when the closer is not between taking text
   and handing it over; otherwise it overtakes just the closer's chunk.
   */
  lemma BoundaryIsCompleteIff(actions: seq<Action>)
    requires Exec(actions).Some? && Enabled(Exec(actions).value, ReaderActs)
    ensures var s := Exec(actions).value;
      && (Concat(s.chunks) == s.accepted <==> !s.closer.Closing?)
      && (s.closer.Closing? ==> Concat(s.chunks) + s.closer.text == s.accepted)
  {
    hide Exec, Concat;
    Conservation(actions);
    var s := Exec(actions).value;
    if s.closer.Closing? {
      assert |Concat(s.chunks) + s.closer.text| > |Concat(s.chunks)|;
    }
  }

  // ----- after the prompt's response -----

  lemma {:induction false} NoFlushSince(front: seq<Action>, rest: seq<Action>)
    requires Exec(front + [ReaderResponds] + rest).Some? && ReaderTakes !in rest
    ensures Exec(front + [ReaderResponds] + rest).value.reader.Free?
  {
    var all := front + [ReaderResponds] + rest;
    var n := |all| - 1;
    if rest == [] {
      assert all[n] == ReaderResponds;
    } else {
      var last := rest[|rest| - 1];
      assert all[..n] == front + [ReaderResponds] + rest[..|rest| - 1] && all[n] == last && last in rest;
      assert forall a :: a in rest[..|rest| - 1] ==> a in rest;
      NoFlushSince(front, rest[..|rest| - 1]);
    }
  }

  /** If no boundary event follows the prompt's response, the closing call returns with all accepted text delivered. */
  lemma ReturnAfterResponse(front: seq<Action>, rest: seq<Action>)
    requires Exec(front + [ReaderResponds] + rest).Some? && ReaderTakes !in rest
    requires Exec(front + [ReaderResponds] + rest).value.closer.Returned?
    ensures var s := Exec(front + [ReaderResponds] + rest).value; Concat(s.chunks) == s.accepted
  {
    hide Exec, Concat;
    NoFlushSince(front, rest);
    ReturnIsCompleteIff(front + [ReaderResponds] + rest);
  }

  /**
   In general the text that came before the response is delivered at the return exactly if the reader does not hold
   some of it, taken for a boundary event that came after the response.
   */
  lemma ResponseTextIff(actions: seq<Action>)
    requires Exec(actions).Some? && Exec(actions).value.closer.Returned? && Exec(actions).value.before.Some?
    ensures var s := Exec(actions).value;
      && s.before.value <= |s.accepted|
      && (s.accepted[..s.before.value] <= Concat(s.chunks) <==>
            s.reader.Holds? ==> s.before.value + |s.reader.text| <= |s.accepted|)
  {
    hide Exec, Concat;
    Conservation(actions);
    ReturnIsCompleteIff(actions);
    var s := Exec(actions).value;
    assert Concat(s.chunks) == s.accepted[..|Concat(s.chunks)|];
  }

  lemma ExecOne(s: System, actions: seq<Action>, a: Action)
    requires Exec(actions) == Some(s) && Enabled(s, a)
    ensures Exec(actions + [a]) == Some(Step(s, a))
  {
    assert (actions + [a])[..|actions|] == actions;
  }

  lemma OneAppended(text: string)
    ensures Exec([ReaderAppends(text)]) == Some(System(Buffer(text, false), Free, NotYet, [], text, None))
  {
    assert "" + text == text;
    ExecOne(START, [], ReaderAppends(text));
    assert [] + [ReaderAppends(text)] == [ReaderAppends(text)];
  }

  /** The gap is real where the prompt fails: one chunk, taken by the reader, is undelivered when the closing call returns. */
  lemma ReturnBeforeLastChunk(text: string)
    requires text != ""
    ensures Exec([ReaderAppends(text)] + [ReaderTakes] + [CloserTakes]) ==
            Some(System(Buffer("", true), Holds(text), Returned, [], text, None))
  {
    OneAppended(text);
    var appended := System(Buffer(text, false), Free, NotYet, [], text, None);
    hide Exec;
    ExecOne(appended, [ReaderAppends(text)], ReaderTakes);
    ExecOne(Step(appended, ReaderTakes), [ReaderAppends(text)] + [ReaderTakes], CloserTakes);
  }

  /** And after the response: a chunk that came before it, taken for a boundary event that came after it. */
  lemma ReturnBeforeEarlierChunk(text: string)
    requires text != ""
    ensures Exec([ReaderAppends(text)] + [ReaderResponds] + [ReaderTakes] + [CloserTakes]) ==
            Some(System(Buffer("", true), Holds(text), Returned, [], text, Some(|text|)))
  {
    OneAppended(text);
    var appended := System(Buffer(text, false), Free, NotYet, [], text, None);
    var responded := Step(appended, ReaderResponds);
    hide Exec;
    ExecOne(appended, [ReaderAppends(text)], ReaderResponds);
    ExecOne(responded, [ReaderAppends(text)] + [ReaderResponds], ReaderTakes);
    ExecOne(Step(responded, ReaderTakes), [ReaderAppends(text)] + [ReaderResponds] + [ReaderTakes], CloserTakes);
  }

  /** A boundary event does overtake text: the closer has taken it, and the reader finds nothing to flush. */
  lemma BoundaryOvertakes(text: string)
    requires text != ""
    ensures Exec([ReaderAppends(text)] + [CloserTakes] + [ReaderTakes] + [ReaderActs]) ==
            Some(System(Buffer("", true), Free, Closing(text), [], text, None))
  {
    OneAppended(text);
    var appended := System(Buffer(text, false), Free, NotYet, [], text, None);
    var taken := Step(appended, CloserTakes);
    hide Exec;
    ExecOne(appended, [ReaderAppends(text)], CloserTakes);
    ExecOne(taken, [ReaderAppends(text)] + [CloserTakes], ReaderTakes);
    ExecOne(Step(taken, ReaderTakes), [ReaderAppends(text)] + [CloserTakes] + [ReaderTakes], ReaderActs);
  }

  // ----- the order callers see -----

  /** What a line of harness output is to the active turn. */
  datatype Update = MessageChunk(text: string) | OtherUpdate(kind: string)
  datatype Inbound =
    | SessionUpdate(sessionID: string, update: Update)
    | ForeignNotification(name: string)
    | PermissionRequest(body: string)
    | OtherRequest(name: string)
    | Malformed

  /** OnChunk calls, and the events that end a run of chunks, in the order they take effect. */
  datatype Effect = OnChunk(text: string) | Boundary(event: Inbound)

  predicate Addressed(turnSession: string, lineSession: string) {
    !(lineSession != "" && turnSession != "" && turnSession != lineSession)
  }

  /** The text a line adds, or the boundary it is; other lines are nothing to the turn. */
  function Meaning(turnSession: string, line: Inbound): Option<Effect> {
    match line
    case SessionUpdate(sessionID, update) =>
      if !Addressed(turnSession, sessionID) then None
      else if update.MessageChunk? then Some(OnChunk(update.text))
      else Some(Boundary(line))
    case ForeignNotification(_) => Some(Boundary(line))
    case PermissionRequest(_) => Some(Boundary(line))
    case OtherRequest(_) => None
    case Malformed => None
  }

  /** Adjacent chunks run together, empty ones vanish; boundaries stand where they were. */
  function Merge(effects: seq<Effect>): seq<Effect> {
    if effects == [] then []
    else MergeOne(Merge(effects[..|effects| - 1]), effects[|effects| - 1])
  }

  function MergeOne(merged: seq<Effect>, last: Effect): seq<Effect> {
    if last == OnChunk("") then merged
    else if last.OnChunk? && merged != [] && merged[|merged| - 1].OnChunk? then
      merged[..|merged| - 1] + [OnChunk(merged[|merged| - 1].text + last.text)]
    else merged + [last]
  }

  function Meanings(turnSession: string, lines: seq<Inbound>): seq<Effect> {
    if lines == [] then []
    else
      var last := Meaning(turnSession, lines[|lines| - 1]);
      Meanings(turnSession, lines[..|lines| - 1]) + (if last.Some? then [last.value] else [])
  }

  function AsEffects(text: string): seq<Effect> {
    if text == "" then [] else [OnChunk(text)]
  }

  /** The reader's loop over harness output while one turn is active. */
  class Reader {
    const turn: ActiveTurn
    var effects: seq<Effect>

    constructor (turn: ActiveTurn)
      ensures this.turn == turn && effects == []
    {
      this.turn, effects := turn, [];
    }

    /** A closed turn's buffer is empty. */
    predicate Valid()
      reads turn
    {
      turn.closed ==> turn.textBuf == ""
    }

    method Flush(closeTurn: bool)
      requires Valid()
      modifies this, turn
      ensures Valid() && turn.textBuf == "" && turn.closed == (old(turn.closed) || closeTurn)
      ensures effects == old(effects) + AsEffects(old(turn.textBuf))
    {
      var text := turn.TakeText(closeTurn);
      turn.HandOver(text);
      effects := effects + AsEffects(text);
    }

    method HandleLine(line: Inbound)
      requires Valid()
      modifies this, turn
      ensures Valid() && turn.closed == old(turn.closed)
      ensures match Meaning(turn.sessionID, line)
              case None => effects == old(effects) && turn.textBuf == old(turn.textBuf)
              case Some(OnChunk(text)) =>
                effects == old(effects) && turn.textBuf == if turn.closed then "" else old(turn.textBuf) + text
              case Some(b) => effects == old(effects) + AsEffects(old(turn.textBuf)) + [b] && turn.textBuf == ""
    {
      match line
      case Malformed => return;
      case OtherRequest(_) => return;
      case PermissionRequest(_) =>
        Flush(false);
        effects := effects + [Boundary(line)];
      case ForeignNotification(_) =>
        Flush(false);
        effects := effects + [Boundary(line)];
      case SessionUpdate(sessionID, update) =>
        if sessionID != "" && turn.sessionID != "" && turn.sessionID != sessionID {
          return;
        }
        if !update.MessageChunk? {
          Flush(false);
          effects := effects + [Boundary(line)];
        } else {
          turn.AppendText(update.text);
        }
    }

    /** Lines of an open turn. */
    method HandleOpen(lines: seq<Inbound>)
      requires !turn.closed && turn.textBuf == "" && effects == []
      modifies this, turn
      ensures !turn.closed && effects + AsEffects(turn.textBuf) == Merge(Meanings(turn.sessionID, lines))
    {
      hide Meaning, Meanings, Merge, AsEffects;
      NothingYet(turn.sessionID);
      assert lines[..0] == [];
      for i := 0 to |lines|
        invariant !turn.closed
        invariant effects + AsEffects(turn.textBuf) == Merge(Meanings(turn.sessionID, lines[..i]))
        invariant effects != [] ==> effects[|effects| - 1].Boundary?
      {
        MergeStep(turn.sessionID, lines, i, effects, turn.textBuf);
        HandleLine(lines[i]);
      }
      assert lines[..|lines|] == lines;
    }

    /** Lines that come after the close: their text is dropped, their boundary events still take effect. */
    method HandleClosed(lines: seq<Inbound>)
      requires turn.closed && turn.textBuf == ""
      modifies this, turn
      ensures turn.closed && turn.textBuf == ""
      ensures effects == old(effects) + Boundaries(Meanings(turn.sessionID, lines))
    {
      hide Meaning, Meanings, Boundaries, AsEffects;
      NothingYet(turn.sessionID);
      assert lines[..0] == [];
      for i := 0 to |lines|
        invariant turn.closed && turn.textBuf == ""
        invariant effects == old(effects) + Boundaries(Meanings(turn.sessionID, lines[..i]))
      {
        BoundariesStep(turn.sessionID, lines, i);
        HandleLine(lines[i]);
      }
      assert lines[..|lines|] == lines;
    }

    /** Reading a whole turn that the closing call, by another goroutine, cuts off between two lines. */
    method HandleTurn(lines: seq<Inbound>, late: seq<Inbound>)
      requires !turn.closed && turn.textBuf == "" && effects == []
      modifies this, turn
      ensures turn.closed && turn.textBuf == ""
      ensures effects == Merge(Meanings(turn.sessionID, lines)) + Boundaries(Meanings(turn.sessionID, late))
      ensures Flatten(effects) == Heard(turn.sessionID, lines) + Marks(turn.sessionID, late)
    {
      HandleOpen(lines);
      Flush(true);
      HandleClosed(late);
      HeardIs(turn.sessionID, lines);
      MarksAre(turn.sessionID, late);
      FlattenAppend(Merge(Meanings(turn.sessionID, lines)), Boundaries(Meanings(turn.sessionID, late)));
    }
  }

  /** The boundary events alone. */
  function Boundaries(effects: seq<Effect>): seq<Effect> {
    if effects == [] then []
    else
      var last := effects[|effects| - 1];
      Boundaries(effects[..|effects| - 1]) + (if last.Boundary? then [last] else [])
  }

  lemma BoundariesStep(turnSession: string, lines: seq<Inbound>, i: nat)
    requires i < |lines|
    ensures Boundaries(Meanings(turnSession, lines[..i + 1])) ==
            Boundaries(Meanings(turnSession, lines[..i])) +
            match Meaning(turnSession, lines[i])
            case Some(Boundary(event)) => [Boundary(event)]
            case _ => []
  {
    assert lines[..i + 1][..i] == lines[..i];
    var front, last := Meanings(turnSession, lines[..i]), Meaning(turnSession, lines[i]);
    var longer := Meanings(turnSession, lines[..i + 1]);
    assert longer == front + (if last.Some? then [last.value] else []);
    hide Meanings, Meaning;
    if last.Some? {
      assert longer[..|front|] == front;
    } else {
      assert longer == front && Boundaries(front) + [] == Boundaries(front);
    }
  }

  lemma NothingYet(turnSession: string)
    ensures Merge(Meanings(turnSession, [])) == [] && Boundaries(Meanings(turnSession, [])) == [] && AsEffects("") == []
  {
  }

  lemma MergeOneExtends(effects: seq<Effect>, text: string, last: Effect)
    requires effects != [] ==> effects[|effects| - 1].Boundary?
    ensures MergeOne(effects + AsEffects(text), last) ==
            match last
            case OnChunk(more) => effects + AsEffects(text + more)
            case Boundary(_) => effects + AsEffects(text) + [last]
  {
    if last.OnChunk? {
      var more := last.text;
      if more == "" {
        assert text + more == text;
      } else if text == "" {
        assert text + more == more && effects + AsEffects(text) == effects;
      } else {
        MergeOntoText(effects, text, more);
      }
    }
  }

  lemma MergeOntoText(effects: seq<Effect>, text: string, more: string)
    requires text != "" && more != ""
    ensures MergeOne(effects + [OnChunk(text)], OnChunk(more)) == effects + [OnChunk(text + more)]
  {
    var merged := effects + [OnChunk(text)];
    assert merged[|merged| - 1] == OnChunk(text) && merged[..|merged| - 1] == effects;
  }

  lemma {:induction false} MergeStep(turnSession: string, lines: seq<Inbound>, i: nat, effects: seq<Effect>, text: string)
    requires i < |lines|
    requires effects + AsEffects(text) == Merge(Meanings(turnSession, lines[..i]))
    requires effects != [] ==> effects[|effects| - 1].Boundary?
    ensures Merge(Meanings(turnSession, lines[..i + 1])) ==
            match Meaning(turnSession, lines[i])
            case None => effects + AsEffects(text)
            case Some(OnChunk(more)) => effects + AsEffects(text + more)
            case Some(b) => effects + AsEffects(text) + [b]
  {
    assert lines[..i + 1][..i] == lines[..i];
    var front := Meanings(turnSession, lines[..i]);
    var last := Meaning(turnSession, lines[i]);
    var longer := Meanings(turnSession, lines[..i + 1]);
    assert longer == front + (if last.Some? then [last.value] else []);
    hide Meanings, Meaning;
    if last.Some? {
      assert longer[..|front|] == front;
      assert Merge(longer) == MergeOne(Merge(front), last.value);
      hide Merge, MergeOne, AsEffects;
      MergeOneExtends(effects, text, last.value);
    } else {
      assert front + [] == front;
    }
  }

  // ----- what the merged trace is -----

  /** Effects with the cuts between chunks forgotten. */
  datatype Symbol = Char(c: char) | Mark(event: Inbound)

  function Symbols(e: Effect): (s: seq<Symbol>)
    ensures e.OnChunk? ==> |s| == |e.text|
  {
    match e
    case OnChunk(text) => seq(|text|, i requires 0 <= i < |text| => Char(text[i]))
    case Boundary(event) => [Mark(event)]
  }

  function Flatten(effects: seq<Effect>): seq<Symbol> {
    if effects == [] then [] else Flatten(effects[..|effects| - 1]) + Symbols(effects[|effects| - 1])
  }

  lemma FlattenSnoc(effects: seq<Effect>, e: Effect)
    ensures Flatten(effects + [e]) == Flatten(effects) + Symbols(e)
  {
    assert (effects + [e])[..|effects|] == effects;
  }

  lemma SymbolsJoin(a: string, b: string)
    ensures Symbols(OnChunk(a + b)) == Symbols(OnChunk(a)) + Symbols(OnChunk(b))
  {
  }

  lemma MergeOneKeepsOrder(merged: seq<Effect>, last: Effect)
    ensures Flatten(MergeOne(merged, last)) == Flatten(merged) + Symbols(last)
  {
    hide Flatten, Symbols;
    if last == OnChunk("") {
      NoSymbols();
    } else if last.OnChunk? && merged != [] && merged[|merged| - 1].OnChunk? {
      var kept, open := merged[..|merged| - 1], merged[|merged| - 1];
      assert kept + [open] == merged;
      FlattenSnoc(kept, open);
      FlattenSnoc(kept, OnChunk(open.text + last.text));
      SymbolsJoin(open.text, last.text);
    } else {
      FlattenSnoc(merged, last);
    }
  }

  /** Merging moves no character across a boundary and loses none: the text before a boundary is the text received before it. */
  lemma {:induction false} MergeKeepsOrder(effects: seq<Effect>)
    ensures Flatten(Merge(effects)) == Flatten(effects)
  {
    if effects != [] {
      var front, last := effects[..|effects| - 1], effects[|effects| - 1];
      assert Merge(effects) == MergeOne(Merge(front), last);
      MergeKeepsOrder(front);
      assert front + [last] == effects;
      hide Flatten, Symbols, Merge, MergeOne;
      FlattenSnoc(front, last);
      MergeOneKeepsOrder(Merge(front), last);
    }
  }

  lemma NoSymbols()
    ensures Symbols(OnChunk("")) == []
  {
  }

  // ----- in terms of the lines alone -----

  /** A session update is the turn's when it names the turn's session, or one of them names none. */
  predicate OfTurn(session: string, line: Inbound) {
    line.SessionUpdate? && (line.sessionID == session || line.sessionID == "" || session == "")
  }

  predicate IsChunk(session: string, line: Inbound) {
    OfTurn(session, line) && line.update.MessageChunk?
  }

  predicate IsBoundary(session: string, line: Inbound) {
    line.PermissionRequest? || line.ForeignNotification? || (OfTurn(session, line) && line.update.OtherUpdate?)
  }

  function Chars(text: string): seq<Symbol> {
    seq(|text|, i requires 0 <= i < |text| => Char(text[i]))
  }

  /** The text of the turn's chunks, character by character, and its boundary events, as they came. */
  function Heard(session: string, lines: seq<Inbound>): seq<Symbol> {
    if lines == [] then []
    else
      var last := lines[|lines| - 1];
      Heard(session, lines[..|lines| - 1]) +
      (if IsChunk(session, last) then Chars(last.update.text)
       else if IsBoundary(session, last) then [Mark(last)]
       else [])
  }

  /** The boundary events alone. */
  function Marks(session: string, lines: seq<Inbound>): seq<Symbol> {
    if lines == [] then []
    else
      var last := lines[|lines| - 1];
      Marks(session, lines[..|lines| - 1]) + (if IsBoundary(session, last) then [Mark(last)] else [])
  }

  lemma MeaningIs(session: string, line: Inbound)
    ensures Meaning(session, line) ==
            if IsChunk(session, line) then Some(OnChunk(line.update.text))
            else if IsBoundary(session, line) then Some(Boundary(line))
            else None
  {
  }

  lemma ChunkSymbols(text: string)
    ensures Symbols(OnChunk(text)) == Chars(text)
  {
  }

  /** The callbacks of a turn spell exactly its chunks, each boundary event after just the text of the chunks before it. */
  lemma {:induction false} HeardIs(session: string, lines: seq<Inbound>)
    ensures Flatten(Merge(Meanings(session, lines))) == Heard(session, lines)
  {
    hide Merge, Meaning, Chars;
    MergeKeepsOrder(Meanings(session, lines));
    if lines == [] {
    } else {
      var front, last := lines[..|lines| - 1], lines[|lines| - 1];
      HeardIs(session, front);
      MergeKeepsOrder(Meanings(session, front));
      MeaningIs(session, last);
      var meaning := Meaning(session, last);
      assert Meanings(session, lines) == Meanings(session, front) + (if meaning.Some? then [meaning.value] else []);
      hide Meanings, Heard, Flatten;
      if meaning.Some? {
        FlattenSnoc(Meanings(session, front), meaning.value);
        if IsChunk(session, last) {
          ChunkSymbols(last.update.text);
        }
        HeardSnoc(session, front, last);
      } else {
        assert Meanings(session, front) + [] == Meanings(session, front);
        HeardSnoc(session, front, last);
      }
      assert lines == front + [last];
    }
  }

  lemma {:induction false} HeardSnoc(session: string, lines: seq<Inbound>, last: Inbound)
    ensures Heard(session, lines + [last]) == Heard(session, lines) +
      (if IsChunk(session, last) then Chars(last.update.text) else if IsBoundary(session, last) then [Mark(last)] else [])
    ensures Marks(session, lines + [last]) ==
            Marks(session, lines) + (if IsBoundary(session, last) then [Mark(last)] else [])
  {
    assert (lines + [last])[..|lines|] == lines;
  }

  lemma {:induction false} MarksAre(session: string, lines: seq<Inbound>)
    ensures Flatten(Boundaries(Meanings(session, lines))) == Marks(session, lines)
  {
    if lines == [] {
    } else {
      var front, last := lines[..|lines| - 1], lines[|lines| - 1];
      MarksAre(session, front);
      MeaningIs(session, last);
      assert lines[..|lines|] == lines && lines == front + [last];
      hide Meaning, Meanings, Boundaries, Flatten, Marks;
      BoundariesStep(session, lines, |lines| - 1);
      HeardSnoc(session, front, last);
      var before := Boundaries(Meanings(session, front));
      if IsBoundary(session, last) {
        FlattenSnoc(before, Boundary(last));
      } else {
        assert before + [] == before && Marks(session, front) + [] == Marks(session, front);
      }
    }
  }

  lemma Associative<T>(a: seq<T>, b: seq<T>, c: seq<T>)
    ensures a + b + c == a + (b + c)
  {
  }

  lemma {:induction false} FlattenAppend(a: seq<Effect>, b: seq<Effect>)
    ensures Flatten(a + b) == Flatten(a) + Flatten(b)
  {
    if b == [] {
      assert a + b == a && Flatten(a) + [] == Flatten(a);
    } else {
      var n := |b| - 1;
      var front, last := b[..n], b[n];
      assert b == front + [last];
      hide Flatten, Symbols;
      FlattenAppend(a, front);
      Associative(a, front, [last]);
      FlattenSnoc(a + front, last);
      FlattenSnoc(front, last);
      Associative(Flatten(a), Flatten(front), Symbols(last));
    }
  }

  /** Lines of another named session, other requests and malformed lines can be deleted without a difference. */
  lemma {:induction false} NothingToTurn(session: string, a: seq<Inbound>, line: Inbound, b: seq<Inbound>)
    requires (line.SessionUpdate? && line.sessionID != "" && session != "" && line.sessionID != session) ||
             line.OtherRequest? || line.Malformed?
    ensures Meanings(session, a + [line] + b) == Meanings(session, a + b)
  {
    if b == [] {
      assert a + [line] + b == a + [line] && a + b == a && (a + [line])[..|a|] == a;
      MeaningIs(session, line);
      assert Meanings(session, a) + [] == Meanings(session, a);
    } else {
      var n := |b| - 1;
      NothingToTurn(session, a, line, b[..n]);
      assert (a + [line] + b)[..|a| + 1 + n] == a + [line] + b[..n] && (a + b)[..|a| + n] == a + b[..n];
    }
  }

  /** No chunk is empty, and no two are adjacent: a run of chunks yields at most one call. */
  lemma {:induction false} MergeIsTight(effects: seq<Effect>)
    ensures Tight(Merge(effects))
  {
    if effects != [] {
      assert Merge(effects) == MergeOne(Merge(effects[..|effects| - 1]), effects[|effects| - 1]);
      hide Merge;
      MergeIsTight(effects[..|effects| - 1]);
    }
  }

  ghost predicate Tight(effects: seq<Effect>) {
    && OnChunk("") !in effects
    && forall i :: 0 <= i < |effects| - 1 ==> effects[i].Boundary? || effects[i + 1].Boundary?
  }

  lemma TightFront(effects: seq<Effect>)
    requires Tight(effects) && effects != []
    ensures Tight(effects[..|effects| - 1])
    ensures Symbols(effects[|effects| - 1]) != []
  {
    var last := effects[|effects| - 1];
    assert last in effects;
    assert forall e :: e in effects[..|effects| - 1] ==> e in effects;
  }

  /** The last chunk of a tight trace reaches back to the boundary before it. */
  lemma {:induction false} LastChunkIsWhole(front: seq<Effect>, text: string, symbols: seq<Symbol>, longer: string)
    requires Flatten(front) + Symbols(OnChunk(text)) == symbols + Symbols(OnChunk(longer))
    requires front != [] ==> front[|front| - 1].Boundary?
    ensures |text| >= |longer|
  {
    var before := Flatten(front);
    var all := before + Symbols(OnChunk(text));
    assert front != [] ==> |before| > 0 && all[|before| - 1] == Mark(front[|front| - 1].event);
    forall p | |symbols| <= p < |all|
      ensures all[p].Char?
    {
      assert all[p] == Symbols(OnChunk(longer))[p - |symbols|];
    }
    assert |all| == |symbols| + |longer|;
  }

  /** These two facts leave no choice: a tight trace is determined by its symbols. */
  lemma {:induction false} TightTraceUnique(a: seq<Effect>, b: seq<Effect>)
    requires Flatten(a) == Flatten(b) && Tight(a) && Tight(b)
    ensures a == b
  {
    if a == [] || b == [] {
      if a != [] {
        TightFront(a);
      }
      if b != [] {
        TightFront(b);
      }
    } else {
      var fa, la, fb, lb := a[..|a| - 1], a[|a| - 1], b[..|b| - 1], b[|b| - 1];
      TightFront(a);
      TightFront(b);
      var all := Flatten(a);
      assert all == Flatten(fa) + Symbols(la) && all == Flatten(fb) + Symbols(lb);
      hide Flatten, Tight;
      assert all[|all| - 1] == Symbols(la)[|Symbols(la)| - 1] == Symbols(lb)[|Symbols(lb)| - 1];
      assert la.OnChunk? <==> lb.OnChunk?;
      if la.OnChunk? {
        LastChunkIsWhole(fa, la.text, Flatten(fb), lb.text);
        LastChunkIsWhole(fb, lb.text, Flatten(fa), la.text);
      }
      hide Symbols;
      SameSuffix(Flatten(fa), Symbols(la), Flatten(fb), Symbols(lb));
      SymbolsInjective(la, lb);
      TightTraceUnique(fa, fb);
      assert a == fa + [la] && b == fb + [lb];
    }
  }

  lemma {:induction false} SameSuffix(a: seq<Symbol>, s: seq<Symbol>, b: seq<Symbol>, t: seq<Symbol>)
    requires a + s == b + t && |s| == |t|
    ensures a == b && s == t
  {
    assert a == (a + s)[..|a|] && b == (b + t)[..|b|];
    assert s == (a + s)[|a|..] && t == (b + t)[|b|..];
  }

  lemma SymbolsInjective(x: Effect, y: Effect)
    requires Symbols(x) == Symbols(y) && (x.OnChunk? <==> y.OnChunk?)
    ensures x == y
  {
    if x.OnChunk? {
      forall i | 0 <= i < |x.text|
        ensures x.text[i] == y.text[i]
      {
        assert Symbols(x)[i] == Char(x.text[i]) && Symbols(y)[i] == Char(y.text[i]);
      }
    } else {
      assert Symbols(x)[0] == Symbols(y)[0];
    }
  }
}
