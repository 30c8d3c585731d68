/**
 TurnPoller: turning repeated reads of one conversation into updates for one prompt turn.
 The class updates its fields in place as the source does; each method is specified by a function
 on the value of those fields, and PollRuns proves what whole runs of those functions emit.
 */
module Poller {
  import opened Common
  import opened Utf8
  import opened Proto
  import opened Transcript

  datatype Update =
    | Chunk(text: Bytes)
    | ToolStart(idx: int, stepType: int, call: Call)
    | ToolDone(idx: int, stepType: int, name: Bytes)

  /** An update together with the row it came from. */
  datatype Emission = Emission(row: int, update: Update)

  function Updates(log: seq<Emission>): (us: seq<Update>)
    ensures |us| == |log|
  {
    seq(|log|, i requires 0 <= i < |log| => log[i].update)
  }

  /** What the poller is configured with; the two predicates stand for code outside the model. */
  datatype Options = Options(showNarration: bool, isNarration: Bytes -> bool, isJson: Bytes -> bool) {
    predicate Hides(text: Bytes) {
      !showNarration && isNarration(text)
    }
  }

  // ----- one row -----

  /** How far one row has been sent: bytes of text, and whether its tool pair went out. */
  datatype View = View(mark: nat, toolSent: bool)

  function ObserveText(o: Options, v: View, payload: Bytes): (View, seq<Update>) {
    match StepText(payload)
    case None => (v, [])
    case Some(text) =>
      if text == [] then (v, [])
      else
        var (delta, watermark) := NextDelta(text, v.mark);
        if o.Hides(text) then (v.(mark := |text|), [])
        else if delta == [] then (v, [])
        else (v.(mark := watermark), [Chunk(delta)])
  }

  function ToolPair(step: Step, call: Call): seq<Update> {
    [ToolStart(step.idx, step.stepType, call), ToolDone(step.idx, step.stepType, call.name)]
  }

  function ObserveTool(o: Options, v: View, step: Step): (View, seq<Update>) {
    if v.toolSent then (v, [])
    else
      match StepToolCall(step.payload, o.isJson)
      case None => (v, [])
      case Some(call) => (v.(toolSent := true), ToolPair(step, call))
  }

  function Observe(o: Options, v: View, step: Step): (View, seq<Update>) {
    if step.stepType == STEP_TYPE_TEXT then ObserveText(o, v, step.payload)
    else if step.stepType in TOOL_STEP_TYPES then ObserveTool(o, v, step)
    else (v, [])
  }

  // ----- all rows of one poll -----

  datatype Progress = Progress(lastIdx: int, emittedText: map<int, nat>, emittedTools: set<int>) {
    function ViewOf(idx: int): View {
      View(if idx in emittedText then emittedText[idx] else 0, idx in emittedTools)
    }
  }

  function ReadStep(o: Options, p: Progress, step: Step): (Progress, seq<Update>) {
    var before := p.ViewOf(step.idx);
    var (after, updates) := Observe(o, before, step);
    (Progress(
       Max(p.lastIdx, step.idx),
       if after.mark == before.mark then p.emittedText else p.emittedText[step.idx := after.mark],
       if after.toolSent == before.toolSent then p.emittedTools else p.emittedTools + {step.idx}),
     updates)
  }

  lemma ChangesNeedAType(o: Options, p: Progress, step: Step)
    requires step.stepType != STEP_TYPE_TEXT && step.stepType !in TOOL_STEP_TYPES
    ensures ReadStep(o, p, step) == (p.(lastIdx := Max(p.lastIdx, step.idx)), [])
  {
  }

  lemma LastIdxFirst(o: Options, p: Progress, step: Step)
    ensures ReadStep(o, p.(lastIdx := Max(p.lastIdx, step.idx)), step) == ReadStep(o, p, step)
    ensures ReadStep(o, p, step).0.lastIdx == Max(p.lastIdx, step.idx)
  {
    assert p.(lastIdx := Max(p.lastIdx, step.idx)).ViewOf(step.idx) == p.ViewOf(step.idx);
  }

  function Tag(row: int, updates: seq<Update>): (log: seq<Emission>)
    ensures Updates(log) == updates
  {
    seq(|updates|, i requires 0 <= i < |updates| => Emission(row, updates[i]))
  }

  function ReadAll(o: Options, p: Progress, steps: seq<Step>): (Progress, seq<Emission>) {
    if steps == [] then (p, [])
    else
      var last := steps[|steps| - 1];
      var (mid, log) := ReadAll(o, p, steps[..|steps| - 1]);
      var (end, updates) := ReadStep(o, mid, last);
      (end, log + Tag(last.idx, updates))
  }

  lemma {:induction false} ReadAllSnoc(o: Options, p: Progress, steps: seq<Step>, i: nat)
    requires i < |steps|
    ensures var (mid, log) := ReadAll(o, p, steps[..i]);
            var (end, updates) := ReadStep(o, mid, steps[i]);
            ReadAll(o, p, steps[..i + 1]) == (end, log + Tag(steps[i].idx, updates))
  {
    assert steps[..i + 1][..i] == steps[..i];
  }

  lemma ReadAllNone(o: Options, p: Progress)
    ensures ReadAll(o, p, []) == (p, [])
    ensures Updates([]) == []
  {
  }

  lemma UpdatesAppend(a: seq<Emission>, b: seq<Emission>)
    ensures Updates(a + b) == Updates(a) + Updates(b)
  {
  }

  // ----- one poll -----

  datatype Listing = Unreadable | Listed(now: set<ConvId>)
  datatype Read = Rows(steps: seq<Step>) | NoStepsTable | Busy
  /** Everything a poll meets outside the poller: its context, the directory, and the database. */
  datatype Input = Input(cancelled: bool, listing: Listing, read: Read)
  datatype PollError = ContextDone | ListingFailed | AmbiguousConversation | ReadFailed

  datatype State = State(conversationID: ConvId, hadUpdates: bool, schemaMissing: bool, progress: Progress)

  /** The conversation of this turn, once the directory shows exactly one new file. */
  ghost function Bound(snapshot: Option<set<ConvId>>, conv: ConvId, input: Input): (r: (ConvId, Option<PollError>))
    ensures r.1.Some? ==> r.0 == conv
  {
    if conv != "" || snapshot.None? then (conv, None)
    else if input.cancelled then (conv, Some(ContextDone))
    else
      match input.listing
      case Unreadable => (conv, Some(ListingFailed))
      case Listed(now) =>
        match NewSince(snapshot.value, now)
        case NoNew => (conv, None)
        case OnlyNew(id) => (id, None)
        case Ambiguous => (conv, Some(AmbiguousConversation))
  }

  datatype Polled = Polled(state: State, log: seq<Emission>, error: Option<PollError>)

  ghost function PollOnce(o: Options, snapshot: Option<set<ConvId>>, s: State, input: Input): Polled {
    var (conv, error) := Bound(snapshot, s.conversationID, input);
    if error.Some? then Polled(s, [], error)
    else if conv == "" then Polled(s, [], None)
    else
      var b := s.(conversationID := conv);
      match input.read
      case NoStepsTable => Polled(b.(schemaMissing := true), [], None)
      case Busy => Polled(b, [], Some(ReadFailed))
      case Rows(steps) =>
        var (progress, log) := ReadAll(o, b.progress, steps);
        Polled(b.(schemaMissing := false, progress := progress, hadUpdates := b.hadUpdates || log != []), log, None)
  }

  function Initial(conv: ConvId, base: int): State {
    State(conv, false, false, Progress(base, map[], {}))
  }

  // ----- the poller -----

  class TurnPoller {
    const options: Options
    const snapshot: Option<set<ConvId>>
    const baseIdx: int
    var conversationID: ConvId
    var lastIdx: int
    var emittedText: map<int, nat>
    var emittedTools: set<int>
    var warnedNoText: set<int>
    var warnedNoName: set<int>
    var hadUpdates: bool
    var schemaMissing: bool
    var bindWarnedOnce: bool

    constructor (options: Options, conversationID: ConvId, baseIdx: int, snapshot: Option<set<ConvId>>)
      ensures this.options == options && this.snapshot == snapshot && this.baseIdx == baseIdx
      ensures Value() == Initial(conversationID, baseIdx)
      ensures warnedNoText == {} && warnedNoName == {} && !bindWarnedOnce
    {
      this.options, this.snapshot, this.baseIdx := options, snapshot, baseIdx;
      this.conversationID, lastIdx := conversationID, baseIdx;
      emittedText, emittedTools := map[], {};
      warnedNoText, warnedNoName := {}, {};
      hadUpdates, schemaMissing, bindWarnedOnce := false, false, false;
    }

    ghost function SentSoFar(): Progress
      reads this
    {
      Progress(lastIdx, emittedText, emittedTools)
    }

    ghost function Value(): State
      reads this
    {
      State(conversationID, hadUpdates, schemaMissing, SentSoFar())
    }

    method Bind(input: Input) returns (error: Option<PollError>)
      modifies this`conversationID, this`bindWarnedOnce
      ensures (conversationID, error) == Bound(snapshot, old(conversationID), input)
      ensures bindWarnedOnce <==> old(bindWarnedOnce) || error == Some(AmbiguousConversation)
    {
      if conversationID != "" || snapshot.None? {
        return None;
      }
      if input.cancelled {
        return Some(ContextDone);
      }
      if input.listing.Unreadable? {
        return Some(ListingFailed);
      }
      var found := OnlyNewSince(snapshot.value, input.listing.now);
      match found
      case NoNew => return None;
      case Ambiguous =>
        bindWarnedOnce := true;
        return Some(AmbiguousConversation);
      case OnlyNew(id) =>
        conversationID := id;
        return None;
    }

    method TextUpdate(step: Step) returns (update: Option<Update>)
      requires step.stepType == STEP_TYPE_TEXT
      modifies this`emittedText, this`warnedNoText
      ensures var (after, updates) := ReadStep(options, old(SentSoFar()), step);
        && emittedText == after.emittedText && emittedTools == after.emittedTools
        && updates == (if update.Some? then [update.value] else [])
      ensures warnedNoText == old(warnedNoText) + (if StepText(step.payload) in {None, Some([])} then {step.idx} else {})
    {
      var text := StepText(step.payload);
      if text.None? || text.value == [] {
        if step.idx !in warnedNoText {
          warnedNoText := warnedNoText + {step.idx};
        }
        return None;
      }
      var sent := if step.idx in emittedText then emittedText[step.idx] else 0;
      var delta, emitted := ComputeNextDelta(text.value, sent);
      if !options.showNarration && options.isNarration(text.value) {
        emittedText := emittedText[step.idx := |text.value|];
        return None;
      }
      if delta == [] {
        return None;
      }
      emittedText := emittedText[step.idx := emitted];
      return Some(Chunk(delta));
    }

    method ToolUpdates(step: Step) returns (updates: seq<Update>)
      requires step.stepType in TOOL_STEP_TYPES
      modifies this`emittedTools, this`warnedNoName
      ensures var (after, sent) := ReadStep(options, old(SentSoFar()), step);
        && emittedText == after.emittedText && emittedTools == after.emittedTools && updates == sent
      ensures warnedNoName == old(warnedNoName) +
        (if step.idx !in old(emittedTools) && StepToolCall(step.payload, options.isJson).None? then {step.idx} else {})
    {
      if step.idx in emittedTools {
        return [];
      }
      match StepToolCall(step.payload, options.isJson)
      case None =>
        if step.idx !in warnedNoName {
          warnedNoName := warnedNoName + {step.idx};
        }
        return [];
      case Some(call) =>
        emittedTools := emittedTools + {step.idx};
        return [ToolStart(step.idx, step.stepType, call), ToolDone(step.idx, step.stepType, call.name)];
    }

    /** The loop of Poll over the rows of a successful read. */
    method ReadRows(steps: seq<Step>) returns (updates: seq<Update>)
      modifies this`lastIdx, this`emittedText, this`emittedTools, this`warnedNoText, this`warnedNoName
      ensures var (after, log) := ReadAll(options, old(SentSoFar()), steps);
        && SentSoFar() == after && updates == Updates(log)
    {
      hide ReadAll, ReadStep, Updates, Tag;
      ghost var before, log: seq<Emission> := SentSoFar(), [];
      updates := [];
      ReadAllNone(options, before);
      for i := 0 to |steps|
        invariant (SentSoFar(), log) == ReadAll(options, before, steps[..i])
        invariant updates == Updates(log)
      {
        var step := steps[i];
        ReadAllSnoc(options, before, steps, i);
        LastIdxFirst(options, SentSoFar(), step);
        ghost var (after, sent) := ReadStep(options, SentSoFar(), step);
        UpdatesAppend(log, Tag(step.idx, sent));
        log := log + Tag(step.idx, sent);
        if step.idx > lastIdx {
          lastIdx := step.idx;
        }
        if step.stepType == STEP_TYPE_TEXT {
          var update := TextUpdate(step);
          if update.Some? {
            updates := updates + [update.value];
          }
        } else if step.stepType in TOOL_STEP_TYPES {
          var pair := ToolUpdates(step);
          updates := updates + pair;
        } else {
          ChangesNeedAType(options, SentSoFar(), step);
        }
      }
      assert steps[..|steps|] == steps;
    }

    method Poll(input: Input) returns (updates: seq<Update>, error: Option<PollError>)
      modifies this
      ensures var polled := PollOnce(options, snapshot, old(Value()), input);
        && Value() == polled.state && updates == Updates(polled.log) && error == polled.error
    {
      error := Bind(input);
      if error.Some? {
        return [], error;
      }
      if conversationID == "" {
        return [], None;
      }
      match input.read
      case NoStepsTable =>
        schemaMissing := true;
        return [], None;
      case Busy =>
        return [], Some(ReadFailed);
      case Rows(steps) =>
        schemaMissing := false;
        updates := ReadRows(steps);
        if |updates| > 0 {
          hadUpdates := true;
        }
        return updates, None;
    }
  }
}
