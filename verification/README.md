# Verification of wackyacp's state-keeping cores

This project models, in Dafny, the parts of wackyacp that keep state while other processes run, and proves what
they promise over whole runs. `dafny verify dfyconfig.toml` checks all of it.

* **The agy streaming pipeline.** agy has no push channel: the bridge re-reads a growing table of protobuf blobs and
  turns the snapshots into updates. `Wire`, `Proto` and `Utf8` model the wire scanner with its 64-bit wrap-around, the
  test stub's encoder, and the two places where UTF-8 text is cut (sections 3 and 4 of RFC 3629). `Transcript` is what a
  read of the database returns, `Poller` the `TurnPoller` object, `RowHistory` one row over a turn, `PollRuns` whole
  turns over a database that agy extends between polls, `Narration` the text filter, `Drain` the final polls,
  `Turns` chains of turns, `Binding` which conversation a turn finds and records, `TailBuffer` the kept end of agy's
  error output.
* **The ACP client.** `Coalescer` is the text buffer shared by reader and closer at lock granularity, and the order
  callers see; `Correlation` and `Answers` are the JSON-RPC request table (sections 4 and 5 of the JSON-RPC 2.0
  specification) with any number of concurrent requests.
* **The Claude SDK worker driver.** `Driver`: workers numbered by generation that start, die and restart while any
  number of turns register, write and wait; `DriverOutcomes` traces what each turn gets to the step that caused it.
* **The agy bridge.** `Dispatcher` is request conservation and one turn per session; `Sessions` the bounded cache in
  front of the durable session document, `Prompts` the turns that hold session values while others record.
* **Serve mode.** `Gate` is the process-wide turn gate shared by all connections, `PromptLoop` the select loop of one
  turn, `Replay` the pairing of tool responses with calls in stored history.

Objects that the source updates in place are classes whose methods are proved against a function of the old field
values; the protocols are runs of those same functions, interleaved with the steps of the other parties, and the
theorems are about all runs.

## Where the code falls short of what is written about it

Each of these is a theorem below, with the exact condition where there is one.

* Hiding narration makes the streamed text depend on when polls fall: it does exactly when a row flips between narration
  and prose between two readings (`PollRuns.ScheduleIndependence`, `Narration.HidingDependsOnSchedule`).
* A final drain takes a poll that found no steps table, or no conversation, for quiet and ends, with rows undelivered:
  exactly when is `Drain.QuietDrainDeliversIff`, and `Drain.UnboundDrainIsQuiet` and `Drain.QuietTooEarly` are such drains.
* A prompt resolves its session before it is registered, so it can hold the value from before the last turn's record
  (`Prompts.HoldIsStale`); it then streams again exactly the rows above the index it holds, all of the last turn's
  (`Turns.RowRepeatedIff`, `Turns.StaleTurnRepeats`). If it is a model command it undoes the record, and a turn's record
  undoes a model selected while it ran: exactly when is `Prompts.RecordSurvivesIff` and `Prompts.SelectionSurvivesIff`.
* A created session that was never written disappears when it is evicted: exactly when is
  `Sessions.UnwrittenLostIff`, and `Sessions.FirstOfManyIsForgotten` is a run.
* The agy bridge answers a prompt before it frees the session, so a prompt sent on seeing the answer can be refused
  (`Dispatcher.NextPromptIff`, `Dispatcher.PromptAfterReplyRefused`). Serve mode frees first (`Gate.AdmittedIff`).
* When the ACP client's closing call returns, a chunk may still be on its way to `OnChunk`, even one received before
  the prompt's response (`Coalescer.ReturnIsCompleteIff`, `Coalescer.ResponseTextIff`), and a tool event can overtake
  the closing call's chunk (`Coalescer.BoundaryIsCompleteIff`).
* Restarting the SDK worker after `Close`, before the old one is reaped, deprives exactly the turns still registered with
  the old one of its death notice; once it is gone, only a later worker or their own context releases them
  (`Driver.NoStrandedTurn`, `Driver.StrandedUntil`, `Driver.CloseCanStrand`).
* A closing connection checks that the active turn is its own and then cancels whichever turn is active
  (`Gate.CloserHitsOwnTurnIff`, `Gate.CloserCanCancelAnother`).
* A turn can end as `end_turn` although a cancel was requested or its client had left (`PromptLoop.StopReasonIff`,
  `PromptLoop.RequestedButEndTurn`).
* A replay completes a call more often than it announces it exactly when responses meet it too often by id and by name
  together (`Replay.SingleCompletionIff`, `Replay.MixedCompletesTwice`).

## Model

| member | source | states |
|---|---|---|
| Wire.ReadVarint | internal/agy/protobuf.go:35-48 | the shifting, ORing loop yields the base-128 value of the first varint modulo 2^64 and its width, and fails when none ends within ten bytes |
| Wire.AccumulateDigit | internal/agy/protobuf.go:37-43 | ORing a digit shifted in a 64-bit register equals adding it in unbounded arithmetic and wrapping, also for the tenth digit |
| Wire.VarintMeaning | internal/agy/protobuf.go:35-48 | a number is read iff some prefix is a varint, that prefix is unique, and the number is its digits modulo 2^64 |
| Wire.PbVarint | testdata/agystubbin/main.go:232-239 | the encoding loop produces the seven-bit groups of the number, least significant first |
| Wire.VarintRoundTrip | internal/agy/protobuf.go:35-48 | decoding inverts the stub's encoding for every uint64 and any bytes that follow |
| Proto.ProtoField | internal/agy/protobuf.go:53-92 | on arbitrary bytes the scan ends, finds what the mathematical scanner finds although lengths wrap as int64, and what it returns lies inside the blob |
| Proto.WrappedEnd | internal/agy/protobuf.go:68-78 | the two comparisons on the wrapped end accept exactly the lengths that fit the rest of the blob |
| Proto.ScanFindsFirst | internal/agy/protobuf.go:53-92 | on the encoding of any list of varint, fixed and length-delimited fields, the first length-delimited one with the target number is found, whatever follows |
| Proto.TextRoundTrip | internal/agy/protobuf.go:108-114 | the text step decoder gives back the stub's text iff it is valid UTF-8 |
| Proto.ToolRoundTrip | internal/agy/protobuf.go:126-149 | the tool step decoder gives back name and arguments iff the name is non-empty UTF-8, arguments only if UTF-8 JSON |
| Proto.CallOfFields | internal/agy/protobuf.go:126-149 | whatever fields a call message holds, in whatever order: its name is the first field 2, or else the first field 9, that is non-empty UTF-8, and without one there is no call |
| Utf8.BoundaryIff | internal/agy/poller.go:231-243 | in valid text the offsets between characters are exactly those where a character may start, and the end |
| Utf8.ContinuationRun | internal/agy/poller.go:231-243 | valid text never has four continuation bytes in a row, so a snap moves at most three |
| Utf8.ComputeNextDelta | internal/agy/poller.go:231-243 | the loop that advances the start computes the specified delta and watermark for every watermark |
| Utf8.NextDeltaCut | internal/agy/poller.go:231-243 | for valid text and any watermark, mid-character or past the end, the delta is a valid suffix, skips at most three bytes, and starts at the first possible cut |
| Utf8.NextDeltaOfGrowth | internal/agy/poller.go:231-243 | for text that grew from what was sent, the snap drops no byte: sent text and delta make the new text |
| Utf8.ComputeTruncateBytes | internal/agy/errorsniff.go:175-184 | the loop that steps back computes the specified truncation |
| Utf8.TruncateIsLongest | internal/agy/errorsniff.go:175-184 | the truncation is the longest valid UTF-8 prefix within the limit |
| Utf8.EncodedIsValid | internal/agy/protobuf.go:95-105 | what the encoding of section 3 of RFC 3629 makes of any scalar values is valid text |
| Utf8.ValidIsEncoded | internal/agy/protobuf.go:95-105 | and valid text is that of some scalar values, so the test for validity is exact |
| Transcript.QueryContract | internal/agy/db.go:144-147 | a read returns each text or tool row above the base once, as it stands, in index order, and nothing else |
| Transcript.OnlyNewSince | internal/agy/db.go:99-118 | names a conversation iff it is the one file that was not there before; none and several are told apart |
| Poller.TurnPoller.constructor | internal/agy/poller.go:46-64 | a new poller has sent nothing and has read up to its base |
| Poller.TurnPoller.Bind | internal/agy/poller.go:148-172 | binds the one new conversation, keeps an existing binding, and fails on an ended context, an unreadable directory or several candidates |
| Poller.TurnPoller.TextUpdate | internal/agy/poller.go:176-201 | sends the unsent end of the row's text or hides it as narration, and moves only this row's watermark |
| Poller.TurnPoller.ToolUpdates | internal/agy/poller.go:206-226 | sends the call and its completion together, the first time the call decodes |
| Poller.TurnPoller.ReadRows | internal/agy/poller.go:123-141 | reading rows one by one leaves the marks, the index and the updates of the specified fold |
| Poller.TurnPoller.Poll | internal/agy/poller.go:102-142 | the whole new state, updates and error of a poll, for every binding and read outcome |
| Binding.NewConversationIsBound | internal/agy/poller.go:148-172 | by the files that are new in a listing alone: an unbound poller becomes bound to the one new conversation, waits without change or error while there is none, and reports ambiguity, unbound, otherwise |
| Binding.BindingKept | internal/agy/poller.go:102-119 | a bound poller never changes its binding and fails exactly if its read does; an ended context or unreadable directory changes nothing; a missing table is remembered until a read |
| Binding.BoundFromFirst | internal/agy/poller.go:148-172 | over any polls, a turn that starts unbound is bound from the first poll on that sees one new conversation, and to that one |
| Binding.FreshTurnEmitsEverything | internal/agy/poller.go:102-142 | from listings and reads alone: the first turn of a session ends bound to its new conversation and, with narration shown, has streamed every text row of it in full |
| Binding.HadUpdatesIff | internal/agy/poller.go:138-140 | the turn is marked as having had updates exactly if it sent one |
| RowHistory.ObserveGrownText | internal/agy/poller.go:176-201 | one reading of a row whose earlier text was dealt with sends exactly what the row gained, or hides it |
| RowHistory.TextRowPieces | internal/agy/poller.go:176-201 | over any growth the row's text splits into consecutive pieces, each sent once and in order or met as narration; the watermark always equals the text length |
| RowHistory.TextRowConserved | internal/agy/poller.go:176-201 | with narration shown, the chunks of a row spell its latest text |
| RowHistory.HiddenRowIff | internal/agy/poller.go:185-189 | with narration hidden, the text sent equals that of one fresh reading iff narration never flipped between readings |
| RowHistory.ToolRowOnce | internal/agy/poller.go:206-226 | a tool row's pair goes out once, and iff its call decodes |
| PollRuns.ReadAllRow | internal/agy/poller.go:123-141 | rows do not interfere: a poll treats each row as if it were alone |
| PollRuns.RunRow | internal/agy/poller.go:102-142 | over a whole turn, failed polls included, what a row gets depends only on the versions of it that were read |
| PollRuns.HistoryTracks | internal/agy/poller.go:102-142 | under any schedule those versions grow into the row of the last database |
| PollRuns.RunLastIdx | internal/agy/poller.go:124-127 | the recorded index is the base or the index of a row still in the database |
| PollRuns.ScheduleIndependence | internal/agy/poller.go:102-142 | for every schedule of polls over a growing database, the recorded index, marks and tool pairs equal those of one poll of the final database, and the text of each row does iff no hidden row flipped |
| PollRuns.TurnEmitsPieces | internal/agy/poller.go:102-142 | the chunks a turn sends for a row are its shown pieces, each exactly once; the pieces make up the text |
| PollRuns.TurnEmitsEverything | internal/agy/poller.go:102-142 | with narration shown, a turn's chunks for every text row spell that row in the final database |
| Narration.LinesCut | internal/agy/protobuf.go:207-219 | the lines examined contain no newline and join back to the text |
| Narration.LinesUnique | internal/agy/protobuf.go:207-219 | any newline-free lines that join to a text are the lines examined: the cut is the only one |
| Narration.ComputeIsNarration | internal/agy/protobuf.go:207-219 | the loop decides: some line is not blank and no line is prose |
| Narration.OneLineIff | internal/agy/protobuf.go:207-239 | a line is narration exactly if, past leading blanks, it opens with the six bytes "I will" and no letter or digit follows |
| Narration.NarrationOfBlocks | internal/agy/protobuf.go:207-239 | joined blocks are narration iff neither has prose and one narrates |
| Narration.ProseSettles | internal/agy/protobuf.go:207-239 | after a finished line of prose a growing row is never narration again |
| Narration.HidingDependsOnSchedule | internal/agy/poller.go:185-189 | two polls around a flip send less than one poll after it |
| Narration.NarrationTurnsToProse | internal/agy/protobuf.go:207-239 | a flipping row exists |
| Narration.HiddenLineIsLost | internal/agy/poller.go:185-189 | with the bridge's own narration test, a poller that reads such a row twice loses the line that one reading streams |
| Turns.TurnStaysInWindow | internal/agy/poller.go:110-142 | a turn emits only rows above its base and up to the index it records, which never falls; a binding is never changed |
| Turns.TurnInChain | internal/agy/bridge.go:384-392 | recording a turn moves the stored index forward over exactly the rows it emitted |
| Binding.RecordsWhatItFound | internal/agy/bridge.go:385-392 | said through the listings its polls saw: a turn records the conversation it found, stores nothing new if it found none, and keeps the model |
| Binding.NextTurnReadsIt | internal/agy/runner.go:231-244 | in a chain, the conversation a turn found is the one the next turn starts from and polls throughout |
| Binding.RecordsLargestIndex | internal/agy/runner.go:311-312 | the recorded index is the largest among the base and the rows that the turn's successful polls read |
| Turns.TurnsAreDisjoint | internal/agy/runner.go:311-312 | in a chain of turns no row is emitted by two, later turns emit later rows, and a conversation once bound stays bound |
| Turns.RowEmittableIff | internal/agy/db.go:144-147 | the row contract bounds what a turn can emit by the index it holds, and by nothing else |
| Turns.RowRepeatedIff | internal/agy/poller.go:110-142 | for two turns over one growing conversation, a row the first sent is sent again by the second iff it lies above the index the second holds and, for text with narration hidden, some reading shows it; the tool pair is then equal, and with narration shown the text extends the first |
| Turns.StaleTurnRepeats | internal/agy/bridge.go:316-326 | a turn that runs from the session value of before the last turn's record sends again every row that turn sent, and one that runs from the recorded value sends none |
| Drain.PollAndEmit | internal/agy/runner.go:277-298 | one poll's updates reach the client in order up to the one it refuses, and the three outcomes are told apart |
| Drain.DrainFinal | internal/agy/runner.go:477-503 | at most five polls, each before the deadline, and exactly when the drain stops quiet, refused, out of time or out of budget; what was sent is all that its polls emit, up to a refused update |
| Drain.OneEnding | internal/agy/runner.go:477-503 | those conditions leave a drain only one number of polls and one reason to stop |
| Drain.DeliveredIff | internal/agy/runner.go:477-503 | once agy has stopped writing, a text row still owed is delivered by the rest of the turn iff one of its polls reads the conversation |
| Drain.QuietDrainDeliversIff | internal/agy/runner.go:482-497 | a drain that ends quiet delivers a row still owed iff one of its polls reads the conversation; if none does, the poll taken for quiet found no conversation bound or no steps table |
| Drain.UnboundDrainIsQuiet | internal/agy/runner.go:238-243 | when the listing before the start failed, every drain of a new conversation ends quiet after one poll, with nothing sent, whatever the database holds |
| Drain.QuietTooEarly | internal/agy/poller.go:109-119 | a drain whose first poll comes before the steps table ends there, though its second would have read a whole row, and though a failed first poll would have made it go on |
| Drain.OneCleanReadCompletes | internal/agy/runner.go:477-503 | once agy has stopped writing, one successful read anywhere in the rest of the turn delivers every text row in full |
| TailBuffer.Tail.Write | internal/agy/runner.go:158-166 | the buffer becomes the last bytes of what it held and what was written, and every write is accepted whole |
| TailBuffer.LastIsSuffix | internal/agy/runner.go:158-166 | what is kept is everything while it fits, and otherwise the suffix of exactly the maximum |
| TailBuffer.TailOfEverything | internal/agy/runner.go:158-166 | over any writes the buffer holds the last bytes of all that was ever written |
| Coalescer.ActiveTurn.AppendText | internal/acp/client.go:42-52 | text is appended unless the turn is closed |
| Coalescer.ActiveTurn.TakeText | internal/acp/client.go:54-70 | the locked half of a flush: empties the buffer once, closes the turn if asked, and a closed turn yields nothing |
| Coalescer.ActiveTurn.FlushInternal | internal/acp/client.go:54-78 | an uninterrupted flush hands over exactly the buffered text, as one chunk if there is any |
| Coalescer.Conservation | internal/acp/client.go:42-78 | under every interleaving of reader and closer: delivered, then held, then buffered text is the accepted text, in order |
| Coalescer.AcceptedIs | internal/acp/client.go:42-52 | the text so accounted for is all text appended before the close, and only that |
| Coalescer.ReturnIsCompleteIff | internal/acp/client.go:875-880 | at the closing call's return everything was delivered iff the reader is not between taking and handing over |
| Coalescer.BoundaryIsCompleteIff | internal/acp/client.go:54-78 | a boundary event takes effect after all text accepted before it iff the closer is not between taking and handing over; else it overtakes just the closer's chunk |
| Coalescer.BoundaryOvertakes | internal/acp/client.go:54-78 | such an overtaking happens |
| Coalescer.ReturnAfterResponse | internal/acp/client.go:922-926 | if no boundary event follows the prompt's response, the closing call returns with everything delivered |
| Coalescer.ResponseTextIff | internal/acp/client.go:922-926 | in general, text received before the response is delivered at the return iff the reader does not hold some of it |
| Coalescer.ReturnBeforeEarlierChunk | internal/acp/client.go:922-926 | it can: an event after the response takes text that came before it, and the closing call returns first |
| Coalescer.ReturnBeforeLastChunk | internal/acp/client.go:875-880 | when the prompt fails, the closing call can return with a taken chunk undelivered |
| Coalescer.Reader.HandleLine | internal/acp/client.go:495-585 | a line adds text, unless the turn is closed, or flushes and then takes effect, or is nothing to this turn |
| Coalescer.Reader.HandleTurn | internal/acp/client.go:144-185 | for every inbound sequence, wherever between its lines the closing call falls, the callbacks are the merged trace of the lines before it, its last chunk included, and then the boundary events of the lines after it; said by the lines alone, they spell the chunks of the turn's session with its boundary events between them |
| Coalescer.HeardIs | internal/acp/client.go:495-585 | by the lines alone: the callbacks spell, in order, exactly the chunks whose session is the turn's or is named by one side only, each boundary event after just the text before it |
| Coalescer.NothingToTurn | internal/acp/client.go:523-525 | lines of another named session, other requests and malformed lines can be deleted without any difference |
| Coalescer.MergeKeepsOrder | internal/acp/client.go:238-258 | the text before each boundary event is exactly the text received before it |
| Coalescer.MergeIsTight | internal/acp/client.go:238-246 | a run of chunks gives at most one call, and none is empty |
| Coalescer.TightTraceUnique | internal/acp/client.go:238-246 | these two facts fix the trace completely |
| Correlation.PendingTable.Take | internal/acp/client.go:217-222 | an entry is taken out at most once |
| Correlation.PendingTable.CloseAll | internal/acp/client.go:196-201 | exactly the channels in the table are closed and the table is emptied |
| Correlation.StepSound | internal/acp/client.go:187-227 | each atomic step of reader or callers keeps the ownership rules of every channel |
| Correlation.Correlates | internal/acp/client.go:187-227 | over runs of any number of requests no channel is closed twice, sent on when closed, or sent on without room; each gets at most one value, for its own id |
| Correlation.AnswersMatch | internal/acp/client.go:587-650 | a caller that is answered gets a received response to its own id |
| Answers.ResponseIff | internal/acp/client.go:206-227 | over any run, a caller's response is on its way, in its channel or returned exactly if it arrived for the caller's id while the request was in the table |
| Answers.FirstOnly | internal/acp/client.go:217-222 | only the first response to an id does |
| Answers.ValueIff | internal/acp/client.go:224-226 | with the reader not about to send, a channel has had a value exactly if a response arrived in time |
| Answers.AnswerReachesCaller | internal/acp/client.go:206-227 | from every sound state, a waiting caller whose response arrives returns with that response, and the reader goes on |
| Answers.OutcomeIff | internal/acp/client.go:625-649 | a call returns a response, the lost connection or its own failure exactly by the step that took, saw or gave up |
| Correlation.WaitersReturn | internal/acp/client.go:632-635 | from every reachable state after the end of input, wherever the reader is in shutting down, its remaining steps let every waiting caller return, and keep the ownership rules |
| Correlation.LateCaller | internal/acp/client.go:601-605 | a caller can register after the table was emptied: its channel is not closed with the others, and only the done channel releases it |
| Driver.WorkerDriver.FailStart | internal/claudesdk/driver.go:349-363 | a failed start retires its own generation and releases its waiters; a superseded one changes nothing |
| Driver.WorkerDriver.ShutdownWorker | internal/claudesdk/driver.go:704-725 | ending the current worker empties the table and names everyone in it; a superseded one changes nothing |
| Driver.WorkerDriver.TakePending | internal/claudesdk/driver.go:485-490 | a terminal frame finds its turn at most once and takes its callbacks out with it |
| Driver.WorkerDriver.RegisterTurn | internal/claudesdk/driver.go:578-586 | a turn enters both tables under an id used by no earlier one |
| Driver.WorkerDriver.BeginStart | internal/claudesdk/driver.go:279-287 | a start opens a new generation and touches nothing else |
| Driver.WorkerDriver.InstallWorker | internal/claudesdk/driver.go:335-340 | the started worker becomes the one that is written to |
| Driver.WorkerDriver.ForgetRequest | internal/claudesdk/driver.go:658-663 | a turn that leaves takes itself out of both tables |
| Driver.WorkerDriver.CloseDriver | internal/claudesdk/driver.go:673-681 | Close lets go of the worker and leaves its tables and channels to the reaping |
| Driver.RunDemuxes | internal/claudesdk/driver.go:394-497 | in every run, Close included: ids are fresh across generations, no terminal event is dropped by the default branch or delivered twice, ready and gone of a generation close at most once |
| Driver.NoCallAfterTerminal | internal/claudesdk/driver.go:426-432 | once a request left the table its callbacks are never found again |
| DriverOutcomes.EventIff | internal/claudesdk/driver.go:485-497 | over any run, Close included, a turn has an event, on its way, in its channel or taken, exactly if a terminal frame carried that event while the request was in the table, or it is the death notice of the worker then current |
| DriverOutcomes.AnswerReachesTurn | internal/claudesdk/driver.go:485-497 | from every state of a run, a waiting turn whose terminal frame arrives takes exactly that event |
| DriverOutcomes.CallbacksExact | internal/claudesdk/driver.go:426-432 | callbacks are called for exactly the event frames whose request is still in the table, in order |
| DriverOutcomes.SignalIff | internal/claudesdk/driver.go:349-413 | a generation's gone channel is closed exactly if its worker died while current, its ready channel exactly if a ready frame, a failed start or that death came while it was current |
| DriverOutcomes.OutcomeIff | internal/claudesdk/driver.go:608-645 | a turn's outcome is an event, a write failure, a cancellation or a lost worker exactly by the step that took, failed, ended or saw it |
| DriverOutcomes.TurnReachesWorker | internal/claudesdk/driver.go:499-510 | a turn that enters while a worker runs can write to it, and then waits for it and on its channel |
| DriverOutcomes.WatchesCurrent | internal/claudesdk/driver.go:641-643 | a turn that begins to wait sees the end of the worker that is current then, whichever it wrote to |
| Driver.SupersededDeath | internal/claudesdk/driver.go:704-710 | the end of a superseded worker touches neither the current worker nor any turn |
| Driver.NeverForgotten | internal/claudesdk/driver.go:577-646 | in every run, Close included, each unfinished turn is in the table or has its event |
| Driver.EarlyRestartIff | internal/claudesdk/driver.go:279-287 | every step of every party, Close included, keeps all turns awake, except the start of a worker while a turn is registered with an earlier one, which never does |
| Driver.NoStrandedTurn | internal/claudesdk/driver.go:577-646 | over every run: each turn that has chosen a worker is at every moment registered with it, alive and current, or has its event, iff no worker is started while a turn is registered with an earlier one |
| Driver.WithoutCloseIsOrderly | internal/claudesdk/driver.go:204-236 | a run without Close never starts a worker that early, whatever the interleaving of deaths, restarts and registrations |
| Driver.EveryTurnIsAwake | internal/claudesdk/driver.go:577-646 | from the start and without Close, no turn is ever stranded: each is served by the live current worker, has its event, or is leaving |
| Driver.DeathWakesEveryone | internal/claudesdk/driver.go:704-732 | when the current worker dies every waiting turn, whichever worker it wrote to, can take an event out of its channel |
| Driver.StrandedUntil | internal/claudesdk/driver.go:613-645 | a turn whose worker is gone without its knowing is released by its own context, by the end of a later worker, or by a frame of one that names it, and by nothing else |
| Driver.CloseCanStrand | internal/claudesdk/driver.go:673-701 | Close, a restart and then the reaping of the old worker lead to such a turn |
| Dispatcher.Bridge.Respond | internal/agy/bridge.go:562-569 | a request gets one reply; a notification gets none |
| Dispatcher.Bridge.HandleSessionPrompt | internal/agy/bridge.go:303-403 | a prompt is answered on the spot or becomes the session's one turn, never both |
| Dispatcher.Bridge.HandleLine | internal/agy/bridge.go:192-242 | every kind of line: who is answered now, who becomes a turn, who is ignored |
| Dispatcher.Bridge.AnswerTurn | internal/agy/bridge.go:398-402 | a turn's goroutine writes one reply, to the request that started it |
| Dispatcher.Bridge.ReleaseTurn | internal/agy/bridge.go:524-532 | a session is freed only by the turn that holds it |
| Dispatcher.StepConserves | internal/agy/bridge.go:192-242 | each step keeps: request ids read are answers written plus turns owing one |
| Dispatcher.RunConserves | internal/agy/bridge.go:169-242 | over any run no request is dropped or answered twice, and each session has at most one turn |
| Dispatcher.NotificationsUnanswered | internal/agy/bridge.go:192-242 | what is no request changes nothing, but for the null answer to an unparseable line |
| Dispatcher.AllAnswered | internal/agy/bridge.go:169-190 | after Serve's wait the answers are exactly the requests and no session is taken |
| Dispatcher.OneTurnPerSession | internal/agy/bridge.go:513-532 | two unreleased turns are never of one session |
| Dispatcher.NextPromptIff | internal/agy/bridge.go:513-522 | a prompt is accepted iff no turn of its session is unreleased |
| Dispatcher.PromptSplits | internal/agy/bridge.go:303-403 | from every state a prompt becomes one flight or one answer, never both or neither, the first exactly for an agent turn of a free session |
| Dispatcher.NullAnswersExact | internal/agy/bridge.go:572-576 | over any run the answers with the null id are as many as the lines that could not be parsed |
| Dispatcher.PromptAfterReplyRefused | internal/agy/bridge.go:373-402 | a prompt read after the last turn's answer can be refused |
| Sessions.SessionCache.EvictLocked | internal/agy/bridge.go:499-511 | the search loop removes what the specification removes, at most one session |
| Sessions.SessionCache.SetSession | internal/agy/bridge.go:486-494 | stores the session, lists a new id last, then evicts |
| Sessions.SessionCache.RegisterTurn | internal/agy/bridge.go:513-522 | admits a turn iff the session has none |
| Sessions.EvictsOldestIdle | internal/agy/bridge.go:499-511 | past the bound the oldest session without a turn goes and no other; if all have turns, none goes |
| Sessions.CacheBound | internal/agy/bridge.go:486-532 | on every run the order lists exactly the cached ids, each once, and the cache holds at most the larger of 64 and the peak number of concurrent turns |
| Sessions.HeldIff | internal/agy/bridge.go:513-532 | on every run a session is a turn's exactly from the registration that found it free to that turn's own unregistration |
| Sessions.Store.Read | internal/agy/session.go:100-119 | a missing document reads as empty, one that does not parse as an error |
| Sessions.Store.Write | internal/agy/session.go:53-98 | one entry changes, the rest stay; a document that does not parse is replaced |
| Sessions.ReadsBack | internal/agy/session.go:43-119 | only an unreadable document fails to read, and after a write the document reads back that write and everything it held before |
| Sessions.ResolveSession | internal/agy/bridge.go:466-484 | the cached session, else the stored one, which is then cached |
| Sessions.CacheIsCurrent | internal/agy/bridge.go:384-392 | over any evictions and restarts the document is the map of last writes and every cached copy of a written session is current |
| Sessions.ResolveGivesLastSaved | internal/agy/bridge.go:466-484 | over any evictions and restarts, resolving gives the value last written for the id, and for an id never written the new session or nothing |
| Sessions.SetEvictsIff | internal/agy/bridge.go:486-511 | storing a session evicts a cached one iff the bound is passed and that one is the oldest without a turn |
| Sessions.UnwrittenLostIff | internal/agy/bridge.go:466-511 | a created, unwritten session is lost at a step iff the step is a restart or caches a session past the bound while this one is the oldest idle one |
| Sessions.CreatedSessionIsForgotten | internal/agy/bridge.go:258-282 | so creating a session past the bound loses the oldest idle one if it was never written |
| Sessions.BridgeAgrees | internal/agy/bridge.go:466-532 | on every run of creations, writes, loads, turns and restarts the cache order lists exactly the cached ids, each once |
| Sessions.FirstOfManyIsForgotten | internal/agy/bridge.go:258-282 | from the empty cache, of any 65 sessions created one after another the first, once resolvable, is gone |
| Prompts.StepWrites | internal/agy/bridge.go:303-462 | every step of prompts, model commands, options and turns keeps the cache current and writes exactly the value its handler holds, with that handler's part changed |
| Prompts.SurvivesIff | internal/agy/bridge.go:303-462 | over every run, a model or a conversation and index, once written, stays in force until that part is next set iff no handler that resolved the session before, holding another such part, writes the other part |
| Prompts.SelectionSurvivesIff | internal/agy/bridge.go:385-392 | a selected model, by option or by command, is lost before the next selection iff a turn that resolved before it, with another model, records |
| Prompts.RecordSurvivesIff | internal/agy/bridge.go:441-455 | a recorded conversation and index are lost before the next record iff a selection that resolved before it, with another conversation or index, is written |
| Prompts.ModelSelectedDuringTurnIsLost | internal/agy/bridge.go:385-392 | from every state where the session is free, a model selected while a turn runs is in force and then overwritten by the turn's record |
| Prompts.HoldIsStale | internal/agy/bridge.go:316-349 | a prompt read while a turn runs can resolve before that turn records and register after it releases; it then runs from the old session value, and as a model command writes the old conversation and index back |
| Prompts.BusyIff | internal/agy/bridge.go:513-532 | on every run a session has a turn exactly while a registered handler of it, agent turn or model command, has not ended |
| Prompts.ReadLoopGoesOn | internal/agy/bridge.go:303-462 | on every run the read loop can finish the handler it is in, and is then free and holds nothing of it |
| Prompts.WritesFreeTheLoop | internal/agy/bridge.go:423-462 | writing an option ends its handler, and starting a turn's goroutine frees the read loop while the turn keeps its hold |
| Gate.TurnGate.BeginTurn | internal/serve/turn.go:89-98 | admits a turn only when none is in flight, and makes it the active one |
| Gate.TurnGate.EndTurn | internal/serve/turn.go:101-108 | releases the turn, and the active slot only if it is this turn's |
| Gate.TurnGate.CancelInFlight | internal/serve/turn.go:122-137 | closes the active turn's cancel channel unless already closed, and says whether there was a turn |
| Gate.GateHolds | internal/serve/turn.go:89-137 | over any number of connections the counter is 0 or 1, is 1 iff a turn is active, that turn is the one running, and no cancel channel closes twice by any path |
| Gate.AdmittedIff | internal/serve/server.go:366-389 | a prompt is admitted iff no turn runs, at most one runs, and an answered turn is never the active one |
| Gate.CloserHitsOwnTurnIff | internal/serve/server.go:111-115 | whatever happens between a closing connection's two reads, the turn whose cancel channel it closes is the one it checked iff that one has not finished in between, else one admitted since; that one is another connection's iff the order of prompts and releases in between gave the gate to another |
| Gate.RunHolder | internal/serve/turn.go:89-108 | who owns the active turn is the first connection to prompt after each release, read off the run alone |
| Gate.CloserCanCancelAnother | internal/serve/server.go:111-115 | a run in which a closing connection cancels another's turn |
| Gate.ClosedIff | internal/serve/turn.go:122-137 | a turn's cancel channel is closed exactly if a cancel that holds that turn has fired |
| Gate.CancelReachesTurn | internal/serve/server.go:210-237 | a cancel that arrives while a turn is active, from any connection, closes that turn's channel when it fires, however late, and can always fire |
| PromptLoop.MapStreamEvent | internal/serve/turn.go:254-277 | an event is forwarded as its update, counted as usage, or only logged, and a refused update is not counted as sent |
| PromptLoop.StatusShown | internal/serve/turn.go:260-292 | failures shown are exactly denials and errors, completions exactly completions, and no event is both update and usage |
| PromptLoop.EventMeansIff | internal/serve/turn.go:254-277 | an event becomes an update exactly if that update tells of it, field by field, and counts as usage exactly if it holds nothing else and some count is positive |
| PromptLoop.LastUsageIff | internal/serve/turn.go:229-231 | the turn's usage is that of the last event that carries any |
| PromptLoop.Prompt | internal/serve/turn.go:153-247 | the select loop, under every sequence of choices, ends and reports as the specified run |
| PromptLoop.RunFaithful | internal/serve/turn.go:197-246 | in every run the updates sent are those of the stream's prefix in order, usage is the last counted, and one grace timer exists iff the loop saw the cancel |
| PromptLoop.StopReasonIff | internal/serve/turn.go:205-244 | when exactly a turn ends as end_turn, cancelled, broken or refused; one whose loop saw a cancel is never end_turn |
| PromptLoop.EndTurnIsComplete | internal/serve/turn.go:208-214 | an end_turn with the client present has forwarded the whole stream and reports its last usage |
| PromptLoop.RefusedAtLimit | internal/serve/turn.go:225-228 | a turn failed by a write has sent exactly what the connection took, a proper prefix |
| PromptLoop.CancelSettles | internal/serve/turn.go:233-244 | after the loop saw a cancel the grace timer can end the turn at any point as cancelled, with what was sent so far |
| PromptLoop.RequestedButEndTurn | internal/serve/turn.go:205-214 | from every state that saw no cancel, a request followed by the stream's end, or the client's leaving followed by the pump's stop, is end_turn |
| Replay.GeneratedIdsDiffer | internal/serve/replay.go:69-72 | ids made up for calls without one are equal only for the same place in the history |
| Replay.ReplayPart | internal/serve/replay.go:52-119 | one part: what it pairs with, what it shows, what stays open |
| Replay.ReplayTurns | internal/serve/replay.go:26-123 | the nested loops send the specified replay, or on a write error exactly the part of it that was accepted |
| Replay.EveryPartOnce | internal/serve/replay.go:38-51 | every part of every parsable turn is replayed at one place, in order, with its turn's number and side |
| Replay.ReplayTells | internal/serve/replay.go:52-119 | the whole replay, without its tables: every update sent is the one that the history before the part calls for, with its kind, text, name, arguments and result |
| Replay.CompletionsAreAnnounced | internal/serve/replay.go:78-104 | in any replay, cut short or not, every completion names a call announced before it |
| Replay.NamesPairInOrder | internal/serve/replay.go:83-86 | without response ids, the calls announced under a name are those completed under it, in order, followed by those still waiting |
| Replay.IdsCompletePending | internal/serve/replay.go:80-82 | with ids throughout, a call is open iff it is announced and not completed since, and only such calls are completed |
| Replay.IdsNeverOvercomplete | internal/serve/replay.go:80-104 | with ids throughout, at no point has a call more completions than announcements |
| Replay.QueueIsRest | internal/serve/replay.go:83-86 | in any history a name's queue is its calls in order without as many as responses without ids took |
| Replay.CompletionsExact | internal/serve/replay.go:78-104 | for every history, ids repeated or not: a call id is announced as often as it is called, and completed once for each response that carries it while open and once for each that takes it from its name |
| Replay.CompletionsOfDistinct | internal/serve/replay.go:78-104 | so a call announced once, like all others, is completed once if a later response carries its id and once more if it is among the calls of its name that responses without ids took |
| Replay.SingleCompletionIff | internal/serve/replay.go:78-104 | so no call is completed more often than announced iff none is met more often, by id and by name together, than called |
| Replay.MixedCompletesTwice | internal/serve/replay.go:80-86 | in any history, a response by id and one by name that meet the same call both complete it, in either order |
| Replay.MixedCompletesTwiceMore | internal/serve/replay.go:80-86 | and that is exactly two completions of the call more |

## Left out

- Process spawning, signals, process groups, file locks, SQLite, gRPC, TCP, stdio and file writes: they appear as steps that may happen or fail, or as maps.
- JSON syntax: whether bytes are JSON, and whether a line parses, are inputs of the model.
- Real time: tickers, backoff, deadlines and the grace timer are events that may fire; how long they take is not stated.
- Unicode character classes: white space and letters-or-digits enter the narration test as two predicates.
- Row contents: the schedule theorems assume that agy only lengthens a row's text and leaves a tool call alone once it decodes; a rewritten row is outside them.
- Driver: the ready-frame wait of `ensureWorker` and its error text are not modelled; a turn may enter at any time, which allows more runs than the source. Tool-request frames and session resumption are left out.
- Driver.NoStrandedTurn: states where each turn's wake-up comes from, not that a scheduler ever lets it run.
- Correlation: an entry registered after the table was emptied stays there; callers then return by the done channel, as `Correlation.WaitersReturn` says. Responses' bodies are opaque.
- Coalescer: one prompt at a time is modelled, with the callback present; a nil callback discards text. Permission handling beyond the flush before it is left out.
- Sessions.ResolveGivesLastSaved: here and in `Prompts`, handler steps are atomic and writes of the document succeed; a failed write is logged by the source and leaves the document behind the cache.
- Sessions.CacheIsCurrent: new session ids are assumed not to be in use.
- Coalescer.Reader.HandleTurn: the closing call falls between two lines; what finer interleavings change is `Coalescer.BoundaryIsCompleteIff` and `Coalescer.Conservation`.
- Mapping of a turn's outcome to errors, the sniffing of agy's logs, and the delivery-error variable that is shadowed at internal/agy/runner.go:277.
- PromptLoop.MapStreamEvent: arguments are passed on as text; parsing them as JSON is left out.
- Replay.ReplayPart: a response's payload is its display text or nothing; how it is rendered is left out.
- Flag parsing, manifests, usage text, model lists, titles and argument summaries: branch-level and easy.
- OAuth lock recovery, skill links and the Node worker script: file-system behaviour, or code that is not part of this model.
