# Verified model of JaFiction's protocols

JaFiction reviews job essays: a runner streams the output of command-line language models, drives rounds of review turns,
and talks to a backend over a WebSocket. This project models the state machines and stream transformers behind that, and
proves what they keep over every input, every interleaving and every run.

Most components are modelled twice where the program updates state: as a class whose methods have the program's branches
and loops, and as functions on values that say what each call does. A method's contract ties it to its function; the laws are
lemmas about the functions. The orchestrator, whose turns have any outcome, is one class whose contracts state its laws.

- **Streaming** (`StreamModel`, `ProviderStreaming`, `ChunkInvariance`, `ClaudeCuts`, `MessageLifecycle`,
  `BatchRefinement`, `StreamTrace`, `StreamTexts`, `FinalTexts`): the message protocol made from CLI output, and the batch
  parser that reads the same output. `JSON.parse` is a parameter.
- **Run session** (`RunSession`, `RunSessionLaws`, `RunSessionEffects`) and **run driver** (`RunDriver`, `RunRounds`,
  `RunForwarding`, `RunEndings`, `RunOrder`): the single-slot session, the run around it and the hand-over of events, the
  latter two as state machines whose steps end at an await.
- **Orchestrator** (`Turns`, `Orchestrator`): the control flow of a run. Providers, users and the parsers of answers are
  nondeterministic choices; what users and coordinator choose is recorded, and contracts speak of the record.
- **RPC hub** (`RpcHub`, `RpcHistory`, `DeviceHub`): correlation of responses with calls over reconnects, timers and stale
  events.
- **Essay answers** (`EssayAnswers`, `AnswerMatching`), **pinned documents** (`PinnedIndex`, `DocumentEdits`,
  `ProjectStorage`), **uploads** (`ChunkedUpload`, `UploadHistory`), **run log** (`RunLog`, `RunLogLaws`, `RunLogTexts`),
  **company resolution** (`CompanyResolution`).
- `Basics`, `Text` and `Json` hold optional values, string operations and JSON values.

## Properties that turned out false

The code is kept as it is; a lemma gives the input that fails, or the exact condition under which the property holds.

- Claude's stream depends on how the output is cut: a chunk of white space is dropped
  (`ChunkInvariance.ClaudeDependsOnChunks`), and a colour sequence over two chunks is not recognised
  (`ClaudeCuts.ClaudeStreamsCutSequence`). Exactly when: `ClaudeCuts.ClaudeCutMatters`.
- Codex can complete a message twice (`MessageLifecycle.CodexCompletesTwice`, exactly when: `CodexCompletesOnce`).
- A codex line that is a bare JSON null makes the stdout listener throw (`ChunkInvariance.ThrowsOnNullLine`).
- Streamed and parsed gemini text can differ when the whole output is one JSON value with a text of its own
  (`BatchRefinement.WholeDocumentDiverges`, exactly when: `StreamAgrees`).
- The final text begins with a snapshot exactly when text and snapshot were prefix-comparable
  (`BatchRefinement.SnapshotsKept`).
- An aborting session can be turned back to paused by a wait (`RunSessionLaws.AbortingLeftBy`).
- A run whose set-up throws leaves its session in the slot, exactly when nobody finishes it by its address
  (`RunDriver.SetupFailureWedges`).
- Events of a run that was found stay in the buffer when announcing it throws (`RunForwarding.StrandedBuffer`, which says
  exactly when).
- A failed run can be reported twice (`RunForwarding.FailureReportedTwice`, exactly when: `SecondRunFailed`).
- Events can overtake each other, at the hand-over and between callbacks (`RunOrder.LaterEventOvertakes`,
  `CallbackOvertakes`, exactly when: `OrderKept`).
- A user message that cuts short the research turn, or the turn that answers an earlier message, fails the run; one that
  cuts short any other turn is caught (`Orchestrator.Run.Execute`).
- A request id reused in flight orphans the older call, and later the younger one (`RpcHub.OrphanTimerOrphansTheYounger`,
  exactly when: `DistinctIdsListEveryCall`).
- Pinning a document that is not in the manifest breaks the pinned index (exactly then: `PinnedIndex.SetPinnedKeeps`,
  `ProjectIndexAgrees`).
- Run logs are isolated from each other exactly when no run's key prefix begins another's (`RunLogLaws.IsolationExact`): a
  slash in a run id would let one run erase another's state (`SlashErases`). The slugs and ids that the program itself
  makes have none, and are apart (`SlashFreeApart`).

## Model

The loop-free methods of the classes that carry out their function's branches as assignments have no row of their own.

| member | source | states |
|---|---|---|
| `ChunkInvariance.ChunkInvariance` | packages/shared/src/core/providerStreaming.ts:82-157 | For codex and gemini, two chunkings of one stdout text give the same events, the same message fields and the same throw or return |
| `ChunkInvariance.StreamIsLineByLine` | packages/shared/src/core/providerStreaming.ts:82-157 | The buffered, chunked run equals an independent reading of the text, one trimmed non-blank line after the other and then the close |
| `ChunkInvariance.DrainAppend` | packages/shared/src/core/providerStreaming.ts:83-95 | Draining a text and then more of it is draining both at once, the unfinished line included |
| `ChunkInvariance.FeedAllIsDrain` | packages/shared/src/core/providerStreaming.ts:82-109 | Any number of chunk calls amounts to one drain of the concatenation |
| `ChunkInvariance.ThrowsOnNullLine` | packages/shared/src/core/providerStreaming.ts:159-168 | A stream throws if and only if it is a codex one and some line parses to a JSON null, whose `type` cannot be read |
| `ClaudeCuts.ClaudeCutMatters` | packages/shared/src/core/providerStreaming.ts:111-124 | Claude streams a text the same in chunks as in one piece if and only if no chunk ends within a colour sequence, and no chunk shows white space alone unless the whole text does |
| `ClaudeCuts.HarmlessCutsAgree` | packages/shared/src/core/providerStreaming.ts:111-124 | Any two such cuts of one text are streamed the same |
| `ClaudeCuts.StripParts` | packages/shared/src/core/providerStreaming.ts:521-523 | Stripping colour sequences from two parts is stripping them from the whole when the border cuts no sequence; when it does, more escapes are left |
| `ClaudeCuts.ClaudeStreamsCutSequence` | packages/shared/src/core/providerStreaming.ts:111-124 | A concrete colour sequence over two chunks, which claude streams as text |
| `ChunkInvariance.ClaudeTextExact` | packages/shared/src/core/providerStreaming.ts:111-124 | The streamed text is the concatenation of what each chunk shows by itself if and only if no chunk shows white space alone |
| `ChunkInvariance.ClaudeDependsOnChunks` | packages/shared/src/core/providerStreaming.ts:111-124 | A concrete cut of a text that claude streams without its space |
| `MessageLifecycle.StreamLifecycle` | packages/shared/src/core/providerStreaming.ts:82-303 | Every stream of every provider: a message is started once and before anything else is said of it, active and completed ids are disjoint and are together the started ones, streamed text is the concatenation of the deltas, after the close every started message is completed, for gemini and claude exactly once |
| `MessageLifecycle.EmitKeeps` | packages/shared/src/core/providerStreaming.ts:271-303 | One emission keeps the agreement of fields and events provided only unknown messages are started and only known ones continued; it completes a message twice exactly when that one is completed already |
| `MessageLifecycle.CodexCompletesOnce` | packages/shared/src/core/providerStreaming.ts:82-209 | A whole codex process completes no message twice if and only if its records, read line by line, finish different messages |
| `MessageLifecycle.CodexEventKeeps` | packages/shared/src/core/providerStreaming.ts:159-209 | A codex record keeps the agreement, and completes a message for the second time if and only if it finishes one that is completed already |
| `MessageLifecycle.CodexCompletesTwice` | packages/shared/src/core/providerStreaming.ts:201-208 | A concrete codex process, two lines with the same completion record, that completes one id twice |
| `MessageLifecycle.GeminiEventKeeps` | packages/shared/src/core/providerStreaming.ts:211-239 | A gemini record keeps the agreement and never completes the message a second time |
| `MessageLifecycle.CloseCompletesAll` | packages/shared/src/core/providerStreaming.ts:138-157 | The close completes whatever is still open and nothing twice |
| `BatchRefinement.StreamMatchesBatch` | packages/shared/src/core/providerStreaming.ts:20-58 | On gemini output without colour sequences that has an assistant message, the batch parser returns the trimmed streamed text, unless the whole output is itself one JSON value with a text, and then exactly that text |
| `BatchRefinement.StreamAgrees` | packages/shared/src/core/providerStreaming.ts:20-58 | The two texts are the same if and only if the output is no JSON value with a text, or that text is the trimmed accumulation of its messages |
| `BatchRefinement.StreamedMessage` | packages/shared/src/core/providerStreaming.ts:127-157 | The deltas of a gemini process add up to the batch accumulation of its lines when an assistant message occurs, and to the batch parser's result when none does |
| `BatchRefinement.BatchOfMessages` | packages/shared/src/core/providerStreaming.ts:20-58 | What the batch parser returns on plain output with an assistant message: the text of the whole document if it has one, else the trimmed accumulation of the messages |
| `BatchRefinement.NoMessageStreamsFinalText` | packages/shared/src/core/providerStreaming.ts:143-149 | Without an assistant message the stream carries the batch parser's result itself |
| `BatchRefinement.WholeDocumentDiverges` | packages/shared/src/core/providerStreaming.ts:31-36 | A concrete line that is streamed as one text and parsed as another |
| `BatchRefinement.BatchSeesTheLines` | packages/shared/src/core/providerStreaming.ts:462-476 | Splitting at `\r?\n` and trimming sees the same JSON values as the streaming side's splitting at `\n` and trimming |
| `BatchRefinement.LinesOfTrimmed` | packages/shared/src/core/providerStreaming.ts:21-21 | Trimming the whole output, as only the batch parser does, changes none of its non-blank lines |
| `BatchRefinement.SuffixRepairs` | packages/shared/src/core/providerStreaming.ts:492-510 | After a snapshot repair the text begins with the snapshot, and a second repair adds nothing, if and only if text and snapshot were prefix-comparable |
| `BatchRefinement.SnapshotsKept` | packages/shared/src/core/providerStreaming.ts:346-372 | The final gemini text begins with a given snapshot if and only if the text before it was prefix-comparable with it |
| `ProviderStreaming.StreamProcessor.HandleStdoutChunk` | packages/shared/src/core/providerStreaming.ts:82-125 | The three provider branches do to the fields and the event list what the specification says, or throw with what was done until then |
| `ProviderStreaming.StreamProcessor.DrainCodex` | packages/shared/src/core/providerStreaming.ts:83-95 | The codex loop over complete lines, against the recursive drain |
| `ProviderStreaming.StreamProcessor.DrainGemini` | packages/shared/src/core/providerStreaming.ts:97-109 | The gemini loop over complete lines, against the recursive drain |
| `ProviderStreaming.StreamProcessor.StreamPlainText` | packages/shared/src/core/providerStreaming.ts:111-124 | Claude's chunk: the first one opens the message, white-space chunks are dropped |
| `ProviderStreaming.StreamProcessor.FinalizeStream` | packages/shared/src/core/providerStreaming.ts:127-157 | The last unterminated line, then the close |
| `ProviderStreaming.StreamProcessor.CloseMessages` | packages/shared/src/core/providerStreaming.ts:138-157 | Completes the plain stream, or emits the parsed text of a silent stream, or completes the active messages in order |
| `ProviderStreaming.StreamProcessor.HandleCodexLine` | packages/shared/src/core/providerStreaming.ts:159-209 | One codex line: parse failure, JSON null, and the five kinds of records |
| `ProviderStreaming.StreamProcessor.HandleGeminiLine` | packages/shared/src/core/providerStreaming.ts:211-239 | One gemini line: assistant messages with deltas or snapshots, and results |
| `ProviderStreaming.StreamProcess` | packages/shared/src/core/providers.ts:692-778 | The stdout listener and the close handler of one CLI process run as the specified process |
| `ProviderStreaming.ComputeMessageSuffix` | packages/shared/src/core/providerStreaming.ts:492-510 | What a snapshot adds to a text |
| `ProviderStreaming.SharedPrefixLength` | packages/shared/src/core/providerStreaming.ts:512-519 | The loop finds the length of the longest common prefix |
| `StreamModel.SharedPrefix` | packages/shared/src/core/providerStreaming.ts:512-519 | The result is a common prefix, and the next characters differ |
| `ProviderStreaming.ParseJsonLines` | packages/shared/src/core/providerStreaming.ts:462-476 | The values of the non-blank lines that parse, in order |
| `ProviderStreaming.ExtractGeminiStreamJsonText` | packages/shared/src/core/providerStreaming.ts:346-372 | The accumulated and trimmed text, or none when no stream record occurs |
| `ProviderStreaming.ParseProviderFinalText` | packages/shared/src/core/providerStreaming.ts:20-58 | The batch parser with all its fallbacks, against its specification |
| `StreamTrace.ProcessTrace` | packages/shared/src/core/providerStreaming.ts:82-303 | All events of a codex or gemini process, told without its state: what each record adds is a function of the record's fields and the events before it, and the close adds the completions of the open messages in their order, or the parsed text of a silent stream; after a throw nothing |
| `StreamTrace.DecodesAsSaid` | packages/shared/src/core/providerStreaming.ts:159-209 | Which of five things a codex record says, and of which message, read off its JSON fields: item messages go to the synthetic message while it is open and else to the item's id, output texts to the message that the record names |
| `StreamTrace.NameIsFirst` | packages/shared/src/core/providerStreaming.ts:306-310 | The first of `item_id`, `itemId`, `id` and `output_index` that is a string or a number names the message, unless it is empty or zero |
| `StreamTrace.CodexEmits` | packages/shared/src/core/providerStreaming.ts:159-209 | A codex record adds exactly: nothing, the start of a new message, its delta, or for a finished one the missing rest of a text that is not blank and the completion |
| `StreamTrace.GeminiEmits` | packages/shared/src/core/providerStreaming.ts:211-239 | A gemini record adds exactly: the start of the message, a delta as it is or the missing rest of a snapshot, and at a result the completion of an open message |
| `StreamTrace.SuffixIsRest` | packages/shared/src/core/providerStreaming.ts:492-510 | What is missing is what is left of the text behind the longest common prefix |
| `StreamTrace.CloseEmits` | packages/shared/src/core/providerStreaming.ts:138-157 | The close completes the open messages in the order in which they were started; a silent stream says its parsed text |
| `StreamTexts.SayingTexts` | packages/shared/src/core/providerStreaming.ts:159-209 | A codex record changes the streamed text of its own message alone: a delta is appended, a final text that is not blank appends what is missing of it |
| `StreamTexts.FinalTextHeld` | packages/shared/src/core/providerStreaming.ts:187-206 | After a final text that is not blank the message begins with it if and only if the two were prefix-comparable, is it when nothing or a beginning of it was streamed before, and has lost nothing |
| `StreamTexts.CodexStreamedText` | packages/shared/src/core/providerStreaming.ts:82-209 | The text of each message of a whole codex process is the fold of what its records say of it, up to the first JSON null; only a closed process whose records say nothing streams the parsed text |
| `StreamTexts.ClaudeTrace` | packages/shared/src/core/providerStreaming.ts:111-141 | The events of a claude process: the start, one delta for each chunk that shows more than white space, the completion; none without a chunk |
| `FinalTexts.ParsedText` | packages/shared/src/core/providerStreaming.ts:20-58 | The parsed text is that of the whole document, else what a gemini stream says, else the distinct texts of the records, else the output itself: the last search of the whole document never finds anything; for codex it is empty only for blank output |
| `FinalTexts.CodexRecordText` | packages/shared/src/core/providerStreaming.ts:395-415 | The text of a codex record: its agent message, else the text of a completion, else the generic text |
| `FinalTexts.GeminiRecordText` | packages/shared/src/core/providerStreaming.ts:323-344 | The first of `response`, `text`, `output.text` and `result.response` that is not blank, else the candidates' parts, else the generic text |
| `FinalTexts.GenericTextFound` | packages/shared/src/core/providerStreaming.ts:417-443 | The generic text of a value: a string's own, the distinct texts of a list's items, the first text under five keys of an object |
| `FinalTexts.DedupeGrows` | packages/shared/src/core/providerStreaming.ts:478-490 | Of each further text the trimmed form is kept unless it is empty or kept already |
| `FinalTexts.DedupeDistinct` | packages/shared/src/core/providerStreaming.ts:478-490 | The kept texts are distinct, trimmed, and exactly those that occur |
| `ClaudeCuts.SequenceExact` | packages/shared/src/core/providerStreaming.ts:521-523 | A colour sequence is an escape, a bracket, digits and semicolons, and an m |
| `RunSessionLaws.InterventionLinearity` | packages/shared/src/controller/runSessionManager.ts:140-317 | Over every sequence of calls: resolver and pending request are present together and only while paused, and no wait is resolved twice |
| `RunSessionLaws.ApplyKeepsLinear` | packages/shared/src/controller/runSessionManager.ts:107-345 | Every single call keeps this |
| `RunSessionLaws.OpenWait` | packages/shared/src/controller/runSessionManager.ts:140-285 | While a wait is open a second one is refused, and only a submission or an abort that addresses the run resolves it, with exactly its trimmed text or "/abort" |
| `RunSessionLaws.EntryIntoAborting` | packages/shared/src/controller/runSessionManager.ts:180-226 | A session becomes aborting through `abort` alone, which resolves the open wait with "/abort" or raises the session signal and aborts the bound execution |
| `RunSessionLaws.AbortingLeftBy` | packages/shared/src/controller/runSessionManager.ts:140-345 | Aborting is not sticky: it is left exactly by a finishing call and by a wait of the session's own run |
| `RunSessionLaws.MessageConservation` | packages/shared/src/controller/runSessionManager.ts:107-345 | While a session is live, over every call sequence, what was queued followed by what was accepted is what was drained followed by what is queued, in order |
| `RunSessionLaws.SessionAccounting` | packages/shared/src/controller/runSessionManager.ts:107-345 | Starts minus clears is the one session in the slot, and the run-finished notices are exactly those owed |
| `RunSessionLaws.OneCallAccounts` | packages/shared/src/controller/runSessionManager.ts:319-345 | Which notice one call owes: one for a cleared session that knows its run, aborted if it was aborting or the call is an abort of a completed round |
| `RunSessionLaws.StaleCallChangesNothing` | packages/shared/src/controller/runSessionManager.ts:124-345 | A call with the id of a session that is gone changes nothing |
| `RunSessionLaws.MisaddressedCallRefused` | packages/shared/src/controller/runSessionManager.ts:180-333 | A call that names another run is refused and changes nothing once the session knows its run |
| `RunSessionLaws.GoneForGood` | packages/shared/src/controller/runSessionManager.ts:107-345 | A session that is gone never comes back |
| `RunSessionEffects.PhasesMove` | packages/shared/src/controller/runSessionManager.ts:107-345 | Where every call takes a session: from working, asking, resting or stopping to another of these or out of the slot |
| `RunSessionEffects.ExecutionsExactly` | packages/shared/src/controller/runSessionManager.ts:180-285 | A call cuts a turn short if and only if it is an addressed abort of a session that works or is stopping, or a message that is not blank for a realtime session that works; it is the bound turn alone, with that reason |
| `RunSessionEffects.FirstReasonStays` | packages/shared/src/controller/runSessionManager.ts:180-285 | Over every call sequence a turn keeps the reason it was first aborted with |
| `RunSessionEffects.SignalExactly` | packages/shared/src/controller/runSessionManager.ts:180-226 | The session signal is raised by such an abort, and stays raised |
| `RunSessionEffects.BindingExactly` | packages/shared/src/controller/runSessionManager.ts:175-178 | Which turn is bound to a session after each call |
| `RunSessionEffects.StartsFresh` | packages/shared/src/controller/runSessionManager.ts:107-122 | A start is granted only when the slot is empty, with the project and mode asked for |
| `RunSessionEffects.IdentityExactly` | packages/shared/src/controller/runSessionManager.ts:124-268 | Project, mode and run of a session change by its own request, by the answer to it, and when an absent run id is set |
| `RunSessionEffects.ModeKept` | packages/shared/src/controller/runSessionManager.ts:107-345 | Over every call sequence a session whose requests carry its mode keeps it |
| `RunSessionEffects.SubmissionAnswered` | packages/shared/src/controller/runSessionManager.ts:228-285 | What a submission is answered, by the phase of the session |
| `RunSessionEffects.PromptsExactly` | packages/shared/src/controller/runSessionManager.ts:140-168 | Users are prompted exactly by a wait that is granted |
| `RunDriver.NoWedgedSession` | packages/runner/src/routes/runsHandlers.ts:379-427 | However calls of users, other sessions and the poller fall between the awaits, once the run body has settled its session is gone or paused with nobody waiting |
| `RunDriver.StepKeepsInv` | packages/runner/src/routes/runsHandlers.ts:408-427 | The inductive step of this, for each of the driver's steps and any foreign call |
| `RunDriver.DriverTouchesOwnSessionOnly` | packages/runner/src/routes/runsHandlers.ts:408-427 | The driver never changes the state of another session |
| `RunDriver.SetupFailureWedges` | packages/runner/src/routes/runsHandlers.ts:356-366 | The limit of the guarantee: when the set-up throws after the session was opened, the session stays in the slot if and only if nobody finishes it by its address, and while it stays it runs or is aborting and every start is refused |
| `RunRounds.DriverMoves` | packages/runner/src/routes/runsHandlers.ts:379-421 | Where each step of the run takes its session: a body that returns leaves it resting unless it is stopping, a throw or the end of a stopping one ends it |
| `RunRounds.RoundKept` | packages/runner/src/routes/runsHandlers.ts:379-421 | A session that nobody aborts or finishes, in a run in which nothing throws, rests in the slot in the end |
| `RunRounds.ThrowEndsSession` | packages/runner/src/routes/runsHandlers.ts:408-421 | A session whose body or last push throws is gone for good |
| `RunRounds.AbortEndsSession` | packages/runner/src/routes/runsHandlers.ts:408-421 | A session that is stopping when its body goes on without asking again is gone in the end |
| `RunForwarding.ForwardedExactly` | packages/runner/src/routes/runsHandlers.ts:317-472 | Under every interleaving of callbacks, poller and failure handler, once nobody is at work every produced event has reached the hub exactly once if and only if no ledger write threw and the buffer is empty; never more than once |
| `RunForwarding.StrandedBuffer` | packages/runner/src/routes/runsHandlers.ts:453-470 | Events stay in the buffer of a found run if and only if something was produced before it was found, announcing it threw, and the body did not fail afterwards; they are then all events until then |
| `RunForwarding.ExistingNeverBuffers` | packages/runner/src/routes/runsHandlers.ts:356-363 | An existing run never buffers |
| `RunForwarding.DeadlineSilences` | packages/runner/src/routes/runsHandlers.ts:453-472 | When the poller gives up, no event reaches the hub, then or later |
| `RunForwarding.RunConserves` | packages/runner/src/routes/runsHandlers.ts:317-472 | At every moment each produced event is in exactly one place: emitted, buffered, in flight, in a party's hands, or lost to a throw |
| `RunForwarding.LostOnlyByThrows` | packages/runner/src/routes/runsHandlers.ts:330-354 | Something is lost exactly when a ledger write throws |
| `RunForwarding.SecondRunFailed` | packages/runner/src/routes/runsHandlers.ts:412-447 | The failure handler adds a second ending if and only if the first is not in the buffer any more: the run was known when it was produced, or the poller has taken the buffer since |
| `RunForwarding.FailureReportedTwice` | packages/runner/src/routes/runsHandlers.ts:412-447 | A concrete run that fails before its id is known and reports two `run-failed` |
| `RunEndings.FailureAdds` | packages/runner/src/routes/runsHandlers.ts:428-439 | Over every run, a failure adds one `run-failed` with its message if and only if it is no abort and no ending is left in the buffer, which the steps before it tell |
| `RunEndings.SilentFailureReported` | packages/runner/src/routes/runsHandlers.ts:428-447 | A body that fails without an ending of its own is reported once |
| `RunEndings.EndingsProduced` | packages/runner/src/routes/runsHandlers.ts:428-447 | The number of endings produced in a run is a function of its steps |
| `RunOrder.OrderKept` | packages/runner/src/routes/runsHandlers.ts:390-398 | Over every run, the hub receives events in the order of their production if and only if no step emits one while an older one, which the hub gets later, is waiting |
| `RunOrder.OrderOfForwarded` | packages/runner/src/routes/runsHandlers.ts:390-398 | When every event reaches the hub, their order is kept if and only if every emission is in turn |
| `RunOrder.OutOfTurn` | packages/runner/src/routes/runsHandlers.ts:390-398 | An emission is out of turn if and only if an older event is still in the buffer, in a batch or in a callback's hands |
| `RunOrder.PollerNeverOvertakes` | packages/runner/src/routes/runsHandlers.ts:463-466 | The poller itself always emits in turn; only callbacks and the failure handler overtake |
| `RunOrder.LaterEventOvertakes` | packages/runner/src/routes/runsHandlers.ts:458-466 | A concrete run in which an event produced while the run is announced overtakes a buffered one |
| `RunOrder.CallbackOvertakes` | packages/runner/src/routes/runsHandlers.ts:390-398 | A concrete run of a known id in which one callback overtakes another |
| `Orchestrator.Run.Execute` | packages/shared/src/core/orchestrator.ts:362-1538 | One ending per run: stored status and log agree, the one terminal event is the last, an awaiting run has none. The last choice decides: a run awaits input if and only if users answer the question of a blocked round that they are done; a realtime run completes if and only if the finalizer wrote the draft, they answered that question with more, or they ended a clarification; "/abort" aborts, a clarification that nobody answers fails, and so does an escaped intervention. And what the main block guarantees (next row) |
| `Orchestrator.Run.Body` | packages/shared/src/core/orchestrator.ts:362-1494 | A deep run that comes through is its research turn and whole cycles, max(1, rounds) of them without users, else exactly as many as they let it do, with the log of their answers, and it fails only when a required turn or the last reviewer failed, a turn threw, or the callback to the users threw; a realtime run makes at most 1 + messages passes and comes through after a whole round, unless users end it when asked what they meant; no turn follows one that ends the run, and an aborted turn aborts it; an intervention escapes if and only if the last turn is an intervened research turn or an intervened answer to an earlier intervention |
| `Orchestrator.Run.DeepFeedbackLoop` | packages/shared/src/core/orchestrator.ts:625-874 | The number of cycles, each of which starts with the reviewers still alive; the users' answers are "go on" after every cycle but the last and "done" after that; what ends the loop otherwise |
| `Orchestrator.Run.DeepCycle` | packages/shared/src/core/orchestrator.ts:630-820 | The exact turns of a cycle: coordinator, drafter, the reviewers alive at its beginning in their order, coordinator, finalizer; when it comes through, all but reviewers' turns completed |
| `Turns.CycleTurns` | packages/shared/src/core/orchestrator.ts:630-820 | Which turn of a cycle is whose |
| `Turns.RoundTurns` | packages/shared/src/core/orchestrator.ts:1193-1452 | Which turn of a whole round is whose |
| `Orchestrator.ScheduleBudget` | packages/shared/src/core/orchestrator.ts:625-874 | A deep run of n cycles takes between n * (4 + reviewers left) and n * (4 + reviewers at first) turns |
| `Orchestrator.ScheduleGrows` | packages/shared/src/core/orchestrator.ts:625-832 | A further cycle continues a schedule |
| `Orchestrator.Run.RoundLoop` | packages/shared/src/core/orchestrator.ts:1190-1463 | Terminates with at most 1 + messages passes, the round at least their number; it ends normally after a whole round or when users end a clarification, and their last answer decides whether the run awaits input |
| `Orchestrator.Run.Pass` | packages/shared/src/core/orchestrator.ts:1191-1452 | A pass that does not end the loop consumes a message, raises the round by one and seeds the next with a completed turn of the coordinator; one that ends it normally ran exactly the turns of a full round, and only its question, if any, was put to users |
| `Orchestrator.Run.OpenRound` | packages/shared/src/core/orchestrator.ts:1193-1288 | The coordinator unless an earlier turn stands in for it, and the drafter when there is a ledger; a seed is used once |
| `Orchestrator.Run.RedirectIfQueued` | packages/shared/src/core/orchestrator.ts:1290-1299 | Nothing when nothing is queued; else the queue is consumed, the round goes up and the coordinator redirects |
| `Orchestrator.Run.FinishRound` | packages/shared/src/core/orchestrator.ts:1301-1452 | The reviewers of a round and its closing turn |
| `Orchestrator.Run.ReviewRound` | packages/shared/src/core/orchestrator.ts:1307-1360 | All reviewers in order unless a queued message cuts the round short, which seeds the next one |
| `Orchestrator.Run.CloseRound` | packages/shared/src/core/orchestrator.ts:1368-1452 | One closing turn: the coordinator's question when a reviewer blocks, whose failure is tolerated and whose answer decides between awaiting input and completion, or the finalizer's draft, which must complete |
| `Orchestrator.Run.AwaitUserInput` | packages/shared/src/core/orchestrator.ts:920-985 | What users' answers do: more makes the run running again, "/done" leaves it awaiting input, "/abort" aborts it, and a callback that throws leaves the question last in the log |
| `Orchestrator.Run.HandleIntervention` | packages/shared/src/core/orchestrator.ts:1047-1188 | Consumes the messages, makes coordinator turns of the next round only, and raises the round by one; the next round is seeded if and only if the last decision redirects, and no turn is made for a forced close; it throws an intervention if and only if one cut short such a turn |
| `Orchestrator.Run.AnswerIntervention` | packages/shared/src/core/orchestrator.ts:1085-1187 | The coordinator's answers, one decision for each that completes: it asks back until it accepts, which drops the seed, or redirects, which keeps it, or users say that they are done |
| `Orchestrator.Run.AskForClarification` | packages/shared/src/core/orchestrator.ts:1089-1137 | The coordinator asks back: "/done" alone ends the run, "/abort" aborts it; without users it fails, and so it does when the callback throws |
| `Orchestrator.Run.AskToGoOn` | packages/shared/src/core/orchestrator.ts:834-873 | Users are asked after a cycle: "/done" ends the run, "/abort" aborts it, anything else goes on |
| `Orchestrator.Run.Conclude` | packages/shared/src/core/orchestrator.ts:1484-1538 | Awaiting runs are left as they are; any other gets the ending that the signal says |
| `Orchestrator.Run.ResumeRounds` | packages/shared/src/core/orchestrator.ts:1139-1187 | Accepting drops the seeded turn, redirecting keeps it and needs a ledger |
| `Orchestrator.Run.ExecuteTurn` | packages/shared/src/core/orchestrator.ts:1542-1661 | One turn is recorded with its result, an error thrown by the binding of its controller included; only a realtime turn is cut short by a message, which is then queued |
| `Orchestrator.Run.RequiredTurn` | packages/shared/src/core/orchestrator.ts:641-657 | A turn whose failure or error fails the run |
| `Orchestrator.Run.ReviewerTurn` | packages/shared/src/core/orchestrator.ts:726-752 | A failed reviewer is struck from the list, and the run fails with the last one or when the turn throws, and is aborted when the turn is |
| `Turns.AlivePush` | packages/shared/src/core/orchestrator.ts:744-751 | The active list is the list of reviewers without a failed turn, kept so by removing the one that fails |
| `Turns.CallKeepsRule` | packages/shared/src/core/orchestrator.ts:708-708 | Calling only reviewers without a failed turn keeps the rule that no failed one is called again |
| `RpcHub.RpcSettlement` | packages/backend/src/ws/deviceHub.ts:82-237 | Over any sequence of send, response, timer, send failure, attach, detach and close, even with reused ids: each call is settled at most once, an unsettled one has an armed timer, pending maps hold unsettled calls only, and a connection that is not current has none |
| `RpcHub.ApplyKeepsValid` | packages/backend/src/ws/deviceHub.ts:82-237 | Each single event keeps this |
| `RpcHub.SettledForGood` | packages/backend/src/ws/deviceHub.ts:82-237 | A settled call keeps its one settlement for ever |
| `RpcHub.ReplacedForGood` | packages/backend/src/ws/deviceHub.ts:141-179 | A replaced or closed connection stays out of use with nothing pending, for ever |
| `RpcHub.StepIsFinal` | packages/backend/src/ws/deviceHub.ts:141-179 | No event touches a settled call or revives a connection |
| `RpcHub.ResponseSettlesItsCall` | packages/backend/src/ws/deviceHub.ts:107-120 | Without orphans a response settles exactly the call that carried its id on that connection, and no other |
| `RpcHub.ApplyLeavesNoOrphans` | packages/backend/src/ws/deviceHub.ts:208-237 | An event leaves every unsettled call reachable if and only if it is not a send that reuses an id in flight |
| `RpcHub.SendOrphansOnReuse` | packages/backend/src/ws/deviceHub.ts:220-236 | The same for a send, with its failure |
| `RpcHub.DistinctIdsListEveryCall` | packages/backend/src/ws/deviceHub.ts:208-237 | Over every run, no call is ever orphaned if and only if no send reuses an id in flight |
| `RpcHub.OrphanOnlyTimesOut` | packages/backend/src/ws/deviceHub.ts:221-226 | A call orphaned by a reused id is settled by its own timer and nothing else |
| `RpcHub.OrphanTimerOrphansTheYounger` | packages/backend/src/ws/deviceHub.ts:221-222 | The orphan's timer takes the younger call with its id out of the pending map |
| `RpcHistory.ServesFromHistory` | packages/backend/src/ws/deviceHub.ts:141-179 | Over every sequence of events, a connection serves a device if and only if it was attached for it and since then the device was neither attached again nor detached nor the socket closed |
| `RpcHistory.SendCreates` | packages/backend/src/ws/deviceHub.ts:208-237 | A send to a device that a connection serves creates one call on that connection, listed and unsettled, or settled with the failure of the send when it throws |
| `RpcHistory.NoOtherCalls` | packages/backend/src/ws/deviceHub.ts:208-237 | A send to a device that nothing serves creates no call, and no other event does |
| `RpcHistory.SettlesExactly` | packages/backend/src/ws/deviceHub.ts:82-237 | Which event settles which call and how: its timer, a response with its id on its connection while it is listed, and the end of its connection's use; every other call is left alone |
| `RpcHistory.ListedExactly` | packages/backend/src/ws/deviceHub.ts:82-237 | Which event takes a call off the pending list |
| `DeviceHub.Hub.RejectPending` | packages/backend/src/ws/deviceHub.ts:82-88 | Rejects everything pending on one connection, once each, and nothing else |
| `DeviceHub.Hub.AttachDevice` | packages/backend/src/ws/deviceHub.ts:141-171 | Detaches a stale connection first, then installs the new one |
| `EssayAnswers.ReconcileEssayAnswerStates` | packages/shared/src/core/essayQuestionWorkflow.ts:26-71 | The bucket loops compute the i-th-question-takes-i-th-state matching, with the removed documents |
| `EssayAnswers.ShiftAdvances` | packages/shared/src/core/essayQuestionWorkflow.ts:48-60 | Shifting a bucket yields the match of the question and leaves the buckets right for the next one |
| `EssayAnswers.KeptStrictlySorted` | packages/shared/src/core/essayQuestionWorkflow.ts:48-70 | The resulting states are strictly ordered by question index |
| `EssayAnswers.KeptOrigins` | packages/shared/src/core/essayQuestionWorkflow.ts:48-60 | Each is an input state moved to a question with the same non-blank trimmed text |
| `AnswerMatching.KeptPerText` | packages/shared/src/core/essayQuestionWorkflow.ts:35-60 | Per non-blank text min(answered states, new questions) states are kept: the matching is maximal |
| `AnswerMatching.KeptExactlyWhenAsked` | packages/shared/src/core/essayQuestionWorkflow.ts:48-60 | The k-th state of a text is kept if and only if the text is asked more than k times |
| `AnswerMatching.KeptAndDropped` | packages/shared/src/core/essayQuestionWorkflow.ts:48-65 | Each input state is kept by exactly one question or is dropped |
| `AnswerMatching.RemovedAreDropped` | packages/shared/src/core/essayQuestionWorkflow.ts:62-65 | The removed documents are exactly those of the dropped states |
| `AnswerMatching.NothingDropped` | packages/shared/src/core/essayQuestionWorkflow.ts:35-60 | Nothing is dropped if and only if every state points at a non-blank question and no text is answered more often than it is asked |
| `AnswerMatching.ReorderingDropsNothing` | packages/shared/src/core/essayQuestionWorkflow.ts:35-60 | Permuting the questions drops no state that points at a non-blank one |
| `AnswerMatching.UpsertReplaces` | packages/shared/src/core/essayQuestionWorkflow.ts:18-24 | Upserting replaces the state of its index, keeps all others, and leaves strict order |
| `ChunkedUpload.UploadRoundTrip` | packages/runner/src/routes/projectsHandlers.ts:297-394 | Any bytes up to the cap, cut into any parts sent in order, interleaved with other uploads and with same-id calls that are harmlessly refused, commit once and exactly |
| `ChunkedUpload.PartArrives` | packages/runner/src/routes/projectsHandlers.ts:347-376 | Each part moves the upload on, the last one commits the bytes |
| `ChunkedUpload.ReceiveKeepsValid` | packages/runner/src/routes/projectsHandlers.ts:347-362 | Every stored session has as many chunks as its next index, fewer than its total, and received bytes equal to their lengths, within total and cap |
| `ChunkedUpload.OtherUploadsUntouched` | packages/runner/src/routes/projectsHandlers.ts:320-333 | A call touches no other upload |
| `ChunkedUpload.RefusalsKeepOrDrop` | packages/runner/src/routes/projectsHandlers.ts:334-376 | A refused call left the upload exactly as it was, or dropped it |
| `ChunkedUpload.UploadHandler.UploadDocumentChunk` | packages/runner/src/routes/projectsHandlers.ts:297-376 | The handler up to the commit, with every refusal |
| `UploadHistory.CommitsExactly` | packages/runner/src/routes/projectsHandlers.ts:313-376 | After any calls, a further one commits if and only if it continues the upload, is its last chunk and completes the announced number of bytes with the announced hash, and then commits those bytes; it is accepted exactly when it continues the upload within its size and is not the last |
| `UploadHistory.SessionsStore` | packages/runner/src/routes/projectsHandlers.ts:320-366 | A stored upload is what its first chunk announced with the chunks accepted since |
| `ChunkedUpload.ConcatChunks` | packages/runner/src/routes/profileHandlers.ts:188-188 | The chunks in order |
| `PinnedIndex.ProjectIndexAgrees` | packages/shared/src/core/storage.ts:160-210 | From creation on, over every sequence of operations, the pinned ids are throughout exactly the ids of the documents pinned by default if and only if no pin is put on a document that does not exist |
| `PinnedIndex.PinnedIndexAgrees` | packages/shared/src/core/storage.ts:347-737 | The same from any consistent state |
| `PinnedIndex.PersistKeeps` | packages/shared/src/core/manifestStore.ts:179-196 | Saving or importing a document with a new id keeps the agreement |
| `PinnedIndex.SetPinnedKeeps` | packages/shared/src/core/storage.ts:428-445 | Setting a pin keeps it if and only if the document exists or the pin is taken off |
| `PinnedIndex.UpdateKeeps` | packages/shared/src/core/storage.ts:496-549 | Updating a document keeps it |
| `PinnedIndex.DeleteKeeps` | packages/shared/src/core/storage.ts:551-572 | Deleting a document keeps it |
| `PinnedIndex.EditQuestionsKeeps` | packages/shared/src/core/storage.ts:347-381 | Editing the questions keeps it, pins nothing new, and leaves no document of a removed answer pinned |
| `PinnedIndex.CompleteAnswerKeeps` | packages/shared/src/core/storage.ts:672-714 | Completing an answer keeps it, and its state points at a pinned document |
| `PinnedIndex.ReopenAnswerKeeps` | packages/shared/src/core/storage.ts:716-737 | Reopening an answer keeps it, and the answer is no longer completed |
| `DocumentEdits.DeleteExact` | packages/shared/src/core/storage.ts:551-572 | A deletion takes exactly that document out, and fails exactly when there is none |
| `DocumentEdits.UpdateExact` | packages/shared/src/core/storage.ts:496-549 | An update sets title and pin of that document alone, keeps the title when the new one is blank, and fails exactly when there is none or its content cannot be edited |
| `DocumentEdits.EditQuestionsExact` | packages/shared/src/core/storage.ts:347-381 | An edit stores the questions and the matched answers, and unpins exactly the documents of dropped answers |
| `DocumentEdits.CompleteExact` | packages/shared/src/core/storage.ts:672-714 | Completing an answer writes its own document or a new one, with title and pin, touches no other, and replaces the state of that answer alone; it fails exactly when its document is gone or cannot be edited |
| `DocumentEdits.ReopenExact` | packages/shared/src/core/storage.ts:716-737 | Reopening an answer takes back its completion alone |
| `DocumentEdits.CompletedAgain` | packages/shared/src/core/storage.ts:672-714 | An answer completed again is written to the document of the first time |
| `ProjectStorage.Storage.UpdateProjectInfo` | packages/shared/src/core/storage.ts:347-381 | The record that is written back is the one read before, or the refreshed one when documents were unpinned |
| `ProjectStorage.Storage.SaveCompletedEssayAnswer` | packages/shared/src/core/storage.ts:672-714 | Updates the answer's document or creates one, then upserts the state |
| `RunLogLaws.OnceOnly` | packages/shared/src/core/runRepository.ts:255-323 | However chat events and snapshots of this and other runs interleave, until the run ends no message id has more than one log block |
| `RunLogLaws.ApplyKeepsOnce` | packages/shared/src/core/runRepository.ts:120-135 | The inductive step: the run's chat blocks have distinct keys, which are its logged ids |
| `RunLogLaws.TerminalForgetsNothing` | packages/shared/src/core/runRepository.ts:131-134 | At the terminal event every non-blank buffered message has a block, none has two, and nothing of the run is left |
| `RunLogLaws.FlushLogs` | packages/shared/src/core/runRepository.ts:313-323 | The flush logs every non-blank buffered message of the run |
| `RunLogLaws.IsolationExact` | packages/shared/src/core/runRepository.ts:255-337 | No call for one run changes buffers, logged ids or log file of another if and only if neither run's key prefix begins with the other's |
| `RunLogLaws.SharedKey` | packages/shared/src/core/runRepository.ts:313-337 | Some key belongs to two runs exactly when one prefix begins with the other |
| `RunLogLaws.SlashFreeApart` | packages/shared/src/core/runRepository.ts:313-337 | With slash-free slugs and ids the prefixes of different runs are apart |
| `RunLogLaws.SlashErases` | packages/shared/src/core/runRepository.ts:313-337 | With a slash in a run id, the end of run "a" erases what run "a/b" has buffered and logs it as its own |
| `RunLogTexts.LoggedTexts` | packages/shared/src/core/runRepository.ts:255-323 | Every chat block says what its message said up to the call that logged it: the deltas since it was begun, trimmed, partial at the end of the run, or the text of the saved message |
| `RunLogTexts.BuffersStream` | packages/shared/src/core/runRepository.ts:255-295 | The buffer holds exactly the messages being streamed, each with its deltas since it was begun |
| `RunLogTexts.CompletionLogged` | packages/shared/src/core/runRepository.ts:279-295 | A completed message that is not blank and not logged is logged with its deltas, trimmed |
| `RunLogTexts.SnapshotLogs` | packages/shared/src/core/runRepository.ts:297-311 | After a snapshot every completed message in it that is not blank is logged |
| `RunLogTexts.LinesExactly` | packages/shared/src/core/runRepository.ts:120-135 | The other lines of the log are exactly those of the events, in their order |
| `RunLog.RunRepository.SyncRunLogFromChatMessages` | packages/shared/src/core/runRepository.ts:297-311 | Logs each completed non-blank message that is not logged |
| `RunLog.RunRepository.FlushBufferedChatLogs` | packages/shared/src/core/runRepository.ts:313-323 | Logs what the run has buffered |
| `RunLog.RunRepository.ClearRunChatState` | packages/shared/src/core/runRepository.ts:325-337 | Erases the run's buffers and ids and no others |
| `RunLog.RunRepository.AppendRunEvent` | packages/shared/src/core/runRepository.ts:120-135 | The line of an event; at a terminal one the flush and the erasure |
| `CompanyResolution.ResolveOrderIndependent` | packages/shared/src/core/openDart.ts:304-364 | The whole resolution is the same for every order of the list |
| `CompanyResolution.DedupeIsBestPerName` | packages/shared/src/core/openDart.ts:374-390 | Deduplication returns exactly the best entry of each name, strictly in priority order |
| `CompanyResolution.DedupeOrderIndependent` | packages/shared/src/core/openDart.ts:374-390 | It does not depend on order or repetition of the entries |
| `CompanyResolution.CollectKeepsBest` | packages/shared/src/core/openDart.ts:374-387 | The map holds the best entry of each name seen so far |
| `CompanyResolution.ExactNameResolves` | packages/shared/src/core/openDart.ts:328-342 | When no selected code matches and some entry has the queried name, the result is resolved to the best such entry, never ambiguous |
| `CompanyResolution.SelectedCodeResolves` | packages/shared/src/core/openDart.ts:314-326 | A selected code in the list wins over any name |
| `CompanyResolution.BeforeExact` | packages/shared/src/core/openDart.ts:392-405 | Listed before unlisted, then the later change, then the smaller code |
| `CompanyResolution.ResolvedIsListedAndLatest` | packages/shared/src/core/openDart.ts:328-342 | An exact name resolves to a listed company if there is one, and to the one changed last among its kind |
| `CompanyResolution.FuzzyExact` | packages/shared/src/core/openDart.ts:407-423 | Names are alike if and only if the shorter has two characters or more, is part of the longer and is at least half as long |
| `CompanyResolution.FuzzyResolves` | packages/shared/src/core/openDart.ts:344-364 | A name that no entry has resolves to its only candidate, the best entry of a name that is alike; of more the first ten are offered in order, and without any it is not found |
| `CompanyResolution.DedupeCorpCodeEntries` | packages/shared/src/core/openDart.ts:374-390 | The map loop and the sort, against the specification |

## Left out

- Files, databases, HTTP, WebSockets, child processes, OAuth, the web UI, formatters and prompt builders.
- `packages/runner/src/hosted/outboundClient.ts`: its backoff arithmetic and reconnect states are small beside the rest; the
  heartbeat is not modelled either.
- zod schemas and the RPC dispatch table: enumerations without a property across functions.
- Text is a sequence of characters; UTF-16 surrogates are not modelled, and `trim` removes the white space of ECMAScript.
- Chat events carry their kind, id and text; timestamps and the fields that never vary within a processor are left out.
- JSON numbers are kept as the text `String` gives; the order of object keys plays no part.
- `emit` is atomic, so that the calls of one stream run one after the other: the listener in `providers.ts` does not wait
  for an earlier call that still emits. After a throw no further call is made, since nothing handles the rejection.
- `normalizeCorpName` is a parameter, and `localeCompare` a comparison of sort keys; that distinct codes have distinct sort
  keys is assumed.
- Session ids and waits are numbered; `createId` is taken to give fresh ids. An absent run id is the empty one, since the
  code tests it for truth.
- `startRunInternal` is a state machine and not a class: its closures share variables over awaits, and the steps between two
  awaits are atomic in JavaScript. What the ledger file holds is left out; only whether writing it throws matters.
- Orchestrator.Run.Execute: storage and event sinks do not throw (the callbacks to users and to the session do), and users
  and the coordinator ask for more only finitely often, as the termination of the program also needs. Prompts, drafts,
  ledgers' contents and chat messages are left out; events are those of waiting, input and ending.
- Orchestrator.Run.CloseRound: whether a reviewer's response reads as a block is a free choice.
- Orchestrator.Run.HandleIntervention: the message that cut a turn short is taken to be in the queue still, as the session
  manager queues it before it aborts the turn.
- DeviceHub: connections and calls are numbered values and not objects, so aliasing between closures is not captured; the
  event frames and the fan-out to users are left out.
- ChunkedUpload.UploadHandler.UploadDocumentChunk: base64 decoding is done before, SHA-256 is a parameter, and the import of
  the committed bytes, the only await, is left out.
- PinnedIndex.PersistKeeps: that a new document's id is not in the manifest is assumed, as ids are random.
- ProjectStorage.Storage.UpdateProjectInfo: only questions, answers and pins; the other fields are independent of them.
- Two storage operations at once, and the generic `updateProject` with a record read earlier: the code has no lock, and the
  pinned index is claimed for operations that run one after the other.
- RunLogLaws.OnceOnly: calls run one after the other, and the runs that write have prefixes that are apart.
