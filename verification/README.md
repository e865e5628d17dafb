# A verified model of the pricing agent's run engine

The agent service answers pricing requests. A *run* is a bounded loop of model turns that proposes tool calls; calls
that write need a person's approval; a wizard with tabs and a guided conversation fill a draft; a market research with
its own allowance and cache suggests values; every step is an event in a durable log that clients follow. This project
models those parts in Dafny 4.11, one module a component, and proves what they promise for every input, every run and
every interleaving of committed blocks. `dafny verify dfyconfig.toml` checks all of it.

## How the model is laid out

* `ToolCalls` is the approval machine: the rows of a run's tool calls, its event log, its status and the approvals
  that are committed but still executing. One action is the block between two database commits. `ToolCallLaws` proves
  what every interleaving keeps, and `ToolCallWitnesses` gives the concrete runs on which something fails.
  `Approvals` (the decision endpoints), `Executor` (the dispatch), `Runner` (the loop) and `StepAdvance` (leaving a tab)
  are code over the same tables; each method's contract says which action of the machine it is, so the laws hold for the
  code.
* `LoopBudget`, `Dispatch`, `Executor` and `Runner` are the model loop, and `ExecutionTrace` says in which order the
  calls of a batch start and end; `DeltaStreamer`, `Redaction`, `Patterns` and
  `Redactor` (all passes together) are its text stream, `Phones` is the phone pattern as a shape of positions, and
  `Marking` says which texts become which placeholder.
* `EventLog` is the event table, the resume query and a client that polls, drops and reconnects.
* `ResearchBudget`, `ResearchCache`, `WebResearch` and `Blend` are the market band; `RateLimit` is the request limiter.
* `Contract`, `Template`, `StepAdvance`, `Answers`, `Conversation` and `StepProposals` are the guided workflow over
  drafts, which are the JSON trees of `Json`.
* `DraftFlow` ties the last two ends together: what the conversation stores is what the templates of the tabs find.
* `Ids`, `Pagination` and `Wrapping` are identifiers, the conversation list and the delimiting of tool results.

A ghost `History` counts what the machine's laws are about: executions, approvals that never ran, rejects that closed
an open call, edits that reopened one, edits lost under a late result, and approvals of calls that were not open.

## What the code does not keep

Each of these is stated as the exact condition, with a run or an input that shows the failure.

* *A call executes at most once more than it is edited* holds in a state exactly when the approvals of it while it was
  closed are made up for by edits that reopened nothing and by openings that ended without an execution:
  `ExecutionBoundExactly`. The only block that approves a closed call is a bundle: approving a tab with two or more calls
  lists them once and then approves each without looking at its status again (`StaleExactly`), so a call that somebody
  approved or rejected meanwhile is executed (again): `BundleExecutesTwice`, `BundleExecutesRejected`. A tab gets a
  second call when it is left, or a closed call of it is edited, while it has one: `TabGrowsExactly`, `LeavingAddsOne`.
  With at most one open call per approved tab the bound holds: `ExecutionBoundSmallBundles`.
* *An approval completes a waiting run and no other.* The end of an execution acts on the run status that its request
  read when it began (`src/xframe_agent/db/session.py:28` keeps loaded rows over a commit). So a run that was cancelled
  while the tool ran is completed, and one that began to wait meanwhile goes on waiting: `OverwritesExactly` and
  `LeavesWaitingExactly` say exactly when, `CancelledRunCompletes` and `ReopenedRunStaysWaiting` are the runs.
* *The deltas of a message add up to its redacted text* holds exactly when every emitted cut stands in the final text:
  `StreamedIffCutsAgree`. The 64 held-back characters guarantee that for a pattern whose matches are decided in a window
  of so many characters and whose placeholder is at most num/den times as long as what it replaces, if
  `num * (window - 1) <= 64 * den`: the codes, the cards and the phone numbers are such patterns. The e-mail pattern is
  not: an address, behind whatever text, streams correctly exactly when no snapshot has more than 64 characters of it
  that the match does not cover (`EmailInTextStreams`, `EmailStreams`), so an address whose local part and host
  together pass 64 characters fails (`LongHostFails`), and so does one whose domain goes on with more than 64 characters
  that end no word (`LongDashesFail`).
  All passes together stream a message exactly once as long as no more than 64 redacted characters follow its last
  character that none of the patterns takes, such as a comma or a line feed (`MessageStreams`, `WalledTurnShown`).
* *A bare six-digit code becomes `<PII:code>`* never happens: the phone pass goes first and takes six digits for a phone
  number, so the pass for codes finds nothing in any text: `CodePassIdle`, `CodeMarked`.
* *What is shown matches none of the patterns* fails in two ways: control characters go last, so what one interrupts is
  not matched (`ControlInterrupts`), and of an address whose local part is a card number the host stays
  (`CardBeforeAddress`).
* *A client resumes where it stopped* fails when the URL carries an old `last_event_id`, which wins over the header
  that a reconnecting browser sends: `ResumeExactly`, `ClientHoldsPrefixExactly`; `StaleUrlRepeats` is a client that gets
  the first event twice.
* *Both limiters implement the same window*: the in-process window is closed, the one of the Redis script leaves out the
  hit that is exactly one window old: `BackendsDiffer`, `BackendsDifferOnARun`.
* *Every field of the contract is asked* fails for a phase without fields before one that has some, and for an
  unspecified field: `AskedExactly`, `EmptyPhaseEndsEarly`, `UnspecifiedEndsEarly`. An answer to a field that was not
  asked is accepted and skips the one that was: `OtherAnswerSkips`.
* *Asking again shows the same prompt* fails for a field declared twice, because the sequencer takes the last
  declaration and the re-ask the first: `ReAskExactly`, `ReAskDiffers`. The shipped contract declares `waived_months`
  on two tabs; a field declared once and asked in one phase keeps its prompt, whatever the others do: `ReAskSame`.
* *Both ways to blend agree* fails for a reconciled pair below both thresholds once the minimum sample size exceeds
  three: `AsyncAgreesExactly`, `AsyncDiffers`.
* *An empty selection is always a valid default*, as a comment says, fails for a required field without options, and a
  number's default can lie above the field's maximum: `DefaultAccepted`, `EmptyChoiceRefused`, `DefaultAboveMaximum`.
* *The walk through the tabs ends* fails as soon as two tabs share an id: `OrderWalked`.

The streaming class documents that its deltas always equal the final text; the code is followed, not the comment.

## Model

| member | source | states |
|---|---|---|
| ToolCallLaws.CallConservation | src/xframe_agent/api/v1/runs.py:115-216 | In every reachable state, executions, running approvals, approvals that never ran, closing rejects, lost edits and the openness of a call add up to one plus its reopenings plus its approvals while closed |
| ToolCallLaws.ExecutionBound | src/xframe_agent/api/v1/runs.py:131-216 | Executions of a call plus one if it is open never exceed one plus its edits plus the approvals a bundle made while it was closed |
| ToolCallLaws.ExecutionBoundExactly | src/xframe_agent/api/v1/runs.py:131-216 | Executions plus openness are at most one plus edits exactly when the approvals of the closed call are no more than its edits that reopened nothing, its approvals in flight or aborted, its closing rejects and its lost edits |
| ToolCallLaws.OneUsePerOpening | src/xframe_agent/api/v1/runs.py:131-216 | A call is used at most once per opening exactly when no bundle approved it while it was closed |
| ToolCallLaws.StaleExactly | src/xframe_agent/api/v1/runs.py:475-518 | The only block that approves a closed call is a bundle going on to its next call, and it does so exactly when that call is closed by then |
| ToolCallLaws.ExecutionBoundSmallBundles | src/xframe_agent/api/v1/runs.py:475-518 | If every approved tab had at most one open call, executions plus openness never exceed one plus edits |
| ToolCallWitnesses.BundleExecutesTwice | src/xframe_agent/api/v1/runs.py:475-518 | A tab left twice, approved, and its second call approved once more in between: two executions of one call that nobody edited |
| ToolCallWitnesses.BundleExecutesRejected | src/xframe_agent/api/v1/runs.py:475-518 | A call of a tab left twice, rejected while the first call of its bundle executes, is executed all the same |
| ToolCallLaws.TabGrowsExactly | src/xframe_agent/api/v1/runs.py:294-403 | A tab gets more open calls exactly when it is left with a call or a closed call of it is edited |
| ToolCallLaws.ApprovalPrecedesExecution | src/xframe_agent/api/v1/runs.py:177-205 | The n-th execution of a call that requires approval has at least n approved events for it before it in the log, and the runner never executes such a call |
| ToolCallLaws.ClosedCallsStayClosed | src/xframe_agent/api/v1/runs.py:131-176 | A failed, executing, rejected or succeeded call that no running approval refers to is never executed or reopened without an edit of it |
| ToolCallLaws.StepRejectCloses | src/xframe_agent/api/v1/runs.py:430-470 | Rejecting a tab closes exactly its open calls, as rejected, and none of it is listed any more |
| ToolCallLaws.DecisionsSettle | src/xframe_agent/api/v1/runs.py:219-290 | Decisions and executions complete a run exactly when they finish what was decided and the run waited when the request read it; otherwise they leave its status alone; a tab's decision ends the log with that, a single call's does not |
| ToolCallLaws.OverwritesExactly | src/xframe_agent/api/v1/runs.py:267-269 | A block changes a status that waits no more exactly when it ends an approval given while the run waited, and the status has become another than completed |
| ToolCallLaws.LeavesWaitingExactly | src/xframe_agent/api/v1/runs.py:521-523 | A decision that is finished leaves a waiting run waiting exactly when its request began while the run did not wait |
| ToolCallLaws.ReadWhenBegun | src/xframe_agent/db/session.py:28-28 | A started approval carries the status of its own block, and nothing else about the run changes |
| ToolCallLaws.TasksRemember | src/xframe_agent/db/session.py:28-28 | In every run each suspended approval carries the run status of the state in which it began, and a bundle still executes the end of what its tab listed then |
| ToolCallWitnesses.CancelledRunCompletes | src/xframe_agent/api/v1/runs.py:98-112 | A run cancelled while an approved tool runs is cancelled, and completed when the tool ends |
| ToolCallWitnesses.ReopenedRunStaysWaiting | src/xframe_agent/api/v1/runs.py:267-269 | A leftover call approved after completion, with a tab left meanwhile: the run still waits when the tool ends |
| ToolCallLaws.StepInv | src/xframe_agent/api/v1/runs.py:115-561 | Every block keeps the accounts of all calls and the order of approval and execution |
| ToolCallLaws.RowHoldsLastSent | src/xframe_agent/api/v1/runs.py:145-205 | In every run, a row holds the arguments that were last sent to its call, by an edit or an approval |
| ToolCallLaws.RowHoldsCommitted | src/xframe_agent/api/v1/runs.py:145-205 | In every run, a call keeps the tool, flag and origin it was committed with for ever, and its arguments as long as none are sent to it |
| ToolCallLaws.EveryRowCommitted | src/xframe_agent/api/v1/runs.py:145-205 | Every row of every run was committed by one of its blocks |
| ToolCalls.OpenInExact | src/xframe_agent/api/v1/runs.py:1160-1186 | The listing of a tab is exactly its open calls, each once, in order |
| ToolCalls.RunConcat | src/xframe_agent/api/v1/runs.py:115-561 | Runs of the machine compose, so what the loop or a handler does after any history is again a run |
| Approvals.ApproveCall | src/xframe_agent/api/v1/runs.py:163-216 | The answer for every status, tool and argument check; only an open call with a known tool and valid arguments starts, its row then holds the sent arguments as its schema takes them, or its own if none were sent, and nothing else changes |
| Approvals.Decide | src/xframe_agent/api/v1/runs.py:115-216 | The rows, the log and the answer of approve, reject and edit outright: an edited row holds exactly the sent arguments and is proposed again, an approved one the validated arguments, a rejected one its own; tool, flag, origin and all other rows stay; refused requests change nothing |
| Approvals.RejectCall | src/xframe_agent/api/v1/runs.py:131-143 | A reject closes the call whatever its status and logs it |
| Approvals.ListProposed | src/xframe_agent/api/v1/runs.py:1160-1186 | The scan returns the open calls of the tab |
| Approvals.RejectStep | src/xframe_agent/api/v1/runs.py:419-470 | Every open call of the tab is rejected in one commit whose last events say so, and the run is completed if it waited; or nothing is found and nothing changes |
| Approvals.ApproveStep | src/xframe_agent/api/v1/runs.py:475-518 | The tab's calls are listed and the first one starts |
| Approvals.Resume | src/xframe_agent/api/v1/runs.py:219-290 | A running approval stores its result over any status, with the row, the events and the run's status outright; a bundle starts the next call in the same block; the run is completed by the status that the request had read |
| Approvals.CancelRun | src/xframe_agent/api/v1/runs.py:98-112 | An unfinished run is cancelled with one event, a finished one stays as it is |
| StepAdvance.Evaluate | src/xframe_agent/agent/workflow_advance.py:271-404 | Every way to leave a tab has its own outcome: refused, free, blocked with its reason and tokens, or the resolved, validated call |
| StepAdvance.BundleOutcome | src/xframe_agent/agent/workflow_advance.py:324-372 | A tab with a call is blocked as unresolved exactly when its template has tokens without a value, and proposes its call exactly when there are none, the tool is named and known and takes the arguments |
| StepAdvance.RequestStepAdvance | src/xframe_agent/api/v1/runs.py:294-403 | Leaving a tab is one commit of the approval machine, of the row, the events and the status that the evaluation calls for; or a refusal that changes nothing |
| StepAdvance.LeavingAddsOne | src/xframe_agent/api/v1/runs.py:294-403 | Leaving a tab with a call gives this tab one more open call, whatever it has already, and no other tab any |
| StepAdvance.EvaluateCall | src/xframe_agent/agent/workflow_advance.py:324-372 | From the resolved template on: unnamed tool, unknown tool, bad arguments or the call |
| StepAdvance.ReasonFor | src/xframe_agent/agent/workflow_advance.py:334-346 | The reason is the missing quote exactly when some unresolved token contains the quote's key |
| StepAdvance.QuoteFound | src/xframe_agent/agent/workflow_advance.py:313-330 | The quote of the run is what its token finds |
| StepAdvance.NextStepAfter | src/xframe_agent/agent/workflow_advance.py:455-478 | The tab behind the first one with the id, or none |
| StepAdvance.OrderWalked | src/xframe_agent/agent/workflow_advance.py:455-478 | Going from a tab to what is answered as its next visits all in declared order and ends, exactly when no id repeats; with a repeated id it never ends |
| DraftFlow.AnswerFillsToken | src/xframe_agent/api/v1/runs.py:786-794 | An accepted answer is what the field's token, named by the tab that declares it, becomes in every template, and other fields' tokens keep their values |
| DraftFlow.FinishedConversationResolves | src/xframe_agent/agent/workflow_advance.py:188-268 | After a conversation answered to its end, a template that asks only for its fields has no token without a value |
| Runner.RunInner | src/xframe_agent/agent/runner.py:275-417 | The loop ends for any provider, clock and tools: it takes the turns that lead on, and its verdict is the one whose condition the next turn meets, with the rows, the counters and the text shown that this implies; at most max-steps provider calls and max-tool-calls rows; its one terminal event is the last, names the cause, and matches the status; it is a run of the approval machine |
| Runner.RunTurn | src/xframe_agent/agent/runner.py:276-390 | One turn: its verdict with the exact condition of each, the rows it leaves, the counters, and the text it shows |
| Runner.RunDetermined | src/xframe_agent/agent/runner.py:275-417 | Provider, clock and tools determine the run: the turns, the verdict, the rows, the counters and the text shown |
| Runner.OneVerdict | src/xframe_agent/agent/runner.py:275-417 | The conditions exclude each other, so a turn completes, waits, leads on, or ends by a cause exactly when the condition of that holds |
| Runner.CheckRepeats | src/xframe_agent/agent/runner.py:353-361 | The window is the last three signatures of everything proposed, and the error is raised exactly at the proposal that completes the first three equal ones in a row |
| Runner.WindowStep | src/xframe_agent/agent/runner.py:353-361 | Keeping three entries is enough: the window of the window and a new entry is the window of all, and it is all the same exactly when the whole history then has a triple |
| Runner.ModelTurn | src/xframe_agent/agent/runner.py:277-339 | Each cause is raised exactly when it holds: step ceiling, then clock, then a failed stream, then input, output and cost ceilings over the usage that the stream reports last; the turn gets its proposals, the j-th that of the j-th tool use, exactly when none does; counters and shown text in every case |
| Runner.UsageIsLast | src/xframe_agent/agent/runner.py:948-953 | The input charged for a stream is that of its last usage event that gives one, and 0 if none does; likewise the output, on its own |
| Runner.StreamReadsAs | src/xframe_agent/agent/runner.py:932-947 | The j-th proposal of a stream is that of its j-th tool use, and its text is the deltas in order, each where the earlier ones end |
| Runner.OneCause | src/xframe_agent/agent/budget.py:49-90 | A turn is kept from its proposals by at most one cause, and gets them only without any |
| Runner.StreamReply | src/xframe_agent/agent/runner.py:555-585 | Draining a stream collects its text and proposals and emits the deltas of its snapshots |
| Runner.TurnShowsMessage | src/xframe_agent/agent/runner.py:310-326 | With redaction stable behind the hold-back, a turn shows exactly its redacted message |
| Runner.WalledTurnShown | src/xframe_agent/agent/runner.py:310-326 | Through the service's own passes a turn shows exactly its redacted message as long as no more than 64 redacted characters follow the last parting character of the text |
| Runner.PersonalNeverShown | src/xframe_agent/agent/runner.py:310-326 | Such an address, card number or phone number that the model streams, in whatever pieces, is shown to the client as its placeholder alone; with no other at sign in the message, none is shown |
| Dispatch.EveryProposalAnswered | src/xframe_agent/agent/runner.py:587-727 | The results of a batch answer every call id exactly as often as it was proposed |
| Dispatch.ScanProposals | src/xframe_agent/agent/runner.py:601-689 | The scan refuses, counts, creates rows and queues in order, and stops exactly at the first call that needs approval or exceeds the ceiling |
| Dispatch.QueuesCover | src/xframe_agent/agent/runner.py:684-689 | Every usable call of a batch waits in one of the two queues |
| Dispatch.StopsOnce | src/xframe_agent/agent/runner.py:601-689 | A batch stops in at most one way at one place: at its first call for approval, at the first call beyond the ceiling, or not at all |
| Dispatch.AdmitCall | src/xframe_agent/agent/runner.py:655-683 | A call over the ceiling gets no row; one that needs approval gets one and pauses the run |
| Executor.RunReaders | src/xframe_agent/agent/runner.py:691-715 | Under every schedule the log gets the start and the end of each reader exactly once, the start first, with never more than the permitted number under way; the results come back in queue order |
| Executor.RunWriters | src/xframe_agent/agent/runner.py:716-726 | The log gets start and end of one writer after the other in proposal order |
| ExecutionTrace.TraceDone | src/xframe_agent/agent/runner.py:691-715 | When no reader waits or runs, the events are those of a serial execution, each once, in an order with start before end and the bound kept at every moment |
| Executor.CompleteOne | src/xframe_agent/agent/runner.py:729-813 | The row is succeeded, the event says completed and the result is the output if the tool ran; otherwise the row is failed, the event says failed and the result is an error; the rest of the row and the other rows stay |
| Executor.DispatchProposals | src/xframe_agent/agent/runner.py:587-727 | Each outcome with its exact reason: paused at the first call for approval that the ceiling leaves room for, over budget at the first call beyond it, without a client if something is to execute, else executed, readers side by side and then writers, with the results laid out as refusals, readers, writers; every executed row is succeeded exactly if its own execution ran, and its result an error exactly if it is failed; unless executed, nothing of the batch runs; the rows become one commit of the machine |
| Dispatch.LayoutTells | src/xframe_agent/agent/runner.py:587-813 | For every proposal the results of an executed batch hold what the model is to be told under its call id: why it was refused, or what its own row's execution gave, or how it failed |
| LoopBudget.Budget.BeginStep | src/xframe_agent/agent/budget.py:49-60 | The step ceiling before the clock; only a permitted step is counted |
| LoopBudget.Budget.RecordToolCall | src/xframe_agent/agent/budget.py:62-68 | The count never passes the ceiling |
| LoopBudget.Budget.RecordUsage | src/xframe_agent/agent/budget.py:70-90 | Usage is counted first and compared after, the first ceiling crossed is reported |
| DeltaStreamer.StreamedIffCutsAgree | src/xframe_agent/agent/runner.py:863-917 | The deltas add up to the final redacted text exactly when every emitted cut stands in it |
| DeltaStreamer.StableStreams | src/xframe_agent/agent/runner.py:863-917 | If every snapshot without its last 64 characters is a prefix of the final text, the deltas are the final text exactly once |
| DeltaStreamer.Streamer.OnText | src/xframe_agent/agent/runner.py:890-901 | A snapshot moves the position to all but its last 64 characters, never back, and emits what lies between |
| DeltaStreamer.Streamer.Finish | src/xframe_agent/agent/runner.py:903-917 | The tail is flushed; a message that redacts to nothing still gets one delta |
| Redaction.ScanStable | src/xframe_agent/agent/redaction.py:43-75 | A left-to-right scanner with matches in a window and bounded expansion is stable behind the hold-back when the text grows |
| Redaction.BoundedScannerStreams | src/xframe_agent/agent/redaction.py:43-75 | Streaming through such a scanner shows the redacted text exactly once |
| Patterns.CodesAreBounded | src/xframe_agent/agent/redaction.py:18-18 | Six-digit codes are such a scanner |
| Patterns.CardsAreBounded | src/xframe_agent/agent/redaction.py:19-19 | Card numbers are one, with a window of 39 characters |
| Patterns.PhonesAreBounded | src/xframe_agent/agent/redaction.py:15-17 | Phone numbers are one, with a window of 22 characters |
| Patterns.ControlsAreBounded | src/xframe_agent/agent/redaction.py:20-20 | Control characters, replaced by nothing, are one |
| Patterns.RegexIsBounded | src/xframe_agent/agent/redaction.py:14-19 | Every expression without unbounded repetition, matched with backtracking between edges, is one, with one character behind its longest match, if the placeholder is not too long for the hold-back |
| Patterns.PassesStream | src/xframe_agent/agent/redaction.py:43-75 | Each of these four passes alone streams every text exactly once |
| Redactor.RedactParted | src/xframe_agent/agent/redaction.py:43-75 | Through all passes, the redaction of a text with a character that no pattern takes is that of its parts, with the character between them, so what `Marking` says of a part holds inside any text |
| Redactor.MessageStreams | src/xframe_agent/agent/runner.py:853-917 | Through all passes together a message streams exactly once as long as no snapshot has more than 64 redacted characters behind its last such character |
| Marking.PersonalMarked | src/xframe_agent/agent/redaction.py:43-75 | An address or a phone number with fewer than thirteen digits, or a card number, behind text without digits, control characters and the signs @, + and ( that ends in no character of a local part, and with that text between characters that no pattern takes or at the ends of the message, becomes exactly its placeholder; what is before and behind is redacted as it is alone |
| Marking.CardBehindText | src/xframe_agent/agent/redaction.py:19-19 | Thirteen to nineteen digits, with a space, a dash or nothing between one and the next, become the placeholder of a card number |
| Marking.AddressBehindText | src/xframe_agent/agent/redaction.py:14-14 | An address with fewer than thirteen digits becomes its placeholder, behind any such text |
| Marking.PhoneBehindText | src/xframe_agent/agent/redaction.py:15-17 | A text of the shape of a phone number becomes its placeholder as a whole, however its digits can be grouped |
| Phones.WholeMatched | src/xframe_agent/agent/redaction.py:15-17 | The first match that the backtracking matcher finds in a text of the shape of a phone number is the whole text, though its digits can be split in many ways |
| Phones.PhoneExactly | src/xframe_agent/agent/redaction.py:15-17 | The ends that the matcher tries are exactly those of an optional country code, an optional area code and two groups of digits |
| Marking.CodeMarked | src/xframe_agent/agent/redaction.py:14-18 | Six to twelve digits alone, a code of six among them, become the placeholder of a phone number |
| Marking.CodePassIdle | src/xframe_agent/agent/redaction.py:18-18 | The pass for codes changes nothing in any text that the phone pass has gone over |
| Marking.CardBeforeAddress | src/xframe_agent/agent/redaction.py:43-75 | Cards go before addresses: of an address whose local part is a card number the rest stays |
| Redactor.ControlInterrupts | src/xframe_agent/agent/redaction.py:43-75 | A control character parts a text like a character that no pattern takes, and then goes: what it interrupts is not matched |
| Marking.FewDigitsNoCard | src/xframe_agent/agent/redaction.py:19-19 | A text with fewer than thirteen digits has no card number |
| Marking.NoControlLeft | src/xframe_agent/agent/redaction.py:49-75 | No output has a control character |
| Marking.NoAtLeft | src/xframe_agent/agent/redaction.py:43-75 | No pass brings an at sign in |
| Marking.AddressGone | src/xframe_agent/agent/redaction.py:43-75 | Of the address of a message without other at signs not even the at sign is left |
| Marking.UnmatchedStays | src/xframe_agent/agent/redaction.py:43-75 | A text without control characters that no pattern matches anywhere stays as it is |
| Marking.PlainStays | src/xframe_agent/agent/redaction.py:43-75 | So does a text without digits, at signs and control characters |
| Redaction.EmailStreams | src/xframe_agent/agent/redaction.py:14-14 | Over any growing snapshots of an address the deltas are its redacted text exactly when no snapshot has more than 64 characters that the match does not cover |
| Redaction.EmailInTextStreams | src/xframe_agent/agent/redaction.py:14-14 | The same for an address behind any text without an at sign that ends in no character of a local part |
| Redaction.LongHostFails | src/xframe_agent/agent/redaction.py:14-14 | Local part and host of more than 64 characters together: the stream fails, however short the local part |
| Redaction.LongDashesFail | src/xframe_agent/agent/redaction.py:14-14 | A domain that goes on with more than 64 dashes: the stream fails behind a match |
| Redaction.EmailsAreUnbounded | src/xframe_agent/agent/redaction.py:14-14 | No window bounds the e-mail pattern |
| EventLog.EventTable.Append | src/xframe_agent/agent/events.py:23-46 | Maximum plus one is the next place of the run's log; the logs of other runs stay |
| EventLog.QueryIsSlice | src/xframe_agent/agent/events.py:49-64 | The resume query is the slice of the log right after the cursor |
| EventLog.CursorRoundTrip | src/xframe_agent/api/v1/runs.py:1375-1378 | The id sent to a client is read back as the same number |
| EventLog.ClientHoldsPrefix | src/xframe_agent/api/v1/runs.py:1197-1240 | Over any appends, limited polls, drops and reconnects a client that resumes by the header, or by a URL with its own cursor, holds a prefix of the log: contiguous, in order, without duplicates |
| EventLog.ClientHoldsPrefixExactly | src/xframe_agent/api/v1/runs.py:1197-1240 | With any cursors in the URLs, the client holds a prefix of the log exactly when every event came over a connection that stood where the client was |
| EventLog.ResumeExactly | src/xframe_agent/api/v1/runs.py:1200-1201 | A client in step reconnects and gets events: it holds a prefix exactly when the cursor in the URL is absent or its own |
| EventLog.StaleUrlRepeats | src/xframe_agent/api/v1/runs.py:1200-1201 | A client that reconnects with the cursor of its first connection gets the first event again |
| EventLog.PollProgress | src/xframe_agent/api/v1/runs.py:1206-1231 | A poll that gets through delivers the limit or all that is left |
| ResearchBudget.RunBudget.CanSpend | src/xframe_agent/agent/suggestions_budget.py:40-53 | Negative estimates fail; otherwise both caps decide, and nothing is reserved |
| ResearchBudget.RunBudget.Record | src/xframe_agent/agent/suggestions_budget.py:55-61 | One call and its cost are added, whatever the caps say |
| ResearchBudget.RunBudget.Exhausted | src/xframe_agent/agent/suggestions_budget.py:63-67 | Exhausted exactly when no positive estimate would be allowed |
| ResearchBudget.OvershootBound | src/xframe_agent/tools/web_research.py:435-458 | With k slots that check, await and record on one budget, every interleaving keeps calls made and in flight within the cap plus k - 1, and money within the cap plus k - 1 estimates |
| ResearchBudget.AloneWithinCaps | src/xframe_agent/tools/web_research.py:435-458 | One slot keeps both caps exactly |
| ResearchBudget.OvershootReached | src/xframe_agent/agent/suggestions.py:411-416 | For every k and every cap some interleaving reaches both bounds |
| ResearchCache.Cache.Lookup | src/xframe_agent/tools/web_research.py:116-125 | An expired entry is dropped, a live one becomes the most recent |
| ResearchCache.Cache.Store | src/xframe_agent/tools/web_research.py:127-139 | The entry becomes the most recent and the oldest are evicted down to the bound |
| ResearchCache.RunBounded | src/xframe_agent/tools/web_research.py:95-139 | Keys stay distinct and the size never exceeds 1024 |
| ResearchCache.HitIsLastSet | src/xframe_agent/tools/web_research.py:116-139 | A hit is the last set of its key with a positive lifetime, unexpired |
| ResearchCache.LiveKeyIsFound | src/xframe_agent/tools/web_research.py:116-139 | A live key is found while fewer than 1024 distinct other keys were touched since its own last touch |
| WebResearch.Begin | src/xframe_agent/tools/web_research.py:407-444 | A hit is the client's own answer and touches neither client nor budget; without a hit, the client's key and the allowance, if there is one, decide |
| WebResearch.Complete | src/xframe_agent/tools/web_research.py:445-479 | Timeouts and errors cost nothing and store nothing; an answer is charged to the allowance, if there is one, and stored only if it has a signal |
| WebResearch.FilledExactly | src/xframe_agent/tools/web_research.py:464-470 | Every part of an answer that the client gave is kept, every part it left out gets its own default |
| WebResearch.EveryHitIsTheClientsAnswer | src/xframe_agent/tools/web_research.py:407-479 | However the fields interleave, a hit is the client's answer to this query, returned by an earlier call whose lifetime is not over |
| RateLimit.Limiter.AllowMemory | src/xframe_agent/middleware/rate_limit.py:80-90 | The pruned deque admits exactly when fewer than limit of all earlier admissions of the key lie in the closed window; other keys are untouched |
| RateLimit.RunAdmits | src/xframe_agent/middleware/rate_limit.py:80-90 | A run of the limiter leaves each key the admissions of the rule |
| RateLimit.AdmittedExactly | src/xframe_agent/middleware/rate_limit.py:80-90 | Request by request: admitted exactly when fewer than limit of the key's admissions so far lie in the window that ends with it |
| RateLimit.EveryWindowLimited | src/xframe_agent/middleware/rate_limit.py:80-90 | Every closed window of the configured length holds at most limit admissions of a key |
| RateLimit.KeysIndependent | src/xframe_agent/middleware/rate_limit.py:80-90 | A client's admissions depend on its own requests alone |
| RateLimit.ScriptRefinesHistory | src/xframe_agent/middleware/rate_limit.py:15-27 | The script's expiry of old scores never changes its decision |
| RateLimit.ScriptExactly | src/xframe_agent/middleware/rate_limit.py:15-27 | The same for the script, with the admissions less than a window back |
| RateLimit.EveryScriptWindowLimited | src/xframe_agent/middleware/rate_limit.py:15-27 | Every window without its first moment holds at most limit admissions of a key by the script |
| RateLimit.BackendsDiffer | src/xframe_agent/middleware/rate_limit.py:15-27 | The script admits what the deque refuses exactly when hits one whole window old make the difference, never the other way |
| RateLimit.BackendsDifferOnARun | src/xframe_agent/middleware/rate_limit.py:15-27 | Two requests one window apart under a limit of one |
| Template.ParseExactly | src/xframe_agent/agent/workflow_advance.py:64-65 | A text is a token exactly when it is that token's text, with or without one final newline |
| Template.DraftTokenFinds | src/xframe_agent/agent/workflow_advance.py:218-243 | A draft token is the run's value of that name, and without one the value at the end of its path through the draft, key by key |
| Template.FieldTokenFinds | src/xframe_agent/agent/workflow_advance.py:218-243 | A field token is what the tab's section of the draft holds under the field |
| Template.ResolveValue | src/xframe_agent/agent/workflow_advance.py:188-268 | The resolver returns the substitution the template denotes and the unresolved tokens in traversal order |
| Template.ResolveText | src/xframe_agent/agent/workflow_advance.py:218-243 | What a token becomes: the field of a tab, a value of the run, a path through the draft, or null |
| Template.SubstKeepsShape | src/xframe_agent/agent/workflow_advance.py:244-268 | At every place: keys, lengths and other values stay, a token becomes the draft's value as it is |
| Template.SubstAddsNothing | src/xframe_agent/agent/workflow_advance.py:244-268 | The result has no place beyond the template's and those inside substituted values, which are never expanded |
| Template.MissingExactly | src/xframe_agent/agent/workflow_advance.py:188-268 | A token is reported exactly when it stands somewhere in the template and has no value |
| Template.GrowthNeverUnresolves | src/xframe_agent/agent/workflow_advance.py:218-243 | A token with a value keeps one while the draft grows |
| Template.MissingShrinks | src/xframe_agent/agent/workflow_advance.py:188-268 | A growing draft reports no new token |
| Answers.AcceptedFits | src/xframe_agent/agent/conversation/validate.py:12-55 | An accepted value fits its field, and the fitting values are exactly those accepted unchanged |
| Answers.ValidateIdempotent | src/xframe_agent/agent/conversation/validate.py:12-55 | Validating an accepted value again accepts it unchanged |
| Answers.AcceptedIsAnswer | src/xframe_agent/agent/conversation/validate.py:12-55 | What is stored is the answer itself, or the list of it, the number it reads as, or its text, as the kind of the field wants |
| Answers.RefusalsExactly | src/xframe_agent/agent/conversation/validate.py:12-55 | Every reason for a refusal, each exactly when it applies |
| Answers.CrashesExactly | src/xframe_agent/agent/conversation/validate.py:22-36 | The only uncaught errors are lists or objects offered as options |
| Conversation.CursorRoundTrip | src/xframe_agent/agent/conversation/cursor.py:22-40 | A written cursor is read back and nothing else in the draft changes |
| Conversation.AdvanceIsSuccessor | src/xframe_agent/agent/conversation/sequencer.py:93-102 | The advance moves to the next entry of the flattened field list |
| Conversation.AskedExactly | src/xframe_agent/agent/conversation/sequencer.py:63-102 | Every field is asked exactly once, in order, exactly when all are specified and no empty phase comes before a phase with fields |
| Conversation.EmptyPhaseEndsEarly | src/xframe_agent/agent/conversation/sequencer.py:63-90 | A phase without fields before one with a field: nothing is asked |
| Conversation.UnspecifiedEndsEarly | src/xframe_agent/agent/conversation/sequencer.py:63-90 | A field no tab declares: neither it nor the field behind it is asked |
| Conversation.NthPrompt | src/xframe_agent/agent/conversation/sequencer.py:63-102 | After n answers the n-th field is asked, after the last comes the recap, and it stays |
| Conversation.PromptShows | src/xframe_agent/agent/conversation/sequencer.py:63-90 | What a prompt shows of its field, part by part, and which control each kind gets |
| Conversation.NoCursorIsStart | src/xframe_agent/agent/conversation/cursor.py:22-30 | A draft without a cursor is at the start |
| Conversation.Draft.SubmitFieldAnswer | src/xframe_agent/api/v1/runs.py:741-818 | Lookup, validation, write and advance, with every refusal leaving the draft as it was; an accepted answer stands under its field in the section of the first tab that declares it, and every other section stays |
| Conversation.WrittenEffect | src/xframe_agent/api/v1/runs.py:786-794 | Field writes and the cursor never disturb each other |
| Conversation.StepIdOwns | src/xframe_agent/api/v1/runs.py:732-738 | The section that an answer goes to is the id of the first tab that declares the field, and "summary" if that id is empty or no tab declares it |
| Conversation.OtherAnswerSkips | src/xframe_agent/api/v1/runs.py:768-794 | An answer to another field moves past the asked one and leaves it unanswered |
| Conversation.ConversationStoresAll | src/xframe_agent/api/v1/runs.py:741-818 | In a sound contract all accepted answers are stored, each validated in its own field, with one advance each |
| Conversation.RecapAfterAll | src/xframe_agent/agent/conversation/sequencer.py:63-90 | After as many answers as fields comes the recap and nothing more is asked |
| Conversation.ReAskExactly | src/xframe_agent/api/v1/runs.py:821-845 | Asking again shows the sequencer's prompt exactly when the first and the last declaration look the same and the phase asked in is named like the first with the field |
| Conversation.ReAskSame | src/xframe_agent/api/v1/runs.py:821-845 | A field declared once and asked in one phase is asked again with its prompt, whatever the other fields are |
| Conversation.ReAskDiffers | src/xframe_agent/agent/conversation/sequencer.py:54-60 | Two declarations with different captions give two different prompts |
| StepProposals.ProposeStepPayload | src/xframe_agent/agent/step_proposals.py:266-388 | The loop gathers, field by field, draft value, history or default, charges history even when it is silent, and proposes nothing when nothing resolved |
| StepProposals.GatherKeys | src/xframe_agent/agent/step_proposals.py:326-370 | Payload and rationale have the same keys, all essential fields of the tab |
| StepProposals.ProposedByLadder | src/xframe_agent/agent/step_proposals.py:326-370 | With allowance for every field, each essential field is proposed by the ladder draft, history, default, whatever the others are |
| StepProposals.LadderExactly | src/xframe_agent/agent/step_proposals.py:326-370 | The rungs outright: the draft's own answer, else what history says, else the default of the kind |
| StepProposals.GatherCharges | src/xframe_agent/agent/step_proposals.py:332-356 | At most one charge a field, never beyond the cap, at no cost |
| StepProposals.ChargedExactly | src/xframe_agent/agent/step_proposals.py:332-356 | Each field that wants history, has no answer in the draft and finds a call left costs exactly one call, whatever history says; no other field costs any |
| StepProposals.DefaultExactly | src/xframe_agent/agent/step_proposals.py:151-189 | The default of each kind of field |
| StepProposals.EssentialsExactly | src/xframe_agent/agent/step_proposals.py:294-312 | The essential fields are those the ids name, the last declaration of each, in the order of the ids |
| StepProposals.DefaultAccepted | src/xframe_agent/agent/step_proposals.py:151-189 | A default is accepted by its own field except an empty choice for a required field and a number above the maximum |
| StepProposals.EmptyChoiceRefused | src/xframe_agent/agent/step_proposals.py:151-189 | A required multiple choice without options is proposed empty and refused as an answer |
| StepProposals.DefaultAboveMaximum | src/xframe_agent/agent/step_proposals.py:151-189 | A number of at most -1 is proposed as 0 and refused as an answer |
| StepProposals.ConfidenceBounds | src/xframe_agent/agent/step_proposals.py:235-263 | Confidence lies between zero and one, rounding included |
| StepProposals.ConfidenceExactly | src/xframe_agent/agent/step_proposals.py:235-263 | Seven tenths of the share that is filled plus three tenths of the best source, to the nearest ten-thousandth |
| StepProposals.ProposalIsAcceptable | src/xframe_agent/api/v1/runs.py:624-642 | Every proposed payload passes the unknown-field check |
| StepProposals.AcceptProposal | src/xframe_agent/api/v1/runs.py:624-660 | Unknown fields are refused and listed; otherwise the payload is merged key by key |
| StepProposals.AcceptKeepsOthers | src/xframe_agent/api/v1/runs.py:644-653 | Accepting keeps every other field, tab and the cursor |
| StepProposals.AcceptedStaysProposed | src/xframe_agent/agent/step_proposals.py:124-130 | Proposing again keeps every accepted value that is not blank, from the draft, edited or not |
| StepProposals.AcceptNeverUnresolves | src/xframe_agent/agent/step_proposals.py:326-370 | Accepting a proposal never takes a value away from a token of any template |
| Blend.NoSignalExactly | src/xframe_agent/agent/suggestions_blend.py:114-216 | No suggestion exactly when history is too thin and the market is below its threshold or has no value |
| Blend.ExceedsExactly | src/xframe_agent/agent/suggestions_blend.py:104-111 | Values disagree when they lie further apart than the given part of the historical one, a zero included |
| Blend.BlendPosition | src/xframe_agent/agent/suggestions_blend.py:155-178 | Two strong bands meet three tenths of the way from history to market, a moderate history meets the market half way |
| Blend.OneBandExactly | src/xframe_agent/agent/suggestions_blend.py:155-216 | Which band decides alone, in every case, and what the user is told |
| Blend.TwoBandsTold | src/xframe_agent/agent/suggestions_blend.py:155-274 | What the user is told of two bands: the weights, and that they disagree exactly if they lie too far apart |
| Blend.FlashTold | src/xframe_agent/agent/suggestions_blend.py:228-274 | What the user is told of a recommendation: what the reconciler said, or the default reason |
| Blend.SourcesExplainValue | src/xframe_agent/agent/suggestions_blend.py:114-274 | One source gives its value, two a value between theirs, the reconciler its recommendation |
| Blend.FlashExactly | src/xframe_agent/agent/suggestions_blend.py:228-274 | When the reconciler decides |
| Blend.AsyncAgreesExactly | src/xframe_agent/agent/suggestions_blend.py:297-362 | The asynchronous wrapper agrees with the ladder except for a recommendation on a pair below both thresholds |
| Blend.AsyncAgreesByDefault | src/xframe_agent/agent/suggestions_blend.py:297-362 | With a minimum sample of at most three they always agree |
| Blend.AsyncDiffers | src/xframe_agent/agent/suggestions_blend.py:297-362 | With a minimum of four they differ on a concrete pair |
| Blend.Reconcile | src/xframe_agent/agent/suggestions_blend.py:406-443 | Asked only within the allowance, charged only for a reply; a negative estimate is an error once there is a key |
| Ids.Encode | src/xframe_agent/ids.py:11-19 | The loop writes the lowest 26 base-32 digits, highest first |
| Ids.EncodingInjective | src/xframe_agent/ids.py:11-19 | Below 2^130 identifiers are equal exactly when their numbers are |
| Ids.OrderPreserved | src/xframe_agent/ids.py:11-19 | Below 2^130 the text order is the number order |
| Ids.LaterSortsLater | src/xframe_agent/ids.py:14-14 | A later millisecond gives a later identifier whatever the random bits |
| Ids.HighBitsLost | src/xframe_agent/ids.py:15-19 | From 2^130 on identifiers repeat |
| Pagination.SelectedExact | src/xframe_agent/api/v1/conversations.py:87-96 | The query selects exactly the user's live conversations below the cursor, each once, newest first |
| Pagination.ListConversations | src/xframe_agent/api/v1/conversations.py:81-104 | One row beyond the limit tells whether there is more and where to go on |
| Pagination.FollowedDescending | src/xframe_agent/api/v1/conversations.py:88-104 | However the table changes between pages, nothing is delivered twice or out of order |
| Pagination.StayingIsDelivered | src/xframe_agent/api/v1/conversations.py:88-104 | A client that reaches the last page got every conversation that was live all the while |
| Pagination.FixedTable | src/xframe_agent/api/v1/conversations.py:88-104 | Over a fixed table the pages end and are exactly the live conversations, newest first |
| Wrapping.PayloadCannotClose | src/xframe_agent/agent/wrapping.py:19-33 | A block ends with its close tag, and any other close tag in it comes from the tool's name or the call id, never from the payload |
| Wrapping.PlainNamesCloseOnce | src/xframe_agent/agent/wrapping.py:27-33 | With names free of '<' the close tag occurs exactly once |

## Left out

- Atomic blocks: two requests that read and write the same row inside one block are not modelled; the code takes no locks there, and every block between two commits is one step.
- Runner.RunInner: between two commits of one loop no other handler runs; the machine of `ToolCalls` allows it and its laws cover it, and each delta's own commit is folded into its turn's.
- Executor.RunReaders: with readers waiting and none permitted to run, the semaphore would wait for ever; this is excluded, by Executor.DispatchProposals too, and by Runner.RunTurn and Runner.RunInner unless no tool reads.
- Permission errors that escape a tool inside the loop, which end the invocation without a terminal event, are excluded from what a tool can do.
- The guided branches of the loop (workflow submission, generic pricing request) and the deterministic loop: they write one proposal or one prompt and never reach the model loop.
- Which arguments an execution used: a bundle executes with the arguments it listed, even if the call was edited since; the machine counts executions and does not record their arguments.
- EventLog.ClientHoldsPrefix: the end of a stream after a terminal event is a disconnect like any other; heartbeats and event payloads are not modelled.
- Redactor.MessageStreams: for the passes together only this sufficient condition is given, and no exact one where more than 64 redacted characters follow the last parting character; word characters are the ASCII ones.
- Marking.PersonalMarked: no exact output is stated behind text in which a pattern could begin, nor for addresses and phone numbers with thirteen or more digits, parts of which can be a card number.
- Floating point: costs, times, confidences and values are reals; rounding to four places is to nearest with ties to even; NaN and infinities are left out except the infinite disagreement, which is its own case.
- ResearchCache.Cache.Lookup: the Redis backend of the cache is not part of this model.
- WebResearch.Begin: the key of a query is any function without collisions, and the client is a function of the query.
- RateLimit.Limiter.AllowMemory: deriving the key from request headers is not modelled; the Redis members are assumed distinct.
- StepAdvance.RequestStepAdvance: the lookup of the latest created quote is a parameter, and so are the events announcing the next tab.
- Conversation.CursorRoundTrip: a stored cursor index that is a text or negative counts as malformed.
- Answers.ValidateIdempotent: parsing of numbers, the text of other values and pattern matching are parameters; the text of a value that is not a text is assumed not to be empty.
- StepProposals.ProposeStepPayload: the historical endpoint is a function of the field; its filters and permission check are parameters.
- Schema validation, JSON text, the registry and approval policy of tools are parameters.
- Committing a draft to PriceFRAME, health, memory, voice, attachments, metrics, tracing, prompts and migrations: copying of fields or input and output without a property of this depth.
