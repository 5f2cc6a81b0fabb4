# Verified model of the agent harness

The harness is built from event logs, projections replayed from them, and small concurrent protocols. This project
models those parts in Dafny and proves what they promise. Each module follows one component:

| file | component |
|---|---|
| `RunRegistry.dfy`, `RunStore.dfy` | the SQLite run and event registry: its transactions as functions on tables, and as an object that performs them |
| `RunFanout.dfy`, `RunAttach.dfy`, `RunBroker.dfy` | live fan-out to bounded subscriber queues: as a transition system, a reader attached through it, and the broker, subscription and journal objects |
| `Reply.dfy`, `ReplyStream.dfy` | the reply format, and the gate that turns model chunks into public deltas |
| `AgUiMapper.dfy`, `AgUiTools.dfy`, `AgUiNormalizer.dfy` | the AG-UI normalizer: text bracketing, tool-call correlation, and the object that holds both |
| `ReplyPipeline.dfy` | both stages of the reply path end to end |
| `ProviderControls.dfy`, `ProviderService.dfy` | login, cancel and logout as a step relation over event loop, threads and locks, and the controls object |
| `Ledger.dfy`, `ShadowStore.dfy`, `LedgerStores.dfy` | the JSONL and DuckDB ledgers, the per-task event stream and the ledger-backed store in front of it, and the four store objects |
| `TaskState.dfy`, `Workflow.dfy` | the task ledger with its patches and keyed log, and the bounded workflow loop over it |
| `Notebook.dfy`, `Replay.dfy` | the notebook projection, and which cells a kernel restoration may re-run |
| `GrepPages.dfy` | the round-robin search pager and its cursor walk |
| `Approvals.dfy`, `ApprovalWaits.dfy` | approval rows, and the waits that race with deciders, expiry and timeouts |
| `SignTest.dfy`, `PairedTrials.dfy` | the exact sign test, and the paired tally it is applied to |
| `Wrappers.dfy` | option and result values, and two sequence facts |

Pure logic is given as functions; code that updates objects is given as classes whose methods are proved equal to those
functions, so every lemma about a function is a statement about the object. Protocols that interleave are given as
`Enabled`/`Next` step relations and proved over every sequence of steps.

## Where the code falls short of its promise

Each of these has a lemma with a concrete input and a lemma that says exactly when the promise is kept. The inputs are
reached by the code's own operations, in the order the code performs them, except for four that need a caller of the
API: `AgUiMapper.RejectedPushLosesEnd` and `AgUiTools.ResultWithoutStart` (the server gives up its normalizer once a push
raises, `harness/server/runtime.py:222`), `RunFanout.ForeignUnsubscribe` (the server names its own run,
`harness/server/runtime.py:1097`) and `Ledger.CollisionWitness` (a NUL in a task name).

- The JSONL ledger and the per-task event files are read back with `str.splitlines`, which also splits at U+0085, U+2028
  and U+2029, while their writer escapes line ends below U+0020 only: the lines read are the lines written exactly when no
  stored text holds one of the three (`Ledger.LinesAreEventsIff`). One accepted append with such a text makes every later
  append, read and erase of every task raise on the ledger file, while the table answers
  (`Ledger.SeparatorBreaksTheFile`); the backends answer the next operation alike, whatever it is, exactly when the file
  parses (`Ledger.NextAgreesIff`), and a whole sequence exactly when each of its operations finds a file that parses or is
  an append the table refuses too (`Ledger.BackendsAgreeIff`). An event file loses its own task only; through the
  ledger-backed store every other task is lost with it (`ShadowStore.SeparatorLosesEveryTask`), and reads are the
  operational ones exactly while the ledger file parses or the task's own file does not
  (`ShadowStore.ReadsAreTheStreamIff`).
- A tool part that raises in the normalizer discards the TEXT_END it had already produced
  (`AgUiMapper.RejectedPushLosesEnd`); a stream closes after finish exactly when no rejected push met an open message
  (`AgUiMapper.StreamClosesIff`, and for one push `AgUiMapper.RejectedPushInStepIff`).
- A tool part that raises also loses the START of the calls recorded before it in the same event, so a later result shows
  without one (`AgUiTools.ResultWithoutStart`); results follow their starts exactly when no such call is answered
  (`AgUiTools.StartsComeFirstIff`).
- Two ledger event ids coincide when task names contain NUL characters (`Ledger.CollisionWitness`); the two backends
  answer an append to a file that parses alike exactly when it is not such a collision (`Ledger.AppendAgreesIff`).
- After a crash between the two writes of the ledger-backed store (`ShadowStore.CrashThenAppend`), an append that is not
  preceded by a read or by a retry of the lost one leaves the ledger out of order (`ShadowStore.AppendKeepsOrderIff`) for
  good (`ShadowStore.OutOfOrderForGood`).
- Unsubscribing under another run id closes the queue but leaves it registered (`RunFanout.ForeignUnsubscribe`,
  `RunFanout.UnsubscribeKeepsIff`).
- Attaching to a finished run reads its tail as one page of 1000 events (`RunFanout.TerminalTailIsCut`,
  `RunFanout.TerminalTailCompleteIff`).
- A logout repeated under a remembered request id answers from its receipt and deletes nothing, even after a new login
  (`ProviderControls.ReplayedLogoutLeavesCredential`, reached by `ProviderControls.LogoutLeavesReceipt`). It leaves an
  earlier attempt's credential exactly when one is on disk or an attempt may still save (`ProviderControls.LogoutRunsIff`).
  The code comment at `harness/ai/controls.py:126-127` asks clients not to replay.
- The reconciliation patch written when a run is reopened is keyed by the workspace fingerprint alone. A run that dies
  before its first step after it cannot start again at that fingerprint (`Workflow.ReconciledRunCannotStart`); one that
  dies after a step goes on with a ledger its log does not hold (`Workflow.DroppedReconciliation`). When a run can be
  reopened is said by `Workflow.ReopensIff`, and when its ledger is then the replayed one by
  `Workflow.WorkflowRun.Initialize`.
- `task-finished` and `iteration-limit` are keyed without the iteration: a second completion of the same task either
  raises or is not recorded (`Workflow.SecondCompletion`, `Workflow.WorkflowRun.VerificationTransition`), and a second
  exhausted limit after further passes always raises (`Workflow.SecondLimit`, `Workflow.LimitTwice`).
- A model step may bring an empty decision, which the ledger's schema refuses: the pass raises after the coding contract
  may have been recorded (`Workflow.EmptyDecisionRaises`), and exactly on such a step (`TaskState.NotesAccumulate`).
- The replay classifier does not see that an augmented assignment reads its target, so restoration can give a wrong value
  or stop (`Replay.AugmentedIsRestoredWrongly`, `Replay.AugmentedBlocksRestoration`); a safe cell can be replayed into any
  kernel, and never stops a session that replays only it, exactly when it runs alone (`Replay.ReplayableIff`,
  `Replay.RestorableIff`), and the code of every replayed cell that neither runs alone nor reads only what replayed cells
  wrote last stops some session (`Replay.UnsourcedStops`).

## Model

| member | source | states |
|---|---|---|
| RunStore.SqliteRunEventStore.Create | harness/server/registry.py:168-275 | creating a run changes the table and answers exactly as the specification does, whose answers on arguments and rows are RunRegistry.CreateAnswers; it keeps the invariant |
| RunStore.SqliteRunEventStore.Update | harness/server/registry.py:290-359 | a status update is a compare-and-set along the allowed transitions; every refusal leaves the row unchanged |
| RunStore.SqliteRunEventStore.Append | harness/server/registry.py:427-535 | a batch commits whole with counted-up sequences or rolls back whole, and keeps the invariant |
| RunStore.SqliteRunEventStore.InsertBatch | harness/server/registry.py:475-535 | the loop over a batch, whose first conflict undoes the inserts before it |
| RunStore.SqliteRunEventStore.Finish | harness/server/registry.py:550-652 | status change and terminal event in one transaction, with all its refusals |
| RunStore.SqliteRunEventStore.ReadPage | harness/server/registry.py:654-714 | reading one row beyond the page gives the page, its high water and whether there is more |
| RunRegistry.EmptyStoreWellFormed | harness/server/registry.py:92-152 | the empty tables satisfy the invariant |
| RunRegistry.EveryRunKeeps | harness/server/registry.py:92-652 | over every sequence of operations: logs numbered 1..n, keys unique, one active run and one binding set per conversation, stored envelopes immutable, status rank never falling, terminal rows frozen |
| RunRegistry.BindingCheckCoversConversation | harness/server/registry.py:237-246 | comparing with the latest run of a conversation is comparing with all of them |
| RunRegistry.CreateAnswers | harness/server/registry.py:168-275 | on arguments and rows: under a key the user has used, a create is accepted iff the stored run has the thread, input, metadata and resolved session and invocation of the request, and answers with it; under a new key, iff no run of the conversation is active or bound elsewhere and the id is free, and adds exactly that run; a refused one changes nothing |
| RunRegistry.RetriedCreate | harness/server/registry.py:208-228 | a create repeated under its key after any later operations changes nothing and answers with the same run, however far it has come, iff it asks for the same; otherwise it is refused |
| RunRegistry.UpdateAnswers | harness/server/registry.py:290-359 | a status update is accepted iff there is such a run, in the expected status if one is named, with a transition that is allowed and an error only where it may stand; it rewrites status and clipped error and nothing else |
| RunRegistry.AppendAcceptedIff | harness/server/registry.py:427-533 | an append is accepted iff its batch is proper and no event of it clashes with what its key holds or its run forbids, and a refused one changes nothing |
| RunRegistry.TerminalizeAcceptedIff | harness/server/registry.py:550-652 | a terminalize is accepted iff it is well formed and its run is in the expected status with the key unused, or has ended that way with that event under the key |
| RunRegistry.PageAnswers | harness/server/registry.py:654-714 | a page holds what follows the cursor in the run's log, up to the page size and the high water, and says whether there is more |
| RunRegistry.BatchGrows | harness/server/registry.py:475-535 | a committed batch extends its run's log by exactly the created envelopes, consecutively, and touches no other run |
| RunRegistry.BatchStored | harness/server/registry.py:475-535 | every event of a committed batch is stored under its key with the envelope returned for it |
| RunRegistry.BatchOutcome | harness/server/registry.py:490-533 | a batch is refused iff some event conflicts with what its key holds, and otherwise creates exactly the events whose key was unused |
| RunRegistry.RetriedBatchIsSilent | harness/server/registry.py:490-533 | a fully keyed accepted batch retried on any later store inserts nothing and returns the same envelopes |
| RunRegistry.TerminalizeTogether | harness/server/registry.py:550-652 | an accepted terminalize sets status and error and appends its event iff the run was still active |
| RunRegistry.TerminalizeIsIdempotent | harness/server/registry.py:590-612 | repeating an accepted terminalize at any later time changes nothing and answers with the stored event |
| RunRegistry.PagingIsExact | harness/server/registry.py:654-714 | pages read at the first page's high water spell its events in order, once each, whatever is appended in between; all but the last are full |
| RunRegistry.FullPagesProduct | harness/server/registry.py:670-714 | the events of n full pages are n times the page size, which bounds the number of pages |
| RunBroker.RunEventSubscription.PutNowait | harness/server/registry.py:792-807 | offering to a bounded queue: accepted and appended exactly when it holds fewer items than its capacity, and otherwise unchanged |
| RunBroker.RunEventSubscription.ReceiveNowait | harness/server/registry.py:743-753 | taking the next envelope, or the sticky close with its overflow flag |
| RunBroker.RunEventSubscription.Close | harness/server/registry.py:755-763 | closing drops what was queued and leaves the close marker alone |
| RunBroker.RunEventBroker.Subscribe | harness/server/registry.py:779-782 | a fresh queue joins the subscriber set of its run only |
| RunBroker.RunEventBroker.Unsubscribe | harness/server/registry.py:784-790 | the queue leaves the named run's set and is closed |
| RunBroker.RunEventBroker.Publish | harness/server/registry.py:792-807 | every subscriber of the run is offered the envelope; the full ones are closed as overflowed and leave the set |
| RunBroker.DurableRunEventJournal.AppendEvents | harness/server/registry.py:843-864 | commit first, then publish exactly the created envelopes in order |
| RunBroker.DurableRunEventJournal.Terminalize | harness/server/registry.py:866-899 | commit first, then publish the terminal event iff it was created |
| RunBroker.OfferAllIsDelivery | harness/server/registry.py:792-807 | the objects' offers are the deliveries of the transition system |
| RunBroker.OfferAllIff | harness/server/registry.py:792-807 | a queue takes a batch whole, in order, iff it has room for all of it |
| RunFanout.PublishedIsGrowth | harness/server/registry.py:843-899 | what an operation publishes is exactly what its run's log gained |
| RunFanout.EveryInterleavingConsistent | harness/server/registry.py:720-886 | over every interleaving of commits, subscriptions, reads and proper unsubscriptions, each queue holds the rest of its log or only the close marker |
| RunFanout.ReplayThenLiveIsPrefix | harness/server/registry.py:779-807 | replay up to the subscription point followed by what was consumed is a prefix of the durable log, contiguous from base + 1 |
| RunFanout.StaysRegisteredIff | harness/server/registry.py:792-807 | a registered subscriber stays registered through a commit, with all it has not taken queued in order, iff that is no more than the capacity |
| RunFanout.DroppedIffBehind | harness/server/registry.py:720-807 | over every interleaving, a reader that does not unsubscribe is registered iff its unread events are at most the capacity |
| RunFanout.ClosedForGood | harness/server/registry.py:743-763 | a closed queue tells the reader one thing, again and again: overflow if it was dropped, and else the end |
| RunFanout.UnsubscribeKeepsIff | harness/server/registry.py:784-790 | unsubscribing keeps the system consistent iff the run id is the subscriber's own or it was already dropped |
| RunFanout.ForeignUnsubscribe | harness/server/registry.py:784-790 | a subscriber unsubscribed under another run id is closed and stays registered, which breaks the invariant |
| RunFanout.AttachIsGapless | harness/server/runtime.py:1052-1097 | subscribing, draining a snapshot and forwarding live events past the cursor yields one gapless stretch of the log |
| RunFanout.TerminalTailCompleteIff | harness/server/runtime.py:1078-1085 | from any cursor, the tail of a finished run is complete iff at most 1000 events follow the cursor |
| RunFanout.TerminalTailIsCut | harness/server/runtime.py:1065-1085 | a run starts and gains one event; while its reader is given that event the run gains 1001 more and completes: the reader, at cursor 1, gets 1000 of the 1002 events that follow |
| RunAttach.EndsMarkStatus | harness/server/runtime.py:722-930 | over every sequence of the server's commits an active run's log has no event that ends it, and every other run's exactly one |
| RunAttach.AttachReachesTheEnd | harness/server/runtime.py:1052-1097 | over every interleaving, a reader that finds its run still active has returned with everything from where it asked through the event that ends the run, or is next given an event, or the overflow error, which it gets iff it left more events unread than the capacity, or has everything and waits, which it does only if the run has no end after that place |
| Reply.ReplyIs | harness/orchestration/reply.py:23-42 | what is a reply and which: a valid header line of at most 16000 characters, a newline, and a body of at most 16000 that becomes the message; a longer body is malformed, anything else no reply |
| Reply.HeaderIsStable | harness/orchestration/reply.py:23-42 | as a recognised reply grows, its control fields stay and its body is only extended |
| Reply.RejectedHeaderStaysRejected | harness/orchestration/reply.py:33-42 | a complete invalid header never becomes a reply by growing |
| ReplyStream.PublicReplyStream.PrepareBatch | app/agent/streaming.py:42-50 | preparing a batch resets the response and whether anything was published |
| ReplyStream.PublicReplyStream.BeforeModelCall | app/agent/streaming.py:56-61 | a model call resets the response, or is refused once a delta is out |
| ReplyStream.PublicReplyStream.AfterModelCall | app/agent/streaming.py:86-130 | one model response: the published delta or the exception, and the whole new state, as the specification function that ReplyStream.PublishedIsLetThrough and ReplyStream.RaisesIff are about |
| ReplyStream.PublicReplyStream.FinishBatch | app/agent/streaming.py:132-138 | the step the workflow goes on with, or the exception when it is not the streamed reply |
| ReplyStream.BatchKeeps | app/agent/streaming.py:42-130 | over any sequence of callbacks the published deltas concatenate to the shown text, and streaming has started iff that is nonempty |
| ReplyStream.NothingPassesTheGuard | app/agent/streaming.py:52-61 | after the first delta no tool call, model call or call-bearing response gets through |
| ReplyStream.PublishedIsLetThrough | app/agent/streaming.py:86-130 | over any callbacks of a prepared batch, something is published only if the gate allowed the first recognised nonblank reply since the last reset, and then it is the public form of the latest recognised message |
| ReplyStream.RefusalIsSilent | app/agent/streaming.py:112-120 | once the gate has refused, the batch publishes nothing |
| ReplyStream.RaisesIff | app/agent/streaming.py:52-130 | a callback raises iff a delta is out and it brings other work, a text that is too long, or one that takes back what was heard or published |
| ReplyStream.PartsSay | app/agent/streaming.py:96-104 | the text of a response is that of its parts that are no thoughts, however it is split |
| ReplyStream.StreamedReplyIsExact | app/agent/streaming.py:86-138 | for any chunking ending in a final text aggregate, the deltas spell the redacted body finish returns, and finish accepts no other step |
| AgUiNormalizer.AdkAgUiNormalizer.PushTextPart | harness/server/adk_mapper.py:147-193 | one text part: what is opened, shown and closed, and the new text state, as the specification function that AgUiMapper.RedactionDecides, AgUiMapper.TextGoesTo and AgUiMapper.TextShownExactly are about |
| AgUiNormalizer.AdkAgUiNormalizer.PushToolCall | harness/server/adk_mapper.py:195-245 | one call part: replay, re-announcement, conflict or a fresh START/ARGS/END block, and the correlation maps after it |
| AgUiNormalizer.AdkAgUiNormalizer.PushToolResult | harness/server/adk_mapper.py:247-311 | one result part: which call it answers, replay, repetition or conflict, and the maps after it |
| AgUiNormalizer.AdkAgUiNormalizer.PushEvent | harness/server/adk_mapper.py:313-409 | a whole event: errors, projection, parts in order and trailers, also when a part raises half-way |
| AgUiNormalizer.AdkAgUiNormalizer.Finish | harness/server/adk_mapper.py:411-414 | finishing ends the open message, if any |
| ReplyPipeline.BatchOrdered | app/agent/streaming.py:52-61 | whatever events the callbacks of a batch give rise to, tool parts come before the first delta only, and the projected deltas spell what was published |
| AgUiMapper.RedactionDecides | harness/server/adk_mapper.py:100-193 | for any redactor, two events that differ in texts with equal redactions only show the same and leave the same state |
| AgUiMapper.TextShownExactly | harness/server/adk_mapper.py:100-193 | without an open message, one text part shows exactly its redacted text, cut with an ellipsis after 32000 characters, in a message of its own |
| AgUiMapper.TextGoesTo | harness/server/adk_mapper.py:147-193 | a text joins the open message of its author, or ends another's and starts its own; a partial one leaves it open and remembers its last 32000 characters, any other ends it |
| AgUiMapper.TextPartIs | harness/server/adk_mapper.py:338-358 | a text part is shown under the event's author, or as the reply when messages are explicit and the event is one; thoughts never are |
| AgUiMapper.BareEventIs | harness/server/adk_mapper.py:313-342 | an event without parts: an error ends the open message and is shown, a projected delta goes to the reply, and state and output follow |
| AgUiMapper.AggregateShownIff | harness/server/adk_mapper.py:147-193 | after partial texts of any length, of their aggregate the reader sees what follows the last 32000 characters of them if it begins with those, and else all of it |
| AgUiMapper.StreamBracketed | harness/server/adk_mapper.py:135-414 | any accepted stream is well bracketed: tool START/ARGS/END come as one block outside text messages, and finish closes the last message |
| AgUiMapper.RejectedPushInStepIff | harness/server/adk_mapper.py:313-409 | after a push that raises, the client and the normalizer agree on the open message iff none was open before |
| AgUiMapper.StreamClosesIff | harness/server/adk_mapper.py:135-414 | any stream, rejected pushes included, is well bracketed and closed after finish iff no rejected push met an open message |
| AgUiMapper.RejectedPushLosesEnd | harness/server/adk_mapper.py:195-245 | a concrete stream that is left unclosed even after finish |
| AgUiTools.CallTalks | harness/server/adk_mapper.py:195-245 | per provider id: a call not seen before is announced again in silence or contradicted while one is awaited, and else shown as one block; a repeated part is silent or raises on other content; other ids are untouched |
| AgUiTools.ResultTalks | harness/server/adk_mapper.py:247-311 | per provider id: a result not seen before answers the awaited call, repeats or contradicts the last answer, or stands for itself; a repeated part is silent or raises on other content; other ids are untouched |
| AgUiTools.ResultStep | harness/server/adk_mapper.py:247-311 | a shown RESULT carries the pending call's id, or one of its own, and never one that was answered before |
| AgUiTools.PushRemembers | harness/server/adk_mapper.py:195-311 | whether or not a push succeeds no correlation is lost, and an accepted event is wholly remembered |
| AgUiTools.ReplayIsSilent | harness/server/adk_mapper.py:195-311 | pushing an accepted event again at any later point is accepted and emits no tool event |
| AgUiTools.StreamCorrelated | harness/server/adk_mapper.py:195-311 | over any stream, rejected pushes included, each call id starts at most once and is answered at most once, and the calls answered without a START are exactly the answered ones that a rejected push recorded |
| AgUiTools.TrackedMeans | harness/server/adk_mapper.py:195-311 | the same, read off the public events by position: unique STARTs, unique RESULTs, and which RESULTs no START precedes |
| AgUiTools.StartsComeFirstIff | harness/server/adk_mapper.py:195-311 | every RESULT of a call follows its START iff no call that a rejected push recorded is answered |
| AgUiTools.ResultWithoutStart | harness/server/adk_mapper.py:195-311 | a concrete stream with a rejected push that shows a RESULT and never its START |
| ReplyPipeline.DeltasShow | harness/server/adk_mapper.py:147-193 | from any state without an open message, a batch whose tool parts come first opens one message holding exactly the concatenation of its deltas, or none |
| ReplyPipeline.MessageCloses | app/agent/presentation.py:48-53 | the closing message adds what was not streamed, all or nothing, and ends the message |
| ReplyPipeline.ReplyShownExactlyOnce | app/agent/streaming.py:86-138 | for any chunking and any tools used before the reply, from any mapper state without an open message, the public stream shows one START, contents spelling the returned body once, one END |
| ReplyPipeline.PushesContinueStream | harness/server/adk_mapper.py:313-409 | these pushes are the continuation of the normalizer's stream over its whole history |
| ProviderService.LoginAttempt.Cancel | harness/ai/controls.py:53-57 | cancelling sets the flag and turns only a starting or waiting status into cancelled |
| ProviderService.LocalProviderControls.Login | harness/ai/controls.py:133-144 | join the live attempt, refuse while it stops, or start one and evict beyond 32 |
| ProviderService.LocalProviderControls.Logout | harness/ai/controls.py:151-157 | undisturbed, a logout that runs cancels every attempt, removes the credential and records whether there was one |
| ProviderService.LocalProviderControls.Request | harness/ai/controls.py:115-130 | login, cancel and logout: receipts answer repeats, refuse reuse, and are recorded up to 128 |
| ProviderService.LocalProviderControls.ShownLogin | harness/ai/controls.py:100-110 | status shows the attempt asked for, refuses an evicted one, and otherwise shows the first that is starting or waiting |
| ProviderControls.EveryInterleavingKeeps | harness/ai/controls.py:93-200 | the protocol invariant holds after every interleaving of requests, coroutines, threads, cancellations and shutdown |
| ProviderControls.OneLiveLogin | harness/ai/controls.py:133-144 | in every reachable state at most one login task is live, each attempt saved at most once, and an authenticated one saved |
| ProviderControls.LoginAnswers | harness/ai/controls.py:133-144 | a first login joins the live attempt, is refused while that stops, or starts one in the next place, keeping the latest 32 attempts and 128 receipts |
| ProviderControls.CancelAnswers | harness/ai/controls.py:145-150 | a first cancellation stops an attempt still in the table, and shows it cancelled unless it had ended; any other is refused |
| ProviderControls.DoneShowsOutcome | harness/ai/controls.py:159-191 | in every reachable state a login that is done and was not cancelled saved, failed or never began, and one shown as authenticated saved |
| ProviderControls.SavedMeansSucceeded | harness/ai/controls.py:159-178 | over every run, only a login whose client was made, whose device was authorised and whose authorisation completed touches the credential, and one shown as authenticated wrote it without an error |
| ProviderControls.RaisingShows | harness/ai/controls.py:179-186 | a login that raises is shown failed unless it was cancelled, and never touches the credential again |
| ProviderControls.LoggedOutMeans | harness/ai/controls.py:151-157 | an undisturbed logout stops every attempt of the table, leaves no credential, and answers whether there was one |
| ProviderControls.RemovalAnswers | harness/ai/controls.py:151-157 | the removal of a logout in the protocol: it deletes and says whether there was a credential, or raises and leaves it |
| ProviderControls.StraysAreConserved | harness/ai/controls.py:151-157 | over every run, each removal of an abandoned logout is carried out at most once, and leaves no credential |
| ProviderControls.StatusesAbsorb | harness/ai/controls.py:53-191 | over every run, authenticated, cancelled and failed are absorbing and an attempt that cannot save never does |
| ProviderControls.OwnProgress | harness/ai/controls.py:159-191 | a step of an attempt never moves its status back, out of authenticated, cancelled or failed, or from unable to able to save |
| ProviderControls.CancelIsFinal | harness/ai/controls.py:145-150 | once cancel_login has answered, the attempt had saved or never saves, and its status stays |
| ProviderControls.LogoutIsFinal | harness/ai/controls.py:151-157 | after a logout that ran returns, no earlier attempt ever leaves a credential behind |
| ProviderControls.UndisturbedLogout | harness/ai/controls.py:151-157 | the logout of the object is a run of the protocol: request, sweep, removal, reply |
| ProviderControls.LogoutRunsIff | harness/ai/controls.py:119-123 | a logout runs iff its request id has no receipt; one answered from a receipt changes nothing, and some continuation has an earlier attempt's credential on disk iff one is there already or an attempt may still save |
| ProviderControls.ReplayedLogoutLeavesCredential | harness/ai/controls.py:116-131 | from every quiet state that keeps a logout receipt, a new login and the same logout end with the credential on disk |
| ProviderControls.LogoutLeavesReceipt | harness/ai/controls.py:151-157 | a single logout reaches such a quiet state |
| ProviderControls.RetryIsSilent | harness/ai/controls.py:116-131 | a repeated request gets the recorded reply and does nothing; other content under its id is refused |
| ProviderControls.CloseIsFinal | harness/ai/controls.py:193-200 | after shutdown has swept, nothing is started or saved any more |
| Ledger.AppendAnswers | harness/ledger/jsonl.py:42-101 | on fields: an append raises iff a line does not parse or a stored event contradicts the request, and then stores nothing; it answers with the event under the request's key, or stores the next of its task with the request's content, stamp and given or default key |
| Ledger.ReadAnswers | harness/ledger/jsonl.py:103-122 | a read gives, in the order of their sequences, the rows of the task after the cursor of the kinds asked for, and leaves one out only when as many as the limit come before it |
| Ledger.AppendAgreesIff | harness/ledger/store.py:84-169 | both backends give the same answer and rows to an append iff the file parses and it is not a new event with a colliding id, or the file does not parse and the table refuses too |
| Ledger.NoCollision | harness/ledger/store.py:102 | ids of tasks named without NUL never collide |
| Ledger.CollisionWitness | harness/ledger/jsonl.py:82 | two requests the file accepts and the table refuses |
| Ledger.ReadAgrees | harness/ledger/store.py:171-197 | the ordered, limited query has exactly one answer, and it is the file's iff the file parses |
| Ledger.AppendIsIdempotent | harness/ledger/jsonl.py:58-81 | repeating an accepted append changes nothing, and returns the stored event iff the file still parses |
| Ledger.EraseIsLocal | harness/ledger/jsonl.py:132-151 | erasing works iff the file parses; it then empties the task's reads and leaves every other task's unchanged, and otherwise changes nothing |
| Ledger.AppendKeeps | harness/ledger/jsonl.py:42-101 | per task sequences stay 1..n, and (task, key) and (source, source id) stay unique |
| Ledger.LinesAreEventsIff | harness/ledger/jsonl.py:36-40 | splitting the file's text gives the lines that were written iff no stored text holds a line separator |
| Ledger.SeparatorsAre | harness/ledger/jsonl.py:33-40 | the line ends of Python by code point, and which of them JSON leaves unescaped |
| Ledger.AppendParsesIff | harness/ledger/jsonl.py:98-100 | an append leaves a file that parses iff it found one and stored no separator |
| Ledger.BackendsAgree | harness/ledger/store.py:84-233 | every sequence of appends, reads and erases, of tasks named without NUL and without a line separator in a text, is answered alike by both backends |
| Ledger.NextAgreesIff | harness/ledger/jsonl.py:33-40 | the backends answer the next operation on a task named without NUL alike, whatever it is, iff no stored text holds a line separator |
| Ledger.BackendsAgreeIff | harness/ledger/store.py:84-233 | a sequence of operations on tasks named without NUL is answered alike iff each finds a file that parses or is an append the table refuses too |
| Ledger.SeparatorBreaksTheFile | harness/ledger/jsonl.py:33-40 | one accepted append of a text with a separator, after which every read, append and erase raises on the file and the table answers the reads |
| LedgerStores.JsonlLedgerStore.Append | harness/ledger/jsonl.py:42-101 | parsing the file, the scan over its events and the append after it compute the specification, the exception of a line that does not parse among them |
| LedgerStores.JsonlLedgerStore.All | harness/ledger/jsonl.py:33-40 | every event of the file, or the exception of the first line that does not parse |
| LedgerStores.JsonlLedgerStore.Read | harness/ledger/jsonl.py:103-122 | the selected events in file order up to the limit, or the exception of a line that does not parse |
| LedgerStores.JsonlLedgerStore.EraseTask | harness/ledger/jsonl.py:132-151 | what is kept and how many rows went, or the exception of a line that does not parse |
| LedgerStores.DuckDbLedgerStore.Append | harness/ledger/store.py:84-169 | the transaction with its queries, constraints and rollback is one the table relation allows |
| LedgerStores.DuckDbLedgerStore.EraseTask | harness/ledger/store.py:217-233 | the rows deleted and their count |
| LedgerStores.JsonlEventStore.Append | harness/state/event_store.py:57-87 | the keyed append to one task's stream: the stored event, a conflict, the next sequence, or the exception of a line that does not parse |
| LedgerStores.JsonlEventStore.Read | harness/state/event_store.py:42-55 | the events after the cursor, in order, or the exception of a line that does not parse |
| LedgerStores.LedgerBackedEventStore.Read | harness/ledger/shadow.py:21-43 | read-repair, stopping at an import that raises, then the decoded ledger, with the exceptions of both files |
| LedgerStores.LedgerBackedEventStore.Append | harness/ledger/shadow.py:45-57 | operational write, then ledger write, with the exceptions of both files |
| ShadowStore.StreamAppendAnswers | harness/state/event_store.py:57-90 | an append to a task's stream answers with the event stored under its key if that says the same, conflicts if not, and else adds the next event; it raises on a stream that does not parse |
| ShadowStore.AfterIs | harness/state/event_store.py:42-55 | reading from a cursor skips exactly the events up to it |
| ShadowStore.ReadIsStreamIff | harness/ledger/shadow.py:21-43 | a read returns iff the task's own file and the ledger file parse, and it then is the operational stream field for field iff the ledger held a prefix of it in order |
| ShadowStore.ReadAfterIsStreamAfter | harness/ledger/shadow.py:31-43 | with a cursor both stores skip the same events, or both raise on the task's own file; on a ledger file that does not parse this store raises alone |
| ShadowStore.RepairAppendsMissing | harness/ledger/shadow.py:21-26 | read-repair appends exactly the events the ledger lacks, in stream order |
| ShadowStore.AppendKeepsOrderIff | harness/ledger/shadow.py:45-57 | a completed append keeps the order iff the ledger had caught up with everything before it; a crash between the writes always does |
| ShadowStore.CrashThenAppend | harness/ledger/shadow.py:45-57 | from empty stores, a crashed append and then another in full leave the ledger out of order |
| ShadowStore.OutOfOrderForGood | harness/ledger/shadow.py:21-57 | once a task is out of order, after any further appends, crashes, reads and foreign rows no read of it is the operational stream |
| ShadowStore.ReadCatchesUp | harness/ledger/shadow.py:21-26 | after a read that does not raise the ledger holds the task's whole stream, so any append to that task keeps the order |
| ShadowStore.AppendStaysCaughtUp | harness/ledger/shadow.py:45-57 | without crashes a task that has caught up stays caught up iff the ledger file parses or the append brings nothing new |
| ShadowStore.ForeignAppendInvisible | harness/ledger/shadow.py:26 | rows of other sources never show in the harness stream, and leave a ledger file that parses iff they store no separator |
| ShadowStore.OtherKeysAreForeign | harness/ledger/importers.py:44-237 | no other importer's key starts with the harness prefix |
| ShadowStore.ImportWorks | harness/ledger/importers.py:27-41 | importing an operational event raises iff the ledger file does not parse; otherwise it is there already or becomes the next row, and the file still parses iff it holds no separator |
| ShadowStore.EveryReadIsTheStream | harness/ledger/shadow.py:21-57 | after any disciplined history of appends, crashes, reads and foreign rows without a line separator in a text every read is the operational stream |
| ShadowStore.ReadsAreTheStreamIff | harness/ledger/shadow.py:21-57 | after any disciplined history a read is the operational stream iff the task's own file and the ledger file parse, and answers as the operational store does iff the ledger file parses or the task's own does not |
| ShadowStore.SeparatorLosesEveryTask | harness/ledger/shadow.py:21-57 | one accepted append with a separator, after which the task's stream raises in both stores and every other task's in this one only |
| TaskState.OverlayDiff | app/agent/workflow.py:161-166 | overlaying the patch of a change gives the change |
| TaskState.AppendGood | harness/state/events.py:102-161 | an entry under a new key whose effect moves forward keeps the log replayable and its keys truthful |
| TaskState.GoodPrefix | harness/state/events.py:139-161 | every prefix of a task's log, so every crash point, replays |
| TaskState.StepFacts | harness/orchestration/core.py:55-95 | reducing and observing a step raises an exception iff it meets an empty decision; otherwise it raises the iteration by one and touches neither contract nor review mark |
| TaskState.NotesAccumulate | harness/orchestration/core.py:62-95 | reducing a step fails validation iff it meets an empty decision; otherwise it loses no progress, decision, constraint, question or blocker and adds exactly the step's own |
| TaskState.ObservedCounts | harness/state/progress.py:52-70 | a batch that did nothing new counts as one more without progress and any other resets the count; the latest actions are remembered up to the limit |
| TaskState.Unique | harness/orchestration/core.py:62-79 | merged lists hold every item once |
| Workflow.WorkflowRun.Reserve | app/agent/workflow.py:206-218 | a reservation is made iff it fits the limit |
| Workflow.WorkflowRun.Hear | app/agent/workflow.py:974-1037 | a raw step is settled as the specification function says, whose answers are Workflow.AnswersIff and Workflow.RefusedAnswer |
| Workflow.AnswersIff | app/agent/workflow.py:1006-1037 | an answer stands iff it says something and claims nothing, the request is automatic and owes nothing, the turn ran no effect and left the workspace alone, and no steering waits |
| Workflow.RefusedAnswer | app/agent/workflow.py:1014-1025 | any other answer works on as a request for verification, and raises when it was streamed |
| Workflow.WorkflowRun.GiveAnswer | app/agent/workflow.py:629-652 | an answer raises the iteration, is recorded under a fresh key, and the log keeps tracking the ledger |
| Workflow.WorkflowRun.Advance | app/agent/workflow.py:1072-1091 | one patch takes the ledger to the reduced and observed step; an empty decision raises and records nothing |
| Workflow.WorkflowRun.SafePoint | app/agent/workflow.py:1095-1135 | waiting steering resumes work; otherwise unreviewed effects get the review |
| Workflow.WorkflowRun.VerificationTransition | app/agent/workflow.py:713-834 | failed verification, fence or completion, the ledger after each, and what the log holds |
| Workflow.WorkflowRun.PassReserved | app/agent/workflow.py:976-1220 | the exit and the ledger of one pass for every settled step; it completes iff it is past every gate and the report may be recorded, and gives an answer iff the worker only talked |
| Workflow.PassDecides | app/agent/workflow.py:974-1220 | in the terms of the worker's turn: which exit a pass takes and what phase, status, next action, contract, counts and notes it leaves, for answers, refused and interrupted answers, requests for verification at each gate, blockers, stagnation and empty decisions |
| Workflow.FinishedIff | app/agent/workflow.py:1006-1220 | a paid pass gets past its gates iff the worker asked for verification or gave an answer that owes one, no decision is empty, no steering waits at either point, effects have been reviewed, and verification passed |
| Workflow.EmptyDecisionRaises | app/agent/workflow.py:1048-1072 | a first step with an empty decision raises once the coding contract is recorded |
| Workflow.WorkflowRun.Pass | app/agent/workflow.py:870-1220 | the same for a pass that has to be paid for: completion iff past every gate and within budget, an answer iff the worker only talked and within budget, and else what Workflow.PassDecides says; the log tracks the ledger up to its next action, and exactly if it did before |
| Workflow.WorkflowRun.Orchestrate | app/agent/workflow.py:865-1239 | from any ledger its log tracks, the passes end within their iterations and budget, leave the log the exit promises, complete only past every gate, and cannot exhaust a second limit |
| Workflow.WorkflowRun.Run | app/agent/workflow.py:837-1239 | every run over every replayable log ends: initialisation raises, or the passes conclude and the log replays again; a run that ends with an answer saw neither effect nor workspace change in its last pass, and one that completes was past its gates; the log is exact throughout unless a reconciliation was dropped |
| Workflow.WorkflowRun.Initialize | app/agent/workflow.py:465-561 | exactly when reopening succeeds, what the log then holds, that nothing is noted at the workspace of the checkpoint and a moved one under both keys, and exactly when the live ledger is the replayed one |
| Workflow.ReopensIff | app/agent/workflow.py:529-561 | a run can be reopened at a moved workspace iff both reconciliation keys are new or hold what is to be noted now |
| Workflow.ReviewOnce | app/agent/workflow.py:1109-1134 | over all runs the review is inserted at most once and remembered from then on |
| Workflow.LimitTwice | app/agent/workflow.py:1217-1222 | a limit on record cannot be recorded again under another limit |
| Workflow.SecondLimit | app/agent/workflow.py:1217-1222 | a task whose one iteration ends in a failed verification and which, reopened with two, fails again: recording the second limit is refused |
| Workflow.SecondCompletion | app/agent/workflow.py:786-791 | a task that completed and works on to a second completion: it is refused under another report, and under the same leaves a log that still says verifying |
| Workflow.DroppedReconciliation | app/agent/workflow.py:534-561 | after initialisation over a moved workspace and any step that names its next action, reopening at the same fingerprint succeeds and silently drops the reconciliation patch |
| Workflow.ReconciledRunCannotStart | app/agent/workflow.py:534-561 | after initialisation over a moved workspace and no step, reopening at the same fingerprint is refused |
| Notebook.ReduceNotebook | harness/notebook/reducer.py:77-159 | the loop computes the fold, and raises where the fold does |
| Notebook.OrderDoesNotMatter | harness/notebook/reducer.py:80 | the notebook does not depend on the order its events are given in |
| Notebook.NotebookIsOrdered | harness/notebook/reducer.py:84-159 | cells are duplicate-free, start at strictly later events, and end between their start and the watermark |
| Notebook.CellsShowTheirEnd | harness/notebook/reducer.py:126-153 | every code cell shows status, effect and outputs of its last terminal event since it was added, and is started until then |
| Notebook.CellsAreTheirHistory | harness/notebook/reducer.py:98-153 | every code cell is, in every field, what its own events make of it in order, and there is no other |
| Notebook.NarrativesAreShown | harness/notebook/reducer.py:84-92 | every request, message, steering and compaction with a text has its Markdown cell with that text, place and time, and no other event has one |
| Notebook.WatermarkIsLast | harness/notebook/reducer.py:93-97 | the watermark is the sequence of the last event that tells something or is about this notebook's cells |
| Notebook.RaisesIff | harness/notebook/reducer.py:98-130 | the reducer raises at an event iff it adds a cell incompletely or again, or carries another attempt than its cell |
| Notebook.RecordingIsInvisible | harness/notebook/reducer.py:93-97 | materialisation, restoration and snapshot events change neither cells nor watermark |
| Notebook.ReduceNeverRaises | harness/notebook/reducer.py:98-130 | a well-emitted stream never makes the reducer raise |
| Notebook.CallsNeverRaise | app/agent/builders.py:535-656 | over every interleaving of any number of python calls with fresh cells, each stopped anywhere, with narrative, snapshots and other records, the reducer never raises |
| Replay.RestoreKernel | app/agent/builders.py:511-534 | the restore loop runs the completed safe cells in order and stops at the first failure |
| Replay.PolicyIff | app/agent/builders.py:45-81 | over the nodes of the walked tree: a cell is never replayed iff a name in it is `agent`, and safe iff no node is of an unsafe class, loads a name or is that name |
| Replay.ReplayedIff | app/agent/builders.py:514-518 | what is replayed: exactly the completed cells of such harmless code |
| Replay.ExecFrame | app/agent/builders.py:45-81 | safe code that succeeds alone, or augments nothing, does the same over any kernel |
| Replay.ExecCallsNothing | app/agent/builders.py:45-81 | safe code never attempts a call |
| Replay.ReplayableIff | app/agent/builders.py:45-81 | a safe cell may be replayed into any kernel iff it runs alone in an empty one |
| Replay.RestorableIff | app/agent/builders.py:45-81 | a safe cell that completed anywhere runs alone iff no session that replays only it is stopped by it |
| Replay.NoAugmentSelfContained | app/agent/builders.py:45-81 | a safe cell without augmented assignment that completed anywhere runs alone |
| Replay.RestorationPreservesMeaning | app/agent/builders.py:511-593 | after any session whose replayed cells run alone or read only what replayed cells wrote last, restoration succeeds, calls nothing, and gives every name not last written by another kind of cell its live value |
| Replay.UnsourcedStops | app/agent/builders.py:45-81 | whenever a replayed cell of a session neither runs alone nor reads only what replayed cells wrote last, some session that replays only its code is stopped |
| Replay.AugmentedIsRestoredWrongly | app/agent/builders.py:45-81 | three cells after which a restored name holds 2 instead of 11 |
| Replay.AugmentedBlocksRestoration | app/agent/builders.py:511-534 | two cells after which restoration stops |
| GrepPages.Group | harness/repo/fff_search.py:384-391 | one queue per file, in snapshot order |
| GrepPages.PathsAre | harness/repo/fff_search.py:384-391 | the files are listed once each, in the order of their first matches |
| GrepPages.TakePage | harness/repo/fff_search.py:393-407 | one pass fills the page with the next matches of each file in turn, within both quotas, and a short page means every file is exhausted |
| GrepPages.GrepPages | harness/repo/fff_search.py:383-411 | each page is, of each file in the order of their first matches, the next five matches that earlier pages do not hold, as far as the page has room; the pages partition the matches, keep each file's order, and number at most ceil(n / min(5, page size)) |
| GrepPages.FollowVisitsEachOnce | harness/repo/fff_search.py:413-457 | following the cursors visits each page once, in order |
| GrepPages.RenderIff | harness/repo/fff_search.py:413-457 | a page is rendered iff there is one, with the cursor of the next page iff that exists |
| Approvals.ApprovalStore.Request | harness/approvals/store.py:78-129 | insert or return the task's row for the fingerprint, refusing other content |
| Approvals.ApprovalStore.Get | harness/approvals/store.py:175-182 | the row under the id, which is neither pending nor approved at or after its deadline, and otherwise as it was stored |
| Approvals.ApprovalStore.Expire | harness/approvals/store.py:184-195 | a pending row of the task is closed, then the row is read back, which expires what is due |
| Approvals.ApprovalStore.SubmitDecision | harness/approvals/store.py:257-301 | expiry first, then one conditional update, with every refusal |
| Approvals.ApprovalStore.IsApproved | harness/approvals/store.py:303-305 | a command is approved iff the task has a row for it that is approved and whose deadline has not come |
| Approvals.AskAnswers | harness/approvals/store.py:78-129 | a request answers with the task's row for the command if it asks for the same in every respect, is refused if not, and adds a pending row if there is none |
| Approvals.RetriedAsk | harness/approvals/store.py:78-129 | a request repeated at any later time answers with the same row, however far it has come |
| Approvals.LapseClosesIff | harness/approvals/store.py:131-173 | expiry closes exactly the pending and approved rows whose deadline has come, and keeps who decided them |
| Approvals.ExpireWaitClosesIff | harness/approvals/store.py:184-195 | an abandoned wait closes exactly the pending row of its id and task |
| Approvals.DecisionAnswers | harness/approvals/store.py:257-301 | a decision takes iff its row is pending or says the same and its deadline has not come; it then stands in the row under who made it first |
| Approvals.EveryHistoryKeeps | harness/approvals/store.py:78-301 | over every history statuses only move pending to decided or approved to expired, and who decided when never changes |
| Approvals.DecisionTakesIff | harness/approvals/store.py:268-290 | a decision takes iff the row is pending or already says the same |
| ApprovalWaits.BeginAnswers | harness/approvals/waiting.py:45-56 | a wait that begins is given its task's row if that is decided, refused without such a row or when that is waited for or 32 others are, and else registered |
| ApprovalWaits.PollAnswers | harness/approvals/waiting.py:58-68 | a poll ends the wait iff its row is decided, with that row |
| ApprovalWaits.EveryRaceKeeps | harness/approvals/waiting.py:34-78 | the invariant of all registered waits over every race with the store, timeouts and cancellation |
| ApprovalWaits.WaitsAreSound | harness/approvals/waiting.py:45-78 | a registered wait fails only when it was cancelled, reads expired after its timeout, and else returns the decision the store still holds but for an approval that lapsed since; once it is done its row is not pending; a wait cancelled during its final shielded expiry has ended for its caller but is not done, and its row may be pending until that expiry |
| SignTest.McNemarIsExact | harness/evals/experiments.py:545-550 | the p-value is the share of equally likely splits at least as uneven as the observed one |
| SignTest.McNemarShape | harness/evals/experiments.py:545-550 | symmetric, in (0, 1], and above one before the cap iff wins equal losses |
| SignTest.WinsCount | harness/evals/experiments.py:549 | binomial coefficients count the splits with k wins |
| SignTest.TwoTails | harness/evals/experiments.py:549-550 | twice the tail overcounts exactly the splits in both tails |
| PairedTrials.Collect | harness/evals/experiments.py:556-561 | the dictionary holds the last scored record of every attempt |
| PairedTrials.RewardIs | harness/evals/experiments.py:556-561 | the reward of an attempt is that of the last record that scores it |
| PairedTrials.PairsAreCommon | harness/evals/experiments.py:563-580 | the pairs are those of exactly the attempts both candidates have scored, each once, in order |
| PairedTrials.ComparesIff | harness/evals/experiments.py:696-707 | a task is won by the candidate whose rewards over the common attempts add up to more, and tied if neither do |
| PairedTrials.PairTasks | harness/evals/experiments.py:553-581 | exactly the tasks with a common scored attempt, with their pairs in attempt order |
| PairedTrials.PairedIff | harness/evals/experiments.py:563-580 | a task is paired iff some attempt is scored for both candidates |
| PairedTrials.CompareCandidates | harness/evals/experiments.py:695-727 | wins, losses and ties count the paired tasks by comparison of means, and feed the sign test |
| PairedTrials.SwapSwapsTally | harness/evals/experiments.py:696-707 | swapping the candidates swaps wins and losses and keeps ties and p-value |
| PairedTrials.TallyIsTotal | harness/evals/experiments.py:696-707 | wins, losses and ties add up to the paired tasks |

## Left out

- Hashes are replaced by their preimages (event ids, call ids, message ids, run ids): a digest is taken to be injective.
- Line parsing: a piece of an event's line that was split inside a JSON string is taken not to be an event; payloads are JSON values.
- Clocks and fresh uuids are arguments. Timestamps are numbers; `as_of` reads are not modelled, because the two ledger backends order timestamps differently.
- Columns no decision depends on (created, updated and payload-hash columns) and the order of equal creation times are not modelled.
- SQL text and the DuckDB engine are replaced by what their queries may return; file writes, fsync, chmod and temporary files are single atomic steps.
- Header parsing, redaction, the safe prefix of an unfinished message and the blank test of a reply are arbitrary functions; a JSON value is its public rendering.
- ReplyPipeline.ReplyShownExactlyOnce: for bodies of at most 32000 characters and an identity redactor downstream, because the normalizer truncates longer text; events that report a model error are not among those of a batch that ends in a reply.
- ShadowStore.ReadIsStreamIff: for at most 100000 ledger rows of the task, which is the limit of the read it models.
- ShadowStore.EveryReadIsTheStream: event ids are fresh and never used as keys, as uuids are; the exact condition on one append is in ShadowStore.AppendKeepsOrderIff.
- GrepPages.RenderIff: the text of a page, the check that its files have not changed since, and the encoding of cursors are not modelled.
- Notebook.CallsNeverRaise: deletions of cells are not among the steps, because nothing in the repository emits them.
- Replay.RestorationPreservesMeaning: over immutable values (numbers, strings, tuples) and without while loops, comprehensions and pattern matching; `for` loops have no break, continue or else clause; a chained comparison evaluates all its operands; a list display later changed through a method call is outside it.
- Workflow.WorkflowRun.Run: events that never reach the ledger (messages, steering receipts, verification reports, checkpoints, metrics) are not in the model's log, nor are the exceptions their own key conflicts raise; its event store is one that returns what was appended, so the texts hold no line separator (with one, every later read and append of the task raises, ShadowStore.SeparatorLosesEveryTask); the coding worker, verification and steering queue are arbitrary inputs of each pass.
- Workflow.WorkflowRun.Hear: the workflow's fixed sentences are named symbols, so a model that spells one of them itself is not told apart; white space is space, tab and line breaks.
- TaskState.Unique: decisions are kept as their summaries.
- ProviderControls.EveryInterleavingKeeps: releasing a lock does not raise; credential refresh by model calls is not part of the protocol.
- ProviderService.LocalProviderControls.Request: the object's logout runs while no save holds its locks; what interleaves with it, and the coroutines and threads that change an attempt or the credential between requests, are in the step relation only.
- RunBroker.DurableRunEventJournal.AppendEvents: subscriber queues only; callbacks that raise are not modelled.
- LedgerStores.DuckDbLedgerStore.Append: the table is a set of rows under the declared constraints; connections and locks are the atomicity of one method.
- HTTP, WebSocket and SSE transport, OAuth endpoints, Docker, Git, subprocesses, the FFF index, ADK and Pydantic internals: input and output, or foreign code.
- Work packets, token truncation, command risk classes, configuration, manifests, skills, bootstrap intervals and trial metrics: tables and one-branch checks.
