# Verified models of the CCXML/SCXML runtime

Dafny models of the parts of this repository where correctness is hardest to see, with proofs about every input,
every run and every reachable state. `dafny verify dfyconfig.toml` checks all of it.

**CCXML executable content.** `CcxmlTree` is the admission pass over transition headers, if/elseif/else/foreach
and leaf actions. `CcxmlCompile` and `CcxmlProgram` are the flattening into jump-coded rows with back-patched
links. `CcxmlMachine` holds a structural interpreter of the tree beside the row machine; `CcxmlSimulation`
proves that the compiled rows do what the tree says. `CcxmlSession` is the session as an object with its frame
stack, ticket array and three scope views. `CcxmlLedger`, `CcxmlTransaction` and `CcxmlScopes` prove the
transactional properties. `CcxmlEffects` reads off the tree alone which provider effects a transition asks for and
with which bindings it ends, and `CcxmlCauses` why it fails; runs and dispatches are proved to do just that.
`CcxmlMatcher` is the event pattern matcher and `CcxmlSelection` the choice of a transition by its guards;
`CcxmlDocument` joins compiler, selection and session. Everything outside (evaluation, data model, adapters,
allocator) is a `World` of arbitrary functions of the action, the visible scope and the history of calls.

**BasicHTTP egress.** `EgressModel` is the protocol between session threads, the worker and client callbacks:
one step per region under the processor lock. `EgressInvariant` and `EgressSteps` prove the invariant of every
interleaving, `EgressLife` what steps leave alone, `EgressOrder` commit order, `EgressRuns` the consequences
over all runs, `EgressCancel` the life of a row and of a cancel ticket, `EgressHistory` what a row holds in terms
of the steps that were taken, `EgressFlags` when it is flagged to stop, `EgressTurn` whose turn it is to be
submitted, `EgressTally` which step moves which total, `EgressDrain`, `EgressWork`, `EgressProgress` and
`EgressClosing` when a closed binding drains, `EgressResubmit` and `EgressHandover` when a
cancelled send still reaches the client, `EgressFaults` what the fault counter counts, `EgressEndpoints` the
endpoint table. `EgressProcessor` is the same protocol as code over arrays, each method being exactly one step.
`StopHandshake` is the start/stop handshake with the worker, `StopAnswers` what stop returns in terms of the
answers it met, `StopWaiting` the sleeping and waking around it.

**Form bodies.** `FormText` and `FormCodec` define the text and the decoder of form bodies (Appendix C.2 of
SCXML 1.0, unreserved set of section 2.3 of RFC 3986); `FormSpelling` and `FormGrammar` say what a text and a body
mean without reference to how they are scanned; `FormWriter` and `FormReader` are the in-place encoder and decoder.

**Supporting structures.** `DomainFence` and `FenceCalls` (generation fence with re-entrant callbacks, and what its
calls mean for a generation's life), `StateTree`, `StateEmission` and `StateListing` (count-then-emit state table, and
what each row of it stands for), `EventNames` (event id table), `ScopeLayout`, `ScopeStore` and
`ScopeTrace` (typed scope layout, object ownership, and ownership and contents over any operations). `Basics`
holds what they share.

## Findings

- Closing a binding does not always drain it. If the client answers ENOBUFS for a row whose binding was
  closed meanwhile, the row becomes READY again and the worker, which selects only rows of ACTIVE
  bindings, never takes it. `EgressDrain.StrandingRun` gives the run, `EgressDrain.StrandedForever` shows
  that it stays so, `EgressProgress.ClearExactly` and `EgressProgress.DrainsExactly` give the exact conditions.
  Without such an answer every run drains what it owes (`EgressClosing.ClosedDrains`).
- A cancelled send can be submitted again. A cancel committed while the row is SUBMITTING only sets its
  flag; if the client then answers ENOBUFS, the row is READY with the flag set and selection does not look
  at the flag. `EgressResubmit.ResubmittingRun` gives the run, `EgressResubmit.FlaggedExactly` says exactly
  when a row waits with its flag set, `EgressHandover.HandedExactly` and
  `EgressHandover.CancelledCanBeHanded` say exactly when a cancelled send can still reach the client.
- The fault counter rises in runs where every part does what it may: when a completion overtakes
  `submit_one` (`EgressFaults.OvertakenRun`) and when a request completes while its cancel is under way
  (`EgressFaults.AbsentRun`). `EgressFaults.FaultsExactly` and `EgressFaults.CounterStaysZero` say exactly
  which steps raise it; the endpoint mismatch counted by destroy cannot happen
  (`EgressEndpoints.Endpoints.Destroy`).

## Model

| member | source | states |
|---|---|---|
| `CcxmlTree.Measurement.ValidateExecutable` | src/ccxml_program.c:1932-1966 | one action is accepted if and only if it is admitted and its rows, bytes and effects fit; the counters then grow by exactly its size |
| `CcxmlTree.Measurement.ValidateIf` | src/ccxml_program.c:1873-1930 | at most one else, nothing after it, every branch admitted: accepted exactly then, counting one row per branch plus the end row and the sum of the branches' effects |
| `CcxmlTree.Measurement.ValidateForeach` | src/ccxml_program.c:1765-1871 | no nested foreach; the body's effects count once per possible iteration, without overflow |
| `CcxmlTree.Measurement.ValidateHeader` | src/ccxml_program.c:2012-2089 | refused for a limit exactly when the header itself is admitted (a pattern without blanks, a state list with a word and only beside a state variable, a condition that decodes to something) but does not fit |
| `CcxmlTree.Measurement.ValidateTransition` | src/ccxml_program.c:1968-2218 | a transition is accepted if and only if its header is admitted, one more transition is allowed, its actions are admitted and rows, retained bytes and effects fit; the counters grow by exactly its own and the per-transition maxima cover it |
| `CcxmlCompile.Emitter.AppendItem` | src/ccxml_program.c:2368-2388 | fails exactly when the buffer is full, else appends one unlinked item |
| `CcxmlCompile.Emitter.AppendForeach` | src/ccxml_program.c:2394-2418 | the items written are the foreach's rows with both links in place |
| `CcxmlCompile.Emitter.AppendIf` | src/ccxml_program.c:2420-2468 | after back-patching, position by position, the items of the conditional: each branch points at the next branch or the end, and at the block's end |
| `CcxmlCompile.Emitter.AppendExecutable` | src/ccxml_program.c:2470-2484 | emits any admitted action into exactly as many items as were counted |
| `CcxmlCompile.LowerShift` | src/ccxml_program.c:2632-2705 | adding the transition's first row to relative links gives the same rows as laying the tree out there directly |
| `CcxmlProgram.Compile` | src/ccxml_program.c:2486-2705 | compiles exactly the admissible documents, headers and `max_transitions` included, fills exactly the measured rows, and lays every transition out at its place within the static maxima |
| `CcxmlSimulation.CompiledRunsLikeTree` | src/ccxml_session.c:1499-1687 | compiler correctness: from a fresh transition the row machine halts and has prepared the same tickets in the same order, with the same exit flag or the same first error, as the structural interpreter of the tree |
| `CcxmlSimulation.EffectsBoundRun` | src/ccxml_program.c:1861-1866 | no run, through any number of foreach iterations, retains more tickets than the static count |
| `CcxmlSimulation.AlwaysSafe` | src/ccxml_session.c:1507-1687 | on any rows, compiled or not, the machine stays inside the transition and inside its frame and ticket arrays |
| `CcxmlSimulation.ControlNeverRefuses` | src/ccxml_session.c:1511-1683 | whatever evaluator, data model, allocator and adapters answer, no step over compiled rows fails a link, frame, loop or journal check; a step faults if and only if the outside refused what its row asked |
| `CcxmlSimulation.FaultsAreOutside` | src/ccxml_session.c:1511-1683 | on any rows, a step whose own checks pass faults if and only if the outside refuses |
| `CcxmlSimulation.UncheckedFaults` | src/ccxml_session.c:1511-1683 | a control row that fails one of these checks returns LIMIT_EXCEEDED if it is an if with good links on a full frame stack, INVALID_CONTRACT otherwise |
| `CcxmlTransaction.ObligingFinishes` | src/ccxml_session.c:1499-1687 | with an outside that refuses nothing a compiled transition finishes, or stops on the exhausted send counter |
| `CcxmlSession.Session.DiscardTickets` | src/ccxml_session.c:409-416 | retained tickets are discarded last to first |
| `CcxmlSession.Session.RetainTicket` | src/ccxml_session.c:574-596 | an accepted ticket is kept, or discarded at once on a broken contract or a full journal, as the retain rule of the interpreter says |
| `CcxmlSession.Session.RunPair` | src/ccxml_session.c:1855-1882 | an effect and the write of its identifier are both retained, with the write moved in front, or the first refusal wins |
| `CcxmlSession.Session.RunRows` | src/ccxml_session.c:1499-1687 | the dispatch loop over the real arrays follows the row machine step for step until it halts |
| `CcxmlSession.Session.ExecuteTransition` | src/ccxml_session.c:2409-2477 | running a compiled transition in place gives the structural interpreter's result |
| `CcxmlSession.Session.CommitPreparedTickets` | src/ccxml_session.c:2386-2398 | all retained tickets are committed in journal order, then the staged scope becomes the committed one |
| `CcxmlSession.Session.DiscardPreparedTickets` | src/ccxml_session.c:2400-2407 | all retained tickets are discarded in reverse and the staged scope is dropped |
| `CcxmlSession.Session.Dispatch` | src/ccxml_session.c:2409-2477 | one dispatch in place equals the transaction over the tree: execute, then settle the journal as the aggregate decides; if it is kept the committed bindings are those the rows ended with, otherwise they are as before |
| `CcxmlTransaction.AllOrNothing` | src/ccxml_session.c:2386-2477 | a kept dispatch answers OK, ends with the commits of its whole journal in order and makes the bindings the transition ended with the committed ones; one that finished and is not kept ends with the discards of its whole journal, last first; one that failed ends, after at most one failing request, with the discards, last first, of exactly what its history had gathered, and answers the failure. The journal is what the history gathered in its order, each identifier write just before the effect it names, with the token or the provider's generated text, each effect with an identifier just after its write; without a commit the committed bindings are as before |
| `CcxmlEffects.PlainLeaf` | src/ccxml_session.c:1688-1701 | a plain action asks for one effect with its text and no identifier and keeps its ticket; it fails exactly when the text cannot be built or the adapter does not take the request, and with which status |
| `CcxmlEffects.GeneratingLeaf` | src/ccxml_session.c:1838-1882 | an action with an identifier asks for its effect and then for the write of the identifier, keeps both with the write in front and uses up a session token only for its own identifier; it fails exactly when the text, the token, the identifier or either request is not granted, the first of these deciding the status |
| `CcxmlEffects.AllFollows` | src/ccxml_session.c:1499-1687 | every run asks for the effects of the leaves its control meets, in order, each with the text and bindings of that moment; one that does not fail asked for all of them, drew their tokens and ends with the walk's bindings and exit |
| `CcxmlEffects.DispatchPerforms` | src/ccxml_session.c:2386-2477 | a dispatch that answers OK asked for exactly the effects of its transition; if it is kept it commits exactly these, in order, and the bindings they end with; any other dispatch commits none |
| `CcxmlCauses.AllCause` | src/ccxml_session.c:1499-1687 | a run fails only with what the evaluator reported where the walk stops (a condition, opening, initialising or binding a loop, too many elements), with INVALID_CONTRACT after a failed scope copy, or as one of the leaves it meets fails |
| `CcxmlLedger.LastToFirst` | src/ccxml_session.c:409-416 | a history of two accepted effects followed by two discards is undone if and only if the second effect is discarded first and the first effect second |
| `CcxmlTransaction.EveryTicketSettledOnce` | src/ccxml_session.c:2386-2477 | over any sequence of dispatches no ticket is handed out twice; one that can be settled is settled exactly once, one that came without a discard operation never, none that was not handed out; send tokens strictly increase |
| `CcxmlDocument.RunDocument` | src/ccxml_session.c:2499-2545 | end to end, for any document and, event by event, any outside: compilation succeeds exactly on admissible documents, and the session answers, keeps and ends as the selected trees say; an errored statechart turns OK into INVALID_CONTRACT, an unmatched fatal event ends the session, an ended one answers CLOSED |
| `CcxmlDocument.AnswerMeans` | src/ccxml_session.c:2499-2545 | guard by guard: a guard that fails before any opens answers its own error and changes nothing; if none opens nothing changes and an unhandled error or kill ends the session; if one opens its transition runs, its failure wins over the statechart's report, and only OK ends the session |
| `CcxmlDocument.LivedIsLife` | src/ccxml_session.c:2513-2542 | what such a session keeps is what the transitions it selected leave behind, one dispatch after the other, so what holds of all sequences of dispatches holds of it |
| `CcxmlDocument.EndedBy` | src/ccxml_session.c:2527-2542 | a session has ended if and only if some occasion met it open, gave status OK, and was an exit of the selected transition or an unmatched error or kill event |
| `CcxmlDocument.EndIsFinal` | src/ccxml_session.c:2512 | after that every answer is CLOSED, no transition runs and nothing the session keeps changes |
| `CcxmlSelection.StateListMatches` | src/ccxml_session.c:470-489 | the two-cursor loop decides whether the value is one of the blank-separated words of the list |
| `CcxmlSelection.TransitionGuard` | src/ccxml_session.c:491-566 | decides pattern, state and condition in that order; a failure is kept as the status, and after one no later guard opens |
| `CcxmlSelection.GuardMeans` | src/ccxml_session.c:513-566 | a guard is open exactly if pattern, state list and condition agree, and fails exactly if the pattern matches and then the state cannot be read, is no text, or is listed and the condition fails |
| `CcxmlSelection.Select` | src/ccxml_session.c:513-517 | the first guard in document order that opens or fails decides |
| `CcxmlSelection.ChoiceOf` | src/ccxml_session.c:513-525 | exactly one outcome of the selection fits any event |
| `CcxmlScopes.CommittedUntouched` | src/ccxml_session.c:1414-1438 | running rows never changes the committed bindings; commit makes the staged ones committed; the three views always sit on three different buffers |
| `CcxmlScopes.BlockSavesEntry` | src/ccxml_session.c:1440-1459 | opening a block checkpoints exactly what is visible |
| `CcxmlScopes.FailedBlockRestores` | src/ccxml_session.c:1461-1473 | a block settled by a failure, however many rows later, shows again the bindings visible at its entry |
| `CcxmlMatcher.Matches` | src/ccxml_session.c:424-453 | the single-backtrack loop terminates and accepts exactly the pairs of the recursive pattern definition |
| `CcxmlMatcher.FoldMeans` | src/ccxml_session.c:418-422 | two characters fold alike exactly if they are equal or the two cases of one ASCII letter |
| `CcxmlMatcher.CaseIsIgnored` | src/ccxml_session.c:424-453 | changing the case of any ASCII letters of pattern or name changes no match |
| `CcxmlMatcher.FatalIgnoresCase` | src/ccxml_session.c:455-468 | nor whether an unhandled event is fatal |
| `CcxmlMatcher.StarSupersedes` | src/ccxml_session.c:438-441 | on meeting a new star, whatever a longer reach of the previous star could match is matched from here too |
| `CcxmlMatcher.UnhandledIsFatal` | src/ccxml_session.c:455-468 | fatal exactly for names that start with "error." or "ccxml.kill." or equal "ccxml.kill", ignoring ASCII case |
| `EgressSteps.StepInv` | src/chttp_event_io_egress.c:42-583 | every step of every thread keeps the protocol invariant: each row's phase says who owes it a step, references and counters match the rows |
| `EgressSteps.ReserveInv` | src/chttp_event_io_egress.c:152-180 | taking a row keeps the invariant, generation wrap-around included |
| `EgressSteps.CloseRowsInv` | src/chttp_event_io_egress.c:349-368 | the close loop keeps the invariant |
| `EgressOrder.StepOrdered` | src/chttp_event_io_egress.c:370-399 | every step keeps: committed rows of a binding have distinct numbers, one in flight precedes the others, accepted numbers increase |
| `EgressRuns.CommitOrder` | src/chttp_event_io_egress.c:96-101 | below 2^64 commits, in every interleaving a binding has at most one row in flight and the client accepts its rows in strictly increasing commit order, before any that still waits |
| `EgressHistory.CommitFixes` | src/chttp_event_io_egress.c:75-104 | committing a send on an open binding makes it due at now plus its delay, saturated at 2^64 - 1, under the binding's next number; on any other binding the row is freed |
| `EgressHistory.RowsTellTheRun` | src/chttp_event_io_egress.c:42-583 | after any run a live row holds the binding, identifier and delay of the send that took it last, is due at that send's commit time plus delay, and has the request the client returned for it |
| `EgressHistory.NotBeforeDue` | src/chttp_event_io_egress.c:385-399 | no send is handed to the client before its delay has passed since its commit, nor before another eligible one that was due earlier |
| `EgressTurn.TurnExactly` | src/chttp_event_io_egress.c:370-399 | below 2^64 commits a row can be picked if and only if it waits, its binding was activated and not closed, its delay has passed since its commit, and no send of the binding committed before it is still there |
| `EgressHistory.NumbersCount` | src/chttp_event_io_egress.c:97-99 | a binding's next commit number is one more than its commits, counted from 1 again after 2^64 - 1 |
| `EgressHistory.CancelFindsSend` | src/chttp_event_io_egress.c:283-347 | a cancel request finds only a row taken for a send of that binding under that identifier |
| `EgressHistory.SendIsFound` | src/chttp_event_io_egress.c:283-347 | and finds one whenever such a send is not over |
| `EgressHistory.CancelsItsRequest` | src/chttp_event_io_egress.c:474-497 | the worker asks the client to cancel the very request the client returned for the row |
| `EgressFlags.FlagsTellTheRun` | src/chttp_event_io_egress.c:251-281 | after any run a send the client may have is flagged if and only if, since it was taken and since the worker last set out to cancel it, a close or a cancel asked it to stop or the client was not ready to be asked |
| `EgressFlags.AskedOnce` | src/chttp_event_io_egress.c:474-520 | so the client is asked to cancel only what was asked to stop since it was last asked |
| `EgressRuns.NothingDangles` | src/chttp_event_io.c:764-792 | every live row, pending preparation and ingress handler belongs to a binding that is neither quiescent nor freed |
| `EgressRuns.DestroyIsLast` | src/chttp_event_io.c:953-977 | destroy finds no row and no handler of its binding; a stopped processor has no live row |
| `EgressRuns.OwedBySession` | src/chttp_event_io_egress.c:221-237 | a thread holding a preparation or a ticket can always take its next step |
| `EgressRuns.OwedByCanceller` | src/chttp_event_io_egress.c:239-281 | the holder of a cancel ticket can always settle it |
| `EgressRuns.OwedByCallback` | src/chttp_event_io_ingress.c:206-219 | so can every client callback and every ingress handler take its next step |
| `EgressRuns.Accounting` | src/chttp_event_io_egress.c:401-455 | the gauges equal the rows they count, accepted sends equal outcomes plus dropped plus live ones, and the fault counter equals overtaken submissions, absent cancels, odd cancel answers and poll errors |
| `EgressTally.TotalsMove` | src/chttp_event_io_egress.c:401-437 | each step moves accepted, completed, failed, cancelled and dropped by exactly what it stands for |
| `EgressFaults.FaultsExactly` | src/chttp_event_io.c:377-383 | a step raises the fault counter, by one, if and only if it is a failed poll, a return to an overtaken submission, a cancel answered as absent or an unexpected cancel answer |
| `EgressFaults.CounterStaysZero` | src/chttp_event_io_egress.c:412-418 | after any run the counter is zero if and only if no such step was taken |
| `EgressFaults.OvertakenRun` | src/chttp_event_io_egress.c:562-582 | a run in which a callback before `submit_one` resumes raises it |
| `EgressFaults.AbsentRun` | src/chttp_event_io_egress.c:498-507 | a run in which ENOENT on a cancel raises it |
| `EgressEndpoints.Endpoints.Init` | src/chttp_event_io.c:822-882 | gives a new binding the first vacant row in its next generation and changes no other row or claim; no row exactly when none is vacant; bindings of the protocol stay those with a row |
| `EgressEndpoints.Endpoints.Destroy` | src/chttp_event_io.c:960-973 | the endpoint row is always still the binding's, so the mismatch branch is dead; only that row and that claim go, and the bindings of the protocol stay those with a row |
| `EgressEndpoints.InitIsNew` | src/chttp_event_io.c:815-830 | a binding the protocol can make is not one that is still there |
| `EgressEndpoints.BindingsKept` | src/chttp_event_io.c:953-977 | no step but init and destroy makes or frees a binding |
| `EgressRuns.NoSaturation` | src/chttp_event_io_egress.c:51-52 | no saturating decrement ever meets zero |
| `EgressCancel.StepEvolves` | src/chttp_event_io_egress.c:251-281 | which step may move a row from which phase to which, and under what condition; a stop request is never forgotten within an incarnation |
| `EgressCancel.TicketFindsItsRow` | src/chttp_event_io_egress.c:266-270 | a cancel ticket's generation matches exactly when the row was taken again a multiple of 2^32-1 times |
| `EgressCancel.CancelHitsItsIncarnation` | src/chttp_event_io_egress.c:251-281 | short of a generation wrap, committing a cancel changes at most the incarnation it was prepared against |
| `EgressCancel.SendThenCancel` | src/chttp_event_io_egress.c:283-347 | a cancel prepared for the row its identifier names and committed after that send, with anything in between and after: the send is over, finishing, or its stop request still stands with the worker or the client |
| `EgressCancel.CommittedIsPast` | src/chttp_event_io_egress.c:75-104 | once a run has committed a row, the send it held at the start, or any earlier one, is committed or over |
| `EgressCancel.CommitThenCancel` | src/chttp_event_io_egress.c:283-347 | a cancel prepared for a send whose commit happens anywhere between the preparation and the commit of the cancel: whatever else happens then and after, the send is over, finishing, or its stop request still stands |
| `EgressResubmit.ResubmittingRun` | src/chttp_event_io_egress.c:275-278 | a run after which a cancelled send is READY with its flag set and can be submitted again |
| `EgressResubmit.FlaggedExactly` | src/chttp_event_io_egress.c:571-579 | after a step a row is READY and flagged if and only if it was and was left alone, or ENOBUFS was answered for it while SUBMITTING and flagged |
| `EgressHandover.HandedExactly` | src/chttp_event_io_egress.c:385-399 | a cancelled send can still be handed to the client if and only if the client is being asked for it, or it is READY and flagged and its binding is open |
| `EgressHandover.CancelledCanBeHanded` | src/chttp_event_io_egress.c:266-279 | at its cancel's commit, a committed send can still be handed over if and only if the client is being asked for it just then |
| `EgressCancel.SendThenCancelAtOnce` | src/chttp_event_io_egress.c:271-274 | committed back to back, the row is free at once |
| `EgressDrain.StrandingRun` | src/chttp_event_io_egress.c:571-579 | a concrete run after which a READY row of a CLOSING binding is named by no cancel ticket |
| `EgressDrain.StrandedForever` | src/chttp_event_io_egress.c:391-392 | such a row stays as it is in every continuation, its binding never becomes quiescent and the processor never stops |
| `EgressProgress.ClearExactly` | src/chttp_event_io_egress.c:349-368 | a step leaves a waiting row to a closed binding if and only if it is ENOBUFS for a row of a closed binding |
| `EgressProgress.WorkNeverGrows` | src/chttp_event_io_egress.c:401-455 | the steps still owed to a closing binding never increase, except by such a refusal |
| `EgressProgress.OwedShrinks` | src/chttp_event_io_egress.c:449-455 | every live row that is not stranded is owed an enabled step that brings it closer to free |
| `EgressProgress.DrainsExactly` | src/chttp_event_io.c:764-792 | a closing binding can still become quiescent if and only if it has no stranded row |
| `EgressProgress.CloseDrains` | src/chttp_event_io.c:744-762 | if the client never refuses a closed binding's row for want of buffers, a closed binding can always become quiescent |
| `EgressClosing.OwedExactly` | src/chttp_event_io.c:764-792 | nobody owes a closing binding a step if and only if its handlers have left and each row it still has is stranded |
| `EgressClosing.ClosedDrains` | src/chttp_event_io.c:744-792 | after a close, in any run without ENOBUFS for the binding, at most as many owed steps are taken as there was work left, and once none is owed the binding has drained or one poll finds it quiescent |
| `EgressProcessor.Processor.PrepareSend` | src/chttp_event_io_egress.c:152-180 | takes the first free row, or reports closed or full and changes nothing |
| `EgressProcessor.Processor.FinishSend` | src/chttp_event_io_egress.c:221-237 | hands out the ticket, or gives the row back if the binding was closed meanwhile |
| `EgressProcessor.Processor.Commit` | src/chttp_event_io_egress.c:75-104 | is exactly the commit step: row ready, numbered and due as `EgressHistory.CommitFixes` says, or dropped |
| `EgressProcessor.Processor.Discard` | src/chttp_event_io_egress.c:106-119 | is exactly the discard step |
| `EgressProcessor.Processor.PrepareCancel` | src/chttp_event_io_egress.c:283-347 | tickets the first live row of that identifier, or says closed, full or not handled |
| `EgressProcessor.Processor.CancelCommit` | src/chttp_event_io_egress.c:251-281 | is exactly the cancel commit step |
| `EgressProcessor.Processor.CloseBinding` | src/chttp_event_io.c:744-762 | the close loop over the array is the protocol's close |
| `EgressProcessor.Processor.EarlierRowBlocks` | src/chttp_event_io_egress.c:370-383 | true exactly when another committed row of the binding has a smaller number |
| `EgressProcessor.Processor.SelectReady` | src/chttp_event_io_egress.c:385-399 | picks the earliest due eligible row, the first among equals, and finds nothing only if none is eligible |
| `EgressProcessor.Processor.SubmitOne` | src/chttp_event_io_egress.c:533-561 | is exactly the submit step for the selected row |
| `EgressProcessor.Processor.SubmitReturned` | src/chttp_event_io_egress.c:563-582 | is exactly the step after the client answered |
| `EgressProcessor.Processor.CompleteRow` | src/chttp_event_io_egress.c:401-437 | counts the outcome and moves the row on, or reports a fault |
| `EgressProcessor.Processor.CancelOne` | src/chttp_event_io_egress.c:474-492 | takes the first flagged row, or there is none |
| `EgressProcessor.Processor.CancelReturned` | src/chttp_event_io_egress.c:497-520 | a refused cancel is flagged again on the same request; an absent one completes |
| `EgressProcessor.Processor.Activate` | src/chttp_event_io.c:938-949 | activates exactly a reserved binding of a running processor |
| `EgressProcessor.Processor.IsQuiescent` | src/chttp_event_io.c:780-792 | a binding is reported quiescent if and only if it is closing, what it forwards to is quiescent, no handler is under way and no row is left; it can then, and only then, be destroyed |
| `EgressProcessor.Processor.EnterHandler` | src/chttp_event_io_ingress.c:138-148 | a handler takes its reference exactly when the binding is active |
| `EgressProcessor.Processor.LeaveHandler` | src/chttp_event_io_ingress.c:206-219 | and gives it back |
| `EgressProcessor.Processor.PollFailed` | src/chttp_event_io.c:377-383 | a failed poll is counted and changes nothing else |
| `StopHandshake.StepInv` | src/chttp_event_io.c:306-391 | every step of start, stop and worker keeps the handshake's invariant |
| `StopHandshake.StoppedMeansStopped` | src/chttp_event_io.c:656-667 | STOPPED implies server stopped, client destroyed and worker joined |
| `StopHandshake.StoppedIsFinal` | src/chttp_event_io.c:581-584 | from STOPPED no thread has a step left to take |
| `StopHandshake.SuccessMeansStopped` | src/chttp_event_io.c:563-667 | stop returns success only from a processor that has stopped |
| `StopHandshake.FailureIsOwn` | src/chttp_event_io.c:615-648 | a failure taken from the worker was reported for the caller's own request |
| `StopHandshake.ClientEndsOnce` | src/chttp_event_io.c:339-352 | the client is stopped at most once and destroyed at most once, after being stopped |
| `StopAnswers.StopReturns` | src/chttp_event_io.c:563-667 | after any run stop returns the answer of the stage of this call that failed (server, time limit, the worker's own attempt, join), and if none did the first terminal error the server ever answered, or OK |
| `StopAnswers.TerminalIsReturned` | src/chttp_event_io.c:603-667 | once the server has ended in a terminal error no stop returns OK, and the one that finds all ended returns that error |
| `StopAnswers.StoppedIffEnded` | src/chttp_event_io.c:541-667 | between calls a processor that was started is STOPPED if and only if server, client and worker have ended |
| `StopWaiting.NoLostWakeUp` | src/chttp_event_io.c:355-370 | with threads that sleep until a broadcast, no thread is ever asleep while what it waits for is true |
| `StopWaiting.SomeoneMoves` | src/chttp_event_io.c:625-644 | while the stop caller has no answer the worker is awake with a step to take; once there is one the caller is awake; no time limit is needed |
| `StopWaiting.StarterMoves` | src/chttp_event_io.c:533-535 | while the start call waits the new worker has its report to make; after it the call is awake |
| `StopWaiting.AnswerComes` | src/chttp_event_io.c:321-374 | below 2^64 requests each step of the worker brings the waiting caller's answer closer and no other step puts it off, so it comes within five |
| `FormText.DecodeEncoded` | src/chttp_event_io_codec.c:333-359 | decoding undoes encoding of any text without NUL, whatever follows it |
| `FormText.FormBodySize` | src/chttp_event_io_codec.c:149-166 | the precomputed size is the length of the body |
| `FormSpelling.DecodeMeans` | src/chttp_event_io_codec.c:327-359 | a text decodes to a value if and only if it spells it byte by byte, none NUL: as itself, a plus sign for a space, or an escape of two hexadecimal digits of either case |
| `FormSpelling.EscapeMeans` | src/chttp_event_io_codec.c:340-353 | an escape stands for its byte whichever case its digits have; anything else after a percent sign, and an escaped NUL, is refused |
| `FormSpelling.ByteWritten` | src/chttp_event_io_codec.c:26-66 | an unreserved character is written as itself, a space as a plus sign, any other byte as an escape with upper-case digits |
| `FormSpelling.EncodeSpells` | src/chttp_event_io_codec.c:50-66 | the encoded text spells the value and uses nothing but unreserved characters, plus and percent signs |
| `FormSpelling.EncodeShortest` | src/chttp_event_io_codec.c:36-66 | and no such spelling is shorter |
| `FormGrammar.PiecesUnique` | src/chttp_event_io_codec.c:386-397 | there is one way to cut a body at its ampersands |
| `FormGrammar.FormMeans` | src/chttp_event_io_codec.c:361-440 | any body decodes to a form or an error if and only if it is too large or the one reading of its pieces says so: each piece a field, the first piece that is empty, misspelled, one too many or too long deciding the error |
| `FormGrammar.OneReading` | src/chttp_event_io_codec.c:361-440 | there is only one reading |
| `FormGrammar.RequestWritten` | src/chttp_event_io_codec.c:236-324 | a request is written as the pieces of its event, if it has one, and of its entries in order |
| `FormGrammar.DigitCaseIgnored` | src/chttp_event_io_codec.c:327-332 | changing the case of the digits of an escape anywhere in a body changes nothing of what it decodes to |
| `FormCodec.RoundTrip` | src/chttp_event_io_codec.c:361-440 | decoding the body of any accepted request, under the same limits and with capacity, gives its event or the default and its other entries in order |
| `FormCodec.PlainRoundTrip` | src/chttp_event_io_codec.c:236-324 | a request whose entries avoid the reserved name comes back exactly |
| `FormCodec.DecodedOk` | src/chttp_event_io_codec.c:388-434 | any accepted body yields entries the encoder would accept, with no more text than the body has bytes |
| `FormCodec.NormalForm` | src/chttp_event_io_codec.c:361-440 | re-encoding what an accepted body said, event and entries, and decoding again gives the same |
| `FormWriter.MeasureComponent` | src/chttp_event_io_codec.c:36-48 | the exact encoded size, or nothing for text too long, invalid or of unrepresentable size |
| `FormWriter.AddFieldSize` | src/chttp_event_io_codec.c:149-166 | adds separator, name and value, failing exactly on a bad field or overflow |
| `FormWriter.WriteComponent` | src/chttp_event_io_codec.c:50-66 | writes exactly the encoded text and nothing else |
| `FormWriter.WriteField` | src/chttp_event_io_codec.c:168-176 | writes separator, name, equals sign and value |
| `FormWriter.Measure` | src/chttp_event_io_codec.c:239-290 | the first pass returns the body size exactly for encodable requests |
| `FormWriter.EncodeRequest` | src/chttp_event_io_codec.c:236-324 | fails exactly on requests without a form body or above the limit, reports the required size, writes exactly that many bytes and leaves the buffer alone otherwise |
| `FormReader.DecodeComponent` | src/chttp_event_io_codec.c:333-359 | decodes in place as the component decoder says and leaves earlier text alone |
| `FormReader.DecodeFormInto` | src/chttp_event_io_codec.c:361-440 | the views into the text buffer show exactly the decoded event and entries, and the text used never exceeds the body |
| `DomainFence.ScriptRefused` | src/scxml_cnet_domain_fence.c:111-119 | whatever a callback calls on the fence while it runs is refused and changes nothing |
| `DomainFence.StepInv` | src/scxml_cnet_domain_fence.c:54-201 | every call keeps the fence's invariant |
| `DomainFence.FenceOrder` | src/scxml_cnet_domain_fence.c:35-39 | after any calls: draining < current < staged <= latest, at most two attached, attaches equal attached plus retired, admitted generations never decrease |
| `DomainFence.GoneForever` | src/scxml_cnet_domain_fence.c:97-120 | a superseded or retired generation never admits work again |
| `DomainFence.ActivateSupersedes` | src/scxml_cnet_domain_fence.c:76-95 | activation supersedes the current generation and fails its protocol check only at the last epoch |
| `DomainFence.RetireRemoves` | src/scxml_cnet_domain_fence.c:122-157 | retirement removes one generation for good |
| `FenceCalls.CallSucceeds` | src/scxml_cnet_domain_fence.c:54-201 | a call succeeds if and only if the owner makes it and the life of its generation allows it: attach a new one, activate the staged one, submit for the current one with a callback that accepts, retire one that may end and is quiescent, close once, destroy when all is over |
| `FenceCalls.LivesMove` | src/scxml_cnet_domain_fence.c:54-201 | what becomes of every generation when a call succeeds; a refused call leaves every generation's life alone |
| `FenceCalls.CountersMove` | src/scxml_cnet_domain_fence.c:54-201 | each counter moves by one on its own occasion and on no other |
| `FenceCalls.OfferedWork` | src/scxml_cnet_domain_fence.c:97-120 | work for an open fence is admitted exactly when its generation is current and the callback accepts, failed when the callback does not, denied for any other generation |
| `FenceCalls.RefusalsAreTrue` | src/scxml_cnet_domain_fence.c:54-201 | a refusal's status says something that is so |
| `DomainFence.FenceObject.Call` | src/scxml_cnet_domain_fence.c:54-201 | the object, with callbacks really calling back into it, does what the value model says |
| `StateTree.Analysis.AnalyzeState` | src/scxml_analyze.c:2578-2826 | admits exactly the admitted trees with representable counts and counts them |
| `StateTree.RowsOneInitial` | src/scxml_analyze.c:2876-2897 | each compound state of an admitted tree has exactly one initial child row, other rows none |
| `StateTree.TableOk` | src/scxml_analyze.c:2846-2911 | the table has the counted number of rows, ids 1..n in document order, parents before children, one initial per compound state |
| `StateEmission.TableSizes` | src/scxml_analyze.c:2578-2826 | all four tables of an admitted tree have exactly the counted sizes |
| `StateEmission.Emission.Emit` | src/scxml_analyze.c:2846-2911 | writes a subtree's rows, references, names and synthetic initials in order, never out of range |
| `StateEmission.BuildTable` | src/scxml_analyze.c:2846-2911 | analysis then emission fills arrays of the counted size exactly |
| `StateListing.TableTells` | src/scxml_analyze.c:2828-2911 | the table lists the elements of the document, and the initials made for those that need one, each once in document order; every row has the kind of its element and hangs under the row of the element above |
| `StateListing.OneOrder` | src/scxml_analyze.c:2899-2909 | there is only one such order |
| `StateListing.MarksTell` | src/scxml_analyze.c:2856-2897 | references, names and synthetic initials are what the rows of that table put beside it, in order |
| `EventNames.Compare` | src/scxml_analyze.c:104-113 | common part then length is the byte-wise lexicographic order |
| `EventNames.Deduplicate` | src/scxml_analyze.c:3401-3413 | keeps each name once, with its first occurrence |
| `EventNames.BuildEventNames` | src/scxml_analyze.c:3391-3430 | for any sorting routine: every occurring name once, sorted, ids 1..n in order of first occurrence; fails exactly if more distinct names occur than allowed |
| `EventNames.FindName` | src/scxml_analyze.c:2913-2926 | binary search finds the entry of a listed name and nothing else |
| `EventNames.LookupIsExact` | src/scxml_analyze.c:3391-3430 | a built table lists exactly the collected names, each with the id one above the number of distinct names first occurring earlier |
| `EventNames.LookupEvent` | src/scxml_analyze.c:2913-2926 | build then search: built exactly if no more distinct names occur than allowed; then any collected name gives that id, any other gives nothing |
| `ScopeLayout.Schema.Register` | src/cmeta_scope.c:121-170 | names stay unique, slots aligned, disjoint and within the limit; no slot ever moves; refused exactly in the listed cases |
| `ScopeLayout.SlotsAligned` | src/cmeta_scope.c:150-167 | in any block aligned to the storage alignment every slot is aligned |
| `ScopeStore.View.Assign` | src/cmeta_scope.c:391-437 | a failed assignment changes nothing; a successful one changes one slot: exactly its old object ends and exactly its new one comes to be |
| `ScopeStore.View.ClearSlot` | src/cmeta_scope.c:362-374 | ends the slot's object, if any, and no other |
| `ScopeStore.View.Clear` | src/cmeta_scope.c:376-389 | ends exactly the objects of the view, each once |
| `ScopeStore.MoveReplace` | src/cmeta_scope.c:331-360 | refused exactly for another schema or the same view; else the destination shows the source's values, the source is empty, and exactly the objects of both ended and the destination's came to be |
| `ScopeStore.CopyInto` | src/cmeta_scope.c:285-306 | copies every bound slot, or undoes the copies made |
| `ScopeStore.CopyView` | src/cmeta_scope.c:308-329 | a failed copy leaves destination and objects as they were; a successful one shows the source's values, exactly the destination's old objects ended and its new ones came to be |
| `ScopeTrace.Perform` | src/cmeta_scope.c:285-437 | after any operations, successful or not, on any views: all valid, none sharing an object, every live object owned, and the views show exactly what the operations make of what they showed |
| `ScopeTrace.FreshWhole` | src/cmeta_scope.c:240-268 | empty views over a heap in which nothing lives are such a start, and show nothing |
| `ScopeTrace.WholeMeans` | src/cmeta_scope.c:285-437 | then every object ever made has ended exactly once or is owned by a view, never both |
| `ScopeTrace.Finish` | src/cmeta_scope.c:270-277 | destroying all views ends every object that is left |

## Left out

- XML parsing, attribute syntax and diagnostics: trees and headers are given as already parsed, an error is a status without its message.
- Names retained before the transitions, those of the root variable and the state variable: `maxNameBytes` is what they leave.
- Leaf actions of CCXML: their attribute evaluation is one function of the `World`; what matters here is which tickets they prepare and in what order.
- CFlow, the mailbox and the aggregate effect: guards are asked in document order up to the first that opens, a prepared aggregate is committed or discarded once, a refused message is a status, and whether the statechart then reports an error is an input.
- Scope contents: a foreach snapshot is a sequence of integers and a scope a map; typed values are `ScopeStore`'s subject.
- HTTP client, server, clocks and UUIDs: arbitrary answers, with the contract that OK means accepted, each accepted request completes once, and ENOENT is never answered for a request the client still has.
- Egress text fields: target resolution and body encoding between the two regions of `prepare_send` only decide between finish and abort.
- Binding addresses: a freed binding's address is not used again in the model, so a stale pointer cannot accidentally match a new binding.
- Statistic counters of the processor: unbounded numbers; the 32-bit row generation, 64-bit commit number and 64-bit stop generation wrap as in the source.
- complete_row after a failed submit or an ENOENT cancel takes the lock twice; the model joins the two regions, as the first writes nothing that another thread could observe in between.
- Fairness: `EgressClosing` and `StopWaiting` bound the steps that are owed and show that one is possible; that the threads take them is not modelled.
- StopHandshake: modelled on values only, not as an object; callers beyond the active one return at once and are not modelled.
- Form bodies of content payloads (text, XML, scalar) and scalar rendering: rendered text is an input; the UTF-8 test is an arbitrary predicate on non-empty text.
- NULL pointers with a non-zero size and the test hooks of the HTTP files.
- The target of a synthetic initial: the attribute's text or the first real child's identifier is not part of the recorded mark.
- What the session is told when a send is over (error event, send-done event): in the model completing a row only moves it and its counter; the client's response is an outcome.
- SCXML analysis other than the state table: transitions, executable content, invoke, data and their counters.
- EventNames.BuildEventNames: qsort is any function returning a sorted rearrangement; the arrays are sequences here.
- ScopeLayout.Schema.Register: the mask form of rounding up is taken as rounding up to a multiple, which is the same for powers of two.
- Raw pointer alignment of allocations, allocator failures at initialisation, adapter ABI checks, the QuickJS bridge and numeric conversions.
