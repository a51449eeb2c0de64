# WebnovelStudio core logic, modelled and proved

This project models the logic of the WebnovelStudio V3 crates that decides whether an
author's data stays consistent, and proves what it guarantees. Verify it with
`dafny verify dfyconfig.toml`.

| part | files | what it models |
|---|---|---|
| The durable discussion run | `RunVocabulary`, `RunCommands`, `RunInvariants`, `RunStore`, `RunTheorems`, `DiscussionStore` | the transactional run: statuses, append-only event log, compare-and-swap sequences, replay, recovery and the receipt audit made when a project is backed up, restored or imported |
| The bounded lookup chain | `LookupSources`, `LookupChain`, `LookupInvariants`, `LookupAudit`, `LookupTheorems`, `LookupLaws`, `LookupVerdict`, `LookupReplay`, `LookupTables` | at most three paid invocations of a discussion under byte allowances, their immutable results and receipts, and what the two auditors of the database say of them |
| The whole project | `ProjectStore`, `ProjectAudit` | ordinary and lookup runs in one store: every command, recovery in one transaction, and the verdict of both auditors over whole histories |
| The eligibility kernel | `Contracts`, `Decimals`, `SourceGraph`, `Policies`, `Eligibility`, `EligibilityLaws` | the dependency walk, the basis and disclosure policies, and the reviewed manifest binding |
| Evidence and retrieval | `Text`, `Search`, `Arithmetic`, `Memory`, `HistoryOrder`, `Histories`, `HistoryReports`, `FirstSeen`, `Paging`, `HistoryPages`, `Catalog`, `Dispositions`, `ChatFreeze` | editor offsets, case-folded search, sample digests, audience-projected histories, the entity catalog and the decision fold |
| Packing and rewriting | `PacketSources`, `Packing`, `Rewriter`, `AbsentFields`, `AbsentLaws`, `NullDeletion`, `AbsentTheorem`, `OuterNulls`, `AbsentTwice`, `AbsentAgain` | the choice of a packet's sources, the greedy block packer and the two declaration rewriters |

The source's step-by-step code is modelled by methods that update fields or locals
(`DiscussionStore.Tables`, `LookupTables.Tables`, `Eligibility.SourceWalk`,
`Catalog.Builder`, `ChatFreeze.FrozenContext` and the loops of the other modules). Each is proved equal to a
specification function, and the theorems are about that function over all inputs and all
sequences of commands. A transaction is a method that either leaves the rows its answer
describes or leaves them as they were; the exceptions of the source, a stale context found by
`begin_discussion_run` or by `claim_lookup_invocation`, commit a seal and then report an error.

Hashes are opaque strings compared for equality. The price of a packet, the compiled child
packet of a lookup round, the answer of a read, the lowercase mapping of a character and
the classification of letters are parameters. Text is a sequence of code points with their
UTF-8 and UTF-16 widths (RFC 3629, section 3; RFC 2781, section 2.1).

## Where the code falls short of its promise

Each of these is proved with the exact condition under which the promise holds, or with the
conditions stated here, and with a failing case.

- Recovery is all-or-nothing and inserts `system-interrupted-<run>` without looking it up, so
  a chunk streamed under that id blocks it (`RunTheorems.RecoverSucceedsIff`; failing case
  `RunTheorems.ChosenIdBlocksRecovery`). Lookup runs never block it, but one such ordinary run
  leaves every lookup chain open as well (`ProjectAudit.RecoverProject`).
- Every normally completed live lookup run makes the project fail validation when it is backed up,
  restored or imported: `validate_provider_results` demands a provider result of each completed run
  with a binding (`crates/conversation/src/discussions.rs:2038-2077`), a lookup run never gets one,
  and `crates/conversation/src/discussion_lookup.rs:924-934` forbids it; both run in one pass
  (`crates/transfer/src/transfer.rs:652` and `:668`). The exact condition over all histories is
  `LookupVerdict.ReachableVerdict`, for a whole project `ProjectAudit.ProjectVerdict` (failing case
  `LookupVerdict.LiveAnswerFailsAudit`).
- A settlement can commit rows that the lookup auditor of the same pass refuses: a text over 64 KiB (of a call without a binding),
  an error or decoding error that is not sanitized, or a final answer of the first call that lost the
  race with a stop, since the stop message names the root packet. So can a plain stop settlement sent
  to a lookup run with any text other than the stock note, the empty one included
  (`LookupTheorems.SealingStepAudit`; failing cases `LookupLaws.OverlongTextFailsAudit`,
  `LookupLaws.UnsanitizedDetailFailsAudit`, `LookupLaws.RootAnswerAfterStopFailsAudit`,
  `LookupLaws.PlainStopTextFailsAudit`).
- A queued lookup run that is stopped, or found stale by `begin`, is sealed with its root
  invocation still prepared; a plain stop settlement leaves a claimed one
  (`LookupLaws.SealingClosesTheChain`; failing case
  `LookupLaws.QueuedStopLeavesRoot`). Recovery, interruption and halting leave none.
- The limit branch of `advance_lookup` is reached only under the full allowance of two extra
  calls; under a smaller one packet compilation refuses the child and the run stays running
  (`LookupLaws.LimitSealsIffFullAllowance`; failing case `LookupLaws.ExpandBeyondMaximum`).
- Raising the reader frontier keeps a receipt only off the reviewed basis, which pins it
  (`EligibilityLaws.RaisingTheFrontier`; failing case `EligibilityLaws.ReviewedFrontierIsPinned`).
- A promise history numbers records before the audience projection, so withheld records can
  change the order shown when two sets share a source key. The story loader freezes at most one set
  a source, so only an imported snapshot can hold two: its checks
  (`crates/story/src/story_context.rs:1506-1517`) refuse no duplicate there. The independence holds when none
  do; the converse is proved for distinct observations and where withheld records enough to span
  the distance of the two places leave the sets valid, of which there are at most 64 records each
  (`Histories.SharedKeyReveals`; failing case `HistoryReports.WithheldNoteReordersPromise`).
- Freezing a chat looks a draft up by its document, project and namespace, and the freshness check
  by its document and conversation. They agree because a project and namespace have one
  conversation and drafts are filed with it; a draft row of another conversation would freeze and
  then make the check fail (`ChatFreeze.FreshlyFrozenIsCurrentIff`; failing case `ChatFreeze.ForeignDraftIsAnError`).
- A decision stored without a rationale is collected as an empty one and then refused by the
  validation of the frozen chat. `set_chat_disposition` always stores a text, so only an imported
  project can hold such an event (`Dispositions.CollectedValidatesIff`; failing case
  `Dispositions.MissingRationaleFailsValidation`).
- Pages beyond the offset cap are refused, so paging reaches the whole result exactly when its
  last needed offset is within the cap (`Paging.PagesConcatenate`; failing case `Paging.LastResultOutOfReach`).
- `mark_absent` is idempotent only where no type ends with more trailing ` | null`s than there are
  fields whose types end there (`AbsentAgain.RewritingIsIdempotentIff`; failing case
  `AbsentAgain.DoubledNullIsHalved`).

## Model

| member | source | states |
|---|---|---|
| `RunStore.EveryRunKeeps` | crates/conversation/src/discussions.rs:677-1469 | Over every sequence of commands on every run: event sequences are exactly 1..run.sequence with distinct ids; while a run is active its text is the in-order concatenation of its chunks; a sealed run has exactly one terminal event, its last, and exactly one assistant message; nothing stored is rewritten, the status rank never falls and sealed runs never change |
| `RunStore.ReachableStoresAreGood` | crates/conversation/src/discussions.rs:359-1469 | Every store reached from the empty project satisfies that invariant |
| `RunTheorems.LostAcknowledgement` | crates/conversation/src/discussions.rs:690-704 | Once an append, finish, failure, stop settlement or provider settlement succeeded, re-sending the identical request after any further commands succeeds and changes nothing |
| `RunTheorems.StoredEventIdIsFinal` | crates/conversation/src/discussions.rs:2189-2202 | A request whose event id is already stored never changes the store, and succeeds exactly when it is the acknowledged request: another kind, text or expected sequence is refused |
| `RunTheorems.SuccessIsStored` | crates/conversation/src/discussions.rs:880-895 | A successful request leaves its own acknowledgement in the rows |
| `RunTheorems.StoredEventIdAnswers` | crates/conversation/src/discussions.rs:982-997 | For a stored event id the answer is fixed by the acknowledgement and the rows stay as they are |
| `RunTheorems.StartIsOnce` | crates/conversation/src/discussions.rs:359-420 | A start operation never creates a second run: the same payload hash succeeds unchanged, another one is refused as a reused operation id, at any later time |
| `RunTheorems.BeginSucceedsOnce` | crates/conversation/src/discussions.rs:739-822 | After one successful begin every later begin of that run fails and changes nothing |
| `RunTheorems.ReachableStoresPassAudit` | crates/conversation/src/discussions.rs:1928-2081 | Every store the commands of the run protocol reach passes the receipt auditor (settling a lookup invocation is not among them; `ProjectAudit.ProjectVerdict` has both): status matches outcome and cleanup, output equals receipt text, run sequence is expected + 1, the terminal event matches, and every completed live run has a receipt |
| `RunTheorems.GoodRunsPassAudit` | crates/conversation/src/discussions.rs:2063-2077 | A run that keeps the invariant fails those clauses exactly when it is a completed live lookup run: the auditor demands a provider result of every completed run with a binding, and a lookup run never gets one |
| `RunTheorems.RecoverSucceedsIff` | crates/conversation/src/discussions.rs:1392-1428 | Reopening seals every active run exactly when no active run has spent its own system-interrupted id or its last sequence number; otherwise it fails and changes nothing |
| `RunTheorems.ChosenIdBlocksRecovery` | crates/conversation/src/discussions.rs:2242-2291 | A concrete family of failures: a chunk streamed under the id recovery will insert makes recovery fail, because sealing inserts that id without looking it up |
| `RunInvariants.SettlementAgrees` | crates/conversation/src/discussions/validation.rs:320-336 | A settlement that passes its checks leaves a run status and a receipt the auditor's relation accepts |
| `RunInvariants.SealSucceedsIff` | crates/conversation/src/discussions.rs:2242-2291 | Sealing an active run with a well-formed id fails exactly when the id is taken or the sequence exhausted |
| `DiscussionStore.Tables.StartDiscussion` | crates/conversation/src/discussions.rs:359-676 | The run, its frozen packet and the user message are created once, or the tables stay as they were; answers as the abstract step |
| `DiscussionStore.Tables.BeginDiscussionRun` | crates/conversation/src/discussions.rs:739-822 | Claims a queued run; with a stale context it commits the seal and then reports the error |
| `DiscussionStore.Tables.MarkDiscussionDelivered` | crates/conversation/src/discussions.rs:824-859 | Delivery changes only the dispatch state, only while running, and never on a live run |
| `DiscussionStore.Tables.AppendDiscussionOutput` | crates/conversation/src/discussions.rs:677-737 | One transaction: event row, sequence and text move together, replay and compare-and-swap first; otherwise nothing changes |
| `DiscussionStore.Tables.FinishDiscussion` | crates/conversation/src/discussions.rs:861-944 | Completes only runs without a provider binding, inserting terminal event, sealed row and assistant message together |
| `DiscussionStore.Tables.FailDiscussionRun` | crates/conversation/src/discussions.rs:946-1015 | Seals an active run as failed, with replay by event id |
| `DiscussionStore.Tables.StopDiscussion` | crates/conversation/src/discussions.rs:1017-1060 | A queued run is sealed at once, a running one starts stopping, others answer as they are |
| `DiscussionStore.Tables.SettleDiscussionStop` | crates/conversation/src/discussions.rs:1062-1172 | Seals a stopping run with its final text, interrupted when cleanup is unresolved |
| `DiscussionStore.Tables.SettleProviderDiscussion` | crates/conversation/src/discussions.rs:1174-1388 | Checks a provider report against the frozen packet and seals the run and the receipt in one transaction |
| `DiscussionStore.Tables.InterruptDiscussion` | crates/conversation/src/discussions.rs:1429-1469 | Interrupts one active run, leaving a sealed one alone |
| `DiscussionStore.Tables.RecoverInterruptedDiscussions` | crates/conversation/src/discussions.rs:1392-1428 | Seals the active runs in creation order; the first failure rolls all of them back |
| `DiscussionStore.Tables.SealRun` | crates/conversation/src/discussions.rs:2242-2291 | Event, row and message of a system seal, or no change |
| `DiscussionStore.Tables.InsertEvent` | crates/conversation/src/discussions.rs:2242-2291 | The event table refuses a repeated sequence or event id and then changes nothing |
| `LookupInvariants.EveryChainKeeps` | crates/conversation/src/discussion_lookup.rs:773-955 | Over every sequence of commands: ordinals contiguous from 0 and at most 2, all but the last needs_context, each stored state the one its immutable result implies, each child packet carrying exactly the saved exchanges of its predecessors, settled and reserved bytes within the allowance, nothing settled rewritten |
| `LookupInvariants.StartedSound` | crates/conversation/src/discussion_lookup.rs:144-185 | A started lookup discussion satisfies the chain invariant |
| `LookupInvariants.SealChainSucceedsIff` | crates/conversation/src/discussion_lookup.rs:350-357 | Sealing an active chain with a well-formed id never fails, since nothing is streamed into a lookup run |
| `LookupInvariants.AcceptedIdsFresh` | crates/context/src/packet/validation.rs:12-253 | Evidence accepted by packet validation has no read id twice, so ids are fresh across rounds without further assumption |
| `LookupInvariants.StoreReadsFresh` | crates/conversation/src/discussion_lookup.rs:613-668 | Storing a round of new ids adds exactly one row a request |
| `LookupInvariants.ChildExchanges` | crates/conversation/src/discussion_lookup.rs:358-400 | A child's exchanges are the earlier ones followed by this round's answers |
| `LookupInvariants.StoredBudget` | crates/conversation/src/discussion_lookup.rs:292-348 | A claim's reservation turns into its settled bytes |
| `LookupInvariants.OpenIsLast` | crates/conversation/src/discussion_lookup.rs:935-955 | Only the last invocation can be anything but needs_context |
| `LookupTheorems.ReachableChainAudit` | crates/conversation/src/discussion_lookup.rs:773-995 | A chain reached by any commands passes the lookup auditor, one of two in the same pass, exactly when no step sealed it harmfully; totals, ordinals, states, exchanges and receipts never fail |
| `LookupTheorems.StartedChainAudit` | crates/conversation/src/discussion_lookup.rs:1014-1194 | The lookup auditor's verdict for a lookup discussion from its start |
| `LookupTheorems.SealingStepAudit` | crates/conversation/src/discussions/lookup.rs:72-231 | The step that seals a chain passes the lookup auditor exactly when it is not one of the four harmful ones: a report with a text over 64 KiB, or with an error or decoding error that is not sanitized, a root answer that lost the race with a stop, a plain stop settlement whose text is not the stock note, the empty text included |
| `LookupTheorems.SealedChainIsFrozen` | crates/conversation/src/discussions.rs:2224-2241 | A chain whose run is sealed never changes again |
| `LookupAudit.SoundRowsAudit` | crates/conversation/src/discussion_lookup.rs:1195-1362 | On a sound chain the auditor's row clauses come down to the bounds on stored texts and errors |
| `LookupAudit.AnswerSettleAudit` | crates/conversation/src/discussions/lookup.rs:667-705 | A final answer given while the run was running completes it as the lookup auditor demands; the receipt auditor of the same pass accepts it only without a provider binding |
| `LookupAudit.StoppedSettleAudit` | crates/conversation/src/discussions/lookup.rs:72-231 | A report that stops the chain fails the lookup auditor only by the texts it stores, or as a root answer after a stop |
| `LookupVerdict.ReachableVerdict` | crates/transfer/src/transfer.rs:652-674 | After any commands both auditors of a database accept a chain exactly when no step sealed it harmfully and it is not a completed live run |
| `LookupVerdict.StartedVerdict` | crates/transfer/src/transfer.rs:652-674 | The verdict of both for a lookup discussion from its start |
| `LookupVerdict.CompletesIff` | crates/conversation/src/discussions/lookup.rs:667-705 | A step completes an active chain exactly when it settles a final answer on the running run |
| `LookupVerdict.SealingStepVerdict` | crates/conversation/src/discussions.rs:2038-2077 | The step that seals a chain leaves rows both auditors accept exactly when it is none of the four harmful ones and no final answer of a live run |
| `LookupVerdict.LiveAnswerFailsAudit` | crates/conversation/src/discussion_lookup.rs:924-934 | The failing case, and the ordinary course of a live lookup: the claimed first call of a running discussion answers, the settlement completes the run, the lookup auditor accepts it and the receipt auditor refuses it |
| `LookupReplay.ReachableReplay` | crates/conversation/src/discussion_lookup.rs:1363-1530 | After any commands the saved reads pass their re-execution exactly when every committed expansion stored answers that execution repeats, or bounded untruncated ones of an unavailable story read |
| `LookupReplay.ExecutedReadsReplay` | crates/conversation/src/discussion_lookup.rs:474-575 | Reads the host itself executed on the frozen story always pass |
| `ProjectStore.EveryPart` | crates/conversation/src/discussions.rs:1392-1469 | A command of the project, recovery included, does to the rows of each lookup run exactly one step of the chain protocol, or none |
| `ProjectStore.EveryProjectKeeps` | crates/conversation/src/discussions.rs:359-1469 | Over every sequence of commands on ordinary and lookup runs: the store and every chain keep their invariants, and exactly the runs that opted in have lookup rows |
| `ProjectAudit.ProjectVerdict` | crates/transfer/src/transfer.rs:561-674 | After any commands on any runs both auditors accept the whole project exactly when they did before and no step sealed a lookup run in a refused way; ordinary runs never make it fail, and a refused project stays refused |
| `ProjectAudit.ReachableProjectVerdict` | crates/transfer/src/transfer.rs:561-674 | The same from an empty project |
| `ProjectAudit.RecoverProject` | crates/conversation/src/discussions.rs:1392-1428 | Recovery of ordinary and lookup runs is one transaction: it succeeds exactly when no active ordinary run has spent its recovery id or last sequence, and then seals every run and closes every chain it seals; otherwise nothing changes, not even an invocation |
| `LookupLaws.ReservationCoversReport` | crates/conversation/src/discussion_lookup.rs:186-225 | The 64 KiB and packet-length reservation of a claim covers its report: no consistent report of that size is refused for bytes |
| `LookupLaws.DefaultAllowanceNeverRefusesClaim` | crates/context/src/lookup.rs:114-122 | With the default allowance and packets of at most 24,576 bytes no claim of a three-call chain is refused for bytes |
| `LookupLaws.ClaimSucceedsOnce` | crates/conversation/src/discussion_lookup.rs:186-225 | An invocation is claimed at most once, whatever happens in between |
| `LookupLaws.LostSettlementAcknowledgement` | crates/conversation/src/discussions/lookup.rs:617-649 | Re-sending a settled report after anything else succeeds and changes nothing |
| `LookupLaws.SecondReportAnswers` | crates/conversation/src/discussions/lookup.rs:617-649 | Another report for a settled ordinal changes nothing, and is accepted exactly when it repeats the delivery with the stored outcome and error, or tells it as a completed call where a failure was stored |
| `LookupLaws.ExpansionIsOnce` | crates/conversation/src/discussions/lookup.rs:232-401 | With a child in place no answer or packet is accepted for the same ordinal again |
| `LookupLaws.LimitSealsIffFullAllowance` | crates/conversation/src/discussions/lookup.rs:232-401 | At the last permitted ordinal an expansion ends the run exactly when the allowance is the full two extra calls; a smaller allowance never reaches the limit branch |
| `LookupLaws.ExpandBeyondMaximum` | crates/context/src/packet/validation.rs:12-253 | The failing case: at or beyond the permitted number of extra calls packet compilation refuses every child and nothing changes |
| `LookupLaws.QueuedStopLeavesRoot` | crates/conversation/src/discussions.rs:1017-1060 | The failing case: stopping a queued lookup run seals it and leaves its root invocation prepared |
| `LookupLaws.ReopenCloses` | crates/conversation/src/discussions.rs:1392-1428 | Reopening closes an active lookup run and leaves no prepared or claimed invocation |
| `LookupLaws.HaltCloses` | crates/conversation/src/discussions/lookup.rs:402-443 | So does a halt with a reason |
| `LookupLaws.SealingClosesTheChain` | crates/conversation/src/discussion_lookup.rs:350-357 | A seal leaves an open invocation exactly in these cases: begin or stop on a queued run, and a plain stop settlement over an open claim |
| `LookupLaws.OverlongTextFailsAudit` | crates/conversation/src/discussion_lookup.rs:1195-1362 | The failing case: a failed call without a provider binding, whose partial output is over 64 KiB, is settled and committed, and the lookup auditor refuses it |
| `LookupLaws.UnsanitizedDetailFailsAudit` | crates/conversation/src/discussions/lookup.rs:592-616 | A concrete history: a completed call whose text is no envelope and whose decoding error is not sanitized is settled and committed, and the project fails its own audit |
| `LookupLaws.PlainStopTextFailsAudit` | crates/conversation/src/discussions.rs:1062-1172 | A concrete history: a plain stop settlement with any text but the stock note, the empty one included, succeeds on a stopping lookup run, and the project fails its own audit |
| `LookupLaws.StoredTextsFailAudit` | crates/conversation/src/discussions/lookup.rs:72-231 | Any root report that is no envelope and stays in its bounds is committed, and fails the audit when its text is over-long or its error not sanitized |
| `LookupLaws.RootAnswerAfterStopFailsAudit` | crates/conversation/src/discussion_lookup.rs:1014-1194 | A concrete history: stop while the root call is out, then its final answer is settled and committed, and the project fails its own audit |
| `LookupTables.Tables.ClaimLookupInvocation` | crates/conversation/src/discussion_lookup.rs:186-225 | The claim transaction: stale context stops the chain and seals; otherwise byte allowances and the prepared state decide |
| `LookupTables.Tables.SettleLookupInvocation` | crates/conversation/src/discussions/lookup.rs:72-231 | Stores one immutable result and concludes the run, or undoes the stored row when the seal fails |
| `LookupTables.Tables.AdvanceLookup` | crates/conversation/src/discussions/lookup.rs:232-401 | Seals on the limit or a stale story, otherwise records one round and inserts the child packet, or changes nothing |
| `LookupTables.Tables.HaltLookup` | crates/conversation/src/discussions/lookup.rs:402-443 | Stops the open rows and interrupts the run |
| `LookupTables.Tables.ReopenRun` | crates/conversation/src/discussions.rs:1392-1428 | One lookup run's share of recovery: stop the open rows, then seal |
| `LookupTables.Tables.MarkChainStopped` | crates/conversation/src/discussion_lookup.rs:350-357 | Claimed rows become unknown, prepared rows stopped, all others stay |
| `LookupTables.Tables.CollectExchanges` | crates/conversation/src/discussion_lookup.rs:358-400 | Every saved round up to an ordinal, in order, or a refusal when a receipt is missing |
| `LookupTables.Tables.StoreRound` | crates/conversation/src/discussion_lookup.rs:613-668 | One receipt a request; a reused id must carry the same request and result; a refused round leaves every earlier receipt as it was, and its caller restores the rows |
| `LookupTables.Tables.StoreResult` | crates/conversation/src/discussion_lookup.rs:292-348 | Result row and invocation state change together, refused on a repeated ordinal, event id or packet id |
| `LookupTables.Tables.Totals` | crates/conversation/src/discussion_lookup.rs:1316-1347 | The settled input and output bytes of all three ordinals |
| `LookupTables.Tables.CheckProviderBytes` | crates/conversation/src/discussions/lookup.rs:528-591 | The byte checks on a report, in the order made |
| `LookupTables.Tables.ExpandRound` | crates/conversation/src/discussions/lookup.rs:232-401 | Receipts and child appear together or not at all |
| `LookupTables.Tables.AddChild` | crates/conversation/src/discussion_lookup.rs:425-471 | The child is inserted only with accepted evidence and an unused packet id |
| `SourceGraph.WalkIsExact` | crates/context/src/eligibility.rs:515-565 | The three-colour walk succeeds exactly when every source reached from the selection is allowed by both policies and none depends on itself; it then emits each reached source once, dependencies first; a refusal is explained by a reached source |
| `SourceGraph.WalkSmallerSelection` | crates/context/src/eligibility.rs:268-306 | Selecting fewer sources keeps success |
| `SourceGraph.RewalkPrefix` | crates/context/src/eligibility.rs:515-565 | Walking a finished order again reproduces it, element by element |
| `SourceGraph.RelaxedWalkAll` | crates/context/src/eligibility.rs:515-565 | A successful walk keeps its exact result when verdicts only relax |
| `EligibilityLaws.EvaluationIsExact` | crates/context/src/eligibility.rs:132-322 | Once the up-front checks pass, evaluation succeeds exactly when every reachable source passes basis and disclosure policy and no cycle is reachable; the receipt lists exactly the reachable sources, once each, dependencies first |
| `EligibilityLaws.SmallerSelectionEvaluates` | crates/context/src/frozen.rs:360-367 | If a selection evaluates, so does every nonempty duplicate-free part that keeps the target |
| `EligibilityLaws.ReevaluationIsIdentity` | crates/context/src/packet.rs:578-587 | Re-evaluating a returned dependency list returns that same list, in the same order |
| `EligibilityLaws.RaisingTheFrontier` | crates/context/src/eligibility.rs:800-894 | For restricted writing, raising the reader frontier keeps a successful evaluation with an identical receipt exactly when the basis is not reviewed or the frontier is unchanged |
| `EligibilityLaws.ReviewedFrontierIsPinned` | crates/context/src/eligibility.rs:800-894 | The failing case: an accepted reviewed evaluation is refused under any other frontier |
| `EligibilityLaws.RestrictedReceiptIsDisclosed` | crates/context/src/eligibility.rs:800-894 | Every source of a restricted receipt, direct or inherited, is public material positioned, as a number, at or before the frontier |
| `EligibilityLaws.ReviewedBasisIsBijection` | crates/context/src/eligibility.rs:670-796 | Although only counts and members-to-sources are checked, in an accepted reviewed basis every authority source quotes exactly one prefix member and every member is quoted by exactly one |
| `EligibilityLaws.InjectiveHitsAll` | crates/context/src/eligibility.rs:708-796 | The pigeonhole step: an injective map of n indices into n indices hits every index |
| `Eligibility.EvaluateSources` | crates/context/src/eligibility.rs:132-322 | The imperative evaluation returns what the checks, the tables and the walk determine |
| `Eligibility.SourceWalk.Load` | crates/context/src/eligibility.rs:202-216 | Fills both tables, refusing exactly a repeated handle or a repeated exact source |
| `Eligibility.SourceWalk.Prepare` | crates/context/src/eligibility.rs:132-267 | Every check that precedes the walk, in order; on success both tables are those of the manifest |
| `Eligibility.SourceWalk.Walk` | crates/context/src/eligibility.rs:515-565 | Visiting one handle leaves the visits map and emitted list exactly as the recursive walk says |
| `Eligibility.SourceWalk.WalkSelected` | crates/context/src/eligibility.rs:268-306 | The loop over the selection equals the walk of the whole list |
| `Eligibility.AcceptedTables` | crates/context/src/eligibility.rs:428-513 | Once the descriptors pass, every dependency resolves inside the manifest, so no lookup made by the walk can miss |
| `Decimals.DecimalLeIsNumericOrder` | crates/context/src/eligibility.rs:940-955 | On canonical decimals of any length the textual comparison is numeric order |
| `Decimals.ParsedIffWritten` | crates/context/src/frozen.rs:930-935 | A stored version is written as the given text exactly when that text parses to it |
| `Decimals.CanonicalIsUnique` | crates/context/src/eligibility.rs:940-949 | A canonical decimal is the only spelling of its number |
| `Search.LiteralSpansAreExact` | crates/context/src/frozen.rs:209-240 | One span for each leftmost non-overlapping match of the folded text, each the smallest character-aligned span covering it, start before end, spans in non-decreasing order, and every occurrence touches a reported match |
| `Search.OffsetMapsAreExact` | crates/context/src/frozen.rs:209-240 | For each byte of the folded text the maps hold exactly the original offsets of the character it came from |
| `Search.SpanIsSmallestCover` | crates/context/src/frozen.rs:209-240 | The span of a match is the smallest run of whole original characters whose folding contains it, even when folding expands characters |
| `Search.SpansInOrder` | crates/context/src/frozen.rs:209-240 | Later matches never start or end earlier in the original |
| `Search.BuildMaps` | crates/context/src/frozen.rs:209-226 | The one-pass loop builds the folded text and both maps |
| `Search.ComputeLiteralSpans` | crates/context/src/frozen.rs:209-240 | The loop returns the specified spans |
| `Search.SearchSavedPassages` | crates/context/src/frozen.rs:140-207 | Bounded search returns exactly the first limit hits of the full flattened list, and claims more exactly when something was dropped |
| `Memory.CharacterAtIsExact` | crates/context/src/memory.rs:324-339 | An offset names a boundary exactly when the prefix before it has that many UTF-16 units, and no other boundary does |
| `Memory.Utf16Boundary` | crates/context/src/memory.rs:324-339 | Returns the byte length of the unique prefix with exactly that many units, and nothing when there is none |
| `Memory.QuoteHasExactUnits` | crates/context/src/memory.rs:165-214 | A matched quote has exactly to - from UTF-16 units |
| `Memory.AcceptedQuotesAreExact` | crates/context/src/memory.rs:127-214 | Every quote of an accepted candidate is the text of its named block between its offsets |
| `Memory.Excerpt` | crates/context/src/memory.rs:95-125 | Stepping back from byte 256 yields the longest whole-character prefix of at most 256 bytes |
| `Memory.PositionsSpread` | crates/context/src/memory.rs:80-125 | Sampled positions are in range, strictly increasing, start at the first non-blank block and, with two or more samples, end at the last |
| `Memory.MockNavigationDigest` | crates/context/src/memory.rs:80-125 | The sample digest quotes the excerpt of exactly those blocks, or reports an empty source |
| `Memory.DigestValidatesIff` | crates/context/src/memory.rs:127-214 | The digest validates exactly when every sampled excerpt also begins the first block carrying its id |
| `Memory.DistinctBlocksValidate` | crates/context/src/memory.rs:127-214 | With unique block ids the digest always validates |
| `Text.PrefixLengthsIncrease` | crates/context/src/memory.rs:313-339 | Longer prefixes have strictly more bytes and strictly more UTF-16 units |
| `HistoryReports.QueryEvidenceHistory` | crates/context/src/evidence_history.rs:86-209 | Possession history: validated sets, projection, sorting and closing markers as specified |
| `HistoryReports.QueryKnowledgeHistory` | crates/context/src/knowledge_history.rs:78-194 | Knowledge history, likewise |
| `HistoryReports.QueryPromiseHistory` | crates/context/src/promise_history.rs:81-214 | Promise history, likewise |
| `HistoryReports.PossessionIsIndependent` | crates/context/src/evidence_history.rs:104-198 | Contexts differing only in author-room records give the same observations, order, labels and markers except the disclosure one |
| `HistoryReports.KnowledgeIsIndependent` | crates/context/src/knowledge_history.rs:100-188 | The same for knowledge |
| `HistoryReports.PromiseIsIndependent` | crates/context/src/promise_history.rs:99-207 | The same for promises when no two sets with visible matches share a source key, as with at most one set a source |
| `Histories.SharedKeyReveals` | crates/context/src/promise_history.rs:99-207 | Conversely: two sets under one key with matches p and r places in, all observations shown distinct; putting at most the distance of the places plus one withheld records in front of one of the sets, if it stays valid, changes the order shown |
| `HistoryReports.WithheldNoteReordersPromise` | crates/context/src/promise_history.rs:99-207 | A concrete case: two one-record sets of one chapter, whose order for readers is reversed by one author-room record |
| `Histories.FilteredNumberingIsIndependent` | crates/context/src/evidence_history.rs:104-198 | Numbering after the projection makes a history independent of withheld records |
| `Histories.OriginalNumberingIndependent` | crates/context/src/promise_history.rs:99-207 | Numbering before it does so too when no key is shared |
| `Histories.CollectObservations` | crates/context/src/evidence_history.rs:104-180 | The nested loops collect exactly the visible matches under their source keys |
| `HistoryOrder.StableSortSorts` | crates/context/src/evidence_history.rs:145-150 | The sort orders its entries and neither loses nor invents one |
| `HistoryOrder.StableSortIsStable` | crates/context/src/evidence_history.rs:145-150 | Entries with equal keys keep the order they were collected in |
| `HistoryReports.LabelsAreFirstSeen` | crates/context/src/evidence_history.rs:181-209 | Labels are exactly those observed, each once |
| `Dispositions.CollectingIsLastWriter` | crates/context/src/frozen.rs:559-787 | Collecting succeeds exactly when every event resolves, the k-th event of each reference carries version k and at most 64 references are in play; the result is then, in reference order, the last decision on every reference |
| `Dispositions.CollectProjectChatDispositions` | crates/context/src/frozen.rs:523-791 | The replay loop computes that fold |
| `ChatFreeze.FreshlyFrozenIsCurrent` | crates/context/src/frozen.rs:1130-1309 | When a project and namespace have one conversation and drafts are filed with their conversation, a freshly frozen chat is current |
| `ChatFreeze.FreshlyFrozenIsCurrentIff` | crates/context/src/frozen.rs:914-939 | In any tables, a freshly frozen chat is current exactly when every attached draft belongs to the chat's own conversation, which the freeze never asks; otherwise the check ends in an error |
| `ChatFreeze.ForeignDraftIsAnError` | crates/context/src/frozen.rs:914-939 | The failing case, which the table constraints rule out: a draft filed with another conversation freezes, and asking whether the chat is current is an error |
| `ChatFreeze.FrozenContext.Augment` | crates/context/src/frozen.rs:1130-1309 | The freeze, check by check in order: anchor, attached documents, drafts added as sources, target, decisions, eligibility; the context only grows |
| `ChatFreeze.FrozenContext.CheckSources` | crates/context/src/frozen.rs:1154-1183 | Each attached document is current, attached once and in the frozen context, or the first refusal |
| `ChatFreeze.FrozenContext.AddDrafts` | crates/context/src/frozen.rs:1185-1262 | Each draft is pending at the requested version and head, attached once, and becomes a source of its own, or the first refusal |
| `ChatFreeze.LaterDecisionsStaleIff` | crates/context/src/frozen.rs:914-939 | With documents and drafts unchanged, later accepted decisions make the chat stale exactly when a superseded or new decision is in its scope |
| `Dispositions.LaterProjectionEqualIff` | crates/context/src/frozen.rs:489-517 | Two projections of one growing log are equal exactly when no reference in scope was superseded or first decided in between |
| `Dispositions.ProjectionsEqualIff` | crates/context/src/frozen.rs:489-517 | Two scoped projections are equal exactly when they answer every reference alike |
| `ChatFreeze.ProjectChatBasisIsCurrent` | crates/context/src/frozen.rs:914-939 | Heads are compared in order, drafts within their conversation, then the decisions are replayed; the first difference or unreadable row decides |
| `Dispositions.CollectedValidatesIff` | crates/context/src/frozen.rs:941-1079 | A freshly collected projection passes the frozen validation exactly when every projected event carries a rationale |
| `Dispositions.MissingRationaleFailsValidation` | crates/context/src/frozen.rs:941-1079 | A concrete imported event: it is collected, and the validation of the frozen chat refuses it |
| `Packing.PackingIsFirstFailure` | crates/context/src/packet.rs:896-976 | The loop stops at a position exactly when every candidate up to it was built and fits and the next does not: a source-order, block-order prefix, for any cost function |
| `Packing.LargerBudgetExtends` | crates/context/src/packet.rs:896-976 | A larger budget never stops earlier |
| `Packing.LargerBudgetKeepsBlocks` | crates/context/src/packet.rs:896-976 | It keeps at least the blocks of every source that a smaller one kept |
| `Packing.SelectionIsBlockPrefixes` | crates/context/src/packet.rs:922-940 | The selection holds the mandatory sources and, for each optional source, its first blocks, and nothing else |
| `Packing.SelectionHandlesDistinct` | crates/context/src/packet.rs:922-940 | No source appears twice |
| `Packing.EveryBlockIsAccountedFor` | crates/context/src/packet/support.rs:441-470 | Selected blocks and the receipt's omissions add up to every block of every optional source |
| `Packing.FinalPacketIsLastAccepted` | crates/context/src/packet.rs:977-991 | The packet finally built is the last accepted candidate, or the base packet |
| `Packing.PackBlocks` | crates/context/src/packet.rs:896-991 | The nested loops return the packet, selection and omissions of the position where packing stops, or the first build error |
| `PacketSources.PlanSucceedsIff` | crates/context/src/packet.rs:517-675 | A packet's sources are planned exactly when pins and reads are well formed, the whole manifest evaluates and nothing pinned rests on a directory-only source: the second evaluation and the missing-read check never refuse |
| `PacketSources.PlanPartitions` | crates/context/src/packet.rs:601-690 | Every manifest source is exactly one of mandatory, optional or directory-only (or, in a workshop request, left out), and the mandatory ones are exactly the target, the pins and all they depend on |
| `PacketSources.PlanIsPlanned` | crates/context/src/packet.rs:601-690 | An accepted plan orders exactly the manifest, target first, nothing twice; its closure is exactly what the target and the pins reach, with text in every source |
| `PacketSources.PinnedEvidenceSurvives` | crates/context/src/packet.rs:578-587 | Wherever packing stops, for any budget and cost function, the target, every pin and everything they depend on are in the packet whole, and no other source is |
| `PacketSources.StageIsDistinct` | crates/context/src/packet.rs:613-690 | The stage handed to the block loop never repeats a source, so the loop's assumption always holds |
| `PacketSources.PlanSources` | crates/context/src/packet.rs:517-675 | The compiler's source selection, check by check in order |
| `PacketSources.MandatoryHandles` | crates/context/src/packet/support.rs:300-331 | The target and the pins, exactly when no pin repeats and none names the target; otherwise the first refusal |
| `PacketSources.ResolveSources` | crates/context/src/packet/serialization.rs:1031-1108 | Accepts exactly the reads that cover the manifest, each source exactly, canonically and once; otherwise the first refusal |
| `PacketSources.StableSourceOrder` | crates/context/src/packet/support.rs:353-374 | The loops yield the stable order |
| `PacketSources.StableOrderIsExact` | crates/context/src/packet/support.rs:353-374 | That order starts with the target and the pinned evidence, repeats nothing, and holds exactly the eligible handles |
| `LookupSources.FromExchanges` | crates/context/src/lookup.rs:373-440 | The fill-and-drain loops project exactly the returned sources onto the manifest, or refuse evidence from outside it |
| `LookupSources.ProjectionIsExact` | crates/context/src/lookup.rs:373-440 | The projection names each returned source of the manifest once and nothing else |
| `Paging.PagesConcatenate` | crates/context/src/memory_lookup.rs:348-360 | Following next_offset from zero terminates and returns the whole result in order exactly when its last needed offset is within the cap; otherwise it is refused |
| `Paging.LastResultOutOfReach` | crates/context/src/memory_lookup.rs:348-360 | The failing case: of 100,021 results in pages of 20 the last is refused, of 100,020 none |
| `Paging.PageIsSlice` | crates/context/src/memory_lookup.rs:348-360 | A page is the slice from its offset, with a next offset exactly when something is left |
| `Catalog.CatalogIsExact` | crates/context/src/memory_lookup.rs:271-295 | Of any list of occurrences, exactly one candidate an identity, taken from its first occurrence, in order of first occurrence, with its labels distinct and as first seen |
| `Catalog.MemoryIsCatalogued` | crates/context/src/memory_lookup.rs:154-295 | The catalog of a memory: every shown record that names an entity of the kind, and nothing else, is an occurrence; they are taken in source, family, set and record order; the candidates are their first occurrences |
| `HistoryPages.HistoryPagesConcatenate` | crates/context/src/memory_lookup.rs:60-117 | Following next_offset through a history reads every observation once and in order, with the whole history's labels and markers on each page, exactly when the last needed offset is within the cap |
| `HistoryPages.ReadPossessionHistory` | crates/context/src/memory_lookup.rs:97-115 | One page of the possession history, or the first refusal: request, query, bounds, count |
| `HistoryPages.ReadKnowledgeHistory` | crates/context/src/memory_lookup.rs:60-78 | One page of the knowledge history, likewise |
| `HistoryPages.ReadPromiseHistory` | crates/context/src/memory_lookup.rs:79-96 | One page of the promise history, likewise |
| `Catalog.CatalogIdsDistinct` | crates/context/src/memory_lookup.rs:271-295 | No identity is catalogued twice |
| `Catalog.Builder.AddEntity` | crates/context/src/memory_lookup.rs:271-295 | A known identity gains a label once, a new one opens a candidate; index and list stay consistent |
| `Catalog.CollectEntities` | crates/context/src/memory_lookup.rs:154-270 | The collection loop yields the specified catalog |
| `Catalog.EntityPagesConcatenate` | crates/context/src/memory_lookup.rs:120-153 | Entity pages concatenate to every matching entity once, in catalog order |
| `Catalog.CatalogIsIndependent` | crates/context/src/memory_lookup.rs:154-270 | A restricted catalog never depends on private records, although records are numbered before the projection |
| `FirstSeen.PushAllIsFirstSeen` | crates/context/src/memory_lookup.rs:271-295 | Pushing keeps each value once, loses none, and keeps first-seen order |
| `Rewriter.MarkOmitted` | crates/bindings/src/lib.rs:491-520 | The in-place loop ends and returns the text with a question mark before the colon of every boundary-preceded bare field and nothing else changed |
| `Rewriter.MarkedHasNoField` | crates/bindings/src/lib.rs:491-520 | No bare field of that name is left |
| `Rewriter.MarkingIsIdempotent` | crates/bindings/src/lib.rs:491-520 | Marking twice is marking once |
| `AbsentFields.MarkAbsent` | crates/bindings/src/lib.rs:524-583 | The in-place loop ends and equals the cursor-driven rewriting |
| `AbsentTheorem.RewritingIsPositional` | crates/bindings/src/lib.rs:524-583 | On every text the result is the original with each field marked at its colon and, for each field, one null of those its own type ends with dropped: the last when it ends there alone, the next from the end for each further field whose type ends with it; all other characters are copied |
| `AbsentTwice.EveryFieldOptional` | crates/bindings/src/lib.rs:524-583 | After rewriting any text, every field of that name carries its question mark |
| `AbsentAgain.RewritingIsIdempotentIff` | crates/bindings/src/lib.rs:524-583 | On every text, rewriting twice is rewriting once exactly when no type ends with more nulls than there are fields whose types end there |
| `AbsentAgain.SingleNullsAreIdempotent` | crates/bindings/src/lib.rs:524-583 | In particular when no field's type ends in a doubled null |
| `AbsentAgain.DoubledNullIsHalved` | crates/bindings/src/lib.rs:573-580 | A concrete text with a doubled null: the second pass changes it again |
| `AbsentAgain.SharedNullsBothGo` | crates/bindings/src/lib.rs:573-580 | A concrete text in which two fields that end together take a null each, so that one pass is enough |
| `AbsentAgain.NullsGoneIff` | crates/bindings/src/lib.rs:524-583 | One pass leaves no field whose type ends in a null under the same condition |
| `OuterNulls.RewritingKeepsOuter` | crates/bindings/src/lib.rs:548-580 | Rewriting what a type holds leaves the type a trailing null exactly when it ended with more nulls than there are fields in it whose types end there |
| `NullDeletion.EndDeleted` | crates/bindings/src/lib.rs:548-567 | Dropping a nested null moves the end of an enclosing type by exactly its seven characters |
| `NullDeletion.FieldsBefore` | crates/bindings/src/lib.rs:524-583 | Dropping a null neither adds nor removes a field before it |

## Left out

- SQLite, JSON encoding, clocks and generated ids: the tables are fields of a class, ids and
  compiled packets are inputs, and a failed statement is a refused insertion. The uncertain
  outcome of a failed commit is not modelled.
- DiscussionStore.Tables.StartDiscussion: does not model sessions and leases in the access check, the
  scope and feedback checks of a start request, thread titles, drafts, and links between runs; an
  accepted start carries its frozen packet.
- Uniqueness of packet ids across runs: a chain checks its own.
- DiscussionStore.Tables.SettleProviderDiscussion: does not model app-server delivery
  acknowledgements, for `crates/conversation/src/discussions/app_server.rs` is not part of this model;
  stdin and HTTP delivery evidence is.
- DiscussionStore.Tables.RecoverInterruptedDiscussions: does not hold the lookup rows stopped in the
  same transaction; `ProjectAudit.RecoverProject` has both.
- LookupReplay.ReachableReplay: executing a read is a parameter, and so are which results count as
  unavailable and which of those are bounded; that a read's truncation flag is the negation of its
  coverage is left to execution.
- The session and scope checks of a lookup start, and the snapshot and policy clauses the auditors
  check of packets and frozen stories on their own.
- `pending_reads` and `read_summary` of the lookup tables.
- Histories.SharedKeyReveals: does not cover sets whose shown observations coincide, nor sets that
  no withheld records could be put into.
- The tables that name which fields to rewrite and the camel-casing of field names: the rewriters
  are modelled for one key at a time, on characters.
- Packing.PackBlocks: which summaries and views an earlier stage delivered, and the serialized text,
  are inputs; the attempt to send everything, the conversation prefix, and the scope and budget
  checks of a packet request are not modelled.
- PacketSources.ResolveSources: a read's body is canonical or not as an input, and the checks of
  views, reviewed sets and lookup evidence made at its end are not part of it.
- The record-level checks on reviewed evidence, knowledge and promises are a predicate; so are the
  checks of a frozen chat other than its decisions.
- The canonical body behind a trusted memory source; passages are inputs.
- Search works on characters and byte-length offset maps; offsets are below 2^32, so the checked
  conversions of the source never fail.
- ChatFreeze.FrozenContext.Augment: the conversation turns selected at its end, and the body checks
  behind an intact document and a blank anchor, are not modelled; the verdict of the eligibility
  kernel and the revision a draft is checkpointed as are inputs.
- Dispositions.CollectProjectChatDispositions: a decision's version is kept as a number, which a
  canonical decimal determines.
- The branches of the walk for an unknown source or an unknown dependency cannot be reached once the
  descriptors pass (`Eligibility.AcceptedTables`); they stay in `SourceGraph`, on any graph.
- Background work, conversation turn selection, response contracts, navigation and guidance
  validation, commands, output files and the frontend: each branch is settled by reading it.
