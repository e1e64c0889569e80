# AtMem: a verified model of the governed memory engine

AtMem keeps records about a subject, logs every change in an append-only audit log, checks the record table
against that log, delivers context to an agent in three guarded steps, forms typed memory from episodes, and
guards an agent's actions. This project models the parts of the system whose correctness spans several
operations and proves what they promise over every run, every input or every interleaving.

`dafny verify dfyconfig.toml` checks all of it.

## Overview

| files | what they model |
|---|---|
| `Records`, `AuditLog`, `Operations`, `MemoryEngine` | record rows, the event log and its verifier, the nine lifecycle operations as functions and as an object updated in place |
| `Lifecycle`, `Consolidation`, `Runs`, `Generations`, `Protection`, `Taint` | invariants and whole-run theorems of the lifecycle |
| `Admissions`, `Outcomes` | when each operation succeeds and exactly what it leaves |
| `Delivery`, `DeliveryEngine`, `DeliveryTheorems`, `DeliveryConditions`, `DeliveryExclusion` | candidate set, prepared context, confirmed exposure, interleaved with any lifecycle operation |
| `TypedSlots`, `TypedSlotEngine`, `TypedSlotTheorems`, `SlotDecisions`, `ObservationAudit` | typed observations that arrive out of order, and what the verifier makes of them |
| `Formation`, `Coverage` | resumable episode formation and the coverage sweep |
| `Ranking`, `Recall` | rank fusion, the recall block and the context pack |
| `Locks`, `LockEngine`, `LockTheorems`, `LockReplies` | the process-reentrant shared/exclusive file lock |
| `GuardResults`, `Guard`, `GuardSessions`, `GuardEngine`, `GuardTheorems`, `GuardEvidence` | the action guard |
| `TraceLinks`, `Trace` | trace expansion |
| `StandingFacts`, `ProfileSelection` | quote-checked fact formation for arbitrary model answers |
| `Wrappers`, `Sequences` | optional values, raised errors, sequences without repetition and their order |

The lifecycle operations, the delivery protocol, typed observations, the lock and the guard exist twice: as functions on values,
about which the theorems are proved, and as classes with loops and fields updated in place, whose methods are
proved equal to those functions.

### How the model reads the code

- One transaction is one step. A raised error is an `Err` result and leaves the state unchanged.
- Record ids are natural numbers ordered like their text, timestamps are integers, scores are exact rationals,
  and a digest is the value it digests, so it is injective.
- Regular expressions, Unicode case mapping, content screening, JSON text and the wording of identifiers are
  function parameters (`Policy`, `Classifier`, `Reader`, `Text`, `Schema`); clocks, fresh ids, descriptors,
  model answers and rankings are arguments.
- The store's SQL is modelled by the row mutations it performs (`supersede_records`, `tombstone_records`,
  `promote_record`) and by the ordered queries the operations use.
- Each subject has its own ledger of rows, events and admitted proposals. The store looks an idempotency key up
  by workspace, agent and key across subjects; the model looks it up within the subject of the proposal.

### Where the code does less than a reader might expect

- Promotion does change the trust tier: the store writes `user_confirmed` (`Taint.PromotionRaisesTier`,
  `Taint.UntrustedBecomesConfirmed`).
- A fact key that is the empty string is no slot: every query and every repair skips it
  (`atmem/store/sqlite.py:3569`), so uniqueness is about non-empty keys.
- Out-of-order convergence holds for atomic facts and fails for the two payload kinds that name an `entity`
  instead of a `subject`: the reconciler compares the stored holder with the missing `subject`, so nothing
  matches and every such observation stays active (`TypedSlotTheorems.ConvergesExactlyForAtomicFacts`,
  `TypedSlotTheorems.TwoTransitionsStayActive`).
- An extraction that displaces a committed row fails integrity verification afterwards, because its event lists
  the displaced rows under a key the verifier does not read
  (`ObservationAudit.MixedRunsVerifyExactly`, `ObservationAudit.ExtractionCanFailVerification`).
- Rounding fused scores to six decimals keeps the direct order for up to 4450 candidates and can flip it from
  4451 on (`Ranking.DirectOrderBound`).
- Confirmation does not look at retrieval exclusions again, and excluding a record does not change the record
  generation: a record excluded after its preparation is still exposed
  (`DeliveryExclusion.ExposedThoughExcludedExactly`, `DeliveryExclusion.ExcludedIsStillExposed`).
- A repeated confirmation id is answered from the stored exposure with the scope the repetition names.
- The shortlist loop of `select_profile` makes progress for all capped models exactly when the cap is smaller
  than the batch (`ProfileSelection.ShrinksExactly`); the code does not truncate answers, and a model that returns
  everything it was offered keeps it going for ever (`ProfileSelection.EchoedRoundStalls`).

## Model

| member | source | states |
|---|---|---|
| `AuditLog.VerifyRecordIntegrity` | atmem/memory.py:5302-5401 | checking starts with the first committed row; the failures are exactly the standing rows that are gone or differ from their last commitment and the live rows no event names, read off the events; valid if and only if there is none |
| `AuditLog.SummaryExactly` | atmem/memory.py:5314-5351 | for every log: a row is committed exactly when some creation or quarantine event commits to it, with the commitment of the last such event; it is changed exactly when some event lists it as superseded, purged, duplicate or repaired, promotes or rejects it, or replaces it; it is known exactly when some event names it |
| `AuditLog.ReadLog` | atmem/memory.py:5310-5351 | the loop over the log collects the last commitment per record, the known ids and the legitimately changed ids |
| `AuditLog.CheckCommitted` | atmem/memory.py:5366-5384 | the pass over committed rows finds all and only missing or altered protected rows |
| `Runs.RunSound` | atmem/memory.py:3177-3456 | every run keeps log and rows in agreement, one active row per slot, and well-formed rows |
| `Runs.LegitimateRunsVerify` | atmem/memory.py:5302-5401 | every run of the nine lifecycle operations passes the verifier |
| `Protection.ProtectedExactly` | atmem/memory.py:5314-5339 | in every run the verifier protects exactly the rows that remember, propose_facts or correct_record inserted and that no operation has promoted, rejected, purged, superseded or corrected since |
| `Protection.CommittedExactly` | atmem/memory.py:3396-3423 | in every run a row is committed exactly when one of these operations inserted it, with the status it was inserted with; a submitted proposal is not |
| `Protection.TamperEvidence` | atmem/memory.py:5302-5401 | with the log of any run, the verifier accepts a table if and only if no such row was ever inserted, or no untouched one of them was edited in a committed column or deleted and no live row was added |
| `Runs.UniqueFactSlots` | atmem/memory.py:3367-3392 | in every reachable state two active rows with the same non-empty fact key are the same row |
| `Runs.TombstonesAreFinal` | atmem/store/sqlite.py:3831-3860 | a tombstoned row never changes again, in any continuation |
| `Runs.OnlyPromotionActivates` | atmem/memory.py:4917-4981 | a quarantined row that later is active or superseded was promoted by name in between |
| `Runs.StepSound` | atmem/memory.py:128-146 | one step, successful or rolled back, keeps the invariant and makes only governed transitions |
| `Lifecycle.RememberSound` | atmem/memory.py:3177-3456 | remembering keeps the invariant and only adds unlabelled rows and retires active ones |
| `Lifecycle.ProposeAllSound` | atmem/memory.py:4736-4837 | the proposal loop keeps the invariant for any drafts |
| `Lifecycle.SubmitSound` | atmem/memory.py:492-749 | admission, duplicate, refusal and replay keep the invariant and inherit labels |
| `Lifecycle.CorrectSound` | atmem/memory.py:3942-3995 | correction keeps the invariant |
| `Lifecycle.PurgeSound` | atmem/memory.py:4303-4330 | purging rows that the event lists keeps the invariant |
| `Admissions.RememberOneExactly` | atmem/memory.py:3345-3423 | one candidate: when it succeeds, when it is ignored (the oldest row of the same wording is noted), and otherwise every field of the new row, the rows of its slot it retires, and the event that commits to it |
| `Admissions.MessageIsKept` | atmem/memory.py:3343-3366 | every candidate of a message is stored or noted as a duplicate, by its own event and in order, and nothing else is stored |
| `Admissions.InterpretationExactly` | atmem/memory.py:3177-3366 | a host interpretation succeeds if and only if its tier is the trusted user, it has at most 2000 characters, and an active row says the same or its id is new; in the first case it is only noted, in the second stored |
| `Admissions.ProposalsAreExplained` | atmem/memory.py:4755-4830 | every draft is a quarantined derived row with its own content, or lacks content or known evidence, or is already known; no other row changes |
| `Admissions.SubmissionLeaves` | atmem/memory.py:566-749 | what a first submission leaves, field by field: a new row exactly when the proposal is neither refused nor known, with its content, canonical key, scope, related ids, sensitivity, tier, origin and exactly the inherited and origin labels; the recorded decision is Rejected, Duplicate, Admitted, Conflict or Review, each by its own condition |
| `Admissions.SubmissionSucceedsExactly` | atmem/memory.py:492-560 | a submission succeeds if and only if its digest key matches, a known key comes with the same payload, and a new one has bound sources, related records in scope and, to be stored, a free id |
| `Admissions.SlotsAreSeparate` | atmem/memory.py:503-509 | two proposals share an idempotency slot exactly when workspace, agent and key agree |
| `Outcomes.ForgetIsExact` | atmem/memory.py:4039-4113 | `forget` purges exactly the live rows that mention the text, so that no live row mentions it, and changes no other row; asked to forget nothing it changes none |
| `Outcomes.PurgingOneIsExact` | atmem/memory.py:3997-4037 | forgetting one record succeeds exactly on a live row, rejecting exactly on a quarantined one, and only that row is purged |
| `Outcomes.PromotionIsExact` | atmem/memory.py:4917-4981 | promotion succeeds exactly on a quarantined row; status, tier, time and typed lifecycle change and nothing else of it, the other active rows of its slot are retired in its favour, no other row changes |
| `Outcomes.OnlyRequestsTombstone` | atmem/memory.py:3997-4140 | in every run, a record that was live and later is not was purged in between by an operation that names it or text it contained |
| `Outcomes.CorrectionReplaces` | atmem/memory.py:3942-3995 | one new active, trusted, unlabelled row with the corrected text, the key of the old row or one of its own, time and origin of the call; the old row and any other active row of that slot are retired in its favour; no other row changes |
| `Outcomes.CorrectionSucceedsExactly` | atmem/memory.py:3942-3978 | a correction succeeds if and only if the record is active, the text is new, allowed and short enough, no active row says it already, and the id is free |
| `Outcomes.UnpromotedAdmissionIsEarned` | atmem/memory.py:602-671 | in every run, a submitted record that is or was active without being promoted was, when submitted, a plain addition of non-sensitive content from trusted sources with clean active parents and a free slot |
| `Outcomes.ResubmissionIsSilent` | atmem/memory.py:492-560 | after any continuation, submitting an admitted proposal again changes nothing and its key with another payload is refused |
| `Taint.TaintIsClosed` | atmem/memory.py:602-671 | in every run, a live record derived through any chain from a labelled record carries all those labels and the derivation mark |
| `Taint.LabelsArePermanent` | atmem/memory.py:4917-4981 | a live record's labels never change, promotion included |
| `Taint.LabelledNeedsPromotion` | atmem/memory.py:4936-4960 | a labelled record is or was active only if some step promoted it by name |
| `Taint.PromotionRaisesTier` | atmem/store/sqlite.py:3735-3784 | promotion keeps the labels and always changes the tier to user-confirmed |
| `Taint.UntrustedBecomesConfirmed` | atmem/store/sqlite.py:3735-3784 | a two-step run that remembers an untrusted fact, promotes it and ends with the tier raised |
| `Consolidation.ConsolidateUnique` | atmem/memory.py:4839-4915 | afterwards no two active rows share normalised content or a slot |
| `Consolidation.ConsolidateCounts` | atmem/memory.py:4894-4905 | active before = active after + duplicates + repaired, as the event lists them |
| `Consolidation.ConsolidateIdempotent` | atmem/memory.py:4839-4915 | a second pass changes no row |
| `Consolidation.ConsolidateChains` | atmem/memory.py:4865-4892 | every row the pass superseded reaches an active row through a finite chain of strictly newer keepers |
| `Consolidation.ConsolidateSound` | atmem/memory.py:4839-4915 | consolidation keeps the lifecycle invariant |
| `MemoryEngine.Memory.SupersedeRecords` | atmem/store/sqlite.py:3786-3829 | the row loop retires exactly the active rows among the given ids |
| `MemoryEngine.Memory.TombstoneRecords` | atmem/store/sqlite.py:3831-3860 | the row loop purges exactly the live rows among the given ids and reports them in order |
| `MemoryEngine.Memory.Remember` | atmem/memory.py:3177-3456 | the in-place operation takes the ledger to the step of the model, or back on an error |
| `MemoryEngine.Memory.ProposeFacts` | atmem/memory.py:4736-4837 | same, for proposed facts |
| `MemoryEngine.Memory.SubmitProposal` | atmem/memory.py:492-749 | same, for submitted proposals |
| `MemoryEngine.Memory.PromoteRecord` | atmem/memory.py:4917-4994 | same, for promotion |
| `MemoryEngine.Memory.RejectRecord` | atmem/memory.py:4996-5050 | same, for rejection |
| `MemoryEngine.Memory.CorrectRecord` | atmem/memory.py:3942-3995 | same, for correction |
| `MemoryEngine.Memory.ForgetMatching` | atmem/memory.py:4039-4140 | same, for forgetting by text |
| `MemoryEngine.Memory.ForgetOne` | atmem/memory.py:3997-4037 | same, for forgetting one record |
| `MemoryEngine.Memory.ConsolidateAll` | atmem/memory.py:4839-4915 | same, for consolidation, with both grouping passes as loops |
| `DeliveryTheorems.ExposureIsFaithful` | atmem/memory.py:3107-3174 | a fresh exposure names a preparation of its scope, made from a candidate set of that scope; every exposed record was in that set, is still active and in scope, and the context is the serialization of the current rows |
| `DeliveryTheorems.ExposedOnce` | atmem/memory.py:3107-3174 | no preparation is exposed under two confirmations |
| `DeliveryTheorems.ReplayIsSilent` | atmem/memory.py:3115-3126 | repeating a confirmation id, after any continuation, returns the stored receipt and appends no event |
| `DeliveryTheorems.WorldVerifies` | atmem/memory.py:5302-5401 | every interleaving of delivery and lifecycle steps passes the verifier, for every subject |
| `Generations.StepTracks` | atmem/store/sqlite.py:5293-5335 | the log only grows, a row that changes moves to a later status, and the generation is unchanged if and only if the rows are |
| `DeliveryTheorems.ContextFits` | atmem/memory.py:3012-3105 | a prepared context fits its budget whenever the bare frame does |
| `DeliveryTheorems.UndisturbedDeliverySucceeds` | atmem/memory.py:3107-3174 | if nothing changes in between, nominating an eligible record, preparing it and confirming the prepared text within the two lifetimes always succeeds, confirming any other text fails, and the context holds the record exactly when its block fits the budget |
| `DeliveryConditions.CreatesExactly` | atmem/memory.py:2594-2643 | in every run, creating a candidate set succeeds if and only if its id is new and every record first named within the window exists, is not excluded, has an allowed status, is in scope, is not sensitive or restricted for a remote request, and reads as supplied |
| `DeliveryConditions.CandidatesExactly` | atmem/memory.py:2655-2683 | the candidates are nominated records that the ranker returned, at most as many as the limit, and below the limit all of them |
| `DeliveryConditions.NominatedInOrder` | atmem/memory.py:2595-2602 | the ranker is given the nominated records once each, in the order of first mention |
| `DeliveryConditions.PreparesExactly` | atmem/memory.py:3012-3048 | in every run, a preparation succeeds if and only if its id is new and some candidate set was created for the same scope at most 300 seconds before, no row of the subject has changed since, and every requested record is a candidate, active and not excluded |
| `DeliveryConditions.ConfirmsExactly` | atmem/memory.py:3107-3174 | in every run, a confirmation yields a fresh receipt if and only if its id is new and its preparation was made for the same scope at most 120 seconds before, is not exposed yet, produced exactly this text, and no row of the subject has changed since; it is a replay if and only if its id was confirmed before |
| `DeliveryConditions.AcceptedIsLongest` | atmem/memory.py:3040-3064 | a context takes the requested records once each, in order of first mention, and as many as fit: with the next one it would exceed the budget |
| `DeliveryConditions.ContextReads` | atmem/memory.py:3049-3066 | header, the blocks of the records in order, footer |
| `DeliveryConditions.ReceiptIs` | atmem/memory.py:3145-3174 | a fresh receipt names the confirmation, scope, text and time and points at the event that lists the exposed records |
| `DeliveryExclusion.ExposedThoughExcludedExactly` | atmem/memory.py:3107-3174 | a freshly exposed record is excluded from retrieval at that moment if and only if it was excluded, and not restored, after its preparation |
| `DeliveryExclusion.ExcludedIsStillExposed` | atmem/store/sqlite.py:1484-1510 | from any world, nominate, prepare, exclude, confirm: the confirmation succeeds although the record is excluded, and the exposed context is that record exactly when its block fits the budget |
| `DeliveryExclusion.ExcludesExactly` | atmem/memory.py:3902-3940 | excluding and restoring work on one active record of one subject and do nothing on any other |
| `DeliveryEngine.Protocol.CreateCandidateSet` | atmem/memory.py:2604-2643 | the in-place step is the step of the model, with the same verdict |
| `DeliveryEngine.Protocol.PrepareContext` | atmem/memory.py:3012-3105 | same, for preparation |
| `DeliveryEngine.Protocol.ConfirmExposure` | atmem/memory.py:3107-3174 | same, for confirmation |
| `DeliveryEngine.PackBlocks` | atmem/memory.py:3049-3064 | the packing loop takes records in order until the first that does not fit |
| `TypedSlotTheorems.Convergence` | atmem/memory.py:1178-1220 | for clean, timed, trusted atomic facts in any arrival order, every observation is stored and exactly the latest of each slot is active, after every step |
| `TypedSlotTheorems.OneActivePerSlot` | atmem/memory.py:1352-1472 | of the observations of one slot exactly one is active, and it is the one with the latest time |
| `TypedSlotTheorems.LateArrival` | atmem/memory.py:1410-1433 | on an empty store, a late older observation is kept as superseded history and the newer one stays active |
| `TypedSlotTheorems.OrderDoesNotMatter` | atmem/memory.py:1178-1220 | two arrival orders of the same observations leave each in the same status |
| `TypedSlotTheorems.ConvergesExactlyForAtomicFacts` | atmem/memory.py:1134-1165 | two or more observations of one slot and kind end with at most one active row if and only if the kind is the atomic fact |
| `TypedSlotTheorems.EntitiesAllStayActive` | atmem/extract/models.py:87-111 | observations of an entity all stay active, however many share the slot |
| `TypedSlotTheorems.TwoTransitionsStayActive` | atmem/memory.py:1134-1165 | two transitions of one entity, observed in order on an empty store, end with two active rows of one slot |
| `SlotDecisions.MatchesExactly` | atmem/memory.py:1080-1175 | the current values of a slot, spelled out on the rows: who may supersede, how a row is found, and when it is about the same holder and relation within the authority of the scope |
| `SlotDecisions.OutcomeExactly` | atmem/memory.py:892-945 | each of the four outcomes of an observation if and only if its own guards hold; without a commit no row changes |
| `SlotDecisions.CommitLeaves` | atmem/memory.py:1249-1472 | what a commit leaves, field by field: a suspect observation is quarantined and labelled, a current one retires every value it replaces, a late one is retired at once and retires nothing |
| `ObservationAudit.MixedRunsVerifyExactly` | atmem/memory.py:5302-5401 | after any run that mixes lifecycle operations and observations, the verifier accepts if and only if no event commits to a row that an observation displaced, or some event reports a change of it |
| `ObservationAudit.ObservationVerifiesExactly` | atmem/memory.py:988-1020 | the same for one observation from an intact ledger, in terms of its guards before the call |
| `ObservationAudit.ExtractionCanFailVerification` | atmem/memory.py:5334-5339 | a two-step run after which the verifier reports a failure |
| `ObservationAudit.ForgettingRepairs` | atmem/memory.py:3997-4037 | after forgetting a live record the verifier accepts if and only if every displaced protected row of the run is that record |
| `TypedSlotEngine.Reconcile` | atmem/memory.py:1069-1220 | the loop over candidate rows finds exactly the current rows of the slot, whether the observation is older than one of them, and whether one has another kind |
| `TypedSlotEngine.SlotStore.Observe` | atmem/memory.py:751-1067 | the in-place operation is the observation step of the model, with the same outcome |
| `TypedSlotEngine.SlotStore.CommitRow` | atmem/memory.py:1249-1472 | insert, then retire either the late row itself or the rows it replaces, and log it |
| `Formation.FormEpisode` | atmem/memory.py:1604-1640 | the nested loops submit the first wanted proposals up to the budget, defer the rest, and tally the receipt |
| `Formation.ResumingConservesWork` | atmem/memory.py:1911-1929 | after any number of calls the first min(N, sum of budgets) proposals were submitted, each once and in order; admitted + withheld + rejected = N, admitted counts committed or unchanged ones, and processing is complete exactly when the budgets cover N |
| `Formation.ConstantBudget` | atmem/memory.py:1817-1838 | with budget B, j calls submit min(N, j * B), and completion comes at call max(1, ceil(N / B)) |
| `Coverage.Unrepresented` | atmem/memory.py:1794-1816 | ranges ascend without overlap, avoid every span, hold an alphanumeric character each, and contain every alphanumeric character outside all spans; without proposals the whole part is reported |
| `Coverage.ExactlyOneRange` | atmem/memory.py:1801-1816 | an alphanumeric character lies in a range exactly when it lies in no span, and then in exactly one |
| `Ranking.BlendIsSortedPermutation` | atmem/memory.py:5654-5694 | the fused ranking is a permutation of the rescored input in descending score |
| `Ranking.GraphRankIsPosition` | atmem/memory.py:5697-5709 | the rank used is the position in the enumeration by descending score and id |
| `Ranking.ScoreRange` | atmem/memory.py:5664-5682 | every unrounded score is in (0, 1], and 1 exactly at rank 1 of both rankings with full strength |
| `Ranking.FusedExactly` | atmem/memory.py:5664-5682 | the unrounded score without fractions: the direct rank counts once, the graph rank twice and by the strength of the evidence |
| `Ranking.RoundNear` | atmem/memory.py:5682-5684 | scores are rounded to the nearest, and halves to the even one |
| `Ranking.DirectOrderExactly` | atmem/memory.py:5666-5694 | for any number of candidates, of two records without graph evidence the directly first one stays first if and only if the rounded scores differ or it wins the tie-break by age and id |
| `Ranking.DirectOrderBound` | atmem/memory.py:5682-5694 | no input of n candidates reorders such records if and only if n is at most 4450 |
| `Recall.Pack` | atmem/memory.py:4503-4518 | the loop returns the longest run of not-excluded records that fits both budgets |
| `Recall.FetchingMoreIsEnough` | atmem/memory.py:4482-4500 | fetching max_records + excluded and then excluding packs the same block as excluding from the full ranking |
| `Recall.BuildBlock` | atmem/memory.py:4457-4518 | the block built from the bounded fetch is the one of the full ranking, within both budgets |
| `Recall.BuildContextPack` | atmem/memory.py:4617-4659 | persona and recall ids are disjoint, each part is the longest that fits, negative budgets are refused |
| `LockTheorems.MutualExclusion` | atmem/locking.py:133-201 | in every reachable state, a handle that holds a file exclusively shares it only with handles acquired by the same thread of the same process |
| `LockTheorems.TableMatchesHandlesAndKernel` | atmem/locking.py:139-201 | references equal the number of handles carrying the key, and the kernel holds each lock in the recorded mode exactly while its entry exists |
| `LockTheorems.NoLostWakeup` | atmem/locking.py:139-157 | a waiting thread that was not notified faces an existing exclusive entry owned by another thread, carried by some handle |
| `LockTheorems.LastCloseWakes` | atmem/locking.py:184-201 | closing the last holder notifies every thread waiting for that lock |
| `LockTheorems.RefusedLeavesNoTrace` | atmem/locking.py:139-176 | dropping a refused acquisition from a run changes nothing that follows |
| `LockTheorems.AcquireThenClose` | atmem/locking.py:133-201 | closing right after a successful acquisition restores the table and the kernel |
| `LockTheorems.RunInv` | atmem/locking.py:133-201 | the lock invariant holds after every sequence of steps of all processes and threads |
| `LockReplies.AcquireExactly` | atmem/locking.py:133-182 | in every reachable state, the exact reply to an acquisition and what it leaves, on the handles that hold locks alone: granted, waiting, blocked, and each reason to refuse, by its own condition |
| `LockReplies.ResumeExactly` | atmem/locking.py:143-157 | a woken thread gets the same answer as one that asks anew |
| `LockReplies.ExclusiveIsReentrant` | atmem/locking.py:148-161 | in every reachable state, a thread that holds a path exclusively is granted another exclusive handle on it, and the references rise by one |
| `LockReplies.CloseExactly` | atmem/locking.py:184-201 | closing always succeeds; the entry goes with the last holder, and exactly then the waiting threads of the process are notified |
| `LockEngine.ProcessFileLock.Acquire` | atmem/locking.py:133-182 | the guarded section on the shared objects is the step of the model |
| `LockEngine.ProcessFileLock.Close` | atmem/locking.py:184-201 | same, for closing, with the wake-up of the process |
| `GuardResults.AcceptedExactly` | atmem/action_guard.py:335-356 | a result is accepted exactly when it is an object the host did not reject, nothing at most four levels down reports failure, and something at most four levels down affirms success |
| `GuardResults.StatusExactly` | atmem/action_guard.py:335-356 | every status by an if and only if on the raw result: a host rejection is undispatched; a failure at most four levels down, or in the text of a result that is no object, is failed; an affirmation without failure is accepted; all else is unconfirmed |
| `GuardResults.FailingExactly` | atmem/action_guard.py:347-350 | the marks of failure in a result object |
| `GuardResults.AffirmsExactly` | atmem/action_guard.py:351-355 | the marks of success in a result object |
| `GuardResults.ChildrenExactly` | atmem/action_guard.py:322-332 | a nested object may stand under result, under structuredContent, or in a text item of content |
| `GuardResults.LayersAreNested` | atmem/action_guard.py:313-332 | the layers are exactly the objects reachable within the depth limit |
| `GuardResults.CallStatusExactly` | atmem/action_guard.py:359-369 | every status of every call on the raw result: with one item per call each is judged by its own item; otherwise the whole result speaks, and several calls cannot be accepted by it |
| `GuardResults.UnwrapWrapped` | atmem/action_guard.py:114-126 | unwrapping a wrapped batch gives the batch back |
| `GuardResults.UnwrapExactly` | atmem/action_guard.py:114-126 | only a wrapper is opened: by its list of calls, else by the call it names as text, else not |
| `GuardResults.CallsOfExactly` | atmem/action_guard.py:114-126 | the calls of a batch are those of its objects, in order; a name that is no text is an error |
| `GuardTheorems.OutcomesFollowHistory` | atmem/action_guard.py:472-487 | an operation is recorded exactly when dispatched, accepted exactly when some reply for it was accepted, and otherwise shows its last dispatched reply |
| `GuardTheorems.VerdictFollowsHistory` | atmem/action_guard.py:489-522 | every verdict is the stated function of the request and the replies of the turn |
| `GuardTheorems.CompletedExactly` | atmem/action_guard.py:489-522 | "completed" exactly when an action was requested, the route is not explicitly local, an accepted write fits the destinations and every dispatched operation has an accepted reply |
| `GuardTheorems.VerdictNames` | atmem/action_guard.py:489-522 | the tools each verdict names; partial success names exactly the tools of the operations left open |
| `GuardEvidence.CompletedFromResults` | atmem/action_guard.py:472-522 | from raw calls and raw results: "completed" exactly when an action was requested, the route is not explicitly local, the raw evidence for some write to a requested destination affirms success, and for every operation with a call that was not rejected by the host the evidence for some call of it does |
| `GuardEvidence.VerdictFromResults` | atmem/action_guard.py:472-522 | every verdict and every reason, from the request, the raw calls and the raw results alone |
| `GuardTheorems.HoldsAreBounded` | atmem/action_guard.py:585-628 | a turn never has more than max_blocks holds and holds each tool at most once at the checkpoint |
| `GuardTheorems.DecidesExactly` | atmem/action_guard.py:585-628 | each kind of hold if and only if its own condition: a detour that a visible connected tool could take is redirected to exactly those tools, another one is held if its route is known to fail, a write is held once while memory can be searched; all within the budget |
| `GuardTheorems.HeldForTheFirst` | atmem/action_guard.py:455-470 | a wrapper is held exactly when one of its calls is, and for the first such call |
| `GuardTheorems.VisibleExactly` | atmem/action_guard.py:452-453 | a turn sees the tools it began with and all that became visible since |
| `GuardTheorems.AttemptsAreAllowedWrites` | atmem/action_guard.py:455-470 | the attempts of a turn are exactly the writes of the wrappers that were let through; a held wrapper records none |
| `GuardTheorems.QueriesAreAllowed` | atmem/action_guard.py:455-470 | the queries of a turn are exactly the memory searches of the wrappers that were let through |
| `GuardTheorems.ResubmissionHeldExactly` | atmem/action_guard.py:455-470 | with memory visible, a wrapper without local routes is held exactly min(unheld write tools, budget left) times and then let through |
| `GuardSessions.ResidentTurnsAreBounded` | atmem/action_guard.py:636-645 | whatever all sessions do, a resident turn stays within the hold bounds |
| `GuardSessions.SessionsAreIsolated` | atmem/action_guard.py:439-444 | serving one session never alters another resident turn, and with room the served session is resident until it is finished |
| `GuardSessions.ResidentTurnIsItsStory` | atmem/action_guard.py:439-487 | in every run of any number of sessions, a resident turn is the play of its own events since its session last began |
| `GuardSessions.OrderExactly` | atmem/action_guard.py:636-645 | the order of the resident sessions after every request, eviction included |
| `GuardSessions.EvictKeepsNewest` | atmem/action_guard.py:642-645 | eviction keeps exactly the newest sessions and their turns |
| `GuardEngine.TurnState.DecideCall` | atmem/action_guard.py:585-628 | the decision on the mutable turn is the decision of the model and marks a checkpointed tool |
| `GuardEngine.TurnState.BeforeCall` | atmem/action_guard.py:455-470 | the two loops take the turn to the model's turn |
| `GuardEngine.TurnState.AfterCall` | atmem/action_guard.py:472-487 | unwrapping the raw call, reading the statuses off the raw result and the reply loop take the turn to the model's turn |
| `GuardEngine.TurnState.Verdict` | atmem/action_guard.py:489-522 | the computed verdict is the model's verdict |
| `GuardEngine.ActionGuard.BeginTurn` | atmem/action_guard.py:439-444 | the session table after a new turn, with eviction |
| `GuardEngine.ActionGuard.StateOf` | atmem/action_guard.py:636-640 | the turn of a session, created idle when unknown |
| `GuardEngine.ActionGuard.DropOldest` | atmem/action_guard.py:642-645 | the eviction loop |
| `GuardEngine.ActionGuard.BeforeCall` | atmem/action_guard.py:455-470 | the session table after a proposed call |
| `GuardEngine.ActionGuard.AfterCall` | atmem/action_guard.py:472-487 | the session table after a raw result |
| `GuardEngine.ActionGuard.VerdictOf` | atmem/action_guard.py:489-522 | the verdict on a session, which gets an idle turn when unknown |
| `GuardEngine.ActionGuard.FinishTurn` | atmem/action_guard.py:446-450 | the session table after a turn is released |
| `TraceLinks.FreshKey` | atmem/investigate.py:570-579 | the search for a free key ends and returns the first of key, key.1, key.2, ... not in use |
| `TraceLinks.CollectLinks` | atmem/investigate.py:539-568 | keys and values are distinct, the values are exactly the identifiers anywhere in the document, and each key begins with the name of a field that holds its value |
| `Trace.Expand` | atmem/investigate.py:334-365 | every selected item is joined to a seed or a clue by a chain of shared identifiers or sessions; everything as many steps away as passes were made is selected; every pass but the last brought a new identifier, and fewer than four were made only if the last brought none |
| `Trace.FourLinksAreSelected` | atmem/investigate.py:344-365 | whether it stopped early or not, everything that at most four shared identifiers connect to a seed or a given identifier is selected |
| `Trace.ClosedIsComplete` | atmem/investigate.py:344-365 | an expansion that stopped by itself has selected everything that a chain of any length connects to a seed or a given identifier, each item linking to an identifier the one before makes known |
| `StandingFacts.NormalizeStrip` | atmem/standing_facts.py:46-47 | stripping a quote before storing it does not change how it normalises |
| `StandingFacts.Chunks` | atmem/standing_facts.py:58-67 | nothing is lost or reordered, a batch exceeds the budget only as a single message, and is closed only when the next message does not fit |
| `StandingFacts.Verify` | atmem/standing_facts.py:104-121 | exactly the supported proposals are kept, in order, each bound to the first message that has its quote |
| `StandingFacts.KeptExactly` | atmem/standing_facts.py:104-121 | a fact is kept if and only if it is a supported proposal, with its wording, quote, kind, date and message |
| `StandingFacts.Dedupe` | atmem/standing_facts.py:146-151 | one fact per normalised wording, every wording represented by its first fact |
| `StandingFacts.Extract` | atmem/standing_facts.py:124-154 | whatever the model answers, the facts are up to wording exactly the supported proposals of the answers to all batches, each bound to the first message that has its quote; they are grounded in the history, differ in normalised wording and pass the store check |
| `StandingFacts.NoFailures` | atmem/standing_facts.py:214-221 | grounded facts have no store-check failure |
| `ProfileSelection.RoundShrinks` | atmem/standing_facts.py:165-170 | if no answer names as many ids as a batch holds, a round over a larger pool leaves strictly fewer candidates, all from the pool |
| `ProfileSelection.RoundKeepsExactly` | atmem/standing_facts.py:165-170 | a round keeps exactly the ids that the answer to their own batch names, once each, in the order of the answers |
| `ProfileSelection.ShrinksExactly` | atmem/standing_facts.py:165-170 | every model capped at c strictly shrinks every pool longer than a batch if and only if c is smaller than the batch |
| `ProfileSelection.EchoedRoundStalls` | atmem/standing_facts.py:165-170 | a model that returns what it was offered leaves the pool unchanged |
| `ProfileSelection.SelectProfile` | atmem/standing_facts.py:157-180 | with answers capped below the batch size, or with a pool that fits one batch whatever the answers, the loop ends with the first pool that fits, the profile is the longest prefix of the final answer that fits, and its joined lines never exceed the limit |

## Left out

- Command line, client, dashboards, installers, launchers, scripts and examples: input/output and argument handling.
- SQL, the semantic index, the graph extractor and the hash chain of the log; graph events carry no key the verifier reads.
- Regular-expression classification, fact extraction rules, content screening and BM25 scores are parameters; floating-point rounding of scores before the final rounding is not modelled.
- Media observations and artifacts, authorized history import, review decisions on pending proposals, context preparation in its second version.
- Lineage rows and the replay of an extraction proposal that was submitted before; an observation is an `add` proposal submitted once.
- The order of several current rows of one typed slot: the model takes them in age order where the code takes them in query order, which matters only for which of them is named as predecessor.
- The `records_checked` counter of the verifier.
- Formation when bytes or time run out, or when a part has no text; only the proposal budget runs out in the model.
- Formation readiness flags derived from the store after the call.
- Deadlock freedom of the lock, forking with open handles, replacing the lock file while held, sharing one handle object between threads that acquire at the same time.
- Route memory of the guard: which routes have a recorded failure is an argument of every decision, so its bound and eviction are not modelled.
- Guard texts (turn context, reminders, completion notices). A wrapper that names a tool by something that is not text has no effective calls in the model; the code raises when it classifies that name.
- Direct-support filtering of the recall block.
- Session closure of the trace: growth of known sessions alone does not start another pass.
- Fact formation with a prior journal, and the repetition of an id within the final profile answer, which the code keeps.
- MemoryEngine.Memory.SubmitProposal: an idempotency key is looked up within one subject, not across the subjects of a workspace, because each subject has its own ledger.
- Outcomes.ResubmissionIsSilent: the same restriction to one subject.
- MemoryEngine.Memory.PromoteRecord: rows displaced through media lineage are not modelled, because media observations are left out.
- TypedSlotEngine.SlotStore.Observe: lineage rows, review decisions and the replay of a submitted proposal are not modelled.
- Formation.FormEpisode: byte and time budgets, media parts and readiness flags are not modelled.
- Recall.BuildBlock: direct-support filtering is not modelled, because it is a classifier over the query.
- GuardEngine.ActionGuard.AfterCall: the recording of failed local routes is not modelled; the known routes are an argument of every decision.
- StandingFacts.Extract: a prior journal is not modelled, because its rows are trusted as they are.
- Trace.Expand: the final sort and the limit of the timeline are not modelled.
- Ranking.DirectOrderExactly: assumes that the ranked records have distinct ids, as they come from one table.
