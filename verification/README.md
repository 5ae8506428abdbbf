# Verified model of the ticket bot's workflow and its concurrency controls

The repository turns chat messages into Jira tickets. What must not go wrong is
spread over a few components: a serializer that runs one operation at a time for
each key, a limiter for the providers, batches of messages closed by timers, a
durable workflow that creates each issue once although Jira may lose replies,
one-shot buttons, an upload loop, a credential file, and three pairs of printers
and parsers. This project models them in Dafny and proves what they keep.

Concurrent components are written twice. A *Spec* module describes the component
as a step system: a state, a set of steps (each the stretch of a coroutine
between two suspension points, or one database transaction), and an invariant
every step keeps. A class holds the same state as fields and updates it in place;
each of its methods is proved to be exactly one step (or, for the submission
service, a run of steps). Theorems quantify over all runs of the step system, so
over every interleaving, cancellation and crash.

| file | what it models |
|---|---|
| `KeyedProcessorSpec`, `KeyedProcessorQueue`, `KeyedProcessor` | the keyed serializer: chained futures, slots, admission, what bounds its queue, drain |
| `ResourceLimiterSpec`, `ResourceLimiterRuns`, `ResourceLimiter` | two-level limits, actor gates, retries, cooldown, drain |
| `IntakeSpec`, `IntakeTheorems`, `Intake` | batching with deadlines under an adversarial scheduler |
| `Fsm`, `WorkflowTables`, `WorkflowAnswers`, `WorkflowRepository` | the life cycle, the stored rows, what each transaction answers, and the repository |
| `SubmissionProtocol`, `SubmissionTheorems` | create-once submission by any number of workers against an adversarial Jira |
| `SubmissionAnswers`, `SubmissionService`, `WorkflowService`, `JiraOutcomes` | what each answer leaves, the services over the repository, and what an exchange with Jira amounts to |
| `CallbackGrammar`, `CallbackSpec`, `CallbackTheorems`, `CallbackService` | button texts, one-shot tokens, authorization |
| `AttachmentSpec`, `AttachmentUpload` | the upload loop |
| `CredentialFileSpec`, `CredentialFileCalls`, `UserStore` | the credential file: what a write does, its operating system calls, and crashes among them |
| `Timestamps`, `PythonText`, `EditableText`, `EditableExactness` | stored instants; the editable block of a template |
| `Sums`, `TextOrder`, `Wrappers` | shared helpers |

## Assumptions

- One event loop: code between two suspension points is atomic. The locks are
  never held across a suspension, so acquiring one does not suspend either.
- Each repository call is one transaction; the unique constraints, the cascading
  foreign key and, for the button table, the value checks are those of
  `migrations/001_initial.sql` and `migrations/002_indexes.sql`.
- Generated identifiers (of drafts, attempts and tokens) are new; SHA-256 and the JSON encodings are
  injective (a hash is modelled by what it digests).
- Jira may apply a request at any time after it was sent and may lose any reply.
  A reply that names an issue means the issue exists, and a refusal (status 400 to
  499) means that nothing was created.
- A clock does not run backwards.
- A crash may lose what was not flushed: the bytes of a file, and any renaming since
  the directory was last flushed. A renaming by itself is atomic.

## What the code does not do

Where code and documentation differ, the model follows the code.

- `expire_eligible_drafts` passes a free-text note where a code is required, so it
  raises as soon as a draft is due and expires nothing (`WorkflowRepository.Repository.ExpireEligibleDrafts`).
  The repository's own `expire_eligible` works.
- An unreadable reply below status 400 makes the draft retryable although the
  issue may exist; two issues are then possible, and only then or after a creation
  was recorded as not having happened (`JiraOutcomes.EventsBoundIssues`,
  `SubmissionTheorems.BoundIsAttained`).
- `max_queue_size` does not bound the queue of the serializer: with two slots or more
  one hot key can keep more callers waiting, with a single slot it cannot
  (`KeyedProcessorQueue.QueueSizeHoldsExactly`).
- A batch never checks its own `message_keys`: once the bounded window has moved
  on, one message can be in a batch twice, in every configuration with batches of
  two or more and in no other (`IntakeTheorems.RepeatsExactly`).
- No service sets an expiry when it saves a draft, and one that is set from outside is
  cleared by a submission, also by one that fails (`SubmissionService.Service.SubmitDraft`).
- Criteria and a description that spells them out have one request hash
  (`WorkflowAnswers.FoldedCriteria`).
- `update_template` admits a draft waiting for a retry, and the repository refuses
  that edge (`WorkflowService.Service.UpdateTemplate`).
- Thirteen of the twenty-three button actions cannot be issued, because the table
  admits only the other ten. A button cannot be issued again for the same revision
  and message, although it was invalidated; and when one button of a preview is
  refused, those before it stay, with the older ones dead
  (`CallbackService.Service.IssuePreviewButtons`, `CallbackService.NotIssuedAgain`).
- The denials for a wrong draft state cannot occur in `authorize`, because a stale
  revision is reported first (`CallbackTheorems.StateDenialsUnreachable`); a token
  stored as reusable for an action that is used up by default is never allowed.
- A row left UPLOADING within the count limit and not declared too big ends the
  upload loop with an error, and the draft stays ATTACHING; any other such row is
  passed over (`AttachmentUpload.AttachmentService.StopsExactly`).
- If an unreadable credential file cannot be moved aside, it is copied over the
  good backup before the restoring write; a failing write or a crash then loses the
  accounts (`CredentialFileSpec.RecoveryKeepsTheCopy`, `CredentialFileCalls.RecoveryLosesExactly`).
  A language change takes effect in memory even when it cannot be written.
- Some texts do not survive the editable block: a description with a line that reads
  as a heading, an empty one, a criterion that begins with a bullet
  (`EditableExactness.DescriptionExactly`, `EditableExactness.CriteriaExactly`,
  `EditableText.EmptyFieldsFilled`); the difference of two templates does not show a
  removed assignee (`JiraOutcomes.DiffEmptyExactly`).

## Model

| member | source | states |
|---|---|---|
| `KeyedProcessorSpec.MutualExclusion` | src/dztgbot/infrastructure/keyed_processor.py:184-221 | in every state of every run at most one caller of a key has its turn, and so at most one of its operations runs, although callers give up while queued and a key's entry is dropped and made anew |
| `KeyedProcessorSpec.StartsInAdmissionOrder` | src/dztgbot/infrastructure/keyed_processor.py:282-288 | operations of one key start in the order of admission, and each only after every earlier caller of the key is out |
| `KeyedProcessorSpec.DonePredecessor` | src/dztgbot/infrastructure/keyed_processor.py:291-310 | once the future a caller waits for is done, every earlier caller of its key has left, also when some of them were abandoned |
| `KeyedProcessorSpec.Accounting` | src/dztgbot/infrastructure/keyed_processor.py:148-162 | active operations, held slots and admitted callers stay within the configured limits; references add up to the admitted callers, an entry is in the table exactly while it is referenced, and the event is set exactly when nobody is admitted |
| `KeyedProcessorSpec.TotalReferencesCount` | src/dztgbot/infrastructure/keyed_processor.py:312-319 | the references of the entries in the table add up to the callers still inside |
| `KeyedProcessorQueue.QueueBound` | src/dztgbot/infrastructure/keyed_processor.py:140-162 | in every state of every run at most the queue size plus the idle slots are queued, and somebody runs when nothing can start |
| `KeyedProcessorQueue.BoundIsAttained` | src/dztgbot/infrastructure/keyed_processor.py:268-288 | for every configuration and every number of busy slots a run ends with nothing able to start and exactly so many queued |
| `KeyedProcessorQueue.QueueSizeHoldsExactly` | src/dztgbot/infrastructure/keyed_processor.py:249-257 | the queue keeps to `max_queue_size` in all states where nothing can start exactly if there is one slot |
| `KeyedProcessorSpec.SomeStepEnabled` | src/dztgbot/infrastructure/keyed_processor.py:184-221 | no deadlock: while a caller is admitted, some step is enabled that nobody outside has to request |
| `KeyedProcessorSpec.StepDescends` | src/dztgbot/infrastructure/keyed_processor.py:188-221 | every step of an admitted caller lowers a measure |
| `KeyedProcessorSpec.ClosedRunsDrain` | src/dztgbot/infrastructure/keyed_processor.py:259-266 | after `close` no run is longer than what remains to be done, and one that cannot go on has drained; the drain event is set exactly when nobody is admitted |
| `KeyedProcessorSpec.ClosedForever` | src/dztgbot/infrastructure/keyed_processor.py:259-272 | after a `close`, for the rest of every run, nobody is let in |
| `KeyedProcessorSpec.RunInv` | src/dztgbot/infrastructure/keyed_processor.py:164-319 | the invariant holds in every reachable state |
| `KeyedProcessor.Processor.Admit` | src/dztgbot/infrastructure/keyed_processor.py:268-288 | refused when closed or full with nothing changed, otherwise exactly the admission step |
| `KeyedProcessor.Processor.Leave` | src/dztgbot/infrastructure/keyed_processor.py:210-221 | the whole cleanup block is exactly the departure step; the slot is given back if the caller had one, and its completion is signalled at once exactly if it had its turn or its predecessor is done |
| `KeyedProcessor.Processor.Finish` | src/dztgbot/infrastructure/keyed_processor.py:312-319 | one reference and one admission fewer, the entry dropped with its last reference, the event set when empty |
| `KeyedProcessor.Processor.Begin` | src/dztgbot/infrastructure/keyed_processor.py:197-201 | exactly the start step |
| `KeyedProcessor.Processor.TakeTurn` | src/dztgbot/infrastructure/keyed_processor.py:193-194 | exactly the step to the head of the key |
| `KeyedProcessor.Processor.GrantSlot` | src/dztgbot/infrastructure/keyed_processor.py:196-197 | exactly the slot step |
| `KeyedProcessor.Processor.Propagate` | src/dztgbot/infrastructure/keyed_processor.py:306-310 | the callback of an abandoned caller completes its turn |
| `KeyedProcessor.Processor.Close` | src/dztgbot/infrastructure/keyed_processor.py:259-266 | exactly the closing step: closed from then on, and the event set exactly when nobody is admitted |
| `KeyedProcessor.Processor.TakeSnapshot` | src/dztgbot/infrastructure/keyed_processor.py:249-257 | the numbers reported are consistent and within the limits |
| `KeyedProcessor.Processor.constructor` | src/dztgbot/infrastructure/keyed_processor.py:148-162 | a new processor is the initial state |
| `ResourceLimiterRuns.LimitsHold` | src/dztgbot/services/limits.py:205-248 | at every moment of every run: operations within the global limit, those of an actor within its own, admissions within global plus queue limit, dispatches within the budget and one more |
| `ResourceLimiterSpec.ActorBound` | src/dztgbot/services/limits.py:333-364 | an actor's running calls are within its limit whatever gates it had before, and there are none when it has no gate |
| `ResourceLimiterSpec.PermitsBounded` | src/dztgbot/services/limits.py:366-384 | no release lifts a semaphore above its bound |
| `ResourceLimiterSpec.NothingLeaks` | src/dztgbot/services/limits.py:355-384 | when no call is at work every permit is back and no gate is left |
| `ResourceLimiterSpec.MoveInv` | src/dztgbot/services/limits.py:205-408 | every move keeps gates, permits, references, counters, attempts and the cooldown consistent |
| `ResourceLimiterSpec.CooldownHolds` | src/dztgbot/services/limits.py:386-408 | a cooldown ends only by a success or by the clock, and nobody is admitted before |
| `ResourceLimiterSpec.CooldownStarts` | src/dztgbot/services/limits.py:386-396 | the failure that meets the threshold starts a cooldown that ends the configured time later; one that does not starts none |
| `ResourceLimiterSpec.FailuresCounted` | src/dztgbot/services/limits.py:386-408 | each retryable failure counts one; a success and the end of a cooldown leave none, nothing else changes the count |
| `ResourceLimiterSpec.AdmissionExactly` | src/dztgbot/services/limits.py:324-331 | cooling down exactly before the end of the cooldown, overloaded exactly when full after it |
| `ResourceLimiterRuns.CooldownRefuses` | src/dztgbot/services/limits.py:324-326 | over any run without a success, every admission before the end of the cooldown is refused |
| `ResourceLimiterRuns.RefusedAfterFailures` | src/dztgbot/services/limits.py:324-326 | over any run, from the failure that meets the threshold until the configured time has passed or a call of that kind succeeds, every admission of that kind is told to wait and changes nothing |
| `ResourceLimiterRuns.AnsweredAfterCooldown` | src/dztgbot/services/limits.py:404-408 | and from then on, unless another failure came in between, no admission is told to wait |
| `ResourceLimiterRuns.CooldownEarned` | src/dztgbot/services/limits.py:391-396 | over any run there is a cooldown only after as many retryable failures in a row as the threshold |
| `ResourceLimiterSpec.SomeMove` | src/dztgbot/services/limits.py:345-354 | no deadlock between the two levels of semaphores |
| `ResourceLimiterSpec.MoveDescends` | src/dztgbot/services/limits.py:210-242 | whatever a call does, retries included, it uses up what remains |
| `ResourceLimiterRuns.ClosedRunsDrain` | src/dztgbot/services/limits.py:311-318 | after `close` a bounded number of moves remains; when none is left the limiter is empty and says so |
| `ResourceLimiterRuns.ClosedForever` | src/dztgbot/services/limits.py:311-322 | after a `close`, for the rest of every run, no call of any kind is let in |
| `ResourceLimiterRuns.StepInv` | src/dztgbot/services/limits.py:398-402 | the drain event is set exactly when no resource has an admitted call |
| `ResourceLimiter.ResourceState.BeginAttempt` | src/dztgbot/services/limits.py:336-343 | the gate is found or made and referred to |
| `ResourceLimiter.ResourceState.TryAdmit` | src/dztgbot/services/limits.py:320-331 | cooldown before capacity, the count raised only on admission |
| `ResourceLimiter.ResourceState.End` | src/dztgbot/services/limits.py:215-236 | the outcome recorded, everything given back, another round exactly for a retryable failure within the budget |
| `ResourceLimiter.ResourceState.Release` | src/dztgbot/services/limits.py:366-384 | permits and reference given back, the gate dropped with its last reference |
| `ResourceLimiter.ResourceState.Interrupt` | src/dztgbot/services/limits.py:355-364 | a deadline or cancellation at any suspension gives back exactly what is held |
| `ResourceLimiter.ResourceState.RecordCompletion` | src/dztgbot/services/limits.py:386-396 | a retryable failure counts one more and, at the threshold, sets the end of the cooldown to now plus the configured time; a success clears both; a failure that is not retryable changes nothing |
| `ResourceLimiter.ResourceState.ResetExpiredCooldown` | src/dztgbot/services/limits.py:404-407 | a cooldown that has ended is cleared with its count, and only such a one |
| `ResourceLimiter.Run` | src/dztgbot/services/limits.py:205-248 | a call by itself: the retry loop dispatches until an outcome is not a retryable failure or the budget is spent, and leaves nothing behind |
| `ResourceLimiter.Dispatches` | src/dztgbot/services/limits.py:210-242 | how often the loop dispatches: every earlier outcome was a retryable failure, the last is not unless the budget is spent |
| `ResourceLimiter.Limiter.Admit` | src/dztgbot/services/limits.py:320-331 | exactly the admission step of the whole limiter, refused once closed |
| `ResourceLimiter.Limiter.End` | src/dztgbot/services/limits.py:229-248 | exactly the completion step, with the drain check |
| `ResourceLimiter.Limiter.Interrupt` | src/dztgbot/services/limits.py:245-248 | exactly the interruption step, with the drain check |
| `ResourceLimiter.Limiter.Close` | src/dztgbot/services/limits.py:311-318 | exactly the closing step: closed from then on, and the event set exactly when no resource has an admitted call |
| `IntakeTheorems.Conservation` | src/dztgbot/services/intake_service.py:194-289 | in every run each accepted message is in exactly one of a pending batch, one batch handed on, or a discarded batch, and a batch is the messages accepted for its draft in order |
| `IntakeTheorems.SealedOnce` | src/dztgbot/services/intake_service.py:381-394 | no draft is handed on twice, and what is handed on keeps to the size, character and attachment limits |
| `IntakeTheorems.NothingTakenBack` | src/dztgbot/services/intake_service.py:381-394 | accepted messages and batches handed on are only ever added to |
| `IntakeTheorems.CallbackEffect` | src/dztgbot/services/intake_service.py:359-379 | a current deadline hands on exactly its batch, any other changes nothing |
| `IntakeTheorems.StaleForever` | src/dztgbot/services/intake_service.py:333-379 | a superseded deadline changes nothing ever after, however often it runs |
| `IntakeTheorems.Supersedes` | src/dztgbot/services/intake_service.py:336-341 | an acceptance, a flush, a cancellation or its own run supersedes a deadline |
| `IntakeTheorems.TimersServeBatches` | src/dztgbot/services/intake_service.py:342-357 | every pending batch has one timer, its own, due at once exactly when it is full and after the quiet window otherwise, and there is no other timer |
| `IntakeTheorems.Departures` | src/dztgbot/services/intake_service.py:246-289 | a pending batch is handed on, as it is, exactly by a flush of its scope or by its own deadline, dropped exactly by a cancellation, and otherwise stays |
| `IntakeTheorems.DuplicateExactly` | src/dztgbot/services/intake_service.py:200-202 | a message is a duplicate exactly if it is one of the last accepted ones the window holds |
| `IntakeTheorems.RepeatsAreFar` | src/dztgbot/services/intake_service.py:324-331 | two acceptances of one message are more than the window apart |
| `IntakeTheorems.RepeatsExactly` | src/dztgbot/services/intake_service.py:198-223 | some run has one message twice in a pending batch exactly if batches may hold two or more |
| `IntakeTheorems.EveryPhotoAttached` | src/dztgbot/services/intake_service.py:301-322 | over every run a batch handed on has one attachment for each photo and none besides, each within the size limit, no file twice |
| `IntakeSpec.StepInv` | src/dztgbot/services/intake_service.py:178-394 | every operation and every callback keeps batches, window, timers and fates consistent |
| `IntakeSpec.VerdictMeans` | src/dztgbot/services/intake_service.py:186-216 | the exact condition on which a message is accepted, in terms of what was gathered, and what each refusal says of it |
| `Intake.IntakeService.CollectMessage` | src/dztgbot/services/intake_service.py:178-232 | the first failing check names the rejection and nothing changes; otherwise the batch has one more message, its last, and the receipt tells its size, its characters and a job that is due at once if the batch is full and after the quiet window if not |
| `Intake.IntakeService.RememberMessage` | src/dztgbot/services/intake_service.py:324-331 | the loop leaves exactly the last keys up to the limit |
| `Intake.IntakeService.RescheduleDeadline` | src/dztgbot/services/intake_service.py:333-357 | the old timer is cancelled and the next generation scheduled, at once for a full batch and after the quiet window otherwise |
| `Intake.IntakeService.DeadlineElapsed` | src/dztgbot/services/intake_service.py:359-379 | hands on a batch exactly if the callback is current |
| `Intake.IntakeService.FlushScope` | src/dztgbot/services/intake_service.py:275-289 | exactly the flush step |
| `Intake.IntakeService.DetachBatch` | src/dztgbot/services/intake_service.py:381-394 | the batch leaves the table, with or without its timer |
| `Intake.IntakeService.CancelPending` | src/dztgbot/services/intake_service.py:246-262 | exactly the cancellation of one scope |
| `Intake.IntakeService.CancelAllPending` | src/dztgbot/services/intake_service.py:264-273 | every batch and every timer is gone, and they are counted |
| `Intake.IntakeService.PendingCount` | src/dztgbot/services/intake_service.py:234-244 | the number of messages accepted for the pending draft |
| `Fsm.PostCreateClosed` | src/dztgbot/domain/fsm.py:42-152 | no path leaves the states after creation, and none of them can expire, be cancelled or be submitted |
| `Fsm.EnteredFrom` | src/dztgbot/domain/fsm.py:42-152 | the life cycle read backwards: from which states each state can be entered |
| `Fsm.WayOut` | src/dztgbot/domain/fsm.py:42-176 | from every state a path leads to completion if there may be an issue, to cancellation if not; exactly the terminal states have no way out |
| `Fsm.UnknownIsLeftDeliberately` | src/dztgbot/domain/fsm.py:158-164 | the only ways out of a submission in doubt are creation, a recorded negative result and abandonment |
| `WorkflowTables.SaveRevises` | src/dztgbot/infrastructure/persistence/workflow_sqlite.py:540-614 | a save succeeds only on the revision it was made from, raises it by one along a legal edge or in place, takes over note and date, keeps the stored expiry unless it brings one, and loses no published issue |
| `WorkflowTables.SwapRevises` | src/dztgbot/infrastructure/persistence/workflow_sqlite.py:832-891 | a compare-and-swap raises the revision by one along a legal edge, stores the note, keeps the expiry in the five states that expire and drops it in all others, and touches nothing else |
| `WorkflowAnswers.SavedAttachments` | src/dztgbot/infrastructure/persistence/workflow_sqlite.py:641-690 | a saved file is stored as uploaded if the draft has its id, else with the whole transfer state of the stored row of that file, else as pending |
| `WorkflowAnswers.UpdateExactly` | src/dztgbot/infrastructure/persistence/workflow_sqlite.py:1298-1354 | the attempt with the identifier becomes the given one exactly if the rest of its identity agrees and its status stays, is settled, or is settled after a doubt |
| `WorkflowAnswers.StatusExactly` | src/dztgbot/infrastructure/persistence/workflow_sqlite.py:1470-1505 | the row of a file changes exactly along one of six moves from the status it has, with an id if it is to be uploaded; what it then holds |
| `WorkflowAnswers.SameHashExactly` | src/dztgbot/services/submission_service.py:73-100 | two templates have one request hash exactly if they agree in everything but how description and criteria make up the text that is sent |
| `WorkflowAnswers.CriterionAdded` | src/dztgbot/services/submission_service.py:73-78 | the text that is sent: a heading before the first criterion and a bullet for each |
| `WorkflowAnswers.FoldedCriteria` | src/dztgbot/services/submission_service.py:73-100 | criteria moved into the description leave the hash as it was |
| `WorkflowTables.LoadAfterSave` | src/dztgbot/infrastructure/persistence/workflow_sqlite.py:616-795 | loading after a save gives the draft, with the stored issue and stored upload ids where it carries none |
| `WorkflowTables.ExactRoundTrip` | src/dztgbot/infrastructure/persistence/workflow_sqlite.py:641-706 | exactly when loading gives back the very draft that was saved |
| `WorkflowTables.UploadSurvivesStaleSaves` | src/dztgbot/infrastructure/persistence/workflow_sqlite.py:641-690 | an uploaded attachment stays uploaded with its id over any number of saves that list it |
| `WorkflowTables.SaveKeepsSchema` | src/dztgbot/infrastructure/persistence/migrations/001_initial.sql:36-69 | a save keeps the unique constraints of one draft: messages, files, attempt numbers, one attempt in progress |
| `WorkflowRepository.ReplaceKeepsSchema` | src/dztgbot/infrastructure/persistence/migrations/001_initial.sql:71-78 | storing one draft keeps issue keys apart across all drafts |
| `WorkflowTables.ClaimKeepsSchema` | src/dztgbot/infrastructure/persistence/migrations/002_indexes.sql:29-31 | a claim keeps one attempt in progress and distinct numbers |
| `WorkflowTables.UpdateKeepsLedger` | src/dztgbot/infrastructure/persistence/workflow_sqlite.py:1298-1354 | an update replaces exactly one attempt, not its identity, along a legal status move |
| `WorkflowRepository.Repository.Save` | src/dztgbot/infrastructure/persistence/workflow_sqlite.py:540-712 | the loop over attachments and the rest of the transaction store exactly the specified rows, or nothing; `SaveExactly` says when, and why not otherwise |
| `WorkflowRepository.Repository.SaveAndReload` | src/dztgbot/infrastructure/persistence/workflow_sqlite.py:717-795 | a save followed by a load |
| `WorkflowRepository.Repository.CompareAndSwapState` | src/dztgbot/infrastructure/persistence/workflow_sqlite.py:832-892 | state, revision, expiry and note as specified, or an error and nothing; `SwapExactly` says when, and why not otherwise |
| `WorkflowRepository.Repository.ClaimAttempt` | src/dztgbot/infrastructure/persistence/workflow_sqlite.py:1247-1289 | inserted, lost, or an error, as specified; `ClaimExactly` says which of these in terms of the rows |
| `WorkflowRepository.Repository.UpdateAttempt` | src/dztgbot/infrastructure/persistence/workflow_sqlite.py:1298-1354 | the identity and status checks, then exactly one row |
| `WorkflowRepository.Repository.StorePublishedIssue` | src/dztgbot/infrastructure/persistence/workflow_sqlite.py:1512-1554 | stored, unless another draft has the key |
| `WorkflowRepository.Repository.SetAttachmentStatus` | src/dztgbot/infrastructure/persistence/workflow_sqlite.py:1442-1505 | the conditional update of one row |
| `WorkflowRepository.Repository.ListExpired` | src/dztgbot/infrastructure/persistence/workflow_sqlite.py:901-930 | the due drafts by expiry and then by identifier, the first ones up to the limit |
| `WorkflowRepository.Repository.ExpireEligible` | src/dztgbot/infrastructure/persistence/workflow_sqlite.py:941-996 | exactly the listed drafts, in one of the five states and at or past their expiry, expire with their revision raised by one; all such drafts if they fit the limit |
| `WorkflowRepository.Repository.ExpireEligibleDrafts` | src/dztgbot/services/workflow_service.py:269-284 | nothing ever expires this way: no draft is due, or the note is refused |
| `SubmissionProtocol.StepInv` | src/dztgbot/services/submission_service.py:114-331 | every step of every worker, of Jira and of the other services keeps the invariant and only moves rows forward |
| `SubmissionTheorems.CreateOnce` | src/dztgbot/services/submission_service.py:114-216 | over every run the issues created are at most one, plus one for each creation answered unreadably, plus one for each recorded as not created |
| `SubmissionTheorems.BoundIsAttained` | src/dztgbot/infrastructure/jira_gateway.py:241-264 | for any two such numbers there is a run that attains the bound |
| `SubmissionTheorems.OneInPlay` | src/dztgbot/services/submission_service.py:122-131 | at most one creation is applied or open and unaccounted for |
| `SubmissionTheorems.LedgerShape` | src/dztgbot/infrastructure/persistence/workflow_sqlite.py:86-99 | one attempt in progress at most, numbers 1, 2, 3 and so on, and the attempt in question carries the hash of the stored template |
| `SubmissionTheorems.LedgerGrows` | src/dztgbot/infrastructure/persistence/workflow_sqlite.py:1298-1354 | attempts are never removed, keep their identity, and a final status stays |
| `SubmissionTheorems.LifecyclePath` | src/dztgbot/domain/fsm.py:42-152 | between any two states of a run the draft goes along a path of the life cycle with stutters, one revision for each write |
| `SubmissionTheorems.PostCreateClosure` | src/dztgbot/services/submission_service.py:149-203 | once created, a draft stays in the family of states after creation, is never due to expire, and keeps its issue on record |
| `SubmissionTheorems.PublishedKept` | src/dztgbot/infrastructure/persistence/workflow_sqlite.py:699-706 | a draft that has an issue on record has one ever after |
| `SubmissionTheorems.IssueBeforeCreation` | src/dztgbot/services/submission_service.py:297-331 | a draft becomes created only by the last write of an outcome, and its issue is on record before |
| `SubmissionTheorems.LateAnalysis` | src/dztgbot/services/intake_service.py:440-464 | a late analysis is written, as it is and in review, only if the draft is still analyzing at the revision it started from; `AnalysisDraft` says what that is |
| `SubmissionService.Service.SubmitDraft` | src/dztgbot/services/submission_service.py:114-157 | one call is a run of the protocol; the exact condition on which it succeeds; and then the rows it leaves for each answer: created with the issue, in doubt, or retryable with the code as note, with the attempt that records it |
| `SubmissionService.Service.ConfirmPublishedUpdate` | src/dztgbot/services/submission_service.py:241-268 | the same for an update: complete, in doubt, or retryable |
| `SubmissionService.Service.RecoverStalled` | src/dztgbot/services/submission_service.py:159-183 | the same for crash recovery, without a request: created if the issue is on record, in doubt if the attempt is in progress, refused otherwise |
| `SubmissionService.Service.ReconcileCreate` | src/dztgbot/services/submission_service.py:185-203 | the same for reconciliation: one match becomes the issue of a created draft, anything else changes nothing |
| `SubmissionService.Service.AllowRetryAfterNegativeReconciliation` | src/dztgbot/services/submission_service.py:205-216 | the same for a negative result: the attempt failed, the draft retryable, both with that note |
| `SubmissionService.Service.ReconcileUpdateOf` | src/dztgbot/services/submission_service.py:270-285 | the same for an update in doubt: complete if the fields agree, otherwise nothing changes |
| `SubmissionService.Service.RecordOutcome` | src/dztgbot/services/submission_service.py:297-331 | the writes after an outcome is known are a run of the protocol; exactly when all of them succeed, and the rows they leave |
| `SubmissionAnswers.CreationAnswered` | src/dztgbot/services/submission_service.py:144-157 | each answer to a creation, from the plan to the rows: the state, the notes, the issue and the attempt written out |
| `SubmissionAnswers.UpdateAnswered` | src/dztgbot/services/submission_service.py:254-268 | the same for an update |
| `SubmissionAnswers.ResolutionMeans` | src/dztgbot/services/submission_service.py:159-216 | what the writes of a recovery or reconciliation leave of the last attempt and the draft |
| `SubmissionService.Service.NumberAttempt` | src/dztgbot/services/submission_service.py:287-295 | the attempt is numbered one past the attempts there are and carries the hash of the template |
| `SubmissionService.QuietAfterAnyRun` | src/dztgbot/services/submission_service.py:159-183 | what the methods require holds of a draft nobody is at work on, after any run |
| `WorkflowService.Service.UpdateTemplate` | src/dztgbot/services/workflow_service.py:130-165 | succeeds exactly for the owner's draft in its chat at the expected revision, in review or with an edge to it, and then the template is stored in review at the next revision without a note; a draft waiting for a retry is the one that passes the check and is refused |
| `WorkflowService.EditIsSaved` | src/dztgbot/infrastructure/persistence/workflow_sqlite.py:540-614 | no constraint but the life cycle can refuse the edit of a stored draft |
| `WorkflowService.Service.CancelDraft` | src/dztgbot/services/workflow_service.py:251-267 | succeeds exactly along a legal edge at the expected revision, never after creation or while an outcome is open |
| `JiraOutcomes.EventsBoundIssues` | src/dztgbot/infrastructure/jira_gateway.py:678-726 | over every run the issues created are at most one, plus one for each creation answered below 400 without an issue, plus one for each recorded as not created; a second issue needs such an event |
| `JiraOutcomes.RepliesAreExchanges` | src/dztgbot/infrastructure/jira_gateway.py:650-675 | every honest exchange is a reply the protocol allows |
| `JiraOutcomes.ExchangesAreReplies` | src/dztgbot/infrastructure/jira_gateway.py:650-675 | every reply the protocol allows comes from an honest exchange |
| `JiraOutcomes.OutcomeExactly` | src/dztgbot/infrastructure/jira_gateway.py:241-264 | which exchange comes to what: in doubt without a reply or from 500 on, refused from 400 on, and below that by whether an issue is named |
| `JiraOutcomes.DiffEmptyExactly` | src/dztgbot/services/submission_service.py:103-106 | no difference is reported exactly for the same request or a removed assignee |
| `CallbackGrammar.ParseExactly` | src/dztgbot/domain/callbacks.py:234-280 | a text parses to an action and token exactly if it is their printed form |
| `CallbackGrammar.EncodeExactly` | src/dztgbot/domain/callbacks.py:217-231 | encoding succeeds exactly on known actions and well-formed tokens, fits 64 characters and parses back |
| `CallbackGrammar.NeverMalformed` | src/dztgbot/domain/callbacks.py:256-270 | the last diagnosis is never given, for any text |
| `CallbackGrammar.ActionNames` | src/dztgbot/domain/callbacks.py:51-80 | each action has its own name of the required form |
| `CallbackGrammar.SplitJoins` | src/dztgbot/domain/callbacks.py:260-263 | splitting cuts at every separator and only there |
| `CallbackTheorems.GrantMeans` | src/dztgbot/services/callback_service.py:155-247 | over any interleaving a token stored as one-shot or for one of the nine single-use actions is allowed at most once, and an allowed press agrees with its record in every binding |
| `CallbackTheorems.DeadButtonDenied` | src/dztgbot/services/callback_service.py:183-219 | an authorization that begins when the button is dead is never allowed |
| `CallbackTheorems.Kills` | src/dztgbot/infrastructure/persistence/workflow_sqlite.py:1188-1208 | a new revision, an invalidation and the deletion of a draft kill its buttons |
| `CallbackTheorems.DeadForever` | src/dztgbot/infrastructure/persistence/workflow_sqlite.py:1153-1208 | a dead button stays dead |
| `CallbackTheorems.InvalidatedInBetween` | src/dztgbot/services/callback_service.py:230-240 | an invalidation between decision and consumption counts exactly if it is dated no later than the decision |
| `CallbackTheorems.ReusableDefaultNeverAllowed` | src/dztgbot/services/callback_service.py:230-233 | a reusable record of a single-use action is never allowed |
| `CallbackTheorems.StateDenialsUnreachable` | src/dztgbot/domain/policy.py:360-372 | the denials about the state are never given |
| `CallbackSpec.StepInv` | src/dztgbot/infrastructure/persistence/workflow_sqlite.py:1053-1208 | every step of authorizations, store, invalidation and pruning keeps records, rows and grants consistent |
| `CallbackService.AllowedExactly` | src/dztgbot/domain/policy.py:306-374 | a press is allowed exactly when every binding holds |
| `CallbackService.DenialMeans` | src/dztgbot/domain/policy.py:306-374 | what each denial says of the press, the record and the draft, in the order of the checks |
| `CallbackService.IssuedButtonWorks` | src/dztgbot/services/callback_service.py:256-311 | an issued button works for its owner before it expires, and a second time exactly if its action is none of the nine single-use ones |
| `CallbackService.IssuedButtonExpires` | src/dztgbot/domain/policy.py:354-355 | the same press from the expiry on is denied for that reason |
| `CallbackService.Service.Authorize` | src/dztgbot/services/callback_service.py:155-247 | the verdict, and the token used up exactly when it is |
| `CallbackService.Service.IssuePreviewButtons` | src/dztgbot/services/callback_service.py:256-311 | succeeds exactly for the draft as it is stored, with distinct actions the table knows and that no record stands for yet; then exactly these buttons are added, each bound to the draft's owner, chat, thread, state, revision and message and expiring at now plus the given time, and parse back; otherwise the buttons before the first refused one are, and older ones are expired first if that was asked for |
| `CallbackService.NotIssuedAgain` | src/dztgbot/infrastructure/persistence/migrations/002_indexes.sql:18-24 | an issued button cannot be issued again for its revision and message, used, expired or not |
| `CallbackService.Service.StoreCallback` | src/dztgbot/infrastructure/persistence/workflow_sqlite.py:1056-1113 | refused for a missing draft, another binding, a known hash, an action or value the table does not admit, or a button that has a record; otherwise one row, and still one record for each button; `StoredExactly` has the condition in terms of the columns |
| `CallbackTheorems.OneRecordPerButton` | src/dztgbot/infrastructure/persistence/migrations/002_indexes.sql:18-24 | over every run one draft, revision, action and message never have two records, alive or dead |
| `CallbackTheorems.ConsumedOnce` | src/dztgbot/infrastructure/persistence/workflow_sqlite.py:1153-1174 | over every run a token that was consumed is never consumable again, for any date |
| `CallbackTheorems.ConsumptionMeans` | src/dztgbot/infrastructure/persistence/workflow_sqlite.py:1153-1174 | a consumption changes something exactly if it succeeds, touches no other token, and cannot succeed again |
| `CallbackTheorems.InvalidatedForever` | src/dztgbot/infrastructure/persistence/workflow_sqlite.py:1188-1208 | over every run no button stored before an invalidation of its draft is active at any later time |
| `CallbackTheorems.InvalidationMeans` | src/dztgbot/infrastructure/persistence/workflow_sqlite.py:1188-1208 | exactly the active tokens of the draft change, and only in their expiry |
| `AttachmentSpec.LoopResult` | src/dztgbot/services/attachment_service.py:111-208 | the three counts add up to the rows that were open, nothing uploaded is sent again, nothing is sent twice, every file sent was loaded, of an allowed type and within the file limit, bytes and uploads stay within the limits, and no failure is left exactly if none was counted |
| `AttachmentSpec.RowResult` | src/dztgbot/services/attachment_service.py:111-197 | an open row is sent exactly if it is within the count, not declared too big, loaded, of an allowed type and within both limits given what was sent before; and the status and code of every open row |
| `AttachmentSpec.NeverADuplicate` | src/dztgbot/services/attachment_service.py:121-124 | the test for a repeated identifier never fires |
| `AttachmentSpec.HandleRow` | src/dztgbot/infrastructure/persistence/workflow_sqlite.py:148-160 | one turn moves one row to a final status of this call and one counter by one |
| `AttachmentUpload.AttachmentService.UploadPending` | src/dztgbot/services/attachment_service.py:96-208 | the checks and the loop; the draft ends partial with that note exactly if a row failed, else complete; it ends with an error of the loop exactly if the loop stops at some row, with the rows before it settled and the draft left attaching |
| `AttachmentUpload.AttachmentService.StopsExactly` | src/dztgbot/services/attachment_service.py:121-142 | the loop stops at a row exactly if it is in the middle of an upload, within the count and not declared too big |
| `AttachmentUpload.AttachmentService.UploadRows` | src/dztgbot/services/attachment_service.py:111-197 | the loop over the stored rows is the specified one, and where it stops |
| `AttachmentUpload.AttachmentService.Transfer` | src/dztgbot/services/attachment_service.py:134-197 | claim, transfer and result of one row, every write a legal move |
| `AttachmentUpload.AttachmentService.Skip` | src/dztgbot/services/attachment_service.py:210-222 | a row is skipped unless it is in the middle of an upload |
| `AttachmentUpload.AttachmentService.Conclude` | src/dztgbot/services/attachment_service.py:199-207 | partial exactly if a row failed |
| `CredentialFileCalls.CrashSafe` | src/dztgbot/user_store.py:356-421 | after any number of writes, a crash at any call of a further one, with anything unflushed lost, reopens to the new accounts or to those of a write since the last flush of the directory, which is the last write if every flush succeeded |
| `CredentialFileCalls.FlushedStays` | src/dztgbot/user_store.py:389-392 | once a write has succeeded and the directory was flushed, no crash undoes it |
| `CredentialFileCalls.WriteLeaves` | src/dztgbot/user_store.py:356-392 | the calls of a write leave the specified files |
| `CredentialFileCalls.CarefulCrash` | src/dztgbot/user_store.py:394-421 | a sequence that touches a name only by renaming flushed files over it leaves one of these files there at every crash |
| `CredentialFileCalls.CallsRefineWrites` | src/dztgbot/user_store.py:348-392 | call by call, any number of writes leave the files the specification says, and on the disk one of the possible ones |
| `CredentialFileSpec.SpoiltIsRecovered` | src/dztgbot/user_store.py:181-192 | after any number of writes a spoilt file is recovered from the last backup that succeeded |
| `CredentialFileSpec.AfterWrites` | src/dztgbot/user_store.py:356-372 | what file and backup hold after any number of writes and failures |
| `CredentialFileSpec.LastIsReopened` | src/dztgbot/user_store.py:161-180 | after any number of writes an opening gives the accounts and languages of the last that did not fail, and changes no file |
| `CredentialFileSpec.OversizedStays` | src/dztgbot/user_store.py:356-372 | an oversized primary refuses every write that gets as far as reading it, and stays |
| `CredentialFileSpec.RecoveryKeepsTheCopy` | src/dztgbot/user_store.py:161-216 | recovered accounts are lost at the next opening in exactly one case |
| `CredentialFileCalls.RecoveryCrash` | src/dztgbot/user_store.py:161-199 | a crash at any call of a recovery reopens to the recovered accounts unless both files are spoilt |
| `CredentialFileCalls.RecoveryLosesExactly` | src/dztgbot/user_store.py:201-216 | some crash spoils both files exactly if the primary could not be moved aside and the copy over the backup succeeds |
| `UserStore.Store.Initialize` | src/dztgbot/user_store.py:161-199 | the opening makes exactly the specified calls, and memory has what they give |
| `UserStore.Store.AtomicWrite` | src/dztgbot/user_store.py:356-392 | the write makes exactly the specified calls, leaves the specified files, and succeeds exactly when it should |
| `UserStore.Store.StoreCredentials` | src/dztgbot/user_store.py:114-136 | memory follows a write that succeeded and only such a write |
| `UserStore.Store.Remove` | src/dztgbot/user_store.py:138-152 | the same for a removal |
| `UserStore.Store.SetLanguage` | src/dztgbot/user_store.py:103-112 | the language changes in memory as soon as the document can be printed, written or not |
| `UserStore.Store.RecoversTheBackup` | src/dztgbot/user_store.py:181-192 | what the backup holds is what a spoilt file is recovered to |
| `Timestamps.TextOrderIsTimeOrder` | src/dztgbot/infrastructure/persistence/workflow_sqlite.py:242-246 | for all instants in years 1 to 9999 the order of the stored texts is the order in time |
| `Timestamps.EveryInstantHasItsText` | src/dztgbot/infrastructure/persistence/workflow_sqlite.py:242-253 | every microsecond of the years 1 to 9999 is the instant of exactly one text, which reads back |
| `Timestamps.WrittenThenRead` | src/dztgbot/infrastructure/persistence/workflow_sqlite.py:242-253 | reading a written instant gives it back |
| `Timestamps.ReadThenWritten` | src/dztgbot/infrastructure/persistence/workflow_sqlite.py:249-253 | writing a read text gives it back |
| `EditableText.RoundTrip` | src/dztgbot/analysis.py:233-309 | every printable template comes back over every original |
| `EditableText.HeaderExactly` | src/dztgbot/analysis.py:289-292 | a header value survives the trip exactly if it is trimmed, not empty, on one line, and free of `(` and full-width colons |
| `EditableText.HeaderKeptOrClean` | src/dztgbot/analysis.py:274-292 | over every text a header field is the original's or such a value |
| `EditableText.EmptyFieldsFilled` | src/dztgbot/analysis.py:233-242 | what is empty comes back as the default printed for it |
| `EditableExactness.DescriptionExactly` | src/dztgbot/analysis.py:274-301 | a changed description survives exactly if it is trimmed, not empty, broken by line feeds only, and none of its lines reads as a heading |
| `EditableExactness.EachSpelling` | src/dztgbot/analysis.py:256-288 | the spellings of one header field are interchangeable, and set that field and no other |
| `EditableExactness.EachHeading` | src/dztgbot/analysis.py:256-288 | and so are those of one section heading |
| `EditableExactness.DescriptionKeptOrRegular` | src/dztgbot/analysis.py:293-301 | over every text the description is the original's, or trimmed, not empty and broken by line feeds only |
| `EditableExactness.CriteriaExactly` | src/dztgbot/analysis.py:294-309 | a changed list of criteria survives exactly if each is trimmed, on one line, not empty, and begins with neither a bullet nor the hint |
| `EditableText.SomethingIsPrintable` | src/dztgbot/analysis.py:233-242 | there is a printable template for every list of good criteria |
| `EditableText.ParseEdited` | src/dztgbot/analysis.py:245-309 | the loop over the lines computes the specified parse |
| `EditableText.ParseLine` | src/dztgbot/analysis.py:275-298 | one turn of the loop |
| `EditableText.PrintIsLines` | src/dztgbot/analysis.py:233-242 | the printed block is these lines, joined |
| `PythonText.LinesOfJoined` | src/dztgbot/analysis.py:274-274 | joining lines and splitting again gives them back |

## Left out

- Chat handlers, keyboards, rendering, translation, wiring and administration: no state that the properties above depend on.
- HTTP, Gemini and VPN calls, database pragmas, path checks and file permissions: foreign systems; Jira is an outcome, the database is atomic transactions.
- `AsyncTaskScheduler`: subsumed by a scheduler that may run any callback at any time.
- Wall-clock deadlines: a deadline is an interruption that may come at any suspension.
- Liveness of crash recovery: `recover_stalled` refuses some reachable gaps, so only safety is proved.
- At-most-once upload of attachments: an upload in doubt is marked FAILED and may be repeated.
- `get_issue_details`, transitions, comments, links and the metadata cache of the gateway: reads, or writes to an issue that exists.
- JiraOutcomes.CreateIssue: a template with a blank field is refused by the gateway before anything is sent, and the service takes that error for an outcome in doubt; here it is an exchange without a reply.
- The link to a production issue that `submit` adds after creating one: its errors are swallowed and nothing is stored.
- `prepare_published_update` and the `toggle_*` methods: saves of a loaded draft, covered by the protocol's writes of other services.
- Pagination, metrics, the rules store, connectivity checks, model fallback and the handoff script: easy beside the above.
- Retention deletes whole drafts; the submission protocol does not delete, the button model does.
- Other drafts in the submission protocol: only their issue keys matter, as a set of taken keys.
- `SubmissionService.Service.SubmitDraft`: one call without interruption; interruptions are the protocol's steps.
- SubmissionProtocol.StepInv: a reconciliation search may return any issue, so that the issue found is the one this draft created is not part of the claim.
- AttachmentSpec.LoopResult: one clock reading stands for those of all rows; the statement does not depend on them.
- `CallbackSpec.StepInv`: whether a chat is private is given, not derived from the chat type's spelling.
- WorkflowTables.Save: a negative file size and an empty issue id, which a draft may hold and a column check refuses, are taken not to occur; the other checks are those of the domain's constructors.
- WorkflowTables.CompareAndSwap: an identifier or revision that cannot be put into a transition command is taken not to occur.
- CredentialFileSpec.Open: a good file is taken to be readable; a passing read error would move it aside and fall back to the backup.
- UserStore.Store.Initialize: a file that cannot be read is taken not to have changed the languages; an interrupted `await` while the writing thread goes on is not modelled.
- Timestamps.WrittenThenRead: instants in UTC; conversion from other offsets is the standard library's. Texts other than the stored form are not read.
- EditableText.ParseEdited: lower-casing is modelled where it can produce an ASCII letter of a key.
