# Expense workflow: a Dafny model

The expense service keeps an approval workflow in a relational store. Clients upload receipts; OCR results turn them into
draft transactions or add an item to one; members edit drafts and submit them; approvers decide step by step; workers
publish outbox events and resubmit lost OCR jobs. Several replicas do all of this at once, so a guard in one service is
often sound only because of something another service keeps.

The project models the database as one value (`Tables.Db`) and every `ExecTx` body or lone statement as one step that
either commits whole or changes nothing (`Steps`). A run is any list of steps by any callers in any order: a crash
between two transactions of one handler is a run in which the second step never comes, and a redelivery is a run in which
the first comes twice. Guarantees are proved for every run from the empty database.

| file | contents |
|---|---|
| `Tables`, `Steps` | rows, tables, one function per database transaction, steps and runs |
| `Invariants` | the invariant that every step of every run keeps |
| `Evolution` | what later states of a run may change of earlier ones |
| `Chain`, `Rules`, `Ledger`, `Extraction` | approval chains, the rule table, items and totals, OCR results |
| `Effects`, `ProjectEffects`, `DocumentEffects` | what each committed step changes, column by column, and when it commits |
| `ApprovalGuarantees`, `ApprovalViews` | outcomes, progress and stale reads of decisions; the queue, list and detail views |
| `DraftGuarantees`, `OcrGuarantees`, `UploadGuarantees` | theorems over runs about drafts, OCR results and uploads |
| `Deliveries` | what one delivery makes of a document, and when a claimed document stays in processing |
| `Witnesses` | concrete runs, and the promises they break |
| `Store` | a class with the tables as fields: SQL statements as methods, with the two triggers |
| `ApprovalService`, `TransactionService`, `DocumentService`, `OcrConsumer`, `ProjectService` | the service methods, with their branches and loops, each proved to do exactly its step |
| `Resubmission`, `Outbox`, `Batches` | the clocked workers: the OCR retry queue and the outbox publisher |
| `Money` | the two digit-grouping loops |
| `Sets` | finite sets |

Where code and comments disagree the model follows the code:

- `Decide` reports a transaction as approved although a sibling of the same step still owes its decision and the row
  stays pending. `ReportedStatusIff` says exactly when; `ReportedApprovedWitness` is a run that shows it.
- An upload that returned its document can fail when the client repeats it, in two ways: the key counts as reused once
  OCR has bound a project-level document to its draft or the document is deleted, and nothing is found once the
  transaction the upload names is soft-deleted. `RetryFindsRow` says exactly which answer comes when;
  `RetryRefusedWitness` and `RetryGoneWitness` are runs with each.
- A claimed document may stay in processing for ever, although the comment on the consumer speaks of one transaction: the
  claim commits on its own, and later deliveries skip the document. That happens exactly as long as no effective result
  step runs for it (`StaysProcessing`): after a crash behind the claim, and in an uninterrupted delivery exactly when
  the result is for a draft that has been deleted (`HandledOutcome`, `StuckWitness`).
- The organization's last default rule can go, although `DeleteRule` counts before it deletes: the count is not part of
  the deleting transaction (`DefaultRemainsIff`, `NoDefaultWitness`).
- Two outbox workers can hold one event: an event that had one holder at a time so far can get a second one in the next
  step exactly when its own claim has outlived its five minutes, whatever became of other events (`ReclaimableIff`,
  `SecondHolderIff`). `SlowWorkerPublishesTwice` is a run in which that publishes it twice.
- The two digit groupers differ on the smallest `int64`, which `groupDigits` cannot negate (`FormattersAgree`).
- `Decide` may read an approval's columns before it gets the transaction lock. A stale read can only refuse a decision that
  had just become possible (`StaleDecideIsSound`, `StaleRefusedWitness`).
- The comment on `classifyResult` announces a draft for low confidence; no such draft is ever created (`EventItem`).
  On the sweep path the gateway's own status counts and confidence does not (`SweptItem`).

## Model

| member | source | states |
|---|---|---|
| ApprovalGuarantees.PendingHasCurrentStep | internal/service/approval/engine.go:113-136 | in every reachable state a pending transaction is at one step c in 1..10: approvals below are active and approved, those at c are active and at least one is undecided, those above are neither active nor decided, none is cancelled |
| ApprovalGuarantees.DecidedAtMostOnce | internal/service/approval/engine.go:246-274 | over all runs an approval has at most one decision, made by its own approver while active, and is then never cancelled |
| ApprovalGuarantees.ApprovedIff | internal/service/approval/engine.go:366-383 | a transaction is approved iff it has approvals and each of them carries an approving decision |
| ApprovalGuarantees.RejectedIff | internal/service/approval/engine.go:278-284 | a transaction is rejected iff one of its decisions rejects; that decision is the last, all others approve, and each approval is decided or cancelled, never both |
| ApprovalGuarantees.DecisionsInStepOrder | internal/service/approval/engine.go:347-396 | decided steps of one transaction never decrease over time |
| ApprovalGuarantees.PendingCanProgress | internal/service/approval/engine.go:227-262 | a pending transaction always has an open approval whose approver's decision commits |
| ApprovalGuarantees.DecideShrinksOpen | internal/service/approval/engine.go:264-287 | each committed decision strictly lowers the number of undecided uncancelled approvals |
| ApprovalGuarantees.DecisionsAreBounded | internal/service/approval/engine.go:213-341 | in any run a submitted transaction with n open approvals takes at most n more decisions, and after n its status is final, whatever else interleaves |
| ApprovalGuarantees.StaleDecideIsSound | db/queries/approvals.sql:20-32 | a Decide whose approval row was read at any earlier point of the run commits only what an atomic Decide would commit; the two differ exactly when the step opened in between, and then nothing is written |
| Witnesses.StaleRefusedWitness | internal/service/approval/engine.go:227-242 | a run with two steps in which a Decide that read its row too early is refused although an atomic one would commit |
| ApprovalGuarantees.RulesHold | db/migrations/00010_approval_rules.sql:14-24 | over all create, update, delete, default and reassign steps live rules of one scope have distinct approvers and steps 1..10, so what submit resolves never repeats an approver |
| Chain.DecidedKeepsChain | internal/service/approval/engine.go:264-287 | after a verdict on an active approval of the current step, the chain fits the new status: still at that step, at a later one, all approved, or ended by the rejection |
| Chain.DecidedKeepsTables | db/queries/approvals.sql:39-43 | a verdict keeps the facts across transactions: one decision per approval, by its approver, on active uncancelled rows, in step order, only the last one rejecting |
| Chain.AdvancedChain | internal/service/approval/engine.go:366-389 | when the search finds a next step it is above the current one, and activating it puts the chain exactly there |
| Chain.FinishedChain | internal/service/approval/engine.go:378-383 | when the search finds nothing, every approval of the transaction is active, uncancelled and approved |
| Chain.RejectedChain | db/queries/approvals.sql:39-43 | cancelling the rest after a rejection leaves each approval decided or cancelled, never both |
| Chain.SnapshotStartsChain | internal/service/approval/engine.go:113-136 | the inserts of submit put the chain at the lowest resolved step |
| Chain.DecisionOf | db/queries/approvals.sql:12-18 | the verdict recorded for an approval, absent iff no decision names it |
| Chain.LowestWaiting | internal/service/approval/engine.go:366-377 | the least step among waiting approvals, absent iff none waits |
| ApprovalService.SubmitTx | internal/service/approval/engine.go:21-157 | exactly the submit step, error by error; a submit that succeeds leaves the transaction pending, all earlier approvals as they were, and new ones for exactly the governing rules, each with that rule's approver and step, active iff no governing rule has a lower step, no approver twice; a failed role lookup rolls everything back |
| ApprovalService.CreateApprovals | internal/service/approval/engine.go:113-136 | one approval a rule, in order, with its approver and step, active iff at the first step, or false at the first approver without a role |
| Effects.Governing | internal/service/approval/engine.go:48-64 | what submit resolves is exactly the rules that govern: the live ones of the project, or of the default scope if the project has none |
| Effects.SubmitWrites | internal/service/approval/engine.go:21-157 | a committed submit changes the status and version of its transaction, appends approvals and two events, and nothing else |
| Effects.SubmitAsksAll | internal/service/approval/engine.go:113-136 | every governing rule has a new approval with its approver and step |
| Effects.SubmitAsksOnly | internal/service/approval/engine.go:113-136 | every new approval comes of a governing rule, is active iff no governing rule has a lower step, and shares its approver with no other |
| Effects.NotifiedMeaning | internal/service/approval/engine.go:113-120 | the approver that the event of a submit names is that of the last rule of the first step |
| Effects.SubmitCommitsIff | internal/service/approval/engine.go:24-136 | when a submit commits, and that its refusal is that of the first condition that fails: existence, draft, receipt and positive total, a governing rule, known approvers |
| Effects.ApprovedByAll | internal/service/approval/engine.go:113-136 | over any run an approved transaction carries an approving decision by the approver of every rule that governed its submit, at that rule's step |
| ApprovalService.ActivateNext | internal/service/approval/engine.go:347-396 | the loops with the -1 sentinel wait iff a decision is owed, else activate exactly the lowest waiting step, else approve the transaction |
| ApprovalService.DecidedSet | internal/service/approval/engine.go:356-364 | the decided map holds exactly the approvals that have a decision |
| ApprovalService.FindFirst | internal/service/approval/engine.go:390-395 | the last loop returns the first uncancelled approval of the activated step |
| ApprovalService.DecideApproval | internal/service/approval/engine.go:213-341 | exactly the decide step, with its input checks and guards in order; it succeeds for the two words only, by the approval's active approver, appends one decision that rejects iff the word is "rejected", and then the transaction and the reported status are rejected; "rejected" needs a note that is not blank; an error changes nothing |
| ApprovalService.RecordDecision | internal/service/approval/engine.go:264-335 | the writes and events of an accepted decision |
| Effects.DecideCommitsIff | internal/service/approval/engine.go:227-262 | a decision commits iff the approval is of a pending transaction of the organization, active, uncancelled, undecided, and the actor is its active approver |
| Effects.DecideRefusals | internal/service/approval/engine.go:227-262 | which refusal a decision gets |
| Effects.DecideWrites | internal/service/approval/engine.go:264-335 | a committed decision appends itself, leaves other transactions and their approvals alone, and the transaction is rejected iff the verdict rejects |
| Effects.RejectionCancels | db/queries/approvals.sql:39-43 | a rejection cancels exactly the undecided other approvals of its transaction |
| Effects.ApprovalAdvances | internal/service/approval/engine.go:347-396 | an approval activates exactly the waiting approvals of the lowest waiting step, once nobody else owes a decision, and approves the transaction iff none waits |
| ApprovalViews.Assigned | internal/service/approval/engine.go:398-429 | the queue holds each active, uncancelled, undecided approval of the user in live transactions of the organization once, the longest active first |
| ApprovalViews.QueueIsDecidable | db/queries/approvals.sql:45-61 | in every reachable state the queue lists exactly the approvals this user can decide, although the query tests no status |
| ApprovalViews.LowestOwed | db/queries/transactions.sql:40-42 | the subquery is the least step still owing a decision, NULL iff none does |
| ApprovalViews.ListedStepIsCurrent | db/queries/transactions.sql:40-42 | in every reachable state the listed current_step is the chain's step while pending, and NULL otherwise |
| ApprovalViews.BuildApprovals | internal/service/transaction/service.go:248-274 | the detail loop lists each approval of the transaction once, by step and creation, with decided before cancelled before waiting before pending |
| ApprovalViews.DetailStates | internal/service/transaction/service.go:256-272 | which states a detail can show for each transaction status, in every reachable state |
| ApprovalViews.ReportedStatusIff | internal/service/approval/engine.go:309-315 | the status Decide reports is the stored one iff the verdict rejects or no sibling of the step owes a decision |
| Witnesses.ReportedApprovedWitness | internal/service/approval/engine.go:371-373 | a run in which Decide reports approved while the row stays pending |
| Rules.ResolveMeaning | internal/service/approval/engine.go:48-64 | resolution yields every live rule of the project if it has any, else of the organization's default scope, once, ordered by step, with distinct approvers and steps 1..10 |
| Rules.ByStepSorts | db/queries/approval_rules.sql:45-51 | ordering by step is a permutation sorted by step |
| Rules.ReassignedKeepsRules | db/queries/approval_rules.sql:60-63 | bulk reassignment keeps the unique indexes iff the two approvers share no scope |
| Rules.ReassignedConservesSlots | db/queries/approval_rules.sql:60-63 | bulk reassignment keeps the multiset of live (scope, step) slots |
| ProjectService.ReassignRefusedIff | internal/service/approval/reassign.go:122-159 | a reassignment with something to move is refused iff both approvers serve one scope; a committed one conserves the slots |
| ProjectService.Reassign | internal/service/approval/reassign.go:106-161 | equal users and an inactive new approver are refused; otherwise exactly the reassign step: the new approver takes each live rule of the old one in the organization, no other rule changes |
| ProjectService.DeleteApprovalRule | internal/service/approval/service.go:246-287 | without interference a rule is refused as the last one iff it is the organization's only default rule; otherwise the method does exactly the delete step |
| ProjectService.DefaultRemainsIff | internal/service/approval/service.go:257-286 | in every reachable state with a default rule, committing a delete keeps one iff the deleted rule is not the only one at that moment |
| Witnesses.NoDefaultWitness | internal/service/approval/service.go:257-271 | a run with two deletes that both counted two default rules and together leave none |
| ProjectService.Delete | internal/service/project/service.go:264-308 | succeeds iff the project is live, of the organization, and has no live transaction and no document row of any kind; then its row says deleted and no other table changes |
| ProjectEffects.DeleteProjectEffect | internal/service/project/service.go:264-308 | when a project delete commits, which refusal it gets, and that it sets the deletion and nothing else |
| ProjectEffects.CreateProjectEffect | internal/service/project/service.go:61-110 | a new project is live and open, and its creator is a default approver of the organization; no other rule is added |
| ProjectEffects.ArchiveEffect | internal/service/project/service.go:310-362 | archiving and unarchiving commit iff the live project of the organization is not so already, and set that flag only |
| ProjectEffects.CreateRuleEffect | internal/service/approval/service.go:97-147 | a rule is added iff its step is 1 to 10 and no live rule of its scope has the approver |
| ProjectEffects.RuleEditEffect | internal/service/approval/service.go:187-286 | an update changes the step of one live rule of the organization, a delete its deletion, and nothing else |
| ProjectEffects.ReassignEffect | db/queries/approval_rules.sql:60-63 | a reassignment moves exactly the live rules of the old approver in the organization, and its event counts them |
| DraftGuarantees.DeletedProjectIsEmpty | internal/service/project/service.go:274-287 | in every reachable state a soft-deleted project has no live transaction and no document row |
| DraftGuarantees.NoDraftWhileArchived | db/queries/transactions.sql:1-16 | the only step that adds a transaction is OCR draft creation, and its project is live and not archived |
| DraftGuarantees.FrozenOnSubmit | internal/service/approval/engine.go:36-46 | once a transaction has left draft, no later step of any caller changes its header, total, items or live documents; its total stays above 0, a document stays, it is never deleted |
| DraftGuarantees.TotalIsExact | db/migrations/00008_transaction_items.sql:25-40 | at every commit of every run the stored total is the exact sum of the items and lies in 0..2^63-1 |
| DraftGuarantees.AttachGuardSuffices | internal/service/ocrconsumer/service.go:255-267 | comparing with the stored total decides it: the result is parked iff the true sum would leave int64, and otherwise the insert cannot fail and the item is appended |
| DraftGuarantees.UpdateFailsInDatabase | internal/service/transaction/service.go:431-444 | an edit of a draft fails in the database iff its rows break a check or their sum does not fit; validated items never do |
| DraftGuarantees.UpdateReplaces | internal/service/transaction/service.go:413-453 | an accepted edit leaves exactly the new items, their sum as total, a higher version, and every other transaction as it was |
| DraftGuarantees.EqualVersionEqualContents | db/migrations/00017_transaction_version.sql:7-17 | versions never fall, and two points of a run with equal version show the same row and items |
| DraftGuarantees.OneUpdatePerVersion | internal/service/transaction/service.go:409-424 | of several edits expecting one version at most one commits, whatever runs in between |
| Ledger.ValidateItems | internal/service/transaction/service.go:61-79 | int64 arithmetic never overflows; accepted iff at most 200 items with description, positive quantity, non-negative amount and true sum at most 2^63-1; otherwise the error is that of the first offending item |
| TransactionService.Update | internal/service/transaction/service.go:354-465 | every error of an edit in order; a committed edit sets description, rupiah and category; without items the items and the total stay and the version rises by one, with items the items are exactly those and the total their sum; no other transaction changes; a validated edit never fails in the database |
| TransactionService.UpdateTx | internal/service/transaction/service.go:394-457 | the locked part: not found, locked, changed, or exactly that edit |
| Effects.HeaderEditKeepsItems | internal/service/transaction/service.go:413-453 | an edit without items changes the header, raises the version by one, and leaves every transaction's items and total |
| Effects.UpdateEdits | internal/service/transaction/service.go:394-457 | what a committed edit leaves, with items and without, of its transaction and of the others |
| Effects.UpdateCommitsIff | internal/service/transaction/service.go:396-411 | an edit that passed validation commits iff the transaction is a live draft of the organization at the expected version; which refusal it gets otherwise |
| TransactionService.ReplaceItems | internal/service/transaction/service.go:431-444 | delete and reinsert with both triggers |
| TransactionService.Delete | internal/service/transaction/service.go:477-515 | succeeds iff the transaction is a live draft of the organization, which is then deleted in one step and announced in another |
| Effects.SoftDeleteEffect | db/queries/transactions.sql:69-72 | a soft delete commits iff the transaction is a live draft of the organization, and sets the deletion only |
| Store.Store.SyncTotal | db/migrations/00008_transaction_items.sql:25-36 | the trigger stores the exact item sum and bumps the version, or fails when it does not fit |
| Store.Store.FireSyncTotal | db/migrations/00008_transaction_items.sql:38-40 | the trigger fires once per affected row |
| Store.Store.WriteTransaction | db/migrations/00017_transaction_version.sql:7-17 | every update of a transaction row raises its version by one |
| Store.Store.InsertTransactionItems | db/migrations/00008_transaction_items.sql:13-14 | inserting rows succeeds iff each passes its checks and the new total fits |
| Store.Store.DeleteTransactionItems | db/migrations/00008_transaction_items.sql:38-40 | deleting all rows of a transaction leaves the others, total 0 |
| OcrGuarantees.ExactlyOnce | internal/service/ocrconsumer/service.go:158-215 | in any run, with duplicate deliveries, crashes, sweeps and deletes, a document causes one item and one matching event iff its OCR status is completed, none otherwise, and at most one draft |
| OcrGuarantees.ResultEffect | internal/service/ocrconsumer/service.go:226-285 | attach and draft creation take effect as a whole or leave items, transactions, events and completions alone |
| OcrGuarantees.OthersCompleteNothing | internal/service/ocrconsumer/service.go:328-386 | no other step completes a document, undoes a completion or emits an OCR transaction event |
| OcrGuarantees.ClaimedOnce | db/queries/documents.sql:70-77 | after one claim every later claim of the document changes nothing, in any run |
| OcrGuarantees.OcrOutcomeIsFinal | db/queries/documents.sql:93-106 | a document whose OCR ended keeps its OCR status and its transaction |
| OcrConsumer.Attach | internal/service/ocrconsumer/service.go:221-300 | the method does exactly the attach step; the ignored row count is always 1 |
| OcrConsumer.CreateDraftFor | internal/service/ocrconsumer/service.go:325-391 | the method does exactly the draft step, never fails on its own, and the ignored row count is always 1 |
| DocumentEffects.AttachWrites | internal/service/ocrconsumer/service.go:265-284 | an attach that completes its document adds the item to its draft, raises the total by the amount, emits one event, and changes nothing else |
| DocumentEffects.DraftWrites | internal/service/ocrconsumer/service.go:342-385 | a draft creation that completes its document adds one rupiah draft of the uploader in the document's project, with exactly the item, and binds the document to it |
| DocumentEffects.StatusWrites | db/queries/documents.sql:70-106 | claim, failure and parking change one OCR status of a live complete document and nothing else |
| OcrConsumer.Handle | internal/service/ocrconsumer/service.go:123-215 | one delivery is no step, unless the document is live and pending and the lease granted, and then the claim followed by exactly one result step; the error is that of the lease, or not found exactly when the result meets a deleted draft |
| OcrConsumer.ApplyResult | internal/service/ocrconsumer/service.go:186-215 | after the claim: fail, attach, park or create a draft; it errs exactly when the document's draft is deleted |
| OcrConsumer.RedeliveryChangesNothing | internal/service/ocrconsumer/service.go:137-139 | once a delivery has been handled, at any later point of any run a further result for the document takes no step |
| Deliveries.HandledOutcome | internal/service/ocrconsumer/service.go:175-215 | what an uninterrupted delivery makes of a pending document in any reachable state: failed iff the message says so, completed iff there is an item and a live fitting draft or an open project to put it in, still processing iff the result is no failure and the draft is deleted, else parked |
| Deliveries.DeliveryWrites | internal/service/ocrconsumer/service.go:123-215 | in every reachable state, a delivery that completes its document puts the item its result is worth into the document's draft, or into one new draft, with the matching event, and changes nothing else |
| Deliveries.StaysProcessing | internal/service/ocrconsumer/service.go:137-173 | in any run a claimed document stays in processing iff no effective result step for it runs; meanwhile every delivery for it takes no step |
| Deliveries.LeavesProcessing | db/queries/documents.sql:93-106 | one step takes a document out of processing iff it is a result step for it that meets a live document, its own undeleted draft or none, and an item that passes the row checks where one is written |
| Witnesses.StuckWitness | internal/service/ocrconsumer/service.go:231-233 | a run and a routed event the parser accepts whose whole delivery leaves the document in processing |
| OcrConsumer.SweptItem | internal/service/ocrconsumer/sweep.go:169-203 | on the sweep path a result yields an item iff the gateway says completed and the total is usable, at any confidence; the item is the one the result is worth |
| Extraction.EventItem | internal/service/ocrconsumer/service.go:79-121 | on the event path a result yields an item iff confidence is at least 0.7 and the total is usable; the item is the one the result is worth |
| Extraction.ParseMeaning | internal/service/ocrconsumer/service.go:79-121 | which records are messages, for which document, and whether failed, complete or to be reviewed |
| Extraction.TotalItemMeaning | internal/service/ocrconsumer/service.go:429-457 | an item comes exactly of a first total field that is extracted, in rupiah and not negative; it has that amount, quantity 1, and the merchant's name or else the file's, and passes the row checks |
| Extraction.FindField | internal/service/ocrconsumer/service.go:459-466 | the first field with the name, absent iff no field has it |
| UploadGuarantees.OneRowPerKey | db/migrations/20261017070706_document_upload_idempotency.sql:6-8 | over all runs at most one document per project, uploader and key |
| UploadGuarantees.CallsAgree | internal/service/document/service.go:254-286 | all calls with one key work on one row, however they race |
| UploadGuarantees.ReturnedMeansStored | internal/service/document/service.go:322-378 | after a call returned, for ever: its row is complete, the object at its path has the row's digest and size, and document.created was emitted exactly once |
| UploadGuarantees.CompleteMeansStored | internal/service/document/service.go:322-378 | in every reachable state the object of every complete row is at its path, with the recorded digest and size |
| UploadGuarantees.AnnouncedOnce | internal/service/document/service.go:365-377 | exactly one document.created event per completed row, none before |
| UploadGuarantees.RetryFindsRow | internal/service/document/service.go:129-158 | a repetition of a returned call is not found iff the transaction it names is soft-deleted; otherwise it finds its row iff the document is not deleted and still has the transaction the call named, and its key is refused if not |
| UploadGuarantees.RetryRefusedAfterDraft | internal/service/document/service.go:393-402 | a completed project-level document refuses its own upload from then on |
| Witnesses.RetryRefusedWitness | internal/service/document/service.go:217-220 | a run in which a returned upload is refused when repeated |
| Witnesses.RetryGoneWitness | internal/service/document/service.go:140-143 | a run in which a returned upload is not found when repeated, although its document is still there |
| DocumentService.Reserve | internal/service/document/service.go:254-286 | the method does exactly the reservation step |
| DocumentService.Complete | internal/service/document/service.go:338-378 | the method does exactly the completion step |
| DocumentService.UploadDocument | internal/service/document/service.go:118-391 | without interference: which error every upload gets in every state and when it leaves the database alone; a success answers with the complete document that the request describes, its bytes stored, and the same request finds it again |
| DocumentEffects.ReserveCommitsIff | internal/service/document/service.go:254-286 | when a reservation commits: an open project of the organization, a fitting target, and no row with the key that differs or is deleted |
| DocumentEffects.ReserveEffect | internal/service/document/service.go:254-286 | a reservation for a free key adds one incomplete row with what the client sent, and for a known key none |
| DocumentEffects.CompleteCommitsIff | internal/service/document/service.go:338-378 | when the completion of a stored upload commits: an open project, an open draft as target if any, and a row that is not deleted |
| DocumentEffects.StoreAndCompleteEffect | internal/service/document/service.go:315-378 | storing puts the call's bytes at its row's path; completing sets the row complete and announces it once |
| DocumentEffects.LookUpMeaning | internal/service/document/service.go:118-224 | what the row that a key names makes of a repeated upload: refused if it differs or is deleted, found if complete |
| DocumentEffects.FoundMeans | internal/service/document/service.go:217-224 | an upload is answered with a document only if that is the one described, complete, and its bytes are stored |
| DocumentService.Delete | internal/service/document/service.go:597-688 | succeeds iff the document is live, of the organization, and its transaction, before the locks and now, is one open draft or none; then exactly that document is deleted, with one event |
| Effects.DeleteCommitsIff | internal/service/document/service.go:618-660 | when a document delete commits |
| Effects.DeleteDeletes | db/queries/documents.sql:65-68 | a committed delete sets the deletion of its document and nothing else, with one event |
| Effects.DeletedForGood | db/queries/documents.sql:65-77 | in every later state of any run a deleted document stays deleted, counts for no transaction, and is never claimed by OCR |
| Invariants.StepKeepsInv | internal/repository/store.go:24-35 | every database transaction of every service keeps the invariant that couples rules, ledger, chains, documents, uploads, events and projects |
| Invariants.ReachableInv | internal/repository/store.go:24-35 | so every reachable database satisfies it |
| Evolution.RunEvolves | db/migrations/00017_transaction_version.sql:7-17 | over any run statuses only move forward, versions rise with every change, approvals are activated and cancelled once, decisions and events accumulate, deleted rows and final OCR results stay |
| Resubmission.NothingStarves | db/queries/documents.sql:131-152 | a document that stays eligible and unlocked until claimed, with m others sorting no later, is claimed within m / limit + 1 ticks |
| Resubmission.PassedOverOften | db/queries/documents.sql:144-145 | each tick that passes over an eligible document uses up a full batch of those ahead of it |
| Resubmission.FewerAhead | db/queries/documents.sql:148-151 | a claim moves its rows behind every eligible document, and nothing new gets ahead |
| Resubmission.ClaimsAreSpaced | db/queries/documents.sql:143-149 | two claims of one document are more than retryAfter apart |
| Resubmission.Sweeper.ClaimStale | db/queries/documents.sql:131-152 | takes unlocked complete pending documents without a job id, old enough and not tried lately, those that waited longest, up to the limit, and stamps exactly those |
| Resubmission.Sweeper.SetJobId | db/queries/documents.sql:108-116 | saves a job id iff the document is live, complete and has none |
| Resubmission.Sweeper.RetryUnsubmitted | internal/service/ocrconsumer/sweep.go:50-118 | the loop claims one batch and saves a job id for exactly the documents whose submission returned one before time ran out and whose row is by then still live and without one, and counts those |
| Resubmission.BatchIsLongestWaiting | db/queries/documents.sql:131-152 | a first-limit batch is the unlocked documents without a job id that waited longest, full if any is left out |
| Batches.Take | db/queries/documents.sql:144-145 | ORDER BY with LIMIT: distinct rows, in order, none left out sorts strictly before one taken |
| Outbox.PublishedWasAccepted | internal/service/outbox/service.go:97-111 | in any run of any number of workers a row marked published was accepted by Kafka at least once, and no event is lost |
| Outbox.UnpublishedBecomesClaimable | db/queries/outbox_events.sql:32-48 | an unpublished event that nobody touches, while others are handled, can be claimed exactly from the later of five minutes past its lock and its next attempt on; that is never more than five minutes after its last change |
| Outbox.BackoffRange | internal/service/outbox/service.go:116-121 | a failed event is claimable again exactly from its next attempt on, 5 to 30 seconds later |
| Outbox.HoldersAreExclusive | db/queries/outbox_events.sql:40-51 | if every claimant finishes within five minutes of its claim, no event is ever held twice |
| Outbox.ReclaimableIff | db/queries/outbox_events.sql:40-43 | in any run in which the event was never held twice, while in progress it can be claimed again exactly when its claim has outlived the five minutes |
| Outbox.SecondHolderIff | db/queries/outbox_events.sql:32-52 | in any run in which the event was never held twice, the next step can give it a second holder iff its own claim is overdue |
| Outbox.ExclusiveIffPrompt | db/queries/outbox_events.sql:32-52 | after a run without overdue claims the next step can give some event a second holder iff some claim is overdue now |
| Outbox.ExactlyOnceWhenPrompt | internal/service/outbox/service.go:67-127 | if every claimant finishes within five minutes and marks what it publishes, Kafka accepts each event exactly once, and only when its row says published |
| Outbox.ExactlyOnceWhenHeldOnce | internal/service/outbox/service.go:67-127 | the same for one event, if only that event is never held twice and never loses its mark, however slow others are |
| Outbox.SlowWorkerPublishesTwice | db/queries/outbox_events.sql:79-87 | a run that publishes one event twice because a claimant outlived its lease |
| Outbox.Publisher.ClaimPending | db/queries/outbox_events.sql:32-52 | locks unpublished due events nobody else has locked, the oldest, up to the limit, in order |
| Outbox.Publisher.PublishEvent | internal/service/outbox/service.go:67-127 | accepted: the unpublished row is published now and unlocked; refused: one attempt more, and the next one 5 to 30 seconds later by the attempts read at the claim; a mark that fails leaves the row alone, and so does a published row |
| Outbox.Publisher.PublishPending | internal/service/outbox/service.go:41-65 | takes the oldest due events, at most 100 by default, and treats each by its own answer; on every state with these rows it is the run of one claim and one step an event, so the theorems over runs cover it; what Kafka accepted is counted once |
| Outbox.RoundIsRun | internal/service/outbox/service.go:41-127 | one round of a publisher is a run of a claim and a step an event: it leaves the same rows, and Kafka has taken exactly what it accepted |
| Outbox.RunAppend | internal/service/outbox/service.go:41-65 | rounds compose with any other steps, so every theorem about runs covers them |
| Outbox.RoundHandles | internal/service/outbox/service.go:97-124 | what a round makes of each claimed event, answer by answer, and that it touches no other |
| Outbox.BatchIsOldestDue | db/queries/outbox_events.sql:32-52 | a first-limit batch is the oldest due events, full if any is left out |
| Money.GroupDigits | internal/service/approval/amount.go:25-47 | the left-to-right loop groups the numeral in threes, sign aside |
| Money.AppendGroups | internal/service/approval/amount.go:31-46 | a short first group, then groups of three |
| Money.GroupReminderDigits | internal/service/reminder/service.go:158-168 | the right-to-left loop groups the numeral in threes, sign aside |
| Money.SpliceDots | internal/service/reminder/service.go:164-166 | splicing from the right leaves the part before start alone and groups the rest |
| Money.FormatAmount | internal/service/approval/amount.go:13-22 | the currency prefix with the grouped amount, or the code with the plain numeral |
| Money.FormatReminderAmount | internal/service/reminder/service.go:146-156 | the same shape with the reminder's grouper |
| Money.FormattersAgree | internal/service/reminder/service.go:146-168 | both formatters give the same text for every amount and currency, except the smallest int64 in a grouped currency |
| Money.GroupShape | internal/service/approval/amount.go:40-45 | counted from the right every fourth character is a dot and no other: groups of three, the first of one to three |
| Money.GroupedUndone | internal/service/approval/amount.go:25-47 | dropping the dots gives back the numeral |
| Money.ShownAmountReadsBack | internal/service/approval/amount.go:13-22 | the shown digits of any amount a transaction can hold read back as that amount |
| Money.ReminderReadsBack | internal/service/reminder/service.go:146-168 | the reminder's digits read back for every int64, behind a minus sign if it is negative |

## Left out

- Authorization, membership and role lookups, leases and identity outages are inputs of the steps and methods. The checks before a rule is created or reassigned (project exists, approver is a member) are in the methods and not in the steps over runs, which allow more. Role rows, permissions and the creator's membership are not modelled.
- HTTP, Kafka and S3 transport, JSON, telemetry, logging and presigned links. Reading and hashing an upload is left out; content is a digest with a size.
- Names, e-mails, roles, notes, ocr_data, submitted_at, decided_at and updated_at. Notification payloads are assumed to validate, so emitting an event never fails.
- Ids are naturals and never reused; rows of rules and approvals are numbered in creation order, which also breaks ties of created_at.
- Lock order and deadlocks: a transaction that the database aborts is a step that does nothing.
- Interleaving inside one database transaction, apart from the approval row Decide reads before its lock and the document's transaction Delete reads before its locks. Reads that services make between transactions only add refusals, and the steps allow more than they do.
- The OCR result steps may come at any time and with any item, not only from the handler that claimed; this allows more runs than the code.
- The version column is an unbounded integer; its BIGINT would overflow after 2^63 updates.
- Workers' claims are atomic ticks. Clocks are shared, and a new document counts from its created_at.
- SweepStale is left out beyond its message: its loop calls Handle, whose steps are covered by the runs.
- Submit's wrapper, aging lists, the reminder scan, role and member management, list filters, CreateDocument without a key, ReleaseOutboxEventLock and the purge of published events would add easy members only.
- ProjectService.DeleteApprovalRule: does not model a concurrent delete between the count and the transaction; the step over runs has no count, and what that costs is ProjectService.DefaultRemainsIff.
- TransactionService.Delete: the event is a second transaction, so no atomicity of deletion and event is stated.
- Outbox.Publisher.PublishPending: one round reads the clock once and runs without other workers in between; the runs of `Outbox.Run` allow waits and other workers between all of its steps.
- Who is notified of an activated step beyond the one approver its event names, and the order of events per aggregate, are not stated.
