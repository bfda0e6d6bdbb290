# Approval engine, certificate distributor and update retry: a verified model

This project models three parts of the backend and proves what they promise, for every input and every run.

**The approval engine** (`internal/approval`). A submission is planned into ordered stages, each with a permission,
perhaps a team, and a quorum. Reviewers approve or reject stages; the submitter or a privileged user may cancel. The
engine writes to an approval store and a review store and calls the completer of the entity type. Any of these calls
may fail. `Planning` and `Traversal` say, as functions, what each call does; `ApprovalEngine` runs them as the source does,
on records changed in place through the stage slice, and is proved to do exactly that. `ApprovalSafety` proves the
invariant of every reachable state, `ApprovalProgress` the exact count of approvals, when an approval can still move and
how many owners it takes, `ApprovalFailures` what a lost save or a lost count does, `ApprovalDuties` separation of duties
and independence of the slice order, `ApprovalOutcomes` who is let through, what an accepted call leaves behind and what
is left when a call fails half way.

**The certificate distributor** (`internal/certdist`). A leader-gated loop compares the issued certificate, a bookkeeping
row and the tenant's secret, pushes when they disagree and records the outcome. Every call to a collaborator may fail or
panic, and a failing write may or may not have taken effect. `Distribution` is the specification, `DistributorLoop` the
loop, `DistributionProofs` isolation, convergence and bookkeeping, `DistributionTable` the table of what each reconcile
writes and what the gate lets through. `ReconcileSteps` takes one reconcile apart into its reads
and its writes, and `Leadership` interleaves them over several replicas that gain and lose leadership.

**The optimistic-concurrency retry** (`internal/cluster`). `Optimistic` has one API server object, any number of calls
interleaved request by request, and outsiders who rewrite, delete and recreate the object. `OptimisticProofs` proves what
every interleaving guarantees; `RetryClient` is the loop and its create-or-update client, whose runs are shown to be among
those interleavings.

Assumptions that hold throughout:

- An engine call is one atomic step: the source takes no lock, so this is an assumption about its callers.
- A failing approval-store or review-store call has no effect. A completer call that fails has been made.
- A failed `IsAdmin` lookup answers false, and a policy lookup never answers "no policy, no error" (the contract of
  `PolicyStore`, `internal/approval/ports.go:31-34`).
- A stage or approval key that is already in use is refused by the store.
- Times are naturals, identifiers are compared for equality only, and the fingerprint is an arbitrary function of the
  certificate bytes.

Six promises one might expect are false of the code, and the condition under which they hold is proved:

- *An approval with every stage approved is approved.* `ApproveStage` saves the last stage before the approval. If only the
  second save fails, the approval stays pending, no review can touch it again, and the completer is never told; only
  cancelling is left (`LostSaveWedges`, with a concrete run in `LostSaveExample`). A call that completes the stages approves
  the approval if and only if saving it does not fail (`CompletedIsApprovedIffSaved`), and over whole runs only that
  failure strands an approval (`StrandedOnlyByLostSave`).
- *An approval with a rejected stage is rejected.* `RejectStage` saves in the same order. If only the second save fails, the
  approval stays pending (`LostRejectionExample`), for good unless another stage was open (`LostRejectionWedges`,
  `LostRejectionFinalIff`). A call that first rejects a stage rejects the approval if and only if saving it does not fail
  (`RejectedIsClosedIffSaved`), and over whole runs only that failure leaves one half rejected
  (`HalfRejectedOnlyByLostSave`).
- *A stage with its quorum on record is approved.* The review is written before the count and before the stage. If either of
  these fails the stage stays pending, and everyone on record for it is refused from then on (`LostQuorumExample`,
  `OnRecordRefused`, `UnsettledUntilNewcomer`); only a newcomer can settle it (`NewcomerSettles`). The call that brings the
  quorum approves the stage if and only if neither fails (`QuorumSettlesIff`), and over whole runs only that failure leaves
  a quorum unused (`UnsettledOnlyByLostQuorum`).
- *A distributed certificate's issued metadata is recorded.* If only `SetIssuedMeta` fails, the certificate counts as
  distributed and no later run that leaves it alone records the metadata (`FailedMetaIsNeverRetried`, with a concrete
  certificate in `FailedMetaExample`). A failure-free reconcile records it if and only if it was right already or a push
  was due (`MetaRecordedIff`).
- *A row records the last push that was recorded.* A deposed replica that read its row before the new leader recorded a push
  may still save an error, and with it the old fingerprint and sync time (`LateSaveExample`). A save keeps them if and only
  if they have not changed since it read them (`SaveKeepsIffFresh`), and only another replica's save changes them in between
  (`StaleOnlyByOtherSave`). Rows stay backed by a push all the same (`RowsAreBackedEverywhere`), and the next pass of a sole
  leader converges (`SoleLeaderConverges`).
- *An error return of the retry means that nothing was written.* If the server carried out the last request and only its
  answer was lost, the object has changed (`LostAnswerExample`); an error hides a change if and only if that happened
  (`CleanFailure`, `LostOnlyByAnswer`).

## Model

| member | source | states |
|---|---|---|
| ApprovalModel.Effective | internal/models/approval.go:151-157 | The effective quota is the least number that is at least one and at least the configured one. |
| Planning.FirstOutside | internal/approval/planning.go:173-187 | The other-team search returns the first listed team absent from the submitter's set, and nothing exactly when there is none. |
| Planning.FindOutside | internal/approval/planning.go:173-187 | The map-filling loop and the search loop compute that first outside team. |
| Planning.ResolveScope | internal/approval/planning.go:152-192 | The scope switch returns the specified team, no restriction, or error for every scope and every lookup answer. |
| Planning.PlanStages | internal/approval/planning.go:18-93 | The planner as run, with its lookup chain and stage loop, refines the planning specification. |
| Planning.TemplatesPointwise | internal/approval/planning.go:73-86 | Templates plan if and only if every scope resolves, and the stages are then their pointwise image: same length, same order. |
| Planning.FirstUnresolved | internal/approval/planning.go:74-78 | A list that cannot be planned fails with the error of its first unresolvable template. |
| Planning.PlannedStagesAreFresh | internal/approval/planning.go:73-143 | A successful plan is non-empty and all its stages are pending, without reviewer, time or comment, and need at least one approver. |
| Planning.PolicyIsObeyed | internal/approval/planning.go:53-85 | The templates the chain selects, the action's own policy before the project default, are planned stage for stage without weakening order, permission, team or quorum. |
| Planning.RefusedForFirst | internal/approval/planning.go:74-78 | Selected templates that do not all resolve are refused with the error of the first that does not. |
| Planning.PlanSucceedsIff | internal/approval/planning.go:53-92 | Planning succeeds if and only if the chain action policy, project default, none selects readable templates whose scopes resolve, and a client attachment has a stage. |
| Planning.LookupFailuresSurface | internal/approval/planning.go:54-71 | A failed lookup and a corrupt policy are reported as such, exactly when they occur in the chain, never taken for a missing policy. |
| Planning.FallbackGate | internal/approval/planning.go:121-144 | Without templates the gate is one holder of the entity's approve permission; a client attachment is refused, with an error that tells a missing policy from an empty one. |
| Planning.OtherTeamScope | internal/approval/planning.go:168-187 | other_team is unrestricted if and only if every project team is one of the submitter's, and otherwise names the first that is not. |
| Planning.ScopeNeverWidens | internal/approval/planning.go:146-192 | A stage is open to all teams only by an explicit open scope or other_team without another team; submitter_team needs, and names, the submitter's first team; unknown scopes fail. |
| Planning.ScopeErrors | internal/approval/planning.go:152-192 | Which error a scope gives: exactly a failed lookup it needs, no team of the submitter, or an unknown scope. |
| Traversal.FindStage | internal/approval/traversal.go:362-369 | The result is the first stage with the id, and none exactly when no stage has it. |
| ApprovalEngine.ApprovalRecord.constructor | internal/approval/traversal.go:53-65 | A new in-memory approval has its own stage slice holding the given stages. |
| ApprovalEngine.ApprovalStore.GetByID | internal/approval/traversal.go:81-84 | A fetched approval is a fresh copy of the stored one, and a missing or unreadable one is an error. |
| ApprovalEngine.ApprovalStore.Create | internal/approval/traversal.go:67-70 | Creating stores the approval with the store's stage ids written into the caller's slice, or changes nothing. |
| ApprovalEngine.ApprovalStore.Update | internal/approval/traversal.go:144-146 | Saving overwrites exactly the approval's row with what is in memory, or nothing. |
| ApprovalEngine.ApprovalStore.UpdateStage | internal/approval/traversal.go:138-140 | Saving a stage overwrites exactly that stage row of that approval, or nothing. |
| ApprovalEngine.ReviewStore.Create | internal/approval/traversal.go:115-121 | A recorded review is appended to its stage's reviews, or nothing changes. |
| ApprovalEngine.Engine.constructor | internal/approval/engine.go:38-73 | A new engine over empty stores is in the initial state of every run. |
| ApprovalEngine.Engine.FindStage | internal/approval/traversal.go:362-369 | The search loop finds the first stage with the id. |
| ApprovalEngine.Engine.AllStagesApproved | internal/approval/traversal.go:375-385 | The loop answers whether every stage but the just approved one is approved. |
| ApprovalEngine.Engine.AuthorizeStageReview | internal/approval/traversal.go:275-356 | The checks, in the source's order, give the specified verdict or error for every reviewer. |
| ApprovalEngine.Engine.AlreadyReviewedBy | internal/approval/traversal.go:109-113 | The loop finds whether the reviewer has any review among those listed. |
| ApprovalEngine.Engine.Reviewable | internal/approval/traversal.go:81-95 | An approval is handed to a review only if readable, pending and completable, otherwise the specified error. |
| ApprovalEngine.Engine.ApproveStage | internal/approval/traversal.go:76-154 | The whole call, in-place changes included, has the specified effect on both stores, the completer and the reply, under every pattern of failures. |
| ApprovalEngine.Engine.CountAndSettle | internal/approval/traversal.go:123-153 | The half after the review: count, settle the stage through the slice, save, close when complete. |
| ApprovalEngine.Engine.Close | internal/approval/traversal.go:143-153 | Final status in memory, saved, completer told, re-fetched; stops at the first failure. |
| ApprovalEngine.Engine.RejectStage | internal/approval/traversal.go:157-218 | The whole call has the specified effect under every pattern of failures. |
| ApprovalEngine.Engine.RejectAndClose | internal/approval/traversal.go:193-217 | Stage rejected in place with reviewer, time and comment, saved, approval closed. |
| ApprovalEngine.Engine.Cancel | internal/approval/traversal.go:223-269 | The whole call has the specified effect under every pattern of failures. |
| ApprovalEngine.Engine.Submit | internal/approval/traversal.go:47-71 | Planning runs before the write, and the whole call has the specified effect. |
| ApprovalSafety.CountIsApprovers | internal/approval/traversal.go:123-127 | What the store counts is the number of different people who approved. |
| ApprovalSafety.AddReviewSafe | internal/approval/traversal.go:102-121 | Recording a newcomer's approval with the lower stages approved, or any rejection, keeps the invariant. |
| ApprovalSafety.PutStageSafe | internal/approval/traversal.go:133-140 | Settling a pending stage with its quorum, or as rejected, keeps the invariant. |
| ApprovalSafety.CloseSafe | internal/approval/traversal.go:142-150 | Saving a final status and calling the completer keeps the invariant, whichever of the two fails. |
| ApprovalSafety.AllApprovedMeansComplete | internal/approval/traversal.go:371-385 | Skipping the just approved stage in the final check hides nothing. |
| ApprovalSafety.ApproveSafe | internal/approval/traversal.go:76-154 | ApproveStage keeps the invariant and loses nothing recorded, under every pattern of failures. |
| ApprovalSafety.RejectSafe | internal/approval/traversal.go:157-218 | RejectStage likewise. |
| ApprovalSafety.SubmitSafe | internal/approval/traversal.go:47-71 | Submit likewise, and a new approval's stages have no reviews yet. |
| ApprovalSafety.StepSafe | internal/approval/traversal.go:47-269 | Every engine call keeps the invariant, and approvals, reviews and completer calls only grow. |
| ApprovalSafety.RunSafe | internal/approval/traversal.go:47-269 | So does every run. |
| ApprovalSafety.Quorum | internal/approval/traversal.go:102-150 | In every run an approved approval, or one whose completer heard of approval, has every stage approved, and each approved stage has its quorum of different people. |
| ApprovalSafety.CallbackTrace | internal/approval/traversal.go:142-266 | In every run the completer calls of one approval are a prefix of approved-cancelled, or rejected, or cancelled, and match the stored status. |
| ApprovalSafety.RejectedStageIsFinal | internal/approval/traversal.go:193-215 | Once a stage is rejected the approval is never approved nor the completer told so, even if saving the rejection failed. |
| ApprovalSafety.ClosedForGood | internal/approval/traversal.go:86-88 | A rejected or cancelled approval and its completer calls never change again. |
| ApprovalSafety.WhoReviews | internal/approval/traversal.go:97-121 | A stage's reviews change only by one review of an authorised reviewer in a review call about that stage. |
| ApprovalSafety.WhoCounts | internal/approval/traversal.go:115-127 | A stage's count of approvals changes only in an authorised ApproveStage call of that stage. |
| ApprovalSafety.StageOrder | internal/approval/traversal.go:307-317 | In every run approved stages are downward closed, and an approval is recorded only while every lower-order stage is approved. |
| ApprovalProgress.ExactStatus | internal/approval/traversal.go:127-150 | With exact books an approval is approved if and only if the approvals given are the sum of the quotas. |
| ApprovalProgress.CleanApprove | internal/approval/traversal.go:76-154 | A failure-free approve call is refused without a trace or adds exactly one approval and keeps the books exact. |
| ApprovalProgress.Untouched | internal/approval/traversal.go:76-269 | A call about one approval leaves every other approval and its reviews alone. |
| ApprovalProgress.CleanRun | internal/approval/traversal.go:76-154 | Over a run without failure, rejection or cancellation the approvals given grow by the accepted calls. |
| ApprovalProgress.SubmittedIsExact | internal/approval/traversal.go:47-71 | A submission starts pending, with exact books and no approval given. |
| ApprovalProgress.ApprovedExactlyAtQuota | internal/approval/traversal.go:123-150 | The approval becomes approved on exactly the call that brings the accepted approvals to the sum of the quotas, and is pending before. |
| ApprovalProgress.OpenIff | internal/approval/traversal.go:307-317 | An approval can move if and only if some pending stage is of no higher order than every rejected one. |
| ApprovalProgress.ExactIsOpen | internal/approval/traversal.go:307-317 | Without failure, rejection or cancellation a pending approval always has a reviewable stage. |
| ApprovalProgress.AdvanceIffOpen | internal/approval/traversal.go:275-356 | In every reachable state a fresh owner can advance a pending approval if and only if it is open. |
| ApprovalProgress.RejectableIffOpen | internal/approval/traversal.go:157-218 | In every reachable state an owner other than the submitter can reject a pending approval if and only if it is open. |
| ApprovalProgress.NotOpenRefused | internal/approval/traversal.go:290-317 | When it is not open, no review of it by anyone changes anything, under any pattern of failures. |
| ApprovalProgress.StuckForGood | internal/approval/traversal.go:290-317 | A pending approval that is not open never changes again unless it is cancelled. |
| ApprovalProgress.OwnersFinish | internal/approval/traversal.go:76-154 | A pool of owners that can still fill each stage's quota finishes a clean approval with one accepted call for each approval missing. |
| ApprovalProgress.PoolFinishesIff | internal/approval/traversal.go:102-150 | Owners of a pool can finish a clean approval on their own if and only if each stage's approvals and the members who have not reviewed that stage reach its quota together. |
| ApprovalProgress.LargestQuotaSuffices | internal/approval/traversal.go:109-113 | As many fresh owners as the largest quota suffice, since one owner may approve every stage once. |
| ApprovalFailures.LostSaveWedges | internal/approval/traversal.go:138-150 | When only saving the approval after its last stage fails, it stays pending with every stage approved, and the completer is never told, in every later run without a cancellation. |
| ApprovalFailures.LostSaveExample | internal/approval/traversal.go:138-150 | One submission and one approval reach such a state. |
| ApprovalFailures.CompletedIsApprovedIffSaved | internal/approval/traversal.go:142-146 | Only an approval call completes the stages, and it approves the approval if and only if saving it does not fail. |
| ApprovalFailures.StrandedOnlyByLostSave | internal/approval/traversal.go:142-146 | Over whole runs an approval is pending with every stage approved only by the call that completed its stages, and only because saving it failed in that call. |
| ApprovalFailures.LostRejectionWedges | internal/approval/traversal.go:199-215 | When only saving the approval after its rejected stage fails and no other stage was open, it stays pending with a rejected stage, and the completer is never told, in every later run without a cancellation. |
| ApprovalFailures.LostRejectionExample | internal/approval/traversal.go:199-215 | One submission and one rejection reach such a state. |
| ApprovalFailures.LostRejectionFinalIff | internal/approval/traversal.go:199-215 | After that failure an owner can still reject the approval if and only if another stage was open. |
| ApprovalFailures.RejectedIsClosedIffSaved | internal/approval/traversal.go:199-206 | Only a rejection call gives a pending approval its first rejected stage, and it rejects the approval if and only if saving it does not fail. |
| ApprovalFailures.HalfRejectedOnlyByLostSave | internal/approval/traversal.go:199-206 | Over whole runs an approval is pending with a rejected stage only by the call that rejected it first, and only because saving the approval failed in that call. |
| ApprovalFailures.QuorumSettlesIff | internal/approval/traversal.go:115-140 | Only an approval of the stage brings it its quorum, and it approves the stage if and only if neither the count nor saving the stage fails. |
| ApprovalFailures.UnsettledOnlyByLostQuorum | internal/approval/traversal.go:123-140 | Over whole runs a stage is pending with its quorum on record only by the call that brought it, and only because the count or saving the stage failed in that call. |
| ApprovalFailures.OnRecordRefused | internal/approval/traversal.go:105-113 | An approval by anyone on record for the stage fails and changes nothing, whatever else fails. |
| ApprovalFailures.UnsettledUntilNewcomer | internal/approval/traversal.go:109-140 | Such a stage stays pending, its quorum on record, in every later run in which only people on record approve it and nobody rejects it. |
| ApprovalFailures.NewcomerSettles | internal/approval/traversal.go:115-140 | The first failure-free approval by somebody new approves it. |
| ApprovalFailures.LostQuorumExample | internal/approval/traversal.go:109-126 | One submission and one approval reach such a state, and the approver cannot repeat the approval. |
| ApprovalDuties.ApproversQualified | internal/approval/traversal.go:319-353 | In every run, whatever the lookups answer from call to call, every approving review it adds to a stage with a team comes from an approval of that stage by a reviewer who was then an owner, a project admin or a member of the team. |
| ApprovalDuties.OtherTeamStage | internal/approval/planning.go:168-187 | The team planned for an other_team stage is a team of the project and none of the submitter's. |
| ApprovalDuties.SeparationOfDuties | internal/approval/planning.go:168-187 | The same of every approver of an other_team stage; the submitter is no member of its team when submitting, if IsMember puts them in no project team that their listed teams lack; and so never approves it, even with self-approval allowed, unless they have become a member, an admin or an owner by the time of an approval of their own. |
| ApprovalDuties.SameVerdicts | internal/approval/traversal.go:307-385 | Permuting the stages changes neither the order check nor the final check. |
| ApprovalDuties.SameAuthorization | internal/approval/traversal.go:275-356 | Permuting the stages changes no verdict on a reviewer, nor which stage it is about. |
| ApprovalDuties.SliceOrderIrrelevant | internal/approval/traversal.go:307-385 | Permuting the stages changes nothing about a review call: same reply, writes and completer calls. |
| ApprovalOutcomes.AuthorizeIff | internal/approval/traversal.go:275-356 | A reviewer is let through if and only if the stage is pending and next, self-review is allowed or not at issue, and they are privileged or hold the permission and the team. |
| ApprovalOutcomes.AuthorizeErrors | internal/approval/traversal.go:290-353 | Which error a reviewer gets: the first of pending, self-review, order, permission lookup, permission, membership lookup and membership that fails. |
| ApprovalOutcomes.UnknownStage | internal/approval/traversal.go:285-288 | An unknown stage is reported exactly when no stage has the id. |
| ApprovalOutcomes.ApproveIff | internal/approval/traversal.go:76-121 | A failure-free approval is accepted if and only if the reviewer may review the stage and has not reviewed it before. |
| ApprovalOutcomes.RejectIff | internal/approval/traversal.go:157-218 | A rejection is accepted if and only if it has a comment, the reviewer may review the stage and no call but the audit write fails; earlier reviews do not matter. |
| ApprovalOutcomes.CancelIff | internal/approval/traversal.go:223-269 | A cancel is accepted if and only if the approval is pending or approved, the user is submitter, owner, admin or let in by the completer, and no call fails; the status changes, with one completer call, exactly when it is permitted and saved; the reply is the stored, cancelled approval. |
| ApprovalOutcomes.SubmitIff | internal/approval/traversal.go:47-71 | A submission is stored if and only if the lookup chain selects readable templates whose scopes resolve, a client attachment has a stage, and the store takes the row and its stage ids; otherwise nothing changes. |
| ApprovalOutcomes.SubmissionTakesEffect | internal/approval/traversal.go:47-71 | What is stored is the spec, pending, with the planned stages under the ids the store gave them, and it is the reply; otherwise the reply is planning's error or the store's. |
| ApprovalOutcomes.RefusalsLeaveNoTrace | internal/approval/traversal.go:76-269 | A run is what it would be without its refused calls. |
| ApprovalOutcomes.ApprovalTakesEffect | internal/approval/traversal.go:115-153 | An accepted approval records one review of that stage only and approves the stage exactly when this gives it its quorum of different people. |
| ApprovalOutcomes.RejectionTakesEffect | internal/approval/traversal.go:185-217 | An accepted rejection rejects the stage, with reviewer, time and comment, and the approval, and the completer hears of it once. |
| ApprovalOutcomes.ApproveCutShort | internal/approval/traversal.go:105-153 | A failing store or completer call ends an approval there: earlier writes stay, later ones are not made, and the caller is told. |
| ApprovalOutcomes.RejectCutShort | internal/approval/traversal.go:185-217 | Likewise for a rejection, where a failing audit write costs only the audit record and the caller is not told of it. |
| ApprovalOutcomes.ApproveErrors | internal/approval/traversal.go:76-154 | Which error an approval that is not accepted answers, in the source's order of checks. |
| ApprovalOutcomes.RejectErrors | internal/approval/traversal.go:157-218 | The same for a rejection. |
| ApprovalOutcomes.CancelErrors | internal/approval/traversal.go:223-269 | The same for a cancel. |
| ApprovalOutcomes.CallbackFailures | internal/approval/traversal.go:147-149 | The completer's failure is the reply exactly when it was called and failed. |
| ApprovalOutcomes.GatesArePlanned | internal/approval/traversal.go:44-65 | In every run a stored approval demands, stage by stage, exactly what was planned for its submission. |
| DistributorLoop.Distributor.NeedsPush | internal/certdist/certdist.go:255-269 | The row is asked before the tenant; an unreadable tenant secret means push. |
| DistributorLoop.Distributor.UpsertDist | internal/certdist/certdist.go:275-299 | The row is filled in step by step, keeping id and sync time of the existing row, and saved as its store call decides. |
| DistributorLoop.Distributor.ReconcileOne | internal/certdist/certdist.go:191-246 | One reconcile has the specified effect on row, secret, metadata and result, whatever its calls do. |
| DistributorLoop.Distributor.ReconcileOneSafely | internal/certdist/certdist.go:173-183 | Errors and panics are dropped, their effects stay. |
| DistributorLoop.Distributor.Serve | internal/certdist/certdist.go:158-165 | The loop with its break is the pass over exactly the prefix before leadership was first found lost. |
| DistributorLoop.Distributor.Reconcile | internal/certdist/certdist.go:145-168 | Without leadership or a list nothing is written, otherwise that pass. |
| Distribution.Served | internal/certdist/certdist.go:146-163 | The number of certificates served: the gate answered yes at the start and before each of them, and no before the next. |
| DistributionProofs.OneIsLocal | internal/certdist/certdist.go:191-246 | A reconcile depends on the stores only through its own certificate's row, secret and metadata. |
| DistributionProofs.OneKeepsRest | internal/certdist/certdist.go:191-246 | A reconcile changes no other certificate's row, secret or metadata, however its calls end. |
| DistributionTable.ReconcileWrites | internal/certdist/certdist.go:191-299 | Exactly which writes a reconcile tries, in which order and with which contents: push, row with id, project, status, fingerprint, message and time, metadata. |
| DistributionTable.ReconcileEnd | internal/certdist/certdist.go:191-246 | Its result is that of its last write; without writes it ends well unless a read it needed did not. |
| DistributionTable.ReconcileIsReplay | internal/certdist/certdist.go:191-246 | The stores after a reconcile are those before with its writes carried out as far as they were. |
| DistributionTable.PassWritesAlone | internal/certdist/certdist.go:158-183 | A pass writes about each certificate what a reconcile of it alone writes. |
| DistributionTable.NoLeaderNoWrite | internal/certdist/certdist.go:146-156 | Without leadership, or without a list, a pass changes and writes nothing. |
| DistributionTable.GateDecides | internal/certdist/certdist.go:145-168 | A listed certificate is reconciled, exactly as if alone, if and only if leadership held at the start and before each certificate up to it; otherwise it is neither changed nor written about. |
| DistributionTable.OnlyListed | internal/certdist/certdist.go:158-165 | What is not listed is neither changed nor written about. |
| DistributionProofs.PassIsolates | internal/certdist/certdist.go:158-183 | In a pass each certificate ends as if reconciled alone, whatever errors and panics the others meet. |
| DistributionProofs.PassOrderIrrelevant | internal/certdist/certdist.go:158-165 | Permuting the list gives the same final state. |
| DistributionProofs.OneConverges | internal/certdist/certdist.go:191-246 | From any row and any tenant secret one failure-free reconcile of an issued server certificate converges. |
| DistributionProofs.QuietIff | internal/certdist/certdist.go:229-231 | A reconcile that can read row and source writes nothing if and only if the certificate is not distributed, or has converged and the tenant confirms it. |
| DistributionProofs.SyncedTellsTheTruth | internal/certdist/certdist.go:216-239 | Whenever the outcome can be recorded, the row says synced if and only if the certificate has converged. |
| DistributionProofs.StatusTellsWhy | internal/certdist/certdist.go:216-235 | Otherwise it says pending exactly when the source is not issued, and an error naming the failed step when reading or pushing failed. |
| DistributionProofs.WholePairOrUntouched | internal/certdist/certdist.go:233-235 | The tenant secret is left alone or becomes the whole issued pair, and only in an attempted push of a server certificate. |
| DistributionProofs.PassConverges | internal/certdist/certdist.go:191-269 | From any state one pass that keeps leadership through a certificate and serves its calls leaves it converged, whatever the others meet. |
| DistributionProofs.ConvergedIsQuiet | internal/certdist/certdist.go:255-269 | Once all certificates have converged, undisturbed passes write nothing. |
| DistributionProofs.SecondPassIsQuiet | internal/certdist/certdist.go:145-269 | From any state, after one failure-free pass over issued certificates the next undisturbed pass writes nothing. |
| DistributionProofs.ConvergedStays | internal/certdist/certdist.go:191-269 | Nothing that leaves a converged certificate alone, over any number of passes and drift of other secrets, changes its row, secret or metadata. |
| DistributionProofs.FailedMetaIsNeverRetried | internal/certdist/certdist.go:229-243 | When only SetIssuedMeta fails, the metadata was not right before and is not right after any later run of passes that leaves the certificate alone. |
| DistributionProofs.FailedMetaExample | internal/certdist/certdist.go:229-243 | That happens to the first certificate ever distributed, over any number of failure-free passes. |
| DistributionProofs.MetaRecordedIff | internal/certdist/certdist.go:229-243 | A failure-free reconcile leaves the metadata right if and only if it was right already or a push was due. |
| DistributionProofs.MetaFollowsTheRow | internal/certdist/certdist.go:233-243 | Metadata is written only after the push and the row succeeded, and is then the recorded fingerprint. |
| DistributionProofs.BookkeepingStep | internal/certdist/certdist.go:206-299 | Fingerprint and sync time are set together, only after a successful push of that fingerprint in the same reconcile, and then without a message; every other path keeps both, and the row id never changes. |
| DistributionProofs.RowsAreBacked | internal/certdist/certdist.go:191-299 | In every run each row's fingerprint and sync time are those of one successful push of its certificate, or it never synced and holds neither. |
| Leadership.Deposed | internal/certdist/certdist.go:146-163 | A replica that is not leader begins no certificate and finishes at most the one in flight. |
| Leadership.LossAllowsOneMore | internal/certdist/certdist.go:158-163 | After a loss of leadership the deposed replica finishes at most one reconcile. |
| Leadership.HeadDecides | internal/certdist/certdist.go:158-163 | At the head of the loop a leader begins the next certificate of its list; a leader without one, and a replica that lost leadership, end the pass. |
| Leadership.NoStartWithoutLeadership | internal/certdist/certdist.go:146-148 | Only a leader starts a pass. |
| Leadership.LeaderServesAll | internal/certdist/certdist.go:158-165 | A leader that keeps leadership can always serve the rest of its list, in order, whatever its calls meet. |
| Leadership.FinishesPrefix | internal/certdist/certdist.go:158-165 | What a replica finishes in a pass is a prefix of its list. |
| Leadership.BeginsPrefix | internal/certdist/certdist.go:158-165 | What a replica begins in a pass is a prefix of what it had not begun. |
| ReconcileSteps.StepsAreReconcileOne | internal/certdist/certdist.go:191-246 | Reading, pushing, saving the row and recording the metadata, one after the other, are the whole reconcile. |
| Leadership.AloneIsAPass | internal/certdist/certdist.go:145-168 | A run in which only one replica takes steps leaves the stores, once what it has in flight is finished, as the sequential pass over the certificates it began. |
| Leadership.PassAppend | internal/certdist/certdist.go:158-165 | A pass over two lists, with or without repetitions, is the pass over the first and then the pass over the second. |
| Leadership.OneCertPass | internal/certdist/certdist.go:158-165 | A pass over one certificate is its reconcile. |
| Leadership.SoleLeaderConverges | internal/certdist/certdist.go:145-246 | From any state of the system, whatever other replicas have half done, the next pass of a leader that works alone converges every issued certificate it serves without a failure. |
| Leadership.RowsAreBackedEverywhere | internal/certdist/certdist.go:191-299 | In every interleaving of the steps of any number of replicas each row's fingerprint and sync time are those of one successful push of its certificate, or it never synced and holds neither. |
| Leadership.SaveKeepsIffFresh | internal/certdist/certdist.go:216-235 | The save of a failed reconcile keeps the recorded fingerprint and sync time if and only if they have not changed since it read them. |
| Leadership.StaleOnlyByOtherSave | internal/certdist/certdist.go:206-235 | They change in between only by another replica's save of the same certificate. |
| Leadership.LateSaveExample | internal/certdist/certdist.go:206-235 | A deposed replica's late save puts back the old fingerprint and sync time after the new leader pushed and recorded the new certificate. |
| OptimisticProofs.StepKeeps | internal/cluster/client.go:149-167 | Every request of every call and every outside change keeps the invariant of server and calls. |
| OptimisticProofs.Linearised | internal/cluster/client.go:149-167 | A call that succeeded, or lost only the answer, made exactly one change, its own whole content in place of the very object its last attempt read, under that uid, nothing in between. |
| OptimisticProofs.CleanFailure | internal/cluster/client.go:157-166 | A call has changed something if and only if it succeeded or the answer to its last request was lost, and no call exceeds its attempts. |
| OptimisticProofs.LostOnlyByAnswer | internal/cluster/client.go:157-166 | Over whole runs an error return hides a change only by a create or write that the server carried out and whose answer was lost. |
| OptimisticProofs.LostAnswerExample | internal/cluster/client.go:157-166 | One call and one lost answer reach such a state. |
| OptimisticProofs.Conserved | internal/cluster/client.go:149-167 | As many installed versions as calls that succeeded or lost only the answer, and the stored content is the whole content of the last author or the initial one. |
| OptimisticProofs.RefusedWrite | internal/cluster/client.go:158-165 | A write to an existing object succeeds exactly when nothing changed since its read; otherwise it is refused, changes nothing, and the first change since is a foreign one to the very object read. |
| OptimisticProofs.WriteReplies | internal/cluster/client.go:157-166 | How a call goes on after a write in every reachable state: only a conflict is tried again, and only within the bound; a write that finds no object ends the call with that error and changes nothing. |
| OptimisticProofs.ReadReplies | internal/cluster/client.go:158-163 | A read stamps version and uid, and nothing else, on the caller's object; a read that fails or finds no object ends the call. |
| OptimisticProofs.CreateReplies | internal/cluster/controlplane.go:48-55 | An existing object is updated; any other failure of the create ends the call. |
| OptimisticProofs.BeginsAsAsked | internal/cluster/client.go:149-157 | A call begins with the object and the bound it was given and changes nothing yet. |
| OptimisticProofs.KeepsItsContent | internal/cluster/client.go:150-156 | Over every run a call keeps the content it was given. |
| OptimisticProofs.BoundedInterference | internal/cluster/client.go:157-166 | Conflicts are paired with distinct foreign changes, each after that attempt's read and before its write, and each refused write found the object under another version; so giving up takes at least as many as the bound. |
| OptimisticProofs.FewForeignWritesSucceed | internal/cluster/client.go:157-166 | A call that finds the object throughout and overlaps fewer foreign changes than its bound has succeeded once it returns. |
| OptimisticProofs.Terminates | internal/cluster/client.go:157-166 | From any reachable state a call makes at most two requests for each attempt it has left, and one create. |
| OptimisticProofs.RetryIsARun | internal/cluster/client.go:157-166 | The retry loop against any outsiders is one of the interleavings, namely its own attempts in order as far as it makes them, so everything above holds of it. |
| OptimisticProofs.ApplyIsARun | internal/cluster/controlplane.go:47-56 | So is create-or-update from its Create on. |
| OptimisticProofs.RetryReturns | internal/cluster/client.go:157-166 | The loop always ends with a verdict. |
| OptimisticProofs.QuietAttemptSucceeds | internal/cluster/client.go:157-166 | One attempt within the bound with no write between its read and update is enough, however often others rewrote the object before. |
| RetryClient.ApiServer.Create | internal/cluster/controlplane.go:48-52 | Creating refuses an existing object and otherwise stores the new one; a request that fails may have been carried out. |
| RetryClient.ApiServer.Update | internal/cluster/client.go:137-141 | Updating refuses a stale version or a different uid and otherwise installs the whole desired object; a request that fails may have been carried out. |
| OptimisticProofs.UpdateIff | internal/cluster/client.go:137-141 | An update is accepted exactly on the stored version and uid, and stores the whole content under the same uid and a new version. |
| OptimisticProofs.CreateIff | internal/cluster/controlplane.go:48-52 | A create is accepted exactly when there is no object. |
| RetryClient.UpdateWithRetry | internal/cluster/client.go:149-167 | The loop that stamps the caller's object in place does exactly the specified attempts and returns their verdict. |
| RetryClient.Apply | internal/cluster/controlplane.go:47-56 | Create, then update with retry if the object exists; any other create failure ends it. CreateOrUpdateTLSSecret (internal/cluster/tls_secret.go:24-49) has the same shape. |

## Left out

- The approval a completer is handed: a completer call is its kind and the approval's id, made after the approval is saved.
- Interleaving of two engine calls between their store calls: the source takes no lock, and each call is one step here.
- ApprovalStore uniqueness rules beyond primary keys, and database transactions: only as calls that may fail.
- ApprovalDuties.SliceOrderIrrelevant: covers approve and reject; a completer's own cancel rule may look at the stage order.
- Decoding of a policy's JSON: a policy's templates are given, or it is not valid JSON.
- Error messages: an error is its kind, with the stage order for planning errors; the wrapped texts are not modelled.
- Engine construction with a nil dependency, which panics, and Register: the completers are fixed.
- Distributor construction with a nil dependency, the ticker and notification loop of Run, and logging.
- SetIssuedMeta's own database write beyond success or failure, and the expiry time it also records.
- DistributionProofs.OneConverges: speaks of the certificate, its fingerprint and the row; drift of the tenant's key alone
  is never looked for by the code. That a push writes the whole pair is WholePairOrUntouched.
- Leadership.Step: the reads of one reconcile (row, source, tenant secret) are one step, and each write is one; a push is
  one step although it is itself a create and an update with retry. A row saved by two replicas that both found none carries
  the id of the last save; which id the database keeps then is not claimed.
- The Postgres advisory lock: the gate is a Boolean that may change at any time.
- Backoff times of the retry, and the value of client-go's default bound: the bound is any positive number. client-go is
  not part of this model.
- HTTP handlers, routing and wiring, AI and DNS providers, manifest builders, the end-to-end harness, PEM, x509, base64 and
  SHA-256.
