# Verified model of the question bank's API

The API of the question bank runs its commands as transactions over shared tables.
This project states those transactions in Dafny and proves what they keep, whatever
order they commit in. It also proves the self-contained algorithms of the same code
base.

## The content lifecycle

`ContentTables` has the rows (`Question`, `QuestionVersion`, `ContentReview`,
`QuestionReport`, audits, users), `ContentArm` the lock-and-compare step every
command takes, `ContentCommands` and `ReviewBatch` one function from database to
database for each command, and `AccountErasure` the deletion of an author.
`ContentStore` is the same thing as a class: its fields are the tables, and each
method updates them statement by statement and is proved to do what the function
says, including that a failed transaction leaves every table as it was.

What a command is for is stated a second time, on the rows alone.
`LifecycleAnswers`, `ArchiveAnswers`, `ContentAnswers`, `ImportAnswers` and
`ReportAnswers` say of each command on current rows when it commits, with which
failure it ends otherwise, and every row it leaves, without the lock-and-compare
step or the commit functions. `PublicationPath` draws the conclusion over runs: no
open version of an active administrator is ever stuck. `ErasureRows` says of every
row what erasing a user does to it, and `ErasedUsers` that an erased user is named
nowhere afterwards.

A command reads rows before its transaction begins and writes from what it read.
`ContentEvents` therefore describes a run as a list of database states in which each
event says *which earlier state* its reads come from. Two relations carry the
proofs: `Inv` (`ContentInvariant`), which every state satisfies, and `Follows`
(`ContentOrder`), which every earlier state has to every later one: phases only
grow, row versions grow within a phase, and the same id at the same row version and
phase is the same lifecycle row. Optimistic concurrency is the statement that a
commit on old rows is the command taken as one step on the database it commits to.

That statement holds for every command but one. **A publication reads its target and
the question's versions in two queries and never compares the row version of the one
with that of the other.** `PublishConcurrency.StalePublish` shows that a publication
on old rows is the atomic publication exactly when the two agree, and
`PublishRace.PublicationOnOldRowsCommits` builds the run in which they do not: the
version is approved, withdrawn, requested and approved again by a second
administrator between the two reads, whose publication then commits. The row version
goes from 6 back to 4, and the review of the publication names the first approver,
not the latest one. The aggregate rules and the chain of reviews survive that run.
The count of row versions does not: `ContentAccounting` shows that a version's row
version is the number of its writes exactly when every publication of that version
had reads that agree. Nor does a row version still name one row: in that run the
version has row version 4 once while it is open and once when it is published.
`RowVersions` shows that over a run equal row versions of a version mean equal rows
exactly when every publication of that version had reads that agree.

## Sessions and accounts

`Rotation` models the re-authentication of an administrator: intents, pending and
active sessions, proofs, and the audit log. `RotationSafety` has the invariant and
its preservation under sixteen kinds of step in any order; `RotationRecovery` has
the consequences for a caller that never gets the answer to its commit;
`RotationAnswers` has the answer of each step on the rows and the whole way of an
administrator with a linked account; `RotationStore` is the class. `Lease` models
the clean-up of provider accounts before an erasure, `LeaseSafety` its fencing,
`LeaseProgress` what each step selects and that every request that is not in
quarantine can be finished, `LeaseBatch` the erasure batch over a list read before,
and `LeaseStore` is the class.

## Algorithms

- `JsonGrammar` is the grammar of RFC 8259 (sections 2 to 7) as concrete syntax
  trees, `JsonRecogniser` the scanner's descent as functions, `JsonSound` and
  `JsonComplete` the two directions, `JsonEscapes` what a string denotes and when
  two keys are the same, `JsonScanner` the class with its mutable index,
  `LimitedBody` the bounded body around it.
- `Routes` and `RouteTargets` are the protected-route classifier; `RouteNames` says
  by name which segments are protected.
- `CanonicalJson`, `Ordering`, `Utf8`, `ExportBody`, `ExportDocument` and
  `ExportPages` are the paged, bounded export; `CanonicalReads` and `ExportReads`
  read its text back with the grammar of `JsonGrammar`; `ExportOutcome` is its
  look-up after an unknown commit.
- `ImportValidation` and `ImportValidator` are the import rules and the loops that
  check them; `ImportApplied` says what an applied import leaves.
- `Dispositions` and `BatchCommands` are what a caller is told about a failed
  transaction, and the two batch commands built on that; `ToldCodes` says what each
  code tells.
- `RateLimit` and `EmailDispatcher` are the fixed-window limiter and the bounded
  dispatcher.

## Where the code and its promises differ

- A publication may commit on rows that do not belong together (above).
- The fixed window admits at most 2·limit − 1 calls in a window length, not 2·limit,
  and the bound is met.
- Every SQLSTATE of class 40 is taken for a rollback. Class 40 contains 40003,
  statement completion unknown; for exactly that state a stated rollback can be a
  commit (`Dispositions.MisleadsExactly`), and a batch can be told something untrue
  about an item (`BatchCommands.MisreportsExactly`). Question commands and workflow
  commands read the state in two different ways, so the failures that carry it are
  not the same for both (`Dispositions.ReadersDiffer`).
- After the first success a batch shows a command whose outcome is unknown as
  failed. For given answers of honest commands its count can be below the number of
  commits exactly when some item after a success was told that its outcome is
  unknown (`BatchCommands.CountsLowExactly`), and a commit whose answer is lost is
  such an item (`BatchCommands.CountCanBeLow`).
- A publication on rows that disagree may name an approver who is not the latest
  (`PublishRace.PublicationOnOldRowsCommits`). It names the latest one exactly when
  both of its reads have the same latest approver
  (`PublishConcurrency.PublishNamesLatestExactly`), for which agreeing row versions
  are enough.

## Model

| member | source | states |
|---|---|---|
| `ContentRuns.RunIsSound` | apps/api/src/admin/adminOperationArm.ts:170-441 | In every state of every interleaving of all commands, author erasure included, the row rules and the aggregate rules hold, and every later state follows every earlier one |
| `ContentRuns.StepIsGood` | apps/api/src/admin/adminQuestionCommandRepository.ts:193-1477 | One committed transaction, planned on any earlier states, keeps the invariant and follows the state it commits to |
| `ContentRuns.SeededIsSound` | apps/api/prisma/migrations/20261105090000_baseline/migration.sql:1676-1746 | A seeded bank satisfies the invariant |
| `ContentGuarantees.AggregatesInEveryState` | apps/api/src/admin/adminOperationArm.ts:297-382 | In every state: at most one open candidate; the current reference is set exactly when one published version exists, and names it; an archived question has none and only retired versions; numbers are 1 to n |
| `ContentGuarantees.NumbersAreOneToCount` | apps/api/src/admin/adminQuestionCommandRepository.ts:355-370 | The version numbers of a question with n versions are exactly 1 to n, each once |
| `ContentGuarantees.ReplayGivesStatus` | apps/api/src/admin/adminQuestionCommandRepository.ts:777-800 | In every state the reviews of a version chain from its birth status to its present status |
| `ContentGuarantees.PendingUsersLeaveNoCandidate` | apps/api/src/auth/accountErasureAuthority.ts:586-651 | A user whose deletion is pending is the author of no open version, so erasing that user abandons nothing |
| `ContentConcurrency.SameVersionRow` | apps/api/src/admin/adminOperationArm.ts:213-246 | Same id, row version and phase in two states of a run means the same lifecycle row, across every writer |
| `ContentConcurrency.StaleTransition` | apps/api/src/admin/adminQuestionCommandRepository.ts:646-838 | A review transition that commits on old rows has the result of the same transition on the rows it commits to |
| `ContentConcurrency.StaleCreateQuestion` | apps/api/src/admin/adminQuestionCommandRepository.ts:197-295 | A small case of the same: a creation reads only two flags beforehand, and the transaction looks at both again |
| `ContentConcurrency.StaleCreateVersion` | apps/api/src/admin/adminQuestionCommandRepository.ts:297-435 | The same for creating a version, the maximum number and the open flag included |
| `ContentConcurrency.StaleUpdate` | apps/api/src/admin/adminQuestionCommandRepository.ts:437-644 | The same for an edit, although target, options and tags are read at three moments |
| `ContentConcurrency.StaleImport` | apps/api/src/admin/adminQuestionWorkflowRepository.ts:349-580 | A small case of the same: the validity seen beforehand is computed again in the transaction |
| `PublishConcurrency.StalePublish` | apps/api/src/admin/adminQuestionCommandRepository.ts:848-1068 | A publication that commits on old rows is the atomic publication if and only if the aggregate it read holds the row version of the target it read |
| `PublishConcurrency.CoherentPublish` | apps/api/src/admin/adminQuestionCommandRepository.ts:848-1068 | With agreeing reads the publication is atomic; the exact set of referenced users carries the approver snapshot |
| `PublishConcurrency.PublishNamesLatestExactly` | apps/api/src/admin/adminQuestionCommandRepository.ts:973-1041 | The review of a publication on old rows names the latest approver at the commit if and only if the target and the aggregate were read with the same latest approver; it always names the one read with the target |
| `PublishConcurrency.CoherentPublishNamesLatest` | apps/api/src/admin/adminQuestionCommandRepository.ts:973-1041 | A corollary: reads that agree on the row version of the target agree on its latest approver, so the review names that approver |
| `PublishConcurrency.StaleRetire` | apps/api/src/admin/adminQuestionCommandRepository.ts:1122-1266 | A retirement that commits on old rows is the atomic retirement |
| `PublishConcurrency.StaleArchive` | apps/api/src/admin/adminQuestionCommandRepository.ts:1268-1477 | An archive that commits on rows read at two moments is the atomic archive |
| `ReportConcurrency.StaleTriage` | apps/api/src/admin/adminQuestionWorkflowRepository.ts:759-869 | A triage that commits on an old report is the atomic triage |
| `ReportConcurrency.StaleResolve` | apps/api/src/admin/adminQuestionWorkflowRepository.ts:871-1050 | A resolution that commits on an old report and an old remediation version is the atomic resolution |
| `BatchConcurrency.StaleBatch` | apps/api/src/admin/adminQuestionWorkflowRepository.ts:127-333 | A review request batch that commits on old targets is the atomic batch |
| `PublishRace.PublicationOnOldRowsCommits` | apps/api/src/admin/adminQuestionCommandRepository.ts:848-1041 | A concrete run of seven events by two administrators in which a publication commits on rows of two different approvals: on its own database the same request is a version conflict, the row version falls from 6 to 4, which the version had before while it was open, and the review names the first approver although the second one is the latest |
| `ContentPreservation.TransitionKeeps` | apps/api/src/admin/adminQuestionCommandRepository.ts:96-131 | Each of the four review transitions keeps every rule, with its review as evidence |
| `ContentPreservation.PublishKeeps` | apps/api/src/admin/adminQuestionCommandRepository.ts:973-1041 | A publication keeps every rule whatever row versions it writes |
| `ContentPreservation.RetireKeeps` | apps/api/src/admin/adminQuestionCommandRepository.ts:1196-1250 | A retirement keeps every rule |
| `ContentPreservation.ArchiveKeeps` | apps/api/src/admin/adminQuestionCommandRepository.ts:1369-1466 | An archive, which retires the current version and abandons the candidate, keeps every rule |
| `ContentPreservation.InsertVersionKeeps` | apps/api/src/admin/adminQuestionCommandRepository.ts:355-398 | Adding the version numbered one above the maximum keeps every rule |
| `ContentPreservation.UpdateKeeps` | apps/api/src/admin/adminQuestionCommandRepository.ts:504-605 | Replacing the content of an editable, unpinned version keeps every rule |
| `CommandPreservation.PublishCommitKeeps` | apps/api/src/admin/adminQuestionCommandRepository.ts:848-1068 | A publication that arms has found an approved target and the exact current version, and its commit keeps the invariant |
| `CommandPreservation.ArchiveCommitKeeps` | apps/api/src/admin/adminQuestionCommandRepository.ts:1268-1466 | An archive that arms names every open candidate and the current version, no more, and its commit keeps the invariant |
| `CommandPreservation.ResolveCommitKeeps` | apps/api/src/admin/adminQuestionWorkflowRepository.ts:937-1024 | A resolution that commits refers to a later version of published lineage in the same question, and keeps the invariant |
| `CommandPreservation.ImportCommitKeeps` | apps/api/src/admin/adminQuestionWorkflowRepository.ts:409-534 | An import that commits keeps the invariant, all items at once |
| `LifecycleAnswers.TransitionAnswers` | apps/api/src/admin/adminQuestionCommandRepository.ts:646-838 | Every answer of the four review transitions on current rows: which failure in which order, and a commit exactly when an active administrator names the row version of a version in a state the transition takes, only the author requesting and only another administrator asking for changes; the row, the review and the audit it leaves |
| `LifecycleAnswers.PublishAnswers` | apps/api/src/admin/adminQuestionCommandRepository.ts:848-1068 | A publication on current rows commits exactly when an active administrator names both row versions of an approved version, whether the question has a current version or not; that version is then retired as replaced, the target is current, and each has its review |
| `LifecycleAnswers.RetireAnswers` | apps/api/src/admin/adminQuestionCommandRepository.ts:1122-1266 | A retirement on current rows commits exactly when an active administrator names both row versions of a published version; the question is left without a current one |
| `ArchiveAnswers.ArchiveAnswer` | apps/api/src/admin/adminQuestionCommandRepository.ts:1268-1477 | An archive on current rows commits exactly when an active administrator names the row version of an active question and its open version as it is, or that there is none; with no, one or two versions to close, each is closed with its own reason and review |
| `ContentAnswers.CreateQuestionAnswer` | apps/api/src/admin/adminQuestionCommandRepository.ts:197-295 | Every answer of a creation: it commits exactly when an active administrator gives whole content with one to twelve known tags that no other question holds |
| `ContentAnswers.CreateVersionAnswer` | apps/api/src/admin/adminQuestionCommandRepository.ts:297-435 | Every answer of a version creation on current rows: it commits exactly for an active question without an open version, under its row version, with such content; the number is one above the count |
| `ContentAnswers.UpdateAnswer` | apps/api/src/admin/adminQuestionCommandRepository.ts:437-644 | Every answer of an edit on current rows: it commits exactly when the author names the row version of an editable, unpinned version and gives such content under the same option ids |
| `ContentAnswers.ChangedInOrder` | apps/api/src/admin/adminQuestionCommandContent.ts:329-374 | The fields an edit records are exactly those that differ, in the fixed order |
| `ImportAnswers.ImportAnswer` | apps/api/src/admin/adminQuestionWorkflowRepository.ts:349-580 | Every answer of an import: it commits exactly when an active administrator gives items that are whole, known and new to the bank and to one another, and then the bank holds exactly those more |
| `ImportAnswers.BatchCommitsExactly` | apps/api/src/admin/adminQuestionWorkflowRepository.ts:127-333 | A batch of different versions on current rows commits exactly when its author, an active administrator, may request a review of each under the row version named |
| `ReportAnswers.TriageAnswer` | apps/api/src/admin/adminQuestionWorkflowRepository.ts:759-869 | A triage on current rows commits exactly when an active administrator names the row version of an open report, and assigns it to that administrator |
| `ReportAnswers.ResolveAnswer` | apps/api/src/admin/adminQuestionWorkflowRepository.ts:871-1050 | A resolution on current rows commits exactly when an active administrator names the row version of a triaged report and, if a remedy is named, resolves it by a later version of the same question that is or was published; the report is resolved or dismissed as asked, with or without a remedy |
| `PublicationPath.CandidateCanBePublished` | apps/api/src/admin/adminQuestionCommandRepository.ts:646-1068 | From every reachable state every open version of an active administrator has a run of at most three more commits after which it is current with the content it has now |
| `ContentMeaning.CompleteIsWhole` | apps/api/prisma/migrations/20261108090000_remove_tag_applicability_and_snapshots/migration.sql:74-97 | The content check passes exactly for four options at the places 1 to 4 with four different texts, one of them correct, and one to twelve tags |
| `ContentMeaning.FingerprintIdentifies` | apps/api/src/admin/adminQuestionCommandContent.ts:21-41 | Two contents have one fingerprint exactly when they agree in every field that counts, whatever the ids and the order of their options |
| `ContentMeaning.DuplicateIsHeld` | apps/api/src/admin/adminQuestionCommandContent.ts:43-95 | Content counts as a duplicate exactly when some version of another question holds the same content |
| `ErasurePreservation.EraseKeeps` | apps/api/src/auth/accountErasureAuthority.ts:143-393 | Erasing an author abandons every open version, replaces every reference to the user, and keeps the invariant |
| `ErasurePreservation.EraseBumpsOnce` | apps/api/src/auth/accountErasureAuthority.ts:172-254 | Erasure raises the row version of every version of the author by exactly one, open or closed, and of no other version |
| `ErasureRows.EraseAnswer` | apps/api/src/auth/accountErasureAuthority.ts:143-393 | An erasure commits exactly when the user is there, and every row of every table is then as stated: reports the user filed lose their text and name the deleted actor, reports the user only handled keep their text and lose the handler, open versions of the user are closed with evidence, and no other row changes |
| `ErasedUsers.ErasedIsNowhere` | apps/api/src/auth/accountErasureAuthority.ts:143-393 | In every state of every run an erased user is named as a live user by no version, question, review, audit or report |
| `ErasureOrder.EraseFollows` | apps/api/src/auth/accountErasureAuthority.ts:143-393 | The state after an erasure follows the state before it, with approvers changed only to their deleted form |
| `ContentOrder.FollowsTwo` | apps/api/src/admin/adminOperationArm.ts:188-247 | Following is transitive, so the relation holds across any number of commits |
| `ContentEvidence.StepIsEvident` | apps/api/src/admin/adminQuestionCommandEvidence.ts:211-260 | Each commit either adds reviews for different versions and changes no content, or adds none and changes content only in an editable version that keeps its status; the log before stays |
| `MovedVersions.MovedExactlyRecorded` | apps/api/src/admin/adminQuestionCommandEvidence.ts:211-260 | In each commit of a run a version changes its status if and only if exactly one new review is about it, from the status before to the status after; every new review is such a record |
| `ReviewedContent.PublishedContentIsReviewed` | apps/api/src/admin/adminQuestionCommandContent.ts:376-422 | In every state of every run a published version that was not seeded has the content it had when its latest approval was written and when the request before it was |
| `ReviewedContent.RemediationIsStable` | apps/api/src/admin/adminQuestionWorkflowRepository.ts:937-1024 | A remediation version named by a resolved report stays in the same question, has a higher number, and stays published or retired after publication, in every later state |
| `ContentAccounting.RowVersionsCountWrites` | apps/api/src/auth/accountErasureAuthority.ts:172-234 | In every state of every run a row version plus what incoherent publications took from it is 1 + reviews + update audits + tombstone, so it equals that count if and only if every publication of this version read agreeing rows |
| `RowVersions.RowVersionNamesRow` | apps/api/src/admin/adminOperationArm.ts:213-246 | Over every run, equal row versions of a version mean equal rows if and only if every publication of this version read agreeing rows |
| `RowVersions.StepBumps` | apps/api/src/admin/adminQuestionCommandRepository.ts:193-1477 | Every commit leaves a version row alone or raises its row version by exactly one, except for the target of a publication |
| `ContentAccounting.StepCounts` | apps/api/src/admin/adminQuestionCommandRepository.ts:579-593 | Each step adds the same amount to a row version and to its evidence, but a publication whose reads disagree: it takes from its target, and from no other version, exactly what the target grew by between the reads |
| `BatchPlanning.BatchRefinesItemChecks` | apps/api/src/admin/adminQuestionWorkflowRepository.ts:142-305 | For distinct versions and no concurrent change the batch commits exactly when the plain in-order check of every item passes, and fails with the error of the lowest failing item, although only a prefix is armed and locks go by id |
| `BatchPlanning.CommittedBatchMovesEveryItem` | apps/api/src/admin/adminQuestionWorkflowRepository.ts:230-305 | A committed batch moves every item, its i-th review belongs to the i-th item, and no other version changes |
| `BatchPlanning.FirstFailureIsLowest` | apps/api/src/admin/adminQuestionWorkflowRepository.ts:142-208 | The planned failure is that of the lowest index that fails |
| `ContentStore.Store.ArmOperation` | apps/api/src/admin/adminOperationArm.ts:170-441 | The locking loops find the violation the specification names, and derive exactly the referenced users |
| `ContentStore.Store.TransitionVersion` | apps/api/src/admin/adminQuestionCommandRepository.ts:646-838 | Statement by statement, the tables become what the atomic transition says, or stay as they were |
| `ContentStore.Store.PublishVersion` | apps/api/src/admin/adminQuestionCommandRepository.ts:848-1068 | The same for a publication, with the replaced version retired first |
| `ContentStore.Store.RetireVersion` | apps/api/src/admin/adminQuestionCommandRepository.ts:1122-1266 | The same for a retirement |
| `ContentStore.Store.ArchiveQuestion` | apps/api/src/admin/adminQuestionCommandRepository.ts:1268-1466 | The same for an archive |
| `ContentStore.Store.CreateQuestion` | apps/api/src/admin/adminQuestionCommandRepository.ts:197-295 | The same for creating a question with its first version, option by option |
| `ContentStore.Store.CreateVersion` | apps/api/src/admin/adminQuestionCommandRepository.ts:297-435 | The same for creating a version |
| `ContentStore.Store.UpdateVersion` | apps/api/src/admin/adminQuestionCommandRepository.ts:437-605 | The same for an edit, with its loops over options and tags |
| `ContentStore.Store.ApplyImport` | apps/api/src/admin/adminQuestionWorkflowRepository.ts:409-534 | The same for an import, item by item |
| `ContentStore.Store.RequestReviews` | apps/api/src/admin/adminQuestionWorkflowRepository.ts:210-331 | The same for a review request batch |
| `ContentStore.Store.TriageReport` | apps/api/src/admin/adminQuestionWorkflowRepository.ts:771-862 | The same for a triage |
| `ContentStore.Store.ResolveReport` | apps/api/src/admin/adminQuestionWorkflowRepository.ts:895-1042 | The same for a resolution |
| `ContentStore.Store.EraseUser` | apps/api/src/auth/accountErasureAuthority.ts:143-393 | The same for an erasure, version by version |
| `RotationSafety.StepKeeps` | apps/api/src/auth/adminFreshAuthority.ts:70-176 | Sixteen kinds of step, among them prepare, stage, finalize, complete, abort, clean-up, sign-out and erasure, keep the rotation invariant |
| `RotationRecovery.RotationRules` | apps/api/src/auth/adminFreshPrepare.ts:74-183 | In every state: one unfinished intent for each old session; every pending session named by a staged intent; one audit row for each finalized intent and none for the others; a finalized intent's old session is gone |
| `RotationRecovery.RotationIsExact` | apps/api/src/auth/adminFreshAuthority.ts:284-359 | A completed rotation is of a proof whose account is linked to its user; it removes exactly the old session, adds exactly one active session of the same user and generation and exactly one audit row, and changes nothing else |
| `RotationAnswers.PrepareAnswer` | apps/api/src/auth/adminFreshPrepare.ts:27-194 | A preparation is refused unless a verified administrator is signed in under the token, contended exactly while an unexpired intent for the session is in progress, and otherwise puts one new intent in place of the expired one |
| `RotationAnswers.StageProofAnswer` | apps/api/src/auth/adminFreshProof.ts:81-121 | A proof is staged exactly for a prepared, unexpired intent of a signed-in administrator whose named provider account is linked, and lives no longer than the intent and two minutes |
| `RotationAnswers.CompleteAnswer` | apps/api/src/auth/adminFreshAuthority.ts:385-488 | A completion rotates exactly when the proof is live and unused, its account is linked, its intent is prepared and unexpired, the old session holds under the given token and the new names are new |
| `RotationAnswers.LinkedAdminRotates` | apps/api/src/auth/adminFreshShared.ts:56-94 | A verified administrator with an active session, a linked account and no rotation in progress can prepare, stage a proof and complete it; the new session then holds and the old one is gone |
| `RotationAnswers.ReconcileAnswer` | apps/api/src/auth/adminFreshRecovery.ts:21-140 | Looking a rotation up again finds it exactly when its proof is live and completed and the replacement is still signed in under the token asked for |
| `RotationAnswers.AbortAnswer` | apps/api/src/auth/adminFreshRecovery.ts:143-184 | An abort leaves a finalized intent alone and says so; any other goes with the pending session it named, and nothing else does |
| `RotationAnswers.CleanupAnswer` | apps/api/src/auth/adminFreshRecovery.ts:217-305 | A clean-up removes exactly the chosen intents that ran out or were finalized a quarter of an hour ago, and the pending sessions they named |
| `RotationRecovery.CancelUndoesNothing` | apps/api/src/auth/adminFreshRecovery.ts:143-214 | Read off the definitions: a cancellation leaves completed proofs, finalized intents, active sessions and audits alone |
| `RotationRecovery.NothingAfterAbort` | apps/api/src/auth/adminFreshRecovery.ts:143-184 | Once the intent of a proof is gone or finalized, no later event of the run completes that proof, whatever else happens |
| `RotationRecovery.CancelFreesTheSession` | apps/api/src/auth/adminFreshRecovery.ts:187-214 | After a true rollback a cancellation lets the owner of the old session prepare again at once |
| `RotationRecovery.StoredUntilOver` | apps/api/src/auth/adminFreshRecovery.ts:217-305 | A committed rotation stays stored under every later step until its proof has expired or its user was erased; clean-up comes later than that |
| `RotationRecovery.LostReplyIsFound` | apps/api/src/auth/adminFreshRecovery.ts:102-140 | While the completed proof is live and the new session holds authority, reconciling finds exactly that session |
| `RotationRecovery.ReturnedIsDurable` | apps/api/src/auth/ssoAdminFreshRepository.ts:158-185 | Whether the commit is answered, unanswered or rolled back, and however late the caller reconciles, a session is returned only if the run contains its rotation |
| `RotationRecovery.ReconciledHolds` | apps/api/src/auth/adminFreshRecovery.ts:21-100 | A reconciled session holds authority, the old session is gone and the audit row is there |
| `RotationRecovery.CompletedByCommit` | apps/api/src/auth/adminFreshAuthority.ts:467-478 | A proof is marked completed only by a committed rotation with that session |
| `RotationStore.Store.PrepareIntent` | apps/api/src/auth/adminFreshPrepare.ts:27-194 | Statement by statement, the tables become what preparing says |
| `RotationStore.Store.StageSession` | apps/api/src/auth/adminFreshAuthority.ts:70-176 | The same for staging the replacement |
| `RotationStore.Store.FinalizeRotation` | apps/api/src/auth/adminFreshAuthority.ts:178-383 | The same for finalizing |
| `RotationStore.Store.CompleteRotation` | apps/api/src/auth/adminFreshAuthority.ts:385-488 | The same for the whole rotation in one transaction, rolled back when any part refuses |
| `RotationStore.Store.CancelProof` | apps/api/src/auth/adminFreshRecovery.ts:187-214 | The same for a cancellation |
| `RotationStore.Store.CompleteCall` | apps/api/src/auth/ssoAdminFreshRepository.ts:139-186 | Commit, reconcile and cancel in their order under every fate of the commit: a returned session holds, an error with a known outcome leaves no rotation |
| `LeaseSafety.StepKeeps` | apps/api/src/auth/ssoAccountAuthority.ts:702-884 | Claim, begin, record, complete, submit and time keep the lease invariant |
| `LeaseSafety.OneCallOutstanding` | apps/api/src/auth/ssoAccountAuthority.ts:801-835 | In every state a request has at most one unsettled call, under its current lease, and one confirmed call for each completed provider |
| `LeaseSafety.OutstandingFencesOthers` | apps/api/src/auth/ssoAccountAuthority.ts:719-756 | While a call is outstanding no step changes the lease token or begins another call |
| `LeaseSafety.NoEraseWhileOutstanding` | apps/api/src/auth/accountErasureAuthority.ts:445-466 | A request with an outstanding call cannot be completed |
| `LeaseSafety.RunKeepsHistory` | apps/api/src/auth/ssoAccountAuthority.ts:847-884 | Completed providers, deletions, erased users and settled calls stay as they are in every later state |
| `LeaseSafety.DeletionErases` | apps/api/src/auth/accountErasureAuthority.ts:425-477 | Behind every deleted request of a run stands the step that completed it, with every provider of its non-empty list completed before; its user is erased from then on |
| `LeaseSafety.QuarantineIsForever` | apps/api/src/auth/ssoAccountAuthority.ts:719-756 | An abandoned call or a failed one is never taken up again |
| `LeaseProgress.ClaimChangesExactly` | apps/api/src/auth/ssoAccountAuthority.ts:702-770 | A claim leases exactly the chosen requests whose user waits, with a provider left that is not done, no call open and no live or quarantined lease; nothing else changes |
| `LeaseProgress.SubmittedFinishes` | apps/api/src/auth/accountErasureAuthority.ts:586-651 | After any submission by an active user with linked providers there is a run of claim, begin, record and complete that ends with the request deleted and the user erased |
| `LeaseProgress.FreeFinishes` | apps/api/src/auth/ssoAccountAuthority.ts:719-756 | The same from any waiting request that is free, one with an expired lease included, in two steps for each provider left and two more |
| `LeaseProgress.HolderFinishes` | apps/api/src/auth/ssoAccountAuthority.ts:801-884 | The holder of a live lease takes the request to its end with one call and one record for each provider left |
| `LeaseProgress.FinishableExactly` | apps/api/src/auth/ssoAccountAuthority.ts:719-756 | A waiting request with work left can be finished if and only if it is not in quarantine |
| `LeaseProgress.SubmitsExactly` | apps/api/src/auth/accountErasureAuthority.ts:586-651 | A request is submitted exactly for an active user, and lists exactly the linked providers, none called yet |
| `LeaseProgress.BeginsExactly` | apps/api/src/auth/ssoAccountAuthority.ts:801-835 | A call begins exactly for the holder of a live lease with no call open, at a provider not done; only the request row changes |
| `LeaseProgress.RecordsExactly` | apps/api/src/auth/ssoAccountAuthority.ts:837-884 | A report is recorded exactly for the holder of a live lease whose open call it is about; what each of the three reports leaves of the row |
| `LeaseProgress.CompletesExactly` | apps/api/src/auth/accountErasureAuthority.ts:425-477 | Completing says yes exactly for a deleted request and for a waiting one with providers and none left; the latter is closed and its user erased, every other row only losing that user |
| `LeaseStore.Store.ClaimCleanups` | apps/api/src/auth/ssoAccountAuthority.ts:702-770 | The claiming loop gives exactly the claimable requests their new leases |
| `LeaseStore.Store.BeginCleanup` | apps/api/src/auth/ssoAccountAuthority.ts:801-835 | Begins exactly when the lease is held, no call is active and the provider is not completed |
| `LeaseStore.Store.RecordCleanup` | apps/api/src/auth/ssoAccountAuthority.ts:837-884 | Records exactly for the holder of the lease and the active provider |
| `LeaseStore.Store.CompleteRequest` | apps/api/src/auth/accountErasureAuthority.ts:425-477 | Erases the user exactly when the request is complete |
| `LeaseStore.Store.RunBatch` | apps/api/src/auth/ssoAccountRepository.ts:332-361 | The loop sorts the listed entries into completed, pending and failed, each list in list order, decides pending by the rows as listed, and counts a call that rejects as failed |
| `LeaseBatch.BatchVerdicts` | apps/api/src/auth/ssoAccountRepository.ts:343-360 | An entry is pending exactly when its listed providers are not all done; a completed entry that was not listed as deleted leaves a deleted request with all providers done; a request is deleted only when an entry asked for it and its providers were done |
| `LeaseBatch.PickHas` | apps/api/src/auth/ssoAccountRepository.ts:343-360 | An id is in a list exactly when some entry with that id has the verdict of the list |
| `LeaseBatch.PickSorts` | apps/api/src/auth/ssoAccountRepository.ts:343-360 | The three lists together have as many ids as were listed |
| `JsonSound.Soundness` | apps/api/src/auth/authGateway.ts:174-338 | Whatever the descent accepts is a JSON text of depth at most 100 with distinct member names |
| `JsonComplete.Completeness` | apps/api/src/auth/authGateway.ts:174-338 | Every such text is accepted; a corollary of `JsonComplete.TreeDecides` |
| `JsonComplete.TreeDecides` | apps/api/src/auth/authGateway.ts:174-338 | However a text is spelled by a tree of the grammar, it is accepted exactly when that tree is not too deep and repeats no name: the longest reading is the only one |
| `JsonComplete.AcceptsExactlyJson` | apps/api/src/auth/authGateway.ts:174-338 | Both directions as one equivalence, over all texts |
| `JsonComplete.NumberComplete` | apps/api/src/auth/authGateway.ts:230-238 | Taking the longest number loses no parse |
| `JsonSound.DecodeUnescapes` | apps/api/src/auth/authGateway.ts:240-276 | Decoding a scanned key gives the string its lexeme is read as, so names are compared after unescaping; what a lexeme denotes is in `JsonEscapes` |
| `JsonEscapes.CodedDenotes` | apps/api/src/auth/authGateway.ts:240-276 | Four hexadecimal digits denote a unit exactly when the i-th digit, in either letter case, has the value (u / 16^(3-i)) mod 16 |
| `JsonEscapes.CharDenotes` | apps/api/src/auth/authGateway.ts:240-276 | A character of a string, literal, short or coded, is read as a unit exactly when it denotes it by RFC 8259, section 7; the eight short escapes are listed |
| `JsonEscapes.ReadAsSpelled` | apps/api/src/auth/authGateway.ts:240-276 | The text a lexeme is read as is the only one its characters denote |
| `JsonEscapes.AcceptedUnlessTwins` | apps/api/src/auth/authGateway.ts:278-338 | A text the grammar spells is accepted exactly when nothing in it is deeper than 100 and no object has two keys that denote the same text, in any mix of spellings |
| `JsonEscapes.EscapedTwinIsRejected` | apps/api/src/auth/authGateway.ts:310-320 | The text with the keys a and \u0061 is rejected |
| `JsonScanner.JsonMemberScanner.Scan` | apps/api/src/auth/authGateway.ts:166-338 | The scanner with its mutable index returns normally exactly on JSON texts |
| `LimitedBody.ReadBody` | apps/api/src/auth/authGateway.ts:355-429 | The chunk loop's result depends on the bytes alone: the limits and the declared length, not the cuts |
| `LimitedBody.BodyMeans` | apps/api/src/auth/authGateway.ts:355-429 | Which bodies are read, and which are too large, ill declared or broken off, each exactly |
| `LimitedBody.ReadJsonBody` | apps/api/src/auth/authGateway.ts:431-445 | A body is accepted exactly when it passes the limits and decodes to a JSON object with distinct names and bounded depth |
| `LimitedBody.ObjectByFirst` | apps/api/src/auth/authGateway.ts:438-441 | The value of a JSON text is an object exactly when its first character other than space is a brace |
| `Routes.DecodeInvertsEncode` | apps/api/src/app/protectedRouteExclusion.ts:351-376 | One decoding pass undoes any escaping that escapes every percent sign |
| `Routes.EscapeDecodes` | apps/api/src/app/protectedRouteExclusion.ts:351-376 | A percent escape decodes to a character exactly when its two digits have the values u / 16 and u mod 16 |
| `RouteNames.ProtectedByName` | apps/api/src/app/protectedRouteExclusion.ts:325-349 | Segments are protected exactly when, without empty and dot segments, they begin with api, v1 and admin or question-reports in whatever letter case |
| `RouteNames.LowerMeans` | apps/api/src/app/protectedRouteExclusion.ts:325-349 | Two segments have one normal form exactly when they differ in the case of ASCII letters alone |
| `Routes.DecodeShortens` | apps/api/src/app/protectedRouteExclusion.ts:351-376 | A pass that changes the text shortens it |
| `Routes.UnprotectedExactly` | apps/api/src/app/protectedRouteExclusion.ts:351-376 | A path is called unprotected exactly when decoding reaches a fixed point and no form on the way matches |
| `Routes.LayersStayProtected` | apps/api/src/app/protectedRouteExclusion.ts:351-376 | A protected path under any number of escaping layers is protected |
| `Routes.SpellingsStayProtected` | apps/api/src/app/protectedRouteExclusion.ts:330-376 | The same for every spelling, with extra slashes, dots and other letter case inside, whose meaningful segments match a prefix plain or with double dots resolved |
| `Routes.SpelledMatches` | apps/api/src/app/protectedRouteExclusion.ts:325-349 | A spelling matches if and only if its meaningful segments begin with those of a protected prefix, plain or with double dots resolved |
| `Routes.MatchesBySegments` | apps/api/src/app/protectedRouteExclusion.ts:325-349 | A form matches exactly when its segments, plain or with dots resolved, begin with those of a protected prefix |
| `Routes.UpTakesBack` | apps/api/src/app/protectedRouteExclusion.ts:330-349 | A segment followed by two dots has no effect on the resolved form |
| `Routes.HasProtectedPrefixAlias` | apps/api/src/app/protectedRouteExclusion.ts:351-376 | The loop that reassigns its candidate computes that classification and ends |
| `RouteTargets.PathTarget` | apps/api/src/app/protectedRouteExclusion.ts:285-323 | The path of an origin-form target is what stands before the query and the fragment |
| `RouteTargets.AbsoluteTarget` | apps/api/src/app/protectedRouteExclusion.ts:285-323 | The same for an absolute target of any authority, with any number of slashes after the scheme |
| `RouteTargets.ProtectedTargets` | apps/api/src/app/protectedRouteExclusion.ts:384-387 | A target whose path is a matching path under any number of escaping layers is excluded, alone or behind a scheme and an authority, with any query or fragment |
| `RouteTargets.ReadPathname` | apps/api/src/app/protectedRouteExclusion.ts:285-323 | The method computes that path |
| `RateLimit.Store.ConsumeKeys` | apps/api/src/admin/keyedRateLimitStore.ts:47-155 | Every key is counted once; the reported delay is the least whole number of seconds, at least one, after which every exceeded window has ended |
| `RateLimit.StoreFollowsCalls` | apps/api/src/admin/keyedRateLimitStore.ts:75-94 | A key's stored window is the window of its own calls, whatever other keys were counted with it |
| `RateLimit.WindowFacts` | apps/api/src/admin/keyedRateLimitStore.ts:75-94 | Window starts of a key are equal or at least one window apart, and the count within one grows by one with each call |
| `RateLimit.AtMostTwiceLessOne` | apps/api/src/admin/keyedRateLimitStore.ts:75-94 | With a clock that does not go back, any half-open interval of one window length admits at most 2·limit − 1 calls |
| `RateLimit.BoundIsTight` | apps/api/src/admin/keyedRateLimitStore.ts:75-94 | That bound is met for every limit and every window of two milliseconds or more |
| `EmailDispatcher.EveryStateIsGood` | apps/api/src/auth/emailDispatcher.ts:42-125 | Over every sequence of events each message is in exactly one of queued, running, settled or rejected; both limits hold; sends follow arrival; each message is reported at most once; a waiting message means every slot is busy |
| `EmailDispatcher.NothingAfterDrain` | apps/api/src/auth/emailDispatcher.ts:58-66 | Once a drain has resolved nothing runs and nothing is ever sent or settled again |
| `EmailDispatcher.NothingSentAfterAbort` | apps/api/src/auth/emailDispatcher.ts:97-104 | After an abort nothing is sent; what still runs is all that is left |
| `EmailDispatcher.FreedSlotGoesToOldest` | apps/api/src/auth/emailDispatcher.ts:85-91 | A slot that becomes free goes to the message that has waited longest |
| `EmailDispatcher.TurnedAwayExactly` | apps/api/src/auth/emailDispatcher.ts:105-116 | A new message is turned away exactly when the dispatcher is closed or full; the one report says which, and nothing else changes |
| `EmailDispatcher.AbortDropsQueue` | apps/api/src/auth/emailDispatcher.ts:97-104 | An abort reports exactly the queued messages, in their order, and leaves running deliveries alone |
| `EmailDispatcher.Dispatcher.Create` | apps/api/src/auth/emailDispatcher.ts:28-40 | Refuses exactly the limits below one |
| `EmailDispatcher.Dispatcher.PumpQueue` | apps/api/src/auth/emailDispatcher.ts:68-94 | The pump loop, in which a send may throw at once, computes the pump of the specification |
| `EmailDispatcher.Dispatcher.EnqueueMessage` | apps/api/src/auth/emailDispatcher.ts:105-116 | Accepts, or turns away with the right reason |
| `EmailDispatcher.Dispatcher.DeliveryEnded` | apps/api/src/auth/emailDispatcher.ts:85-91 | Frees the slot, pumps and resolves drains |
| `EmailDispatcher.Dispatcher.AbortDeliveries` | apps/api/src/auth/emailDispatcher.ts:97-104 | Drops the queue with one report for each message |
| `EmailDispatcher.Dispatcher.DrainDeliveries` | apps/api/src/auth/emailDispatcher.ts:117-123 | Closes the dispatcher; done at once exactly when it is idle |
| `ExportPages.BuildExport` | apps/api/src/admin/adminQuestionWorkflowExport.ts:169-312 | For every page size: the body is the canonical JSON of the whole document and the manifest every version in order; it fails for a missing question, for a question without versions, or exactly when the text exceeds 8 MiB; the retained-version check never fails |
| `ExportPages.AppendAllVersions` | apps/api/src/admin/adminQuestionWorkflowExport.ts:206-270 | The keyset-page loop ends and visits every version of the question once, by number and id |
| `ExportPages.OptionsOfPage` | apps/api/src/admin/adminQuestionWorkflowExport.ts:127-150 | Splitting one page query by version gives each version its own options in order |
| `ExportPages.LoadedIsRetained` | apps/api/src/admin/adminQuestionWorkflowExport.ts:283-309 | What was loaded page by page has the count, the greatest number and the ordered ids of what is retained |
| `ExportPages.CheckRetained` | apps/api/src/admin/adminQuestionWorkflowExport.ts:283-309 | The check after the loop always passes on one snapshot |
| `ExportDocument.DocumentTextIsCanonical` | apps/api/src/admin/adminQuestionWorkflowExport.ts:192-281 | The hand-written fragments are the canonical text of the document, whose members are declared in another order |
| `ExportDocument.QuestionTextIsCanonical` | apps/api/src/admin/adminQuestionWorkflowExport.ts:199-280 | The same for one question |
| `ExportReads.ExportIsJson` | apps/api/src/admin/adminQuestionWorkflowExport.ts:192-281 | The text of every export is accepted by the strict scanner and spelled by a tree that says what the document says |
| `ExportReads.DocumentSays` | apps/api/src/admin/adminQuestionWorkflowExport.ts:192-281 | Looked up by name, the document says its schema, its moment and, in the order asked for, every question with its status, its current version and all its versions in order |
| `ExportReads.VersionSays` | apps/api/src/admin/adminQuestionWorkflowExport.ts:127-168 | Looked up by name, an exported version says its number, its status and every text of its row under the name of its column, with its options and tags in order |
| `ExportReads.VersionsInOrder` | apps/api/src/admin/adminQuestionWorkflowExport.ts:105-125 | The list of a question has exactly its versions, strictly by number and then id |
| `ExportReads.OptionsInOrder` | apps/api/src/admin/adminQuestionWorkflowExport.ts:127-150 | The list of a version has exactly its options, strictly by ordinal and then id |
| `ExportReads.TagsInOrder` | apps/api/src/admin/adminQuestionWorkflowExport.ts:127-150 | The list of a version has exactly its tags, strictly by name, compared at the first place two names differ, and then by assignment |
| `CanonicalJson.SortOrders` | packages/contracts/src/common/content-validation.ts:266-273 | Sorting puts the members of an object in strictly increasing order of their names and keeps them all |
| `CanonicalJson.NamesCompare` | packages/contracts/src/common/content-validation.ts:266-273 | The order of names compares at the first place they differ, and a prefix comes first |
| `CanonicalJson.CanonicalIgnoresOrder` | packages/contracts/src/common/content-validation.ts:248-273 | The canonical text of an object does not depend on the order its members are given in |
| `CanonicalReads.CanonicalIsJson` | packages/contracts/src/common/content-validation.ts:248-273 | The canonical text of a value without repeated names, at most a hundred deep, is a text the strict scanner accepts, and the tree that spells it says what the value says |
| `Ordering.PageContinues` | apps/api/src/admin/adminQuestionWorkflowExport.ts:105-125 | The page after the first k rows of a key order is the next stretch of the whole list |
| `Ordering.SortedIsUnique` | apps/api/src/admin/adminQuestionWorkflowExport.ts:105-125 | Two lists in the order of a key no two rows share, with the same rows, are equal |
| `ExportBody.Body.Append` | apps/api/src/admin/adminQuestionWorkflowExport.ts:36-49 | A fragment is refused exactly when the bytes of the whole exceed the cap, and a refusal changes nothing |
| `ExportBody.Body.Value` | apps/api/src/admin/adminQuestionWorkflowExport.ts:51-58 | The first reading gives back the text of everything appended; a second is refused |
| `Utf8.DecodeInvertsEncode` | apps/api/src/admin/adminQuestionWorkflowExport.ts:40-58 | Decoding the UTF-8 bytes of a text gives the text |
| `Utf8.EncodesByTable` | apps/api/src/admin/adminQuestionWorkflowExport.ts:40-58 | Each character is encoded as the table of RFC 3629, section 3, says |
| `ExportOutcome.ReconcileFindsCommit` | apps/api/src/admin/adminQuestionWorkflowExport.ts:314-357 | The look-up finds this export exactly when its commit is visible |
| `ExportOutcome.ExportIsSound` | apps/api/src/admin/adminQuestionWorkflowRepository.ts:718-756 | Outside state 40003 as a workflow command reads it: an export that answers has committed, a stated rollback is one, and when the look-up succeeds after the outcome is settled, answering and having committed are the same |
| `ExportOutcome.ExportMisleadsExactly` | apps/api/src/admin/adminQuestionWorkflowRepository.ts:718-756 | An export that committed can be answered with a stated rollback if and only if its failure carries 40003 as a workflow command reads it, whatever the look-up would show |
| `ImportValidator.CollectValidation` | apps/api/src/admin/adminQuestionWorkflowImport.ts:133-310 | The errors are exactly the faults, strictly ordered by item, path and code; valid holds exactly when the declarative predicate holds |
| `ImportValidation.IssueOrder` | apps/api/src/admin/adminQuestionWorkflowImport.ts:293-300 | The order of errors is by item, then by path as texts compare, then by code |
| `ImportValidation.ValidMeansNoFault` | apps/api/src/admin/adminQuestionWorkflowImport.ts:149-292 | There is no fault exactly when ids, keys, texts, tags, passages, types and fingerprints all satisfy the import rules |
| `ImportValidation.ContentFaults` | apps/api/src/admin/adminQuestionWorkflowImport.ts:161-270 | An item has no fault of its own exactly when it is eligible and its tags are sound; one matching key follows from distinct keys |
| `ImportValidation.FingerprintIdentifies` | apps/api/src/admin/adminQuestionWorkflowImport.ts:79-115 | Two contents whose correct key names one option share a fingerprint exactly when they are the same question, option texts as a multiset |
| `ImportValidator.CollectItem` | apps/api/src/admin/adminQuestionWorkflowImport.ts:149-270 | The loops over one item add exactly its issues, and a fingerprint exactly when it is eligible |
| `ImportValidator.CollectDuplicates` | apps/api/src/admin/adminQuestionWorkflowImport.ts:272-292 | Duplicates are the eligible items whose fingerprint is stored or appeared before |
| `ImportValidator.EligibleImportFingerprints` | apps/api/src/admin/adminQuestionWorkflowImport.ts:79-115 | The separate loop gives exactly the fingerprints of the full validator's eligible items |
| `ImportValidator.PushIssue` | apps/api/src/admin/adminQuestionWorkflowImport.ts:117-131 | An issue is added once |
| `ImportApplied.AppliedOnce` | apps/api/src/admin/adminQuestionWorkflowRepository.ts:409-480 | After an applied import each item's fingerprint belongs to exactly one version of the whole store, the new one |
| `Dispositions.CommandIsSound` | apps/api/src/admin/adminQuestionCommandFailures.ts:88-263 | A question command that succeeds has committed, a stated rollback is one except for SQLSTATE 40003, no transaction is never stated after it began, and an unknown outcome has one code only |
| `Dispositions.WorkflowIsSound` | apps/api/src/admin/adminQuestionWorkflowTransactions.ts:215-376 | The same for workflow commands with their own reader of the state, which takes a state only with its message and a write conflict as 40001; they call an outcome unknown only when the callback had returned |
| `Dispositions.MisleadsExactly` | apps/api/src/admin/adminQuestionCommandFailures.ts:231-244 | For each kind of command a commit can be answered with a stated rollback if and only if the failure carries 40003 as that kind reads it |
| `Dispositions.ReadersDiffer` | apps/api/src/admin/adminQuestionWorkflowTransactions.ts:34-51 | Concrete failures on which the two readers differ: 40003 without its message misleads a question command only, 40003 with its message beside another state misleads a workflow command only, and a write conflict is a stated rollback of a workflow command |
| `Dispositions.AuthorityIsRolledBack` | apps/api/src/admin/adminQuestionCommandFailures.ts:308-413 | A failed authority check is a rollback whatever the session shows when it is read again |
| `ToldCodes.CommandCodes` | apps/api/src/admin/adminQuestionCommandFailures.ts:88-263 | For each code of a question command, exactly the failures that lead to it |
| `ToldCodes.WorkflowCodes` | apps/api/src/admin/adminQuestionWorkflowTransactions.ts:215-376 | For each code of a workflow command, exactly the failures that lead to it |
| `ToldCodes.CommandTells` | apps/api/src/admin/adminQuestionCommandFailures.ts:308-413 | A failed authority check is told by the session found afterwards, a lost race by what the rows show, and everything else by its code; which code for which finding |
| `ToldCodes.WorkflowTells` | apps/api/src/admin/adminQuestionWorkflowTransactions.ts:348-376 | The same for workflow commands, which tell an unknown outcome exactly when the code is one and the callback had returned |
| `ToldCodes.ItemTells` | apps/api/src/admin/adminQuestionCommandService.ts:228-278 | The result of a batch item tells the code it stands for; a code without a result of its own shows as failed |
| `ToldCodes.TargetTells` | apps/api/src/admin/adminQuestionCommandService.ts:300-339 | A publication whose target is missing, not approved or unreadable gives no command, and its item says which |
| `BatchCommands.ApproveBatch` | apps/api/src/admin/adminQuestionCommandService.ts:206-278 | The loop answers in request order, or raises exactly at the first failure that has no success before it |
| `BatchCommands.PublishBatch` | apps/api/src/admin/adminQuestionCommandService.ts:300-375 | The same with the target read before each publication |
| `BatchCommands.BatchHidesNoCommit` | apps/api/src/admin/adminQuestionCommandService.ts:294-375 | A batch that raises anything but an unknown outcome committed nothing; an answer shows no commit as not found, in conflict or in the wrong state, and counts all commits but those hidden as failed |
| `BatchCommands.StepsAreHonest` | apps/api/src/admin/adminQuestionCommandService.ts:228-278 | The answers of the commands meet what the batch relies on |
| `BatchCommands.MisreportsExactly` | apps/api/src/admin/adminQuestionCommandService.ts:228-375 | A failure can make an approval tell the batch something untrue about its commit if and only if it carries 40003 as a question command reads it; a publication, if and only if its target was also ready |
| `BatchCommands.CountsLowExactly` | apps/api/src/admin/adminQuestionCommandService.ts:206-226 | For given answers: honest commands exist whose batch answers with a count below their commits if and only if no failure precedes the first success and some item after a success was told that its outcome is unknown |
| `BatchCommands.CountCanBeLow` | apps/api/src/admin/adminQuestionCommandService.ts:340-343 | Two possible approvals, the second with its commit answer lost: both commit, the second is shown as failed, and the count is one |

## Left out

- Isolation levels, row locks and retries: a transaction is one atomic step; its reads beforehand are earlier, separate steps.
- `PublishConcurrency.StalePublish`: atomicity holds if and only if both reads agree; the program does not compare them, so it is not stated for every publication.
- `Dispositions.CommandIsSound`: excludes SQLSTATE 40003 as a question command reads it, for which it is false; `Dispositions.MisleadsExactly` is the exact condition.
- `Dispositions.WorkflowIsSound`: excludes SQLSTATE 40003 as a workflow command reads it, for which it is false; `Dispositions.MisleadsExactly` is the exact condition.
- `ExportOutcome.ExportIsSound`: excludes SQLSTATE 40003 as a workflow command reads it, for which it is false; `ExportOutcome.ExportMisleadsExactly` is the exact condition.
- `BatchCommands.StepsAreHonest`: excludes SQLSTATE 40003 as a question command reads it, for which it is false; `BatchCommands.MisreportsExactly` is the exact condition.
- `BatchCommands.BatchHidesNoCommit`: the count leaves out commits whose outcome the repository did not know, because the program shows those as failed.
- `RotationRecovery.ReturnedIsDurable`: an answered commit is one whose transaction ran; that the database client answers nothing else is part of what a fate means.
- `LeaseProgress.SubmitsExactly`: the fresh proof of the caller is not modelled; that an author of open versions is refused is part of the content model (`ContentGuarantees.PendingUsersLeaveNoCandidate`).
- `LifecycleAnswers.PublishAnswers`: for a version that is not approved only the four failures it can end with are stated.
- `RotationStore.Store.CompleteCall`: the fate of a commit (answered, lost, rolled back) is a parameter.
- `LeaseStore.Store.RunBatch`: other transactions between its calls are not in the loop; they are steps of `LeaseSafety`, and the list may be as old as they make it.
- `EmailDispatcher.Dispatcher.PumpQueue`: whether the port throws on a message is an arbitrary predicate; callbacks that call the dispatcher again are not modelled.
- `ImportValidator.EligibleImportFingerprints`: the result is a set; the order of hash values is not modelled.
- `LimitedBody.ReadJsonBody`: decoding bytes to text is a parameter, the time limit is not modelled, and the JSON parser is taken to accept every JSON text.
- Order of reviews with equal timestamps: reviews are a list in commit order.
- Digests, tokens and generated ids: digests are the records they are taken of, tokens and ids come from a supply that never repeats; ids are numbers, so their text form is decimal.
- Text normalisation: a stored text carries its canonical form; the import takes its normalisers as functions. Texts of the export are Unicode scalar values, so unpaired surrogates do not occur.
- Letter case of route prefixes is folded for ASCII only.
- Database triggers that only repeat a rule of the code, and the trigger functions whose text fixes session timestamps: stated as part of the step they belong to.
- HTTP guards, cookies, origin checks, provider adapters, logging, response mapping and the user interface: plumbing around what is modelled.
- The canonical route tables and the retired password branches of the gateway: lookups without state.
- Replay of a stored import result under the same import id: the stored row is returned as it is.
