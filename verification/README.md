# Danshi backend: verified model

A Dafny model of the parts of the Danshi backend in which state outlives a request, and proofs about every run of them.

- **Image access** (`ImageAccess*.dfy`). A moderation verdict appends an intent and moves a per-image delivery row to a
  new generation. Any number of workers claim rows under a lease, set the object's ACL, submit a CDN purge, recover
  unknown submissions and poll, and write only under the fence of image, generation and token. `ImageAccessProtocol`
  is the state machine: one database map, in-flight workers with stale copies and a program counter, crashes, a clock
  that only grows, a provider that answers anything. `ImageAccessAnswers` says by kinds of answers which row every write
  leaves behind. `ImageAccessWorker` and `ImageAccessOutbox` are the worker and its repository on state updated in place,
  proved to be runs of that machine while others act in between.
- **Moderation verdicts** (`Moderation*.dfy`). Callbacks, manual reviews of records and whole posts, deletion and
  restore of posts, author saves and history restores, and the reconciliation of post statuses. `ModerationOperations`
  says what each transaction does; `ModerationService` does it on tables in place. `ModerationReplies` says by columns
  when each is carried out, what it writes and why it is refused, `ModerationPurge` when a verdict asks for a purge.
  `JointMachine` runs moderation and delivery together on one table; `ModerationIntakes`, `DeliveryWrites` and
  `ModerationDelivery` show that every such run is a run of each.
- **Verification codes and their mail** (`Verification*.dfy`, `UnitOfWork.dfy`). Send rates, guess counting that
  survives a 400, expiry told from what was sent and presented before (`VerificationExpiry`), and the lifetime of
  plaintext codes in the mail outbox beside concurrent workers.
- **Pages, import, versions** (`KeysetPages`, `Legacy*`, `PostVersions`, `TagAdmin`, `CommentVersions`, `Revisions`).

Reading order: `*Row`, `*State`, `*Codes` (rows), `*Protocol`, `*Operations` (steps), then the theorem files, then the
imperative files. In each theorem file the results a reader wants carry a doc comment; the lemmas before them lead there.

Transactions are atomic steps: row locks taken in ascending order justify this in the source. Database rows are maps by
primary key, append-only tables are sequences whose positions are the ids. Digests are injective, random tokens fresh.
Times are integers; every request and worker reads its own clock, which may lag.

## Findings

- `internal/service/image_access_worker.go:189-217`: SetObjectPublicAccess is called outside the fence, and its time-out
  is an option independent of the lease. A call that takes effect after its caller's lease ended breaks the agreement of
  object and verdict (`ImageAccessAcl.LateAclBreaksAgreement`) exactly if it is harmful at that moment
  (`ImageAccessAcl.LateEffectIff`, and `ImageAccessAcl.LateCallIff` for a worker still in flight): the delivery wants the
  other value and is past its ACL step, or a worker that still passes the fence has made its own call.
- `internal/service/admin_content.go:63-117` with `internal/repository/post.go:309-322`: a restore clears the deletion
  columns and appends a passing text record, but never evaluates the post. It is up to date afterwards exactly if its
  status was its restored grade already (`ModerationAggregate.RestoreOpensIff`). A post deleted while pending or rejected
  whose grade is approved comes back live, keeps its old status, and no whole-post review can decide it
  (`ModerationReview.RestoredPostIsStuck`, reached by `ModerationReview.StuckPostExists`).
- `internal/service/moderation_callback.go:315-358` with `internal/repository/moderation.go:47-60`: manual records carry
  the reviewer's clock, and the latest record by created_at decides. A block of a text record dated later than the review
  is recorded but does not reject the post (exactly when: `ModerationReview.BlockRejects`), and the superseded record
  leaves nothing for a second review to decide (`ModerationReview.EarlyClockHappens`).
- `internal/repository/moderation.go:173-186`: only pending posts are locked for a result, so a later verdict does not
  revisit decided ones. They keep their one-shot evaluation exactly under a condition on the post and the new verdict
  (`ModerationOrder.LaterVerdictKeepsIff`, `LaterReviewKeepsIff` and `LaterPostReviewKeepsIff`); two verdicts in both
  orders show it (`ModerationOrder.SecondVerdictsHappen`).
- `internal/repository/post_relations.go:274-292`: a restored version finds its tags by folded name and shows them in
  their present spelling, so the main row differs from the version exactly if one was respelled since
  (`PostVersions.RestoreKeepsIff`, `PostVersions.RespelledTagBreaksVersion`).
- `internal/repository/comment.go:90-101`: the hot cursor compares likes as they are now, so a comment that gains or loses
  likes between two pages can be missed or repeated (`KeysetPages.HeatCanMiss`, `KeysetPages.HeatCanRepeat`). A comment
  that is there throughout is shown once, once more for every page boundary at which it falls back behind the cursor and
  once less for every boundary at which the cursor overtakes it (`KeysetPages.ShownByBoundaries`), so exactly once if and
  only if the two are equally often (`KeysetPages.ExactlyOnceIff`).
- `docs/image-hosting.md` (section 4.1) says that an author's deletion removes the post's image relations. The code
  (`internal/service/post_write.go:344-384`) keeps them and blocks images as an administrator's deletion does; the model
  follows the code.

## Model

| member | source | states |
|---|---|---|
| `ImageAccessDecisions.WithDefaults` | `internal/service/image_access_worker.go:77-109` | whatever was configured, every option of a worker ends up usable, and each option that was usable stays as it is |
| `ImageAccessDecisions.BackoffRange` | `internal/service/image_access_worker.go:471-483` | a retry delay lies between its base and its cap and never shrinks with another attempt |
| `ImageAccessDecisions.DecideShape` | `internal/service/image_access_worker.go:189-435` | whatever a worker observed: its write gives the lease back exactly when the claim is finished; the submission is counted and dated only by the write that opens it, within the budget; a row goes back to pending_submit from a submission only for a reason that allows a replay; it succeeds only on an ACL set without a purge to follow or on a reported success |
| `ImageAccessAnswers.DecisionLeads` | `internal/service/image_access_worker.go:189-435` | the converse, by kinds of answers: exactly which answers and used-up budgets lead to each of the six states, and every column the write then holds, with the counter, job, error code and wait of that state |
| `ImageAccessAnswers.BackoffIsWait` | `internal/service/image_access_worker.go:471-483` | those waits double from their base with every attempt, up to their cap |
| `ImageAccessAnswers.DecisionOutcome` | `internal/service/image_access_worker.go:189-435` | a claim goes on exactly from a set ACL with a purge to follow to the submission and from there to the provider; every other is counted as the state it leaves the row in |
| `ImageAccessAnswers.WriteLeads` | `internal/service/image_access_worker.go:189-435` | over every run, a write that passes the fence leaves the row that the observation leads to, judged by the columns of the row itself |
| `ImageAccessAnswers.ReportedSuccessSucceeds` | `internal/service/image_access_worker.go:328-364` | over every run, the write that follows a success the provider reported is on record and leaves the delivery succeeded |
| `ImageAccessProtocol.WorkerStepShape` | `internal/service/image_access_worker.go:171-187` | between two writes a worker changes nothing of the row except giving its own lease back |
| `ImageAccessProtocol.OtherWorkersStay` | `internal/service/image_access_worker.go:112-160` | no step of one worker touches the claim copy or place of another |
| `ImageAccessInvariant.WriteKeepsRow` | `internal/service/image_access_worker.go:189-435` | every write that passes the fence keeps the CHECK constraints of the delivery table |
| `ImageAccessInvariant.LiveLeaseIsHeld` | `internal/repository/image_access.go:73-107` | while a worker's lease has not ended, the row still carries its token: nobody else can claim it |
| `ImageAccessInvariant.StaleWorkerOnlyReleases` | `internal/repository/image_access.go:110-138` | a worker whose generation or token is outdated changes nothing; if its token still matches an older generation the row is in pending_acl and the only effect is giving that lease back |
| `ImageAccessInvariant.ChecksNeverFire` | `migrations/00012_image_access_outbox.sql:68-112` | in every reachable state every delivery row satisfies the table's CHECK constraints |
| `ImageAccessAcl.PastAclMeansAclSet` | `internal/service/image_access_worker.go:189-217` | under any interleaving of workers, crashes, expired leases and new verdicts, a delivery past its ACL step has the object's ACL equal to its desired_public, provided ACL calls take effect before their caller's lease ends |
| `ImageAccessAcl.WithinLeaseIsTimely` | `internal/service/image_access_worker.go:189-217` | an ACL call that takes effect before its claim's lease_until is such a call |
| `ImageAccessAcl.LateAclBreaksAgreement` | `internal/service/image_access_worker.go:437-467` | without that proviso the agreement fails: a concrete run in which a late ACL call of an expired worker leaves a succeeded delivery with the wrong ACL |
| `ImageAccessAcl.LateEffectIff` | `internal/service/image_access_worker.go:189-217` | when an ACL request nobody waits for any more takes effect, the agreement survives, then and through every timely continuation, exactly if the effect is harmless at that moment |
| `ImageAccessAcl.LateCallIff` | `internal/service/image_access_worker.go:189-217` | the same for the call of a worker still in flight that takes effect after its lease was lost |
| `ImageAccessSubmissions.SubmitHasReason` | `internal/service/image_access_worker.go:219-263` | every provider Submit is for a generation whose ACL was set before, and a repeated one follows an observed failed, timed-out or cancelled task, a pending time-out, or a recorded retryable rejection past the grace period that is not ambiguous; an unknown outcome alone is never replayed |
| `ImageAccessSubmissions.AtMostMaxSubmissions` | `internal/service/image_access_worker.go:366-380` | over any run with crashes, a generation makes at most max-submissions provider Submit calls |
| `ImageAccessSubmissions.SuccessFollowsOwnAcl` | `internal/service/image_access_worker.go:265-364` | a succeeded purge delivery rests on a success reported for a submission that began after the ACL of the same generation was set |
| `ImageAccessProgress.CompletedClaimMakesProgress` | `internal/service/image_access_worker.go:171-380` | every completed claim that was not superseded ends the generation or strictly lowers one lexicographic measure |
| `ImageAccessProgress.BoundedClaimsPerGeneration` | `internal/service/image_access_worker.go:171-380` | over any run each generation is finished within a fixed number of completed claims, computed from the options alone |
| `ImageAccessOutbox.FirstInOrderUnique` | `internal/repository/image_access.go:84-105` | the ORDER BY and LIMIT of a claim select one list only |
| `ImageAccessOutbox.Select` | `internal/repository/image_access.go:84-105` | the selected rows are the first due ones by next attempt and image id |
| `ImageAccessOutbox.ImageAccessOutbox.Enqueue` | `internal/repository/image_access.go:25-70` | only a first-seen source record appends an intent and moves the row to the next generation, restarted from the ACL step with counters cleared and the lease kept; a repeated source changes nothing |
| `ImageAccessOutbox.ImageAccessOutbox.ClaimDue` | `internal/repository/image_access.go:73-107` | exactly the first due and unlocked rows get the token and lease; limits outside 1..1000 are refused |
| `ImageAccessOutbox.ImageAccessOutbox.UpdateClaim` | `internal/repository/image_access.go:110-123` | columns are written exactly under the fence of image, generation and token |
| `ImageAccessOutbox.ImageAccessOutbox.ReleaseSuperseded` | `internal/repository/image_access.go:126-138` | gives back only a lease that carries this worker's token and makes the row due at once |
| `ImageAccessWorker.RetryBackoff` | `internal/service/image_access_worker.go:471-483` | the doubling loop returns the base times a power of two, capped at the maximum |
| `ImageAccessWorker.ClaimRun.ProcessClaim` | `internal/service/image_access_worker.go:171-187` | whatever others do in between, processing a claim is a run of the protocol that ends with the claim copy gone; an error is reported exactly for a failed transaction, otherwise the outcome is the logged one or, for a superseded claim, its lease was given back |
| `ImageAccessWorker.ClaimRun.ApplyAcl` | `internal/service/image_access_worker.go:189-217` | the ACL branch is a run of the protocol: set the ACL, then the fenced write; it ends like every claim |
| `ImageAccessWorker.ClaimRun.SubmitPurge` | `internal/service/image_access_worker.go:219-263` | the submission branch writes its intent to submit before it calls the provider; it ends like every claim |
| `ImageAccessWorker.ClaimRun.RecoverSubmission` | `internal/service/image_access_worker.go:265-312` | the recovery branch is a run of the protocol on what the provider reported; it ends like every claim |
| `ImageAccessWorker.ClaimRun.Poll` | `internal/service/image_access_worker.go:328-364` | the polling branch is a run of the protocol on what the provider described; it ends like every claim |
| `ImageAccessWorker.RunBatch` | `internal/service/image_access_worker.go:112-160` | a batch claims exactly the first due rows under one fresh token and processes each; an error is reported exactly if a transaction failed, and otherwise every outcome counted is the one the log holds for that claim; if the claim itself fails nothing is claimed |
| `ModerationState.LatestIsGreatest` | `internal/repository/moderation.go:47-60` | the effective verdict of a target is the greatest of its records by (created_at, id) |
| `ModerationState.UpdatesAreExclusive` | `internal/repository/moderation.go:305-369` | the two UPDATEs of a reconciliation match disjoint posts, so running one after the other is the joint rule and their counts are exact |
| `ModerationState.ReconcileIsAggregate` | `internal/repository/moderation.go:305-369` | for a reviewable post with a text verdict, reconciliation is the one-shot evaluation its author's save would use, except that it never moves a post back to pending |
| `ModerationReplies.AggregateExactly` | `internal/service/post_write.go:802-829` | rejected exactly by a blocked text or image, approved exactly if text and all images passed, otherwise pending |
| `ModerationReplies.ReconciledExactly` | `internal/repository/moderation.go:305-369` | a reconciliation changes nothing but the status of the listed posts that are live and pending or rejected, and sets it to their evaluation unless that is pending |
| `ModerationReplies.PendingPostsExactly` | `internal/repository/moderation.go:173-186` | the posts a verdict reconciles are the live pending ones that use the image |
| `ModerationReplies.TextVerdictIsNewest` | `internal/repository/moderation.go:47-60` | the text verdict of a post is that of the newest record about its current revision |
| `ModerationState.ReconcileTwice` | `internal/repository/moderation.go:305-369` | reconciling again changes nothing |
| `ModerationState.AscendingUnique` | `internal/repository/moderation.go:371-386` | sets of ids have one strictly ascending list, so all callers lock the same rows in the same order |
| `ModerationAccess.JudgeKeeps` | `internal/service/moderation_callback.go:608-622` | a record about an image with everything it causes is never refused by the intent trigger and keeps verdict and outbox in step |
| `ModerationAccess.ReviewPostKeeps` | `internal/service/moderation_callback.go:377-410` | a whole-post review leaves no image whose outbox row lags behind its verdict, and changes nothing when it fails |
| `ModerationAccess.DeleteIs` | `internal/service/post_write.go:344-384` | a deletion hides the post and blocks exactly the images it leaves without a live user, with one administrative record each |
| `ModerationAccess.DuplicateChangesNothing` | `internal/service/moderation_callback.go:537-563` | in every consistent state a callback whose job is recorded changes nothing at all, whatever it says |
| `ModerationAccess.IntentFollowsVerdict` | `internal/service/moderation_callback.go:608-642` | in every state reachable by uploads, saves, callbacks, replays, reviews, deletions, restores and worker writes: every judged image has a delivery row that wants it public exactly when it passed, purges a private one, and carries the intent of a record with that verdict |
| `ModerationPurge.PurgeFollowsVerdict` | `internal/service/moderation_callback.go:608-642` | in every reachable state each delivery row carries the intent of exactly one record, which an event of the history appended, and purges exactly if that record does not pass or the image was blocked or under review just before |
| `ModerationPurge.VerdictPurges` | `internal/service/moderation_callback.go:639-642` | the same on the tables of one call: a public target is purged exactly if the image was hidden before |
| `ModerationPurge.RunIsNumbered` | `internal/repository/image_access.go:25-70` | no two intents share a number |
| `ModerationReplies.AccessExactly` | `internal/repository/image_access.go:25-70` | a first-seen source is accepted exactly if its record is about this image and passes exactly for a public target; the row then restarts from its ACL step in the next generation, with the lease it had |
| `ModerationReplay.SupersededAtMostOnce` | `internal/service/moderation_callback.go:65-160` | over any run a machine record is superseded by at most one manual record, later and about the same target, and only if it had not passed |
| `ModerationReplay.ReplaysChangeNothing` | `internal/service/moderation_callback.go:480-563` | any history ends in the same records, image verdicts, post statuses and outbox rows as the history with every replayed callback left out |
| `ModerationReplay.LateReplayUndoesNothing` | `internal/service/moderation_callback.go:537-563` | once a callback was accepted, a later callback with its job number, whatever came in between and whatever it names, leaves the rest of the history as it would have been |
| `ModerationAggregate.ReconcileOpens` | `internal/repository/moderation.go:305-369` | a pending post that is reconciled after a change it may have seen is not left decidable by the one-shot evaluation |
| `ModerationAggregate.RestoreOpensIff` | `internal/service/admin_content.go:63-117` | after an administrator's restore, with any clock, the status is what it was and the one-shot evaluation is the restored grade, a function of the tables before; so a published post is up to date exactly if its status was that grade |
| `ModerationAggregate.PendingMeansUndecided` | `internal/service/moderation_callback.go:480-535` | over any run, a live post is pending only while the one-shot evaluation of its current text and images is pending too, unless this very post was restored while pending with a restored grade that was not; other posts do not matter |
| `ModerationAggregate.RunIsKnown` | `internal/repository/post.go:339-344` | in every reachable state posts refer to known images and text records to saved revisions |
| `ModerationOrder.DecidedPostsAreNotRevisited` | `internal/repository/moderation.go:173-186` | a callback never changes a post that is not pending |
| `ModerationOrder.FirstVerdictsGrade` | `internal/service/moderation_callback.go:480-535` | after any number of first verdicts in any order, with or without job numbers, a post that was pending has its one-shot evaluation, whatever state other posts are in |
| `ModerationOrder.FirstVerdictsArrive` | `internal/service/moderation_callback.go:480-535` | first verdicts are all accepted in any order; images and records end as the list says |
| `ModerationOrder.OrderDoesNotMatter` | `internal/service/moderation_callback.go:488-515` | the order in which first verdicts arrive decides neither the images nor the status of any post that was pending |
| `ModerationOrder.SecondVerdictsDependOnOrder` | `internal/repository/moderation.go:173-186` | with two verdicts for one image the order does decide: pass first approves the post for good, block first rejects it |
| `ModerationOrder.SecondVerdictsHappen` | `internal/repository/moderation.go:173-186` | such a post is reached from empty tables in both orders, and is not up to date in either |
| `ModerationOrder.LaterVerdictKeepsIff` | `internal/repository/moderation.go:173-186` | a result for an image of a decided post leaves the post as it is; it keeps its one-shot evaluation exactly if it was approved and the verdict is a pass, or was rejected and the verdict, its text or another image is a block |
| `ModerationOrder.LaterReviewKeepsIff` | `internal/service/moderation_callback.go:65-160` | the same for a manual review of one image |
| `ModerationOrder.LaterPostReviewKeepsIff` | `internal/repository/moderation.go:80-94` | the same for a whole-post review of another post that shares images: an approved post keeps its evaluation exactly if the verdict is a pass or touches none of its images, a rejected one exactly if its text or an untouched image is blocked or the verdict blocks one of its images |
| `ModerationReview.ReviewedText` | `internal/service/moderation_callback.go:315-358` | the text verdict after a whole-post review is the manual one exactly if the latest text record was reviewed and is not dated later than the review |
| `ModerationReview.BlockRejects` | `internal/service/moderation_callback.go:210-239` | in every consistent state, a successful block rejects the post exactly under a condition on the state before it, always rejects every other pending post using an image it blocked, and supersedes each record it decided |
| `ModerationReview.EarlyClockKeepsPending` | `internal/service/moderation_callback.go:315-358` | a block of a post decided by its text alone, dated before the record it reviews, is recorded but leaves the post pending |
| `ModerationReview.EarlyClockHappens` | `internal/service/moderation_callback.go:315-358` | a post saved with a doubtful text at time 5 and blocked at a reviewer's time 3 stays live and pending, and every further whole-post review fails |
| `ModerationReview.RestoredPostIsStuck` | `internal/service/admin_content.go:63-117` | a post deleted while pending or rejected whose restored grade is approved is, once restored by an administrator, live with its old status although the one-shot evaluation approves it, and no whole-post review can decide it |
| `ModerationReview.StuckPostExists` | `internal/service/admin_content.go:63-117` | such posts, pending and rejected, are reached by a save, a deletion and a restore |
| `ModerationReplies.ResultRefusals` | `internal/service/moderation_callback.go:480-597` | which results of the provider are refused, with what answer, and that refused and duplicate ones change nothing |
| `ModerationReplies.DuplicateExactly` | `internal/service/moderation_callback.go:537-563` | a replayed job is a duplicate exactly if it was recorded for this image |
| `ModerationReplies.ResultExactly` | `internal/service/moderation_callback.go:480-535` | an accepted result appends its record, sets the verdict of its image alone, reconciles the live pending posts that use it, and answers how many posts became approved and rejected |
| `ModerationReplies.ReviewExactly` | `internal/service/moderation_callback.go:65-208` | a single record is reviewed exactly if it is a machine verdict on an image that did not pass, was not reviewed before, and no live pending post uses the image; each refusal has its exact cause |
| `ModerationReplies.ChosenAreDecidable` | `internal/repository/moderation.go:63-77` | a whole-post review decides exactly the unreviewed machine verdicts that did not pass and still count for the post |
| `ModerationReplies.PostReviewExactly` | `internal/service/moderation_callback.go:261-313` | a live post is reviewed exactly if it is pending or rejected, all its images were judged, its text has a verdict and something is left to decide |
| `ModerationReplies.PostReviewRefusals` | `internal/service/moderation_callback.go:210-260` | the exact causes of the other refusals |
| `ModerationReplies.ReviewedRecords` | `internal/service/moderation_callback.go:315-375` | one manual record for each decided one, about the same target and dated now |
| `ModerationReplies.ReviewedImages` | `internal/service/moderation_callback.go:377-410` | exactly the images of decided records take the verdict |
| `ModerationReplies.ReviewedPostGrade` | `internal/service/moderation_callback.go:210-239` | the post ends with its evaluation by the reviewed text and images, unless that is pending, and keeps every other column |
| `ModerationReplies.DeleteExactly` | `internal/service/post_write.go:344-384` | a live post is deleted exactly by its author or an administrator, and which of them is noted; exactly its images that no other live post uses and that were not blocked are blocked, with one record each |
| `ModerationReplies.RestoreExactly` | `internal/service/admin_content.go:63-117` | a deleted post is restored exactly by another than its author, an approved one only if every image has passed or comes back with it; exactly the images whose newest record is a deletion of theirs come back |
| `ModerationReplies.SaveExactly` | `internal/service/post_write.go:52-138` | a post is saved exactly by its author while it is live, with known images of which none is blocked; the new revision follows the last and a published post has its evaluation |
| `ModerationReplies.HistoryRefusals` | `internal/service/post_write.go:157-239` | only the author goes back, and only to a saved revision |
| `ModerationReplies.HistoryExactly` | `internal/service/post_write.go:157-239` | going back succeeds exactly if the images are known and not blocked once a deletion is undone, and then shows the revision with its evaluation by its newest verdict, or by a new one if it has none |
| `ModerationReplies.HistoryUnchanged` | `internal/service/post_write.go:157-239` | a refused return changes nothing |
| `ModerationReplies.UploadExactly` | `internal/service/upload.go:186-285` | a new image has no verdict and is not complete; completing it changes nothing else |
| `ModerationDelivery.ObjectFollowsVerdict` | `internal/service/image_access_worker.go:189-217` | on one shared deliveries table, in every timely joint run: once a delivery is past its ACL step, the stored object is public exactly when the image's current verdict is a pass |
| `ModerationDelivery.JointRunProjects` | `internal/service/moderation_callback.go:608-642` | every run of moderation and workers on one deliveries table is a run of the delivery protocol, timely if it was, and a history of operations and worker writes, both ending in its state |
| `ModerationIntakes.OperationTakes` | `internal/repository/image_access.go:25-70` | whatever an operation does to the delivery rows is a list of the protocol's new-verdict steps |
| `DeliveryWrites.DeliverWrites` | `internal/repository/image_access.go:73-138` | whatever a step of a worker does to the delivery rows is a list of the leases, fenced column writes and releases that the moderation history may contain |
| `ModerationService.UniqueModerationIDs` | `internal/repository/moderation.go:371-386` | drops zero and repetitions and returns the rest in ascending order |
| `ModerationService.ModerationTables.ReconcilePendingPosts` | `internal/repository/moderation.go:305-369` | two statements on the posts in place do the joint rule and report the number of posts each one matched |
| `ModerationService.ModerationTables.CreateMachineRecordIfNew` | `internal/repository/moderation.go:227-239` | appends the record exactly if its provider and job number are new |
| `ModerationService.ModerationTables.Apply` | `internal/repository/image_access.go:25-70` | an access change is written exactly if its source is already known or agrees with its record's verdict |
| `ModerationService.ModerationService.ApplyImageResult` | `internal/service/moderation_callback.go:480-535` | on the tables in place, a callback has exactly the modelled effect and reply, errors included |
| `ModerationService.ModerationService.ReconcileDuplicateImageResult` | `internal/service/moderation_callback.go:537-563` | a duplicate has exactly the modelled effect: a mismatching image is refused, otherwise the intent is made sure of |
| `ModerationService.ModerationService.ManualReview` | `internal/service/moderation_callback.go:65-160` | a single review has exactly the modelled effect, and refuses posts and images of pending posts |
| `ModerationService.ModerationService.ManualReviewPost` | `internal/service/moderation_callback.go:210-239` | a whole-post review, with its loops over records, images and intents, has exactly the modelled effect |
| `ModerationService.ModerationService.CreatePostManualRecords` | `internal/service/moderation_callback.go:315-358` | one manual record for each pending record that is the latest text or matches its image's verdict, in ascending order, and the images to be re-judged |
| `ModerationService.ModerationService.DeletePost` | `internal/service/post_write.go:344-384` | deletion in place has exactly the modelled effect for authors and administrators |
| `ModerationService.ModerationService.BlockImages` | `internal/service/admin_content.go:218-250` | exactly the images that were not blocked get an administrative block, in ascending order |
| `ModerationService.ModerationService.RestoreAdminPostDeleteImages` | `internal/service/admin_content.go:180-216` | exactly the images whose latest record is a deletion's block are given back, in ascending order |
| `ModerationService.ModerationService.RestorePost` | `internal/service/admin_content.go:63-117` | a restore in place has the modelled effect and reply; on the image-not-approved error the tables hold the images given back, for its caller to roll back |
| `UnitOfWork.Database.Serve` | `internal/middleware/uow.go:29-80` | a request's writes are kept exactly if it neither panicked nor failed, or failed with a client error it asked to commit, and the hooks and the commit succeeded |
| `UnitOfWork.CommitsExactly` | `internal/middleware/uow.go:53-97` | the commit rule: successes, and client errors that asked for it; never a server error or a report that is no error |
| `VerificationCodes.RetryAfter` | `internal/service/auth.go:779-787` | the wait is the remaining time rounded up to whole seconds, at least one |
| `VerificationCodes.PresentCases` | `internal/service/auth.go:671-698` | a presented code changes something only at a usable challenge: a wrong one is counted for good, a right one is consumed only with the rest of its request |
| `VerificationExpiry.PresentExactly` | `internal/service/auth.go:671-698` | in every reachable state a presented code is compared exactly if a code was sent less than ten minutes ago, was guessed wrong fewer than five times and not consumed since; it is right exactly if it is the one that was mailed, and a right one is consumed exactly if the rest of the request succeeds |
| `VerificationExpiry.ComparedInTime` | `internal/service/auth.go:671-698` | over every run, each wrong guess and each consumption lies less than ten minutes after the last accepted send, with fewer than five wrong guesses and no consumption in between |
| `VerificationExpiry.SendExactly` | `internal/service/auth.go:182-310` | in every reachable state a send is accepted exactly by the last accepted one, and then adds a mail with its code, queued at once, and clears every other plaintext; a refused send changes nothing |
| `VerificationExpiry.ClearExactly` | `internal/repository/email_delivery.go:22-38` | the clearing before a batch takes exactly the plaintexts whose code cannot be presented any more |
| `VerificationExpiry.RefreshExactly` | `internal/repository/email_delivery.go:111-131` | a refresh shows a row exactly while its lease lasts, and its code is handed over exactly if it could be presented there and then and a reset still has its user |
| `VerificationExpiry.ClaimExactly` | `internal/repository/email_delivery.go:64-109` | a claim takes exactly the picked mails that are waiting and due and not leased any more |
| `VerificationRate.AMinuteApart` | `internal/service/auth.go:762-777` | accepted sends for one address and purpose are at least a minute apart whatever clock readings the requests carry |
| `VerificationRate.FivePerWindow` | `internal/service/auth.go:762-777` | at most five accepted sends share a window, and windows start at least an hour apart |
| `VerificationRate.TenPerHour` | `internal/service/auth.go:762-777` | no hour, wherever it starts, holds more than ten accepted sends |
| `VerificationRate.RetryAfterIsExact` | `internal/service/auth.go:762-787` | a refusal names the exact wait: a second earlier it is still refused, afterwards accepted, except when the cool-down of a full window was named |
| `VerificationGuesses.FiveWrongGuessesPerCode` | `internal/service/auth.go:671-698` | between two sends at most five wrong guesses reach the digest comparison |
| `VerificationGuesses.ConsumedAtMostOnce` | `internal/service/auth.go:671-698` | a code is consumed at most once and nothing is compared with it afterwards |
| `VerificationGuesses.FiftyFivePerHour` | `internal/service/auth.go:671-698` | any stretch of the history whose sends were accepted within one hour holds at most fifty-five wrong guesses |
| `VerificationGuesses.RollbackNeverLocks` | `internal/middleware/uow.go:53-97` | if failed attempts were rolled back with their 400, any number of wrong guesses could be tried against one code |
| `VerificationGuesses.FifthGuessLocks` | `internal/service/auth.go:671-698` | committed as it is, the fifth wrong guess locks the code even against the right one |
| `VerificationMail.PlaintextIsCurrent` | `internal/repository/auth.go:188-214` | in every committed state a delivery holding a plaintext holds the code of its challenge's current digest, and that challenge is unconsumed with fewer than five failures |
| `VerificationMail.HandedOverIsValid` | `internal/repository/email_delivery.go:111-131` | a code handed to the sender is owned by this worker's live lease at its refresh and would be accepted there and then |
| `VerificationMail.EndedStaysEnded` | `internal/repository/email_delivery.go:134-146` | sent, cancelled and dead-lettered rows never change again, apart from a plaintext being cleared |
| `VerificationMail.EverySentWasAccepted` | `internal/service/email_delivery.go:209-221` | in every reachable state each mail marked sent was handed over and accepted by the provider |
| `VerificationMail.ForeignRunHolds` | `internal/repository/email_delivery.go:64-146` | while others act, a row a worker still owns keeps the attempts and digest it had at the claim |
| `VerificationService.AuthCodes.SaveState` | `internal/repository/auth.go:188-214` | writes the challenge and clears exactly the plaintexts it does not back any more; other challenges stay as they were |
| `VerificationService.AuthCodes.SendVerificationCode` | `internal/service/auth.go:182-238` | a registration send has exactly the modelled effect; a rate limit answers 429 and changes nothing |
| `VerificationService.AuthCodes.SendPasswordResetCode` | `internal/service/auth.go:241-310` | a reset send has exactly the modelled effect; a rate limit answers like a success and changes nothing |
| `VerificationService.AuthCodes.ConsumeVerification` | `internal/service/auth.go:671-698` | checking a code in place has exactly the modelled effect and outcome |
| `VerificationService.AuthCodes.HandleCode` | `internal/handler/auth.go:311-320` | a request presenting a code commits a failed attempt despite its 400 and undoes a consumed code when the rest of the request fails |
| `VerificationMailWorker.RetryDelay` | `internal/service/email_delivery.go:306-315` | the doubling loop returns the base doubled per attempt, capped at a day |
| `VerificationMailWorker.SelectDue` | `internal/repository/email_delivery.go:64-90` | the claimed mails are the first due ones by next attempt and id |
| `VerificationMailWorker.DueExactly` | `internal/repository/email_delivery.go:64-90` | due are exactly the mails that wait for their next attempt or whose lease has run out, unless another claim locks them |
| `VerificationMailWorker.PicksByColumns` | `internal/repository/email_delivery.go:64-90` | no mail left out or picked later has an earlier next attempt, nor the same and a smaller id |
| `VerificationMailWorker.MailWorker.ProcessClaim` | `internal/service/email_delivery.go:166-250` | beside any actions of others: a claim ends with the refresh finding its lease lost, or with the one fenced write chosen for what the refresh showed and the provider answered, and its outcome says whether the row was still owned; an error is reported exactly for a failed transaction |
| `VerificationMailWorker.MailWorker.RunBatch` | `internal/service/email_delivery.go:151-252` | a batch claims the first due mails up to its size, every counted outcome is that of a processed claim, and a database error ends it |
| `VerificationMailWorker.SentCodesWereValid` | `internal/service/email_delivery.go:178-250` | a mail that ended sent, rescheduled or dead-lettered had a code to hand over that would have been accepted at its refresh; a cancelled one had none |
| `VerificationMailWorker.MailEndsAsAnswered` | `internal/service/email_delivery.go:178-279` | a claim that was not lost ends cancelled exactly without a code to hand over, sent exactly if the provider accepted it, dead-lettered exactly if it was rejected at the last attempt allowed, otherwise rescheduled; and the state, attempts, next attempt and plaintext the row then has |
| `VerificationMailWorker.DelayIsWait` | `internal/service/email_delivery.go:306-315` | the wait doubles from its base with every attempt, up to a day |
| `KeysetPages.FindPage` | `internal/repository/comment.go:52-74` | a page is the first rows beyond the cursor in order, with has-more exactly if rows are left over; a hot cursor without rank is refused |
| `KeysetPages.PageByColumns` | `internal/repository/notification.go:36-69` | in a page newest first an earlier row is newer, or as new with the greater id; oldest first is the reverse; by heat it has more likes, or as many and is newer in that sense |
| `KeysetPages.LeftOutByColumns` | `internal/repository/comment.go:52-74` | a row beyond the cursor is left out only of a full page all of whose rows come before it in that order |
| `KeysetPages.BeyondIsByColumns` | `internal/repository/comment.go:76-101` | a row is beyond a cursor exactly if its likes, creation time and id compare so with the fields of the cursor |
| `KeysetPages.NextCursorByColumns` | `internal/service/comment.go:381-404` | exactly the rows that come after the last row of a page are beyond its next cursor |
| `KeysetPages.NothingTwice` | `internal/service/comment.go:381-404` | following the next cursors, rows come in strictly ascending order across all pages although the table changes in between |
| `KeysetPages.NoRowTwice` | `internal/repository/comment.go:135-157` | with fixed places no row is shown twice |
| `KeysetPages.EveryLastingRowIsShown` | `internal/repository/comment.go:135-157` | with fixed places, a row visible in every table is shown exactly once, whatever happens to its other columns and to other rows |
| `KeysetPages.LastingRowIsShown` | `internal/repository/comment.go:52-74` | in any order, a row that keeps its own place in every table is shown, even if other rows move |
| `KeysetPages.TimeOrdersAreFixed` | `internal/repository/notification.go:36-69` | the time orders of comments and notifications have fixed places whatever happens to other columns |
| `KeysetPages.HeatCanMiss` | `internal/repository/comment.go:90-101` | in the hot order a row that gains likes between two pages can be missed |
| `KeysetPages.HeatCanRepeat` | `internal/repository/comment.go:90-101` | and one that loses likes can be shown twice |
| `KeysetPages.ShownByBoundaries` | `internal/repository/comment.go:52-101` | in every order and run, a row that is in the table throughout is shown once, plus the page boundaries at which it falls back behind the cursor, less those at which the cursor overtakes it |
| `KeysetPages.ExactlyOnceIff` | `internal/service/comment.go:381-404` | it is shown exactly once if and only if it is overtaken as often as it falls back |
| `KeysetPages.RisingMissedIff` | `internal/repository/comment.go:90-101` | a row that only moves to earlier places (by heat: only gains likes) is never repeated, and missed if and only if the cursor overtakes it at some boundary |
| `KeysetPages.SinkingRepeatedIff` | `internal/repository/comment.go:90-101` | a row that only moves to later places (by heat: only loses likes) is never missed, and repeated if and only if it falls back at some boundary |
| `KeysetPages.GainingRises` | `internal/repository/comment.go:90-101` | with its creation time unchanged, a comment whose likes never drop only moves to earlier places in the hot order |
| `KeysetPages.LosingSinks` | `internal/repository/comment.go:90-101` | and one whose likes never grow only to later places |
| `LegacyComments.RegisterSequentialIDs` | `internal/legacyimporter/transform.go:73-99` | success gives an injective map to positive ids with every row's own id; a failure names a bad row or a clash |
| `LegacyComments.ClashesCannotRegister` | `internal/legacyimporter/transform.go:73-99` | rows that clash have no such map |
| `LegacyComments.FindOriginalRoot` | `internal/legacyimporter/transform.go:664-681` | the search ends on every input: with the root, or naming a cycle or a missing parent that is there |
| `LegacyComments.RootIsUnique` | `internal/legacyimporter/transform.go:664-681` | a comment has at most one root |
| `LegacyComments.RootExcludesFailure` | `internal/legacyimporter/transform.go:664-681` | a comment with a root lies on no cycle and misses no ancestor |
| `LegacyThreads.SortByAge` | `internal/legacyimporter/transform.go:588-594` | the rows in order of creation time and id |
| `LegacyThreads.InferReplyParent` | `internal/legacyimporter/transform.go:683-695` | the inferred parent is the only earlier comment of the thread by the user replied to, and there is none when there are several |
| `LegacyThreads.TransformComments` | `internal/legacyimporter/transform.go:575-646` | a table with registered ids is migrated exactly if every row has a root, its post and author were migrated, and every reply has a parent to answer that is older; then every source comment has become a comment with the mapped ids, a parent that is older and of the same thread, its thread's root, and the parent's author as the one replied to |
| `LegacyThreads.BrokenThreadsFail` | `internal/legacyimporter/transform.go:575-587` | a table with a cycle or a missing parent is never migrated |
| `LegacyThreads.RootIsTheOldThread` | `internal/legacyimporter/transform.go:604-646` | every reply's new root is the mapped root of its old thread, even where its parent was inferred anew, and is top-level |
| `LegacyThreads.NewForestIsAcyclic` | `internal/legacyimporter/transform.go:604-662` | the new parent links have no cycle |
| `LegacyTags.FindTag` | `internal/legacyimporter/transform.go:347-353` | scanning the tag map in any order finds the one tag equal under case folding, or none |
| `LegacyTags.TransformPostTags` | `internal/legacyimporter/transform.go:342-373` | the tables are a function of the uses so far; a duplicate is refused only if the post already uses the name in some spelling |
| `LegacyTags.TransformTags` | `internal/legacyimporter/transform.go:342-373` | over all posts: ids without gaps from one, no two tags equal under case folding, each with the time of its earliest use, one link per use |
| `LegacyTags.LinkedExactlyIfUsed` | `internal/legacyimporter/transform.go:342-373` | a post links a tag exactly if it uses the name |
| `LegacyCounters.DeriveCounters` | `internal/legacyimporter/transform.go:840-866` | every counter grows by the exact number of relation rows it counts, and the sums by the number of relations |
| `LegacyCounters.WalksAgree` | `internal/legacyimporter/transform.go:840-866` | the counters are the same in whatever order the maps are walked |
| `LegacyCounters.TotalsAreConserved` | `internal/legacyimporter/transform.go:840-866` | summed over all rows of the derived tables, in any order, each counter has grown by the number of relations it counts; replies by the number of comments with a root |
| `Revisions.ContiguousAppend` | `internal/repository/post.go:339-344` | a version under the next revision leaves no gap and overwrites nothing |
| `PostVersions.MergeLinks` | `internal/repository/admin_tags.go:105-131` | a merge gives every post of the source its tags without the source and with the target, and no other post anything |
| `PostVersions.MergeExactly` | `internal/service/admin_tags.go:155-202` | a successful merge: posts of the source get exactly one new version, which holds the exchanged tags and becomes current; every other post, its tags and versions stay; nothing uses the source any more |
| `PostVersions.MergeAnswers` | `internal/service/admin_tags.go:155-202` | each refusal of a merge has its exact cause; a merge marks the source deleted and nothing else among the tags |
| `PostVersions.RenameExactly` | `internal/service/admin_tags.go:110-152` | a tag is renamed exactly if no other has the name under case folding |
| `PostVersions.RenameVersions` | `internal/service/admin_tags.go:110-152` | a rename gives each post of the tag one new version with the new spelling, and no other post anything |
| `PostVersions.SetTagDeletedExactly` | `internal/service/admin_tags.go:227-250` | deleting or restoring a tag writes its flag and nothing else |
| `PostVersions.CreateTagExactly` | `internal/repository/post_relations.go:274-292` | a tag is created exactly if no tag has its name under case folding |
| `PostVersions.SaveExactly` | `internal/service/post_write.go:259-342` | a save writes the body, the tags and one new version of this post alone |
| `PostVersions.RestoreExactly` | `internal/service/post_write.go:157-239` | a restore needs a saved version whose names all resolve to tags that are not deleted, and shows its body and those tags |
| `PostVersions.MainRowIsItsVersion` | `internal/service/admin_tags.go:110-202` | through edits, renames, merges, tag deletions and restores of versions whose tags kept their spelling, revisions run from one without gaps and the main row equals the version its pointer names |
| `PostVersions.VersionsLast` | `internal/repository/post.go:339-344` | over every run, with restores of any version, no version is ever lost or overwritten |
| `PostVersions.RestoreKeepsIff` | `internal/service/post_write.go:157-239` | a restore keeps the main row equal to its version exactly when no tag of the version was respelled since |
| `PostVersions.RespelledTagBreaksVersion` | `internal/repository/post_relations.go:274-292` | a concrete run of a save, a respelling and a restore after which it does not: the restored row shows the new spelling, the version the old |
| `TagAdmin.PostTables.PrepareTagAffectedPosts` | `internal/service/admin_tags.go:252-273` | lists every post of the tag once with its next revision |
| `TagAdmin.PostTables.MergeTagRelations` | `internal/repository/admin_tags.go:105-131` | the three statements in place are the modelled exchange |
| `TagAdmin.PostTables.AppendTagChangeVersions` | `internal/service/admin_tags.go:275-308` | the loop over the affected posts gives each its version, as if all were done at once |
| `TagAdmin.AdminService.RenameTag` | `internal/service/admin_tags.go:110-152` | a rename in place has exactly the modelled effect; an unchanged name does nothing and a name taken under case folding is refused |
| `TagAdmin.AdminService.MergeTag` | `internal/service/admin_tags.go:155-202` | a merge in place has exactly the modelled effect and count |
| `CommentVersions.CommentsAreSound` | `internal/service/comment_write.go:33-150` | in every reachable state a comment's revisions run from one, its row shows the newest, and it hangs below an earlier comment of its post in that comment's thread, answering its author |
| `CommentVersions.VersionsLast` | `internal/repository/comment.go:253-264` | over every run no version of a comment is ever lost or overwritten |
| `CommentVersions.OneRootPerThread` | `internal/service/comment_write.go:180-227` | exactly replies have a root, and the root is an earlier top-level comment |
| `CommentVersions.EditNeverRevives` | `internal/service/comment_write.go:101-107` | no edit brings back a comment its author or an administrator deleted |
| `CommentVersions.CommentService.ResolveCommentParent` | `internal/service/comment_write.go:180-227` | a reply's root and addressee are decided by its parent; deleted, unapproved or foreign parents are refused |
| `CommentVersions.CommentService.CreateComment` | `internal/service/comment_write.go:33-85` | creation in place has exactly the modelled effect |
| `CommentVersions.CommentService.UpdateComment` | `internal/service/comment_write.go:88-150` | an edit in place has exactly the modelled effect |
| `CommentVersions.CreateExactly` | `internal/service/comment_write.go:33-85` | a comment that was accepted has its columns, first version and verdict; a block hides it; nothing else changes |
| `CommentVersions.CreateRefusals` | `internal/service/comment_write.go:180-227` | each refusal of a new comment has its exact cause |
| `CommentVersions.UpdateRefusals` | `internal/service/comment_write.go:88-150` | only the author edits, and only a comment that is there or was hidden by moderation, on a post that is not deleted; each refusal has its exact cause |
| `CommentVersions.UpdateExactly` | `internal/service/comment_write.go:88-150` | an edit writes the next version, and its verdict shows or hides the comment; nothing else changes |
| `CommentVersions.FlagsExactly` | `internal/repository/comment.go:189-235` | a deletion or a verdict sets the flags of this comment alone, and a deleted comment keeps its reason |

## Left out

- HTTP handlers, routing, DTO binding, configuration, metrics, logging, alerts and the provider adapters: plumbing. The
  providers are oracles that may answer anything of their error kinds.
- SQL text and GORM: each statement is its row-level meaning. Gaps in identity columns after conflicts or rollbacks and
  the microsecond rounding of stored times are not modelled, nor are created_at and updated_at columns nothing depends on.
- ImageAccessWorker.RunBatch: the goroutines of one batch are processed one after another; their interleaving is that of
  different images, which the protocol covers. Several clock readings within one decision are one reading.
- ModerationAccess.IntentFollowsVerdict: covers image assets while their rows exist; the physical removal of retired
  assets with their deliveries is not part of the model.
- ModerationService.ModerationService.ManualReview: reviews of comments, tags and user fields, the score range and the
  JSON validity of raw responses are left out; images and posts are covered. Manual verdicts on comments are a step of
  `CommentVersions`.
- Ownership, purpose and count checks on the images of a saved post, dictionaries, and draft-to-publish rules: they only
  refuse saves, which the model allows.
- The image-moderation retry queue (`internal/service/image_moderation_retry_worker.go` and its repository): the same
  lease and fence reasoning as the mail outbox, with easier states; callbacks remove its rows, which nothing else reads.
- VerificationMailWorker.MailWorker.RunBatch: the mails of one challenge; a real batch spans challenges, whose rows do
  not depend on each other.
- VerificationGuesses.FiftyFivePerHour: counts guesses that reach the digest comparison, by the order of commits.
- LegacyThreads.TransformComments: source ids are primary keys and registered; `RegisterSequentialIDs` itself also
  accepts an exact repetition of a row. Events and statistics of the importer are left out.
- LegacyTags.TransformPostTags: case folding is an equivalence on names; the length and whitespace checks are one flag.
- KeysetPages.FindPage: the visibility predicate only decides which rows a reader's table holds; decoding of cursors and
  the limits of a page are the pagination package's, which is not part of this model.
- PostVersions: post columns and relations other than tags are one opaque body; creation of missing tags while saving is a
  step of its own; comment mentions and notifications are left out.
- The importer's row-count gates, its writers, and the verification after an import; profile, follow, search and list
  queries; roles, bans and sessions: no state to preserve, or single-branch rules.
