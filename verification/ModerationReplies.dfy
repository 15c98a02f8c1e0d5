/** When each moderation operation is carried out, what it writes by columns, and why it is refused otherwise. */
module ModerationReplies {
  import opened Common
  import opened ImageAccessRow
  import opened ImageAccessOutbox
  import opened ModerationState
  import opened ModerationOperations
  import opened ModerationAccess
  import opened ModerationReview
  import ModerationIntakes

  // ---- The rules a post is judged by ----------------------------------------------

  predicate Has(images: map<ImageId, Image>, i: ImageId, m: Moderation) { i in images && images[i].moderation == m }

  /** Rejected by a blocked text or image; approved when text and all images passed; pending otherwise. */
  lemma AggregateExactly(text: Verdict, images: map<ImageId, Image>, used: set<ImageId>)
    ensures Aggregate(text, images, used) == Rejected <==>
      text == Block || exists i :: i in used && Has(images, i, Judged(Block))
    ensures Aggregate(text, images, used) == Approved <==>
            text == Pass && forall i :: i in used && i in images ==> Has(images, i, Judged(Pass))
    ensures Aggregate(text, images, used) != Draft
  {
    if i :| i in used && Has(images, i, Judged(Block)) { assert !HasModeration(images, i, Judged(Pass)); }
    assert forall i, m :: Has(images, i, m) <==> HasModeration(images, i, m);
  }

  /** Reconciliation decides the listed posts that are live and pending or rejected, and no other column or post. */
  lemma ReconciledExactly(db: Db, ids: set<PostId>, p: PostId)
    requires p in db.posts
    ensures var after, post := Reconciled(db, ids), db.posts[p];
      && after == db.(posts := after.posts) && after.posts.Keys == db.posts.Keys
      && after.posts[p] ==
         if p in ids && post.deleted == None && (post.status == Pending || post.status == Rejected)
         then post.(status := Decision(post.status, TextVerdict(db, p), db.images, post.images)) else post
  {
    if MustReject(db, p) { RejectExcludesApprove(db, p); }
    if TextVerdict(db, p).Some? { AggregateExactly(TextVerdict(db, p).value, db.images, db.posts[p].images); }
    assert forall i, m :: Has(db.images, i, m) <==> HasModeration(db.images, i, m);
  }

  // A post without a text verdict can only be rejected, by an image.
  function Decision(
    status: PostStatus, text: Option<Verdict>, images: map<ImageId, Image>, used: set<ImageId>): PostStatus
  {
    match text
    case None => if exists i :: i in used && Has(images, i, Judged(Block)) then Rejected else status
    case Some(v) => if Aggregate(v, images, used) == Pending then status else Aggregate(v, images, used)
  }

  /** The text verdict of a post is that of the newest record of its current revision. */
  lemma TextVerdictIsNewest(db: Db, p: PostId, k: RecordId)
    requires p in db.posts && k < |db.records| && db.records[k].target == PostText(p, db.posts[p].revision)
    requires forall j :: 0 <= j < |db.records| && db.records[j].target == PostText(p, db.posts[p].revision) ==>
      db.records[j].createdAt < db.records[k].createdAt
        || (db.records[j].createdAt == db.records[k].createdAt && j <= k)
    ensures TextVerdict(db, p) == Some(db.records[k].verdict)
  {
    LatestIsGreatest(db.records, PostText(p, db.posts[p].revision), k);
  }

  /** The live pending posts that use one of the images. */
  lemma PendingPostsExactly(db: Db, used: set<ImageId>, p: PostId)
    ensures p in PendingPostsWith(db, used) <==>
      && p in db.posts && db.posts[p].deleted == None && db.posts[p].status == Pending
      && exists i :: i in used && i in db.posts[p].images
  {
    if p in db.posts {
      if i :| i in used && i in db.posts[p].images { assert i in db.posts[p].images * used; }
    }
  }

  // ---- Intents ---------------------------------------------------------------------

  /** The delivery row of a first-seen verdict: the next generation, from its ACL step, with the lease it has. */
  function Restarted(row: Option<Delivery>, intent: nat, public: bool, purge: bool, now: Time): Delivery {
    Delivery(intent, public, purge, if row.Some? then row.value.generation + 1 else 1, PendingAcl, 0, 0, 0, 0,
             None, None, Some(now), if row.Some? then row.value.lease else None, None, None, None)
  }

  lemma AccessExactly(db: Db, i: ImageId, source: RecordId, public: bool, purge: bool, now: Time)
    ensures var r := Access(db, i, source, public, purge, now);
      && (source in db.intents ==> r == Some(db))
      && (source !in db.intents ==>
            && (r.Some? <==> source < |db.records| && db.records[source].target == OfImage(i)
                             && (public <==> db.records[source].verdict == Pass))
            && (r.Some? ==>
                  r.value == db.(intents := db.intents[source := Intent(db.nextIntent, i, public)],
                                 nextIntent := db.nextIntent + 1,
                                 deliveries := db.deliveries[i := Restarted(
                                   if i in db.deliveries then Some(db.deliveries[i]) else None,
                                   db.nextIntent, public, purge, now)])))
  {
  }

  // ---- Results of the image provider -------------------------------------------------

  predicate Recorded(records: seq<Record>, provider: nat, job: JobId, k: RecordId) {
    k < |records| && records[k].provider == Machine(provider) && records[k].job == Some(job)
  }

  ghost predicate Replayed(db: Db, cb: Callback) {
    cb.job.Some? && exists k: RecordId :: Recorded(db.records, cb.provider, cb.job.value, k)
  }

  predicate Describes(db: Db, cb: Callback)
    requires cb.image in db.images
  {
    (cb.key == None || cb.key == Some(db.images[cb.image].key)) && db.images[cb.image].uploaded
  }

  lemma ReplayedIsRecorded(db: Db, cb: Callback)
    ensures Replayed(db, cb) <==> cb.job.Some? && JobRecorded(db.records, Machine(cb.provider), cb.job.value)
  {
    if cb.job.Some? && JobRecorded(db.records, Machine(cb.provider), cb.job.value) {
      var k :| 0 <= k < |db.records| && SameJob(db.records[k], Machine(cb.provider), cb.job.value);
      assert Recorded(db.records, cb.provider, cb.job.value, k);
    }
    if Replayed(db, cb) {
      var k: RecordId :| Recorded(db.records, cb.provider, cb.job.value, k);
      assert SameJob(db.records[k], Machine(cb.provider), cb.job.value);
    }
  }

  /** Which results are refused, and with what answer. */
  lemma ResultRefusals(db: Db, cb: Callback, requireJob: bool, now: Time)
    requires Consistent(db)
    ensures var (after, reply) := ApplyImageResult(db, cb, requireJob, now);
      var named := cb.image != 0 && (requireJob ==> cb.job.Some?);
      && (reply == Err(InvalidInput) <==> !named)
      && (reply == Err(ImageNotFound) <==> named && cb.image !in db.images)
      && (named && cb.image in db.images && !Describes(db, cb) ==> reply == Err(CallbackMismatch))
      && (named && cb.image in db.images && Describes(db, cb) && !Replayed(db, cb) ==> reply.Ok? && reply.value.Moved?)
      && (named && cb.image in db.images && Describes(db, cb) && Replayed(db, cb) ==>
            reply == Ok(Duplicate) || reply == Err(CallbackMismatch))
      && (reply.Err? || reply == Ok(Duplicate) ==> after == db)
  {
    ReplayedIsRecorded(db, cb);
    ReceiveKeeps(db, cb, requireJob, now);
    if Replayed(db, cb) { DuplicateChangesNothing(db, cb, requireJob, now); }
  }

  /** A replayed job is a duplicate exactly if it was recorded for this image. */
  lemma DuplicateExactly(db: Db, cb: Callback, requireJob: bool, now: Time)
    requires Consistent(db) && cb.image != 0 && cb.image in db.images && Describes(db, cb) && Replayed(db, cb)
    requires forall j: RecordId, k: RecordId ::
               Recorded(db.records, cb.provider, cb.job.value, j) && Recorded(db.records, cb.provider, cb.job.value, k)
               ==> j == k
    ensures ApplyImageResult(db, cb, requireJob, now).1 == Ok(Duplicate) <==>
      exists k: RecordId ::
        Recorded(db.records, cb.provider, cb.job.value, k) && db.records[k].target == OfImage(cb.image)
  {
    ReplayedIsRecorded(db, cb);
    var existing := FindJob(db.records, Machine(cb.provider), cb.job.value).value;
    assert Recorded(db.records, cb.provider, cb.job.value, existing);
    ReceiveKeeps(db, cb, requireJob, now);
    DuplicateChangesNothing(db, cb, requireJob, now);
    if db.records[existing].target == OfImage(cb.image) { DuplicateAccepted(db, cb, now, existing); }
  }

  // In a consistent state the intent of a recorded verdict is there already.
  lemma DuplicateAccepted(db: Db, cb: Callback, now: Time, existing: RecordId)
    requires Consistent(db) && cb.image in db.images && cb.job.Some?
    requires JobRecorded(db.records, Machine(cb.provider), cb.job.value)
    requires FindJob(db.records, Machine(cb.provider), cb.job.value) == Some(existing)
    requires db.records[existing].target == OfImage(cb.image)
    ensures DuplicateResult(db, cb, now).1 == Ok(Duplicate)
  {
  }

  // The tables between a new image verdict and the reconciliation of posts.
  function Noted(db: Db, i: ImageId, record: Record): Db {
    db.(records := db.records + [record],
        images := map j | j in db.images ::
                    if j == i then db.images[j].(moderation := Judged(record.verdict)) else db.images[j])
  }

  lemma NotedIs(db: Db, i: ImageId, record: Record)
    requires i in db.images
    ensures WithModeration(Append(db, record), i, Judged(record.verdict)) == Noted(db, i, record)
  {
    assert WithModeration(Append(db, record), i, Judged(record.verdict)).images == Noted(db, i, record).images;
  }

  /**
   * An accepted result appends one record, sets the verdict of its image and reconciles the live pending posts that use
   * it; it answers how many it approved and rejected.
   */
  lemma ResultExactly(db: Db, cb: Callback, requireJob: bool, now: Time)
    requires Consistent(db) && cb.image != 0 && cb.image in db.images && Describes(db, cb) && !Replayed(db, cb)
    requires requireJob ==> cb.job.Some?
    ensures var (after, reply) := ApplyImageResult(db, cb, requireJob, now);
      var noted := Noted(db, cb.image, Record(OfImage(cb.image), Machine(cb.provider), cb.job, cb.verdict, None, now));
      var posts := PendingPostsWith(db, {cb.image});
      && after.records == noted.records && after.images == noted.images
      && after.posts == Reconciled(noted, posts).posts
      && reply == Ok(Moved(|Became(db, after, Approved)|, |Became(db, after, Rejected)|))
  {
    ReplayedIsRecorded(db, cb);
    var record := CallbackRecord(cb, now);
    var posts := PendingPostsWith(db, {cb.image});
    NotedIs(db, cb.image, record);
    JudgeKeeps(db, cb.image, record, posts, now);
    var noted := Noted(db, cb.image, record);
    MovedAre(db, noted, posts);
    var after := ApplyImageResult(db, cb, requireJob, now).0;
    assert Became(db, after, Approved) == Became(db, Reconciled(noted, posts), Approved);
    assert Became(db, after, Rejected) == Became(db, Reconciled(noted, posts), Rejected);
  }

  /** The posts whose status changed to this one. */
  function Became(a: Db, b: Db, status: PostStatus): set<PostId> {
    set p | p in a.posts && p in b.posts && a.posts[p].status != status && b.posts[p].status == status
  }

  lemma MovedAre(db: Db, noted: Db, posts: set<PostId>)
    requires noted.posts == db.posts && forall p :: p in posts ==> p in db.posts && db.posts[p].status == Pending
    ensures ApprovedOf(noted, posts) == Became(db, Reconciled(noted, posts), Approved)
    ensures RejectedOf(noted, posts) == Became(db, Reconciled(noted, posts), Rejected)
  {
    forall p | p in db.posts
      ensures p in ApprovedOf(noted, posts) <==> p in Became(db, Reconciled(noted, posts), Approved)
      ensures p in RejectedOf(noted, posts) <==> p in Became(db, Reconciled(noted, posts), Rejected)
    {
      if MustReject(noted, p) { RejectExcludesApprove(noted, p); }
    }
  }

  // ---- Reviews of one record -----------------------------------------------------------

  ghost predicate ReviewedBefore(records: seq<Record>, id: RecordId) {
    exists m :: 0 <= m < |records| && records[m].supersedes == Some(id)
  }

  /**
   * One record is reviewed exactly by a named reviewer who decides, about a machine verdict on an image that did not
   * pass, that was not reviewed before, and that no live pending post uses.
   */
  lemma ReviewExactly(db: Db, id: RecordId, reviewer: UserId, verdict: Verdict, now: Time)
    requires Consistent(db)
    ensures var (after, reply) := ManualReview(db, id, reviewer, verdict, now);
      && (reply == Err(InvalidInput) <==> reviewer == 0 || verdict == Review)
      && (reviewer != 0 && verdict != Review ==>
            && (reply == Err(RecordNotFound) <==> id >= |db.records|)
            && (id < |db.records| ==>
                  var r := db.records[id];
                  && (reply == Err(NotReviewable) <==> r.provider == Manual || r.verdict == Pass)
                  && (r.provider != Manual && r.verdict != Pass ==>
                        && (r.target.PostText? ==> reply == Err(WholePostOnly))
                        && (r.target.OfImage? ==>
                              var waiting := PendingPostsWith(db, {r.target.image}) != {};
                              && (reply == Err(WholePostOnly) <==> waiting)
                              && (reply == Err(AlreadyReviewed) <==> !waiting && ReviewedBefore(db.records, id))
                              && (reply.Ok? <==> !waiting && !ReviewedBefore(db.records, id))))))
      && (reply.Err? ==> after == db)
      && (reply.Ok? ==>
            var i := db.records[id].target.image;
            var noted := Noted(db, i, Record(OfImage(i), Manual, None, verdict, Some(id), now));
            && reply.value == |db.records|
            && after.records == noted.records && after.images == noted.images && after.posts == db.posts)
  {
    ManualReviewCases(db, id, reviewer, verdict, now);
    if id < |db.records| && db.records[id].target.OfImage? {
      var i := db.records[id].target.image;
      assert Superseded(db.records, id) <==> ReviewedBefore(db.records, id);
      var record := ManualOf(db.records[id], id, verdict, now);
      NotedIs(db, i, record);
      JudgeKeeps(db, i, record, PendingPostsWith(db, {i}), now);
      if PendingPostsWith(db, {i}) == {} { ReconcileNone(Noted(db, i, record)); }
    }
  }

  // ---- Reviews of a whole post -----------------------------------------------------------

  /** What a whole-post review decides: unreviewed machine verdicts that did not pass and still count. */
  predicate Decidable(db: Db, p: PostId, k: RecordId)
    requires p in db.posts
  {
    && k < |db.records| && db.records[k].provider != Manual && db.records[k].verdict != Pass
    && (forall m :: 0 <= m < |db.records| ==> db.records[m].supersedes != Some(k))
    && ((db.records[k].target == PostText(p, db.posts[p].revision)
         && Latest(db.records, db.records[k].target) == Some(k))
        || (db.records[k].target.OfImage? && db.records[k].target.image in db.posts[p].images
            && Has(db.images, db.records[k].target.image, Judged(db.records[k].verdict))))
  }

  lemma ChosenAreDecidable(db: Db, p: PostId, k: RecordId)
    requires p in db.posts
    ensures k in ChosenOf(db, p) <==> Decidable(db, p, k)
  {
  }

  /** A post all of whose images were judged, with a text verdict, that has something left to decide. */
  ghost predicate ReviewablePost(db: Db, p: PostId)
    requires p in db.posts
  {
    && (db.posts[p].status == Pending || db.posts[p].status == Rejected)
    && (forall i :: i in db.posts[p].images && i in db.images ==> db.images[i].moderation != Unjudged)
    && TextVerdict(db, p).Some? && exists k: RecordId :: Decidable(db, p, k)
  }

  lemma SomethingDecidable(db: Db, p: PostId)
    requires p in db.posts
    ensures ChosenOf(db, p) != {} <==> exists k: RecordId :: Decidable(db, p, k)
  {
    if k: RecordId :| Decidable(db, p, k) { ChosenAreDecidable(db, p, k); }
    if k :| k in ChosenOf(db, p) { ChosenAreDecidable(db, p, k); }
  }

  predicate ValidReview(p: PostId, reviewer: UserId, verdict: Verdict) { p != 0 && reviewer != 0 && verdict != Review }

  /** Why a whole post is not reviewed. */
  lemma PostReviewRefusals(db: Db, p: PostId, reviewer: UserId, verdict: Verdict, now: Time)
    ensures var reply := ManualReviewPost(db, p, reviewer, verdict, now).1;
      && (reply == Err(InvalidInput) <==> !ValidReview(p, reviewer, verdict))
      && (reply == Err(PostNotFound) <==> ValidReview(p, reviewer, verdict) && p !in db.posts)
      && (reply == Err(PostDeleted) <==>
            ValidReview(p, reviewer, verdict) && p in db.posts && db.posts[p].deleted != None)
  {
  }

  /** When it is, and how many records it decides. */
  lemma PostReviewExactly(db: Db, p: PostId, reviewer: UserId, verdict: Verdict, now: Time)
    requires Consistent(db) && p in db.posts && ValidReview(p, reviewer, verdict) && db.posts[p].deleted == None
    ensures var (after, reply) := ManualReviewPost(db, p, reviewer, verdict, now);
      && (reply.Ok? <==> ReviewablePost(db, p))
      && (reply.Ok? ==> reply.value == |ChosenOf(db, p)|)
      && (reply.Err? ==> after == db && reply == Err(NotPending))
  {
    ReviewPostKeeps(db, p, reviewer, verdict, now);
    SomethingDecidable(db, p);
    AllJudgedIs(db.images, db.posts[p].images);
    PostReviewAnswer(db, p, reviewer, verdict, now);
  }

  lemma PostReviewAnswer(db: Db, p: PostId, reviewer: UserId, verdict: Verdict, now: Time)
    requires p in db.posts && ValidReview(p, reviewer, verdict) && db.posts[p].deleted == None
    ensures var reply := ManualReviewPost(db, p, reviewer, verdict, now).1;
      && (reply == Err(Internal) || reply == Err(NotPending) || reply == Ok(|ChosenOf(db, p)|))
      && (reply == Err(NotPending) <==>
            || !(db.posts[p].status == Pending || db.posts[p].status == Rejected)
            || !AllJudged(db.images, db.posts[p].images) || TextVerdict(db, p).None? || ChosenOf(db, p) == {})
  {
  }

  lemma AllJudgedIs(images: map<ImageId, Image>, used: set<ImageId>)
    ensures AllJudged(images, used) <==> forall i :: i in used && i in images ==> images[i].moderation != Unjudged
  {
  }

  /**
   * After a successful review the post has its one-shot evaluation of the reviewed text and images, except that it does
   * not move back to pending.
   */
  lemma ReviewedPostGrade(db: Db, p: PostId, reviewer: UserId, verdict: Verdict, now: Time)
    requires Consistent(db) && p in db.posts && ManualReviewPost(db, p, reviewer, verdict, now).1.Ok?
    ensures var after := ManualReviewPost(db, p, reviewer, verdict, now).0;
      var k := Latest(db.records, CurrentText(db, p)).value;
      var text := if Decidable(db, p, k) && db.records[k].createdAt <= now then verdict else db.records[k].verdict;
      var grade := Aggregate(text, after.images, db.posts[p].images);
      && p in after.posts
      && after.posts[p] == db.posts[p].(status := if grade == Pending then db.posts[p].status else grade)
  {
    ReviewPostKeeps(db, p, reviewer, verdict, now);
    var k := Latest(db.records, CurrentText(db, p)).value;
    ReviewedText(db, p, verdict, now);
    ChosenAreDecidable(db, p, k);
    var d := PostJudged(db, p, verdict, now);
    ReconcileIsAggregate(d, PostsTouched(db, p), p);
  }

  /** Images of decided records have the verdict, the others are as they were. */
  ghost predicate ImagesReviewed(db: Db, after: Db, p: PostId, verdict: Verdict)
    requires p in db.posts
  {
    && after.images.Keys == db.images.Keys
    && forall i :: i in db.images ==>
         after.images[i] ==
         if i in DecidedImages(db, p) then db.images[i].(moderation := Judged(verdict)) else db.images[i]
  }

  // The images some decidable record is about.
  ghost function DecidedImages(db: Db, p: PostId): set<ImageId>
    requires p in db.posts
  {
    set k: RecordId | k < |db.records| && Decidable(db, p, k) && db.records[k].target.OfImage?
      :: db.records[k].target.image
  }

  lemma ReviewedImages(db: Db, p: PostId, reviewer: UserId, verdict: Verdict, now: Time)
    requires Consistent(db) && p in db.posts && ManualReviewPost(db, p, reviewer, verdict, now).1.Ok?
    ensures ImagesReviewed(db, ManualReviewPost(db, p, reviewer, verdict, now).0, p, verdict)
  {
    ReviewPostKeeps(db, p, reviewer, verdict, now);
    RejudgedImages(db, p, verdict, now);
  }

  lemma RejudgedImages(db: Db, p: PostId, verdict: Verdict, now: Time)
    requires p in db.posts
    ensures ImagesReviewed(db, Reconciled(PostJudged(db, p, verdict, now), PostsTouched(db, p)), p, verdict)
  {
    forall i
      ensures i in ImagesOf(db.records, ChosenOf(db, p)) <==> i in DecidedImages(db, p)
    {
      TouchedIff(db, p, i);
    }
  }

  lemma TouchedIff(db: Db, p: PostId, i: ImageId)
    requires p in db.posts
    ensures i in ImagesOf(db.records, ChosenOf(db, p)) <==> i in DecidedImages(db, p)
  {
    if i in DecidedImages(db, p) {
      var k: RecordId :| k < |db.records| && Decidable(db, p, k) && db.records[k].target == OfImage(i);
      ChosenAreDecidable(db, p, k);
      assert db.records[k].target.image in ImagesOf(db.records, ChosenOf(db, p));
    }
    if i in ImagesOf(db.records, ChosenOf(db, p)) {
      var k :| k in ChosenOf(db, p) && k < |db.records| && db.records[k].target == OfImage(i);
      ChosenAreDecidable(db, p, k);
    }
  }

  /** Its records: one manual record for each decided one, about the same target and dated now. */
  lemma ReviewedRecords(db: Db, p: PostId, reviewer: UserId, verdict: Verdict, now: Time, n: nat)
    requires Consistent(db) && p in db.posts && ManualReviewPost(db, p, reviewer, verdict, now).1.Ok?
    requires n < |ChosenOf(db, p)|
    ensures var after := ManualReviewPost(db, p, reviewer, verdict, now).0;
      var k := Ascending(ChosenOf(db, p))[n];
      && |after.records| == |db.records| + |ChosenOf(db, p)| && Decidable(db, p, k)
      && after.records[|db.records| + n] == Record(db.records[k].target, Manual, None, verdict, Some(k), now)
  {
    ReviewPostKeeps(db, p, reviewer, verdict, now);
    ManualRecordAt(db, p, verdict, now, n);
    ChosenAreDecidable(db, p, Ascending(ChosenOf(db, p))[n]);
  }

  // ---- Deletion and restore ---------------------------------------------------------------

  /** k is the newest record about the target. */
  ghost predicate Newest(records: seq<Record>, target: Target, k: RecordId) {
    && k < |records| && records[k].target == target
    && forall j :: 0 <= j < |records| && records[j].target == target ==>
         records[j].createdAt < records[k].createdAt || (records[j].createdAt == records[k].createdAt && j <= k)
  }

  lemma LatestIsNewest(records: seq<Record>, target: Target, k: RecordId)
    ensures Latest(records, target) == Some(k) <==> Newest(records, target, k)
  {
    if Latest(records, target) == Some(k) {
      forall j | 0 <= j < |records| && records[j].target == target
        ensures records[j].createdAt < records[k].createdAt || (records[j].createdAt == records[k].createdAt && j <= k)
      {
        LatestIsGreatest(records, target, j);
      }
    }
    if Newest(records, target, k) { LatestIsGreatest(records, target, k); }
  }

  /** The image is blocked, and the newest record about it says that a deletion did it. */
  ghost predicate BlockedByDeletion(db: Db, i: ImageId) {
    && Has(db.images, i, Judged(Block))
    && exists k: RecordId :: Newest(db.records, OfImage(i), k) && db.records[k].provider == AdminPostDelete
  }

  lemma BlockedByDeleteIs(db: Db, i: ImageId)
    ensures BlockedByDelete(db, i) <==> BlockedByDeletion(db, i)
  {
    if BlockedByDelete(db, i) { LatestIsNewest(db.records, OfImage(i), Latest(db.records, OfImage(i)).value); }
    if BlockedByDeletion(db, i) {
      var k: RecordId :| Newest(db.records, OfImage(i), k) && db.records[k].provider == AdminPostDelete;
      LatestIsNewest(db.records, OfImage(i), k);
    }
  }

  function AdminRecords(ids: seq<ImageId>, provider: Provider, verdict: Verdict, now: Time): seq<Record> {
    if ids == [] then []
    else [Record(OfImage(ids[0]), provider, None, verdict, None, now)] + AdminRecords(ids[1..], provider, verdict, now)
  }

  lemma AppendedInTurn(a: seq<Record>, first: Record, rest: seq<Record>)
    ensures (a + [first]) + rest == a + ([first] + rest)
  {
  }

  /** Administrative verdicts append one record for each image, in order. */
  lemma {:induction false} AdminRecordsAppended(
    db: Db, ids: seq<ImageId>, provider: Provider, verdict: Verdict, now: Time)
    requires Consistent(db) && forall k :: 0 <= k < |ids| ==> ids[k] in db.images
    ensures var after := JudgeEach(db, ids, provider, verdict, now);
      after.Some? && after.value.records == db.records + AdminRecords(ids, provider, verdict, now)
    decreases |ids|
  {
    if ids != [] {
      var next := JudgeOne(db, ids[0], provider, verdict, now);
      AdminRecordsAppended(next, ids[1..], provider, verdict, now);
      var first := Record(OfImage(ids[0]), provider, None, verdict, None, now);
      AppendedInTurn(db.records, first, AdminRecords(ids[1..], provider, verdict, now));
    }
  }

  /** The images a deletion of p blocks: used by it and by no other live post, and not blocked yet. */
  ghost predicate Orphaned(db: Db, p: PostId, i: ImageId)
    requires p in db.posts
  {
    && i in db.posts[p].images && i in db.images && db.images[i].moderation != Judged(Block)
    && forall q :: q in db.posts && q != p && db.posts[q].deleted == None ==> i !in db.posts[q].images
  }

  ghost function OrphansOf(db: Db, p: PostId): set<ImageId>
    requires p in db.posts
  {
    set i | i in db.posts[p].images && Orphaned(db, p, i)
  }

  lemma OrphansAre(db: Db, p: PostId, reason: DeleteReason)
    requires p in db.posts
    ensures ToBlock(Deleted(db, p, Some(reason)), db.posts[p].images) == OrphansOf(db, p)
  {
    var gone := Deleted(db, p, Some(reason));
    forall i | i in db.posts[p].images && i in db.images
      ensures UsedByLive(gone, i) <==>
        exists q :: q in db.posts && q != p && db.posts[q].deleted == None && i in db.posts[q].images
    {
      if q :| q in db.posts && q != p && db.posts[q].deleted == None && i in db.posts[q].images {
        assert q in gone.posts && Live(gone.posts[q]) && i in gone.posts[q].images;
      }
    }
  }

  /** Images after an administrative verdict on some of them. */
  function Stamp(images: map<ImageId, Image>, ids: set<ImageId>, verdict: Verdict): map<ImageId, Image> {
    map i | i in images :: if i in ids then images[i].(moderation := Judged(verdict)) else images[i]
  }

  lemma StampedIs(images: map<ImageId, Image>, ids: set<ImageId>, verdict: Verdict)
    ensures Stamped(images, Ascending(ids), verdict) == Stamp(images, ids, verdict)
  {
  }

  predicate MayDelete(db: Db, p: PostId, actor: UserId, admin: bool) {
    p in db.posts && db.posts[p].deleted == None && (admin || db.posts[p].author == actor)
  }

  /**
   * A live post is deleted exactly by its author or an administrator, whichever of the two it was is noted, and the
   * images nothing shows any more are blocked, with a record each.
   */
  lemma DeleteExactly(db: Db, p: PostId, actor: UserId, admin: bool, now: Time)
    requires Consistent(db)
    ensures var (after, reply) := DeletePost(db, p, actor, admin, now);
      && (reply.Ok? <==> MayDelete(db, p, actor, admin))
      && (reply == Err(PostNotFound) <==> p !in db.posts)
      && (reply == Err(PostDeleted) <==> p in db.posts && db.posts[p].deleted != None)
      && (reply.Err? ==> after == db && reply != Err(Internal))
      && (reply.Ok? ==>
            var ids := OrphansOf(db, p);
            && reply.value == |ids|
            && after.posts == db.posts[p := db.posts[p].(deleted :=
                 Some(if db.posts[p].author == actor then ByAuthor else ByAdmin))]
            && after.images == Stamp(db.images, ids, Block)
            && after.records == db.records + AdminRecords(Ascending(ids), AdminPostDelete, Block, now))
  {
    if p in db.posts {
      var reason := if db.posts[p].author == actor then ByAuthor else ByAdmin;
      var gone := DeleteIs(db, p, actor, admin, now);
      OrphansAre(db, p, reason);
      var ids := OrphansOf(db, p);
      StampedIs(db.images, ids, Block);
      PostsAreIrrelevant(db, gone, |db.records|, {});
      forall k | 0 <= k < |Ascending(ids)|
        ensures Ascending(ids)[k] in gone.images
      {
        assert Ascending(ids)[k] in Ascending(ids);
      }
      AdminRecordsAppended(gone, Ascending(ids), AdminPostDelete, Block, now);
    }
  }

  ghost function GivenBackOf(db: Db, used: set<ImageId>): set<ImageId> { set i | i in used && BlockedByDeletion(db, i) }

  lemma RestorableIs(db: Db, used: set<ImageId>)
    ensures Restorable(db, used) == GivenBackOf(db, used)
  {
    forall i ensures BlockedByDelete(db, i) <==> BlockedByDeletion(db, i) { BlockedByDeleteIs(db, i); }
  }

  lemma GivenBackRecords(db: Db, used: set<ImageId>, now: Time)
    requires Consistent(db)
    ensures var ids := GivenBackOf(db, used);
      var restored := RestoreImages(db, used, now);
      && restored.Some? && restored.value.posts == db.posts
      && restored.value.images == Stamp(db.images, ids, Pass)
      && restored.value.records == db.records + AdminRecords(Ascending(ids), AdminRestore, Pass, now)
  {
    RestorableIs(db, used);
    var ids := GivenBackOf(db, used);
    StampedIs(db.images, ids, Pass);
    var restored := RestoreImagesKeeps(db, used, now);
    forall k | 0 <= k < |Ascending(ids)|
      ensures Ascending(ids)[k] in db.images
    {
      assert Ascending(ids)[k] in Ascending(ids);
    }
    AdminRecordsAppended(db, Ascending(ids), AdminRestore, Pass, now);
  }

  /**
   * A deleted post is restored exactly by an administrator other than its author, and an approved one only if each of
   * its images has passed or is given back with it. Nothing of the post changes but the deletion, and its current text
   * gets a passing record.
   */
  lemma RestoreExactly(db: Db, p: PostId, actor: UserId, now: Time)
    requires Consistent(db)
    ensures var (after, reply) := RestorePost(db, p, actor, now);
      && (reply == Err(PostNotFound) <==> p !in db.posts)
      && (p in db.posts ==>
            var post, ids := db.posts[p], GivenBackOf(db, db.posts[p].images);
            var allowed := post.deleted != None && post.author != actor;
            var shown := forall i :: i in post.images && i in db.images ==>
              i in ids || db.images[i].moderation == Judged(Pass);
            && (reply == Err(NotRestorable) <==> !allowed)
            && (reply == Err(ImageNotApproved) <==> allowed && post.status == Approved && !shown)
            && (reply.Ok? <==> allowed && (post.status == Approved ==> shown))
            && (reply.Ok? ==>
                  && reply.value == |after.records| - 1
                  && after.posts == db.posts[p := post.(deleted := None)]
                  && after.images == Stamp(db.images, ids, Pass)
                  && after.records == db.records + AdminRecords(Ascending(ids), AdminRestore, Pass, now)
                                      + [Record(PostText(p, post.revision), AdminRestore, None, Pass, None, now)]))
      && (reply.Err? ==> after == db)
  {
    if p in db.posts {
      GivenBackRecords(db, db.posts[p].images, now);
      var restored := RestoreImages(db, db.posts[p].images, now).value;
      AllPassedAfterStamp(db.images, GivenBackOf(db, db.posts[p].images), db.posts[p].images);
      RestoreWithExactly(db, restored, p, now);
    }
  }

  lemma AllPassedAfterStamp(images: map<ImageId, Image>, ids: set<ImageId>, used: set<ImageId>)
    ensures AllPassed(Stamp(images, ids, Pass), used) <==>
            forall i :: i in used && i in images ==> i in ids || images[i].moderation == Judged(Pass)
  {
    assert forall i :: i in used && i in images ==>
      (HasModeration(Stamp(images, ids, Pass), i, Judged(Pass)) <==> i in ids || images[i].moderation == Judged(Pass));
  }

  lemma RestoreWithExactly(db: Db, restored: Db, p: PostId, now: Time)
    requires p in db.posts
    ensures var (after, reply) := RestoreWith(db, restored, p, now);
      && (reply.Ok? <==> db.posts[p].status == Approved ==> AllPassed(restored.images, db.posts[p].images))
      && (reply.Err? ==> after == db && reply == Err(ImageNotApproved))
      && (reply.Ok? ==>
            && reply.value == |restored.records|
            && after.records == restored.records
                 + [Record(PostText(p, db.posts[p].revision), AdminRestore, None, Pass, None, now)]
            && after.posts == db.posts[p := db.posts[p].(deleted := None)] && after.images == restored.images)
  {
  }

  // ---- Saving, and going back to an earlier revision ---------------------------------------

  ghost predicate TextJobTaken(db: Db, review: TextReview) {
    review.job.Some? && exists k: RecordId :: Recorded(db.records, review.provider, review.job.value, k)
  }

  lemma TextJobTakenIs(db: Db, review: TextReview)
    ensures TextJobTaken(db, review) <==> JobTaken(db, review)
  {
    if JobTaken(db, review) {
      var k :| 0 <= k < |db.records| && SameJob(db.records[k], Machine(review.provider), review.job.value);
      assert Recorded(db.records, review.provider, review.job.value, k);
    }
    if TextJobTaken(db, review) {
      var k: RecordId :| Recorded(db.records, review.provider, review.job.value, k);
      assert SameJob(db.records[k], Machine(review.provider), review.job.value);
    }
  }

  /** Every image is known, and none is blocked. */
  predicate Presentable(images: map<ImageId, Image>, used: set<ImageId>) {
    forall i :: i in used ==> i in images && images[i].moderation != Judged(Block)
  }

  /**
   * A post is saved exactly by its author while it is not deleted, with images that are known and not blocked. The new
   * revision follows the last one, and a published post has its one-shot evaluation and the record of its review.
   */
  lemma SaveExactly(db: Db, p: PostId, author: UserId, used: set<ImageId>, publish: bool, review: TextReview, now: Time)
    ensures var (after, reply) := SavePost(db, p, author, used, publish, review, now);
      var gone, foreign := p in db.posts && db.posts[p].deleted != None, p in db.posts && db.posts[p].author != author;
      && (reply.Ok? <==> !gone && !foreign && Presentable(db.images, used) && !(publish && TextJobTaken(db, review)))
      && (reply == Err(PostDeleted) <==> gone)
      && (reply == Err(NotOwner) <==> !gone && foreign)
      && (reply == Err(ImageNotFound) <==> !gone && !foreign && exists i :: i in used && i !in db.images)
      && (reply == Err(ImageNotApproved) <==>
          !gone && !foreign && used <= db.images.Keys && !Presentable(db.images, used))
      && (reply.Err? ==> after == db)
      && (reply.Ok? ==>
            var n := if p in db.posts then db.posts[p].lastRevision + 1 else 1;
            var status := if publish then Aggregate(review.verdict, db.images, used) else Draft;
            && reply.value == status
            && after == db.(posts := db.posts[p := Post(author, status, None, n, n, used)],
                            records := db.records + NewTextRecord(p, n, publish, review, now)))
  {
    TextJobTakenIs(db, review);
  }

  // The images a return to an earlier revision gives back: only a deleted post has any.
  ghost function ReturnedOf(db: Db, p: PostId, used: set<ImageId>): set<ImageId>
    requires p in db.posts
  {
    if db.posts[p].deleted == None then {} else GivenBackOf(db, used)
  }

  /** Who may go back, and to what. */
  lemma HistoryRefusals(
    db: Db, p: PostId, actor: UserId, revision: nat, used: set<ImageId>, review: TextReview, now: Time)
    requires Consistent(db)
    ensures var reply := RestoreHistory(db, p, actor, revision, used, review, now).1;
      && (reply == Err(PostNotFound) <==> p !in db.posts)
      && (reply == Err(NotOwner) <==> p in db.posts && db.posts[p].author != actor)
      && (reply == Err(HistoryNotFound) <==>
            p in db.posts && db.posts[p].author == actor && !(0 < revision <= db.posts[p].lastRevision))
  {
    if p in db.posts && HistoryBase(db, p, used, now).Some? {
      HistoryAnswers(db, HistoryBase(db, p, used, now).value, p, revision, used, review, now);
    }
  }

  lemma HistoryAnswers(
    db: Db, restored: Db, p: PostId, revision: nat, used: set<ImageId>, review: TextReview, now: Time)
    requires p in db.posts
    ensures var reply := HistoryWith(db, restored, p, revision, used, review, now).1;
      reply.Err? ==> reply.error.ImageNotFound? || reply.error.ImageNotApproved? || reply.error.Internal?
  {
  }

  /** A refused return changes nothing. */
  lemma HistoryUnchanged(
    db: Db, p: PostId, actor: UserId, revision: nat, used: set<ImageId>, review: TextReview, now: Time)
    ensures RestoreHistory(db, p, actor, revision, used, review, now).1.Err? ==>
            RestoreHistory(db, p, actor, revision, used, review, now).0 == db
  {
  }

  lemma HistoryBaseExactly(db: Db, p: PostId, used: set<ImageId>, now: Time) returns (restored: Db)
    requires Consistent(db) && p in db.posts
    ensures HistoryBase(db, p, used, now) == Some(restored)
    ensures var ids := ReturnedOf(db, p, used);
      && restored.images == Stamp(db.images, ids, Pass)
      && restored.records == db.records + AdminRecords(Ascending(ids), AdminRestore, Pass, now)
  {
    GivenBackRecords(db, used, now);
    NothingReturned(db, now);
    restored := HistoryBase(db, p, used, now).value;
  }

  lemma NothingReturned(db: Db, now: Time)
    ensures Stamp(db.images, {}, Pass) == db.images
    ensures db.records + AdminRecords(Ascending({}), AdminRestore, Pass, now) == db.records
  {
    assert AdminRecords(Ascending({}), AdminRestore, Pass, now) == [];
  }

  /**
   * Going back to a saved revision is its author's right even after a deletion, which is undone with the images it had
   * blocked. The status is the one-shot evaluation of the revision's newest verdict, or of a new one if it has none.
   */
  lemma HistoryExactly(
    db: Db, p: PostId, actor: UserId, revision: nat, used: set<ImageId>, review: TextReview, now: Time)
    requires Consistent(db) && p in db.posts && db.posts[p].author == actor && 0 < revision <= db.posts[p].lastRevision
    ensures var (after, reply) := RestoreHistory(db, p, actor, revision, used, review, now);
      var ids, judged := ReturnedOf(db, p, used), Latest(db.records, PostText(p, revision));
      var images := Stamp(db.images, ids, Pass);
      && (reply.Ok? <==> Presentable(images, used) && !(judged.None? && TextJobTaken(db, review)))
      && (reply == Err(ImageNotFound) <==> !(used <= db.images.Keys))
      && (reply == Err(ImageNotApproved) <==> used <= db.images.Keys && !Presentable(images, used))
      && (reply.Ok? ==>
            var verdict := if judged.Some? then db.records[judged.value].verdict else review.verdict;
            var status := Aggregate(verdict, images, used);
            && reply.value == status && after.images == images
            && after.posts == db.posts[p :=
                 db.posts[p].(status := status, deleted := None, revision := revision, images := used)]
            && after.records == db.records + AdminRecords(Ascending(ids), AdminRestore, Pass, now)
                                + NewTextRecord(p, revision, judged.None?, review, now))
  {
    var restored := HistoryBaseExactly(db, p, used, now);
    HistoryJobs(db, restored, ReturnedOf(db, p, used), review, now);
    HistoryWithExactly(db, restored, p, revision, used, review, now);
  }

  function NewTextRecord(p: PostId, revision: nat, needed: bool, review: TextReview, now: Time): seq<Record> {
    if !needed then []
    else [Record(PostText(p, revision), Machine(review.provider), review.job, review.verdict, None, now)]
  }

  // Administrative records carry no job number.
  lemma HistoryJobs(db: Db, restored: Db, ids: set<ImageId>, review: TextReview, now: Time)
    requires restored.records == db.records + AdminRecords(Ascending(ids), AdminRestore, Pass, now)
    ensures JobTaken(restored, review) <==> TextJobTaken(db, review)
  {
    TextJobTakenIs(db, review);
    AdminRecordsHaveNoJob(Ascending(ids), AdminRestore, Pass, now);
    if review.job.Some? {
      JobsInPrefix(db.records, AdminRecords(Ascending(ids), AdminRestore, Pass, now), Machine(review.provider),
                   review.job.value);
    }
  }

  lemma JobsInPrefix(a: seq<Record>, more: seq<Record>, provider: Provider, job: JobId)
    requires forall k :: 0 <= k < |more| ==> more[k].job.None?
    ensures JobRecorded(a + more, provider, job) <==> JobRecorded(a, provider, job)
  {
    if k :| 0 <= k < |a| && SameJob(a[k], provider, job) { assert SameJob((a + more)[k], provider, job); }
    if k :| 0 <= k < |a + more| && SameJob((a + more)[k], provider, job) {
      assert k < |a|;
      assert SameJob(a[k], provider, job);
    }
  }

  lemma {:induction false} AdminRecordsHaveNoJob(ids: seq<ImageId>, provider: Provider, verdict: Verdict, now: Time)
    ensures forall k :: 0 <= k < |AdminRecords(ids, provider, verdict, now)| ==>
      AdminRecords(ids, provider, verdict, now)[k].job.None?
    decreases |ids|
  {
    if ids != [] { AdminRecordsHaveNoJob(ids[1..], provider, verdict, now); }
  }

  lemma HistoryWithExactly(
    db: Db, restored: Db, p: PostId, revision: nat, used: set<ImageId>, review: TextReview, now: Time)
    requires p in db.posts
    ensures var (after, reply) := HistoryWith(db, restored, p, revision, used, review, now);
      var judged, known := Latest(db.records, PostText(p, revision)), used <= restored.images.Keys;
      && (reply.Ok? <==> Presentable(restored.images, used) && !(judged.None? && JobTaken(restored, review)))
      && (reply == Err(ImageNotFound) <==> !known)
      && (reply == Err(ImageNotApproved) <==> known && !Presentable(restored.images, used))
      && (reply.Err? ==> after == db)
      && (reply.Err? ==> reply.error.ImageNotFound? || reply.error.ImageNotApproved? || reply.error.Internal?)
      && (reply.Ok? ==>
            var verdict := if judged.Some? then db.records[judged.value].verdict else review.verdict;
            var status := Aggregate(verdict, restored.images, used);
            && reply.value == status && after.images == restored.images
            && after.posts == db.posts[p :=
                 db.posts[p].(status := status, deleted := None, revision := revision, images := used)]
            && after.records == restored.records + NewTextRecord(p, revision, judged.None?, review, now))
  {
  }

  /** Uploads: a new image has no verdict and is not complete; completing or retiring it changes nothing else. */
  lemma UploadExactly(db: Db, i: ImageId, key: nat, uploaded: bool)
    ensures NewUpload(db, i, key) ==
            if i != 0 && i !in db.images then db.(images := db.images[i := Image(Unjudged, key, false)]) else db
    ensures UploadState(db, i, uploaded) ==
            if i in db.images then db.(images := db.images[i := db.images[i].(uploaded := uploaded)]) else db
  {
  }
}
