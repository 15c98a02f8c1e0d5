/** Reconciling one verdict at a time agrees with evaluating a post once. */
module ModerationAggregate {
  import opened Common
  import opened ImageAccessRow
  import opened ModerationState
  import opened ModerationOperations
  import opened ModerationAccess

  /** A live pending post is one the one-shot evaluation would also leave pending. */
  ghost predicate OpenPost(db: Db, p: PostId)
    requires p in db.posts
  {
    Live(db.posts[p]) && db.posts[p].status.Pending? ==>
      && TextVerdict(db, p).Some?
      && Aggregate(TextVerdict(db, p).value, db.images, db.posts[p].images).Pending?
  }

  // Foreign keys, and no text record of a revision that was never saved.
  ghost predicate Known(db: Db) {
    && (forall p :: p in db.posts ==>
        db.posts[p].images <= db.images.Keys && db.posts[p].revision <= db.posts[p].lastRevision)
    && (forall k :: 0 <= k < |db.records| && db.records[k].target.PostText? ==>
          KnownRevision(db, db.records[k].target.post, db.records[k].target.revision))
  }

  predicate KnownRevision(db: Db, p: PostId, revision: nat) { p in db.posts && revision <= db.posts[p].lastRevision }

  /** Everything one post's status depends on is in order, whatever state other posts are in. */
  ghost predicate Sound(db: Db, q: PostId) { Consistent(db) && Known(db) && (q in db.posts ==> OpenPost(db, q)) }

  // ---- What the evaluation of one post depends on.

  lemma {:induction false} LatestIgnores(a: seq<Record>, b: seq<Record>, target: Target)
    requires a <= b && forall k :: |a| <= k < |b| ==> b[k].target != target
    ensures Latest(b, target) == Latest(a, target)
  {
    if |b| == |a| {
      assert b == a;
    } else {
      LatestIgnores(a, b[..|b| - 1], target);
    }
  }

  lemma LatestStays(a: seq<Record>, b: seq<Record>, target: Target)
    requires a <= b && Latest(a, target).Some?
    ensures Latest(b, target).Some?
  {
    LatestIsGreatest(b, target, Latest(a, target).value);
  }

  lemma {:induction false} NoLatest(records: seq<Record>, target: Target)
    requires forall k :: 0 <= k < |records| ==> records[k].target != target
    ensures Latest(records, target).None?
  {
  }

  predicate SameImages(a: map<ImageId, Image>, b: map<ImageId, Image>, used: set<ImageId>) {
    forall i :: i in used ==> (i in a <==> i in b) && (i in a ==> a[i].moderation == b[i].moderation)
  }

  lemma AggregateReads(text: Verdict, a: map<ImageId, Image>, b: map<ImageId, Image>, used: set<ImageId>)
    requires SameImages(a, b, used)
    ensures Aggregate(text, a, used) == Aggregate(text, b, used)
  {
    assert forall i, m :: i in used ==> (HasModeration(a, i, m) <==> HasModeration(b, i, m));
  }

  // b shows the post and everything its status depends on as a does.
  ghost predicate SameFor(a: Db, b: Db, p: PostId) {
    && p in a.posts && p in b.posts && a.posts[p] == b.posts[p]
    && SameImages(a.images, b.images, a.posts[p].images)
    && a.records <= b.records
    && forall k :: |a.records| <= k < |b.records| ==> b.records[k].target != PostText(p, a.posts[p].revision)
  }

  lemma SameForKeeps(a: Db, b: Db, p: PostId)
    requires SameFor(a, b, p)
    ensures TextVerdict(a, p) == TextVerdict(b, p)
    ensures OpenPost(a, p) ==> OpenPost(b, p)
  {
    LatestIgnores(a.records, b.records, PostText(p, a.posts[p].revision));
    if TextVerdict(a, p).Some? { AggregateReads(TextVerdict(a, p).value, a.images, b.images, a.posts[p].images); }
  }

  /** Reconciling the posts a change may have affected leaves no pending post behind. */
  lemma ReconcileOpens(db: Db, ids: set<PostId>, q: PostId)
    requires q in db.posts
    requires q in ids && Live(db.posts[q]) && db.posts[q].status.Pending? ==> TextVerdict(db, q).Some?
    requires q !in ids ==> OpenPost(db, q)
    ensures OpenPost(Reconciled(db, ids), q)
  {
    TextVerdictReads(db, Reconciled(db, ids), q);
    if Live(db.posts[q]) && Reconciled(db, ids).posts[q].status.Pending? && q in ids {
      ReconcileIsAggregate(db, ids, q);
    }
  }

  // ---- Each operation.

  lemma ReceiveOpens(db: Db, cb: Callback, requireJob: bool, now: Time, q: PostId)
    requires Sound(db, q)
    ensures Sound(ApplyImageResult(db, cb, requireJob, now).0, q)
  {
    ReceiveKeeps(db, cb, requireJob, now);
    if cb.job.Some? && JobRecorded(db.records, Machine(cb.provider), cb.job.value) {
      DuplicateChangesNothing(db, cb, requireJob, now);
    } else if cb.image in db.images {
      JudgeOpens(db, cb.image, CallbackRecord(cb, now), now, q);
    }
  }

  // A pending post either is reconciled after a verdict on image i, or does not see it.
  lemma VerdictSeenByUsers(db: Db, i: ImageId, record: Record, p: PostId)
    requires i in db.images && record.target == OfImage(i)
    requires p in db.posts && OpenPost(db, p) && Live(db.posts[p]) && db.posts[p].status.Pending?
    ensures var judged := WithModeration(Append(db, record), i, Judged(record.verdict));
      if p in PendingPostsWith(db, {i}) then TextVerdict(judged, p).Some? else OpenPost(judged, p)
  {
    var judged := WithModeration(Append(db, record), i, Judged(record.verdict));
    LatestIgnores(db.records, judged.records, PostText(p, db.posts[p].revision));
    if p !in PendingPostsWith(db, {i}) {
      assert i !in db.posts[p].images * {i};
      SameForKeeps(db, judged, p);
    }
  }

  /** A verdict on an image, reconciled with the pending posts that use it. */
  lemma JudgeOpens(db: Db, i: ImageId, record: Record, now: Time, q: PostId)
    requires Sound(db, q) && i in db.images && record.target == OfImage(i)
    ensures var after := Judge(db, i, record, PendingPostsWith(db, {i}), now);
      after.Some? && Sound(after.value, q)
  {
    var posts := PendingPostsWith(db, {i});
    var judged := WithModeration(Append(db, record), i, Judged(record.verdict));
    JudgeKeeps(db, i, record, posts, now);
    var after := Judge(db, i, record, posts, now).value;
    KnownGrows(db, after);
    if q in db.posts {
      if Live(db.posts[q]) && db.posts[q].status.Pending? { VerdictSeenByUsers(db, i, record, q); }
      ReconcileOpens(judged, posts, q);
      CarryOpen(Reconciled(judged, posts), after, q);
    }
  }

  lemma CarryOpen(a: Db, b: Db, q: PostId)
    requires q in a.posts && OpenPost(a, q) && a.posts == b.posts && a.records == b.records && a.images == b.images
    ensures OpenPost(b, q)
  {
    TextVerdictReads(a, b, q);
  }

  // Posts may change status, and records about images may be added.
  lemma KnownGrows(a: Db, b: Db)
    requires Known(a) && a.records <= b.records && a.posts.Keys == b.posts.Keys && a.images.Keys <= b.images.Keys
    requires forall p :: p in a.posts ==>
      && b.posts[p].images == a.posts[p].images
      && b.posts[p].revision == a.posts[p].revision && b.posts[p].lastRevision == a.posts[p].lastRevision
    requires forall k :: |a.records| <= k < |b.records| && b.records[k].target.PostText? ==>
      KnownRevision(a, b.records[k].target.post, b.records[k].target.revision)
    ensures Known(b)
  {
    forall k | 0 <= k < |b.records| && b.records[k].target.PostText?
      ensures KnownRevision(b, b.records[k].target.post, b.records[k].target.revision)
    {
      if k < |a.records| { assert b.records[k] == a.records[k]; }
      assert KnownRevision(a, b.records[k].target.post, b.records[k].target.revision);
    }
  }

  lemma ReviewOpens(db: Db, id: RecordId, reviewer: UserId, verdict: Verdict, now: Time, q: PostId)
    requires Sound(db, q)
    ensures Sound(ManualReview(db, id, reviewer, verdict, now).0, q)
  {
    ManualReviewCases(db, id, reviewer, verdict, now);
    if ManualReview(db, id, reviewer, verdict, now).1.Ok? {
      JudgeOpens(db, db.records[id].target.image, ManualOf(db.records[id], id, verdict, now), now, q);
    }
  }

  // The pending posts a whole-post review affects are the ones it reconciles.
  lemma ReviewSeenByUsers(db: Db, p: PostId, verdict: Verdict, now: Time, q: PostId)
    requires p in db.posts
    requires q in db.posts && OpenPost(db, q) && Live(db.posts[q]) && db.posts[q].status.Pending?
    ensures var d := PostJudged(db, p, verdict, now);
      if q in PostsTouched(db, p) then TextVerdict(d, q).Some? else OpenPost(d, q)
  {
    if q in PostsTouched(db, p) {
      LatestStays(db.records, PostJudged(db, p, verdict, now).records, PostText(q, db.posts[q].revision));
    } else {
      ReviewUnseen(db, p, verdict, now, q);
    }
  }

  lemma ReviewUnseen(db: Db, p: PostId, verdict: Verdict, now: Time, q: PostId)
    requires p in db.posts && q in db.posts && OpenPost(db, q) && q != p
    requires ImagesOf(db.records, ChosenOf(db, p)) * db.posts[q].images == {}
    ensures OpenPost(PostJudged(db, p, verdict, now), q)
  {
    var touched := ImagesOf(db.records, ChosenOf(db, p));
    forall i | i in db.posts[q].images
      ensures i !in touched
    {
      assert i !in touched * db.posts[q].images;
    }
    RejudgedOthers(db, touched, verdict, db.posts[q].images);
    PostJudgedShape(db, p, verdict, now);
    OtherTexts(db, p, verdict, now, q);
    SameForKeeps(db, PostJudged(db, p, verdict, now), q);
  }

  lemma PostJudgedShape(db: Db, p: PostId, verdict: Verdict, now: Time)
    requires p in db.posts
    ensures var d := PostJudged(db, p, verdict, now);
      d.posts == db.posts && db.records <= d.records && |d.records| == |db.records| + |Ascending(ChosenOf(db, p))|
  {
  }

  lemma ManualTargets(records: seq<Record>, ids: seq<RecordId>, verdict: Verdict, now: Time, target: Target)
    requires forall n :: 0 <= n < |ids| ==> ids[n] < |records| && records[ids[n]].target != target
    ensures var all := records + ManualRecords(records, ids, verdict, now);
      forall k :: |records| <= k < |all| ==> all[k].target != target
  {
  }

  // The manual text record of a review is about the reviewed post.
  lemma OtherTexts(db: Db, p: PostId, verdict: Verdict, now: Time, q: PostId)
    requires p in db.posts && q in db.posts && q != p
    ensures var d := PostJudged(db, p, verdict, now);
      forall k :: |db.records| <= k < |d.records| ==> d.records[k].target != PostText(q, db.posts[q].revision)
  {
    var ids := Ascending(ChosenOf(db, p));
    forall n | 0 <= n < |ids|
      ensures ids[n] < |db.records| && db.records[ids[n]].target != PostText(q, db.posts[q].revision)
    {
      assert ids[n] in ids;
    }
    ManualTargets(db.records, ids, verdict, now, PostText(q, db.posts[q].revision));
  }

  lemma RejudgedOthers(db: Db, touched: set<ImageId>, verdict: Verdict, used: set<ImageId>)
    requires forall i :: i in used ==> i !in touched
    ensures SameImages(db.images, Rejudged(db, touched, verdict).images, used)
  {
  }

  lemma ManualRecordIsKnown(db: Db, p: PostId, verdict: Verdict, now: Time, n: nat)
    requires Known(db) && p in db.posts && n < |Ascending(ChosenOf(db, p))|
    ensures var d, k := PostJudged(db, p, verdict, now), |db.records| + n;
      k < |d.records| && (d.records[k].target.PostText? ==>
                            KnownRevision(db, d.records[k].target.post, d.records[k].target.revision))
  {
    ManualRecordAt(db, p, verdict, now, n);
    var c := Ascending(ChosenOf(db, p))[n];
    assert db.records[c].target.PostText? ==>
      KnownRevision(db, db.records[c].target.post, db.records[c].target.revision);
  }

  lemma ManualRecordsAreKnown(db: Db, p: PostId, verdict: Verdict, now: Time)
    requires Known(db) && p in db.posts
    ensures var d := PostJudged(db, p, verdict, now);
      && db.records <= d.records
      && forall k :: |db.records| <= k < |d.records| && d.records[k].target.PostText? ==>
           KnownRevision(db, d.records[k].target.post, d.records[k].target.revision)
  {
    var d := PostJudged(db, p, verdict, now);
    assert |d.records| == |db.records| + |Ascending(ChosenOf(db, p))|;
    forall k | |db.records| <= k < |d.records| && d.records[k].target.PostText?
      ensures KnownRevision(db, d.records[k].target.post, d.records[k].target.revision)
    {
      ManualRecordIsKnown(db, p, verdict, now, k - |db.records|);
    }
  }

  lemma ReviewPostIsKnown(db: Db, p: PostId, verdict: Verdict, now: Time, after: Db)
    requires Known(db) && p in db.posts
    requires var judged := Reconciled(PostJudged(db, p, verdict, now), PostsTouched(db, p));
      after.posts == judged.posts && after.images == judged.images && after.records == judged.records
    ensures Known(after)
  {
    ManualRecordsAreKnown(db, p, verdict, now);
    KnownGrows(db, after);
  }

  lemma ReviewPostOpens(db: Db, p: PostId, reviewer: UserId, verdict: Verdict, now: Time, q: PostId)
    requires Sound(db, q)
    ensures Sound(ManualReviewPost(db, p, reviewer, verdict, now).0, q)
  {
    ReviewPostKeeps(db, p, reviewer, verdict, now);
    var (after, reply) := ManualReviewPost(db, p, reviewer, verdict, now);
    if reply.Ok? {
      ReviewPostIsKnown(db, p, verdict, now, after);
      if q in db.posts {
        var d := PostJudged(db, p, verdict, now);
        if Live(db.posts[q]) && db.posts[q].status.Pending? { ReviewSeenByUsers(db, p, verdict, now, q); }
        ReconcileOpens(d, PostsTouched(db, p), q);
        CarryOpen(Reconciled(d, PostsTouched(db, p)), after, q);
      }
    }
  }

  lemma DeleteUnseen(db: Db, gone: Db, after: Db, p: PostId, q: PostId)
    requires p in db.posts && q in db.posts && OpenPost(db, q)
    requires exists reason: DeleteReason :: gone == Deleted(db, p, Some(reason))
    requires after.posts == gone.posts && AddsOnly(db.records, after.records, AdminPostDelete)
    requires after.images == Stamped(db.images, Ascending(ToBlock(gone, db.posts[p].images)), Block)
    ensures OpenPost(after, q)
  {
    if Live(after.posts[q]) {
      assert forall i :: i in db.posts[q].images ==> UsedByLive(gone, i);
      SameForKeeps(db, after, q);
    }
  }

  lemma DeletedIsKnown(db: Db, after: Db, p: PostId)
    requires Known(db) && p in db.posts && p in after.posts
    requires after.posts == db.posts[p := db.posts[p].(deleted := after.posts[p].deleted)]
    requires AddsOnly(db.records, after.records, AdminPostDelete) && after.images.Keys == db.images.Keys
    ensures Known(after)
  {
    KnownGrows(db, after);
  }

  lemma DeleteOpens(db: Db, p: PostId, actor: UserId, admin: bool, now: Time, q: PostId)
    requires Sound(db, q)
    ensures Sound(DeletePost(db, p, actor, admin, now).0, q)
  {
    if p in db.posts {
      var gone := DeleteIs(db, p, actor, admin, now);
      var (after, reply) := DeletePost(db, p, actor, admin, now);
      if reply.Ok? {
        if q in db.posts { DeleteUnseen(db, gone, after, p, q); }
        DeletedIsKnown(db, after, p);
      }
    }
  }

  // No live pending post uses a blocked image, so giving blocked images back does not concern one.
  lemma RestoredUnseen(db: Db, restored: Db, used: set<ImageId>, q: PostId)
    requires q in db.posts && OpenPost(db, q) && Live(db.posts[q]) && db.posts[q].status.Pending?
    requires restored.images == Stamped(db.images, Ascending(Restorable(db, used)), Pass)
    ensures SameImages(db.images, restored.images, db.posts[q].images)
  {
    forall i | i in db.posts[q].images
      ensures i !in Ascending(Restorable(db, used))
    {
      assert BlockedByDelete(db, i) ==> HasModeration(db.images, i, Judged(Block));
    }
  }

  lemma {:induction false} OnlyRecord(a: seq<Record>, b: seq<Record>, record: Record)
    requires a <= b && forall k :: 0 <= k < |b| ==> b[k].target != record.target
    ensures Latest(b + [record], record.target) == Some(|b|)
  {
    NoLatest(b, record.target);
    assert (b + [record])[..|b|] == b;
  }

  lemma RevisionIsNew(db: Db, p: PostId, revision: nat)
    requires Known(db) && (p in db.posts ==> db.posts[p].lastRevision < revision)
    ensures forall k :: 0 <= k < |db.records| ==> db.records[k].target != PostText(p, revision)
  {
    forall k | 0 <= k < |db.records|
      ensures db.records[k].target != PostText(p, revision)
    {
      if db.records[k].target.PostText? {
        assert KnownRevision(db, db.records[k].target.post, db.records[k].target.revision);
      }
    }
  }

  lemma SaveOpens(
    db: Db, p: PostId, author: UserId, used: set<ImageId>, publish: bool, review: TextReview, now: Time, q: PostId)
    requires Sound(db, q)
    ensures Sound(SavePost(db, p, author, used, publish, review, now).0, q)
  {
    SaveKeeps(db, p, author, used, publish, review, now);
    var (after, reply) := SavePost(db, p, author, used, publish, review, now);
    if reply.Ok? {
      SavedPost(db, p, author, used, publish, review, now);
      if q != p && q in db.posts { SameForKeeps(db, after, q); }
    }
  }

  // The saved post has its one-shot evaluation, and is as known as the others.
  lemma SavedPost(db: Db, p: PostId, author: UserId, used: set<ImageId>, publish: bool, review: TextReview, now: Time)
    requires Known(db)
    ensures var (after, reply) := SavePost(db, p, author, used, publish, review, now);
      reply.Ok? ==>
        && p in after.posts && OpenPost(after, p) && Known(after)
        && db.records <= after.records && after.images == db.images
        && after.posts == db.posts[p := after.posts[p]]
        && (forall k :: |db.records| <= k < |after.records| ==>
            after.records[k].target == PostText(p, after.posts[p].revision))
  {
    var (after, reply) := SavePost(db, p, author, used, publish, review, now);
    if reply.Ok? {
      var revision := after.posts[p].revision;
      RevisionIsNew(db, p, revision);
      if publish { OnlyRecord([], db.records, TextRecord(p, revision, review, now)); }
      SaveIsKnown(db, after, p);
    }
  }

  lemma SaveIsKnown(db: Db, after: Db, p: PostId)
    requires Known(db) && p in after.posts && after.posts == db.posts[p := after.posts[p]] && after.images == db.images
    requires after.posts[p].images <= db.images.Keys && after.posts[p].revision == after.posts[p].lastRevision
    requires p in db.posts ==> db.posts[p].lastRevision <= after.posts[p].lastRevision
    requires db.records <= after.records <= db.records + after.records[|db.records|..]
    requires forall k :: |db.records| <= k < |after.records| ==>
      after.records[k].target == PostText(p, after.posts[p].revision)
    ensures Known(after)
  {
    forall k | 0 <= k < |after.records| && after.records[k].target.PostText?
      ensures KnownRevision(after, after.records[k].target.post, after.records[k].target.revision)
    {
      if k < |db.records| {
        assert after.records[k] == db.records[k];
        assert KnownRevision(db, after.records[k].target.post, after.records[k].target.revision);
      }
    }
  }

  lemma HistoryOpens(
    db: Db, p: PostId, actor: UserId, revision: nat, used: set<ImageId>, review: TextReview, now: Time, q: PostId)
    requires Sound(db, q)
    ensures Sound(RestoreHistory(db, p, actor, revision, used, review, now).0, q)
  {
    HistoryKeeps(db, p, actor, revision, used, review, now);
    if p in db.posts {
      var restored := HistoryIs(db, p, actor, revision, used, review, now);
      var after := RestoreHistory(db, p, actor, revision, used, review, now).0;
      if after != db {
        HistoryRevision(db, p, actor, revision, used, review, now);
        HistoryText(db, restored, p, revision, used, review, now);
        HistoryWrites(db, restored, p, revision, used, review, now);
        HistoryIsKnown(db, restored, p, revision, used, review, now);
        if q != p && q in db.posts && Live(db.posts[q]) && db.posts[q].status.Pending? {
          if !Live(db.posts[p]) { RestoredUnseen(db, restored, used, q); }
          SameForKeeps(db, after, q);
        }
      }
    }
  }

  lemma HistoryRevision(
    db: Db, p: PostId, actor: UserId, revision: nat, used: set<ImageId>, review: TextReview, now: Time)
    requires p in db.posts && RestoreHistory(db, p, actor, revision, used, review, now).0 != db
    ensures revision <= db.posts[p].lastRevision
  {
  }

  // Restored images add no text record, so the next text record is the first if there was none.
  lemma RestoredLatest(a: seq<Record>, b: seq<Record>, record: Record)
    requires AddsOnly(a, b, AdminRestore) && record.target.PostText?
    ensures Latest(b, record.target) == Latest(a, record.target)
    ensures var latest := Latest(a, record.target);
      (latest.None? || a[latest.value].createdAt <= record.createdAt) ==>
        Latest(b + [record], record.target) == Some(|b|)
  {
    LatestIgnores(a, b, record.target);
    assert (b + [record])[..|b|] == b;
  }

  // The restored revision's status is the one-shot evaluation of its last verdict.
  lemma HistoryText(db: Db, restored: Db, p: PostId, revision: nat, used: set<ImageId>, review: TextReview, now: Time)
    requires p in db.posts && AddsOnly(db.records, restored.records, AdminRestore)
    ensures var (after, reply) := HistoryWith(db, restored, p, revision, used, review, now);
      reply.Ok? ==>
        && p in after.posts && TextVerdict(after, p).Some?
        && after.posts[p].status == Aggregate(TextVerdict(after, p).value, after.images, after.posts[p].images)
  {
    RestoredLatest(db.records, restored.records, TextRecord(p, revision, review, now));
  }

  lemma HistoryWrites(db: Db, restored: Db, p: PostId, revision: nat, used: set<ImageId>, review: TextReview, now: Time)
    requires p in db.posts && AddsOnly(db.records, restored.records, AdminRestore)
    ensures var (after, reply) := HistoryWith(db, restored, p, revision, used, review, now);
      reply.Ok? ==>
        && after.posts == db.posts[p := after.posts[p]] && after.posts[p].images == used
        && after.images == restored.images
        && after.posts[p].revision == revision && after.posts[p].lastRevision == db.posts[p].lastRevision
        && used <= restored.images.Keys
        && db.records <= after.records
        && (forall k :: |db.records| <= k < |after.records| && after.records[k].target.PostText? ==>
              after.records[k].target == PostText(p, revision))
  {
  }

  lemma HistoryIsKnown(
    db: Db, restored: Db, p: PostId, revision: nat, used: set<ImageId>, review: TextReview, now: Time)
    requires Known(db) && p in db.posts && AddsOnly(db.records, restored.records, AdminRestore)
    requires restored.images.Keys == db.images.Keys && revision <= db.posts[p].lastRevision
    ensures var (after, reply) := HistoryWith(db, restored, p, revision, used, review, now); reply.Ok? ==> Known(after)
  {
    HistoryWrites(db, restored, p, revision, used, review, now);
    var (after, reply) := HistoryWith(db, restored, p, revision, used, review, now);
    if reply.Ok? {
      forall k | 0 <= k < |after.records| && after.records[k].target.PostText?
        ensures KnownRevision(after, after.records[k].target.post, after.records[k].target.revision)
      {
        if k < |db.records| {
          assert after.records[k] == db.records[k];
          assert KnownRevision(db, after.records[k].target.post, after.records[k].target.revision);
        }
      }
    }
  }

  lemma QuietOpens(a: Db, b: Db, q: PostId)
    requires Sound(a, q) && Consistent(b)
    requires a.posts == b.posts && a.records == b.records && a.images.Keys <= b.images.Keys
    requires forall i :: i in a.images ==> a.images[i].moderation == b.images[i].moderation
    ensures Sound(b, q)
  {
    if q in b.posts { SameForKeeps(a, b, q); }
    KnownGrows(a, b);
  }

  // ---- Restoring a post by an administrator, the one operation that does not evaluate the post again.

  // A block that a restore does not take back, and a verdict that is still missing.
  predicate KeptBlocked(db: Db, used: set<ImageId>) {
    exists i :: i in used && HasModeration(db.images, i, Judged(Block)) && !BlockedByDelete(db, i)
  }

  predicate Waiting(db: Db, used: set<ImageId>) {
    exists i :: i in used && (HasModeration(db.images, i, Unjudged) || HasModeration(db.images, i, Judged(Review)))
  }

  // The restore's own text record passes; it is the latest unless the clock reads earlier than an existing one.
  function TextOnceRestored(db: Db, p: PostId, now: Time): Verdict
    requires p in db.posts
  {
    var r := Latest(db.records, PostText(p, db.posts[p].revision));
    if r.Some? && db.records[r.value].createdAt > now then db.records[r.value].verdict else Pass
  }

  /** What a post would be if an administrator's restore evaluated it, in terms of the tables before the restore. */
  function RestoredGrade(db: Db, p: PostId, now: Time): PostStatus
    requires p in db.posts
  {
    var text, used := TextOnceRestored(db, p, now), db.posts[p].images;
    if text == Block || KeptBlocked(db, used) then Rejected
    else if text == Review || Waiting(db, used) then Pending
    else Approved
  }

  /** A draft, or a post with the status the one-shot evaluation gives it now. */
  ghost predicate UpToDate(db: Db, p: PostId)
    requires p in db.posts
  {
    db.posts[p].status.Draft?
    || (TextVerdict(db, p).Some?
        && db.posts[p].status == Aggregate(TextVerdict(db, p).value, db.images, db.posts[p].images))
  }

  lemma RestoredText(db: Db, restored: Db, p: PostId, now: Time)
    requires p in db.posts && AddsOnly(db.records, restored.records, AdminRestore)
    ensures var (after, reply) := RestoreWith(db, restored, p, now);
      reply.Ok? ==> p in after.posts && TextVerdict(after, p) == Some(TextOnceRestored(db, p, now))
  {
    var record := RestoreRecord(p, db.posts[p].revision, now);
    RestoredLatest(db.records, restored.records, record);
    assert (restored.records + [record])[..|restored.records|] == restored.records;
  }

  lemma RestoredModeration(db: Db, r: map<ImageId, Image>, used: set<ImageId>, i: ImageId)
    requires used <= db.images.Keys && r == Stamped(db.images, Ascending(Restorable(db, used)), Pass)
    requires i in used
    ensures i in r && r[i].moderation == if BlockedByDelete(db, i) then Judged(Pass) else db.images[i].moderation
  {
    assert i in Restorable(db, used) <==> BlockedByDelete(db, i);
  }

  // The images of a post after a restore, by what they were before it.
  ghost predicate GivenBack(db: Db, r: map<ImageId, Image>, used: set<ImageId>) {
    forall i :: i in used ==>
      && i in db.images && i in r
      && r[i].moderation == if BlockedByDelete(db, i) then Judged(Pass) else db.images[i].moderation
  }

  lemma BlockedAfterRestore(db: Db, r: map<ImageId, Image>, used: set<ImageId>)
    requires GivenBack(db, r, used)
    ensures AnyBlocked(r, used) <==> KeptBlocked(db, used)
  {
    forall i | i in used
      ensures HasModeration(r, i, Judged(Block)) <==>
        HasModeration(db.images, i, Judged(Block)) && !BlockedByDelete(db, i)
    {
    }
  }

  lemma OneOfFour(m: Moderation)
    ensures m.Unjudged? || m == Judged(Pass) || m == Judged(Review) || m == Judged(Block)
  {
    match m
    case Unjudged =>
    case Judged(v) => assert v.Pass? || v.Review? || v.Block?;
  }

  lemma PassedAfterRestore(db: Db, r: map<ImageId, Image>, used: set<ImageId>)
    requires GivenBack(db, r, used) && !KeptBlocked(db, used)
    ensures AllPassed(r, used) <==> !Waiting(db, used)
  {
    forall i | i in used
      ensures HasModeration(r, i, Judged(Pass)) <==>
              !HasModeration(db.images, i, Unjudged) && !HasModeration(db.images, i, Judged(Review))
    {
      if HasModeration(db.images, i, Judged(Block)) {
        assert BlockedByDelete(db, i);
      } else {
        assert !BlockedByDelete(db, i);
        OneOfFour(db.images[i].moderation);
      }
    }
  }

  /**
   * An administrator's restore keeps the status of the post, whose one-shot evaluation is then its restored grade. So
   * a published post is up to date afterwards exactly when its status was that grade already, which an approved post
   * restored by a clock that is not behind always satisfies.
   */
  lemma RestoreOpensIff(db: Db, p: PostId, actor: UserId, now: Time)
    requires Consistent(db) && Known(db) && p in db.posts && RestorePost(db, p, actor, now).1.Ok?
    ensures var after := RestorePost(db, p, actor, now).0;
      && p in after.posts && Live(after.posts[p]) && after.posts[p].status == db.posts[p].status
      && TextVerdict(after, p) == Some(TextOnceRestored(db, p, now))
      && Aggregate(TextOnceRestored(db, p, now), after.images, after.posts[p].images) == RestoredGrade(db, p, now)
      && (UpToDate(after, p) <==> db.posts[p].status.Draft? || db.posts[p].status == RestoredGrade(db, p, now))
      && (db.posts[p].status.Approved? && TextOnceRestored(db, p, now).Pass? ==> UpToDate(after, p))
  {
    var restored := RestoreIs(db, p, actor, now);
    RestoreWithGrade(db, restored, p, now);
  }

  // A restore either changes nothing or is its second half on the restored images.
  lemma RestoreIs(db: Db, p: PostId, actor: UserId, now: Time) returns (restored: Db)
    requires Consistent(db) && p in db.posts
    ensures Consistent(restored) && restored.posts == db.posts && AddsOnly(db.records, restored.records, AdminRestore)
    ensures restored.images == Stamped(db.images, Ascending(Restorable(db, db.posts[p].images)), Pass)
    ensures var (after, reply) := RestorePost(db, p, actor, now);
      if reply.Ok? then (after, reply) == RestoreWith(db, restored, p, now) else after == db
  {
    restored := RestoreImagesKeeps(db, db.posts[p].images, now);
    RestoreCases(db, p, actor, now, restored);
  }

  lemma RestoreCases(db: Db, p: PostId, actor: UserId, now: Time, restored: Db)
    requires p in db.posts && RestoreImages(db, db.posts[p].images, now) == Some(restored)
    ensures RestorePost(db, p, actor, now) == RestoreWith(db, restored, p, now)
            || (RestorePost(db, p, actor, now).0 == db && RestorePost(db, p, actor, now).1.Err?)
  {
  }

  lemma RestoredGradeIs(db: Db, r: map<ImageId, Image>, p: PostId, now: Time)
    requires p in db.posts && db.posts[p].images <= db.images.Keys
    requires r == Stamped(db.images, Ascending(Restorable(db, db.posts[p].images)), Pass)
    ensures Aggregate(TextOnceRestored(db, p, now), r, db.posts[p].images) == RestoredGrade(db, p, now)
  {
    var used := db.posts[p].images;
    forall i | i in used
      ensures i in db.images && i in r
      ensures r[i].moderation == if BlockedByDelete(db, i) then Judged(Pass) else db.images[i].moderation
    {
      RestoredModeration(db, r, used, i);
    }
    BlockedAfterRestore(db, r, used);
    if !KeptBlocked(db, used) { PassedAfterRestore(db, r, used); }
  }

  lemma RestoreWithGrade(db: Db, restored: Db, p: PostId, now: Time)
    requires p in db.posts && db.posts[p].images <= db.images.Keys
    requires AddsOnly(db.records, restored.records, AdminRestore)
    requires restored.images == Stamped(db.images, Ascending(Restorable(db, db.posts[p].images)), Pass)
    ensures var (after, reply) := RestoreWith(db, restored, p, now);
      reply.Ok? ==>
        && p in after.posts && after.posts[p] == db.posts[p].(deleted := None) && after.images == restored.images
        && TextVerdict(after, p) == Some(TextOnceRestored(db, p, now))
        && Aggregate(TextOnceRestored(db, p, now), after.images, after.posts[p].images) == RestoredGrade(db, p, now)
        && (db.posts[p].status.Approved? ==> AllPassed(after.images, after.posts[p].images))
  {
    RestoredText(db, restored, p, now);
    RestoredGradeIs(db, restored.images, p, now);
  }

  lemma RestoreWithSees(db: Db, restored: Db, p: PostId, now: Time, q: PostId)
    requires p in db.posts && q in db.posts && q != p && OpenPost(db, q)
    requires AddsOnly(db.records, restored.records, AdminRestore)
    requires Live(db.posts[q]) && db.posts[q].status.Pending? ==>
      SameImages(db.images, restored.images, db.posts[q].images)
    ensures var (after, reply) := RestoreWith(db, restored, p, now);
      reply.Ok? ==> q in after.posts && OpenPost(after, q)
  {
    var (after, reply) := RestoreWith(db, restored, p, now);
    if reply.Ok? && Live(db.posts[q]) && db.posts[q].status.Pending? { SameForKeeps(db, after, q); }
  }

  /** Every event, except a restore of this very post while it is pending that should have decided it. */
  ghost predicate Tame(db: Db, e: Event, q: PostId) {
    e.Restore? && e.post == q && q in db.posts && db.posts[q].status.Pending? ==> RestoredGrade(db, q, e.now).Pending?
  }

  lemma RestoreWithKnown(db: Db, restored: Db, p: PostId, now: Time)
    requires Known(db) && p in db.posts && AddsOnly(db.records, restored.records, AdminRestore)
    requires restored.images.Keys == db.images.Keys && restored.posts == db.posts
    ensures var (after, reply) := RestoreWith(db, restored, p, now); reply.Ok? ==> Known(after)
  {
    var (after, reply) := RestoreWith(db, restored, p, now);
    if reply.Ok? { KnownGrows(db, after); }
  }

  lemma RestoreOpens(db: Db, p: PostId, actor: UserId, now: Time, q: PostId)
    requires Sound(db, q) && Tame(db, Restore(p, actor, now), q)
    ensures Sound(RestorePost(db, p, actor, now).0, q)
  {
    RestoreKeeps(db, p, actor, now);
    if p in db.posts {
      var restored := RestoreIs(db, p, actor, now);
      RestoreWithKnown(db, restored, p, now);
      if q == p {
        RestoreWithGrade(db, restored, p, now);
      } else if q in db.posts {
        if Live(db.posts[q]) && db.posts[q].status.Pending? { RestoredUnseen(db, restored, db.posts[p].images, q); }
        RestoreWithSees(db, restored, p, now, q);
      }
    }
  }

  lemma NewUploadOpens(db: Db, i: ImageId, key: nat, q: PostId)
    requires Sound(db, q)
    ensures Sound(NewUpload(db, i, key), q)
  {
    UploadKeeps(db, i, key, true);
    QuietOpens(db, NewUpload(db, i, key), q);
  }

  lemma UploadStateOpens(db: Db, i: ImageId, uploaded: bool, q: PostId)
    requires Sound(db, q)
    ensures Sound(UploadState(db, i, uploaded), q)
  {
    UploadKeeps(db, i, 0, uploaded);
    QuietOpens(db, UploadState(db, i, uploaded), q);
  }

  lemma WorkOpens(db: Db, i: ImageId, w: DeliveryWrite, q: PostId)
    requires Sound(db, q)
    ensures Sound(Worked(db, i, w), q)
  {
    WorkKeeps(db, i, w);
    QuietOpens(db, Worked(db, i, w), q);
  }

  lemma StepOpens(db: Db, e: Event, q: PostId)
    requires Sound(db, q) && Tame(db, e, q)
    ensures Sound(Step(db, e), q)
  {
    match e
    case Upload(i, key) => NewUploadOpens(db, i, key, q);
    case SetUploaded(i, uploaded) => UploadStateOpens(db, i, uploaded, q);
    case Work(i, w) => WorkOpens(db, i, w, q);
    case Save(p, author, used, publish, review, now) => SaveOpens(db, p, author, used, publish, review, now, q);
    case History(p, actor, revision, used, review, now) => HistoryOpens(db, p, actor, revision, used, review, now, q);
    case Receive(cb, requireJob, now) => ReceiveOpens(db, cb, requireJob, now, q);
    case ReviewRecord(id, reviewer, verdict, now) => ReviewOpens(db, id, reviewer, verdict, now, q);
    case ReviewPost(p, reviewer, verdict, now) => ReviewPostOpens(db, p, reviewer, verdict, now, q);
    case Delete(p, actor, admin, now) => DeleteOpens(db, p, actor, admin, now, q);
    case Restore(p, actor, now) => RestoreOpens(db, p, actor, now, q);
  }

  ghost predicate TameRun(events: seq<Event>, q: PostId) {
    forall n :: 0 <= n < |events| ==> Tame(Run(EMPTY, events[..n]), events[n], q)
  }

  /**
   * Over any run of uploads, saves, callbacks, reviews, deletions and restores, a live post is pending only while the
   * one-shot evaluation of its current text and images is pending too, unless this very post was restored when it
   * should have been decided. What happened to other posts does not matter.
   */
  lemma {:induction false} PendingMeansUndecided(events: seq<Event>, q: PostId)
    requires TameRun(events, q)
    ensures Sound(Run(EMPTY, events), q)
  {
    if events != [] {
      var last := |events| - 1;
      var before := events[..last];
      forall n | 0 <= n < |before|
        ensures Tame(Run(EMPTY, before[..n]), before[n], q)
      {
        assert before[..n] == events[..n];
      }
      PendingMeansUndecided(before, q);
      StepOpens(Run(EMPTY, before), events[last], q);
    }
  }

  // A number no restore of the run names.
  lemma {:induction false} OtherPost(events: seq<Event>) returns (q: PostId)
    ensures forall n :: 0 <= n < |events| && events[n].Restore? ==> events[n].post < q
  {
    q := 0;
    if events != [] {
      q := OtherPost(events[..|events| - 1]);
      var e := events[|events| - 1];
      if e.Restore? && e.post >= q { q := e.post + 1; }
    }
  }

  /** References and revisions are in order in every reachable state, whatever was restored. */
  lemma RunIsKnown(events: seq<Event>)
    ensures Consistent(Run(EMPTY, events)) && Known(Run(EMPTY, events))
  {
    var q := OtherPost(events);
    PendingMeansUndecided(events, q);
  }
}
