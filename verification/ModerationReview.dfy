/** What a whole-post review achieves, and the post an administrator's restore can leave undecided. */
module ModerationReview {
  import opened Common
  import opened ImageAccessRow
  import opened ModerationState
  import opened ModerationOperations
  import opened ModerationAccess
  import opened ModerationAggregate

  function CurrentText(db: Db, p: PostId): Target
    requires p in db.posts
  {
    PostText(p, db.posts[p].revision)
  }

  // One new record of the target, somewhere among the new ones.
  lemma {:induction false} LatestWithOneMore(a: seq<Record>, b: seq<Record>, target: Target, m: RecordId)
    requires a <= b && |a| <= m < |b| && b[m].target == target && Latest(a, target).Some?
    requires forall k :: |a| <= k < |b| && k != m ==> b[k].target != target
    ensures var latest := Latest(a, target).value;
      Latest(b, target) == Some(if a[latest].createdAt <= b[m].createdAt then m else latest)
  {
    var init := b[..|b| - 1];
    if m == |b| - 1 {
      LatestIgnores(a, init, target);
      assert b == init + [b[m]];
    } else {
      LatestWithOneMore(a, init, target, m);
    }
  }

  /** A text record among the chosen is the latest one of the current revision. */
  lemma ChosenText(db: Db, p: PostId, k: RecordId)
    requires p in db.posts && k in ChosenOf(db, p) && db.records[k].target.PostText?
    ensures Latest(db.records, CurrentText(db, p)) == Some(k) && db.records[k].target == CurrentText(db, p)
  {
  }

  // b is a with manual records in the order of ids, at most one of them about the target.
  ghost predicate ManualBatch(
    a: seq<Record>, b: seq<Record>, ids: seq<RecordId>, target: Target, latest: RecordId, verdict: Verdict, now: Time)
  {
    && a <= b && |b| == |a| + |ids|
    && (forall i, j :: 0 <= i < j < |ids| ==> ids[i] < ids[j])
    && (forall k :: |a| <= k < |b| ==>
          && ids[k - |a|] < |a| && b[k] == ManualOf(a[ids[k - |a|]], ids[k - |a|], verdict, now)
          && (b[k].target == target ==> ids[k - |a|] == latest))
  }

  lemma ManualTextLatest(
    a: seq<Record>, b: seq<Record>, ids: seq<RecordId>, target: Target, latest: RecordId, verdict: Verdict, now: Time)
    requires Latest(a, target) == Some(latest) && ManualBatch(a, b, ids, target, latest, verdict, now)
    ensures var r := Latest(b, target);
      && r.Some?
      && b[r.value].verdict == if latest in ids && a[latest].createdAt <= now then verdict else a[latest].verdict
  {
    if n :| 0 <= n < |ids| && ids[n] == latest {
      forall k | |a| <= k < |b| && k != |a| + n
        ensures b[k].target != target
      {
        assert ids[k - |a|] != ids[n];
      }
      LatestWithOneMore(a, b, target, |a| + n);
    } else {
      LatestIgnores(a, b, target);
    }
  }

  lemma ManualRecordsBatch(
    a: seq<Record>, ids: seq<RecordId>, target: Target, latest: RecordId, verdict: Verdict, now: Time)
    requires forall i, j :: 0 <= i < j < |ids| ==> ids[i] < ids[j]
    requires forall n :: 0 <= n < |ids| ==> ids[n] < |a| && (a[ids[n]].target == target ==> ids[n] == latest)
    ensures ManualBatch(a, a + ManualRecords(a, ids, verdict, now), ids, target, latest, verdict, now)
  {
  }

  lemma ReviewIsManualBatch(db: Db, p: PostId, verdict: Verdict, now: Time, latest: RecordId)
    requires p in db.posts && Latest(db.records, CurrentText(db, p)) == Some(latest)
    ensures ManualBatch(db.records, PostJudged(db, p, verdict, now).records, Ascending(ChosenOf(db, p)),
                        CurrentText(db, p), latest, verdict, now)
  {
    var ids := Ascending(ChosenOf(db, p));
    forall n | 0 <= n < |ids|
      ensures ids[n] < |db.records| && (db.records[ids[n]].target == CurrentText(db, p) ==> ids[n] == latest)
    {
      assert ids[n] in ids;
      if db.records[ids[n]].target.PostText? { ChosenText(db, p, ids[n]); }
    }
    ManualRecordsBatch(db.records, ids, CurrentText(db, p), latest, verdict, now);
  }

  /** The text verdict of the post after the review. */
  lemma ReviewedText(db: Db, p: PostId, verdict: Verdict, now: Time)
    requires p in db.posts && Latest(db.records, CurrentText(db, p)).Some?
    ensures var latest := Latest(db.records, CurrentText(db, p)).value;
      TextVerdict(PostJudged(db, p, verdict, now), p) ==
      Some(if latest in ChosenOf(db, p) && db.records[latest].createdAt <= now then verdict
           else db.records[latest].verdict)
  {
    var latest := Latest(db.records, CurrentText(db, p)).value;
    ReviewIsManualBatch(db, p, verdict, now, latest);
    ManualTextLatest(db.records, PostJudged(db, p, verdict, now).records, Ascending(ChosenOf(db, p)),
                     CurrentText(db, p), latest, verdict, now);
  }

  /**
   * When a block must show on the post itself: a blocked image, or a text verdict that the manual one supersedes in
   * time.
   */
  predicate BlockTakesEffect(db: Db, p: PostId, now: Time)
    requires p in db.posts
  {
    || db.posts[p].status.Rejected?
    || AnyBlocked(db.images, db.posts[p].images)
    || ImagesOf(db.records, ChosenOf(db, p)) != {}
    || (var latest := Latest(db.records, CurrentText(db, p));
        latest.Some? && (db.records[latest.value].verdict.Block? || db.records[latest.value].createdAt <= now))
  }

  lemma BlockedImages(db: Db, p: PostId, now: Time)
    requires p in db.posts
    ensures var d := PostJudged(db, p, Block, now);
      AnyBlocked(d.images, db.posts[p].images) <==>
      AnyBlocked(db.images, db.posts[p].images) || ImagesOf(db.records, ChosenOf(db, p)) != {}
  {
    RejudgedBlocks(db, db.posts[p].images, ImagesOf(db.records, ChosenOf(db, p)));
  }

  lemma RejudgedBlocks(db: Db, used: set<ImageId>, touched: set<ImageId>)
    requires touched <= used && touched <= db.images.Keys
    ensures AnyBlocked(Rejudged(db, touched, Block).images, used) <==> AnyBlocked(db.images, used) || touched != {}
  {
    var after := Rejudged(db, touched, Block).images;
    if touched != {} {
      var i :| i in touched;
      assert HasModeration(after, i, Judged(Block));
    } else {
      assert after == db.images;
    }
  }

  /**
   * A successful block rejects the post exactly when it takes effect, and always rejects every other pending post
   * that uses an image it blocked; every record it decided is superseded.
   */
  lemma BlockRejects(db: Db, p: PostId, reviewer: UserId, now: Time)
    requires Consistent(db) && p in db.posts && ManualReviewPost(db, p, reviewer, Block, now).1.Ok?
    ensures var after := ManualReviewPost(db, p, reviewer, Block, now).0;
      var touched := ImagesOf(db.records, ChosenOf(db, p));
      && p in after.posts && (after.posts[p].status.Rejected? <==> BlockTakesEffect(db, p, now))
      && (forall q :: q in PendingPostsWith(db, touched) ==> q in after.posts && after.posts[q].status.Rejected?)
      && (forall i :: i in touched ==> HasModeration(after.images, i, Judged(Block)))
      && (forall k :: k in ChosenOf(db, p) ==> Superseded(after.records, k) && !Superseded(db.records, k))
  {
    ReviewPostKeeps(db, p, reviewer, Block, now);
    var after := ManualReviewPost(db, p, reviewer, Block, now).0;
    BlockedPost(db, p, now);
    forall q | q in PendingPostsWith(db, ImagesOf(db.records, ChosenOf(db, p)))
      ensures q in after.posts && after.posts[q].status.Rejected?
    {
      BlockedNeighbour(db, p, now, q);
    }
    forall k | k in ChosenOf(db, p)
      ensures Superseded(after.records, k)
    {
      ChosenIsSuperseded(db, p, Block, now, k);
    }
    BlockedTouched(db, p, now);
  }

  lemma BlockedTouched(db: Db, p: PostId, now: Time)
    requires Consistent(db) && p in db.posts
    ensures forall i :: i in ImagesOf(db.records, ChosenOf(db, p)) ==>
      HasModeration(PostJudged(db, p, Block, now).images, i, Judged(Block))
  {
  }

  lemma ChosenIsSuperseded(db: Db, p: PostId, verdict: Verdict, now: Time, k: RecordId)
    requires p in db.posts && k in ChosenOf(db, p)
    ensures Superseded(PostJudged(db, p, verdict, now).records, k)
  {
    var ids := Ascending(ChosenOf(db, p));
    assert k in ids;
    var n :| 0 <= n < |ids| && ids[n] == k;
    ManualRecordAt(db, p, verdict, now, n);
  }

  lemma BlockedPost(db: Db, p: PostId, now: Time)
    requires p in db.posts && Reviewable(db.posts[p]) && TextVerdict(db, p).Some? && ChosenOf(db, p) != {}
    ensures var d := Reconciled(PostJudged(db, p, Block, now), PostsTouched(db, p));
      p in d.posts && (d.posts[p].status.Rejected? <==> BlockTakesEffect(db, p, now))
  {
    ReviewedText(db, p, Block, now);
    BlockedImages(db, p, now);
    SomethingChosen(db, p);
    ReconcileIsAggregate(PostJudged(db, p, Block, now), PostsTouched(db, p), p);
  }

  // Without an image to decide, a review decides the latest text record, which had not passed.
  lemma SomethingChosen(db: Db, p: PostId)
    requires p in db.posts && ChosenOf(db, p) != {}
    ensures var latest := Latest(db.records, CurrentText(db, p));
      || ImagesOf(db.records, ChosenOf(db, p)) != {}
      || (latest.Some? && latest.value in ChosenOf(db, p) && !db.records[latest.value].verdict.Pass?)
  {
    var k :| k in ChosenOf(db, p);
    if db.records[k].target.OfImage? {
      assert db.records[k].target.image in ImagesOf(db.records, ChosenOf(db, p));
    } else {
      ChosenText(db, p, k);
    }
  }

  lemma BlockedNeighbour(db: Db, p: PostId, now: Time, q: PostId)
    requires p in db.posts && q in PendingPostsWith(db, ImagesOf(db.records, ChosenOf(db, p)))
    ensures var d := Reconciled(PostJudged(db, p, Block, now), PostsTouched(db, p));
      q in d.posts && d.posts[q].status.Rejected?
  {
    var touched := ImagesOf(db.records, ChosenOf(db, p));
    var i :| i in db.posts[q].images * touched;
    assert HasModeration(Rejudged(db, touched, Block).images, i, Judged(Block));
    BlockedImageRejects(PostJudged(db, p, Block, now), PostsTouched(db, p), q, i);
  }

  lemma BlockedImageRejects(db: Db, ids: set<PostId>, q: PostId, i: ImageId)
    requires q in db.posts && q in ids && Reviewable(db.posts[q])
    requires i in db.posts[q].images && HasModeration(db.images, i, Judged(Block))
    ensures q in Reconciled(db, ids).posts && Reconciled(db, ids).posts[q].status.Rejected?
  {
    assert MustReject(db, q);
  }

  // Some text record is dated later than this clock reads.
  predicate ClockIsBehind(db: Db, p: PostId, now: Time)
    requires p in db.posts
  {
    var r := Latest(db.records, CurrentText(db, p));
    r.Some? && db.records[r.value].createdAt > now
  }

  /**
   * With a clock that reads earlier than the reviewed record, a block of a post decided by its text alone is recorded
   * but leaves the post pending.
   */
  lemma EarlyClockKeepsPending(db: Db, p: PostId, reviewer: UserId, now: Time)
    requires Sound(db, p) && p in db.posts && ManualReviewPost(db, p, reviewer, Block, now).1.Ok?
    requires db.posts[p].status.Pending? && ImagesOf(db.records, ChosenOf(db, p)) == {}
    requires TextVerdict(db, p) == Some(Review) && ClockIsBehind(db, p, now)
    ensures var after := ManualReviewPost(db, p, reviewer, Block, now).0;
      p in after.posts && after.posts[p].status.Pending?
  {
    BlockRejects(db, p, reviewer, now);
    ReviewPostKeeps(db, p, reviewer, Block, now);
    ReviewedText(db, p, Block, now);
    var d := PostJudged(db, p, Block, now);
    ReconcileIsAggregate(d, PostsTouched(db, p), p);
  }

  /** After it no further whole-post review can decide the post: its latest text record is superseded already. */
  lemma EarlyClockLeavesStuck(db: Db, p: PostId, reviewer: UserId, now: Time, verdict: Verdict, later: Time)
    requires Sound(db, p) && p in db.posts && ManualReviewPost(db, p, reviewer, Block, now).1.Ok?
    requires db.posts[p].status.Pending? && db.posts[p].images == {}
    requires TextVerdict(db, p) == Some(Review) && ClockIsBehind(db, p, now)
    ensures ManualReviewPost(ManualReviewPost(db, p, reviewer, Block, now).0, p, reviewer, verdict, later).1.Err?
  {
    ChosenIfReviewed(db, p, reviewer, now);
    EarlyTextStays(db, p, now);
    var after := EarlyBlockWrites(db, p, reviewer, now);
    NothingLeft(after, p);
    NothingToReview(after, p, reviewer, verdict, later);
  }

  lemma EarlyBlockWrites(db: Db, p: PostId, reviewer: UserId, now: Time) returns (after: Db)
    requires Consistent(db) && p in db.posts && ManualReviewPost(db, p, reviewer, Block, now).1.Ok?
    ensures after == ManualReviewPost(db, p, reviewer, Block, now).0
    ensures after.records == PostJudged(db, p, Block, now).records
    ensures p in after.posts && after.posts[p].images == db.posts[p].images
    ensures CurrentText(after, p) == CurrentText(db, p)
  {
    ReviewPostKeeps(db, p, reviewer, Block, now);
    after := ManualReviewPost(db, p, reviewer, Block, now).0;
  }

  lemma NothingToReview(db: Db, p: PostId, reviewer: UserId, verdict: Verdict, now: Time)
    requires p in db.posts && ChosenOf(db, p) == {}
    ensures ManualReviewPost(db, p, reviewer, verdict, now).1.Err?
  {
  }

  lemma ChosenIfReviewed(db: Db, p: PostId, reviewer: UserId, now: Time)
    requires p in db.posts && ManualReviewPost(db, p, reviewer, Block, now).1.Ok?
    ensures ChosenOf(db, p) != {}
  {
  }

  lemma EarlyTextStays(db: Db, p: PostId, now: Time)
    requires p in db.posts && db.posts[p].images == {} && ChosenOf(db, p) != {} && ClockIsBehind(db, p, now)
    ensures var d := PostJudged(db, p, Block, now);
      var latest := Latest(d.records, CurrentText(db, p)); latest.Some? && Superseded(d.records, latest.value)
  {
    var d, latest := PostJudged(db, p, Block, now), Latest(db.records, CurrentText(db, p)).value;
    NoImagesChosen(db, p);
    SomethingChosen(db, p);
    ReviewIsManualBatch(db, p, Block, now, latest);
    StillLatest(db.records, d.records, Ascending(ChosenOf(db, p)), CurrentText(db, p), latest, now);
    ChosenIsSuperseded(db, p, Block, now, latest);
  }

  lemma NothingLeft(db: Db, p: PostId)
    requires p in db.posts && db.posts[p].images == {}
    requires var latest := Latest(db.records, CurrentText(db, p)); latest.Some? && Superseded(db.records, latest.value)
    ensures ChosenOf(db, p) == {}
  {
    NoImagesChosen(db, p);
    if k :| k in ChosenOf(db, p) {
      ChosenText(db, p, k);
    }
  }

  lemma NoImagesChosen(db: Db, p: PostId)
    requires p in db.posts && db.posts[p].images == {}
    ensures ImagesOf(db.records, ChosenOf(db, p)) == {}
    ensures forall k :: k in ChosenOf(db, p) ==> db.records[k].target.PostText?
  {
  }

  // Manual records dated before the reviewed one do not become the latest.
  lemma StillLatest(a: seq<Record>, b: seq<Record>, ids: seq<RecordId>, target: Target, latest: RecordId, now: Time)
    requires Latest(a, target) == Some(latest) && ManualBatch(a, b, ids, target, latest, Block, now)
    requires a[latest].createdAt > now
    ensures Latest(b, target) == Some(latest)
  {
    if n :| 0 <= n < |ids| && ids[n] == latest {
      forall k | |a| <= k < |b| && k != |a| + n
        ensures b[k].target != target
      {
        assert ids[k - |a|] != ids[n];
      }
      if b[|a| + n].target == target { LatestWithOneMore(a, b, target, |a| + n); } else { LatestIgnores(a, b, target); }
    } else {
      LatestIgnores(a, b, target);
    }
  }

  // Saved without images: the post, and its first text record.
  lemma SavedAlone(review: TextReview, now: Time) returns (saved: Db)
    requires review.job.None?
    ensures saved == SavePost(EMPTY, 1, 7, {}, true, review, now).0
    ensures SavePost(EMPTY, 1, 7, {}, true, review, now).1.Ok?
    ensures Consistent(saved) && Known(saved) && OpenPost(saved, 1)
    ensures saved.records == [TextRecord(1, 1, review, now)] && saved.images == map[]
    ensures saved.posts.Keys == {1}
    ensures saved.posts[1] ==
      Post(7, match review.verdict case Pass => Approved case Review => Pending case Block => Rejected,
                                   None, 1, 1, {})
    ensures Latest(saved.records, PostText(1, 1)) == Some(0) && TextVerdict(saved, 1) == Some(review.verdict)
  {
    saved := SavePost(EMPTY, 1, 7, {}, true, review, now).0;
    SaveOpens(EMPTY, 1, 7, {}, true, review, now, 1);
    var record := TextRecord(1, 1, review, now);
    assert saved.records == [record];
    assert [record][..0] == [];
  }

  /** Such a review happens: a doubtful post saved at time 5 and blocked by a reviewer whose clock reads 3. */
  lemma EarlyClockHappens(verdict: Verdict, later: Time)
    ensures var saved := SavePost(EMPTY, 1, 7, {}, true, TextReview(0, None, Review), 5).0;
      var (after, reply) := ManualReviewPost(saved, 1, 9, Block, 3);
      && reply.Ok? && 1 in after.posts && Live(after.posts[1]) && after.posts[1].status.Pending?
      && ManualReviewPost(after, 1, 9, verdict, later).1.Err?
  {
    var saved := SavedAlone(TextReview(0, None, Review), 5);
    FirstReviewSucceeds(saved, 1, 9, 3);
    NoImagesChosen(saved, 1);
    BlockRejects(saved, 1, 9, 3);
    ReviewPostKeeps(saved, 1, 9, Block, 3);
    EarlyClockKeepsPending(saved, 1, 9, 3);
    EarlyClockLeavesStuck(saved, 1, 9, 3, verdict, later);
  }

  lemma FirstReviewSucceeds(db: Db, p: PostId, reviewer: UserId, now: Time)
    requires Consistent(db) && p in db.posts && p != 0 && reviewer != 0 && Reviewable(db.posts[p])
    requires db.posts[p].images == {}
    requires |db.records| == 1 && Chosen(db, p, 0) && TextVerdict(db, p).Some?
    ensures ManualReviewPost(db, p, reviewer, Block, now).1.Ok?
  {
    assert 0 in ChosenOf(db, p);
    var after := ReviewPostAccepted(db, p, Block, now);
  }

  /**
   * A post deleted while pending or rejected whose restore would grade it approved: its images have passed or were
   * blocked by a deletion alone, and no later text record stands in the way.
   */
  predicate StuckOnceRestored(db: Db, p: PostId, now: Time) {
    && p in db.posts && !Live(db.posts[p]) && (db.posts[p].status.Pending? || db.posts[p].status.Rejected?)
    && RestoredGrade(db, p, now).Approved?
  }

  /**
   * Restored by an administrator, such a post is live and still pending or rejected although the one-shot evaluation
   * approves it, and no whole-post review can decide it: its latest text record is the restore itself.
   */
  lemma RestoredPostIsStuck(
    db: Db, p: PostId, actor: UserId, now: Time, reviewer: UserId, verdict: Verdict, later: Time)
    requires Consistent(db) && Known(db) && StuckOnceRestored(db, p, now) && db.posts[p].author != actor
    ensures var after := RestorePost(db, p, actor, now).0;
      && RestorePost(db, p, actor, now).1.Ok?
      && p in after.posts && Live(after.posts[p]) && after.posts[p].status == db.posts[p].status
      && TextVerdict(after, p) == Some(Pass)
      && Aggregate(Pass, after.images, after.posts[p].images).Approved?
      && ManualReviewPost(after, p, reviewer, verdict, later).1.Err?
  {
    RestoreSucceeds(db, p, actor, now);
    RestoreOpensIff(db, p, actor, now);
    NothingChosen(RestorePost(db, p, actor, now).0, p);
  }

  lemma RestoreSucceeds(db: Db, p: PostId, actor: UserId, now: Time)
    requires Consistent(db) && p in db.posts && !Live(db.posts[p]) && !db.posts[p].status.Approved?
    requires db.posts[p].author != actor
    ensures RestorePost(db, p, actor, now).1.Ok?
  {
    var restored := RestoreImagesKeeps(db, db.posts[p].images, now);
  }

  lemma NothingChosen(db: Db, p: PostId)
    requires p in db.posts && TextVerdict(db, p) == Some(Pass) && AllPassed(db.images, db.posts[p].images)
    ensures ChosenOf(db, p) == {}
  {
    forall k | 0 <= k < |db.records|
      ensures !Chosen(db, p, k)
    {
      match db.records[k].target
      case PostText(q, revision) =>
      case OfImage(i) => assert i in db.posts[p].images && i in db.images ==> HasModeration(db.images, i, Judged(Pass));
    }
  }

  /** Such posts are reachable: saved with a doubtful or a blocked text, deleted by an administrator and restored. */
  lemma StuckPostExists(verdict: Verdict, decision: Verdict, later: Time)
    requires !verdict.Pass?
    ensures var saved := SavePost(EMPTY, 1, 7, {}, true, TextReview(0, None, verdict), 0).0;
      var deleted := DeletePost(saved, 1, 9, true, 1).0;
      var after := RestorePost(deleted, 1, 9, 2).0;
      && 1 in after.posts && Live(after.posts[1])
      && after.posts[1].status == (if verdict.Review? then Pending else Rejected)
      && TextVerdict(after, 1) == Some(Pass) && Aggregate(Pass, after.images, after.posts[1].images).Approved?
      && ManualReviewPost(after, 1, 9, decision, later).1.Err?
  {
    var saved := SavedAlone(TextReview(0, None, verdict), 0);
    var gone := DeleteIs(saved, 1, 9, true, 1);
    assert ToBlock(gone, {}) == {};
    var deleted := DeletePost(saved, 1, 9, true, 1).0;
    DeleteOpens(saved, 1, 9, true, 1, 1);
    assert deleted.posts[1] == saved.posts[1].(deleted := Some(ByAdmin)) && deleted.records == saved.records;
    assert !KeptBlocked(deleted, {}) && !Waiting(deleted, {});
    RestoredPostIsStuck(deleted, 1, 9, 2, 9, decision, later);
  }
}
