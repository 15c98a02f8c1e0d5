/** The moderation service and its repository, proved against the operations of the model. */
module ModerationService {
  import opened Common
  import opened ImageAccessRow
  import Outbox = ImageAccessOutbox
  import opened ModerationState
  import opened ModerationOperations
  import opened ModerationAccess

  function Distinct(values: seq<nat>): set<nat> { set v | v in values }

  // One step of the sort: the value moves in front of the first larger one.
  method Insert(sorted: seq<nat>, value: nat) returns (r: seq<nat>)
    requires value !in sorted && forall a, b :: 0 <= a < b < |sorted| ==> sorted[a] < sorted[b]
    ensures forall a, b :: 0 <= a < b < |r| ==> r[a] < r[b]
    ensures forall v :: v in r <==> v in sorted || v == value
  {
    var at := 0;
    while at < |sorted| && sorted[at] < value
      invariant 0 <= at <= |sorted| && forall a :: 0 <= a < at ==> sorted[a] < value
    {
      at := at + 1;
    }
    r := sorted[..at] + [value] + sorted[at..];
    forall v
      ensures v in r <==> v in sorted || v == value
    {
      assert sorted == sorted[..at] + sorted[at..];
    }
  }

  /** The ids without zero and without repetition, in ascending order: the order in which rows are locked. */
  method UniqueModerationIDs(values: seq<nat>) returns (out: seq<nat>)
    ensures out == Ascending(Distinct(values) - {0})
  {
    var seen: set<nat> := {};
    var found: seq<nat> := [];
    for n := 0 to |values|
      invariant seen == Distinct(values[..n]) - {0}
      invariant forall v :: v in found <==> v in seen
      invariant forall a, b :: 0 <= a < b < |found| ==> found[a] != found[b]
    {
      assert values[..n + 1] == values[..n] + [values[n]];
      if values[n] != 0 && values[n] !in seen {
        seen := seen + {values[n]};
        found := found + [values[n]];
      }
    }
    assert values[..|values|] == values;
    out := [];
    for n := 0 to |found|
      invariant forall v :: v in out <==> v in found[..n]
      invariant forall a, b :: 0 <= a < b < |out| ==> out[a] < out[b]
    {
      out := Insert(out, found[n]);
      assert found[..n + 1] == found[..n] + [found[n]];
    }
    assert found[..|found|] == found;
    AscendingUnique(out, Distinct(values) - {0});
  }

  class ModerationTables {
    var posts: map<PostId, Post>
    var images: map<ImageId, Image>
    var records: seq<Record>
    const outbox: Outbox.ImageAccessOutbox

    constructor (outbox: Outbox.ImageAccessOutbox)
      requires outbox.deliveries == map[] && outbox.intents == map[] && outbox.nextIntent == 1
      ensures this.outbox == outbox && Contents() == EMPTY
    {
      this.outbox := outbox;
      posts, images, records := map[], map[], [];
    }

    function Contents(): Db
      reads this, outbox
    {
      Db(posts, images, records, outbox.intents, outbox.nextIntent, outbox.deliveries)
    }

    // Identity columns start from one.
    predicate NoZeroIds()
      reads this
    {
      0 !in posts && 0 !in images
    }

    /** INSERT … ON CONFLICT (provider, provider_job_id) DO NOTHING. */
    method CreateMachineRecordIfNew(record: Record) returns (created: bool)
      modifies this`records
      ensures created <==> record.job.None? || !JobRecorded(old(records), record.provider, record.job.value)
      ensures Contents() == if created then Append(old(Contents()), record) else old(Contents())
    {
      created := record.job.None? || !JobRecorded(records, record.provider, record.job.value);
      if created { records := records + [record]; }
    }

    method CreateRecord(record: Record) returns (id: RecordId)
      modifies this`records
      ensures id == |old(records)| && records == old(records) + [record]
      ensures Contents() == Append(old(Contents()), record)
    {
      id := |records|;
      records := records + [record];
    }

    method UpdateImageModeration(i: ImageId, moderation: Moderation) returns (found: bool)
      modifies this`images
      ensures found <==> i in old(images)
      ensures Contents() == WithModeration(old(Contents()), i, moderation)
    {
      found := i in images;
      if found { images := images[i := images[i].(moderation := moderation)]; }
    }

    /** The two UPDATEs, and the number of rows each one matched. */
    method ReconcilePendingPosts(postIDs: seq<PostId>) returns (approved: nat, rejected: nat)
      requires NoZeroIds()
      modifies this`posts
      ensures Contents() == Reconciled(old(Contents()), Distinct(postIDs))
      ensures approved == |ApprovedOf(old(Contents()), Distinct(postIDs))|
      ensures rejected == |RejectedOf(old(Contents()), Distinct(postIDs))|
    {
      ghost var db := Contents();
      ZeroIsNoPost(db, Distinct(postIDs));
      if |postIDs| == 0 {
        assert Distinct(postIDs) == {};
        ReconcileNone(db);
        return 0, 0;
      }
      var unique := UniqueModerationIDs(postIDs);
      var ids := Distinct(unique);
      assert ids == Distinct(postIDs) - {0};
      var rejectedRows := RejectedOf(Contents(), ids);
      posts := WithStatus(Contents(), rejectedRows, Rejected).posts;
      var approvedRows := ApprovedOf(Contents(), ids);
      posts := WithStatus(Contents(), approvedRows, Approved).posts;
      UpdatesAreExclusive(db, ids);
      return |approvedRows|, |rejectedRows|;
    }

    /** Applies an access change; reports whether the intent trigger let it through. */
    method Apply(i: ImageId, source: RecordId, public: bool, purge: bool, now: Time) returns (ok: bool)
      modifies outbox
      ensures ok <==> Access(old(Contents()), i, source, public, purge, now).Some?
      ensures Contents() == if ok then Access(old(Contents()), i, source, public, purge, now).value else old(Contents())
    {
      if source !in outbox.intents && !IntentFits(Contents(), i, source, public) { return false; }
      var inserted := outbox.Enqueue(i, source, public, purge, now);
      return true;
    }

    method SetDeleted(p: PostId, reason: Option<DeleteReason>)
      requires p in posts
      modifies this`posts
      ensures Contents() == Deleted(old(Contents()), p, reason)
    {
      posts := posts[p := posts[p].(deleted := reason)];
    }
  }

  lemma ZeroIsNoPost(db: Db, ids: set<PostId>)
    requires 0 !in db.posts
    ensures Reconciled(db, ids - {0}) == Reconciled(db, ids)
    ensures ApprovedOf(db, ids - {0}) == ApprovedOf(db, ids) && RejectedOf(db, ids - {0}) == RejectedOf(db, ids)
  {
    assert Reconciled(db, ids - {0}).posts == Reconciled(db, ids).posts;
  }

  class ModerationService {
    const tables: ModerationTables

    constructor (tables: ModerationTables)
      ensures this.tables == tables
    {
      this.tables := tables;
    }

    /**
     * Writes the verdict of a callback. Consistent is the invariant every committed state has; with it no write is
     * refused half way, so an error means nothing was written.
     */
    method ApplyImageResult(cb: Callback, requireJob: bool, now: Time) returns (r: Result<Applied, ApiError>)
      requires tables.NoZeroIds() && Consistent(tables.Contents())
      modifies tables, tables.outbox
      ensures (tables.Contents(), r) ==
        ModerationOperations.ApplyImageResult(old(tables.Contents()), cb, requireJob, now)
    {
      if cb.image == 0 || (requireJob && cb.job.None?) { return Err(InvalidInput); }
      if cb.image !in tables.images { return Err(ImageNotFound); }
      var asset := tables.images[cb.image];
      if (cb.key.Some? && cb.key.value != asset.key) || !asset.uploaded { return Err(CallbackMismatch); }
      var postIDs := Ascending(PendingPostsWith(tables.Contents(), {cb.image}));
      ghost var before := tables.Contents();
      var source := |tables.records|;
      var created := tables.CreateMachineRecordIfNew(CallbackRecord(cb, now));
      if !created {
        r := ReconcileDuplicateImageResult(cb, asset, now);
        return;
      }
      r := FinishImageResult(before, cb, asset, postIDs, source, now);
    }

    // The writes after a new record: moderation, posts, access intent.
    method FinishImageResult(
      ghost before: Db, cb: Callback, asset: Image, postIDs: seq<PostId>, source: RecordId, now: Time)
      returns (r: Result<Applied, ApiError>)
      requires tables.NoZeroIds() && Consistent(before) && cb.image in before.images && asset == before.images[cb.image]
      requires tables.Contents() == Append(before, CallbackRecord(cb, now)) && source == |before.records|
      requires postIDs == Ascending(PendingPostsWith(before, {cb.image}))
      modifies tables, tables.outbox
      ensures var posts := PendingPostsWith(before, {cb.image});
        var judged := WithModeration(Append(before, CallbackRecord(cb, now)), cb.image, Judged(cb.verdict));
        && Judge(before, cb.image, CallbackRecord(cb, now), posts, now) == Some(tables.Contents())
        && r == Ok(Moved(|ApprovedOf(judged, posts)|, |RejectedOf(judged, posts)|))
    {
      JudgeKeeps(before, cb.image, CallbackRecord(cb, now), PendingPostsWith(before, {cb.image}), now);
      var found := tables.UpdateImageModeration(cb.image, Judged(cb.verdict));
      var approved, rejected := tables.ReconcilePendingPosts(postIDs);
      assert Distinct(postIDs) == PendingPostsWith(before, {cb.image});
      var ok := ApplyImageAccess(cb.image, asset.moderation, source, cb.verdict, now);
      return Ok(Moved(approved, rejected));
    }

    method ReconcileDuplicateImageResult(cb: Callback, asset: Image, now: Time) returns (r: Result<Applied, ApiError>)
      requires cb.image in tables.images && asset == tables.images[cb.image]
      requires cb.job.Some? && JobRecorded(tables.records, Machine(cb.provider), cb.job.value)
      modifies tables.outbox
      ensures (tables.Contents(), r) == DuplicateResult(old(tables.Contents()), cb, now)
    {
      var existing := FindJob(tables.records, Machine(cb.provider), cb.job.value).value;
      if tables.records[existing].target != OfImage(cb.image) { return Err(CallbackMismatch); }
      var public := asset.moderation == Judged(Pass);
      var ok := tables.Apply(cb.image, existing, public, PurgeRequired(public, asset.moderation), now);
      return if ok then Ok(Duplicate) else Err(Internal);
    }

    method ApplyImageAccess(i: ImageId, previous: Moderation, source: RecordId, verdict: Verdict, now: Time)
      returns (ok: bool)
      modifies tables.outbox
      ensures var next := Access(old(tables.Contents()), i, source, verdict.Pass?,
                                 PurgeRequired(verdict.Pass?, previous), now);
        (ok <==> next.Some?) && tables.Contents() == if ok then next.value else old(tables.Contents())
    {
      var public := verdict.Pass?;
      ok := tables.Apply(i, source, public, PurgeRequired(public, previous), now);
    }

    /** Manual review of one image record that no pending post uses. */
    method ManualReview(id: RecordId, reviewer: UserId, verdict: Verdict, now: Time)
      returns (r: Result<RecordId, ApiError>)
      requires tables.NoZeroIds() && Consistent(tables.Contents())
      modifies tables, tables.outbox
      ensures (tables.Contents(), r) ==
        ModerationOperations.ManualReview(old(tables.Contents()), id, reviewer, verdict, now)
    {
      if reviewer == 0 || verdict.Review? { return Err(InvalidInput); }
      if id >= |tables.records| { return Err(RecordNotFound); }
      var original := tables.records[id];
      if !MachineNonPass(original) { return Err(NotReviewable); }
      if original.target.PostText? { return Err(WholePostOnly); }
      var i := original.target.image;
      var postIDs := Ascending(PendingPostsWith(tables.Contents(), {i}));
      if |postIDs| > 0 {
        assert postIDs[0] in PendingPostsWith(tables.Contents(), {i});
        return Err(WholePostOnly);
      }
      assert PendingPostsWith(tables.Contents(), {i}) == {};
      if Superseded(tables.records, id) { return Err(AlreadyReviewed); }
      ghost var before := tables.Contents();
      var asset := tables.images[i];
      JudgeKeeps(before, i, ManualOf(original, id, verdict, now), {}, now);
      var created := tables.CreateRecord(ManualOf(original, id, verdict, now));
      var found := tables.UpdateImageModeration(i, Judged(verdict));
      var approved, rejected := tables.ReconcilePendingPosts(postIDs);
      assert Distinct(postIDs) == {};
      var ok := ApplyImageAccess(i, asset.moderation, created, verdict, now);
      return Ok(created);
    }

    /** One administrative verdict on an image: record, moderation, access intent. */
    method ApplyAdminImage(i: ImageId, provider: Provider, verdict: Verdict, now: Time)
      requires i in tables.images && Consistent(tables.Contents())
      modifies tables`records, tables`images, tables.outbox
      ensures Consistent(tables.Contents())
      ensures Judge(old(tables.Contents()), i, Record(OfImage(i), provider, None, verdict, None, now), {}, now)
              == Some(tables.Contents())
    {
      ghost var before := tables.Contents();
      var asset := tables.images[i];
      var record := Record(OfImage(i), provider, None, verdict, None, now);
      JudgeKeeps(before, i, record, {}, now);
      ReconcileNone(WithModeration(Append(before, record), i, Judged(verdict)));
      var created := tables.CreateRecord(record);
      var found := tables.UpdateImageModeration(i, Judged(verdict));
      var ok := ApplyImageAccess(i, asset.moderation, created, verdict, now);
    }

    // The next verdict of a list brings the tables one step closer to the end of the list.
    method ApplyNextAdminImage(
      i: ImageId, provider: Provider, verdict: Verdict, now: Time, ghost ids: seq<ImageId>, ghost goal: Option<Db>)
      requires ids != [] && ids[0] == i && i in tables.images && Consistent(tables.Contents())
      requires JudgeEach(tables.Contents(), ids, provider, verdict, now) == goal
      modifies tables`records, tables`images, tables.outbox
      ensures Consistent(tables.Contents()) && tables.images.Keys == old(tables.images.Keys)
      ensures JudgeEach(tables.Contents(), ids[1..], provider, verdict, now) == goal
    {
      JudgeKeeps(tables.Contents(), i, Record(OfImage(i), provider, None, verdict, None, now), {}, now);
      ApplyAdminImage(i, provider, verdict, now);
    }

    /** Blocks, in the order of ids, the images without a live user that are not blocked yet. */
    method BlockImages(imageIDs: seq<ImageId>, now: Time)
      requires forall a, b :: 0 <= a < b < |imageIDs| ==> imageIDs[a] < imageIDs[b]
      requires Consistent(tables.Contents())
      modifies tables`records, tables`images, tables.outbox
      ensures Consistent(tables.Contents())
      ensures JudgeEach(old(tables.Contents()), Ascending(Unblocked(old(tables.images), imageIDs)), AdminPostDelete,
                        Block, now)
              == Some(tables.Contents())
    {
      var assets := tables.images;
      ghost var todo := Ascending(Unblocked(assets, imageIDs));
      ghost var goal := JudgeEach(tables.Contents(), todo, AdminPostDelete, Block, now);
      var n := 0;
      while n < |imageIDs|
        invariant 0 <= n <= |imageIDs|
        invariant Consistent(tables.Contents()) && tables.images.Keys == assets.Keys
        invariant todo == Ascending(Unblocked(assets, imageIDs[n..]))
        invariant JudgeEach(tables.Contents(), todo, AdminPostDelete, Block, now) == goal
      {
        var i := imageIDs[n];
        UnblockedNext(assets, imageIDs, n);
        if i in assets && assets[i].moderation != Judged(Block) {
          ApplyNextAdminImage(i, AdminPostDelete, Block, now, todo, goal);
          todo := todo[1..];
        }
        n := n + 1;
      }
      assert todo == [];
    }

    /** Soft-deletes the post and blocks the images it leaves without a live user. */
    method DeletePost(p: PostId, actor: UserId, admin: bool, now: Time) returns (r: Result<nat, ApiError>)
      requires Consistent(tables.Contents())
      modifies tables, tables.outbox
      ensures (tables.Contents(), r) == ModerationOperations.DeletePost(old(tables.Contents()), p, actor, admin, now)
    {
      if p !in tables.posts { return Err(PostNotFound); }
      var post := tables.posts[p];
      if !Live(post) { return Err(PostDeleted); }
      if !admin && post.author != actor { return Err(NotOwner); }
      ghost var before := tables.Contents();
      tables.SetDeleted(p, Some(if post.author == actor then ByAuthor else ByAdmin));
      var gone := tables.Contents();
      PostsAreIrrelevant(before, gone, |before.records|, {});
      var unused := set i | i in post.images && i in tables.images && !UsedByLive(gone, i);
      var imageIDs := Ascending(unused);
      assert Unblocked(gone.images, imageIDs) == ToBlock(gone, post.images);
      var blocked := |ToBlock(gone, post.images)|;
      BlockImages(imageIDs, now);
      return Ok(blocked);
    }

    /** Gives back the images of the list whose block came from a deletion, in order. */
    method RestoreAdminPostDeleteImages(used: set<ImageId>, now: Time)
      requires Consistent(tables.Contents())
      modifies tables`records, tables`images, tables.outbox
      ensures Consistent(tables.Contents())
      ensures RestoreImages(old(tables.Contents()), used, now) == Some(tables.Contents())
    {
      ghost var before := tables.Contents();
      var assets := tables.images;
      var restorable := Restorable(tables.Contents(), used);
      var todo := Ascending(restorable);
      ghost var goal := JudgeEach(tables.Contents(), todo, AdminRestore, Pass, now);
      var n := 0;
      while n < |todo|
        invariant 0 <= n <= |todo|
        invariant Consistent(tables.Contents()) && tables.images.Keys == assets.Keys
        invariant JudgeEach(tables.Contents(), todo[n..], AdminRestore, Pass, now) == goal
      {
        assert todo[n] in todo;
        assert todo[n..][1..] == todo[n + 1..];
        ApplyNextAdminImage(todo[n], AdminRestore, Pass, now, todo[n..], goal);
        n := n + 1;
      }
    }

    method RestorePost(p: PostId, actor: UserId, now: Time) returns (r: Result<RecordId, ApiError>)
      requires Consistent(tables.Contents())
      modifies tables, tables.outbox
      ensures r == ModerationOperations.RestorePost(old(tables.Contents()), p, actor, now).1
      ensures r.Ok? ==> tables.Contents() == ModerationOperations.RestorePost(old(tables.Contents()), p, actor, now).0
      ensures r.Err? && r != Err(ImageNotApproved) ==> tables.Contents() == old(tables.Contents())
      ensures r == Err(ImageNotApproved) ==>   // what its caller rolls back
        && p in old(tables.posts)
        && RestoreImages(old(tables.Contents()), old(tables.posts)[p].images, now) == Some(tables.Contents())
    {
      if p !in tables.posts { return Err(PostNotFound); }
      var post := tables.posts[p];
      if Live(post) || post.author == actor { return Err(NotRestorable); }
      ghost var before := tables.Contents();
      RestoreAdminPostDeleteImages(post.images, now);
      if post.status.Approved? && !AllPassed(tables.images, post.images) { return Err(ImageNotApproved); }
      var created := tables.CreateRecord(RestoreRecord(p, post.revision, now));
      tables.SetDeleted(p, None);
      return Ok(created);
    }

    /**
     * One manual verdict for the post's current text and for every image it uses whose moderation still is what its
     * unreviewed machine record says.
     */
    method ManualReviewPost(p: PostId, reviewer: UserId, verdict: Verdict, now: Time) returns (r: Result<nat, ApiError>)
      requires tables.NoZeroIds() && Consistent(tables.Contents())
      modifies tables, tables.outbox
      ensures (tables.Contents(), r) ==
        ModerationOperations.ManualReviewPost(old(tables.Contents()), p, reviewer, verdict, now)
    {
      if p == 0 || reviewer == 0 || verdict.Review? { return Err(InvalidInput); }
      if p !in tables.posts { return Err(PostNotFound); }
      var post := tables.posts[p];
      if !Live(post) { return Err(PostDeleted); }
      if !Reviewable(post) || !AllJudged(tables.images, post.images) { return Err(NotPending); }
      if TextVerdict(tables.Contents(), p).None? { return Err(NotPending); }
      var before := tables.Contents();
      var imageIDs, count := CreatePostManualRecords(p, verdict, now);
      if count == 0 { return Err(NotPending); }
      ghost var after := ReviewPostAccepted(before, p, verdict, now);
      ApplyPostManualVerdict(p, before, imageIDs, verdict, now);
      return Ok(count);
    }

    // The manual record of one more original.
    method CreateManualRecord(
      before: seq<Record>, ghost originals: seq<RecordId>, id: RecordId, verdict: Verdict, now: Time)
      requires id < |before| && ChosenBelow(before, originals)
      requires tables.records == before + ManualRecords(before, originals, verdict, now)
      modifies tables`records
      ensures ChosenBelow(before, originals + [id])
      ensures tables.records == before + ManualRecords(before, originals + [id], verdict, now)
    {
      ManualRecordsGrow(before, originals, id, verdict, now);
      ghost var created := tables.CreateRecord(ManualOf(before[id], id, verdict, now));
    }

    method CreatePostManualRecords(p: PostId, verdict: Verdict, now: Time) returns (imageIDs: seq<ImageId>, count: nat)
      requires p in tables.posts
      modifies tables`records
      ensures var before, chosen := old(tables.Contents()), ChosenOf(old(tables.Contents()), p);
        && count == |chosen| && Distinct(imageIDs) == ImagesOf(before.records, chosen)
        && tables.records == PostJudged(before, p, verdict, now).records
        && (count == 0 ==> tables.records == before.records)
    {
      var before := tables.Contents();
      AllCollected(before, p);
      var pending := Ascending(PendingReview(before, p));
      forall n | 0 <= n < |pending|
        ensures pending[n] < |before.records|
        ensures pending[n] in ChosenOf(before, p) <==> !Skipped(before, p, pending[n])
      {
        PendingInRange(before, p, pending, n);
      }
      imageIDs, count := CreateManualRecords(before, p, pending, ChosenOf(before, p), verdict, now);
    }

    // The loop over the pending records: those not skipped get a manual record each.
    method CreateManualRecords(
      before: Db, p: PostId, pending: seq<RecordId>, ghost chosen: set<RecordId>, verdict: Verdict, now: Time)
      returns (imageIDs: seq<ImageId>, count: nat)
      requires p in before.posts && tables.records == before.records
      requires forall n :: 0 <= n < |pending| ==>
        pending[n] < |before.records| && (pending[n] in chosen <==> !Skipped(before, p, pending[n]))
      modifies tables`records
      ensures var originals := Kept(pending, chosen);
        && count == |originals| && Distinct(imageIDs) == ImagesIn(before.records, originals)
        && ChosenBelow(before.records, originals)
        && tables.records == before.records + ManualRecords(before.records, originals, verdict, now)
    {
      var latest := Latest(before.records, PostText(p, before.posts[p].revision));
      ghost var originals: seq<RecordId> := [];
      imageIDs, count := [], 0;
      for n := 0 to |pending|
        invariant count == |originals|
        invariant originals == Kept(pending[..n], chosen) && ChosenBelow(before.records, originals)
        invariant Distinct(imageIDs) == ImagesIn(before.records, originals)
        invariant tables.records == before.records + ManualRecords(before.records, originals, verdict, now)
      {
        var id := pending[n];
        assert pending[..n + 1][..n] == pending[..n];
        var original := before.records[id];
        if original.target.PostText? && Some(id) != latest { continue; }
        if original.target.OfImage? && !HasModeration(before.images, original.target.image, Judged(original.verdict)) {
          continue;
        }
        TakeImage(before.records, originals, id, imageIDs);
        imageIDs := imageIDs + ImageOf(original);
        CreateManualRecord(before.records, originals, id, verdict, now);
        originals, count := originals + [id], count + 1;
      }
      assert pending[..|pending|] == pending;
    }

    method ApplyPostManualVerdict(p: PostId, before: Db, imageIDs: seq<ImageId>, verdict: Verdict, now: Time)
      requires tables.NoZeroIds() && p in before.posts
      requires tables.Contents() == before.(records := tables.records)
      requires tables.records == PostJudged(before, p, verdict, now).records
      requires Distinct(imageIDs) == ImagesOf(before.records, ChosenOf(before, p))
      requires AccessFrom(Reconciled(PostJudged(before, p, verdict, now), PostsTouched(before, p)),
                          |before.records|, verdict, before.images, now).Some?
      modifies tables, tables.outbox
      ensures Some(tables.Contents()) ==
              AccessFrom(Reconciled(PostJudged(before, p, verdict, now), PostsTouched(before, p)),
                         |before.records|, verdict, before.images, now)
    {
      MarkImages(imageIDs, verdict);
      assert tables.Contents() == PostJudged(before, p, verdict, now);
      var postIDs := Ascending(PendingPostsWith(tables.Contents(), Distinct(imageIDs)));
      assert Distinct(postIDs + [p]) == PostsTouched(before, p);
      var approved, rejected := tables.ReconcilePendingPosts(postIDs + [p]);
      ApplyAccesses(|before.records|, before.images, verdict, now);
    }

    method MarkImages(imageIDs: seq<ImageId>, verdict: Verdict)
      modifies tables`images
      ensures tables.Contents() == Rejudged(old(tables.Contents()), Distinct(imageIDs), verdict)
    {
      ghost var before := tables.Contents();
      for n := 0 to |imageIDs|
        invariant tables.images == Rejudged(before, Distinct(imageIDs[..n]), verdict).images
      {
        var found := tables.UpdateImageModeration(imageIDs[n], Judged(verdict));
        assert imageIDs[..n + 1] == imageIDs[..n] + [imageIDs[n]];
      }
      assert imageIDs[..|imageIDs|] == imageIDs;
    }

    /** One access change for each image record from `from` on. */
    method ApplyAccesses(from: RecordId, assets: map<ImageId, Image>, verdict: Verdict, now: Time)
      requires from <= |tables.records| && AccessFrom(tables.Contents(), from, verdict, assets, now).Some?
      modifies tables.outbox
      ensures Some(tables.Contents()) == AccessFrom(old(tables.Contents()), from, verdict, assets, now)
    {
      ghost var goal := AccessFrom(tables.Contents(), from, verdict, assets, now);
      var k := from;
      while k < |tables.records|
        invariant from <= k <= |tables.records|
        invariant AccessFrom(tables.Contents(), k, verdict, assets, now) == goal
      {
        ApplyNextAccess(k, assets, verdict, now, goal);
        k := k + 1;
      }
    }

    method ApplyNextAccess(
      k: RecordId, assets: map<ImageId, Image>, verdict: Verdict, now: Time, ghost goal: Option<Db>)
      requires k < |tables.records| && goal.Some? && AccessFrom(tables.Contents(), k, verdict, assets, now) == goal
      modifies tables.outbox
      ensures AccessFrom(tables.Contents(), k + 1, verdict, assets, now) == goal
    {
      if tables.records[k].target.OfImage? && tables.records[k].target.image in assets {
        var i := tables.records[k].target.image;
        var ok := ApplyImageAccess(i, assets[i].moderation, k, verdict, now);
      }
    }
  }

  // The unreviewed failed machine records of the post's current text and of its images.
  function PendingReview(db: Db, p: PostId): set<RecordId>
    requires p in db.posts
  {
    set k | 0 <= k < |db.records| && MachineNonPass(db.records[k]) && !Superseded(db.records, k)
            && (db.records[k].target == PostText(p, db.posts[p].revision)
                || (db.records[k].target.OfImage? && db.records[k].target.image in db.posts[p].images))
  }

  predicate ChosenBelow(records: seq<Record>, ids: seq<RecordId>) { forall n :: 0 <= n < |ids| ==> ids[n] < |records| }

  function ImagesIn(records: seq<Record>, ids: seq<RecordId>): set<ImageId> {
    set k | k in ids && k < |records| && records[k].target.OfImage? :: records[k].target.image
  }

  lemma ManualRecordsGrow(records: seq<Record>, ids: seq<RecordId>, id: RecordId, verdict: Verdict, now: Time)
    requires ChosenBelow(records, ids) && id < |records|
    ensures ChosenBelow(records, ids + [id])
    ensures ManualRecords(records, ids + [id], verdict, now)
            == ManualRecords(records, ids, verdict, now) + [ManualOf(records[id], id, verdict, now)]
  {
  }

  predicate Skipped(db: Db, p: PostId, id: RecordId)
    requires p in db.posts && id < |db.records|
  {
    var original := db.records[id];
    || (original.target.PostText? && Latest(db.records, PostText(p, db.posts[p].revision)) != Some(id))
    || (original.target.OfImage? && !HasModeration(db.images, original.target.image, Judged(original.verdict)))
  }

  lemma PendingChosen(db: Db, p: PostId, id: RecordId)
    requires p in db.posts && id in PendingReview(db, p)
    ensures Chosen(db, p, id) <==> !Skipped(db, p, id)
  {
  }

  // The elements of a list that are in s, in its order.
  function Kept(ids: seq<nat>, s: set<nat>): (r: seq<nat>)
    ensures forall v :: v in r <==> v in ids && v in s
  {
    if ids == [] then []
    else
      var last := |ids| - 1;
      assert ids == ids[..last] + [ids[last]];
      Kept(ids[..last], s) + if ids[last] in s then [ids[last]] else []
  }

  lemma {:induction false} KeptAscends(ids: seq<nat>, s: set<nat>)
    requires forall a, b :: 0 <= a < b < |ids| ==> ids[a] < ids[b]
    ensures forall a, b :: 0 <= a < b < |Kept(ids, s)| ==> Kept(ids, s)[a] < Kept(ids, s)[b]
  {
    if ids != [] {
      var init, last := ids[..|ids| - 1], ids[|ids| - 1];
      KeptAscends(init, s);
      var r := Kept(init, s);
      forall a | 0 <= a < |r|
        ensures r[a] < last
      {
        assert r[a] in init;
      }
      assert forall a, b :: 0 <= a < b < |r| ==> r[a] < r[b];
    }
  }

  /** Filtering an ascending list that covers s gives s in ascending order. */
  lemma KeptIsAscending(ids: seq<nat>, s: set<nat>)
    requires forall a, b :: 0 <= a < b < |ids| ==> ids[a] < ids[b]
    requires forall v :: v in s ==> v in ids
    ensures Kept(ids, s) == Ascending(s)
  {
    KeptAscends(ids, s);
    AscendingUnique(Kept(ids, s), s);
  }

  function ImageOf(record: Record): seq<ImageId> { if record.target.OfImage? then [record.target.image] else [] }

  lemma TakeImage(records: seq<Record>, ids: seq<RecordId>, id: RecordId, imageIDs: seq<ImageId>)
    requires id < |records| && Distinct(imageIDs) == ImagesIn(records, ids)
    ensures Distinct(imageIDs + ImageOf(records[id])) == ImagesIn(records, ids + [id])
  {
    assert Distinct(imageIDs + ImageOf(records[id])) == Distinct(imageIDs) + Distinct(ImageOf(records[id]));
    assert ImagesIn(records, ids + [id]) == ImagesIn(records, ids) + Distinct(ImageOf(records[id]));
  }

  lemma PendingInRange(db: Db, p: PostId, pending: seq<RecordId>, n: nat)
    requires p in db.posts && pending == Ascending(PendingReview(db, p)) && n < |pending|
    ensures pending[n] < |db.records| && (pending[n] in ChosenOf(db, p) <==> !Skipped(db, p, pending[n]))
  {
    assert pending[n] in pending;
    PendingChosen(db, p, pending[n]);
  }

  lemma AllCollected(db: Db, p: PostId)
    requires p in db.posts
    ensures Kept(Ascending(PendingReview(db, p)), ChosenOf(db, p)) == Ascending(ChosenOf(db, p))
    ensures ImagesIn(db.records, Ascending(ChosenOf(db, p))) == ImagesOf(db.records, ChosenOf(db, p))
  {
    forall k | k in ChosenOf(db, p)
      ensures k in PendingReview(db, p)
    {
    }
    KeptIsAscending(Ascending(PendingReview(db, p)), ChosenOf(db, p));
  }

  function Unblocked(assets: map<ImageId, Image>, ids: seq<ImageId>): set<ImageId> {
    set i | i in ids && i in assets && assets[i].moderation != Judged(Block)
  }

  // The next id of an ascending list is the first of those left to block, unless it is skipped.
  lemma UnblockedNext(assets: map<ImageId, Image>, ids: seq<ImageId>, n: nat)
    requires n < |ids| && forall a, b :: 0 <= a < b < |ids| ==> ids[a] < ids[b]
    ensures var todo, rest := Ascending(Unblocked(assets, ids[n..])), Ascending(Unblocked(assets, ids[n + 1..]));
      if ids[n] in assets && assets[ids[n]].moderation != Judged(Block)
      then todo == [ids[n]] + rest && todo[1..] == rest
      else todo == rest
  {
    var rest := Unblocked(assets, ids[n + 1..]);
    assert forall i :: i in ids[n..] <==> i == ids[n] || i in ids[n + 1..];
    if ids[n] in assets && assets[ids[n]].moderation != Judged(Block) {
      assert Unblocked(assets, ids[n..]) == {ids[n]} + rest;
      AscendingCons(ids[n], rest);
    } else {
      assert Unblocked(assets, ids[n..]) == rest;
    }
  }
}
