/** The outbox intent of every image follows its current verdict, in every reachable state. */
module ModerationAccess {
  import opened Common
  import opened ImageAccessRow
  import opened ImageAccessOutbox
  import opened ModerationState
  import opened ModerationOperations

  /** Public exactly when the image passed, and a private target always purges. */
  predicate Agrees(row: Delivery, m: Moderation) {
    && (row.desiredPublic <==> m == Judged(Pass))
    && (!row.desiredPublic ==> row.purgeRequired)
  }

  /** The row's intent comes from a record of this image whose verdict is the image's current one. */
  predicate TracedTo(db: Db, i: ImageId, k: RecordId) {
    && i in db.deliveries && i in db.images
    && k in db.intents && k < |db.records|
    && db.intents[k].id == db.deliveries[i].intent
    && db.records[k].target == OfImage(i)
    && db.images[i].moderation == Judged(db.records[k].verdict)
  }

  predicate Follows(db: Db, i: ImageId) {
    && i in db.images && i in db.deliveries
    && Agrees(db.deliveries[i], db.images[i].moderation)
    && exists k :: k in db.intents && TracedTo(db, i, k)
  }

  // Records from `from` on have no intent yet, and the images in stale may disagree with their row.
  ghost predicate InStep(db: Db, from: RecordId, stale: set<ImageId>) {
    && from <= |db.records|
    && (forall k :: k in db.intents ==> k < from && k < |db.records|)
    && (forall k :: 0 <= k < |db.records| && db.records[k].target.OfImage? ==> db.records[k].target.image in db.images)
    && (forall k :: 0 <= k < from && db.records[k].target.OfImage? ==> k in db.intents)
    && (forall i :: i in db.deliveries && i !in stale ==> Follows(db, i))
    && (forall i :: i in db.images && i !in stale && db.images[i].moderation.Judged? ==> i in db.deliveries)
    && stale <= db.images.Keys
  }

  /** The invariant between transactions. */
  ghost predicate Consistent(db: Db) { InStep(db, |db.records|, {}) }

  // Posts play no part in the invariant.
  lemma PostsAreIrrelevant(a: Db, b: Db, from: RecordId, stale: set<ImageId>)
    requires InStep(a, from, stale) && b == a.(posts := b.posts)
    ensures InStep(b, from, stale)
  {
    forall i | i in b.deliveries && i !in stale
      ensures Follows(b, i)
    {
      assert Follows(a, i);
      var k :| k in a.intents && TracedTo(a, i, k);
      assert TracedTo(b, i, k);
    }
  }

  /** Appending a record about an image and setting its verdict leaves only that image's row behind. */
  lemma VerdictLeavesOneBehind(db: Db, i: ImageId, record: Record)
    requires Consistent(db) && i in db.images && record.target == OfImage(i)
    ensures InStep(WithModeration(Append(db, record), i, Judged(record.verdict)), |db.records|, {i})
  {
    var d := WithModeration(Append(db, record), i, Judged(record.verdict));
    forall j | j in d.deliveries && j != i
      ensures Follows(d, j)
    {
      assert Follows(db, j);
      var k :| k in db.intents && TracedTo(db, j, k);
      assert TracedTo(d, j, k);
    }
  }

  /** The access intent for a new image record is accepted, and brings its image back in line. */
  lemma AccessCatchesUp(db: Db, from: RecordId, stale: set<ImageId>, i: ImageId, previous: Moderation, now: Time)
    requires InStep(db, from, stale) && from < |db.records| && db.records[from].target == OfImage(i)
    requires db.images[i].moderation == Judged(db.records[from].verdict)
    ensures var v := db.records[from].verdict;
      var next := Access(db, i, from, v.Pass?, PurgeRequired(v.Pass?, previous), now);
      && next.Some? && InStep(next.value, from + 1, stale - {i})
      && next.value == db.(intents := next.value.intents, nextIntent := next.value.nextIntent,
                           deliveries := next.value.deliveries)
  {
    var v := db.records[from].verdict;
    var next := Access(db, i, from, v.Pass?, PurgeRequired(v.Pass?, previous), now).value;
    forall j | j in next.deliveries && j !in stale - {i}
      ensures Follows(next, j)
    {
      if j == i {
        assert TracedTo(next, i, from);
      } else {
        assert Follows(db, j);
        var k :| k in db.intents && TracedTo(db, j, k);
        assert TracedTo(next, j, k);
      }
    }
  }

  /** A record about an image, with all it causes, is never refused and keeps the invariant. */
  lemma JudgeKeeps(db: Db, i: ImageId, record: Record, posts: set<PostId>, now: Time)
    requires Consistent(db) && i in db.images && record.target == OfImage(i)
    ensures var after := Judge(db, i, record, posts, now);
      && after.Some? && Consistent(after.value)
      && after.value.records == db.records + [record]
      && after.value.images == db.images[i := db.images[i].(moderation := Judged(record.verdict))]
      && after.value.posts == Reconciled(WithModeration(Append(db, record), i, Judged(record.verdict)), posts).posts
  {
    VerdictLeavesOneBehind(db, i, record);
    var judged := WithModeration(Append(db, record), i, Judged(record.verdict));
    PostsAreIrrelevant(judged, Reconciled(judged, posts), |db.records|, {i});
    AccessCatchesUp(Reconciled(judged, posts), |db.records|, {i}, i, db.images[i].moderation, now);
    assert {i} - {i} == {};
  }

  lemma ReconcileNone(db: Db)
    ensures Reconciled(db, {}) == db
  {
    assert Reconciled(db, {}).posts == db.posts;
  }

  function Stamped(images: map<ImageId, Image>, ids: seq<ImageId>, verdict: Verdict): (r: map<ImageId, Image>)
    ensures r.Keys == images.Keys
  {
    map i | i in images :: if i in ids then images[i].(moderation := Judged(verdict)) else images[i]
  }

  lemma StampedCons(images: map<ImageId, Image>, i: ImageId, rest: seq<ImageId>, verdict: Verdict)
    ensures i in images ==>
      Stamped(images[i := images[i].(moderation := Judged(verdict))], rest, verdict) ==
        Stamped(images, [i] + rest, verdict)
    ensures i !in images ==> Stamped(images, rest, verdict) == Stamped(images, [i] + rest, verdict)
  {
  }

  // Only image records of one provider without a job number are added.
  ghost predicate AddsOnly(a: seq<Record>, b: seq<Record>, provider: Provider) {
    && a <= b
    && forall k :: |a| <= k < |b| ==>
         b[k].target.OfImage? && b[k].provider == provider && b[k].job.None? && b[k].supersedes.None?
  }

  lemma AddsOneMore(a: seq<Record>, record: Record, b: seq<Record>, provider: Provider)
    requires AddsOnly(a + [record], b, provider)
    requires record.target.OfImage? && record.provider == provider && record.job.None? && record.supersedes.None?
    ensures AddsOnly(a, b, provider)
  {
    assert b[|a|] == (a + [record])[|a|];
  }

  lemma {:induction false} JudgeEachKeeps(db: Db, ids: seq<ImageId>, provider: Provider, verdict: Verdict, now: Time)
    requires Consistent(db)
    ensures var after := JudgeEach(db, ids, provider, verdict, now);
      && after.Some? && Consistent(after.value)
      && after.value.posts == db.posts
      && after.value.images == Stamped(db.images, ids, verdict)
      && AddsOnly(db.records, after.value.records, provider)
    decreases |ids|
  {
    if ids == [] {
      assert Stamped(db.images, ids, verdict) == db.images;
    } else {
      StampedCons(db.images, ids[0], ids[1..], verdict);
      assert ids == [ids[0]] + ids[1..];
      if ids[0] in db.images {
        var next := JudgeOne(db, ids[0], provider, verdict, now);
        JudgeEachKeeps(next, ids[1..], provider, verdict, now);
        var after := JudgeEach(next, ids[1..], provider, verdict, now).value;
        AddsOneMore(db.records, Record(OfImage(ids[0]), provider, None, verdict, None, now), after.records, provider);
      } else {
        JudgeEachKeeps(db, ids[1..], provider, verdict, now);
      }
    }
  }

  lemma JudgeOne(db: Db, i: ImageId, provider: Provider, verdict: Verdict, now: Time) returns (next: Db)
    requires Consistent(db) && i in db.images
    ensures var record := Record(OfImage(i), provider, None, verdict, None, now);
      && Judge(db, i, record, {}, now) == Some(next)
      && Consistent(next) && next.posts == db.posts && next.records == db.records + [record]
      && next.images == db.images[i := db.images[i].(moderation := Judged(verdict))]
  {
    var record := Record(OfImage(i), provider, None, verdict, None, now);
    JudgeKeeps(db, i, record, {}, now);
    ReconcileNone(WithModeration(Append(db, record), i, Judged(verdict)));
    next := Judge(db, i, record, {}, now).value;
  }

  // Every record from `from` on carries the verdict, and its image shows it.
  ghost predicate Decided(db: Db, from: RecordId, verdict: Verdict, before: map<ImageId, Image>) {
    forall k :: from <= k < |db.records| ==>
      && db.records[k].verdict == verdict
      && (db.records[k].target.OfImage? ==>
            && HasModeration(db.images, db.records[k].target.image, Judged(verdict))
            && db.records[k].target.image in before)
  }

  ghost predicate Covered(db: Db, from: RecordId, stale: set<ImageId>) {
    forall i :: i in stale ==> exists k :: from <= k < |db.records| && db.records[k].target == OfImage(i)
  }

  lemma CoveredNext(db: Db, from: RecordId, stale: set<ImageId>)
    requires from < |db.records| && Covered(db, from, stale)
    ensures var target := db.records[from].target;
      Covered(db, from + 1, if target.OfImage? then stale - {target.image} else stale)
  {
    var rest := if db.records[from].target.OfImage? then stale - {db.records[from].target.image} else stale;
    forall i | i in rest
      ensures exists k :: from + 1 <= k < |db.records| && db.records[k].target == OfImage(i)
    {
      var k :| from <= k < |db.records| && db.records[k].target == OfImage(i);
      assert k != from;
    }
  }

  lemma TextRecordHasNoIntent(db: Db, from: RecordId, stale: set<ImageId>)
    requires InStep(db, from, stale) && from < |db.records| && db.records[from].target.PostText?
    ensures InStep(db, from + 1, stale)
  {
  }

  /** The intents of a whole-post review are all accepted and leave no image behind. */
  lemma {:induction false} AccessFromKeeps(
    db: Db, from: RecordId, stale: set<ImageId>, verdict: Verdict, before: map<ImageId, Image>, now: Time)
    requires InStep(db, from, stale) && from <= |db.records|
    requires Decided(db, from, verdict, before) && Covered(db, from, stale)
    ensures var after := AccessFrom(db, from, verdict, before, now);
      && after.Some? && Consistent(after.value)
      && after.value.posts == db.posts && after.value.records == db.records && after.value.images == db.images
    decreases |db.records| - from
  {
    if from == |db.records| {
      assert stale == {};
    } else {
      var next, rest := AccessNext(db, from, stale, verdict, before, now);
      AccessFromKeeps(next, from + 1, rest, verdict, before, now);
    }
  }

  lemma AccessNext(
    db: Db, from: RecordId, stale: set<ImageId>, verdict: Verdict, before: map<ImageId, Image>, now: Time)
    returns (next: Db, rest: set<ImageId>)
    requires InStep(db, from, stale) && from < |db.records|
    requires Decided(db, from, verdict, before) && Covered(db, from, stale)
    ensures InStep(next, from + 1, rest) && Decided(next, from + 1, verdict, before) && Covered(next, from + 1, rest)
    ensures next.posts == db.posts && next.records == db.records && next.images == db.images
    ensures AccessFrom(db, from, verdict, before, now) == AccessFrom(next, from + 1, verdict, before, now)
  {
    CoveredNext(db, from, stale);
    next, rest := db, stale;
    match db.records[from].target {
      case PostText(_, _) => TextRecordHasNoIntent(db, from, stale);
      case OfImage(i) =>
        AccessCatchesUp(db, from, stale, i, before[i].moderation, now);
        next := Access(db, i, from, verdict.Pass?, PurgeRequired(verdict.Pass?, before[i].moderation), now).value;
        rest := stale - {i};
    }
    SameTablesDecided(db, next, from + 1, verdict, before, rest);
  }

  lemma SameTablesDecided(
    a: Db, b: Db, from: RecordId, verdict: Verdict, before: map<ImageId, Image>, stale: set<ImageId>)
    requires a.records == b.records && a.images == b.images && Covered(a, from, stale)
    requires from > 0 && Decided(a, from - 1, verdict, before)
    ensures Decided(b, from, verdict, before) && Covered(b, from, stale)
  {
  }

  /** The records a whole-post review adds: one manual record for each chosen one, in their order. */
  lemma ManualRecordAt(db: Db, p: PostId, verdict: Verdict, now: Time, n: nat)
    requires p in db.posts && n < |Ascending(ChosenOf(db, p))|
    ensures var k := Ascending(ChosenOf(db, p))[n];
      var d := PostJudged(db, p, verdict, now);
      && k in ChosenOf(db, p)
      && |d.records| == |db.records| + |ChosenOf(db, p)|
      && d.records[|db.records| + n] == ManualOf(db.records[k], k, verdict, now)
  {
    assert Ascending(ChosenOf(db, p))[n] in Ascending(ChosenOf(db, p));
  }

  lemma ChosenImage(db: Db, p: PostId, c: RecordId)
    requires p in db.posts && c in ChosenOf(db, p) && db.records[c].target.OfImage?
    ensures db.records[c].target.image in db.images
    ensures db.records[c].target.image in ImagesOf(db.records, ChosenOf(db, p))
  {
  }

  lemma PostRecordIsDecided(db: Db, p: PostId, verdict: Verdict, now: Time, n: nat)
    requires p in db.posts && n < |Ascending(ChosenOf(db, p))|
    ensures var d, k := PostJudged(db, p, verdict, now), |db.records| + n;
      && k < |d.records| && d.records[k].verdict == verdict
      && (d.records[k].target.OfImage? ==>
            && HasModeration(d.images, d.records[k].target.image, Judged(verdict))
            && d.records[k].target.image in db.images)
  {
    ManualRecordAt(db, p, verdict, now, n);
    var c := Ascending(ChosenOf(db, p))[n];
    if db.records[c].target.OfImage? { ChosenImage(db, p, c); }
  }

  lemma PostJudgedIsDecided(db: Db, p: PostId, verdict: Verdict, now: Time)
    requires Consistent(db) && p in db.posts
    ensures Decided(PostJudged(db, p, verdict, now), |db.records|, verdict, db.images)
  {
    var d := PostJudged(db, p, verdict, now);
    forall k | |db.records| <= k < |d.records|
      ensures d.records[k].verdict == verdict
      ensures d.records[k].target.OfImage? ==>
        HasModeration(d.images, d.records[k].target.image, Judged(verdict)) && d.records[k].target.image in db.images
    {
      PostRecordIsDecided(db, p, verdict, now, k - |db.records|);
    }
  }

  lemma PostJudgedIsCovered(db: Db, p: PostId, verdict: Verdict, now: Time)
    requires p in db.posts
    ensures Covered(PostJudged(db, p, verdict, now), |db.records|, ImagesOf(db.records, ChosenOf(db, p)))
  {
    var d := PostJudged(db, p, verdict, now);
    var ids := Ascending(ChosenOf(db, p));
    forall i | i in ImagesOf(db.records, ChosenOf(db, p))
      ensures exists k :: |db.records| <= k < |d.records| && d.records[k].target == OfImage(i)
    {
      var c :| c in ChosenOf(db, p) && db.records[c].target == OfImage(i);
      assert c in ids;
      var n :| 0 <= n < |ids| && ids[n] == c;
      ManualRecordAt(db, p, verdict, now, n);
      assert d.records[|db.records| + n].target == OfImage(i);
    }
  }

  // New records at the end and new verdicts for some images leave exactly those images behind.
  lemma MoreVerdicts(db: Db, d: Db, touched: set<ImageId>)
    requires Consistent(db)
    requires d == db.(records := d.records, images := d.images)
    requires db.records <= d.records && d.images.Keys == db.images.Keys && touched <= db.images.Keys
    requires forall i :: i in db.images && i !in touched ==> d.images[i] == db.images[i]
    requires forall k :: |db.records| <= k < |d.records| && d.records[k].target.OfImage? ==>
      d.records[k].target.image in db.images
    ensures InStep(d, |db.records|, touched)
  {
    forall i | i in d.deliveries && i !in touched
      ensures Follows(d, i)
    {
      assert Follows(db, i);
      var k :| k in db.intents && TracedTo(db, i, k);
      assert TracedTo(d, i, k);
    }
  }

  /** Before its intents are written, a whole-post review leaves exactly the images it decided behind. */
  lemma PostJudgedLeavesTouched(db: Db, p: PostId, verdict: Verdict, now: Time)
    requires Consistent(db) && p in db.posts
    ensures InStep(PostJudged(db, p, verdict, now), |db.records|, ImagesOf(db.records, ChosenOf(db, p)))
  {
    PostJudgedIsDecided(db, p, verdict, now);
    MoreVerdicts(db, PostJudged(db, p, verdict, now), ImagesOf(db.records, ChosenOf(db, p)));
  }

  lemma DecidedIgnoresPosts(
    a: Db, b: Db, from: RecordId, verdict: Verdict, before: map<ImageId, Image>, stale: set<ImageId>)
    requires Decided(a, from, verdict, before) && Covered(a, from, stale) && a.records == b.records
    requires a.images == b.images
    ensures Decided(b, from, verdict, before) && Covered(b, from, stale)
  {
  }

  lemma ReviewPostAccepted(db: Db, p: PostId, verdict: Verdict, now: Time) returns (after: Db)
    requires Consistent(db) && p in db.posts
    ensures var judged := Reconciled(PostJudged(db, p, verdict, now), PostsTouched(db, p));
      && AccessFrom(judged, |db.records|, verdict, db.images, now) == Some(after)
      && Consistent(after)
      && after.posts == judged.posts && after.images == judged.images && after.records == judged.records
  {
    PostJudgedLeavesTouched(db, p, verdict, now);
    PostJudgedIsDecided(db, p, verdict, now);
    PostJudgedIsCovered(db, p, verdict, now);
    var touched := ImagesOf(db.records, ChosenOf(db, p));
    var decided := PostJudged(db, p, verdict, now);
    var judged := Reconciled(decided, PostsTouched(db, p));
    PostsAreIrrelevant(decided, judged, |db.records|, touched);
    DecidedIgnoresPosts(decided, judged, |db.records|, verdict, db.images, touched);
    AccessFromKeeps(judged, |db.records|, touched, verdict, db.images, now);
    after := AccessFrom(judged, |db.records|, verdict, db.images, now).value;
  }

  lemma ReviewPostKeeps(db: Db, p: PostId, reviewer: UserId, verdict: Verdict, now: Time)
    requires Consistent(db)
    ensures var (after, reply) := ManualReviewPost(db, p, reviewer, verdict, now);
      && Consistent(after) && reply != Err(Internal)
      && (reply.Err? ==> after == db)
      && (reply.Ok? ==>
            var judged := Reconciled(PostJudged(db, p, verdict, now), PostsTouched(db, p));
            after.posts == judged.posts && after.images == judged.images && after.records == judged.records)
  {
    var (after, reply) := ManualReviewPost(db, p, reviewer, verdict, now);
    if reply.Ok? || reply == Err(Internal) {
      var done := ReviewPostAccepted(db, p, verdict, now);
    }
  }

  /** The tables a duplicate callback finds already hold its intent, so it changes nothing at all. */
  lemma DuplicateChangesNothing(db: Db, cb: Callback, requireJob: bool, now: Time)
    requires Consistent(db)
    requires cb.job.Some? && JobRecorded(db.records, Machine(cb.provider), cb.job.value)
    ensures ApplyImageResult(db, cb, requireJob, now).0 == db
  {
  }

  lemma ReceiveKeeps(db: Db, cb: Callback, requireJob: bool, now: Time)
    requires Consistent(db)
    ensures Consistent(ApplyImageResult(db, cb, requireJob, now).0)
    ensures ApplyImageResult(db, cb, requireJob, now).1 != Err(Internal)
  {
    if cb.job.Some? && JobRecorded(db.records, Machine(cb.provider), cb.job.value) {
      DuplicateChangesNothing(db, cb, requireJob, now);
    } else if cb.image in db.images {
      JudgeKeeps(db, cb.image, CallbackRecord(cb, now), PendingPostsWith(db, {cb.image}), now);
    }
  }

  /** A text record has no intent and no effect on images. */
  lemma TextRecordKeeps(db: Db, record: Record)
    requires Consistent(db) && record.target.PostText?
    ensures Consistent(Append(db, record))
  {
    var d := Append(db, record);
    forall i | i in d.deliveries
      ensures Follows(d, i)
    {
      assert Follows(db, i);
      var k :| k in db.intents && TracedTo(db, i, k);
      assert TracedTo(d, i, k);
    }
  }

  lemma RestoreImagesKeeps(db: Db, used: set<ImageId>, now: Time) returns (restored: Db)
    requires Consistent(db)
    ensures RestoreImages(db, used, now) == Some(restored) && Consistent(restored)
    ensures restored.posts == db.posts && AddsOnly(db.records, restored.records, AdminRestore)
    ensures restored.images == Stamped(db.images, Ascending(Restorable(db, used)), Pass)
  {
    JudgeEachKeeps(db, Ascending(Restorable(db, used)), AdminRestore, Pass, now);
    restored := RestoreImages(db, used, now).value;
  }

  /** Any change of posts together with at most one new text record keeps the invariant. */
  lemma PostWriteKeeps(a: Db, b: Db, record: Record)
    requires Consistent(a) && record.target.PostText?
    requires b == a.(posts := b.posts) || b == Append(a.(posts := b.posts), record)
    ensures Consistent(b)
  {
    var moved := a.(posts := b.posts);
    PostsAreIrrelevant(a, moved, |a.records|, {});
    TextRecordKeeps(moved, record);
  }

  lemma SaveKeeps(db: Db, p: PostId, author: UserId, used: set<ImageId>, publish: bool, review: TextReview, now: Time)
    requires Consistent(db)
    ensures Consistent(SavePost(db, p, author, used, publish, review, now).0)
  {
    var after := SavePost(db, p, author, used, publish, review, now).0;
    if after != db {
      PostWriteKeeps(db, after, TextRecord(p, after.posts[p].revision, review, now));
    }
  }

  // What a step on a post may leave behind, seen from the tables `base` it started to write on.
  ghost predicate PostWrite(db: Db, base: Db, after: Db, record: Record) {
    after == db || after == base.(posts := after.posts) || after == Append(base.(posts := after.posts), record)
  }

  lemma HistoryShape(
    db: Db, restored: Db, p: PostId, revision: nat, used: set<ImageId>, review: TextReview, now: Time)
    requires p in db.posts
    ensures PostWrite(db, restored, HistoryWith(db, restored, p, revision, used, review, now).0,
                      TextRecord(p, revision, review, now))
  {
  }

  lemma HistoryBaseKeeps(db: Db, p: PostId, used: set<ImageId>, now: Time) returns (restored: Db)
    requires Consistent(db) && p in db.posts
    ensures HistoryBase(db, p, used, now) == Some(restored) && Consistent(restored)
    ensures restored.posts == db.posts && AddsOnly(db.records, restored.records, AdminRestore)
    ensures restored.images ==
      if Live(db.posts[p]) then db.images else Stamped(db.images, Ascending(Restorable(db, used)), Pass)
  {
    restored := RestoreImagesKeeps(db, used, now);
    if Live(db.posts[p]) { restored := db; }
  }

  // A history restore either changes nothing or is its second half on the restored images.
  lemma HistoryIs(db: Db, p: PostId, actor: UserId, revision: nat, used: set<ImageId>, review: TextReview, now: Time)
    returns (restored: Db)
    requires Consistent(db) && p in db.posts
    ensures var after := RestoreHistory(db, p, actor, revision, used, review, now).0;
      after == db || after == HistoryWith(db, restored, p, revision, used, review, now).0
    ensures Consistent(restored) && restored.posts == db.posts && AddsOnly(db.records, restored.records, AdminRestore)
    ensures restored.images ==
      if Live(db.posts[p]) then db.images else Stamped(db.images, Ascending(Restorable(db, used)), Pass)
  {
    restored := HistoryBaseKeeps(db, p, used, now);
    HistoryCases(db, p, actor, revision, used, review, now, restored);
  }

  lemma HistoryCases(
    db: Db, p: PostId, actor: UserId, revision: nat, used: set<ImageId>, review: TextReview, now: Time, restored: Db)
    requires p in db.posts && HistoryBase(db, p, used, now) == Some(restored)
    ensures var after := RestoreHistory(db, p, actor, revision, used, review, now).0;
      after == db || after == HistoryWith(db, restored, p, revision, used, review, now).0
  {
  }

  lemma HistoryKeeps(db: Db, p: PostId, actor: UserId, revision: nat, used: set<ImageId>, review: TextReview, now: Time)
    requires Consistent(db)
    ensures Consistent(RestoreHistory(db, p, actor, revision, used, review, now).0)
  {
    if p in db.posts {
      var restored := HistoryIs(db, p, actor, revision, used, review, now);
      HistoryShape(db, restored, p, revision, used, review, now);
      PostStepKeeps(db, restored, HistoryWith(db, restored, p, revision, used, review, now).0,
                    TextRecord(p, revision, review, now));
    }
  }

  lemma PostStepKeeps(db: Db, base: Db, after: Db, record: Record)
    requires Consistent(db) && Consistent(base) && record.target.PostText? && PostWrite(db, base, after, record)
    ensures Consistent(after)
  {
    if after != db { PostWriteKeeps(base, after, record); }
  }

  /** Deleting a post hides it and blocks the images it leaves without a live user. */
  lemma DeleteIs(db: Db, p: PostId, actor: UserId, admin: bool, now: Time) returns (gone: Db)
    requires Consistent(db) && p in db.posts
    ensures gone == Deleted(db, p, Some(if db.posts[p].author == actor then ByAuthor else ByAdmin))
    ensures var (after, reply) := DeletePost(db, p, actor, admin, now);
      && Consistent(after) && reply != Err(Internal)
      && (reply.Err? ==> after == db)
      && (reply.Ok? ==>
            && after.posts == gone.posts
            && after.images == Stamped(db.images, Ascending(ToBlock(gone, db.posts[p].images)), Block)
            && AddsOnly(db.records, after.records, AdminPostDelete))
  {
    gone := Deleted(db, p, Some(if db.posts[p].author == actor then ByAuthor else ByAdmin));
    PostsAreIrrelevant(db, gone, |db.records|, {});
    JudgeEachKeeps(gone, Ascending(ToBlock(gone, db.posts[p].images)), AdminPostDelete, Block, now);
  }

  lemma RestoreShape(db: Db, restored: Db, p: PostId, now: Time)
    requires p in db.posts
    ensures var (after, reply) := RestoreWith(db, restored, p, now);
      PostWrite(db, restored, after, RestoreRecord(p, db.posts[p].revision, now)) && reply != Err(Internal)
  {
  }

  lemma RestoreKeeps(db: Db, p: PostId, actor: UserId, now: Time)
    requires Consistent(db)
    ensures Consistent(RestorePost(db, p, actor, now).0)
    ensures RestorePost(db, p, actor, now).1 != Err(Internal)
  {
    if p in db.posts {
      var restored := RestoreImagesKeeps(db, db.posts[p].images, now);
      RestoreShape(db, restored, p, now);
      PostStepKeeps(db, restored, RestoreWith(db, restored, p, now).0, RestoreRecord(p, db.posts[p].revision, now));
    }
  }

  // A single review either changes nothing or is the judgement of its image.
  lemma ManualReviewCases(db: Db, id: RecordId, reviewer: UserId, verdict: Verdict, now: Time)
    ensures var (after, reply) := ManualReview(db, id, reviewer, verdict, now);
      if reply.Err? then after == db
      else
        && id < |db.records| && db.records[id].target.OfImage? && db.records[id].target.image in db.images
        && var i := db.records[id].target.image;
           Judge(db, i, ManualOf(db.records[id], id, verdict, now), PendingPostsWith(db, {i}), now) == Some(after)
  {
  }

  lemma ReviewKeeps(db: Db, id: RecordId, reviewer: UserId, verdict: Verdict, now: Time)
    requires Consistent(db)
    ensures Consistent(ManualReview(db, id, reviewer, verdict, now).0)
    ensures ManualReview(db, id, reviewer, verdict, now).1 != Err(Internal)
  {
    if id < |db.records| && db.records[id].target.OfImage? {
      var i := db.records[id].target.image;
      JudgeKeeps(db, i, ManualOf(db.records[id], id, verdict, now), PendingPostsWith(db, {i}), now);
    }
  }

  // Changes that keep every verdict and every column an intent sets.
  ghost predicate SameVerdicts(a: Db, b: Db) {
    && a.records == b.records && a.intents == b.intents
    && a.images.Keys <= b.images.Keys && a.deliveries.Keys == b.deliveries.Keys
    && (forall i :: i in a.images ==> a.images[i].moderation == b.images[i].moderation)
    && (forall i :: i in b.images && i !in a.images ==> b.images[i].moderation.Unjudged?)
    && (forall i :: i in a.deliveries ==>
          && a.deliveries[i].intent == b.deliveries[i].intent
          && a.deliveries[i].desiredPublic == b.deliveries[i].desiredPublic
          && a.deliveries[i].purgeRequired == b.deliveries[i].purgeRequired)
  }

  lemma OtherWritesKeep(a: Db, b: Db)
    requires Consistent(a) && SameVerdicts(a, b)
    ensures Consistent(b)
  {
    forall i | i in b.deliveries
      ensures Follows(b, i)
    {
      assert Follows(a, i);
      var k :| k in a.intents && TracedTo(a, i, k);
      assert TracedTo(b, i, k);
    }
  }

  lemma UploadKeeps(db: Db, i: ImageId, key: nat, uploaded: bool)
    requires Consistent(db)
    ensures Consistent(NewUpload(db, i, key)) && Consistent(UploadState(db, i, uploaded))
  {
    OtherWritesKeep(db, NewUpload(db, i, key));
    OtherWritesKeep(db, UploadState(db, i, uploaded));
  }

  lemma RewrittenKeepsTarget(row: Delivery, w: DeliveryWrite)
    ensures var r := Rewritten(row, w);
      r.intent == row.intent && r.desiredPublic == row.desiredPublic && r.purgeRequired == row.purgeRequired
  {
  }

  lemma WorkKeeps(db: Db, i: ImageId, w: DeliveryWrite)
    requires Consistent(db)
    ensures Consistent(Worked(db, i, w))
  {
    if i in db.deliveries {
      RewrittenKeepsTarget(db.deliveries[i], w);
      RowRewritten(db, i, Rewritten(db.deliveries[i], w));
    }
  }

  lemma RowRewritten(db: Db, i: ImageId, row: Delivery)
    requires Consistent(db) && i in db.deliveries
    requires row.intent == db.deliveries[i].intent && row.desiredPublic == db.deliveries[i].desiredPublic
    requires row.purgeRequired == db.deliveries[i].purgeRequired
    ensures Consistent(db.(deliveries := db.deliveries[i := row]))
  {
    OtherWritesKeep(db, db.(deliveries := db.deliveries[i := row]));
  }

  lemma StepKeeps(db: Db, e: Event)
    requires Consistent(db)
    ensures Consistent(Step(db, e))
  {
    match e
    case Upload(i, key) => UploadKeeps(db, i, key, true);
    case SetUploaded(i, uploaded) => UploadKeeps(db, i, 0, uploaded);
    case Work(i, w) => WorkKeeps(db, i, w);
    case Save(p, author, used, publish, review, now) => SaveKeeps(db, p, author, used, publish, review, now);
    case History(p, actor, revision, used, review, now) => HistoryKeeps(db, p, actor, revision, used, review, now);
    case Receive(cb, requireJob, now) => ReceiveKeeps(db, cb, requireJob, now);
    case ReviewRecord(id, reviewer, verdict, now) => ReviewKeeps(db, id, reviewer, verdict, now);
    case ReviewPost(p, reviewer, verdict, now) => ReviewPostKeeps(db, p, reviewer, verdict, now);
    case Delete(p, actor, admin, now) =>
      if p in db.posts { var gone := DeleteIs(db, p, actor, admin, now); }
    case Restore(p, actor, now) => RestoreKeeps(db, p, actor, now);
  }

  lemma {:induction false} RunConsistent(events: seq<Event>)
    ensures Consistent(Run(EMPTY, events))
  {
    if events == [] {
    } else {
      RunConsistent(events[..|events| - 1]);
      StepKeeps(Run(EMPTY, events[..|events| - 1]), events[|events| - 1]);
    }
  }

  /**
   * In every reachable state, every image with a verdict has a delivery row, and every row wants the object public
   * exactly when the image passed, purges a private one, and carries the intent of a record with that verdict.
   */
  lemma IntentFollowsVerdict(events: seq<Event>, i: ImageId)
    requires var db := Run(EMPTY, events);
      i in db.deliveries || (i in db.images && db.images[i].moderation.Judged?)
    ensures var db := Run(EMPTY, events);
      && i in db.deliveries && i in db.images
      && (db.deliveries[i].desiredPublic <==> db.images[i].moderation == Judged(Pass))
      && (!db.deliveries[i].desiredPublic ==> db.deliveries[i].purgeRequired)
      && exists k :: k in db.intents && TracedTo(db, i, k)
  {
    RunConsistent(events);
    assert Follows(Run(EMPTY, events), i);
  }
}
