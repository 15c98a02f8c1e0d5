/** Which verdicts purge the caches: those that hide an image, and those that show one that was hidden. */
module ModerationPurge {
  import opened Common
  import opened ImageAccessRow
  import opened ImageAccessOutbox
  import opened ModerationState
  import opened ModerationOperations
  import opened ModerationAccess
  import ModerationAggregate
  import ModerationIntakes

  /** The image was judged and not passed, so an error response may be cached for it. */
  predicate Hidden(m: Moderation) { m == Judged(Block) || m == Judged(Review) }

  predicate SameTarget(a: Delivery, b: Delivery) {
    a.intent == b.intent && a.desiredPublic == b.desiredPublic && a.purgeRequired == b.purgeRequired
  }

  /** The row carries the intent of record k, which purges exactly if it hides the image or the image was hidden. */
  predicate PurgedFor(
    row: Delivery, records: seq<Record>, intents: map<RecordId, Intent>, k: RecordId, i: ImageId, before: Moderation)
  {
    && k < |records| && records[k].target == OfImage(i) && k in intents && intents[k].id == row.intent
    && (row.purgeRequired <==> records[k].verdict != Pass || Hidden(before))
  }

  /** After a change, the row of i is as before or that of a new record, judged by the moderation before the change. */
  ghost predicate Caused(a: Db, b: Db, ids: set<ImageId>, i: ImageId)
    requires i in b.deliveries
  {
    || (i in a.deliveries && SameTarget(a.deliveries[i], b.deliveries[i]))
    || (i in ids && i in a.images
        && exists k ::
             |a.records| <= k && PurgedFor(b.deliveries[i], b.records, b.intents, k, i, a.images[i].moderation))
  }

  predicate IntentsGrow(a: map<RecordId, Intent>, b: map<RecordId, Intent>) {
    forall k :: k in a ==> k in b && b[k] == a[k]
  }

  /** No two records share an intent, and the next one is new. */
  ghost predicate Numbered(db: Db) {
    && (forall k :: k in db.intents ==> db.intents[k].id < db.nextIntent)
    && (forall j, k :: j in db.intents && k in db.intents && db.intents[j].id == db.intents[k].id ==> j == k)
  }

  ghost predicate Causes(a: Db, b: Db, ids: set<ImageId>) {
    && a.records <= b.records && IntentsGrow(a.intents, b.intents) && (Numbered(a) ==> Numbered(b))
    && forall i :: i in b.deliveries ==> Caused(a, b, ids, i)
  }

  lemma CausesNothing(a: Db, b: Db, ids: set<ImageId>)
    requires a.records <= b.records && a.intents == b.intents && a.nextIntent == b.nextIntent
    requires a.deliveries == b.deliveries
    ensures Causes(a, b, ids)
  {
  }

  // One judged image.
  lemma JudgeCauses(db: Db, i: ImageId, record: Record, posts: set<PostId>, now: Time)
    requires i in db.images && record.target == OfImage(i) && Judge(db, i, record, posts, now).Some?
    ensures Causes(db, Judge(db, i, record, posts, now).value, {i})
    ensures var after := Judge(db, i, record, posts, now).value;
      && after.images.Keys == db.images.Keys
      && forall j :: j in db.images && j != i ==> after.images[j] == db.images[j]
  {
    var after := Judge(db, i, record, posts, now).value;
    forall j | j in after.deliveries
      ensures Caused(db, after, {i}, j)
    {
      if j == i && |db.records| !in db.intents {
        assert PurgedFor(after.deliveries[i], after.records, after.intents, |db.records|, i, db.images[i].moderation);
      }
    }
  }

  lemma CausesThen(a: Db, b: Db, c: Db, first: set<ImageId>, rest: set<ImageId>)
    requires Causes(a, b, first) && Causes(b, c, rest) && b.images.Keys == a.images.Keys
    requires forall i :: i in rest && i in a.images ==> b.images[i].moderation == a.images[i].moderation
    ensures Causes(a, c, first + rest)
  {
    forall i | i in c.deliveries
      ensures Caused(a, c, first + rest, i)
    {
      assert Caused(b, c, rest, i);
      if i in b.deliveries && SameTarget(b.deliveries[i], c.deliveries[i]) {
        assert Caused(a, b, first, i);
        if !(i in a.deliveries && SameTarget(a.deliveries[i], b.deliveries[i])) {
          var k :| |a.records| <= k && PurgedFor(b.deliveries[i], b.records, b.intents, k, i, a.images[i].moderation);
          assert PurgedFor(c.deliveries[i], c.records, c.intents, k, i, a.images[i].moderation);
        }
      } else {
        var k :| |b.records| <= k && PurgedFor(c.deliveries[i], c.records, c.intents, k, i, b.images[i].moderation);
        assert PurgedFor(c.deliveries[i], c.records, c.intents, k, i, a.images[i].moderation);
      }
    }
  }

  function Members(ids: seq<ImageId>): set<ImageId> { set i | i in ids }

  lemma {:induction false} JudgeEachCauses(db: Db, ids: seq<ImageId>, provider: Provider, verdict: Verdict, now: Time)
    requires JudgeEach(db, ids, provider, verdict, now).Some? && Ascends(ids)
    ensures var after := JudgeEach(db, ids, provider, verdict, now).value;
      Causes(db, after, Members(ids)) && after.images.Keys == db.images.Keys
    decreases |ids|
  {
    if ids == [] {
      CausesNothing(db, db, Members(ids));
    } else {
      TailMembers(ids);
      assert Members(ids) == {ids[0]} + Members(ids[1..]);
      var after := JudgeEach(db, ids, provider, verdict, now).value;
      if ids[0] !in db.images {
        JudgeEachCauses(db, ids[1..], provider, verdict, now);
        CausesMore(db, after, Members(ids[1..]), Members(ids));
      } else {
        var record := Record(OfImage(ids[0]), provider, None, verdict, None, now);
        JudgeCauses(db, ids[0], record, {}, now);
        var next := Judge(db, ids[0], record, {}, now).value;
        JudgeEachCauses(next, ids[1..], provider, verdict, now);
        CausesThen(db, next, after, {ids[0]}, Members(ids[1..]));
      }
    }
  }

  lemma CausesMore(a: Db, b: Db, ids: set<ImageId>, more: set<ImageId>)
    requires Causes(a, b, ids) && ids <= more
    ensures Causes(a, b, more)
  {
    forall i | i in b.deliveries
      ensures Caused(a, b, more, i)
    {
      assert Caused(a, b, ids, i);
    }
  }

  // The intents of a whole-post review all look at the moderation before it.
  ghost predicate CausedFrom(a: Db, b: Db, from: RecordId, before: map<ImageId, Image>, i: ImageId)
    requires i in b.deliveries
  {
    || (i in a.deliveries && SameTarget(a.deliveries[i], b.deliveries[i]))
    || (i in before
        && exists k :: from <= k && PurgedFor(b.deliveries[i], b.records, b.intents, k, i, before[i].moderation))
  }

  ghost predicate CausesFrom(a: Db, b: Db, from: RecordId, before: map<ImageId, Image>) {
    && b.records == a.records && IntentsGrow(a.intents, b.intents) && (Numbered(a) ==> Numbered(b))
    && forall i :: i in b.deliveries ==> CausedFrom(a, b, from, before, i)
  }

  lemma OneAccess(db: Db, i: ImageId, from: RecordId, verdict: Verdict, before: map<ImageId, Image>, now: Time)
    requires from < |db.records| && db.records[from].target == OfImage(i) && i in before
    requires Access(db, i, from, verdict.Pass?, PurgeRequired(verdict.Pass?, before[i].moderation), now).Some?
    ensures var purge := PurgeRequired(verdict.Pass?, before[i].moderation);
      var after := Access(db, i, from, verdict.Pass?, purge, now).value;
      CausesFrom(db, after, from, before)
  {
    var after := Access(db, i, from, verdict.Pass?, PurgeRequired(verdict.Pass?, before[i].moderation), now).value;
    forall j | j in after.deliveries
      ensures CausedFrom(db, after, from, before, j)
    {
      if j == i && from !in db.intents {
        assert PurgedFor(after.deliveries[i], after.records, after.intents, from, i, before[i].moderation);
      }
    }
  }

  lemma CausesFromThen(a: Db, b: Db, c: Db, from: RecordId, later: RecordId, before: map<ImageId, Image>)
    requires CausesFrom(a, b, from, before) && CausesFrom(b, c, later, before) && from <= later
    ensures CausesFrom(a, c, from, before)
  {
    forall i | i in c.deliveries
      ensures CausedFrom(a, c, from, before, i)
    {
      assert CausedFrom(b, c, later, before, i);
      if i in b.deliveries && SameTarget(b.deliveries[i], c.deliveries[i]) {
        assert CausedFrom(a, b, from, before, i);
        if !(i in a.deliveries && SameTarget(a.deliveries[i], b.deliveries[i])) {
          var k :| from <= k && PurgedFor(b.deliveries[i], b.records, b.intents, k, i, before[i].moderation);
          assert PurgedFor(c.deliveries[i], c.records, c.intents, k, i, before[i].moderation);
        }
      }
    }
  }

  lemma {:induction false} AccessFromCauses(
    db: Db, from: RecordId, verdict: Verdict, before: map<ImageId, Image>, now: Time)
    requires AccessFrom(db, from, verdict, before, now).Some?
    ensures CausesFrom(db, AccessFrom(db, from, verdict, before, now).value, from, before)
    decreases |db.records| - from
  {
    if from < |db.records| {
      var target := db.records[from].target;
      if target.OfImage? && target.image in before {
        var purge := PurgeRequired(verdict.Pass?, before[target.image].moderation);
        var next := Access(db, target.image, from, verdict.Pass?, purge, now).value;
        OneAccess(db, target.image, from, verdict, before, now);
        AccessFromCauses(next, from + 1, verdict, before, now);
        CausesFromThen(db, next, AccessFrom(db, from, verdict, before, now).value, from, from + 1, before);
      } else {
        AccessFromCauses(db, from + 1, verdict, before, now);
        CausesFromThen(db, db, AccessFrom(db, from, verdict, before, now).value, from, from + 1, before);
      }
    }
  }

  lemma FromIsCaused(db: Db, judged: Db, after: Db)
    requires CausesFrom(judged, after, |db.records|, db.images)
    requires db.records <= judged.records && judged.intents == db.intents && judged.deliveries == db.deliveries
    requires judged.nextIntent == db.nextIntent
    ensures Causes(db, after, db.images.Keys)
  {
    forall i | i in after.deliveries
      ensures Caused(db, after, db.images.Keys, i)
    {
      assert CausedFrom(judged, after, |db.records|, db.images, i);
    }
  }

  // ---- Each operation ------------------------------------------------------------------

  lemma ReceiveCauses(db: Db, cb: Callback, requireJob: bool, now: Time)
    requires Consistent(db)
    ensures Causes(db, ApplyImageResult(db, cb, requireJob, now).0, db.images.Keys)
  {
    var (after, reply) := ApplyImageResult(db, cb, requireJob, now);
    if cb.job.Some? && JobRecorded(db.records, Machine(cb.provider), cb.job.value) {
      DuplicateChangesNothing(db, cb, requireJob, now);
      CausesNothing(db, after, db.images.Keys);
    } else if reply.Ok? {
      JudgeCauses(db, cb.image, CallbackRecord(cb, now), PendingPostsWith(db, {cb.image}), now);
      CausesMore(db, after, {cb.image}, db.images.Keys);
    } else {
      CausesNothing(db, after, db.images.Keys);
    }
  }

  lemma ReviewCauses(db: Db, id: RecordId, reviewer: UserId, verdict: Verdict, now: Time)
    ensures Causes(db, ManualReview(db, id, reviewer, verdict, now).0, db.images.Keys)
  {
    ManualReviewCases(db, id, reviewer, verdict, now);
    var (after, reply) := ManualReview(db, id, reviewer, verdict, now);
    if reply.Ok? {
      var i := db.records[id].target.image;
      JudgeCauses(db, i, ManualOf(db.records[id], id, verdict, now), PendingPostsWith(db, {i}), now);
      CausesMore(db, after, {i}, db.images.Keys);
    } else {
      CausesNothing(db, after, db.images.Keys);
    }
  }

  lemma ReviewedCauses(db: Db, judged: Db, after: Db, verdict: Verdict, now: Time)
    requires db.records <= judged.records && judged.intents == db.intents && judged.deliveries == db.deliveries
    requires judged.nextIntent == db.nextIntent
    requires AccessFrom(judged, |db.records|, verdict, db.images, now) == Some(after)
    ensures Causes(db, after, db.images.Keys)
  {
    AccessFromCauses(judged, |db.records|, verdict, db.images, now);
    FromIsCaused(db, judged, after);
  }

  lemma ReviewPostCauses(db: Db, p: PostId, reviewer: UserId, verdict: Verdict, now: Time)
    ensures Causes(db, ManualReviewPost(db, p, reviewer, verdict, now).0, db.images.Keys)
  {
    ModerationIntakes.ReviewPostCases(db, p, reviewer, verdict, now);
    ReviewEitherCauses(db, p, verdict, now, ManualReviewPost(db, p, reviewer, verdict, now).0,
                       ManualReviewPost(db, p, reviewer, verdict, now).1.Ok?);
  }

  lemma ReviewEitherCauses(db: Db, p: PostId, verdict: Verdict, now: Time, after: Db, done: bool)
    requires !done ==> after == db
    requires done ==> p in db.posts && AccessFrom(Reconciled(PostJudged(db, p, verdict, now), PostsTouched(db, p)),
                                                  |db.records|, verdict, db.images, now) == Some(after)
    ensures Causes(db, after, db.images.Keys)
  {
    CausesNothing(db, db, db.images.Keys);
    if done {
      JudgedPostIs(db, p, verdict, now);
      ReviewedCauses(db, Reconciled(PostJudged(db, p, verdict, now), PostsTouched(db, p)), after, verdict, now);
    }
  }

  lemma JudgedPostIs(db: Db, p: PostId, verdict: Verdict, now: Time)
    requires p in db.posts
    ensures var judged := Reconciled(PostJudged(db, p, verdict, now), PostsTouched(db, p));
      && db.records <= judged.records && judged.intents == db.intents && judged.deliveries == db.deliveries
      && judged.nextIntent == db.nextIntent
  {
  }

  lemma PostsHaveNoSay(a: Db, base: Db, b: Db, ids: set<ImageId>)
    requires base == a.(posts := base.posts) && Causes(base, b, ids)
    ensures Causes(a, b, ids)
  {
    forall i | i in b.deliveries
      ensures Caused(a, b, ids, i)
    {
      assert Caused(base, b, ids, i);
    }
  }

  lemma AdminCauses(db: Db, base: Db, used: set<ImageId>, provider: Provider, verdict: Verdict, now: Time)
    requires base == db.(posts := base.posts) && JudgeEach(base, Ascending(used), provider, verdict, now).Some?
    ensures Causes(db, JudgeEach(base, Ascending(used), provider, verdict, now).value, used)
  {
    JudgeEachCauses(base, Ascending(used), provider, verdict, now);
    assert Members(Ascending(used)) == used;
    PostsHaveNoSay(db, base, JudgeEach(base, Ascending(used), provider, verdict, now).value, used);
  }

  // Posts, and records about texts, have no say in it.
  lemma CausesBeyond(a: Db, b: Db, c: Db, ids: set<ImageId>)
    requires Causes(a, b, ids) && ids <= a.images.Keys
    requires b.records <= c.records && c.intents == b.intents && c.nextIntent == b.nextIntent
    requires c.deliveries == b.deliveries
    ensures Causes(a, c, a.images.Keys)
  {
    forall i | i in c.deliveries
      ensures Caused(a, c, a.images.Keys, i)
    {
      assert Caused(a, b, ids, i);
      if !(i in a.deliveries && SameTarget(a.deliveries[i], b.deliveries[i])) {
        var k :| |a.records| <= k && PurgedFor(b.deliveries[i], b.records, b.intents, k, i, a.images[i].moderation);
        assert PurgedFor(c.deliveries[i], c.records, c.intents, k, i, a.images[i].moderation);
      }
    }
  }

  lemma DeleteCauses(db: Db, p: PostId, actor: UserId, admin: bool, now: Time)
    ensures Causes(db, DeletePost(db, p, actor, admin, now).0, db.images.Keys)
  {
    var (after, reply) := DeletePost(db, p, actor, admin, now);
    if reply.Ok? {
      var gone := Deleted(db, p, Some(if db.posts[p].author == actor then ByAuthor else ByAdmin));
      var ids := ToBlock(gone, db.posts[p].images);
      AdminCauses(db, gone, ids, AdminPostDelete, Block, now);
      CausesMore(db, after, ids, db.images.Keys);
    } else {
      CausesNothing(db, after, db.images.Keys);
    }
  }

  lemma RestoredCauses(db: Db, used: set<ImageId>, now: Time)
    requires RestoreImages(db, used, now).Some?
    ensures Causes(db, RestoreImages(db, used, now).value, Restorable(db, used))
    ensures Restorable(db, used) <= db.images.Keys
  {
    AdminCauses(db, db, Restorable(db, used), AdminRestore, Pass, now);
  }

  lemma RestoreWithCauses(db: Db, restored: Db, p: PostId, now: Time)
    requires p in db.posts && Causes(db, restored, Restorable(db, db.posts[p].images))
    requires Restorable(db, db.posts[p].images) <= db.images.Keys
    ensures Causes(db, RestoreWith(db, restored, p, now).0, db.images.Keys)
  {
    var (after, reply) := RestoreWith(db, restored, p, now);
    if reply.Ok? { CausesBeyond(db, restored, after, Restorable(db, db.posts[p].images)); }
    else { CausesNothing(db, after, db.images.Keys); }
  }

  lemma RestoreCauses(db: Db, p: PostId, actor: UserId, now: Time)
    ensures Causes(db, RestorePost(db, p, actor, now).0, db.images.Keys)
  {
    CausesNothing(db, db, db.images.Keys);
    if p in db.posts && RestoreImages(db, db.posts[p].images, now).Some? {
      var restored := RestoreImages(db, db.posts[p].images, now).value;
      RestoredCauses(db, db.posts[p].images, now);
      RestoreWithCauses(db, restored, p, now);
      ModerationAggregate.RestoreCases(db, p, actor, now, restored);
    } else {
      ModerationIntakes.RestoreFails(db, p, actor, now);
    }
  }

  lemma HistoryWithCauses(
    db: Db, restored: Db, p: PostId, revision: nat, used: set<ImageId>, review: TextReview, now: Time,
    ids: set<ImageId>)
    requires p in db.posts && Causes(db, restored, ids) && ids <= db.images.Keys
    ensures Causes(db, HistoryWith(db, restored, p, revision, used, review, now).0, db.images.Keys)
  {
    var (after, reply) := HistoryWith(db, restored, p, revision, used, review, now);
    if reply.Ok? { CausesBeyond(db, restored, after, ids); } else { CausesNothing(db, after, db.images.Keys); }
  }

  lemma HistoryBaseCauses(db: Db, p: PostId, used: set<ImageId>, now: Time) returns (ids: set<ImageId>)
    requires p in db.posts && HistoryBase(db, p, used, now).Some?
    ensures Causes(db, HistoryBase(db, p, used, now).value, ids) && ids <= db.images.Keys
  {
    if Live(db.posts[p]) {
      ids := {};
      CausesNothing(db, db, ids);
    } else {
      ids := Restorable(db, used);
      RestoredCauses(db, used, now);
    }
  }

  lemma HistoryCauses(
    db: Db, p: PostId, actor: UserId, revision: nat, used: set<ImageId>, review: TextReview, now: Time)
    ensures Causes(db, RestoreHistory(db, p, actor, revision, used, review, now).0, db.images.Keys)
  {
    CausesNothing(db, db, db.images.Keys);
    if p in db.posts && HistoryBase(db, p, used, now).Some? {
      var restored := HistoryBase(db, p, used, now).value;
      var ids := HistoryBaseCauses(db, p, used, now);
      HistoryWithCauses(db, restored, p, revision, used, review, now, ids);
      HistoryCases(db, p, actor, revision, used, review, now, restored);
    } else {
      ModerationIntakes.HistoryFails(db, p, actor, revision, used, review, now);
    }
  }

  lemma WorkCauses(db: Db, i: ImageId, w: DeliveryWrite)
    ensures Causes(db, Worked(db, i, w), db.images.Keys)
  {
    if i in db.deliveries { RewrittenKeepsTarget(db.deliveries[i], w); }
  }

  /** Every operation: rows keep their intent, or take that of a new record judged by the moderation before it. */
  lemma StepCauses(db: Db, e: Event)
    requires Consistent(db)
    ensures Causes(db, Step(db, e), db.images.Keys)
  {
    match e
    case Work(i, w) => WorkCauses(db, i, w);
    case History(p, actor, revision, used, review, now) => HistoryCauses(db, p, actor, revision, used, review, now);
    case Receive(cb, requireJob, now) => ReceiveCauses(db, cb, requireJob, now);
    case ReviewRecord(id, reviewer, verdict, now) => ReviewCauses(db, id, reviewer, verdict, now);
    case ReviewPost(p, reviewer, verdict, now) => ReviewPostCauses(db, p, reviewer, verdict, now);
    case Delete(p, actor, admin, now) => DeleteCauses(db, p, actor, admin, now);
    case Restore(p, actor, now) => RestoreCauses(db, p, actor, now);
    case _ => UnrelatedCauses(db, e);
  }

  lemma UnrelatedCauses(db: Db, e: Event)
    requires e.Upload? || e.SetUploaded? || e.Save?
    ensures Causes(db, Step(db, e), db.images.Keys)
  {
    CausesNothing(db, Step(db, e), db.images.Keys);
  }

  // ---- Over runs --------------------------------------------------------------------------

  /** The row of i carries the intent of record k, which was appended between the two earlier states. */
  predicate PurgedBetween(db: Db, before: Db, next: Db, i: ImageId, k: RecordId) {
    && |before.records| <= k < |next.records|
    && i in before.images && i in db.deliveries
    && PurgedFor(db.deliveries[i], db.records, db.intents, k, i, before.images[i].moderation)
  }

  /** Event n of the history of db appended that record, and the purge was decided as the image stood before n. */
  ghost predicate PurgedByEvent(db: Db, events: seq<Event>, i: ImageId, n: nat, k: RecordId)
    requires n < |events|
  {
    PurgedBetween(db, Run(EMPTY, events[..n]), Run(EMPTY, events[..n + 1]), i, k)
  }

  lemma StillBetween(a: Db, b: Db, before: Db, next: Db, i: ImageId, k: RecordId)
    requires PurgedBetween(a, before, next, i, k) && i in b.deliveries && SameTarget(a.deliveries[i], b.deliveries[i])
    requires a.records <= b.records && IntentsGrow(a.intents, b.intents)
    ensures PurgedBetween(b, before, next, i, k)
  {
  }

  // Later events do not change which one it was.
  lemma StillPurged(db: Db, before: seq<Event>, e: Event, i: ImageId, n: nat, k: RecordId)
    requires n < |before| && PurgedByEvent(db, before, i, n, k)
    ensures PurgedByEvent(db, before + [e], i, n, k)
  {
    assert (before + [e])[..n] == before[..n] && (before + [e])[..n + 1] == before[..n + 1];
  }

  lemma NewlyPurged(before: seq<Event>, e: Event, i: ImageId, k: RecordId)
    requires var a, b := Run(EMPTY, before), Run(EMPTY, before + [e]);
      && i in a.images && i in b.deliveries && |a.records| <= k
      && PurgedFor(b.deliveries[i], b.records, b.intents, k, i, a.images[i].moderation)
    ensures PurgedByEvent(Run(EMPTY, before + [e]), before + [e], i, |before|, k)
  {
    assert (before + [e])[..|before|] == before && (before + [e])[..|before| + 1] == before + [e];
  }

  lemma {:induction false} RunIsNumbered(events: seq<Event>)
    ensures Numbered(Run(EMPTY, events))
  {
    if events != [] {
      var before := events[..|events| - 1];
      RunIsNumbered(before);
      RunConsistent(before);
      StepCauses(Run(EMPTY, before), events[|events| - 1]);
    }
  }

  /**
   * In every reachable state, every row carries the intent of exactly one record, which some event of the history
   * appended; and the row purges exactly if that record does not pass, or the image was blocked or under review when
   * it was written.
   */
  lemma {:induction false} PurgeFollowsVerdict(events: seq<Event>, i: ImageId) returns (n: nat, k: RecordId)
    requires i in Run(EMPTY, events).deliveries
    ensures n < |events| && PurgedByEvent(Run(EMPTY, events), events, i, n, k)
    ensures var db := Run(EMPTY, events);
      forall j :: j in db.intents && db.intents[j].id == db.deliveries[i].intent ==> j == k
  {
    RunIsNumbered(events);
    var before, e := events[..|events| - 1], events[|events| - 1];
    assert events == before + [e];
    var a, b := Run(EMPTY, before), Run(EMPTY, events);
    RunConsistent(before);
    StepCauses(a, e);
    assert Caused(a, b, a.images.Keys, i);
    if i in a.deliveries && SameTarget(a.deliveries[i], b.deliveries[i]) {
      n, k := PurgeFollowsVerdict(before, i);
      StillBetween(a, b, Run(EMPTY, before[..n]), Run(EMPTY, before[..n + 1]), i, k);
      StillPurged(b, before, e, i, n, k);
    } else {
      n := |before|;
      k :| |a.records| <= k && PurgedFor(b.deliveries[i], b.records, b.intents, k, i, a.images[i].moderation);
      NewlyPurged(before, e, i, k);
    }
  }

  /** On the tables of one call: a new image verdict purges exactly if it does not pass or the image was hidden. */
  lemma VerdictPurges(db: Db, i: ImageId, record: Record, posts: set<PostId>, now: Time)
    requires Consistent(db) && i in db.images && record.target == OfImage(i)
    ensures var after := Judge(db, i, record, posts, now);
      && after.Some? && i in after.value.deliveries
      && (after.value.deliveries[i].purgeRequired <==> record.verdict != Pass || Hidden(db.images[i].moderation))
  {
    JudgeKeeps(db, i, record, posts, now);
  }
}
