/** The intents of an operation are the delivery protocol's new-verdict steps. */
module ModerationIntakes {
  import opened Common
  import opened ImageAccessRow
  import Protocol = ImageAccessProtocol
  import opened ModerationState
  import opened ModerationOperations
  import opened ModerationAccess
  import ModerationAggregate

  datatype Intake = Intake(image: ImageId, intent: nat, desiredPublic: bool, purgeRequired: bool, at: Time)

  function Taken(rows: map<ImageId, Delivery>, x: Intake): map<ImageId, Delivery> {
    rows[x.image := Enqueued(if x.image in rows then Some(rows[x.image]) else None,
                             x.intent, x.desiredPublic, x.purgeRequired, x.at)]
  }

  function TakenAll(rows: map<ImageId, Delivery>, xs: seq<Intake>): map<ImageId, Delivery>
    decreases |xs|
  {
    if xs == [] then rows else TakenAll(Taken(rows, xs[0]), xs[1..])
  }

  predicate Fit(xs: seq<Intake>, images: set<ImageId>) {
    forall n :: 0 <= n < |xs| ==>
      xs[n].image in images && Protocol.WellFormedIntent(xs[n].desiredPublic, xs[n].purgeRequired)
  }

  /** The rows of b are those of a after some intakes for known images, of which there are as many as before. */
  ghost predicate Takes(a: Db, b: Db, xs: seq<Intake>) {
    Fit(xs, a.images.Keys) && b.images.Keys == a.images.Keys && b.deliveries == TakenAll(a.deliveries, xs)
  }

  lemma TakesNothing(a: Db, b: Db)
    requires a.deliveries == b.deliveries && b.images.Keys == a.images.Keys
    ensures Takes(a, b, [])
  {
  }

  lemma {:induction false} TakenAllAppend(rows: map<ImageId, Delivery>, xs: seq<Intake>, ys: seq<Intake>)
    ensures TakenAll(rows, xs + ys) == TakenAll(TakenAll(rows, xs), ys)
    decreases |xs|
  {
    if xs == [] {
      assert xs + ys == ys;
    } else {
      assert (xs + ys)[1..] == xs[1..] + ys;
      TakenAllAppend(Taken(rows, xs[0]), xs[1..], ys);
    }
  }

  lemma TakesThen(a: Db, b: Db, c: Db, xs: seq<Intake>, ys: seq<Intake>)
    requires Takes(a, b, xs) && Takes(b, c, ys)
    ensures Takes(a, c, xs + ys)
  {
    TakenAllAppend(a.deliveries, xs, ys);
  }

  lemma AccessTakes(db: Db, i: ImageId, source: RecordId, public: bool, previous: Moderation, now: Time)
    returns (xs: seq<Intake>)
    requires i in db.images && Access(db, i, source, public, PurgeRequired(public, previous), now).Some?
    ensures Takes(db, Access(db, i, source, public, PurgeRequired(public, previous), now).value, xs)
  {
    if source in db.intents {
      xs := [];
    } else {
      xs := [Intake(i, db.nextIntent, public, PurgeRequired(public, previous), now)];
      assert TakenAll(Taken(db.deliveries, xs[0]), xs[1..]) == Taken(db.deliveries, xs[0]);
    }
  }

  lemma JudgeTakes(db: Db, i: ImageId, record: Record, posts: set<PostId>, now: Time) returns (xs: seq<Intake>)
    requires i in db.images && Judge(db, i, record, posts, now).Some?
    ensures var after := Judge(db, i, record, posts, now).value;
      Takes(db, after, xs)
  {
    var judged := Reconciled(WithModeration(Append(db, record), i, Judged(record.verdict)), posts);
    xs := AccessTakes(judged, i, |db.records|, record.verdict.Pass?, db.images[i].moderation, now);
  }

  lemma {:induction false} JudgeEachTakes(db: Db, ids: seq<ImageId>, provider: Provider, verdict: Verdict, now: Time)
    returns (xs: seq<Intake>)
    requires JudgeEach(db, ids, provider, verdict, now).Some?
    ensures var after := JudgeEach(db, ids, provider, verdict, now).value;
      Takes(db, after, xs)
    decreases |ids|
  {
    if ids == [] {
      xs := [];
    } else if ids[0] !in db.images {
      xs := JudgeEachTakes(db, ids[1..], provider, verdict, now);
    } else {
      var record := Record(OfImage(ids[0]), provider, None, verdict, None, now);
      var first := JudgeTakes(db, ids[0], record, {}, now);
      var next := Judge(db, ids[0], record, {}, now).value;
      var rest := JudgeEachTakes(next, ids[1..], provider, verdict, now);
      xs := first + rest;
      TakesThen(db, next, JudgeEach(next, ids[1..], provider, verdict, now).value, first, rest);
    }
  }

  lemma {:induction false} AccessFromTakes(
    db: Db, from: RecordId, verdict: Verdict, before: map<ImageId, Image>, now: Time)
    returns (xs: seq<Intake>)
    requires AccessFrom(db, from, verdict, before, now).Some? && before.Keys == db.images.Keys
    ensures Takes(db, AccessFrom(db, from, verdict, before, now).value, xs)
    decreases |db.records| - from
  {
    if from >= |db.records| {
      xs := [];
    } else if db.records[from].target.OfImage? && db.records[from].target.image in before {
      var i := db.records[from].target.image;
      var first := AccessTakes(db, i, from, verdict.Pass?, before[i].moderation, now);
      var next := Access(db, i, from, verdict.Pass?, PurgeRequired(verdict.Pass?, before[i].moderation), now).value;
      var rest := AccessFromTakes(next, from + 1, verdict, before, now);
      xs := first + rest;
      TakesThen(db, next, AccessFrom(next, from + 1, verdict, before, now).value, first, rest);
    } else {
      xs := AccessFromTakes(db, from + 1, verdict, before, now);
    }
  }

  lemma ReceiveTakes(db: Db, cb: Callback, requireJob: bool, now: Time) returns (xs: seq<Intake>)
    ensures Takes(db, ApplyImageResult(db, cb, requireJob, now).0, xs)
  {
    xs := [];
    if ApplyImageResult(db, cb, requireJob, now).1.Ok? {
      if cb.job.Some? && JobRecorded(db.records, Machine(cb.provider), cb.job.value) {
        var current := db.images[cb.image].moderation;
        xs := AccessTakes(db, cb.image, FindJob(db.records, Machine(cb.provider), cb.job.value).value,
                          current == Judged(Pass), current, now);
      } else {
        xs := JudgeTakes(db, cb.image, CallbackRecord(cb, now), PendingPostsWith(db, {cb.image}), now);
      }
    }
  }

  lemma ReviewTakes(db: Db, id: RecordId, reviewer: UserId, verdict: Verdict, now: Time) returns (xs: seq<Intake>)
    ensures Takes(db, ManualReview(db, id, reviewer, verdict, now).0, xs)
  {
    xs := [];
    TakesNothing(db, db);
    ManualReviewCases(db, id, reviewer, verdict, now);
    if ManualReview(db, id, reviewer, verdict, now).1.Ok? {
      var i := db.records[id].target.image;
      xs := JudgeTakes(db, i, ManualOf(db.records[id], id, verdict, now), PendingPostsWith(db, {i}), now);
    }
  }

  lemma ReviewedTakes(db: Db, judged: Db, after: Db, verdict: Verdict, now: Time) returns (xs: seq<Intake>)
    requires judged.deliveries == db.deliveries && judged.images.Keys == db.images.Keys
    requires AccessFrom(judged, |db.records|, verdict, db.images, now) == Some(after)
    ensures Takes(db, after, xs)
  {
    xs := AccessFromTakes(judged, |db.records|, verdict, db.images, now);
  }

  lemma JudgedPostRows(db: Db, p: PostId, verdict: Verdict, now: Time)
    requires p in db.posts
    ensures var judged := Reconciled(PostJudged(db, p, verdict, now), PostsTouched(db, p));
      judged.deliveries == db.deliveries && judged.images.Keys == db.images.Keys
  {
  }

  lemma ReviewPostCases(db: Db, p: PostId, reviewer: UserId, verdict: Verdict, now: Time)
    ensures var (after, reply) := ManualReviewPost(db, p, reviewer, verdict, now);
      if reply.Err? then after == db
      else p in db.posts && AccessFrom(
             Reconciled(PostJudged(db, p, verdict, now), PostsTouched(db, p)),
             |db.records|, verdict, db.images, now) == Some(after)
  {
  }

  lemma ReviewPostTakes(db: Db, p: PostId, reviewer: UserId, verdict: Verdict, now: Time) returns (xs: seq<Intake>)
    ensures Takes(db, ManualReviewPost(db, p, reviewer, verdict, now).0, xs)
  {
    ReviewPostCases(db, p, reviewer, verdict, now);
    xs := ReviewEitherTakes(db, p, verdict, now, ManualReviewPost(db, p, reviewer, verdict, now).0,
                            ManualReviewPost(db, p, reviewer, verdict, now).1.Ok?);
  }

  lemma ReviewEitherTakes(db: Db, p: PostId, verdict: Verdict, now: Time, after: Db, done: bool)
    returns (xs: seq<Intake>)
    requires !done ==> after == db
    requires done ==> p in db.posts && AccessFrom(
               Reconciled(PostJudged(db, p, verdict, now), PostsTouched(db, p)),
               |db.records|, verdict, db.images, now) == Some(after)
    ensures Takes(db, after, xs)
  {
    xs := [];
    TakesNothing(db, db);
    if done {
      JudgedPostRows(db, p, verdict, now);
      xs := ReviewedTakes(db, Reconciled(PostJudged(db, p, verdict, now), PostsTouched(db, p)), after, verdict, now);
    }
  }

  lemma DeleteTakes(db: Db, p: PostId, actor: UserId, admin: bool, now: Time) returns (xs: seq<Intake>)
    ensures Takes(db, DeletePost(db, p, actor, admin, now).0, xs)
  {
    xs := [];
    if DeletePost(db, p, actor, admin, now).1.Ok? {
      var gone := Deleted(db, p, Some(if db.posts[p].author == actor then ByAuthor else ByAdmin));
      xs := JudgeEachTakes(gone, Ascending(ToBlock(gone, db.posts[p].images)), AdminPostDelete, Block, now);
    }
  }

  lemma RestoreImagesTakes(db: Db, used: set<ImageId>, now: Time) returns (xs: seq<Intake>)
    ensures RestoreImages(db, used, now).Some? ==> Takes(db, RestoreImages(db, used, now).value, xs)
  {
    xs := [];
    if RestoreImages(db, used, now).Some? {
      xs := JudgeEachTakes(db, Ascending(Restorable(db, used)), AdminRestore, Pass, now);
    }
  }

  lemma RestoreWithTakes(db: Db, restored: Db, p: PostId, now: Time, xs: seq<Intake>)
    requires p in db.posts && Takes(db, restored, xs)
    ensures var (after, reply) := RestoreWith(db, restored, p, now);
      if reply.Ok? then Takes(db, after, xs) else after == db
  {
  }

  lemma RestoreFails(db: Db, p: PostId, actor: UserId, now: Time)
    requires p !in db.posts || RestoreImages(db, db.posts[p].images, now).None?
    ensures RestorePost(db, p, actor, now).0 == db
  {
  }

  lemma RestoreTakes(db: Db, p: PostId, actor: UserId, now: Time) returns (xs: seq<Intake>)
    ensures Takes(db, RestorePost(db, p, actor, now).0, xs)
  {
    var after := RestorePost(db, p, actor, now).0;
    TakesNothing(db, db);
    if p in db.posts && RestoreImages(db, db.posts[p].images, now).Some? {
      var restored := RestoreImages(db, db.posts[p].images, now).value;
      ModerationAggregate.RestoreCases(db, p, actor, now, restored);
      xs := RestoreEitherTakes(db, restored, after, p, now);
    } else {
      RestoreFails(db, p, actor, now);
      xs := [];
    }
  }

  lemma RestoreEitherTakes(db: Db, restored: Db, after: Db, p: PostId, now: Time) returns (xs: seq<Intake>)
    requires p in db.posts && RestoreImages(db, db.posts[p].images, now) == Some(restored)
    requires after == db || after == RestoreWith(db, restored, p, now).0
    ensures Takes(db, after, xs)
  {
    TakesNothing(db, db);
    if after == db {
      xs := [];
    } else {
      xs := RestoreImagesTakes(db, db.posts[p].images, now);
      RestoreWithTakes(db, restored, p, now, xs);
    }
  }

  lemma HistoryWithTakes(
    db: Db, restored: Db, p: PostId, revision: nat, used: set<ImageId>, review: TextReview, now: Time, xs: seq<Intake>)
    requires p in db.posts && Takes(db, restored, xs)
    ensures var (after, reply) := HistoryWith(db, restored, p, revision, used, review, now);
      if reply.Ok? then Takes(db, after, xs) else after == db
  {
  }

  lemma HistoryFails(db: Db, p: PostId, actor: UserId, revision: nat, used: set<ImageId>, review: TextReview, now: Time)
    requires p !in db.posts || HistoryBase(db, p, used, now).None?
    ensures RestoreHistory(db, p, actor, revision, used, review, now).0 == db
  {
  }

  // The images a history restore gives back first, if any.
  lemma HistoryBaseTakes(db: Db, p: PostId, used: set<ImageId>, now: Time) returns (xs: seq<Intake>)
    requires p in db.posts && HistoryBase(db, p, used, now).Some?
    ensures Takes(db, HistoryBase(db, p, used, now).value, xs)
  {
    xs := [];
    if !Live(db.posts[p]) { xs := RestoreImagesTakes(db, used, now); }
  }

  lemma HistoryTakes(db: Db, p: PostId, actor: UserId, revision: nat, used: set<ImageId>, review: TextReview, now: Time)
    returns (xs: seq<Intake>)
    ensures Takes(db, RestoreHistory(db, p, actor, revision, used, review, now).0, xs)
  {
    var after := RestoreHistory(db, p, actor, revision, used, review, now).0;
    TakesNothing(db, db);
    if p in db.posts && HistoryBase(db, p, used, now).Some? {
      var restored := HistoryBase(db, p, used, now).value;
      HistoryCases(db, p, actor, revision, used, review, now, restored);
      xs := HistoryEitherTakes(db, restored, after, p, revision, used, review, now);
    } else {
      HistoryFails(db, p, actor, revision, used, review, now);
      xs := [];
    }
  }

  lemma HistoryEitherTakes(
    db: Db, restored: Db, after: Db, p: PostId, revision: nat, used: set<ImageId>, review: TextReview, now: Time)
    returns (xs: seq<Intake>)
    requires p in db.posts && HistoryBase(db, p, used, now) == Some(restored)
    requires after == db || after == HistoryWith(db, restored, p, revision, used, review, now).0
    ensures Takes(db, after, xs)
  {
    TakesNothing(db, db);
    if after == db {
      xs := [];
    } else {
      xs := HistoryBaseTakes(db, p, used, now);
      HistoryWithTakes(db, restored, p, revision, used, review, now, xs);
    }
  }

  /** Whatever an operation does to the delivery rows, the protocol's new-verdict steps do. */
  lemma OperationTakes(db: Db, m: Event) returns (xs: seq<Intake>)
    requires !m.Work? && !m.Upload?
    ensures Takes(db, Step(db, m), xs)
  {
    match m
    case SetUploaded(_, _) => xs := []; TakesNothing(db, Step(db, m));
    case Save(_, _, _, _, _, _) => xs := []; TakesNothing(db, Step(db, m));
    case History(p, actor, revision, used, review, now) =>
      xs := HistoryTakes(db, p, actor, revision, used, review, now);
    case Receive(cb, requireJob, now) => xs := ReceiveTakes(db, cb, requireJob, now);
    case ReviewRecord(id, reviewer, verdict, now) => xs := ReviewTakes(db, id, reviewer, verdict, now);
    case ReviewPost(p, reviewer, verdict, now) => xs := ReviewPostTakes(db, p, reviewer, verdict, now);
    case Delete(p, actor, admin, now) => xs := DeleteTakes(db, p, actor, admin, now);
    case Restore(p, actor, now) => xs := RestoreTakes(db, p, actor, now);
  }
}
