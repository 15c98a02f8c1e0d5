/**
 * The append-only log of verdicts: one record per provider job, one review per machine record, replays without
 * effect.
 */
module ModerationReplay {
  import opened Common
  import opened ImageAccessRow
  import opened ModerationState
  import opened ModerationOperations
  import opened ModerationAccess

  /**
   * A manual record supersedes an earlier failed machine record of the same target, and no record is superseded
   * twice.
   */
  ghost predicate ReviewedOnce(records: seq<Record>) {
    && (forall k :: 0 <= k < |records| ==> (records[k].provider.Manual? <==> records[k].supersedes.Some?))
    && (forall k :: 0 <= k < |records| && records[k].supersedes.Some? ==>
          var o := records[k].supersedes.value;
          o < k && MachineNonPass(records[o]) && records[o].target == records[k].target)
    && (forall j, k :: 0 <= j < k < |records| && records[j].supersedes.Some? ==>
        records[j].supersedes != records[k].supersedes)
  }

  ghost predicate OneRecordPerJob(records: seq<Record>) {
    forall j, k :: 0 <= j < k < |records| && records[j].job.Some? && records[j].job == records[k].job ==>
      records[j].provider != records[k].provider
  }

  ghost predicate GoodLog(records: seq<Record>) { ReviewedOnce(records) && OneRecordPerJob(records) }

  // What one transaction may append to the log a.
  ghost predicate Extends(a: seq<Record>, b: seq<Record>) {
    && a <= b
    && (forall k :: |a| <= k < |b| ==> (b[k].provider.Manual? <==> b[k].supersedes.Some?))
    && (forall k :: |a| <= k < |b| && b[k].job.Some? ==> !JobRecorded(a, b[k].provider, b[k].job.value))
    && (forall j, k :: |a| <= j < k < |b| && b[j].job.Some? ==> b[k].job.None?)
    && (forall k :: |a| <= k < |b| && b[k].supersedes.Some? ==>
          var o := b[k].supersedes.value;
          o < |a| && MachineNonPass(a[o]) && a[o].target == b[k].target && !Superseded(a, o))
    && (forall j, k :: |a| <= j < k < |b| && b[j].supersedes.Some? ==> b[j].supersedes != b[k].supersedes)
  }

  lemma ExtendsReviewedOnce(a: seq<Record>, b: seq<Record>)
    requires ReviewedOnce(a) && Extends(a, b)
    ensures ReviewedOnce(b)
  {
    forall k | 0 <= k < |b| && b[k].supersedes.Some?
      ensures var o := b[k].supersedes.value; o < k && MachineNonPass(b[o]) && b[o].target == b[k].target
    {
      if k < |a| { assert b[k] == a[k]; }
    }
    forall j, k | 0 <= j < k < |b| && b[j].supersedes.Some?
      ensures b[j].supersedes != b[k].supersedes
    {
      if j < |a| {
        assert b[j] == a[j];
        if k >= |a| && b[k].supersedes.Some? { assert !Superseded(a, b[k].supersedes.value); }
      }
    }
    forall k | 0 <= k < |b|
      ensures b[k].provider.Manual? <==> b[k].supersedes.Some?
    {
      if k < |a| { assert b[k] == a[k]; }
    }
  }

  lemma ExtendsOneRecordPerJob(a: seq<Record>, b: seq<Record>)
    requires OneRecordPerJob(a) && Extends(a, b)
    ensures OneRecordPerJob(b)
  {
    forall j, k | 0 <= j < k < |b| && b[j].job.Some? && b[j].job == b[k].job
      ensures b[j].provider != b[k].provider
    {
      if j < |a| {
        assert b[j] == a[j];
        if k >= |a| && b[j].provider == b[k].provider { assert SameJob(a[j], b[k].provider, b[k].job.value); }
      }
    }
  }

  lemma AddsOnlyExtends(a: seq<Record>, b: seq<Record>, c: seq<Record>, provider: Provider, r: Record)
    requires AddsOnly(a, b, provider) && !provider.Manual?
    requires r.supersedes.None? && !r.provider.Manual? && (r.job.Some? ==> !JobRecorded(b, r.provider, r.job.value))
    requires c == b || c == b + [r]
    ensures Extends(a, c)
  {
    if r.job.Some? && JobRecorded(a, r.provider, r.job.value) {
      var k :| 0 <= k < |a| && SameJob(a[k], r.provider, r.job.value);
      assert !SameJob(b[k], r.provider, r.job.value);
    }
  }

  /** Reviewing distinct unreviewed machine records extends the log well. */
  lemma ManualBatchExtends(a: seq<Record>, b: seq<Record>, ids: seq<RecordId>, verdict: Verdict, now: Time)
    requires a <= b && |b| == |a| + |ids|
    requires forall n :: 0 <= n < |ids| ==>
      && ids[n] < |a| && MachineNonPass(a[ids[n]]) && !Superseded(a, ids[n])
      && b[|a| + n] == ManualOf(a[ids[n]], ids[n], verdict, now)
    requires forall m, n :: 0 <= m < n < |ids| ==> ids[m] < ids[n]
    ensures Extends(a, b)
  {
    forall k | |a| <= k < |b|
      ensures b[k] == ManualOf(a[ids[k - |a|]], ids[k - |a|], verdict, now)
    {
      assert b[|a| + (k - |a|)] == ManualOf(a[ids[k - |a|]], ids[k - |a|], verdict, now);
    }
  }

  lemma ReviewPostExtends(db: Db, p: PostId, reviewer: UserId, verdict: Verdict, now: Time)
    requires Consistent(db)
    ensures Extends(db.records, ManualReviewPost(db, p, reviewer, verdict, now).0.records)
  {
    ReviewPostKeeps(db, p, reviewer, verdict, now);
    if p in db.posts && ManualReviewPost(db, p, reviewer, verdict, now).1.Ok? {
      PostJudgedExtends(db, p, verdict, now);
    }
  }

  lemma PostJudgedExtends(db: Db, p: PostId, verdict: Verdict, now: Time)
    requires p in db.posts
    ensures Extends(db.records, PostJudged(db, p, verdict, now).records)
  {
    var ids := Ascending(ChosenOf(db, p));
    var b := PostJudged(db, p, verdict, now).records;
    forall n | 0 <= n < |ids|
      ensures ids[n] in ChosenOf(db, p) && b[|db.records| + n] == ManualOf(db.records[ids[n]], ids[n], verdict, now)
    {
      ManualRecordAt(db, p, verdict, now, n);
    }
    ManualBatchExtends(db.records, b, ids, verdict, now);
  }

  lemma StepExtends(db: Db, e: Event)
    requires Consistent(db)
    ensures Extends(db.records, Step(db, e).records)
  {
    match e
    case Upload(_, _) =>
    case SetUploaded(_, _) =>
    case Work(_, _) =>
    case Save(p, author, used, publish, review, now) =>
    case History(p, actor, revision, used, review, now) =>
      if p in db.posts { HistoryExtends(db, p, actor, revision, used, review, now); }
    case Receive(cb, requireJob, now) => ReceiveExtends(db, cb, requireJob, now);
    case ReviewRecord(id, reviewer, verdict, now) => ReviewExtends(db, id, reviewer, verdict, now);
    case ReviewPost(p, reviewer, verdict, now) => ReviewPostExtends(db, p, reviewer, verdict, now);
    case Delete(p, actor, admin, now) =>
      if p in db.posts { DeleteExtends(db, p, actor, admin, now); }
    case Restore(p, actor, now) =>
      if p in db.posts { RestoreExtends(db, p, actor, now); }
  }

  lemma ReceiveExtends(db: Db, cb: Callback, requireJob: bool, now: Time)
    requires Consistent(db)
    ensures Extends(db.records, ApplyImageResult(db, cb, requireJob, now).0.records)
  {
    if cb.job.Some? && JobRecorded(db.records, Machine(cb.provider), cb.job.value) {
      DuplicateChangesNothing(db, cb, requireJob, now);
    } else if cb.image in db.images {
      JudgeKeeps(db, cb.image, CallbackRecord(cb, now), PendingPostsWith(db, {cb.image}), now);
    }
  }

  lemma ReviewShape(db: Db, id: RecordId, reviewer: UserId, verdict: Verdict, now: Time)
    requires Consistent(db)
    ensures var (after, reply) := ManualReview(db, id, reviewer, verdict, now);
      && (reply.Err? ==> after == db)
      && (reply.Ok? ==>
            && id < |db.records| && MachineNonPass(db.records[id]) && !Superseded(db.records, id)
            && after.records == db.records + [ManualOf(db.records[id], id, verdict, now)])
  {
    if id < |db.records| && db.records[id].target.OfImage? {
      var i := db.records[id].target.image;
      JudgeKeeps(db, i, ManualOf(db.records[id], id, verdict, now), PendingPostsWith(db, {i}), now);
    }
  }

  lemma ReviewExtends(db: Db, id: RecordId, reviewer: UserId, verdict: Verdict, now: Time)
    requires Consistent(db)
    ensures Extends(db.records, ManualReview(db, id, reviewer, verdict, now).0.records)
  {
    ReviewShape(db, id, reviewer, verdict, now);
    var (after, reply) := ManualReview(db, id, reviewer, verdict, now);
    if reply.Ok? { ManualBatchExtends(db.records, after.records, [id], verdict, now); }
  }

  lemma DeleteExtends(db: Db, p: PostId, actor: UserId, admin: bool, now: Time)
    requires Consistent(db) && p in db.posts
    ensures Extends(db.records, DeletePost(db, p, actor, admin, now).0.records)
  {
    var gone := DeleteIs(db, p, actor, admin, now);
    var (after, reply) := DeletePost(db, p, actor, admin, now);
    if reply.Ok? {
      AddsOnlyExtends(db.records, after.records, after.records, AdminPostDelete, RestoreRecord(p, 0, now));
    }
  }

  lemma RestoreExtends(db: Db, p: PostId, actor: UserId, now: Time)
    requires Consistent(db) && p in db.posts
    ensures Extends(db.records, RestorePost(db, p, actor, now).0.records)
  {
    var restored := RestoreImagesKeeps(db, db.posts[p].images, now);
    RestoreWithExtends(db, restored, p, now);
  }

  lemma RestoreWithExtends(db: Db, restored: Db, p: PostId, now: Time)
    requires p in db.posts && AddsOnly(db.records, restored.records, AdminRestore)
    ensures Extends(db.records, RestoreWith(db, restored, p, now).0.records)
  {
    var record := RestoreRecord(p, db.posts[p].revision, now);
    AddsOnlyExtends(db.records, restored.records, restored.records + [record], AdminRestore, record);
  }

  lemma HistoryExtends(
    db: Db, p: PostId, actor: UserId, revision: nat, used: set<ImageId>, review: TextReview, now: Time)
    requires Consistent(db) && p in db.posts
    ensures Extends(db.records, RestoreHistory(db, p, actor, revision, used, review, now).0.records)
  {
    var restored := HistoryIs(db, p, actor, revision, used, review, now);
    HistoryWithExtends(db, restored, p, revision, used, review, now);
  }

  lemma HistoryWithExtends(
    db: Db, restored: Db, p: PostId, revision: nat, used: set<ImageId>, review: TextReview, now: Time)
    requires p in db.posts && AddsOnly(db.records, restored.records, AdminRestore)
    ensures Extends(db.records, HistoryWith(db, restored, p, revision, used, review, now).0.records)
  {
    var (after, reply) := HistoryWith(db, restored, p, revision, used, review, now);
    if reply.Ok? {
      AddsOnlyExtends(db.records, restored.records, after.records, AdminRestore,
                      TextRecord(p, revision, if JobTaken(restored, review) then review.(job := None) else review,
                                 now));
    }
  }

  lemma {:induction false} RunKeepsGoodLog(events: seq<Event>)
    ensures Consistent(Run(EMPTY, events)) && GoodLog(Run(EMPTY, events).records)
  {
    RunConsistent(events);
    if events == [] {
    } else {
      var before := events[..|events| - 1];
      RunKeepsGoodLog(before);
      var db := Run(EMPTY, before);
      StepExtends(db, events[|events| - 1]);
      ExtendsReviewedOnce(db.records, Run(EMPTY, events).records);
      ExtendsOneRecordPerJob(db.records, Run(EMPTY, events).records);
    }
  }

  /** Over any run, a machine record is superseded by at most one manual record, which is about the same target. */
  lemma SupersededAtMostOnce(events: seq<Event>, j: RecordId, k: RecordId)
    requires var records := Run(EMPTY, events).records;
      j < |records| && k < |records| && records[j].supersedes.Some? && records[j].supersedes == records[k].supersedes
    ensures j == k
    ensures var records := Run(EMPTY, events).records;
      var o := records[j].supersedes.value;
      o < j && MachineNonPass(records[o]) && records[o].target == records[j].target && records[j].provider.Manual?
  {
    RunKeepsGoodLog(events);
  }

  lemma {:induction false} RunAppend(db: Db, xs: seq<Event>, ys: seq<Event>)
    ensures Run(db, xs + ys) == Run(Run(db, xs), ys)
  {
    if ys == [] {
      assert xs + ys == xs;
    } else {
      var init := ys[..|ys| - 1];
      assert (xs + ys)[..|xs + ys| - 1] == xs + init;
      RunAppend(db, xs, init);
    }
  }

  lemma {:induction false} RunFromConsistent(db: Db, events: seq<Event>)
    requires Consistent(db)
    ensures Consistent(Run(db, events)) && db.records <= Run(db, events).records
  {
    if events == [] {
    } else {
      var before := events[..|events| - 1];
      RunFromConsistent(db, before);
      StepKeeps(Run(db, before), events[|events| - 1]);
      StepExtends(Run(db, before), events[|events| - 1]);
    }
  }

  predicate IsReplay(db: Db, e: Event) {
    && e.Receive? && e.callback.job.Some?
    && JobRecorded(db.records, Machine(e.callback.provider), e.callback.job.value)
  }

  /** The same history with every callback left out whose job number was already recorded when it arrived. */
  function WithoutReplays(db: Db, events: seq<Event>): seq<Event> {
    if events == [] then []
    else
      var last := |events| - 1;
      var kept := WithoutReplays(db, events[..last]);
      if IsReplay(Run(db, events[..last]), events[last]) then kept else kept + [events[last]]
  }

  /** Replayed callbacks, wherever they arrive, leave the same records, verdicts, post statuses and outbox rows. */
  lemma {:induction false} ReplaysChangeNothing(db: Db, events: seq<Event>)
    requires Consistent(db)
    ensures Run(db, events) == Run(db, WithoutReplays(db, events))
  {
    if events == [] {
    } else {
      var last := |events| - 1;
      var before := events[..last];
      var kept := WithoutReplays(db, before);
      ReplaysChangeNothing(db, before);
      RunFromConsistent(db, before);
      if IsReplay(Run(db, before), events[last]) {
        DuplicateChangesNothing(Run(db, before), events[last].callback, events[last].requireJob, events[last].now);
      } else {
        assert (kept + [events[last]])[..|kept|] == kept;
      }
    }
  }

  lemma AcceptedJobStays(db: Db, cb: Callback, requireJob: bool, now: Time, later: seq<Event>)
    requires Consistent(db) && cb.job.Some? && ApplyImageResult(db, cb, requireJob, now).1.Ok?
    ensures var after := Run(ApplyImageResult(db, cb, requireJob, now).0, later);
      Consistent(after) && JobRecorded(after.records, Machine(cb.provider), cb.job.value)
  {
    var next := ApplyImageResult(db, cb, requireJob, now).0;
    ReceiveKeeps(db, cb, requireJob, now);
    if JobRecorded(db.records, Machine(cb.provider), cb.job.value) {
      DuplicateChangesNothing(db, cb, requireJob, now);
    } else {
      JudgeKeeps(db, cb.image, CallbackRecord(cb, now), PendingPostsWith(db, {cb.image}), now);
      assert SameJob(next.records[|db.records|], Machine(cb.provider), cb.job.value);
    }
    var k :| 0 <= k < |next.records| && SameJob(next.records[k], Machine(cb.provider), cb.job.value);
    RunFromConsistent(next, later);
    assert SameJob(Run(next, later).records[k], Machine(cb.provider), cb.job.value);
  }

  /**
   * Once a callback was accepted, any later callback with its job number, whatever verdict or image it names and
   * whatever manual reviews, deletions or edits came in between, leaves the rest of the history as it would have been.
   */
  lemma LateReplayUndoesNothing(
    xs: seq<Event>, first: Event, ys: seq<Event>, replay: Event, zs: seq<Event>)
    requires first.Receive? && replay.Receive? && first.callback.job.Some?
    requires replay.callback.provider == first.callback.provider && replay.callback.job == first.callback.job
    requires ApplyImageResult(Run(EMPTY, xs), first.callback, first.requireJob, first.now).1.Ok?
    ensures Run(EMPTY, xs + [first] + ys + [replay] + zs) == Run(EMPTY, xs + [first] + ys + zs)
  {
    RunConsistent(xs);
    var db := Run(EMPTY, xs);
    AcceptedJobStays(db, first.callback, first.requireJob, first.now, ys);
    assert (xs + [first])[..|xs|] == xs;
    RunAppend(EMPTY, xs + [first], ys);
    var before := xs + [first] + ys;
    DuplicateChangesNothing(Run(EMPTY, before), replay.callback, replay.requireJob, replay.now);
    assert (before + [replay])[..|before|] == before;
    RunAppend(EMPTY, before + [replay], zs);
    RunAppend(EMPTY, before, zs);
  }
}
