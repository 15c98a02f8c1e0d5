/** Callbacks in any order, whole-post reviews, and the two places where posts fall out of step. */
module ModerationOrder {
  import opened Common
  import opened ImageAccessRow
  import opened ModerationState
  import opened ModerationOperations
  import opened ModerationAccess
  import opened ModerationReplay
  import opened ModerationAggregate

  // ---- Any order of first verdicts.

  predicate Neutral(m: Moderation) { m.Unjudged? || m == Judged(Review) }

  /** A result that is not refused and not a replay; synchronous results carry no job number. */
  predicate Accepts(db: Db, cb: Callback, requireJob: bool) {
    && cb.image != 0 && cb.image in db.images
    && (cb.key.Some? ==> cb.key.value == db.images[cb.image].key) && db.images[cb.image].uploaded
    && (requireJob ==> cb.job.Some?) && (cb.job.Some? ==> !JobRecorded(db.records, Machine(cb.provider), cb.job.value))
  }

  datatype Arrival = Arrival(callback: Callback, requireJob: bool, now: Time)

  function Arrive(db: Db, a: Arrival): Db { ApplyImageResult(db, a.callback, a.requireJob, a.now).0 }

  function ArriveAll(db: Db, es: seq<Arrival>): Db {
    if es == [] then db else Arrive(ArriveAll(db, es[..|es| - 1]), es[|es| - 1])
  }

  /** One result for each of some images that were not passed or blocked yet; job numbers, where given, are fresh. */
  predicate FirstVerdicts(db: Db, es: seq<Arrival>) {
    && (forall n :: 0 <= n < |es| ==>
        Accepts(db, es[n].callback, es[n].requireJob) && Neutral(db.images[es[n].callback.image].moderation))
    && (forall m, n :: 0 <= m < n < |es| ==> es[m].callback.image != es[n].callback.image)
    && (forall m, n :: 0 <= m < n < |es| && es[m].callback.provider == es[n].callback.provider ==>
          es[m].callback.job.Some? ==> es[m].callback.job != es[n].callback.job)
  }

  /** A post pending at the start has, now, the one-shot evaluation of its text and its images as they are now. */
  ghost predicate Graded(start: Db, db: Db, p: PostId)
    requires p in start.posts
  {
    && p in db.posts && Live(start.posts[p])
    && db.posts[p] == start.posts[p].(status := db.posts[p].status)
    && TextVerdict(start, p).Some? && TextVerdict(db, p) == TextVerdict(start, p)
    && db.posts[p].status == Aggregate(TextVerdict(start, p).value, db.images, db.posts[p].images)
  }

  predicate Tracked(db: Db, p: PostId) { p in db.posts && Live(db.posts[p]) && db.posts[p].status.Pending? }

  // What an accepted first callback does, without the outbox.
  lemma AcceptedCallback(db: Db, cb: Callback, requireJob: bool, now: Time)
    requires Consistent(db) && Accepts(db, cb, requireJob)
    ensures var after := ApplyImageResult(db, cb, requireJob, now).0;
      var posts := PendingPostsWith(db, {cb.image});
      && Consistent(after)
      && ApplyImageResult(db, cb, requireJob, now).1.Ok?
      && after.records == db.records + [CallbackRecord(cb, now)]
      && after.images == db.images[cb.image := db.images[cb.image].(moderation := Judged(cb.verdict))]
      && var judged := WithModeration(Append(db, CallbackRecord(cb, now)), cb.image, Judged(cb.verdict));
         after.posts == Reconciled(judged, posts).posts
  {
    JudgeKeeps(db, cb.image, CallbackRecord(cb, now), PendingPostsWith(db, {cb.image}), now);
  }

  /** A callback changes no post that is not pending, whatever its verdict. */
  lemma DecidedPostsAreNotRevisited(db: Db, cb: Callback, requireJob: bool, now: Time, p: PostId)
    requires Consistent(db) && p in db.posts && !db.posts[p].status.Pending?
    ensures var after := ApplyImageResult(db, cb, requireJob, now).0; p in after.posts && after.posts[p] == db.posts[p]
  {
    if cb.job.Some? && JobRecorded(db.records, Machine(cb.provider), cb.job.value) {
      DuplicateChangesNothing(db, cb, requireJob, now);
    } else if cb.image in db.images {
      JudgeKeeps(db, cb.image, CallbackRecord(cb, now), PendingPostsWith(db, {cb.image}), now);
    }
  }

  // Nothing a neutral image becomes can bring a rejected post back.
  lemma StillRejected(text: Verdict, images: map<ImageId, Image>, used: set<ImageId>, i: ImageId, m: Moderation)
    requires i in images && Neutral(images[i].moderation) && Aggregate(text, images, used).Rejected?
    ensures Aggregate(text, images[i := images[i].(moderation := m)], used).Rejected?
  {
    if text != Block {
      var j :| j in used && HasModeration(images, j, Judged(Block));
      assert HasModeration(images[i := images[i].(moderation := m)], j, Judged(Block));
    }
  }

  lemma NeutralNeverApproved(text: Verdict, images: map<ImageId, Image>, used: set<ImageId>, i: ImageId)
    requires i in used && i in images && Neutral(images[i].moderation)
    ensures !Aggregate(text, images, used).Approved?
  {
    assert !HasModeration(images, i, Judged(Pass));
  }

  // A verdict on image i, seen by one post: evaluated anew if pending, still rejected otherwise.
  lemma GradeAfterVerdict(db: Db, judged: Db, i: ImageId, m: Moderation, posts: set<PostId>, p: PostId, text: Verdict)
    requires p in db.posts && Live(db.posts[p]) && i in db.images && Neutral(db.images[i].moderation)
    requires judged.posts == db.posts && judged.images == db.images[i := db.images[i].(moderation := m)]
    requires TextVerdict(judged, p) == Some(text) && posts == PendingPostsWith(db, {i})
    requires db.posts[p].status == Aggregate(text, db.images, db.posts[p].images)
    ensures var after := Reconciled(judged, posts).posts[p];
      after == db.posts[p].(status := Aggregate(text, judged.images, db.posts[p].images))
  {
    var used := db.posts[p].images;
    if i !in used {
      AggregateReads(text, db.images, judged.images, used);
    } else if db.posts[p].status.Pending? {
      assert i in db.posts[p].images * {i};
      ReconcileIsAggregate(judged, posts, p);
    } else {
      NeutralNeverApproved(text, db.images, used, i);
      StillRejected(text, db.images, used, i, m);
    }
  }

  /** One first verdict keeps a tracked post graded. */
  lemma VerdictKeepsGrade(start: Db, db: Db, cb: Callback, requireJob: bool, now: Time, p: PostId)
    requires Consistent(db) && Accepts(db, cb, requireJob) && Neutral(db.images[cb.image].moderation)
    requires p in start.posts && Graded(start, db, p)
    ensures Graded(start, ApplyImageResult(db, cb, requireJob, now).0, p)
  {
    AcceptedCallback(db, cb, requireJob, now);
    var judged := WithModeration(Append(db, CallbackRecord(cb, now)), cb.image, Judged(cb.verdict));
    LatestIgnores(db.records, judged.records, PostText(p, db.posts[p].revision));
    GradeAfterVerdict(db, judged, cb.image, Judged(cb.verdict), PendingPostsWith(db, {cb.image}), p,
                      TextVerdict(start, p).value);
    TextVerdictReads(judged, ApplyImageResult(db, cb, requireJob, now).0, p);
  }

  predicate GotVerdict(es: seq<Arrival>, i: ImageId, v: Verdict) {
    exists n :: 0 <= n < |es| && es[n].callback.image == i && es[n].callback.verdict == v
  }

  predicate Untouched(es: seq<Arrival>, i: ImageId) {
    forall n :: 0 <= n < |es| ==> es[n].callback.image != i
  }

  // The images after the verdicts of es, whatever their order.
  ghost predicate Delivered(start: map<ImageId, Image>, now: map<ImageId, Image>, es: seq<Arrival>) {
    && now.Keys == start.Keys
    && (forall i :: i in start && Untouched(es, i) ==> now[i] == start[i])
    && (forall i, v :: i in start && GotVerdict(es, i, v) ==> now[i] == start[i].(moderation := Judged(v)))
  }

  lemma DeliveredNext(start: map<ImageId, Image>, now: map<ImageId, Image>, es: seq<Arrival>, e: Arrival)
    requires e.callback.image in start && Untouched(es, e.callback.image) && Delivered(start, now, es)
    ensures var i, v := e.callback.image, e.callback.verdict;
      Delivered(start, now[i := now[i].(moderation := Judged(v))], es + [e])
  {
    var after := now[e.callback.image := now[e.callback.image].(moderation := Judged(e.callback.verdict))];
    var all := es + [e];
    forall i | i in start && Untouched(all, i)
      ensures after[i] == start[i]
    {
      assert all[|es|] == e;
      assert forall n :: 0 <= n < |es| ==> all[n] == es[n];
      assert Untouched(es, i);
    }
    forall i, v | i in start && GotVerdict(all, i, v)
      ensures after[i] == start[i].(moderation := Judged(v))
    {
      var n :| 0 <= n < |all| && all[n].callback.image == i && all[n].callback.verdict == v;
      if n < |es| {
        assert es[n] == all[n];
        assert GotVerdict(es, i, v);
      }
    }
  }

  ghost predicate RecordsOf(start: seq<Record>, now: seq<Record>, es: seq<Arrival>) {
    && |now| == |start| + |es|
    && (forall k :: 0 <= k < |start| ==> now[k] == start[k])
    && (forall k :: |start| <= k < |now| ==> now[k] == CallbackRecord(es[k - |start|].callback, es[k - |start|].now))
  }

  lemma StillAccepted(start: Db, db: Db, es: seq<Arrival>, e: Arrival)
    requires FirstVerdicts(start, es + [e])
    requires RecordsOf(start.records, db.records, es) && Delivered(start.images, db.images, es)
    ensures e.callback.image in start.images && Untouched(es, e.callback.image)
    ensures Accepts(db, e.callback, e.requireJob) && Neutral(db.images[e.callback.image].moderation)
  {
    var cb := e.callback;
    var all := es + [e];
    assert all[|es|] == e && forall n :: 0 <= n < |es| ==> all[n] == es[n];
    assert Untouched(es, cb.image);
    forall k | 0 <= k < |db.records| && cb.job.Some?
      ensures !SameJob(db.records[k], Machine(cb.provider), cb.job.value)
    {
      if k < |start.records| {
        assert !SameJob(start.records[k], Machine(cb.provider), cb.job.value);
      } else {
        assert db.records[k] == CallbackRecord(all[k - |start.records|].callback, all[k - |start.records|].now);
      }
    }
  }

  ghost predicate InProgress(start: Db, db: Db, es: seq<Arrival>) {
    && Consistent(db)
    && Delivered(start.images, db.images, es)
    && RecordsOf(start.records, db.records, es)
  }

  lemma ProgressNext(start: Db, db: Db, es: seq<Arrival>, e: Arrival)
    requires InProgress(start, db, es) && FirstVerdicts(start, es + [e])
    ensures InProgress(start, Arrive(db, e), es + [e])
  {
    StillAccepted(start, db, es, e);
    AcceptedCallback(db, e.callback, e.requireJob, e.now);
    DeliveredNext(start.images, db.images, es, e);
    RecordsNext(start.records, db.records, Arrive(db, e).records, es, e);
  }

  lemma RecordsNext(start: seq<Record>, now: seq<Record>, next: seq<Record>, es: seq<Arrival>, e: Arrival)
    requires RecordsOf(start, now, es) && next == now + [CallbackRecord(e.callback, e.now)]
    ensures RecordsOf(start, next, es + [e])
  {
  }

  /** Every first verdict is accepted, and images and records are those of the list. */
  lemma {:induction false} FirstVerdictsArrive(start: Db, es: seq<Arrival>)
    requires Consistent(start) && FirstVerdicts(start, es)
    ensures InProgress(start, ArriveAll(start, es), es)
  {
    if es != [] {
      var before, e := es[..|es| - 1], es[|es| - 1];
      assert es == before + [e];
      FirstVerdictsArrive(start, before);
      ProgressNext(start, ArriveAll(start, before), before, e);
    }
  }

  /**
   * After any number of first verdicts in any order, a post pending at the start has its one-shot evaluation. Nothing
   * is asked of other posts, so one that fell out of step spoils no other.
   */
  lemma {:induction false} FirstVerdictsGrade(start: Db, es: seq<Arrival>, p: PostId)
    requires Consistent(start) && FirstVerdicts(start, es) && Tracked(start, p) && OpenPost(start, p)
    ensures Graded(start, ArriveAll(start, es), p)
  {
    if es != [] {
      var before, e := es[..|es| - 1], es[|es| - 1];
      assert es == before + [e];
      FirstVerdictsArrive(start, before);
      FirstVerdictsGrade(start, before, p);
      StillAccepted(start, ArriveAll(start, before), before, e);
      VerdictKeepsGrade(start, ArriveAll(start, before), e.callback, e.requireJob, e.now, p);
    }
  }

  /** Such a list of callbacks is a run of the whole system. */
  lemma {:induction false} ArrivalsAreARun(db: Db, es: seq<Arrival>, events: seq<Event>)
    requires |events| == |es|
    requires forall n :: 0 <= n < |es| ==> events[n] == Receive(es[n].callback, es[n].requireJob, es[n].now)
    ensures ArriveAll(db, es) == Run(db, events)
  {
    if es != [] {
      ArrivalsAreARun(db, es[..|es| - 1], events[..|es| - 1]);
    }
  }

  function Callbacks(es: seq<Arrival>): set<Callback> { set n | 0 <= n < |es| :: es[n].callback }

  lemma SameFate(xs: seq<Arrival>, ys: seq<Arrival>, i: ImageId)
    requires Callbacks(xs) == Callbacks(ys)
    ensures (Untouched(xs, i) && Untouched(ys, i)) || exists v :: GotVerdict(xs, i, v) && GotVerdict(ys, i, v)
  {
    if n :| 0 <= n < |xs| && xs[n].callback.image == i {
      assert xs[n].callback in Callbacks(ys);
      var m :| 0 <= m < |ys| && ys[m].callback == xs[n].callback;
      assert GotVerdict(xs, i, xs[n].callback.verdict) && GotVerdict(ys, i, xs[n].callback.verdict);
    } else {
      forall m | 0 <= m < |ys|
        ensures ys[m].callback.image != i
      {
        assert ys[m].callback in Callbacks(xs);
      }
    }
  }

  lemma SameImagesDelivered(
    start: map<ImageId, Image>, a: map<ImageId, Image>, b: map<ImageId, Image>, xs: seq<Arrival>, ys: seq<Arrival>)
    requires Callbacks(xs) == Callbacks(ys)
    requires Delivered(start, a, xs) && Delivered(start, b, ys)
    ensures a == b
  {
    forall i | i in start
      ensures a[i] == b[i]
    {
      SameFate(xs, ys, i);
    }
  }

  /**
   * The order in which first verdicts arrive decides neither the images nor the status of any post that was pending.
   */
  lemma OrderDoesNotMatter(start: Db, xs: seq<Arrival>, ys: seq<Arrival>, p: PostId)
    requires Consistent(start) && FirstVerdicts(start, xs) && FirstVerdicts(start, ys) && Callbacks(xs) == Callbacks(ys)
    requires Tracked(start, p) && OpenPost(start, p)
    ensures var a, b := ArriveAll(start, xs), ArriveAll(start, ys);
      && a.images == b.images
      && p in a.posts && p in b.posts && a.posts[p] == b.posts[p]
      && TextVerdict(start, p).Some?
      && a.posts[p].status == Aggregate(TextVerdict(start, p).value, a.images, start.posts[p].images)
  {
    FirstVerdictsArrive(start, xs);
    FirstVerdictsArrive(start, ys);
    FirstVerdictsGrade(start, xs, p);
    FirstVerdictsGrade(start, ys, p);
    SameImagesDelivered(start.images, ArriveAll(start, xs).images, ArriveAll(start, ys).images, xs, ys);
  }

  /**
   * With two verdicts for one image the order does matter: a post with passed text and that single image ends approved
   * when the pass comes first and rejected when the block does, because a decided post is not revisited.
   */
  lemma SecondVerdictsDependOnOrder(db: Db, pass: Arrival, block: Arrival, p: PostId)
    requires Consistent(db) && Tracked(db, p) && OpenPost(db, p) && TextVerdict(db, p) == Some(Pass)
    requires FirstVerdicts(db, [pass]) && FirstVerdicts(db, [block])
    requires pass.callback.verdict.Pass? && block.callback.verdict.Block?
    requires pass.callback.image == block.callback.image && db.posts[p].images == {pass.callback.image}
    ensures var a, b := Arrive(Arrive(db, pass), block), Arrive(Arrive(db, block), pass);
      p in a.posts && p in b.posts && a.posts[p].status.Approved? && b.posts[p].status.Rejected?
  {
    FirstVerdictDecides(db, pass, p);
    FirstVerdictDecides(db, block, p);
    DecidedPostsAreNotRevisited(Arrive(db, pass), block.callback, block.requireJob, block.now, p);
    DecidedPostsAreNotRevisited(Arrive(db, block), pass.callback, pass.requireJob, pass.now, p);
  }

  lemma FirstVerdictDecides(db: Db, e: Arrival, p: PostId)
    requires Consistent(db) && Tracked(db, p) && OpenPost(db, p) && TextVerdict(db, p) == Some(Pass)
    requires FirstVerdicts(db, [e]) && !e.callback.verdict.Review? && db.posts[p].images == {e.callback.image}
    ensures var after := Arrive(db, e);
      && Consistent(after) && p in after.posts
      && after.posts[p].status == if e.callback.verdict.Pass? then Approved else Rejected
  {
    assert Accepts(db, [e][0].callback, [e][0].requireJob);
    AcceptedCallback(db, e.callback, e.requireJob, e.now);
    VerdictKeepsGrade(db, db, e.callback, e.requireJob, e.now, p);
    GradeOfOneImage(Arrive(db, e).images, e.callback.image, e.callback.verdict);
  }

  lemma GradeOfOneImage(images: map<ImageId, Image>, i: ImageId, v: Verdict)
    requires HasModeration(images, i, Judged(v))
    ensures Aggregate(Pass, images, {i}) == match v case Pass => Approved case Review => Pending case Block => Rejected
  {
    assert v != Pass ==> !HasModeration(images, i, Judged(Pass));
  }

  const SETUP: seq<Event> :=
    [Upload(5, 0), SetUploaded(5, true), Save(1, 7, {5}, true, TextReview(0, None, Pass), 0)]

  function OnImage5(job: JobId, verdict: Verdict): Event { Receive(Callback(5, None, 0, Some(job), verdict), true, 1) }

  lemma RunOfOne(db: Db, e: Event)
    ensures Run(db, [e]) == Step(db, e)
  {
    assert [e][..0] == [];
  }

  lemma RunOfTwo(db: Db, a: Event, b: Event)
    ensures Run(db, [a, b]) == Step(Step(db, a), b)
  {
    assert [a, b] == [a] + [b];
    RunAppend(db, [a], [b]);
    RunOfOne(db, a);
    RunOfOne(Run(db, [a]), b);
  }

  lemma RunOfThree(db: Db, a: Event, b: Event, c: Event)
    ensures Run(db, [a, b, c]) == Step(Step(Step(db, a), b), c)
  {
    assert [a, b, c] == [a, b] + [c];
    RunAppend(db, [a, b], [c]);
    RunOfTwo(db, a, b);
    RunOfOne(Run(db, [a, b]), c);
  }

  lemma SetupRun() returns (db: Db)
    ensures db == Run(EMPTY, SETUP) && Consistent(db) && 5 in db.images && db.images[5] == Image(Unjudged, 0, true)
    ensures Tracked(db, 1) && OpenPost(db, 1) && db.posts[1].images == {5} && TextVerdict(db, 1) == Some(Pass)
    ensures |db.records| == 1 && db.records[0].job.None?
  {
    var uploaded := UploadState(NewUpload(EMPTY, 5, 0), 5, true);
    RunOfThree(EMPTY, SETUP[0], SETUP[1], SETUP[2]);
    assert SETUP == [SETUP[0], SETUP[1], SETUP[2]];
    RunConsistent(SETUP);
    db := SavedWithImage(uploaded);
  }

  lemma SavedWithImage(uploaded: Db) returns (db: Db)
    requires uploaded.posts == map[] && uploaded.records == [] && uploaded.images == map[5 := Image(Unjudged, 0, true)]
    ensures db == SavePost(uploaded, 1, 7, {5}, true, TextReview(0, None, Pass), 0).0
    ensures Tracked(db, 1) && OpenPost(db, 1) && db.posts[1].images == {5} && TextVerdict(db, 1) == Some(Pass)
    ensures |db.records| == 1 && db.records[0].job.None? && db.images == uploaded.images
  {
    var review := TextReview(0, None, Pass);
    db := SavePost(uploaded, 1, 7, {5}, true, review, 0).0;
    assert !HasModeration(uploaded.images, 5, Judged(Pass)) && Usable(uploaded, {5});
    var record := TextRecord(1, 1, review, 0);
    assert db.records == [record];
    assert [record][..0] == [];
  }

  lemma OneFirstVerdict(db: Db, e: Arrival)
    requires Accepts(db, e.callback, e.requireJob) && db.images[e.callback.image].moderation.Unjudged?
    ensures FirstVerdicts(db, [e])
  {
  }

  /** Two verdicts for one image do arrive: the same post ends approved in one order and rejected in the other. */
  lemma SecondVerdictsHappen()
    ensures var a := Run(EMPTY, SETUP + [OnImage5(1, Pass), OnImage5(2, Block)]);
      var b := Run(EMPTY, SETUP + [OnImage5(2, Block), OnImage5(1, Pass)]);
      && 1 in a.posts && a.posts[1].status.Approved? && !UpToDate(a, 1)
      && 1 in b.posts && b.posts[1].status.Rejected? && !UpToDate(b, 1)
  {
    var db := SetupRun();
    var pass := Arrival(Callback(5, None, 0, Some(1), Pass), true, 1);
    var block := Arrival(Callback(5, None, 0, Some(2), Block), true, 1);
    OneFirstVerdict(db, pass);
    OneFirstVerdict(db, block);
    SecondVerdictsDependOnOrder(db, pass, block, 1);
    SecondArrival(db, pass, block);
    SecondArrival(db, block, pass);
  }

  lemma SecondArrival(db: Db, first: Arrival, second: Arrival)
    requires db == Run(EMPTY, SETUP) && Consistent(db) && Tracked(db, 1) && OpenPost(db, 1)
    requires TextVerdict(db, 1) == Some(Pass)
    requires db.posts[1].images == {5} && first.callback.image == second.callback.image == 5
    requires FirstVerdicts(db, [first]) && FirstVerdicts(db, [second])
    requires first.callback.provider == second.callback.provider && first.callback.job != second.callback.job
    requires !first.callback.verdict.Review?
    requires second.callback.verdict == if first.callback.verdict.Pass? then Block else Pass
    ensures var after := Run(EMPTY, SETUP + [Receive(first.callback, first.requireJob, first.now),
                                             Receive(second.callback, second.requireJob, second.now)]);
      && after == Arrive(Arrive(db, first), second)
      && 1 in after.posts && !UpToDate(after, 1)
  {
    var a := Receive(first.callback, first.requireJob, first.now);
    var b := Receive(second.callback, second.requireJob, second.now);
    SecondBreaks(db, first, second);
    RunAppend(EMPTY, SETUP, [a, b]);
    RunOfTwo(db, a, b);
  }

  // The second of two opposite verdicts on a post's only image leaves the post out of step.
  lemma SecondBreaks(db: Db, first: Arrival, second: Arrival)
    requires Consistent(db) && Tracked(db, 1) && OpenPost(db, 1) && TextVerdict(db, 1) == Some(Pass)
    requires db.posts[1].images == {5} && first.callback.image == second.callback.image == 5
    requires FirstVerdicts(db, [first]) && FirstVerdicts(db, [second])
    requires first.callback.provider == second.callback.provider && first.callback.job != second.callback.job
    requires !first.callback.verdict.Review?
    requires second.callback.verdict == if first.callback.verdict.Pass? then Block else Pass
    ensures var after := Arrive(Arrive(db, first), second); 1 in after.posts && !UpToDate(after, 1)
  {
    FirstVerdictDecides(db, first, 1);
    SecondAccepted(db, first, second);
    SecondOpposite(Arrive(db, first), second);
  }

  lemma SecondOpposite(once: Db, second: Arrival)
    requires Consistent(once) && Accepts(once, second.callback, second.requireJob) && second.callback.image == 5
    requires 1 in once.posts && once.posts[1].images == {5} && UpToDate(once, 1) && TextVerdict(once, 1) == Some(Pass)
    requires once.posts[1].status == if second.callback.verdict.Block? then Approved else Rejected
    requires !second.callback.verdict.Review?
    ensures var after := Arrive(once, second); 1 in after.posts && !UpToDate(after, 1)
  {
    LaterVerdictKeepsIff(once, second.callback, second.requireJob, second.now, 1);
    assert {5} - {5} == {};
  }

  lemma OtherJobStaysNew(records: seq<Record>, first: Arrival, second: Arrival)
    requires second.callback.job.Some? && first.callback.job != second.callback.job
    requires !JobRecorded(records, Machine(second.callback.provider), second.callback.job.value)
    ensures !JobRecorded(records + [CallbackRecord(first.callback, first.now)], Machine(second.callback.provider),
                         second.callback.job.value)
  {
  }

  lemma SecondAccepted(db: Db, first: Arrival, second: Arrival)
    requires Consistent(db) && Tracked(db, 1) && OpenPost(db, 1) && db.posts[1].images == {5}
    requires first.callback.image == second.callback.image == 5
    requires FirstVerdicts(db, [first]) && FirstVerdicts(db, [second])
    requires first.callback.provider == second.callback.provider && first.callback.job != second.callback.job
    ensures var once := Arrive(db, first);
      && Accepts(once, second.callback, second.requireJob)
      && 1 in once.posts && once.posts[1].images == {5} && UpToDate(once, 1)
      && TextVerdict(once, 1) == TextVerdict(db, 1)
  {
    var once := Arrive(db, first);
    assert Accepts(db, [first][0].callback, [first][0].requireJob)
      && Accepts(db, [second][0].callback, [second][0].requireJob);
    AcceptedCallback(db, first.callback, first.requireJob, first.now);
    VerdictKeepsGrade(db, db, first.callback, first.requireJob, first.now, 1);
    if second.callback.job.Some? { OtherJobStaysNew(db.records, first, second); }
  }

  // ---- Verdicts on images of posts that are already decided.

  /** The condition a caller can check: what the post is, the new verdict, the text, and the other images. */
  predicate LaterVerdictFits(db: Db, p: PostId, i: ImageId, v: Verdict)
    requires p in db.posts
  {
    if db.posts[p].status.Approved? then v.Pass?
    else v.Block? || TextVerdict(db, p) == Some(Block) || AnyBlocked(db.images, db.posts[p].images - {i})
  }

  lemma BlockedAfterVerdict(images: map<ImageId, Image>, used: set<ImageId>, i: ImageId, v: Verdict)
    requires i in used && i in images
    ensures var after := images[i := images[i].(moderation := Judged(v))];
      AnyBlocked(after, used) <==> v.Block? || AnyBlocked(images, used - {i})
  {
    var after := images[i := images[i].(moderation := Judged(v))];
    if j :| j in used && HasModeration(after, j, Judged(Block)) {
      assert j != i ==> j in used - {i} && HasModeration(images, j, Judged(Block));
    }
    if j :| j in used - {i} && HasModeration(images, j, Judged(Block)) {
      assert HasModeration(after, j, Judged(Block));
    }
    if v.Block? { assert HasModeration(after, i, Judged(Block)); }
  }

  lemma LaterVerdictAggregate(text: Verdict, images: map<ImageId, Image>, used: set<ImageId>, i: ImageId, v: Verdict)
    requires i in used && i in images
    ensures var after := images[i := images[i].(moderation := Judged(v))];
      && (Aggregate(text, after, used).Rejected? <==> v.Block? || text.Block? || AnyBlocked(images, used - {i}))
      && (Aggregate(text, images, used).Approved? ==> (Aggregate(text, after, used).Approved? <==> v.Pass?))
  {
    BlockedAfterVerdict(images, used, i, v);
    var after := images[i := images[i].(moderation := Judged(v))];
    if Aggregate(text, images, used).Approved? {
      forall j | j in used && j in after && v.Pass? ensures HasModeration(after, j, Judged(Pass)) {
        assert j != i ==> HasModeration(images, j, Judged(Pass));
      }
      assert AnyBlocked(images, used - {i}) ==> AnyBlocked(images, used);
      assert !v.Pass? ==> !HasModeration(after, i, Judged(Pass));
    }
  }

  lemma LaterVerdictShows(db: Db, after: Db, p: PostId, i: ImageId, record: Record)
    requires p in db.posts && i in db.posts[p].images && i in db.images && UpToDate(db, p)
    requires db.posts[p].status.Approved? || db.posts[p].status.Rejected?
    requires p in after.posts && after.posts[p] == db.posts[p] && record.target == OfImage(i)
    requires after.records == db.records + [record]
    requires after.images == db.images[i := db.images[i].(moderation := Judged(record.verdict))]
    ensures UpToDate(after, p) <==> LaterVerdictFits(db, p, i, record.verdict)
  {
    LatestIgnores(db.records, after.records, PostText(p, db.posts[p].revision));
    LaterVerdictAggregate(TextVerdict(db, p).value, db.images, db.posts[p].images, i, record.verdict);
  }

  /**
   * A result for an image of a decided post leaves the post as it is. The post still has its one-shot evaluation
   * exactly if it was approved and the new verdict is a pass, or was rejected and the verdict is a block, its text is
   * blocked or another of its images is.
   */
  lemma LaterVerdictKeepsIff(db: Db, cb: Callback, requireJob: bool, now: Time, p: PostId)
    requires Consistent(db) && Accepts(db, cb, requireJob) && p in db.posts && cb.image in db.posts[p].images
    requires (db.posts[p].status.Approved? || db.posts[p].status.Rejected?) && UpToDate(db, p)
    ensures var after := ApplyImageResult(db, cb, requireJob, now).0;
      && p in after.posts && after.posts[p] == db.posts[p]
      && (UpToDate(after, p) <==> LaterVerdictFits(db, p, cb.image, cb.verdict))
  {
    AcceptedCallback(db, cb, requireJob, now);
    DecidedPostsAreNotRevisited(db, cb, requireJob, now, p);
    LaterVerdictShows(db, ApplyImageResult(db, cb, requireJob, now).0, p, cb.image, CallbackRecord(cb, now));
  }

  /** The same holds of a manual review of one image. */
  lemma LaterReviewKeepsIff(db: Db, id: RecordId, reviewer: UserId, verdict: Verdict, now: Time, p: PostId)
    requires Consistent(db) && ManualReview(db, id, reviewer, verdict, now).1.Ok? && p in db.posts
    requires db.records[id].target.OfImage? && db.records[id].target.image in db.posts[p].images
    requires (db.posts[p].status.Approved? || db.posts[p].status.Rejected?) && UpToDate(db, p)
    ensures var after := ManualReview(db, id, reviewer, verdict, now).0;
      && p in after.posts && after.posts[p] == db.posts[p]
      && (UpToDate(after, p) <==> LaterVerdictFits(db, p, db.records[id].target.image, verdict))
  {
    var i := db.records[id].target.image;
    var record := ManualOf(db.records[id], id, verdict, now);
    ManualReviewCases(db, id, reviewer, verdict, now);
    JudgeKeeps(db, i, record, PendingPostsWith(db, {i}), now);
    LaterVerdictShows(db, ManualReview(db, id, reviewer, verdict, now).0, p, i, record);
  }

  // ---- Whole-post reviews of other posts.

  /** What a caller can check before the review of p: the images it will decide, the verdict, and post q as it is. */
  predicate LaterPostReviewFits(db: Db, p: PostId, q: PostId, v: Verdict)
    requires p in db.posts && q in db.posts
  {
    var touched, used := ImagesOf(db.records, ChosenOf(db, p)), db.posts[q].images;
    if db.posts[q].status.Approved? then v.Pass? || touched !! used
    else TextVerdict(db, q) == Some(Block) || AnyBlocked(db.images, used - touched) || (v.Block? && !(touched !! used))
  }

  lemma RejudgedBlocked(db: Db, touched: set<ImageId>, v: Verdict, used: set<ImageId>)
    requires touched <= db.images.Keys
    ensures AnyBlocked(Rejudged(db, touched, v).images, used) <==>
            AnyBlocked(db.images, used - touched) || (v.Block? && !(touched !! used))
  {
    var after := Rejudged(db, touched, v).images;
    if i :| i in used && HasModeration(after, i, Judged(Block)) {
      assert i !in touched ==> i in used - touched && HasModeration(db.images, i, Judged(Block));
      assert i in touched ==> i in touched * used;
    }
    if i :| i in used - touched && HasModeration(db.images, i, Judged(Block)) {
      assert HasModeration(after, i, Judged(Block));
    }
    if v.Block? && !(touched !! used) {
      var i :| i in touched && i in used;
      assert HasModeration(after, i, Judged(Block));
    }
  }

  lemma RejudgedPassed(db: Db, touched: set<ImageId>, v: Verdict, used: set<ImageId>)
    requires touched <= db.images.Keys && AllPassed(db.images, used)
    ensures AllPassed(Rejudged(db, touched, v).images, used) <==> v.Pass? || touched !! used
  {
    var after := Rejudged(db, touched, v).images;
    if !v.Pass? && !(touched !! used) {
      var i :| i in touched && i in used;
      assert !HasModeration(after, i, Judged(Pass));
    } else {
      forall i | i in used && i in after ensures HasModeration(after, i, Judged(Pass)) {
        assert HasModeration(db.images, i, Judged(Pass));
      }
    }
  }

  lemma RejudgedAggregate(text: Verdict, db: Db, touched: set<ImageId>, v: Verdict, used: set<ImageId>)
    requires touched <= db.images.Keys && !v.Review?
    ensures var after := Rejudged(db, touched, v).images;
      && (Aggregate(text, after, used).Rejected? <==>
            text.Block? || AnyBlocked(db.images, used - touched) || (v.Block? && !(touched !! used)))
      && (Aggregate(text, db.images, used).Approved? ==>
            (Aggregate(text, after, used).Approved? <==> v.Pass? || touched !! used))
  {
    RejudgedBlocked(db, touched, v, used);
    if Aggregate(text, db.images, used).Approved? {
      RejudgedPassed(db, touched, v, used);
      assert AnyBlocked(db.images, used - touched) ==> AnyBlocked(db.images, used);
    }
  }

  // The text of another post is not judged.
  lemma OtherTextStays(db: Db, p: PostId, v: Verdict, now: Time, q: PostId)
    requires p in db.posts && q in db.posts && q != p
    ensures var d := PostJudged(db, p, v, now); d.posts == db.posts && TextVerdict(d, q) == TextVerdict(db, q)
  {
    PostJudgedShape(db, p, v, now);
    OtherTexts(db, p, v, now, q);
    LatestIgnores(db.records, PostJudged(db, p, v, now).records, PostText(q, db.posts[q].revision));
  }

  // A decided post is not among those a review reconciles.
  lemma DecidedIsUntouched(db: Db, p: PostId, q: PostId)
    requires p in db.posts && q in db.posts && q != p && !db.posts[q].status.Pending?
    ensures q !in PostsTouched(db, p)
  {
  }

  lemma UnreconciledStays(d: Db, ids: set<PostId>, q: PostId)
    requires q in d.posts && q !in ids
    ensures var r := Reconciled(d, ids);
      q in r.posts && r.posts[q] == d.posts[q] && TextVerdict(r, q) == TextVerdict(d, q)
  {
    TextVerdictReads(d, Reconciled(d, ids), q);
  }

  // A successful review of p leaves every decided other post and its text as they were.
  lemma DecidedNeighbourStays(db: Db, p: PostId, reviewer: UserId, v: Verdict, now: Time, q: PostId)
    requires Consistent(db) && p in db.posts && ManualReviewPost(db, p, reviewer, v, now).1.Ok?
    requires q in db.posts && q != p && !db.posts[q].status.Pending?
    ensures var after := ManualReviewPost(db, p, reviewer, v, now).0;
      && q in after.posts && after.posts[q] == db.posts[q] && TextVerdict(after, q) == TextVerdict(db, q)
      && after.images == Rejudged(db, ImagesOf(db.records, ChosenOf(db, p)), v).images && !v.Review?
  {
    ReviewPostKeeps(db, p, reviewer, v, now);
    OtherTextStays(db, p, v, now, q);
    DecidedIsUntouched(db, p, q);
    var d := PostJudged(db, p, v, now);
    UnreconciledStays(d, PostsTouched(db, p), q);
    TextVerdictReads(Reconciled(d, PostsTouched(db, p)), ManualReviewPost(db, p, reviewer, v, now).0, q);
  }

  /**
   * A whole-post review of another post leaves a decided one as it is. The decided post still has its one-shot
   * evaluation exactly if it was approved and the verdict is a pass or touches none of its images, or was rejected and
   * its text or an untouched image is blocked, or the verdict is a block that touches one of its images.
   */
  lemma LaterPostReviewKeepsIff(db: Db, p: PostId, reviewer: UserId, v: Verdict, now: Time, q: PostId)
    requires Consistent(db) && p in db.posts && ManualReviewPost(db, p, reviewer, v, now).1.Ok?
    requires q in db.posts && q != p && UpToDate(db, q)
    requires db.posts[q].status.Approved? || db.posts[q].status.Rejected?
    ensures var after := ManualReviewPost(db, p, reviewer, v, now).0;
      && q in after.posts && after.posts[q] == db.posts[q]
      && (UpToDate(after, q) <==> LaterPostReviewFits(db, p, q, v))
  {
    DecidedNeighbourStays(db, p, reviewer, v, now, q);
    TouchedAreKnown(db, p);
    RejudgedAggregate(TextVerdict(db, q).value, db, ImagesOf(db.records, ChosenOf(db, p)), v, db.posts[q].images);
  }

  lemma TouchedAreKnown(db: Db, p: PostId)
    requires p in db.posts
    ensures ImagesOf(db.records, ChosenOf(db, p)) <= db.images.Keys
  {
  }
}
