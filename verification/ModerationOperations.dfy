/** What each moderation operation does to the tables, one committed transaction at a time. */
module ModerationOperations {
  import opened Common
  import opened ImageAccessRow
  import opened ModerationState

  datatype ApiError =
    | InvalidInput | Internal
    | ImageNotFound | RecordNotFound | PostNotFound | HistoryNotFound | PostDeleted
    | CallbackMismatch | NotReviewable | WholePostOnly | AlreadyReviewed | NotPending
    | NotRestorable | ImageNotApproved | NotOwner

  // What a callback reports back: a duplicate, or how many posts it moved.
  datatype Applied = Duplicate | Moved(approved: nat, rejected: nat)

  datatype Callback = Callback(
    image: ImageId,
    key: Option<nat>,
    provider: nat,
    job: Option<JobId>,
    verdict: Verdict)

  function CallbackRecord(cb: Callback, now: Time): Record {
    Record(OfImage(cb.image), Machine(cb.provider), cb.job, cb.verdict, None, now)
  }

  /** A record about an image together with everything it causes; None when the intent trigger refuses it. */
  function Judge(db: Db, i: ImageId, record: Record, posts: set<PostId>, now: Time): Option<Db>
    requires i in db.images
  {
    Access(Reconciled(WithModeration(Append(db, record), i, Judged(record.verdict)), posts),
           i, |db.records|, record.verdict.Pass?, PurgeRequired(record.verdict.Pass?, db.images[i].moderation), now)
  }

  // ApplyImageCallback asks for a job number, ApplyImageResult does not.
  function ApplyImageResult(db: Db, cb: Callback, requireJob: bool, now: Time): (Db, Result<Applied, ApiError>) {
    if cb.image == 0 || (requireJob && cb.job.None?) then (db, Err(InvalidInput))
    else if cb.image !in db.images then (db, Err(ImageNotFound))
    else if (cb.key.Some? && cb.key.value != db.images[cb.image].key) || !db.images[cb.image].uploaded then
      (db, Err(CallbackMismatch))
    else if cb.job.Some? && JobRecorded(db.records, Machine(cb.provider), cb.job.value) then
      DuplicateResult(db, cb, now)
    else
      var posts := PendingPostsWith(db, {cb.image});
      var judged := WithModeration(Append(db, CallbackRecord(cb, now)), cb.image, Judged(cb.verdict));
      match Judge(db, cb.image, CallbackRecord(cb, now), posts, now)
      case None => (db, Err(Internal))
      case Some(after) => (after, Ok(Moved(|ApprovedOf(judged, posts)|, |RejectedOf(judged, posts)|)))
  }

  /** A callback whose job number is already recorded. */
  function DuplicateResult(db: Db, cb: Callback, now: Time): (Db, Result<Applied, ApiError>)
    requires cb.image in db.images
    requires cb.job.Some? && JobRecorded(db.records, Machine(cb.provider), cb.job.value)
  {
    var existing := FindJob(db.records, Machine(cb.provider), cb.job.value).value;
    var current := db.images[cb.image].moderation;
    var public := current == Judged(Pass);
    if db.records[existing].target != OfImage(cb.image) then (db, Err(CallbackMismatch))
    else match Access(db, cb.image, existing, public, PurgeRequired(public, current), now)
      case None => (db, Err(Internal))
      case Some(after) => (after, Ok(Duplicate))
  }

  function ManualOf(original: Record, id: RecordId, verdict: Verdict, now: Time): Record {
    original.(provider := Manual, job := None, verdict := verdict, supersedes := Some(id), createdAt := now)
  }

  // validateMachineReviewRecord
  predicate MachineNonPass(record: Record) { !record.provider.Manual? && !record.verdict.Pass? }

  /** Manual review of one record; a post and the images of pending posts are reviewed as a whole instead. */
  function ManualReview(
    db: Db, id: RecordId, reviewer: UserId, verdict: Verdict, now: Time): (Db, Result<RecordId, ApiError>)
  {
    if reviewer == 0 || verdict.Review? then (db, Err(InvalidInput))
    else if id >= |db.records| then (db, Err(RecordNotFound))
    else
      var original := db.records[id];
      if !MachineNonPass(original) then (db, Err(NotReviewable))
      else match original.target
        case PostText(_, _) => (db, Err(WholePostOnly))
        case OfImage(i) =>
          if PendingPostsWith(db, {i}) != {} then (db, Err(WholePostOnly))
          else if Superseded(db.records, id) then (db, Err(AlreadyReviewed))
          else if i !in db.images then (db, Err(Internal))
          else match Judge(db, i, ManualOf(original, id, verdict, now), PendingPostsWith(db, {i}), now)
            case None => (db, Err(Internal))
            case Some(after) => (after, Ok(|db.records|))
  }

  /** The unreviewed machine records of a post's current text and images that a whole-post review decides. */
  predicate Chosen(db: Db, p: PostId, k: RecordId)
    requires p in db.posts
  {
    && k < |db.records|
    && MachineNonPass(db.records[k]) && !Superseded(db.records, k)
    && match db.records[k].target
       case PostText(q, revision) =>
         q == p && revision == db.posts[p].revision && Latest(db.records, PostText(p, revision)) == Some(k)
       case OfImage(i) =>
         i in db.posts[p].images && HasModeration(db.images, i, Judged(db.records[k].verdict))
  }

  function ChosenOf(db: Db, p: PostId): set<RecordId>
    requires p in db.posts
  {
    set k | 0 <= k < |db.records| && Chosen(db, p, k)
  }

  function ManualRecords(records: seq<Record>, chosen: seq<RecordId>, verdict: Verdict, now: Time): seq<Record>
    requires forall n :: 0 <= n < |chosen| ==> chosen[n] < |records|
  {
    seq(|chosen|, n requires 0 <= n < |chosen| => ManualOf(records[chosen[n]], chosen[n], verdict, now))
  }

  function ImagesOf(records: seq<Record>, chosen: set<RecordId>): set<ImageId> {
    set k | k in chosen && k < |records| && records[k].target.OfImage? :: records[k].target.image
  }

  function Rejudged(db: Db, touched: set<ImageId>, verdict: Verdict): Db {
    db.(images := map i | i in db.images ::
          if i in touched then db.images[i].(moderation := Judged(verdict)) else db.images[i])
  }

  /** One access intent per image record from `from` on; the purge decision looks at the moderation of before. */
  function AccessFrom(db: Db, from: RecordId, verdict: Verdict, before: map<ImageId, Image>, now: Time): Option<Db>
    decreases |db.records| - from
  {
    if from >= |db.records| then Some(db)
    else match db.records[from].target
      case PostText(_, _) => AccessFrom(db, from + 1, verdict, before, now)
      case OfImage(i) =>
        if i !in before then AccessFrom(db, from + 1, verdict, before, now)
        else match Access(db, i, from, verdict.Pass?, PurgeRequired(verdict.Pass?, before[i].moderation), now)
          case None => None
          case Some(next) => AccessFrom(next, from + 1, verdict, before, now)
  }

  predicate AllJudged(images: map<ImageId, Image>, used: set<ImageId>) {
    forall i :: i in used && i in images ==> images[i].moderation.Judged?
  }

  /** The tables after the manual records and the new image verdicts, before posts are reconciled. */
  function PostJudged(db: Db, p: PostId, verdict: Verdict, now: Time): Db
    requires p in db.posts
  {
    var chosen := ChosenOf(db, p);
    assert forall n :: 0 <= n < |Ascending(chosen)| ==> Ascending(chosen)[n] in Ascending(chosen);
    Rejudged(db.(records := db.records + ManualRecords(db.records, Ascending(chosen), verdict, now)),
             ImagesOf(db.records, chosen), verdict)
  }

  // Pending posts sharing a decided image, and the post itself.
  function PostsTouched(db: Db, p: PostId): set<PostId>
    requires p in db.posts
  {
    PendingPostsWith(db, ImagesOf(db.records, ChosenOf(db, p))) + {p}
  }

  function ManualReviewPost(
    db: Db, p: PostId, reviewer: UserId, verdict: Verdict, now: Time): (Db, Result<nat, ApiError>)
  {
    if p == 0 || reviewer == 0 || verdict.Review? then (db, Err(InvalidInput))
    else if p !in db.posts then (db, Err(PostNotFound))
    else
      var post := db.posts[p];
      if !Live(post) then (db, Err(PostDeleted))
      else if !Reviewable(post) || !AllJudged(db.images, post.images) then (db, Err(NotPending))
      else if TextVerdict(db, p).None? || ChosenOf(db, p) == {} then (db, Err(NotPending))
      else
        match AccessFrom(Reconciled(PostJudged(db, p, verdict, now), PostsTouched(db, p)),
                         |db.records|, verdict, db.images, now)
        case None => (db, Err(Internal))
        case Some(after) => (after, Ok(|ChosenOf(db, p)|))
  }

  /** Administrative verdicts on a list of images, in order. */
  function JudgeEach(db: Db, ids: seq<ImageId>, provider: Provider, verdict: Verdict, now: Time): Option<Db>
    decreases |ids|
  {
    if ids == [] then Some(db)
    else if ids[0] !in db.images then JudgeEach(db, ids[1..], provider, verdict, now)
    else match Judge(db, ids[0], Record(OfImage(ids[0]), provider, None, verdict, None, now), {}, now)
      case None => None
      case Some(next) => JudgeEach(next, ids[1..], provider, verdict, now)
  }

  function Deleted(db: Db, p: PostId, reason: Option<DeleteReason>): Db
    requires p in db.posts
  {
    db.(posts := db.posts[p := db.posts[p].(deleted := reason)])
  }

  predicate UsedByLive(db: Db, i: ImageId) {
    exists q :: q in db.posts && Live(db.posts[q]) && i in db.posts[q].images
  }

  /** The images of a deleted post that no live post uses and that are not blocked yet. */
  function ToBlock(db: Db, used: set<ImageId>): set<ImageId> {
    set i | i in used && i in db.images && !UsedByLive(db, i) && db.images[i].moderation != Judged(Block)
  }

  // The author's own endpoint refuses other users; the administrator's records who deleted.
  function DeletePost(db: Db, p: PostId, actor: UserId, admin: bool, now: Time): (Db, Result<nat, ApiError>) {
    if p !in db.posts then (db, Err(PostNotFound))
    else
      var post := db.posts[p];
      if !Live(post) then (db, Err(PostDeleted))
      else if !admin && post.author != actor then (db, Err(NotOwner))
      else
        var gone := Deleted(db, p, Some(if post.author == actor then ByAuthor else ByAdmin));
        var ids := ToBlock(gone, post.images);
        match JudgeEach(gone, Ascending(ids), AdminPostDelete, Block, now)
        case None => (db, Err(Internal))
        case Some(after) => (after, Ok(|ids|))
  }

  predicate BlockedByDelete(db: Db, i: ImageId) {
    && HasModeration(db.images, i, Judged(Block))
    && var latest := Latest(db.records, OfImage(i));
       latest.Some? && db.records[latest.value].provider.AdminPostDelete?
  }

  function Restorable(db: Db, used: set<ImageId>): set<ImageId> { set i | i in used && BlockedByDelete(db, i) }

  function RestoreImages(db: Db, used: set<ImageId>, now: Time): Option<Db> {
    JudgeEach(db, Ascending(Restorable(db, used)), AdminRestore, Pass, now)
  }

  function RestoreRecord(p: PostId, revision: nat, now: Time): Record {
    Record(PostText(p, revision), AdminRestore, None, Pass, None, now)
  }

  function RestorePost(db: Db, p: PostId, actor: UserId, now: Time): (Db, Result<RecordId, ApiError>) {
    if p !in db.posts then (db, Err(PostNotFound))
    else
      var post := db.posts[p];
      if Live(post) || post.author == actor then (db, Err(NotRestorable))
      else match RestoreImages(db, post.images, now)
        case None => (db, Err(Internal))
        case Some(restored) => RestoreWith(db, restored, p, now)
  }

  // The rest of RestorePost, once the images a deletion had blocked are back.
  function RestoreWith(db: Db, restored: Db, p: PostId, now: Time): (Db, Result<RecordId, ApiError>)
    requires p in db.posts
  {
    var post := db.posts[p];
    if post.status.Approved? && !AllPassed(restored.images, post.images) then (db, Err(ImageNotApproved))
    else (Append(restored, RestoreRecord(p, post.revision, now)).(posts := db.posts[p := post.(deleted := None)]),
          Ok(|restored.records|))
  }

  // A synchronous text review of one post revision.
  datatype TextReview = TextReview(provider: nat, job: Option<JobId>, verdict: Verdict)

  function TextRecord(p: PostId, revision: nat, review: TextReview, now: Time): Record {
    Record(PostText(p, revision), Machine(review.provider), review.job, review.verdict, None, now)
  }

  predicate JobTaken(db: Db, review: TextReview) {
    review.job.Some? && JobRecorded(db.records, Machine(review.provider), review.job.value)
  }

  predicate Usable(db: Db, used: set<ImageId>) {
    forall i :: i in used ==> i in db.images && db.images[i].moderation != Judged(Block)
  }

  /** Create and Update: the saved revision is reviewed at once and the status is the one-shot evaluation. */
  function SavePost(db: Db, p: PostId, author: UserId, used: set<ImageId>, publish: bool, review: TextReview, now: Time)
    : (Db, Result<PostStatus, ApiError>)
  {
    if p in db.posts && !Live(db.posts[p]) then (db, Err(PostDeleted))
    else if p in db.posts && db.posts[p].author != author then (db, Err(NotOwner))
    else if exists i :: i in used && i !in db.images then (db, Err(ImageNotFound))
    else if !Usable(db, used) then (db, Err(ImageNotApproved))
    else if publish && JobTaken(db, review) then (db, Err(Internal))
    else
      var revision := if p in db.posts then db.posts[p].lastRevision + 1 else 1;
      var status := if publish then Aggregate(review.verdict, db.images, used) else Draft;
      var saved := db.(posts := db.posts[p := Post(author, status, None, revision, revision, used)]);
      (if publish then Append(saved, TextRecord(p, revision, review, now)) else saved, Ok(status))
  }

  /** The author moves the pointer back to an earlier revision, which also undeletes the post. */
  function RestoreHistory(
    db: Db, p: PostId, actor: UserId, revision: nat, used: set<ImageId>, review: TextReview, now: Time)
    : (Db, Result<PostStatus, ApiError>)
  {
    if p !in db.posts then (db, Err(PostNotFound))
    else
      var post := db.posts[p];
      if post.author != actor then (db, Err(NotOwner))
      else if revision == 0 || revision > post.lastRevision then (db, Err(HistoryNotFound))
      else match HistoryBase(db, p, used, now)
        case None => (db, Err(Internal))
        case Some(restored) => HistoryWith(db, restored, p, revision, used, review, now)
  }

  // Only a deleted post first takes back the images its deletion had blocked.
  function HistoryBase(db: Db, p: PostId, used: set<ImageId>, now: Time): Option<Db>
    requires p in db.posts
  {
    if Live(db.posts[p]) then Some(db) else RestoreImages(db, used, now)
  }

  // The rest of RestoreHistory: the status is the one-shot evaluation of that revision's last verdict.
  function HistoryWith(
    db: Db, restored: Db, p: PostId, revision: nat, used: set<ImageId>, review: TextReview, now: Time)
    : (Db, Result<PostStatus, ApiError>)
    requires p in db.posts
  {
    var source := Latest(db.records, PostText(p, revision));
    if exists i :: i in used && i !in restored.images then (db, Err(ImageNotFound))
    else if !Usable(restored, used) then (db, Err(ImageNotApproved))
    else if source.None? && JobTaken(restored, review) then (db, Err(Internal))
    else
      var verdict := if source.Some? then db.records[source.value].verdict else review.verdict;
      var status := Aggregate(verdict, restored.images, used);
      var moved := restored.(posts := db.posts[p :=
                     db.posts[p].(status := status, deleted := None, revision := revision, images := used)]);
      (if source.Some? then moved else Append(moved, TextRecord(p, revision, review, now)), Ok(status))
  }

  // A write of the image-access worker to one delivery row.
  datatype DeliveryWrite =
    | Lease(token: Token, until: Time)
    | Columns(updates: Updates)
    | Release(token: Token, now: Time)

  function Rewritten(row: Delivery, w: DeliveryWrite): Delivery {
    match w
    case Lease(token, until) => Claimed(row, token, until)
    case Columns(u) => Apply(row, u)
    case Release(token, now) => Released(row, token, now)
  }

  function Worked(db: Db, i: ImageId, w: DeliveryWrite): Db {
    if i in db.deliveries then db.(deliveries := db.deliveries[i := Rewritten(db.deliveries[i], w)]) else db
  }

  function NewUpload(db: Db, i: ImageId, key: nat): Db {
    if i == 0 || i in db.images then db else db.(images := db.images[i := Image(Unjudged, key, false)])
  }

  // Completed, or retired and its URL purged.
  function UploadState(db: Db, i: ImageId, uploaded: bool): Db {
    if i in db.images then db.(images := db.images[i := db.images[i].(uploaded := uploaded)]) else db
  }

  /** Every transaction that may touch these tables. Failed requests are steps that change nothing. */
  datatype Event =
    | Upload(image: ImageId, key: nat)
    | SetUploaded(image: ImageId, uploaded: bool)
    | Save(post: PostId, author: UserId, used: set<ImageId>, publish: bool, review: TextReview, now: Time)
    | History(post: PostId, actor: UserId, revision: nat, used: set<ImageId>, review: TextReview, now: Time)
    | Receive(callback: Callback, requireJob: bool, now: Time)
    | ReviewRecord(record: RecordId, reviewer: UserId, verdict: Verdict, now: Time)
    | ReviewPost(post: PostId, reviewer: UserId, verdict: Verdict, now: Time)
    | Delete(post: PostId, actor: UserId, admin: bool, now: Time)
    | Restore(post: PostId, actor: UserId, now: Time)
    | Work(image: ImageId, write: DeliveryWrite)

  function Step(db: Db, e: Event): Db {
    match e
    case Upload(i, key) => NewUpload(db, i, key)
    case SetUploaded(i, uploaded) => UploadState(db, i, uploaded)
    case Save(p, author, used, publish, review, now) => SavePost(db, p, author, used, publish, review, now).0
    case History(p, actor, revision, used, review, now) => RestoreHistory(db, p, actor, revision, used, review, now).0
    case Receive(cb, requireJob, now) => ApplyImageResult(db, cb, requireJob, now).0
    case ReviewRecord(id, reviewer, verdict, now) => ManualReview(db, id, reviewer, verdict, now).0
    case ReviewPost(p, reviewer, verdict, now) => ManualReviewPost(db, p, reviewer, verdict, now).0
    case Delete(p, actor, admin, now) => DeletePost(db, p, actor, admin, now).0
    case Restore(p, actor, now) => RestorePost(db, p, actor, now).0
    case Work(i, w) => Worked(db, i, w)
  }

  function Run(db: Db, events: seq<Event>): Db {
    if events == [] then db else Step(Run(db, events[..|events| - 1]), events[|events| - 1])
  }
}
