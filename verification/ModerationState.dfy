/** The tables the moderation verdicts live in, and the row-level meaning of each statement on them. */
module ModerationState {
  import opened Common
  import opened ImageAccessRow
  import opened ImageAccessOutbox

  type PostId = nat
  type RecordId = nat
  type UserId = nat

  datatype Verdict = Pass | Review | Block

  // image_assets.moderation: 'pending' until the first verdict.
  datatype Moderation = Unjudged | Judged(verdict: Verdict)

  datatype Provider = Manual | AdminPostDelete | AdminRestore | Machine(name: nat)

  datatype Target = PostText(post: PostId, revision: nat) | OfImage(image: ImageId)

  datatype Record = Record(
    target: Target,
    provider: Provider,
    job: Option<JobId>,
    verdict: Verdict,
    supersedes: Option<RecordId>,
    createdAt: Time)

  datatype PostStatus = Draft | Pending | Approved | Rejected

  datatype DeleteReason = ByAuthor | ByAdmin | ByModeration

  datatype Post = Post(
    author: UserId,
    status: PostStatus,
    deleted: Option<DeleteReason>,
    revision: nat,
    lastRevision: nat,
    images: set<ImageId>)

  datatype Image = Image(moderation: Moderation, key: nat, uploaded: bool)

  // A record's id is its position in the append-only log.
  datatype Db = Db(
    posts: map<PostId, Post>,
    images: map<ImageId, Image>,
    records: seq<Record>,
    intents: map<RecordId, Intent>,
    nextIntent: nat,
    deliveries: map<ImageId, Delivery>)

  const EMPTY := Db(map[], map[], [], map[], 1, map[])

  predicate Live(post: Post) { post.deleted.None? }

  predicate HasModeration(images: map<ImageId, Image>, i: ImageId, m: Moderation) {
    i in images && images[i].moderation == m
  }

  // ORDER BY created_at DESC, id DESC LIMIT 1 over the records of one target.
  function Latest(records: seq<Record>, target: Target): (r: Option<RecordId>)
    ensures r.Some? ==> r.value < |records| && records[r.value].target == target
  {
    if records == [] then None
    else
      var last := |records| - 1;
      var earlier := Latest(records[..last], target);
      if records[last].target == target
         && (earlier.None? || records[earlier.value].createdAt <= records[last].createdAt)
      then Some(last)
      else earlier
  }

  /** Latest is the greatest record of the target by (created_at, id), and exists when the target has any record. */
  lemma {:induction false} LatestIsGreatest(records: seq<Record>, target: Target, k: RecordId)
    requires k < |records| && records[k].target == target
    ensures var r := Latest(records, target);
      && r.Some?
      && (records[k].createdAt < records[r.value].createdAt
          || (records[k].createdAt == records[r.value].createdAt && k <= r.value))
  {
    var last := |records| - 1;
    if k < last {
      LatestIsGreatest(records[..last], target, k);
    }
  }

  function TextVerdict(db: Db, p: PostId): Option<Verdict>
    requires p in db.posts
  {
    var r := Latest(db.records, PostText(p, db.posts[p].revision));
    if r.Some? then Some(db.records[r.value].verdict) else None
  }

  predicate AnyBlocked(images: map<ImageId, Image>, used: set<ImageId>) {
    exists i :: i in used && HasModeration(images, i, Judged(Block))
  }

  predicate AllPassed(images: map<ImageId, Image>, used: set<ImageId>) {
    forall i :: i in used && i in images ==> HasModeration(images, i, Judged(Pass))
  }

  /** The one-shot evaluation of a post, used when its author saves it. */
  function Aggregate(text: Verdict, images: map<ImageId, Image>, used: set<ImageId>): PostStatus {
    if text == Block || AnyBlocked(images, used) then Rejected
    else if text == Review || !AllPassed(images, used) then Pending
    else Approved
  }

  predicate Reviewable(post: Post) { Live(post) && (post.status.Pending? || post.status.Rejected?) }

  // The WHERE clauses of the two UPDATEs of ReconcilePendingPosts.
  predicate MustReject(db: Db, p: PostId)
    requires p in db.posts
  {
    && Reviewable(db.posts[p])
    && (AnyBlocked(db.images, db.posts[p].images) || TextVerdict(db, p) == Some(Block))
  }

  predicate MustApprove(db: Db, p: PostId)
    requires p in db.posts
  {
    && Reviewable(db.posts[p])
    && AllPassed(db.images, db.posts[p].images)
    && TextVerdict(db, p) == Some(Pass)
  }

  function RejectedOf(db: Db, ids: set<PostId>): set<PostId> {
    set p | p in ids && p in db.posts && MustReject(db, p)
  }

  function ApprovedOf(db: Db, ids: set<PostId>): set<PostId> {
    set p | p in ids && p in db.posts && MustApprove(db, p)
  }

  function WithStatus(db: Db, ids: set<PostId>, status: PostStatus): Db {
    db.(posts := map p | p in db.posts :: if p in ids then db.posts[p].(status := status) else db.posts[p])
  }

  /** Both UPDATEs at once. */
  function Reconciled(db: Db, ids: set<PostId>): Db {
    db.(posts := map p | p in db.posts ::
          if p in ids && MustReject(db, p) then db.posts[p].(status := Rejected)
          else if p in ids && MustApprove(db, p) then db.posts[p].(status := Approved)
          else db.posts[p])
  }

  /** No post satisfies both WHERE clauses. */
  lemma RejectExcludesApprove(db: Db, p: PostId)
    requires p in db.posts && MustReject(db, p)
    ensures !MustApprove(db, p)
  {
    if AnyBlocked(db.images, db.posts[p].images) {
      var i :| i in db.posts[p].images && HasModeration(db.images, i, Judged(Block));
      assert !HasModeration(db.images, i, Judged(Pass));
    }
  }

  lemma TextVerdictReads(a: Db, b: Db, p: PostId)
    requires p in a.posts && p in b.posts && a.records == b.records && a.posts[p].revision == b.posts[p].revision
    ensures TextVerdict(a, p) == TextVerdict(b, p)
  {
  }

  /**
   * Run one after the other, the two UPDATEs do what the joint form says, and the counts they report are of disjoint
   * sets.
   */
  lemma UpdatesAreExclusive(db: Db, ids: set<PostId>)
    ensures var first := WithStatus(db, RejectedOf(db, ids), Rejected);
      && ApprovedOf(first, ids) == ApprovedOf(db, ids)
      && ApprovedOf(db, ids) !! RejectedOf(db, ids)
      && WithStatus(first, ApprovedOf(first, ids), Approved) == Reconciled(db, ids)
  {
    var first := WithStatus(db, RejectedOf(db, ids), Rejected);
    forall p | p in db.posts && MustReject(db, p)
      ensures !MustApprove(db, p)
    {
      RejectExcludesApprove(db, p);
    }
    forall p | p in db.posts
      ensures MustApprove(first, p) <==> MustApprove(db, p)
    {
      TextVerdictReads(first, db, p);
      assert Reviewable(first.posts[p]) <==> Reviewable(db.posts[p]);
    }
    assert ApprovedOf(first, ids) == ApprovedOf(db, ids);
    assert WithStatus(first, ApprovedOf(first, ids), Approved).posts == Reconciled(db, ids).posts;
  }

  /**
   * For a reviewable post with a text verdict, reconciliation is the one-shot evaluation, except that it never moves
   * a post back to pending.
   */
  lemma ReconcileIsAggregate(db: Db, ids: set<PostId>, p: PostId)
    requires p in ids && p in db.posts && Reviewable(db.posts[p]) && TextVerdict(db, p).Some?
    ensures var now := Aggregate(TextVerdict(db, p).value, db.images, db.posts[p].images);
      Reconciled(db, ids).posts[p].status == if now.Pending? then db.posts[p].status else now
  {
    if AnyBlocked(db.images, db.posts[p].images) {
      assert MustReject(db, p);
    }
  }

  /** Reconciling again, with the same or other posts, changes no post that was already reconciled. */
  lemma ReconcileTwice(db: Db, ids: set<PostId>, more: set<PostId>)
    requires more <= ids
    ensures Reconciled(Reconciled(db, ids), more) == Reconciled(db, ids)
  {
    var once := Reconciled(db, ids);
    forall p | p in db.posts
      ensures MustReject(once, p) <==> p in db.posts && Reviewable(once.posts[p]) && MustReject(db, p)
      ensures MustApprove(once, p) <==> Reviewable(once.posts[p]) && MustApprove(db, p)
    {
      TextVerdictReads(once, db, p);
    }
    forall p | p in db.posts
      ensures Reconciled(once, more).posts[p] == once.posts[p]
    {
      if MustReject(db, p) { RejectExcludesApprove(db, p); }
    }
    assert Reconciled(once, more).posts == once.posts;
  }

  function Append(db: Db, record: Record): Db { db.(records := db.records + [record]) }

  function WithModeration(db: Db, i: ImageId, m: Moderation): Db {
    if i in db.images then db.(images := db.images[i := db.images[i].(moderation := m)]) else db
  }

  function DeliveryOf(db: Db, i: ImageId): Option<Delivery> {
    if i in db.deliveries then Some(db.deliveries[i]) else None
  }

  predicate PurgeRequired(public: bool, previous: Moderation) {
    !public || previous == Judged(Block) || previous == Judged(Review)
  }

  /** The trigger on image_access_intents: an intent agrees with the verdict it comes from. */
  predicate IntentFits(db: Db, i: ImageId, source: RecordId, public: bool) {
    && source < |db.records|
    && db.records[source].target == OfImage(i)
    && (public <==> db.records[source].verdict.Pass?)
  }

  /** A first-seen source appends an intent and moves the delivery; None stands for the trigger's exception. */
  function Access(db: Db, i: ImageId, source: RecordId, public: bool, purge: bool, now: Time): Option<Db> {
    if source in db.intents then Some(db)
    else if !IntentFits(db, i, source, public) then None
    else Some(db.(
                intents := db.intents[source := Intent(db.nextIntent, i, public)],
                nextIntent := db.nextIntent + 1,
                deliveries := db.deliveries[i := Enqueued(DeliveryOf(db, i), db.nextIntent, public, purge, now)]))
  }

  function PendingPostsWith(db: Db, used: set<ImageId>): set<PostId> {
    set p | p in db.posts && Live(db.posts[p]) && db.posts[p].status.Pending? && db.posts[p].images * used != {}
  }

  predicate Superseded(records: seq<Record>, k: RecordId) {
    exists m :: 0 <= m < |records| && records[m].supersedes == Some(k)
  }

  predicate SameJob(record: Record, provider: Provider, job: JobId) {
    record.provider == provider && record.job == Some(job)
  }

  predicate JobRecorded(records: seq<Record>, provider: Provider, job: JobId) {
    exists k :: 0 <= k < |records| && SameJob(records[k], provider, job)
  }

  // WHERE provider = ? AND provider_job_id = ?
  function FindJob(records: seq<Record>, provider: Provider, job: JobId): (r: Option<RecordId>)
    ensures r.Some? ==> r.value < |records| && SameJob(records[r.value], provider, job)
    ensures r.None? ==> !JobRecorded(records, provider, job)
  {
    if records == [] then None
    else if SameJob(records[|records| - 1], provider, job) then Some(|records| - 1)
    else FindJob(records[..|records| - 1], provider, job)
  }

  lemma SmallestExists(s: set<nat>) returns (m: nat)
    requires s != {}
    ensures m in s && forall k :: k in s ==> m <= k
  {
    m :| m in s;
    var rest := s - {m};
    while rest != {}
      invariant m in s && rest <= s && forall k :: k in s && k !in rest ==> m <= k
      decreases |rest|
    {
      var k :| k in rest;
      if k < m { m := k; }
      rest := rest - {k};
    }
  }

  function Smallest(s: set<nat>): (m: nat)
    requires s != {}
    ensures m in s && forall k :: k in s ==> m <= k
  {
    assert exists m :: m in s && forall k :: k in s ==> m <= k by { var m := SmallestExists(s); }
    var m :| m in s && forall k :: k in s ==> m <= k;
    m
  }

  // ORDER BY id
  function Ascending(s: set<nat>): (r: seq<nat>)
    ensures forall k :: k in r <==> k in s
    ensures |r| == |s|
    ensures forall a, b :: 0 <= a < b < |r| ==> r[a] < r[b]
  {
    if s == {} then []
    else
      var m := Smallest(s);
      [m] + Ascending(s - {m})
  }

  predicate Ascends(r: seq<nat>) { forall a, b :: 0 <= a < b < |r| ==> r[a] < r[b] }

  lemma TailMembers(r: seq<nat>)
    requires r != [] && Ascends(r)
    ensures Ascends(r[1..])
    ensures forall k :: k in r[1..] <==> k in r && k != r[0]
    ensures forall k :: k in r ==> r[0] <= k
  {
    assert r == [r[0]] + r[1..];
  }

  lemma FirstIsMember(r: seq<nat>)
    ensures r != [] ==> r[0] in r
  {
  }

  lemma {:induction false} SameMembersSameList(a: seq<nat>, b: seq<nat>)
    requires Ascends(a) && Ascends(b) && forall k :: k in a <==> k in b
    ensures a == b
  {
    FirstIsMember(a);
    FirstIsMember(b);
    if a != [] && b != [] {
      TailMembers(a);
      TailMembers(b);
      SameMembersSameList(a[1..], b[1..]);
      assert a == [a[0]] + a[1..] && b == [b[0]] + b[1..];
    }
  }

  /** There is one strictly ascending list of a set, so every caller locks the same rows in the same order. */
  lemma AscendingUnique(r: seq<nat>, s: set<nat>)
    requires Ascends(r) && forall k :: k in r <==> k in s
    ensures r == Ascending(s)
  {
    SameMembersSameList(r, Ascending(s));
  }

  /** An element below all others comes first. */
  lemma AscendingCons(m: nat, rest: set<nat>)
    requires forall k :: k in rest ==> m < k
    ensures Ascending({m} + rest) == [m] + Ascending(rest)
  {
    var s := {m} + rest;
    assert m in s && Smallest(s) == m;
    assert s - {m} == rest;
  }
}
