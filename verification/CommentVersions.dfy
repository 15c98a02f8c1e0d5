/** Versions and threads of comments. */
module CommentVersions {
  import opened Common
  import opened Revisions

  type PostId = nat
  type CommentId = nat
  type UserId = nat
  type Content = int

  datatype Status = Unjudged | Pass | Review | Block

  datatype Reason = ByAuthor | ByAdmin | ByModeration

  datatype PostRow = PostRow(author: UserId, deleted: bool, published: bool)

  datatype Comment = Comment(
    post: PostId,
    author: UserId,
    parent: Option<CommentId>,
    root: Option<CommentId>,
    replyTo: UserId,
    content: Content,
    revision: nat,
    status: Status,
    deleted: Option<Reason>)

  // next is the identity column: greater than every id handed out.
  datatype Db = Db(
    posts: map<PostId, PostRow>, comments: map<CommentId, Comment>, next: CommentId,
    versions: map<CommentId, map<nat, Content>>)

  const EMPTY := Db(map[], map[], 1, map[])

  datatype ApiError =
    | PostNotFound | PostDeleted | PostNotPublished
    | CommentNotFound | CommentDeleted | NotOwner | Conflict

  // The place a new comment gets in its thread.
  datatype Place = Place(root: Option<CommentId>, replyTo: UserId)

  predicate Visible(c: Comment) { c.deleted.None? && c.status.Pass? }

  function VersionsOf(db: Db, id: CommentId): map<nat, Content> { if id in db.versions then db.versions[id] else map[] }

  // resolveCommentParent: a reply belongs to its parent's thread and answers its parent's author.
  function ResolveParent(db: Db, p: PostId, parent: Option<CommentId>, replyTo: Option<UserId>): Result<Place, ApiError>
    requires p in db.posts
  {
    match parent
    case None =>
      if replyTo.Some? && replyTo.value != db.posts[p].author then Err(Conflict)
      else Ok(Place(None, db.posts[p].author))
    case Some(id) =>
      if id == 0 then Err(Conflict)
      else if id !in db.comments then Err(CommentNotFound)
      else
        var c := db.comments[id];
        if c.deleted.Some? then Err(CommentDeleted)
        else if !c.status.Pass? then Err(CommentNotFound)
        else if c.post != p then Err(Conflict)
        else if c.root.Some? && (c.root.value !in db.comments || !Visible(db.comments[c.root.value])) then
          Err(CommentNotFound)
        else if replyTo.Some? && replyTo.value != c.author then Err(Conflict)
        else Ok(Place(Some(if c.root.Some? then c.root.value else id), c.author))
  }

  // ApplyModeration: a block deletes, anything else undoes a deletion.
  function Moderated(c: Comment, verdict: Status): Comment {
    c.(status := verdict, deleted := if verdict.Block? then Some(ByModeration) else None)
  }

  function Append(db: Db, id: CommentId, content: Content): Db
    requires id in db.comments
  {
    var r := NextRevision(VersionsOf(db, id));
    db.(comments := db.comments[id := db.comments[id].(content := content, revision := r)],
        versions := db.versions[id := VersionsOf(db, id)[r := content]])
  }

  function Create(
    db: Db, p: PostId, author: UserId, parent: Option<CommentId>, replyTo: Option<UserId>, content: Content,
    verdict: Status)
    : (Db, Result<CommentId, ApiError>)
  {
    if p !in db.posts then (db, Err(PostNotFound))
    else if db.posts[p].deleted then (db, Err(PostDeleted))
    else if !db.posts[p].published then (db, Err(PostNotPublished))
    else match ResolveParent(db, p, parent, replyTo)
      case Err(e) => (db, Err(e))
      case Ok(place) =>
        var c := Comment(p, author, parent, place.root, place.replyTo, content, 1, Unjudged, None);
        (db.(comments := db.comments[db.next := Moderated(c, verdict)],
             next := db.next + 1,
             versions := db.versions[db.next := map[1 := content]]), Ok(db.next))
  }

  // An author may still edit a comment that only moderation deleted.
  predicate Editable(c: Comment) { c.deleted.None? || c.deleted == Some(ByModeration) }

  function Update(
    db: Db, id: CommentId, actor: UserId, content: Content, verdict: Status): (Db, Result<nat, ApiError>)
  {
    if id !in db.comments then (db, Err(CommentNotFound))
    else
      var c := db.comments[id];
      if c.author != actor then (db, Err(NotOwner))
      else if !Editable(c) then (db, Err(CommentDeleted))
      else if c.post !in db.posts then (db, Err(PostNotFound))
      else if db.posts[c.post].deleted then (db, Err(PostDeleted))
      else
        var edited := Append(db, id, content);
        (edited.(comments := edited.comments[id := Moderated(edited.comments[id], verdict)]),
         Ok(edited.comments[id].revision))
  }

  function SoftDelete(db: Db, id: CommentId, reason: Reason): Db {
    if id in db.comments && db.comments[id].deleted.None?
    then db.(comments := db.comments[id := db.comments[id].(deleted := Some(reason))]) else db
  }

  function Judge(db: Db, id: CommentId, verdict: Status): Db {
    if id in db.comments then db.(comments := db.comments[id := Moderated(db.comments[id], verdict)]) else db
  }

  // Posts come and go, but keep their author.
  function SetPost(db: Db, p: PostId, row: PostRow): Db {
    if p in db.posts && db.posts[p].author != row.author then db else db.(posts := db.posts[p := row])
  }

  datatype Event =
    | NewComment(post: PostId, author: UserId, parent: Option<CommentId>, replyTo: Option<UserId>, content: Content,
                 verdict: Status)
    | Edit(id: CommentId, actor: UserId, content: Content, verdict: Status)
    | Delete(id: CommentId, reason: Reason)
    | Verdict(id: CommentId, verdict: Status)
    | Post(post: PostId, row: PostRow)

  function Step(db: Db, e: Event): Db {
    match e
    case NewComment(p, author, parent, replyTo, content, verdict) =>
      Create(db, p, author, parent, replyTo, content, verdict).0
    case Edit(id, actor, content, verdict) => Update(db, id, actor, content, verdict).0
    case Delete(id, reason) => SoftDelete(db, id, reason)
    case Verdict(id, verdict) => Judge(db, id, verdict)
    case Post(p, row) => SetPost(db, p, row)
  }

  function Run(db: Db, events: seq<Event>): Db {
    if events == [] then db else Step(Run(db, events[..|events| - 1]), events[|events| - 1])
  }

  // ---- Invariants ----------------------------------------------------------------------

  /** Revisions without gaps, the last written content under the pointer. */
  ghost predicate Versioned(db: Db, id: CommentId)
    requires id in db.comments
  {
    && id in db.versions && Contiguous(db.versions[id])
    && db.comments[id].revision == |db.versions[id]| >= 1
    && db.comments[id].revision in db.versions[id]
    && db.versions[id][db.comments[id].revision] == db.comments[id].content
  }

  /** A reply hangs below an earlier comment of the same post, in its thread, answering its author. */
  predicate Threaded(db: Db, id: CommentId)
    requires id in db.comments
  {
    var c := db.comments[id];
    && id < db.next && c.post in db.posts
    && match c.parent
       case None => c.root.None? && c.replyTo == db.posts[c.post].author
       case Some(p) =>
         && p in db.comments && p < id && db.comments[p].post == c.post
         && c.root == Some(if db.comments[p].root.Some? then db.comments[p].root.value else p)
         && c.replyTo == db.comments[p].author
         && c.root.value in db.comments && db.comments[c.root.value].parent.None?
         && db.comments[c.root.value].post == c.post
  }

  ghost predicate Sound(db: Db) {
    && (forall id :: id in db.versions ==> id < db.next)
    && forall id {:trigger Threaded(db, id)} {:trigger Versioned(db, id)} :: id in db.comments ==>
         Versioned(db, id) && Threaded(db, id)
  }

  // Everything about threads and versions the comment keeps.
  ghost predicate Alike(a: Db, b: Db, id: CommentId) {
    && id in a.comments && id in b.comments
    && a.comments[id].post == b.comments[id].post && a.comments[id].author == b.comments[id].author
    && a.comments[id].parent == b.comments[id].parent && a.comments[id].root == b.comments[id].root
    && a.comments[id].replyTo == b.comments[id].replyTo
  }

  lemma ThreadsStay(a: Db, b: Db, id: CommentId)
    requires id in a.comments && id in b.comments && Threaded(a, id) && a.next <= b.next
    requires forall i :: i in a.comments ==> Alike(a, b, i)
    requires forall p :: p in a.posts ==> p in b.posts && a.posts[p].author == b.posts[p].author
    ensures Threaded(b, id)
  {
    assert Alike(a, b, id);
    var c := a.comments[id];
    if c.parent.Some? { assert Alike(a, b, c.parent.value) && Alike(a, b, c.root.value); }
  }

  lemma UpdateKeeps(db: Db, id: CommentId, actor: UserId, content: Content, verdict: Status)
    requires Sound(db)
    ensures Sound(Update(db, id, actor, content, verdict).0)
  {
    var after := Update(db, id, actor, content, verdict).0;
    if Update(db, id, actor, content, verdict).1.Ok? {
      assert Versioned(db, id) && Threaded(db, id);
      ContiguousAppend(VersionsOf(db, id), content);
      NextIsOneMore(VersionsOf(db, id));
      forall i | i in after.comments
        ensures Versioned(after, i) && Threaded(after, i)
      {
        assert Versioned(db, i) && Threaded(db, i);
        ThreadsStay(db, after, i);
      }
    }
  }

  lemma CreateKeeps(
    db: Db, p: PostId, author: UserId, parent: Option<CommentId>, replyTo: Option<UserId>, content: Content,
    verdict: Status)
    requires Sound(db)
    ensures Sound(Create(db, p, author, parent, replyTo, content, verdict).0)
  {
    var (after, r) := Create(db, p, author, parent, replyTo, content, verdict);
    if r.Ok? {
      forall i | i in db.comments ensures i < db.next { assert Threaded(db, i); }
      if parent.Some? { assert Threaded(db, parent.value); }
      forall i | i in after.comments
        ensures Versioned(after, i) && Threaded(after, i)
      {
        if i != db.next {
          assert Versioned(db, i) && Threaded(db, i);
          ThreadsStay(db, after, i);
        } else {
          assert after.versions[i].Keys == {1};
        }
      }
    }
  }

  // A change of status or of posts concerns neither versions nor threads.
  lemma FlagsKeep(a: Db, b: Db)
    requires Sound(a) && a.versions == b.versions && a.next == b.next && a.comments.Keys == b.comments.Keys
    requires forall i :: i in a.comments ==>
      && Alike(a, b, i) && a.comments[i].content == b.comments[i].content
      && a.comments[i].revision == b.comments[i].revision
    requires forall p :: p in a.posts ==> p in b.posts && a.posts[p].author == b.posts[p].author
    ensures Sound(b)
  {
    forall i | i in b.comments
      ensures Versioned(b, i) && Threaded(b, i)
    {
      assert Versioned(a, i) && Threaded(a, i);
      ThreadsStay(a, b, i);
    }
  }

  lemma StepKeeps(db: Db, e: Event)
    requires Sound(db)
    ensures Sound(Step(db, e))
  {
    match e
    case NewComment(p, author, parent, replyTo, content, verdict) =>
      CreateKeeps(db, p, author, parent, replyTo, content, verdict);
    case Edit(id, actor, content, verdict) => UpdateKeeps(db, id, actor, content, verdict);
    case Delete(id, reason) => FlagsKeep(db, SoftDelete(db, id, reason));
    case Verdict(id, verdict) => FlagsKeep(db, Judge(db, id, verdict));
    case Post(p, row) => FlagsKeep(db, SetPost(db, p, row));
  }

  /**
   * In every reachable state each comment's revisions run from one, its row shows the newest of them, and it hangs in
   * the thread of its parent below one top-level comment of the same post.
   */
  lemma {:induction false} CommentsAreSound(events: seq<Event>)
    ensures Sound(Run(EMPTY, events))
  {
    if events == [] {
    } else {
      CommentsAreSound(events[..|events| - 1]);
      StepKeeps(Run(EMPTY, events[..|events| - 1]), events[|events| - 1]);
    }
  }

  lemma VersionLasts(db: Db, e: Event, id: CommentId, r: nat)
    requires Sound(db) && id in db.versions && r in db.versions[id]
    ensures var after := Step(db, e);
      id in after.versions && r in after.versions[id] && after.versions[id][r] == db.versions[id][r]
  {
  }

  /** No version is ever lost or overwritten. */
  lemma {:induction false} VersionsLast(events: seq<Event>, n: nat, id: CommentId, r: nat)
    requires n <= |events| && id in Run(EMPTY, events[..n]).versions && r in Run(EMPTY, events[..n]).versions[id]
    ensures var before, after := Run(EMPTY, events[..n]), Run(EMPTY, events);
      id in after.versions && r in after.versions[id] && after.versions[id][r] == before.versions[id][r]
    decreases |events|
  {
    if n < |events| {
      var last := |events| - 1;
      assert events[..last][..n] == events[..n];
      VersionsLast(events[..last], n, id, r);
      CommentsAreSound(events[..last]);
      VersionLasts(Run(EMPTY, events[..last]), events[last], id, r);
    } else {
      assert events[..n] == events;
    }
  }

  /** Two comments of one thread have the same root, and the root is in no other thread. */
  lemma OneRootPerThread(events: seq<Event>, id: CommentId)
    requires id in Run(EMPTY, events).comments
    ensures var db := Run(EMPTY, events);
      var c := db.comments[id];
      && (c.root.Some? <==> c.parent.Some?)
      && (c.root.Some? ==> c.root.value in db.comments && db.comments[c.root.value].root.None? && c.root.value < id)
  {
    CommentsAreSound(events);
    var db := Run(EMPTY, events);
    assert Threaded(db, id);
    var c := db.comments[id];
    if c.parent.Some? { assert Threaded(db, c.root.value) && Threaded(db, c.parent.value); }
  }

  /** No edit brings back a comment its author or an administrator deleted. */
  lemma EditNeverRevives(db: Db, id: CommentId, actor: UserId, content: Content, verdict: Status)
    requires id in db.comments && db.comments[id].deleted.Some? && !db.comments[id].deleted.value.ByModeration?
    ensures Update(db, id, actor, content, verdict).0 == db && Update(db, id, actor, content, verdict).1.Err?
  {
  }

  // ---- What each operation answers and writes ----------------------------------------------

  predicate Shown(c: Comment) { c.deleted == None && c.status == Pass }

  predicate PostOpen(db: Db, p: PostId) { p in db.posts && !db.posts[p].deleted && db.posts[p].published }

  /** A comment that can be replied to: shown, on this post, in a thread that starts with a shown comment. */
  predicate Answerable(db: Db, p: PostId, id: CommentId) {
    && id != 0 && id in db.comments && Shown(db.comments[id]) && db.comments[id].post == p
    && (db.comments[id].root.Some? ==>
          db.comments[id].root.value in db.comments && Shown(db.comments[db.comments[id].root.value]))
  }

  // Whom a comment answers, if it can be written at all: the parent's author, or the post's.
  function Addressee(db: Db, p: PostId, parent: Option<CommentId>): Option<UserId> {
    match parent
    case None => if p in db.posts then Some(db.posts[p].author) else None
    case Some(id) => if id in db.comments then Some(db.comments[id].author) else None
  }

  /**
   * A comment is written exactly on an open post, below nothing or an answerable comment, and addressed to nobody else
   * than the parent's author. The new row is judged at once: a block hides it, anything else shows its verdict.
   */
  lemma CreateExactly(
    db: Db, p: PostId, author: UserId, parent: Option<CommentId>, replyTo: Option<UserId>, content: Content,
    verdict: Status)
    ensures var (after, r) := Create(db, p, author, parent, replyTo, content, verdict);
      && (r.Ok? <==> PostOpen(db, p) && (parent.Some? ==> Answerable(db, p, parent.value))
                     && (replyTo.Some? ==> replyTo == Addressee(db, p, parent)))
      && (r.Err? ==> after == db)
      && (r.Ok? ==>
            && r.value == db.next && after.next == db.next + 1 && after.posts == db.posts
            && after.versions == db.versions[db.next := map[1 := content]]
            && after.comments == db.comments[db.next :=
                 Comment(p, author, parent, ThreadOf(db, parent), Addressee(db, p, parent).value, content, 1, verdict,
                         if verdict == Block then Some(ByModeration) else None)])
  {
  }

  function ThreadOf(db: Db, parent: Option<CommentId>): Option<CommentId> {
    if parent.Some? && parent.value in db.comments && db.comments[parent.value].root.Some?
    then db.comments[parent.value].root else parent
  }

  /** Why a comment is refused. */
  lemma CreateRefusals(
    db: Db, p: PostId, author: UserId, parent: Option<CommentId>, replyTo: Option<UserId>, content: Content,
    verdict: Status)
    ensures var r := Create(db, p, author, parent, replyTo, content, verdict).1;
      && (r == Err(PostNotFound) <==> p !in db.posts)
      && (r == Err(PostDeleted) <==> p in db.posts && db.posts[p].deleted)
      && (r == Err(PostNotPublished) <==> p in db.posts && !db.posts[p].deleted && !db.posts[p].published)
      && (r == Err(CommentDeleted) <==>
            PostOpen(db, p) && parent.Some? && parent.value != 0 && parent.value in db.comments
            && db.comments[parent.value].deleted != None)
      && (r == Err(Conflict) <==>
            && PostOpen(db, p)
            && (|| parent == Some(0)
                || (parent.Some? && parent.value in db.comments && Shown(db.comments[parent.value])
                    && db.comments[parent.value].post != p)
                || ((parent.Some? ==> Answerable(db, p, parent.value))
                    && replyTo.Some? && replyTo != Addressee(db, p, parent))))
      && r != Err(NotOwner)
  {
  }

  /**
   * An edit is refused exactly to others than its author, of a comment that is deleted other than by moderation, and on
   * a post that is deleted. A refused edit changes nothing.
   */
  lemma UpdateRefusals(db: Db, id: CommentId, actor: UserId, content: Content, verdict: Status)
    ensures var (after, r) := Update(db, id, actor, content, verdict);
      && (r == Err(CommentNotFound) <==> id !in db.comments)
      && (id in db.comments ==>
            var c := db.comments[id];
            var gone := c.deleted != None && c.deleted != Some(ByModeration);
            && (r == Err(NotOwner) <==> c.author != actor)
            && (r == Err(CommentDeleted) <==> c.author == actor && gone)
            && (r == Err(PostNotFound) <==> c.author == actor && !gone && c.post !in db.posts)
            && (r == Err(PostDeleted) <==> c.author == actor && !gone && c.post in db.posts && db.posts[c.post].deleted)
            && (r.Ok? <==> c.author == actor && !gone && c.post in db.posts && !db.posts[c.post].deleted))
      && (r.Err? ==> after == db)
  {
  }

  /** An edit writes the next version and judges the comment anew, which may show it again. */
  lemma UpdateExactly(db: Db, id: CommentId, actor: UserId, content: Content, verdict: Status)
    requires Sound(db) && Update(db, id, actor, content, verdict).1.Ok?
    ensures var (after, r) := Update(db, id, actor, content, verdict);
      && id in db.comments && id in db.versions
      && var older: map<nat, Content> := db.versions[id];
      && r.value == |older| + 1 && after.posts == db.posts && after.next == db.next
      && after.versions == db.versions[id := older[r.value := content]]
      && after.comments == db.comments[id := db.comments[id].(
           content := content, revision := r.value, status := verdict,
           deleted := if verdict == Block then Some(ByModeration) else None)]
  {
    assert Versioned(db, id);
    NextIsOneMore(VersionsOf(db, id));
  }

  /** A deletion marks a comment that is not deleted; a verdict blocks it or undoes any deletion. */
  lemma FlagsExactly(db: Db, id: CommentId, reason: Reason, verdict: Status)
    requires id in db.comments
    ensures var c := db.comments[id];
      && SoftDelete(db, id, reason) ==
         (if c.deleted == None then db.(comments := db.comments[id := c.(deleted := Some(reason))]) else db)
      && Judge(db, id, verdict) == db.(comments := db.comments[id := c.(status := verdict,
           deleted := if verdict == Block then Some(ByModeration) else None)])
  {
  }

  // ---- The service --------------------------------------------------------------------

  class CommentService {
    var posts: map<PostId, PostRow>
    var comments: map<CommentId, Comment>
    var next: CommentId
    var versions: map<CommentId, map<nat, Content>>

    constructor ()
      ensures Contents() == EMPTY
    {
      posts, comments, next, versions := map[], map[], 1, map[];
    }

    function Contents(): Db
      reads this
    {
      Db(posts, comments, next, versions)
    }

    method ResolveCommentParent(p: PostId, parent: Option<CommentId>, replyTo: Option<UserId>)
      returns (r: Result<Place, ApiError>)
      requires p in posts
      ensures r == ResolveParent(Contents(), p, parent, replyTo)
    {
      if parent.None? {
        if replyTo.Some? && replyTo.value != posts[p].author { return Err(Conflict); }
        return Ok(Place(None, posts[p].author));
      }
      if parent.value == 0 { return Err(Conflict); }
      if parent.value !in comments { return Err(CommentNotFound); }
      var c := comments[parent.value];
      if c.deleted.Some? { return Err(CommentDeleted); }
      if c.status != Pass { return Err(CommentNotFound); }
      if c.post != p { return Err(Conflict); }
      var root := parent.value;
      if c.root.Some? {
        root := c.root.value;
        if root !in comments { return Err(CommentNotFound); }
        if comments[root].deleted.Some? || comments[root].status != Pass { return Err(CommentNotFound); }
      }
      if replyTo.Some? && replyTo.value != c.author { return Err(Conflict); }
      return Ok(Place(Some(root), c.author));
    }

    method ApplyModeration(id: CommentId, verdict: Status)
      modifies this`comments
      ensures Contents() == Judge(old(Contents()), id, verdict)
    {
      if id in comments {
        var c := comments[id].(status := verdict);
        c := c.(deleted := if verdict.Block? then Some(ByModeration) else None);
        comments := comments[id := c];
      }
    }

    method CreateComment(
      p: PostId, author: UserId, parent: Option<CommentId>, replyTo: Option<UserId>, content: Content, verdict: Status)
      returns (r: Result<CommentId, ApiError>)
      modifies this
      ensures (Contents(), r) == Create(old(Contents()), p, author, parent, replyTo, content, verdict)
    {
      if p !in posts { return Err(PostNotFound); }
      if posts[p].deleted { return Err(PostDeleted); }
      if !posts[p].published { return Err(PostNotPublished); }
      var place := ResolveCommentParent(p, parent, replyTo);
      if place.Err? { return Err(place.error); }
      var id := next;
      next := next + 1;
      var comment := Comment(p, author, parent, place.value.root, place.value.replyTo, content, 1, Unjudged, None);
      comments := comments[id := comment];
      versions := versions[id := map[1 := content]];
      ApplyModeration(id, verdict);
      assert comments == old(comments)[id := comments[id]];
      return Ok(id);
    }

    method UpdateComment(id: CommentId, actor: UserId, content: Content, verdict: Status)
      returns (r: Result<nat, ApiError>)
      modifies this
      ensures (Contents(), r) == Update(old(Contents()), id, actor, content, verdict)
    {
      if id !in comments { return Err(CommentNotFound); }
      var c := comments[id];
      if c.author != actor { return Err(NotOwner); }
      if c.deleted.Some? && c.deleted != Some(ByModeration) { return Err(CommentDeleted); }
      if c.post !in posts { return Err(PostNotFound); }
      if posts[c.post].deleted { return Err(PostDeleted); }
      var revision := NextRevision(VersionsOf(Contents(), id));
      comments := comments[id := comments[id].(content := content, revision := revision)];
      versions := versions[id := VersionsOf(Contents(), id)[revision := content]];
      ApplyModeration(id, verdict);
      return Ok(revision);
    }
  }
}
