/** Versions of posts under edits, tag renames, tag merges and restores of old versions. */
module PostVersions {
  import opened Common
  import opened Revisions

  type PostId = nat
  type TagId = nat

  // The unique index on tags is on the folded name.
  datatype Name = Name(spelling: nat, folded: nat)

  datatype Tag = Tag(name: Name, deleted: bool)

  // body stands for every column and relation of a post except its tags.
  datatype Post = Post(body: nat, revision: nat)

  datatype Snapshot = Snapshot(body: nat, names: set<Name>)

  type Versions = map<nat, Snapshot>

  datatype Db = Db(
    posts: map<PostId, Post>,
    tags: map<TagId, Tag>,
    links: set<(PostId, TagId)>,
    versions: map<PostId, Versions>)

  datatype ApiError =
    | InvalidInput | TagNotFound | NameTaken | TargetDeleted | PostNotFound | VersionNotFound | TagUnusable

  const EMPTY := Db(map[], map[], {}, map[])

  // LoadSnapshotRelations: deleted tags stay in snapshots.
  function NamesOf(db: Db, p: PostId): set<Name> {
    set l | l in db.links && l.0 == p && l.1 in db.tags :: db.tags[l.1].name
  }

  function Current(db: Db, p: PostId): Snapshot
    requires p in db.posts
  {
    Snapshot(db.posts[p].body, NamesOf(db, p))
  }

  function VersionsOf(db: Db, p: PostId): Versions { if p in db.versions then db.versions[p] else map[] }

  /** The main row is the version its pointer names. */
  ghost predicate Kept(db: Db, p: PostId)
    requires p in db.posts
  {
    && p in db.versions && Contiguous(db.versions[p])
    && db.posts[p].revision in db.versions[p]
    && db.versions[p][db.posts[p].revision] == Current(db, p)
  }

  ghost predicate Sound(db: Db) {
    && (forall p :: p in db.posts ==> Kept(db, p))
    && (forall l :: l in db.links ==> l.0 in db.posts && l.1 in db.tags)
    && UniqueNames(db.tags)
  }

  ghost predicate UniqueNames(tags: map<TagId, Tag>) {
    forall a, b :: a in tags && b in tags && tags[a].name.folded == tags[b].name.folded ==> a == b
  }

  // ---- Operations -------------------------------------------------------------------------

  /** A new version of each listed post, holding its main row as it is now; the pointers move to them. */
  function Appended(db: Db, affected: set<PostId>): Db {
    db.(posts := map p | p in db.posts ::
          if p in affected then db.posts[p].(revision := NextRevision(VersionsOf(db, p))) else db.posts[p],
        versions := map p | p in db.versions.Keys + (affected * db.posts.Keys) ::
          if p in affected && p in db.posts then VersionsOf(db, p)[NextRevision(VersionsOf(db, p)) := Current(db, p)]
          else VersionsOf(db, p))
  }

  function Linked(db: Db, tag: TagId): set<PostId> { set l | l in db.links && l.1 == tag :: l.0 }

  predicate Taken(db: Db, tag: TagId, name: Name) {
    exists other :: other in db.tags && other != tag && db.tags[other].name.folded == name.folded
  }

  function Renamed(db: Db, tag: TagId, name: Name): Db
    requires tag in db.tags
  {
    db.(tags := db.tags[tag := db.tags[tag].(name := name)])
  }

  function RenameTag(db: Db, tag: TagId, name: Name): (Db, Result<Tag, ApiError>) {
    if tag !in db.tags then (db, Err(TagNotFound))
    else if db.tags[tag].name == name then (db, Ok(db.tags[tag]))
    else if Taken(db, tag, name) then (db, Err(NameTaken))
    else (Appended(Renamed(db, tag, name), Linked(db, tag)), Ok(db.tags[tag].(name := name)))
  }

  // MergeTagRelations
  function Relinked(db: Db, source: TagId, target: TagId): Db
    requires source in db.tags
  {
    db.(links := (set l | l in db.links + (set p | p in Linked(db, source) :: (p, target)) && l.1 != source),
        tags := db.tags[source := db.tags[source].(deleted := true)])
  }

  function MergeTag(db: Db, source: TagId, target: TagId): (Db, Result<nat, ApiError>) {
    if target == 0 || source == target then (db, Err(InvalidInput))
    else if source !in db.tags || target !in db.tags then (db, Err(TagNotFound))
    else if db.tags[target].deleted then (db, Err(TargetDeleted))
    else (Appended(Relinked(db, source, target), Linked(db, source)), Ok(|Linked(db, source)|))
  }

  function SetTagDeleted(db: Db, tag: TagId, deleted: bool): (Db, Result<Tag, ApiError>) {
    if tag !in db.tags then (db, Err(TagNotFound))
    else (db.(tags := db.tags[tag := db.tags[tag].(deleted := deleted)]), Ok(db.tags[tag].(deleted := deleted)))
  }

  // A post with its content and tag relations replaced, its versions and pointer as they were.
  function Rewritten(db: Db, p: PostId, body: nat, used: set<TagId>): Db {
    db.(posts := db.posts[p := Post(body, if p in db.posts then db.posts[p].revision else 1)],
        links := (set l | l in db.links && l.0 != p) + (set t | t in used :: (p, t)))
  }

  /** Creating or editing a post: the replaced row becomes its next version. */
  function SavePost(db: Db, p: PostId, body: nat, used: set<TagId>): (Db, Result<nat, ApiError>) {
    if exists t :: t in used && (t !in db.tags || db.tags[t].deleted) then (db, Err(TagUnusable))
    else (Appended(Rewritten(db, p, body, used), {p}), Ok(NextRevision(VersionsOf(db, p))))
  }

  /** A tag created for a name no tag has yet. */
  function CreateTag(db: Db, tag: TagId, name: Name): Db {
    if tag == 0 || tag in db.tags || Taken(db, tag, name) then db else db.(tags := db.tags[tag := Tag(name, false)])
  }

  // The tags a snapshot's names resolve to: equal under case folding.
  function TagsNamed(db: Db, names: set<Name>): set<TagId> {
    set t | t in db.tags && exists n :: n in names && db.tags[t].name.folded == n.folded
  }

  predicate Resolvable(db: Db, names: set<Name>) {
    && (forall n :: n in names ==> exists t :: t in db.tags && db.tags[t].name.folded == n.folded)
    && (forall t :: t in TagsNamed(db, names) ==> !db.tags[t].deleted)
  }

  /** Restoring version r moves the pointer back; names without a tag have been created as tags before. */
  function RestoreVersion(db: Db, p: PostId, r: nat): (Db, Result<nat, ApiError>) {
    if p !in db.posts then (db, Err(PostNotFound))
    else if r !in VersionsOf(db, p) then (db, Err(VersionNotFound))
    else
      var version := VersionsOf(db, p)[r];
      if !Resolvable(db, version.names) then (db, Err(TagUnusable))
      else
        var moved := Rewritten(db, p, version.body, TagsNamed(db, version.names));
        (moved.(posts := moved.posts[p := moved.posts[p].(revision := r)]), Ok(r))
  }

  datatype Event =
    | Save(post: PostId, body: nat, used: set<TagId>)
    | NewTag(tag: TagId, name: Name)
    | Rename(tag: TagId, name: Name)
    | Merge(source: TagId, target: TagId)
    | SetDeleted(tag: TagId, deleted: bool)
    | Restore(post: PostId, version: nat)

  function Step(db: Db, e: Event): Db {
    match e
    case Save(p, body, used) => SavePost(db, p, body, used).0
    case NewTag(tag, name) => CreateTag(db, tag, name)
    case Rename(tag, name) => RenameTag(db, tag, name).0
    case Merge(source, target) => MergeTag(db, source, target).0
    case SetDeleted(tag, deleted) => SetTagDeleted(db, tag, deleted).0
    case Restore(p, r) => RestoreVersion(db, p, r).0
  }

  function Run(db: Db, events: seq<Event>): Db {
    if events == [] then db else Step(Run(db, events[..|events| - 1]), events[|events| - 1])
  }

  // ---- What every operation keeps ----------------------------------------------------------

  // The rows whose versions the snapshot of p depends on.
  ghost predicate SameNames(a: Db, b: Db, p: PostId) { NamesOf(a, p) == NamesOf(b, p) }

  /** Appending versions of the posts a change touched keeps every main row equal to its version. */
  lemma AppendedKeeps(a: Db, b: Db, affected: set<PostId>, p: PostId)
    requires p in b.posts && a.versions == b.versions
    requires p in a.posts ==> Kept(a, p) && a.posts[p].revision == b.posts[p].revision
    requires p !in a.posts ==> p in affected && p !in a.versions
    requires p !in affected ==> a.posts[p] == b.posts[p] && SameNames(a, b, p)
    ensures p in Appended(b, affected).posts && Kept(Appended(b, affected), p)
    ensures |VersionsOf(Appended(b, affected), p)| == |VersionsOf(a, p)| + if p in affected then 1 else 0
  {
    var c := Appended(b, affected);
    assert NamesOf(c, p) == NamesOf(b, p);
    if p in affected { ContiguousAppend(VersionsOf(b, p), Current(b, p)); }
  }

  lemma RenameSeenByLinked(db: Db, tag: TagId, name: Name, p: PostId)
    requires tag in db.tags && p !in Linked(db, tag)
    ensures SameNames(db, Renamed(db, tag, name), p)
  {
    assert forall l :: l in db.links && l.0 == p ==> l.1 != tag;
  }

  lemma RenameKeeps(db: Db, tag: TagId, name: Name)
    requires Sound(db)
    ensures Sound(RenameTag(db, tag, name).0)
  {
    if tag in db.tags && db.tags[tag].name != name && !Taken(db, tag, name) {
      var b := Renamed(db, tag, name);
      forall p | p in db.posts
        ensures p in Appended(b, Linked(db, tag)).posts && Kept(Appended(b, Linked(db, tag)), p)
      {
        if p !in Linked(db, tag) { RenameSeenByLinked(db, tag, name, p); }
        AppendedKeeps(db, b, Linked(db, tag), p);
      }
    }
  }

  /** A merge gives every post of the source exactly its tags without the source and with the target. */
  lemma MergeLinks(db: Db, source: TagId, target: TagId, p: PostId)
    requires source in db.tags && target != source
    ensures var before, after := TagsOf(db, p), TagsOf(Relinked(db, source, target), p);
      after == if p in Linked(db, source) then before - {source} + {target} else before
  {
    var r := Relinked(db, source, target);
    assert source in TagsOf(db, p) <==> p in Linked(db, source) by {
      if source in TagsOf(db, p) { assert (p, source) in db.links; }
    }
    forall t
      ensures t in TagsOf(r, p) <==>
        t in if p in Linked(db, source) then TagsOf(db, p) - {source} + {target} else TagsOf(db, p)
    {
      assert t in TagsOf(r, p) <==> (p, t) in r.links;
      assert t in TagsOf(db, p) <==> (p, t) in db.links;
    }
  }

  function TagsOf(db: Db, p: PostId): set<TagId> { set l | l in db.links && l.0 == p :: l.1 }

  lemma NamesFollowTags(a: Db, b: Db, p: PostId)
    requires TagsOf(a, p) == TagsOf(b, p) && forall t :: t in a.tags <==> t in b.tags
    requires forall t :: t in a.tags ==> a.tags[t].name == b.tags[t].name
    ensures SameNames(a, b, p)
  {
    forall n
      ensures n in NamesOf(a, p) <==> n in NamesOf(b, p)
    {
      if n in NamesOf(a, p) {
        var l :| l in a.links && l.0 == p && l.1 in a.tags && a.tags[l.1].name == n;
        assert l.1 in TagsOf(b, p);
      }
      if n in NamesOf(b, p) {
        var l :| l in b.links && l.0 == p && l.1 in b.tags && b.tags[l.1].name == n;
        assert l.1 in TagsOf(a, p);
      }
    }
  }

  lemma MergeKeeps(db: Db, source: TagId, target: TagId)
    requires Sound(db)
    ensures Sound(MergeTag(db, source, target).0)
  {
    if MergeTag(db, source, target).1.Ok? {
      var b := Relinked(db, source, target);
      forall p | p in db.posts
        ensures p in Appended(b, Linked(db, source)).posts && Kept(Appended(b, Linked(db, source)), p)
      {
        MergeLinks(db, source, target, p);
        if p !in Linked(db, source) { NamesFollowTags(db, b, p); }
        AppendedKeeps(db, b, Linked(db, source), p);
      }
    }
  }

  lemma DeleteFlagKeeps(db: Db, tag: TagId, deleted: bool)
    requires Sound(db)
    ensures Sound(SetTagDeleted(db, tag, deleted).0)
  {
    var b := SetTagDeleted(db, tag, deleted).0;
    forall p | p in db.posts
      ensures Kept(b, p)
    {
      NamesFollowTags(db, b, p);
    }
  }

  lemma CreateTagKeeps(db: Db, tag: TagId, name: Name)
    requires Sound(db)
    ensures Sound(CreateTag(db, tag, name))
  {
    var b := CreateTag(db, tag, name);
    forall p | p in db.posts
      ensures Kept(b, p)
    {
      assert NamesOf(b, p) == NamesOf(db, p);
    }
  }

  // Replacing one post's links concerns no other post.
  lemma RewriteSeenByOne(db: Db, p: PostId, body: nat, used: set<TagId>, q: PostId)
    ensures q != p ==> SameNames(db, Rewritten(db, p, body, used), q)
    ensures TagsOf(Rewritten(db, p, body, used), p) == used
  {
    var b := Rewritten(db, p, body, used);
    if q != p {
      assert forall l: (PostId, TagId) :: l.0 == q ==> (l in db.links <==> l in b.links);
    }
    forall t
      ensures t in TagsOf(b, p) <==> t in used
    {
      assert t in TagsOf(b, p) <==> (p, t) in b.links;
    }
  }

  lemma RewrittenLinks(db: Db, p: PostId, body: nat, used: set<TagId>, l: (PostId, TagId))
    requires Sound(db) && (forall t :: t in used ==> t in db.tags) && l in Rewritten(db, p, body, used).links
    ensures l.0 in Rewritten(db, p, body, used).posts && l.1 in db.tags
  {
  }

  lemma SaveKeepsOne(db: Db, p: PostId, body: nat, used: set<TagId>, q: PostId)
    requires Sound(db) && (p in db.versions ==> p in db.posts) && q in Rewritten(db, p, body, used).posts
    ensures var after := Appended(Rewritten(db, p, body, used), {p}); q in after.posts && Kept(after, q)
  {
    RewriteSeenByOne(db, p, body, used, q);
    AppendedKeeps(db, Rewritten(db, p, body, used), {p}, q);
  }

  lemma SaveKeeps(db: Db, p: PostId, body: nat, used: set<TagId>)
    requires Sound(db) && (p in db.versions ==> p in db.posts)
    ensures Sound(SavePost(db, p, body, used).0)
  {
    if SavePost(db, p, body, used).1.Ok? {
      forall q | q in Rewritten(db, p, body, used).posts
        ensures q in SavePost(db, p, body, used).0.posts && Kept(SavePost(db, p, body, used).0, q)
      {
        SaveKeepsOne(db, p, body, used, q);
      }
      forall l | l in SavePost(db, p, body, used).0.links
        ensures l.0 in SavePost(db, p, body, used).0.posts && l.1 in db.tags
      {
        RewrittenLinks(db, p, body, used, l);
      }
    }
  }

  /** Every name of the version is still spelled as its tag is. */
  predicate SpelledTheSame(db: Db, names: set<Name>) {
    forall n, t :: n in names && t in db.tags && db.tags[t].name.folded == n.folded ==> db.tags[t].name == n
  }

  function NamesOfTags(tags: map<TagId, Tag>, used: set<TagId>): set<Name> {
    set t | t in used && t in tags :: tags[t].name
  }

  lemma NamesAreThoseOfTags(db: Db, p: PostId)
    ensures NamesOf(db, p) == NamesOfTags(db.tags, TagsOf(db, p))
  {
    forall n
      ensures n in NamesOf(db, p) <==> n in NamesOfTags(db.tags, TagsOf(db, p))
    {
      if n in NamesOf(db, p) {
        var l :| l in db.links && l.0 == p && l.1 in db.tags && db.tags[l.1].name == n;
        assert l.1 in TagsOf(db, p);
      }
    }
  }

  // The tags found under case folding have exactly the names looked for if none was respelled.
  lemma NamesResolve(db: Db, names: set<Name>)
    requires UniqueNames(db.tags) && Resolvable(db, names)
    ensures NamesOfTags(db.tags, TagsNamed(db, names)) == names <==> SpelledTheSame(db, names)
  {
    var shown := NamesOfTags(db.tags, TagsNamed(db, names));
    if SpelledTheSame(db, names) {
      forall n | n in names
        ensures n in shown
      {
        var t :| t in db.tags && db.tags[t].name.folded == n.folded;
        assert t in TagsNamed(db, names);
      }
    } else {
      var n, t :| n in names && t in db.tags && db.tags[t].name.folded == n.folded && db.tags[t].name != n;
      assert t in TagsNamed(db, names) && db.tags[t].name in shown;
      OneSpellingPerFold(db, names, n, t);
    }
  }

  // If a tag respells one of the names, the shown names differ: they miss that spelling or hold both.
  lemma OneSpellingPerFold(db: Db, names: set<Name>, n: Name, t: TagId)
    requires UniqueNames(db.tags) && n in names && t in db.tags && db.tags[t].name.folded == n.folded
    requires db.tags[t].name != n
    ensures n !in NamesOfTags(db.tags, TagsNamed(db, names))
  {
  }

  /** The names a restored post shows: those of the tags its version's names resolve to. */
  lemma RestoredNames(db: Db, p: PostId, names: set<Name>, body: nat)
    requires UniqueNames(db.tags) && Resolvable(db, names)
    ensures NamesOf(Rewritten(db, p, body, TagsNamed(db, names)), p) == names <==> SpelledTheSame(db, names)
  {
    var b := Rewritten(db, p, body, TagsNamed(db, names));
    RewriteSeenByOne(db, p, body, TagsNamed(db, names), p);
    NamesAreThoseOfTags(b, p);
    NamesResolve(db, names);
  }

  lemma {:induction false} VersionsHavePosts(events: seq<Event>)
    ensures forall p :: p in Run(EMPTY, events).versions ==> p in Run(EMPTY, events).posts
  {
    if events != [] { VersionsHavePosts(events[..|events| - 1]); }
  }

  /**
   * A restore keeps the main row equal to the version it points at exactly when no tag of that version has since been
   * respelled: tags are found under case folding, and keep their new spelling.
   */
  lemma RestoreKeepsIff(db: Db, p: PostId, r: nat)
    requires Sound(db) && RestoreVersion(db, p, r).1.Ok?
    ensures var after := RestoreVersion(db, p, r).0;
      p in after.posts && (Kept(after, p) <==> SpelledTheSame(db, VersionsOf(db, p)[r].names))
  {
    var version := VersionsOf(db, p)[r];
    RestoredNames(db, p, version.names, version.body);
    var after, moved := RestoreVersion(db, p, r).0, Rewritten(db, p, version.body, TagsNamed(db, version.names));
    assert NamesOf(after, p) == NamesOf(moved, p);
  }

  lemma RestoreKeepsOthers(db: Db, p: PostId, r: nat, q: PostId)
    requires Sound(db) && q in db.posts && q != p
    ensures q in RestoreVersion(db, p, r).0.posts && Kept(RestoreVersion(db, p, r).0, q)
  {
    var after := RestoreVersion(db, p, r).0;
    if RestoreVersion(db, p, r).1.Ok? {
      var version := VersionsOf(db, p)[r];
      RewriteSeenByOne(db, p, version.body, TagsNamed(db, version.names), q);
      assert NamesOf(after, q) == NamesOf(Rewritten(db, p, version.body, TagsNamed(db, version.names)), q);
    }
  }

  predicate Tame(db: Db, e: Event) {
    e.Restore? && RestoreVersion(db, e.post, e.version).1.Ok? ==>
      SpelledTheSame(db, VersionsOf(db, e.post)[e.version].names)
  }

  lemma RestoreKeeps(db: Db, p: PostId, r: nat)
    requires Sound(db) && Tame(db, Restore(p, r))
    ensures Sound(RestoreVersion(db, p, r).0)
  {
    if RestoreVersion(db, p, r).1.Ok? {
      RestoreKeepsIff(db, p, r);
      forall q | q in db.posts && q != p
        ensures q in RestoreVersion(db, p, r).0.posts && Kept(RestoreVersion(db, p, r).0, q)
      {
        RestoreKeepsOthers(db, p, r, q);
      }
    }
  }

  lemma StepKeeps(db: Db, e: Event)
    requires Sound(db) && Tame(db, e) && forall p :: p in db.versions ==> p in db.posts
    ensures Sound(Step(db, e))
  {
    match e
    case Save(p, body, used) => SaveKeeps(db, p, body, used);
    case NewTag(tag, name) => CreateTagKeeps(db, tag, name);
    case Rename(tag, name) => RenameKeeps(db, tag, name);
    case Merge(source, target) => MergeKeeps(db, source, target);
    case SetDeleted(tag, deleted) => DeleteFlagKeeps(db, tag, deleted);
    case Restore(p, r) => RestoreKeeps(db, p, r);
  }

  ghost predicate TameRun(events: seq<Event>) {
    forall n :: 0 <= n < |events| ==> Tame(Run(EMPTY, events[..n]), events[n])
  }

  /**
   * Through edits, renames, merges and restores of versions whose tags kept their spelling, the revisions of every
   * post run from one without gaps and its main row is the version its pointer names.
   */
  lemma {:induction false} MainRowIsItsVersion(events: seq<Event>)
    requires TameRun(events)
    ensures Sound(Run(EMPTY, events))
  {
    if events == [] {
    } else {
      var last := |events| - 1;
      var before := events[..last];
      forall n | 0 <= n < |before|
        ensures Tame(Run(EMPTY, before[..n]), before[n])
      {
        assert before[..n] == events[..n];
      }
      MainRowIsItsVersion(before);
      VersionsHavePosts(before);
      StepKeeps(Run(EMPTY, before), events[last]);
    }
  }

  predicate HoldsVersion(db: Db, p: PostId, r: nat, v: Snapshot) {
    p in db.versions && r in db.versions[p] && db.versions[p][r] == v
  }

  /** No version is ever lost or overwritten, by whatever operations. */
  lemma {:induction false} VersionsLast(events: seq<Event>, n: nat, p: PostId, r: nat, v: Snapshot)
    requires n <= |events| && HoldsVersion(Run(EMPTY, events[..n]), p, r, v)
    ensures HoldsVersion(Run(EMPTY, events), p, r, v)
    decreases |events|
  {
    if n < |events| {
      var last := |events| - 1;
      assert events[..last][..n] == events[..n];
      VersionsLast(events[..last], n, p, r, v);
      VersionLasts(Run(EMPTY, events[..last]), events[last], p, r, v);
    } else {
      assert events[..n] == events;
    }
  }

  lemma VersionLasts(db: Db, e: Event, p: PostId, r: nat, v: Snapshot)
    requires HoldsVersion(db, p, r, v)
    ensures HoldsVersion(Step(db, e), p, r, v)
  {
  }

  /** A new version of an affected post leaves its earlier ones alone and becomes the current one. */
  lemma AppendedExactly(b: Db, affected: set<PostId>, p: PostId)
    requires p in b.posts && Contiguous(VersionsOf(b, p))
    ensures var after, n := Appended(b, affected), |VersionsOf(b, p)| + 1;
      && p in after.posts
      && if p in affected
         then && after.posts[p] == b.posts[p].(revision := n)
              && VersionsOf(after, p) == VersionsOf(b, p)[n := Current(b, p)]
              && n !in VersionsOf(b, p)
         else after.posts[p] == b.posts[p] && VersionsOf(after, p) == VersionsOf(b, p)
  {
    NextIsOneMore(VersionsOf(b, p));
  }

  /**
   * A successful merge: posts of the source get its tags exchanged and exactly one new version, which is their new
   * current one; every other post, its tags and its versions stay as they were; nothing uses the source any more.
   */
  lemma MergeExactly(db: Db, source: TagId, target: TagId, p: PostId)
    requires Sound(db) && MergeTag(db, source, target).1.Ok? && p in db.posts
    ensures var after, n := MergeTag(db, source, target).0, |VersionsOf(db, p)| + 1;
      && p in after.posts && Linked(after, source) == {}
      && if p in Linked(db, source)
         then && TagsOf(after, p) == TagsOf(db, p) - {source} + {target}
              && after.posts[p] == db.posts[p].(revision := n)
              && n !in VersionsOf(db, p)
              && VersionsOf(after, p) == VersionsOf(db, p)[n := Current(after, p)]
         else && TagsOf(after, p) == TagsOf(db, p) && after.posts[p] == db.posts[p]
              && VersionsOf(after, p) == VersionsOf(db, p)
  {
    var b, after := Relinked(db, source, target), MergeTag(db, source, target).0;
    MergeLinks(db, source, target, p);
    assert TagsOf(after, p) == TagsOf(b, p) && NamesOf(after, p) == NamesOf(b, p);
    assert Kept(db, p);
    AppendedExactly(b, Linked(db, source), p);
  }

  // ---- What each operation answers and writes ----------------------------------------

  predicate UsesTag(db: Db, p: PostId, tag: TagId) { (p, tag) in db.links }

  lemma LinkedExactly(db: Db, tag: TagId, p: PostId)
    ensures p in Linked(db, tag) <==> UsesTag(db, p, tag)
  {
    if UsesTag(db, p, tag) { assert (p, tag) in db.links && (p, tag).1 == tag; }
  }

  /** The post has exactly one new version, which is its current one and holds what the post shows now. */
  ghost predicate OneMoreVersion(db: Db, after: Db, p: PostId)
    requires p in db.posts && p in after.posts
  {
    var n := |VersionsOf(db, p)| + 1;
    && after.posts[p] == db.posts[p].(revision := n) && n !in VersionsOf(db, p)
    && VersionsOf(after, p) == VersionsOf(db, p)[n := Current(after, p)]
  }

  predicate SameVersions(db: Db, after: Db, p: PostId)
    requires p in db.posts && p in after.posts
  {
    after.posts[p] == db.posts[p] && VersionsOf(after, p) == VersionsOf(db, p)
  }

  ghost predicate OtherTagNamed(db: Db, tag: TagId, name: Name) {
    exists t :: t in db.tags && t != tag && db.tags[t].name.folded == name.folded
  }

  /** A tag is renamed exactly if it exists and no other tag has that name under case folding. */
  lemma RenameExactly(db: Db, tag: TagId, name: Name)
    ensures var (after, r) := RenameTag(db, tag, name);
      && (r == Err(TagNotFound) <==> tag !in db.tags)
      && (r == Err(NameTaken) <==> tag in db.tags && db.tags[tag].name != name && OtherTagNamed(db, tag, name))
      && (r.Err? ==> after == db && (r.error.TagNotFound? || r.error.NameTaken?))
      && (r.Ok? ==>
            && r.value == db.tags[tag].(name := name) && after.tags == db.tags[tag := r.value]
            && after.links == db.links)
      && (r.Ok? && db.tags[tag].name == name ==> after == db)
  {
    if tag in db.tags {
      assert Taken(db, tag, name) <==> OtherTagNamed(db, tag, name);
      if db.tags[tag].name == name { assert db.tags[tag := db.tags[tag].(name := name)] == db.tags; }
    }
  }

  /** A changed name gives each post that uses the tag one new version, and no other post anything. */
  lemma RenameVersions(db: Db, tag: TagId, name: Name, p: PostId)
    requires Sound(db) && RenameTag(db, tag, name).1.Ok? && db.tags[tag].name != name && p in db.posts
    ensures var after := RenameTag(db, tag, name).0;
      p in after.posts && if UsesTag(db, p, tag) then OneMoreVersion(db, after, p) else SameVersions(db, after, p)
  {
    var b, after := Renamed(db, tag, name), RenameTag(db, tag, name).0;
    assert Kept(db, p);
    LinkedExactly(db, tag, p);
    AppendedExactly(b, Linked(db, tag), p);
    assert TagsOf(after, p) == TagsOf(b, p) && NamesOf(after, p) == NamesOf(b, p);
  }

  /** A merge happens exactly between two different tags, into one that is not deleted; the source is then deleted. */
  lemma MergeAnswers(db: Db, source: TagId, target: TagId)
    ensures var (after, r) := MergeTag(db, source, target);
      var valid := target != 0 && source != target;
      && (r == Err(InvalidInput) <==> !valid)
      && (r == Err(TagNotFound) <==> valid && (source !in db.tags || target !in db.tags))
      && (r == Err(TargetDeleted) <==> valid && source in db.tags && target in db.tags && db.tags[target].deleted)
      && (r.Err? ==> after == db && (r.error.InvalidInput? || r.error.TagNotFound? || r.error.TargetDeleted?))
      && (r.Ok? ==>
            && r.value == |set l | l in db.links && l.1 == source :: l.0|
            && after.tags == db.tags[source := Tag(db.tags[source].name, true)])
  {
  }

  /** Deleting or restoring a tag touches nothing but its flag. */
  lemma SetTagDeletedExactly(db: Db, tag: TagId, deleted: bool)
    ensures var (after, r) := SetTagDeleted(db, tag, deleted);
      if tag in db.tags
      then && r == Ok(Tag(db.tags[tag].name, deleted))
           && after == db.(tags := db.tags[tag := Tag(db.tags[tag].name, deleted)])
      else r == Err(TagNotFound) && after == db
  {
  }

  /** A tag is created exactly under a new id and a name no tag has under case folding. */
  lemma CreateTagExactly(db: Db, tag: TagId, name: Name)
    ensures CreateTag(db, tag, name) ==
      if tag != 0 && tag !in db.tags && !OtherTagNamed(db, tag, name)
      then db.(tags := db.tags[tag := Tag(name, false)]) else db
  {
    assert Taken(db, tag, name) <==> OtherTagNamed(db, tag, name);
  }

  /** A post is saved exactly with usable tags; it then has that content, exactly those tags and one more version. */
  lemma SaveExactly(db: Db, p: PostId, body: nat, used: set<TagId>)
    requires Sound(db) && (p in db.versions ==> p in db.posts)
    ensures var (after, r) := SavePost(db, p, body, used);
      var n := |VersionsOf(db, p)| + 1;
      && (r.Ok? <==> forall t :: t in used ==> t in db.tags && !db.tags[t].deleted)
      && (r.Err? ==> r == Err(TagUnusable) && after == db)
      && (r.Ok? ==>
            && r.value == n && after.tags == db.tags
            && p in after.posts && after.posts[p] == Post(body, n) && TagsOf(after, p) == used
            && VersionsOf(after, p) == VersionsOf(db, p)[n := Current(after, p)])
  {
    if SavePost(db, p, body, used).1.Ok? {
      var b, after := Rewritten(db, p, body, used), SavePost(db, p, body, used).0;
      if p in db.posts { assert Kept(db, p); }
      RewriteSeenByOne(db, p, body, used, p);
      AppendedExactly(b, {p}, p);
      assert TagsOf(after, p) == TagsOf(b, p) && NamesOf(after, p) == NamesOf(b, p);
    }
  }

  /** The tag a name of a version leads to: the one equal to it under case folding. */
  ghost predicate Leads(db: Db, n: Name, t: TagId) { t in db.tags && db.tags[t].name.folded == n.folded }

  /** A version is restored exactly if each of its names leads to a tag, none deleted; the pointer moves back to it. */
  lemma RestoreExactly(db: Db, p: PostId, v: nat)
    ensures var (after, r) := RestoreVersion(db, p, v);
      && (r == Err(PostNotFound) <==> p !in db.posts)
      && (r == Err(VersionNotFound) <==> p in db.posts && v !in VersionsOf(db, p))
      && (p in db.posts && v in VersionsOf(db, p) ==>
            var names := VersionsOf(db, p)[v].names;
            && (r.Ok? <==> && (forall n :: n in names ==> exists t :: Leads(db, n, t))
                           && (forall n, t :: n in names && Leads(db, n, t) ==> !db.tags[t].deleted))
            && (r.Err? ==> r == Err(TagUnusable))
            && (r.Ok? ==>
                  && r.value == v && after.versions == db.versions && after.tags == db.tags
                  && after.posts == db.posts[p := Post(VersionsOf(db, p)[v].body, v)]
                  && (forall t :: t in TagsOf(after, p) <==> exists n :: n in names && Leads(db, n, t))))
      && (r.Err? ==> after == db)
  {
    if p in db.posts && v in VersionsOf(db, p) {
      var version := VersionsOf(db, p)[v];
      forall t ensures t in TagsNamed(db, version.names) <==> exists n :: n in version.names && Leads(db, n, t) {
        if n :| n in version.names && Leads(db, n, t) { assert t in TagsNamed(db, version.names); }
      }
      ResolvableExactly(db, version.names);
      RewriteSeenByOne(db, p, version.body, TagsNamed(db, version.names), p);
      if Resolvable(db, version.names) {
        var after := RestoreVersion(db, p, v).0;
        assert TagsOf(after, p) == TagsOf(Rewritten(db, p, version.body, TagsNamed(db, version.names)), p);
      }
    }
  }

  lemma ResolvableExactly(db: Db, names: set<Name>)
    ensures Resolvable(db, names) <==>
      && (forall n :: n in names ==> exists t :: Leads(db, n, t))
      && (forall n, t :: n in names && Leads(db, n, t) ==> !db.tags[t].deleted)
  {
    if Resolvable(db, names) {
      forall n | n in names ensures exists t :: Leads(db, n, t) {
        var t :| t in db.tags && db.tags[t].name.folded == n.folded;
        assert Leads(db, n, t);
      }
      forall n, t | n in names && Leads(db, n, t) ensures !db.tags[t].deleted { assert t in TagsNamed(db, names); }
    } else if forall n :: n in names ==> exists t :: Leads(db, n, t) {
      forall n | n in names ensures exists t :: t in db.tags && db.tags[t].name.folded == n.folded {
        var t :| Leads(db, n, t);
      }
      var t :| t in TagsNamed(db, names) && db.tags[t].deleted;
      var n :| n in names && db.tags[t].name.folded == n.folded;
      assert Leads(db, n, t);
    }
  }

  // A post with one tag, and the same after the tag changed only its spelling.
  const LOWER := Name(1, 7)
  const UPPER := Name(2, 7)
  const TAGGED := Db(map[1 := Post(0, 1)], map[1 := Tag(LOWER, false)], {(1, 1)},
                     map[1 := map[1 := Snapshot(0, {LOWER})]])
  const RESPELLED := Db(
    map[1 := Post(0, 2)], map[1 := Tag(UPPER, false)], {(1, 1)},
    map[1 := map[1 := Snapshot(0, {LOWER}), 2 := Snapshot(0, {UPPER})]])

  lemma TaggedIsReached()
    ensures SavePost(CreateTag(EMPTY, 1, LOWER), 1, 0, {1}).0 == TAGGED
  {
    var b := Rewritten(CreateTag(EMPTY, 1, LOWER), 1, 0, {1});
    assert b.links == {(1, 1)};
    assert (1, 1) in b.links && NamesOf(b, 1) == {LOWER};
    assert VersionsOf(b, 1).Keys == {};
    assert SavePost(CreateTag(EMPTY, 1, LOWER), 1, 0, {1}).0.versions == TAGGED.versions;
  }

  lemma RespelledIsReached()
    ensures RenameTag(TAGGED, 1, UPPER).0 == RESPELLED
  {
    var b := Renamed(TAGGED, 1, UPPER);
    assert (1, 1) in b.links && NamesOf(b, 1) == {UPPER};
    assert Linked(TAGGED, 1) == {1};
    assert VersionsOf(b, 1).Keys == {1};
    assert RenameTag(TAGGED, 1, UPPER).0.versions == RESPELLED.versions;
  }

  lemma RespelledRestored()
    ensures var restored := RestoreVersion(RESPELLED, 1, 1).0;
      RestoreVersion(RESPELLED, 1, 1).1.Ok? && 1 in restored.posts && !Kept(restored, 1)
  {
    var restored := RestoreVersion(RESPELLED, 1, 1).0;
    assert RESPELLED.tags[1].name.folded == LOWER.folded;
    assert TagsNamed(RESPELLED, {LOWER}) == {1};
    assert (1, 1) in restored.links && UPPER in NamesOf(restored, 1);
  }

  lemma RunThen(events: seq<Event>, e: Event)
    ensures Run(EMPTY, events + [e]) == Step(Run(EMPTY, events), e)
  {
    assert (events + [e])[..|events|] == events;
  }

  // A tag, a post that uses it, and the tag respelled.
  const RESPELLING := [NewTag(1, LOWER), Save(1, 0, {1}), Rename(1, UPPER)]

  lemma RespellingRun()
    ensures Run(EMPTY, RESPELLING) == RESPELLED
  {
    RunThen([], NewTag(1, LOWER));
    assert [] + [NewTag(1, LOWER)] == [NewTag(1, LOWER)];
    RunThen([NewTag(1, LOWER)], Save(1, 0, {1}));
    RunThen([NewTag(1, LOWER), Save(1, 0, {1})], Rename(1, UPPER));
    assert RESPELLING == [NewTag(1, LOWER)] + [Save(1, 0, {1})] + [Rename(1, UPPER)];
    TaggedIsReached();
    RespelledIsReached();
  }

  /** Restoring version one after that run shows the new spelling while the version holds the old one. */
  lemma RespelledTagBreaksVersion()
    ensures var db, restored := Run(EMPTY, RESPELLING), Run(EMPTY, RESPELLING + [Restore(1, 1)]);
      RestoreVersion(db, 1, 1).1.Ok? && 1 in restored.posts && !Kept(restored, 1)
  {
    RespellingRun();
    RunThen(RESPELLING, Restore(1, 1));
    RespelledRestored();
  }
}
