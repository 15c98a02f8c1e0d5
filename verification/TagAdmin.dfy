/** Renaming and merging tags as the admin service does it, row by row. */
module TagAdmin {
  import opened Common
  import opened PostVersions
  import opened Revisions

  // A post a tag change affects, with the revision its new version will get.
  datatype Affected = Affected(post: PostId, revision: nat)

  function PostsIn(affected: seq<Affected>): set<PostId> { set a | a in affected :: a.post }

  /** Distinct posts, each with its next revision. */
  ghost predicate Prepared(db: Db, affected: seq<Affected>) {
    && (forall k :: 0 <= k < |affected| ==>
          affected[k].post in db.posts && affected[k].revision == NextRevision(VersionsOf(db, affected[k].post)))
    && (forall j, k :: 0 <= j < k < |affected| ==> affected[j].post != affected[k].post)
  }

  lemma PreparedNext(db: Db, affected: seq<Affected>, p: PostId)
    requires Prepared(db, affected) && p in db.posts && p !in PostsIn(affected)
    ensures var more := affected + [Affected(p, NextRevision(VersionsOf(db, p)))];
      Prepared(db, more) && PostsIn(more) == PostsIn(affected) + {p}
  {
    forall k | 0 <= k < |affected| ensures affected[k].post != p { assert affected[k] in affected; }
    var more := affected + [Affected(p, NextRevision(VersionsOf(db, p)))];
    forall q
      ensures q in PostsIn(more) <==> q in PostsIn(affected) + {p}
    {
      if q == p { assert more[|affected|] in more; }
      if q in PostsIn(affected) {
        var a :| a in affected && a.post == q;
        assert a in more;
      }
    }
  }

  lemma LinkedPostsExist(db: Db, tag: TagId)
    requires forall l :: l in db.links ==> l.0 in db.posts
    ensures Linked(db, tag) <= db.posts.Keys
  {
  }

  function Pointed(db: Db, p: PostId, revision: nat): Db
    requires p in db.posts
  {
    db.(posts := db.posts[p := db.posts[p].(revision := revision)])
  }

  // One iteration: the pointer moves, the row as it now is becomes that version.
  function AppendOne(db: Db, p: PostId, revision: nat): Db
    requires p in db.posts
  {
    var versions := VersionsOf(db, p)[revision := Current(Pointed(db, p, revision), p)];
    Pointed(db, p, revision).(versions := db.versions[p := versions])
  }

  lemma AppendNextPosts(db: Db, done: set<PostId>, p: PostId, revision: nat)
    requires p in db.posts && p !in done && revision == NextRevision(VersionsOf(db, p))
    ensures Appended(db, done + {p}).posts == Pointed(Appended(db, done), p, revision).posts
  {
  }

  lemma AppendNextVersions(db: Db, done: set<PostId>, p: PostId, revision: nat)
    requires p in db.posts && p !in done && revision == NextRevision(VersionsOf(db, p))
    ensures Appended(db, done + {p}).versions ==
      Appended(db, done).versions[p := VersionsOf(db, p)[revision := Current(db, p)]]
    ensures VersionsOf(Appended(db, done), p) == VersionsOf(db, p)
  {
  }

  /** The tables with one more post done are one iteration away. */
  lemma AppendNext(db: Db, done: set<PostId>, p: PostId, revision: nat)
    requires p in db.posts && p !in done && revision == NextRevision(VersionsOf(db, p))
    ensures Appended(db, done + {p}) == AppendOne(Appended(db, done), p, revision)
  {
    AppendNextPosts(db, done, p, revision);
    AppendNextVersions(db, done, p, revision);
    SameSnapshot(db, Pointed(Appended(db, done), p, revision), p);
  }

  lemma SameSnapshot(a: Db, b: Db, p: PostId)
    requires p in a.posts && p in b.posts && a.posts[p].body == b.posts[p].body && a.links == b.links
    requires a.tags == b.tags
    ensures Current(a, p) == Current(b, p)
  {
  }

  lemma AppendNone(db: Db)
    ensures Appended(db, {}) == db
  {
    assert Appended(db, {}).posts == db.posts && Appended(db, {}).versions == db.versions;
  }

  // ORDER BY id: the rows are visited in ascending order.
  method Smallest(s: set<nat>) returns (m: nat)
    requires s != {}
    ensures m in s && forall k :: k in s ==> m <= k
  {
    m :| m in s;
    var rest := s - {m};
    while rest != {}
      invariant m in s && rest <= s && forall k :: k in s && k !in rest ==> m <= k
      decreases |rest|
    {
      var k :| k in rest;
      if k < m { m := k; }
      rest := rest - {k};
    }
  }

  class PostTables {
    var posts: map<PostId, Post>
    var tags: map<TagId, Tag>
    var links: set<(PostId, TagId)>
    var versions: map<PostId, Versions>

    constructor ()
      ensures Contents() == EMPTY
    {
      posts, tags, links, versions := map[], map[], {}, map[];
    }

    function Contents(): Db
      reads this
    {
      Db(posts, tags, links, versions)
    }

    /** FindTagPostIDs, LockPostsByIDs and the next revision of each. */
    method PrepareTagAffectedPosts(tag: TagId) returns (affected: seq<Affected>)
      requires forall l :: l in links ==> l.0 in posts
      ensures Prepared(Contents(), affected) && PostsIn(affected) == Linked(Contents(), tag)
      ensures |affected| == |Linked(Contents(), tag)|
    {
      affected := [];
      var left := Linked(Contents(), tag);
      ghost var linked := left;
      LinkedPostsExist(Contents(), tag);
      while left != {}
        invariant left <= linked && Prepared(Contents(), affected) && PostsIn(affected) == linked - left
        invariant |affected| + |left| == |linked|
        decreases |left|
      {
        var p := Smallest(left);
        PreparedNext(Contents(), affected, p);
        affected := affected + [Affected(p, NextRevision(VersionsOf(Contents(), p)))];
        left := left - {p};
      }
    }

    /** UPDATE tags; the unique index refuses a name another tag has under case folding. */
    method UpdateTagName(tag: TagId, name: Name) returns (ok: bool)
      requires tag in tags
      modifies this`tags
      ensures ok <==> !Taken(old(Contents()), tag, name)
      ensures Contents() == if ok then Renamed(old(Contents()), tag, name) else old(Contents())
    {
      ok := !Taken(Contents(), tag, name);
      if ok { tags := tags[tag := tags[tag].(name := name)]; }
    }

    /** INSERT the target's relations, DELETE the source's, soft-delete the source. */
    method MergeTagRelations(source: TagId, target: TagId)
      requires source in tags && source != target
      modifies this`links, this`tags
      ensures Contents() == Relinked(old(Contents()), source, target)
    {
      links := links + (set p | p in Linked(Contents(), source) :: (p, target));
      links := set l | l in links && l.1 != source;
      tags := tags[source := tags[source].(deleted := true)];
    }

    /** A new version for each affected post: move its pointer, reload its relations, append the snapshot. */
    method AppendTagChangeVersions(affected: seq<Affected>)
      requires Prepared(Contents(), affected)
      modifies this`posts, this`versions
      ensures Contents() == Appended(old(Contents()), PostsIn(affected))
    {
      ghost var before := Contents();
      AppendNone(before);
      assert PostsIn(affected[..0]) == {};
      for n := 0 to |affected|
        invariant Contents() == Appended(before, PostsIn(affected[..n]))
      {
        NextOfList(affected, n);
        AppendNext(before, PostsIn(affected[..n]), affected[n].post, affected[n].revision);
        AppendVersion(affected[n].post, affected[n].revision);
      }
      assert affected[..|affected|] == affected;
    }

    method AppendVersion(p: PostId, revision: nat)
      requires p in posts
      modifies this`posts, this`versions
      ensures Contents() == AppendOne(old(Contents()), p, revision)
    {
      posts := posts[p := posts[p].(revision := revision)];
      var snapshot := Current(Contents(), p);
      versions := versions[p := VersionsOf(Contents(), p)[revision := snapshot]];
    }
  }

  // The next post of a list of distinct posts is new to those before it.
  lemma NextOfList(affected: seq<Affected>, n: nat)
    requires n < |affected| && forall j, k :: 0 <= j < k < |affected| ==> affected[j].post != affected[k].post
    ensures affected[n].post !in PostsIn(affected[..n])
    ensures PostsIn(affected[..n + 1]) == PostsIn(affected[..n]) + {affected[n].post}
  {
    assert affected[..n + 1] == affected[..n] + [affected[n]];
  }

  // Links stand for the posts of a tag whatever its name or flag.
  lemma PreparedStays(a: Db, b: Db, affected: seq<Affected>)
    requires Prepared(a, affected) && a.posts == b.posts && a.versions == b.versions
    ensures Prepared(b, affected)
  {
  }

  class AdminService {
    const tables: PostTables

    constructor (tables: PostTables)
      ensures this.tables == tables
    {
      this.tables := tables;
    }

    method RenameTag(tag: TagId, name: Name) returns (r: Result<Tag, ApiError>)
      requires Sound(tables.Contents())
      modifies tables
      ensures (tables.Contents(), r) == PostVersions.RenameTag(old(tables.Contents()), tag, name)
    {
      if tag !in tables.tags { return Err(TagNotFound); }
      var current := tables.tags[tag];
      if current.name == name { return Ok(current); }
      ghost var before := tables.Contents();
      var affected := tables.PrepareTagAffectedPosts(tag);
      var ok := tables.UpdateTagName(tag, name);
      if !ok { return Err(NameTaken); }
      PreparedStays(before, tables.Contents(), affected);
      tables.AppendTagChangeVersions(affected);
      return Ok(current.(name := name));
    }

    method MergeTag(source: TagId, target: TagId) returns (r: Result<nat, ApiError>)
      requires Sound(tables.Contents())
      modifies tables
      ensures (tables.Contents(), r) == PostVersions.MergeTag(old(tables.Contents()), source, target)
    {
      if target == 0 { return Err(InvalidInput); }
      if source == target { return Err(InvalidInput); }
      if source !in tables.tags || target !in tables.tags { return Err(TagNotFound); }
      if tables.tags[target].deleted { return Err(TargetDeleted); }
      ghost var before := tables.Contents();
      var affected := tables.PrepareTagAffectedPosts(source);
      tables.MergeTagRelations(source, target);
      PreparedStays(before, tables.Contents(), affected);
      tables.AppendTagChangeVersions(affected);
      return Ok(|affected|);
    }
  }
}
