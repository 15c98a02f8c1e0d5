/** Migrating the comments: parents may be inferred anew, threads keep their roots. */
module LegacyThreads {
  import opened Common
  import opened LegacyComments

  // The id maps of users, posts and comments, the migrated posts' authors, and the one reply kept as it is.
  datatype Context = Context(
    users: map<nat, nat>,
    posts: map<nat, nat>,
    ids: map<nat, nat>,
    postAuthors: map<nat, nat>,
    fallback: SourceId)

  predicate Older(a: Source, b: Source) { a.createdAt < b.createdAt || (a.createdAt == b.createdAt && a.id < b.id) }

  predicate DistinctIds(rows: seq<Source>) { forall j, k :: 0 <= j < k < |rows| ==> rows[j].id != rows[k].id }

  predicate InOrder(rows: seq<Source>) { forall j, k :: 0 <= j < k < |rows| ==> Older(rows[j], rows[k]) }

  // One step of the sort.
  method Insert(sorted: seq<Source>, row: Source) returns (r: seq<Source>)
    requires InOrder(sorted) && forall k :: 0 <= k < |sorted| ==> sorted[k].id != row.id
    ensures InOrder(r) && |r| == |sorted| + 1 && forall x :: x in r <==> x in sorted || x == row
  {
    var at := 0;
    while at < |sorted| && Older(sorted[at], row)
      invariant 0 <= at <= |sorted| && forall k :: 0 <= k < at ==> Older(sorted[k], row)
    {
      at := at + 1;
    }
    r := sorted[..at] + [row] + sorted[at..];
    InsertedInOrder(sorted, row, at);
  }

  lemma InsertedInOrder(sorted: seq<Source>, row: Source, at: nat)
    requires InOrder(sorted) && at <= |sorted| && (forall k :: 0 <= k < at ==> Older(sorted[k], row))
    requires at < |sorted| ==> Older(row, sorted[at])
    ensures var r := sorted[..at] + [row] + sorted[at..];
      InOrder(r) && forall x :: x in r <==> x in sorted || x == row
  {
    var r := sorted[..at] + [row] + sorted[at..];
    forall j, k | 0 <= j < k < |r|
      ensures Older(r[j], r[k])
    {
      if j == at && k > at + 1 { assert Older(sorted[at], sorted[k - 1]); }
    }
    assert sorted == sorted[..at] + sorted[at..];
  }

  /** By creation time, then id. */
  method SortByAge(rows: seq<Source>) returns (ordered: seq<Source>)
    requires DistinctIds(rows)
    ensures InOrder(ordered) && |ordered| == |rows| && forall x :: x in ordered <==> x in rows
  {
    ordered := [];
    for n := 0 to |rows|
      invariant InOrder(ordered) && |ordered| == n && forall x :: x in ordered <==> x in rows[..n]
    {
      forall k | 0 <= k < |ordered|
        ensures ordered[k].id != rows[n].id
      {
        assert ordered[k] in rows[..n];
      }
      ordered := Insert(ordered, rows[n]);
      assert rows[..n + 1] == rows[..n] + [rows[n]];
    }
    assert rows[..|rows|] == rows;
  }

  // ---- The parent a reply gets ---------------------------------------------------

  type Roots = map<SourceId, SourceId>

  function RootAt(roots: Roots, id: SourceId): Option<SourceId> { if id in roots then Some(roots[id]) else None }

  predicate Candidate(row: Source, c: Source, roots: Roots) {
    && c.post == row.post && row.replyTo == Some(c.author) && c.createdAt < row.createdAt
    && RootAt(roots, c.id) == RootAt(roots, row.id)
  }

  function CandidatesOf(row: Source, all: seq<Source>, roots: Roots): seq<Source> {
    if all == [] then []
    else
      var last := |all| - 1;
      CandidatesOf(row, all[..last], roots) + if Candidate(row, all[last], roots) then [all[last]] else []
  }

  lemma {:induction false} CandidatesAre(row: Source, all: seq<Source>, roots: Roots, c: Source)
    ensures c in CandidatesOf(row, all, roots) <==> c in all && Candidate(row, c, roots)
  {
    if all != [] {
      assert all == all[..|all| - 1] + [all[|all| - 1]];
      CandidatesAre(row, all[..|all| - 1], roots, c);
    }
  }

  /** The only earlier comment of the same thread by the user replied to, if there is exactly one. */
  method InferReplyParent(row: Source, all: seq<Source>, roots: Roots) returns (r: Result<Source, Failure>)
    requires row.replyTo.Some?
    ensures r ==
      if |CandidatesOf(row, all, roots)| == 1 then Ok(CandidatesOf(row, all, roots)[0]) else Err(ReplyParentNotUnique)
  {
    var candidates: seq<Source> := [];
    for n := 0 to |all|
      invariant candidates == CandidatesOf(row, all[..n], roots)
    {
      var c := all[n];
      if c.post == row.post && c.author == row.replyTo.value && c.createdAt < row.createdAt
         && RootAt(roots, c.id) == RootAt(roots, row.id) {
        candidates := candidates + [c];
      }
      assert all[..n + 1][..n] == all[..n];
    }
    assert all[..|all|] == all;
    if |candidates| != 1 { return Err(ReplyParentNotUnique); }
    return Ok(candidates[0]);
  }

  /** A parent a reply may get: the original one if it fits the user replied to, or the inferred one. */
  predicate Chosen(row: Source, parent: Source, all: seq<Source>, roots: Roots, fallback: SourceId, c: Source) {
    if row.replyTo.None? || row.replyTo.value == parent.author || row.id == fallback then c == parent
    else CandidatesOf(row, all, roots) == [c]
  }

  method ChooseReplyParent(row: Source, parent: Source, all: seq<Source>, roots: Roots, fallback: SourceId)
    returns (r: Result<Source, Failure>)
    ensures r.Ok? ==> Chosen(row, parent, all, roots, fallback, r.value)
    ensures r.Err? ==> r.error == ReplyParentNotUnique && forall c :: !Chosen(row, parent, all, roots, fallback, c)
  {
    if row.replyTo.None? || row.replyTo.value == parent.author { return Ok(parent); }
    if row.id == fallback { return Ok(parent); }
    r := InferReplyParent(row, all, roots);
  }

  // ---- The migrated forest ---------------------------------------------------------

  ghost predicate RootedAt(byID: Forest, roots: Roots, id: SourceId) { id in roots && HasRoot(byID, id, roots[id]) }

  ghost predicate Rooted(byID: Forest, roots: Roots) {
    && Keyed(byID) && roots.Keys == byID.Keys
    && forall id {:trigger RootedAt(byID, roots, id)} :: id in byID ==> RootedAt(byID, roots, id)
  }

  // p is the source of the new parent of row: older, of the same thread, and by the user replied to.
  predicate ParentOf(byID: Forest, roots: Roots, x: Context, done: map<nat, Comment>, row: Source, p: Source) {
    && p.id in byID && byID[p.id] == p && row.id in byID && p.id in roots && row.id in roots
    && Older(p, row) && roots[p.id] == roots[row.id]
    && At(x.ids, row.id) in done && At(x.ids, p.id) in done
    && var c, d := done[At(x.ids, row.id)], done[At(x.ids, p.id)];
       && c.parent == Some(At(x.ids, p.id))
       && c.root == Some(At(x.ids, roots[row.id]))
       && c.replyTo == d.author == At(x.users, p.author)
       && (row.id != x.fallback ==> row.replyTo == Some(p.author))
  }

  /** What a source comment became. */
  ghost predicate Migrated(byID: Forest, roots: Roots, x: Context, done: map<nat, Comment>, row: Source) {
    && At(x.ids, row.id) in done
    && var c := done[At(x.ids, row.id)];
       && c.id == At(x.ids, row.id) && c.post == At(x.posts, row.post) && c.author == At(x.users, row.author)
       && c.createdAt == row.createdAt
       && if row.parent.None?
          then c.parent.None? && c.root.None? && c.post in x.postAuthors && c.replyTo == x.postAuthors[c.post]
          else exists p :: ParentOf(byID, roots, x, done, row, p)
  }

  lemma MigratedStays(
    byID: Forest, roots: Roots, x: Context, done: map<nat, Comment>, more: map<nat, Comment>, row: Source)
    requires Migrated(byID, roots, x, done, row)
    requires done.Keys <= more.Keys && forall id :: id in done ==> more[id] == done[id]
    ensures Migrated(byID, roots, x, more, row)
  {
    if row.parent.Some? {
      var p :| ParentOf(byID, roots, x, done, row, p);
      assert ParentOf(byID, roots, x, more, row, p);
    }
  }

  lemma ChosenSharesRoot(byID: Forest, roots: Roots, all: seq<Source>, row: Source, fallback: SourceId, p: Source)
    requires Rooted(byID, roots) && row.id in byID && byID[row.id] == row
    requires forall c :: c in all ==> c.id in byID && byID[c.id] == c
    requires row.parent.Some? && row.parent.value in byID
    requires Chosen(row, byID[row.parent.value], all, roots, fallback, p)
    ensures p.id in byID && byID[p.id] == p && roots[p.id] == roots[row.id]
    ensures row.replyTo.Some? && row.id != fallback ==> row.replyTo == Some(p.author)
  {
    var parent := byID[row.parent.value];
    assert RootedAt(byID, roots, row.id) && RootedAt(byID, roots, parent.id);
    if p == parent {
      ParentSharesRoot(byID, row.id, parent.id, roots[parent.id]);
      RootIsUnique(byID, row.id, roots[row.id], roots[parent.id]);
    }
    if CandidatesOf(row, all, roots) == [p] {
      assert p in CandidatesOf(row, all, roots);
      CandidatesAre(row, all, roots, p);
    }
  }

  // A reply whose chosen parent is already migrated.
  lemma ReplyMigrates(
    byID: Forest, roots: Roots, x: Context, done: map<nat, Comment>, row: Source, p: Source, c: Comment)
    requires Rooted(byID, roots) && row.id in byID && byID[row.id] == row && row.parent.Some? && row.replyTo.Some?
    requires p.id in byID && byID[p.id] == p && roots[p.id] == roots[row.id] && Older(p, row)
    requires row.id != x.fallback ==> row.replyTo == Some(p.author)
    requires Migrated(byID, roots, x, done, p) && At(x.ids, row.id) !in done
    requires var d := done[At(x.ids, p.id)];
      c == Comment(At(x.ids, row.id), At(x.posts, row.post), At(x.users, row.author), Some(d.id),
                   Some(if d.root.None? then d.id else d.root.value), d.author, row.createdAt)
    ensures Migrated(byID, roots, x, done[c.id := c], row)
  {
    assert RootedAt(byID, roots, p.id);
    if p.parent.None? {
      RootOfRoot(byID, p.id);
      RootIsUnique(byID, p.id, p.id, roots[p.id]);
    } else {
      var q :| ParentOf(byID, roots, x, done, p, q);
    }
    assert ParentOf(byID, roots, x, done[c.id := c], row, p);
  }

  /** One comment; the parent must have been migrated before it. */
  method TransformComment(
    row: Source, all: seq<Source>, byID: Forest, roots: Roots, x: Context, done: map<nat, Comment>)
    returns (r: Result<Comment, Failure>)
    ensures r.Err? ==> r.error != Cycle && Refused(all, byID, roots, x, done, row)
    ensures r == Err(MissingEndpoint) <==> !(At(x.posts, row.post) in x.postAuthors && At(x.users, row.author) != 0)
    ensures r == Err(ParentNotFound) ==> row.parent.Some? && row.parent.value !in byID
    ensures r == Err(MissingReplyTarget) ==> row.parent.Some? && row.replyTo.None?
    ensures r.Ok? ==> MadeFrom(all, byID, roots, x, done, row, r.value)
  {
    var id, post, author := At(x.ids, row.id), At(x.posts, row.post), At(x.users, row.author);
    if post !in x.postAuthors || author == 0 { return Err(MissingEndpoint); }
    var c := Comment(id, post, author, None, None, 0, row.createdAt);
    if row.parent.None? {
      return Ok(c.(replyTo := x.postAuthors[post]));
    }
    if row.parent.value !in byID { return Err(ParentNotFound); }
    var chosen := ChooseReplyParent(row, byID[row.parent.value], all, roots, x.fallback);
    if chosen.Err? { return Err(chosen.error); }
    if row.replyTo.None? { return Err(MissingReplyTarget); }
    if At(x.ids, chosen.value.id) !in done { return Err(ParentNotEarlier); }
    var parent := done[At(x.ids, chosen.value.id)];
    c := c.(parent := Some(parent.id));
    if parent.root.None? {
      c := c.(root := Some(parent.id));
    } else {
      c := c.(root := Some(parent.root.value));
    }
    assert RepliesTo(all, byID, roots, x, done, row, c.(replyTo := parent.author), chosen.value);
    return Ok(c.(replyTo := parent.author));
  }

  /** c is the comment of a reply, below the comment that p became. */
  ghost predicate RepliesTo(
    all: seq<Source>, byID: Forest, roots: Roots, x: Context, done: map<nat, Comment>, row: Source, c: Comment,
    p: Source)
  {
    && row.parent.Some? && row.parent.value in byID
    && Chosen(row, byID[row.parent.value], all, roots, x.fallback, p) && At(x.ids, p.id) in done
    && var d := done[At(x.ids, p.id)];
       c == Comment(At(x.ids, row.id), At(x.posts, row.post), At(x.users, row.author), Some(d.id),
                    Some(if d.root.None? then d.id else d.root.value), d.author, row.createdAt)
  }

  /** c is the comment of a row: top-level and answering the author of the post, or a reply. */
  ghost predicate MadeFrom(
    all: seq<Source>, byID: Forest, roots: Roots, x: Context, done: map<nat, Comment>, row: Source, c: Comment)
  {
    && At(x.posts, row.post) in x.postAuthors && At(x.users, row.author) != 0
    && if row.parent.None?
       then c == Comment(At(x.ids, row.id), At(x.posts, row.post), At(x.users, row.author), None, None,
                         x.postAuthors[At(x.posts, row.post)], row.createdAt)
       else row.replyTo.Some? && exists p :: RepliesTo(all, byID, roots, x, done, row, c, p)
  }

  // The source rows by id.
  ghost predicate IsForest(rows: seq<Source>, byID: Forest) {
    && (forall row :: row in rows ==> row.id in byID && byID[row.id] == row)
    && (forall id :: id in byID ==> byID[id] in rows && byID[id].id == id)
  }

  method IndexRows(rows: seq<Source>) returns (byID: Forest)
    requires DistinctIds(rows)
    ensures IsForest(rows, byID)
  {
    byID := map[];
    for n := 0 to |rows|
      invariant IsForest(rows[..n], byID)
    {
      forall row | row in rows[..n]
        ensures row.id != rows[n].id
      {
      }
      byID := byID[rows[n].id := rows[n]];
      assert rows[..n + 1] == rows[..n] + [rows[n]];
    }
    assert rows[..|rows|] == rows;
  }

  method FindRoots(rows: seq<Source>, byID: Forest) returns (r: Result<Roots, Failure>)
    requires IsForest(rows, byID)
    ensures r.Ok? ==> Rooted(byID, r.value)
    ensures r.Err? ==> exists row :: row in rows && ((r.error == Cycle && Cycles(byID, row.id))
                                                     || (r.error == ParentNotFound && Dangles(byID, row.id)))
  {
    var roots: Roots := map[];
    for n := 0 to |rows|
      invariant roots.Keys <= byID.Keys && forall id :: id in roots ==> HasRoot(byID, id, roots[id])
      invariant forall k :: 0 <= k < n ==> rows[k].id in roots
    {
      assert rows[n] in rows;
      var root := FindOriginalRoot(rows[n].id, byID);
      if root.Err? { return Err(root.error); }
      roots := roots[rows[n].id := root.value];
    }
    return Ok(roots);
  }

  // What the loop over the ordered rows has done after n of them.
  ghost predicate MigratedTo(
    byID: Forest, roots: Roots, x: Context, ordered: seq<Source>, n: nat, done: map<nat, Comment>)
  {
    && n <= |ordered|
    && (forall k {:trigger Migrated(byID, roots, x, done, ordered[k])} :: 0 <= k < n ==>
        Migrated(byID, roots, x, done, ordered[k]))
    && (forall id {:trigger DoneBy(x, ordered, n, id)} :: id in done ==> DoneBy(x, ordered, n, id))
  }

  ghost predicate DoneBy(x: Context, ordered: seq<Source>, n: nat, id: nat)
    requires n <= |ordered|
  {
    exists k :: 0 <= k < n && At(x.ids, ordered[k].id) == id
  }

  lemma MigratedNext(
    byID: Forest, roots: Roots, x: Context, ordered: seq<Source>, n: nat, done: map<nat, Comment>, c: Comment)
    requires n < |ordered| && MigratedTo(byID, roots, x, ordered, n, done)
    requires c.id == At(x.ids, ordered[n].id) && c.id !in done && Migrated(byID, roots, x, done[c.id := c], ordered[n])
    ensures MigratedTo(byID, roots, x, ordered, n + 1, done[c.id := c])
  {
    var more := done[c.id := c];
    forall k | 0 <= k < n
      ensures Migrated(byID, roots, x, more, ordered[k])
    {
      MigratedStays(byID, roots, x, done, more, ordered[k]);
    }
    forall id | id in more
      ensures DoneBy(x, ordered, n + 1, id)
    {
      if id == c.id {
        assert At(x.ids, ordered[n].id) == id;
      } else {
        assert DoneBy(x, ordered, n, id);
      }
    }
  }

  ghost predicate Prepared(all: seq<Source>, ordered: seq<Source>, byID: Forest, roots: Roots, x: Context) {
    && IsForest(all, byID) && Rooted(byID, roots) && InOrder(ordered) && (forall row :: row in ordered <==> row in all)
    && Injective(x.ids) && (forall row :: row in all ==> row.id in x.ids)
  }

  lemma EarlierRow(
    all: seq<Source>, ordered: seq<Source>, byID: Forest, roots: Roots, x: Context, n: nat, done: map<nat, Comment>,
    p: Source)
    requires Prepared(all, ordered, byID, roots, x) && n < |ordered| && MigratedTo(byID, roots, x, ordered, n, done)
    requires p.id in byID && byID[p.id] == p && At(x.ids, p.id) in done
    ensures Older(p, ordered[n]) && Migrated(byID, roots, x, done, p)
  {
    assert DoneBy(x, ordered, n, At(x.ids, p.id));
    var k :| 0 <= k < n && At(x.ids, ordered[k].id) == At(x.ids, p.id);
    assert ordered[k] in ordered && p in all;
    assert ordered[k].id == p.id;
    assert Migrated(byID, roots, x, done, ordered[k]);
  }

  lemma NotYetDone(
    all: seq<Source>, ordered: seq<Source>, byID: Forest, roots: Roots, x: Context, n: nat, done: map<nat, Comment>)
    requires Prepared(all, ordered, byID, roots, x) && n < |ordered| && MigratedTo(byID, roots, x, ordered, n, done)
    ensures At(x.ids, ordered[n].id) !in done
  {
    forall k | 0 <= k < n
      ensures At(x.ids, ordered[k].id) != At(x.ids, ordered[n].id)
    {
      assert ordered[k] in ordered && ordered[n] in ordered;
      assert Older(ordered[k], ordered[n]);
    }
    assert At(x.ids, ordered[n].id) in done ==> DoneBy(x, ordered, n, At(x.ids, ordered[n].id));
  }

  lemma RowMigrates(
    all: seq<Source>, ordered: seq<Source>, byID: Forest, roots: Roots, x: Context, n: nat, done: map<nat, Comment>,
    p: Source, c: Comment)
    requires Prepared(all, ordered, byID, roots, x) && n < |ordered| && MigratedTo(byID, roots, x, ordered, n, done)
    requires ordered[n].replyTo.Some? && RepliesTo(all, byID, roots, x, done, ordered[n], c, p)
    requires DistinctIds(all) && At(x.posts, ordered[n].post) in x.postAuthors && At(x.users, ordered[n].author) != 0
    ensures MigratedTo(byID, roots, x, ordered, n + 1, done[c.id := c])
    ensures CanMigrate(all, byID, x, ordered[n])
  {
    var row := ordered[n];
    assert row in ordered;
    ChosenSharesRoot(byID, roots, all, row, x.fallback, p);
    EarlierRow(all, ordered, byID, roots, x, n, done, p);
    MigratedRow(all, byID, roots, x, row, p);
    NotYetDone(all, ordered, byID, roots, x, n, done);
    ReplyMigrates(byID, roots, x, done, row, p, c);
    MigratedNext(byID, roots, x, ordered, n, done, c);
  }

  // ---- Which tables can be migrated -------------------------------------------------

  /** c is an earlier comment on the same post, in the same thread, by the user that row replies to. */
  ghost predicate Answered(byID: Forest, row: Source, c: Source) {
    && c.post == row.post && row.replyTo == Some(c.author) && c.createdAt < row.createdAt
    && exists root :: HasRoot(byID, row.id, root) && HasRoot(byID, c.id, root)
  }

  /** The parent a reply gets: the old one if it fits the user replied to, or else the only comment that does. */
  ghost predicate NewParent(all: seq<Source>, byID: Forest, fallback: SourceId, row: Source, p: Source) {
    && row.parent.Some? && row.parent.value in byID && row.replyTo.Some?
    && if row.replyTo.value == byID[row.parent.value].author || row.id == fallback then p == byID[row.parent.value]
       else p in all && Answered(byID, row, p) && forall c :: c in all && Answered(byID, row, c) ==> c == p
  }

  /** The row has a root, its post and author were migrated, and a reply has a parent that is older. */
  ghost predicate CanMigrate(all: seq<Source>, byID: Forest, x: Context, row: Source) {
    && (exists root :: HasRoot(byID, row.id, root))
    && EndpointsMigrated(x, row)
    && (row.parent.Some? ==> exists p :: NewParent(all, byID, x.fallback, row, p) && Older(p, row))
  }

  // A row without a post looks for post 0, the value of a missing key.
  predicate EndpointsMigrated(x: Context, row: Source) {
    && (if row.post in x.posts then x.posts[row.post] in x.postAuthors else 0 in x.postAuthors)
    && row.author in x.users && x.users[row.author] != 0
  }

  ghost predicate Migratable(all: seq<Source>, byID: Forest, x: Context) {
    forall row :: row in all ==> CanMigrate(all, byID, x, row)
  }

  lemma CandidateIsAnswered(byID: Forest, roots: Roots, row: Source, c: Source)
    requires Rooted(byID, roots) && row.id in byID && c.id in byID
    ensures Candidate(row, c, roots) <==> Answered(byID, row, c)
  {
    assert RootedAt(byID, roots, row.id) && RootedAt(byID, roots, c.id);
    if root :| HasRoot(byID, row.id, root) && HasRoot(byID, c.id, root) {
      RootIsUnique(byID, row.id, root, roots[row.id]);
      RootIsUnique(byID, c.id, root, roots[c.id]);
    }
  }

  lemma {:induction false} OnlyCandidate(row: Source, all: seq<Source>, roots: Roots, p: Source)
    requires DistinctIds(all)
    ensures CandidatesOf(row, all, roots) == [p] <==>
            p in all && Candidate(row, p, roots) && forall c :: c in all && Candidate(row, c, roots) ==> c == p
  {
    if all != [] {
      var init, last := all[..|all| - 1], all[|all| - 1];
      assert all == init + [last];
      OnlyCandidate(row, init, roots, p);
      assert last !in init;
      CandidatesAre(row, init, roots, p);
      if Candidate(row, last, roots) {
        FirstOfTwo(CandidatesOf(row, init, roots), last, p);
        NoneIfEmpty(row, init, roots);
      }
    }
  }

  lemma FirstOfTwo(a: seq<Source>, last: Source, p: Source)
    ensures a + [last] == [p] <==> a == [] && last == p
  {
    assert |a + [last]| == |a| + 1 && (a + [last])[|a|] == last;
  }

  lemma NoneIfEmpty(row: Source, all: seq<Source>, roots: Roots)
    ensures CandidatesOf(row, all, roots) == [] <==> forall c :: c in all ==> !Candidate(row, c, roots)
  {
    if CandidatesOf(row, all, roots) == [] {
      forall c | c in all ensures !Candidate(row, c, roots) { CandidatesAre(row, all, roots, c); }
    } else {
      var c := CandidatesOf(row, all, roots)[0];
      assert c in CandidatesOf(row, all, roots);
      CandidatesAre(row, all, roots, c);
    }
  }

  // In a table whose rows all have roots, the parent chosen is the new parent.
  lemma ChosenIsNewParent(all: seq<Source>, byID: Forest, roots: Roots, row: Source, fallback: SourceId, p: Source)
    requires IsForest(all, byID) && DistinctIds(all) && Rooted(byID, roots) && row in all
    requires row.parent.Some? && row.parent.value in byID && row.replyTo.Some?
    ensures Chosen(row, byID[row.parent.value], all, roots, fallback, p) <==> NewParent(all, byID, fallback, row, p)
  {
    OnlyCandidate(row, all, roots, p);
    forall c | c in all
      ensures Candidate(row, c, roots) <==> Answered(byID, row, c)
    {
      CandidateIsAnswered(byID, roots, row, c);
    }
  }

  lemma UnmigratableRoots(all: seq<Source>, byID: Forest, x: Context, row: Source)
    requires row in all && (Cycles(byID, row.id) || Dangles(byID, row.id))
    ensures !Migratable(all, byID, x)
  {
    if Migratable(all, byID, x) {
      assert CanMigrate(all, byID, x, row);
      var root :| HasRoot(byID, row.id, root);
      RootExcludesFailure(byID, row.id, root);
    }
  }

  // An older row has been migrated by the time this one is.
  lemma OlderIsDone(
    all: seq<Source>, ordered: seq<Source>, byID: Forest, roots: Roots, x: Context, n: nat, done: map<nat, Comment>,
    p: Source)
    requires Prepared(all, ordered, byID, roots, x) && n < |ordered| && MigratedTo(byID, roots, x, ordered, n, done)
    requires p in all && Older(p, ordered[n])
    ensures At(x.ids, p.id) in done
  {
    assert p in ordered;
    var k :| 0 <= k < |ordered| && ordered[k] == p;
    assert k < n;
    assert Migrated(byID, roots, x, done, ordered[k]);
  }

  // A row that is refused cannot be migrated.
  lemma RefusedRow(
    all: seq<Source>, ordered: seq<Source>, byID: Forest, roots: Roots, x: Context, n: nat, done: map<nat, Comment>)
    requires Prepared(all, ordered, byID, roots, x) && DistinctIds(all) && n < |ordered|
    requires MigratedTo(byID, roots, x, ordered, n, done) && Refused(all, byID, roots, x, done, ordered[n])
    ensures !Migratable(all, byID, x)
  {
    var row := ordered[n];
    assert row in ordered && row in all;
    if CanMigrate(all, byID, x, row) && row.parent.Some? {
      var p :| NewParent(all, byID, x.fallback, row, p) && Older(p, row);
      ChosenIsNewParent(all, byID, roots, row, x.fallback, p);
      OlderIsDone(all, ordered, byID, roots, x, n, done, p);
    }
  }

  // Why a row is refused.
  ghost predicate Refused(
    all: seq<Source>, byID: Forest, roots: Roots, x: Context, done: map<nat, Comment>, row: Source)
  {
    || !EndpointsMigrated(x, row)
    || (row.parent.Some?
        && (row.parent.value !in byID || row.replyTo.None?
            || NoneDone(all, byID[row.parent.value], roots, x, done, row)))
  }

  ghost predicate NoneDone(
    all: seq<Source>, parent: Source, roots: Roots, x: Context, done: map<nat, Comment>, row: Source)
  {
    forall p :: Chosen(row, parent, all, roots, x.fallback, p) ==> At(x.ids, p.id) !in done
  }

  lemma MigratedRow(all: seq<Source>, byID: Forest, roots: Roots, x: Context, row: Source, p: Source)
    requires IsForest(all, byID) && DistinctIds(all) && Rooted(byID, roots) && row in all
    requires At(x.posts, row.post) in x.postAuthors && At(x.users, row.author) != 0
    requires row.parent.Some? ==>
      && row.parent.value in byID && row.replyTo.Some? && Older(p, row)
      && Chosen(row, byID[row.parent.value], all, roots, x.fallback, p)
    ensures CanMigrate(all, byID, x, row)
  {
    assert RootedAt(byID, roots, row.id);
    if row.parent.Some? { ChosenIsNewParent(all, byID, roots, row, x.fallback, p); }
  }

  lemma MadeMigrates(
    all: seq<Source>, ordered: seq<Source>, byID: Forest, roots: Roots, x: Context, n: nat, done: map<nat, Comment>,
    c: Comment)
    requires Prepared(all, ordered, byID, roots, x) && n < |ordered| && MigratedTo(byID, roots, x, ordered, n, done)
    requires DistinctIds(all) && MadeFrom(all, byID, roots, x, done, ordered[n], c)
    ensures MigratedTo(byID, roots, x, ordered, n + 1, done[c.id := c]) && c.id == At(x.ids, ordered[n].id)
    ensures CanMigrate(all, byID, x, ordered[n])
  {
    var row := ordered[n];
    assert row in ordered;
    if row.parent.Some? {
      var p :| RepliesTo(all, byID, roots, x, done, row, c, p);
      RowMigrates(all, ordered, byID, roots, x, n, done, p, c);
    } else {
      MigratedRow(all, byID, roots, x, row, row);
      NotYetDone(all, ordered, byID, roots, x, n, done);
      MigratedNext(byID, roots, x, ordered, n, done, c);
    }
  }

  ghost predicate FirstCanMigrate(all: seq<Source>, byID: Forest, x: Context, ordered: seq<Source>, n: nat)
    requires n <= |ordered|
  {
    forall k :: 0 <= k < n ==> CanMigrate(all, byID, x, ordered[k])
  }

  lemma AllCanMigrate(all: seq<Source>, byID: Forest, x: Context, ordered: seq<Source>)
    requires FirstCanMigrate(all, byID, x, ordered, |ordered|) && forall row :: row in all ==> row in ordered
    ensures Migratable(all, byID, x)
  {
    forall row | row in all
      ensures CanMigrate(all, byID, x, row)
    {
      assert row in ordered;
    }
  }

  method TransformNext(
    all: seq<Source>, ordered: seq<Source>, byID: Forest, roots: Roots, x: Context, n: nat, done: map<nat, Comment>)
    returns (r: Result<map<nat, Comment>, Failure>)
    requires Prepared(all, ordered, byID, roots, x) && DistinctIds(all) && n < |ordered|
    requires MigratedTo(byID, roots, x, ordered, n, done)
    ensures r.Ok? ==> MigratedTo(byID, roots, x, ordered, n + 1, r.value) && CanMigrate(all, byID, x, ordered[n])
    ensures r.Err? ==> r.error != Cycle && !Migratable(all, byID, x)
  {
    var c := TransformComment(ordered[n], all, byID, roots, x, done);
    if c.Err? {
      RefusedRow(all, ordered, byID, roots, x, n, done);
      return Err(c.error);
    }
    MadeMigrates(all, ordered, byID, roots, x, n, done, c.value);
    return Ok(done[c.value.id := c.value]);
  }

  // Every comment in turn, parents before their replies.
  method TransformOrdered(all: seq<Source>, ordered: seq<Source>, byID: Forest, roots: Roots, x: Context)
    returns (r: Result<map<nat, Comment>, Failure>)
    requires Prepared(all, ordered, byID, roots, x) && DistinctIds(all)
    ensures r.Ok? ==> MigratedTo(byID, roots, x, ordered, |ordered|, r.value) && Migratable(all, byID, x)
    ensures r.Err? ==> r.error != Cycle && !Migratable(all, byID, x)
  {
    var done: map<nat, Comment> := map[];
    for n := 0 to |ordered|
      invariant MigratedTo(byID, roots, x, ordered, n, done)
      invariant FirstCanMigrate(all, byID, x, ordered, n)
    {
      var next := TransformNext(all, ordered, byID, roots, x, n, done);
      if next.Err? { return next; }
      done := next.value;
    }
    AllCanMigrate(all, byID, x, ordered);
    return Ok(done);
  }

  // What is said of the ordered rows holds of the table.
  lemma TableMigrated(
    all: seq<Source>, ordered: seq<Source>, byID: Forest, roots: Roots, x: Context, done: map<nat, Comment>)
    requires Prepared(all, ordered, byID, roots, x) && MigratedTo(byID, roots, x, ordered, |ordered|, done)
    ensures forall row {:trigger Migrated(byID, roots, x, done, row)} ::
              row in all ==> Migrated(byID, roots, x, done, row)
    ensures forall id :: id in done ==> exists row :: row in all && At(x.ids, row.id) == id
  {
    forall row | row in all
      ensures Migrated(byID, roots, x, done, row)
    {
      assert row in ordered;
    }
    forall id | id in done
      ensures exists row :: row in all && At(x.ids, row.id) == id
    {
      assert DoneBy(x, ordered, |ordered|, id);
      var k :| 0 <= k < |ordered| && At(x.ids, ordered[k].id) == id;
      assert ordered[k] in all;
    }
  }

  /**
   * The whole table, migrated exactly if it can be. Source ids are primary keys, and every one of them was registered.
   */
  method TransformComments(all: seq<Source>, x: Context)
    returns (r: Result<map<nat, Comment>, Failure>, byID: Forest, ghost roots: Roots)
    requires DistinctIds(all) && Injective(x.ids) && forall row :: row in all ==> row.id in x.ids
    ensures IsForest(all, byID)
    ensures r.Ok? ==>
      && Rooted(byID, roots)
      && (forall row {:trigger Migrated(byID, roots, x, r.value, row)} :: row in all ==>
          Migrated(byID, roots, x, r.value, row))
      && (forall id :: id in r.value ==> exists row :: row in all && At(x.ids, row.id) == id)
    ensures r == Err(Cycle) ==> exists row :: row in all && Cycles(byID, row.id)
    ensures r.Ok? <==> Migratable(all, byID, x)
  {
    byID := IndexRows(all);
    roots := map[];
    var found := FindRoots(all, byID);
    if found.Err? {
      ghost var row :| row in all && (Cycles(byID, row.id) || Dangles(byID, row.id));
      UnmigratableRoots(all, byID, x, row);
      return Err(found.error), byID, roots;
    }
    roots := found.value;
    var ordered := SortByAge(all);
    r := TransformOrdered(all, ordered, byID, found.value, x);
    if r.Ok? { TableMigrated(all, ordered, byID, roots, x, r.value); }
  }

  /** A table with a cycle or a missing parent is never migrated. */
  lemma BrokenThreadsFail(all: seq<Source>, byID: Forest, roots: Roots, row: Source)
    requires IsForest(all, byID) && row in all && (Cycles(byID, row.id) || Dangles(byID, row.id))
    ensures !Rooted(byID, roots)
  {
    if Rooted(byID, roots) {
      assert RootedAt(byID, roots, row.id);
      RootExcludesFailure(byID, row.id, roots[row.id]);
    }
  }

  // ---- What a migrated forest promises ----------------------------------------------

  ghost predicate MigratedAll(all: seq<Source>, byID: Forest, roots: Roots, x: Context, done: map<nat, Comment>) {
    && IsForest(all, byID) && Rooted(byID, roots) && Injective(x.ids)
    && (forall row :: row in all ==> row.id in x.ids)
    && (forall row {:trigger Migrated(byID, roots, x, done, row)} :: row in all ==> Migrated(byID, roots, x, done, row))
  }

  /** Every reply's root is the comment its old thread started with, and that comment is top-level. */
  lemma RootIsTheOldThread(
    all: seq<Source>, byID: Forest, roots: Roots, x: Context, done: map<nat, Comment>, row: Source, root: SourceId)
    requires MigratedAll(all, byID, roots, x, done) && row in all && row.parent.Some? && HasRoot(byID, row.id, root)
    ensures x.ids[row.id] in done
    ensures var c := done[x.ids[row.id]];
      && root in x.ids && c.root == Some(x.ids[root]) && x.ids[root] in done
      && done[x.ids[root]].parent.None? && done[x.ids[root]].root.None?
  {
    assert RootedAt(byID, roots, row.id);
    RootIsUnique(byID, row.id, root, roots[row.id]);
    assert Migrated(byID, roots, x, done, row);
    var p :| ParentOf(byID, roots, x, done, row, p);
    assert byID[root] in all && byID[root].id == root;
    assert Migrated(byID, roots, x, done, byID[root]);
  }

  // n steps up the new parent links.
  function NewAncestor(done: map<nat, Comment>, id: nat, n: nat): Option<nat> {
    if n == 0 then Some(id)
    else
      var below := NewAncestor(done, id, n - 1);
      if below.Some? && below.value in done then done[below.value].parent else None
  }

  lemma {:induction false} NewAncestorsAreOlder(
    all: seq<Source>, byID: Forest, roots: Roots, x: Context, done: map<nat, Comment>, row: Source, n: nat)
    returns (a: Source)
    requires MigratedAll(all, byID, roots, x, done) && row in all && NewAncestor(done, x.ids[row.id], n).Some?
    ensures a in all && NewAncestor(done, x.ids[row.id], n) == Some(x.ids[a.id])
    ensures n > 0 ==> Older(a, row)
    ensures n == 0 ==> a == row
    decreases n
  {
    a := row;
    if n > 0 {
      var b := NewAncestorsAreOlder(all, byID, roots, x, done, row, n - 1);
      assert Migrated(byID, roots, x, done, b);
      var p :| ParentOf(byID, roots, x, done, b, p);
      assert byID[p.id] in all;
      a := p;
    }
  }

  /** The new parent links have no cycle, even where parents were inferred anew. */
  lemma NewForestIsAcyclic(
    all: seq<Source>, byID: Forest, roots: Roots, x: Context, done: map<nat, Comment>, row: Source, n: nat)
    requires MigratedAll(all, byID, roots, x, done) && row in all && n > 0
    ensures NewAncestor(done, x.ids[row.id], n) != Some(x.ids[row.id])
  {
    if NewAncestor(done, x.ids[row.id], n).Some? {
      var a := NewAncestorsAreOlder(all, byID, roots, x, done, row, n);
      assert a.id == row.id ==> a == row;
    }
  }
}
