/** The counters the importer derives from the migrated relations. */
module LegacyCounters {
  import opened Common

  type Id = nat

  datatype PostCounts = PostCounts(likes: nat, favorites: nat, comments: nat)

  // post, thread root and the two counters of a migrated comment
  datatype CommentRow = CommentRow(post: Id, root: Option<Id>, replies: nat, likes: nat)

  // A like or favourite: what it is on, and whose it is.
  datatype Relation = Relation(on: Id, user: Id)

  // The rows of each map in the order one walk of it happens to take.
  datatype Walk = Walk(
    postLikes: seq<Relation>, favorites: seq<Relation>, comments: seq<Id>, commentLikes: seq<Relation>)

  datatype Tables = Tables(posts: map<Id, PostCounts>, comments: map<Id, CommentRow>)

  // ---- Counting -----------------------------------------------------------------------

  function Count(keys: seq<Option<Id>>, id: Id): nat {
    if keys == [] then 0
    else Count(keys[..|keys| - 1], id) + if keys[|keys| - 1] == Some(id) then 1 else 0
  }

  lemma CountNext(keys: seq<Option<Id>>, k: Option<Id>, id: Id)
    ensures Count(keys + [k], id) == Count(keys, id) + if k == Some(id) then 1 else 0
  {
    assert (keys + [k])[..|keys|] == keys;
  }

  /** A count is a multiplicity, so the order of the walk does not matter. */
  lemma {:induction false} CountIsMultiplicity(keys: seq<Option<Id>>, id: Id)
    ensures Count(keys, id) == multiset(keys)[Some(id)]
  {
    if keys != [] {
      var init, last := keys[..|keys| - 1], keys[|keys| - 1];
      assert keys == init + [last];
      CountIsMultiplicity(init, id);
    }
  }

  function Targets(relations: seq<Relation>): (r: seq<Option<Id>>)
    ensures |r| == |relations| && forall k :: 0 <= k < |r| ==> r[k] == Some(relations[k].on)
  {
    seq(|relations|, k requires 0 <= k < |relations| => Some(relations[k].on))
  }

  function PostsOf(order: seq<Id>, comments: map<Id, CommentRow>): (r: seq<Option<Id>>)
    ensures |r| == |order|
    ensures forall k :: 0 <= k < |r| ==> r[k] == if order[k] in comments then Some(comments[order[k]].post) else None
  {
    seq(|order|, k requires 0 <= k < |order| => if order[k] in comments then Some(comments[order[k]].post) else None)
  }

  function RootsOf(order: seq<Id>, comments: map<Id, CommentRow>): (r: seq<Option<Id>>)
    ensures |r| == |order|
    ensures forall k :: 0 <= k < |r| ==> r[k] == if order[k] in comments then comments[order[k]].root else None
  {
    seq(|order|, k requires 0 <= k < |order| => if order[k] in comments then comments[order[k]].root else None)
  }

  /** What the transformations before have checked: every reference is to a migrated row. */
  predicate Checked(t: Tables, w: Walk) {
    && (forall k :: 0 <= k < |w.postLikes| ==> w.postLikes[k].on in t.posts)
    && (forall k :: 0 <= k < |w.favorites| ==> w.favorites[k].on in t.posts)
    && (forall k :: 0 <= k < |w.commentLikes| ==> w.commentLikes[k].on in t.comments)
    && (forall k :: 0 <= k < |w.comments| ==> CommentChecked(t, w.comments[k]))
  }

  predicate CommentChecked(t: Tables, c: Id) {
    && c in t.comments && t.comments[c].post in t.posts
    && (t.comments[c].root.Some? ==> t.comments[c].root.value in t.comments)
  }

  // ---- The loops ------------------------------------------------------------------------

  ghost predicate LikesCounted(posts: map<Id, PostCounts>, r: map<Id, PostCounts>, relations: seq<Relation>) {
    && r.Keys == posts.Keys
    && forall p :: p in posts ==> r[p] == posts[p].(likes := posts[p].likes + Count(Targets(relations), p))
  }

  ghost predicate FavoritesCounted(posts: map<Id, PostCounts>, r: map<Id, PostCounts>, relations: seq<Relation>) {
    && r.Keys == posts.Keys
    && forall p :: p in posts ==> r[p] == posts[p].(favorites := posts[p].favorites + Count(Targets(relations), p))
  }

  ghost predicate CommentLikesCounted(comments: map<Id, CommentRow>, r: map<Id, CommentRow>, relations: seq<Relation>) {
    && r.Keys == comments.Keys
    && forall c :: c in comments ==> r[c] == comments[c].(likes := comments[c].likes + Count(Targets(relations), c))
  }

  method CountLikes(posts: map<Id, PostCounts>, relations: seq<Relation>) returns (r: map<Id, PostCounts>)
    requires forall k :: 0 <= k < |relations| ==> relations[k].on in posts
    ensures LikesCounted(posts, r, relations)
  {
    r := posts;
    for n := 0 to |relations|
      invariant LikesCounted(posts, r, relations[..n])
    {
      var post := r[relations[n].on];
      post := post.(likes := post.likes + 1);
      r := r[relations[n].on := post];
      assert Targets(relations[..n + 1])[..n] == Targets(relations[..n]);
    }
    assert relations[..|relations|] == relations;
  }

  method CountFavorites(posts: map<Id, PostCounts>, relations: seq<Relation>) returns (r: map<Id, PostCounts>)
    requires forall k :: 0 <= k < |relations| ==> relations[k].on in posts
    ensures FavoritesCounted(posts, r, relations)
  {
    r := posts;
    for n := 0 to |relations|
      invariant FavoritesCounted(posts, r, relations[..n])
    {
      var post := r[relations[n].on];
      post := post.(favorites := post.favorites + 1);
      r := r[relations[n].on := post];
      assert Targets(relations[..n + 1])[..n] == Targets(relations[..n]);
    }
    assert relations[..|relations|] == relations;
  }

  method CountCommentLikes(comments: map<Id, CommentRow>, relations: seq<Relation>) returns (r: map<Id, CommentRow>)
    requires forall k :: 0 <= k < |relations| ==> relations[k].on in comments
    ensures CommentLikesCounted(comments, r, relations)
  {
    r := comments;
    for n := 0 to |relations|
      invariant CommentLikesCounted(comments, r, relations[..n])
    {
      var comment := r[relations[n].on];
      comment := comment.(likes := comment.likes + 1);
      r := r[relations[n].on := comment];
      assert Targets(relations[..n + 1])[..n] == Targets(relations[..n]);
    }
    assert relations[..|relations|] == relations;
  }

  ghost predicate PostsCounted(t: Tables, posts: map<Id, PostCounts>, order: seq<Id>) {
    && posts.Keys == t.posts.Keys
    && forall p :: p in t.posts ==>
         posts[p] == t.posts[p].(comments := t.posts[p].comments + Count(PostsOf(order, t.comments), p))
  }

  ghost predicate RepliesCounted(t: Tables, rows: map<Id, CommentRow>, order: seq<Id>) {
    && rows.Keys == t.comments.Keys
    && forall c :: c in t.comments ==>
         rows[c] == t.comments[c].(replies := t.comments[c].replies + Count(RootsOf(order, t.comments), c))
  }

  lemma OneMoreComment(t: Tables, posts: map<Id, PostCounts>, order: seq<Id>, c: Id)
    requires PostsCounted(t, posts, order) && CommentChecked(t, c)
    ensures var p := t.comments[c].post;
      PostsCounted(t, posts[p := posts[p].(comments := posts[p].comments + 1)], order + [c])
  {
    assert PostsOf(order + [c], t.comments) == PostsOf(order, t.comments) + [Some(t.comments[c].post)];
    forall p | p in t.posts { CountNext(PostsOf(order, t.comments), Some(t.comments[c].post), p); }
  }

  lemma OneMoreReply(t: Tables, rows: map<Id, CommentRow>, order: seq<Id>, c: Id)
    requires RepliesCounted(t, rows, order) && CommentChecked(t, c)
    ensures var root := t.comments[c].root;
      var counted := if root.Some? then rows[root.value := rows[root.value].(replies := rows[root.value].replies + 1)]
                     else rows;
      RepliesCounted(t, counted, order + [c])
  {
    assert RootsOf(order + [c], t.comments) == RootsOf(order, t.comments) + [t.comments[c].root];
    forall d | d in t.comments { CountNext(RootsOf(order, t.comments), t.comments[c].root, d); }
  }

  // One comment of the walk.
  method CountComment(t: Tables, posts: map<Id, PostCounts>, rows: map<Id, CommentRow>, ghost done: seq<Id>, c: Id)
    returns (morePosts: map<Id, PostCounts>, moreRows: map<Id, CommentRow>)
    requires PostsCounted(t, posts, done) && RepliesCounted(t, rows, done) && CommentChecked(t, c)
    ensures PostsCounted(t, morePosts, done + [c]) && RepliesCounted(t, moreRows, done + [c])
  {
    OneMoreComment(t, posts, done, c);
    OneMoreReply(t, rows, done, c);
    var comment := rows[c];
    var post := posts[comment.post];
    post := post.(comments := post.comments + 1);
    morePosts, moreRows := posts[comment.post := post], rows;
    if comment.root.Some? {
      var root := rows[comment.root.value];
      root := root.(replies := root.replies + 1);
      moreRows := rows[comment.root.value := root];
    }
  }

  /** Comments per post and replies per root; the comment map changes while it is walked. */
  method CountComments(t: Tables, order: seq<Id>) returns (posts: map<Id, PostCounts>, rows: map<Id, CommentRow>)
    requires forall k :: 0 <= k < |order| ==> CommentChecked(t, order[k])
    ensures PostsCounted(t, posts, order) && RepliesCounted(t, rows, order)
  {
    posts, rows := t.posts, t.comments;
    for n := 0 to |order|
      invariant PostsCounted(t, posts, order[..n]) && RepliesCounted(t, rows, order[..n])
    {
      posts, rows := CountComment(t, posts, rows, order[..n], order[n]);
      assert order[..n + 1] == order[..n] + [order[n]];
    }
    assert order[..|order|] == order;
  }

  /** Every counter has grown by the number of rows it counts. */
  ghost predicate Counted(t: Tables, w: Walk, r: Tables) {
    && r.posts.Keys == t.posts.Keys && r.comments.Keys == t.comments.Keys
    && (forall p :: p in t.posts ==> r.posts[p] == PostTotals(t, w, p))
    && (forall c :: c in t.comments ==> r.comments[c] == CommentTotals(t, w, c))
  }

  function PostTotals(t: Tables, w: Walk, p: Id): PostCounts
    requires p in t.posts
  {
    PostCounts(t.posts[p].likes + Count(Targets(w.postLikes), p),
               t.posts[p].favorites + Count(Targets(w.favorites), p),
               t.posts[p].comments + Count(PostsOf(w.comments, t.comments), p))
  }

  function CommentTotals(t: Tables, w: Walk, c: Id): CommentRow
    requires c in t.comments
  {
    CommentRow(t.comments[c].post, t.comments[c].root,
               t.comments[c].replies + Count(RootsOf(w.comments, t.comments), c),
               t.comments[c].likes + Count(Targets(w.commentLikes), c))
  }

  lemma StagesCount(
    t: Tables, w: Walk, liked: map<Id, PostCounts>, favored: map<Id, PostCounts>, posts: map<Id, PostCounts>,
    replied: map<Id, CommentRow>, comments: map<Id, CommentRow>)
    requires LikesCounted(t.posts, liked, w.postLikes) && FavoritesCounted(liked, favored, w.favorites)
    requires PostsCounted(Tables(favored, t.comments), posts, w.comments)
    requires RepliesCounted(Tables(favored, t.comments), replied, w.comments)
    requires CommentLikesCounted(replied, comments, w.commentLikes)
    ensures Counted(t, w, Tables(posts, comments))
  {
    forall p | p in t.posts
      ensures posts[p] == PostTotals(t, w, p)
    {
      assert liked[p].likes == t.posts[p].likes + Count(Targets(w.postLikes), p);
      assert favored[p].favorites == liked[p].favorites + Count(Targets(w.favorites), p);
    }
    forall c | c in t.comments
      ensures comments[c] == CommentTotals(t, w, c)
    {
      assert replied[c].replies == t.comments[c].replies + Count(RootsOf(w.comments, t.comments), c);
    }
  }

  method DeriveCounters(t: Tables, w: Walk) returns (r: Tables)
    requires Checked(t, w)
    ensures Counted(t, w, r) && Conserved(t, w, r)
  {
    var liked := CountLikes(t.posts, w.postLikes);
    var favored := CountFavorites(liked, w.favorites);
    StillChecked(t, favored, w);
    var posts, replied := CountComments(Tables(favored, t.comments), w.comments);
    var comments := CountCommentLikes(replied, w.commentLikes);
    StagesCount(t, w, liked, favored, posts, replied, comments);
    r := Tables(posts, comments);
    TotalsAreConserved(t, w, r);
  }

  lemma StillChecked(t: Tables, posts: map<Id, PostCounts>, w: Walk)
    requires Checked(t, w) && posts.Keys == t.posts.Keys
    ensures forall k :: 0 <= k < |w.comments| ==> CommentChecked(Tables(posts, t.comments), w.comments[k])
  {
    forall k | 0 <= k < |w.comments|
      ensures CommentChecked(Tables(posts, t.comments), w.comments[k])
    {
      assert CommentChecked(t, w.comments[k]);
    }
  }

  // ---- What the counters promise -----------------------------------------------------------

  // The same rows, walked in some other order.
  predicate SameRows(t: Tables, v: Walk, w: Walk) {
    && multiset(Targets(v.postLikes)) == multiset(Targets(w.postLikes))
    && multiset(Targets(v.favorites)) == multiset(Targets(w.favorites))
    && multiset(Targets(v.commentLikes)) == multiset(Targets(w.commentLikes))
    && multiset(PostsOf(v.comments, t.comments)) == multiset(PostsOf(w.comments, t.comments))
    && multiset(RootsOf(v.comments, t.comments)) == multiset(RootsOf(w.comments, t.comments))
  }

  lemma SameCounts(a: seq<Option<Id>>, b: seq<Option<Id>>, id: Id)
    requires multiset(a) == multiset(b)
    ensures Count(a, id) == Count(b, id)
  {
    CountIsMultiplicity(a, id);
    CountIsMultiplicity(b, id);
  }

  /** The counters come out the same in whatever order the maps are walked. */
  lemma WalksAgree(t: Tables, v: Walk, w: Walk, r: Tables, s: Tables)
    requires SameRows(t, v, w) && Counted(t, v, r) && Counted(t, w, s)
    ensures r == s
  {
    forall p | p in t.posts
      ensures PostTotals(t, v, p) == PostTotals(t, w, p)
    {
      SameCounts(Targets(v.postLikes), Targets(w.postLikes), p);
      SameCounts(Targets(v.favorites), Targets(w.favorites), p);
      SameCounts(PostsOf(v.comments, t.comments), PostsOf(w.comments, t.comments), p);
    }
    forall c | c in t.comments
      ensures CommentTotals(t, v, c) == CommentTotals(t, w, c)
    {
      SameCounts(RootsOf(v.comments, t.comments), RootsOf(w.comments, t.comments), c);
      SameCounts(Targets(v.commentLikes), Targets(w.commentLikes), c);
    }
    assert r.posts == s.posts && r.comments == s.comments;
  }

  function Total(keys: seq<Option<Id>>, ids: seq<Id>): nat {
    if ids == [] then 0 else Total(keys, ids[..|ids| - 1]) + Count(keys, ids[|ids| - 1])
  }

  predicate Distinct(ids: seq<Id>) { forall j, k :: 0 <= j < k < |ids| ==> ids[j] != ids[k] }

  lemma {:induction false} TotalNext(keys: seq<Option<Id>>, id: Id, ids: seq<Id>)
    requires Distinct(ids)
    ensures Total(keys + [Some(id)], ids) == Total(keys, ids) + if id in ids then 1 else 0
    decreases |ids|
  {
    if ids != [] {
      var init, last := ids[..|ids| - 1], ids[|ids| - 1];
      assert ids == init + [last];
      TotalNext(keys, id, init);
      CountNext(keys, Some(id), last);
    }
  }

  lemma {:induction false} TotalOfNothing(ids: seq<Id>)
    ensures Total([], ids) == 0
    decreases |ids|
  {
    if ids != [] { TotalOfNothing(ids[..|ids| - 1]); }
  }

  lemma {:induction false} TotalOfNone(keys: seq<Option<Id>>, ids: seq<Id>)
    ensures Total(keys + [None], ids) == Total(keys, ids)
    decreases |ids|
  {
    if ids != [] {
      TotalOfNone(keys, ids[..|ids| - 1]);
      CountNext(keys, None, ids[|ids| - 1]);
    }
  }

  function Named(keys: seq<Option<Id>>): nat {
    if keys == [] then 0 else Named(keys[..|keys| - 1]) + if keys[|keys| - 1].Some? then 1 else 0
  }

  // Every key that names a row is counted at exactly one row.
  lemma {:induction false} TotalIsNamed(keys: seq<Option<Id>>, ids: seq<Id>)
    requires Distinct(ids) && forall k :: 0 <= k < |keys| && keys[k].Some? ==> keys[k].value in ids
    ensures Total(keys, ids) == Named(keys)
    decreases |keys|
  {
    if keys == [] {
      TotalOfNothing(ids);
    } else {
      var init, last := keys[..|keys| - 1], keys[|keys| - 1];
      assert keys == init + [last];
      TotalIsNamed(init, ids);
      if last.Some? { TotalNext(init, last.value, ids); } else { TotalOfNone(init, ids); }
    }
  }

  lemma {:induction false} AllNamed(keys: seq<Option<Id>>)
    requires forall k :: 0 <= k < |keys| ==> keys[k].Some?
    ensures Named(keys) == |keys|
  {
    if keys != [] { AllNamed(keys[..|keys| - 1]); }
  }

  // The comments of a walk that hang below a root.
  function Replies(order: seq<Id>, comments: map<Id, CommentRow>): seq<Id> {
    if order == [] then []
    else
      var c := order[|order| - 1];
      Replies(order[..|order| - 1], comments) + if c in comments && comments[c].root.Some? then [c] else []
  }

  lemma {:induction false} RootsNamed(order: seq<Id>, comments: map<Id, CommentRow>)
    ensures Named(RootsOf(order, comments)) == |Replies(order, comments)|
  {
    if order != [] {
      var init := order[..|order| - 1];
      RootsNamed(init, comments);
      assert RootsOf(order, comments)[..|order| - 1] == RootsOf(init, comments);
    }
  }

  function Sum(counts: map<Id, nat>, ids: seq<Id>): nat
    requires forall k :: 0 <= k < |ids| ==> ids[k] in counts
  {
    if ids == [] then 0 else Sum(counts, ids[..|ids| - 1]) + counts[ids[|ids| - 1]]
  }

  ghost predicate Lists(ids: seq<Id>, keys: set<Id>) { Distinct(ids) && forall id :: id in ids <==> id in keys }

  lemma {:induction false} SumGrows(before: map<Id, nat>, after: map<Id, nat>, keys: seq<Option<Id>>, ids: seq<Id>)
    requires forall k :: 0 <= k < |ids| ==> ids[k] in before && ids[k] in after
    requires forall k :: 0 <= k < |ids| ==> after[ids[k]] == before[ids[k]] + Count(keys, ids[k])
    ensures Sum(after, ids) == Sum(before, ids) + Total(keys, ids)
    decreases |ids|
  {
    if ids != [] { SumGrows(before, after, keys, ids[..|ids| - 1]); }
  }

  lemma SumGrowsByNamed(before: map<Id, nat>, after: map<Id, nat>, keys: seq<Option<Id>>, ids: seq<Id>)
    requires Lists(ids, before.Keys) && after.Keys == before.Keys
    requires forall id :: id in before ==> after[id] == before[id] + Count(keys, id)
    requires forall k :: 0 <= k < |keys| && keys[k].Some? ==> keys[k].value in before
    ensures forall k :: 0 <= k < |ids| ==> ids[k] in before
    ensures Sum(after, ids) == Sum(before, ids) + Named(keys)
  {
    assert forall k :: 0 <= k < |ids| ==> ids[k] in ids;
    SumGrows(before, after, keys, ids);
    TotalIsNamed(keys, ids);
  }

  function Likes(posts: map<Id, PostCounts>): map<Id, nat> { map p | p in posts :: posts[p].likes }
  function Favorites(posts: map<Id, PostCounts>): map<Id, nat> { map p | p in posts :: posts[p].favorites }
  function Comments(posts: map<Id, PostCounts>): map<Id, nat> { map p | p in posts :: posts[p].comments }
  function ReplyCounts(comments: map<Id, CommentRow>): map<Id, nat> { map c | c in comments :: comments[c].replies }
  function CommentLikes(comments: map<Id, CommentRow>): map<Id, nat> { map c | c in comments :: comments[c].likes }

  lemma SomeList(keys: set<Id>) returns (ids: seq<Id>)
    ensures Lists(ids, keys)
  {
    ids := [];
    var rest := keys;
    while rest != {}
      invariant rest <= keys && Distinct(ids) && forall id :: id in ids <==> id in keys && id !in rest
      decreases |rest|
    {
      var id :| id in rest;
      ids, rest := ids + [id], rest - {id};
    }
  }

  // The rows can be listed, and the sum over all of them, in any order, has grown by n.
  ghost predicate GrewBy(before: map<Id, nat>, after: map<Id, nat>, n: nat) {
    && after.Keys == before.Keys
    && (exists ids: seq<Id> :: Lists(ids, before.Keys))
    && (forall ids: seq<Id> :: Lists(ids, before.Keys) ==>
          && (forall k :: 0 <= k < |ids| ==> ids[k] in before)
          && Sum(after, ids) == Sum(before, ids) + n)
  }

  lemma CountedGrewBy(before: map<Id, nat>, after: map<Id, nat>, keys: seq<Option<Id>>)
    requires after.Keys == before.Keys
    requires forall id :: id in before ==> after[id] == before[id] + Count(keys, id)
    requires forall k :: 0 <= k < |keys| && keys[k].Some? ==> keys[k].value in before
    ensures GrewBy(before, after, Named(keys))
  {
    var some := SomeList(before.Keys);
    forall ids: seq<Id> | Lists(ids, before.Keys)
      ensures forall k :: 0 <= k < |ids| ==> ids[k] in before
      ensures Sum(after, ids) == Sum(before, ids) + Named(keys)
    {
      SumGrowsByNamed(before, after, keys, ids);
    }
  }

  /**
   * Summed over all rows, each counter of the derived tables has grown by the number of relations it counts; for
   * replies, of the comments that have a root.
   */
  ghost predicate Conserved(t: Tables, w: Walk, r: Tables) {
    && GrewBy(Likes(t.posts), Likes(r.posts), |w.postLikes|)
    && GrewBy(Favorites(t.posts), Favorites(r.posts), |w.favorites|)
    && GrewBy(Comments(t.posts), Comments(r.posts), |w.comments|)
    && GrewBy(ReplyCounts(t.comments), ReplyCounts(r.comments), |Replies(w.comments, t.comments)|)
    && GrewBy(CommentLikes(t.comments), CommentLikes(r.comments), |w.commentLikes|)
  }

  lemma PostLikesConserved(t: Tables, w: Walk, r: Tables)
    requires Checked(t, w) && Counted(t, w, r)
    ensures GrewBy(Likes(t.posts), Likes(r.posts), |w.postLikes|)
  {
    CountedGrewBy(Likes(t.posts), Likes(r.posts), Targets(w.postLikes));
    AllNamed(Targets(w.postLikes));
  }

  lemma FavoritesConserved(t: Tables, w: Walk, r: Tables)
    requires Checked(t, w) && Counted(t, w, r)
    ensures GrewBy(Favorites(t.posts), Favorites(r.posts), |w.favorites|)
  {
    CountedGrewBy(Favorites(t.posts), Favorites(r.posts), Targets(w.favorites));
    AllNamed(Targets(w.favorites));
  }

  lemma PostCommentsConserved(t: Tables, w: Walk, r: Tables)
    requires Checked(t, w) && Counted(t, w, r)
    ensures GrewBy(Comments(t.posts), Comments(r.posts), |w.comments|)
  {
    forall k | 0 <= k < |w.comments| ensures CommentChecked(t, w.comments[k]) {}
    CountedGrewBy(Comments(t.posts), Comments(r.posts), PostsOf(w.comments, t.comments));
    AllNamed(PostsOf(w.comments, t.comments));
  }

  lemma RepliesConserved(t: Tables, w: Walk, r: Tables)
    requires Checked(t, w) && Counted(t, w, r)
    ensures GrewBy(ReplyCounts(t.comments), ReplyCounts(r.comments), |Replies(w.comments, t.comments)|)
  {
    forall k | 0 <= k < |w.comments| ensures CommentChecked(t, w.comments[k]) {}
    CountedGrewBy(ReplyCounts(t.comments), ReplyCounts(r.comments), RootsOf(w.comments, t.comments));
    RootsNamed(w.comments, t.comments);
  }

  lemma CommentLikesConserved(t: Tables, w: Walk, r: Tables)
    requires Checked(t, w) && Counted(t, w, r)
    ensures GrewBy(CommentLikes(t.comments), CommentLikes(r.comments), |w.commentLikes|)
  {
    CountedGrewBy(CommentLikes(t.comments), CommentLikes(r.comments), Targets(w.commentLikes));
    AllNamed(Targets(w.commentLikes));
  }

  /** No relation is lost or counted twice. */
  lemma TotalsAreConserved(t: Tables, w: Walk, r: Tables)
    requires Checked(t, w) && Counted(t, w, r)
    ensures Conserved(t, w, r)
  {
    PostLikesConserved(t, w, r);
    FavoritesConserved(t, w, r);
    PostCommentsConserved(t, w, r);
    RepliesConserved(t, w, r);
    CommentLikesConserved(t, w, r);
  }
}
