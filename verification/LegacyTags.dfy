/** Numbering the tags of the legacy posts. */
module LegacyTags {
  import opened Common

  // A spelling with its case-folded form; acceptable stands for the length and whitespace checks.
  datatype Name = Name(spelling: nat, folded: nat, acceptable: bool)

  datatype Tag = Tag(name: Name, createdAt: int)

  // Tag rows by id, and the post_tags relation.
  datatype Tables = Tables(tags: map<nat, Tag>, links: set<(nat, nat)>)

  const NO_TAGS := Tables(map[], {})

  datatype TagError = InvalidTag | DuplicateReference

  // One tag on one post, written at the post's creation.
  datatype Use = Use(post: nat, at: int, name: Name)

  predicate Names(tags: map<nat, Tag>, id: nat, name: Name) { id in tags && tags[id].name.folded == name.folded }

  /** Ids run from one without gaps, and no two tags are equal under case folding. */
  ghost predicate Dense(tags: map<nat, Tag>) {
    && (forall id: nat :: id in tags <==> 1 <= id <= |tags|)
    && (forall a, b :: a in tags && b in tags && tags[a].name.folded == tags[b].name.folded ==> a == b)
  }

  predicate UsedBy(uses: seq<Use>, folded: nat, k: int) { 0 <= k < |uses| && uses[k].name.folded == folded }

  ghost predicate HasTag(t: Tables, use: Use) {
    exists id: nat :: Names(t.tags, id, use.name) && (use.post, id) in t.links
  }

  /** The tag's time is that of its earliest use. */
  ghost predicate Earliest(t: Tables, uses: seq<Use>, id: nat) {
    && id in t.tags
    && (exists k :: UsedBy(uses, t.tags[id].name.folded, k) && uses[k].at == t.tags[id].createdAt)
    && (forall k :: UsedBy(uses, t.tags[id].name.folded, k) ==> t.tags[id].createdAt <= uses[k].at)
  }

  ghost predicate LinkUsed(t: Tables, uses: seq<Use>, l: (nat, nat)) {
    l.1 in t.tags && exists k :: UsedBy(uses, t.tags[l.1].name.folded, k) && uses[k].post == l.0
  }

  /** The tables are exactly what the uses say: every use has its tag and link, every tag its earliest use. */
  ghost predicate Explains(t: Tables, uses: seq<Use>) {
    && Dense(t.tags)
    && (forall k {:trigger HasTag(t, uses[k])} :: 0 <= k < |uses| ==> HasTag(t, uses[k]))
    && (forall id: nat {:trigger Earliest(t, uses, id)} :: id in t.tags ==> Earliest(t, uses, id))
    && (forall l {:trigger LinkUsed(t, uses, l)} :: l in t.links ==> LinkUsed(t, uses, l))
    && |t.links| == |uses|
  }

  // What one use does, once the tag with its folded name is known.
  function Recorded(t: Tables, use: Use, id: nat): Tables {
    t.(tags := t.tags[id := if id !in t.tags then Tag(use.name, use.at)
                            else if use.at < t.tags[id].createdAt then t.tags[id].(createdAt := use.at)
                            else t.tags[id]],
       links := t.links + {(use.post, id)})
  }

  // The number of a use's tag: the one that has its name, or the next.
  ghost function NumberOf(t: Tables, use: Use): nat {
    if id: nat :| Names(t.tags, id, use.name) then id else |t.tags| + 1
  }

  /** The tables a list of uses leads to. */
  ghost function Tabulated(uses: seq<Use>): Tables {
    if uses == [] then NO_TAGS
    else
      var t, last := Tabulated(uses[..|uses| - 1]), uses[|uses| - 1];
      Recorded(t, last, NumberOf(t, last))
  }

  lemma TabulatedNext(uses: seq<Use>, use: Use)
    ensures Tabulated(uses + [use]) == Recorded(Tabulated(uses), use, NumberOf(Tabulated(uses), use))
  {
    assert (uses + [use])[..|uses|] == uses;
  }

  lemma NumberIsUnique(t: Tables, use: Use, id: nat)
    requires Dense(t.tags) && Numbered(t, use, id)
    ensures id == NumberOf(t, use)
  {
  }

  lemma DenseNext(tags: map<nat, Tag>, tag: Tag)
    requires Dense(tags) && forall id :: id in tags ==> tags[id].name.folded != tag.name.folded
    ensures |tags| + 1 !in tags && Dense(tags[|tags| + 1 := tag]) && |tags[|tags| + 1 := tag]| == |tags| + 1
  {
    var next := tags[|tags| + 1 := tag];
    assert next.Keys == tags.Keys + {|tags| + 1};
  }

  lemma RecordedDense(t: Tables, use: Use, id: nat)
    requires Dense(t.tags)
    requires
      || Names(t.tags, id, use.name)
      || (id == |t.tags| + 1 && forall i: nat :: i in t.tags ==> !Names(t.tags, i, use.name))
    ensures Dense(Recorded(t, use, id).tags)
  {
    if id in t.tags {
      assert Recorded(t, use, id).tags.Keys == t.tags.Keys;
    } else {
      DenseNext(t.tags, Tag(use.name, use.at));
    }
  }

  // The tag a use is recorded under: the one with its folded name, or the next number.
  predicate Numbered(t: Tables, use: Use, id: nat) {
    Names(t.tags, id, use.name) || (id == |t.tags| + 1 && forall i: nat :: i in t.tags ==> !Names(t.tags, i, use.name))
  }

  lemma NewNameIsUnused(t: Tables, uses: seq<Use>, use: Use)
    requires Explains(t, uses) && forall i: nat :: i in t.tags ==> !Names(t.tags, i, use.name)
    ensures forall k :: 0 <= k < |uses| ==> uses[k].name.folded != use.name.folded
  {
    forall k | 0 <= k < |uses|
      ensures uses[k].name.folded != use.name.folded
    {
      assert HasTag(t, uses[k]);
    }
  }

  lemma TagHasEarliestUse(t: Tables, uses: seq<Use>, use: Use, id: nat, i: nat)
    requires Explains(t, uses) && Numbered(t, use, id) && i in Recorded(t, use, id).tags
    ensures Earliest(Recorded(t, use, id), uses + [use], i)
  {
    var all, tag := uses + [use], Recorded(t, use, id).tags[i];
    assert all[|uses|] == use;
    if i in t.tags {
      assert Earliest(t, uses, i);
      var k :| UsedBy(uses, t.tags[i].name.folded, k) && uses[k].at == t.tags[i].createdAt;
      assert UsedBy(all, tag.name.folded, k) && all[k] == uses[k];
    } else {
      NewNameIsUnused(t, uses, use);
    }
    if i == id { assert UsedBy(all, tag.name.folded, |uses|); }
    forall k | UsedBy(all, tag.name.folded, k)
      ensures tag.createdAt <= all[k].at
    {
      if k < |uses| {
        assert all[k] == uses[k];
        if i in t.tags { assert UsedBy(uses, t.tags[i].name.folded, k); }
      } else if i in t.tags {
        assert Names(t.tags, i, use.name);
      }
    }
  }

  lemma UseKeepsTag(t: Tables, use: Use, id: nat, other: Use)
    requires HasTag(t, other) && (id in t.tags ==> Names(t.tags, id, use.name))
    ensures HasTag(Recorded(t, use, id), other)
  {
    var i: nat :| Names(t.tags, i, other.name) && (other.post, i) in t.links;
    assert Names(Recorded(t, use, id).tags, i, other.name);
  }

  lemma LinkIsUsed(t: Tables, uses: seq<Use>, use: Use, id: nat, l: (nat, nat))
    requires Explains(t, uses) && l in Recorded(t, use, id).links && Numbered(t, use, id)
    ensures LinkUsed(Recorded(t, use, id), uses + [use], l)
  {
    var r, all := Recorded(t, use, id), uses + [use];
    if l in t.links {
      assert LinkUsed(t, uses, l);
      var k :| UsedBy(uses, t.tags[l.1].name.folded, k) && uses[k].post == l.0;
      assert UsedBy(all, r.tags[l.1].name.folded, k) && all[k] == uses[k];
    } else {
      assert all[|uses|] == use && UsedBy(all, r.tags[id].name.folded, |uses|);
    }
  }

  /** Recording one more use keeps the tables explained by the uses. */
  lemma RecordedExplains(t: Tables, uses: seq<Use>, use: Use, id: nat)
    requires Explains(t, uses) && (use.post, id) !in t.links && Numbered(t, use, id)
    ensures Explains(Recorded(t, use, id), uses + [use])
  {
    var r, all := Recorded(t, use, id), uses + [use];
    RecordedDense(t, use, id);
    forall k | 0 <= k < |all|
      ensures HasTag(r, all[k])
    {
      if k < |uses| {
        assert all[k] == uses[k] && HasTag(t, uses[k]);
        UseKeepsTag(t, use, id, uses[k]);
      } else {
        assert Names(r.tags, id, use.name);
      }
    }
    forall i | i in r.tags
      ensures Earliest(r, all, i)
    {
      TagHasEarliestUse(t, uses, use, id, i);
    }
    forall l | l in r.links
      ensures LinkUsed(r, all, l)
    {
      LinkIsUsed(t, uses, use, id, l);
    }
  }

  // ---- The loops --------------------------------------------------------------------

  /** Scans the tag map in whatever order; there is at most one match, so the order does not show. */
  method FindTag(tags: map<nat, Tag>, name: Name) returns (id: nat)
    requires Dense(tags)
    ensures id != 0 ==> Names(tags, id, name)
    ensures id == 0 ==> forall i :: i in tags ==> !Names(tags, i, name)
  {
    var left := tags.Keys;
    while left != {}
      invariant left <= tags.Keys
      invariant forall i :: i in tags && i !in left ==> !Names(tags, i, name)
      decreases |left|
    {
      var existing :| existing in left;
      if tags[existing].name.folded == name.folded { return existing; }
      left := left - {existing};
    }
    return 0;
  }

  function UsesOf(post: nat, at: int, names: seq<Name>): seq<Use> {
    seq(|names|, k requires 0 <= k < |names| => Use(post, at, names[k]))
  }

  // The post already uses the name in some spelling.
  ghost predicate UsedBefore(uses: seq<Use>, post: nat, name: Name) {
    exists k :: UsedBy(uses, name.folded, k) && uses[k].post == post
  }

  lemma UsesOfNext(post: nat, at: int, names: seq<Name>, n: nat)
    requires n < |names|
    ensures UsesOf(post, at, names[..n + 1]) == UsesOf(post, at, names[..n]) + [Use(post, at, names[n])]
  {
  }

  /** The tags of one post: the outcome is a function of all uses so far, so no scan order shows in it. */
  method TransformPostTags(post: nat, at: int, names: seq<Name>, tables: Tables, ghost before: seq<Use>)
    returns (r: Result<Tables, TagError>)
    requires Explains(tables, before) && tables == Tabulated(before)
    ensures r.Ok? ==>
      && Explains(r.value, before + UsesOf(post, at, names))
      && r.value == Tabulated(before + UsesOf(post, at, names))
    ensures r == Err(InvalidTag) ==> exists k :: 0 <= k < |names| && !names[k].acceptable
    ensures r == Err(DuplicateReference) ==>
      exists n :: 0 <= n < |names| && UsedBefore(before + UsesOf(post, at, names[..n]), post, names[n])
  {
    var t := tables;
    ghost var uses := before;
    for n := 0 to |names|
      invariant uses == before + UsesOf(post, at, names[..n])
      invariant Explains(t, uses) && t == Tabulated(uses)
    {
      var name := names[n];
      if !name.acceptable { return Err(InvalidTag); }
      var id := FindTag(t.tags, name);
      if id == 0 { id := |t.tags| + 1; }
      if (post, id) in t.links {
        assert LinkUsed(t, uses, (post, id));
        return Err(DuplicateReference);
      }
      RecordedExplains(t, uses, Use(post, at, name), id);
      NumberIsUnique(t, Use(post, at, name), id);
      TabulatedNext(uses, Use(post, at, name));
      UsesOfNext(post, at, names, n);
      t, uses := Recorded(t, Use(post, at, name), id), uses + [Use(post, at, name)];
    }
    assert names[..|names|] == names;
    return Ok(t);
  }

  datatype SourcePost = SourcePost(post: nat, at: int, names: seq<Name>)

  function AllUses(posts: seq<SourcePost>): seq<Use> {
    if posts == [] then []
    else
      var last := posts[|posts| - 1];
      AllUses(posts[..|posts| - 1]) + UsesOf(last.post, last.at, last.names)
  }

  /** The tags of all posts, in the order the posts are transformed. */
  method TransformTags(posts: seq<SourcePost>) returns (r: Result<Tables, TagError>)
    ensures r.Ok? ==> Explains(r.value, AllUses(posts)) && r.value == Tabulated(AllUses(posts))
  {
    var t := NO_TAGS;
    for n := 0 to |posts|
      invariant Explains(t, AllUses(posts[..n])) && t == Tabulated(AllUses(posts[..n]))
    {
      var next := TransformPostTags(posts[n].post, posts[n].at, posts[n].names, t, AllUses(posts[..n]));
      if next.Err? { return Err(next.error); }
      assert posts[..n + 1][..n] == posts[..n];
      t := next.value;
    }
    assert posts[..|posts|] == posts;
    return Ok(t);
  }

  // ---- What the numbering promises -----------------------------------------------------

  /** A post links the tag exactly when it uses the name, in any spelling. */
  lemma LinkedExactlyIfUsed(t: Tables, uses: seq<Use>, post: nat, id: nat)
    requires Explains(t, uses) && id in t.tags
    ensures (post, id) in t.links <==> exists k :: UsedBy(uses, t.tags[id].name.folded, k) && uses[k].post == post
  {
    if (post, id) in t.links { assert LinkUsed(t, uses, (post, id)); }
    if k :| UsedBy(uses, t.tags[id].name.folded, k) && uses[k].post == post { assert HasTag(t, uses[k]); }
  }
}
