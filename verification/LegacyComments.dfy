/** Rewriting the legacy comment forest. */
module LegacyComments {
  import opened Common

  type SourceId = nat

  datatype Source = Source(
    id: SourceId,
    post: nat,
    author: nat,
    parent: Option<SourceId>,
    replyTo: Option<nat>,
    createdAt: int)

  // A migrated comment. root and parent are the new ids.
  datatype Comment = Comment(
    id: nat,
    post: nat,
    author: nat,
    parent: Option<nat>,
    root: Option<nat>,
    replyTo: nat,
    createdAt: int)

  datatype Failure =
    | InvalidUuid | InvalidSequentialId | DuplicateSourceId | DuplicateSequentialId
    | Cycle | ParentNotFound | MissingEndpoint | MissingReplyTarget | ReplyParentNotUnique | ParentNotEarlier

  // A Go map read: zero when the key is missing.
  function At(m: map<nat, nat>, key: nat): nat { if key in m then m[key] else 0 }

  // ---- Ids ------------------------------------------------------------------------

  datatype Registration = Registration(source: SourceId, uuid: bool, target: nat)

  /** Every listed source has its listed positive id, and no two sources share one. */
  ghost predicate Registered(rows: seq<Registration>, ids: map<nat, nat>) {
    && (forall k :: 0 <= k < |rows| ==>
        rows[k].uuid && rows[k].source in ids && ids[rows[k].source] == rows[k].target > 0)
    && (forall s :: s in ids ==> Listed(rows, s))
    && Injective(ids)
  }

  predicate Listed(rows: seq<Registration>, s: SourceId) { exists k :: 0 <= k < |rows| && rows[k].source == s }

  lemma RegisteredNext(rows: seq<Registration>, n: nat, ids: map<nat, nat>)
    requires n < |rows| && Registered(rows[..n], ids) && rows[n].uuid && rows[n].target > 0
    requires rows[n].source in ids ==> ids[rows[n].source] == rows[n].target
    requires forall s :: s in ids && ids[s] == rows[n].target ==> s == rows[n].source
    ensures Registered(rows[..n + 1], ids[rows[n].source := rows[n].target])
  {
    var all, next := rows[..n + 1], ids[rows[n].source := rows[n].target];
    assert all == rows[..n] + [rows[n]];
    forall s | s in next
      ensures Listed(all, s)
    {
      if s in ids {
        assert Listed(rows[..n], s);
        var k :| 0 <= k < n && rows[..n][k].source == s;
        assert all[k].source == s;
      } else {
        assert all[n].source == s;
      }
    }
    forall k | 0 <= k < |all|
      ensures all[k].uuid && all[k].source in next && next[all[k].source] == all[k].target > 0
    {
      if k < n { assert all[k] == rows[..n][k]; }
    }
  }

  predicate Injective(ids: map<nat, nat>) { forall a, b :: a in ids && b in ids && ids[a] == ids[b] ==> a == b }

  predicate Clashes(rows: seq<Registration>, j: nat, k: nat) {
    && j < k < |rows|
    && ((rows[j].source == rows[k].source && rows[j].target != rows[k].target)
        || (rows[j].target == rows[k].target && rows[j].source != rows[k].source))
  }

  /** Succeeds exactly when the rows define an injective map to positive ids. */
  method RegisterSequentialIDs(rows: seq<Registration>) returns (r: Result<map<nat, nat>, Failure>)
    ensures r.Ok? ==> Registered(rows, r.value)
    ensures r.Err? ==>
      || (exists k :: 0 <= k < |rows| && (!rows[k].uuid || rows[k].target == 0))
      || (exists j, k :: Clashes(rows, j, k))
  {
    var target: map<nat, nat>, reverse: map<nat, nat> := map[], map[];
    for n := 0 to |rows|
      invariant Registered(rows[..n], target)
      invariant forall t :: t in reverse ==> reverse[t] in target && target[reverse[t]] == t
      invariant forall s :: s in target ==> target[s] in reverse && reverse[target[s]] == s
    {
      var row := rows[n];
      if !row.uuid { return Err(InvalidUuid); }
      if row.target == 0 { return Err(InvalidSequentialId); }
      if row.source in target && target[row.source] != row.target {
        assert Listed(rows[..n], row.source);
        ghost var j :| 0 <= j < n && rows[..n][j].source == row.source;
        assert Clashes(rows, j, n);
        return Err(DuplicateSourceId);
      }
      if row.target in reverse && reverse[row.target] != row.source {
        ghost var s := reverse[row.target];
        assert Listed(rows[..n], s);
        ghost var j :| 0 <= j < n && rows[..n][j].source == s;
        assert Clashes(rows, j, n);
        return Err(DuplicateSequentialId);
      }
      RegisteredNext(rows, n, target);
      reverse, target := reverse[row.target := row.source], target[row.source := row.target];
    }
    assert rows[..|rows|] == rows;
    return Ok(target);
  }

  /** Either the rows are registered or they clash: the failure cases leave no room for a map. */
  lemma ClashesCannotRegister(rows: seq<Registration>, ids: map<nat, nat>, j: nat, k: nat)
    requires Clashes(rows, j, k)
    ensures !Registered(rows, ids)
  {
    if rows[j].source in ids && rows[k].source in ids {
      assert ids[rows[j].source] != rows[j].target || ids[rows[k].source] != rows[k].target
             || rows[j].target == rows[k].target;
    }
  }

  // ---- Roots ----------------------------------------------------------------------

  type Forest = map<SourceId, Source>

  // Ids are primary keys of the source table.
  predicate Keyed(byID: Forest) { forall id :: id in byID ==> byID[id].id == id }

  /** n steps up the parent links. */
  function Ancestor(byID: Forest, id: SourceId, n: nat): Option<SourceId> {
    if n == 0 then Some(id)
    else
      var below := Ancestor(byID, id, n - 1);
      if below.Some? && below.value in byID then byID[below.value].parent else None
  }

  ghost predicate HasRoot(byID: Forest, id: SourceId, root: SourceId) {
    root in byID && byID[root].parent.None? && exists n: nat :: Ancestor(byID, id, n) == Some(root)
  }

  ghost predicate Dangles(byID: Forest, id: SourceId) {
    exists n: nat :: Ancestor(byID, id, n).Some? && Ancestor(byID, id, n).value !in byID
  }

  ghost predicate Cycles(byID: Forest, id: SourceId) {
    exists m: nat, n: nat :: m < n && Ancestor(byID, id, m).Some? && Ancestor(byID, id, m) == Ancestor(byID, id, n)
  }

  lemma {:induction false} AncestorChain(byID: Forest, id: SourceId, m: nat, n: nat)
    requires Ancestor(byID, id, m).Some?
    ensures Ancestor(byID, id, m + n) == Ancestor(byID, Ancestor(byID, id, m).value, n)
    decreases n
  {
    if n > 0 { AncestorChain(byID, id, m, n - 1); }
  }

  // Above the end of a chain there is nothing.
  lemma {:induction false} NothingAbove(byID: Forest, id: SourceId, m: nat, n: nat)
    requires m < n
    requires
      || Ancestor(byID, id, m).None? || Ancestor(byID, id, m).value !in byID
      || byID[Ancestor(byID, id, m).value].parent.None?
    ensures Ancestor(byID, id, n).None?
    decreases n
  {
    if m < n - 1 { NothingAbove(byID, id, m, n - 1); }
  }

  /** A comment has at most one root, and one with a root neither dangles nor cycles. */
  lemma RootIsUnique(byID: Forest, id: SourceId, a: SourceId, b: SourceId)
    requires HasRoot(byID, id, a) && HasRoot(byID, id, b)
    ensures a == b
  {
    var m: nat :| Ancestor(byID, id, m) == Some(a);
    var n: nat :| Ancestor(byID, id, n) == Some(b);
    if m < n { NothingAbove(byID, id, m, n); }
    if n < m { NothingAbove(byID, id, n, m); }
  }

  lemma RootExcludesFailure(byID: Forest, id: SourceId, root: SourceId)
    requires HasRoot(byID, id, root)
    ensures !Dangles(byID, id) && !Cycles(byID, id)
  {
    var r: nat :| Ancestor(byID, id, r) == Some(root);
    if Dangles(byID, id) {
      var n: nat :| Ancestor(byID, id, n).Some? && Ancestor(byID, id, n).value !in byID;
      if n < r { NothingAbove(byID, id, n, r); }
      if r < n { NothingAbove(byID, id, r, n); }
    }
    if Cycles(byID, id) {
      var m: nat, n: nat :| m < n && Ancestor(byID, id, m).Some? && Ancestor(byID, id, m) == Ancestor(byID, id, n);
      if r < n { NothingAbove(byID, id, r, n); }
      AncestorChain(byID, id, m, r - n);
      AncestorChain(byID, id, n, r - n);
      assert Ancestor(byID, id, m + (r - n)) == Some(root);
      NothingAbove(byID, id, m + (r - n), r);
    }
  }

  /** The search ends on every forest: with the root, or naming a cycle or a missing parent. */
  method FindOriginalRoot(id: SourceId, byID: Forest) returns (r: Result<SourceId, Failure>)
    requires Keyed(byID)
    ensures match r
            case Ok(root) => HasRoot(byID, id, root)
            case Err(f) => (f == Cycle && Cycles(byID, id)) || (f == ParentNotFound && Dangles(byID, id))
  {
    var seen: set<SourceId> := {};
    var current := id;
    ghost var path: seq<SourceId> := [];
    while true
      invariant Ancestor(byID, id, |path|) == Some(current)
      invariant forall m :: 0 <= m < |path| ==> Ancestor(byID, id, m) == Some(path[m])
      invariant forall s :: s in seen <==> s in path
      invariant seen <= byID.Keys
      decreases byID.Keys - seen
    {
      if current in seen {
        ghost var m :| 0 <= m < |path| && path[m] == current;
        assert Ancestor(byID, id, m) == Ancestor(byID, id, |path|);
        return Err(Cycle);
      }
      if current !in byID { return Err(ParentNotFound); }
      seen := seen + {current};
      var row := byID[current];
      if row.parent.None? { return Ok(row.id); }
      path := path + [current];
      current := row.parent.value;
    }
  }

  lemma ParentSharesRoot(byID: Forest, id: SourceId, parent: SourceId, root: SourceId)
    requires id in byID && byID[id].parent == Some(parent) && HasRoot(byID, parent, root)
    ensures HasRoot(byID, id, root)
  {
    var n: nat :| Ancestor(byID, parent, n) == Some(root);
    assert Ancestor(byID, id, 1) == Some(parent);
    AncestorChain(byID, id, 1, n);
    assert Ancestor(byID, id, 1 + n) == Some(root);
  }

  lemma RootOfRoot(byID: Forest, id: SourceId)
    requires id in byID && byID[id].parent.None?
    ensures HasRoot(byID, id, id)
  {
    assert Ancestor(byID, id, 0) == Some(id);
  }
}
