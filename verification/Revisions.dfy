/** Revision numbers of a version table. */
module Revisions {

  function Largest(s: set<nat>): (m: nat)
    ensures s == {} ==> m == 0
    ensures s != {} ==> m in s
    ensures forall k :: k in s ==> k <= m
  {
    if s == {} then 0
    else
      assert exists m: nat :: m in s && forall k :: k in s ==> k <= m by { var m := LargestExists(s); }
      var m: nat :| m in s && forall k :: k in s ==> k <= m;
      m
  }

  lemma LargestExists(s: set<nat>) returns (m: nat)
    requires s != {}
    ensures m in s && forall k :: k in s ==> k <= m
  {
    m :| m in s;
    var rest := s - {m};
    while rest != {}
      invariant m in s && rest <= s && forall k :: k in s && k !in rest ==> k <= m
      decreases |rest|
    {
      var k :| k in rest;
      if k > m { m := k; }
      rest := rest - {k};
    }
  }

  // COALESCE(max(revision), 0) + 1
  function NextRevision<V>(versions: map<nat, V>): nat { Largest(versions.Keys) + 1 }

  /** Revisions run from one without gaps. */
  ghost predicate Contiguous<V>(versions: map<nat, V>) { forall r: nat :: r in versions <==> 1 <= r <= |versions| }

  /** The next revision is one past the number of versions. */
  lemma NextIsOneMore<V>(versions: map<nat, V>)
    requires Contiguous(versions)
    ensures NextRevision(versions) == |versions| + 1
  {
    if versions.Keys != {} {
      assert |versions| == |versions.Keys|;
      assert |versions| in versions;
    }
  }

  /** A version under the next revision leaves no gap and overwrites nothing. */
  lemma ContiguousAppend<V>(versions: map<nat, V>, v: V)
    requires Contiguous(versions)
    ensures Contiguous(versions[NextRevision(versions) := v])
    ensures |versions[NextRevision(versions) := v]| == |versions| + 1 && NextRevision(versions) !in versions
  {
    NextIsOneMore(versions);
    var next, r := versions[NextRevision(versions) := v], NextRevision(versions);
    assert next.Keys == versions.Keys + {r};
    assert |next| == |versions| + 1;
    forall q: nat
      ensures q in next <==> 1 <= q <= |next|
    {
      assert q in next <==> q in versions || q == r;
    }
  }
}
