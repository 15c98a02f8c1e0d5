/** The statements of the image-access repository on its two tables. */
module ImageAccessOutbox {
  import opened Common
  import opened ImageAccessRow

  datatype Intent = Intent(id: nat, image: ImageId, desiredPublic: bool)

  datatype ClaimedRow = ClaimedRow(image: ImageId, row: Delivery)

  datatype ClaimError = LimitOutOfRange

  function Images(claims: seq<ClaimedRow>): (ids: seq<ImageId>)
    ensures |ids| == |claims| && forall k :: 0 <= k < |ids| ==> ids[k] == claims[k].image
  {
    seq(|claims|, k requires 0 <= k < |claims| => claims[k].image)
  }

  // ORDER BY next_attempt_at, image_asset_id
  predicate Before(rows: map<ImageId, Delivery>, i: ImageId, j: ImageId) {
    && i in rows && j in rows && rows[i].next.Some? && rows[j].next.Some?
    && (rows[i].next.value < rows[j].next.value || (rows[i].next.value == rows[j].next.value && i < j))
  }

  /** The rows a claim may take: due, and not locked by another transaction. */
  function Candidates(rows: map<ImageId, Delivery>, now: Time, locked: set<ImageId>): (c: set<ImageId>)
    ensures forall i :: i in c ==> i in rows && rows[i].next.Some?
  {
    set i | i in rows && Due(rows[i], now) && i !in locked
  }

  function Members(picks: seq<ImageId>): set<ImageId> { set i | i in picks }

  /** The first `limit` candidates in claim order. */
  ghost predicate FirstInOrder(
    rows: map<ImageId, Delivery>, candidates: set<ImageId>, picks: seq<ImageId>, limit: nat)
  {
    && Members(picks) <= candidates
    && |picks| == Min(limit, |candidates|)
    && (forall a, b :: 0 <= a < b < |picks| ==> Before(rows, picks[a], picks[b]))
    && (forall a, i :: 0 <= a < |picks| && i in candidates && i !in picks ==> Before(rows, picks[a], i))
  }

  lemma EarlierPick(
    rows: map<ImageId, Delivery>, candidates: set<ImageId>, p: seq<ImageId>, q: seq<ImageId>, limit: nat, k: nat)
    requires FirstInOrder(rows, candidates, p, limit) && FirstInOrder(rows, candidates, q, limit)
    requires k < |p| && p[..k] == q[..k] && p[k] != q[k]
    ensures Before(rows, p[k], q[k])
  {
    assert q[k] in Members(q);
    assert forall m :: 0 <= m < k ==> p[..k][m] == q[..k][m];
  }

  /** There is only one such list, so ClaimDue is deterministic. */
  lemma {:induction false} FirstInOrderUnique(
    rows: map<ImageId, Delivery>, candidates: set<ImageId>, p: seq<ImageId>, q: seq<ImageId>, limit: nat, k: nat)
    requires FirstInOrder(rows, candidates, p, limit) && FirstInOrder(rows, candidates, q, limit) && k <= |p|
    ensures p[..k] == q[..k]
  {
    if k > 0 {
      FirstInOrderUnique(rows, candidates, p, q, limit, k - 1);
      if p[k - 1] != q[k - 1] {
        EarlierPick(rows, candidates, p, q, limit, k - 1);
        EarlierPick(rows, candidates, q, p, limit, k - 1);
      }
      assert p[..k] == p[..k - 1] + [p[k - 1]] && q[..k] == q[..k - 1] + [q[k - 1]];
    }
  }

  function ClaimRows(
    rows: map<ImageId, Delivery>, picks: set<ImageId>, token: Token, until: Time): map<ImageId, Delivery>
  {
    map i | i in rows :: if i in picks then Claimed(rows[i], token, until) else rows[i]
  }

  /** The candidate that comes first in claim order. */
  method Earliest(rows: map<ImageId, Delivery>, todo: set<ImageId>) returns (first: ImageId)
    requires todo != {} && forall i :: i in todo ==> i in rows && rows[i].next.Some?
    ensures first in todo
    ensures forall i :: i in todo && i != first ==> Before(rows, first, i)
  {
    first :| first in todo;
    var rest := todo - {first};
    while rest != {}
      invariant rest <= todo && first in todo && first !in rest
      invariant forall i :: i in todo && i !in rest && i != first ==> Before(rows, first, i)
      decreases |rest|
    {
      var i :| i in rest;
      if Before(rows, i, first) { first := i; }
      rest := rest - {i};
    }
  }

  /** The ORDER BY and LIMIT of a claim. */
  method Select(rows: map<ImageId, Delivery>, candidates: set<ImageId>, limit: nat) returns (picks: seq<ImageId>)
    requires forall i :: i in candidates ==> i in rows && rows[i].next.Some?
    ensures FirstInOrder(rows, candidates, picks, limit)
  {
    var todo := candidates;
    picks := [];
    while |picks| < limit && todo != {}
      invariant todo <= candidates && forall i :: i in candidates <==> i in todo || i in picks
      invariant forall i :: i in picks ==> i !in todo
      invariant |picks| + |todo| == |candidates| && |picks| <= limit
      invariant forall a, b :: 0 <= a < b < |picks| ==> Before(rows, picks[a], picks[b])
      invariant forall a, i :: 0 <= a < |picks| && i in todo ==> Before(rows, picks[a], i)
      decreases |todo|
    {
      var i := Earliest(rows, todo);
      todo, picks := todo - {i}, picks + [i];
    }
  }

  class ImageAccessOutbox {
    var deliveries: map<ImageId, Delivery>
    var intents: map<nat, Intent>      // by source moderation record
    var nextIntent: nat

    constructor ()
      ensures deliveries == map[] && intents == map[] && nextIntent == 1
    {
      deliveries, intents, nextIntent := map[], map[], 1;
    }

    /** One intent per source record; only a first-seen source moves the delivery to a new generation. */
    method Enqueue(image: ImageId, source: nat, desiredPublic: bool, purgeRequired: bool, now: Time)
      returns (inserted: bool)
      modifies this
      ensures inserted <==> source !in old(intents)
      ensures !inserted ==> deliveries == old(deliveries) && intents == old(intents) && nextIntent == old(nextIntent)
      ensures inserted ==>
        && intents == old(intents)[source := Intent(old(nextIntent), image, desiredPublic)]
        && nextIntent == old(nextIntent) + 1
        && deliveries == old(deliveries)[image := Enqueued(
             if image in old(deliveries) then Some(old(deliveries)[image]) else None,
             old(nextIntent), desiredPublic, purgeRequired, now)]
    {
      if source in intents { return false; }
      intents := intents[source := Intent(nextIntent, image, desiredPublic)];
      if image !in deliveries {
        deliveries := deliveries[image := Delivery(nextIntent, desiredPublic, purgeRequired, 1, PendingAcl, 0, 0, 0, 0,
                                                   None, None, Some(now), None, None, None, None)];
      } else {
        var row := deliveries[image];
        row := row.(intent := nextIntent, desiredPublic := desiredPublic, purgeRequired := purgeRequired,
                    generation := row.generation + 1, state := PendingAcl);
        row := row.(aclAttempts := 0, submitAttempts := 0, pollAttempts := 0, unknownChecks := 0,
                    job := None, startedAt := None, next := Some(now), lastError := None,
                    completedAt := None, deadAt := None);
        deliveries := deliveries[image := row];
      }
      nextIntent := nextIntent + 1;
      return true;
    }

    /** Claims the first `limit` due rows that no other transaction has locked. */
    method ClaimDue(now: Time, until: Time, token: Token, limit: int, locked: set<ImageId>)
      returns (r: Result<seq<ClaimedRow>, ClaimError>)
      modifies this`deliveries
      ensures r.Err? <==> (limit <= 0 || limit > 1000)
      ensures r.Err? ==> deliveries == old(deliveries)
      ensures r.Ok? ==>
        var picks := Images(r.value);
        && FirstInOrder(old(deliveries), Candidates(old(deliveries), now, locked), picks, limit)
        && deliveries == ClaimRows(old(deliveries), Members(picks), token, until)
        && (forall k :: 0 <= k < |r.value| ==> picks[k] in deliveries && r.value[k].row == deliveries[picks[k]])
    {
      if limit <= 0 || limit > 1000 { return Err(LimitOutOfRange); }
      var picks := Select(deliveries, Candidates(deliveries, now, locked), limit);
      deliveries := ClaimRows(deliveries, Members(picks), token, until);
      forall k | 0 <= k < |picks| ensures picks[k] in deliveries {
        assert picks[k] in Members(picks);
      }
      var rows := deliveries;
      var claims := seq(|picks|, k requires 0 <= k < |picks| => ClaimedRow(picks[k], rows[picks[k]]));
      assert Images(claims) == picks;
      return Ok(claims);
    }

    /** Writes the columns only under the fence; reports whether a row was changed. */
    method UpdateClaim(image: ImageId, generation: nat, token: Token, u: Updates) returns (updated: bool)
      modifies this`deliveries
      ensures updated <==> image in old(deliveries) && Matches(old(deliveries)[image], generation, token)
      ensures deliveries ==
        if updated then old(deliveries)[image := Apply(old(deliveries)[image], u)] else old(deliveries)
    {
      updated := image in deliveries && Matches(deliveries[image], generation, token);
      if updated { deliveries := deliveries[image := Apply(deliveries[image], u)]; }
    }

    /** Gives back a lease that still carries this worker's token, and makes the row due at once. */
    method ReleaseSuperseded(image: ImageId, token: Token, now: Time)
      modifies this`deliveries
      ensures deliveries == if image in old(deliveries)
                            then old(deliveries)[image := Released(old(deliveries)[image], token, now)]
                            else old(deliveries)
    {
      if image in deliveries && HoldsLease(deliveries[image], token) {
        deliveries := deliveries[image := deliveries[image].(lease := None, next := Some(now))];
      }
    }
  }
}
