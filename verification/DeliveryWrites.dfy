/** The steps of image-access workers are writes of the moderation tables' own kind. */
module DeliveryWrites {
  import opened Common
  import opened ImageAccessRow
  import Decisions = ImageAccessDecisions
  import Protocol = ImageAccessProtocol
  import opened ModerationState
  import Operations = ModerationOperations
  import opened JointMachine

  // The row change of one worker step.
  lemma WorkerWrites(c: Protocol.Cell, t: Token, e: Protocol.WorkerEvent, clock: Time, o: Decisions.Options)
    returns (w: Option<Operations.DeliveryWrite>)
    ensures var after := Protocol.WorkerStep(c, t, e, clock, o).row;
      if w.None? || c.row.None? then after == c.row else after == Some(Operations.Rewritten(c.row.value, w.value))
  {
    w := None;
    if t in c.workers && c.row.Some? {
      if c.workers[t].pc.Writing? && e.Write? {
        var d := Decisions.Decide(c.workers[t].claim, c.workers[t].pc.obs, c.workers[t].pc.at, o);
        if Matches(c.row.value, c.workers[t].claim.generation, t) { w := Some(Operations.Columns(d.updates)); }
      } else {
        Protocol.WorkerStepShape(c, t, e, clock, o);
        if Protocol.WorkerStep(c, t, e, clock, o).row != c.row { w := Some(Operations.Release(t, clock)); }
      }
    }
  }

  function Leases(ids: seq<ImageId>, t: Token, until: Time): (es: seq<Operations.Event>)
    ensures |es| == |ids| && forall n :: 0 <= n < |ids| ==> es[n] == Operations.Work(ids[n], Operations.Lease(t, until))
  {
    seq(|ids|, n requires 0 <= n < |ids| => Operations.Work(ids[n], Operations.Lease(t, until)))
  }

  function Leased(rows: map<ImageId, Delivery>, ids: set<ImageId>, t: Token, until: Time): map<ImageId, Delivery> {
    map i | i in rows :: if i in ids then Claimed(rows[i], t, until) else rows[i]
  }

  function Members(ids: seq<ImageId>): set<ImageId> { set i | i in ids }

  lemma {:induction false} LeasesRun(db: Db, ids: seq<ImageId>, t: Token, until: Time)
    ensures Operations.Run(db, Leases(ids, t, until)) ==
      db.(deliveries := Leased(db.deliveries, Members(ids), t, until))
    decreases |ids|
  {
    if ids == [] {
      assert Leased(db.deliveries, {}, t, until) == db.deliveries;
    } else {
      var init, i := ids[..|ids| - 1], ids[|ids| - 1];
      assert ids == init + [i];
      LeasesRun(db, init, t, until);
      assert Leases(ids, t, until)[..|ids| - 1] == Leases(init, t, until);
      assert Members(ids) == Members(init) + {i};
      LeasedOneMore(db.deliveries, Members(init), i, t, until);
    }
  }

  lemma LeaseAll(db: Db, images: set<ImageId>, t: Token, until: Time) returns (ops: seq<Operations.Event>)
    ensures Operations.Run(db, ops) == db.(deliveries := Leased(db.deliveries, images, t, until))
  {
    ops := Leases(Ascending(images), t, until);
    LeasesRun(db, Ascending(images), t, until);
    assert Members(Ascending(images)) == images;
  }

  lemma LeasedOneMore(rows: map<ImageId, Delivery>, ids: set<ImageId>, i: ImageId, t: Token, until: Time)
    ensures var r := Leased(rows, ids, t, until);
      Leased(rows, ids + {i}, t, until) == if i in rows then r[i := Claimed(r[i], t, until)] else r
  {
  }

  /** Every row and every image has its site. */

  ghost predicate Housed(j: Joint) {
    j.db.deliveries.Keys <= j.db.images.Keys && j.db.images.Keys <= j.sites.Keys
  }

  lemma ViewShows(j: Joint)
    requires Housed(j)
    ensures RowsOf(ViewOf(j)) == j.db.deliveries && SitesOf(ViewOf(j)) == j.sites
  {
  }

  lemma AtRows(j: Joint, i: ImageId, t: Token, e: Protocol.WorkerEvent, o: Decisions.Options)
    returns (w: Option<Operations.DeliveryWrite>)
    requires Housed(j)
    ensures var rows := j.db.deliveries;
      RowsOf(Protocol.Step(ViewOf(j), Protocol.At(i, t, e), o)) ==
      if w.Some? && i in rows then rows[i := Operations.Rewritten(rows[i], w.value)] else rows
  {
    ViewShows(j);
    w := None;
    if i in j.sites {
      w := WorkerWrites(ViewOf(j).cells[i], t, e, j.clock, o);
      var cell := Protocol.WorkerStep(ViewOf(j).cells[i], t, e, j.clock, o);
      RowsOfOne(ViewOf(j), i, cell);
    }
  }

  // Replacing one cell replaces one row.
  lemma RowsOfOne(w: Protocol.World, i: ImageId, c: Protocol.Cell)
    requires i in w.cells
    ensures RowsOf(w.(cells := w.cells[i := c])) ==
            if c.row.Some? then RowsOf(w)[i := c.row.value] else RowsOf(w) - {i}
  {
  }

  lemma ClaimedRows(j: Joint, t: Token, images: set<ImageId>, at: Time, o: Decisions.Options)
    requires Housed(j) && Protocol.BatchClaimable(ViewOf(j), t, images, at)
    ensures RowsOf(Protocol.Step(ViewOf(j), Protocol.ClaimBatch(t, images, at), o)) ==
      Leased(j.db.deliveries, images, t, at + o.lease)
  {
    forall i | i in j.sites
      ensures Protocol.Step(ViewOf(j), Protocol.ClaimBatch(t, images, at), o).cells[i].row ==
              ClaimedRowOf(j, t, images, at, o, i)
    {
      ClaimedRow(j, t, images, at, o, i);
    }
  }

  function ClaimedRowOf(j: Joint, t: Token, images: set<ImageId>, at: Time, o: Decisions.Options, i: ImageId)
    : Option<Delivery>
  {
    if i !in j.db.deliveries then None
    else Some(if i in images then Claimed(j.db.deliveries[i], t, at + o.lease) else j.db.deliveries[i])
  }

  lemma ClaimedRow(j: Joint, t: Token, images: set<ImageId>, at: Time, o: Decisions.Options, i: ImageId)
    requires Housed(j) && Protocol.BatchClaimable(ViewOf(j), t, images, at) && i in j.sites
    ensures var w' := Protocol.Step(ViewOf(j), Protocol.ClaimBatch(t, images, at), o);
      i in w'.cells && w'.cells[i].row == ClaimedRowOf(j, t, images, at, o, i)
  {
    if i in images { assert Protocol.Claimable(ViewOf(j).cells[i], t, at); }
  }

  lemma OtherRows(j: Joint, p: Protocol.Event, o: Decisions.Options)
    requires Housed(j)
    requires p.Tick? || p.StrayAcl? || (p.ClaimBatch? && !Protocol.BatchClaimable(ViewOf(j), p.token, p.images, p.at))
    ensures RowsOf(Protocol.Step(ViewOf(j), p, o)) == j.db.deliveries
  {
    ViewShows(j);
  }

  lemma OneWrite(db: Db, i: ImageId, w: Operations.DeliveryWrite)
    ensures Operations.Run(db, [Operations.Work(i, w)]) == Operations.Worked(db, i, w)
  {
    assert [Operations.Work(i, w)][..0] == [];
    assert Operations.Run(db, []) == db;
  }

  lemma AtWrites(j: Joint, p: Protocol.Event, o: Decisions.Options) returns (ops: seq<Operations.Event>)
    requires Housed(j) && p.At?
    ensures Operations.Run(j.db, ops) == WithRowsOf(j.db, Protocol.Step(ViewOf(j), p, o))
  {
    var w := AtRows(j, p.image, p.token, p.event, o);
    if w.Some? {
      ops := [Operations.Work(p.image, w.value)];
      OneWrite(j.db, p.image, w.value);
    } else {
      ops := [];
    }
  }

  lemma ClaimWrites(j: Joint, p: Protocol.Event, o: Decisions.Options) returns (ops: seq<Operations.Event>)
    requires Housed(j) && p.ClaimBatch? && Protocol.BatchClaimable(ViewOf(j), p.token, p.images, p.at)
    ensures Operations.Run(j.db, ops) == WithRowsOf(j.db, Protocol.Step(ViewOf(j), p, o))
  {
    ops := LeaseAll(j.db, p.images, p.token, p.at + o.lease);
    ClaimedRows(j, p.token, p.images, p.at, o);
  }

  /** Whatever a protocol step does to the rows, writes of the operations' own kind do. */
  lemma DeliverWrites(j: Joint, p: Protocol.Event, o: Decisions.Options) returns (ops: seq<Operations.Event>)
    requires Housed(j) && !p.Enqueue?
    ensures Operations.Run(j.db, ops) == WithRowsOf(j.db, Protocol.Step(ViewOf(j), p, o))
  {
    if p.At? {
      ops := AtWrites(j, p, o);
    } else if p.ClaimBatch? && Protocol.BatchClaimable(ViewOf(j), p.token, p.images, p.at) {
      ops := ClaimWrites(j, p, o);
    } else {
      ops := [];
      OtherRows(j, p, o);
    }
  }

  lemma DeliverIsProtocolStep(j: Joint, p: Protocol.Event, o: Decisions.Options)
    requires Housed(j) && !p.Enqueue?
    ensures ViewOf(Step(j, Deliver(p), o)) == Protocol.Step(ViewOf(j), p, o)
  {
  }
}
