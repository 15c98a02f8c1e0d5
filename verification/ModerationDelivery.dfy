/** A run of moderation and delivery together is a run of each, so the object's ACL follows the verdict. */
module ModerationDelivery {
  import opened ImageAccessRow
  import Decisions = ImageAccessDecisions
  import Protocol = ImageAccessProtocol
  import opened ModerationState
  import Operations = ModerationOperations
  import ImageAccessAcl
  import opened ModerationAccess
  import ModerationReplay
  import opened JointMachine
  import opened ModerationIntakes
  import opened DeliveryWrites

  function Enqueues(xs: seq<Intake>): seq<Protocol.Event> {
    if xs == [] then []
    else
      var x := xs[0];
      [Protocol.Enqueue(x.image, x.intent, x.desiredPublic, x.purgeRequired, x.at)] + Enqueues(xs[1..])
  }

  lemma TakenInView(
    rows: map<ImageId, Delivery>, clock: Time, sites: map<ImageId, Site>, x: Intake, o: Decisions.Options)
    requires x.image in sites && Protocol.WellFormedIntent(x.desiredPublic, x.purgeRequired)
    ensures var e := Protocol.Enqueue(x.image, x.intent, x.desiredPublic, x.purgeRequired, x.at);
      Protocol.Step(View(rows, clock, sites), e, o) == View(Taken(rows, x), clock, sites)
  {
  }

  lemma {:induction false} EnqueuesInView(
    rows: map<ImageId, Delivery>, clock: Time, sites: map<ImageId, Site>, xs: seq<Intake>, o: Decisions.Options)
    requires Fit(xs, sites.Keys)
    ensures Protocol.Run(View(rows, clock, sites), Enqueues(xs), o) == View(TakenAll(rows, xs), clock, sites)
    ensures Protocol.TimelyRun(View(rows, clock, sites), Enqueues(xs), o)
    decreases |xs|
  {
    if xs != [] {
      assert xs[0].image in sites;
      TakenInView(rows, clock, sites, xs[0], o);
      EnqueuesInView(Taken(rows, xs[0]), clock, sites, xs[1..], o);
      assert Enqueues(xs)[1..] == Enqueues(xs[1..]);
    }
  }

  lemma {:induction false} TimelyRunAppend(
    w: Protocol.World, xs: seq<Protocol.Event>, ys: seq<Protocol.Event>, o: Decisions.Options)
    ensures Protocol.TimelyRun(w, xs + ys, o) <==>
            Protocol.TimelyRun(w, xs, o) && Protocol.TimelyRun(Protocol.Run(w, xs, o), ys, o)
    decreases |xs|
  {
    if xs == [] {
      assert xs + ys == ys;
    } else {
      assert (xs + ys)[1..] == xs[1..] + ys;
      TimelyRunAppend(Protocol.Step(w, xs[0], o), xs[1..], ys, o);
    }
  }

  // A history of the protocol and one of the operations that together explain a joint state.
  ghost predicate Explains(
    start: Joint, j: Joint, steps: seq<Protocol.Event>, ops: seq<Operations.Event>, o: Decisions.Options)
  {
    && Protocol.Run(ViewOf(start), steps, o) == ViewOf(j)
    && Operations.Run(EMPTY, ops) == j.db
    && j.db.images.Keys <= j.sites.Keys
  }

  lemma ExplainedIsHoused(
    start: Joint, j: Joint, steps: seq<Protocol.Event>, ops: seq<Operations.Event>, o: Decisions.Options)
    requires Explains(start, j, steps, ops, o)
    ensures Housed(j) && Consistent(j.db)
  {
    RunConsistent(ops);
    forall i | i in j.db.deliveries
      ensures i in j.db.images
    {
      assert Follows(j.db, i);
    }
  }

  lemma ModerateExplained(
    start: Joint, j: Joint, m: Operations.Event, steps: seq<Protocol.Event>, ops: seq<Operations.Event>,
    o: Decisions.Options)
    returns (longer: seq<Protocol.Event>)
    requires Explains(start, j, steps, ops, o) && Enabled(j, Moderate(m))
    ensures Explains(start, Step(j, Moderate(m), o), longer, ops + [m], o)
    ensures Protocol.TimelyRun(ViewOf(start), steps, o) ==> Protocol.TimelyRun(ViewOf(start), longer, o)
  {
    ExplainedIsHoused(start, j, steps, ops, o);
    var xs := [];
    if !m.Upload? { xs := OperationTakes(j.db, m); }
    longer := steps + Enqueues(xs);
    EnqueuesInView(j.db.deliveries, j.clock, j.sites, xs, o);
    Protocol.RunAppend(ViewOf(start), steps, Enqueues(xs), o);
    TimelyRunAppend(ViewOf(start), steps, Enqueues(xs), o);
    assert (ops + [m])[..|ops|] == ops;
  }

  lemma DeliverExplained(
    start: Joint, j: Joint, p: Protocol.Event, steps: seq<Protocol.Event>, ops: seq<Operations.Event>,
    o: Decisions.Options)
    returns (known: seq<Operations.Event>)
    requires Explains(start, j, steps, ops, o) && Enabled(j, Deliver(p))
    ensures Explains(start, Step(j, Deliver(p), o), steps + [p], known, o)
    ensures Protocol.TimelyRun(ViewOf(start), steps, o) && Timely(j, Deliver(p)) ==>
      Protocol.TimelyRun(ViewOf(start), steps + [p], o)
  {
    ExplainedIsHoused(start, j, steps, ops, o);
    var more := DeliverWrites(j, p, o);
    known := ops + more;
    ModerationReplay.RunAppend(EMPTY, ops, more);
    DeliverIsProtocolStep(j, p, o);
    Protocol.RunAppend(ViewOf(start), steps, [p], o);
    TimelyRunAppend(ViewOf(start), steps, [p], o);
    OneStep(ViewOf(j), p, o);
  }

  lemma OneStep(w: Protocol.World, p: Protocol.Event, o: Decisions.Options)
    ensures Protocol.Run(w, [p], o) == Protocol.Step(w, p, o)
    ensures Protocol.TimelyRun(w, [p], o) <==> Protocol.Timely(w, p)
    ensures Protocol.Step(w, p, o).cells.Keys == w.cells.Keys
  {
    assert [p][1..] == [];
    assert Protocol.Run(Protocol.Step(w, p, o), [], o) == Protocol.Step(w, p, o);
    assert Protocol.TimelyRun(Protocol.Step(w, p, o), [], o);
  }

  /**
   * Every joint run projects to a run of the delivery protocol, timely if it was, and to a history of moderation
   * operations and worker writes, both ending in its state.
   */
  lemma {:induction false} JointRunProjects(start: Joint, events: seq<Event>, o: Decisions.Options)
    returns (steps: seq<Protocol.Event>, ops: seq<Operations.Event>)
    requires Begins(start)
    ensures Explains(start, Run(start, events, o), steps, ops, o)
    ensures TimelyRun(start, events, o) ==> Protocol.TimelyRun(ViewOf(start), steps, o)
  {
    if events == [] {
      steps, ops := [], [];
    } else {
      var before, e := events[..|events| - 1], events[|events| - 1];
      steps, ops := JointRunProjects(start, before, o);
      var j := Run(start, before, o);
      if Enabled(j, e) {
        match e
        case Moderate(m) =>
          steps := ModerateExplained(start, j, m, steps, ops, o);
          ops := ops + [m];
        case Deliver(p) =>
          ops := DeliverExplained(start, j, p, steps, ops, o);
          steps := steps + [p];
      }
    }
  }

  /**
   * In every joint run in which ACL calls take effect before their caller's lease ends: once the delivery of an image
   * is past its ACL step, the stored object is public exactly when the image's current verdict is a pass.
   */
  lemma ObjectFollowsVerdict(start: Joint, events: seq<Event>, o: Decisions.Options, i: ImageId)
    requires Decisions.Positive(o) && Begins(start) && TimelyRun(start, events, o)
    requires var j := Run(start, events, o); i in j.db.deliveries && PastAcl(j.db.deliveries[i].state)
    ensures var j := Run(start, events, o);
      i in j.db.images && i in j.sites && (j.sites[i].acl <==> j.db.images[i].moderation == Judged(Pass))
  {
    var steps, ops := JointRunProjects(start, events, o);
    var j := Run(start, events, o);
    ExplainedIsHoused(start, j, steps, ops, o);
    assert Protocol.Initial(ViewOf(start));
    ImageAccessAcl.PastAclMeansAclSet(ViewOf(start), steps, o, i);
    IntentFollowsVerdict(ops, i);
  }
}
