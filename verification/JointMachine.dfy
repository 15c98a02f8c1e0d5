/** Moderation and delivery as one machine: both write the same delivery rows. */
module JointMachine {
  import opened Common
  import opened ImageAccessRow
  import Decisions = ImageAccessDecisions
  import Protocol = ImageAccessProtocol
  import opened ModerationState
  import Operations = ModerationOperations

  /** What concerns an image outside the database: the workers in flight, the object's ACL, what has happened. */
  datatype Site = Site(workers: map<Token, Protocol.Worker>, used: set<Token>, acl: bool, history: seq<Protocol.Entry>)

  datatype Joint = Joint(db: Db, clock: Time, sites: map<ImageId, Site>)

  /** The protocol's view: every site with the row the one deliveries table holds for it. */
  function View(rows: map<ImageId, Delivery>, clock: Time, sites: map<ImageId, Site>): Protocol.World {
    Protocol.World(clock, map i | i in sites ::
      Protocol.Cell(if i in rows then Some(rows[i]) else None,
                    sites[i].workers, sites[i].used, sites[i].acl, sites[i].history))
  }

  function ViewOf(j: Joint): Protocol.World { View(j.db.deliveries, j.clock, j.sites) }

  function RowsOf(w: Protocol.World): map<ImageId, Delivery> {
    map i | i in w.cells && w.cells[i].row.Some? :: w.cells[i].row.value
  }

  function WithRowsOf(db: Db, w: Protocol.World): Db { db.(deliveries := RowsOf(w)) }

  function SitesOf(w: Protocol.World): map<ImageId, Site> {
    map i | i in w.cells :: Site(w.cells[i].workers, w.cells[i].used, w.cells[i].acl, w.cells[i].history)
  }

  datatype Event = Moderate(operation: Operations.Event) | Deliver(step: Protocol.Event)

  // Rows are written by operations and by workers, each through its own steps; an upload is of an existing object.
  predicate Enabled(j: Joint, e: Event) {
    match e
    case Moderate(m) => !m.Work? && (m.Upload? ==> m.image in j.sites)
    case Deliver(p) => !p.Enqueue?
  }

  /** One transaction of moderation, or one step of a worker, the clock or a late ACL request. */
  function Step(j: Joint, e: Event, o: Decisions.Options): Joint {
    if !Enabled(j, e) then j
    else match e
      case Moderate(m) => j.(db := Operations.Step(j.db, m))
      case Deliver(p) =>
        var w := Protocol.Step(ViewOf(j), p, o);
        Joint(WithRowsOf(j.db, w), w.clock, SitesOf(w))
  }

  function Run(j: Joint, events: seq<Event>, o: Decisions.Options): Joint {
    if events == [] then j else Step(Run(j, events[..|events| - 1], o), events[|events| - 1], o)
  }

  /** Empty tables, and objects with some ACL that no worker knows. */
  predicate Begins(j: Joint) {
    j.db == EMPTY && forall i :: i in j.sites ==> j.sites[i] == Site(map[], {}, j.sites[i].acl, [])
  }

  predicate Timely(j: Joint, e: Event) { e.Deliver? && Enabled(j, e) ==> Protocol.Timely(ViewOf(j), e.step) }

  predicate TimelyRun(j: Joint, events: seq<Event>, o: Decisions.Options) {
    events == []
    || (TimelyRun(j, events[..|events| - 1], o) && Timely(Run(j, events[..|events| - 1], o), events[|events| - 1]))
  }
}
