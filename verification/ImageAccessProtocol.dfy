/**
 * Any number of workers, crashes, new verdicts and a growing clock over the delivery table.
 *
 * One cell is everything that concerns one image: its row, the workers holding a copy of a claim on
 * it, the ACL its object really has, and what has happened so far. Every transaction is one event.
 * An event that is not enabled changes nothing, so every sequence of events is a run.
 */
module ImageAccessProtocol {
  import opened Common
  import opened ImageAccessRow
  import opened ImageAccessDecisions

  /** Where a worker stands between two of its steps; the observation and clock reading are its locals. */
  datatype Pc =
    | Fresh
    | CallAcl(landed: bool)          // SetObjectPublicAccess is in flight; has it taken effect yet?
    | CallSubmit                     // the submission is recorded, the provider is not called yet
    | AwaitSubmit
    | CallRecover
    | CallPoll
    | Writing(obs: Observation, at: Time)
    | Releasing

  datatype Worker = Worker(claim: Delivery, pc: Pc)

  datatype Entry =
    | AclSet(generation: nat, public: bool)
    | Started(generation: nat, n: nat, at: Time, token: Token)
    | Called(generation: nat, n: nat)
    | Answered(generation: nat, n: nat, submit: SubmitAnswer)
    | Recovered(generation: nat, n: nat, startedAt: Time, recover: RecoverAnswer, seen: Time)
    | Polled(generation: nat, n: nat, startedAt: Time, poll: PollAnswer, seen: Time)
    | Reopened(generation: nat, n: nat)
    | Finished(generation: nat, outcome: Outcome, purged: bool)

  datatype Cell = Cell(
    row: Option<Delivery>,
    workers: map<Token, Worker>,
    used: set<Token>,
    acl: bool,
    history: seq<Entry>)

  function EmptyCell(acl: bool): Cell { Cell(None, map[], {}, acl, []) }

  // ---- One worker step -----------------------------------------------------

  datatype WorkerEvent =
    | Begin                          // dispatch on the claimed state
    | AclLands                       // the ACL call takes effect at the object store
    | AclReturns(ok: bool)
    | SubmitSent
    | SubmitReturns(submit: SubmitAnswer)
    | RecoverReturns(recover: RecoverAnswer)
    | PollReturns(poll: PollAnswer)
    | Write                          // the fenced UPDATE transaction
    | Release                        // ReleaseSuperseded after an UPDATE of no row
    | Crash                          // process lost, or the transaction failed: the copy is dropped

  function SetPc(c: Cell, t: Token, pc: Pc): Cell
    requires t in c.workers
  {
    c.(workers := c.workers[t := c.workers[t].(pc := pc)])
  }

  function Log(c: Cell, e: Entry): Cell { c.(history := c.history + [e]) }

  /** processClaim and the guards that run before the first provider call. */
  function Dispatch(claim: Delivery, clock: Time): Pc {
    match claim.state
    case PendingAcl => CallAcl(false)
    case PendingSubmit => Writing(SubmitDue, clock)
    case Submitting => if claim.startedAt.None? then Writing(Unusable(DiscoverPermanent), clock) else CallRecover
    case Submitted =>
      if claim.job.None? || claim.startedAt.None? then Writing(Unusable(PollPermanent), clock) else CallPoll
    case _ => Writing(Unusable(PollPermanent), clock)
  }

  /** The fields of its claim a worker updates after an intermediate write, and its next step. */
  function GoOn(claim: Delivery, u: Updates, andThen: Then, clock: Time): Worker {
    if andThen.ThenSubmit? then Worker(claim.(state := PendingSubmit), Writing(SubmitDue, clock))
    else Worker(claim.(state := Submitting, submitAttempts := claim.submitAttempts + 1,
                       startedAt := Pick(u.startedAt, claim.startedAt)), CallSubmit)
  }

  /** The log entry of a successful write. */
  function WriteEntry(row: Delivery, t: Token, d: Decision): Option<Entry> {
    match d.andThen
    case ThenSubmit => None
    case ThenCallProvider =>
      (match d.updates.startedAt
       case Assign(Some(at)) => Some(Started(row.generation, row.submitAttempts + 1, at, t))
       case _ => None)
    case Finish(outcome) => Some(Finished(row.generation, outcome, row.purgeRequired))
  }

  function LogSome(c: Cell, e: Option<Entry>): Cell {
    match e
    case None => c
    case Some(entry) => Log(c, entry)
  }

  predicate Reopens(row: Delivery, d: Decision) {
    d.andThen.Finish? && d.updates.state.PendingSubmit?
  }

  /** The fenced UPDATE of decision d, and what its worker does next. */
  function Written(c: Cell, t: Token, d: Decision, clock: Time): Cell
    requires t in c.workers && c.row.Some?
  {
    var w := c.workers[t];
    var row := c.row.value;
    if !Matches(row, w.claim.generation, t) then SetPc(c, t, Releasing)
    else
      var logged := if Reopens(row, d) then Log(c, Reopened(row.generation, row.submitAttempts)) else c;
      var written := LogSome(logged, WriteEntry(row, t, d)).(row := Some(Apply(row, d.updates)));
      if d.andThen.Finish? then written.(workers := written.workers - {t})
      else written.(workers := written.workers[t := GoOn(w.claim, d.updates, d.andThen, clock)])
  }

  function WriteStep(c: Cell, t: Token, clock: Time, o: Options): Cell
    requires t in c.workers && c.workers[t].pc.Writing? && c.row.Some?
  {
    var w := c.workers[t];
    Written(c, t, Decide(w.claim, w.pc.obs, w.pc.at, o), clock)
  }

  function WorkerStep(c: Cell, t: Token, e: WorkerEvent, clock: Time, o: Options): Cell {
    if t !in c.workers || c.row.None? then c
    else
      var w := c.workers[t];
      var g, n := w.claim.generation, w.claim.submitAttempts;
      match (w.pc, e)
      case (Fresh, Begin) => SetPc(c, t, Dispatch(w.claim, clock))
      case (CallAcl(_), AclLands) =>
        Log(SetPc(c, t, CallAcl(true)).(acl := w.claim.desiredPublic), AclSet(g, w.claim.desiredPublic))
      case (CallAcl(landed), AclReturns(ok)) =>
        if ok && !landed then c else SetPc(c, t, Writing(AclDone(ok), clock))
      case (CallSubmit, SubmitSent) => Log(SetPc(c, t, AwaitSubmit), Called(g, n))
      case (AwaitSubmit, SubmitReturns(a)) => Log(SetPc(c, t, Writing(SubmitDone(a), clock)), Answered(g, n, a))
      case (CallRecover, RecoverReturns(a)) =>
        if w.claim.startedAt.None? then c
        else Log(SetPc(c, t, Writing(RecoverDone(a), clock)), Recovered(g, n, w.claim.startedAt.value, a, clock))
      case (CallPoll, PollReturns(a)) =>
        if w.claim.startedAt.None? then c
        else Log(SetPc(c, t, Writing(PollDone(a), clock)), Polled(g, n, w.claim.startedAt.value, a, clock))
      case (Writing(_, _), Write) => WriteStep(c, t, clock, o)
      case (Releasing, Release) =>
        c.(row := Some(Released(c.row.value, t, clock)), workers := c.workers - {t})
      case (_, Crash) => c.(workers := c.workers - {t})
      case _ => c
  }

  /** Between its writes a worker only moves on, logs what it observed, or gives its lease back. */
  lemma WorkerStepShape(c: Cell, t: Token, e: WorkerEvent, clock: Time, o: Options)
    requires t in c.workers && c.row.Some? && !(c.workers[t].pc.Writing? && e.Write?)
    ensures var c' := WorkerStep(c, t, e, clock, o);
      && (c'.row == c.row || (c.workers[t].pc.Releasing? && c'.row == Some(Released(c.row.value, t, clock))))
      && (c'.history == c.history
          || exists x: Entry :: c'.history == c.history + [x] && !x.Finished? && !x.Reopened? && !x.Started?)
      && c'.used == c.used
      && forall s :: s in c.workers && s != t ==> s in c'.workers && c'.workers[s] == c.workers[s]
  {
    var c' := WorkerStep(c, t, e, clock, o);
    if c'.history != c.history {
      assert c'.history == c.history + [c'.history[|c.history|]];
    }
  }

  /** No step of one worker touches another. */
  lemma OtherWorkersStay(c: Cell, t: Token, e: WorkerEvent, clock: Time, o: Options, s: Token)
    requires s in c.workers && s != t && c.row.Some?
    ensures var c' := WorkerStep(c, t, e, clock, o);
      c'.row.Some? && c'.used == c.used && s in c'.workers && c'.workers[s] == c.workers[s]
  {
    if t in c.workers {
      if c.workers[t].pc.Writing? && e.Write? {
        WrittenKeepsOthers(c, t, Decide(c.workers[t].claim, c.workers[t].pc.obs, c.workers[t].pc.at, o), clock, s);
      } else {
        WorkerStepShape(c, t, e, clock, o);
      }
    }
  }

  lemma WrittenKeepsOthers(c: Cell, t: Token, d: Decision, clock: Time, s: Token)
    requires t in c.workers && s in c.workers && s != t && c.row.Some?
    ensures var c' := Written(c, t, d, clock);
      c'.row.Some? && c'.used == c.used && s in c'.workers && c'.workers[s] == c.workers[s]
  {
  }

  // ---- Steps of the rest of the system on one cell -------------------------

  function EnqueueStep(c: Cell, intent: nat, desiredPublic: bool, purgeRequired: bool, now: Time): Cell {
    c.(row := Some(Enqueued(c.row, intent, desiredPublic, purgeRequired, now)))
  }

  predicate Claimable(c: Cell, t: Token, now: Time) {
    c.row.Some? && Due(c.row.value, now) && t !in c.used
  }

  function ClaimStep(c: Cell, t: Token, now: Time, o: Options): Cell
    requires c.row.Some?
  {
    var row := Claimed(c.row.value, t, now + o.lease);
    c.(row := Some(row), workers := c.workers[t := Worker(row, Fresh)], used := c.used + {t})
  }

  // ---- The whole system ----------------------------------------------------

  datatype World = World(clock: Time, cells: map<ImageId, Cell>)

  datatype Event =
    | Tick(elapsed: nat)
    // A verdict's intent, dated by its own clock.
    | Enqueue(image: ImageId, intent: nat, desiredPublic: bool, purgeRequired: bool, at: Time)
    | ClaimBatch(token: Token, images: set<ImageId>, at: Time)
    | At(image: ImageId, token: Token, event: WorkerEvent)
    | StrayAcl(image: ImageId, public: bool)   // an ACL request taking effect after its caller gave up on it

  // A verdict may push purge_required down only for a public target (imageAccessPurgeRequired).
  predicate WellFormedIntent(desiredPublic: bool, purgeRequired: bool) { desiredPublic || purgeRequired }

  predicate BatchClaimable(w: World, token: Token, images: set<ImageId>, at: Time) {
    at <= w.clock && forall i :: i in images ==> i in w.cells && Claimable(w.cells[i], token, at)
  }

  function Step(w: World, e: Event, o: Options): World {
    match e
    case Tick(elapsed) => w.(clock := w.clock + elapsed)
    case Enqueue(i, intent, public, purge, at) =>
      if i in w.cells && WellFormedIntent(public, purge)
      then w.(cells := w.cells[i := EnqueueStep(w.cells[i], intent, public, purge, at)]) else w
    case ClaimBatch(t, images, at) =>
      if BatchClaimable(w, t, images, at)
      then w.(cells := map i | i in w.cells :: if i in images then ClaimStep(w.cells[i], t, at, o) else w.cells[i])
      else w
    case At(i, t, event) =>
      if i in w.cells then w.(cells := w.cells[i := WorkerStep(w.cells[i], t, event, w.clock, o)]) else w
    case StrayAcl(i, public) =>
      if i in w.cells then w.(cells := w.cells[i := w.cells[i].(acl := public)]) else w
  }

  function Run(w: World, events: seq<Event>, o: Options): World
    decreases |events|
  {
    if events == [] then w else Run(Step(w, events[0], o), events[1..], o)
  }

  /** Images stay, and what was logged about them stays logged. */
  predicate Extends(w: World, w': World) {
    forall i :: i in w.cells ==> i in w'.cells && w.cells[i].history <= w'.cells[i].history
  }

  lemma StepExtends(w: World, e: Event, o: Options)
    ensures Extends(w, Step(w, e, o))
  {
    if e.At? && e.image in w.cells {
      var c := w.cells[e.image];
      if e.token in c.workers && c.row.Some? && !(c.workers[e.token].pc.Writing? && e.event.Write?) {
        WorkerStepShape(c, e.token, e.event, w.clock, o);
      }
    }
  }

  /** Before any verdict: objects with some ACL, no rows, no workers. */
  ghost predicate Initial(w: World) {
    forall i :: i in w.cells ==> w.cells[i] == EmptyCell(w.cells[i].acl)
  }

  /** An ACL call takes effect while its caller still owns the row's lease. */
  predicate Timely(w: World, e: Event) {
    match e
    case At(i, t, AclLands) => i in w.cells && w.cells[i].row.Some? && HoldsLease(w.cells[i].row.value, t)
    case StrayAcl(_, _) => false
    case _ => true
  }

  predicate TimelyRun(w: World, events: seq<Event>, o: Options)
    decreases |events|
  {
    events == [] || (Timely(w, events[0]) && TimelyRun(Step(w, events[0], o), events[1..], o))
  }

  lemma {:induction false} RunAppend(w: World, xs: seq<Event>, ys: seq<Event>, o: Options)
    ensures Run(w, xs + ys, o) == Run(Run(w, xs, o), ys, o)
    decreases |xs|
  {
    if xs == [] {
      assert xs + ys == ys;
    } else {
      assert (xs + ys)[1..] == xs[1..] + ys;
      RunAppend(Step(w, xs[0], o), xs[1..], ys, o);
    }
  }

  lemma {:induction false} RunExtends(w: World, events: seq<Event>, o: Options)
    ensures Extends(w, Run(w, events, o))
    decreases |events|
  {
    if events != [] {
      StepExtends(w, events[0], o);
      RunExtends(Step(w, events[0], o), events[1..], o);
    }
  }
}
