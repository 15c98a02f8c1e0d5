/** What holds of one image in every reachable state, and the lease fence that follows from it. */
module ImageAccessInvariant {
  import opened Common
  import opened ImageAccessRow
  import opened ImageAccessDecisions
  import opened ImageAccessProtocol

  ghost predicate RowInv(r: Delivery, clock: Time, o: Options) {
    && TableChecks(r)
    && WellFormedIntent(r.desiredPublic, r.purgeRequired)
    && (r.lease.Some? ==> !Terminal(r.state))
    && (r.state.PendingAcl? ==> r.submitAttempts == 0 && r.aclAttempts < o.maxAcl)
    && r.submitAttempts <= o.maxSubmissions
    && (r.startedAt.Some? ==> r.startedAt.value <= clock)
  }

  /** A worker's copy agrees with its program counter, whatever has happened to the row since. */
  ghost predicate PcFits(w: Worker, clock: Time) {
    && (w.claim.startedAt.Some? ==> w.claim.startedAt.value <= clock)
    && match w.pc
       case Fresh => !Terminal(w.claim.state) && TableChecks(w.claim) && w.claim.next.value <= clock
       case CallAcl(_) => w.claim.state.PendingAcl?
       case CallSubmit => w.claim.state.Submitting? && w.claim.startedAt.Some?
       case AwaitSubmit => w.claim.state.Submitting? && w.claim.startedAt.Some?
       case CallRecover => w.claim.state.Submitting? && w.claim.startedAt.Some?
       case CallPoll =>
         && w.claim.state.Submitted? && w.claim.startedAt.Some? && w.claim.job.Some?
         && w.claim.next.Some? && w.claim.next.value <= clock
       case Writing(obs, at) =>
         && Fits(w.claim, obs) && at <= clock
         && (w.claim.startedAt.Some? ==> w.claim.startedAt.value <= at)
         && (obs.PollDone? ==> w.claim.next.Some? && w.claim.next.value <= at)
       case Releasing => true
  }

  predicate Submission(pc: Pc) {
    pc.CallSubmit? || pc.AwaitSubmit? || (pc.Writing? && pc.obs.SubmitDone?)
  }

  /** The copy of a worker that still passes the fence is the row, in every column it goes on to use. */
  ghost predicate Synced(w: Worker, r: Delivery) {
    && w.claim.state == r.state
    && w.claim.desiredPublic == r.desiredPublic && w.claim.purgeRequired == r.purgeRequired
    && w.claim.aclAttempts == r.aclAttempts && w.claim.submitAttempts == r.submitAttempts
    && w.claim.pollAttempts == r.pollAttempts && w.claim.unknownChecks == r.unknownChecks
    && w.claim.job == r.job && w.claim.startedAt == r.startedAt
    && (w.pc.Fresh? || w.pc.CallRecover? || (w.pc.Writing? && w.pc.obs.RecoverDone?) ==>
        w.claim.lastError == r.lastError)
    && (Submission(w.pc) ==> r.lastError.None?)
    && (w.pc.Fresh? || w.pc.CallPoll? || (w.pc.Writing? && w.pc.obs.PollDone?) ==> w.claim.next == r.next)
  }

  ghost predicate WorkerInv(c: Cell, t: Token, clock: Time, o: Options)
    requires t in c.workers
  {
    var w := c.workers[t];
    && t in c.used
    && c.row.Some?
    && w.claim.lease.Some? && w.claim.lease.value.token == t
    && w.claim.generation <= c.row.value.generation
    && WellFormedIntent(w.claim.desiredPublic, w.claim.purgeRequired)
    && PcFits(w, clock)
    && (clock < w.claim.lease.value.until ==> HoldsLease(c.row.value, t))
    && (HoldsLease(c.row.value, t) ==>
          && c.row.value.lease == w.claim.lease
          && (w.claim.generation < c.row.value.generation ==> c.row.value.state.PendingAcl?)
          && (w.claim.generation == c.row.value.generation ==> Synced(w, c.row.value) && !w.pc.Releasing?))
  }

  ghost predicate CellInv(c: Cell, clock: Time, o: Options) {
    && (c.row.Some? ==> RowInv(c.row.value, clock, o))
    && (c.row.Some? && c.row.value.lease.Some? ==> c.row.value.lease.value.token in c.used)
    && forall t :: t in c.workers ==> WorkerInv(c, t, clock, o)
  }

  // ---- Every event keeps the invariant -------------------------------------

  lemma EnqueueKeeps(c: Cell, clock: Time, o: Options, intent: nat, public: bool, purge: bool, at: Time)
    requires Positive(o) && CellInv(c, clock, o) && WellFormedIntent(public, purge)
    ensures CellInv(EnqueueStep(c, intent, public, purge, at), clock, o)
  {
    var c' := EnqueueStep(c, intent, public, purge, at);
    forall t | t in c'.workers ensures WorkerInv(c', t, clock, o) {
      assert WorkerInv(c, t, clock, o);
    }
  }

  lemma ClaimKeeps(c: Cell, clock: Time, o: Options, token: Token, at: Time)
    requires Positive(o) && CellInv(c, clock, o) && at <= clock && Claimable(c, token, at)
    ensures CellInv(ClaimStep(c, token, at, o), clock, o)
  {
    var c' := ClaimStep(c, token, at, o);
    forall t | t in c'.workers ensures WorkerInv(c', t, clock, o) {
      if t != token { assert WorkerInv(c, t, clock, o); }
    }
  }

  lemma TickKeeps(c: Cell, clock: Time, o: Options, later: Time)
    requires CellInv(c, clock, o) && clock <= later
    ensures CellInv(c, later, o)
  {
    forall t | t in c.workers ensures WorkerInv(c, t, later, o) {
      assert WorkerInv(c, t, clock, o);
    }
  }

  ghost predicate Writable(r: Delivery, w: Worker, clock: Time, o: Options) {
    Positive(o) && RowInv(r, clock, o) && PcFits(w, clock) && w.pc.Writing? && Synced(w, r)
  }

  lemma AclWriteKeepsRow(r: Delivery, w: Worker, clock: Time, o: Options)
    requires Writable(r, w, clock, o) && (w.pc.obs.AclDone? || w.pc.obs.SubmitDue? || w.pc.obs.SubmitDone?)
    ensures RowInv(Apply(r, Decide(w.claim, w.pc.obs, w.pc.at, o).updates), clock, o)
  {
  }

  lemma RetryKeepsRow(r: Delivery, c: Delivery, code: Code, now: Time, clock: Time, o: Options)
    requires Positive(o) && RowInv(r, clock, o) && r.purgeRequired
    ensures RowInv(Apply(r, RetrySubmission(c, code, now, o).updates), clock, o)
  {
  }

  lemma UnknownKeepsRow(r: Delivery, c: Delivery, code: Code, now: Time, clock: Time, o: Options)
    requires Positive(o) && RowInv(r, clock, o) && r.purgeRequired && r.startedAt.Some?
    ensures RowInv(Apply(r, UnknownAgain(c, code, now, o).updates), clock, o)
  {
  }

  lemma EndKeepsRow(r: Delivery, code: Code, now: Time, clock: Time, o: Options)
    requires Positive(o) && RowInv(r, clock, o)
    ensures RowInv(Apply(r, Dead(code, now).updates), clock, o) && RowInv(Apply(r, Succeed(now).updates), clock, o)
  {
  }

  lemma RecoverWriteKeepsRow(r: Delivery, w: Worker, clock: Time, o: Options)
    requires Writable(r, w, clock, o) && w.pc.obs.RecoverDone?
    ensures RowInv(Apply(r, Decide(w.claim, w.pc.obs, w.pc.at, o).updates), clock, o)
  {
    RecoverKeepsRow(r, w.claim, w.pc.obs.recover, w.pc.at, clock, o);
  }

  lemma RecoverKeepsRow(r: Delivery, c: Delivery, a: RecoverAnswer, now: Time, clock: Time, o: Options)
    requires Positive(o) && RowInv(r, clock, o) && r.purgeRequired && r.startedAt.Some? && c.startedAt.Some?
    ensures RowInv(Apply(r, AfterRecover(c, a, now, o).updates), clock, o)
  {
    EndKeepsRow(r, DiscoverPermanent, now, clock, o);
    EndKeepsRow(r, DiscoverExhausted, now, clock, o);
    UnknownKeepsRow(r, c, DiscoverRetryable, now, clock, o);
    UnknownKeepsRow(r, c, SubmitUnknown, now, clock, o);
    RetryKeepsRow(r, c, SubmitRetryable, now, clock, o);
    match a
    case RecoverError(_) =>
    case Recovery(_, _, _, _, state) => RetryKeepsRow(r, c, ProviderStateCode(state), now, clock, o);
  }

  lemma PollWriteKeepsRow(r: Delivery, w: Worker, clock: Time, o: Options)
    requires Writable(r, w, clock, o) && w.pc.obs.PollDone?
    ensures RowInv(Apply(r, Decide(w.claim, w.pc.obs, w.pc.at, o).updates), clock, o)
  {
    forall code | true ensures RowInv(Apply(r, RetrySubmission(w.claim, code, w.pc.at, o).updates), clock, o) {
      RetryKeepsRow(r, w.claim, code, w.pc.at, clock, o);
    }
  }

  /** A write that passes the fence keeps every constraint of the table. */
  lemma WriteKeepsRow(r: Delivery, w: Worker, clock: Time, o: Options)
    requires Writable(r, w, clock, o)
    ensures RowInv(Apply(r, Decide(w.claim, w.pc.obs, w.pc.at, o).updates), clock, o)
  {
    match w.pc.obs
    case RecoverDone(_) => RecoverWriteKeepsRow(r, w, clock, o);
    case PollDone(_) => PollWriteKeepsRow(r, w, clock, o);
    case _ => AclWriteKeepsRow(r, w, clock, o);
  }

  /** What a decision must satisfy for its write to keep the invariant. */
  ghost predicate DecisionFits(r: Delivery, w: Worker, d: Decision, clock: Time, o: Options) {
    var r' := Apply(r, d.updates);
    && RowInv(r', clock, o)
    && r'.generation == r.generation
    && (if d.andThen.Finish? then r'.lease.None?
        else var w' := GoOn(w.claim, d.updates, d.andThen, clock);
             && r'.lease == r.lease && PcFits(w', clock) && Synced(w', r') && !w'.pc.Releasing?
             && w'.claim.lease == w.claim.lease && w'.claim.generation == w.claim.generation
             && w'.claim.desiredPublic == w.claim.desiredPublic && w'.claim.purgeRequired == w.claim.purgeRequired)
  }

  lemma DecideFits(r: Delivery, w: Worker, clock: Time, o: Options)
    requires Writable(r, w, clock, o) && r.lease.Some?
    ensures DecisionFits(r, w, Decide(w.claim, w.pc.obs, w.pc.at, o), clock, o)
  {
    WriteKeepsRow(r, w, clock, o);
  }

  lemma WrittenKeeps(c: Cell, t: Token, d: Decision, clock: Time, o: Options)
    requires CellInv(c, clock, o) && t in c.workers && c.row.Some?
    requires Matches(c.row.value, c.workers[t].claim.generation, t) ==>
      DecisionFits(c.row.value, c.workers[t], d, clock, o)
    ensures CellInv(Written(c, t, d, clock), clock, o)
  {
    var c' := Written(c, t, d, clock);
    assert WorkerInv(c, t, clock, o);
    forall s | s in c'.workers ensures WorkerInv(c', s, clock, o) {
      assert WorkerInv(c, s, clock, o);
    }
  }

  lemma WriteKeeps(c: Cell, t: Token, clock: Time, o: Options)
    requires Positive(o) && CellInv(c, clock, o)
    requires t in c.workers && c.workers[t].pc.Writing? && c.row.Some?
    ensures CellInv(WriteStep(c, t, clock, o), clock, o)
  {
    var w, r := c.workers[t], c.row.value;
    assert WorkerInv(c, t, clock, o);
    if Matches(r, w.claim.generation, t) { DecideFits(r, w, clock, o); }
    WrittenKeeps(c, t, Decide(w.claim, w.pc.obs, w.pc.at, o), clock, o);
  }

  /** A step that moves only the worker's own program counter. */
  lemma PcMoveKeeps(c: Cell, c': Cell, t: Token, pc: Pc, clock: Time, o: Options)
    requires CellInv(c, clock, o) && t in c.workers
    requires c'.row == c.row && c'.used == c.used && c'.workers == c.workers[t := c.workers[t].(pc := pc)]
    requires PcFits(c.workers[t].(pc := pc), clock) && !pc.Releasing?
    requires Submission(pc) ==> Submission(c.workers[t].pc)
    requires !pc.Fresh? && ((pc.CallRecover? || pc.CallPoll?) ==> c.workers[t].pc.Fresh?)
    requires pc.Writing? && pc.obs.RecoverDone? ==> c.workers[t].pc.CallRecover?
    requires pc.Writing? && pc.obs.PollDone? ==> c.workers[t].pc.CallPoll?
    ensures CellInv(c', clock, o)
  {
    assert WorkerInv(c, t, clock, o);
    forall s | s in c'.workers ensures WorkerInv(c', s, clock, o) {
      assert WorkerInv(c, s, clock, o);
    }
  }

  /** A worker that ends without a fenced write, giving back the lease or dropping its copy. */
  lemma LeavingKeeps(c: Cell, c': Cell, t: Token, clock: Time, o: Options)
    requires CellInv(c, clock, o) && t in c.workers && c.row.Some?
    requires c'.used == c.used && c'.workers == c.workers - {t}
    requires c'.row == c.row || (c'.row == Some(Released(c.row.value, t, clock)) && c.workers[t].pc.Releasing?)
    ensures CellInv(c', clock, o)
  {
    assert WorkerInv(c, t, clock, o);
    forall s | s in c'.workers ensures WorkerInv(c', s, clock, o) {
      assert WorkerInv(c, s, clock, o);
    }
  }

  /** Starting a branch, and what the ACL and Submit calls report. */
  lemma CallStepKeeps(c: Cell, t: Token, e: WorkerEvent, clock: Time, o: Options)
    requires Positive(o) && CellInv(c, clock, o) && t in c.workers && c.row.Some?
    requires c.workers[t].pc.Fresh? || c.workers[t].pc.CallAcl? || c.workers[t].pc.CallSubmit?
    ensures CellInv(WorkerStep(c, t, e, clock, o), clock, o)
  {
    var c', w := WorkerStep(c, t, e, clock, o), c.workers[t];
    assert WorkerInv(c, t, clock, o);
    match (w.pc, e)
    case (Fresh, Begin) => PcMoveKeeps(c, c', t, Dispatch(w.claim, clock), clock, o);
    case (CallAcl(_), AclLands) => PcMoveKeeps(c, c', t, CallAcl(true), clock, o);
    case (CallAcl(landed), AclReturns(ok)) =>
      if landed || !ok { PcMoveKeeps(c, c', t, Writing(AclDone(ok), clock), clock, o); }
    case (CallSubmit, SubmitSent) => PcMoveKeeps(c, c', t, AwaitSubmit, clock, o);
    case (_, Crash) => LeavingKeeps(c, c', t, clock, o);
    case _ =>
  }

  /** The provider's other answers, and the end of a claim. */
  lemma AnswerStepKeeps(c: Cell, t: Token, e: WorkerEvent, clock: Time, o: Options)
    requires Positive(o) && CellInv(c, clock, o) && t in c.workers && c.row.Some?
    requires !c.workers[t].pc.Fresh? && !c.workers[t].pc.CallAcl? && !c.workers[t].pc.CallSubmit?
    requires !(c.workers[t].pc.Writing? && e.Write?)
    ensures CellInv(WorkerStep(c, t, e, clock, o), clock, o)
  {
    var c', w := WorkerStep(c, t, e, clock, o), c.workers[t];
    assert WorkerInv(c, t, clock, o);
    match (w.pc, e)
    case (AwaitSubmit, SubmitReturns(a)) => PcMoveKeeps(c, c', t, Writing(SubmitDone(a), clock), clock, o);
    case (CallRecover, RecoverReturns(a)) => PcMoveKeeps(c, c', t, Writing(RecoverDone(a), clock), clock, o);
    case (CallPoll, PollReturns(a)) => PcMoveKeeps(c, c', t, Writing(PollDone(a), clock), clock, o);
    case (Releasing, Release) => LeavingKeeps(c, c', t, clock, o);
    case (_, Crash) => LeavingKeeps(c, c', t, clock, o);
    case _ =>
  }

  lemma WorkerStepKeeps(c: Cell, t: Token, e: WorkerEvent, clock: Time, o: Options)
    requires Positive(o) && CellInv(c, clock, o)
    ensures CellInv(WorkerStep(c, t, e, clock, o), clock, o)
  {
    if t in c.workers && c.row.Some? {
      var pc := c.workers[t].pc;
      if pc.Fresh? || pc.CallAcl? || pc.CallSubmit? { CallStepKeeps(c, t, e, clock, o); }
      else if pc.Writing? && e.Write? { WriteKeeps(c, t, clock, o); }
      else { AnswerStepKeeps(c, t, e, clock, o); }
    }
  }

  // ---- Runs ----------------------------------------------------------------

  ghost predicate WorldInv(w: World, o: Options) {
    forall i :: i in w.cells ==> CellInv(w.cells[i], w.clock, o)
  }

  lemma StepKeeps(w: World, e: Event, o: Options)
    requires Positive(o) && WorldInv(w, o)
    ensures WorldInv(Step(w, e, o), o)
  {
    var w' := Step(w, e, o);
    forall i | i in w'.cells ensures CellInv(w'.cells[i], w'.clock, o) {
      var c := w.cells[i];
      match e
      case Tick(_) => TickKeeps(c, w.clock, o, w'.clock);
      case Enqueue(j, intent, public, purge, at) =>
        if i == j && WellFormedIntent(public, purge) { EnqueueKeeps(c, w.clock, o, intent, public, purge, at); }
      case ClaimBatch(t, images, at) =>
        if BatchClaimable(w, t, images, at) && i in images { ClaimKeeps(c, w.clock, o, t, at); }
      case At(j, t, event) => if i == j { WorkerStepKeeps(c, t, event, w.clock, o); }
      case StrayAcl(j, public) =>
        forall t | t in w'.cells[i].workers ensures WorkerInv(w'.cells[i], t, w.clock, o) {
          assert WorkerInv(c, t, w.clock, o);
        }
    }
  }

  lemma {:induction false} RunKeeps(w: World, events: seq<Event>, o: Options)
    requires Positive(o) && WorldInv(w, o)
    ensures WorldInv(Run(w, events, o), o)
    decreases |events|
  {
    if events != [] {
      StepKeeps(w, events[0], o);
      RunKeeps(Step(w, events[0], o), events[1..], o);
    }
  }

  lemma InitialInv(w: World, o: Options)
    requires Initial(w)
    ensures WorldInv(w, o)
  {
  }

  // ---- The lease fence -----------------------------------------------------

  /** Until its lease ends, a worker still in flight owns the row's lease. */
  lemma LiveLeaseIsHeld(w0: World, events: seq<Event>, o: Options, i: ImageId, t: Token)
    requires Positive(o) && Initial(w0)
    requires var w := Run(w0, events, o);
             && i in w.cells && t in w.cells[i].workers && w.cells[i].workers[t].claim.lease.Some?
             && w.clock < w.cells[i].workers[t].claim.lease.value.until
    ensures var w := Run(w0, events, o); w.cells[i].row.Some? && HoldsLease(w.cells[i].row.value, t)
  {
    InitialInv(w0, o);
    RunKeeps(w0, events, o);
    var w := Run(w0, events, o);
    assert CellInv(w.cells[i], w.clock, o);
    assert WorkerInv(w.cells[i], t, w.clock, o);
  }

  /**
   * A worker whose generation was superseded, or whose token is no longer on the row, never writes it.
   * If an older generation's token is still there, the row is back in pending_acl and all the worker
   * does is give that lease back.
   */
  lemma StaleWorkerOnlyReleases(w0: World, events: seq<Event>, o: Options, i: ImageId, t: Token, e: WorkerEvent)
    requires Positive(o) && Initial(w0)
    requires var w := Run(w0, events, o);
             && i in w.cells && t in w.cells[i].workers && w.cells[i].row.Some?
             && !Matches(w.cells[i].row.value, w.cells[i].workers[t].claim.generation, t)
    ensures var w := Run(w0, events, o);
            var r, r' := w.cells[i].row.value, WorkerStep(w.cells[i], t, e, w.clock, o).row;
            && w.cells[i].workers[t].claim.generation <= r.generation
            && (HoldsLease(r, t) ==> r.state.PendingAcl?)
            && (r' == Some(r) || (HoldsLease(r, t) && r' == Some(r.(lease := None, next := Some(w.clock)))))
  {
    InitialInv(w0, o);
    RunKeeps(w0, events, o);
    var w := Run(w0, events, o);
    assert CellInv(w.cells[i], w.clock, o);
    assert WorkerInv(w.cells[i], t, w.clock, o);
  }

  /** The updates a worker sends never violate a CHECK of the table, in any reachable state. */
  lemma ChecksNeverFire(w0: World, events: seq<Event>, o: Options, i: ImageId)
    requires Positive(o) && Initial(w0)
    requires var w := Run(w0, events, o); i in w.cells && w.cells[i].row.Some?
    ensures var r := Run(w0, events, o).cells[i].row.value;
            TableChecks(r) && (!r.desiredPublic ==> r.purgeRequired)
  {
    InitialInv(w0, o);
    RunKeeps(w0, events, o);
    assert CellInv(Run(w0, events, o).cells[i], Run(w0, events, o).clock, o);
  }
}
