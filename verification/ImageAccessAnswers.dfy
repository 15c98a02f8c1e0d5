/** What each answer leads to: the row after a fenced write is decided by what was learned and the row before. */
module ImageAccessAnswers {
  import opened Common
  import opened ImageAccessRow
  import opened ImageAccessDecisions
  import opened ImageAccessProtocol
  import opened ImageAccessInvariant
  import opened ImageAccessSubmissions

  // ---- Kinds of answers -----------------------------------------------------------

  /** The provider says that the purge is done. */
  predicate Done(obs: Observation) {
    match obs
    case RecoverDone(Recovery(found, effect, _, job, state)) => effect || (found && job.Some? && state == Success)
    case PollDone(Described(state)) => state == Success
    case _ => false
  }

  /** An answer no retry can help against. */
  predicate Fatal(obs: Observation) {
    || obs == SubmitDone(SubmitError(Permanent)) || obs == RecoverDone(RecoverError(Permanent))
    || obs == PollDone(PollError(Permanent)) || obs == PollDone(Described(Unlisted))
  }

  predicate Ended(state: TaskState) { state == Failed || state == TimedOut || state == Canceled }

  predicate Unfinished(state: TaskState) { state == Processing || state == ProtocolUnknown }

  /** The provider says that its task ended without success. */
  predicate TaskEnded(obs: Observation) {
    match obs
    case RecoverDone(Recovery(found, effect, _, _, state)) => !effect && found && Ended(state)
    case PollDone(Described(state)) => Ended(state)
    case _ => false
  }

  /** The provider names a task that may still succeed. */
  predicate NamesTask(obs: Observation) {
    match obs
    case SubmitDone(Accepted(job, _)) => job.Some?
    case RecoverDone(Recovery(found, effect, _, job, state)) =>
      !effect && found && job.Some? && state != Success && !Ended(state)
    case _ => false
  }

  /** A reconciliation that neither reports an effect nor finds a task to go on with. */
  predicate Silent(obs: Observation) {
    match obs
    case RecoverDone(Recovery(found, effect, _, job, state)) => !effect && !(found && (job.Some? || Ended(state)))
    case _ => false
  }

  predicate Retriable(kind: ErrorKind) { kind != Permanent }

  function Age(r: Delivery, at: Time): int { if r.startedAt.Some? then at - r.startedAt.value else 0 }

  /** The provider had rejected the submission in a way that allows another, and by now nothing is in doubt. */
  predicate OldRejection(r: Delivery, obs: Observation, at: Time, o: Options) {
    Silent(obs) && !obs.recover.ambiguous && Age(r, at) >= o.unknownGrace && r.lastError == Some(SubmitRetryable)
  }

  /** A task that is still unfinished after its time-out. */
  predicate Overdue(r: Delivery, obs: Observation, at: Time, o: Options) {
    obs.PollDone? && obs.poll.Described? && Unfinished(obs.poll.state) && Age(r, at) >= o.pendingTimeout
  }

  predicate CallsForAnother(r: Delivery, obs: Observation, at: Time, o: Options) {
    TaskEnded(obs) || OldRejection(r, obs, at, o) || Overdue(r, obs, at, o)
  }

  /** The outcome of the submission stays unknown, and it is too early to draw a conclusion. */
  predicate StillUnknown(r: Delivery, obs: Observation, at: Time, o: Options) {
    || (obs.RecoverDone? && obs.recover.RecoverError? && Retriable(obs.recover.kind))
    || (Silent(obs) && Age(r, at) < o.unknownGrace)
  }

  predicate PollFailed(obs: Observation) { obs.PollDone? && obs.poll.PollError? && Retriable(obs.poll.kind) }

  predicate InProgress(r: Delivery, obs: Observation, at: Time, o: Options) {
    obs.PollDone? && obs.poll.Described? && Unfinished(obs.poll.state) && Age(r, at) < o.pendingTimeout
  }

  /** The budget of the step that failed is used up, or there is nothing left to wait for. */
  predicate Spent(r: Delivery, obs: Observation, at: Time, o: Options) {
    || (obs == AclDone(false) && r.aclAttempts + 1 >= o.maxAcl)
    || (obs == SubmitDue && r.submitAttempts >= o.maxSubmissions)
    || (CallsForAnother(r, obs, at, o) && r.submitAttempts >= o.maxSubmissions)
    || (StillUnknown(r, obs, at, o) && r.unknownChecks + 1 >= o.maxUnknown)
    || (Silent(obs) && Age(r, at) >= o.unknownGrace && !OldRejection(r, obs, at, o))
    || (PollFailed(obs) && r.pollAttempts + 1 >= o.maxPolls)
  }

  // ---- The rows they lead to --------------------------------------------------------

  function Closed(r: Delivery): Delivery { r.(lease := None) }

  function JobIn(obs: Observation): Option<JobId> {
    match obs
    case SubmitDone(Accepted(job, _)) => job
    case RecoverDone(Recovery(_, _, _, job, _)) => job
    case _ => None
  }

  predicate PartlyRejected(obs: Observation) { obs.SubmitDone? && obs.submit.Accepted? && obs.submit.partial }

  // Doubled with every attempt up to a cap.
  function Wait(attempt: int, base: int, maximum: int): int
    decreases attempt
  {
    if attempt <= 1 then Min(base, maximum) else Min(2 * Wait(attempt - 1, base, maximum), maximum)
  }

  /** The error a dead-lettered row shows. */
  function CauseOfDeath(r: Delivery, obs: Observation): Code {
    match obs
    case AclDone(_) => AclExhausted
    case SubmitDue => SubmitExhausted
    case SubmitDone(_) => SubmitPermanent
    case RecoverDone(a) =>
      if a == RecoverError(Permanent) then DiscoverPermanent
      else if TaskEnded(obs) then SubmitExhausted
      else DiscoverExhausted
    case PollDone(a) =>
      if a == PollError(Permanent) || a == Described(Unlisted) then PollPermanent
      else if a.PollError? then PollExhausted
      else SubmitExhausted
    case Unusable(code) => code
  }

  /** The error a row shows while it waits for another submission. */
  function CauseOfReplay(obs: Observation): Code {
    var state := match obs
                 case RecoverDone(Recovery(found, _, _, _, state)) => if found then Some(state) else None
                 case PollDone(Described(state)) => Some(state)
                 case _ => None;
    if state == Some(Failed) then ProviderFailed
    else if state == Some(TimedOut) then ProviderTimeout
    else if state == Some(Canceled) then ProviderCanceled
    else if obs.PollDone? then ProviderPendingTimeout
    else SubmitRetryable
  }

  function CauseOfDoubt(obs: Observation): Code {
    if obs == SubmitDone(SubmitError(Retryable)) then SubmitRetryable
    else if obs.SubmitDone? then SubmitUnknown
    else if obs.RecoverDone? && obs.recover.Recovery? && !obs.recover.ambiguous then SubmitUnknown
    else DiscoverRetryable
  }

  /** The state a write leads to: exactly one of these holds. */
  ghost predicate Targets(r: Delivery, obs: Observation, at: Time, o: Options, state: State) {
    // The delivery is done exactly if the ACL was all there was to do, or the provider reports the purge as done.
    && (state == Succeeded <==> (obs == AclDone(true) && !r.purgeRequired) || Done(obs))
    // It is given up exactly if the answer is final or the budget spent.
    && (state == DeadLetter <==> Fatal(obs) || Spent(r, obs, at, o))
    // The ACL is tried again exactly after a failure within its budget.
    && (state == PendingAcl <==> obs == AclDone(false) && r.aclAttempts + 1 < o.maxAcl)
    // A submission is due once the ACL is set, or once the last one calls for another within the budget.
    && (state == PendingSubmit <==>
          || (obs == AclDone(true) && r.purgeRequired)
          || (CallsForAnother(r, obs, at, o) && r.submitAttempts < o.maxSubmissions))
    // It is open from just before the call until an answer that names a task.
    && (state == Submitting <==>
          || (obs == SubmitDue && r.submitAttempts < o.maxSubmissions)
          || (obs.SubmitDone? && !Fatal(obs) && !NamesTask(obs))
          || (StillUnknown(r, obs, at, o) && r.unknownChecks + 1 < o.maxUnknown))
    // A named task is polled until it ends or its time or budget is up.
    && (state == Submitted <==>
          NamesTask(obs) || InProgress(r, obs, at, o) || (PollFailed(obs) && r.pollAttempts + 1 < o.maxPolls))
  }

  /** Every column but the next attempt, for each target state. Only a claim that goes on keeps its lease. */
  function RowAt(r: Delivery, obs: Observation, at: Time, next: Option<Time>, state: State): Delivery {
    match state
    case Succeeded =>
      Closed(r).(state := Succeeded, next := None, lastError := None, completedAt := Some(at), deadAt := None)
    case DeadLetter =>
      Closed(r).(state := DeadLetter, next := None, lastError := Some(CauseOfDeath(r, obs)),
                 completedAt := None, deadAt := Some(at))
    case PendingAcl =>
      Closed(r).(state := PendingAcl, next := next, aclAttempts := r.aclAttempts + 1, lastError := Some(AclRetryable))
    case PendingSubmit =>
      if obs.AclDone? then r.(state := PendingSubmit, next := next, lastError := None)
      else Closed(r).(state := PendingSubmit, next := next, lastError := Some(CauseOfReplay(obs)), job := None,
                      startedAt := None, pollAttempts := 0, unknownChecks := 0)
    case Submitting =>
      if obs.SubmitDue? then
        r.(state := Submitting, next := next, submitAttempts := r.submitAttempts + 1, startedAt := Some(at),
           lastError := None)
      else if obs.SubmitDone? then
        Closed(r).(state := Submitting, next := next, lastError := Some(CauseOfDoubt(obs)))
      else
        Closed(r).(state := Submitting, next := next, unknownChecks := r.unknownChecks + 1,
                   lastError := Some(CauseOfDoubt(obs)))
    case Submitted =>
      if obs.PollDone? then
        Closed(r).(state := Submitted, next := next, pollAttempts := r.pollAttempts + 1,
                   lastError := if PollFailed(obs) then Some(PollRetryable) else None)
      else
        Closed(r).(state := Submitted, next := next, job := JobIn(obs),
                   lastError := if PartlyRejected(obs) then Some(ProviderFailed) else None)
  }

  /** How long the row then waits. */
  function WaitAt(r: Delivery, obs: Observation, state: State): int {
    match state
    case PendingAcl => Wait(r.aclAttempts + 1, 1, 300)
    case PendingSubmit => if obs.AclDone? then 0 else Wait(r.submitAttempts, 10, 300)
    case Submitting => if obs.RecoverDone? then Wait(r.unknownChecks + 1, 5, 15) else 5
    case Submitted => if obs.PollDone? then Wait(r.pollAttempts + 1, 2, 30) else 2
    case _ => 0
  }

  /** What the write that follows an observation makes of the row. */
  ghost predicate Leads(r: Delivery, obs: Observation, at: Time, o: Options, r': Delivery) {
    && Targets(r, obs, at, o, r'.state)
    && r' == RowAt(r, obs, at, r'.next, r'.state)
    && (!Terminal(r'.state) ==> r'.next == Some(at + WaitAt(r, obs, r'.state)))
  }

  lemma {:induction false} BackoffIsWait(attempt: int, base: int, maximum: int)
    requires 0 < base <= maximum
    ensures Backoff(attempt, base, maximum) == Wait(attempt, base, maximum)
    decreases attempt
  {
    if attempt > 1 {
      BackoffIsWait(attempt - 1, base, maximum);
      DoubledBase(attempt - 2, base);
      BackoffAtLeastBase(attempt - 1, base, maximum);
    }
  }

  function After(r: Delivery, obs: Observation, at: Time, o: Options): Delivery {
    Apply(r, Decide(r, obs, at, o).updates)
  }

  // The wait of the state a decision leads to.
  ghost predicate Waits(r: Delivery, obs: Observation, at: Time, o: Options) {
    var r' := After(r, obs, at, o);
    !Terminal(r'.state) ==> r'.next == Some(at + WaitAt(r, obs, r'.state))
  }

  lemma SubmissionWaits(r: Delivery, obs: Observation, at: Time, o: Options)
    requires Positive(o) && Fits(r, obs) && (obs.AclDone? || obs.SubmitDue? || obs.SubmitDone?)
    ensures Waits(r, obs, at, o)
  {
    BackoffIsWait(r.aclAttempts + 1, 1, 300);
  }

  lemma RecoveryWaits(r: Delivery, obs: Observation, at: Time, o: Options)
    requires Positive(o) && Fits(r, obs) && obs.RecoverDone?
    ensures Waits(r, obs, at, o)
  {
    BackoffIsWait(r.submitAttempts, 10, 300);
    BackoffIsWait(r.unknownChecks + 1, 5, 15);
  }

  lemma PollWaits(r: Delivery, obs: Observation, at: Time, o: Options)
    requires Positive(o) && Fits(r, obs) && obs.PollDone?
    ensures Waits(r, obs, at, o)
  {
    BackoffIsWait(r.submitAttempts, 10, 300);
    BackoffIsWait(r.pollAttempts + 1, 2, 30);
  }

  lemma DecisionTargets(r: Delivery, obs: Observation, at: Time, o: Options)
    requires Positive(o) && Fits(r, obs)
    ensures Targets(r, obs, at, o, After(r, obs, at, o).state)
  {
    if obs.RecoverDone? { RecoveryTargets(r, obs, at, o); }
    else if obs.PollDone? { PollTargets(r, obs, at, o); }
  }

  lemma RecoveryTargets(r: Delivery, obs: Observation, at: Time, o: Options)
    requires Positive(o) && Fits(r, obs) && obs.RecoverDone?
    ensures Targets(r, obs, at, o, After(r, obs, at, o).state)
  {
  }

  lemma PollTargets(r: Delivery, obs: Observation, at: Time, o: Options)
    requires Positive(o) && Fits(r, obs) && obs.PollDone?
    ensures Targets(r, obs, at, o, After(r, obs, at, o).state)
  {
  }

  lemma AclRow(r: Delivery, obs: Observation, at: Time, o: Options)
    requires Positive(o) && Fits(r, obs) && obs.AclDone?
    ensures var r' := After(r, obs, at, o); r' == RowAt(r, obs, at, r'.next, r'.state)
  {
  }

  lemma SubmissionRow(r: Delivery, obs: Observation, at: Time, o: Options)
    requires Positive(o) && Fits(r, obs) && (obs.SubmitDue? || obs.SubmitDone?)
    ensures var r' := After(r, obs, at, o); r' == RowAt(r, obs, at, r'.next, r'.state)
  {
  }

  lemma RecoveryRow(r: Delivery, obs: Observation, at: Time, o: Options)
    requires Positive(o) && Fits(r, obs) && obs.RecoverDone?
    ensures var r' := After(r, obs, at, o); r' == RowAt(r, obs, at, r'.next, r'.state)
  {
    if obs.recover.RecoverError? { ErrorRow(r, obs, at, o); }
    else if !Silent(obs) { SpokenRow(r, obs, at, o); }
    else if Age(r, at) < o.unknownGrace { EarlySilenceRow(r, obs, at, o); }
    else { LateSilenceRow(r, obs, at, o); }
  }

  lemma ErrorRow(r: Delivery, obs: Observation, at: Time, o: Options)
    requires Positive(o) && Fits(r, obs) && obs.RecoverDone? && obs.recover.RecoverError?
    ensures var r' := After(r, obs, at, o); r' == RowAt(r, obs, at, r'.next, r'.state)
  {
  }

  lemma SpokenRow(r: Delivery, obs: Observation, at: Time, o: Options)
    requires Positive(o) && Fits(r, obs) && obs.RecoverDone? && obs.recover.Recovery? && !Silent(obs)
    ensures var r' := After(r, obs, at, o); r' == RowAt(r, obs, at, r'.next, r'.state)
  {
  }

  lemma EarlySilenceRow(r: Delivery, obs: Observation, at: Time, o: Options)
    requires Positive(o) && Fits(r, obs) && Silent(obs) && Age(r, at) < o.unknownGrace
    ensures var r' := After(r, obs, at, o); r' == RowAt(r, obs, at, r'.next, r'.state)
  {
  }

  lemma LateSilenceRow(r: Delivery, obs: Observation, at: Time, o: Options)
    requires Positive(o) && Fits(r, obs) && Silent(obs) && Age(r, at) >= o.unknownGrace
    ensures var r' := After(r, obs, at, o); r' == RowAt(r, obs, at, r'.next, r'.state)
  {
  }

  lemma PollRow(r: Delivery, obs: Observation, at: Time, o: Options)
    requires Positive(o) && Fits(r, obs) && obs.PollDone?
    ensures var r' := After(r, obs, at, o); r' == RowAt(r, obs, at, r'.next, r'.state)
  {
    if obs.poll.PollError? { PollErrorRow(r, obs, at, o); } else { DescribedRow(r, obs, at, o); }
  }

  lemma PollErrorRow(r: Delivery, obs: Observation, at: Time, o: Options)
    requires Positive(o) && Fits(r, obs) && obs.PollDone? && obs.poll.PollError?
    ensures var r' := After(r, obs, at, o); r' == RowAt(r, obs, at, r'.next, r'.state)
  {
  }

  lemma DescribedRow(r: Delivery, obs: Observation, at: Time, o: Options)
    requires Positive(o) && Fits(r, obs) && obs.PollDone? && obs.poll.Described?
    ensures var r' := After(r, obs, at, o); r' == RowAt(r, obs, at, r'.next, r'.state)
  {
  }

  /** Every decision leads where its observation says. */
  lemma DecisionLeads(r: Delivery, obs: Observation, at: Time, o: Options)
    requires Positive(o) && Fits(r, obs)
    ensures Leads(r, obs, at, o, After(r, obs, at, o))
  {
    DecisionTargets(r, obs, at, o);
    if obs.RecoverDone? {
      RecoveryRow(r, obs, at, o);
      RecoveryWaits(r, obs, at, o);
    } else if obs.PollDone? {
      PollRow(r, obs, at, o);
      PollWaits(r, obs, at, o);
    } else {
      if obs.AclDone? { AclRow(r, obs, at, o); } else { SubmissionRow(r, obs, at, o); }
      SubmissionWaits(r, obs, at, o);
    }
  }

  // ---- Over runs ----------------------------------------------------------------------

  // A copy that passes the fence decides as the row would.
  lemma SyncedDecides(r: Delivery, w: Worker, o: Options)
    requires w.pc.Writing? && Fits(w.claim, w.pc.obs) && Synced(w, r)
    ensures Fits(r, w.pc.obs) && Decide(w.claim, w.pc.obs, w.pc.at, o) == Decide(r, w.pc.obs, w.pc.at, o)
  {
  }

  ghost predicate AboutToWrite(w: World, i: ImageId, t: Token) {
    && i in w.cells && w.cells[i].row.Some? && t in w.cells[i].workers && w.cells[i].workers[t].pc.Writing?
    && Matches(w.cells[i].row.value, w.cells[i].workers[t].claim.generation, t)
  }

  /**
   * In every reachable state, a write that passes the fence leaves the row its observation leads to, judged by the
   * row's own columns.
   */
  lemma WriteLeads(w0: World, events: seq<Event>, o: Options, i: ImageId, t: Token)
    requires Positive(o) && Initial(w0) && AboutToWrite(Run(w0, events, o), i, t)
    ensures var w := Run(w0, events, o);
      var c, pc := w.cells[i], w.cells[i].workers[t].pc;
      var c' := WorkerStep(c, t, Write, w.clock, o);
      c'.row.Some? && Leads(c.row.value, pc.obs, pc.at, o, c'.row.value)
  {
    InitialInv(w0, o);
    RunKeeps(w0, events, o);
    var w := Run(w0, events, o);
    var c, worker := w.cells[i], w.cells[i].workers[t];
    assert CellInv(c, w.clock, o) && WorkerInv(c, t, w.clock, o);
    SyncedDecides(c.row.value, worker, o);
    DecisionLeads(c.row.value, worker.pc.obs, worker.pc.at, o);
  }

  // The log entry of a provider's answer.
  predicate Tells(e: Entry, claim: Delivery, obs: Observation, at: Time) {
    claim.startedAt.Some? &&
    match obs
    case RecoverDone(a) => e == Recovered(claim.generation, claim.submitAttempts, claim.startedAt.value, a, at)
    case PollDone(a) => e == Polled(claim.generation, claim.submitAttempts, claim.startedAt.value, a, at)
    case _ => false
  }

  /** A success the provider reported is on record, and the write that follows it makes the delivery succeed. */
  lemma ReportedSuccessSucceeds(w0: World, events: seq<Event>, o: Options, i: ImageId, t: Token)
    requires Positive(o) && Initial(w0) && AboutToWrite(Run(w0, events, o), i, t)
    requires Done(Run(w0, events, o).cells[i].workers[t].pc.obs)
    ensures var w := Run(w0, events, o);
      var c, worker := w.cells[i], w.cells[i].workers[t];
      var c' := WorkerStep(c, t, Write, w.clock, o);
      && (exists e :: e in c.history && Tells(e, worker.claim, worker.pc.obs, worker.pc.at))
      && c'.row.Some? && c'.row.value.state.Succeeded?
      && c'.history == c.history + [Finished(c.row.value.generation, OutcomeSucceeded, c.row.value.purgeRequired)]
  {
    WriteLeads(w0, events, o, i, t);
    ReachableLog(w0, events, o, i);
    InitialInv(w0, o);
    RunKeeps(w0, events, o);
    var w := Run(w0, events, o);
    var c, worker := w.cells[i], w.cells[i].workers[t];
    assert CellInv(c, w.clock, o) && WorkerInv(c, t, w.clock, o) && WorkerLogged(t, worker, c.row.value, c.history);
    var g, n, at := worker.claim.generation, worker.claim.submitAttempts, worker.claim.startedAt.value;
    if worker.pc.obs.RecoverDone? {
      assert Tells(Recovered(g, n, at, worker.pc.obs.recover, worker.pc.at), worker.claim, worker.pc.obs, worker.pc.at);
    } else {
      assert Tells(Polled(g, n, at, worker.pc.obs.poll, worker.pc.at), worker.claim, worker.pc.obs, worker.pc.at);
    }
    DecisionOutcome(worker.claim, worker.pc.obs, worker.pc.at, o);
  }

  function CountedAs(state: State): Outcome {
    match state
    case Succeeded => OutcomeSucceeded
    case DeadLetter => OutcomeDead
    case _ => OutcomeRescheduled
  }

  /** What the batch counts is the state the row is left in. */
  lemma DecisionOutcome(c: Delivery, obs: Observation, at: Time, o: Options)
    requires Positive(o) && Fits(c, obs)
    ensures var d := Decide(c, obs, at, o);
      && (d.andThen.ThenSubmit? <==> obs == AclDone(true) && d.updates.state.PendingSubmit?)
      && (d.andThen.ThenCallProvider? <==> obs == SubmitDue && d.updates.state.Submitting?)
      && (d.andThen.Finish? ==> d.andThen.outcome == CountedAs(d.updates.state))
  {
  }
}
