/** What one worker decides after each answer: the update it writes and how it goes on. */
module ImageAccessDecisions {
  import opened Common
  import opened ImageAccessRow

  // ---- Options -------------------------------------------------------------

  datatype Options = Options(
    batch: int,
    lease: int,
    aclTimeout: int,
    unknownGrace: int,
    pendingTimeout: int,
    maxAcl: int,
    maxSubmissions: int,
    maxPolls: int,
    maxUnknown: int)

  predicate Positive(o: Options) {
    && 0 < o.batch <= 4 && o.lease > 0 && o.aclTimeout > 0 && o.unknownGrace > 0 && o.pendingTimeout > 0
    && o.maxAcl > 0 && o.maxSubmissions > 0 && o.maxPolls > 0 && o.maxUnknown > 0
  }

  function OrDefault(value: int, default: int): int { if value <= 0 then default else value }

  // Rows, seconds and attempt budgets.
  const DEFAULTS := Options(4, 60, 15, 90, 600, 8, 3, 8, 12)

  // Usable options stay as configured, the others are replaced one by one.
  predicate Keeps(o: Options, r: Options) {
    && (0 < o.batch <= 4 ==> r.batch == o.batch) && (o.lease > 0 ==> r.lease == o.lease)
    && (o.aclTimeout > 0 ==> r.aclTimeout == o.aclTimeout) && (o.unknownGrace > 0 ==> r.unknownGrace == o.unknownGrace)
    && (o.pendingTimeout > 0 ==> r.pendingTimeout == o.pendingTimeout) && (o.maxAcl > 0 ==> r.maxAcl == o.maxAcl)
    && (o.maxSubmissions > 0 ==> r.maxSubmissions == o.maxSubmissions) && (o.maxPolls > 0 ==> r.maxPolls == o.maxPolls)
    && (o.maxUnknown > 0 ==> r.maxUnknown == o.maxUnknown)
  }

  function WithDefaults(o: Options): (r: Options)
    ensures Positive(r) && Keeps(o, r)
    ensures Positive(o) ==> r == o
  {
    Options(if o.batch > 4 then DEFAULTS.batch else OrDefault(o.batch, DEFAULTS.batch),
            OrDefault(o.lease, DEFAULTS.lease), OrDefault(o.aclTimeout, DEFAULTS.aclTimeout),
            OrDefault(o.unknownGrace, DEFAULTS.unknownGrace),
            OrDefault(o.pendingTimeout, DEFAULTS.pendingTimeout), OrDefault(o.maxAcl, DEFAULTS.maxAcl),
            OrDefault(o.maxSubmissions, DEFAULTS.maxSubmissions), OrDefault(o.maxPolls, DEFAULTS.maxPolls),
            OrDefault(o.maxUnknown, DEFAULTS.maxUnknown))
  }

  // ---- Backoff -------------------------------------------------------------

  function Pow2(n: nat): nat
    ensures Pow2(n) >= 1
  {
    if n == 0 then 1 else 2 * Pow2(n - 1)
  }

  /** Exponential backoff: base doubled once per earlier attempt, never above the maximum. */
  function Backoff(attempt: int, base: int, maximum: int): int {
    Min(base * Pow2(Max(attempt, 1) - 1), maximum)
  }

  lemma {:induction false} Pow2Grows(m: nat, n: nat)
    requires m <= n
    ensures Pow2(m) <= Pow2(n)
    decreases n
  {
    if m < n { Pow2Grows(m, n - 1); }
  }

  lemma ScaleGrows(base: int, p: int, q: int)
    requires base >= 0 && p <= q
    ensures base * p <= base * q
  {
  }

  /** Backoff starts at the base, never shrinks with the attempt number and is capped. */
  lemma {:induction false} BackoffRange(attempt: int, later: int, base: int, maximum: int)
    requires 0 < base <= maximum && attempt <= later
    ensures base <= Backoff(attempt, base, maximum) <= Backoff(later, base, maximum) <= maximum
  {
    var i, j := Max(attempt, 1) - 1, Max(later, 1) - 1;
    Pow2Grows(0, i);
    Pow2Grows(i, j);
    ScaleGrows(base, 1, Pow2(i));
    ScaleGrows(base, Pow2(i), Pow2(j));
  }

  lemma BackoffAtLeastBase(attempt: int, base: int, maximum: int)
    requires 0 < base <= maximum
    ensures base <= Backoff(attempt, base, maximum)
  {
    BackoffRange(attempt, attempt, base, maximum);
  }

  lemma {:induction false} DoubledBase(n: nat, base: int)
    ensures base * Pow2(n + 1) == 2 * (base * Pow2(n))
  {
    assert Pow2(n + 1) == 2 * Pow2(n);
  }

  // ---- Provider answers ----------------------------------------------------

  datatype ErrorKind = Unknown | Retryable | Permanent

  datatype TaskState = Processing | Success | Failed | TimedOut | Canceled | ProtocolUnknown | Unlisted

  // An empty JobId is None.
  datatype SubmitAnswer = SubmitError(kind: ErrorKind) | Accepted(job: Option<JobId>, partial: bool)

  datatype RecoverAnswer =
    | RecoverError(kind: ErrorKind)
    | Recovery(found: bool, effectSucceeded: bool, ambiguous: bool, job: Option<JobId>, state: TaskState)

  datatype PollAnswer = PollError(kind: ErrorKind) | Described(state: TaskState)

  predicate TerminalTask(s: TaskState) { s.Failed? || s.TimedOut? || s.Canceled? }

  function ProviderStateCode(s: TaskState): Code {
    match s
    case TimedOut => ProviderTimeout
    case Canceled => ProviderCanceled
    case _ => ProviderFailed
  }

  // ---- Decisions -----------------------------------------------------------

  datatype Outcome = OutcomeRescheduled | OutcomeSucceeded | OutcomeDead | OutcomeSuperseded

  // What follows a successful write: the claim is finished, or the same worker goes on.
  datatype Then = Finish(outcome: Outcome) | ThenSubmit | ThenCallProvider

  datatype Decision = Decision(updates: Updates, andThen: Then)

  function ScheduleUpdates(state: State, next: Time, code: Option<Code>): Updates {
    Assigning(state, Some(next), code, true)
  }

  function SucceedUpdates(now: Time): Updates {
    Assigning(Succeeded, None, None, true).(completedAt := Assign(Some(now)), deadAt := Assign(None))
  }

  function DeadUpdates(code: Code, now: Time): Updates {
    Assigning(DeadLetter, None, Some(code), true).(completedAt := Assign(None), deadAt := Assign(Some(now)))
  }

  function Dead(code: Code, now: Time): Decision { Decision(DeadUpdates(code, now), Finish(OutcomeDead)) }

  function Succeed(now: Time): Decision { Decision(SucceedUpdates(now), Finish(OutcomeSucceeded)) }

  function Reschedule(u: Updates): Decision { Decision(u, Finish(OutcomeRescheduled)) }

  function AfterAcl(c: Delivery, ok: bool, now: Time, o: Options): Decision {
    if !ok then
      if c.aclAttempts + 1 >= o.maxAcl then Dead(AclExhausted, now)
      else Reschedule(ScheduleUpdates(PendingAcl, now + Backoff(c.aclAttempts + 1, 1, 300), Some(AclRetryable))
                      .(aclAttempts := Assign(c.aclAttempts + 1)))
    else if !c.purgeRequired then Succeed(now)
    else Decision(Assigning(PendingSubmit, Some(now), None, false), ThenSubmit)
  }

  function BeginSubmission(c: Delivery, now: Time, o: Options): Decision {
    if c.submitAttempts >= o.maxSubmissions then Dead(SubmitExhausted, now)
    else Decision(Assigning(Submitting, Some(now + 5), None, false)
                  .(submitAttempts := Assign(c.submitAttempts + 1), startedAt := Assign(Some(now))),
                  ThenCallProvider)
  }

  function AfterSubmit(c: Delivery, a: SubmitAnswer, now: Time, o: Options): Decision {
    match a
    case SubmitError(Permanent) => Dead(SubmitPermanent, now)
    case SubmitError(Retryable) => Reschedule(ScheduleUpdates(Submitting, now + 5, Some(SubmitRetryable)))
    case SubmitError(Unknown) => Reschedule(ScheduleUpdates(Submitting, now + 5, Some(SubmitUnknown)))
    case Accepted(None, _) => Reschedule(ScheduleUpdates(Submitting, now + 5, Some(SubmitUnknown)))
    case Accepted(Some(job), partial) =>
      Reschedule(ScheduleUpdates(Submitted, now + 2, if partial then Some(ProviderFailed) else None)
                 .(job := Assign(Some(job))))
  }

  function UnknownAgain(c: Delivery, code: Code, now: Time, o: Options): Decision {
    if c.unknownChecks + 1 >= o.maxUnknown then Dead(DiscoverExhausted, now)
    else Reschedule(ScheduleUpdates(Submitting, now + Backoff(c.unknownChecks + 1, 5, 15), Some(code))
                    .(unknownChecks := Assign(c.unknownChecks + 1)))
  }

  function RetrySubmission(c: Delivery, code: Code, now: Time, o: Options): Decision {
    if c.submitAttempts >= o.maxSubmissions then Dead(SubmitExhausted, now)
    else Reschedule(ScheduleUpdates(PendingSubmit, now + Backoff(c.submitAttempts, 10, 300), Some(code))
                    .(job := Assign(None), startedAt := Assign(None),
                      pollAttempts := Assign(0), unknownChecks := Assign(0)))
  }

  function AfterRecover(c: Delivery, a: RecoverAnswer, now: Time, o: Options): Decision
    requires c.startedAt.Some?
  {
    match a
    case RecoverError(kind) =>
      if kind.Permanent? then Dead(DiscoverPermanent, now) else UnknownAgain(c, DiscoverRetryable, now, o)
    case Recovery(found, effect, ambiguous, job, state) =>
      var age := now - c.startedAt.value;
      if effect then Succeed(now)
      else if found && job.Some? then
        if state.Success? then Succeed(now)
        else if TerminalTask(state) then RetrySubmission(c, ProviderStateCode(state), now, o)
        else Reschedule(ScheduleUpdates(Submitted, now + 2, None).(job := Assign(job)))
      else if found && TerminalTask(state) then RetrySubmission(c, ProviderStateCode(state), now, o)
      else if ambiguous && age < o.unknownGrace then UnknownAgain(c, DiscoverRetryable, now, o)
      else if age >= o.unknownGrace then
        if c.lastError == Some(SubmitRetryable) && c.submitAttempts < o.maxSubmissions && !ambiguous
        then RetrySubmission(c, SubmitRetryable, now, o)
        else Dead(DiscoverExhausted, now)
      else UnknownAgain(c, SubmitUnknown, now, o)
  }

  function AfterPoll(c: Delivery, a: PollAnswer, now: Time, o: Options): Decision
    requires c.startedAt.Some?
  {
    match a
    case PollError(kind) =>
      if kind.Permanent? then Dead(PollPermanent, now)
      else if c.pollAttempts + 1 >= o.maxPolls then Dead(PollExhausted, now)
      else Reschedule(ScheduleUpdates(Submitted, now + Backoff(c.pollAttempts + 1, 2, 30), Some(PollRetryable))
                      .(pollAttempts := Assign(c.pollAttempts + 1)))
    case Described(state) =>
      if state.Success? then Succeed(now)
      else if TerminalTask(state) then RetrySubmission(c, ProviderStateCode(state), now, o)
      else if state.Processing? || state.ProtocolUnknown? then
        if now - c.startedAt.value >= o.pendingTimeout then RetrySubmission(c, ProviderPendingTimeout, now, o)
        else Reschedule(ScheduleUpdates(Submitted, now + Backoff(c.pollAttempts + 1, 2, 30), None)
                        .(pollAttempts := Assign(c.pollAttempts + 1)))
      else Dead(PollPermanent, now)
  }

  /** What the worker last learned, and so why it is about to write. */
  datatype Observation =
    | AclDone(ok: bool)
    | SubmitDue
    | SubmitDone(submit: SubmitAnswer)
    | RecoverDone(recover: RecoverAnswer)
    | PollDone(poll: PollAnswer)
    | Unusable(code: Code)   // a claim the worker cannot process is dead-lettered at once

  function Decide(c: Delivery, obs: Observation, now: Time, o: Options): Decision {
    match obs
    case AclDone(ok) => AfterAcl(c, ok, now, o)
    case SubmitDue => BeginSubmission(c, now, o)
    case SubmitDone(a) => AfterSubmit(c, a, now, o)
    case RecoverDone(a) => if c.startedAt.Some? then AfterRecover(c, a, now, o) else Dead(DiscoverPermanent, now)
    case PollDone(a) => if c.startedAt.Some? then AfterPoll(c, a, now, o) else Dead(PollPermanent, now)
    case Unusable(code) => Dead(code, now)
  }

  /** An observation belongs to one state of the claim it was made for. */
  predicate Fits(c: Delivery, obs: Observation) {
    match obs
    case AclDone(_) => c.state.PendingAcl?
    case SubmitDue => c.state.PendingSubmit?
    case SubmitDone(_) => c.state.Submitting? && c.startedAt.Some?
    case RecoverDone(_) => c.state.Submitting? && c.startedAt.Some?
    case PollDone(_) => c.state.Submitted? && c.startedAt.Some? && c.job.Some?
    case Unusable(_) => false   // needs a row that the table's CHECK constraints exclude
  }

  // ---- What each target state of a write presupposes -----------------------

  /** The answer itself reports the purge as done. */
  predicate ReportsSuccess(obs: Observation) {
    match obs
    case RecoverDone(Recovery(found, effect, _, job, state)) => effect || (found && job.Some? && state.Success?)
    case PollDone(Described(state)) => state.Success?
    case _ => false
  }

  /** The answer allows the current submission to be replayed. */
  predicate AllowsReplay(c: Delivery, obs: Observation, at: Time, o: Options)
    requires c.startedAt.Some?
  {
    var age := at - c.startedAt.value;
    match obs
    case RecoverDone(Recovery(found, _, ambiguous, _, state)) =>
      (found && TerminalTask(state))
      || (!ambiguous && age >= o.unknownGrace && c.lastError == Some(SubmitRetryable))
    case PollDone(Described(state)) =>
      TerminalTask(state) || ((state.Processing? || state.ProtocolUnknown?) && age >= o.pendingTimeout)
    case _ => false
  }

  predicate Shape(c: Delivery, obs: Observation, at: Time, d: Decision, o: Options) {
    var u := d.updates;
    && (d.andThen.Finish? <==> u.releaseLease)
    && (d.andThen.Finish? ==> u.submitAttempts.Keep? && (d.andThen.outcome.OutcomeSucceeded? <==> u.state.Succeeded?))
    && (u.startedAt.Keep? || u.state.PendingSubmit? || !d.andThen.Finish?)
    && match u.state
       case PendingAcl => obs == AclDone(false) && d.andThen.Finish?
       case PendingSubmit =>
         if d.andThen.Finish? then c.startedAt.Some? && AllowsReplay(c, obs, at, o)
         else obs == AclDone(true) && c.purgeRequired && d.andThen.ThenSubmit? && u.submitAttempts.Keep?
       case Submitting =>
         if d.andThen.Finish?
         then (obs.SubmitDone? || obs.RecoverDone?)
              && (u.lastError == Some(SubmitRetryable) ==> obs == SubmitDone(SubmitError(Retryable)))
         else obs.SubmitDue? && d.andThen.ThenCallProvider? && c.submitAttempts < o.maxSubmissions
              && u.submitAttempts == Assign(c.submitAttempts + 1) && u.startedAt == Assign(Some(at))
                 && u.lastError.None?
       case Submitted => d.andThen.Finish? && (obs.SubmitDone? || obs.RecoverDone? || obs.PollDone?)
       case Succeeded => d.andThen.Finish? && (if c.purgeRequired && obs.AclDone? then false
                                               else obs == AclDone(true) || ReportsSuccess(obs))
       case DeadLetter => d.andThen.Finish?
  }

  /** Every decision of the worker is of this shape. */
  lemma DecideShape(c: Delivery, obs: Observation, at: Time, o: Options)
    requires Fits(c, obs)
    ensures Shape(c, obs, at, Decide(c, obs, at, o), o)
  {
  }
}
