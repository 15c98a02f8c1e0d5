/** The image-access delivery row and the column changes each statement makes to it. */
module ImageAccessRow {
  import opened Common

  type ImageId = nat
  type Token = nat
  type JobId = nat
  type Time = int

  datatype State = PendingAcl | PendingSubmit | Submitting | Submitted | Succeeded | DeadLetter

  datatype Code =
    | AclRetryable | AclExhausted
    | SubmitRetryable | SubmitUnknown | SubmitPermanent | SubmitExhausted
    | DiscoverRetryable | DiscoverPermanent | DiscoverExhausted
    | PollRetryable | PollPermanent | PollExhausted
    | ProviderFailed | ProviderTimeout | ProviderCanceled | ProviderPendingTimeout

  // lease_token and lease_until are null together (a CHECK of the table), so they are one column here.
  datatype Lease = Lease(token: Token, until: Time)

  datatype Delivery = Delivery(
    intent: nat,
    desiredPublic: bool,
    purgeRequired: bool,
    generation: nat,
    state: State,
    aclAttempts: nat,
    submitAttempts: nat,
    pollAttempts: nat,
    unknownChecks: nat,
    job: Option<JobId>,
    startedAt: Option<Time>,
    next: Option<Time>,
    lease: Option<Lease>,
    lastError: Option<Code>,
    completedAt: Option<Time>,
    deadAt: Option<Time>)

  predicate Terminal(s: State) { s.Succeeded? || s.DeadLetter? }

  /** The states a delivery reaches only after its ACL has been set. */
  predicate PastAcl(s: State) { s.PendingSubmit? || s.Submitting? || s.Submitted? || s.Succeeded? }

  // A column of an UPDATE: left alone, or assigned.
  datatype Column<+T> = Keep | Assign(value: T)

  function Pick<T>(column: Column<T>, current: T): T {
    match column
    case Keep => current
    case Assign(v) => v
  }

  /** The column map handed to UpdateClaim. State, next attempt and error code are always assigned. */
  datatype Updates = Updates(
    state: State,
    next: Option<Time>,
    lastError: Option<Code>,
    releaseLease: bool,
    aclAttempts: Column<nat>,
    submitAttempts: Column<nat>,
    pollAttempts: Column<nat>,
    unknownChecks: Column<nat>,
    job: Column<Option<JobId>>,
    startedAt: Column<Option<Time>>,
    completedAt: Column<Option<Time>>,
    deadAt: Column<Option<Time>>)

  function Assigning(state: State, next: Option<Time>, lastError: Option<Code>, releaseLease: bool): Updates {
    Updates(state, next, lastError, releaseLease, Keep, Keep, Keep, Keep, Keep, Keep, Keep, Keep)
  }

  function Apply(row: Delivery, u: Updates): Delivery {
    row.(state := u.state, next := u.next, lastError := u.lastError,
         lease := if u.releaseLease then None else row.lease,
         aclAttempts := Pick(u.aclAttempts, row.aclAttempts),
         submitAttempts := Pick(u.submitAttempts, row.submitAttempts),
         pollAttempts := Pick(u.pollAttempts, row.pollAttempts),
         unknownChecks := Pick(u.unknownChecks, row.unknownChecks),
         job := Pick(u.job, row.job),
         startedAt := Pick(u.startedAt, row.startedAt),
         completedAt := Pick(u.completedAt, row.completedAt),
         deadAt := Pick(u.deadAt, row.deadAt))
  }

  /** The upsert of a first-seen verdict: a new row, or the next generation restarted from the ACL step. */
  function Enqueued(row: Option<Delivery>, intent: nat, desiredPublic: bool, purgeRequired: bool, now: Time): Delivery {
    match row
    case None =>
      Delivery(intent, desiredPublic, purgeRequired, 1, PendingAcl, 0, 0, 0, 0,
               None, None, Some(now), None, None, None, None)
    case Some(r) =>
      Delivery(intent, desiredPublic, purgeRequired, r.generation + 1, PendingAcl, 0, 0, 0, 0,
               None, None, Some(now), r.lease, None, None, None)
  }

  /** The WHERE clause of ClaimDue. */
  predicate Due(row: Delivery, now: Time) {
    && !Terminal(row.state)
    && row.next.Some? && row.next.value <= now
    && (row.lease.None? || row.lease.value.until <= now)
  }

  function Claimed(row: Delivery, token: Token, until: Time): Delivery {
    row.(lease := Some(Lease(token, until)))
  }

  predicate HoldsLease(row: Delivery, token: Token) {
    row.lease.Some? && row.lease.value.token == token
  }

  /** The fence of UpdateClaim: the image is fixed, generation and lease token must match. */
  predicate Matches(row: Delivery, generation: nat, token: Token) {
    row.generation == generation && HoldsLease(row, token)
  }

  function Released(row: Delivery, token: Token, now: Time): Delivery {
    if HoldsLease(row, token) then row.(lease := None, next := Some(now)) else row
  }

  /** The CHECK constraints of the table that relate columns to each other. */
  predicate TableChecks(row: Delivery) {
    && row.generation > 0
    && (row.state.Submitting? ==> row.startedAt.Some?)
    && (row.state.Submitted? ==> row.job.Some? && row.startedAt.Some?)
    && (row.state.Succeeded? ==> row.completedAt.Some?)
    && (row.state.DeadLetter? ==> row.deadAt.Some?)
    && (row.purgeRequired || row.state.PendingAcl? || Terminal(row.state))
    && (Terminal(row.state) <==> row.next.None?)
  }
}
