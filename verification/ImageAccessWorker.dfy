/**
 * The worker as written: it claims a batch, calls out between short transactions and counts outcomes.
 * Everything else in the system may act between any two of its steps, and whatever it does is a run
 * of the protocol.
 */
module ImageAccessWorker {
  import opened Common
  import opened ImageAccessRow
  import opened ImageAccessDecisions
  import opened ImageAccessProtocol
  import opened ImageAccessOutbox

  /** The doubling loop of the retry backoff. */
  method RetryBackoff(attempt: int, base: int, maximum: int) returns (delay: int)
    requires 0 < base <= maximum
    ensures delay == Backoff(attempt, base, maximum)
    ensures base <= delay <= maximum
  {
    var n := if attempt < 1 then 1 else attempt;
    delay := base;
    var index := 1;
    BackoffAtLeastBase(attempt, base, maximum);
    while index < n && delay < maximum
      invariant 1 <= index <= n
      invariant delay == base * Pow2(index - 1) && base <= delay
      invariant index == 1 || delay < maximum
    {
      DoubledBase(index - 1, base);
      delay := delay * 2;
      if delay >= maximum {
        Pow2Grows(index, n - 1);
        ScaleGrows(base, Pow2(index), Pow2(n - 1));
        return maximum;
      }
      index := index + 1;
    }
    if delay > maximum { delay := maximum; }
  }

  /** Events of one claim of one worker; the members of a batch are processed one after another. */
  predicate Own(e: Event, token: Token) { e.At? && e.token == token }

  /** A worker in flight keeps its copy and its place whatever anyone else does. */
  lemma OthersKeepWorker(w: World, e: Event, o: Options, i: ImageId, t: Token)
    requires i in w.cells && w.cells[i].row.Some? && t in w.cells[i].workers && t in w.cells[i].used
    requires !Own(e, t) || (e.At? && e.image != i)
    ensures var w' := Step(w, e, o);
            && i in w'.cells && w'.cells[i].row.Some? && t in w'.cells[i].workers && t in w'.cells[i].used
            && w'.cells[i].workers[t] == w.cells[i].workers[t]
  {
    match e
    case At(j, s, event) => if j == i { OtherWorkersStay(w.cells[i], s, event, w.clock, o, t); }
    case _ =>
  }

  /** Database, object store, provider, clock and every other worker. */
  class Platform {
    var world: World
    const o: Options
    ghost const start: World
    ghost var trace: seq<Event>
    ghost var faults: nat              // failed transactions of the worker under study

    ghost predicate Valid()
      reads this
    {
      Positive(o) && Initial(start) && world == Run(start, trace, o)
    }

    ghost predicate Flying(i: ImageId, t: Token, w: Worker)
      reads this
    {
      && i in world.cells && world.cells[i].row.Some? && t in world.cells[i].workers && t in world.cells[i].used
      && world.cells[i].workers[t] == w
    }

    constructor (o: Options, start: World)
      requires Positive(o) && Initial(start)
      ensures Valid() && world == start && trace == [] && this.o == o && this.start == start
    {
      this.o, this.start, this.world, this.trace, this.faults := o, start, start, [], 0;
    }

    method Perform(e: Event)
      requires Valid()
      modifies this
      ensures Valid() && world == Step(old(world), e, o) && trace == old(trace) + [e] && faults == old(faults)
    {
      RunAppend(start, trace, [e], o);
      world := Step(world, e, o);
      trace := trace + [e];
    }

    /** Does the next transaction reach the database? */
    method Transact() returns (ok: bool)
      requires Valid()
      modifies this`faults
      ensures Valid() && faults == if ok then old(faults) else old(faults) + 1
    {
      ok := *;
      if !ok { faults := faults + 1; }
    }

    /** Any number of steps of anybody else. */
    method Interfere(token: Token)
      requires Valid()
      modifies this
      ensures Valid() && old(trace) <= trace && faults == old(faults)
      ensures forall k :: |old(trace)| <= k < |trace| ==> !Own(trace[k], token)
      ensures forall i, w :: old(Flying(i, token, w)) ==> Flying(i, token, w)
    {
      var steps: nat := *;
      while steps > 0
        invariant Valid() && old(trace) <= trace && faults == old(faults)
        invariant forall k :: |old(trace)| <= k < |trace| ==> !Own(trace[k], token)
        invariant forall i, w :: old(Flying(i, token, w)) ==> Flying(i, token, w)
      {
        var e: Event := *;
        if !Own(e, token) {
          forall i, w | Flying(i, token, w)
            ensures var w' := Step(world, e, o);
                    && i in w'.cells && w'.cells[i].row.Some? && token in w'.cells[i].workers
                    && token in w'.cells[i].used
                    && w'.cells[i].workers[token] == w
          {
            OthersKeepWorker(world, e, o, i, token);
          }
          Perform(e);
        }
        steps := steps - 1;
      }
    }
  }

  /** One claim being processed: the claim copy is updated in place as its writes succeed. */
  class ClaimRun {
    const platform: Platform
    const image: ImageId
    const token: Token
    var claim: Delivery

    constructor (platform: Platform, image: ImageId, token: Token, claim: Delivery)
      ensures this.platform == platform && this.image == image && this.token == token && this.claim == claim
    {
      this.platform, this.image, this.token, this.claim := platform, image, token, claim;
    }

    ghost predicate Standing(pc: Pc)
      reads this, platform
    {
      platform.Valid() && platform.Flying(image, token, Worker(claim, pc))
    }

    ghost predicate Logged(e: Entry)
      reads this, platform
    {
      image in platform.world.cells && e in platform.world.cells[image].history
    }

    /** The protocol ran on, and no other claim held under this token was touched. */
    twostate predicate Ran()
      reads this, platform
    {
      && platform.Valid() && old(platform.trace) <= platform.trace && old(platform.faults) <= platform.faults
      && (forall i, w :: i != image && old(platform.Flying(i, token, w)) ==> platform.Flying(i, token, w))
    }

    /** The same without a failed transaction. */
    twostate predicate Quiet()
      reads this, platform
    {
      Ran() && platform.faults == old(platform.faults)
    }

    ghost predicate Gone()
      reads this, platform
    {
      image in platform.world.cells && token !in platform.world.cells[image].workers
    }

    /** The last step was giving the lease back, which a worker does only after a write hit no row. */
    ghost predicate GaveBack()
      reads this, platform
    {
      platform.trace != [] && platform.trace[|platform.trace| - 1] == At(image, token, Release)
    }

    ghost predicate Finishes(generation: nat, outcome: Outcome)
      reads this, platform
    {
      exists purged :: Logged(Finished(generation, outcome, purged))
    }

    /**
     * The copy is gone. An error is reported exactly for a failed transaction; otherwise the claim was
     * superseded and its lease given back, or its outcome is in the log.
     */
    twostate predicate Ended(generation: nat, outcome: Outcome, err: bool)
      reads this, platform
    {
      && Ran() && Gone() && (err <==> platform.faults > old(platform.faults))
      && (err || if outcome.OutcomeSuperseded? then GaveBack() else Finishes(generation, outcome))
    }

    /** Other actors run, then this worker's next step happens. */
    method Act(e: WorkerEvent, ghost pc: Pc) returns (now: Time, ghost before: World)
      requires Standing(pc)
      modifies platform
      ensures Quiet() && now == platform.world.clock == before.clock
      ensures platform.trace != [] && platform.trace[|platform.trace| - 1] == At(image, token, e)
      ensures platform.world == Step(before, At(image, token, e), platform.o)
      ensures && image in before.cells && before.cells[image].row.Some? && token in before.cells[image].workers
              && token in before.cells[image].used && before.cells[image].workers[token] == Worker(claim, pc)
    {
      platform.Interfere(token);
      before := platform.world;
      forall i, w | i != image && platform.Flying(i, token, w)
        ensures var w' := Step(before, At(image, token, e), platform.o);
                && i in w'.cells && w'.cells[i].row.Some? && token in w'.cells[i].workers && token in w'.cells[i].used
                && w'.cells[i].workers[token] == w
      {
        OthersKeepWorker(before, At(image, token, e), platform.o, i, token);
      }
      now := platform.world.clock;
      platform.Perform(At(image, token, e));
    }

    // ---- Calls out ---------------------------------------------------------

    /** An ACL call that returns without error has taken effect; one that fails may have. */
    method SetObjectPublicAccess() returns (ok: bool, now: Time)
      requires Standing(CallAcl(false))
      modifies platform
      ensures Quiet() && Standing(Writing(AclDone(ok), now))
    {
      ok := *;
      var lands: bool := *;
      ghost var before: World;
      if ok || lands {
        now, before := Act(AclLands, CallAcl(false));
      }
      now, before := Act(AclReturns(ok), CallAcl(ok || lands));
    }

    method Submit() returns (answer: SubmitAnswer, now: Time)
      requires Standing(CallSubmit)
      modifies platform
      ensures Quiet() && Standing(Writing(SubmitDone(answer), now))
    {
      ghost var before: World;
      now, before := Act(SubmitSent, CallSubmit);
      answer := *;
      now, before := Act(SubmitReturns(answer), AwaitSubmit);
    }

    method Recover() returns (answer: RecoverAnswer, now: Time)
      requires Standing(CallRecover) && claim.startedAt.Some?
      modifies platform
      ensures Quiet() && Standing(Writing(RecoverDone(answer), now))
    {
      ghost var before: World;
      answer := *;
      now, before := Act(RecoverReturns(answer), CallRecover);
    }

    method Describe() returns (answer: PollAnswer, now: Time)
      requires Standing(CallPoll) && claim.startedAt.Some?
      modifies platform
      ensures Quiet() && Standing(Writing(PollDone(answer), now))
    {
      ghost var before: World;
      answer := *;
      now, before := Act(PollReturns(answer), CallPoll);
    }

    // ---- Short transactions ------------------------------------------------

    /** One fenced UPDATE; a failed transaction drops the copy. */
    method Update(u: Updates, ghost obs: Observation, ghost at: Time) returns (updated: bool, failed: bool, now: Time)
      requires Standing(Writing(obs, at)) && Decide(claim, obs, at, platform.o).updates == u
      modifies platform
      ensures Ran() && now == platform.world.clock && !(updated && failed)
      ensures failed <==> platform.faults > old(platform.faults)
      ensures var d := Decide(claim, obs, at, platform.o);
              && (failed ==> Gone())
              && (!failed && !updated ==> Standing(Releasing))
              && (updated && d.andThen.Finish? ==> Gone() && Finishes(claim.generation, d.andThen.outcome))
              && (updated && !d.andThen.Finish? ==>
                    platform.Valid() && platform.Flying(image, token, GoOn(claim, u, d.andThen, now)))
    {
      ghost var before: World;
      var ok := platform.Transact();
      failed := !ok;
      if failed {
        now, before := Act(Crash, Writing(obs, at));
        updated := false;
        return;
      }
      now, before := Act(Write, Writing(obs, at));
      ghost var d := Decide(claim, obs, at, platform.o);
      updated := token !in platform.world.cells[image].workers
        || !platform.world.cells[image].workers[token].pc.Releasing?;
      ghost var c, c' := before.cells[image], platform.world.cells[image];
      assert c' == Written(c, token, d, now);
      if updated && d.andThen.Finish? {
        assert c'.history[|c'.history| - 1] ==
          Finished(c.row.value.generation, d.andThen.outcome, c.row.value.purgeRequired);
        assert Logged(Finished(claim.generation, d.andThen.outcome, c.row.value.purgeRequired));
      }
    }

    method UpdateOutcome(updated: bool, failed: bool) returns (outcome: Outcome, err: bool)
      requires if failed then platform.Valid() && Gone() else !updated && Standing(Releasing)
      modifies platform
      ensures Ran() && Gone()
      ensures failed ==> err && outcome == OutcomeRescheduled && platform.faults == old(platform.faults)
      ensures !failed ==> outcome == OutcomeSuperseded && (err <==> platform.faults > old(platform.faults))
      ensures !err ==> GaveBack()
    {
      if failed { return OutcomeRescheduled, true; }
      ghost var before: World;
      var now: Time;
      var ok := platform.Transact();
      if ok { now, before := Act(Release, Releasing); } else { now, before := Act(Crash, Releasing); }
      return OutcomeSuperseded, !ok;
    }

    method Settle(u: Updates, outcome: Outcome, ghost obs: Observation, ghost at: Time)
      returns (result: Outcome, err: bool)
      requires Standing(Writing(obs, at)) && Decide(claim, obs, at, platform.o) == Decision(u, Finish(outcome))
      modifies platform
      ensures Ended(claim.generation, result, err)
    {
      var updated, failed, now := Update(u, obs, at);
      if failed || !updated {
        result, err := UpdateOutcome(updated, failed);
        return;
      }
      return outcome, false;
    }

    method Schedule(
      state: State, next: Time, code: Option<Code>, extra: Updates, ghost obs: Observation, ghost at: Time)
      returns (result: Outcome, err: bool)
      requires Standing(Writing(obs, at))
      requires Decide(claim, obs, at, platform.o) ==
        Decision(extra.(state := state, next := Some(next), lastError := code), Finish(OutcomeRescheduled))
      modifies platform
      ensures Ended(claim.generation, result, err)
    {
      result, err := Settle(extra.(state := state, next := Some(next), lastError := code), OutcomeRescheduled, obs, at);
    }

    method Succeeds(now: Time, ghost obs: Observation, ghost at: Time) returns (result: Outcome, err: bool)
      requires Standing(Writing(obs, at)) && Decide(claim, obs, at, platform.o) == Succeed(now)
      modifies platform
      ensures Ended(claim.generation, result, err)
    {
      result, err := Settle(SucceedUpdates(now), OutcomeSucceeded, obs, at);
    }

    method Dies(code: Code, now: Time, ghost obs: Observation, ghost at: Time) returns (result: Outcome, err: bool)
      requires Standing(Writing(obs, at)) && Decide(claim, obs, at, platform.o) == Dead(code, now)
      modifies platform
      ensures Ended(claim.generation, result, err)
    {
      result, err := Settle(DeadUpdates(code, now), OutcomeDead, obs, at);
    }

    // ---- The states of a claim ---------------------------------------------

    method ProcessClaim() returns (result: Outcome, err: bool)
      requires Standing(Fresh)
      modifies this, platform
      ensures Ended(old(claim.generation), result, err)
    {
      ghost var before: World;
      var now: Time;
      now, before := Act(Begin, Fresh);
      match claim.state
      case PendingAcl => result, err := ApplyAcl();
      case PendingSubmit => result, err := SubmitPurge(now);
      case Submitting =>
        if claim.startedAt.None? {
          result, err := Dies(DiscoverPermanent, now, Unusable(DiscoverPermanent), now);
        } else {
          result, err := RecoverSubmission();
        }
      case Submitted =>
        if claim.job.None? || claim.startedAt.None? {
          result, err := Dies(PollPermanent, now, Unusable(PollPermanent), now);
        } else {
          result, err := Poll();
        }
      case _ => result, err := Dies(PollPermanent, now, Unusable(PollPermanent), now);
    }

    method ApplyAcl() returns (result: Outcome, err: bool)
      requires Standing(CallAcl(false))
      modifies this, platform
      ensures Ended(old(claim.generation), result, err)
    {
      var ok, now := SetObjectPublicAccess();
      if !ok {
        var attempts := claim.aclAttempts + 1;
        if attempts >= platform.o.maxAcl {
          result, err := Dies(AclExhausted, now, AclDone(false), now);
          return;
        }
        var delay := RetryBackoff(attempts, 1, 300);
        result, err := Schedule(PendingAcl, now + delay, Some(AclRetryable),
                                ScheduleUpdates(PendingAcl, now, None).(aclAttempts := Assign(attempts)),
                                AclDone(false), now);
        return;
      }
      if !claim.purgeRequired {
        result, err := Succeeds(now, AclDone(true), now);
        return;
      }
      var updated, failed, later := Update(Assigning(PendingSubmit, Some(now), None, false), AclDone(true), now);
      if failed || !updated {
        result, err := UpdateOutcome(updated, failed);
        return;
      }
      claim := claim.(state := PendingSubmit);
      result, err := SubmitPurge(later);
    }

    method SubmitPurge(startedAt: Time) returns (result: Outcome, err: bool)
      requires Standing(Writing(SubmitDue, startedAt))
      modifies this, platform
      ensures Ended(old(claim.generation), result, err)
    {
      if claim.submitAttempts >= platform.o.maxSubmissions {
        result, err := Dies(SubmitExhausted, startedAt, SubmitDue, startedAt);
        return;
      }
      var updated, failed, _ := Update(
        Assigning(Submitting, Some(startedAt + 5), None, false)
        .(submitAttempts := Assign(claim.submitAttempts + 1), startedAt := Assign(Some(startedAt))),
        SubmitDue, startedAt);
      if failed || !updated {
        result, err := UpdateOutcome(updated, failed);
        return;
      }
      claim := claim.(state := Submitting, submitAttempts := claim.submitAttempts + 1, startedAt := Some(startedAt));
      var answer, now := Submit();
      if answer.SubmitError? {
        if answer.kind.Permanent? {
          result, err := Dies(SubmitPermanent, now, SubmitDone(answer), now);
          return;
        }
        var code := if answer.kind.Retryable? then SubmitRetryable else SubmitUnknown;
        result, err := Schedule(Submitting, now + 5, Some(code), ScheduleUpdates(Submitting, now, None),
                                SubmitDone(answer), now);
        return;
      }
      if answer.job.None? {
        result, err := Schedule(Submitting, now + 5, Some(SubmitUnknown), ScheduleUpdates(Submitting, now, None),
                                SubmitDone(answer), now);
        return;
      }
      result, err := Schedule(Submitted, now + 2, if answer.partial then Some(ProviderFailed) else None,
                              ScheduleUpdates(Submitted, now, None).(job := Assign(answer.job)),
                              SubmitDone(answer), now);
    }

    method RecoverSubmission() returns (result: Outcome, err: bool)
      requires Standing(CallRecover) && claim.startedAt.Some?
      modifies this, platform
      ensures Ended(old(claim.generation), result, err)
    {
      var a, now := Recover();
      ghost var obs := RecoverDone(a);
      if a.RecoverError? {
        if a.kind.Permanent? { result, err := Dies(DiscoverPermanent, now, obs, now); }
        else { result, err := ScheduleUnknown(DiscoverRetryable, now, obs); }
        return;
      }
      if a.effectSucceeded {
        result, err := Succeeds(now, obs, now);
        return;
      }
      if a.found && a.job.Some? {
        if a.state.Success? { result, err := Succeeds(now, obs, now); }
        else if TerminalTask(a.state) { result, err := RetrySubmissionStep(ProviderStateCode(a.state), now, obs); }
        else {
          result, err := Schedule(Submitted, now + 2, None,
                                  ScheduleUpdates(Submitted, now, None).(job := Assign(a.job)), obs, now);
        }
        return;
      }
      var age := now - claim.startedAt.value;
      if a.found && TerminalTask(a.state) {
        result, err := RetrySubmissionStep(ProviderStateCode(a.state), now, obs);
        return;
      }
      if a.ambiguous && age < platform.o.unknownGrace {
        result, err := ScheduleUnknown(DiscoverRetryable, now, obs);
        return;
      }
      if age >= platform.o.unknownGrace {
        if claim.lastError == Some(SubmitRetryable) && claim.submitAttempts < platform.o.maxSubmissions
          && !a.ambiguous {
          result, err := RetrySubmissionStep(SubmitRetryable, now, obs);
          return;
        }
        result, err := Dies(DiscoverExhausted, now, obs, now);
        return;
      }
      result, err := ScheduleUnknown(SubmitUnknown, now, obs);
    }

    method ScheduleUnknown(code: Code, now: Time, ghost obs: Observation) returns (result: Outcome, err: bool)
      requires Standing(Writing(obs, now))
      requires Decide(claim, obs, now, platform.o) == UnknownAgain(claim, code, now, platform.o)
      modifies platform
      ensures Ended(claim.generation, result, err)
    {
      var checks := claim.unknownChecks + 1;
      if checks >= platform.o.maxUnknown {
        result, err := Dies(DiscoverExhausted, now, obs, now);
        return;
      }
      var delay := RetryBackoff(checks, 5, 15);
      result, err := Schedule(Submitting, now + delay, Some(code),
                              ScheduleUpdates(Submitting, now, None).(unknownChecks := Assign(checks)), obs, now);
    }

    method RetrySubmissionStep(code: Code, now: Time, ghost obs: Observation) returns (result: Outcome, err: bool)
      requires Standing(Writing(obs, now))
      requires Decide(claim, obs, now, platform.o) == RetrySubmission(claim, code, now, platform.o)
      modifies platform
      ensures Ended(claim.generation, result, err)
    {
      if claim.submitAttempts >= platform.o.maxSubmissions {
        result, err := Dies(SubmitExhausted, now, obs, now);
        return;
      }
      var delay := RetryBackoff(claim.submitAttempts, 10, 300);
      result, err := Schedule(PendingSubmit, now + delay, Some(code),
                              ScheduleUpdates(PendingSubmit, now, None)
                              .(job := Assign(None), startedAt := Assign(None),
                                pollAttempts := Assign(0), unknownChecks := Assign(0)),
                              obs, now);
    }

    method Poll() returns (result: Outcome, err: bool)
      requires Standing(CallPoll) && claim.startedAt.Some?
      modifies this, platform
      ensures Ended(old(claim.generation), result, err)
    {
      var a, now := Describe();
      ghost var obs := PollDone(a);
      if a.PollError? {
        if a.kind.Permanent? {
          result, err := Dies(PollPermanent, now, obs, now);
          return;
        }
        var attempts := claim.pollAttempts + 1;
        if attempts >= platform.o.maxPolls {
          result, err := Dies(PollExhausted, now, obs, now);
          return;
        }
        var delay := RetryBackoff(attempts, 2, 30);
        result, err := Schedule(Submitted, now + delay, Some(PollRetryable),
                                ScheduleUpdates(Submitted, now, None).(pollAttempts := Assign(attempts)), obs, now);
        return;
      }
      match a.state
      case Success => result, err := Succeeds(now, obs, now);
      case Failed => result, err := RetrySubmissionStep(ProviderFailed, now, obs);
      case TimedOut => result, err := RetrySubmissionStep(ProviderTimeout, now, obs);
      case Canceled => result, err := RetrySubmissionStep(ProviderCanceled, now, obs);
      case Unlisted => result, err := Dies(PollPermanent, now, obs, now);
      case _ =>
        if now - claim.startedAt.value >= platform.o.pendingTimeout {
          result, err := RetrySubmissionStep(ProviderPendingTimeout, now, obs);
          return;
        }
        var polls := claim.pollAttempts + 1;
        var delay := RetryBackoff(polls, 2, 30);
        result, err := Schedule(Submitted, now + delay, None,
                                ScheduleUpdates(Submitted, now, None).(pollAttempts := Assign(polls)), obs, now);
    }
  }

  // ---- Batches -------------------------------------------------------------

  datatype BatchResult = BatchResult(claimed: nat, succeeded: nat, rescheduled: nat, deadLettered: nat, superseded: nat)

  function Rows(w: World): (rows: map<ImageId, Delivery>) {
    map i | i in w.cells && w.cells[i].row.Some? :: w.cells[i].row.value
  }

  function Count(r: BatchResult, outcome: Outcome): BatchResult {
    match outcome
    case OutcomeSucceeded => r.(succeeded := r.succeeded + 1)
    case OutcomeDead => r.(deadLettered := r.deadLettered + 1)
    case OutcomeSuperseded => r.(superseded := r.superseded + 1)
    case OutcomeRescheduled => r.(rescheduled := r.rescheduled + 1)
  }

  /** Every outcome is counted once, under its own name. */
  ghost predicate Tallies(r: BatchResult, outcomes: seq<Outcome>) {
    var m := multiset(outcomes);
    && r.succeeded == m[OutcomeSucceeded] && r.deadLettered == m[OutcomeDead]
    && r.superseded == m[OutcomeSuperseded] && r.rescheduled == m[OutcomeRescheduled]
  }

  lemma CountTallies(r: BatchResult, outcomes: seq<Outcome>, outcome: Outcome)
    requires Tallies(r, outcomes)
    ensures Tallies(Count(r, outcome), outcomes + [outcome])
  {
  }

  /**
   * What a batch may report about a claim it did not fail on: either the claim was superseded and its
   * lease given back, or the log holds this outcome for the claimed generation.
   */
  ghost predicate Reported(w: World, trace: seq<Event>, i: ImageId, token: Token, generation: nat, outcome: Outcome) {
    if outcome.OutcomeSuperseded? then At(i, token, Release) in trace
    else i in w.cells && exists purged :: Finished(generation, outcome, purged) in w.cells[i].history
  }

  /** Nothing that happens later takes it back. */
  lemma ReportedStays(
    start: World, xs: seq<Event>, ys: seq<Event>, o: Options, i: ImageId, token: Token, g: nat, outcome: Outcome)
    requires xs <= ys && Reported(Run(start, xs, o), xs, i, token, g, outcome)
    ensures Reported(Run(start, ys, o), ys, i, token, g, outcome)
  {
    var more := ys[|xs|..];
    assert ys == xs + more;
    if !outcome.OutcomeSuperseded? {
      RunAppend(start, xs, more, o);
      RunExtends(Run(start, xs, o), more, o);
      var purged :| Finished(g, outcome, purged) in Run(start, xs, o).cells[i].history;
      var h, h' := Run(start, xs, o).cells[i].history, Run(start, ys, o).cells[i].history;
      assert h' == h + h'[|h|..];
    }
  }

  /**
   * Claims the first due deliveries under one fresh token and processes each to an outcome.
   * The whole batch, with whatever happened meanwhile, is a run of the protocol. An error is reported
   * exactly if a transaction failed, and without one every outcome counted is the one on record; when
   * the claiming transaction itself fails, nothing is claimed.
   */
  method RunBatch(platform: Platform, token: Token, locked: set<ImageId>)
    returns (r: BatchResult, err: bool, picks: seq<ImageId>, outcomes: seq<Outcome>)
    requires platform.Valid() && forall i :: i in platform.world.cells ==> token !in platform.world.cells[i].used
    modifies platform
    ensures platform.Valid() && old(platform.trace) <= platform.trace
    ensures var rows := Rows(old(platform.world));
            && (FirstInOrder(rows, Candidates(rows, old(platform.world).clock, locked), picks, platform.o.batch)
                || (err && picks == []))
            && r.claimed == |picks| == |outcomes| && Tallies(r, outcomes)
            && (err <==> platform.faults > old(platform.faults))
            && (!err ==>
                  forall k :: 0 <= k < |picks| ==>
                    (picks[k] in rows &&
                     Reported(platform.world, platform.trace, picks[k], token, rows[picks[k]].generation, outcomes[k])))
  {
    var claims, unclaimed, unfinished;
    picks, claims, unclaimed := ClaimBatchOf(platform, token, locked);
    r, unfinished, outcomes := ProcessAll(platform, token, picks, claims);
    err := unclaimed || unfinished;
  }

  // Each claimed row in turn.
  method ProcessAll(platform: Platform, token: Token, picks: seq<ImageId>, claims: seq<Delivery>)
    returns (r: BatchResult, err: bool, outcomes: seq<Outcome>)
    requires platform.Valid() && |claims| == |picks|
    requires forall k, m :: 0 <= k < m < |picks| ==> picks[k] != picks[m]
    requires forall k :: 0 <= k < |picks| ==> platform.Flying(picks[k], token, Worker(claims[k], Fresh))
    modifies platform
    ensures platform.Valid() && old(platform.trace) <= platform.trace
    ensures r.claimed == |picks| == |outcomes| && Tallies(r, outcomes)
    ensures old(platform.faults) <= platform.faults && (err <==> platform.faults > old(platform.faults))
    ensures !err ==> forall k :: 0 <= k < |picks| ==>
              Reported(platform.world, platform.trace, picks[k], token, claims[k].generation, outcomes[k])
  {
    r, err, outcomes := BatchResult(|picks|, 0, 0, 0, 0), false, [];
    var k := 0;
    while k < |picks|
      invariant 0 <= k <= |picks| && platform.Valid() && old(platform.trace) <= platform.trace
      invariant r.claimed == |picks| && Tallies(r, outcomes) && |outcomes| == k
      invariant old(platform.faults) <= platform.faults && (err <==> platform.faults > old(platform.faults))
      invariant forall m :: k <= m < |picks| ==> platform.Flying(picks[m], token, Worker(claims[m], Fresh))
      invariant !err ==> forall m :: 0 <= m < k ==>
                  Reported(platform.world, platform.trace, picks[m], token, claims[m].generation, outcomes[m])
    {
      ghost var trace, before := platform.trace, outcomes;
      var run := new ClaimRun(platform, picks[k], token, claims[k]);
      var outcome, failed := run.ProcessClaim();
      CountTallies(r, outcomes, outcome);
      r, err, outcomes := Count(r, outcome), err || failed, outcomes + [outcome];
      if !err { StillReported(platform, trace, picks, token, claims, before, outcome); }
      k := k + 1;
    }
  }

  lemma StillReported(platform: Platform, trace: seq<Event>, picks: seq<ImageId>, token: Token, claims: seq<Delivery>,
                      outcomes: seq<Outcome>, outcome: Outcome)
    requires platform.Valid() && trace <= platform.trace && |outcomes| < |picks| == |claims|
    requires forall m :: 0 <= m < |outcomes| ==>
               Reported(Run(platform.start, trace, platform.o), trace, picks[m], token, claims[m].generation,
                        outcomes[m])
    requires Reported(platform.world, platform.trace, picks[|outcomes|], token, claims[|outcomes|].generation, outcome)
    ensures forall m :: 0 <= m <= |outcomes| ==>
              Reported(platform.world, platform.trace, picks[m], token, claims[m].generation, (outcomes + [outcome])[m])
  {
    forall m | 0 <= m < |outcomes|
      ensures Reported(platform.world, platform.trace, picks[m], token, claims[m].generation, outcomes[m])
    {
      ReportedStays(platform.start, trace, platform.trace, platform.o, picks[m], token, claims[m].generation,
                    outcomes[m]);
    }
  }

  // The claiming transaction: distinct due images, each with this worker's copy of its row.
  method ClaimBatchOf(platform: Platform, token: Token, locked: set<ImageId>)
    returns (picks: seq<ImageId>, claims: seq<Delivery>, err: bool)
    requires platform.Valid() && forall i :: i in platform.world.cells ==> token !in platform.world.cells[i].used
    modifies platform
    ensures platform.Valid() && old(platform.trace) <= platform.trace && |claims| == |picks|
    ensures platform.faults == if err then old(platform.faults) + 1 else old(platform.faults)
    ensures forall k, m :: 0 <= k < m < |picks| ==> picks[k] != picks[m]
    ensures forall k :: 0 <= k < |picks| ==> platform.Flying(picks[k], token, Worker(claims[k], Fresh))
    ensures var rows := Rows(old(platform.world));
            && (if err then picks == []
                else FirstInOrder(rows, Candidates(rows, old(platform.world).clock, locked), picks, platform.o.batch))
            && forall k :: 0 <= k < |picks| ==> picks[k] in rows && claims[k].generation == rows[picks[k]].generation
  {
    var ok := platform.Transact();
    if !ok { return [], [], true; }
    err := false;
    var now := platform.world.clock;
    var rows := Rows(platform.world);
    picks := Select(rows, Candidates(rows, now, locked), platform.o.batch);
    forall k | 0 <= k < |picks|
      ensures picks[k] in platform.world.cells && Claimable(platform.world.cells[picks[k]], token, now)
    {
      assert picks[k] in Members(picks);
    }
    platform.Perform(ClaimBatch(token, Members(picks), now));
    claims := seq(|picks|, k requires 0 <= k < |picks| && picks[k] in rows =>
                             Claimed(rows[picks[k]], token, now + platform.o.lease));
    forall k | 0 <= k < |picks|
      ensures platform.Flying(picks[k], token, Worker(claims[k], Fresh))
    {
      assert picks[k] in Members(picks);
    }
    forall k, m | 0 <= k < m < |picks| ensures picks[k] != picks[m] {
      assert Before(rows, picks[k], picks[m]);
    }
  }
}
