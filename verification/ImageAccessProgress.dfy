/** Every completed claim uses up part of a fixed budget, so each generation finishes. */
module ImageAccessProgress {
  import opened Common
  import opened ImageAccessRow
  import opened ImageAccessDecisions
  import opened ImageAccessProtocol
  import opened ImageAccessInvariant

  function Clamp(x: int, top: int): int
    requires top >= 0
    ensures 0 <= Clamp(x, top) <= top
  {
    Max(0, Min(x, top))
  }

  // ---- The measure ---------------------------------------------------------

  function AclLeft(r: Delivery, o: Options): int
    requires Positive(o)
  {
    if r.state.PendingAcl? then Clamp(o.maxAcl - r.aclAttempts, o.maxAcl) else 0
  }

  function SubmissionsLeft(r: Delivery, o: Options): int
    requires Positive(o)
  {
    Clamp(o.maxSubmissions - r.submitAttempts, o.maxSubmissions)
  }

  // A submission whose answer has not been recorded yet still has its error column empty.
  function Phase(r: Delivery): int {
    match r.state
    case Submitting => if r.lastError.None? then 3 else 2
    case Submitted => 1
    case _ => 0
  }

  /** Reconciliations left while submitting; time left before the pending time-out, then polls, once submitted. */
  function Patience(r: Delivery, o: Options): int
    requires Positive(o)
  {
    match r.state
    case Submitting => Clamp(o.maxUnknown - r.unknownChecks, o.maxUnknown)
    case Submitted =>
      (if r.startedAt.Some? && r.next.Some?
       then Clamp(r.startedAt.value + o.pendingTimeout - r.next.value, o.pendingTimeout) else 0) * (o.maxPolls + 1)
      + Clamp(o.maxPolls - r.pollAttempts, o.maxPolls)
    case _ => 0
  }

  function PatienceBound(o: Options): int
    requires Positive(o)
  {
    o.maxUnknown + (o.pendingTimeout + 1) * (o.maxPolls + 1)
  }

  /** The lexicographic measure as one number; zero exactly for finished deliveries. */
  function Budget(r: Delivery, o: Options): int
    requires Positive(o)
  {
    if Terminal(r.state) then 0
    else 1 + ((AclLeft(r, o) * (o.maxSubmissions + 1) + SubmissionsLeft(r, o)) * 4 + Phase(r)) * (PatienceBound(o) + 1)
         + Patience(r, o)
  }

  // What a fresh generation starts with.
  function FullBudget(o: Options): int
    requires Positive(o)
  {
    1 + ((o.maxAcl * (o.maxSubmissions + 1) + o.maxSubmissions) * 4) * (PatienceBound(o) + 1)
  }

  // ---- Lexicographic order as arithmetic -----------------------------------

  lemma Carry(x: int, y: int, p: int, q: int, base: int)
    requires x > y && 0 <= p && 0 <= q < base
    ensures x * base + p > y * base + q
  {
    assert x * base >= (y + 1) * base == y * base + base;
  }

  lemma ProductNonNegative(x: int, y: int)
    requires 0 <= x && 0 <= y
    ensures 0 <= x * y
  {
  }

  lemma ProductMonotone(x: int, y: int, z: int)
    requires x <= y && 0 <= z
    ensures x * z <= y * z
  {
  }

  lemma PatienceRange(r: Delivery, o: Options)
    requires Positive(o)
    ensures 0 <= Patience(r, o) <= PatienceBound(o)
  {
    ProductNonNegative(o.pendingTimeout + 1, o.maxPolls + 1);
    if r.state.Submitted? && r.startedAt.Some? && r.next.Some? {
      var left := Clamp(r.startedAt.value + o.pendingTimeout - r.next.value, o.pendingTimeout);
      ProductNonNegative(left, o.maxPolls + 1);
      ProductMonotone(left, o.pendingTimeout, o.maxPolls + 1);
      assert (o.pendingTimeout + 1) * (o.maxPolls + 1) == o.pendingTimeout * (o.maxPolls + 1) + (o.maxPolls + 1);
    }
  }

  /** Strictly before r in the lexicographic order (ACL tries, submissions, phase, patience). */
  ghost predicate Less(r': Delivery, r: Delivery, o: Options)
    requires Positive(o)
  {
    || AclLeft(r', o) < AclLeft(r, o)
    || (AclLeft(r', o) == AclLeft(r, o)
        && (|| SubmissionsLeft(r', o) < SubmissionsLeft(r, o)
            || (SubmissionsLeft(r', o) == SubmissionsLeft(r, o)
                && (|| Phase(r') < Phase(r)
                    || (Phase(r') == Phase(r) && Patience(r', o) < Patience(r, o))))))
  }

  lemma LessCostsBudget(r': Delivery, r: Delivery, o: Options)
    requires Positive(o) && !Terminal(r.state) && (Terminal(r'.state) || Less(r', r, o))
    ensures 0 <= Budget(r', o) < Budget(r, o)
  {
    PatienceRange(r, o);
    PatienceRange(r', o);
    var s, k := o.maxSubmissions + 1, PatienceBound(o) + 1;
    var a, a' := AclLeft(r, o), AclLeft(r', o);
    var b, b' := a * s + SubmissionsLeft(r, o), a' * s + SubmissionsLeft(r', o);
    var c, c' := b * 4 + Phase(r), b' * 4 + Phase(r');
    ProductNonNegative(a, s);
    ProductNonNegative(a', s);
    ProductNonNegative(c, k);
    ProductNonNegative(c', k);
    if !Terminal(r'.state) {
      if a' < a { Carry(a, a', SubmissionsLeft(r, o), SubmissionsLeft(r', o), s); }
      if b' < b { Carry(b, b', Phase(r), Phase(r'), 4); }
      if c' < c { Carry(c, c', Patience(r, o), Patience(r', o), k); }
    }
  }

  // ---- Every write that passes the fence costs budget ----------------------

  lemma PollTime(r: Delivery, polls: nat, at: Time, o: Options, next': Time, polls': nat)
    requires Positive(o) && r.state.Submitted? && r.startedAt.Some? && r.next.Some?
    requires r.startedAt.value <= at && r.next.value <= at && next' >= at + 2 && polls == r.pollAttempts
    requires at - r.startedAt.value < o.pendingTimeout || (polls' == polls + 1 && polls' < o.maxPolls)
    ensures Patience(r.(next := Some(next'), pollAttempts := polls'), o) < Patience(r, o)
  {
    var r' := r.(next := Some(next'), pollAttempts := polls');
    var left := Clamp(r.startedAt.value + o.pendingTimeout - r.next.value, o.pendingTimeout);
    var left' := Clamp(r.startedAt.value + o.pendingTimeout - next', o.pendingTimeout);
    var p, p' := Clamp(o.maxPolls - r.pollAttempts, o.maxPolls), Clamp(o.maxPolls - polls', o.maxPolls);
    if left' < left {
      Carry(left, left', p, p', o.maxPolls + 1);
    } else {
      assert left' == left && p' < p;
    }
  }

  lemma SamePatience(r: Delivery, r': Delivery, o: Options)
    requires Positive(o) && r.state == r'.state && r.startedAt == r'.startedAt && r.next == r'.next
    requires r.pollAttempts == r'.pollAttempts && r.unknownChecks == r'.unknownChecks
    ensures Patience(r, o) == Patience(r', o)
  {
  }

  lemma PollCosts(r: Delivery, w: Worker, clock: Time, o: Options)
    requires Writable(r, w, clock, o) && w.pc.obs.PollDone?
    ensures var r' := Apply(r, Decide(w.claim, w.pc.obs, w.pc.at, o).updates); Terminal(r'.state) || Less(r', r, o)
  {
    var r' := Apply(r, Decide(w.claim, w.pc.obs, w.pc.at, o).updates);
    if r'.state.Submitted? {
      BackoffAtLeastBase(w.claim.pollAttempts + 1, 2, 30);
      PollTime(r, r.pollAttempts, w.pc.at, o, r'.next.value, r'.pollAttempts);
      SamePatience(r.(next := r'.next, pollAttempts := r'.pollAttempts), r', o);
    }
  }

  lemma RetryCosts(r: Delivery, code: Code, now: Time, o: Options)
    requires Positive(o) && r.state.Submitting? && r.submitAttempts <= o.maxSubmissions
    ensures var r' := Apply(r, RetrySubmission(r, code, now, o).updates); Terminal(r'.state) || Less(r', r, o)
  {
  }

  lemma UnknownCosts(r: Delivery, code: Code, now: Time, o: Options)
    requires Positive(o) && r.state.Submitting?
    ensures var r' := Apply(r, UnknownAgain(r, code, now, o).updates); Terminal(r'.state) || Less(r', r, o)
  {
    var r' := Apply(r, UnknownAgain(r, code, now, o).updates);
    if r'.state.Submitting? {
      assert r'.unknownChecks == r.unknownChecks + 1 < o.maxUnknown;
    }
  }

  lemma RecoverCosts(r: Delivery, w: Worker, clock: Time, o: Options)
    requires Writable(r, w, clock, o) && w.pc.obs.RecoverDone?
    ensures var r' := Apply(r, Decide(w.claim, w.pc.obs, w.pc.at, o).updates); Terminal(r'.state) || Less(r', r, o)
  {
    RecoverAnswerCosts(r, w.claim, w.pc.obs.recover, w.pc.at, o);
  }

  lemma RecoverAnswerCosts(r: Delivery, c: Delivery, a: RecoverAnswer, now: Time, o: Options)
    requires Positive(o) && r.state.Submitting? && r.submitAttempts <= o.maxSubmissions && c.startedAt.Some?
    requires c.submitAttempts == r.submitAttempts && c.unknownChecks == r.unknownChecks
    ensures var r' := Apply(r, AfterRecover(c, a, now, o).updates); Terminal(r'.state) || Less(r', r, o)
  {
    UnknownCosts(r, DiscoverRetryable, now, o);
    UnknownCosts(r, SubmitUnknown, now, o);
    RetryCosts(r, SubmitRetryable, now, o);
    match a
    case RecoverError(_) =>
    case Recovery(_, _, _, _, state) => RetryCosts(r, ProviderStateCode(state), now, o);
  }

  lemma SubmitCosts(r: Delivery, w: Worker, clock: Time, o: Options)
    requires Writable(r, w, clock, o) && (w.pc.obs.AclDone? || w.pc.obs.SubmitDue? || w.pc.obs.SubmitDone?)
    ensures var r' := Apply(r, Decide(w.claim, w.pc.obs, w.pc.at, o).updates); Terminal(r'.state) || Less(r', r, o)
  {
  }

  lemma WriteCosts(r: Delivery, w: Worker, clock: Time, o: Options)
    requires Writable(r, w, clock, o)
    ensures 0 <= Budget(Apply(r, Decide(w.claim, w.pc.obs, w.pc.at, o).updates), o) < Budget(r, o)
  {
    match w.pc.obs {
      case RecoverDone(_) => RecoverCosts(r, w, clock, o);
      case PollDone(_) => PollCosts(r, w, clock, o);
      case _ => SubmitCosts(r, w, clock, o);
    }
    LessCostsBudget(Apply(r, Decide(w.claim, w.pc.obs, w.pc.at, o).updates), r, o);
  }

  // ---- Counting over runs --------------------------------------------------

  /** Claims of one generation that were completed without being superseded. */
  function CompletedClaims(h: seq<Entry>, g: nat): nat {
    if h == [] then 0
    else CompletedClaims(h[..|h| - 1], g) + if h[|h| - 1].Finished? && h[|h| - 1].generation == g then 1 else 0
  }

  lemma CompletedAppend(h: seq<Entry>, e: Entry, g: nat)
    ensures CompletedClaims(h + [e], g) ==
            CompletedClaims(h, g) + if e.Finished? && e.generation == g then 1 else 0
  {
    assert (h + [e])[..|h|] == h;
  }

  /** What the current generation has spent and still has never exceeds what it started with; none is older than it. */
  ghost predicate Spent(c: Cell, o: Options)
    requires Positive(o)
  {
    && (c.row.None? ==> forall g: nat :: CompletedClaims(c.history, g) == 0)
    && (c.row.Some? ==>
          && CompletedClaims(c.history, c.row.value.generation) + Budget(c.row.value, o) <= FullBudget(o)
          && (forall g: nat :: g > c.row.value.generation ==> CompletedClaims(c.history, g) == 0)
          && (forall g: nat :: CompletedClaims(c.history, g) <= FullBudget(o)))
  }

  lemma FullBudgetPositive(o: Options)
    requires Positive(o)
    ensures FullBudget(o) >= 1
  {
    ProductNonNegative(o.pendingTimeout + 1, o.maxPolls + 1);
    ProductNonNegative(o.maxAcl, o.maxSubmissions + 1);
    ProductNonNegative((o.maxAcl * (o.maxSubmissions + 1) + o.maxSubmissions) * 4, PatienceBound(o) + 1);
  }

  lemma FreshBudget(r: Delivery, o: Options)
    requires Positive(o) && r.state.PendingAcl? && r.aclAttempts == 0 && r.submitAttempts == 0
    ensures Budget(r, o) == FullBudget(o)
  {
  }

  lemma WriteSpends(c: Cell, t: Token, clock: Time, o: Options)
    requires Positive(o) && CellInv(c, clock, o) && Spent(c, o)
    requires t in c.workers && c.workers[t].pc.Writing? && c.row.Some?
    ensures Spent(WriteStep(c, t, clock, o), o)
  {
    var w, r, c' := c.workers[t], c.row.value, WriteStep(c, t, clock, o);
    assert WorkerInv(c, t, clock, o);
    if Matches(r, w.claim.generation, t) {
      WriteCosts(r, w, clock, o);
      var d := Decide(w.claim, w.pc.obs, w.pc.at, o);
      var h1 := if Reopens(r, d) then c.history + [Reopened(r.generation, r.submitAttempts)] else c.history;
      forall g: nat
        ensures CompletedClaims(c'.history, g) ==
                CompletedClaims(c.history, g) + if d.andThen.Finish? && g == r.generation then 1 else 0
      {
        CompletedAppend(c.history, Reopened(r.generation, r.submitAttempts), g);
        match WriteEntry(r, t, d)
        case None =>
        case Some(e) => CompletedAppend(h1, e, g);
      }
    }
  }

  lemma WorkerStepSpends(c: Cell, t: Token, e: WorkerEvent, clock: Time, o: Options)
    requires Positive(o) && CellInv(c, clock, o) && Spent(c, o)
    ensures Spent(WorkerStep(c, t, e, clock, o), o)
  {
    if t in c.workers && c.row.Some? {
      assert WorkerInv(c, t, clock, o);
      if c.workers[t].pc.Writing? && e.Write? {
        WriteSpends(c, t, clock, o);
      } else {
        WorkerStepShape(c, t, e, clock, o);
        ObservationSpends(c, WorkerStep(c, t, e, clock, o), t, clock, o);
      }
    }
  }

  // What is logged between writes completes no claim, and giving a lease back costs nothing.
  lemma ObservationSpends(c: Cell, c': Cell, t: Token, clock: Time, o: Options)
    requires Positive(o) && Spent(c, o) && c.row.Some?
    requires c'.row == c.row
             || (c'.row == Some(Released(c.row.value, t, clock))
                 && (HoldsLease(c.row.value, t) ==> c.row.value.state.PendingAcl?))
    requires c'.history == c.history || exists x: Entry :: c'.history == c.history + [x] && !x.Finished?
    ensures Spent(c', o)
  {
    forall g: nat ensures CompletedClaims(c'.history, g) == CompletedClaims(c.history, g) {
      if c'.history != c.history {
        var x: Entry :| c'.history == c.history + [x] && !x.Finished?;
        CompletedAppend(c.history, x, g);
      }
    }
  }

  lemma EnqueueSpends(c: Cell, clock: Time, o: Options, intent: nat, public: bool, purge: bool, at: Time)
    requires Positive(o) && CellInv(c, clock, o) && Spent(c, o)
    ensures Spent(EnqueueStep(c, intent, public, purge, at), o)
  {
    FullBudgetPositive(o);
    FreshBudget(Enqueued(c.row, intent, public, purge, at), o);
  }

  lemma ClaimSpends(c: Cell, token: Token, at: Time, o: Options)
    requires Positive(o) && Spent(c, o) && c.row.Some?
    ensures Spent(ClaimStep(c, token, at, o), o)
  {
    SamePatience(c.row.value, Claimed(c.row.value, token, at + o.lease), o);
  }

  ghost predicate WorldSpent(w: World, o: Options)
    requires Positive(o)
  {
    forall i :: i in w.cells ==> Spent(w.cells[i], o)
  }

  lemma StepSpends(w: World, e: Event, o: Options)
    requires Positive(o) && WorldInv(w, o) && WorldSpent(w, o)
    ensures WorldSpent(Step(w, e, o), o)
  {
    var w' := Step(w, e, o);
    forall i | i in w'.cells ensures Spent(w'.cells[i], o) {
      var c := w.cells[i];
      assert CellInv(c, w.clock, o) && Spent(c, o);
      match e
      case Tick(_) =>
      case Enqueue(j, intent, public, purge, at) =>
        if i == j && WellFormedIntent(public, purge) { EnqueueSpends(c, w.clock, o, intent, public, purge, at); }
      case ClaimBatch(t, images, at) =>
        if BatchClaimable(w, t, images, at) && i in images { ClaimSpends(c, t, at, o); }
      case At(j, t, event) => if i == j { WorkerStepSpends(c, t, event, w.clock, o); }
      case StrayAcl(_, _) =>
    }
  }

  lemma {:induction false} RunSpends(w: World, events: seq<Event>, o: Options)
    requires Positive(o) && WorldInv(w, o) && WorldSpent(w, o)
    ensures WorldSpent(Run(w, events, o), o)
    decreases |events|
  {
    if events != [] {
      StepKeeps(w, events[0], o);
      StepSpends(w, events[0], o);
      RunSpends(Step(w, events[0], o), events[1..], o);
    }
  }

  // ---- Theorems ------------------------------------------------------------

  /**
   * In every reachable state, a completed claim that passes the fence either finishes the delivery or
   * leaves it strictly smaller in the order (ACL tries left, submissions left, phase, patience).
   */
  lemma CompletedClaimMakesProgress(w0: World, events: seq<Event>, o: Options, i: ImageId, t: Token)
    requires Positive(o) && Initial(w0)
    requires var w := Run(w0, events, o);
             && i in w.cells && t in w.cells[i].workers && w.cells[i].workers[t].pc.Writing? && w.cells[i].row.Some?
             && Matches(w.cells[i].row.value, w.cells[i].workers[t].claim.generation, t)
    ensures var w := Run(w0, events, o);
            var r, r' := w.cells[i].row.value, WriteStep(w.cells[i], t, w.clock, o).row.value;
            !Terminal(r.state) && (Terminal(r'.state) || Less(r', r, o))
  {
    InitialInv(w0, o);
    RunKeeps(w0, events, o);
    var w := Run(w0, events, o);
    assert CellInv(w.cells[i], w.clock, o);
    assert WorkerInv(w.cells[i], t, w.clock, o);
    var r, worker := w.cells[i].row.value, w.cells[i].workers[t];
    match worker.pc.obs
    case RecoverDone(_) => RecoverCosts(r, worker, w.clock, o);
    case PollDone(_) => PollCosts(r, worker, w.clock, o);
    case _ => SubmitCosts(r, worker, w.clock, o);
  }

  /** Each generation is finished by boundedly many completed claims, whatever crashes and overlaps. */
  lemma BoundedClaimsPerGeneration(w0: World, events: seq<Event>, o: Options, i: ImageId, g: nat)
    requires Positive(o) && Initial(w0) && i in Run(w0, events, o).cells
    ensures CompletedClaims(Run(w0, events, o).cells[i].history, g) <= FullBudget(o)
  {
    InitialInv(w0, o);
    FullBudgetPositive(o);
    RunSpends(w0, events, o);
    assert Spent(Run(w0, events, o).cells[i], o);
  }
}
