/** What the log of one image says about its purge submissions: order, number and reasons. */
module ImageAccessSubmissions {
  import opened Common
  import opened ImageAccessRow
  import opened ImageAccessDecisions
  import opened ImageAccessProtocol
  import opened ImageAccessInvariant

  // ---- Reading a log -------------------------------------------------------

  ghost predicate AclDoneIn(h: seq<Entry>, g: nat) { exists v :: AclSet(g, v) in h }

  ghost predicate Window(h: seq<Entry>, g: nat, n: nat, at: Time) { exists t :: Started(g, n, at, t) in h }

  ghost predicate WindowOpened(h: seq<Entry>, g: nat, n: nat) { exists at :: Window(h, g, n, at) }

  /** The provider reported the purge as done, for the submission window that began at `at`. */
  predicate SuccessReport(e: Entry, g: nat, n: nat, at: Time) {
    match e
    case Recovered(g', n', at', Recovery(found, effect, _, job, state), _) =>
      g' == g && n' == n && at' == at && (effect || (found && job.Some? && state.Success?))
    case Polled(g', n', at', Described(state), _) => g' == g && n' == n && at' == at && state.Success?
    case _ => false
  }

  ghost predicate SuccessSeen(h: seq<Entry>, g: nat) {
    exists e, n, at :: e in h && SuccessReport(e, g, n, at)
  }

  /**
   * The reasons for replaying submission n of generation g: a reported failed, timed-out or canceled
   * task; a task still pending past its time-out; or a retryable rejection that, past the grace
   * period, no reconciliation found ambiguous.
   */
  predicate ReplayReason(h: seq<Entry>, e: Entry, g: nat, n: nat, o: Options) {
    match e
    case Recovered(g', n', at, Recovery(found, _, ambiguous, _, state), seen) =>
      g' == g && n' == n
      && ((found && TerminalTask(state))
          || (!ambiguous && seen - at >= o.unknownGrace && Answered(g, n, SubmitError(Retryable)) in h))
    case Polled(g', n', at, Described(state), seen) =>
      g' == g && n' == n
      && (TerminalTask(state)
          || ((state.Processing? || state.ProtocolUnknown?) && seen - at >= o.pendingTimeout))
    case _ => false
  }

  ghost predicate ReplayJustified(h: seq<Entry>, g: nat, n: nat, o: Options) {
    exists e :: e in h && ReplayReason(h, e, g, n, o)
  }

  /** What must already be in the log when an entry is appended. */
  ghost predicate EntryOk(before: seq<Entry>, e: Entry, o: Options) {
    match e
    case AclSet(_, _) => true
    case Started(g, n, _, _) =>
      && 1 <= n <= o.maxSubmissions && AclDoneIn(before, g)
      && (forall at, t: Token :: Started(g, n, at, t) !in before)
      && (n > 1 ==> Reopened(g, n - 1) in before)
    case Called(g, n) => WindowOpened(before, g, n) && Called(g, n) !in before
    case Answered(g, n, _) => Called(g, n) in before
    case Recovered(g, n, at, _, _) => Window(before, g, n, at)
    case Polled(g, n, at, _, _) => Window(before, g, n, at)
    case Reopened(g, n) => ReplayJustified(before, g, n, o)
    case Finished(g, outcome, purged) =>
      outcome.OutcomeSucceeded? ==> (if purged then SuccessSeen(before, g) else AclDoneIn(before, g))
  }

  ghost predicate Justified(h: seq<Entry>, o: Options) {
    forall k :: 0 <= k < |h| ==> EntryOk(h[..k], h[k], o)
  }

  lemma JustifiedAppend(h: seq<Entry>, e: Entry, o: Options)
    requires Justified(h, o) && EntryOk(h, e, o)
    ensures Justified(h + [e], o)
  {
    var h' := h + [e];
    forall k | 0 <= k < |h'| ensures EntryOk(h'[..k], h'[k], o) {
      assert h'[..k] == h[..k];
      if k == |h| { assert h[..k] == h; }
    }
  }

  lemma StartedOnce(h: seq<Entry>, o: Options, g: nat, n: nat, a1: Time, t1: Token, a2: Time, t2: Token)
    requires Justified(h, o) && Started(g, n, a1, t1) in h && Started(g, n, a2, t2) in h
    ensures a1 == a2 && t1 == t2
  {
    var i :| 0 <= i < |h| && h[i] == Started(g, n, a1, t1);
    var j :| 0 <= j < |h| && h[j] == Started(g, n, a2, t2);
    assert EntryOk(h[..i], h[i], o) && EntryOk(h[..j], h[j], o);
  }

  // ---- The log fits the row and the workers --------------------------------

  predicate InWindow(s: State) { s.Submitting? || s.Submitted? }

  /** No entry is ahead of the row, and a generation sets only its own ACL. */
  ghost predicate LogBounds(generation: nat, public: bool, submissions: nat, h: seq<Entry>) {
    && (forall g: nat, v :: AclSet(g, v) in h ==> g <= generation && (g == generation ==> v == public))
    && (forall g: nat, n: nat, at, t: Token :: Started(g, n, at, t) in h ==>
          g <= generation && (g == generation ==> n <= submissions))
  }

  ghost predicate StateLogged(r: Delivery, h: seq<Entry>) {
    && (PastAcl(r.state) ==> AclSet(r.generation, r.desiredPublic) in h)
    && (InWindow(r.state) ==> r.startedAt.Some? && Window(h, r.generation, r.submitAttempts, r.startedAt.value))
    && (r.state.PendingSubmit? && r.submitAttempts >= 1 ==> Reopened(r.generation, r.submitAttempts) in h)
    && (r.state.Submitting? && r.lastError == Some(SubmitRetryable) ==>
          Answered(r.generation, r.submitAttempts, SubmitError(Retryable)) in h)
    && (r.state.Succeeded? && r.purgeRequired ==> SuccessSeen(h, r.generation))
  }

  ghost predicate RowLogged(r: Delivery, h: seq<Entry>) {
    LogBounds(r.generation, r.desiredPublic, r.submitAttempts, h) && StateLogged(r, h)
  }

  ghost predicate WorkerLogged(t: Token, w: Worker, r: Delivery, h: seq<Entry>) {
    var g, n := w.claim.generation, w.claim.submitAttempts;
    && (g == r.generation ==> w.claim.desiredPublic == r.desiredPublic)
    && (PastAcl(w.claim.state) ==> AclSet(g, w.claim.desiredPublic) in h)
    && (InWindow(w.claim.state) ==> w.claim.startedAt.Some? && Window(h, g, n, w.claim.startedAt.value))
    && match w.pc
       case CallAcl(landed) => landed ==> AclSet(g, w.claim.desiredPublic) in h
       case CallSubmit =>
         && w.claim.startedAt.Some? && Started(g, n, w.claim.startedAt.value, t) in h && Called(g, n) !in h
       case AwaitSubmit => Called(g, n) in h
       case Writing(AclDone(ok), _) => ok ==> AclSet(g, w.claim.desiredPublic) in h
       case Writing(SubmitDone(a), _) => Answered(g, n, a) in h
       case Writing(RecoverDone(a), at) =>
         w.claim.startedAt.Some? && Recovered(g, n, w.claim.startedAt.value, a, at) in h
       case Writing(PollDone(a), at) =>
         w.claim.startedAt.Some? && Polled(g, n, w.claim.startedAt.value, a, at) in h
       case _ => true
  }

  ghost predicate LogInv(c: Cell, o: Options) {
    && Justified(c.history, o)
    && (c.row.None? ==> c.history == [] && c.workers == map[])
    && (c.row.Some? ==> RowLogged(c.row.value, c.history))
    && forall t :: t in c.workers ==> c.row.Some? && WorkerLogged(t, c.workers[t], c.row.value, c.history)
  }

  // ---- Every event keeps it ------------------------------------------------

  // Appending an entry other than a new AclSet, Started or Called keeps every fact above.
  predicate Quiet(e: Entry) { !e.AclSet? && !e.Started? && !e.Called? }

  lemma RowLoggedGrows(r: Delivery, h: seq<Entry>, e: Entry)
    requires RowLogged(r, h) && !e.Started? && (e.AclSet? ==> e.generation <= r.generation)
    requires e.AclSet? && e.generation == r.generation ==> e.public == r.desiredPublic
    ensures RowLogged(r, h + [e])
  {
    var h' := h + [e];
    assert forall x :: x in h' <==> x in h || x == e;
    if InWindow(r.state) {
      var t :| Started(r.generation, r.submitAttempts, r.startedAt.value, t) in h;
      assert Started(r.generation, r.submitAttempts, r.startedAt.value, t) in h';
    }
    if SuccessSeen(h, r.generation) {
      var x, n, at :| x in h && SuccessReport(x, r.generation, n, at);
      assert x in h' && SuccessReport(x, r.generation, n, at);
    }
  }

  lemma WorkerLoggedGrows(t: Token, w: Worker, r: Delivery, h: seq<Entry>, e: Entry)
    requires WorkerLogged(t, w, r, h)
    requires w.pc.CallSubmit? ==> e != Called(w.claim.generation, w.claim.submitAttempts)
    ensures WorkerLogged(t, w, r, h + [e])
  {
    var h' := h + [e];
    assert forall x :: x in h' <==> x in h || x == e;
    if InWindow(w.claim.state) {
      var s :| Started(w.claim.generation, w.claim.submitAttempts, w.claim.startedAt.value, s) in h;
      assert Started(w.claim.generation, w.claim.submitAttempts, w.claim.startedAt.value, s) in h';
    }
  }

  /** One worker moves on without touching the row, appending one entry to the log. */
  lemma LoggedMoveKeeps(c: Cell, c': Cell, t: Token, pc: Pc, e: Entry, o: Options)
    requires LogInv(c, o) && t in c.workers && c.row.Some?
    requires c'.row == c.row && c'.history == c.history + [e]
    requires c'.workers == c.workers[t := c.workers[t].(pc := pc)]
    requires EntryOk(c.history, e, o) && !e.Started?
    requires e.AclSet? ==> e.generation <= c.row.value.generation
    requires e.AclSet? && e.generation == c.row.value.generation ==> e.public == c.row.value.desiredPublic
    requires WorkerLogged(t, c.workers[t].(pc := pc), c.row.value, c.history + [e])
    requires e.Called? ==> forall s :: s in c.workers && s != t && c.workers[s].pc.CallSubmit? ==>
               e != Called(c.workers[s].claim.generation, c.workers[s].claim.submitAttempts)
    ensures LogInv(c', o)
  {
    JustifiedAppend(c.history, e, o);
    RowLoggedGrows(c.row.value, c.history, e);
    forall s | s in c'.workers ensures WorkerLogged(s, c'.workers[s], c'.row.value, c'.history) {
      if s != t { WorkerLoggedGrows(s, c.workers[s], c.row.value, c.history, e); }
    }
  }

  lemma AclLandsLogged(c: Cell, t: Token, clock: Time, o: Options)
    requires Positive(o) && CellInv(c, clock, o) && LogInv(c, o)
    requires t in c.workers && c.workers[t].pc.CallAcl?
    ensures LogInv(WorkerStep(c, t, AclLands, clock, o), o)
  {
    assert WorkerInv(c, t, clock, o) && WorkerLogged(t, c.workers[t], c.row.value, c.history);
    var w := c.workers[t];
    var e := AclSet(w.claim.generation, w.claim.desiredPublic);
    WorkerLoggedGrows(t, w, c.row.value, c.history, e);
    LoggedMoveKeeps(c, WorkerStep(c, t, AclLands, clock, o), t, CallAcl(true), e, o);
  }

  lemma SubmitSentLogged(c: Cell, t: Token, clock: Time, o: Options)
    requires Positive(o) && CellInv(c, clock, o) && LogInv(c, o)
    requires t in c.workers && c.workers[t].pc.CallSubmit?
    ensures LogInv(WorkerStep(c, t, SubmitSent, clock, o), o)
  {
    assert WorkerInv(c, t, clock, o) && WorkerLogged(t, c.workers[t], c.row.value, c.history);
    var w := c.workers[t];
    var g, n, at := w.claim.generation, w.claim.submitAttempts, w.claim.startedAt.value;
    var e := Called(g, n);
    forall s | s in c.workers && s != t && c.workers[s].pc.CallSubmit?
      ensures e != Called(c.workers[s].claim.generation, c.workers[s].claim.submitAttempts)
    {
      assert WorkerLogged(s, c.workers[s], c.row.value, c.history);
      if e == Called(c.workers[s].claim.generation, c.workers[s].claim.submitAttempts) {
        StartedOnce(c.history, o, g, n, at, t, c.workers[s].claim.startedAt.value, s);
      }
    }
    assert Window(c.history, g, n, at);
    WorkerLoggedGrows(t, w.(pc := Fresh), c.row.value, c.history, e);
    LoggedMoveKeeps(c, WorkerStep(c, t, SubmitSent, clock, o), t, AwaitSubmit, e, o);
  }

  lemma AnswerLogged(c: Cell, t: Token, e: WorkerEvent, clock: Time, o: Options)
    requires Positive(o) && CellInv(c, clock, o) && LogInv(c, o)
    requires t in c.workers
    requires (c.workers[t].pc.AwaitSubmit? && e.SubmitReturns?) || (c.workers[t].pc.CallRecover? && e.RecoverReturns?)
          || (c.workers[t].pc.CallPoll? && e.PollReturns?)
    ensures LogInv(WorkerStep(c, t, e, clock, o), o)
  {
    assert WorkerInv(c, t, clock, o) && WorkerLogged(t, c.workers[t], c.row.value, c.history);
    var w, c' := c.workers[t], WorkerStep(c, t, e, clock, o);
    var entry := c'.history[|c.history|];
    WorkerLoggedGrows(t, w.(pc := Fresh), c.row.value, c.history, entry);
    LoggedMoveKeeps(c, c', t, c'.workers[t].pc, entry, o);
  }

  /** A step that leaves row and log alone. */
  lemma SilentStepKeeps(c: Cell, t: Token, e: WorkerEvent, clock: Time, o: Options)
    requires Positive(o) && CellInv(c, clock, o) && LogInv(c, o)
    requires e.Begin? || e.AclReturns? || e.Release? || e.Crash?
    ensures LogInv(WorkerStep(c, t, e, clock, o), o)
  {
    var c' := WorkerStep(c, t, e, clock, o);
    if t in c.workers && c.row.Some? {
      assert WorkerInv(c, t, clock, o) && WorkerLogged(t, c.workers[t], c.row.value, c.history);
      forall s | s in c'.workers ensures WorkerLogged(s, c'.workers[s], c'.row.value, c'.history) {
        assert WorkerLogged(s, c.workers[s], c.row.value, c.history);
      }
    }
  }

  lemma CalledWasStarted(h: seq<Entry>, o: Options, g: nat, n: nat)
    requires Justified(h, o) && Called(g, n) in h
    ensures WindowOpened(h, g, n)
  {
    var k :| 0 <= k < |h| && h[k] == Called(g, n);
    assert EntryOk(h[..k], h[k], o);
    var at: Time :| Window(h[..k], g, n, at);
    var t: Token :| Started(g, n, at, t) in h[..k];
    assert Started(g, n, at, t) in h;
    assert Window(h, g, n, at);
  }

  lemma StartedBounds(r: Delivery, h: seq<Entry>, at: Time, t: Token)
    requires LogBounds(r.generation, r.desiredPublic, r.submitAttempts, h)
    ensures LogBounds(r.generation, r.desiredPublic, r.submitAttempts + 1,
                      h + [Started(r.generation, r.submitAttempts + 1, at, t)])
  {
    var e := Started(r.generation, r.submitAttempts + 1, at, t);
    assert forall x :: x in h + [e] <==> x in h || x == e;
  }

  lemma NotCalledYet(r: Delivery, h: seq<Entry>, o: Options)
    requires LogBounds(r.generation, r.desiredPublic, r.submitAttempts, h) && Justified(h, o)
    ensures Called(r.generation, r.submitAttempts + 1) !in h
  {
    if Called(r.generation, r.submitAttempts + 1) in h {
      CalledWasStarted(h, o, r.generation, r.submitAttempts + 1);
    }
  }

  function LogAfter(r: Delivery, h: seq<Entry>, t: Token, d: Decision): seq<Entry> {
    var h1 := if Reopens(r, d) then h + [Reopened(r.generation, r.submitAttempts)] else h;
    match WriteEntry(r, t, d)
    case None => h1
    case Some(e) => h1 + [e]
  }

  /** What a decision must satisfy for its write to keep the log invariant. */
  ghost predicate DecisionLogged(
    t: Token, w: Worker, r: Delivery, h: seq<Entry>, d: Decision, clock: Time, o: Options)
  {
    var r', h' := Apply(r, d.updates), LogAfter(r, h, t, d);
    && RowLogged(r', h') && r'.generation == r.generation && r'.desiredPublic == r.desiredPublic
    && (!d.andThen.Finish? ==> WorkerLogged(t, GoOn(w.claim, d.updates, d.andThen, clock), r', h'))
  }

  ghost predicate Deciding(t: Token, w: Worker, r: Delivery, h: seq<Entry>, d: Decision, o: Options) {
    && w.pc.Writing? && Fits(w.claim, w.pc.obs) && Shape(w.claim, w.pc.obs, w.pc.at, d, o)
    && Synced(w, r) && w.claim.generation == r.generation
    && (r.state.PendingAcl? ==> r.submitAttempts == 0)
    && RowLogged(r, h) && WorkerLogged(t, w, r, h)
  }

  lemma StartLogged(t: Token, w: Worker, r: Delivery, h: seq<Entry>, d: Decision, clock: Time, o: Options)
    requires Deciding(t, w, r, h, d, o) && d.andThen.ThenCallProvider?
    requires Called(r.generation, r.submitAttempts + 1) !in h
    ensures DecisionLogged(t, w, r, h, d, clock, o)
    ensures EntryOk(h, Started(r.generation, r.submitAttempts + 1, w.pc.at, t), o)
    ensures LogAfter(r, h, t, d) == h + [Started(r.generation, r.submitAttempts + 1, w.pc.at, t)]
  {
    var e := Started(r.generation, r.submitAttempts + 1, w.pc.at, t);
    assert AclDoneIn(h, r.generation) by { assert AclSet(r.generation, r.desiredPublic) in h; }
    StartedBounds(r, h, w.pc.at, t);
    assert forall x :: x in h + [e] <==> x in h || x == e;
    assert Window(h + [e], r.generation, r.submitAttempts + 1, w.pc.at);
  }

  lemma ReplayLogged(t: Token, w: Worker, r: Delivery, h: seq<Entry>, d: Decision, o: Options)
    requires Deciding(t, w, r, h, d, o) && Reopens(r, d)
    ensures ReplayJustified(h, r.generation, r.submitAttempts, o)
  {
    var g, n, at := r.generation, r.submitAttempts, r.startedAt.value;
    if w.pc.obs.RecoverDone? {
      assert ReplayReason(h, Recovered(g, n, at, w.pc.obs.recover, w.pc.at), g, n, o);
    } else {
      assert ReplayReason(h, Polled(g, n, at, w.pc.obs.poll, w.pc.at), g, n, o);
    }
  }

  lemma SuccessLogged(t: Token, w: Worker, r: Delivery, h: seq<Entry>, d: Decision, o: Options)
    requires Deciding(t, w, r, h, d, o) && d.updates.state.Succeeded?
    ensures if r.purgeRequired then SuccessSeen(h, r.generation) else AclDoneIn(h, r.generation)
    ensures AclSet(r.generation, r.desiredPublic) in h
  {
    var g, n := r.generation, r.submitAttempts;
    if w.pc.obs.RecoverDone? {
      assert SuccessReport(Recovered(g, n, r.startedAt.value, w.pc.obs.recover, w.pc.at), g, n, r.startedAt.value);
    } else if w.pc.obs.PollDone? {
      assert SuccessReport(Polled(g, n, r.startedAt.value, w.pc.obs.poll, w.pc.at), g, n, r.startedAt.value);
    }
  }

  lemma FinishedState(t: Token, w: Worker, r: Delivery, h: seq<Entry>, d: Decision, o: Options)
    requires Deciding(t, w, r, h, d, o) && d.andThen.Finish?
    requires Reopens(r, d) ==> Reopened(r.generation, r.submitAttempts) in h
    ensures RowLogged(Apply(r, d.updates), h)
  {
    if d.updates.state.Succeeded? { SuccessLogged(t, w, r, h, d, o); }
  }

  /** The final write of a claim. */
  lemma FinishLogged(t: Token, w: Worker, r: Delivery, h: seq<Entry>, d: Decision, clock: Time, o: Options)
    requires Deciding(t, w, r, h, d, o) && d.andThen.Finish? && Justified(h, o)
    ensures DecisionLogged(t, w, r, h, d, clock, o) && Justified(LogAfter(r, h, t, d), o)
  {
    var reopened := Reopened(r.generation, r.submitAttempts);
    var finished := Finished(r.generation, d.andThen.outcome, r.purgeRequired);
    var h1 := if Reopens(r, d) then h + [reopened] else h;
    if Reopens(r, d) {
      ReplayLogged(t, w, r, h, d, o);
      JustifiedAppend(h, reopened, o);
      RowLoggedGrows(r, h, reopened);
      WorkerLoggedGrows(t, w, r, h, reopened);
    }
    FinishedState(t, w, r, h1, d, o);
    RowLoggedGrows(Apply(r, d.updates), h1, finished);
    if d.updates.state.Succeeded? { SuccessLogged(t, w, r, h1, d, o); }
    JustifiedAppend(h1, finished, o);
  }

  lemma DecideLogged(t: Token, w: Worker, r: Delivery, h: seq<Entry>, d: Decision, clock: Time, o: Options)
    requires Deciding(t, w, r, h, d, o) && Justified(h, o)
    ensures DecisionLogged(t, w, r, h, d, clock, o) && Justified(LogAfter(r, h, t, d), o)
  {
    match d.andThen
    case Finish(_) => FinishLogged(t, w, r, h, d, clock, o);
    case ThenSubmit =>
    case ThenCallProvider =>
      NotCalledYet(r, h, o);
      StartLogged(t, w, r, h, d, clock, o);
      JustifiedAppend(h, Started(r.generation, r.submitAttempts + 1, w.pc.at, t), o);
  }

  lemma LogAfterGrows(s: Token, w: Worker, r: Delivery, h: seq<Entry>, t: Token, d: Decision)
    requires WorkerLogged(s, w, r, h)
    ensures WorkerLogged(s, w, r, LogAfter(r, h, t, d))
  {
    var reopened := Reopened(r.generation, r.submitAttempts);
    WorkerLoggedGrows(s, w, r, h, reopened);
    var h1 := if Reopens(r, d) then h + [reopened] else h;
    match WriteEntry(r, t, d)
    case None =>
    case Some(e) => WorkerLoggedGrows(s, w, r, h1, e);
  }

  lemma WrittenLogged(c: Cell, t: Token, d: Decision, clock: Time, o: Options)
    requires LogInv(c, o) && t in c.workers && c.row.Some?
    requires Matches(c.row.value, c.workers[t].claim.generation, t) ==>
               && DecisionLogged(t, c.workers[t], c.row.value, c.history, d, clock, o)
               && Justified(LogAfter(c.row.value, c.history, t, d), o)
    ensures LogInv(Written(c, t, d, clock), o)
  {
    var w, r, h, c' := c.workers[t], c.row.value, c.history, Written(c, t, d, clock);
    assert WorkerLogged(t, w, r, h);
    if Matches(r, w.claim.generation, t) {
      assert c'.history == LogAfter(r, h, t, d);
      forall s | s in c'.workers ensures WorkerLogged(s, c'.workers[s], c'.row.value, c'.history) {
        LogAfterGrows(s, c.workers[s], r, h, t, d);
      }
    }
  }

  lemma WriteLogged(c: Cell, t: Token, clock: Time, o: Options)
    requires Positive(o) && CellInv(c, clock, o) && LogInv(c, o)
    requires t in c.workers && c.workers[t].pc.Writing? && c.row.Some?
    ensures LogInv(WriteStep(c, t, clock, o), o)
  {
    var w, r := c.workers[t], c.row.value;
    assert WorkerInv(c, t, clock, o);
    var d := Decide(w.claim, w.pc.obs, w.pc.at, o);
    if Matches(r, w.claim.generation, t) {
      DecideShape(w.claim, w.pc.obs, w.pc.at, o);
      DecideLogged(t, w, r, c.history, d, clock, o);
    }
    WrittenLogged(c, t, d, clock, o);
  }

  lemma WorkerStepLogged(c: Cell, t: Token, e: WorkerEvent, clock: Time, o: Options)
    requires Positive(o) && CellInv(c, clock, o) && LogInv(c, o)
    ensures LogInv(WorkerStep(c, t, e, clock, o), o)
  {
    if t in c.workers && c.row.Some? {
      match (c.workers[t].pc, e)
      case (CallAcl(_), AclLands) => AclLandsLogged(c, t, clock, o);
      case (CallSubmit, SubmitSent) => SubmitSentLogged(c, t, clock, o);
      case (AwaitSubmit, SubmitReturns(_)) => AnswerLogged(c, t, e, clock, o);
      case (CallRecover, RecoverReturns(_)) => AnswerLogged(c, t, e, clock, o);
      case (CallPoll, PollReturns(_)) => AnswerLogged(c, t, e, clock, o);
      case (Writing(_, _), Write) => WriteLogged(c, t, clock, o);
      case (_, Begin) => SilentStepKeeps(c, t, e, clock, o);
      case (_, AclReturns(_)) => SilentStepKeeps(c, t, e, clock, o);
      case (_, Release) => SilentStepKeeps(c, t, e, clock, o);
      case (_, Crash) => SilentStepKeeps(c, t, e, clock, o);
      case _ =>
    }
  }

  lemma EnqueueLogged(c: Cell, clock: Time, o: Options, intent: nat, public: bool, purge: bool, at: Time)
    requires Positive(o) && CellInv(c, clock, o) && LogInv(c, o)
    ensures LogInv(EnqueueStep(c, intent, public, purge, at), o)
  {
    var c' := EnqueueStep(c, intent, public, purge, at);
    forall t | t in c'.workers ensures WorkerLogged(t, c'.workers[t], c'.row.value, c'.history) {
      assert WorkerInv(c, t, clock, o) && WorkerLogged(t, c.workers[t], c.row.value, c.history);
    }
  }

  lemma ClaimLogged(c: Cell, clock: Time, o: Options, token: Token, at: Time)
    requires Positive(o) && CellInv(c, clock, o) && LogInv(c, o) && Claimable(c, token, at)
    ensures LogInv(ClaimStep(c, token, at, o), o)
  {
    var c' := ClaimStep(c, token, at, o);
    forall t | t in c'.workers ensures WorkerLogged(t, c'.workers[t], c'.row.value, c'.history) {
      if t != token { assert WorkerLogged(t, c.workers[t], c.row.value, c.history); }
    }
  }

  ghost predicate WorldLogInv(w: World, o: Options) {
    forall i :: i in w.cells ==> LogInv(w.cells[i], o)
  }

  lemma StepLogged(w: World, e: Event, o: Options)
    requires Positive(o) && WorldInv(w, o) && WorldLogInv(w, o)
    ensures WorldLogInv(Step(w, e, o), o)
  {
    var w' := Step(w, e, o);
    forall i | i in w'.cells ensures LogInv(w'.cells[i], o) {
      var c := w.cells[i];
      assert CellInv(c, w.clock, o) && LogInv(c, o);
      match e
      case Tick(_) =>
      case Enqueue(j, intent, public, purge, at) =>
        if i == j && WellFormedIntent(public, purge) { EnqueueLogged(c, w.clock, o, intent, public, purge, at); }
      case ClaimBatch(t, images, at) =>
        if BatchClaimable(w, t, images, at) && i in images { ClaimLogged(c, w.clock, o, t, at); }
      case At(j, t, event) => if i == j { WorkerStepLogged(c, t, event, w.clock, o); }
      case StrayAcl(_, _) =>
    }
  }

  lemma {:induction false} RunLogged(w: World, events: seq<Event>, o: Options)
    requires Positive(o) && WorldInv(w, o) && WorldLogInv(w, o)
    ensures WorldLogInv(Run(w, events, o), o)
    decreases |events|
  {
    if events != [] {
      StepKeeps(w, events[0], o);
      StepLogged(w, events[0], o);
      RunLogged(Step(w, events[0], o), events[1..], o);
    }
  }

  lemma ReachableLog(w0: World, events: seq<Event>, o: Options, i: ImageId)
    requires Positive(o) && Initial(w0)
    requires i in Run(w0, events, o).cells
    ensures LogInv(Run(w0, events, o).cells[i], o)
  {
    InitialInv(w0, o);
    RunLogged(w0, events, o);
  }

  // ---- Reading a justified log ---------------------------------------------

  lemma CallHasReason(h: seq<Entry>, o: Options, q: nat)
    requires Justified(h, o) && q < |h| && h[q].Called?
    ensures var g, n := h[q].generation, h[q].n;
            && 1 <= n <= o.maxSubmissions
            && AclDoneIn(h[..q], g)
            && (n > 1 ==> ReplayJustified(h[..q], g, n - 1, o))
  {
    var g, n := h[q].generation, h[q].n;
    assert EntryOk(h[..q], h[q], o);
    var at: Time :| Window(h[..q], g, n, at);
    var t: Token :| Started(g, n, at, t) in h[..q];
    var k :| 0 <= k < q && h[..q][k] == Started(g, n, at, t);
    StartHasReason(h, o, k);
    AclPersists(h[..k], h[..q], g);
    if n > 1 { ReplayPersists(h[..k], h[..q], g, n - 1, o); }
  }

  lemma StartHasReason(h: seq<Entry>, o: Options, k: nat)
    requires Justified(h, o) && k < |h| && h[k].Started?
    ensures var g, n := h[k].generation, h[k].n;
            1 <= n <= o.maxSubmissions && AclDoneIn(h[..k], g) && (n > 1 ==> ReplayJustified(h[..k], g, n - 1, o))
  {
    var g, n := h[k].generation, h[k].n;
    assert EntryOk(h[..k], h[k], o);
    if n > 1 {
      var m :| 0 <= m < k && h[..k][m] == Reopened(g, n - 1);
      assert EntryOk(h[..m], h[m], o);
      ReplayPersists(h[..m], h[..k], g, n - 1, o);
    }
  }

  lemma AclPersists(a: seq<Entry>, b: seq<Entry>, g: nat)
    requires AclDoneIn(a, g) && a <= b
    ensures AclDoneIn(b, g)
  {
    var v :| AclSet(g, v) in a;
    assert AclSet(g, v) in b;
  }

  lemma ReplayPersists(a: seq<Entry>, b: seq<Entry>, g: nat, n: nat, o: Options)
    requires ReplayJustified(a, g, n, o) && a <= b
    ensures ReplayJustified(b, g, n, o)
  {
    var e :| e in a && ReplayReason(a, e, g, n, o);
    assert e in b && ReplayReason(b, e, g, n, o);
  }

  // How often the provider's Submit was called for a generation.
  function CallCount(h: seq<Entry>, g: nat): nat {
    if h == [] then 0
    else CallCount(h[..|h| - 1], g) + if h[|h| - 1].Called? && h[|h| - 1].generation == g then 1 else 0
  }

  ghost function CalledNumbers(h: seq<Entry>, g: nat, max: nat): set<nat> {
    set n: nat | 1 <= n <= max && Called(g, n) in h
  }

  lemma JustifiedPrefix(p: seq<Entry>, e: Entry, o: Options)
    requires Justified(p + [e], o)
    ensures Justified(p, o)
  {
    var h := p + [e];
    forall k | 0 <= k < |p| ensures EntryOk(p[..k], p[k], o) {
      assert EntryOk(h[..k], h[k], o) && p[..k] == h[..k];
    }
  }

  lemma CalledNumbersNext(p: seq<Entry>, e: Entry, g: nat, max: nat)
    requires e.Called? && e.generation == g ==> 1 <= e.n <= max
    ensures CalledNumbers(p + [e], g, max) ==
      CalledNumbers(p, g, max) + if e.Called? && e.generation == g then {e.n} else {}
  {
    assert forall x :: x in p + [e] <==> x in p || x == e;
  }

  lemma NextCallIsNew(p: seq<Entry>, e: Entry, o: Options)
    requires Positive(o) && Justified(p + [e], o) && e.Called?
    ensures 1 <= e.n <= o.maxSubmissions && e !in p
  {
    var h := p + [e];
    assert EntryOk(h[..|p|], h[|p|], o) && h[..|p|] == p;
    CallHasReason(h, o, |p|);
  }

  lemma {:induction false} CallsAreNumbered(h: seq<Entry>, g: nat, o: Options)
    requires Positive(o) && Justified(h, o)
    ensures CallCount(h, g) == |CalledNumbers(h, g, o.maxSubmissions)|
  {
    if h == [] {
      assert CalledNumbers(h, g, o.maxSubmissions) == {};
    } else {
      var p, e := h[..|h| - 1], h[|h| - 1];
      assert h == p + [e];
      JustifiedPrefix(p, e, o);
      CallsAreNumbered(p, g, o);
      if e.Called? { NextCallIsNew(p, e, o); }
      CalledNumbersNext(p, e, g, o.maxSubmissions);
      if e.Called? && e.generation == g { assert e.n !in CalledNumbers(p, g, o.maxSubmissions); }
    }
  }

  ghost function Range(max: nat): set<nat> { set n: nat {:trigger n - 1} | 1 <= n <= max }

  lemma {:induction false} RangeSize(max: nat)
    ensures |Range(max)| == max
  {
    if max == 0 {
      assert Range(0) == {};
    } else {
      RangeSize(max - 1);
      assert Range(max) == Range(max - 1) + {max};
    }
  }

  lemma SubsetSize(a: set<nat>, b: set<nat>)
    requires a <= b
    ensures |a| <= |b|
  {
    assert b == a + (b - a);
  }

  ghost predicate OrderedSuccess(h: seq<Entry>, g: nat, public: bool) {
    exists p, q, r, n, at, t ::
      && 0 <= p < q < r < |h|
      && h[p] == AclSet(g, public) && h[q] == Started(g, n, at, t) && SuccessReport(h[r], g, n, at)
  }

  lemma StartAfterAcl(h: seq<Entry>, o: Options, q: nat, public: bool) returns (p: nat)
    requires Justified(h, o) && q < |h| && h[q].Started?
    requires forall v :: AclSet(h[q].generation, v) in h ==> v == public
    ensures p < q && h[p] == AclSet(h[q].generation, public)
  {
    assert EntryOk(h[..q], h[q], o);
    var v :| AclSet(h[q].generation, v) in h[..q];
    p :| 0 <= p < q && h[..q][p] == AclSet(h[q].generation, v);
    assert h[p] in h;
  }

  lemma ReportAfterStart(h: seq<Entry>, o: Options, r: nat, g: nat, n: nat, at: Time) returns (q: nat, t: Token)
    requires Justified(h, o) && r < |h| && SuccessReport(h[r], g, n, at)
    ensures q < r && h[q] == Started(g, n, at, t)
  {
    assert EntryOk(h[..r], h[r], o);
    t :| Started(g, n, at, t) in h[..r];
    q :| 0 <= q < r && h[..r][q] == Started(g, n, at, t);
  }

  lemma SuccessOrder(h: seq<Entry>, o: Options, g: nat, public: bool)
    requires Justified(h, o) && SuccessSeen(h, g)
    requires forall v :: AclSet(g, v) in h ==> v == public
    ensures OrderedSuccess(h, g, public)
  {
    var e, n, at :| e in h && SuccessReport(e, g, n, at);
    var r :| 0 <= r < |h| && h[r] == e;
    var q, t := ReportAfterStart(h, o, r, g, n, at);
    var p := StartAfterAcl(h, o, q, public);
    assert h[p] == AclSet(g, public) && h[q] == Started(g, n, at, t) && SuccessReport(h[r], g, n, at);
  }

  // ---- Theorems ------------------------------------------------------------

  /**
   * No Submit of a generation is issued before that generation's ACL was set, and submission n + 1 is
   * issued only after a reason to replay submission n was seen: an unknown outcome alone is none.
   */
  lemma SubmitHasReason(w0: World, events: seq<Event>, o: Options, i: ImageId, q: nat)
    requires Positive(o) && Initial(w0) && i in Run(w0, events, o).cells
    requires var h := Run(w0, events, o).cells[i].history; q < |h| && h[q].Called?
    ensures var h := Run(w0, events, o).cells[i].history;
            var g, n := h[q].generation, h[q].n;
            && 1 <= n <= o.maxSubmissions
            && AclDoneIn(h[..q], g)
            && (n > 1 ==> ReplayJustified(h[..q], g, n - 1, o))
  {
    ReachableLog(w0, events, o, i);
    CallHasReason(Run(w0, events, o).cells[i].history, o, q);
  }

  /** However workers crash or overlap, one generation makes at most MaxSubmissions Submit calls. */
  lemma AtMostMaxSubmissions(w0: World, events: seq<Event>, o: Options, i: ImageId, g: nat)
    requires Positive(o) && Initial(w0) && i in Run(w0, events, o).cells
    ensures CallCount(Run(w0, events, o).cells[i].history, g) <= o.maxSubmissions
  {
    ReachableLog(w0, events, o, i);
    var h := Run(w0, events, o).cells[i].history;
    CallsAreNumbered(h, g, o);
    RangeSize(o.maxSubmissions);
    SubsetSize(CalledNumbers(h, g, o.maxSubmissions), Range(o.maxSubmissions));
  }

  /**
   * A succeeded delivery that required a purge rests on a success report for a submission window of
   * its own generation, and that window was opened after the generation's ACL was set.
   */
  lemma SuccessFollowsOwnAcl(w0: World, events: seq<Event>, o: Options, i: ImageId)
    requires Positive(o) && Initial(w0)
    requires var w := Run(w0, events, o);
             && i in w.cells && w.cells[i].row.Some? && w.cells[i].row.value.state.Succeeded?
             && w.cells[i].row.value.purgeRequired
    ensures var c := Run(w0, events, o).cells[i];
            OrderedSuccess(c.history, c.row.value.generation, c.row.value.desiredPublic)
  {
    ReachableLog(w0, events, o, i);
    var c := Run(w0, events, o).cells[i];
    SuccessOrder(c.history, o, c.row.value.generation, c.row.value.desiredPublic);
  }
}
