/** The object's real ACL agrees with every delivery that is past its ACL step. */
module ImageAccessAcl {
  import opened Common
  import opened ImageAccessRow
  import opened ImageAccessDecisions
  import opened ImageAccessProtocol
  import opened ImageAccessInvariant

  /** The worker's ACL call has succeeded and its result is not written back yet. */
  predicate AclMade(pc: Pc) {
    pc == CallAcl(true) || (pc.Writing? && pc.obs == AclDone(true))
  }

  ghost predicate AclAgrees(c: Cell) {
    (c.row.Some? && PastAcl(c.row.value.state)) ==> c.acl == c.row.value.desiredPublic
  }

  ghost predicate HolderAgrees(c: Cell, t: Token)
    requires t in c.workers
  {
    (c.row.Some? && Matches(c.row.value, c.workers[t].claim.generation, t) && AclMade(c.workers[t].pc)) ==>
      c.acl == c.row.value.desiredPublic
  }

  ghost predicate AclInv(c: Cell) {
    AclAgrees(c) && forall t :: t in c.workers ==> HolderAgrees(c, t)
  }

  lemma WriteKeepsAcl(c: Cell, t: Token, clock: Time, o: Options)
    requires Positive(o) && CellInv(c, clock, o) && AclInv(c)
    requires t in c.workers && c.workers[t].pc.Writing? && c.row.Some?
    ensures AclInv(WriteStep(c, t, clock, o))
  {
    var c' := WriteStep(c, t, clock, o);
    assert WorkerInv(c, t, clock, o) && HolderAgrees(c, t);
    forall s | s in c'.workers ensures HolderAgrees(c', s) {
      if s != t { assert HolderAgrees(c, s) && WorkerInv(c, s, clock, o); }
    }
  }

  lemma WorkerStepKeepsAcl(c: Cell, t: Token, e: WorkerEvent, clock: Time, o: Options)
    requires Positive(o) && CellInv(c, clock, o) && AclInv(c)
    requires e.AclLands? ==> c.row.Some? && HoldsLease(c.row.value, t)
    ensures AclInv(WorkerStep(c, t, e, clock, o))
  {
    var c' := WorkerStep(c, t, e, clock, o);
    if t in c.workers && c.row.Some? {
      assert WorkerInv(c, t, clock, o) && HolderAgrees(c, t);
      if c.workers[t].pc.Writing? && e.Write? {
        WriteKeepsAcl(c, t, clock, o);
      } else {
        forall s | s in c'.workers ensures HolderAgrees(c', s) {
          assert HolderAgrees(c, s);
        }
      }
    }
  }

  ghost predicate WorldAclInv(w: World) {
    forall i :: i in w.cells ==> AclInv(w.cells[i])
  }

  lemma StepKeepsAcl(w: World, e: Event, o: Options)
    requires Positive(o) && WorldInv(w, o) && WorldAclInv(w) && Timely(w, e)
    ensures WorldAclInv(Step(w, e, o))
  {
    var w' := Step(w, e, o);
    forall i | i in w'.cells ensures AclInv(w'.cells[i]) {
      var c, c' := w.cells[i], w'.cells[i];
      assert CellInv(c, w.clock, o) && AclInv(c);
      match e
      case At(j, t, event) => if i == j { WorkerStepKeepsAcl(c, t, event, w.clock, o); }
      case ClaimBatch(token, images, at) =>
        forall t | t in c'.workers ensures HolderAgrees(c', t) {
          if t in c.workers { assert HolderAgrees(c, t) && WorkerInv(c, t, w.clock, o); }
        }
      case Enqueue(j, _, _, _, _) =>
        forall t | t in c'.workers ensures HolderAgrees(c', t) {
          assert HolderAgrees(c, t) && WorkerInv(c, t, w.clock, o);
        }
      case _ =>
    }
  }

  lemma {:induction false} TimelyRunKeepsAcl(w: World, events: seq<Event>, o: Options)
    requires Positive(o) && WorldInv(w, o) && WorldAclInv(w) && TimelyRun(w, events, o)
    ensures WorldAclInv(Run(w, events, o))
    decreases |events|
  {
    if events != [] {
      StepKeeps(w, events[0], o);
      StepKeepsAcl(w, events[0], o);
      TimelyRunKeepsAcl(Step(w, events[0], o), events[1..], o);
    }
  }

  /**
   * Whatever the interleaving of workers, crashes, lease expiries and new verdicts: once a delivery
   * is past its ACL step, the object is public exactly when the delivery wants it public, provided
   * every ACL call takes effect while its caller owns the row's lease.
   */
  lemma PastAclMeansAclSet(w0: World, events: seq<Event>, o: Options, i: ImageId)
    requires Positive(o) && Initial(w0) && TimelyRun(w0, events, o)
    requires var w := Run(w0, events, o); i in w.cells && w.cells[i].row.Some? && PastAcl(w.cells[i].row.value.state)
    ensures var c := Run(w0, events, o).cells[i]; c.acl == c.row.value.desiredPublic
  {
    InitialInv(w0, o);
    TimelyRunKeepsAcl(w0, events, o);
    assert AclInv(Run(w0, events, o).cells[i]);
  }

  /** An ACL call that takes effect before its caller's lease ends is timely. */
  lemma WithinLeaseIsTimely(w0: World, events: seq<Event>, o: Options, i: ImageId, t: Token)
    requires Positive(o) && Initial(w0)
    requires var w := Run(w0, events, o);
             && i in w.cells && t in w.cells[i].workers && w.cells[i].workers[t].claim.lease.Some?
             && w.clock < w.cells[i].workers[t].claim.lease.value.until
    ensures Timely(Run(w0, events, o), At(i, t, AclLands))
  {
    LiveLeaseIsHeld(w0, events, o, i, t);
  }

  // ---- Why the lease condition is there ------------------------------------

  function Single(clock: Time, c: Cell): World { World(clock, map[7 := c]) }

  lemma RunThen(w0: World, events: seq<Event>, e: Event, o: Options)
    ensures Run(w0, events + [e], o) == Step(Run(w0, events, o), e, o)
  {
    RunAppend(w0, events, [e], o);
  }

  /** Worker 1 claims a private generation and stalls in its ACL call until its lease is over. */
  lemma StalledWorker() returns (events: seq<Event>, c: Cell)
    ensures Run(Single(0, EmptyCell(true)), events, DEFAULTS) == Single(60, c)
    ensures c.row.Some? && Due(c.row.value, 60) && c.used == {1} && c.workers.Keys == {1}
    ensures c.workers[1].pc == CallAcl(false) && !c.workers[1].claim.desiredPublic
  {
    var w0, o := Single(0, EmptyCell(true)), DEFAULTS;
    var c1 := EnqueueStep(EmptyCell(true), 1, false, true, 0);
    var c2 := ClaimStep(c1, 1, 0, o);
    c := WorkerStep(c2, 1, Begin, 0, o);
    events := [Enqueue(7, 1, false, true, 0)];
    RunThen(w0, [], Enqueue(7, 1, false, true, 0), o);
    assert [] + [Enqueue(7, 1, false, true, 0)] == events;
    assert Run(w0, events, o) == Single(0, c1);
    RunThen(w0, events, ClaimBatch(1, {7}, 0), o);
    events := events + [ClaimBatch(1, {7}, 0)];
    assert Run(w0, events, o) == Single(0, c2);
    RunThen(w0, events, At(7, 1, Begin), o);
    events := events + [At(7, 1, Begin)];
    assert Run(w0, events, o) == Single(0, c);
    RunThen(w0, events, Tick(60), o);
    events := events + [Tick(60)];
  }

  ghost predicate Stalled(c: Cell) {
    && c.row.Some? && 1 in c.workers && 2 !in c.used
    && c.workers[1].pc == CallAcl(false) && !c.workers[1].claim.desiredPublic
  }

  /** A new public verdict arrives and worker 2 claims it. */
  lemma ClaimedBy2(events: seq<Event>, c: Cell) returns (events': seq<Event>, c': Cell)
    requires Run(Single(0, EmptyCell(true)), events, DEFAULTS) == Single(60, c)
    requires Stalled(c) && Due(c.row.value, 60)
    ensures Run(Single(0, EmptyCell(true)), events', DEFAULTS) == Single(60, c')
    ensures var row := Claimed(Enqueued(c.row, 2, true, false, 60), 2, 120);
            c'.row == Some(row) && c'.workers == c.workers[2 := Worker(row, Fresh)]
  {
    var w0, o := Single(0, EmptyCell(true)), DEFAULTS;
    var c1 := EnqueueStep(c, 2, true, false, 60);
    RunThen(w0, events, Enqueue(7, 2, true, false, 60), o);
    events' := events + [Enqueue(7, 2, true, false, 60)];
    assert Run(w0, events', o) == Single(60, c1);
    RunThen(w0, events', ClaimBatch(2, {7}, 60), o);
    events' := events' + [ClaimBatch(2, {7}, 60)];
    c' := ClaimStep(c1, 2, 60, o);
    assert Run(w0, events', o) == Single(60, c');
  }

  lemma CompletedBy2(events: seq<Event>, c: Cell) returns (events': seq<Event>, c': Cell)
    requires Run(Single(0, EmptyCell(true)), events, DEFAULTS) == Single(60, c)
    requires c.row.Some? && c.row.value.state.PendingAcl? && c.row.value.desiredPublic && !c.row.value.purgeRequired
    requires HoldsLease(c.row.value, 2) && c.workers.Keys == {1, 2} && c.workers[2] == Worker(c.row.value, Fresh)
    ensures Run(Single(0, EmptyCell(true)), events', DEFAULTS) == Single(60, c')
    ensures c'.row.Some? && c'.row.value.state.Succeeded? && c'.row.value.desiredPublic
    ensures 1 in c'.workers && c'.workers[1] == c.workers[1]
  {
    events', c' := Worker2(events, c, Begin);
    events', c' := Worker2(events', c', AclLands);
    events', c' := Worker2(events', c', AclReturns(true));
    assert c'.workers[2].pc == Writing(AclDone(true), 60) && c'.row == c.row;
    events', c' := Worker2(events', c', Write);
  }

  lemma Worker2(events: seq<Event>, c: Cell, e: WorkerEvent) returns (events': seq<Event>, c': Cell)
    requires Run(Single(0, EmptyCell(true)), events, DEFAULTS) == Single(60, c)
    ensures c' == WorkerStep(c, 2, e, 60, DEFAULTS)
    ensures Run(Single(0, EmptyCell(true)), events', DEFAULTS) == Single(60, c')
  {
    c' := WorkerStep(c, 2, e, 60, DEFAULTS);
    events' := events + [At(7, 2, e)];
    RunThen(Single(0, EmptyCell(true)), events, At(7, 2, e), DEFAULTS);
  }

  /**
   * The lease condition is needed: a private-ACL call of an older generation that takes effect after
   * its lease was taken over leaves a succeeded public delivery on a private object.
   */
  lemma LateAclBreaksAgreement()
    ensures Initial(Single(0, EmptyCell(true)))
    ensures exists events ::
              var w := Run(Single(0, EmptyCell(true)), events, DEFAULTS);
              && 7 in w.cells && w.cells[7].row.Some? && w.cells[7].row.value.state.Succeeded?
              && w.cells[7].row.value.desiredPublic && !w.cells[7].acl
  {
    var events, c := StalledWorker();
    events, c := ClaimedBy2(events, c);
    events, c := CompletedBy2(events, c);
    RunThen(Single(0, EmptyCell(true)), events, At(7, 1, AclLands), DEFAULTS);
    var w := Run(Single(0, EmptyCell(true)), events + [At(7, 1, AclLands)], DEFAULTS);
    assert w.cells[7] == WorkerStep(c, 1, AclLands, 60, DEFAULTS);
  }

  // ---- Exactly which late effects are harmless ------------------------------

  /**
   * A late effect of value v contradicts nothing: the delivery wants v, or it is not past its ACL step
   * and no worker that still passes the fence has made its own ACL call.
   */
  ghost predicate Harmless(c: Cell, v: bool) {
    c.row.Some? && c.row.value.desiredPublic != v ==>
      && !PastAcl(c.row.value.state)
      && forall t :: t in c.workers && Matches(c.row.value, c.workers[t].claim.generation, t) ==>
           !AclMade(c.workers[t].pc)
  }

  ghost predicate AgreesFrom(w: World, i: ImageId, o: Options) {
    forall events :: TimelyRun(w, events, o) ==>
      i in Run(w, events, o).cells && AclAgrees(Run(w, events, o).cells[i])
  }

  lemma {:induction false} RunKeepsCells(w: World, events: seq<Event>, o: Options)
    ensures Run(w, events, o).cells.Keys == w.cells.Keys
    decreases |events|
  {
    if events != [] { RunKeepsCells(Step(w, events[0], o), events[1..], o); }
  }

  lemma HarmlessKeeps(w: World, i: ImageId, v: bool, o: Options)
    requires Positive(o) && WorldInv(w, o) && WorldAclInv(w) && i in w.cells && Harmless(w.cells[i], v)
    ensures AgreesFrom(Step(w, StrayAcl(i, v), o), i, o)
  {
    var late := Step(w, StrayAcl(i, v), o);
    StepKeeps(w, StrayAcl(i, v), o);
    forall j | j in late.cells
      ensures AclInv(late.cells[j])
    {
      assert AclInv(w.cells[j]);
      forall t | t in late.cells[j].workers ensures HolderAgrees(late.cells[j], t) {
        assert HolderAgrees(w.cells[j], t);
      }
    }
    AclInvLasts(late, i, o);
  }

  // The pending write of a worker whose ACL call is made takes the row past its ACL step.
  lemma MadeThenPast(w: World, i: ImageId, t: Token, o: Options) returns (events: seq<Event>)
    requires Positive(o) && WorldInv(w, o) && i in w.cells && w.cells[i].row.Some? && t in w.cells[i].workers
    requires Matches(w.cells[i].row.value, w.cells[i].workers[t].claim.generation, t)
    requires AclMade(w.cells[i].workers[t].pc)
    ensures TimelyRun(w, events, o)
    ensures var c := Run(w, events, o).cells;
      && i in c && c[i].row.Some? && PastAcl(c[i].row.value.state)
      && c[i].acl == w.cells[i].acl && c[i].row.value.desiredPublic == w.cells[i].row.value.desiredPublic
  {
    assert CellInv(w.cells[i], w.clock, o) && WorkerInv(w.cells[i], t, w.clock, o);
    if w.cells[i].workers[t].pc == CallAcl(true) {
      var next := Step(w, At(i, t, AclReturns(true)), o);
      assert next.cells[i] == SetPc(w.cells[i], t, Writing(AclDone(true), w.clock));
      events := [At(i, t, AclReturns(true)), At(i, t, Write)];
      assert events[1..] == [At(i, t, Write)];
      WriteAfterAcl(next, i, t, o);
    } else {
      events := [At(i, t, Write)];
      WriteAfterAcl(w, i, t, o);
    }
  }

  lemma WriteAfterAcl(w: World, i: ImageId, t: Token, o: Options)
    requires i in w.cells && w.cells[i].row.Some? && t in w.cells[i].workers
    requires Matches(w.cells[i].row.value, w.cells[i].workers[t].claim.generation, t)
    requires w.cells[i].workers[t].pc.Writing? && w.cells[i].workers[t].pc.obs == AclDone(true)
    ensures TimelyRun(w, [At(i, t, Write)], o)
    ensures var c := Run(w, [At(i, t, Write)], o).cells;
      && i in c && c[i].row.Some? && PastAcl(c[i].row.value.state)
      && c[i].acl == w.cells[i].acl && c[i].row.value.desiredPublic == w.cells[i].row.value.desiredPublic
  {
    var next := Step(w, At(i, t, Write), o);
    assert Run(w, [At(i, t, Write)], o) == Run(next, [], o) == next;
    assert TimelyRun(next, [], o);
    assert next.cells[i] == WriteStep(w.cells[i], t, w.clock, o);
  }

  /**
   * When an ACL request takes effect late, the agreement survives, now and through everything that may follow
   * in time, exactly if the effect is harmless at the moment it happens.
   */
  lemma LateEffectIff(w0: World, before: seq<Event>, i: ImageId, v: bool, o: Options)
    requires Positive(o) && Initial(w0) && TimelyRun(w0, before, o) && i in Run(w0, before, o).cells
    ensures var w := Run(w0, before, o);
      Harmless(w.cells[i], v) <==> AgreesFrom(Step(w, StrayAcl(i, v), o), i, o)
  {
    InitialInv(w0, o);
    RunKeeps(w0, before, o);
    TimelyRunKeepsAcl(w0, before, o);
    var w := Run(w0, before, o);
    var late := Step(w, StrayAcl(i, v), o);
    var c := w.cells[i];
    if Harmless(c, v) {
      HarmlessKeeps(w, i, v, o);
    } else if PastAcl(c.row.value.state) {
      assert TimelyRun(late, [], o) && Run(late, [], o) == late;
      assert !AclAgrees(late.cells[i]);
    } else {
      var t :| t in c.workers && Matches(c.row.value, c.workers[t].claim.generation, t) && AclMade(c.workers[t].pc);
      StepKeeps(w, StrayAcl(i, v), o);
      var events := MadeThenPast(late, i, t, o);
      assert !AclAgrees(Run(late, events, o).cells[i]);
    }
  }

  /**
   * The same holds of the call of a worker still in flight that takes effect after the lease was lost: the value is the
   * one its copy of the claim wants.
   */
  lemma LateCallIff(w0: World, before: seq<Event>, i: ImageId, t: Token, o: Options)
    requires Positive(o) && Initial(w0) && TimelyRun(w0, before, o) && i in Run(w0, before, o).cells
    requires var c := Run(w0, before, o).cells[i];
      t in c.workers && c.workers[t].pc.CallAcl? && c.row.Some? && !HoldsLease(c.row.value, t)
    ensures var w := Run(w0, before, o);
      Harmless(w.cells[i], w.cells[i].workers[t].claim.desiredPublic) <==>
        AgreesFrom(Step(w, At(i, t, AclLands), o), i, o)
  {
    InitialInv(w0, o);
    RunKeeps(w0, before, o);
    TimelyRunKeepsAcl(w0, before, o);
    var w := Run(w0, before, o);
    var c, late := w.cells[i], Step(w, At(i, t, AclLands), o);
    StepKeeps(w, At(i, t, AclLands), o);
    if Harmless(c, c.workers[t].claim.desiredPublic) {
      LateCallHarmless(w, i, t, o);
    } else if PastAcl(c.row.value.state) {
      assert TimelyRun(late, [], o) && Run(late, [], o) == late;
      assert !AclAgrees(late.cells[i]);
    } else {
      var s :| s in c.workers && Matches(c.row.value, c.workers[s].claim.generation, s) && AclMade(c.workers[s].pc);
      var events := MadeThenPast(late, i, s, o);
      assert !AclAgrees(Run(late, events, o).cells[i]);
    }
  }

  lemma LateCallHarmless(w: World, i: ImageId, t: Token, o: Options)
    requires Positive(o) && WorldInv(w, o) && WorldAclInv(w) && i in w.cells && t in w.cells[i].workers
    requires w.cells[i].workers[t].pc.CallAcl? && w.cells[i].row.Some? && !HoldsLease(w.cells[i].row.value, t)
    requires Harmless(w.cells[i], w.cells[i].workers[t].claim.desiredPublic)
    ensures AgreesFrom(Step(w, At(i, t, AclLands), o), i, o)
  {
    var late := Step(w, At(i, t, AclLands), o);
    StepKeeps(w, At(i, t, AclLands), o);
    forall j | j in late.cells
      ensures AclInv(late.cells[j])
    {
      assert AclInv(w.cells[j]);
      forall s | s in late.cells[j].workers ensures HolderAgrees(late.cells[j], s) {
        assert HolderAgrees(w.cells[j], s);
      }
    }
    AclInvLasts(late, i, o);
  }

  lemma AclInvLasts(w: World, i: ImageId, o: Options)
    requires Positive(o) && WorldInv(w, o) && WorldAclInv(w) && i in w.cells
    ensures AgreesFrom(w, i, o)
  {
    forall events | TimelyRun(w, events, o)
      ensures i in Run(w, events, o).cells && AclAgrees(Run(w, events, o).cells[i])
    {
      TimelyRunKeepsAcl(w, events, o);
      RunKeepsCells(w, events, o);
      assert AclInv(Run(w, events, o).cells[i]);
    }
  }
}
