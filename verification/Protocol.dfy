/**
 The lease protocol over whole runs. A sweep is two statements: the first ends
 lapsed runs, the second marks their tasks stale, and any other request may run
 between them, including other sweeps.
 */
module Protocol {
  import opened Model
  import opened TaskSteps
  import opened Updates
  import opened Taskboard
  import opened Requests
  import opened Leases
  import opened BoardInvariants

  /** The board, the latest clock reading, and the times of the sweeps whose first statement has run. */
  datatype Machine = Machine(board: Board, clock: int, sweeping: set<int>)

  /** Clocks never run back, a sweep's second statement follows its first, and updates respect the lease. */
  ghost predicate Enabled(m: Machine, c: Call) {
    && m.clock <= c.at
    && (c.op.SweepRuns? ==> c.op.since <= c.at)
    && (c.op.SweepTasks? ==> c.op.since in m.sweeping)
    && SafeCall(m.board, c)
  }

  ghost function Step(m: Machine, c: Call, lease: nat): Machine {
    Machine(After(m.board, c, lease), c.at, if c.op.SweepRuns? then m.sweeping + {c.op.since} else m.sweeping)
  }

  ghost function Play(m: Machine, calls: seq<Call>, lease: nat): Machine
    decreases |calls|
  {
    if calls == [] then m else Play(Step(m, calls[0], lease), calls[1..], lease)
  }

  ghost predicate Allowed(m: Machine, calls: seq<Call>, lease: nat)
    decreases |calls|
  {
    calls != [] ==> Enabled(m, calls[0]) && Allowed(Step(m, calls[0], lease), calls[1..], lease)
  }

  /** Nothing but the clock holds back a request that is neither an update nor part of a sweep; a sweep may begin at any
      time, and its second statement may run any time after the first. */
  lemma EnabledLaw(m: Machine, c: Call, sweep: Call, lease: nat)
    requires m.clock <= c.at
    ensures !c.op.Update? && !c.op.SweepRuns? && !c.op.SweepTasks? ==> Enabled(m, c)
    ensures c.op == SweepRuns(c.at) ==> Enabled(m, c)
    ensures c.op == SweepRuns(c.at) && c.at <= sweep.at && sweep.op == SweepTasks(c.at) ==>
              Enabled(Step(m, c, lease), sweep)
  {
    hide After;
  }

  ghost predicate LeaseInv(m: Machine) {
    && AllLeaseOk(m.board)
    && forall s :: s in m.sweeping ==> s <= m.clock && AllHeldUntil(m.board, s)
  }

  lemma StepKeepsLeaseInv(m: Machine, c: Call, lease: nat)
    requires LeaseInv(m) && Enabled(m, c)
    ensures LeaseInv(Step(m, c, lease))
  {
    hide AllLeaseOk, AllHeldUntil, Execute, After;
    OnlyExecution(m.board, c, lease);
    var m' := Step(m, c, lease);
    if c.op.SweepRuns? { SweepRunsIsExecuted(m.board, c, lease); }
    if Execute(m.board, c, lease).Ok? {
      ExecuteKeepsLease(m.board, c, lease);
      forall s | s in m.sweeping ensures AllHeldUntil(Execute(m.board, c, lease).value, s) {
        ExecuteKeepsHeld(m.board, c, lease, s);
      }
    }
  }

  lemma SweepRunsIsExecuted(b: Board, c: Call, lease: nat)
    requires c.op.SweepRuns? && AllLeaseOk(b)
    ensures Execute(b, c, lease).Ok? && After(b, c, lease) == Execute(b, c, lease).value
    ensures AllHeldUntil(After(b, c, lease), c.op.since)
  {
    forall i | 0 <= i < |b.tasks| ensures HeldUntil(SweepRunsOf(b.tasks[i], c.op.since), c.op.since) {
      SweepRunsHeld(b.tasks[i], c.op.since);
    }
  }

  lemma {:induction false} PlayKeepsLeaseInv(m: Machine, calls: seq<Call>, lease: nat)
    requires LeaseInv(m) && Allowed(m, calls, lease)
    ensures LeaseInv(Play(m, calls, lease))
    decreases |calls|
  {
    hide LeaseInv, Enabled, Step;
    if calls != [] {
      StepKeepsLeaseInv(m, calls[0], lease);
      PlayKeepsLeaseInv(Step(m, calls[0], lease), calls[1..], lease);
    }
  }

  /** In every run whose updates respect the lease: no task ever has two live runs,
      a live run means an active task, and the run behind an open blocking question
      has ended. */
  lemma LeaseProtocol(clock: int, calls: seq<Call>, lease: nat)
    requires Allowed(Machine(EMPTY_BOARD, clock, {}), calls, lease)
    ensures AllLeaseOk(Play(Machine(EMPTY_BOARD, clock, {}), calls, lease).board)
  {
    PlayKeepsLeaseInv(Machine(EMPTY_BOARD, clock, {}), calls, lease);
  }

  /** The same timing, with updates that name the live run or no run and change the
      status of a held task only by naming its run or marking it a duplicate. */
  ghost predicate DisciplinedRun(m: Machine, calls: seq<Call>, lease: nat)
    decreases |calls|
  {
    calls != [] ==>
      && m.clock <= calls[0].at
      && (calls[0].op.SweepRuns? ==> calls[0].op.since <= calls[0].at)
      && (calls[0].op.SweepTasks? ==> calls[0].op.since in m.sweeping)
      && (calls[0].op.Update? && calls[0].op.task < |m.board.tasks| ==>
          Disciplined(m.board.tasks[calls[0].op.task], calls[0].op.update))
      && DisciplinedRun(Step(m, calls[0], lease), calls[1..], lease)
  }

  lemma {:induction false} DisciplineIsAllowed(m: Machine, calls: seq<Call>, lease: nat)
    requires LeaseInv(m) && DisciplinedRun(m, calls, lease)
    ensures Allowed(m, calls, lease)
    decreases |calls|
  {
    hide Disciplined, LeaseSafe, LeaseOk, Step;
    if calls != [] {
      var c := calls[0];
      if c.op.Update? && c.op.task < |m.board.tasks| { DisciplineIsSafe(m.board.tasks[c.op.task], c.op.update); }
      StepKeepsLeaseInv(m, c, lease);
      DisciplineIsAllowed(Step(m, c, lease), calls[1..], lease);
    }
  }

  /** The protocol under that discipline. */
  lemma DisciplinedLeaseProtocol(clock: int, calls: seq<Call>, lease: nat)
    requires DisciplinedRun(Machine(EMPTY_BOARD, clock, {}), calls, lease)
    ensures AllLeaseOk(Play(Machine(EMPTY_BOARD, clock, {}), calls, lease).board)
  {
    DisciplineIsAllowed(Machine(EMPTY_BOARD, clock, {}), calls, lease);
    LeaseProtocol(clock, calls, lease);
  }

  /** The second statement of a sweep, however late it runs, makes no task stale
      that a live run still holds, lapsed or not. */
  lemma SweepNeverStrandsARun(clock: int, calls: seq<Call>, lease: nat, since: int, i: nat)
    requires Allowed(Machine(EMPTY_BOARD, clock, {}), calls, lease)
    requires var m := Play(Machine(EMPTY_BOARD, clock, {}), calls, lease);
             since in m.sweeping && i < |m.board.tasks| && HasLiveRun(m.board.tasks[i])
    ensures var tasks := Play(Machine(EMPTY_BOARD, clock, {}), calls, lease).board.tasks;
            SweptTasks(tasks, since)[i] == tasks[i]
  {
    PlayKeepsLeaseInv(Machine(EMPTY_BOARD, clock, {}), calls, lease);
    var m := Play(Machine(EMPTY_BOARD, clock, {}), calls, lease);
    assert AllHeldUntil(m.board, since);
    SweepTaskSparesHeld(m.board.tasks[i], since);
  }

  // ----- Why updates must respect the lease -----

  const SOME_START := StartRequest("Fix", "", Team, "", None, ["Look"])

  /** Without that discipline the protocol fails, whoever calls and whenever: a held task goes back
      to the queue by an update that does not name its run, another claim follows, and two runs are live. */
  lemma UndisciplinedUpdateBreaksLease(start: Call, requeue: Call, claim: Call, lease: nat)
    requires start.op == Start(SOME_START) && start.key == "" && start.admitted
    requires requeue.op == Update(0, NO_EDIT.(status := Some(Queued))) && requeue.key == ""
    requires claim.op == Claim(0, 2) && claim.key == "" && claim.admitted
    ensures var b1 := After(EMPTY_BOARD, start, lease);
            var b3 := After(After(b1, requeue, lease), claim, lease);
            && |b1.tasks| == 1 && !Disciplined(b1.tasks[0], requeue.op.update)
                && !LeaseSafe(b1.tasks[0], requeue.op.update)
            && |b3.tasks| == 1 && |b3.tasks[0].runs| == 2 && Live(b3.tasks[0].runs[0]) && Live(b3.tasks[0].runs[1])
  {
    hide After;
    StartHolds(start, lease);
    var b1 := After(EMPTY_BOARD, start, lease);
    RequeueWithoutRun(b1, requeue, lease);
    ClaimAddsRun(After(b1, requeue, lease), claim, lease);
  }

  lemma StartHolds(c: Call, lease: nat)
    requires c.op == Start(SOME_START) && c.key == "" && c.admitted
    ensures var b := After(EMPTY_BOARD, c, lease);
            && |b.tasks| == 1 && b.blockedBy == {} && b.tasks[0].status == Active && b.tasks[0].version == 1
            && b.tasks[0].duplicateOf.None? && b.tasks[0].deferUntil.None?
            && |b.tasks[0].runs| == 1 && Live(b.tasks[0].runs[0])
  {
  }

  lemma ClaimAddsRun(b: Board, c: Call, lease: nat)
    requires |b.tasks| == 1 && b.blockedBy == {} && b.tasks[0].status == Queued && b.tasks[0].version == 2
    requires b.tasks[0].duplicateOf.None? && b.tasks[0].deferUntil.None?
    requires c.op == Claim(0, 2) && c.key == "" && c.admitted
    ensures var b' := After(b, c, lease);
            |b'.tasks| == 1 && b'.tasks[0].runs == b.tasks[0].runs + [NewRun(c.actor, c.at, lease)]
  {
  }

  lemma RequeueWithoutRun(b: Board, c: Call, lease: nat)
    requires |b.tasks| == 1 && b.tasks[0].version == 1 && b.tasks[0].duplicateOf.None? && b.tasks[0].deferUntil.None?
              && b.blockedBy == {}
    requires c.op == Update(0, NO_EDIT.(status := Some(Queued))) && c.key == ""
    ensures var b' := After(b, c, lease);
            && |b'.tasks| == 1 && b'.blockedBy == {} && b'.tasks[0].status == Queued && b'.tasks[0].version == 2
            && b'.tasks[0].runs == b.tasks[0].runs && b'.tasks[0].duplicateOf.None? && b'.tasks[0].deferUntil.None?
  {
  }
}
