/**
 Who can take a task from the run that holds it: exactly which requests end a live run, how
 long a holder is safe, and what becomes of a task whose holder is gone.
 */
module Holders {
  import opened Model
  import opened TaskSteps
  import opened Updates
  import opened Taskboard
  import opened Requests
  import opened Leases
  import opened BoardInvariants
  import opened Protocol
  import opened TaskLaws
  import opened BoardLaws
  import opened UpdateLaws

  /** Run k of task i holds it. */
  predicate Holds(b: Board, i: nat, k: nat) {
    i < |b.tasks| && k < |b.tasks[i].runs| && Holding(b.tasks[i].runs[k])
  }

  /** The ways to end a run that holds its task: the sweep once the lease has lapsed, a report that the task is no
      longer active, merging the task on the agent's own behalf, the agent's own blocking question, a pause or
      cancel control that the agent completes, and a review that requeues the task by this run. */
  ghost predicate Ends(b: Board, c: Call, i: nat, k: nat)
    requires Holds(b, i, k)
  {
    var t := b.tasks[i];
    match c.op
    case SweepRuns(since) => t.runs[k].leaseExpires < since
    case Update(task, req) =>
      && task == i
      && if req.run == Some(k) then StatusAsked(t, req) != Active else NamesKept(req) && t.runs[k].agent == c.actor
    case Escalate(task, run, _, _, blocking, _, _, _, _) => task == i && run == k && blocking
    case AnswerControl(task, control, status, _, _) =>
      && task == i && status == Completed && control < |t.controls|
      && t.controls[control].run == k && t.controls[control].kind in {Pause, Cancel}
    case Requeue(task, run, _, _) => task == i && run == k
    case _ => false
  }

  /** A heartbeat of the run, or a report by it that the task is still active. */
  ghost predicate Renews(b: Board, c: Call, i: nat, k: nat)
    requires Holds(b, i, k)
  {
    match c.op
    case Heartbeat(task, run) => task == i && run == k
    case Update(task, req) => task == i && req.run == Some(k) && StatusAsked(b.tasks[i], req) == Active
    case _ => false
  }

  /** What a committed step makes of a run that held its task. */
  ghost predicate Fares(b: Board, c: Call, i: nat, k: nat, lease: nat, r: Run)
    requires Holds(b, i, k)
  {
    && (Holding(r) <==> !Ends(b, c, i, k))
    && r.agent == b.tasks[i].runs[k].agent && r.startedAt == b.tasks[i].runs[k].startedAt
    && (Holding(r) ==>
          r.leaseExpires == if Renews(b, c, i, k) then c.at + lease else b.tasks[i].runs[k].leaseExpires)
  }

  lemma UpdateFares(b: Board, c: Call, lease: nat, i: nat, k: nat)
    requires c.op.Update? && UpdateOne(b, c, lease).Ok? && Holds(b, i, k) && c.op.task == i
    ensures k < |UpdateOne(b, c, lease).value.runs| && Fares(b, c, i, k, lease, UpdateOne(b, c, lease).value.runs[k])
  {
    hide UpdateTask, UpdatedRuns;
    var t, req := b.tasks[i], c.op.update;
    UpdateWritesRuns(t, c.at, c.actor, req, Kept(b.tasks, i, req), NextOrder(b.tasks, UpdatedSection(t, req)),
                     Unblocked(b, i), lease);
    ReportMeans(t, c, lease);
  }

  lemma AnswerFares(b: Board, c: Call, lease: nat, i: nat, k: nat)
    requires c.op.AnswerControl? && Holds(b, i, k) && c.op.task == i
    requires AnswerControlTask(b.tasks[i], c.at, c.actor, c.op).Ok?
    ensures var runs := AnswerControlTask(b.tasks[i], c.at, c.actor, c.op).value.runs;
            k < |runs| && Fares(b, c, i, k, lease, runs[k])
  {
  }

  lemma RequeueFares(b: Board, c: Call, lease: nat, i: nat, k: nat)
    requires c.op.Requeue? && Holds(b, i, k) && c.op.task == i
    requires RequeueTask(b.tasks[i], c.at, c.actor, c.op).Ok?
    ensures var runs := RequeueTask(b.tasks[i], c.at, c.actor, c.op).value.runs;
            k < |runs| && Fares(b, c, i, k, lease, runs[k])
  {
    hide LastOpen;
  }

  lemma OtherFares(b: Board, c: Call, lease: nat, i: nat, k: nat)
    requires Local(c.op) && !c.op.AnswerControl? && !c.op.Requeue? && Holds(b, i, k) && c.op.task == i
    requires LocalStep(b.tasks[i], c, Unblocked(b, i), lease).Ok?
    ensures var runs := LocalStep(b.tasks[i], c, Unblocked(b, i), lease).value.runs;
            k < |runs| && Fares(b, c, i, k, lease, runs[k])
  {
    hide Unblocked, LastOpen, AnswerControlTask, RequeueTask;
  }

  lemma LocalFares(b: Board, c: Call, lease: nat, i: nat, k: nat)
    requires Local(c.op) && Holds(b, i, k) && c.op.task == i
    requires LocalStep(b.tasks[i], c, Unblocked(b, i), lease).Ok?
    ensures var runs := LocalStep(b.tasks[i], c, Unblocked(b, i), lease).value.runs;
            k < |runs| && Fares(b, c, i, k, lease, runs[k])
  {
    hide Unblocked, Fares;
    if c.op.AnswerControl? {
      AnswerFares(b, c, lease, i, k);
    } else if c.op.Requeue? {
      RequeueFares(b, c, lease, i, k);
    } else {
      OtherFares(b, c, lease, i, k);
    }
  }

  /** A run that holds its task loses it in exactly these steps, and its lease moves in exactly those that renew it. */
  lemma HolderLosesIff(b: Board, c: Call, lease: nat, i: nat, k: nat)
    requires Execute(b, c, lease).Ok? && Holds(b, i, k)
    ensures i < |Execute(b, c, lease).value.tasks| && k < |Execute(b, c, lease).value.tasks[i].runs|
    ensures Fares(b, c, i, k, lease, Execute(b, c, lease).value.tasks[i].runs[k])
  {
    hide Execute, UpdateBoard, LocalStep, UpdateOne, Fares;
    TasksGrow(b, c, lease);
    if c.op.Update? {
      UpdateIsExecuted(b, c, lease);
      UpdateRows(b, c, lease, i);
      if i == c.op.task { UpdateFares(b, c, lease, i, k); } else { Unchanged(b, c, lease, i, k); }
    } else {
      StepRows(b, c, lease, i);
      if Local(c.op) && i == c.op.task { LocalFares(b, c, lease, i, k); } else { Unchanged(b, c, lease, i, k); }
    }
  }

  lemma Unchanged(b: Board, c: Call, lease: nat, i: nat, k: nat)
    requires Holds(b, i, k) && ((Local(c.op) || c.op.Update?) ==> c.op.task != i)
    ensures c.op.SweepRuns? ==> Fares(b, c, i, k, lease, SweptRun(b.tasks[i].runs[k], c.op.since))
    ensures !c.op.SweepRuns? ==> Fares(b, c, i, k, lease, b.tasks[i].runs[k])
  {
  }

  // ----- Over whole runs -----

  /** None of these calls, served in turn, commits one of the ways to end the run. */
  ghost predicate Spared(b: Board, calls: seq<Call>, lease: nat, i: nat, k: nat)
    decreases |calls|
  {
    calls != [] ==>
      && (Holds(b, i, k) && Serve(b, calls[0], lease).Committed? ==> !Ends(b, calls[0], i, k))
      && Spared(After(b, calls[0], lease), calls[1..], lease, i, k)
  }

  lemma {:induction false} HolderStays(m: Machine, calls: seq<Call>, lease: nat, i: nat, k: nat)
    requires Holds(m.board, i, k) && Spared(m.board, calls, lease, i, k)
    ensures var b := Play(m, calls, lease).board;
            Holds(b, i, k) && b.tasks[i].runs[k].agent == m.board.tasks[i].runs[k].agent
    decreases |calls|
  {
    hide Holds, Ends, After;
    if calls != [] {
      OneMoreStep(m.board, calls[0], lease, i, k);
      HolderStays(Step(m, calls[0], lease), calls[1..], lease, i, k);
    }
  }

  lemma OneMoreStep(b: Board, c: Call, lease: nat, i: nat, k: nat)
    requires Holds(b, i, k) && (Serve(b, c, lease).Committed? ==> !Ends(b, c, i, k))
    ensures Holds(After(b, c, lease), i, k)
    ensures After(b, c, lease).tasks[i].runs[k].agent == b.tasks[i].runs[k].agent
  {
    hide Execute, Ends;
    if Serve(b, c, lease).Committed? { HolderLosesIff(b, c, lease, i, k); }
  }

  /** Whatever else happens, a run that none of those steps ends goes on holding its task, alone: no claim of the task
      commits, and the second statement of no sweep in progress touches it. */
  lemma HolderIsSafe(m: Machine, calls: seq<Call>, lease: nat, i: nat, k: nat)
    requires LeaseInv(m) && Allowed(m, calls, lease)
    requires Holds(m.board, i, k) && Spared(m.board, calls, lease, i, k)
    ensures var m' := Play(m, calls, lease);
            var b := m'.board;
            && Holds(b, i, k) && b.tasks[i].runs[k].agent == m.board.tasks[i].runs[k].agent
            && b.tasks[i].status == Active
            && (forall j :: 0 <= j < |b.tasks[i].runs| && Holding(b.tasks[i].runs[j]) ==> j == k)
            && (forall c: Call :: c.op.Claim? && c.op.task == i ==> Execute(b, c, lease).Err?)
            && (forall s :: s in m'.sweeping ==> !Abandoned(b.tasks[i], s))
  {
    hide Execute;
    PlayKeepsLeaseInv(m, calls, lease);
    HolderStays(m, calls, lease, i, k);
    var m' := Play(m, calls, lease);
    assert LeaseOk(m'.board.tasks[i]) && Live(m'.board.tasks[i].runs[k]);
    forall c: Call | c.op.Claim? && c.op.task == i ensures Execute(m'.board, c, lease).Err? {
      ClaimLaw(m'.board, c, lease);
    }
    forall s | s in m'.sweeping ensures !Abandoned(m'.board.tasks[i], s) {
      assert AllHeldUntil(m'.board, s) && HeldUntil(m'.board.tasks[i], s);
    }
  }

  // ----- When the holder is gone -----

  /** Once every lease on an active task has lapsed, the two statements of a sweep make it stale, and then anyone
      admitted may claim it, unless it is a duplicate, waits for another task or is deferred. */
  lemma LapsedTaskIsClaimable(b: Board, runs: Call, tasks: Call, claim: Call, lease: nat, i: nat)
    requires i < |b.tasks| && b.tasks[i].status == Active
    requires exists k: nat :: Holds(b, i, k)
    requires runs.op.SweepRuns? && tasks.op == SweepTasks(runs.op.since)
    requires forall k: nat :: Holds(b, i, k) ==> b.tasks[i].runs[k].leaseExpires < runs.op.since
    requires claim.op == Claim(i, b.tasks[i].version + 1) && claim.admitted && claim.key == ""
    requires b.tasks[i].version >= 1 && b.tasks[i].duplicateOf == None && BlockersDone(b, i)
    requires b.tasks[i].deferUntil == None || b.tasks[i].deferUntil.value <= claim.at
    ensures var b2 := After(After(b, runs, lease), tasks, lease);
            var b3 := After(b2, claim, lease);
            && i < |b2.tasks| && b2.tasks[i].status == Stale && !Taken(b2.tasks[i])
            && i < |b3.tasks| && b3.tasks[i].status == Active && b3.tasks[i].owner == claim.actor
            && b3.tasks[i].runs ==
               b2.tasks[i].runs + [Run(claim.actor, Active, claim.at + lease, claim.at, claim.at, None)]
  {
    hide Execute;
    Unkeyed(b, runs, lease);
    SweepRunsLaw(b, runs, lease);
    var b1 := After(b, runs, lease);
    var k: nat :| Holds(b, i, k);
    assert b1.tasks[i].runs[k].status == Stale;
    Unkeyed(b1, tasks, lease);
    SweepTasksLaw(b1, tasks, lease);
    var b2 := After(b1, tasks, lease);
    assert Abandoned(b1.tasks[i], tasks.op.since);
    StillDone(b, b1, b2, i);
    Unkeyed(b2, claim, lease);
    ClaimLaw(b2, claim, lease);
  }

  lemma StillDone(b: Board, b1: Board, b2: Board, i: nat)
    requires BlockersDone(b, i) && b1.blockedBy == b.blockedBy && b2.blockedBy == b1.blockedBy
    requires |b.tasks| == |b1.tasks| == |b2.tasks|
    requires forall j :: 0 <= j < |b.tasks| && b.tasks[j].status == Done ==>
               b1.tasks[j].status == Done && b2.tasks[j].status == Done
    ensures BlockersDone(b2, i)
  {
  }

  lemma Unkeyed(b: Board, c: Call, lease: nat)
    requires c.key == "" || c.op.SweepRuns? || c.op.SweepTasks?
    ensures Execute(b, c, lease).Ok? ==> After(b, c, lease) == Execute(b, c, lease).value
    ensures Execute(b, c, lease).Err? ==> After(b, c, lease) == b
  {
  }
}
