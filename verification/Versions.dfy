/** Optimistic versions: which steps raise a task's version, and by how much. */
module Versions {
  import opened Model
  import opened TaskSteps
  import opened Taskboard
  import opened TaskInvariants
  import opened BoardInvariants

  /** A committed call raises the version of task i. */
  ghost predicate Bumps(b: Board, c: Call, i: nat) {
    i < |b.tasks| &&
    if c.op.SweepTasks? then GoesStale(b.tasks[i], c.op.since)
    else if Local(c.op) then i == c.op.task && BumpsLocal(b.tasks[i], c.op)
    else if c.op.Move? then i == c.op.task && NeighbourOf(b.tasks, i, c.op.up).Some?
    else (c.op.Update? || c.op.Block? || c.op.Unblock?) && i == c.op.task
  }

  /** Versions start at 1 and rise by exactly one, exactly at the bumping steps. */
  lemma VersionStep(b: Board, c: Call, lease: nat, i: nat)
    requires Execute(b, c, lease).Ok? && i < |Execute(b, c, lease).value.tasks|
    ensures |b.tasks| <= |Execute(b, c, lease).value.tasks|
    ensures Execute(b, c, lease).value.tasks[i].version ==
            if i < |b.tasks| then b.tasks[i].version + (if Bumps(b, c, i) then 1 else 0) else 1
  {
    hide Execute, LocalStep, UpdateBoard;
    if c.op.Update? {
      UpdateIsExecuted(b, c, lease);
      UpdateRows(b, c, lease, i);
    } else {
      StepRows(b, c, lease, i);
      if i < |b.tasks| && !c.op.SweepRuns? && !c.op.SweepTasks? {
        if Local(c.op) && i == c.op.task { LocalFrame(b.tasks[i], c, Unblocked(b, i), lease); }
        else { OtherVersions(b, c, lease, i); }
      }
    }
  }

  lemma OtherVersions(b: Board, c: Call, lease: nat, i: nat)
    requires Execute(b, c, lease).Ok? && i < |b.tasks| && !c.op.Update? && !c.op.SweepRuns? && !c.op.SweepTasks?
    requires Local(c.op) ==> i != c.op.task
    ensures i < |Execute(b, c, lease).value.tasks|
    ensures Execute(b, c, lease).value.tasks[i].version == b.tasks[i].version + if Bumps(b, c, i) then 1 else 0
  {
    hide LocalStep, BumpsLocal;
  }

  /** The version a write was based on. */
  predicate Expects(op: Op, i: nat, version: int) {
    match op
    case Claim(task, expected) => task == i && expected == version
    case Update(task, update) => task == i && update.expected == version
    case Escalate(task, _, _, _, _, _, _, _, expected) => task == i && expected == version
    case Resolve(task, _, _, _, expected) => task == i && expected == version
    case AnswerControl(task, _, status, _, expected) => task == i && status == Completed && expected == version
    case Requeue(task, _, _, expected) => task == i && expected == version
    case Require(task, _, expected) => task == i && expected == version
    case Review(task, _, _, expected) => task == i && expected == version
    case Touch(task, expected) => task == i && expected == version
    case Rename(task, _, expected) => task == i && expected == version
    case Move(task, _, expected) => task == i && expected == version
    case Block(task, _, expected) => task == i && expected == version
    case Unblock(task, _, expected) => task == i && expected == version
    case _ => false
  }

  /** A write commits only on the version it was based on. */
  lemma CommitNeedsVersion(b: Board, c: Call, lease: nat, i: nat, version: int)
    requires Expects(c.op, i, version) && Execute(b, c, lease).Ok?
    ensures i < |b.tasks| && b.tasks[i].version == version
  {
    if Local(c.op) {
      LocalNeedsVersion(b.tasks[i], c, Unblocked(b, i), lease, i, version);
    }
  }

  lemma LocalNeedsVersion(t: Task, c: Call, unblocked: bool, lease: nat, i: nat, version: int)
    requires Local(c.op) && Expects(c.op, i, version) && LocalStep(t, c, unblocked, lease).Ok?
    ensures t.version == version
  {
  }
}
