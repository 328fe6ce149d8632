/** Occurrences of schedules on the board: which steps can bring a closed one back, and when two can be open. */
module Occurrences {
  import opened Model
  import opened TaskSteps
  import opened Updates
  import opened Taskboard
  import opened Requests
  import opened TaskInvariants
  import opened BoardInvariants

  /** The two ways back from done or cancelled: an update to another status, and a completed
      retry control on a cancelled task. */
  predicate Reopens(b: Board, c: Call, i: nat) {
    && i < |b.tasks|
    && (if c.op.Update? then c.op.task == i && !Terminal(NewStatus(b.tasks[i], c.op.update))
        else c.op.AnswerControl? && c.op.task == i && CompletesRetry(b.tasks[i], c.op))
  }

  predicate CompletesRetry(t: Task, op: Op)
    requires op.AnswerControl?
  {
    op.answerStatus == Completed && t.status == Cancelled && op.control < |t.controls|
        && t.controls[op.control].kind == Retry
  }

  lemma LocalReopens(t: Task, c: Call, unblocked: bool, lease: nat)
    requires Local(c.op) && LocalStep(t, c, unblocked, lease).Ok? && Terminal(t.status)
    ensures !Terminal(LocalStep(t, c, unblocked, lease).value.status) <==>
            c.op.AnswerControl? && CompletesRetry(t, c.op)
  {
  }

  /** These are all: no other committed step takes a task out of done or cancelled, and each of these does. */
  lemma ReopeningSteps(b: Board, c: Call, lease: nat, i: nat)
    requires Execute(b, c, lease).Ok? && i < |b.tasks| && Terminal(b.tasks[i].status)
    ensures i < |Execute(b, c, lease).value.tasks|
    ensures !Terminal(Execute(b, c, lease).value.tasks[i].status) <==> Reopens(b, c, i)
  {
    hide Execute, LocalStep, UpdateBoard;
    TasksGrow(b, c, lease);
    if c.op.Update? {
      UpdateIsExecuted(b, c, lease);
      UpdateRows(b, c, lease, i);
      if i == c.op.task { UpdateOneStatus(b, c, lease); }
    } else {
      StepRows(b, c, lease, i);
      if Local(c.op) && i == c.op.task { LocalReopens(b.tasks[i], c, Unblocked(b, i), lease); }
    }
  }

  lemma UpdateOneStatus(b: Board, c: Call, lease: nat)
    requires c.op.Update? && UpdateOne(b, c, lease).Ok?
    ensures c.op.task < |b.tasks|
    ensures UpdateOne(b, c, lease).value.status == NewStatus(b.tasks[c.op.task], c.op.update)
    ensures UpdateOne(b, c, lease).value.scheduleId == b.tasks[c.op.task].scheduleId
  {
  }

  /** Which schedule a task belongs to is settled when the task is created. */
  lemma ScheduleStays(b: Board, c: Call, lease: nat, i: nat)
    requires Execute(b, c, lease).Ok? && i < |Execute(b, c, lease).value.tasks|
    ensures Execute(b, c, lease).value.tasks[i].scheduleId ==
            if i < |b.tasks| then b.tasks[i].scheduleId else if c.op.Fire? then Some(c.op.schedule) else None
  {
    hide Execute, LocalStep, UpdateBoard;
    if c.op.Update? {
      UpdateIsExecuted(b, c, lease);
      UpdateRows(b, c, lease, i);
      UpdateOneStatus(b, c, lease);
    } else {
      StepRows(b, c, lease, i);
      if i < |b.tasks| && Local(c.op) && i == c.op.task { LocalFrame(b.tasks[i], c, Unblocked(b, i), lease); }
    }
  }

  // ----- At most one open occurrence -----

  ghost predicate AtMostOneOpen(tasks: seq<Task>, id: nat) {
    forall i, j :: 0 <= i < j < |tasks| ==> !(IsOpenOccurrence(tasks[i], id) && IsOpenOccurrence(tasks[j], id))
  }

  /** The call brings a closed occurrence of this schedule back. */
  predicate ReopensOccurrence(b: Board, c: Call, id: nat) {
    exists i :: 0 <= i < |b.tasks| && b.tasks[i].scheduleId == Some(id) && Terminal(b.tasks[i].status)
        && Reopens(b, c, i)
  }

  /** A step that neither fires this schedule nor reopens one of its occurrences opens none. */
  lemma OnlyReopeningOpens(b: Board, c: Call, lease: nat, id: nat, i: nat)
    requires Execute(b, c, lease).Ok? && i < |Execute(b, c, lease).value.tasks|
    requires !(c.op.Fire? && c.op.schedule == id) && !ReopensOccurrence(b, c, id)
    requires IsOpenOccurrence(Execute(b, c, lease).value.tasks[i], id)
    ensures i < |b.tasks| && IsOpenOccurrence(b.tasks[i], id)
  {
    hide Execute, Reopens;
    ScheduleStays(b, c, lease, i);
    if i < |b.tasks| && Terminal(b.tasks[i].status) { ReopeningSteps(b, c, lease, i); }
  }

  /** With overlaps skipped, firing opens an occurrence only when none is open. */
  lemma SkippingKeepsOneOpen(b: Board, c: Call, id: nat)
    requires c.op.Fire? && (c.op.schedule == id ==> c.op.skip) && AtMostOneOpen(b.tasks, id)
    ensures AtMostOneOpen(FireBoard(b, c).tasks, id)
  {
    hide NextOrder;
  }

  /** Every served call keeps at most one occurrence of the schedule open, unless it fires with
      overlaps allowed or reopens one. */
  lemma ServeKeepsOneOpen(b: Board, c: Call, lease: nat, id: nat)
    requires AtMostOneOpen(b.tasks, id) && !ReopensOccurrence(b, c, id)
    requires c.op.Fire? && c.op.schedule == id ==> c.op.skip
    ensures AtMostOneOpen(After(b, c, lease).tasks, id)
  {
    hide Execute, After, ReopensOccurrence, IsOpenOccurrence;
    OnlyExecution(b, c, lease);
    if Execute(b, c, lease).Ok? {
      if c.op.Fire? {
        FireIsExecuted(b, c, lease);
        SkippingKeepsOneOpen(b, c, id);
      } else {
        var tasks' := Execute(b, c, lease).value.tasks;
        forall i | 0 <= i < |tasks'| && IsOpenOccurrence(tasks'[i], id) ensures i < |b.tasks|
            && IsOpenOccurrence(b.tasks[i], id) {
          OnlyReopeningOpens(b, c, lease, id, i);
        }
      }
    }
  }

  lemma FireIsExecuted(b: Board, c: Call, lease: nat)
    requires c.op.Fire?
    ensures Execute(b, c, lease) == Ok(FireBoard(b, c)) && After(b, c, lease) == FireBoard(b, c)
  {
  }
}
