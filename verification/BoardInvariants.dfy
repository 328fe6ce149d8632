/** The per-task invariants over every step of the board. */
module BoardInvariants {
  import opened Model
  import opened TaskSteps
  import opened Updates
  import opened Taskboard
  import opened TaskInvariants
  import opened Leases

  ghost predicate AllOk(b: Board) {
    forall i :: 0 <= i < |b.tasks| ==> TaskOk(b.tasks[i])
  }

  lemma SameCore(t: Task, t': Task)
    requires TaskOk(t)
    requires t'.status == t.status && t'.completedAt == t.completedAt && t'.blocker == t.blocker
              && t'.waitingFor == t.waitingFor
    requires t'.items == t.items && t'.itemsIssued == t.itemsIssued && t'.controls == t.controls
    ensures TaskOk(t')
  {
  }

  /** Update rewrites the named row, repoints links, and may append an occurrence. */
  lemma UpdateRows(b: Board, c: Call, lease: nat, i: nat)
    requires c.op.Update? && UpdateBoard(b, c, lease).Ok?
    requires i < |UpdateBoard(b, c, lease).value.tasks|
    ensures c.op.task < |b.tasks| && UpdateOne(b, c, lease).Ok? && ValidUpdate(c.op.update)
    ensures |b.tasks| <= |UpdateBoard(b, c, lease).value.tasks| <= |b.tasks| + 1
    ensures var t, t' := UpdateOne(b, c, lease).value, UpdateBoard(b, c, lease).value.tasks[i];
            if i == c.op.task then t' == t
            else if i < |b.tasks| then t' == b.tasks[i].(duplicateOf := t'.duplicateOf)
            else t' == NextOccurrence(t, t'.sortOrder, t.lastEditedBy, c.at)
  {
    hide UpdateOne, UpdateEvents, ValidUpdate;
    UpdateOneLinks(b, c, lease);
  }

  lemma UpdateOneLinks(b: Board, c: Call, lease: nat)
    requires c.op.Update? && UpdateOne(b, c, lease).Ok?
    ensures c.op.task < |b.tasks| && ValidUpdate(c.op.update)
    ensures Marks(c.op.update) ==>
              var link := UpdateOne(b, c, lease).value.duplicateOf;
              link.Some? && link.value != c.op.task && link.value < |b.tasks|
  {
    if Marks(c.op.update) {
      RootIsOther(b.tasks, c.op.update.duplicateOf.value.value, c.op.task, MAX_HOPS);
    }
  }

  lemma {:induction false} RootIsOther(tasks: seq<Task>, id: nat, task: nat, hops: nat)
    ensures ResolveRoot(tasks, id, task, hops).Ok? ==>
              var root := ResolveRoot(tasks, id, task, hops).value.0;
              root != task && root < |tasks| && tasks[root].duplicateOf.None?
    decreases hops
  {
    if hops != 0 && id != task && id < |tasks| && tasks[id].duplicateOf.Some? {
      RootIsOther(tasks, tasks[id].duplicateOf.value, task, hops - 1);
    }
  }

  /** What any other step leaves in row i. */
  lemma StepRows(b: Board, c: Call, lease: nat, i: nat)
    requires !c.op.Update? && Execute(b, c, lease).Ok? && i < |Execute(b, c, lease).value.tasks|
    ensures |b.tasks| <= |Execute(b, c, lease).value.tasks| <= |b.tasks| + 1
    ensures var t' := Execute(b, c, lease).value.tasks[i];
            if i >= |b.tasks| then
              || (c.op.Start? && c.op.start.checklist != []
                  && t' == StartedTask(c.op.start, t'.sortOrder, c.actor, c.at, lease))
              || (c.op.Create? && t' == QueuedTask(c.op.start, t'.sortOrder, c.actor, c.at))
              || (c.op.Fire? && t' == ScheduledTask(c.op.definition, c.op.schedule, t'.sortOrder, c.at))
            else if c.op.SweepRuns? then t' == SweepRunsOf(b.tasks[i], c.op.since)
            else if c.op.SweepTasks? then t' == SweepTaskOf(b.tasks[i], c.op.since)
            else if Local(c.op) && i == c.op.task then LocalStep(b.tasks[i], c, Unblocked(b, i), lease) == Ok(t')
            else SameButOrder(b.tasks[i], t')
  {
    hide StartBoard, CreateBoard, FireBoard, MoveBoard, BlockBoard, UnblockBoard, LocalBoard, SweepRunsOf, SweepTaskOf,
        StartedTask, QueuedTask, ScheduledTask;
    if c.op.Start? || c.op.Create? { NewRows(b, c, lease, i); }
    else if c.op.Fire? { FiredRows(b, c, i); }
    else if Local(c.op) { LocalRows(b, c, lease, i); }
    else if c.op.Move? || c.op.Block? || c.op.Unblock? { EditedRows(b, c, lease, i); }
  }

  lemma EditedRows(b: Board, c: Call, lease: nat, i: nat)
    requires c.op.Move? || c.op.Block? || c.op.Unblock?
    requires Execute(b, c, lease).Ok? && i < |Execute(b, c, lease).value.tasks|
    ensures |Execute(b, c, lease).value.tasks| == |b.tasks|
              && SameButOrder(b.tasks[i], Execute(b, c, lease).value.tasks[i])
  {
  }

  lemma NewRows(b: Board, c: Call, lease: nat, i: nat)
    requires c.op.Start? || c.op.Create?
    requires Execute(b, c, lease).Ok? && i < |Execute(b, c, lease).value.tasks|
    ensures |Execute(b, c, lease).value.tasks| == |b.tasks| + 1
    ensures var t' := Execute(b, c, lease).value.tasks[i];
            if i < |b.tasks| then t' == b.tasks[i]
            else if c.op.Start? then c.op.start.checklist != []
                && t' == StartedTask(c.op.start, t'.sortOrder, c.actor, c.at, lease)
            else t' == QueuedTask(c.op.start, t'.sortOrder, c.actor, c.at)
  {
    hide NextOrder, ValidStart;
  }

  lemma FiredRows(b: Board, c: Call, i: nat)
    requires c.op.Fire? && i < |FireBoard(b, c).tasks|
    ensures |b.tasks| <= |FireBoard(b, c).tasks| <= |b.tasks| + 1
    ensures var t' := FireBoard(b, c).tasks[i];
            if i < |b.tasks| then t' == b.tasks[i]
            else t' == ScheduledTask(c.op.definition, c.op.schedule, t'.sortOrder, c.at)
  {
    hide NextOrder, OpenOccurrence;
  }

  lemma LocalRows(b: Board, c: Call, lease: nat, i: nat)
    requires Local(c.op) && LocalBoard(b, c, lease).Ok? && i < |LocalBoard(b, c, lease).value.tasks|
    ensures var tasks' := LocalBoard(b, c, lease).value.tasks;
            && |tasks'| == |b.tasks|
            && if i == c.op.task then LocalStep(b.tasks[i], c, Unblocked(b, i), lease) == Ok(tasks'[i])
               else tasks'[i] == b.tasks[i]
  {
    hide LocalStep, Unblocked;
  }

  lemma TasksGrow(b: Board, c: Call, lease: nat)
    requires Execute(b, c, lease).Ok?
    ensures |b.tasks| <= |Execute(b, c, lease).value.tasks|
  {
    hide LocalStep, UpdateOne, StartedTask, QueuedTask, ScheduledTask, NextOccurrence, NextOrder, OpenOccurrence,
        ValidStart, ValidUpdate;
    if c.op.Update? && UpdateOne(b, c, lease).Ok? { UpdateOneLinks(b, c, lease); }
  }

  ghost predicate SameButOrder(t: Task, t': Task) {
    t' == t.(sortOrder := t'.sortOrder, version := t'.version, updatedAt := t'.updatedAt,
        lastEditedBy := t'.lastEditedBy)
  }

  lemma ExecuteKeepsTasks(b: Board, c: Call, lease: nat)
    requires AllOk(b) && Execute(b, c, lease).Ok?
    ensures AllOk(Execute(b, c, lease).value)
  {
    hide TaskOk, Execute, LocalStep, UpdateBoard;
    var b' := Execute(b, c, lease).value;
    forall i | 0 <= i < |b'.tasks| ensures TaskOk(b'.tasks[i]) {
      if c.op.Update? {
        UpdateIsExecuted(b, c, lease);
        UpdateKeepsTask(b, c, lease, i);
      } else {
        StepRows(b, c, lease, i);
        if i == |b.tasks| {
          if c.op.Fire? { ScheduledTaskOk(c.op.definition, c.op.schedule, b'.tasks[i].sortOrder, c.at); }
          else { NewTaskOk(c.op.start, b'.tasks[i].sortOrder, c.actor, c.at, lease); }
        } else if c.op.SweepRuns? || c.op.SweepTasks? {
          SweepKeeps(b.tasks[i], c.op.since);
        } else if Local(c.op) && i == c.op.task {
          LocalKeeps(b.tasks[i], c, Unblocked(b, i), lease);
        } else {
          SameCore(b.tasks[i], b'.tasks[i]);
        }
      }
    }
  }

  lemma UpdateIsExecuted(b: Board, c: Call, lease: nat)
    requires c.op.Update?
    ensures Execute(b, c, lease) == UpdateBoard(b, c, lease)
  {
  }

  lemma UpdateKeepsTask(b: Board, c: Call, lease: nat, i: nat)
    requires AllOk(b) && c.op.Update? && UpdateBoard(b, c, lease).Ok? && i < |UpdateBoard(b, c, lease).value.tasks|
    ensures TaskOk(UpdateBoard(b, c, lease).value.tasks[i])
  {
    hide TaskOk, UpdateBoard;
    UpdateRows(b, c, lease, i);
    var t, req := b.tasks[c.op.task], c.op.update;
    var t' := UpdateBoard(b, c, lease).value.tasks[i];
    if i == c.op.task {
      hide UpdateTask;
      UpdateKeeps(t, c.at, c.actor, req, Kept(b.tasks, i, req), NextOrder(b.tasks, UpdatedSection(t, req)),
          Unblocked(b, i), lease);
    } else if i < |b.tasks| {
      SameCore(b.tasks[i], t');
    } else {
      var u := UpdateOne(b, c, lease).value;
      OccurrenceOk(u, t'.sortOrder, u.lastEditedBy, c.at);
    }
  }

  /** Apart from Update and Move, a step keeps where a task is filed and linked, and finishes no task. */
  lemma StepKeepsFrame(b: Board, c: Call, lease: nat, i: nat)
    requires !c.op.Update? && Execute(b, c, lease).Ok? && i < |Execute(b, c, lease).value.tasks|
    ensures var t' := Execute(b, c, lease).value.tasks[i];
            && |b.tasks| <= |Execute(b, c, lease).value.tasks| <= |b.tasks| + 1
            && (if i < |b.tasks|
                then t'.duplicateOf == b.tasks[i].duplicateOf && t'.section == b.tasks[i].section
                    && (t'.status == Done ==> b.tasks[i].status == Done)
                else t'.duplicateOf.None? && t'.status != Done)
  {
    hide Execute, LocalStep;
    StepRows(b, c, lease, i);
    if i < |b.tasks| && Local(c.op) && i == c.op.task {
      LocalFrame(b.tasks[i], c, Unblocked(b, i), lease);
    }
  }

  // ----- Leases -----

  ghost predicate AllLeaseOk(b: Board) {
    forall i :: 0 <= i < |b.tasks| ==> LeaseOk(b.tasks[i])
  }

  ghost predicate AllHeldUntil(b: Board, since: int) {
    forall i :: 0 <= i < |b.tasks| ==> HeldUntil(b.tasks[i], since)
  }

  /** The updates the lease protocol allows on this board. */
  predicate SafeCall(b: Board, c: Call) {
    c.op.Update? && c.op.task < |b.tasks| ==> LeaseSafe(b.tasks[c.op.task], c.op.update)
  }

  lemma SameHolder(t: Task, t': Task, since: int)
    requires t'.status == t.status && t'.runs == t.runs && t'.escalations == t.escalations
    ensures LeaseOk(t') == LeaseOk(t) && HeldUntil(t', since) == HeldUntil(t, since)
  {
  }

  lemma NewlyHeld(t: Task, since: int)
    requires t.escalations == [] && (t.runs == []
              || (|t.runs| == 1 && t.status == Active && t.runs[0].leaseExpires >= since))
    ensures LeaseOk(t) && HeldUntil(t, since)
  {
  }

  lemma ExecuteKeepsLease(b: Board, c: Call, lease: nat)
    requires AllLeaseOk(b) && SafeCall(b, c) && Execute(b, c, lease).Ok?
    requires c.op.SweepTasks? ==> AllHeldUntil(b, c.op.since)
    ensures AllLeaseOk(Execute(b, c, lease).value)
  {
    hide LeaseOk, HeldUntil, Execute, LocalStep, UpdateBoard, SweepTaskOf;
    var b' := Execute(b, c, lease).value;
    forall i | 0 <= i < |b'.tasks| ensures LeaseOk(b'.tasks[i]) {
      if c.op.Update? {
        UpdateIsExecuted(b, c, lease);
        UpdateKeepsLease(b, c, lease, i);
      } else {
        StepRows(b, c, lease, i);
        if i == |b.tasks| {
          NewlyHeld(b'.tasks[i], c.at);
        } else if c.op.SweepRuns? {
          SweepRunsHeld(b.tasks[i], c.op.since);
        } else if c.op.SweepTasks? {
          SweepTaskSparesHeld(b.tasks[i], c.op.since);
        } else if Local(c.op) && i == c.op.task {
          LocalLease(b.tasks[i], c, Unblocked(b, i), lease);
        } else {
          SameHolder(b.tasks[i], b'.tasks[i], c.at);
        }
      }
    }
  }

  lemma UpdateKeepsLease(b: Board, c: Call, lease: nat, i: nat)
    requires AllLeaseOk(b) && SafeCall(b, c)
    requires c.op.Update? && UpdateBoard(b, c, lease).Ok? && i < |UpdateBoard(b, c, lease).value.tasks|
    ensures LeaseOk(UpdateBoard(b, c, lease).value.tasks[i])
  {
    hide LeaseOk, UpdateBoard, LeaseSafe;
    UpdateRows(b, c, lease, i);
    var t, req := b.tasks[c.op.task], c.op.update;
    var t' := UpdateBoard(b, c, lease).value.tasks[i];
    if i == c.op.task {
      hide UpdateTask;
      UpdateLeaseExact(t, c.at, c.actor, req, Kept(b.tasks, i, req), NextOrder(b.tasks, UpdatedSection(t, req)),
          Unblocked(b, i), lease);
    } else if i < |b.tasks| {
      SameHolder(b.tasks[i], t', c.at);
    } else {
      NewlyHeld(t', c.at);
    }
  }

  /** Live leases keep outlasting a time that has passed, whatever runs next. */
  lemma ExecuteKeepsHeld(b: Board, c: Call, lease: nat, since: int)
    requires AllHeldUntil(b, since) && since <= c.at && Execute(b, c, lease).Ok?
    ensures AllHeldUntil(Execute(b, c, lease).value, since)
  {
    hide HeldUntil, Execute, LocalStep, UpdateBoard, SweepTaskOf;
    var b' := Execute(b, c, lease).value;
    forall i | 0 <= i < |b'.tasks| ensures HeldUntil(b'.tasks[i], since) {
      if c.op.Update? {
        UpdateIsExecuted(b, c, lease);
        UpdateKeepsHeld(b, c, lease, since, i);
      } else {
        StepRows(b, c, lease, i);
        if i == |b.tasks| {
          NewlyHeld(b'.tasks[i], since);
        } else if c.op.SweepRuns? {
          SweepRunsKeepsHeld(b.tasks[i], c.op.since, since);
        } else if c.op.SweepTasks? {
          SweepTaskKeepsHeld(b.tasks[i], c.op.since, since);
        } else if Local(c.op) && i == c.op.task {
          LocalHeld(b.tasks[i], c, Unblocked(b, i), lease, since);
        } else {
          SameHolder(b.tasks[i], b'.tasks[i], since);
        }
      }
    }
  }

  lemma UpdateKeepsHeld(b: Board, c: Call, lease: nat, since: int, i: nat)
    requires AllHeldUntil(b, since) && since <= c.at
    requires c.op.Update? && UpdateBoard(b, c, lease).Ok? && i < |UpdateBoard(b, c, lease).value.tasks|
    ensures HeldUntil(UpdateBoard(b, c, lease).value.tasks[i], since)
  {
    hide HeldUntil, UpdateBoard;
    UpdateRows(b, c, lease, i);
    var t, req := b.tasks[c.op.task], c.op.update;
    var t' := UpdateBoard(b, c, lease).value.tasks[i];
    if i == c.op.task {
      hide UpdateTask;
      UpdateHeld(t, c.at, c.actor, req, Kept(b.tasks, i, req), NextOrder(b.tasks, UpdatedSection(t, req)),
          Unblocked(b, i), lease, since);
    } else if i < |b.tasks| {
      SameHolder(b.tasks[i], t', since);
    } else {
      NewlyHeld(t', since);
    }
  }
}
