/** What every transaction keeps of the task it writes. */
module TaskInvariants {
  import opened Model
  import opened TaskSteps
  import opened Updates
  import Checklist
  import Taskboard

  /** completed_at, blocker and waiting_for agree with the status. */
  ghost predicate Coherent(t: Task) {
    && (t.completedAt.Some? <==> Terminal(t.status))
    && (t.blocker != "" ==> t.status == Blocked)
    && (t.waitingFor != "" ==> t.status == Waiting)
  }

  /** The checklist is ordered, has one active item at most, and is finished when the task is done. */
  ghost predicate ListOk(t: Task) {
    && Checklist.WellFormed(t.items, t.itemsIssued)
    && (t.status == Done ==> forall i :: 0 <= i < |t.items| ==> !Checklist.OpenRequired(t.items[i]))
  }

  /** At most one open control per run and kind. */
  ghost predicate ControlsOk(t: Task) {
    forall i, j :: 0 <= i < j < |t.controls| && OpenControl(t.controls[i].status) && OpenControl(t.controls[j].status)
      ==> t.controls[i].run != t.controls[j].run || t.controls[i].kind != t.controls[j].kind
  }

  ghost predicate TaskOk(t: Task) {
    Coherent(t) && ListOk(t) && ControlsOk(t)
  }

  // ----- Status coherence -----

  lemma LocalCoherent(t: Task, c: Call, unblocked: bool, lease: nat)
    requires Local(c.op) && Coherent(t) && LocalStep(t, c, unblocked, lease).Ok?
    ensures Coherent(LocalStep(t, c, unblocked, lease).value)
  {
  }

  lemma UpdateCoherent(t: Task, at: int, actor: string, req: UpdateRequest,
          kept: Result<Option<(nat, string)>>, order: int, unblocked: bool, lease: nat)
    requires Coherent(t) && UpdateTask(t, at, actor, req, kept, order, unblocked, lease).Ok?
    ensures Coherent(UpdateTask(t, at, actor, req, kept, order, unblocked, lease).value)
  {
  }

  // ----- Checklist -----

  lemma LocalList(t: Task, c: Call, unblocked: bool, lease: nat)
    requires Local(c.op) && ListOk(t) && LocalStep(t, c, unblocked, lease).Ok?
    ensures ListOk(LocalStep(t, c, unblocked, lease).value)
  {
    hide Checklist.WellFormed;
    Checklist.ActivateFirstKeeps(t.items, t.itemsIssued);
  }

  lemma UpdateList(t: Task, at: int, actor: string, req: UpdateRequest, kept: Result<Option<(nat, string)>>,
          order: int, unblocked: bool, lease: nat)
    requires ListOk(t) && UpdateTask(t, at, actor, req, kept, order, unblocked, lease).Ok?
    ensures ListOk(UpdateTask(t, at, actor, req, kept, order, unblocked, lease).value)
  {
    hide Checklist.WellFormed;
    Checklist.EditKeeps(t.items, t.itemsIssued, req);
    var edited := Checklist.Edit(t.items, t.itemsIssued, req).value;
    Checklist.ActivateFirstKeeps(edited.0, edited.1);
  }

  // ----- Controls -----

  /** Rewriting one control with another of the same run and kind, or a closed one, opens nothing twice. */
  lemma ReplaceControl(t: Task, i: nat, c: Control, t': Task)
    requires ControlsOk(t) && i < |t.controls| && t'.controls == t.controls[i := c]
    requires OpenControl(c.status) ==>
               OpenControl(t.controls[i].status) && c.run == t.controls[i].run && c.kind == t.controls[i].kind
    ensures ControlsOk(t')
  {
  }

  lemma AppendControl(t: Task, c: Control, t': Task)
    requires ControlsOk(t) && t'.controls == t.controls + [c]
    requires OpenControl(c.status) ==> LastOpen(t.controls, c.run, c.kind).None?
    ensures ControlsOk(t')
  {
  }

  lemma LocalControls(t: Task, c: Call, unblocked: bool, lease: nat)
    requires Local(c.op) && ControlsOk(t) && LocalStep(t, c, unblocked, lease).Ok?
    ensures ControlsOk(LocalStep(t, c, unblocked, lease).value)
  {
    hide ControlsOk;
    var t' := LocalStep(t, c, unblocked, lease).value;
    if c.op.RequestControl? {
      AppendControl(t, t'.controls[|t.controls|], t');
    } else if c.op.AnswerControl? || c.op.ExpireControl? {
      ReplaceControl(t, c.op.control, t'.controls[c.op.control], t');
    } else if c.op.Requeue? {
      var open := LastOpen(t.controls, c.op.run, RequeueKind(t));
      if open.Some? {
        ReplaceControl(t, open.value, t'.controls[open.value], t');
      } else {
        AppendControl(t, t'.controls[|t.controls|], t');
      }
    } else {
      SameControls(t, t');
    }
  }

  lemma SameControls(t: Task, t': Task)
    requires ControlsOk(t) && t'.controls == t.controls
    ensures ControlsOk(t')
  {
  }

  // ----- All three -----

  lemma LocalKeeps(t: Task, c: Call, unblocked: bool, lease: nat)
    requires Local(c.op) && TaskOk(t) && LocalStep(t, c, unblocked, lease).Ok?
    ensures TaskOk(LocalStep(t, c, unblocked, lease).value)
  {
    hide LocalStep, Coherent, ListOk, ControlsOk;
    LocalCoherent(t, c, unblocked, lease);
    LocalList(t, c, unblocked, lease);
    LocalControls(t, c, unblocked, lease);
  }

  lemma UpdateKeeps(t: Task, at: int, actor: string, req: UpdateRequest, kept: Result<Option<(nat, string)>>,
          order: int, unblocked: bool, lease: nat)
    requires TaskOk(t) && UpdateTask(t, at, actor, req, kept, order, unblocked, lease).Ok?
    ensures TaskOk(UpdateTask(t, at, actor, req, kept, order, unblocked, lease).value)
  {
    UpdateCoherent(t, at, actor, req, kept, order, unblocked, lease);
    UpdateList(t, at, actor, req, kept, order, unblocked, lease);
  }

  lemma SweepKeeps(t: Task, since: int)
    requires TaskOk(t)
    ensures TaskOk(SweepRunsOf(t, since)) && TaskOk(SweepTaskOf(t, since))
  {
  }

  lemma NewTaskOk(s: StartRequest, order: int, actor: string, at: int, lease: nat)
    ensures TaskOk(QueuedTask(s, order, actor, at))
    ensures s.checklist != [] ==> TaskOk(StartedTask(s, order, actor, at, lease))
  {
  }

  lemma ScheduledTaskOk(d: Definition, schedule: nat, order: int, at: int)
    ensures TaskOk(ScheduledTask(d, schedule, order, at))
  {
  }

  lemma OccurrenceOk(t: Task, order: int, editor: string, at: int)
    ensures TaskOk(Taskboard.NextOccurrence(t, order, editor, at))
  {
  }

  // ----- What a step inside one task leaves alone -----

  /** Local steps that raise the task's version. */
  predicate BumpsLocal(t: Task, op: Op)
    requires Local(op)
  {
    match op
    case Heartbeat(_, _) => false
    case RequestControl(_, _, _, _, _) => false
    case ExpireControl(_, _) => false
    case Escalate(_, _, _, _, blocking, _, _, _, _) => blocking
    case Resolve(_, escalation, _, _, _) => escalation < |t.escalations| && t.escalations[escalation].blocking
    case AnswerControl(_, _, status, _, _) => status == Completed
    case _ => true
  }

  lemma LocalFrame(t: Task, c: Call, unblocked: bool, lease: nat)
    requires Local(c.op) && LocalStep(t, c, unblocked, lease).Ok?
    ensures var t' := LocalStep(t, c, unblocked, lease).value;
            && t'.section == t.section && t'.sortOrder == t.sortOrder
            && t'.duplicateOf == t.duplicateOf && t'.scheduleId == t.scheduleId
            && (t'.status == Done ==> t.status == Done)
            && t'.version == t.version + if BumpsLocal(t, c.op) then 1 else 0
  {
  }
}
