/** Run controls over whole runs: their life only runs down, and each acts at most once. */
module Controls {
  import opened Model
  import opened TaskSteps
  import opened Taskboard
  import opened Requests
  import opened BoardInvariants
  import opened Runs

  function Rank(s: ControlStatus): nat {
    match s
    case Requested => 3
    case Acknowledged => 2
    case Accepted => 1
    case _ => 0
  }

  /** The control a step is about: the one requested, answered or expired, or the one
      review-and-requeue completes or records. */
  predicate Addresses(t: Task, op: Op, k: nat) {
    match op
    case RequestControl(_, _, _, _, _) => k == |t.controls|
    case AnswerControl(_, control, _, _, _) => k == control
    case ExpireControl(_, control) => k == control
    case Requeue(_, run, _, _) =>
      var open := LastOpen(t.controls, run, RequeueKind(t));
      k == if open.Some? then open.value else |t.controls|
    case _ => false
  }

  /** The step about control k changes more of the task than its controls. */
  predicate TakesEffect(t: Task, t': Task, op: Op, k: nat) {
    Addresses(t, op, k) && t' != t.(controls := t'.controls)
  }

  /** What each kind of control does to the task and to its run. */
  ghost predicate Effect(t: Task, t': Task, c: Control) {
    && c.run < |t.runs| == |t'.runs|
    && t'.version == t.version + 1
    && t'.runs[c.run].endedAt.Some?
    && (forall i :: 0 <= i < |t.runs| && i != c.run ==> t'.runs[i] == t.runs[i])
    && match c.kind
       case Pause => t.status == Active && Live(t.runs[c.run]) && t'.status == Waiting
           && t'.runs[c.run].status == Waiting
       case Cancel => t.status == Active && Live(t.runs[c.run]) && t'.status == Cancelled
           && t'.runs[c.run].status == Cancelled
       case Resume => (t.status == Waiting || t.status == Blocked) && t'.status == Queued
       case Retry => (t.status == Stale || t.status == Cancelled) && t'.status == Queued
  }

  predicate IsCompleted(t: Task, k: nat) {
    k < |t.controls| && t.controls[k].status == Completed
  }

  /** A control's target never changes and its status only moves down in rank, with a note of the outcome. */
  ghost predicate Ages(c: Control, c': Control) {
    c' == c || (c' == c.(status := c'.status, outcome := c'.outcome) && Rank(c'.status) < Rank(c.status))
  }

  /** What one step makes of control k, given what it did to the list. */
  ghost predicate AgesTo(t: Task, t': Task, op: Op, k: nat) {
    && |t.controls| <= |t'.controls|
    && (k < |t.controls| ==> Ages(t.controls[k], t'.controls[k]))
    && (IsCompleted(t', k) <==> IsCompleted(t, k) || TakesEffect(t, t', op, k))
    && !(IsCompleted(t, k) && TakesEffect(t, t', op, k))
    && (TakesEffect(t, t', op, k) ==> k < |t'.controls| && Effect(t, t', t'.controls[k]))
  }

  lemma CompletionHasEffect(t: Task, at: int, agent: string, op: Op)
    requires op.AnswerControl? && op.answerStatus == Completed && AnswerControlTask(t, at, agent, op).Ok?
    ensures var c := t.controls[op.control].(status := Completed, outcome := op.note);
            var t' := AnswerControlTask(t, at, agent, op).value;
            t'.controls == t.controls[op.control := c] && Effect(t, t', c)
  {
  }

  lemma AnswerAges(t: Task, at: int, agent: string, op: Op, k: nat)
    requires op.AnswerControl? && AnswerControlTask(t, at, agent, op).Ok?
    ensures AgesTo(t, AnswerControlTask(t, at, agent, op).value, op, k)
  {
    hide CompleteControl, Effect;
    if op.answerStatus == Completed {
      CompletionHasEffect(t, at, agent, op);
    }
  }

  lemma RequeueAges(t: Task, at: int, person: string, op: Op, k: nat)
    requires op.Requeue? && RequeueTask(t, at, person, op).Ok?
    ensures AgesTo(t, RequeueTask(t, at, person, op).value, op, k)
  {
  }

  lemma LocalAges(t: Task, c: Call, unblocked: bool, lease: nat, k: nat)
    requires Local(c.op) && LocalStep(t, c, unblocked, lease).Ok?
    ensures AgesTo(t, LocalStep(t, c, unblocked, lease).value, c.op, k)
  {
    if c.op.AnswerControl? {
      AnswerAges(t, c.at, c.actor, c.op, k);
    } else if c.op.Requeue? {
      RequeueAges(t, c.at, c.actor, c.op, k);
    } else {
      hide AnswerControlTask, RequeueTask;
    }
  }

  predicate IsControlStep(op: Op) {
    op.RequestControl? || op.AnswerControl? || op.ExpireControl? || op.Requeue?
  }

  /** A control step touches more than the controls exactly when it completes one: every other
      one waits quietly, and completing always takes effect. */
  lemma EffectOnlyOnCompletion(t: Task, c: Call, unblocked: bool, lease: nat)
    requires IsControlStep(c.op) && LocalStep(t, c, unblocked, lease).Ok?
    ensures var t' := LocalStep(t, c, unblocked, lease).value;
            t' != t.(controls := t'.controls) <==>
            c.op.Requeue? || (c.op.AnswerControl? && c.op.answerStatus == Completed)
  {
  }

  // ----- One step of the board -----

  /** The control takes effect in this step. */
  ghost predicate EffectNow(b: Board, c: Call, lease: nat, i: nat, k: nat) {
    && Serve(b, c, lease).Committed? && Local(c.op) && c.op.task == i && i < |b.tasks|
    && i < |After(b, c, lease).tasks| && TakesEffect(b.tasks[i], After(b, c, lease).tasks[i], c.op, k)
  }

  ghost predicate CompletedOn(b: Board, i: nat, k: nat) {
    i < |b.tasks| && IsCompleted(b.tasks[i], k)
  }

  ghost predicate HasControl(b: Board, i: nat, k: nat) {
    i < |b.tasks| && k < |b.tasks[i].controls|
  }

  lemma StepAges(b: Board, c: Call, lease: nat, i: nat, k: nat)
    ensures HasControl(b, i, k) ==>
              && HasControl(After(b, c, lease), i, k)
              && Ages(b.tasks[i].controls[k], After(b, c, lease).tasks[i].controls[k])
    ensures CompletedOn(After(b, c, lease), i, k) <==> CompletedOn(b, i, k) || EffectNow(b, c, lease, i, k)
    ensures !(CompletedOn(b, i, k) && EffectNow(b, c, lease, i, k))
    ensures EffectNow(b, c, lease, i, k) ==>
              && HasControl(After(b, c, lease), i, k)
              && Effect(b.tasks[i], After(b, c, lease).tasks[i], After(b, c, lease).tasks[i].controls[k])
  {
    hide Execute, LocalStep, UpdateBoard, TakesEffect, Effect, Ages, IsCompleted;
    VersionAfter(b, c, lease, i);
    if Serve(b, c, lease).Committed? && i < |After(b, c, lease).tasks| {
      if c.op.Update? {
        UpdateIsExecuted(b, c, lease);
        UpdateRows(b, c, lease, i);
        UpdateLeavesControls(b, c, lease, i, k);
      } else {
        StepRows(b, c, lease, i);
        if i < |b.tasks| && Local(c.op) && i == c.op.task {
          LocalAges(b.tasks[i], c, Unblocked(b, i), lease, k);
        } else {
          SameControlsAge(b, i, After(b, c, lease).tasks[i], k);
        }
      }
    } else if i < |b.tasks| {
      SameControlsAge(b, i, b.tasks[i], k);
    }
  }

  lemma SameControlsAge(b: Board, i: nat, t': Task, k: nat)
    requires t'.controls == if i < |b.tasks| then b.tasks[i].controls else []
    ensures IsCompleted(t', k) == CompletedOn(b, i, k)
    ensures HasControl(b, i, k) ==> Ages(b.tasks[i].controls[k], t'.controls[k])
  {
  }

  lemma UpdateLeavesControls(b: Board, c: Call, lease: nat, i: nat, k: nat)
    requires c.op.Update? && UpdateBoard(b, c, lease).Ok? && i < |UpdateBoard(b, c, lease).value.tasks|
    ensures var t' := UpdateBoard(b, c, lease).value.tasks[i];
            && (IsCompleted(t', k) <==> CompletedOn(b, i, k))
            && (HasControl(b, i, k) ==> k < |t'.controls| && Ages(b.tasks[i].controls[k], t'.controls[k]))
  {
    hide UpdateBoard;
    UpdateRows(b, c, lease, i);
    SameControlsAge(b, i, UpdateBoard(b, c, lease).value.tasks[i], k);
  }

  // ----- Whole runs -----

  /** How often control k of task i changes status during the calls. */
  ghost function Changes(b: Board, calls: seq<Call>, lease: nat, i: nat, k: nat): nat
    requires HasControl(b, i, k)
    decreases |calls|
  {
    if calls == [] then 0
    else
      StepAges(b, calls[0], lease, i, k);
      var b' := After(b, calls[0], lease);
      (if b'.tasks[i].controls[k] != b.tasks[i].controls[k] then 1 else 0) + Changes(b', calls[1..], lease, i, k)
  }

  /** How often a step about it changes the task beyond its controls. */
  ghost function Effects(b: Board, calls: seq<Call>, lease: nat, i: nat, k: nat): nat
    decreases |calls|
  {
    if calls == [] then 0
    else
      (if EffectNow(b, calls[0], lease, i, k) then 1 else 0)
      + Effects(After(b, calls[0], lease), calls[1..], lease, i, k)
  }

  /** From any board on, a control changes at most as often as its rank allows, so at
      most three times, and one that was rejected, completed or expired never changes. */
  lemma {:induction false} ControlLifetime(b: Board, calls: seq<Call>, lease: nat, i: nat, k: nat)
    requires HasControl(b, i, k)
    ensures HasControl(ServeAll(b, calls, lease), i, k)
    ensures Changes(b, calls, lease, i, k) + Rank(ServeAll(b, calls, lease).tasks[i].controls[k].status)
            <= Rank(b.tasks[i].controls[k].status)
    ensures !OpenControl(b.tasks[i].controls[k].status) ==>
              ServeAll(b, calls, lease).tasks[i].controls[k] == b.tasks[i].controls[k]
    decreases |calls|
  {
    hide After;
    if calls != [] {
      StepAges(b, calls[0], lease, i, k);
      ControlLifetime(After(b, calls[0], lease), calls[1..], lease, i, k);
    }
  }

  /** Over any run a control takes effect on its task at most once, exactly in the step that completes it. */
  lemma {:induction false} ControlActsOnce(b: Board, calls: seq<Call>, lease: nat, i: nat, k: nat)
    ensures Effects(b, calls, lease, i, k) ==
            (if CompletedOn(ServeAll(b, calls, lease), i, k) then 1 else 0) - (if CompletedOn(b, i, k) then 1 else 0)
    decreases |calls|
  {
    hide After, EffectNow, CompletedOn, Effect;
    if calls != [] {
      StepAges(b, calls[0], lease, i, k);
      ControlActsOnce(After(b, calls[0], lease), calls[1..], lease, i, k);
    }
  }
}
