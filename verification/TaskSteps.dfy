/**
 What one committed transaction does to the task it names. Each function is the
 whole transaction on that task's rows, from its guards to its last write; an
 error means that the transaction rolled back.
 */
module TaskSteps {
  import opened Model
  import opened Text
  import Checklist

  const CONTROL_LIFETIME := 24 * 60 * 60 * SECOND
  const MAX_STATUS_NOTE := 300

  function Clipped(text: string): string {
    if |text| <= 1000 then text else text[..999] + "…"
  }

  function DefaultActor(value: string, fallback: string): string {
    if value != "" then value else fallback
  }

  function NormalSection(section: string): string {
    if section == "" then "General" else section
  }

  predicate ValidRecurrence(r: string) {
    r == "" || r == "daily" || r == "weekly" || r == "monthly"
  }

  predicate ValidLabels(labels: seq<string>) {
    |labels| <= 100 && forall i :: 0 <= i < |labels| ==> Checklist.ValidLabel(labels[i])
  }

  predicate ValidStart(s: StartRequest) {
    1 <= |s.title| <= 200 && |NormalSection(s.section)| <= 80 && ValidRecurrence(s.recurrence)
        && ValidLabels(s.checklist)
  }

  /** insertQueuedTask: work without a run or a lease. */
  function QueuedTask(s: StartRequest, order: int, actor: string, at: int): Task {
    Task(s.title, NormalSection(s.section), order, s.visibility, actor, "", actor, Queued, "", "", "", s.recurrence,
         s.deferUntil, None, None, None, 1, at, Checklist.NewItems(s.checklist, 0, 0), |s.checklist|,
         [], [], [], [], None)
  }

  /** The occurrence a schedule leaves for agents to pick up. */
  function ScheduledTask(d: Definition, schedule: nat, order: int, at: int): Task {
    QueuedTask(StartRequest(d.title, d.section, AgentLane, "", None, d.checklist), order, d.createdBy, at).(
      lastEditedBy := d.lastEditedBy, scheduleId := Some(schedule))
  }

  /** Start: an active task whose first item is active, held by its first run. */
  function StartedTask(s: StartRequest, order: int, actor: string, at: int, lease: nat): Task
    requires s.checklist != []
  {
    var items := Checklist.NewItems(s.checklist, 0, 0);
    QueuedTask(s, order, actor, at).(
      status := Active, owner := actor,
      items := items[0 := items[0].(status := ItemActive)],
      runs := [NewRun(actor, at, lease)])
  }

  function NewRun(agent: string, at: int, lease: nat): Run {
    Run(agent, Active, at + lease, at, at, None)
  }

  function EndRun(r: Run, status: Status, at: int): Run {
    r.(status := status, leaseExpires := at, heartbeatAt := at, endedAt := Some(at))
  }

  /** The row write shared by every edit that changes nothing else of the task. */
  function Touched(t: Task, at: int): Task {
    t.(version := t.version + 1, updatedAt := at)
  }

  /** The owner of a task that goes back to the queue. */
  function RequeuedOwner(t: Task): string {
    if t.visibility == AgentLane then "" else t.owner
  }

  function Requeued(t: Task, note: string, at: int): Task {
    Touched(t, at).(status := Queued, owner := RequeuedOwner(t), note := Clipped(note), waitingFor := "",
        blocker := "", completedAt := None)
  }

  // ----- Claim and heartbeat -----

  function ClaimTask(t: Task, at: int, agent: string, admitted: bool, expected: int, unblocked: bool,
      lease: nat): Result<Task> {
    if t.duplicateOf.Some? then Err(Validation)
    else if t.status != Queued && t.status != Stale then Err(Validation)
    else if !admitted then Err(RateLimit)
    else if expected < 1 then Err(Validation)
    else if t.version != expected then Err(Conflict)
    else if !unblocked then Err(Validation)
    else if t.deferUntil.Some? && at < t.deferUntil.value then Err(Validation)
    else Ok(Touched(t, at).(
              items := Checklist.ActivateFirst(t.items), runs := t.runs + [NewRun(agent, at, lease)],
              status := Active, owner := agent, completedAt := None))
  }

  function HeartbeatTask(t: Task, at: int, agent: string, admitted: bool, run: nat, lease: nat): Result<Task> {
    if run >= |t.runs| || t.runs[run].agent != agent then Err(NotFound)
    else if !admitted then Err(RateLimit)
    else if !Live(t.runs[run]) then Err(NotFound)
    else Ok(t.(runs := t.runs[run := t.runs[run].(leaseExpires := at + lease, heartbeatAt := at)]))
  }

  // ----- The two statements of the sweep -----

  predicate Lapsed(r: Run, since: int) {
    Live(r) && r.leaseExpires < since
  }

  function SweptRun(r: Run, since: int): Run {
    if Lapsed(r, since) then r.(status := Stale, endedAt := Some(since)) else r
  }

  function SweepRunsOf(t: Task, since: int): (r: Task)
    ensures r == t.(runs := r.runs) && |r.runs| == |t.runs|
    ensures forall i :: 0 <= i < |t.runs| ==> r.runs[i] == SweptRun(t.runs[i], since)
  {
    t.(runs := seq(|t.runs|, i requires 0 <= i < |t.runs| => SweptRun(t.runs[i], since)))
  }

  predicate GoesStale(t: Task, since: int) {
    && t.status == Active
    && (exists i :: 0 <= i < |t.runs| && t.runs[i].status == Stale)
    && (forall i :: 0 <= i < |t.runs| ==> !(Live(t.runs[i]) && t.runs[i].leaseExpires >= since))
  }

  function SweepTaskOf(t: Task, since: int): Task {
    if GoesStale(t, since) then Touched(t, since).(status := Stale) else t
  }

  // ----- Escalations -----

  /** Choices differ even in letter case. */
  predicate ValidOptions(options: seq<string>) {
    && |options| <= 10
    && (forall i :: 0 <= i < |options| ==> 1 <= |options[i]| <= 200)
    && (forall i, j :: 0 <= i < j < |options| ==> Lower(options[i]) != Lower(options[j]))
  }

  predicate ValidPerson(id: string) {
    && 1 <= |id| <= 200
    && (forall i :: 0 <= i < |id| ==> id[i] !in " \t\r\n")
    && !("agent:" <= id) && !("cloudflare_access:service_token:" <= id)
  }

  predicate ValidAnswerers(answerers: seq<string>) {
    |answerers| <= 20 && forall i :: 0 <= i < |answerers| ==> ValidPerson(answerers[i])
  }

  /** The values without repeats, in the order they first appear. */
  function Unrepeated(values: seq<string>): seq<string> {
    if values == [] then []
    else
      var rest, last := Unrepeated(values[..|values| - 1]), values[|values| - 1];
      if last in rest then rest else rest + [last]
  }

  /** The asking agent's own live run. */
  predicate OwnLiveRun(t: Task, run: nat, agent: string) {
    run < |t.runs| && Live(t.runs[run]) && t.runs[run].agent == agent
  }

  function EscalateTask(t: Task, at: int, agent: string, op: Op): Result<Task>
    requires op.Escalate?
  {
    if !OwnLiveRun(t, op.run, agent) then Err(Validation)
    else if t.version != op.expected || t.status != Active then Err(Conflict)
    else
      var expires := if op.expiresIn > 0 then Some(at + op.expiresIn * SECOND) else None;
      var question := Escalation(op.run, op.question, op.recommendation, op.blocking, true, op.options,
                                 Unrepeated(op.answerers), expires, "", "", "");
      var asked := t.(escalations := t.escalations + [question]);
      if !op.blocking then Ok(asked)
      else Ok(Touched(asked, at).(
                status := Waiting, waitingFor := Clipped(op.question),
                runs := t.runs[op.run := EndRun(t.runs[op.run], Waiting, at)]))
  }

  /** A selected choice is a complete answer. */
  function FilledAnswer(op: Op): string
    requires op.Resolve?
  {
    if op.answer == "" then op.option else op.answer
  }

  /** The content of a request as it is hashed: answerers without repeats, the answer filled in. */
  function Normal(op: Op): Op {
    match op
    case Escalate(_, _, _, _, _, _, answerers, _, _) => op.(answerers := Unrepeated(answerers))
    case Resolve(_, _, _, _, _) => op.(answer := FilledAnswer(op))
    case _ => op
  }

  function ResolveTask(t: Task, at: int, person: string, op: Op): Result<Task>
    requires op.Resolve?
  {
    if t.version != op.expected then Err(Conflict)
    else if op.escalation >= |t.escalations| then Err(NotFound)
    else
      var e := t.escalations[op.escalation];
      if e.open && e.expiresAt.Some? && e.expiresAt.value <= at then Err(Validation)
      else if !e.open then Err(Conflict)
      else if e.answerers != [] && person !in e.answerers then Err(Forbidden)
      else if op.option != "" && op.option !in e.options then Err(Validation)
      else if e.blocking && t.status != Waiting then Err(Validation)
      else
        var closed := e.(open := false, answer := FilledAnswer(op), selected := op.option, answeredBy := person);
        var answered := t.(escalations := t.escalations[op.escalation := closed]);
        if !e.blocking then Ok(answered)
        else Ok(Touched(answered, at).(status := Queued, owner := RequeuedOwner(t), waitingFor := "",
            lastEditedBy := person))
  }

  // ----- Run controls -----

  predicate ValidControlTarget(t: Task, r: Run, kind: ControlKind) {
    match kind
    case Pause => t.status == Active && Live(r)
    case Cancel => t.status == Active && Live(r)
    case Resume => (t.status == Waiting || t.status == Blocked) && r.endedAt.Some?
    case Retry => (t.status == Stale || t.status == Cancelled) && r.endedAt.Some?
  }

  predicate MayTarget(t: Task, run: nat, kind: ControlKind) {
    run < |t.runs| && ValidControlTarget(t, t.runs[run], kind)
  }

  predicate ValidControlTransition(from: ControlStatus, to: ControlStatus) {
    match from
    case Requested => to == Acknowledged || to == Expired
    case Acknowledged => to == Accepted || to == Rejected || to == Expired
    case Accepted => to == Completed || to == Expired
    case _ => false
  }

  predicate Targets(c: Control, run: nat, kind: ControlKind) {
    c.run == run && c.kind == kind && OpenControl(c.status)
  }

  /** The most recent open control of this kind on the run. */
  function LastOpen(controls: seq<Control>, run: nat, kind: ControlKind): (r: Option<nat>)
    ensures r.Some? ==> r.value < |controls| && Targets(controls[r.value], run, kind)
    ensures r.Some? ==> forall i :: r.value < i < |controls| ==> !Targets(controls[i], run, kind)
    ensures r.None? ==> forall i :: 0 <= i < |controls| ==> !Targets(controls[i], run, kind)
  {
    if controls == [] then None
    else if Targets(controls[|controls| - 1], run, kind) then Some(|controls| - 1)
    else LastOpen(controls[..|controls| - 1], run, kind)
  }

  function RequestControlTask(t: Task, at: int, person: string, op: Op): Result<Task>
    requires op.RequestControl?
  {
    if !MayTarget(t, op.run, op.kind) then Err(Validation)
    else if t.version != op.expected then Err(Conflict)
    else if LastOpen(t.controls, op.run, op.kind).Some? then Err(Conflict)
    else
      var agent := t.runs[op.run].agent;
      var control := Control(op.run, agent, op.kind, Requested, at + CONTROL_LIFETIME, person, op.reason, "");
      Ok(t.(controls := t.controls + [control]))
  }

  /** completeRunControl: the one effect a control has on its task and run. */
  function CompleteControl(t: Task, c: Control, note: string, at: int): Result<Task> {
    if c.run >= |t.runs| || t.runs[c.run].agent != c.agent || !ValidControlTarget(t, t.runs[c.run], c.kind)
        then Err(Conflict)
    else
      match c.kind
      case Pause => Ok(Touched(t, at).(
                         runs := t.runs[c.run := EndRun(t.runs[c.run], Waiting, at)],
                         status := Waiting, waitingFor := if note != "" then Clipped(note) else "Paused by request"))
      case Cancel => Ok(Touched(t, at).(
                          runs := t.runs[c.run := EndRun(t.runs[c.run], Cancelled, at)],
                          status := Cancelled, note := Clipped(note), waitingFor := "", blocker := "",
                          completedAt := Some(at)))
      case Resume => Ok(Requeued(t, note, at))
      case Retry => Ok(Requeued(t, note, at))
  }

  function AnswerControlTask(t: Task, at: int, agent: string, op: Op): Result<Task>
    requires op.AnswerControl?
  {
    if op.control >= |t.controls| then Err(NotFound)
    else
      var c := t.controls[op.control];
      if c.agent != agent then Err(Forbidden)
      else if !ValidControlTransition(c.status, op.answerStatus) then Err(Validation)
      else if op.answerStatus == Expired && at < c.expiresAt then Err(Validation)
      else if op.answerStatus != Expired && at >= c.expiresAt then Err(Conflict)
      else if op.answerStatus == Completed && t.version != op.expected then Err(Conflict)
      else
        var moved := t.(controls := t.controls[op.control := c.(status := op.answerStatus, outcome := op.note)]);
        if op.answerStatus == Completed then CompleteControl(moved, c, op.note, at) else Ok(moved)
  }

  /** One iteration of expireRunControls. */
  function ExpireControlTask(t: Task, at: int, control: nat): Result<Task> {
    if control >= |t.controls| || !OpenControl(t.controls[control].status) || at < t.controls[control].expiresAt
        then Err(NotFound)
    else Ok(t.(controls := t.controls[control := t.controls[control].(status := Expired)]))
  }

  /** reviewAndRequeueFor: which control the shortcut completes. */
  function RequeueKind(t: Task): ControlKind {
    if t.status == Stale then Retry else Resume
  }

  /** The control that a shortcut without an open one leaves behind. */
  function RecordedControl(run: nat, agent: string, kind: ControlKind, at: int, person: string, note: string): Control {
    Control(run, agent, kind, Completed, at + CONTROL_LIFETIME, person, note, note)
  }

  /** Some run that has not ended has a lease that reaches this time. */
  predicate HoldsLease(t: Task, at: int) {
    exists i :: 0 <= i < |t.runs| && t.runs[i].endedAt.None? && t.runs[i].leaseExpires >= at
  }

  function RequeueTask(t: Task, at: int, person: string, op: Op): Result<Task>
    requires op.Requeue?
  {
    if t.version != op.expected then Err(Conflict)
    else if t.status != Stale && t.status != Blocked && t.status != Waiting then Err(Conflict)
    else if op.run >= |t.runs| then Err(Validation)
    else if t.status == Stale && (t.runs[op.run].status != Stale || t.runs[op.run].endedAt.None?) then Err(Conflict)
    else if t.status != Stale && HoldsLease(t, at) then Err(Conflict)
    else
      var run := t.runs[op.run];
      var ended := if run.endedAt.None? then t.runs[op.run := run.(endedAt := Some(at))] else t.runs;
      var open := LastOpen(t.controls, op.run, RequeueKind(t));
      var controls :=
        if open.Some? then t.controls[open.value := t.controls[open.value].(status := Completed, outcome := op.note)]
        else t.controls + [RecordedControl(op.run, run.agent, RequeueKind(t), at, person, op.note)];
      Ok(Requeued(t, op.note, at).(runs := ended, controls := controls, lastEditedBy := person))
  }

  // ----- Completion requirements and writes that only bump the version -----

  function RequireTask(t: Task, at: int, person: string, op: Op): Result<Task>
    requires op.Require?
  {
    if t.version != op.expected then Err(Conflict)
    else if Terminal(t.status) then Err(Validation)
    else Ok(Touched(t, at).(requirements := t.requirements + [Requirement(op.required, Pending)],
        lastEditedBy := person))
  }

  function ReviewTask(t: Task, at: int, actor: string, admitted: bool, op: Op): Result<Task>
    requires op.Review?
  {
    if op.requirement >= |t.requirements| then Err(NotFound)
    else if t.version != op.expected then Err(Conflict)
    else if !admitted then Err(Validation)
    else Ok(Touched(t, at).(
              requirements := t.requirements[op.requirement := t.requirements[op.requirement].(status := op.verdict)],
              lastEditedBy := actor))
  }

  function TouchTask(t: Task, at: int, person: string, expected: int): Result<Task> {
    if t.version != expected then Err(Conflict)
    else Ok(Touched(t, at).(lastEditedBy := person))
  }

  function RenameTask(t: Task, at: int, run: nat, expected: int): Result<Task> {
    if expected < 1 then Err(Validation)
    else if t.version != expected then Err(Conflict)
    else if run >= |t.runs| then Err(NotFound)
    else Ok(Touched(t, at))
  }

  // ----- All of these as one step -----

  /** Operations whose writes stay inside the task they name. */
  predicate Local(op: Op) {
    || op.Claim? || op.Heartbeat? || op.Escalate? || op.Resolve? || op.RequestControl? || op.AnswerControl?
    || op.ExpireControl? || op.Requeue? || op.Require? || op.Review? || op.Touch? || op.Rename?
  }

  /** What a request must look like before its task is loaded. */
  predicate ValidFields(op: Op) {
    match op
    case Escalate(_, _, question, recommendation, _, options, answerers, expiresIn, expected) =>
      && expected >= 1 && 1 <= |question| <= 4000 && |recommendation| <= 1000
      && ValidOptions(options) && ValidAnswerers(answerers)
      && (expiresIn == 0 || 60 <= expiresIn <= 7 * 24 * 60 * 60)
    case Resolve(_, _, answer, option, expected) =>
      expected >= 1 && 1 <= |if answer == "" then option else answer| <= 4000
    case RequestControl(_, _, _, reason, expected) => expected >= 1 && |reason| <= 1000
    case AnswerControl(_, _, status, note, expected) =>
      !(status == Rejected && note == "") && |note| <= 1000 && (status == Completed ==> expected >= 1)
    case Requeue(_, _, note, expected) => expected >= 1 && 1 <= |note| <= 1000
    case Require(_, _, expected) => expected >= 1
    case Review(_, _, _, expected) => expected >= 1
    case Touch(_, expected) => expected >= 1
    case _ => true
  }

  function LocalStep(t: Task, c: Call, unblocked: bool, lease: nat): Result<Task>
    requires Local(c.op)
  {
    match c.op
    case Claim(_, expected) => ClaimTask(t, c.at, c.actor, c.admitted, expected, unblocked, lease)
    case Heartbeat(_, run) => HeartbeatTask(t, c.at, c.actor, c.admitted, run, lease)
    case Escalate(_, _, _, _, _, _, _, _, _) => EscalateTask(t, c.at, c.actor, c.op)
    case Resolve(_, _, _, _, _) => ResolveTask(t, c.at, c.actor, c.op)
    case RequestControl(_, _, _, _, _) => RequestControlTask(t, c.at, c.actor, c.op)
    case AnswerControl(_, _, _, _, _) => AnswerControlTask(t, c.at, c.actor, c.op)
    case ExpireControl(_, control) => ExpireControlTask(t, c.at, control)
    case Requeue(_, _, _, _) => RequeueTask(t, c.at, c.actor, c.op)
    case Require(_, _, _) => RequireTask(t, c.at, c.actor, c.op)
    case Review(_, _, _, _) => ReviewTask(t, c.at, c.actor, c.admitted, c.op)
    case Touch(_, expected) => TouchTask(t, c.at, c.actor, expected)
    case Rename(_, run, expected) => RenameTask(t, c.at, run, expected)
  }
}
