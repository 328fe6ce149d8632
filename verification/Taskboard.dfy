/** Every committed transaction as one step on the whole board. */
module Taskboard {
  import opened Model
  import opened TaskSteps
  import opened Updates
  import Graph

  const SORT_GAP := 1024
  const MAX_HOPS := 20

  /** The largest sort order of a section. */
  function Highest(tasks: seq<Task>, section: string): (r: Option<int>)
    ensures r.None? ==> forall i :: 0 <= i < |tasks| ==> tasks[i].section != section
    ensures r.Some? ==> forall i :: 0 <= i < |tasks| && tasks[i].section == section ==> tasks[i].sortOrder <= r.value
    ensures r.Some? ==> exists i :: 0 <= i < |tasks| && tasks[i].section == section && tasks[i].sortOrder == r.value
  {
    if tasks == [] then None
    else
      var last := tasks[|tasks| - 1];
      var rest := Highest(tasks[..|tasks| - 1], section);
      if last.section != section then rest
      else if rest.None? || rest.value < last.sortOrder then Some(last.sortOrder) else rest
  }

  /** SELECT COALESCE(MAX(sort_order),0)+1024. */
  function NextOrder(tasks: seq<Task>, section: string): (r: int)
    ensures forall i :: 0 <= i < |tasks| && tasks[i].section == section ==> tasks[i].sortOrder < r
  {
    var h := Highest(tasks, section);
    (if h.Some? then h.value else 0) + SORT_GAP
  }

  /** COUNT of blockers that are not done is zero. */
  predicate Unblocked(b: Board, task: nat) {
    forall e :: e in b.blockedBy && e.0 == task && e.1 < |b.tasks| ==> b.tasks[e.1].status == Done
  }

  /** resolveDuplicateRoot: at most `hops` links are followed. */
  function ResolveRoot(tasks: seq<Task>, id: nat, task: nat, hops: nat): Result<(nat, string)>
    decreases hops
  {
    if hops == 0 then Err(Validation)
    else if id == task then Err(Validation)
    else if id >= |tasks| then Err(Validation)
    else if tasks[id].duplicateOf.None? then Ok((id, tasks[id].title))
    else ResolveRoot(tasks, tasks[id].duplicateOf.value, task, hops - 1)
  }

  function Kept(tasks: seq<Task>, task: nat, req: UpdateRequest): Result<Option<(nat, string)>> {
    if !Marks(req) then Ok(None)
    else
      var root :- ResolveRoot(tasks, req.duplicateOf.value.value, task, MAX_HOPS);
      Ok(Some(root))
  }

  /** UPDATE tasks SET duplicate_of=kept WHERE duplicate_of=task. */
  function Repoint(tasks: seq<Task>, task: nat, kept: nat): (r: seq<Task>)
    ensures |r| == |tasks|
    ensures forall i :: 0 <= i < |tasks| ==>
      r[i] == if tasks[i].duplicateOf == Some(task) then tasks[i].(duplicateOf := Some(kept)) else tasks[i]
  {
    seq(|tasks|, i requires 0 <= i < |tasks| =>
      if tasks[i].duplicateOf == Some(task) then tasks[i].(duplicateOf := Some(kept)) else tasks[i])
  }

  /** The next occurrence of a recurring task that was just completed. */
  function NextOccurrence(t: Task, order: int, editor: string, at: int): Task {
    var items := seq(|t.items|, i requires 0 <= i < |t.items| =>
      Item(i, t.items[i].text, ItemTodo, i, t.items[i].required));
    Task(t.title, t.section, order, t.visibility, t.createdBy, "", editor, Queued, "", "", "", t.recurrence, None,
         None, None, None, 1, at, items, |t.items|, [], [], [], [], None)
  }

  predicate Recurs(before: Task, after: Task) {
    after.status == Done && before.status != Done && after.recurrence != ""
  }

  // ----- Events -----

  /** Operations that carry an idempotency key. */
  predicate Keyed(op: Op) {
    || op.Start? || op.Create? || op.Claim? || op.Update?
    || op.Escalate? || op.Resolve? || op.RequestControl? || op.AnswerControl?
  }

  /** Whether the key is looked up at all: people's starts, creates and updates only record it. */
  predicate LooksUp(c: Call) {
    Keyed(c.op) && (c.op.Start? || c.op.Create? || c.op.Update? ==> c.agent)
  }

  function ReceiptOf(c: Call): Option<Receipt> {
    if Keyed(c.op) && c.key != "" then Some(Receipt(c.key, Normal(c.op), LooksUp(c))) else None
  }

  function Notice(c: Call, task: nat, run: Option<nat>, kind: string, actor: string): Event {
    Event(task, run, kind, actor, c.at, ReceiptOf(c))
  }

  function Plain(c: Call, task: nat, run: Option<nat>, kind: string, actor: string): Event {
    Event(task, run, kind, actor, c.at, None)
  }

  /** The run that asked question k. */
  function AskingRun(t: Task, k: nat): Option<nat> {
    if k < |t.escalations| then Some(t.escalations[k].run) else None
  }

  /** The run that control k is for. */
  function TargetRun(t: Task, k: nat): Option<nat> {
    if k < |t.controls| then Some(t.controls[k].run) else None
  }

  /** The events of a step that stays inside task t. */
  function LocalEvents(t: Task, c: Call): seq<Event>
    requires Local(c.op)
  {
    match c.op
    case Claim(task, _) => [Notice(c, task, Some(|t.runs|), "task.claimed", c.actor)]
    case Heartbeat(_, _) => []
    case Escalate(task, run, _, _, _, _, _, _, _) => [Notice(c, task, Some(run), "task.escalated", c.actor)]
    case Resolve(task, k, _, _, _) => [Notice(c, task, AskingRun(t, k), "task.escalation_answered", c.actor)]
    case RequestControl(task, run, _, _, _) => [Notice(c, task, Some(run), "task.control_requested", c.actor)]
    case AnswerControl(task, k, _, _, _) => [Notice(c, task, TargetRun(t, k), "task.control_updated", c.actor)]
    case ExpireControl(task, k) => [Plain(c, task, TargetRun(t, k), "task.control_updated", "taskboard")]
    case Requeue(task, run, _, _) => [Plain(c, task, Some(run), "task.reviewed_requeued", c.actor)]
    case Require(task, _, _) => [Plain(c, task, None, "task.completion_requirement_added", c.actor)]
    case Review(task, _, _, _) => [Plain(c, task, None, "task.completion_requirement_reviewed", c.actor)]
    case Touch(task, _) => [Plain(c, task, None, "task.requirements_updated", c.actor)]
    case Rename(task, run, _) => [Plain(c, task, Some(run), "run.callsign_updated", c.actor)]
  }

  // ----- Steps -----

  function StartBoard(b: Board, c: Call, lease: nat): Result<Board>
    requires c.op.Start?
  {
    var s := c.op.start;
    if !c.admitted then Err(RateLimit)
    else if !ValidStart(s) || s.checklist == [] then Err(Validation)
    else
      var t := StartedTask(s, NextOrder(b.tasks, NormalSection(s.section)), c.actor, c.at, lease);
      Ok(b.(tasks := b.tasks + [t], events := b.events + [Notice(c, |b.tasks|, Some(0), "task.started", c.actor)]))
  }

  function CreateBoard(b: Board, c: Call): Result<Board>
    requires c.op.Create?
  {
    var s := c.op.start;
    if !c.admitted then Err(Conflict)
    else if !ValidStart(s) then Err(Validation)
    else
      var t := QueuedTask(s, NextOrder(b.tasks, NormalSection(s.section)), c.actor, c.at);
      Ok(b.(tasks := b.tasks + [t], events := b.events + [Notice(c, |b.tasks|, None, "task.created", c.actor)]))
  }

  function LocalBoard(b: Board, c: Call, lease: nat): Result<Board>
    requires Local(c.op)
  {
    if !ValidFields(c.op) then Err(Validation)
    else if c.op.task >= |b.tasks| then Err(NotFound)
    else
      var t := b.tasks[c.op.task];
      var t' :- LocalStep(t, c, Unblocked(b, c.op.task), lease);
      Ok(b.(tasks := b.tasks[c.op.task := t'], events := b.events + LocalEvents(t, c)))
  }

  /** The outcome of Update on the task it names. */
  function UpdateOne(b: Board, c: Call, lease: nat): Result<Task>
    requires c.op.Update?
  {
    var req := c.op.update;
    if !ValidUpdate(req) then Err(Validation)
    else if c.op.task >= |b.tasks| then Err(NotFound)
    else
      var t := b.tasks[c.op.task];
      UpdateTask(t, c.at, c.actor, req, Kept(b.tasks, c.op.task, req), NextOrder(b.tasks, UpdatedSection(t, req)),
          Unblocked(b, c.op.task), lease)
  }

  /** The task table after the named row and the links to it are written. */
  function Relinked(b: Board, c: Call, t': Task): (r: seq<Task>)
    requires c.op.Update? && c.op.task < |b.tasks|
    requires Marks(c.op.update) ==> t'.duplicateOf.Some?
  {
    var tasks := b.tasks[c.op.task := t'];
    if Marks(c.op.update) then Repoint(tasks, c.op.task, t'.duplicateOf.value) else tasks
  }

  function UpdateEvents(b: Board, c: Call, t': Task): seq<Event>
    requires c.op.Update? && c.op.task < |b.tasks|
    requires Marks(c.op.update) ==> t'.duplicateOf.Some?
  {
    var t := b.tasks[c.op.task];
    var actor := DefaultActor(c.actor, t.owner);
    var editor := t'.lastEditedBy;
    (if Marks(c.op.update) then [Plain(c, t'.duplicateOf.value, None, "task.duplicate_linked", editor)] else [])
    + (if Recurs(t, t') then [Plain(c, |b.tasks|, None, "task.recurring_created", actor)] else [])
    + [Notice(c, c.op.task, c.op.update.run, "task.updated", actor)]
  }

  function UpdateBoard(b: Board, c: Call, lease: nat): Result<Board>
    requires c.op.Update?
  {
    var t' :- UpdateOne(b, c, lease);
    var t := b.tasks[c.op.task];
    var tasks := Relinked(b, c, t');
    var more := if Recurs(t, t') then [NextOccurrence(t', NextOrder(tasks, t'.section), t'.lastEditedBy, c.at)] else [];
    Ok(Board(tasks + more, b.blockedBy, b.events + UpdateEvents(b, c, t')))
  }

  /** An occurrence of this schedule that is neither done nor cancelled. */
  predicate IsOpenOccurrence(t: Task, schedule: nat) {
    t.scheduleId == Some(schedule) && !Terminal(t.status)
  }

  /** The newest open occurrence of a schedule. */
  function OpenOccurrence(tasks: seq<Task>, schedule: nat): (r: Option<nat>)
    ensures r.None? <==> forall i :: 0 <= i < |tasks| ==> !IsOpenOccurrence(tasks[i], schedule)
    ensures r.Some? ==> r.value < |tasks| && IsOpenOccurrence(tasks[r.value], schedule)
    ensures r.Some? ==> forall i :: r.value < i < |tasks| ==> !IsOpenOccurrence(tasks[i], schedule)
  {
    if |tasks| == 0 then None
    else if IsOpenOccurrence(tasks[|tasks| - 1], schedule) then Some(|tasks| - 1)
    else OpenOccurrence(tasks[..|tasks| - 1], schedule)
  }

  /** The part of a schedule's run that touches the board: a new occurrence, unless one is open and overlaps are
      skipped. */
  function FireBoard(b: Board, c: Call): Board
    requires c.op.Fire?
  {
    var d, open := c.op.definition, OpenOccurrence(b.tasks, c.op.schedule);
    if c.op.skip && open.Some? then
      var actor := DefaultActor(c.op.runBy, d.lastEditedBy);
      b.(events := b.events + [Plain(c, open.value, None, "schedule.skipped", actor)])
    else
      var t := ScheduledTask(d, c.op.schedule, NextOrder(b.tasks, NormalSection(d.section)), c.at);
      b.(tasks := b.tasks + [t], events := b.events + [Plain(c, |b.tasks|, None, "task.created", d.lastEditedBy)])
  }

  function SweptRuns(tasks: seq<Task>, since: int): (r: seq<Task>)
    ensures |r| == |tasks|
    ensures forall i :: 0 <= i < |tasks| ==> r[i] == SweepRunsOf(tasks[i], since)
  {
    seq(|tasks|, i requires 0 <= i < |tasks| => SweepRunsOf(tasks[i], since))
  }

  function SweptTasks(tasks: seq<Task>, since: int): (r: seq<Task>)
    ensures |r| == |tasks|
    ensures forall i :: 0 <= i < |tasks| ==> r[i] == SweepTaskOf(tasks[i], since)
  {
    seq(|tasks|, i requires 0 <= i < |tasks| => SweepTaskOf(tasks[i], since))
  }

  /** n is an open task of t's section on the asked side of t. */
  predicate Beyond(tasks: seq<Task>, t: nat, n: nat, up: bool)
    requires t < |tasks| && n < |tasks|
  {
    && n != t && tasks[n].section == tasks[t].section && !Terminal(tasks[n].status)
    && (if up then tasks[n].sortOrder < tasks[t].sortOrder else tasks[n].sortOrder > tasks[t].sortOrder)
  }

  /** n is a nearest such task. */
  predicate Neighbour(tasks: seq<Task>, t: nat, n: nat, up: bool)
    requires t < |tasks| && n < |tasks|
  {
    && Beyond(tasks, t, n, up)
    && forall m :: 0 <= m < |tasks| && Beyond(tasks, t, m, up) ==>
         if up then tasks[m].sortOrder <= tasks[n].sortOrder else tasks[m].sortOrder >= tasks[n].sortOrder
  }

  function Swapped(tasks: seq<Task>, t: nat, n: nat, at: int): (r: seq<Task>)
    requires t < |tasks| && n < |tasks| && t != n
    ensures |r| == |tasks|
    ensures r[t] == Touched(tasks[t], at).(sortOrder := tasks[n].sortOrder)
    ensures r[n] == tasks[n].(sortOrder := tasks[t].sortOrder, updatedAt := at)
    ensures forall i :: 0 <= i < |tasks| && i != t && i != n ==> r[i] == tasks[i]
  {
    tasks[n := tasks[n].(sortOrder := tasks[t].sortOrder, updatedAt := at)]
         [t := Touched(tasks[t], at).(sortOrder := tasks[n].sortOrder)]
  }

  ghost function NeighbourOf(tasks: seq<Task>, t: nat, up: bool): (r: Option<nat>)
    requires t < |tasks|
    ensures r.Some? ==> r.value < |tasks| && Neighbour(tasks, t, r.value, up)
    ensures r.None? ==> forall n :: 0 <= n < |tasks| ==> !Neighbour(tasks, t, n, up)
  {
    if n: nat :| n < |tasks| && Neighbour(tasks, t, n, up) then Some(n) else None
  }

  ghost function MoveBoard(b: Board, c: Call): Result<Board>
    requires c.op.Move?
  {
    var t := c.op.task;
    if c.op.expected < 1 then Err(Validation)
    else if t >= |b.tasks| then Err(NotFound)
    else if b.tasks[t].version != c.op.expected then Err(Conflict)
    else if Terminal(b.tasks[t].status) then Err(Validation)
    else
      var n := NeighbourOf(b.tasks, t, c.op.up);
      if n.None? then Ok(b)
      else
        var actor := DefaultActor(c.actor, b.tasks[t].owner);
        Ok(b.(tasks := Swapped(b.tasks, t, n.value, c.at),
              events := b.events + [Plain(c, t, None, "task.moved", actor),
                  Plain(c, n.value, None, "task.moved", actor)]))
  }

  ghost function BlockBoard(b: Board, c: Call): Result<Board>
    requires c.op.Block?
  {
    var t, blocker := c.op.task, c.op.blockedBy;
    if t == blocker || c.op.expected < 1 then Err(Validation)
    else if t >= |b.tasks| || blocker >= |b.tasks| then Err(NotFound)
    else if b.tasks[t].version != c.op.expected then Err(Conflict)
    else if Graph.Reaches(b.blockedBy, blocker, t) then Err(Validation)
    else if (t, blocker) in b.blockedBy then Err(Validation)
    else Ok(Board(b.tasks[t := Touched(b.tasks[t], c.at).(lastEditedBy := c.actor)], b.blockedBy + {(t, blocker)},
                  b.events + [Plain(c, t, None, "task.dependency_added", c.actor)]))
  }

  function UnblockBoard(b: Board, c: Call): Result<Board>
    requires c.op.Unblock?
  {
    var t, blocker := c.op.task, c.op.blockedBy;
    if t >= |b.tasks| then Err(NotFound)
    else if b.tasks[t].version != c.op.expected then Err(Conflict)
    else if (t, blocker) !in b.blockedBy then Err(NotFound)
    else Ok(Board(b.tasks[t := Touched(b.tasks[t], c.at).(lastEditedBy := c.actor)], b.blockedBy - {(t, blocker)},
                  b.events + [Plain(c, t, None, "task.dependency_removed", c.actor)]))
  }

  /** One transaction, before idempotency keys are looked at. */
  ghost function Execute(b: Board, c: Call, lease: nat): Result<Board> {
    if c.op.Start? then StartBoard(b, c, lease)
    else if c.op.Create? then CreateBoard(b, c)
    else if c.op.Update? then UpdateBoard(b, c, lease)
    else if c.op.SweepRuns? then Ok(b.(tasks := SweptRuns(b.tasks, c.op.since)))
    else if c.op.SweepTasks? then Ok(b.(tasks := SweptTasks(b.tasks, c.op.since)))
    else if c.op.Fire? then Ok(FireBoard(b, c))
    else if c.op.Move? then MoveBoard(b, c)
    else if c.op.Block? then BlockBoard(b, c)
    else if c.op.Unblock? then UnblockBoard(b, c)
    else LocalBoard(b, c, lease)
  }
}
