/**
 What the transactions on the whole board take and leave: new tasks, the sweep, moves and
 dependencies, said of the request and the stored rows alone.
 */
module BoardLaws {
  import opened Model
  import opened TaskSteps
  import opened Taskboard
  import opened TaskLaws
  import Graph

  // ----- New tasks -----

  /** The section a task is filed under. */
  function Filed(section: string): string {
    if section != "" then section else "General"
  }

  /** The sort order that puts a new task at the end of its section, a gap behind the last one. */
  ghost predicate Last(tasks: seq<Task>, section: string, order: int) {
    if forall i :: 0 <= i < |tasks| ==> tasks[i].section != section then order == 1024
    else
      && (exists i :: 0 <= i < |tasks| && tasks[i].section == section && order == tasks[i].sortOrder + 1024)
      && (forall i :: 0 <= i < |tasks| && tasks[i].section == section ==> tasks[i].sortOrder + 1024 <= order)
  }

  lemma NextOrderMeans(tasks: seq<Task>, section: string)
    ensures Last(tasks, section, NextOrder(tasks, section))
  {
  }

  /** A todo item per label, numbered from zero. */
  ghost predicate Listed(labels: seq<string>, items: seq<Item>) {
    |items| == |labels| && forall k :: 0 <= k < |items| ==> items[k] == Item(k, labels[k], ItemTodo, k, true)
  }

  ghost predicate WellStarted(s: StartRequest) {
    && 1 <= |s.title| <= 200 && |Filed(s.section)| <= 80
    && s.recurrence in ["", "daily", "weekly", "monthly"]
    && |s.checklist| <= 100 && forall k :: 0 <= k < |s.checklist| ==> 1 <= |s.checklist[k]| <= 300
  }

  /** A queued task as it was asked for, at the end of its section. */
  ghost predicate IsNew(tasks: seq<Task>, t: Task, s: StartRequest, actor: string, at: int) {
    && Last(tasks, Filed(s.section), t.sortOrder)
    && Listed(s.checklist, t.items)
    && t == Task(s.title, Filed(s.section), t.sortOrder, s.visibility, actor, "", actor, Queued, "", "", "",
                 s.recurrence, s.deferUntil, None, None, None, 1, at, t.items, |s.checklist|, [], [], [], [], None)
  }

  /** The idempotency record of a start, create or update: only an agent's key is looked up. */
  function OwnRecord(c: Call): Option<Receipt> {
    if c.key == "" then None else Some(Receipt(c.key, c.op, c.agent))
  }

  /** One task and one event are added. */
  ghost predicate Adds(b: Board, r: Result<Board>, t: Task, e: Event) {
    r == Ok(Board(b.tasks + [t], b.blockedBy, b.events + [e]))
  }

  lemma NewIsExecuted(b: Board, c: Call, lease: nat)
    ensures c.op.Start? ==> Execute(b, c, lease) == StartBoard(b, c, lease)
    ensures c.op.Create? ==> Execute(b, c, lease) == CreateBoard(b, c)
    ensures c.op.Fire? ==> Execute(b, c, lease) == Ok(FireBoard(b, c))
  {
    hide StartBoard, CreateBoard, FireBoard, LocalBoard, UpdateBoard, MoveBoard, BlockBoard, UnblockBoard;
  }

  lemma CreateLaw(b: Board, c: Call, lease: nat)
    requires c.op.Create?
    ensures Execute(b, c, lease).Ok? <==> c.admitted && WellStarted(c.op.start)
    ensures Execute(b, c, lease).Ok? ==>
              var n := |b.tasks|;
              && n < |Execute(b, c, lease).value.tasks|
              && var t := Execute(b, c, lease).value.tasks[n];
                 && IsNew(b.tasks, t, c.op.start, c.actor, c.at)
                 && Adds(b, Execute(b, c, lease), t, Event(n, None, "task.created", c.actor, c.at, OwnRecord(c)))
    ensures Execute(b, c, lease).Err? ==>
              Execute(b, c, lease).error == if c.admitted then Validation else Conflict
  {
    hide Execute, NextOrder;
    NewIsExecuted(b, c, lease);
    NextOrderMeans(b.tasks, Filed(c.op.start.section));
  }

  /** A started task is the queued one, active and owned by the caller, with its first item active and one live run with
      a full lease. */
  lemma StartLaw(b: Board, c: Call, lease: nat)
    requires c.op.Start?
    ensures Execute(b, c, lease).Ok? <==> c.admitted && WellStarted(c.op.start) && c.op.start.checklist != []
    ensures Execute(b, c, lease).Ok? ==>
              var n := |b.tasks|;
              && n < |Execute(b, c, lease).value.tasks|
              && var t := Execute(b, c, lease).value.tasks[n];
                 && t.items != [] && t.items[0].status == ItemActive
                 && t.status == Active && t.owner == c.actor
                 && t.runs == [Run(c.actor, Active, c.at + lease, c.at, c.at, None)]
                 && IsNew(b.tasks, t.(status := Queued, owner := "", runs := [],
                                      items := t.items[0 := t.items[0].(status := ItemTodo)]),
                          c.op.start, c.actor, c.at)
                 && Adds(b, Execute(b, c, lease), t, Event(n, Some(0), "task.started", c.actor, c.at, OwnRecord(c)))
    ensures Execute(b, c, lease).Err? ==>
              Execute(b, c, lease).error == if c.admitted then Validation else RateLimit
  {
    hide Execute, NextOrder;
    NewIsExecuted(b, c, lease);
    NextOrderMeans(b.tasks, Filed(c.op.start.section));
  }

  /** Task i is an occurrence of the schedule that is neither done nor cancelled. */
  predicate IsOccurrence(tasks: seq<Task>, schedule: nat, i: nat) {
    i < |tasks| && tasks[i].scheduleId == Some(schedule) && tasks[i].status != Done && tasks[i].status != Cancelled
  }

  /** Firing a schedule leaves a queued task on the agents' lane under the schedule's names, unless overlaps are skipped
      and an occurrence is neither done nor cancelled: then it logs that on the newest one. */
  lemma FireLaw(b: Board, c: Call, lease: nat)
    requires c.op.Fire?
    ensures var d, n := c.op.definition, |b.tasks|;
            if c.op.skip && exists i: nat :: IsOccurrence(b.tasks, c.op.schedule, i) then
              exists i: nat ::
                && IsOccurrence(b.tasks, c.op.schedule, i)
                && (forall j: nat :: IsOccurrence(b.tasks, c.op.schedule, j) ==> j <= i)
                && Execute(b, c, lease) ==
                   Ok(b.(events := b.events + [Event(i, None, "schedule.skipped",
                                                     if c.op.runBy == "" then d.lastEditedBy else c.op.runBy,
                                                     c.at, None)]))
            else
              && Execute(b, c, lease).Ok? && n < |Execute(b, c, lease).value.tasks|
              && var t := Execute(b, c, lease).value.tasks[n];
                 && t.scheduleId == Some(c.op.schedule) && t.lastEditedBy == d.lastEditedBy
                 && IsNew(b.tasks, t.(scheduleId := None, lastEditedBy := d.createdBy),
                          StartRequest(d.title, d.section, AgentLane, "", None, d.checklist), d.createdBy, c.at)
                 && Adds(b, Execute(b, c, lease), t, Event(n, None, "task.created", d.lastEditedBy, c.at, None))
  {
    hide Execute, OpenOccurrence, ScheduledTask, NextOrder, IsNew;
    NewIsExecuted(b, c, lease);
    var open := OpenOccurrence(b.tasks, c.op.schedule);
    if open.Some? { assert IsOccurrence(b.tasks, c.op.schedule, open.value); }
    ScheduledIsNew(b.tasks, c.op.definition, c.op.schedule, c.at);
  }

  lemma ScheduledIsNew(tasks: seq<Task>, d: Definition, schedule: nat, at: int)
    ensures var t := ScheduledTask(d, schedule, NextOrder(tasks, NormalSection(d.section)), at);
            && t.scheduleId == Some(schedule) && t.lastEditedBy == d.lastEditedBy
            && IsNew(tasks, t.(scheduleId := None, lastEditedBy := d.createdBy),
                     StartRequest(d.title, d.section, AgentLane, "", None, d.checklist), d.createdBy, at)
  {
    hide NextOrder;
    NextOrderMeans(tasks, Filed(d.section));
  }

  // ----- The sweep -----

  /** The first statement ends exactly the runs that hold a task with a lease that lapsed before the sweep. */
  lemma SweepRunsLaw(b: Board, c: Call, lease: nat)
    requires c.op.SweepRuns?
    ensures Execute(b, c, lease).Ok?
    ensures var b' := Execute(b, c, lease).value;
            && b' == Board(b'.tasks, b.blockedBy, b.events) && |b'.tasks| == |b.tasks|
            && forall i :: 0 <= i < |b.tasks| ==>
                 && b'.tasks[i] == b.tasks[i].(runs := b'.tasks[i].runs) && |b'.tasks[i].runs| == |b.tasks[i].runs|
                 && forall k :: 0 <= k < |b.tasks[i].runs| ==>
                      var r := b.tasks[i].runs[k];
                      b'.tasks[i].runs[k] ==
                      if r.status == Active && r.endedAt == None && r.leaseExpires < c.op.since
                      then r.(status := Stale, endedAt := Some(c.op.since)) else r
  {
  }

  /** An active task some run of which went stale and that no run holds with time left. */
  ghost predicate Abandoned(t: Task, since: int) {
    && t.status == Active
    && (exists k :: 0 <= k < |t.runs| && t.runs[k].status == Stale)
    && !exists k :: 0 <= k < |t.runs| && Holding(t.runs[k]) && since <= t.runs[k].leaseExpires
  }

  /** The second statement makes stale exactly the abandoned tasks. */
  lemma SweepTasksLaw(b: Board, c: Call, lease: nat)
    requires c.op.SweepTasks?
    ensures Execute(b, c, lease).Ok?
    ensures var b' := Execute(b, c, lease).value;
            && b' == Board(b'.tasks, b.blockedBy, b.events) && |b'.tasks| == |b.tasks|
            && forall i :: 0 <= i < |b.tasks| ==>
                 var t := b.tasks[i];
                 b'.tasks[i] ==
                 if Abandoned(t, c.op.since) then t.(status := Stale, version := t.version + 1, updatedAt := c.op.since)
                 else t
  {
  }

  // ----- Moves and dependencies -----

  /** Task n is open, filed with task i, and before it (up) or after it. */
  predicate OnSide(tasks: seq<Task>, i: nat, n: nat, up: bool) {
    && i < |tasks| && n < |tasks| && tasks[n].section == tasks[i].section
    && tasks[n].status != Done && tasks[n].status != Cancelled
    && if up then tasks[n].sortOrder < tasks[i].sortOrder else tasks[i].sortOrder < tasks[n].sortOrder
  }

  /** And no other such task is nearer. */
  ghost predicate Nearest(tasks: seq<Task>, i: nat, n: nat, up: bool) {
    && OnSide(tasks, i, n, up)
    && forall m: nat :: OnSide(tasks, i, m, up) ==>
         if up then tasks[m].sortOrder <= tasks[n].sortOrder else tasks[n].sortOrder <= tasks[m].sortOrder
  }

  /** The two rows exchange their sort orders; only the moved one gets a new version. */
  ghost predicate Trades(b: Board, c: Call, n: nat, b': Board)
    requires c.op.Move? && c.op.task < |b.tasks| && n < |b.tasks|
  {
    var i := c.op.task;
    var t, u := b.tasks[i], b.tasks[n];
    var actor := if c.actor != "" then c.actor else t.owner;
    && i != n
    && b'.tasks == b.tasks[i := t.(sortOrder := u.sortOrder, version := t.version + 1, updatedAt := c.at)]
                          [n := u.(sortOrder := t.sortOrder, updatedAt := c.at)]
    && b' == Board(b'.tasks, b.blockedBy, b.events + [Event(i, None, "task.moved", actor, c.at, None),
                                                      Event(n, None, "task.moved", actor, c.at, None)])
  }

  /** Among the first n tasks, if any is on that side, one is nearest. */
  lemma {:induction false} SomeNearest(tasks: seq<Task>, i: nat, n: nat, up: bool) returns (r: Option<nat>)
    requires n <= |tasks|
    ensures r == None ==> forall m: nat :: m < n ==> !OnSide(tasks, i, m, up)
    ensures r != None ==>
              && OnSide(tasks, i, r.value, up)
              && forall m: nat :: m < n && OnSide(tasks, i, m, up) ==>
                   if up then tasks[m].sortOrder <= tasks[r.value].sortOrder
                   else tasks[r.value].sortOrder <= tasks[m].sortOrder
    decreases n
  {
    if n == 0 { return None; }
    r := SomeNearest(tasks, i, n - 1, up);
    if OnSide(tasks, i, n - 1, up)
       && (r == None || if up then tasks[r.value].sortOrder < tasks[n - 1].sortOrder
                        else tasks[n - 1].sortOrder < tasks[r.value].sortOrder)
    {
      r := Some(n - 1);
    }
  }

  lemma NearestIsNeighbour(tasks: seq<Task>, i: nat, n: nat, up: bool)
    requires i < |tasks| && n < |tasks|
    ensures Nearest(tasks, i, n, up) <==> Neighbour(tasks, i, n, up)
    ensures Nearest(tasks, i, n, up) ==> n != i
  {
    assert forall m: nat :: m < |tasks| ==> (Beyond(tasks, i, m, up) <==> OnSide(tasks, i, m, up));
  }

  lemma NeighbourMeans(tasks: seq<Task>, i: nat, up: bool)
    requires i < |tasks|
    ensures var n := NeighbourOf(tasks, i, up);
            if n.Some? then n.value != i && Nearest(tasks, i, n.value, up)
            else forall m: nat :: !OnSide(tasks, i, m, up)
  {
    hide Neighbour;
    var m := SomeNearest(tasks, i, |tasks|, up);
    if m.Some? { NearestIsNeighbour(tasks, i, m.value, up); }
    var n := NeighbourOf(tasks, i, up);
    if n.Some? { NearestIsNeighbour(tasks, i, n.value, up); }
  }

  /** A move trades places with a nearest open task on the asked side, if there is one. */
  lemma MoveLaw(b: Board, c: Call, lease: nat)
    requires c.op.Move?
    ensures Execute(b, c, lease).Ok? <==>
              && 1 <= c.op.expected && c.op.task < |b.tasks|
              && var t := b.tasks[c.op.task]; t.version == c.op.expected && t.status != Done && t.status != Cancelled
    ensures Execute(b, c, lease).Ok? ==>
              || ((forall n: nat :: !OnSide(b.tasks, c.op.task, n, c.op.up)) && Execute(b, c, lease).value == b)
              || exists n: nat ::
                   Nearest(b.tasks, c.op.task, n, c.op.up) && Trades(b, c, n, Execute(b, c, lease).value)
    ensures Execute(b, c, lease).Err? ==>
              match Execute(b, c, lease).error
              case NotFound => c.op.task >= |b.tasks|
              case Conflict => b.tasks[c.op.task].version != c.op.expected
              case Validation => c.op.expected < 1 || b.tasks[c.op.task].status in {Done, Cancelled}
              case _ => false
  {
    hide OnSide, Nearest, Neighbour;
    if Execute(b, c, lease).Ok? {
      NeighbourMeans(b.tasks, c.op.task, c.op.up);
      var n := NeighbourOf(b.tasks, c.op.task, c.op.up);
      if n.Some? { assert Trades(b, c, n.value, Execute(b, c, lease).value); }
    }
  }

  /** A dependency is added exactly when it is new, joins two tasks and closes no circle. */
  lemma BlockLaw(b: Board, c: Call, lease: nat)
    requires c.op.Block?
    ensures Execute(b, c, lease).Ok? <==>
              var i, k := c.op.task, c.op.blockedBy;
              && i != k && 1 <= c.op.expected && i < |b.tasks| && k < |b.tasks|
              && b.tasks[i].version == c.op.expected
              && (i, k) !in b.blockedBy && !Graph.Reaches(b.blockedBy, k, i)
    ensures Execute(b, c, lease).Ok? ==>
              var i := c.op.task;
              var t := b.tasks[i];
              Execute(b, c, lease).value ==
              Board(b.tasks[i := t.(lastEditedBy := c.actor, version := t.version + 1, updatedAt := c.at)],
                    b.blockedBy + {(i, c.op.blockedBy)},
                    b.events + [Event(i, None, "task.dependency_added", c.actor, c.at, None)])
    ensures Execute(b, c, lease).Err? ==>
              match Execute(b, c, lease).error
              case NotFound => c.op.task >= |b.tasks| || c.op.blockedBy >= |b.tasks|
              case Conflict => b.tasks[c.op.task].version != c.op.expected
              case Validation =>
                || c.op.task == c.op.blockedBy || c.op.expected < 1
                || (c.op.task, c.op.blockedBy) in b.blockedBy
                || Graph.Reaches(b.blockedBy, c.op.blockedBy, c.op.task)
              case _ => false
  {
    hide Graph.Reaches;
  }

  /** Removing a dependency removes that one and no other. */
  lemma UnblockLaw(b: Board, c: Call, lease: nat)
    requires c.op.Unblock?
    ensures Execute(b, c, lease).Ok? <==>
              && c.op.task < |b.tasks| && b.tasks[c.op.task].version == c.op.expected
              && (c.op.task, c.op.blockedBy) in b.blockedBy
    ensures Execute(b, c, lease).Ok? ==>
              var i := c.op.task;
              var t, b' := b.tasks[i], Execute(b, c, lease).value;
              && (forall e :: e in b'.blockedBy <==> e in b.blockedBy && e != (i, c.op.blockedBy))
              && b' == Board(b.tasks[i := t.(lastEditedBy := c.actor, version := t.version + 1, updatedAt := c.at)],
                             b'.blockedBy,
                             b.events + [Event(i, None, "task.dependency_removed", c.actor, c.at, None)])
    ensures Execute(b, c, lease).Err? ==>
              match Execute(b, c, lease).error
              case NotFound => c.op.task >= |b.tasks| || (c.op.task, c.op.blockedBy) !in b.blockedBy
              case Conflict => b.tasks[c.op.task].version != c.op.expected
              case _ => false
  {
  }
}
