/**
 The service over its database. Each method is one transaction: it works on a
 copy of the rows it loads and stores them only where the code commits, so every
 refusal leaves the database as it was.
 */
module Service {
  import opened Model
  import opened Text
  import opened TaskSteps
  import opened Updates
  import opened Taskboard
  import opened Requests
  import opened Ordering
  import opened Runs
  import Checklist
  import Graph

  datatype Answer = Stored | Repeated(task: nat, run: Option<nat>) | Failed(error: Error)

  function Summary(r: Reply): Answer {
    match r
    case Committed(_) => Stored
    case Replayed(task, run) => Repeated(task, run)
    case Refused(error) => Failed(error)
  }

  function Verdict(r: Result<Board>): Answer {
    if r.Ok? then Stored else Failed(r.error)
  }

  function Settled(b: Board, r: Result<Board>): Board {
    if r.Ok? then r.value else b
  }

  // ----- Loops inside one transaction -----

  /** complete_item_ids or skip_item_ids: each named item must exist and gets the status. */
  method MarkItems(items: seq<Item>, ids: seq<nat>, status: ItemStatus) returns (r: Result<seq<Item>>)
    ensures r == Checklist.SetAll(items, ids, status)
  {
    var rows := items;
    for k := 0 to |ids|
      invariant Checklist.SetAll(items, ids, status) == Checklist.SetAll(rows, ids[k..], status)
    {
      if !Checklist.HasItem(rows, ids[k]) { return Err(Validation); }
      rows := Checklist.SetStatus(rows, ids[k], status);
    }
    r := Ok(rows);
  }

  /** INSERT one row per label, with consecutive positions and ids. */
  method InsertItems(items: seq<Item>, labels: seq<string>, first: int, id: nat) returns (rows: seq<Item>)
    ensures rows == items + Checklist.NewItems(labels, first, id)
  {
    rows := items;
    var position := first;
    for k := 0 to |labels|
      invariant position == first + k
      invariant rows == items + Checklist.NewItems(labels[..k], first, id)
    {
      rows := rows + [Item(id + k, labels[k], ItemTodo, position, true)];
      position := position + 1;
    }
    assert labels[..|labels|] == labels;
  }

  /** Every checklist statement of Update. */
  method EditChecklist(items: seq<Item>, issued: nat, req: UpdateRequest) returns (r: Result<(seq<Item>, nat)>)
    ensures r == Checklist.Edit(items, issued, req)
  {
    hide Checklist.NewItems, Checklist.SetAll, Checklist.Refocus, Checklist.NextPosition;
    var rows, next := items, issued;
    if req.checklist.Some? {
      rows := InsertItems([], req.checklist.value, 0, issued);
      next := issued + |req.checklist.value|;
      assert rows == Checklist.NewItems(req.checklist.value, 0, issued);
    }
    var completed := MarkItems(rows, req.completeItems, ItemDone);
    if completed.Err? { return Err(completed.error); }
    var skipped := MarkItems(completed.value, req.skipItems, ItemSkipped);
    if skipped.Err? { return Err(skipped.error); }
    rows := skipped.value;
    if req.currentItem.Some? {
      var focused := Checklist.Refocus(rows, req.currentItem.value);
      if focused.Err? { return Err(focused.error); }
      rows := focused.value;
    }
    if exists i :: 0 <= i < |req.addItems| && !Checklist.ValidLabel(req.addItems[i]) { return Err(Validation); }
    rows := InsertItems(rows, req.addItems, Checklist.NextPosition(rows), next);
    r := Ok((rows, next + |req.addItems|));
  }

  /** resolveDuplicateRoot: at most twenty hops along the links. */
  method ResolveDuplicateRoot(tasks: seq<Task>, target: nat, task: nat) returns (r: Result<(nat, string)>)
    ensures r == ResolveRoot(tasks, target, task, MAX_HOPS)
  {
    var id: nat := target;
    for hop := 0 to MAX_HOPS
      invariant ResolveRoot(tasks, target, task, MAX_HOPS) == ResolveRoot(tasks, id, task, MAX_HOPS - hop)
    {
      if id == task || id >= |tasks| { return Err(Validation); }
      if tasks[id].duplicateOf.None? { return Ok((id, tasks[id].title)); }
      id := tasks[id].duplicateOf.value;
    }
    r := Err(Validation);
  }

  /** The order of the neighbour query: nearest first, then the latest update going up, the earliest going down. */
  predicate Sooner(m: Task, n: Task, up: bool) {
    if up then m.sortOrder > n.sortOrder || (m.sortOrder == n.sortOrder && m.updatedAt > n.updatedAt)
    else m.sortOrder < n.sortOrder || (m.sortOrder == n.sortOrder && m.updatedAt < n.updatedAt)
  }

  /** The nearest open task of the section on the asked side. */
  method FindNeighbour(tasks: seq<Task>, t: nat, up: bool) returns (r: Option<nat>)
    requires t < |tasks|
    ensures r.None? <==> forall k :: 0 <= k < |tasks| ==> !Beyond(tasks, t, k, up)
    ensures r.Some? ==> r.value < |tasks| && Neighbour(tasks, t, r.value, up)
    ensures r.Some? ==> forall k :: 0 <= k < |tasks| && Beyond(tasks, t, k, up) ==>
              !Sooner(tasks[k], tasks[r.value], up)
    ensures Distinct(tasks) ==> r == NeighbourOf(tasks, t, up)
  {
    r := None;
    for m := 0 to |tasks|
      invariant r.Some? ==> r.value < m && Beyond(tasks, t, r.value, up)
      invariant forall k :: 0 <= k < m && Beyond(tasks, t, k, up) ==> r.Some? && !Sooner(tasks[k], tasks[r.value], up)
    {
      if Beyond(tasks, t, m, up) && (r.None? || Sooner(tasks[m], tasks[r.value], up)) { r := Some(m); }
    }
    if r.Some? { assert Neighbour(tasks, t, r.value, up); }
  }

  /** The loop over the choices of a question, with the set of those already seen. */
  method CheckOptions(options: seq<string>) returns (ok: bool)
    ensures ok == ValidOptions(options)
  {
    if |options| > 10 { return false; }
    var seen: set<string> := {};
    for i := 0 to |options|
      invariant forall x :: x in seen <==> exists k :: 0 <= k < i && Lower(options[k]) == x
      invariant forall k :: 0 <= k < i ==> 1 <= |options[k]| <= 200
      invariant forall j, k :: 0 <= j < k < i ==> Lower(options[j]) != Lower(options[k])
    {
      if options[i] == "" || |options[i]| > 200 || Lower(options[i]) in seen { return false; }
      seen := seen + {Lower(options[i])};
    }
    ok := true;
  }

  /** normalizeAnswerers: people only, each once. */
  method NormalizeAnswerers(values: seq<string>) returns (r: Result<seq<string>>)
    ensures r == if ValidAnswerers(values) then Ok(Unrepeated(values)) else Err(Validation)
  {
    hide ValidPerson;
    if |values| > 20 { return Err(Validation); }
    var people: seq<string> := [];
    for i := 0 to |values|
      invariant people == Unrepeated(values[..i])
      invariant forall k :: 0 <= k < i ==> ValidPerson(values[k])
    {
      if !ValidPerson(values[i]) { return Err(Validation); }
      assert values[..i + 1][..i] == values[..i];
      if values[i] !in people { people := people + [values[i]]; }
    }
    assert values[..|values|] == values;
    r := Ok(people);
  }

  lemma RecordStep(events: seq<Event>, n: nat, actor: string, op: Op, key: string)
    requires 0 < n <= |events|
    ensures FindRecord(events[..n], actor, op, key) ==
            if Recorded(events[n - 1], actor, op, key) then Some(n - 1) else FindRecord(events[..n - 1], actor, op, key)
  {
    hide Recorded;
    assert events[..n][..n - 1] == events[..n - 1];
  }

  lemma NoRecord(actor: string, op: Op, key: string)
    ensures FindRecord([], actor, op, key) == None
  {
  }

  lemma LastOpenStep(controls: seq<Control>, k: nat, run: nat, kind: ControlKind)
    requires 0 < k <= |controls|
    ensures LastOpen(controls[..k], run, kind) ==
            if Targets(controls[k - 1], run, kind) then Some(k - 1) else LastOpen(controls[..k - 1], run, kind)
  {
    hide Targets;
    assert controls[..k][..k - 1] == controls[..k - 1];
  }

  lemma NothingOpen(run: nat, kind: ControlKind)
    ensures LastOpen([], run, kind) == None
  {
  }

  /** replayIdempotency: the actor's events, latest first. */
  method ReplayIdempotency(events: seq<Event>, actor: string, op: Op, key: string) returns (r: Option<nat>)
    ensures r == FindRecord(events, actor, op, key)
  {
    hide FindRecord, Recorded;
    var n := |events|;
    assert events[..n] == events;
    while n > 0
      invariant 0 <= n <= |events|
      invariant FindRecord(events, actor, op, key) == FindRecord(events[..n], actor, op, key)
    {
      RecordStep(events, n, actor, op, key);
      n := n - 1;
      if Recorded(events[n], actor, op, key) { return Some(n); }
    }
    NoRecord(actor, op, key);
    r := None;
  }

  class Service {
    const lease: nat
    var tasks: seq<Task>
    var blockedBy: set<(nat, nat)>
    var events: seq<Event>

    constructor (lease: nat)
      ensures this.lease == lease && Snapshot() == EMPTY_BOARD && Valid()
    {
      this.lease := lease;
      tasks, blockedBy, events := [], {}, [];
      new;
      Graph.NoEdges();
    }

    function Snapshot(): Board
      reads this
    {
      Board(tasks, blockedBy, events)
    }

    /** Everything that holds of the boards a run can reach. */
    ghost predicate Valid()
      reads this
    {
      Inv(Snapshot())
    }

    // ----- New work -----

    method Start(c: Call) returns (answer: Answer)
      requires c.op.Start?
      requires Valid()
      modifies this
      ensures Valid()
      ensures answer == Verdict(StartBoard(old(Snapshot()), c, lease))
      ensures Snapshot() == Settled(old(Snapshot()), StartBoard(old(Snapshot()), c, lease))
    {
      hide Inv;
      var s := c.op.start;
      if !c.admitted { return Failed(RateLimit); }
      if !ValidStart(s) || s.checklist == [] { return Failed(Validation); }
      var order := NextOrder(tasks, NormalSection(s.section));
      var items := InsertItems([], s.checklist, 0, 0);
      assert items == Checklist.NewItems(s.checklist, 0, 0);
      items := items[0 := items[0].(status := ItemActive)];
      var t := Task(s.title, NormalSection(s.section), order, s.visibility, c.actor, c.actor, c.actor, Active,
                    "", "", "", s.recurrence, s.deferUntil, None, None, None, 1, c.at, items, |s.checklist|,
                    [Run(c.actor, Active, c.at + lease, c.at, c.at, None)], [], [], [], None);
      events := events + [Event(|tasks|, Some(0), "task.started", c.actor, c.at, ReceiptOf(c))];
      tasks := tasks + [t];
      TransactionIsValid(old(Snapshot()), c, lease);
      answer := Stored;
    }

    method Create(c: Call) returns (answer: Answer)
      requires c.op.Create?
      requires Valid()
      modifies this
      ensures Valid()
      ensures answer == Verdict(CreateBoard(old(Snapshot()), c))
      ensures Snapshot() == Settled(old(Snapshot()), CreateBoard(old(Snapshot()), c))
    {
      hide Inv;
      var s := c.op.start;
      if !c.admitted { return Failed(Conflict); }
      if !ValidStart(s) { return Failed(Validation); }
      var order := NextOrder(tasks, NormalSection(s.section));
      var items := InsertItems([], s.checklist, 0, 0);
      assert items == Checklist.NewItems(s.checklist, 0, 0);
      var t := Task(s.title, NormalSection(s.section), order, s.visibility, c.actor, "", c.actor, Queued, "", "", "",
                    s.recurrence, s.deferUntil, None, None, None, 1, c.at, items, |s.checklist|, [], [], [], [], None);
      events := events + [Event(|tasks|, None, "task.created", c.actor, c.at, ReceiptOf(c))];
      tasks := tasks + [t];
      TransactionIsValid(old(Snapshot()), c, lease);
      answer := Stored;
    }

    // ----- Claims and leases -----

    method Claim(c: Call) returns (answer: Answer)
      requires c.op.Claim?
      requires Valid()
      modifies this
      ensures Valid()
      ensures answer == Verdict(LocalBoard(old(Snapshot()), c, lease))
      ensures Snapshot() == Settled(old(Snapshot()), LocalBoard(old(Snapshot()), c, lease))
    {
      hide Inv;
      var id := c.op.task;
      if id >= |tasks| { return Failed(NotFound); }
      var t := tasks[id];
      if t.duplicateOf.Some? { return Failed(Validation); }
      if t.status != Queued && t.status != Stale { return Failed(Validation); }
      if !c.admitted { return Failed(RateLimit); }
      if c.op.expected < 1 { return Failed(Validation); }
      if t.version != c.op.expected { return Failed(Conflict); }
      if !Unblocked(Snapshot(), id) { return Failed(Validation); }
      if t.deferUntil.Some? && c.at < t.deferUntil.value { return Failed(Validation); }
      var run := |t.runs|;
      t := t.(items := Checklist.ActivateFirst(t.items));
      t := t.(runs := t.runs + [Run(c.actor, Active, c.at + lease, c.at, c.at, None)]);
      t := t.(status := Active, owner := c.actor, version := t.version + 1, updatedAt := c.at, completedAt := None);
      tasks := tasks[id := t];
      events := events + [Event(id, Some(run), "task.claimed", c.actor, c.at, ReceiptOf(c))];
      TransactionIsValid(old(Snapshot()), c, lease);
      answer := Stored;
    }

    method Heartbeat(c: Call) returns (answer: Answer)
      requires c.op.Heartbeat?
      requires Valid()
      modifies this
      ensures Valid()
      ensures answer == Verdict(LocalBoard(old(Snapshot()), c, lease))
      ensures Snapshot() == Settled(old(Snapshot()), LocalBoard(old(Snapshot()), c, lease))
    {
      hide Inv;
      var id, run := c.op.task, c.op.run;
      if id >= |tasks| || run >= |tasks[id].runs| || tasks[id].runs[run].agent != c.actor { return Failed(NotFound); }
      if !c.admitted { return Failed(RateLimit); }
      var r := tasks[id].runs[run];
      if !Live(r) { return Failed(NotFound); }
      r := r.(leaseExpires := c.at + lease, heartbeatAt := c.at);
      tasks := tasks[id := tasks[id].(runs := tasks[id].runs[run := r])];
      assert Snapshot() == Settled(old(Snapshot()), LocalBoard(old(Snapshot()), c, lease));
      TransactionIsValid(old(Snapshot()), c, lease);
      answer := Stored;
    }

    /** The first statement of SweepStale. */
    method SweepExpiredRuns(since: int)
      requires Valid()
      modifies this`tasks
      ensures Valid()
      ensures tasks == SweptRuns(old(tasks), since)
    {
      hide Inv;
      var i := 0;
      while i < |tasks|
        invariant 0 <= i <= |tasks| == |old(tasks)|
        invariant forall k :: 0 <= k < i ==> tasks[k] == SweepRunsOf(old(tasks)[k], since)
        invariant forall k :: i <= k < |tasks| ==> tasks[k] == old(tasks)[k]
      {
        tasks := tasks[i := SweepRunsOf(tasks[i], since)];
        i := i + 1;
      }
      assert tasks == SweptRuns(old(tasks), since);
      TransactionIsValid(old(Snapshot()), Call(since, "", false, "", true, SweepRuns(since)), lease);
    }

    /** The second statement of SweepStale. */
    method SweepStaleTasks(since: int)
      requires Valid()
      modifies this`tasks
      ensures Valid()
      ensures tasks == SweptTasks(old(tasks), since)
    {
      hide Inv, SweepTaskOf;
      var i := 0;
      while i < |tasks|
        invariant 0 <= i <= |tasks| == |old(tasks)|
        invariant forall k :: 0 <= k < i ==> tasks[k] == SweepTaskOf(old(tasks)[k], since)
        invariant forall k :: i <= k < |tasks| ==> tasks[k] == old(tasks)[k]
      {
        var t := SweepOne(tasks[i], since);
        tasks := tasks[i := t];
        i := i + 1;
      }
      assert tasks == SweptTasks(old(tasks), since);
      TransactionIsValid(old(Snapshot()), Call(since, "", false, "", true, SweepTasks(since)), lease);
    }

    /** The row condition of the second statement. */
    static method SweepOne(t: Task, since: int) returns (t': Task)
      ensures t' == SweepTaskOf(t, since)
    {
      t' := t;
      if t.status == Active
         && (exists r :: 0 <= r < |t.runs| && t.runs[r].status == Stale)
         && (forall r :: 0 <= r < |t.runs| ==> !(Live(t.runs[r]) && t.runs[r].leaseExpires >= since)) {
        t' := t.(status := Stale, version := t.version + 1, updatedAt := since);
      }
    }

    // ----- Escalations -----

    method CreateEscalation(c: Call) returns (answer: Answer)
      requires c.op.Escalate?
      requires Valid()
      modifies this
      ensures Valid()
      ensures answer == Verdict(LocalBoard(old(Snapshot()), c, lease))
      ensures Snapshot() == Settled(old(Snapshot()), LocalBoard(old(Snapshot()), c, lease))
    {
      hide Inv;
      var id, run := c.op.task, c.op.run;
      if c.op.expected < 1 || c.op.question == "" || |c.op.question| > 4000 { return Failed(Validation); }
      if |c.op.recommendation| > 1000 { return Failed(Validation); }
      var distinct := CheckOptions(c.op.options);
      if !distinct { return Failed(Validation); }
      var people := NormalizeAnswerers(c.op.answerers);
      if people.Err? { return Failed(people.error); }
      if c.op.expiresIn != 0 && (c.op.expiresIn < 60 || c.op.expiresIn > 604800) { return Failed(Validation); }
      if id >= |tasks| { return Failed(NotFound); }
      var t := tasks[id];
      if run >= |t.runs| || !Live(t.runs[run]) || t.runs[run].agent != c.actor { return Failed(Validation); }
      if t.version != c.op.expected || t.status != Active { return Failed(Conflict); }
      var expires: Option<int> := None;
      if c.op.expiresIn > 0 { expires := Some(c.at + c.op.expiresIn * SECOND); }
      var question := Escalation(run, c.op.question, c.op.recommendation, c.op.blocking, true, c.op.options,
                                 people.value, expires, "", "", "");
      t := t.(escalations := t.escalations + [question]);
      if c.op.blocking {
        var r := t.runs[run].(status := Waiting, leaseExpires := c.at, heartbeatAt := c.at, endedAt := Some(c.at));
        t := t.(runs := t.runs[run := r]);
        t := t.(status := Waiting, waitingFor := Clipped(c.op.question), version := t.version + 1, updatedAt := c.at);
      }
      tasks := tasks[id := t];
      events := events + [Event(id, Some(run), "task.escalated", c.actor, c.at, ReceiptOf(c))];
      TransactionIsValid(old(Snapshot()), c, lease);
      answer := Stored;
    }

    method ResolveEscalation(c: Call) returns (answer: Answer)
      requires c.op.Resolve?
      requires Valid()
      modifies this
      ensures Valid()
      ensures answer == Verdict(LocalBoard(old(Snapshot()), c, lease))
      ensures Snapshot() == Settled(old(Snapshot()), LocalBoard(old(Snapshot()), c, lease))
    {
      hide Inv;
      var id, k := c.op.task, c.op.escalation;
      var text := c.op.answer;
      if text == "" { text := c.op.option; }
      if c.op.expected < 1 || text == "" || |text| > 4000 { return Failed(Validation); }
      if id >= |tasks| { return Failed(NotFound); }
      var t := tasks[id];
      if t.version != c.op.expected { return Failed(Conflict); }
      if k >= |t.escalations| { return Failed(NotFound); }
      var e := t.escalations[k];
      if e.open && e.expiresAt.Some? && e.expiresAt.value <= c.at { return Failed(Validation); }
      if !e.open { return Failed(Conflict); }
      if e.answerers != [] && c.actor !in e.answerers { return Failed(Forbidden); }
      if c.op.option != "" && c.op.option !in e.options { return Failed(Validation); }
      if e.blocking && t.status != Waiting { return Failed(Validation); }
      var closed := e.(open := false, answer := text, selected := c.op.option, answeredBy := c.actor);
      t := t.(escalations := t.escalations[k := closed]);
      if e.blocking {
        var owner := t.owner;
        if t.visibility == AgentLane { owner := ""; }
        t := t.(status := Queued, owner := owner, waitingFor := "", lastEditedBy := c.actor, version := t.version + 1,
            updatedAt := c.at);
      }
      tasks := tasks[id := t];
      events := events + [Event(id, Some(e.run), "task.escalation_answered", c.actor, c.at, ReceiptOf(c))];
      TransactionIsValid(old(Snapshot()), c, lease);
      answer := Stored;
    }

    // ----- Run controls -----

    method CreateRunControl(c: Call) returns (answer: Answer)
      requires c.op.RequestControl?
      requires Valid()
      modifies this
      ensures Valid()
      ensures answer == Verdict(LocalBoard(old(Snapshot()), c, lease))
      ensures Snapshot() == Settled(old(Snapshot()), LocalBoard(old(Snapshot()), c, lease))
    {
      hide Inv;
      var id, run := c.op.task, c.op.run;
      if c.op.expected < 1 || |c.op.reason| > 1000 { return Failed(Validation); }
      if id >= |tasks| { return Failed(NotFound); }
      var t := tasks[id];
      if run >= |t.runs| || !ValidControlTarget(t, t.runs[run], c.op.kind) { return Failed(Validation); }
      if t.version != c.op.expected { return Failed(Conflict); }
      if LastOpen(t.controls, run, c.op.kind).Some? { return Failed(Conflict); }
      var agent, expires := t.runs[run].agent, c.at + CONTROL_LIFETIME;
      var control := Control(run, agent, c.op.kind, Requested, expires, c.actor, c.op.reason, "");
      t := t.(controls := t.controls + [control]);
      tasks := tasks[id := t];
      events := events + [Event(id, Some(run), "task.control_requested", c.actor, c.at, ReceiptOf(c))];
      TransactionIsValid(old(Snapshot()), c, lease);
      answer := Stored;
    }

    method UpdateRunControl(c: Call) returns (answer: Answer)
      requires c.op.AnswerControl?
      requires Valid()
      modifies this
      ensures Valid()
      ensures answer == Verdict(LocalBoard(old(Snapshot()), c, lease))
      ensures Snapshot() == Settled(old(Snapshot()), LocalBoard(old(Snapshot()), c, lease))
    {
      hide Inv;
      var id, k, next := c.op.task, c.op.control, c.op.answerStatus;
      if |c.op.note| > 1000 || (next == Rejected && c.op.note == "") { return Failed(Validation); }
      if next == Completed && c.op.expected < 1 { return Failed(Validation); }
      if id >= |tasks| { return Failed(NotFound); }
      var t := tasks[id];
      if k >= |t.controls| { return Failed(NotFound); }
      var item := t.controls[k];
      if item.agent != c.actor { return Failed(Forbidden); }
      if !ValidControlTransition(item.status, next) { return Failed(Validation); }
      if next == Expired && c.at < item.expiresAt { return Failed(Validation); }
      if next != Expired && c.at >= item.expiresAt { return Failed(Conflict); }
      if next == Completed {
        if t.version != c.op.expected { return Failed(Conflict); }
        var effect := CompleteRunControl(t, item, c.op.note, c.at);
        if effect.Err? { return Failed(effect.error); }
        t := effect.value;
      }
      t := t.(controls := t.controls[k := item.(status := next, outcome := c.op.note)]);
      tasks := tasks[id := t];
      events := events + [Event(id, Some(item.run), "task.control_updated", c.actor, c.at, ReceiptOf(c))];
      TransactionIsValid(old(Snapshot()), c, lease);
      answer := Stored;
    }

    /** The writes to the run and the task when a control is completed. */
    static method CompleteRunControl(task: Task, item: Control, note: string, at: int) returns (r: Result<Task>)
      ensures r == CompleteControl(task, item, note, at)
      ensures r.Ok? ==> r.value.controls == task.controls
    {
      if item.run >= |task.runs| || task.runs[item.run].agent != item.agent { return Err(Conflict); }
      var t, run := task, task.runs[item.run];
      match item.kind {
        case Pause =>
          if t.status != Active || run.status != Active || run.endedAt.Some? { return Err(Conflict); }
          t := t.(runs := t.runs[item.run := run.(status := Waiting, leaseExpires := at, heartbeatAt := at,
              endedAt := Some(at))]);
          var reason := if note != "" then Clipped(note) else "Paused by request";
          t := t.(status := Waiting, waitingFor := reason, version := t.version + 1, updatedAt := at);
        case Cancel =>
          if t.status != Active || run.status != Active || run.endedAt.Some? { return Err(Conflict); }
          t := t.(runs := t.runs[item.run := run.(status := Cancelled, leaseExpires := at, heartbeatAt := at,
              endedAt := Some(at))]);
          t := t.(status := Cancelled, note := Clipped(note), waitingFor := "", blocker := "",
              version := t.version + 1, updatedAt := at, completedAt := Some(at));
        case Resume =>
          if (t.status != Waiting && t.status != Blocked) || run.endedAt.None? { return Err(Conflict); }
          t := Requeued(t, note, at);
        case Retry =>
          if (t.status != Stale && t.status != Cancelled) || run.endedAt.None? { return Err(Conflict); }
          t := Requeued(t, note, at);
      }
      r := Ok(t);
    }

    /** One transaction of expireRunControls. */
    method ExpireOne(c: Call)
      requires c.op.ExpireControl?
      requires Valid()
      modifies this
      ensures Valid()
      ensures Snapshot() == Settled(old(Snapshot()), LocalBoard(old(Snapshot()), c, lease))
    {
      hide Inv;
      var id, k := c.op.task, c.op.control;
      if id < |tasks| && k < |tasks[id].controls| {
        var item := tasks[id].controls[k];
        if OpenControl(item.status) && item.expiresAt <= c.at {
          tasks := tasks[id := tasks[id].(controls := tasks[id].controls[k := item.(status := Expired)])];
          events := events + [Event(id, Some(item.run), "task.control_updated", "taskboard", c.at, None)];
        }
      }
      TransactionIsValid(old(Snapshot()), c, lease);
    }

    /** expireRunControls over the controls it listed: a transaction for each. */
    method ExpireRunControls(listed: seq<Call>)
      requires forall i :: 0 <= i < |listed| ==> listed[i].op.ExpireControl?
      requires Valid()
      modifies this
      ensures Valid()
      ensures Snapshot() == ServeAll(old(Snapshot()), listed, lease)
    {
      hide Inv;
      for i := 0 to |listed|
        invariant Valid()
        invariant ServeAll(Snapshot(), listed[i..], lease) == ServeAll(old(Snapshot()), listed, lease)
      {
        ghost var before := Snapshot();
        ExpireOne(listed[i]);
        ExpiryIsServed(before, listed[i], lease);
        assert listed[i..][1..] == listed[i + 1..];
      }
    }

    /** Completes the open control the shortcut stands for, or records a completed one. */
    static method CloseControl(controls: seq<Control>, run: nat, kind: ControlKind, fallback: Control)
      returns (r: seq<Control>)
      ensures var open := LastOpen(controls, run, kind);
              if open.None? then r == controls + [fallback]
              else
                var closed := controls[open.value].(status := Completed, outcome := fallback.outcome);
                r == controls[open.value := closed]
    {
      hide LastOpen, Targets;
      var k := |controls|;
      assert controls[..k] == controls;
      while k > 0
        invariant 0 <= k <= |controls|
        invariant LastOpen(controls, run, kind) == LastOpen(controls[..k], run, kind)
      {
        LastOpenStep(controls, k, run, kind);
        k := k - 1;
        if Targets(controls[k], run, kind) {
          return controls[k := controls[k].(status := Completed, outcome := fallback.outcome)];
        }
      }
      NothingOpen(run, kind);
      r := controls + [fallback];
    }

    /** The guards and writes of review-and-requeue on the loaded task. */
    static method RequeueLoaded(task: Task, at: int, person: string, op: Op) returns (result: Result<Task>)
      requires op.Requeue?
      ensures result == RequeueTask(task, at, person, op)
    {
      var t, run := task, op.run;
      if t.version != op.expected { return Err(Conflict); }
      if t.status != Stale && t.status != Blocked && t.status != Waiting { return Err(Conflict); }
      if run >= |t.runs| { return Err(Validation); }
      var r := t.runs[run];
      var kind := Retry;
      if t.status == Stale {
        if r.status != Stale || r.endedAt.None? { return Err(Conflict); }
      } else {
        kind := Resume;
        if exists i :: 0 <= i < |t.runs| && t.runs[i].endedAt.None? && t.runs[i].leaseExpires >= at {
          return Err(Conflict);
        }
        if r.endedAt.None? { t := t.(runs := t.runs[run := r.(endedAt := Some(at))]); }
      }
      var recorded := Control(run, r.agent, kind, Completed, at + CONTROL_LIFETIME, person, op.note, op.note);
      var controls := CloseControl(t.controls, run, kind, recorded);
      result := Ok(Requeued(t, op.note, at).(controls := controls, lastEditedBy := person));
    }

    method ReviewAndRequeue(c: Call) returns (answer: Answer)
      requires c.op.Requeue?
      requires Valid()
      modifies this
      ensures Valid()
      ensures answer == Verdict(LocalBoard(old(Snapshot()), c, lease))
      ensures Snapshot() == Settled(old(Snapshot()), LocalBoard(old(Snapshot()), c, lease))
    {
      hide Inv, RequeueTask;
      var id := c.op.task;
      if c.op.expected < 1 || c.op.note == "" || |c.op.note| > 1000 { return Failed(Validation); }
      if id >= |tasks| { return Failed(NotFound); }
      var result := RequeueLoaded(tasks[id], c.at, c.actor, c.op);
      if result.Err? { return Failed(result.error); }
      tasks := tasks[id := result.value];
      events := events + [Event(id, Some(c.op.run), "task.reviewed_requeued", c.actor, c.at, None)];
      TransactionIsValid(old(Snapshot()), c, lease);
      answer := Stored;
    }

    // ----- Update -----

    /** The editor's other open runs end when the task is marked a duplicate. */
    static method CancelOwnRuns(before: seq<Run>, run: Option<nat>, actor: string, at: int) returns (runs: seq<Run>)
      ensures runs == EndOwnRuns(before, run, actor, at)
    {
      runs := before;
      for i := 0 to |runs|
        invariant |runs| == |before|
        invariant forall k :: 0 <= k < i ==> runs[k] == EndOwnRuns(before, run, actor, at)[k]
        invariant forall k :: i <= k < |before| ==> runs[k] == before[k]
      {
        var r := runs[i];
        if Some(i) != run && r.agent == actor && r.endedAt.None? {
          runs := runs[i := r.(status := Cancelled, endedAt := Some(at))];
        }
      }
    }

    /** The runs an update writes: the editor's own on a duplicate, then the named one. */
    static method WriteRuns(t: Task, req: UpdateRequest, status: Status, actor: string, at: int,
            lease: nat) returns (runs: seq<Run>)
      requires status == NewStatus(t, req) && (req.run.Some? ==> req.run.value < |t.runs|)
      ensures runs == UpdatedRuns(t, req, actor, at, lease)
    {
      hide EndOwnRuns;
      runs := t.runs;
      if Marks(req) { runs := CancelOwnRuns(t.runs, req.run, actor, at); }
      if req.run.Some? {
        var r := runs[req.run.value];
        if status == Done || status == Cancelled || status == Waiting || status == Blocked {
          r := r.(status := status, leaseExpires := at, heartbeatAt := at, endedAt := Some(at));
        } else {
          r := r.(status := status, leaseExpires := at + lease, heartbeatAt := at, endedAt := None);
        }
        runs := runs[req.run.value := r];
      }
    }

    /** Where the task is filed and who owns it after an update. */
    static method WriteFiling(t: Task, req: UpdateRequest, order: int)
        returns (owner: string, section: string, sortOrder: int)
      ensures owner == UpdatedOwner(t, req) && section == UpdatedSection(t, req)
      ensures sortOrder == UpdatedOrder(t, req, order)
    {
      owner, section, sortOrder := t.owner, t.section, t.sortOrder;
      var visibility := t.visibility;
      if req.visibility.Some? { visibility := req.visibility.value; }
      if req.owner.Some? { owner := req.owner.value; }
      if visibility != t.visibility && (visibility == AgentLane || (visibility == Private && owner != t.createdBy)) {
        owner := "";
      }
      if req.section.Some? { section := NormalSection(req.section.value); }
      if section != t.section { sortOrder := order; }
    }

    /** The columns tied to the status after an update. */
    static method WriteStatus(t: Task, req: UpdateRequest, status: Status, kept: Option<(nat, string)>, at: int)
      returns (blocker: string, waitingFor: string, completed: Option<int>, link: Option<nat>)
      requires status == NewStatus(t, req)
      ensures blocker == UpdatedBlocker(t, req) && waitingFor == UpdatedWaitingFor(t, req)
      ensures completed == UpdatedCompletion(t, req, at)
      ensures link == UpdatedLink(t, req, kept)
    {
      blocker, waitingFor, completed, link := t.blocker, t.waitingFor, t.completedAt, t.duplicateOf;
      if req.blocker.Some? { blocker := req.blocker.value; }
      if req.waitingFor.Some? { waitingFor := req.waitingFor.value; }
      if status != Blocked { blocker := ""; }
      if status != Waiting { waitingFor := ""; }
      if Terminal(status) && !Terminal(t.status) { completed := Some(at); }
      if !Terminal(status) { completed := None; }
      if kept.Some? { link := Some(kept.value.0); }
      else if req.duplicateOf.Some? || (t.status == Cancelled && status != Cancelled) { link := None; }
    }

    /** The columns of the row an update writes. */
    static method WriteRow(t: Task, req: UpdateRequest, status: Status, kept: Option<(nat, string)>,
            order: int, actor: string, at: int) returns (row: Task)
      requires status == NewStatus(t, req)
      ensures row == UpdatedRow(t, req, kept, order, actor, at)
    {
      hide SetColumns, UpdatedOrder, UpdatedNote, UpdatedBlocker, UpdatedWaitingFor, UpdatedCompletion, UpdatedOwner,
          UpdatedSection, UpdatedLink, NewStatus, DefaultActor;
      var owner, section, sortOrder := WriteFiling(t, req, order);
      var blocker, waitingFor, completed, link := WriteStatus(t, req, status, kept, at);
      var reviewed := t.reviewedAt;
      if req.reviewed { reviewed := Some(at); }
      row := SetColumns(t, Or(req.title, t.title), Or(req.visibility, t.visibility), status, owner, section, sortOrder,
                        Or(req.deferUntil, t.deferUntil), Or(req.recurrence, t.recurrence), reviewed,
                        UpdatedNote(t, req, kept), blocker, waitingFor, completed, link,
                        DefaultActor(actor, t.createdBy), at);
    }

    /** The transaction up to the writes on the named task. */
    method EditTask(c: Call) returns (r: Result<Task>)
      requires c.op.Update?
      ensures r == UpdateOne(Snapshot(), c, lease)
    {
      var id, req := c.op.task, c.op.update;
      if !ValidUpdate(req) { return Err(Validation); }
      if id >= |tasks| { return Err(NotFound); }
      var t := tasks[id];
      if t.version != req.expected { return Err(Conflict); }
      var refusal := Guard(t, req, c.actor);
      if refusal.Some? { return Err(refusal.value); }
      var edited := EditChecklist(t.items, t.itemsIssued, req);
      if edited.Err? { return Err(edited.error); }
      var (items, issued) := edited.value;
      var status := NewStatus(t, req);
      var kept: Option<(nat, string)> := None;
      if Marks(req) {
        var root := ResolveDuplicateRoot(tasks, req.duplicateOf.value.value, id);
        if root.Err? { return Err(root.error); }
        kept := Some(root.value);
        if HeldByOthers(t, req, c.actor) { return Err(Validation); }
      }
      if status == Done && !MayComplete(t, items, Unblocked(Snapshot(), id)) { return Err(Validation); }
      if req.run.Some? && req.run.value >= |t.runs| { return Err(Validation); }
      if status == Active && t.status != Active && req.currentItem.None? { items := Checklist.ActivateFirst(items); }
      var row := WriteRow(t, req, status, kept, NextOrder(tasks, UpdatedSection(t, req)), c.actor, c.at);
      var runs := WriteRuns(t, req, status, c.actor, c.at, lease);
      r := Ok(row.(items := items, itemsIssued := issued, runs := runs));
    }

    method Update(c: Call) returns (answer: Answer)
      requires c.op.Update?
      requires Valid()
      modifies this
      ensures Valid()
      ensures answer == Verdict(UpdateBoard(old(Snapshot()), c, lease))
      ensures Snapshot() == Settled(old(Snapshot()), UpdateBoard(old(Snapshot()), c, lease))
    {
      hide Inv, UpdateOne, NextOccurrence, NextOrder, ReceiptOf, DefaultActor, Repoint, Marks, StartBoard, CreateBoard,
          LocalBoard, MoveBoard, BlockBoard;
      ghost var before := Snapshot();
      var edited := EditTask(c);
      if edited.Err? { return Failed(edited.error); }
      UpdateFiling(before, c, lease);
      var id, t, row := c.op.task, tasks[c.op.task], edited.value;
      tasks := tasks[id := row];
      if Marks(c.op.update) {
        tasks := Repoint(tasks, id, row.duplicateOf.value);
        events := events + [Event(row.duplicateOf.value, None, "task.duplicate_linked", row.lastEditedBy, c.at, None)];
      }
      assert tasks == Relinked(before, c, row);
      if row.status == Done && t.status != Done && row.recurrence != "" {
        events := events + [Event(|tasks|, None, "task.recurring_created", DefaultActor(c.actor, t.owner), c.at, None)];
        tasks := tasks + [NextOccurrence(row, NextOrder(tasks, row.section), row.lastEditedBy, c.at)];
      }
      events := events + [Event(id, c.op.update.run, "task.updated", DefaultActor(c.actor, t.owner), c.at,
          ReceiptOf(c))];
      assert events == before.events + UpdateEvents(before, c, row);
      assert Snapshot() == Settled(before, UpdateBoard(before, c, lease));
      TransactionIsValid(before, c, lease);
      answer := Stored;
    }

    // ----- Order and dependencies -----

    method Move(c: Call) returns (answer: Answer)
      requires c.op.Move?
      requires Valid()
      modifies this
      ensures Valid()
      ensures answer == Verdict(MoveBoard(old(Snapshot()), c))
      ensures Snapshot() == Settled(old(Snapshot()), MoveBoard(old(Snapshot()), c))
    {
      hide Inv;
      var id := c.op.task;
      if c.op.expected < 1 { return Failed(Validation); }
      if id >= |tasks| { return Failed(NotFound); }
      var current := tasks[id];
      if current.version != c.op.expected { return Failed(Conflict); }
      if Terminal(current.status) { return Failed(Validation); }
      ValidIsDistinct(Snapshot());
      var n := FindNeighbour(tasks, id, c.op.up);
      if n.None? { return Stored; }
      var neighbour := tasks[n.value];
      tasks := tasks[n.value := neighbour.(sortOrder := current.sortOrder, updatedAt := c.at)];
      tasks := tasks[id := current.(sortOrder := neighbour.sortOrder, version := current.version + 1,
          updatedAt := c.at)];
      var actor := DefaultActor(c.actor, current.owner);
      events := events + [Event(id, None, "task.moved", actor, c.at, None),
          Event(n.value, None, "task.moved", actor, c.at, None)];
      TransactionIsValid(old(Snapshot()), c, lease);
      answer := Stored;
    }

    method AddDependency(c: Call) returns (answer: Answer)
      requires c.op.Block?
      requires Valid()
      modifies this
      ensures Valid()
      ensures answer == Verdict(BlockBoard(old(Snapshot()), c))
      ensures Snapshot() == Settled(old(Snapshot()), BlockBoard(old(Snapshot()), c))
    {
      hide Inv;
      var id, blocker := c.op.task, c.op.blockedBy;
      if id == blocker || c.op.expected < 1 { return Failed(Validation); }
      if id >= |tasks| || blocker >= |tasks| { return Failed(NotFound); }
      var t := tasks[id];
      if t.version != c.op.expected { return Failed(Conflict); }
      var chain := Graph.Chain(blockedBy, blocker);
      if id in chain { return Failed(Validation); }
      if (id, blocker) in blockedBy { return Failed(Validation); }
      blockedBy := blockedBy + {(id, blocker)};
      tasks := tasks[id := t.(lastEditedBy := c.actor, version := t.version + 1, updatedAt := c.at)];
      events := events + [Event(id, None, "task.dependency_added", c.actor, c.at, None)];
      TransactionIsValid(old(Snapshot()), c, lease);
      answer := Stored;
    }

    method RemoveDependency(c: Call) returns (answer: Answer)
      requires c.op.Unblock?
      requires Valid()
      modifies this
      ensures Valid()
      ensures answer == Verdict(UnblockBoard(old(Snapshot()), c))
      ensures Snapshot() == Settled(old(Snapshot()), UnblockBoard(old(Snapshot()), c))
    {
      hide Inv;
      var id, blocker := c.op.task, c.op.blockedBy;
      if id >= |tasks| { return Failed(NotFound); }
      var t := tasks[id];
      if t.version != c.op.expected { return Failed(Conflict); }
      if (id, blocker) !in blockedBy { return Failed(NotFound); }
      blockedBy := blockedBy - {(id, blocker)};
      tasks := tasks[id := t.(lastEditedBy := c.actor, version := t.version + 1, updatedAt := c.at)];
      events := events + [Event(id, None, "task.dependency_removed", c.actor, c.at, None)];
      TransactionIsValid(old(Snapshot()), c, lease);
      answer := Stored;
    }

    // ----- Retryable requests -----

    /** Every request that may carry a key: early refusals, then the recorded answer if the key was used, else the
        transaction. */
    method ServeKeyed(c: Call) returns (answer: Answer)
      requires Keyed(c.op)
      requires Valid()
      modifies this
      ensures Valid()
      ensures answer == Summary(Serve(old(Snapshot()), c, lease))
      ensures Snapshot() == After(old(Snapshot()), c, lease)
    {
      hide Inv, EarlyRefusal, Normal, FindRecord, ValidKey, StartBoard, CreateBoard, LocalBoard, UpdateBoard, MoveBoard,
          BlockBoard, UnblockBoard, FireBoard;
      if LooksUp(c) && c.key != "" {
        var refusal := EarlyRefusal(Snapshot(), c);
        if refusal.Some? { return Failed(refusal.value); }
        if !ValidKey(c.key) { return Failed(Validation); }
        var record := ReplayIdempotency(events, c.actor, c.op, c.key);
        if record.Some? {
          var e := events[record.value];
          if !Matches(e.receipt.value, c.op) { return Failed(Conflict); }
          return Repeated(e.task, e.run);
        }
      }
      match c.op {
        case Start(_) => answer := Start(c);
        case Create(_) => answer := Create(c);
        case Claim(_, _) => answer := Claim(c);
        case Update(_, _) => answer := Update(c);
        case Escalate(_, _, _, _, _, _, _, _, _) => answer := CreateEscalation(c);
        case Resolve(_, _, _, _, _) => answer := ResolveEscalation(c);
        case RequestControl(_, _, _, _, _) => answer := CreateRunControl(c);
        case AnswerControl(_, _, _, _, _) => answer := UpdateRunControl(c);
      }
    }
  }

  /** A transaction that starts from a valid board leaves one, committed or not. */
  lemma StoredIsValid(b: Board, c: Call, lease: nat)
    requires Inv(b)
    ensures Inv(Settled(b, Execute(b, c, lease)))
  {
    hide Inv, Execute;
    if Execute(b, c, lease).Ok? { ExecuteKeepsInv(b, c, lease); }
  }

  lemma TransactionIsValid(b: Board, c: Call, lease: nat)
    requires Inv(b)
    ensures c.op.Start? ==> Inv(Settled(b, StartBoard(b, c, lease)))
    ensures c.op.Create? ==> Inv(Settled(b, CreateBoard(b, c)))
    ensures c.op.Update? ==> Inv(Settled(b, UpdateBoard(b, c, lease)))
    ensures c.op.Move? ==> Inv(Settled(b, MoveBoard(b, c)))
    ensures c.op.Block? ==> Inv(Settled(b, BlockBoard(b, c)))
    ensures c.op.Unblock? ==> Inv(Settled(b, UnblockBoard(b, c)))
    ensures c.op.SweepRuns? ==> Inv(b.(tasks := SweptRuns(b.tasks, c.op.since)))
    ensures c.op.SweepTasks? ==> Inv(b.(tasks := SweptTasks(b.tasks, c.op.since)))
    ensures Local(c.op) ==> Inv(Settled(b, LocalBoard(b, c, lease)))
  {
    hide Inv, StartBoard, CreateBoard, UpdateBoard, MoveBoard, BlockBoard, UnblockBoard, LocalBoard, FireBoard,
        SweptRuns, SweptTasks;
    StoredIsValid(b, c, lease);
  }

  lemma ValidIsDistinct(b: Board)
    requires Inv(b)
    ensures Distinct(b.tasks)
  {
  }

  lemma ExpiryIsServed(b: Board, c: Call, lease: nat)
    requires c.op.ExpireControl?
    ensures After(b, c, lease) == Settled(b, LocalBoard(b, c, lease))
  {
  }
}
