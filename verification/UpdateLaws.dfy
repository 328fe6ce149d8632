/**
 What an update takes and leaves, said of the request and the stored rows alone: each column is the
 requested value if one was given and the old one otherwise, apart from the clearing rules
 spelled out here.
 */
module UpdateLaws {
  import opened Model
  import opened TaskSteps
  import opened Updates
  import opened Taskboard
  import opened BoardInvariants
  import opened Duplicates
  import opened TaskLaws
  import opened BoardLaws
  import Checklist

  /** The value given, or else the current one. */
  function Given<T>(value: Option<T>, current: T): T {
    match value
    case Some(v) => v
    case None => current
  }

  /** The request names a task to keep in place of this one. */
  predicate NamesKept(req: UpdateRequest) {
    req.duplicateOf != None && req.duplicateOf.value != None
  }

  /** The status asked for: the one given, else cancelled for a duplicate, else no change. */
  function StatusAsked(t: Task, req: UpdateRequest): Status {
    Given(req.status, if NamesKept(req) then Cancelled else t.status)
  }

  // ----- When an update commits -----

  ghost predicate WellUpdated(req: UpdateRequest) {
    && 1 <= req.expected
    && (NamesKept(req) ==> Given(req.status, Cancelled) == Cancelled)
    && |Given(req.note, "")| <= 300 && |Given(req.blocker, "")| <= 300 && |Given(req.waitingFor, "")| <= 300
    && (req.status == Some(Blocked) ==> Given(req.blocker, "") != "")
    && (req.status == Some(Waiting) ==> Given(req.waitingFor, "") != "")
    && (req.skipItems == [] || req.skipReason != "")
    && |Given(req.owner, "")| <= 100 && |Given(req.section, "")| <= 80
    && 1 <= |Given(req.title, "-")| <= 200
    && Given(req.recurrence, "") in ["", "daily", "weekly", "monthly"]
    && |Given(req.checklist, [])| <= 100 && |req.addItems| <= 50
    && (forall k :: 0 <= k < |Given(req.checklist, [])| ==> 1 <= |Given(req.checklist, [])[k]| <= 300)
  }

  /** Someone holds the task. */
  predicate Taken(t: Task) {
    exists k :: 0 <= k < |t.runs| && Holding(t.runs[k])
  }

  /** Visibility, owner and the whole checklist change only on tasks nobody works on, only their creator makes
      them private, and the agents' lane has no owners. */
  ghost predicate MayRefile(t: Task, req: UpdateRequest, actor: string) {
    var v := Given(req.visibility, t.visibility);
    && (v != t.visibility ==> !Taken(t))
    && (v != t.visibility && v == Private ==> t.createdBy == actor != "")
    && (v != t.visibility && v == AgentLane ==> t.status in {Queued, Stale, Done, Cancelled})
    && (Given(req.owner, t.owner) != t.owner ==> !Taken(t))
    && (v == AgentLane ==> Given(req.owner, "") == "")
    && (req.checklist != None ==> t.status == Queued && t.runs == [])
  }

  /** The rows the item lists of the request are about: a new checklist, or the current one. */
  function Rows(t: Task, req: UpdateRequest): seq<Item> {
    match req.checklist
    case None => t.items
    case Some(labels) =>
      seq(|labels|, k requires 0 <= k < |labels| => Item(t.itemsIssued + k, labels[k], ItemTodo, k, true))
  }

  /** Every item the request names exists, and the one to focus on is left open. */
  ghost predicate MayMark(base: seq<Item>, req: UpdateRequest) {
    && (forall id :: id in req.completeItems || id in req.skipItems ==> exists k :: 0 <= k < |base| && base[k].id == id)
    && (req.currentItem != None ==>
          && req.currentItem.value !in req.completeItems && req.currentItem.value !in req.skipItems
          && exists k :: 0 <= k < |base| && base[k].id == req.currentItem.value
                         && base[k].status != ItemDone && base[k].status != ItemSkipped)
    && (forall k :: 0 <= k < |req.addItems| ==> 1 <= |req.addItems[k]| <= 300)
  }

  /** The status the request gives one item. */
  function ItemAsked(item: Item, req: UpdateRequest): ItemStatus {
    if req.currentItem == Some(item.id) then ItemActive
    else if item.id in req.skipItems then ItemSkipped
    else if item.id in req.completeItems then ItemDone
    else if req.currentItem != None && item.status == ItemActive then ItemTodo
    else item.status
  }

  /** Nothing required is open once the request is carried out, no requirement is pending, and every blocker is done. */
  ghost predicate Finished(b: Board, i: nat, req: UpdateRequest)
    requires i < |b.tasks|
  {
    var base := Rows(b.tasks[i], req);
    && req.addItems == []
    && (forall k :: 0 <= k < |base| && base[k].required ==> ItemAsked(base[k], req) in {ItemDone, ItemSkipped})
    && (forall k :: 0 <= k < |b.tasks[i].requirements| && b.tasks[i].requirements[k].required ==>
          b.tasks[i].requirements[k].status != Pending)
    && BlockersDone(b, i)
  }

  /** The task to keep exists, is not this one nor a duplicate of it, and nobody else holds this one. */
  ghost predicate MayMerge(b: Board, i: nat, req: UpdateRequest, actor: string)
    requires i < |b.tasks| && NamesKept(req)
  {
    var kept := req.duplicateOf.value.value;
    && kept < |b.tasks| && kept != i && b.tasks[kept].duplicateOf != Some(i)
    && forall k :: 0 <= k < |b.tasks[i].runs| && Holding(b.tasks[i].runs[k]) ==>
         req.run == Some(k) || b.tasks[i].runs[k].agent == actor
  }

  ghost predicate MayUpdate(b: Board, c: Call)
    requires c.op.Update?
  {
    var i, req := c.op.task, c.op.update;
    && WellUpdated(req) && i < |b.tasks|
    && var t := b.tasks[i];
       && t.version == req.expected
       && MayRefile(t, req, c.actor)
       && MayMark(Rows(t, req), req)
       && (NamesKept(req) ==> MayMerge(b, i, req, c.actor))
       && (StatusAsked(t, req) == Done ==> Finished(b, i, req))
       && (req.run == None || req.run.value < |t.runs|)
  }

  // ----- What it leaves -----

  /** Items keep their rows and get the status asked for; added ones follow with new ids and positions. */
  ghost predicate Remade(base: seq<Item>, issued: nat, req: UpdateRequest, items: seq<Item>) {
    && |items| == |base| + |req.addItems|
    && (forall k :: 0 <= k < |base| ==> items[k] == base[k].(status := ItemAsked(base[k], req)))
    && exists p :: Position(base, p) && forall k :: 0 <= k < |req.addItems| ==>
         items[|base| + k] == Item(issued + k, req.addItems[k], ItemTodo, p + k, true)
  }

  /** The position just behind all of these. */
  ghost predicate Position(items: seq<Item>, p: int) {
    && (items == [] ==> p == 0)
    && (items != [] ==> exists k :: 0 <= k < |items| && p == items[k].position + 1)
    && (forall k :: 0 <= k < |items| ==> items[k].position < p)
  }

  /** Where the task ends up when it is merged into another: that one, or the one that is itself kept for. */
  function KeptTask(tasks: seq<Task>, kept: nat): nat
    requires kept < |tasks|
  {
    match tasks[kept].duplicateOf
    case None => kept
    case Some(other) => other
  }

  predicate Closed(s: Status) {
    s == Done || s == Cancelled
  }

  /** Nobody owns a task that goes to the agents' lane, nor one made private that its creator does not own. */
  function OwnerLeft(t: Task, req: UpdateRequest): string {
    var v, owner := Given(req.visibility, t.visibility), Given(req.owner, t.owner);
    if v != t.visibility && (v == AgentLane || (v == Private && owner != t.createdBy)) then "" else owner
  }

  /** The time of completion is that of the first step into done or cancelled. */
  function CompletionLeft(t: Task, req: UpdateRequest, at: int): Option<int> {
    if !Closed(StatusAsked(t, req)) then None else if Closed(t.status) then t.completedAt else Some(at)
  }

  /** The link of a merged task; it goes when it is cleared or when the task is no longer cancelled. */
  function LinkLeft(t: Task, req: UpdateRequest, kept: Option<(nat, string)>): Option<nat> {
    match kept
    case Some(k) => Some(k.0)
    case None =>
      if req.duplicateOf != None || (t.status == Cancelled && StatusAsked(t, req) != Cancelled) then None
      else t.duplicateOf
  }

  function NoteLeft(t: Task, req: UpdateRequest, kept: Option<(nat, string)>): string {
    if req.note == None && kept != None then Short("Duplicate of " + kept.value.1) else Given(req.note, t.note)
  }

  /** What a task is blocked by or waits for is kept only while it is blocked or waiting. */
  function TextLeft(t: Task, req: UpdateRequest, status: Status, given: Option<string>, current: string): string {
    if StatusAsked(t, req) == status then Given(given, current) else ""
  }

  /** The task that is kept in place of this one, and its title. */
  ghost predicate IsKept(tasks: seq<Task>, req: UpdateRequest, kept: Option<(nat, string)>) {
    if !NamesKept(req) then kept == None
    else
      && req.duplicateOf.value.value < |tasks| && KeptTask(tasks, req.duplicateOf.value.value) < |tasks|
      && var k := KeptTask(tasks, req.duplicateOf.value.value); kept == Some((k, tasks[k].title))
  }

  /** The named row, apart from its items and runs. */
  ghost predicate RowLeft(b: Board, c: Call, t': Task)
    requires c.op.Update? && c.op.task < |b.tasks|
  {
    exists kept :: IsKept(b.tasks, c.op.update, kept) && ColumnsLeft(b, c, kept, t')
  }

  ghost predicate ColumnsLeft(b: Board, c: Call, kept: Option<(nat, string)>, t': Task)
    requires c.op.Update? && c.op.task < |b.tasks|
  {
    var t, req := b.tasks[c.op.task], c.op.update;
    var section := if req.section == None then t.section else Filed(req.section.value);
    && (if section == t.section then t'.sortOrder == t.sortOrder else Last(b.tasks, section, t'.sortOrder))
    && t' == t.(
               status := StatusAsked(t, req), title := Given(req.title, t.title),
               visibility := Given(req.visibility, t.visibility), section := section, sortOrder := t'.sortOrder,
               deferUntil := Given(req.deferUntil, t.deferUntil), recurrence := Given(req.recurrence, t.recurrence),
               reviewedAt := if req.reviewed then Some(c.at) else t.reviewedAt,
               owner := OwnerLeft(t, req), note := NoteLeft(t, req, kept),
               blocker := TextLeft(t, req, Blocked, req.blocker, t.blocker),
               waitingFor := TextLeft(t, req, Waiting, req.waitingFor, t.waitingFor),
               completedAt := CompletionLeft(t, req, c.at), duplicateOf := LinkLeft(t, req, kept),
               lastEditedBy := if c.actor == "" then t.createdBy else c.actor,
               version := t.version + 1, updatedAt := c.at,
               items := t'.items, itemsIssued := t.itemsIssued + |Given(req.checklist, [])| + |req.addItems|,
               runs := t'.runs)
  }

  /** The run named takes the task's status, and is over or gets a full lease; runs of the caller end with a
      duplicate. */
  ghost predicate RunsLeft(t: Task, c: Call, lease: nat, runs: seq<Run>)
    requires c.op.Update?
  {
    && |runs| == |t.runs|
    && forall k :: 0 <= k < |runs| ==>
         var r, status := t.runs[k], StatusAsked(t, c.op.update);
         runs[k] ==
         if c.op.update.run == Some(k) then
           if status in {Done, Cancelled, Waiting, Blocked}
           then r.(status := status, leaseExpires := c.at, heartbeatAt := c.at, endedAt := Some(c.at))
           else r.(status := status, leaseExpires := c.at + lease, heartbeatAt := c.at, endedAt := None)
         else if NamesKept(c.op.update) && r.agent == c.actor && r.endedAt == None
         then r.(status := Cancelled, endedAt := Some(c.at))
         else r
  }

  /** A task that becomes active without a current item gets one. */
  ghost predicate ItemsLeft(t: Task, req: UpdateRequest, items: seq<Item>) {
    var base, issued := Rows(t, req), t.itemsIssued + |Given(req.checklist, [])|;
    if StatusAsked(t, req) == Active && t.status != Active && req.currentItem == None
    then exists marked :: Remade(base, issued, req, marked) && FirstActivated(marked, items)
    else Remade(base, issued, req, items)
  }

  /** Every other row, with the duplicates of a merged task pointing past it. */
  ghost predicate OthersLeft(b: Board, c: Call, tasks: seq<Task>)
    requires c.op.Update? && c.op.task < |b.tasks| <= |tasks|
  {
    forall j :: 0 <= j < |b.tasks| && j != c.op.task ==>
      tasks[j] ==
      if NamesKept(c.op.update) && b.tasks[j].duplicateOf == Some(c.op.task)
      then b.tasks[j].(duplicateOf := tasks[c.op.task].duplicateOf) else b.tasks[j]
  }

  predicate Repeats(t: Task, t': Task) {
    t.status != Done && t'.status == Done && t'.recurrence != ""
  }

  /** A recurring task that is completed leaves its next occurrence: queued, unfinished, at the end of the section. */
  ghost predicate NextLeft(t: Task, t': Task, n: nat, tasks: seq<Task>, at: int)
    requires n <= |tasks|
  {
    if !Repeats(t, t') then |tasks| == n
    else
      && |tasks| == n + 1
      && var next := tasks[n];
         && Last(tasks[..n], t'.section, next.sortOrder)
         && |next.items| == |t'.items|
         && (forall k :: 0 <= k < |next.items| ==>
               next.items[k] == Item(k, t'.items[k].text, ItemTodo, k, t'.items[k].required))
         && next == Task(t'.title, t'.section, next.sortOrder, t'.visibility, t'.createdBy, "", t'.lastEditedBy, Queued,
                         "", "", "", t'.recurrence, None, None, None, None, 1, at, next.items, |t'.items|,
                         [], [], [], [], None)
  }

  /** One event on the task, after one on the task it was merged into and one on the next occurrence. */
  function EventsLeft(b: Board, c: Call, t': Task): seq<Event>
    requires c.op.Update? && c.op.task < |b.tasks| && (NamesKept(c.op.update) ==> t'.duplicateOf != None)
  {
    var t := b.tasks[c.op.task];
    var actor := if c.actor == "" then t.owner else c.actor;
    (if NamesKept(c.op.update)
     then [Event(t'.duplicateOf.value, None, "task.duplicate_linked", t'.lastEditedBy, c.at, None)] else [])
    + (if Repeats(t, t') then [Event(|b.tasks|, None, "task.recurring_created", actor, c.at, None)] else [])
    + [Event(c.op.task, c.op.update.run, "task.updated", actor, c.at, OwnRecord(c))]
  }

  // ----- Why -----

  lemma MarkAllowed(base: seq<Item>, req: UpdateRequest)
    ensures MayMark(base, req) <==>
              Checklist.Mark(base, req).Ok? && forall k :: 0 <= k < |req.addItems| ==> 1 <= |req.addItems[k]| <= 300
    ensures Checklist.Mark(base, req).Ok? ==>
              var marked := Checklist.Mark(base, req).value;
              |marked| == |base| && forall k :: 0 <= k < |base| ==>
                  marked[k] == base[k].(status := ItemAsked(base[k], req))
  {
    hide Checklist.Mark;
    Checklist.MarkMeans(base, req);
    assert forall id :: Checklist.HasItem(base, id) <==> exists k :: 0 <= k < |base| && base[k].id == id;
  }

  lemma AddMeans(base: seq<Item>, marked: seq<Item>, issued: nat, req: UpdateRequest)
    requires |marked| == |base|
    requires forall k :: 0 <= k < |base| ==> marked[k] == base[k].(status := ItemAsked(base[k], req))
    ensures Checklist.AddAll(marked, req.addItems, issued).Ok? <==>
              forall k :: 0 <= k < |req.addItems| ==> 1 <= |req.addItems[k]| <= 300
    ensures Checklist.AddAll(marked, req.addItems, issued).Ok? ==>
              Remade(base, issued, req, Checklist.AddAll(marked, req.addItems, issued).value)
  {
    hide ItemAsked;
    var p := Checklist.NextPosition(marked);
    if base != [] {
      var k :| 0 <= k < |marked| && p == marked[k].position + 1;
      assert p == base[k].position + 1;
    }
    assert Position(base, p);
  }

  lemma RowsMeans(t: Task, req: UpdateRequest)
    ensures Rows(t, req) ==
            if req.checklist.Some? then Checklist.NewItems(req.checklist.value, 0, t.itemsIssued) else t.items
  {
  }

  lemma EditMeans(t: Task, req: UpdateRequest)
    ensures Checklist.Edit(t.items, t.itemsIssued, req).Ok? <==> MayMark(Rows(t, req), req)
    ensures MayMark(Rows(t, req), req) ==>
              var edited := Checklist.Edit(t.items, t.itemsIssued, req).value;
              var next := t.itemsIssued + |Given(req.checklist, [])|;
              Remade(Rows(t, req), next, req, edited.0) && edited.1 == next + |req.addItems|
  {
    hide Checklist.Mark, Checklist.AddAll, Checklist.NewItems, MayMark, Remade, Rows, ItemAsked;
    var base, next := Rows(t, req), t.itemsIssued + |Given(req.checklist, [])|;
    RowsMeans(t, req);
    MarkAllowed(base, req);
    if Checklist.Mark(base, req).Ok? { AddMeans(base, Checklist.Mark(base, req).value, next, req); }
  }

  lemma FieldsAgree(req: UpdateRequest)
    ensures ValidUpdate(req) <==> WellUpdated(req)
  {
  }

  lemma GuardAgrees(t: Task, req: UpdateRequest, actor: string)
    ensures Guard(t, req, actor).None? <==> MayRefile(t, req, actor)
    ensures Guard(t, req, actor) == Some(Forbidden) ==>
              req.visibility == Some(Private) && t.visibility != Private && !(t.createdBy == actor != "")
    ensures Guard(t, req, actor).None? || Guard(t, req, actor).value in {Forbidden, Validation}
  {
    assert HasLiveRun(t) <==> Taken(t);
  }

  lemma MergeAgrees(b: Board, i: nat, req: UpdateRequest, actor: string)
    requires i < |b.tasks| && (NamesKept(req) ==> Star(b.tasks))
    ensures !NamesKept(req) ==> Kept(b.tasks, i, req) == Ok(None)
    ensures NamesKept(req) ==>
              (MayMerge(b, i, req, actor) <==> Kept(b.tasks, i, req).Ok? && !HeldByOthers(b.tasks[i], req, actor))
    ensures NamesKept(req) && Kept(b.tasks, i, req).Ok? ==>
              var kept := req.duplicateOf.value.value;
              && kept < |b.tasks| && KeptTask(b.tasks, kept) < |b.tasks|
              && Kept(b.tasks, i, req) == Ok(Some((KeptTask(b.tasks, kept), b.tasks[KeptTask(b.tasks, kept)].title)))
    ensures Kept(b.tasks, i, req).Ok? || Kept(b.tasks, i, req).error == Validation
  {
    if NamesKept(req) {
      DepthLimitUnreachable(b.tasks, req.duplicateOf.value.value, i, MAX_HOPS);
      hide ResolveRoot;
    }
  }

  lemma AddedIsOpen(base: seq<Item>, issued: nat, req: UpdateRequest, items: seq<Item>)
    requires Remade(base, issued, req, items)
    ensures req.addItems == [] || Checklist.OpenRequired(items[|base|])
  {
    if req.addItems != [] {
      var p :| Position(base, p) && forall k :: 0 <= k < |req.addItems| ==>
        items[|base| + k] == Item(issued + k, req.addItems[k], ItemTodo, p + k, true);
      assert items[|base| + 0] == Item(issued + 0, req.addItems[0], ItemTodo, p + 0, true);
    }
  }

  lemma DoneAgrees(b: Board, i: nat, req: UpdateRequest, items: seq<Item>, issued: nat)
    requires i < |b.tasks| && Remade(Rows(b.tasks[i], req), issued, req, items)
    ensures MayComplete(b.tasks[i], items, Unblocked(b, i)) <==> Finished(b, i, req)
  {
    hide Rows, ItemAsked;
    var base := Rows(b.tasks[i], req);
    AddedIsOpen(base, issued, req, items);
    if Finished(b, i, req) {
      forall k | 0 <= k < |items| ensures !Checklist.OpenRequired(items[k]) {
        assert items[k] == base[k].(status := ItemAsked(base[k], req));
      }
    }
    if MayComplete(b.tasks[i], items, Unblocked(b, i)) {
      forall k | 0 <= k < |base| && base[k].required ensures ItemAsked(base[k], req) in {ItemDone, ItemSkipped} {
        assert items[k] == base[k].(status := ItemAsked(base[k], req)) && !Checklist.OpenRequired(items[k]);
      }
    }
  }

  lemma UpdateOutcome(b: Board, c: Call, lease: nat)
    requires c.op.Update?
    ensures Execute(b, c, lease).Ok? <==> UpdateOne(b, c, lease).Ok?
    ensures Execute(b, c, lease).Err? ==> UpdateOne(b, c, lease) == Err(Execute(b, c, lease).error)
  {
    hide UpdateOne, Execute, Relinked, UpdateEvents, NextOccurrence;
    UpdateIsExecuted(b, c, lease);
    if UpdateOne(b, c, lease).Ok? { UpdateOneLinks(b, c, lease); }
  }

  /** An update commits exactly when its fields are in bounds, its version is current, the caller may make the change,
      the items, the run and the task to keep exist, and a task left done is finished. */
  lemma UpdateCommits(b: Board, c: Call, lease: nat)
    requires c.op.Update? && (NamesKept(c.op.update) ==> Star(b.tasks))
    ensures Execute(b, c, lease).Ok? <==> MayUpdate(b, c)
    ensures Execute(b, c, lease).Err? ==>
              match Execute(b, c, lease).error
              case NotFound => WellUpdated(c.op.update) && c.op.task >= |b.tasks|
              case Conflict => c.op.task < |b.tasks| && b.tasks[c.op.task].version != c.op.update.expected
              case Forbidden =>
                && c.op.update.visibility == Some(Private) && c.op.task < |b.tasks|
                && b.tasks[c.op.task].visibility != Private && !(b.tasks[c.op.task].createdBy == c.actor != "")
              case Validation =>
                WellUpdated(c.op.update) ==>
                  c.op.task < |b.tasks| && b.tasks[c.op.task].version == c.op.update.expected
              case RateLimit => false
  {
    hide Execute, UpdateBoard, ValidUpdate, WellUpdated, Guard, MayRefile, Kept, HeldByOthers, MayMerge, MayMark, Rows,
        MayComplete, Finished, Unblocked, Checklist.Edit, Remade, UpdatedRow, UpdatedItems, UpdatedRuns, Star;
    UpdateOutcome(b, c, lease);
    var i, req := c.op.task, c.op.update;
    FieldsAgree(req);
    if i < |b.tasks| {
      var t := b.tasks[i];
      GuardAgrees(t, req, c.actor);
      EditMeans(t, req);
      MergeAgrees(b, i, req, c.actor);
      if MayMark(Rows(t, req), req) {
        DoneAgrees(b, i, req, Checklist.Edit(t.items, t.itemsIssued, req).value.0,
                   t.itemsIssued + |Given(req.checklist, [])|);
      }
      EditFails(t, req);
    }
  }

  lemma EditFails(t: Task, req: UpdateRequest)
    ensures Checklist.Edit(t.items, t.itemsIssued, req).Ok?
            || Checklist.Edit(t.items, t.itemsIssued, req).error == Validation
  {
    MarkFails(Rows(t, req), req);
    RowsMeans(t, req);
    hide Checklist.Mark, Rows;
  }

  lemma MarkFails(items: seq<Item>, req: UpdateRequest)
    ensures Checklist.Mark(items, req).Ok? || Checklist.Mark(items, req).error == Validation
  {
    SetAllFails(items, req.completeItems, ItemDone);
    if Checklist.SetAll(items, req.completeItems, ItemDone).Ok? {
      SetAllFails(Checklist.SetAll(items, req.completeItems, ItemDone).value, req.skipItems, ItemSkipped);
    }
  }

  lemma {:induction false} SetAllFails(items: seq<Item>, ids: seq<nat>, status: ItemStatus)
    ensures Checklist.SetAll(items, ids, status).Ok? || Checklist.SetAll(items, ids, status).error == Validation
    decreases |ids|
  {
    if ids != [] { SetAllFails(Checklist.SetStatus(items, ids[0], status), ids[1..], status); }
  }

  lemma ReportMeans(t: Task, c: Call, lease: nat)
    requires c.op.Update? && (c.op.update.run.Some? ==> c.op.update.run.value < |t.runs|)
    ensures RunsLeft(t, c, lease, UpdatedRuns(t, c.op.update, c.actor, c.at, lease))
  {
  }

  lemma ColumnsMean(t: Task, req: UpdateRequest, kept: Option<(nat, string)>, at: int)
    requires |Given(req.note, "")| <= 300
    ensures NewStatus(t, req) == StatusAsked(t, req)
    ensures UpdatedOwner(t, req) == OwnerLeft(t, req)
    ensures UpdatedNote(t, req, kept) == NoteLeft(t, req, kept)
    ensures UpdatedBlocker(t, req) == TextLeft(t, req, Blocked, req.blocker, t.blocker)
    ensures UpdatedWaitingFor(t, req) == TextLeft(t, req, Waiting, req.waitingFor, t.waitingFor)
    ensures UpdatedLink(t, req, kept) == LinkLeft(t, req, kept)
    ensures UpdatedCompletion(t, req, at) == CompletionLeft(t, req, at)
  {
  }

  lemma RowMeans(b: Board, c: Call, kept: Option<(nat, string)>, t': Task)
    requires c.op.Update? && c.op.task < |b.tasks| && |Given(c.op.update.note, "")| <= 300
    requires var t, req := b.tasks[c.op.task], c.op.update;
             t' == UpdatedRow(t, req, kept, NextOrder(b.tasks, UpdatedSection(t, req)), c.actor, c.at).(
                     itemsIssued := t.itemsIssued + |Given(req.checklist, [])| + |req.addItems|,
                     items := t'.items, runs := t'.runs)
    ensures ColumnsLeft(b, c, kept, t')
  {
    hide NextOrder, UpdatedOwner, UpdatedNote, UpdatedBlocker, UpdatedWaitingFor, UpdatedLink, UpdatedCompletion,
        NewStatus, StatusAsked, OwnerLeft, NoteLeft, TextLeft, LinkLeft, CompletionLeft, Last;
    var t, req := b.tasks[c.op.task], c.op.update;
    NextOrderMeans(b.tasks, UpdatedSection(t, req));
    ColumnsMean(t, req, kept, c.at);
  }

  /** The named row after an update. */
  lemma UpdatedRowMeans(b: Board, c: Call, lease: nat)
    requires c.op.Update? && (NamesKept(c.op.update) ==> Star(b.tasks)) && MayUpdate(b, c)
    ensures UpdateOne(b, c, lease).Ok?
    ensures var t, t' := b.tasks[c.op.task], UpdateOne(b, c, lease).value;
            RowLeft(b, c, t') && RunsLeft(t, c, lease, t'.runs) && ItemsLeft(t, c.op.update, t'.items)
  {
    hide Execute, ValidUpdate, Guard, MayRefile, Kept, HeldByOthers, MayMerge, MayMark, Rows,
        MayComplete, Finished, Unblocked, Checklist.Edit, Remade, UpdatedRow, UpdatedRuns, Star, RunsLeft, ColumnsLeft,
        Checklist.ActivateFirst, FirstActivated, NextOrder;
    var t, req := b.tasks[c.op.task], c.op.update;
    UpdateCommits(b, c, lease);
    UpdateOutcome(b, c, lease);
    MergeAgrees(b, c.op.task, req, c.actor);
    EditMeans(t, req);
    ReportMeans(t, c, lease);
    ActivateFirstMeans(Checklist.Edit(t.items, t.itemsIssued, req).value.0);
    var kept := Kept(b.tasks, c.op.task, req).value;
    RowMeans(b, c, kept, UpdateOne(b, c, lease).value);
    assert IsKept(b.tasks, req, kept);
  }

  lemma BoardMeans(b: Board, c: Call, lease: nat)
    requires c.op.Update? && UpdateOne(b, c, lease).Ok?
    ensures c.op.task < |b.tasks| && (NamesKept(c.op.update) ==> UpdateOne(b, c, lease).value.duplicateOf != None)
    ensures UpdateBoard(b, c, lease).Ok?
    ensures var t', b' := UpdateOne(b, c, lease).value, UpdateBoard(b, c, lease).value;
            && |b.tasks| <= |b'.tasks| && b'.tasks[c.op.task] == t'
            && OthersLeft(b, c, b'.tasks) && NextLeft(b.tasks[c.op.task], t', |b.tasks|, b'.tasks, c.at)
            && b' == Board(b'.tasks, b.blockedBy, b.events + EventsLeft(b, c, t'))
  {
    hide UpdateOne, UpdateEvents, NextOrder, NextOccurrence, NextLeft, EventsLeft, OthersLeft, Relinked;
    UpdateOneLinks(b, c, lease);
    var t, t' := b.tasks[c.op.task], UpdateOne(b, c, lease).value;
    RelinkedMeans(b, c, t');
    OccurrenceMeans(t, t', Relinked(b, c, t'), c.at);
    EventsMeans(b, c, t');
    var tasks, b' := Relinked(b, c, t'), UpdateBoard(b, c, lease).value;
    OthersGrow(b, c, tasks, b'.tasks);
  }

  lemma RelinkedMeans(b: Board, c: Call, t': Task)
    requires c.op.Update? && c.op.task < |b.tasks|
    requires Marks(c.op.update) ==> t'.duplicateOf.Some? && t'.duplicateOf.value != c.op.task
    ensures var tasks := Relinked(b, c, t');
            |tasks| == |b.tasks| && tasks[c.op.task] == t' && OthersLeft(b, c, tasks)
  {
  }

  lemma OthersGrow(b: Board, c: Call, tasks: seq<Task>, more: seq<Task>)
    requires c.op.Update? && c.op.task < |b.tasks| == |tasks| <= |more| && tasks == more[..|tasks|]
    requires OthersLeft(b, c, tasks)
    ensures OthersLeft(b, c, more) && more[c.op.task] == tasks[c.op.task]
  {
    assert forall j :: 0 <= j < |tasks| ==> more[j] == tasks[j];
  }

  lemma EventsMeans(b: Board, c: Call, t': Task)
    requires c.op.Update? && c.op.task < |b.tasks| && (NamesKept(c.op.update) ==> t'.duplicateOf != None)
    ensures UpdateEvents(b, c, t') == EventsLeft(b, c, t')
  {
  }

  lemma OccurrenceMeans(t: Task, t': Task, tasks: seq<Task>, at: int)
    ensures var order := NextOrder(tasks, t'.section);
            var more := if Recurs(t, t') then [NextOccurrence(t', order, t'.lastEditedBy, at)] else [];
            NextLeft(t, t', |tasks|, tasks + more, at)
  {
    hide NextOrder;
    NextOrderMeans(tasks, t'.section);
    var more := if Recurs(t, t') then [NextOccurrence(t', NextOrder(tasks, t'.section), t'.lastEditedBy, at)] else [];
    assert (tasks + more)[..|tasks|] == tasks;
  }

  /** The whole board after an update. */
  lemma UpdateLaw(b: Board, c: Call, lease: nat)
    requires c.op.Update? && (NamesKept(c.op.update) ==> Star(b.tasks)) && MayUpdate(b, c)
    ensures Execute(b, c, lease).Ok?
    ensures var b', i := Execute(b, c, lease).value, c.op.task;
            && |b.tasks| <= |b'.tasks|
            && var t, t' := b.tasks[i], b'.tasks[i];
               && RowLeft(b, c, t') && RunsLeft(t, c, lease, t'.runs) && ItemsLeft(t, c.op.update, t'.items)
               && OthersLeft(b, c, b'.tasks) && NextLeft(t, t', |b.tasks|, b'.tasks, c.at)
               && b' == Board(b'.tasks, b.blockedBy, b.events + EventsLeft(b, c, t'))
  {
    hide UpdateOne, UpdateBoard, Execute, RunsLeft, ItemsLeft, MayUpdate, Star, OthersLeft, NextLeft, EventsLeft;
    UpdateIsExecuted(b, c, lease);
    UpdatedRowMeans(b, c, lease);
    BoardMeans(b, c, lease);
  }
}
