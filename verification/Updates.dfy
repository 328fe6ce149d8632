/** Update: the optimistic edit of a task, from validation to its last write. */
module Updates {
  import opened Model
  import opened TaskSteps
  import Checklist

  /** An update that only names the version it was based on. */
  const NO_EDIT := UpdateRequest(1, None, None, None, None, None, None, None, None, false, None, [], [], "", None, [],
      None, None, None, None)

  /** duplicate_of names a task to keep instead of this one. */
  predicate Marks(req: UpdateRequest) {
    req.duplicateOf.Some? && req.duplicateOf.value.Some?
  }

  function NewStatus(t: Task, req: UpdateRequest): Status {
    if req.status.Some? then req.status.value else if Marks(req) then Cancelled else t.status
  }

  predicate ValidNote(note: Option<string>) {
    note.Some? ==> |note.value| <= MAX_STATUS_NOTE
  }

  predicate NonEmpty(text: Option<string>) {
    text.Some? && text.value != ""
  }

  /** Everything Update checks before it opens its transaction. */
  predicate ValidUpdate(req: UpdateRequest) {
    && req.expected >= 1
    && (Marks(req) && req.status.Some? ==> req.status.value == Cancelled)
    && ValidNote(req.note) && ValidNote(req.blocker) && ValidNote(req.waitingFor)
    && (req.status == Some(Blocked) ==> NonEmpty(req.blocker))
    && (req.status == Some(Waiting) ==> NonEmpty(req.waitingFor))
    && (req.skipItems != [] ==> req.skipReason != "")
    && |req.addItems| <= 50
    && (req.checklist.Some? ==> ValidLabels(req.checklist.value))
    && (req.owner.Some? ==> |req.owner.value| <= 100)
    && (req.section.Some? ==> |NormalSection(req.section.value)| <= 80)
    && (req.title.Some? ==> 1 <= |req.title.value| <= 200)
    && (req.recurrence.Some? ==> ValidRecurrence(req.recurrence.value))
  }

  predicate HasLiveRun(t: Task) {
    exists i :: 0 <= i < |t.runs| && Live(t.runs[i])
  }

  predicate ChangesVisibility(t: Task, req: UpdateRequest) {
    req.visibility.Some? && req.visibility.value != t.visibility
  }

  /** Who may change visibility, owner or the whole checklist, and when. */
  function Guard(t: Task, req: UpdateRequest, actor: string): Option<Error> {
    if ChangesVisibility(t, req) && HasLiveRun(t) then Some(Validation)
    else if ChangesVisibility(t, req) && req.visibility.value == Private && (t.createdBy == "" || t.createdBy != actor)
        then Some(Forbidden)
    else if ChangesVisibility(t, req) && req.visibility.value == AgentLane && t.status != Queued && t.status != Stale
        && !Terminal(t.status) then Some(Validation)
    else if req.owner.Some? && req.owner.value != t.owner && HasLiveRun(t) then Some(Validation)
    else if (if req.visibility.Some? then req.visibility.value else t.visibility) == AgentLane && NonEmpty(req.owner)
        then Some(Validation)
    else if req.checklist.Some? && (t.status != Queued || t.runs != []) then Some(Validation)
    else None
  }

  /** Another agent's live run, which must be cancelled before the task is marked a duplicate. */
  predicate HeldByOthers(t: Task, req: UpdateRequest, actor: string) {
    exists i :: 0 <= i < |t.runs| && Some(i) != req.run && t.runs[i].agent != actor && Live(t.runs[i])
  }

  /** What must hold for a task to be left done. */
  predicate MayComplete(t: Task, items: seq<Item>, unblocked: bool) {
    && (forall i :: 0 <= i < |items| ==> !Checklist.OpenRequired(items[i]))
    && RequirementsMet(t)
    && unblocked
  }

  predicate RequirementsMet(t: Task) {
    forall i :: 0 <= i < |t.requirements| && t.requirements[i].required ==> t.requirements[i].status != Pending
  }

  /** The editor's own open runs on a duplicate end with it. */
  function EndOwnRuns(runs: seq<Run>, named: Option<nat>, actor: string, at: int): (r: seq<Run>)
    ensures |r| == |runs|
    ensures forall i :: 0 <= i < |runs| ==>
      r[i] == if Some(i) != named && runs[i].agent == actor && runs[i].endedAt.None?
              then runs[i].(status := Cancelled, endedAt := Some(at)) else runs[i]
  {
    seq(|runs|, i requires 0 <= i < |runs| =>
      if Some(i) != named && runs[i].agent == actor && runs[i].endedAt.None?
      then runs[i].(status := Cancelled, endedAt := Some(at)) else runs[i])
  }

  /** The write to the run an Update names: it takes the task's status, and is renewed or ended. */
  function ReportRun(r: Run, status: Status, at: int, lease: nat): Run {
    if EndsRun(status) then EndRun(r, status, at)
    else r.(status := status, leaseExpires := at + lease, heartbeatAt := at, endedAt := None)
  }

  function UpdatedRuns(t: Task, req: UpdateRequest, actor: string, at: int, lease: nat): (r: seq<Run>)
    requires req.run.Some? ==> req.run.value < |t.runs|
    ensures |r| == |t.runs|
  {
    var runs := if Marks(req) then EndOwnRuns(t.runs, req.run, actor, at) else t.runs;
    if req.run.None? then runs
    else runs[req.run.value := ReportRun(runs[req.run.value], NewStatus(t, req), at, lease)]
  }

  function UpdatedOwner(t: Task, req: UpdateRequest): string {
    var owner := if req.owner.Some? then req.owner.value else t.owner;
    if ChangesVisibility(t, req) && (req.visibility.value == AgentLane
        || (req.visibility.value == Private && owner != t.createdBy)) then "" else owner
  }

  function UpdatedSection(t: Task, req: UpdateRequest): string {
    if req.section.Some? then NormalSection(req.section.value) else t.section
  }

  function UpdatedLink(t: Task, req: UpdateRequest, kept: Option<(nat, string)>): Option<nat> {
    if kept.Some? then Some(kept.value.0)
    else if req.duplicateOf.Some? || (t.status == Cancelled && NewStatus(t, req) != Cancelled) then None
    else t.duplicateOf
  }

  function DuplicateNote(keptTitle: string): string {
    Clipped("Duplicate of " + keptTitle)
  }

  /** UPDATE tasks SET title=?, ..., version=version+1. */
  function SetColumns(t: Task, title: string, visibility: Visibility, status: Status, owner: string, section: string,
                      sortOrder: int, deferUntil: Option<int>, recurrence: string, reviewedAt: Option<int>,
                      note: string, blocker: string, waitingFor: string, completedAt: Option<int>,
                      link: Option<nat>, editor: string, at: int): Task
  {
    Touched(t, at).(title := title, visibility := visibility, status := status, owner := owner, section := section,
                    sortOrder := sortOrder, deferUntil := deferUntil, recurrence := recurrence,
                    reviewedAt := reviewedAt, note := note, blocker := blocker, waitingFor := waitingFor,
                    completedAt := completedAt, duplicateOf := link, lastEditedBy := editor)
  }

  function Or<T>(value: Option<T>, current: T): T {
    if value.Some? then value.value else current
  }

  function UpdatedOrder(t: Task, req: UpdateRequest, order: int): int {
    if UpdatedSection(t, req) != t.section then order else t.sortOrder
  }

  function UpdatedNote(t: Task, req: UpdateRequest, kept: Option<(nat, string)>): string {
    if req.note.Some? then Clipped(req.note.value) else if kept.Some? then DuplicateNote(kept.value.1) else t.note
  }

  function UpdatedBlocker(t: Task, req: UpdateRequest): string {
    if NewStatus(t, req) != Blocked then "" else Or(req.blocker, t.blocker)
  }

  function UpdatedWaitingFor(t: Task, req: UpdateRequest): string {
    if NewStatus(t, req) != Waiting then "" else Or(req.waitingFor, t.waitingFor)
  }

  function UpdatedCompletion(t: Task, req: UpdateRequest, at: int): Option<int> {
    if !Terminal(NewStatus(t, req)) then None else if Terminal(t.status) then t.completedAt else Some(at)
  }

  /** The row an update leaves, apart from the checklist and the runs. `order` is
      the next sort order of the section the task ends up in. */
  function UpdatedRow(t: Task, req: UpdateRequest, kept: Option<(nat, string)>, order: int, actor: string,
      at: int): Task {
    SetColumns(
      t, Or(req.title, t.title), Or(req.visibility, t.visibility), NewStatus(t, req),
      UpdatedOwner(t, req), UpdatedSection(t, req), UpdatedOrder(t, req, order),
      Or(req.deferUntil, t.deferUntil), Or(req.recurrence, t.recurrence),
      if req.reviewed then Some(at) else t.reviewedAt,
      UpdatedNote(t, req, kept), UpdatedBlocker(t, req), UpdatedWaitingFor(t, req), UpdatedCompletion(t, req, at),
      UpdatedLink(t, req, kept), DefaultActor(actor, t.createdBy), at)
  }

  /** Entering Active without naming a current item activates the first todo one. */
  function UpdatedItems(t: Task, req: UpdateRequest, items: seq<Item>): seq<Item> {
    if NewStatus(t, req) == Active && t.status != Active && req.currentItem.None? then Checklist.ActivateFirst(items)
        else items
  }

  /** The transaction on the task it names. `kept` is the outcome of following the
      duplicate links, looked at only where the code does. */
  function UpdateTask(t: Task, at: int, actor: string, req: UpdateRequest, kept: Result<Option<(nat, string)>>,
          order: int, unblocked: bool, lease: nat): Result<Task> {
    if t.version != req.expected then Err(Conflict)
    else if Guard(t, req, actor).Some? then Err(Guard(t, req, actor).value)
    else
      var edited :- Checklist.Edit(t.items, t.itemsIssued, req);
      var link :- kept;
      if Marks(req) && HeldByOthers(t, req, actor) then Err(Validation)
      else if NewStatus(t, req) == Done && !MayComplete(t, edited.0, unblocked) then Err(Validation)
      else if req.run.Some? && req.run.value >= |t.runs| then Err(Validation)
      else Ok(UpdatedRow(t, req, link, order, actor, at).(
                items := UpdatedItems(t, req, edited.0), itemsIssued := edited.1,
                runs := UpdatedRuns(t, req, actor, at, lease)))
  }
}
