/**
 The rows of the task board: tasks with their checklist, runs, escalations, run
 controls and completion requirements, the blocked-by edges, and the event log.

 A task is named by its position in the board, a run, escalation, control or
 requirement by its position in its task: rows of these kinds are only ever
 appended. Checklist items carry an explicit id, because replacing a checklist
 deletes rows. Time is an integer number of nanoseconds.
 */
module Model {

  const SECOND: nat := 1_000_000_000

  datatype Option<+T> = None | Some(value: T)

  datatype Error = NotFound | Conflict | Forbidden | Validation | RateLimit

  /** A transaction either commits a new value or rolls back with an error. */
  datatype Result<+T> = Ok(value: T) | Err(error: Error) {
    predicate IsFailure() {
      Err?
    }
    function PropagateFailure<U>(): Result<U>
      requires Err?
    {
      Err(error)
    }
    function Extract(): T
      requires Ok?
    {
      value
    }
  }

  datatype Status = Queued | Active | Waiting | Blocked | Stale | Done | Cancelled

  predicate Terminal(s: Status) {
    s == Done || s == Cancelled
  }

  /** Statuses with which a run that reports them is over. */
  predicate EndsRun(s: Status) {
    s == Done || s == Cancelled || s == Waiting || s == Blocked
  }

  datatype Visibility = Private | Team | AgentLane

  datatype ItemStatus = ItemTodo | ItemActive | ItemDone | ItemSkipped

  datatype Item = Item(id: nat, text: string, status: ItemStatus, position: int, required: bool)

  datatype Run = Run(agent: string, status: Status, leaseExpires: int, heartbeatAt: int, startedAt: int,
      endedAt: Option<int>)

  /** An active run that has not ended: the holder of its task's lease. */
  predicate Live(r: Run) {
    r.status == Active && r.endedAt.None?
  }

  /** A question with its answer, whose text is empty while the question is open. */
  datatype Escalation = Escalation(run: nat, question: string, recommendation: string, blocking: bool, open: bool,
          options: seq<string>, answerers: seq<string>, expiresAt: Option<int>,
          answer: string, selected: string, answeredBy: string)

  datatype ControlKind = Pause | Cancel | Resume | Retry

  datatype ControlStatus = Requested | Acknowledged | Accepted | Rejected | Completed | Expired

  datatype Control = Control(run: nat, agent: string, kind: ControlKind, status: ControlStatus, expiresAt: int,
          requestedBy: string, reason: string, outcome: string)

  predicate OpenControl(s: ControlStatus) {
    s == Requested || s == Acknowledged || s == Accepted
  }

  datatype RequirementStatus = Pending | Satisfied | Waived

  datatype Requirement = Requirement(required: bool, status: RequirementStatus)

  datatype Task = Task(
    title: string,
    section: string,
    sortOrder: int,
    visibility: Visibility,
    createdBy: string,
    owner: string,
    lastEditedBy: string,
    status: Status,
    note: string,
    blocker: string,
    waitingFor: string,
    recurrence: string,
    deferUntil: Option<int>,
    reviewedAt: Option<int>,
    completedAt: Option<int>,
    duplicateOf: Option<nat>,
    version: int,
    updatedAt: int,
    items: seq<Item>,
    itemsIssued: nat,
    runs: seq<Run>,
    escalations: seq<Escalation>,
    controls: seq<Control>,
    requirements: seq<Requirement>,
    scheduleId: Option<nat>)

  datatype StartRequest = StartRequest(title: string, section: string, visibility: Visibility,
          recurrence: string, deferUntil: Option<int>, checklist: seq<string>)

  /** What a schedule puts on the board when it fires. */
  datatype Definition = Definition(title: string, section: string, checklist: seq<string>, createdBy: string,
      lastEditedBy: string)

  datatype UpdateRequest = UpdateRequest(
    expected: int,
    run: Option<nat>,
    status: Option<Status>,
    title: Option<string>,
    visibility: Option<Visibility>,
    owner: Option<string>,
    section: Option<string>,
    deferUntil: Option<Option<int>>,
    recurrence: Option<string>,
    reviewed: bool,
    checklist: Option<seq<string>>,
    completeItems: seq<nat>,
    skipItems: seq<nat>,
    skipReason: string,
    currentItem: Option<nat>,
    addItems: seq<string>,
    note: Option<string>,
    blocker: Option<string>,
    waitingFor: Option<string>,
    duplicateOf: Option<Option<nat>>)

  datatype Op =
    | Start(start: StartRequest)
    | Create(start: StartRequest)
    | Claim(task: nat, expected: int)
    | Update(task: nat, update: UpdateRequest)
    | Heartbeat(task: nat, run: nat)
    | SweepRuns(since: int)
    | SweepTasks(since: int)
    | Escalate(task: nat, run: nat, question: string, recommendation: string, blocking: bool, options: seq<string>,
        answerers: seq<string>, expiresIn: int, expected: int)
    | Resolve(task: nat, escalation: nat, answer: string, option: string, expected: int)
    | RequestControl(task: nat, run: nat, kind: ControlKind, reason: string, expected: int)
    | AnswerControl(task: nat, control: nat, answerStatus: ControlStatus, note: string, expected: int)
    | ExpireControl(task: nat, control: nat)
    | Requeue(task: nat, run: nat, note: string, expected: int)
    | Require(task: nat, required: bool, expected: int)
    | Review(task: nat, requirement: nat, verdict: RequirementStatus, expected: int)
    | Touch(task: nat, expected: int)
    | Rename(task: nat, run: nat, expected: int)
    | Fire(schedule: nat, definition: Definition, skip: bool, runBy: string)
    | Move(task: nat, up: bool, expected: int)
    | Block(task: nat, blockedBy: nat, expected: int)
    | Unblock(task: nat, blockedBy: nat, expected: int)

  /** One request as the service receives it, from an agent or a person. `admitted` is the verdict of the
      worker-matching, capacity, pickup-rate, run-duration and similar-title
      policies, which read nothing the model keeps. */
  datatype Call = Call(at: int, actor: string, agent: bool, key: string, admitted: bool, op: Op)

  /** The idempotency part of an event payload. The request stands for its hash, which is
      left empty when the key was not looked up. */
  datatype Receipt = Receipt(key: string, op: Op, hashed: bool)

  datatype Event = Event(task: nat, run: Option<nat>, kind: string, actor: string, at: int, receipt: Option<Receipt>)

  datatype Board = Board(tasks: seq<Task>, blockedBy: set<(nat, nat)>, events: seq<Event>)

  const EMPTY_BOARD := Board([], {}, [])
}
