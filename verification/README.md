# Taskboard, verified

A Dafny model of the task board that people and agents share, and proofs of what
it promises over whole runs.

The main part is one transition system. Its state is the board: tasks with their
checklists, agent runs and leases, escalations, run controls and completion
requirements, the blocked-by edges between tasks, and the event log. Its steps are
the service's transactions: start, create, claim, update, heartbeat, the two
statements of the stale sweep, escalate, resolve, request, answer and expire a run
control, review and requeue, completion requirements and reviews, rename, firing a
schedule, move, and adding or removing a dependency. Each transaction is a function
from a board to a new board or an error, with the branches, order of checks and
constants of the code. The class `Service` performs the same transactions statement by statement on
mutable tables, and each of its methods is proved to leave exactly what the
function says and to keep `Valid()`, the invariant of every reachable board. Every
invariant is then proved of the functions, for every step and so for every run.
Beside the invariants stand the laws: for every operation the exact condition under
which it commits, what each refusal says about the request, and every column it
leaves, said of the request and the stored rows in definitions of their own.

| files | content |
|---|---|
| Model, Checklist, TaskSteps, Updates, Graph, Taskboard, Requests | rows and transactions |
| TaskInvariants, BoardInvariants, Runs | what every reachable board satisfies |
| Leases, Protocol | who holds a task; two-statement sweeps interleaved with everything else |
| TaskLaws, BoardLaws, UpdateLaws | what each transaction takes and leaves, column by column, said of the request and the stored rows alone |
| Holders, Exchanges | who can take a task from its holder; requests that answer one another |
| Duplicates, Ordering, Completion, Versions, Controls, Retry | the other protocols over runs |
| Service | the imperative transactions and loops |
| Spacing, Occurrences, Firing | schedules: the spacing check, their occurrences on the board, and firing between replicas |
| Paging, EventWindow, CatchUp | listing pages, event deduplication, event catch-up |
| RateLimiter, Rebind, Callsigns, Sets, Text | request limits, SQL placeholders, session names, set sizes, letter case |

Five properties one might expect do not hold, and the model shows exactly when they do.

- An update may break the lease protocol: it can change the status of a held task
  without naming its run. `Leases.UpdateLeaseExact` gives the exact condition on the
  task and the request, and `Protocol.UndisciplinedUpdateBreaksLease` runs in which
  two agents end up holding one task.
- Catch-up misses an event that appears in the table behind the cursor, which
  happens when a transaction commits after one with a later time.
  `CatchUp.DeliveredIffAhead` gives the exact condition, `CatchUp.LateRowIsLost` such runs.
- Questions and control requests check their run before they look up the key, although a
  comment on updates says that a retried request must return its committed result
  (internal/service/service.go:2008-2011). `Retry.RepeatIsAnswered` gives the exact
  condition under which a repeat is answered; `Retry.BlockingQuestionIsNotRepeated`
  shows that repeating a blocking question at once never is. Nothing is written twice in either case.
- A key does not protect people's starts and creates: only agents' starts, creates and updates
  look their key up, although the handlers accept one from anyone. `Retry.RepeatWritesIff` shows
  that a repeat writes again if and only if it is a person's start or create;
  `Retry.PersonCreatesTwice` shows two tasks from one keyed request.
- Open work is not always startable: only a done blocker counts as met, so a cancelled one holds
  its task back for good. `Completion.OpenWorkIffNotStuck` gives the exact condition under which
  some open task is unblocked, `Completion.StuckBoard` and `Completion.StuckBoardIsReachable` a
  board on which none is and the requests that lead there.

## Model

| member | source | states |
|---|---|---|
| Runs.ReachableBoards | internal/service/service.go:1425-1978 | On every board any sequence of calls can reach: completed_at is set iff the task is done or cancelled, a blocker implies blocked, waiting_for implies waiting; each checklist has distinct positions and at most one active item, and none open and required on a done task; at most one open control per run and kind; duplicate links form a star forest; sort orders are distinct within a section; the blocked-by graph is acyclic. |
| Runs.RunKeepsInv | internal/service/service.go:1425-1978 | The same from any board that already satisfies it. |
| TaskInvariants.LocalKeeps | internal/service/run_controls.go:369-425 | Every single-task step (claim, escalate, resolve, controls, requeue, reviews) keeps a task's status coherence, checklist and control rules, although most of them write only some of those columns. |
| TaskInvariants.UpdateKeeps | internal/service/service.go:1425-1978 | However its fields are combined, an update keeps them too. |
| TaskInvariants.SweepKeeps | internal/service/service.go:2327-2360 | So do both statements of the sweep. |
| BoardInvariants.ExecuteKeepsTasks | internal/service/service.go:1816-1916 | Every transaction keeps them on every task of the board, new and recurring ones included. |
| Leases.UpdateLeaseExact | internal/service/service.go:1917-1932 | An update keeps the lease rules of its task if and only if every live run is the named one (or none is named and the task stays active) and no run with an open blocking question is revived, or the update marks a duplicate. |
| Leases.DisciplineIsSafe | internal/service/service.go:1917-1932 | Naming the live run or no run, and changing a held task's status only by naming its run or marking a duplicate, implies that condition. |
| Leases.LocalLease | internal/service/escalations.go:123-139 | Every other single-task step keeps one live run at most, only on an active task, and the asking run of an open blocking question ended. |
| Leases.MarkedHasNoLiveRun | internal/service/service.go:1831-1853 | A task marked a duplicate is cancelled and no run on it is live, whatever the state before. |
| Protocol.LeaseProtocol | internal/service/service.go:1391-1402 | In every run of calls and interleaved sweep statements whose updates meet the exact condition, no task ever has two live runs, a live run implies an active task, and the asker of every open blocking question has ended. |
| Protocol.DisciplinedLeaseProtocol | internal/service/service.go:1917-1932 | The same when updates follow the usual discipline. |
| Protocol.SweepNeverStrandsARun | internal/service/service.go:2327-2360 | The second statement of a sweep, however late it runs after the first, never makes stale a task that a live run holds. |
| Protocol.UndisciplinedUpdateBreaksLease | internal/service/service.go:1391-1402 | Start, an update to queued that names no run, and a claim leave two live runs on one task. |
| Holders.HolderLosesIff | internal/service/service.go:2349-2356 | A run that holds its task loses it in a committed step if and only if that step is a sweep past its lease, a report by it that the task is no longer active, a merge by its own agent, its own blocking question, a pause or cancel control completed for it, or a review that requeues by it; and its lease moves, to a full lease from now, exactly by its heartbeat or its report. |
| Holders.HolderIsSafe | internal/service/service.go:2327-2360 | Over every allowed run without such a step, sweeps included as long as they come within its lease, the run goes on holding the task alone: no claim of it commits and no sweep in progress can make it stale. |
| Holders.LapsedTaskIsClaimable | internal/service/service.go:2349-2361 | When every lease on an active task has lapsed, the two statements of a sweep make it stale, and then any admitted agent's claim commits, unless the task is a duplicate, waits for another or is deferred. |
| Duplicates.ExecuteKeepsStar | internal/service/service.go:1831-1860 | Every transaction keeps every duplicate link pointing directly at a task without a link. |
| Duplicates.RootIsWhereLinksLead | internal/service/duplicates.go:170-191 | In such a forest one hop finds the task that unbounded link following finds, and no other. |
| Duplicates.DepthLimitUnreachable | internal/service/duplicates.go:170-191 | The bounded loop returns that task, or refuses exactly a missing target or a link back; its depth limit decides nothing. |
| Duplicates.MarkingMovesRoots | internal/service/service.go:1831-1837 | Marking t a duplicate of x moves exactly t and the duplicates of t to the root of x, and no other task's root. |
| Completion.IntoDone | internal/service/service.go:1690-1733 | Only an update takes a task into done, and then it has no open required item, every required completion requirement is satisfied or waived, and every blocker is done. |
| Completion.ExecuteKeepsAcyclic | internal/service/dependencies.go:50-64 | Every transaction keeps the blocked-by graph acyclic. |
| Completion.SomeTaskUnblocked | internal/service/service.go:1375-1381 | Whenever some task is not done, some task that is not done has only done blockers. It may be a cancelled one. |
| Completion.SomeOpenTaskWaitsForNoOpenOne | internal/service/dependencies.go:50-64 | Whenever some task is open, some open task has only done or cancelled blockers. |
| Completion.OpenWorkIffNotStuck | internal/service/service.go:1375-1381 | Some open task has only done blockers if and only if from some open task no chain of blockers leads through open tasks to a cancelled one. |
| Completion.StuckBoard | internal/service/service.go:1375-1381 | A queued task whose one blocker is cancelled: there is open work and none of it is unblocked. |
| Completion.StuckBoardIsReachable | internal/service/dependencies.go:19-76 | Two creates, a dependency and a cancellation, by anyone and with any content, lead to that board. |
| Graph.Chain | internal/service/dependencies.go:50-54 | The growing worklist holds exactly the tasks a path of blockers leads to. |
| Graph.AddEdge | internal/service/dependencies.go:50-64 | On an acyclic graph, a new edge keeps it acyclic if and only if the check finds no path back. |
| Graph.RemoveEdge | internal/service/dependencies.go:102-108 | Removing an edge keeps it acyclic. |
| Graph.SomeTaskIsStartable | internal/service/service.go:1375-1381 | Among any unfinished tasks of an acyclic graph one waits for none of the others. |
| Ordering.ExecuteKeepsOrder | internal/service/service.go:1782-1788 | Start, create, section changes, recurrence, moves and all other steps keep sort orders distinct within each section. |
| Ordering.ListingExists | internal/service/service.go:2264-2273 | With distinct orders every section's open tasks have a listing in board order. |
| Ordering.NeighbourInList | internal/service/service.go:2264-2273 | The neighbour query returns exactly the adjacent entry of that listing. |
| Ordering.MoveIsTransposition | internal/service/service.go:2264-2289 | Move exchanges the task with the next open one in the asked direction, and does nothing at the end of the listing. |
| Ordering.MoveTouchesTwoRows | internal/service/service.go:2280-2289 | No other row changes, the two trade their sort orders, and the neighbour keeps its version. |
| Ordering.MoveBackRestores | internal/service/service.go:2245-2289 | The opposite move always succeeds next and restores every sort order. |
| Versions.VersionStep | internal/service/service.go:1816-1837 | Each committed step raises a task's version by one exactly when it is a bumping step for that task; the move neighbour and re-pointed duplicates keep theirs. |
| Versions.CommitNeedsVersion | internal/service/service.go:1559-1568 | A write commits only if the task still has the version it was based on. |
| Runs.VersionConservation | internal/service/service.go:1816-1830 | After any run a task's version is 1 plus the number of committed bumping steps on it, sweeps included. |
| Runs.WritesNeverShareAVersion | internal/service/service.go:1396-1402 | Two committed writes to a task, the first of which bumped it, were never based on the same version, whatever ran between. |
| Controls.StepAges | internal/service/run_controls.go:489-493 | A control keeps its target and its status only moves down in rank. It becomes completed exactly in the step about it that changes more of the task than its controls, and then the version rises by one, its run has ended, no other run changes, and the task moves as its kind says: pause from active and live to waiting, cancel from active and live to cancelled, resume from waiting or blocked to queued, retry from stale or cancelled to queued. |
| Controls.ControlLifetime | internal/service/run_controls.go:324-355 | Over any run a control changes status at most as often as its rank allows (three times), and rejected, completed and expired are absorbing. |
| Controls.ControlActsOnce | internal/service/run_controls.go:369-425 | Over any run, the steps about a control that change its task number one if it became completed during the run and none otherwise, the requeue shortcut included. |
| Controls.EffectOnlyOnCompletion | internal/service/run_controls.go:278-367 | A control step changes more than the controls if and only if it completes one, by the agent or by the shortcut. |
| Retry.RetryTransparency | internal/service/service.go:363-403 | For claims, questions, answers, control requests and control updates by anyone, and starts, creates and updates by agents: deleting from any sequence of calls each keyed request that repeats actor, operation, key and content of a committed one leaves the same final board and event log. |
| Retry.RetryAnswersAsTheFirst | internal/service/service.go:370-403 | Whatever ran between, a looked-up request under a used key changes nothing; unless it is refused before the lookup, the same content is answered with the task and run of the first, and other content is a conflict. The same content is a conflict too exactly when a person committed the same key for the same operation under the same name in between, because that record has no hash. |
| Retry.RepeatIsAnswered | internal/service/escalations.go:64-88 | The same content, with answerers deduplicated and an empty answer replaced by the option, is answered as the first time, except exactly when its fields are out of bounds, when it is a question whose run is no longer live or a control request whose target has moved on, or when the key was recorded without a hash in between; those are refused. |
| Retry.RepeatWritesIff | internal/service/service.go:797-838 | A committed keyed request, repeated by an admitted caller after anything else, writes again if and only if it is a person's start or create. |
| Retry.PersonCreatesTwice | internal/service/service.go:991-1014 | A person who sends the same create twice, with or without a key, gets two tasks on any board. |
| Retry.IgnoredKey | internal/service/service.go:1980-2007 | A start, create or update by a person is served as if it had no key, and an invalid key is not refused. |
| Retry.UpdateIsNotRepeated | internal/service/service.go:1559-1568 | The same update never commits twice, whoever sends it and whatever runs between, because its version is spent. |
| Retry.KeyLaw | internal/service/service.go:370-403 | Where keys are looked up: one of the wrong form is refused, a used one never writes, and with a new one the request is the bare transaction. |
| Retry.ContentLaw | internal/service/escalations.go:49-88 | Two requests count as the same content exactly if they are equal up to repeated answerers and up to an answer left to the option. |
| Retry.BlockingQuestionIsNotRepeated | internal/service/escalations.go:64-66 | Repeating a committed blocking question at once is refused, because asking ended its run. |
| Requests.EarlyRefusalIsFinal | internal/service/run_controls.go:216-219 | A request refused before its key is looked up would have been refused by its transaction with the same error. |
| Retry.ExecuteLogs | internal/service/service.go:363-368 | A transaction only appends to the log, writes no receipt but its own, and a keyed one writes its receipt on its subject last. |
| Checklist.EditKeeps | internal/service/service.go:1600-1670 | Replacing, completing, skipping, focusing and adding items in one update leaves positions ordered and distinct, ids unique and one active item at most. |
| Checklist.MarkMeans | internal/service/service.go:1618-1656 | The statement loops succeed exactly when every named item exists and the current one is open afterwards, and then give every item its closed-form status. |
| Checklist.SetAllMeans | internal/service/service.go:1618-1644 | Completing or skipping a list of ids succeeds iff all exist, and gives exactly those items the status. |
| Service.MarkItems | internal/service/service.go:1618-1644 | The two loops over complete_item_ids and skip_item_ids compute SetAll. |
| Service.EditChecklist | internal/service/service.go:1600-1670 | All checklist statements of an update, in order, compute Edit, with the same error. |
| Service.ResolveDuplicateRoot | internal/service/duplicates.go:170-191 | The 20-hop loop computes the bounded link resolution. |
| Service.FindNeighbour | internal/service/service.go:2264-2273 | The scan finds a nearest open task of the section on the asked side, the latest updated going up and the earliest going down among equals, and none only if there is none. |
| Service.CheckOptions | internal/service/escalations.go:40-49 | The loop with the set of choices seen accepts at most ten, each of 1 to 200 characters, all different without regard to case. |
| Service.NormalizeAnswerers | internal/service/escalations.go:337-352 | The loop accepts at most twenty people's ids and keeps each once, in order. |
| Service.ReplayIdempotency | internal/service/service.go:370-403 | The scan from the newest event finds the latest receipt of this actor, operation and key. |
| Service.Service.Start | internal/service/service.go:672-767 | Inserting the task, its items, the run and the event leaves exactly the started board, or the error and no change. |
| Service.Service.Create | internal/service/service.go:842-958 | The same for a queued task. |
| Service.Service.Claim | internal/service/service.go:1338-1423 | The checks in order, first todo item, new run, task row and event leave exactly the claimed board. |
| Service.Service.Update | internal/service/service.go:1425-1978 | Validation, guards, checklist, status, filing, links, recurrence, run and event writes leave exactly the updated board, or the first error and no change. |
| Service.Service.Heartbeat | internal/service/service.go:2066-2140 | Only a live run of the caller is renewed. |
| Service.Service.SweepExpiredRuns | internal/service/service.go:2349-2356 | The first statement ends exactly the live runs whose lease lapsed. |
| Service.Service.SweepStaleTasks | internal/service/service.go:2357-2361 | The second statement makes stale exactly the active tasks with a stale run and no unexpired live run. |
| Service.Service.CreateEscalation | internal/service/escalations.go:25-152 | The question, its recommendation, choices and answerers are kept; a blocking question ends the asking run and parks the task, any other does neither. |
| Service.Service.ResolveEscalation | internal/service/escalations.go:195-313 | An answer, or the chosen option in its place, closes the question under the person's name; if it was blocking, the waiting task is requeued. |
| Service.Service.CreateRunControl | internal/service/run_controls.go:197-276 | A control is recorded with its reason and requester, only on a valid target without an open one of its kind. |
| Service.Service.UpdateRunControl | internal/service/run_controls.go:278-367 | The target agent moves the control along the allowed transitions; completing it applies its effect in the same transaction. |
| Service.Service.CompleteRunControl | internal/service/run_controls.go:369-425 | The effect of each kind on run and task, and the conflict when the target moved on. |
| Service.Service.ExpireRunControls | internal/service/run_controls.go:449-483 | The loop over listed controls serves one expiry after another, skipping those already closed. |
| Service.Service.ReviewAndRequeue | internal/service/run_controls.go:21-134 | The shortcut ends the run if needed, completes or records the control and requeues the task. |
| Service.Service.Move | internal/service/service.go:2245-2311 | The two row updates and two events leave exactly the moved board. |
| Service.Service.AddDependency | internal/service/dependencies.go:19-76 | The edge is inserted, and the version raised, exactly when the checks pass and no chain leads back. |
| Service.Service.RemoveDependency | internal/service/dependencies.go:78-121 | The edge is deleted and the version raised. |
| Service.Service.ServeKeyed | internal/service/service.go:370-403 | Early refusals, then the key where it is looked up (by anyone for claims, questions, answers and controls, by agents only for starts, creates and updates): replay, conflict, or the transaction's outcome, for all eight operations. |
| TaskLaws.ClaimLaw | internal/service/service.go:1306-1402 | A claim commits if and only if the task exists, is queued or stale, has no duplicate link and the expected version, the caller is admitted, every blocker is done and no deferral runs. It leaves one more live run of the caller with a full lease, the caller as owner and the first todo item active, and nothing else changed. |
| TaskLaws.HeartbeatLaw | internal/service/service.go:2066-2118 | A heartbeat commits exactly for the caller's own live run and moves its lease to a full lease from now. |
| TaskLaws.EscalateLaw | internal/service/escalations.go:25-152 | A question commits exactly when its fields are in bounds and the caller's live run holds an active task at that version. It is stored as asked, each answerer once in order of first mention, with its expiry; a blocking one ends the run and parks the task. |
| TaskLaws.ResolveLaw | internal/service/escalations.go:195-313 | An answer commits exactly when the question is open and not expired, the caller is among its answerers if it has any, the option is one of its choices, and a blocking one still waits. The question is closed with answer, option and name; a blocking one leaves the task queued with waiting_for cleared; any other changes nothing else. |
| TaskLaws.RequestControlLaw | internal/service/run_controls.go:197-276 | A control is recorded exactly on a run in the state its kind is for, at the expected version, when none of its kind is in progress; it lasts a day. |
| TaskLaws.AnswerControlLaw | internal/service/run_controls.go:278-425 | An answer to a control commits exactly when the target agent moves it one step along its order, in time (or lapses it, too late), and, to complete it, on the current version while the target is still in the state its kind is for. Completing writes exactly the columns of its kind. |
| TaskLaws.ExpireControlLaw | internal/service/run_controls.go:449-483 | Exactly a control in progress whose time is up lapses. |
| TaskLaws.RequeueLaw | internal/service/run_controls.go:21-134 | Review and requeue commits exactly on a stale task by an ended stale run of it, or on a blocked or waiting one that no run with time left holds, and leaves it queued with the note, the run ended and the control it stands for completed or recorded. |
| TaskLaws.RequireLaw | internal/service/completion.go:31-75 | Exactly open work gets one more pending requirement. |
| TaskLaws.ReviewLaw | internal/service/completion.go:169-300 | A review with its evidence in order gives the requirement its verdict. |
| TaskLaws.TouchLaw | internal/service/matching.go:71-115 | An edit of routing requirements or a rename of a run raises the version at the expected one and keeps the rest. |
| TaskLaws.UnrepeatedMeans | internal/service/escalations.go:337-352 | The answerers kept are those named, each once, in the order of first mention. |
| BoardLaws.StartLaw | internal/service/service.go:672-767 | A start commits exactly when admitted and in bounds with a checklist, and leaves an active task owned by the caller at the end of its section, its first item active, held by one run with a full lease. |
| BoardLaws.CreateLaw | internal/service/service.go:842-958 | A create leaves the queued task as it was asked for, every column, at the end of its section. |
| BoardLaws.FireLaw | internal/service/schedules.go:393-427 | A schedule leaves a queued task on the agents' lane under its names, unless overlaps are skipped and an occurrence is open: then it logs that on the newest one. |
| BoardLaws.SweepRunsLaw | internal/service/service.go:2349-2356 | The first statement ends, as stale, exactly the runs that hold a task with a lease before the sweep's time, and changes nothing else. |
| BoardLaws.SweepTasksLaw | internal/service/service.go:2357-2361 | The second makes stale exactly the active tasks with a stale run and no live run with time left. |
| BoardLaws.MoveLaw | internal/service/service.go:2245-2311 | A move commits exactly on an open task at that version and trades its place with a nearest open task on the asked side, if there is one. |
| BoardLaws.BlockLaw | internal/service/dependencies.go:19-76 | A dependency is added exactly when it is new, joins two different tasks, the version is current and no chain of blockers leads back. |
| BoardLaws.UnblockLaw | internal/service/dependencies.go:78-121 | Exactly the named dependency is removed, and every other stays. |
| UpdateLaws.UpdateCommits | internal/service/service.go:1425-1733 | An update commits if and only if its fields are in bounds, its version is current, the caller may change visibility, owner or checklist, every named item, run and kept task exists, nobody else holds a task being merged, and a task left done has no open required item, no pending required requirement and only done blockers. |
| UpdateLaws.UpdateLaw | internal/service/service.go:1600-1978 | What it leaves of every column: the requested status (or cancelled for a duplicate), title, visibility, section, deferral, recurrence, note and owner, or the old one, with the clearing rules for owner, blocker, waiting_for, completed_at and link; the named run reported or renewed; the items as asked; duplicates re-pointed; the next occurrence of a recurring task; the events; and nothing else. |
| UpdateLaws.EditMeans | internal/service/service.go:1600-1670 | All checklist statements of an update together, in closed form: when they succeed, every item's status, and the rows added. |
| Exchanges.ControlIsCarriedOut | internal/service/run_controls.go:197-425 | A control that may be requested can be acknowledged, accepted and completed by its agent within a day, and then has its effect on the task as it was when requested. |
| Exchanges.QuestionIsAnswered | internal/service/escalations.go:25-313 | A blocking question that may be asked can be answered by anyone it is for in time, which leaves the task queued, unheld, two versions on. |
| Exchanges.DependencyIsTakenBack | internal/service/dependencies.go:19-121 | Removing a dependency just added restores the dependencies. |
| Firing.Scheduler.FireSchedule | internal/service/schedules.go:345-454 | One firing: a timed run proceeds only if next_run_at still holds its slot, stops a definition that no longer parses, otherwise inserts an occurrence into the board or skips it, logs that, and moves next_run_at; a manual run does not move it. |
| Firing.Scheduler.InsertOccurrence | internal/service/service.go:929-958 | The task, its items and the event of an occurrence, filed last in its section. |
| Firing.FireTimedLaw | internal/service/schedules.go:345-454 | A timed run passes unless its slot is the next one of an enabled schedule; otherwise it stops a definition without a next firing, or runs, records outcome, task and time, and moves next_run_at to that firing's whole second. |
| Firing.FireManualLaw | internal/service/schedules.go:345-454 | A manual run of an existing schedule does the same and leaves next_run_at. |
| Occurrences.ReopeningSteps | internal/service/run_controls.go:416-421 | A committed step takes a task out of done or cancelled if and only if it is an update to another status or the completion of a retry control on a cancelled task. |
| Occurrences.ScheduleStays | internal/service/service.go:936-940 | Which schedule a task belongs to is settled when it is created, and only firing creates one with a schedule. |
| Occurrences.ServeKeepsOneOpen | internal/service/schedules.go:393-427 | Every served call keeps at most one occurrence of a schedule open, unless it fires it with overlaps allowed or reopens one. |
| Taskboard.OpenOccurrence | internal/service/schedules.go:395-401 | The newest task of the schedule that is neither done nor cancelled, if there is one. |
| Firing.EachSlotClaimedOnce | internal/service/schedules.go:305-340 | Over every interleaving of replicas with stale due lists and of any other requests: each slot is claimed by at most one committed timed run, later runs claim later slots, each moves next_run_at strictly past its slot and its clock, and next_run_at is always what the last claim left. |
| Firing.DueIsFired | internal/service/schedules.go:305-340 | A due schedule may be read at once, and the run that follows claims its slot and moves next_run_at. |
| Firing.OneOpenOccurrence | internal/service/schedules.go:393-427 | With overlap=skip and no request that reopens an occurrence, timed and manual runs never leave two open occurrences, whatever else is served on the board. |
| Firing.FiringKeepsInv | internal/service/schedules.go:402-427 | Boards that schedules fire into keep every invariant of ReachableBoards. |
| Spacing.ValidateSpacing | internal/service/schedules.go:52-76 | The loop rejects iff one of the pairs it can examine is too close; for every increasing firing function that fires after the window's start, iff any two consecutive firings in the window are under five minutes apart. |
| Spacing.BoundNeverExhausted | internal/service/schedules.go:64-75 | The last permitted iteration never passes both tests, so the return after the loop hides no pair. |
| Paging.ListPage | internal/service/service.go:1187-1246 | A page and the listing at its cursor make up the listing at the caller's cursor, the cursor moves on, the call scans fewer than the scan limit plus one page, and a page with a cursor is full unless the scan limit was reached. |
| Paging.ListAll | internal/service/service.go:1187-1246 | Following cursors ends and yields exactly the rows the caller may see, in order, none lost or repeated. |
| Paging.ListChanging | internal/service/service.go:1187-1246 | With the board changing between pages in any way: no key is listed twice, keys come in order, and once the cursors end every key that every page's board showed is listed. |
| Paging.AfterIsSuffix | internal/store/store.go:541-545 | On the sorted board any cursor, even of a row that is gone, selects a suffix. |
| Paging.ListingIsUnique | internal/store/store.go:541-545 | The listing key orders rows strictly, so the rows alone decide their listing. |
| EventWindow.Recent.MarkEventSeen | internal/service/service.go:652-670 | An id is accepted iff the window of accepted ids does not hold it; map and queue hold the same ids, 4096 at most. |
| EventWindow.RefusedWhileRecent | internal/service/service.go:652-670 | An accepted id is refused while fewer than 4096 later ids were accepted, none more than ten minutes later. |
| EventWindow.WindowExact | internal/service/service.go:662-668 | With nondecreasing clocks the window is exactly the last 4096 acceptances within ten minutes of the newest. |
| EventWindow.WindowIsSuffix | internal/service/service.go:662-668 | With any clocks it is the newest part of the history, and an id leaves it only for the count or for age. |
| CatchUp.Fanout.CatchUpEvents | internal/store/event_fanout.go:115-144 | Whatever rows each query sees and wherever the connection fails, the loop delivers exactly what its rounds deliver, one round per query on that query's table, the cursor stands behind the last delivery, and success means that the last round was not cut short. |
| CatchUp.ExactlyOnceInOrder | internal/store/event_fanout.go:115-144 | If the tables of the rounds grow in cursor order, each event after the first cursor is delivered exactly once and in order, and all of them once the last round is not cut short. |
| CatchUp.DeliveredIffAhead | internal/store/event_fanout.go:117-120 | If rows may appear anywhere, an event present from some round on is delivered, once the last round is not cut short, if and only if it sorts after the cursor at that point. |
| CatchUp.LateRowIsLost | internal/store/event_fanout.go:117-120 | Two uncut rounds that never deliver an event which follows the first cursor, because a later one came first. |
| CatchUp.LateRowStaysLost | internal/store/event_fanout.go:117-120 | Once a later event was delivered, no further rounds deliver an earlier one. |
| CatchUp.DeliveredSorted | internal/store/event_fanout.go:115-144 | Whatever appears in the table, nothing is delivered twice or out of order. |
| CatchUp.CursorOrder | internal/store/event_fanout.go:117-120 | Cursors are ordered by time and then id, a strict total order. |
| RateLimiter.Limiter.Allow | internal/server/server.go:1371-1409 | One decision and the limiter it leaves: make room, fall back to the overflow window, restart an ended window, count. |
| RateLimiter.Limiter.EvictEnded | internal/server/server.go:1380-1384 | Exactly the ended windows are deleted. |
| RateLimiter.EveryIntervalIsBounded | internal/server/server.go:1371-1409 | After any calls the table has at most maxEntries windows, and any interval of one window length admits at most 2·limit·(maxEntries+1) calls over all keys, overflow included. |
| RateLimiter.EvictionUnobservable | internal/server/server.go:1379-1390 | For every sequence of calls with nondecreasing time, dropping the ended windows of any chosen keys before each call, all, some or none, gives the same decisions as evicting under pressure only. |
| RateLimiter.NextBounded | internal/server/server.go:1378-1408 | No call lets the table or a window's count outgrow its limit. |
| RateLimiter.AdmittedIff | internal/server/server.go:1371-1409 | For every sequence of calls in time order: a call is admitted if and only if the current window of what it counts against has admitted fewer than limit calls, where a window opens at the first call after the last one ended, and a call counts against its own client unless that client has no open window and maxEntries others have. All of this is read off the log of earlier calls, not off the limiter. |
| RateLimiter.FirstCallIsAdmitted | internal/server/server.go:1371-1402 | While fewer than maxEntries clients have an open window, a new client's first call is admitted whatever the others did. |
| Rebind.Rewrite | internal/store/db.go:68-96 | The scanner with its doubled-quote lookahead replaces the k-th '?' preceded by an even number of quotes by $k and changes nothing else. |
| Rebind.RewriteRoundTrip | internal/store/db.go:68-96 | A counter-directed inverse recovers every query that has no '$' outside quotes. |
| Rebind.DecimalDenotes | internal/store/db.go:89 | The printed number denotes the counter. |
| Callsigns.Candidates | internal/agentidentity/identity.go:25-39 | The nested loops list 4096 names in the order of the rotated offsets. |
| Callsigns.CandidatesDiffer | internal/agentidentity/identity.go:12-39 | For every seed the names differ pairwise, even in lower case. |
| Callsigns.EveryNameIsACandidate | internal/agentidentity/identity.go:25-39 | Every word and every ordered pair of different words stands at exactly one place. |
| Callsigns.Sessions.InsertSession | internal/service/service.go:438-470 | The known session, or a new one with the first candidate no session uses, or an error when all are taken. |
| Callsigns.NameAvailable | internal/service/service.go:452-470 | With fewer than 4096 sessions some candidate is free. |
| Callsigns.RegisterKeepsUnique | internal/store/migrations.go:262-263 | Every request keeps names unique ignoring case and one session per agent and key, and succeeds while fewer than 4096 sessions exist. |
| Callsigns.SameKeySameSession | internal/service/service.go:446-470 | Whatever is registered in between, the same agent and session key get the same session. |

## Left out

- Access control, roles, capabilities and delegation: every call is by someone who may make it.
- The similar-title check, worker matching, pickup rates and run-duration limits enter as one verdict per call.
- Requests in flight at once: a transaction is one atomic step, and the key lookup before it belongs to the step. Only the two statements of the sweep, schedule due lists and catch-up batches are interleaved.
- Clocks in the lease protocol are one nondecreasing clock; a request's time is the time of its transaction. Receipts are searched newest first in log order, which agrees with the order by time because a key is recorded at most once.
- Idempotency keys on completion evidence and reviews, on messages, and the agent policy that requires a key; the request stands for its hash.
- Task deletion. A task, run, escalation, control or requirement is named by its position, since rows are only appended.
- Summary, type, project, repository, priority and due date columns, text trimming, duplicate and blank ids in an id list, and byte counts of text (lengths count characters).
- Default routing requirements and requirement tokens, messages, handoffs, evidence, discussions, references, usage and templates: append-only records that would add only easy members.
- Event payloads other than receipts, event publication to subscribers, metrics and derived handoffs.
- Completion requirements, completion reviews, requirement edits and callsign renames are modelled as functions on the task row only, without an imperative method; the evidence rules behind a review are the verdict of the call.
- Cron parsing, time zones and daylight saving: a schedule is a function from an instant to its next firing. The spacing theorem needs a firing after the fixed start date; the code checks for one after the current time.
- RunDueSchedules' query order and limit of 50: replicas may hold any item that was due when read. Edits, deletion and creation of schedules: the firing theorems hold between edits.
- Paging.ListPage: text columns of the cursor stand for their place in the database's collation.
- Callsigns.Sessions.InsertSession: the lookup repeated after each failed insert, which only matters when another transaction commits in between; the seed's hash is a number; renamed sessions are not followed.
- Service.Service.Update: does not write the columns named above nor default routing requirements, because they are carried along and decide nothing else.
- Service.Service.CreateEscalation: does not write the message that carries the question to the task's conversation.
- Service.Service.ResolveEscalation: does not write the message that carries the answer, nor the delegate who forwarded it.
- Service.Service.Start: the agent name that a person may give in place of their own, and starts and creates on someone's behalf.
- The event-stream limiter, HTTP and MCP handlers, authentication, configuration, migrations, web, desktop and push code.
