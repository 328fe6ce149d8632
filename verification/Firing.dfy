/**
 Schedule firing between replicas.  Each replica reads a list of due schedules,
 then fires them one by one; by then its list may be stale.  A timed run claims
 its slot by a compare-and-set on next_run_at; a manual run does not touch it.
 Meanwhile the board serves every other request.
 */
module Firing {
  import opened Model
  import opened TaskSteps
  import opened Taskboard
  import opened Requests
  import opened Runs
  import opened Occurrences
  import opened BoardLaws
  import Checklist

  datatype Overlap = Skip | Allow
  datatype Outcome = Created | Skipped | Halted

  datatype Schedule = Schedule(enabled: bool, overlap: Overlap, definition: Definition, nextRunAt: Option<int>,
                               lastRunAt: Option<int>, lastOutcome: Option<Outcome>, lastTask: Option<nat>)

  datatype Store = Store(schedules: seq<Schedule>, board: Board)

  datatype Response = Missing | Passed | Stopped | Ran(outcome: Outcome, task: nat)

  /** next_run_at holds whole seconds. */
  function RunStamp(t: int): int {
    t - t % SECOND
  }

  // ----- One firing -----

  /** Whether the compare-and-set finds the slot it expects. */
  predicate Claims(s: Store, id: nat, slot: int) {
    id < |s.schedules| && s.schedules[id].nextRunAt == Some(slot)
  }

  /** Create an occurrence, or skip because one is open. */
  function RunOutcome(s: Store, id: nat): (Outcome, nat)
    requires id < |s.schedules|
  {
    var open := OpenOccurrence(s.board.tasks, id);
    if s.schedules[id].overlap == Skip && open.Some? then (Skipped, open.value) else (Created, |s.board.tasks|)
  }

  /** The step of the board that belongs to a run. */
  function FireCall(s: Store, id: nat, now: int, runBy: string): (c: Call)
    requires id < |s.schedules|
    ensures c.op.Fire?
  {
    Call(now, runBy, false, "", true, Fire(id, s.schedules[id].definition, s.schedules[id].overlap == Skip, runBy))
  }

  /** The store after a run that keeps or replaces next_run_at. */
  function RunStore(s: Store, id: nat, nextRunAt: Option<int>, now: int, runBy: string): Store
    requires id < |s.schedules|
  {
    var (outcome, task) := RunOutcome(s, id);
    var row := s.schedules[id].(nextRunAt := nextRunAt, lastRunAt := Some(now),
                                lastOutcome := Some(outcome), lastTask := Some(task));
    Store(s.schedules[id := row], FireBoard(s.board, FireCall(s, id, now, runBy)))
  }

  /** A timed run of the slot a due list named; upcoming is the definition's next firing
      after now, if it still parses. */
  function FireTimed(s: Store, id: nat, slot: int, now: int, upcoming: Option<int>, runBy: string): (Response, Store) {
    if !Claims(s, id, slot) || !s.schedules[id].enabled then (Passed, s)
    else if upcoming.None? then
      var row := s.schedules[id].(nextRunAt := None, lastRunAt := Some(now), lastOutcome := Some(Halted),
          lastTask := None);
      (Stopped, s.(schedules := s.schedules[id := row]))
    else
      var (outcome, task) := RunOutcome(s, id);
      (Ran(outcome, task), RunStore(s, id, Some(RunStamp(upcoming.value)), now, runBy))
  }

  function FireManual(s: Store, id: nat, now: int, runBy: string): (Response, Store) {
    if id >= |s.schedules| then (Missing, s)
    else
      var (outcome, task) := RunOutcome(s, id);
      (Ran(outcome, task), RunStore(s, id, s.schedules[id].nextRunAt, now, runBy))
  }

  // ----- What a firing takes and leaves -----

  /** The schedule's row and the board after a run at this time: an occurrence was made, or skipped because
      one is open and overlaps are not wanted, and the row says which. */
  ghost predicate RanAt(s: Store, t: Store, id: nat, next: Option<int>, now: int, runBy: string, response: Response)
    requires id < |s.schedules|
  {
    var row := s.schedules[id];
    var skips := row.overlap == Skip && exists i: nat :: IsOccurrence(s.board.tasks, id, i);
    && response.Ran?
    && response.outcome == (if skips then Skipped else Created)
    && (if skips then
          && IsOccurrence(s.board.tasks, id, response.task)
          && forall i: nat :: IsOccurrence(s.board.tasks, id, i) ==> i <= response.task
        else response.task == |s.board.tasks|)
    && t.schedules == s.schedules[id := row.(nextRunAt := next, lastRunAt := Some(now),
                                             lastOutcome := Some(response.outcome), lastTask := Some(response.task))]
    && Execute(s.board, Call(now, runBy, false, "", true, Fire(id, row.definition, row.overlap == Skip, runBy)), 0)
       == Ok(t.board)
  }

  lemma RunLaw(s: Store, id: nat, next: Option<int>, now: int, runBy: string)
    requires id < |s.schedules|
    ensures RanAt(s, RunStore(s, id, next, now, runBy), id, next, now, runBy,
                  Ran(RunOutcome(s, id).0, RunOutcome(s, id).1))
  {
    hide FireBoard, OpenOccurrence, Execute;
    FireIsExecuted(s.board, FireCall(s, id, now, runBy), 0);
    var open := OpenOccurrence(s.board.tasks, id);
    if open.Some? { assert IsOccurrence(s.board.tasks, id, open.value); }
  }

  /** A timed run does nothing unless its slot is still the schedule's next one and the schedule is on. It then runs and
      moves on to the next firing, down to the whole second, or stops a schedule that has none. */
  lemma FireTimedLaw(s: Store, id: nat, slot: int, now: int, upcoming: Option<int>, runBy: string)
    ensures var (response, t) := FireTimed(s, id, slot, now, upcoming, runBy);
            if !(id < |s.schedules| && s.schedules[id].nextRunAt == Some(slot) && s.schedules[id].enabled) then
              response == Passed && t == s
            else if upcoming == None then
              && response == Stopped && t.board == s.board
              && t.schedules == s.schedules[id := s.schedules[id].(nextRunAt := None, lastRunAt := Some(now),
                                                                   lastOutcome := Some(Halted), lastTask := None)]
            else
              exists next :: next % 1_000_000_000 == 0 && next <= upcoming.value < next + 1_000_000_000
                             && RanAt(s, t, id, Some(next), now, runBy, response)
  {
    hide RunStore, RunOutcome, RanAt;
    if id < |s.schedules| && upcoming.Some? {
      RunLaw(s, id, Some(RunStamp(upcoming.value)), now, runBy);
      assert RunStamp(upcoming.value) % 1_000_000_000 == 0;
    }
  }

  /** A manual run needs only the schedule and leaves its next slot alone. */
  lemma FireManualLaw(s: Store, id: nat, now: int, runBy: string)
    ensures var (response, t) := FireManual(s, id, now, runBy);
            if id >= |s.schedules| then response == Missing && t == s
            else RanAt(s, t, id, s.schedules[id].nextRunAt, now, runBy, response)
  {
    hide RunStore, RunOutcome, RanAt;
    if id < |s.schedules| { RunLaw(s, id, s.schedules[id].nextRunAt, now, runBy); }
  }

  class Scheduler {
    var schedules: seq<Schedule>
    var tasks: seq<Task>
    var blockedBy: set<(nat, nat)>
    var events: seq<Event>

    function Snapshot(): Store
      reads this
    {
      Store(schedules, Board(tasks, blockedBy, events))
    }

    /** One transaction: claim, resolve the overlap, record. */
    method FireSchedule(id: nat, expectedNext: Option<int>, now: int, upcoming: Option<int>, runBy: string)
      returns (response: Response)
      modifies this
      ensures expectedNext.Some? ==>
                (response, Snapshot()) == FireTimed(old(Snapshot()), id, expectedNext.value, now, upcoming, runBy)
      ensures expectedNext.None? ==> (response, Snapshot()) == FireManual(old(Snapshot()), id, now, runBy)
    {
      hide OpenOccurrence, NextOrder;
      if expectedNext.Some? && (id >= |schedules| || schedules[id].nextRunAt != expectedNext) { return Passed; }
      if id >= |schedules| { return Missing; }
      var row := schedules[id];
      var next := row.nextRunAt;
      if expectedNext.Some? {
        if !row.enabled { return Passed; }
        if upcoming.None? {
          row := row.(lastRunAt := Some(now), lastOutcome := Some(Halted), lastTask := None, nextRunAt := None);
          schedules := schedules[id := row];
          return Stopped;
        }
        next := Some(RunStamp(upcoming.value));
      }
      var outcome, task := Created, |tasks|;
      var open := None;
      if row.overlap == Skip { open := FindOpen(id); }
      if open.Some? {
        outcome, task := Skipped, open.value;
        var actor := if runBy != "" then runBy else row.definition.lastEditedBy;
        events := events + [Event(task, None, "schedule.skipped", actor, now, None)];
      } else {
        InsertOccurrence(id, row.definition, now);
      }
      row := row.(lastRunAt := Some(now), lastOutcome := Some(outcome), lastTask := Some(task), nextRunAt := next);
      schedules := schedules[id := row];
      return Ran(outcome, task);
    }

    /** insertQueuedTask for an occurrence: the task, its items and the event. */
    method InsertOccurrence(id: nat, d: Definition, now: int)
      modifies this`tasks, this`events
      ensures tasks == old(tasks) + [ScheduledTask(d, id, NextOrder(old(tasks), NormalSection(d.section)), now)]
      ensures events == old(events) + [Event(|old(tasks)|, None, "task.created", d.lastEditedBy, now, None)]
    {
      var section := NormalSection(d.section);
      var items: seq<Item> := [];
      for k := 0 to |d.checklist|
        invariant items == Checklist.NewItems(d.checklist[..k], 0, 0)
        invariant tasks == old(tasks) && events == old(events)
      {
        items := items + [Item(k, d.checklist[k], ItemTodo, k, true)];
      }
      assert d.checklist[..|d.checklist|] == d.checklist;
      var t := Task(d.title, section, NextOrder(tasks, section), AgentLane, d.createdBy, "", d.lastEditedBy,
                    Queued, "", "", "", "", None, None, None, None, 1, now, items, |d.checklist|,
                    [], [], [], [], Some(id));
      events := events + [Event(|tasks|, None, "task.created", d.lastEditedBy, now, None)];
      tasks := tasks + [t];
    }

    /** The query for the newest open occurrence. */
    method FindOpen(id: nat) returns (open: Option<nat>)
      ensures open == OpenOccurrence(tasks, id)
    {
      hide IsOpenOccurrence;
      var i := |tasks|;
      while i > 0
        invariant 0 <= i <= |tasks|
        invariant OpenOccurrence(tasks, id) == OpenOccurrence(tasks[..i], id)
      {
        i := i - 1;
        assert tasks[..i + 1][..i] == tasks[..i];
        if IsOpenOccurrence(tasks[i], id) { return Some(i); }
      }
      return None;
    }
  }

  // ----- Replicas with stale due lists -----

  /** An item of some replica's due list, and the clock when it was read. */
  datatype Due = Due(schedule: nat, slot: int, readAt: int)

  /** A committed timed run: the slot it claimed, its clock, and what it left in next_run_at. */
  datatype SlotClaim = SlotClaim(schedule: nat, slot: int, at: int, next: Option<int>)

  datatype Machine = Machine(store: Store, clock: int, lists: set<Due>, claims: seq<SlotClaim>)

  datatype Step =
    | Tick(duration: nat)
    | ReadDue(schedule: nat)
    | Timed(due: Due, at: int, upcoming: Option<int>)
    | Manual(schedule: nat, at: int, runBy: string)
    | Request(call: Call)

  /** Enabled, due by the replica's clock. */
  predicate IsDue(s: Store, id: nat, clock: int) {
    && id < |s.schedules|
    && s.schedules[id].enabled
    && s.schedules[id].nextRunAt.Some?
    && s.schedules[id].nextRunAt.value <= RunStamp(clock)
  }

  /** A replica fires an item of its own list, reading its clock after it read the list, and the cron
      library answers with a whole second strictly after that clock.  Any other request is served as it comes. */
  predicate MayTake(m: Machine, step: Step) {
    match step
    case Tick(_) => true
    case ReadDue(id) => IsDue(m.store, id, m.clock)
    case Timed(due, at, upcoming) =>
      && due in m.lists
      && due.readAt <= at <= m.clock
      && (upcoming.Some? ==> upcoming.value > at && upcoming.value % SECOND == 0)
    case Manual(_, at, _) => at <= m.clock
    case Request(call) => !call.op.Fire?
  }

  ghost function Take(m: Machine, step: Step, lease: nat): Machine
    requires MayTake(m, step)
  {
    match step
    case Tick(d) => m.(clock := m.clock + d)
    case ReadDue(id) => m.(lists := m.lists + {Due(id, m.store.schedules[id].nextRunAt.value, m.clock)})
    case Timed(due, at, upcoming) =>
      var (response, store) := FireTimed(m.store, due.schedule, due.slot, at, upcoming, "");
      var taken := if response == Passed then [] else [SlotClaim(due.schedule, due.slot, at, upcoming)];
      m.(store := store, claims := m.claims + taken)
    case Manual(id, at, runBy) => m.(store := FireManual(m.store, id, at, runBy).1)
    case Request(call) => m.(store := m.store.(board := After(m.store.board, call, lease)))
  }

  ghost predicate Possible(m: Machine, steps: seq<Step>, lease: nat)
    decreases |steps|
  {
    steps == [] || (MayTake(m, steps[0]) && Possible(Take(m, steps[0], lease), steps[1..], lease))
  }

  ghost function Final(m: Machine, steps: seq<Step>, lease: nat): Machine
    requires Possible(m, steps, lease)
    decreases |steps|
  {
    if steps == [] then m else Final(Take(m, steps[0], lease), steps[1..], lease)
  }

  /** What the claims alone say next_run_at is: what the last claim left, or the initial value. */
  function NextSlot(start: Option<int>, claims: seq<SlotClaim>, id: nat): Option<int>
    decreases |claims|
  {
    if claims == [] then start
    else if claims[|claims| - 1].schedule == id then claims[|claims| - 1].next
    else NextSlot(start, claims[..|claims| - 1], id)
  }

  /** Each claim took exactly the slot that the claim before it left, and moved past it and past its clock. */
  ghost predicate Chained(starts: seq<Option<int>>, claims: seq<SlotClaim>) {
    forall k :: 0 <= k < |claims| ==>
      && claims[k].schedule < |starts|
      && NextSlot(starts[claims[k].schedule], claims[..k], claims[k].schedule) == Some(claims[k].slot)
      && claims[k].slot <= claims[k].at
      && (claims[k].next.Some? ==> claims[k].next.value > claims[k].slot && claims[k].next.value > claims[k].at)
  }

  ghost predicate ClaimsInv(starts: seq<Option<int>>, m: Machine) {
    && |m.store.schedules| == |starts|
    && Chained(starts, m.claims)
    && (forall id :: 0 <= id < |starts| ==> m.store.schedules[id].nextRunAt == NextSlot(starts[id], m.claims, id))
    && (forall due :: due in m.lists ==> due.slot <= due.readAt <= m.clock)
  }

  lemma ChainedExtends(starts: seq<Option<int>>, claims: seq<SlotClaim>, c: SlotClaim)
    requires Chained(starts, claims) && c.schedule < |starts|
    requires NextSlot(starts[c.schedule], claims, c.schedule) == Some(c.slot)
    requires c.slot <= c.at && (c.next.Some? ==> c.next.value > c.at)
    ensures Chained(starts, claims + [c])
  {
    hide NextSlot;
    var more := claims + [c];
    forall k | 0 <= k < |more| ensures more[..k] == if k < |claims| then claims[..k] else claims {}
  }

  lemma NextSlotExtends(start: Option<int>, claims: seq<SlotClaim>, c: SlotClaim, id: nat)
    ensures NextSlot(start, claims + [c], id) == if c.schedule == id then c.next else NextSlot(start, claims, id)
  {
    assert (claims + [c])[..|claims|] == claims;
  }

  /** A timed run that is not passed over found its slot, and leaves the next firing. */
  lemma TimedMoves(s: Store, id: nat, slot: int, at: int, upcoming: Option<int>)
    requires upcoming.Some? ==> upcoming.value % SECOND == 0
    ensures var (response, t) := FireTimed(s, id, slot, at, upcoming, "");
            && (response == Passed ==> t == s)
            && (response != Passed ==> Claims(s, id, slot))
            && |t.schedules| == |s.schedules|
            && (forall j :: 0 <= j < |s.schedules| ==>
                  t.schedules[j].nextRunAt ==
                  if response != Passed && j == id then upcoming else s.schedules[j].nextRunAt)
  {
    hide FireBoard, OpenOccurrence;
  }

  lemma ManualMovesNothing(s: Store, id: nat, at: int, runBy: string)
    ensures var t := FireManual(s, id, at, runBy).1;
            && |t.schedules| == |s.schedules|
            && (forall j :: 0 <= j < |s.schedules| ==> t.schedules[j].nextRunAt == s.schedules[j].nextRunAt)
  {
    hide FireBoard, OpenOccurrence;
  }

  lemma StepKeepsClaims(starts: seq<Option<int>>, m: Machine, step: Step, lease: nat)
    requires ClaimsInv(starts, m) && MayTake(m, step)
    ensures ClaimsInv(starts, Take(m, step, lease))
  {
    hide FireTimed, FireManual, Chained, NextSlot, After;
    match step {
      case Timed(due, at, upcoming) =>
        TimedMoves(m.store, due.schedule, due.slot, at, upcoming);
        if FireTimed(m.store, due.schedule, due.slot, at, upcoming, "").0 != Passed {
          var c := SlotClaim(due.schedule, due.slot, at, upcoming);
          ChainedExtends(starts, m.claims, c);
          forall id | 0 <= id < |starts| { NextSlotExtends(starts[id], m.claims, c, id); }
        } else {
          assert m.claims + [] == m.claims;
        }
      case Manual(id, at, runBy) => ManualMovesNothing(m.store, id, at, runBy);
      case _ =>
    }
  }

  lemma {:induction false} RunKeepsClaims(starts: seq<Option<int>>, m: Machine, steps: seq<Step>, lease: nat)
    requires ClaimsInv(starts, m) && Possible(m, steps, lease)
    ensures ClaimsInv(starts, Final(m, steps, lease))
    decreases |steps|
  {
    hide ClaimsInv, Take, MayTake;
    if steps != [] {
      StepKeepsClaims(starts, m, steps[0], lease);
      RunKeepsClaims(starts, Take(m, steps[0], lease), steps[1..], lease);
    }
  }

  /** Along a chain the next slot only moves forward, and once cleared it stays cleared. */
  lemma {:induction false} NextSlotAdvances(starts: seq<Option<int>>, claims: seq<SlotClaim>, i: nat, n: nat)
    requires Chained(starts, claims) && i < n <= |claims|
    ensures var p := NextSlot(starts[claims[i].schedule], claims[..n], claims[i].schedule);
            p.Some? ==> p.value > claims[i].slot && p.value > claims[i].at
    decreases n
  {
    var id := claims[i].schedule;
    assert claims[..n][..n - 1] == claims[..n - 1];
    if n > i + 1 {
      NextSlotAdvances(starts, claims, i, n - 1);
    }
  }

  ghost function Starts(s: Store): seq<Option<int>> {
    seq(|s.schedules|, i requires 0 <= i < |s.schedules| => s.schedules[i].nextRunAt)
  }

  ghost predicate Fresh(m: Machine) {
    m.lists == {} && m.claims == []
  }

  /** Over every interleaving of any replicas and any other requests: each slot of a schedule is
      claimed by at most one committed timed run, later runs claim later slots, each moves
      next_run_at past its slot and its clock, and nothing but a claim ever moves next_run_at. */
  lemma EachSlotClaimedOnce(m: Machine, steps: seq<Step>, lease: nat)
    requires Fresh(m) && Possible(m, steps, lease)
    ensures var claims := Final(m, steps, lease).claims;
            && (forall i, j :: 0 <= i < j < |claims| && claims[i].schedule == claims[j].schedule ==>
                  claims[i].slot < claims[j].slot && claims[i].at < claims[j].slot)
            && (forall i :: 0 <= i < |claims| && claims[i].next.Some? ==>
                  claims[i].next.value > claims[i].slot && claims[i].next.value > claims[i].at)
    ensures var n := Final(m, steps, lease);
            && |n.store.schedules| == |m.store.schedules|
            && (forall id :: 0 <= id < |m.store.schedules| ==>
                  n.store.schedules[id].nextRunAt == NextSlot(m.store.schedules[id].nextRunAt, n.claims, id))
  {
    hide Take, MayTake;
    var starts := Starts(m.store);
    RunKeepsClaims(starts, m, steps, lease);
    var claims := Final(m, steps, lease).claims;
    forall i, j | 0 <= i < j < |claims| && claims[i].schedule == claims[j].schedule
      ensures claims[i].slot < claims[j].slot && claims[i].at < claims[j].slot
    {
      NextSlotAdvances(starts, claims, i, j);
    }
  }

  /** And nothing keeps a due schedule from firing: a replica may read it as soon as its slot is past, and the run
      that follows claims that slot, unless something moved it in between. */
  lemma DueIsFired(m: Machine, id: nat, slot: int, at: int, upcoming: int, lease: nat)
    requires id < |m.store.schedules| && m.store.schedules[id].enabled && m.store.schedules[id].nextRunAt == Some(slot)
    requires slot % SECOND == 0 && slot <= m.clock == at < upcoming && upcoming % SECOND == 0
    ensures MayTake(m, ReadDue(id))
    ensures var read := Take(m, ReadDue(id), lease);
            var step := Timed(Due(id, slot, m.clock), at, Some(upcoming));
            && MayTake(read, step)
            && var m' := Take(read, step, lease);
               && m'.claims == m.claims + [SlotClaim(id, slot, at, Some(upcoming))]
               && |m'.store.schedules| == |m.store.schedules|
               && m'.store.schedules[id].nextRunAt == Some(upcoming)
               && m'.store.schedules[id].lastRunAt == Some(at)
  {
    hide FireBoard, OpenOccurrence;
  }

  // ----- Overlap -----

  /** Every step of the machine is at most one step of the board. */
  ghost function BoardCall(m: Machine, step: Step): Option<Call> {
    match step
    case Timed(due, at, upcoming) =>
      if Claims(m.store, due.schedule, due.slot) && m.store.schedules[due.schedule].enabled && upcoming.Some?
      then Some(FireCall(m.store, due.schedule, at, "")) else None
    case Manual(id, at, runBy) => if id < |m.store.schedules| then Some(FireCall(m.store, id, at, runBy)) else None
    case Request(call) => Some(call)
    case _ => None
  }

  lemma StepIsServed(m: Machine, step: Step, lease: nat)
    requires MayTake(m, step)
    ensures var call := BoardCall(m, step);
            Take(m, step, lease).store.board ==
            if call.None? then m.store.board else After(m.store.board, call.value, lease)
  {
    hide After, FireBoard;
    var call := BoardCall(m, step);
    if call.Some? && call.value.op.Fire? { FireIsExecuted(m.store.board, call.value, lease); }
  }

  /** The step brings a closed occurrence of this schedule back: by an update, or by a completed retry control. */
  ghost predicate StepReopens(m: Machine, step: Step, id: nat) {
    step.Request? && ReopensOccurrence(m.store.board, step.call, id)
  }

  ghost predicate NeverReopens(m: Machine, steps: seq<Step>, id: nat, lease: nat)
    requires Possible(m, steps, lease)
    decreases |steps|
  {
    steps == [] || (!StepReopens(m, steps[0], id) && NeverReopens(Take(m, steps[0], lease), steps[1..], id, lease))
  }

  ghost predicate Skips(s: Store, id: nat) {
    id < |s.schedules| && s.schedules[id].overlap == Skip
  }

  lemma StepKeepsSkipping(m: Machine, step: Step, id: nat, lease: nat)
    requires MayTake(m, step) && Skips(m.store, id)
    ensures Skips(Take(m, step, lease).store, id)
  {
    hide After, FireBoard, OpenOccurrence;
  }

  lemma StepKeepsOneOpen(m: Machine, step: Step, id: nat, lease: nat)
    requires MayTake(m, step) && !StepReopens(m, step, id)
    requires Skips(m.store, id) && AtMostOneOpen(m.store.board.tasks, id)
    ensures AtMostOneOpen(Take(m, step, lease).store.board.tasks, id)
  {
    hide Take, After, AtMostOneOpen;
    StepIsServed(m, step, lease);
    var call := BoardCall(m, step);
    if call.Some? { ServeKeepsOneOpen(m.store.board, call.value, lease, id); }
  }

  /** With overlap=skip and no request that takes an occurrence out of done or cancelled, timed and
      manual runs never leave two open occurrences, whatever else happens on the board. */
  lemma {:induction false} OneOpenOccurrence(m: Machine, steps: seq<Step>, id: nat, lease: nat)
    requires Possible(m, steps, lease) && NeverReopens(m, steps, id, lease)
    requires Skips(m.store, id) && AtMostOneOpen(m.store.board.tasks, id)
    ensures AtMostOneOpen(Final(m, steps, lease).store.board.tasks, id)
    decreases |steps|
  {
    hide Take, MayTake, AtMostOneOpen, StepReopens, Skips;
    if steps != [] {
      StepKeepsSkipping(m, steps[0], id, lease);
      StepKeepsOneOpen(m, steps[0], id, lease);
      OneOpenOccurrence(Take(m, steps[0], lease), steps[1..], id, lease);
    }
  }

  /** Boards that schedules fire into keep every invariant of the board. */
  lemma {:induction false} FiringKeepsInv(m: Machine, steps: seq<Step>, lease: nat)
    requires Possible(m, steps, lease) && Inv(m.store.board)
    ensures Inv(Final(m, steps, lease).store.board)
    decreases |steps|
  {
    hide Take, MayTake, Inv, After, BoardCall;
    if steps != [] {
      StepIsServed(m, steps[0], lease);
      var call := BoardCall(m, steps[0]);
      if call.Some? { StepKeepsInv(m.store.board, call.value, lease); }
      FiringKeepsInv(Take(m, steps[0], lease), steps[1..], lease);
    }
  }
}
