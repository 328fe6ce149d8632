/** What it takes for a task to become done, and when some open task waits for nothing. */
module Completion {
  import opened Model
  import opened TaskSteps
  import opened Updates
  import opened Taskboard
  import opened Requests
  import opened BoardInvariants
  import Checklist
  import Graph

  /** Update is the only way into done. At that step the task's required items are
      finished, its required completion requirements are satisfied or waived, and
      its blockers are done. */
  lemma IntoDone(b: Board, c: Call, lease: nat, i: nat)
    requires Execute(b, c, lease).Ok? && i < |Execute(b, c, lease).value.tasks|
    requires Execute(b, c, lease).value.tasks[i].status == Done
    requires i < |b.tasks| ==> b.tasks[i].status != Done
    ensures i < |b.tasks| && c.op.Update? && c.op.task == i
    ensures RequirementsMet(b.tasks[i]) && Unblocked(b, i)
    ensures var items := Execute(b, c, lease).value.tasks[i].items;
            forall k :: 0 <= k < |items| ==> !Checklist.OpenRequired(items[k])
  {
    hide Execute, UpdateBoard;
    if c.op.Update? {
      UpdateIsExecuted(b, c, lease);
      UpdateRows(b, c, lease, i);
    } else {
      StepKeepsFrame(b, c, lease, i);
    }
  }

  // ----- Blockers -----

  lemma ExecuteKeepsAcyclic(b: Board, c: Call, lease: nat)
    requires Graph.Acyclic(b.blockedBy) && Execute(b, c, lease).Ok?
    ensures Graph.Acyclic(Execute(b, c, lease).value.blockedBy)
  {
    hide Graph.Acyclic, Graph.Reaches, UpdateOne, LocalStep;
    if c.op.Block? {
      Graph.AddEdge(b.blockedBy, c.op.task, c.op.blockedBy);
    } else if c.op.Unblock? {
      Graph.RemoveEdge(b.blockedBy, (c.op.task, c.op.blockedBy));
    }
  }

  /** While some task is not done, some task that is not done has only done blockers; it may be a cancelled one. */
  lemma SomeTaskUnblocked(b: Board, i: nat)
    requires Graph.Acyclic(b.blockedBy) && i < |b.tasks| && b.tasks[i].status != Done
    ensures exists t :: 0 <= t < |b.tasks| && b.tasks[t].status != Done && Unblocked(b, t)
  {
    var unfinished := set t: nat | t < |b.tasks| && b.tasks[t].status != Done;
    assert i in unfinished;
    Graph.SomeTaskIsStartable(b.blockedBy, unfinished);
    var t :| t in unfinished && !Graph.Waits(b.blockedBy, unfinished, t);
    forall e | e in b.blockedBy && e.0 == t && e.1 < |b.tasks| ensures b.tasks[e.1].status == Done {
      assert (t, e.1) in b.blockedBy;
    }
  }

  predicate IsOpen(b: Board, t: nat) {
    t < |b.tasks| && !Terminal(b.tasks[t].status)
  }

  /** While some task is open, some open task has only done or cancelled blockers. */
  lemma SomeOpenTaskWaitsForNoOpenOne(b: Board, i: nat)
    requires Graph.Acyclic(b.blockedBy) && IsOpen(b, i)
    ensures exists t :: IsOpen(b, t) && forall e :: e in b.blockedBy && e.0 == t && e.1 < |b.tasks| ==> !IsOpen(b, e.1)
  {
    var open := set t: nat | t < |b.tasks| && IsOpen(b, t);
    assert i in open;
    Graph.SomeTaskIsStartable(b.blockedBy, open);
    var t :| t in open && !Graph.Waits(b.blockedBy, open, t);
    forall e | e in b.blockedBy && e.0 == t && e.1 < |b.tasks| ensures !IsOpen(b, e.1) {
      assert (t, e.1) in b.blockedBy;
    }
  }

  /** The blocked-by edges of open tasks. */
  ghost function OpenEdges(b: Board): Graph.Edges {
    set e | e in b.blockedBy && IsOpen(b, e.0) && e.1 < |b.tasks|
  }

  /** A chain of blockers leads from this task, through open tasks only, to a cancelled one. */
  ghost predicate Stuck(b: Board, t: nat) {
    exists x :: 0 <= x < |b.tasks| && b.tasks[x].status == Cancelled && Graph.Reaches(OpenEdges(b), t, x)
  }

  /** From a task with only done blockers every chain through open tasks ends at its first step. */
  lemma UnblockedChain(b: Board, t: nat, p: seq<nat>)
    requires Unblocked(b, t) && Graph.IsPath(OpenEdges(b), p) && p[0] == t
    ensures p[|p| - 1] < |b.tasks| && b.tasks[p[|p| - 1]].status == Done
  {
    Graph.PathEdge(OpenEdges(b), p, 0);
    Graph.PathEdge(OpenEdges(b), p, 1);
  }

  lemma UnblockedIsNotStuck(b: Board, t: nat)
    requires Unblocked(b, t)
    ensures !Stuck(b, t)
  {
    forall p, x: nat | Graph.PathBetween(OpenEdges(b), p, t, x) ensures x < |b.tasks| && b.tasks[x].status == Done {
      UnblockedChain(b, t, p);
    }
  }

  lemma StuckBehind(b: Board, t: nat, blocker: nat)
    requires (t, blocker) in OpenEdges(b) && (b.tasks[blocker].status == Cancelled || Stuck(b, blocker))
    ensures Stuck(b, t)
  {
    if b.tasks[blocker].status == Cancelled {
      assert Graph.PathBetween(OpenEdges(b), [t, blocker], t, blocker);
    } else {
      var x :| 0 <= x < |b.tasks| && b.tasks[x].status == Cancelled && Graph.Reaches(OpenEdges(b), blocker, x);
      Graph.Prepend(OpenEdges(b), t, blocker, x);
    }
  }

  /** Some open task has only done blockers if and only if some open task has no chain of blockers that leads
      through open tasks to a cancelled one. */
  lemma OpenWorkIffNotStuck(b: Board)
    requires Graph.Acyclic(b.blockedBy)
    ensures (exists t :: IsOpen(b, t) && Unblocked(b, t)) <==> (exists t :: IsOpen(b, t) && !Stuck(b, t))
  {
    if t :| IsOpen(b, t) && Unblocked(b, t) { UnblockedIsNotStuck(b, t); }
    if i :| IsOpen(b, i) && !Stuck(b, i) { NotStuckIsUnblocked(b, i); }
  }

  lemma NotStuckIsUnblocked(b: Board, i: nat)
    requires Graph.Acyclic(b.blockedBy) && IsOpen(b, i) && !Stuck(b, i)
    ensures exists t :: IsOpen(b, t) && Unblocked(b, t)
  {
    hide Stuck;
    var free := set t: nat | t < |b.tasks| && IsOpen(b, t) && !Stuck(b, t);
    assert i in free;
    Graph.SomeTaskIsStartable(b.blockedBy, free);
    var t :| t in free && !Graph.Waits(b.blockedBy, free, t);
    forall e | e in b.blockedBy && e.0 == t && e.1 < |b.tasks| ensures b.tasks[e.1].status == Done {
      assert (t, e.1) in b.blockedBy;
      assert (t, e.1) in OpenEdges(b);
      if b.tasks[e.1].status == Cancelled || Stuck(b, e.1) { StuckBehind(b, t, e.1); }
    }
  }

  /** A board on which no open task can go on: its one open task is blocked by a cancelled one. */
  lemma StuckBoard(b: Board)
    requires |b.tasks| == 2 && b.blockedBy == {(1, 0)} && b.tasks[0].status == Cancelled && b.tasks[1].status == Queued
    ensures IsOpen(b, 1) && Graph.Acyclic(b.blockedBy)
    ensures forall t :: IsOpen(b, t) ==> !Unblocked(b, t)
  {
    Graph.NoEdges();
    Graph.AddEdge({}, 1, 0);
    assert {} + {(1, 0)} == {(1, 0)};
    NothingReached(0, 1);
    assert (1, 0) in b.blockedBy;
  }

  /** And requests lead there: create two tasks, block the second by the first, cancel the first. */
  lemma StuckBoardIsReachable(first: Call, second: Call, block: Call, cancel: Call, lease: nat)
    requires first.op.Create? && first.admitted && first.key == "" && ValidStart(first.op.start)
    requires second.op.Create? && second.admitted && second.key == "" && ValidStart(second.op.start)
    requires block.op == Block(1, 0, 1)
    requires cancel.op == Update(0, NO_EDIT.(status := Some(Cancelled))) && cancel.key == ""
    ensures var b := After(After(After(After(EMPTY_BOARD, first, lease), second, lease), block, lease), cancel, lease);
            && |b.tasks| == 2 && b.blockedBy == {(1, 0)}
            && b.tasks[0].status == Cancelled && b.tasks[1].status == Queued
  {
    hide After;
    var b0 := EMPTY_BOARD;
    CreateAppends(b0, first, lease);
    var b1 := After(b0, first, lease);
    CreateAppends(b1, second, lease);
    var b2 := After(b1, second, lease);
    BlockAppends(b2, block, lease);
    CancelCancels(After(b2, block, lease), cancel, lease);
  }

  /** A task fresh from the queue. */
  predicate Fresh(t: Task) {
    t.status == Queued && t.version == 1 && t.duplicateOf.None? && t.runs == []
  }

  lemma CreateAppends(b: Board, c: Call, lease: nat)
    requires c.op.Create? && c.admitted && c.key == "" && ValidStart(c.op.start)
    ensures var b' := After(b, c, lease);
            && |b'.tasks| == |b.tasks| + 1 && b'.tasks[..|b.tasks|] == b.tasks && b'.blockedBy == b.blockedBy
            && Fresh(b'.tasks[|b.tasks|])
  {
    hide NextOrder, Checklist.NewItems;
  }

  lemma BlockAppends(b: Board, c: Call, lease: nat)
    requires |b.tasks| == 2 && b.blockedBy == {} && Fresh(b.tasks[0]) && Fresh(b.tasks[1]) && c.op == Block(1, 0, 1)
    ensures var b' := After(b, c, lease);
            && |b'.tasks| == 2 && b'.blockedBy == {(1, 0)} && b'.tasks[0] == b.tasks[0] && b'.tasks[1].status == Queued
  {
    hide Graph.Reaches;
    NothingReached(0, 1);
  }

  lemma NothingReached(a: nat, c: nat)
    ensures !Graph.Reaches({}, a, c)
  {
    if Graph.Reaches({}, a, c) {
      var p :| Graph.PathBetween({}, p, a, c);
      Graph.FirstEdge({}, p);
    }
  }

  lemma CancelCancels(b: Board, c: Call, lease: nat)
    requires |b.tasks| == 2 && Fresh(b.tasks[0])
    requires c.op == Update(0, NO_EDIT.(status := Some(Cancelled))) && c.key == ""
    ensures var b' := After(b, c, lease);
            && |b'.tasks| == 2 && b'.blockedBy == b.blockedBy
            && b'.tasks[0].status == Cancelled && b'.tasks[1] == b.tasks[1]
  {
  }
}
