/** Duplicate links: a star forest, flattened whenever a task is marked. */
module Duplicates {
  import opened Model
  import opened Updates
  import opened Taskboard
  import opened BoardInvariants

  /** Every link points directly at a task without a link. */
  ghost predicate Star(tasks: seq<Task>) {
    forall i :: 0 <= i < |tasks| && tasks[i].duplicateOf.Some? ==> IsRoot(tasks, tasks[i].duplicateOf.value)
  }

  ghost predicate IsRoot(tasks: seq<Task>, i: nat) {
    i < |tasks| && tasks[i].duplicateOf.None?
  }

  /** Following links from id reaches the root after n hops, however many that is. */
  ghost predicate Leads(tasks: seq<Task>, id: nat, root: nat, n: nat)
    decreases n
  {
    if n == 0 then id == root && IsRoot(tasks, root)
    else id < |tasks| && tasks[id].duplicateOf.Some? && Leads(tasks, tasks[id].duplicateOf.value, root, n - 1)
  }

  /** The kept task of a star forest, one hop away at most. */
  function Root(tasks: seq<Task>, i: nat): nat
    requires i < |tasks|
  {
    if tasks[i].duplicateOf.None? then i else tasks[i].duplicateOf.value
  }

  lemma RootLeadsNowhere(tasks: seq<Task>, k: nat, root: nat, n: nat)
    requires IsRoot(tasks, k)
    ensures Leads(tasks, k, root, n) <==> n == 0 && k == root
  {
  }

  /** One hop finds the root that unbounded link following finds, and no other. */
  lemma RootIsWhereLinksLead(tasks: seq<Task>, id: nat)
    requires Star(tasks)
    ensures id < |tasks| ==> exists n: nat :: Leads(tasks, id, Root(tasks, id), n)
    ensures forall root: nat, n: nat :: Leads(tasks, id, root, n) ==> id < |tasks| && root == Root(tasks, id)
  {
    if id < |tasks| {
      var root := Root(tasks, id);
      assert Leads(tasks, root, root, 0);
      assert Leads(tasks, id, root, if root == id then 0 else 1);
    }
    forall root: nat, n: nat | Leads(tasks, id, root, n) ensures id < |tasks| && root == Root(tasks, id) {
      if n > 0 {
        var k := tasks[id].duplicateOf.value;
        assert Leads(tasks, k, root, n - 1);
        RootLeadsNowhere(tasks, k, root, n - 1);
      }
    }
  }

  /** The bounded loop agrees with unbounded link following: its depth limit never
      decides anything, and it refuses only missing tasks and links back. */
  lemma DepthLimitUnreachable(tasks: seq<Task>, id: nat, task: nat, hops: nat)
    requires Star(tasks) && hops >= 2
    ensures ResolveRoot(tasks, id, task, hops) ==
            if id >= |tasks| || id == task || Root(tasks, id) == task then Err(Validation)
            else Ok((Root(tasks, id), tasks[Root(tasks, id)].title))
  {
    if id < |tasks| && id != task && tasks[id].duplicateOf.Some? {
      assert IsRoot(tasks, Root(tasks, id));
      assert ResolveRoot(tasks, Root(tasks, id), task, hops - 1) ==
             if Root(tasks, id) == task then Err(Validation) else Ok((Root(tasks, id), tasks[Root(tasks, id)].title));
    }
  }

  /** Marking t a duplicate of x moves exactly t and t's own duplicates to x's root. */
  lemma MarkingMovesRoots(b: Board, c: Call, lease: nat, u: nat)
    requires Star(b.tasks) && c.op.Update? && Marks(c.op.update) && u < |b.tasks|
    requires UpdateBoard(b, c, lease).Ok?
    ensures c.op.task < |b.tasks| && c.op.update.duplicateOf.value.value < |b.tasks|
              && u < |UpdateBoard(b, c, lease).value.tasks|
    ensures Root(UpdateBoard(b, c, lease).value.tasks, u) ==
            if u == c.op.task || b.tasks[u].duplicateOf == Some(c.op.task)
            then Root(b.tasks, c.op.update.duplicateOf.value.value)
            else Root(b.tasks, u)
  {
    hide UpdateBoard;
    UpdateLinks(b, c, lease);
    DepthLimitUnreachable(b.tasks, c.op.update.duplicateOf.value.value, c.op.task, MAX_HOPS);
  }

  lemma UpdateKeepsStar(b: Board, c: Call, lease: nat)
    requires Star(b.tasks) && c.op.Update? && UpdateBoard(b, c, lease).Ok?
    ensures Star(UpdateBoard(b, c, lease).value.tasks)
  {
    var t := c.op.task;
    var tasks, tasks' := b.tasks, UpdateBoard(b, c, lease).value.tasks;
    UpdateLinks(b, c, lease);
    forall i | 0 <= i < |tasks'| && tasks'[i].duplicateOf.Some? ensures IsRoot(tasks', tasks'[i].duplicateOf.value) {
      if Marks(c.op.update) {
        if i != t && tasks[i].duplicateOf != Some(t) { assert IsRoot(tasks, tasks[i].duplicateOf.value); }
      } else {
        assert IsRoot(tasks, tasks[i].duplicateOf.value);
      }
    }
  }

  /** The link column after an update. */
  lemma UpdateLinks(b: Board, c: Call, lease: nat)
    requires Star(b.tasks) && c.op.Update? && UpdateBoard(b, c, lease).Ok?
    ensures var tasks, tasks', t := b.tasks, UpdateBoard(b, c, lease).value.tasks, c.op.task;
            && t < |tasks| <= |tasks'|
            && (forall i :: |tasks| <= i < |tasks'| ==> tasks'[i].duplicateOf.None?)
            && (if Marks(c.op.update) then
                  && ResolveRoot(tasks, c.op.update.duplicateOf.value.value, t, MAX_HOPS).Ok?
                  && tasks'[t].duplicateOf ==
                     Some(ResolveRoot(tasks, c.op.update.duplicateOf.value.value, t, MAX_HOPS).value.0)
                  && tasks'[t].duplicateOf.value != t && IsRoot(tasks, tasks'[t].duplicateOf.value)
                  && (forall i :: 0 <= i < |tasks| && i != t ==>
                        tasks'[i].duplicateOf ==
                        if tasks[i].duplicateOf == Some(t) then tasks'[t].duplicateOf else tasks[i].duplicateOf)
                else
                  && (tasks'[t].duplicateOf == tasks[t].duplicateOf || tasks'[t].duplicateOf.None?)
                  && (forall i :: 0 <= i < |tasks| && i != t ==> tasks'[i].duplicateOf == tasks[i].duplicateOf))
  {
    hide UpdateOne, ResolveRoot, NextOccurrence, UpdateEvents;
    UpdatedLinkMeans(b, c, lease);
    var t' := UpdateOne(b, c, lease).value;
    OccurrenceHasNoLink(t', NextOrder(Relinked(b, c, t'), t'.section), t'.lastEditedBy, c.at);
  }

  lemma OccurrenceHasNoLink(t: Task, order: int, actor: string, at: int)
    ensures NextOccurrence(t, order, actor, at).duplicateOf.None?
  {
  }

  /** The link an update leaves on the task it names. */
  lemma UpdatedLinkMeans(b: Board, c: Call, lease: nat)
    requires Star(b.tasks) && c.op.Update? && UpdateOne(b, c, lease).Ok?
    ensures c.op.task < |b.tasks|
    ensures var t, link := c.op.task, UpdateOne(b, c, lease).value.duplicateOf;
            if Marks(c.op.update) then
              && ResolveRoot(b.tasks, c.op.update.duplicateOf.value.value, t, MAX_HOPS).Ok?
              && link == Some(ResolveRoot(b.tasks, c.op.update.duplicateOf.value.value, t, MAX_HOPS).value.0)
              && link.value != t && IsRoot(b.tasks, link.value)
            else link == b.tasks[t].duplicateOf || link.None?
  {
    if Marks(c.op.update) {
      RootIsOther(b.tasks, c.op.update.duplicateOf.value.value, c.op.task, MAX_HOPS);
    }
  }

  lemma ExecuteKeepsStar(b: Board, c: Call, lease: nat)
    requires Star(b.tasks) && Execute(b, c, lease).Ok?
    ensures Star(Execute(b, c, lease).value.tasks)
  {
    hide Execute, UpdateBoard;
    if c.op.Update? {
      UpdateIsExecuted(b, c, lease);
      UpdateKeepsStar(b, c, lease);
    } else {
      var tasks, tasks' := b.tasks, Execute(b, c, lease).value.tasks;
      forall i | 0 <= i < |tasks'|
        ensures |tasks| <= |tasks'|
        ensures tasks'[i].duplicateOf == if i < |tasks| then tasks[i].duplicateOf else None
      {
        StepKeepsFrame(b, c, lease, i);
      }
    }
  }
}
