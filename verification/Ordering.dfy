/** Sort orders inside a section, and Move as an adjacent transposition. */
module Ordering {
  import opened Model
  import opened TaskSteps
  import opened Updates
  import opened Taskboard
  import opened TaskInvariants

  ghost predicate Distinct(tasks: seq<Task>) {
    forall i, j :: 0 <= i < j < |tasks| && tasks[i].section == tasks[j].section ==>
        tasks[i].sortOrder != tasks[j].sortOrder
  }

  // ----- Distinct orders survive every step -----

  lemma FileLast(tasks: seq<Task>, t: Task)
    requires Distinct(tasks) && t.sortOrder == NextOrder(tasks, t.section)
    ensures Distinct(tasks + [t])
  {
  }

  /** Rewriting one row keeps orders distinct when it stays put or goes last in its new section. */
  lemma Refile(tasks: seq<Task>, k: nat, t: Task)
    requires Distinct(tasks) && k < |tasks|
    requires t.section == tasks[k].section ==> t.sortOrder == tasks[k].sortOrder
    requires t.section != tasks[k].section ==> t.sortOrder == NextOrder(tasks, t.section)
    ensures Distinct(tasks[k := t])
  {
  }

  lemma SameFiling(tasks: seq<Task>, tasks': seq<Task>)
    requires Distinct(tasks) && |tasks'| == |tasks|
    requires forall i :: 0 <= i < |tasks| ==>
      tasks'[i].section == tasks[i].section && tasks'[i].sortOrder == tasks[i].sortOrder
    ensures Distinct(tasks')
  {
  }

  lemma SwapKeeps(tasks: seq<Task>, t: nat, n: nat, at: int)
    requires Distinct(tasks) && t < |tasks| && n < |tasks| && t != n && tasks[t].section == tasks[n].section
    ensures Distinct(Swapped(tasks, t, n, at))
  {
  }

  lemma UpdateFiling(b: Board, c: Call, lease: nat)
    requires c.op.Update? && UpdateOne(b, c, lease).Ok?
    ensures c.op.task < |b.tasks|
    ensures var t, t' := b.tasks[c.op.task], UpdateOne(b, c, lease).value;
            t'.sortOrder == if t'.section == t.section then t.sortOrder else NextOrder(b.tasks, t'.section)
    ensures Marks(c.op.update) ==> UpdateOne(b, c, lease).value.duplicateOf.Some?
  {
  }

  lemma UpdateKeepsOrder(b: Board, c: Call, lease: nat)
    requires Distinct(b.tasks) && c.op.Update? && UpdateBoard(b, c, lease).Ok?
    ensures Distinct(UpdateBoard(b, c, lease).value.tasks)
  {
    hide Distinct, UpdateOne;
    UpdateFiling(b, c, lease);
    var t' := UpdateOne(b, c, lease).value;
    Refile(b.tasks, c.op.task, t');
    var tasks := Relinked(b, c, t');
    SameFiling(b.tasks[c.op.task := t'], tasks);
    if Recurs(b.tasks[c.op.task], t') {
      FileLast(tasks, NextOccurrence(t', NextOrder(tasks, t'.section), t'.lastEditedBy, c.at));
    } else {
      assert tasks + [] == tasks;
    }
  }

  lemma ExecuteKeepsOrder(b: Board, c: Call, lease: nat)
    requires Distinct(b.tasks) && Execute(b, c, lease).Ok?
    ensures Distinct(Execute(b, c, lease).value.tasks)
  {
    hide Distinct, UpdateBoard, LocalBoard, SweptRuns, SweptTasks;
    var b' := Execute(b, c, lease).value;
    if c.op.Update? {
      UpdateKeepsOrder(b, c, lease);
    } else if c.op.Start? || c.op.Create? || (c.op.Fire? && b'.tasks != b.tasks) {
      FileLast(b.tasks, b'.tasks[|b.tasks|]);
    } else if c.op.Move? && NeighbourOf(b.tasks, c.op.task, c.op.up).Some? {
      SwapKeeps(b.tasks, c.op.task, NeighbourOf(b.tasks, c.op.task, c.op.up).value, c.at);
    } else {
      if Local(c.op) { LocalFiling(b, c, lease); }
      else if c.op.SweepRuns? || c.op.SweepTasks? { SweepFiling(b.tasks, c.op.since); }
      SameFiling(b.tasks, b'.tasks);
    }
  }

  lemma LocalFiling(b: Board, c: Call, lease: nat)
    requires Local(c.op) && LocalBoard(b, c, lease).Ok?
    ensures var tasks' := LocalBoard(b, c, lease).value.tasks;
            |tasks'| == |b.tasks| && forall i :: 0 <= i < |b.tasks| ==>
                tasks'[i].section == b.tasks[i].section && tasks'[i].sortOrder == b.tasks[i].sortOrder
  {
    hide LocalStep, Unblocked;
    LocalFrame(b.tasks[c.op.task], c, Unblocked(b, c.op.task), lease);
  }

  lemma SweepFiling(tasks: seq<Task>, since: int)
    ensures forall i :: 0 <= i < |tasks| ==>
      var t := SweptRuns(tasks, since)[i]; t.section == tasks[i].section && t.sortOrder == tasks[i].sortOrder
    ensures forall i :: 0 <= i < |tasks| ==>
      var t := SweptTasks(tasks, since)[i]; t.section == tasks[i].section && t.sortOrder == tasks[i].sortOrder
  {
  }

  // ----- Move -----

  predicate OpenIn(tasks: seq<Task>, section: string, i: nat) {
    i < |tasks| && tasks[i].section == section && !Terminal(tasks[i].status)
  }

  /** s lists the section's open tasks in board order. */
  ghost predicate Lists(tasks: seq<Task>, section: string, s: seq<nat>) {
    && (forall k :: 0 <= k < |s| ==> OpenIn(tasks, section, s[k]))
    && (forall j, k :: 0 <= j < k < |s| ==> tasks[s[j]].sortOrder < tasks[s[k]].sortOrder)
    && (forall i :: OpenIn(tasks, section, i) ==> i in s)
  }

  /** s lists these tasks in board order. */
  ghost predicate Ordered(tasks: seq<Task>, ids: set<nat>, s: seq<nat>) {
    && (forall k :: 0 <= k < |s| ==> s[k] in ids && s[k] < |tasks|)
    && (forall id :: id in ids ==> id in s)
    && (forall j, k :: 0 <= j < k < |s| ==> tasks[s[j]].sortOrder < tasks[s[k]].sortOrder)
  }

  /** Where a new order goes among increasing ones. */
  lemma {:induction false} Slot(tasks: seq<Task>, s: seq<nat>, order: int) returns (k: nat)
    requires forall i :: 0 <= i < |s| ==> s[i] < |tasks| && tasks[s[i]].sortOrder != order
    requires forall i, j :: 0 <= i < j < |s| ==> tasks[s[i]].sortOrder < tasks[s[j]].sortOrder
    ensures k <= |s|
    ensures forall i :: 0 <= i < k ==> tasks[s[i]].sortOrder < order
    ensures forall i :: k <= i < |s| ==> tasks[s[i]].sortOrder > order
    decreases |s|
  {
    if s == [] || tasks[s[|s| - 1]].sortOrder < order { return |s|; }
    k := Slot(tasks, s[..|s| - 1], order);
    forall i | k <= i < |s| ensures tasks[s[i]].sortOrder > order {
      if i < |s| - 1 { assert s[..|s| - 1][i] == s[i]; }
    }
    forall i | 0 <= i < k ensures tasks[s[i]].sortOrder < order { assert s[..|s| - 1][i] == s[i]; }
  }

  lemma {:induction false} OrderedExists(tasks: seq<Task>, ids: set<nat>) returns (s: seq<nat>)
    requires forall id :: id in ids ==> id < |tasks|
    requires forall x, y :: x in ids && y in ids && x != y ==> tasks[x].sortOrder != tasks[y].sortOrder
    ensures Ordered(tasks, ids, s)
    decreases ids
  {
    if ids == {} { return []; }
    var x :| x in ids;
    var rest := OrderedExists(tasks, ids - {x});
    var k := Slot(tasks, rest, tasks[x].sortOrder);
    s := Insert(rest, x, k);
    Inserted(tasks, ids, rest, x, k);
  }

  function Insert(s: seq<nat>, x: nat, k: nat): seq<nat>
    requires k <= |s|
  {
    s[..k] + [x] + s[k..]
  }

  lemma InsertAt(s: seq<nat>, x: nat, k: nat, i: nat)
    requires k <= |s| && i <= |s|
    ensures |Insert(s, x, k)| == |s| + 1
    ensures Insert(s, x, k)[i] == if i < k then s[i] else if i == k then x else s[i - 1]
  {
  }

  lemma InsertHolds(s: seq<nat>, x: nat, k: nat, id: nat)
    requires k <= |s| && (id == x || id in s)
    ensures id in Insert(s, x, k)
  {
    assert s == s[..k] + s[k..];
  }

  lemma Inserted(tasks: seq<Task>, ids: set<nat>, rest: seq<nat>, x: nat, k: nat)
    requires x in ids && x < |tasks| && k <= |rest| && Ordered(tasks, ids - {x}, rest)
    requires forall i :: 0 <= i < k ==> tasks[rest[i]].sortOrder < tasks[x].sortOrder
    requires forall i :: k <= i < |rest| ==> tasks[rest[i]].sortOrder > tasks[x].sortOrder
    ensures Ordered(tasks, ids, Insert(rest, x, k))
  {
    hide Insert;
    var s := Insert(rest, x, k);
    InsertAt(rest, x, k, k);
    forall id | id in ids ensures id in s {
      assert id == x || id in ids - {x};
      InsertHolds(rest, x, k, id);
    }
    forall i | 0 <= i < |s| ensures s[i] in ids && s[i] < |tasks| { InsertAt(rest, x, k, i); }
    forall i, j | 0 <= i < j < |s| ensures tasks[s[i]].sortOrder < tasks[s[j]].sortOrder {
      InsertAt(rest, x, k, i);
      InsertAt(rest, x, k, j);
    }
  }

  /** Every section of every reachable board has such a listing. */
  lemma ListingExists(tasks: seq<Task>, section: string) returns (s: seq<nat>)
    requires Distinct(tasks)
    ensures Lists(tasks, section, s)
  {
    var ids := set i: nat | i < |tasks| && OpenIn(tasks, section, i);
    s := OrderedExists(tasks, ids);
    assert forall i :: OpenIn(tasks, section, i) ==> i in ids;
  }

  /** The listing with its entries j and j + 1 exchanged. */
  function Transposed(s: seq<nat>, j: nat): seq<nat>
    requires j + 1 < |s|
  {
    s[j := s[j + 1]][j + 1 := s[j]]
  }

  /** The entry of a listing next to position i is the neighbour Move finds. */
  lemma NeighbourInList(tasks: seq<Task>, section: string, s: seq<nat>, i: nat, up: bool)
    requires i < |s| && Lists(tasks, section, s)
    ensures s[i] < |tasks|
    ensures NeighbourOf(tasks, s[i], up) ==
            if up then if i == 0 then None else Some(s[i - 1])
            else if i == |s| - 1 then None else Some(s[i + 1])
  {
    var t := s[i];
    var j := if up then i - 1 else i + 1;
    forall m | 0 <= m < |tasks| && Beyond(tasks, t, m, up)
      ensures 0 <= j < |s| && (if up then tasks[m].sortOrder <= tasks[s[j]].sortOrder
                else tasks[m].sortOrder >= tasks[s[j]].sortOrder)
      ensures m != s[j] ==> tasks[m].sortOrder != tasks[s[j]].sortOrder
    {
      assert OpenIn(tasks, section, m);
      var k :| 0 <= k < |s| && s[k] == m;
    }
    if 0 <= j < |s| {
      assert Beyond(tasks, t, s[j], up);
      assert Neighbour(tasks, t, s[j], up);
    }
  }

  /** Move exchanges the task with the next open task in the asked direction, and does
      nothing at the end of the list. */
  lemma MoveIsTransposition(b: Board, c: Call, s: seq<nat>, i: nat)
    requires c.op.Move? && MoveBoard(b, c).Ok? && i < |s| && s[i] == c.op.task
    requires Lists(b.tasks, b.tasks[c.op.task].section, s)
    ensures var section := b.tasks[c.op.task].section;
            if (if c.op.up then i == 0 else i == |s| - 1) then MoveBoard(b, c).value == b
            else Lists(MoveBoard(b, c).value.tasks, section, Transposed(s, if c.op.up then i - 1 else i))
  {
    hide Lists;
    var section := b.tasks[c.op.task].section;
    NeighbourInList(b.tasks, section, s, i, c.op.up);
    if !(if c.op.up then i == 0 else i == |s| - 1) {
      SwapLists(b.tasks, section, s, if c.op.up then i - 1 else i, c.at, s[i]);
    }
  }

  lemma SwapLists(tasks: seq<Task>, section: string, s: seq<nat>, j: nat, at: int, mover: nat)
    requires j + 1 < |s| && Lists(tasks, section, s) && (mover == s[j] || mover == s[j + 1])
    ensures s[j] != s[j + 1] && s[j] < |tasks| && s[j + 1] < |tasks|
    ensures Lists(Swapped(tasks, mover, if mover == s[j] then s[j + 1] else s[j], at), section, Transposed(s, j))
  {
    assert OpenIn(tasks, section, s[j]) && OpenIn(tasks, section, s[j + 1]);
    var other := if mover == s[j] then s[j + 1] else s[j];
    var tasks', s' := Swapped(tasks, mover, other, at), Transposed(s, j);
    hide Swapped, Transposed;
    forall i | OpenIn(tasks', section, i) ensures i in s' {
      assert OpenIn(tasks, section, i);
      TransposedHolds(s, j, i);
    }
    forall k | 0 <= k < |s'| ensures OpenIn(tasks', section, s'[k])
        && tasks'[s'[k]].sortOrder == tasks[s[k]].sortOrder {
      TransposedAt(s, j, k);
      assert OpenIn(tasks, section, s[k]);
      if k != j && k != j + 1 { assert s[k] != s[j] && s[k] != s[j + 1]; }
    }
    TransposedAt(s, j, j);
  }

  lemma TransposedAt(s: seq<nat>, j: nat, k: nat)
    requires j + 1 < |s| && k < |s|
    ensures |Transposed(s, j)| == |s|
    ensures Transposed(s, j)[k] == if k == j then s[j + 1] else if k == j + 1 then s[j] else s[k]
  {
  }

  lemma TransposedHolds(s: seq<nat>, j: nat, i: nat)
    requires j + 1 < |s| && i in s
    ensures i in Transposed(s, j)
  {
    var k :| 0 <= k < |s| && s[k] == i;
    assert Transposed(s, j)[if k == j then j + 1 else if k == j + 1 then j else k] == i;
  }

  /** Outside the exchanged pair nothing changes; the neighbour keeps its version, and the section its orders. */
  lemma MoveTouchesTwoRows(b: Board, c: Call)
    requires c.op.Move? && MoveBoard(b, c).Ok? && MoveBoard(b, c).value != b
    ensures var n := NeighbourOf(b.tasks, c.op.task, c.op.up); var tasks' := MoveBoard(b, c).value.tasks;
            && n.Some? && |tasks'| == |b.tasks|
            && (forall i :: 0 <= i < |b.tasks| && i != c.op.task && i != n.value ==> tasks'[i] == b.tasks[i])
            && tasks'[n.value] == b.tasks[n.value].(sortOrder := b.tasks[c.op.task].sortOrder, updatedAt := c.at)
            && tasks'[c.op.task] == Touched(b.tasks[c.op.task], c.at).(sortOrder := b.tasks[n.value].sortOrder)
            && b.tasks[n.value].section == b.tasks[c.op.task].section
  {
  }

  /** Moving back restores every sort order. */
  lemma MoveBackRestores(b: Board, c: Call, d: Call)
    requires Distinct(b.tasks) && c.op.Move? && MoveBoard(b, c).Ok? && MoveBoard(b, c).value != b
    requires d.op == Move(c.op.task, !c.op.up, c.op.expected + 1)
    ensures var back := MoveBoard(MoveBoard(b, c).value, d);
            && back.Ok? && |back.value.tasks| == |b.tasks|
            && forall i :: 0 <= i < |b.tasks| ==> back.value.tasks[i].sortOrder == b.tasks[i].sortOrder
  {
    var t, n := c.op.task, NeighbourOf(b.tasks, c.op.task, c.op.up).value;
    var tasks' := MoveBoard(b, c).value.tasks;
    assert tasks' == Swapped(b.tasks, t, n, c.at);
    assert Beyond(tasks', t, n, d.op.up);
    forall m | 0 <= m < |tasks'| && Beyond(tasks', t, m, d.op.up) && m != n
      ensures if d.op.up then tasks'[m].sortOrder < tasks'[n].sortOrder else tasks'[m].sortOrder > tasks'[n].sortOrder
    {
      assert tasks'[m] == b.tasks[m];
      assert !Beyond(b.tasks, t, m, c.op.up);
    }
    assert Neighbour(tasks', t, n, d.op.up);
    assert NeighbourOf(tasks', t, d.op.up) == Some(n);
  }
}
