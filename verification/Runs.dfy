/** Whole runs of the board: any sequence of requests, from anyone, in any order. */
module Runs {
  import opened Model
  import opened Taskboard
  import opened Requests
  import opened BoardInvariants
  import opened Duplicates
  import opened Ordering
  import opened Completion
  import opened Versions
  import Graph

  /** The board after the calls were served in order. */
  ghost function ServeAll(b: Board, calls: seq<Call>, lease: nat): Board
    decreases |calls|
  {
    if calls == [] then b else ServeAll(After(b, calls[0], lease), calls[1..], lease)
  }

  // ----- Invariants of every reachable board -----

  ghost predicate Inv(b: Board) {
    AllOk(b) && Star(b.tasks) && Distinct(b.tasks) && Graph.Acyclic(b.blockedBy)
  }

  lemma ExecuteKeepsInv(b: Board, c: Call, lease: nat)
    requires Inv(b) && Execute(b, c, lease).Ok?
    ensures Inv(Execute(b, c, lease).value)
  {
    hide AllOk, Star, Distinct, Graph.Acyclic, Execute;
    ExecuteKeepsTasks(b, c, lease);
    ExecuteKeepsStar(b, c, lease);
    ExecuteKeepsOrder(b, c, lease);
    ExecuteKeepsAcyclic(b, c, lease);
  }

  lemma StepKeepsInv(b: Board, c: Call, lease: nat)
    requires Inv(b)
    ensures Inv(After(b, c, lease))
  {
    hide Inv, Execute, After;
    OnlyExecution(b, c, lease);
    if Execute(b, c, lease).Ok? { ExecuteKeepsInv(b, c, lease); }
  }

  lemma {:induction false} RunKeepsInv(b: Board, calls: seq<Call>, lease: nat)
    requires Inv(b)
    ensures Inv(ServeAll(b, calls, lease))
    decreases |calls|
  {
    hide Inv;
    if calls != [] {
      StepKeepsInv(b, calls[0], lease);
      RunKeepsInv(After(b, calls[0], lease), calls[1..], lease);
    }
  }

  /** On every board any run can reach: statuses are coherent with completed_at,
      blocker and waiting_for; checklists are ordered with one active item at most
      and finished on done tasks; at most one control per run and kind is open;
      duplicate links form a star forest; sort orders are distinct per section;
      and the blocked-by graph is acyclic. */
  lemma ReachableBoards(calls: seq<Call>, lease: nat)
    ensures Inv(ServeAll(EMPTY_BOARD, calls, lease))
  {
    Graph.NoEdges();
    RunKeepsInv(EMPTY_BOARD, calls, lease);
  }

  // ----- Versions over a run -----

  /** How often the calls raise the version of task i. */
  ghost function BumpCount(b: Board, calls: seq<Call>, lease: nat, i: nat): nat
    decreases |calls|
  {
    if calls == [] then 0
    else
      (if Serve(b, calls[0], lease).Committed? && Bumps(b, calls[0], i) then 1 else 0)
      + BumpCount(After(b, calls[0], lease), calls[1..], lease, i)
  }

  lemma VersionAfter(b: Board, c: Call, lease: nat, i: nat)
    ensures |b.tasks| <= |After(b, c, lease).tasks|
    ensures i < |After(b, c, lease).tasks| ==>
              After(b, c, lease).tasks[i].version ==
              if i >= |b.tasks| then 1
              else b.tasks[i].version + if Serve(b, c, lease).Committed? && Bumps(b, c, i) then 1 else 0
    ensures Serve(b, c, lease).Committed? ==>
              Execute(b, c, lease).Ok? && After(b, c, lease) == Execute(b, c, lease).value
  {
    hide Execute, Bumps;
    if Execute(b, c, lease).Ok? {
      TasksGrow(b, c, lease);
      if i < |Execute(b, c, lease).value.tasks| { VersionStep(b, c, lease, i); }
    }
  }

  /** A task's version is 1 plus the number of committed steps that bumped it. */
  lemma {:induction false} VersionConservation(b: Board, calls: seq<Call>, lease: nat, i: nat)
    requires i < |ServeAll(b, calls, lease).tasks|
    ensures ServeAll(b, calls, lease).tasks[i].version ==
            (if i < |b.tasks| then b.tasks[i].version else 1) + BumpCount(b, calls, lease, i)
    decreases |calls|
  {
    hide After, Serve, Bumps;
    if calls != [] {
      VersionAfter(b, calls[0], lease, i);
      var b' := After(b, calls[0], lease);
      VersionConservation(b', calls[1..], lease, i);
      if i >= |b.tasks| { NotYetBumped(b, calls[0], i); }
    }
  }

  lemma NotYetBumped(b: Board, c: Call, i: nat)
    requires i >= |b.tasks|
    ensures !Bumps(b, c, i)
  {
  }

  lemma {:induction false} RunGrows(b: Board, calls: seq<Call>, lease: nat)
    ensures |b.tasks| <= |ServeAll(b, calls, lease).tasks|
    decreases |calls|
  {
    hide After;
    if calls != [] {
      VersionAfter(b, calls[0], lease, 0);
      RunGrows(After(b, calls[0], lease), calls[1..], lease);
    }
  }

  /** Two committed writes to a task, the first of which bumped it, were never
      based on the same version, whatever ran between them. */
  lemma WritesNeverShareAVersion(b: Board, first: Call, between: seq<Call>, second: Call, lease: nat, i: nat, v: int,
      w: int)
    requires Expects(first.op, i, v) && Serve(b, first, lease).Committed? && Bumps(b, first, i)
    requires Expects(second.op, i, w)
    requires Serve(ServeAll(After(b, first, lease), between, lease), second, lease).Committed?
    ensures v < w
  {
    hide After, Serve, Bumps, Execute, Expects;
    var b1 := After(b, first, lease);
    var b2 := ServeAll(b1, between, lease);
    VersionAfter(b, first, lease, i);
    CommitNeedsVersion(b, first, lease, i, v);
    RunGrows(b1, between, lease);
    VersionConservation(b1, between, lease, i);
    VersionAfter(b2, second, lease, i);
    CommitNeedsVersion(b2, second, lease, i, w);
  }
}
