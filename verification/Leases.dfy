/** The lease protocol on one task: who may hold it, and which updates keep that. */
module Leases {
  import opened Model
  import opened TaskSteps
  import opened Updates

  /** One live run at most, only on an active task, and whoever asked a blocking
      question that is still open has ended its run. */
  ghost predicate LeaseOk(t: Task) {
    Held(t.status, t.runs) && AskersEnded(t.runs, t.escalations)
  }

  ghost predicate Held(status: Status, runs: seq<Run>) {
    && (forall i, j :: 0 <= i < |runs| && 0 <= j < |runs| && Live(runs[i]) && Live(runs[j]) ==> i == j)
    && (forall i :: 0 <= i < |runs| && Live(runs[i]) ==> status == Active)
  }

  ghost predicate AskersEnded(runs: seq<Run>, escalations: seq<Escalation>) {
    forall e :: 0 <= e < |escalations| && escalations[e].open && escalations[e].blocking ==>
        Ended(runs, escalations[e].run)
  }

  ghost predicate Ended(runs: seq<Run>, run: nat) {
    run < |runs| && runs[run].endedAt.Some?
  }

  /** Every live run's lease reaches at least to `since`. */
  ghost predicate HeldUntil(t: Task, since: int) {
    forall i :: 0 <= i < |t.runs| && Live(t.runs[i]) ==> t.runs[i].leaseExpires >= since
  }

  /** An open blocking question was asked by this run. */
  predicate Asking(t: Task, run: nat) {
    exists e :: 0 <= e < |t.escalations| && t.escalations[e].open && t.escalations[e].blocking
        && t.escalations[e].run == run
  }

  /** The updates that respect the lease: a live run is either the one named, or none
      is named and the task stays active; and a run that asked an open blocking
      question is not brought back. Marking a duplicate always respects it. */
  predicate LeaseSafe(t: Task, req: UpdateRequest) {
    Marks(req) ||
    (&& (forall i :: 0 <= i < |t.runs| && Live(t.runs[i]) ==>
        req.run == Some(i) || (req.run.None? && NewStatus(t, req) == Active))
     && (req.run.Some? && !EndsRun(NewStatus(t, req)) ==> !Asking(t, req.run.value)))
  }

  /** The usual discipline: name the live run or no run, and change the status of
      a held task only by naming its run or by marking it a duplicate. */
  predicate Disciplined(t: Task, req: UpdateRequest) {
    && (req.run.Some? ==> req.run.value < |t.runs| && Live(t.runs[req.run.value]))
    && (HasLiveRun(t) && NewStatus(t, req) != t.status ==> req.run.Some? || Marks(req))
  }

  lemma DisciplineIsSafe(t: Task, req: UpdateRequest)
    requires LeaseOk(t) && Disciplined(t, req)
    ensures LeaseSafe(t, req)
  {
  }

  lemma UpdateWritesRuns(t: Task, at: int, actor: string, req: UpdateRequest,
          kept: Result<Option<(nat, string)>>, order: int, unblocked: bool, lease: nat)
    requires UpdateTask(t, at, actor, req, kept, order, unblocked, lease).Ok?
    ensures req.run.Some? ==> req.run.value < |t.runs|
    ensures var t' := UpdateTask(t, at, actor, req, kept, order, unblocked, lease).value;
            t'.status == NewStatus(t, req) && t'.runs == UpdatedRuns(t, req, actor, at, lease)
                && t'.escalations == t.escalations
  {
  }

  /** An update keeps the lease protocol exactly when it is LeaseSafe. */
  lemma UpdateLeaseExact(t: Task, at: int, actor: string, req: UpdateRequest,
          kept: Result<Option<(nat, string)>>, order: int, unblocked: bool, lease: nat)
    requires LeaseOk(t) && ValidUpdate(req) && UpdateTask(t, at, actor, req, kept, order, unblocked, lease).Ok?
    ensures LeaseOk(UpdateTask(t, at, actor, req, kept, order, unblocked, lease).value) <==> LeaseSafe(t, req)
  {
    hide Held, AskersEnded, UpdateTask;
    var t' := UpdateTask(t, at, actor, req, kept, order, unblocked, lease).value;
    UpdateWritesRuns(t, at, actor, req, kept, order, unblocked, lease);
    if Marks(req) {
      MarkedHasNoLiveRun(t, at, actor, req, kept, order, unblocked, lease);
      UnheldIsHeld(t'.status, t'.runs);
      OnlyEnding(t.runs, t'.runs, t.escalations);
    } else if req.run.None? {
      UnnamedExact(t, req);
    } else {
      ReportExact(t, req, at, lease);
    }
  }

  lemma UnheldIsHeld(status: Status, runs: seq<Run>)
    requires forall i :: 0 <= i < |runs| ==> !Live(runs[i])
    ensures Held(status, runs)
  {
  }

  lemma OnlyEnding(runs: seq<Run>, runs': seq<Run>, escalations: seq<Escalation>)
    requires AskersEnded(runs, escalations) && |runs| <= |runs'|
    requires forall i :: 0 <= i < |runs| && runs[i].endedAt.Some? ==> runs'[i].endedAt.Some?
    ensures AskersEnded(runs', escalations)
  {
  }

  lemma UnnamedExact(t: Task, req: UpdateRequest)
    requires LeaseOk(t) && req.run.None? && !Marks(req)
    ensures Held(NewStatus(t, req), t.runs) <==> LeaseSafe(t, req)
  {
  }

  lemma ReportExact(t: Task, req: UpdateRequest, at: int, lease: nat)
    requires LeaseOk(t) && req.run.Some? && req.run.value < |t.runs| && !Marks(req)
    ensures var runs := t.runs[req.run.value := ReportRun(t.runs[req.run.value], NewStatus(t, req), at, lease)];
            Held(NewStatus(t, req), runs) && AskersEnded(runs, t.escalations) <==> LeaseSafe(t, req)
  {
    var run := req.run.value;
    var runs := t.runs[run := ReportRun(t.runs[run], NewStatus(t, req), at, lease)];
    if i :| 0 <= i < |t.runs| && Live(t.runs[i]) && i != run {
      assert Live(runs[i]);
      assert NewStatus(t, req) == Active ==> Live(runs[run]);
    } else if !EndsRun(NewStatus(t, req)) && Asking(t, run) {
      var e :| 0 <= e < |t.escalations| && t.escalations[e].open && t.escalations[e].blocking
          && t.escalations[e].run == run;
      assert !Ended(runs, t.escalations[e].run);
    }
  }

  lemma MarkingEndsRuns(t: Task, at: int, actor: string, req: UpdateRequest, lease: nat)
    requires Marks(req) && ValidUpdate(req) && !HeldByOthers(t, req, actor)
    requires req.run.Some? ==> req.run.value < |t.runs|
    ensures NewStatus(t, req) == Cancelled
    ensures forall i :: 0 <= i < |t.runs| ==> !Live(UpdatedRuns(t, req, actor, at, lease)[i])
  {
  }

  /** Whatever the state before, a task marked a duplicate ends up cancelled and unheld. */
  lemma MarkedHasNoLiveRun(t: Task, at: int, actor: string, req: UpdateRequest,
          kept: Result<Option<(nat, string)>>, order: int, unblocked: bool, lease: nat)
    requires Marks(req) && ValidUpdate(req) && UpdateTask(t, at, actor, req, kept, order, unblocked, lease).Ok?
    ensures UpdateTask(t, at, actor, req, kept, order, unblocked, lease).value.status == Cancelled
    ensures !HasLiveRun(UpdateTask(t, at, actor, req, kept, order, unblocked, lease).value)
  {
    hide Checklist.Edit, UpdatedItems, UpdatedRow, UpdatedRuns, MayComplete, Guard, HeldByOthers;
    UpdateWritesRuns(t, at, actor, req, kept, order, unblocked, lease);
    MarkingEndsRuns(t, at, actor, req, lease);
  }

  lemma UpdateHeld(t: Task, at: int, actor: string, req: UpdateRequest, kept: Result<Option<(nat, string)>>,
          order: int, unblocked: bool, lease: nat, since: int)
    requires HeldUntil(t, since) && since <= at && UpdateTask(t, at, actor, req, kept, order, unblocked, lease).Ok?
    ensures HeldUntil(UpdateTask(t, at, actor, req, kept, order, unblocked, lease).value, since)
  {
    hide UpdateTask;
    UpdateWritesRuns(t, at, actor, req, kept, order, unblocked, lease);
  }

  /** Ending the one live run frees the task for any status. */
  lemma EndingFrees(status: Status, runs: seq<Run>, run: nat, r: Run, status': Status)
    requires Held(status, runs) && run < |runs| && Live(runs[run]) && !Live(r)
    ensures Held(status', runs[run := r])
  {
  }

  lemma NotActiveIsFree(status: Status, runs: seq<Run>, status': Status)
    requires Held(status, runs) && status != Active
    ensures Held(status', runs) && forall i :: 0 <= i < |runs| ==> !Live(runs[i])
  {
  }

  lemma LocalLease(t: Task, c: Call, unblocked: bool, lease: nat)
    requires Local(c.op) && LeaseOk(t) && LocalStep(t, c, unblocked, lease).Ok?
    ensures LeaseOk(LocalStep(t, c, unblocked, lease).value)
  {
    hide LocalStep, Held, AskersEnded;
    LocalHolds(t, c, unblocked, lease);
    LocalAskers(t, c, unblocked, lease);
  }

  lemma LocalHolds(t: Task, c: Call, unblocked: bool, lease: nat)
    requires Local(c.op) && Held(t.status, t.runs) && LocalStep(t, c, unblocked, lease).Ok?
    ensures Held(LocalStep(t, c, unblocked, lease).value.status, LocalStep(t, c, unblocked, lease).value.runs)
  {
    var t' := LocalStep(t, c, unblocked, lease).value;
    assert Held(t'.status, t'.runs) by {
      if t.status != Active {
        NotActiveIsFree(t.status, t.runs, t'.status);
      } else if c.op.Escalate? && c.op.blocking {
        EndingFrees(t.status, t.runs, c.op.run, t'.runs[c.op.run], t'.status);
      } else if c.op.AnswerControl? && t' != t.(controls := t'.controls) {
        var run := t.controls[c.op.control].run;
        EndingFrees(t.status, t.runs, run, t'.runs[run], t'.status);
      }
    }
  }

  /** No single-task step reopens an ended run. */
  lemma LocalEndings(t: Task, c: Call, unblocked: bool, lease: nat)
    requires Local(c.op) && LocalStep(t, c, unblocked, lease).Ok?
    ensures var runs := LocalStep(t, c, unblocked, lease).value.runs;
            |t.runs| <= |runs| && forall i :: 0 <= i < |t.runs| && t.runs[i].endedAt.Some? ==> runs[i].endedAt.Some?
  {
  }

  lemma LocalEscalations(t: Task, c: Call, unblocked: bool, lease: nat)
    requires Local(c.op) && LocalStep(t, c, unblocked, lease).Ok?
    ensures var t', n := LocalStep(t, c, unblocked, lease).value, |t.escalations|;
            if c.op.Escalate? then
              && |t'.escalations| == n + 1 && t'.escalations == t.escalations + [t'.escalations[n]]
              && (t'.escalations[n].open && t'.escalations[n].blocking ==> Ended(t'.runs, t'.escalations[n].run))
            else if c.op.Resolve? then
              && c.op.escalation < n && |t'.escalations| == n && !t'.escalations[c.op.escalation].open
              && t'.escalations == t.escalations[c.op.escalation := t'.escalations[c.op.escalation]]
            else t'.escalations == t.escalations
  {
  }

  lemma LocalAskers(t: Task, c: Call, unblocked: bool, lease: nat)
    requires Local(c.op) && AskersEnded(t.runs, t.escalations) && LocalStep(t, c, unblocked, lease).Ok?
    ensures AskersEnded(LocalStep(t, c, unblocked, lease).value.runs,
              LocalStep(t, c, unblocked, lease).value.escalations)
  {
    hide AskersEnded, LocalStep;
    var t' := LocalStep(t, c, unblocked, lease).value;
    LocalEndings(t, c, unblocked, lease);
    OnlyEnding(t.runs, t'.runs, t.escalations);
    LocalEscalations(t, c, unblocked, lease);
    if c.op.Escalate? {
      Asked(t'.runs, t.escalations, t'.escalations[|t.escalations|]);
    } else if c.op.Resolve? {
      Answered(t'.runs, t.escalations, c.op.escalation, t'.escalations[c.op.escalation]);
    }
  }

  lemma Asked(runs: seq<Run>, escalations: seq<Escalation>, e: Escalation)
    requires AskersEnded(runs, escalations) && (e.open && e.blocking ==> Ended(runs, e.run))
    ensures AskersEnded(runs, escalations + [e])
  {
  }

  lemma Answered(runs: seq<Run>, escalations: seq<Escalation>, i: nat, e: Escalation)
    requires AskersEnded(runs, escalations) && i < |escalations| && !e.open
    ensures AskersEnded(runs, escalations[i := e])
  {
  }

  lemma LocalHeld(t: Task, c: Call, unblocked: bool, lease: nat, since: int)
    requires Local(c.op) && HeldUntil(t, since) && since <= c.at && LocalStep(t, c, unblocked, lease).Ok?
    ensures HeldUntil(LocalStep(t, c, unblocked, lease).value, since)
  {
    if !c.op.AnswerControl? && !c.op.Requeue? {
      hide AnswerControlTask, RequeueTask;
    }
  }

  /** The first statement of a sweep leaves only leases that reach its time. */
  lemma SweepRunsHeld(t: Task, since: int)
    requires LeaseOk(t)
    ensures LeaseOk(SweepRunsOf(t, since)) && HeldUntil(SweepRunsOf(t, since), since)
  {
  }

  lemma SweepRunsKeepsHeld(t: Task, swept: int, since: int)
    requires HeldUntil(t, since)
    ensures HeldUntil(SweepRunsOf(t, swept), since)
  {
  }

  lemma SweepTaskKeepsHeld(t: Task, swept: int, since: int)
    requires HeldUntil(t, since)
    ensures HeldUntil(SweepTaskOf(t, swept), since)
  {
  }

  /** The second statement spares every held task, so it never strands a live run. */
  lemma SweepTaskSparesHeld(t: Task, since: int)
    requires LeaseOk(t) && HeldUntil(t, since)
    ensures HasLiveRun(t) ==> SweepTaskOf(t, since) == t
    ensures LeaseOk(SweepTaskOf(t, since))
  {
  }
}
