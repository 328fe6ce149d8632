/** Requests that answer one another: a control carried out, a question answered, a dependency taken back. */
module Exchanges {
  import opened Model
  import opened Taskboard
  import opened Requests
  import opened TaskLaws
  import opened BoardLaws
  import opened Holders
  import Graph

  const DAY := 86_400 * 1_000_000_000

  /** The agent of the run moves control k of task i to this status, within the day. */
  predicate Replies(c: Call, i: nat, k: nat, agent: string, status: ControlStatus, requestedAt: int) {
    && c.op.AnswerControl? && c.op.task == i && c.op.control == k && c.op.answerStatus == status
    && c.actor == agent && c.key == "" && |c.op.note| <= 1000 && c.at < requestedAt + DAY
  }

  /** A control that may be requested can be carried out: acknowledged, accepted and completed by the agent of its run
      within a day, it has its effect on the task as it was when the control was requested. */
  lemma ControlIsCarriedOut(b: Board, request: Call, ack: Call, accept: Call, complete: Call, lease: nat)
    requires request.op.RequestControl? && request.key == "" && MayRequestControl(b, request)
    requires var i, run := request.op.task, request.op.run;
             var t := b.tasks[i];
             && Replies(ack, i, |t.controls|, t.runs[run].agent, Acknowledged, request.at)
             && Replies(accept, i, |t.controls|, t.runs[run].agent, Accepted, request.at)
             && Replies(complete, i, |t.controls|, t.runs[run].agent, Completed, request.at)
             && complete.op.expected == t.version
    ensures var i := request.op.task;
            var b' := After(After(After(After(b, request, lease), ack, lease), accept, lease), complete, lease);
            var t := b.tasks[i];
            var control := Control(request.op.run, t.runs[request.op.run].agent, request.op.kind, Completed,
                                   request.at + DAY, request.actor, request.op.reason, complete.op.note);
            && |b'.events| == |b.events| + 4
            && b'.tasks == b.tasks[i := CarriedOut(t.(controls := t.controls + [control]), control, complete.op.note,
                                                   complete.at)]
  {
    hide Execute, CarriedOut;
    var i := request.op.task;
    var t := b.tasks[i];
    RequestControlLaw(b, request, lease);
    Unkeyed(b, request, lease);
    var c0 := Control(request.op.run, t.runs[request.op.run].agent, request.op.kind, Requested, request.at + DAY,
                      request.actor, request.op.reason, "");
    var b1 := After(b, request, lease);
    assert b1.tasks[i] == t.(controls := t.controls + [c0]);
    StepsOn(b1, ack, i, t, c0, lease);
    var b2 := After(b1, ack, lease);
    var c1 := c0.(status := Acknowledged, outcome := ack.op.note);
    StepsOn(b2, accept, i, t, c1, lease);
    var b3 := After(b2, accept, lease);
    var c2 := c1.(status := Accepted, outcome := accept.op.note);
    AnswerControlLaw(b3, complete, lease);
    Unkeyed(b3, complete, lease);
    var c3 := c2.(status := Completed, outcome := complete.op.note);
    var moved := t.(controls := t.controls + [c3]);
    assert (t.controls + [c2])[|t.controls| := c3] == t.controls + [c3];
    SameEffect(moved, c2, c3, complete.op.note, complete.at);
    var b4 := After(b3, complete, lease);
    assert b4.tasks == b.tasks[i := CarriedOut(moved, c3, complete.op.note, complete.at)];
  }

  /** An answer that does not complete the control, the last of the task, moves it and nothing else. */
  lemma StepsOn(b: Board, c: Call, i: nat, t: Task, control: Control, lease: nat)
    requires i < |b.tasks| && b.tasks[i] == t.(controls := t.controls + [control])
    requires c.op.AnswerControl? && c.op.answerStatus != Completed && c.key == "" && MayAnswerControl(b, c)
    requires c.op.task == i && c.op.control == |t.controls|
    ensures var moved := control.(status := c.op.answerStatus, outcome := c.op.note);
            var b' := After(b, c, lease);
            && b'.tasks == b.tasks[i := t.(controls := t.controls + [moved])] && b'.blockedBy == b.blockedBy
            && |b'.events| == |b.events| + 1
  {
    hide Execute;
    AnswerControlLaw(b, c, lease);
    Unkeyed(b, c, lease);
    var moved := control.(status := c.op.answerStatus, outcome := c.op.note);
    assert (t.controls + [control])[|t.controls| := moved] == t.controls + [moved];
  }

  /** What a control does depends on its run and kind alone. */
  lemma SameEffect(t: Task, c: Control, d: Control, note: string, at: int)
    requires c.run == d.run < |t.runs| && c.kind == d.kind
    ensures CarriedOut(t, c, note, at) == CarriedOut(t, d, note, at)
  {
  }

  /** A blocking question that may be asked can be answered, by someone it is for and in time: the task is then back in
      the queue two versions on, nobody holds it, and the question is closed with the answer. */
  lemma QuestionIsAnswered(b: Board, ask: Call, answer: Call, lease: nat)
    requires ask.op.Escalate? && ask.op.blocking && ask.key == "" && MayAsk(b, ask)
    requires answer.op.Resolve? && answer.key == "" && 1 <= |AnswerText(answer.op)| <= 4000
    requires answer.op.option == "" || answer.op.option in ask.op.options
    requires ask.op.answerers == [] || answer.actor in ask.op.answerers
    requires ask.op.expiresIn == 0 || answer.at < ask.at + ask.op.expiresIn * 1_000_000_000
    requires var t := b.tasks[ask.op.task];
             answer.op.task == ask.op.task && answer.op.escalation == |t.escalations|
             && answer.op.expected == t.version + 1
    ensures var i := ask.op.task;
            var t, b' := b.tasks[i], After(After(b, ask, lease), answer, lease);
            && i < |b'.tasks|
            && var t' := b'.tasks[i];
               && t'.status == Queued && t'.waitingFor == "" && t'.version == t.version + 2
               && |t'.runs| == |t.runs| && t'.runs[ask.op.run].endedAt == Some(ask.at)
               && |t'.escalations| == |t.escalations| + 1
               && var e := t'.escalations[|t.escalations|];
                  !e.open && e.question == ask.op.question && e.answer == AnswerText(answer.op)
                  && e.answeredBy == answer.actor
  {
    hide Execute, TaskLaws.Short;
    EscalateLaw(b, ask, lease);
    Unkeyed(b, ask, lease);
    var b1 := After(b, ask, lease);
    ResolveLaw(b1, answer, lease);
    Unkeyed(b1, answer, lease);
  }

  /** Taking back a dependency just added leaves the dependencies as they were. */
  lemma DependencyIsTakenBack(b: Board, add: Call, remove: Call, lease: nat)
    requires add.op.Block? && Execute(b, add, lease).Ok?
    requires remove.op == Unblock(add.op.task, add.op.blockedBy, add.op.expected + 1)
    ensures var r := Execute(Execute(b, add, lease).value, remove, lease);
            r.Ok? && r.value.blockedBy == b.blockedBy
  {
    hide Execute, Graph.Reaches;
    BlockLaw(b, add, lease);
    UnblockLaw(Execute(b, add, lease).value, remove, lease);
  }
}
