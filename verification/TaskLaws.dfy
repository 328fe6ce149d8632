/**
 What each transaction on one task takes and leaves, said of the request and the stored rows
 alone: exactly when it commits, what a refusal says about the request, and every column
 that is written. Whatever a law does not name stays as it was. The predicates used here are
 written out anew, so that no law leans on the step it is about.
 */
module TaskLaws {
  import opened Model
  import opened Text
  import opened TaskSteps
  import opened Taskboard
  import Checklist

  /** The run holds its task. */
  predicate Holding(r: Run) {
    r.status == Active && r.endedAt == None
  }

  /** At most a thousand characters of a text. */
  function Short(text: string): string {
    if |text| > 1000 then text[..999] + "…" else text
  }

  /** The idempotency record of a request whose key is looked up by everyone. */
  function Record(c: Call, content: Op): Option<Receipt> {
    if c.key == "" then None else Some(Receipt(c.key, content, true))
  }

  /** Exactly one row of the board is written, and these events follow the log. */
  ghost predicate Writes(b: Board, r: Result<Board>, i: nat, t': Task, events: seq<Event>) {
    r.Ok? && i < |b.tasks| && r.value == Board(b.tasks[i := t'], b.blockedBy, b.events + events)
  }

  /** Every task that task i waits for is done. */
  ghost predicate BlockersDone(b: Board, i: nat) {
    forall e :: e in b.blockedBy && e.0 == i && e.1 < |b.tasks| ==> b.tasks[e.1].status == Done
  }

  /** One todo item, the first by position, is activated if none was active and there is one. */
  ghost predicate FirstActivated(items: seq<Item>, items': seq<Item>) {
    if (exists k :: 0 <= k < |items| && items[k].status == ItemActive)
       || (forall k :: 0 <= k < |items| ==> items[k].status != ItemTodo)
    then items' == items
    else
      exists k :: 0 <= k < |items| && items[k].status == ItemTodo
                  && items' == items[k := items[k].(status := ItemActive)]
                  && forall j :: 0 <= j < |items| && items[j].status == ItemTodo ==>
                       items[k].position <= items[j].position
  }

  lemma ActivateFirstMeans(items: seq<Item>)
    ensures FirstActivated(items, Checklist.ActivateFirst(items))
  {
  }

  lemma LocalIsExecuted(b: Board, c: Call, lease: nat)
    requires Local(c.op)
    ensures Execute(b, c, lease) == LocalBoard(b, c, lease)
  {
    hide LocalBoard, StartBoard, CreateBoard, UpdateBoard, FireBoard, MoveBoard, BlockBoard, UnblockBoard;
  }

  // ----- Claim and heartbeat -----

  ghost predicate MayClaim(b: Board, c: Call)
    requires c.op.Claim?
  {
    && c.op.task < |b.tasks|
    && var t := b.tasks[c.op.task];
       && t.duplicateOf == None && (t.status == Queued || t.status == Stale)
       && c.admitted && 1 <= c.op.expected == t.version
       && BlockersDone(b, c.op.task)
       && (t.deferUntil == None || t.deferUntil.value <= c.at)
  }

  /** A claim adds one live run of the caller, who becomes the owner of the now active task. */
  lemma ClaimLaw(b: Board, c: Call, lease: nat)
    requires c.op.Claim?
    ensures Execute(b, c, lease).Ok? <==> MayClaim(b, c)
    ensures MayClaim(b, c) ==>
              var i := c.op.task;
              var t, t' := b.tasks[i], Execute(b, c, lease).value.tasks[i];
              && Writes(b, Execute(b, c, lease), i, t',
                        [Event(i, Some(|t.runs|), "task.claimed", c.actor, c.at, Record(c, c.op))])
              && FirstActivated(t.items, t'.items)
              && t' == t.(status := Active, owner := c.actor, version := t.version + 1, updatedAt := c.at,
                          completedAt := None, items := t'.items,
                          runs := t.runs + [Run(c.actor, Active, c.at + lease, c.at, c.at, None)])
    ensures Execute(b, c, lease).Err? ==>
              match Execute(b, c, lease).error
              case NotFound => c.op.task >= |b.tasks|
              case RateLimit => !c.admitted
              case Conflict => b.tasks[c.op.task].version != c.op.expected
              case Validation =>
                var t := b.tasks[c.op.task];
                || t.duplicateOf != None || (t.status != Queued && t.status != Stale) || c.op.expected < 1
                || !BlockersDone(b, c.op.task) || (t.deferUntil != None && c.at < t.deferUntil.value)
              case Forbidden => false
  {
    hide Execute, Checklist.ActivateFirst;
    LocalIsExecuted(b, c, lease);
    if c.op.task < |b.tasks| { ActivateFirstMeans(b.tasks[c.op.task].items); }
  }

  /** A heartbeat moves the lease of the caller's own live run to a full lease from now. */
  lemma HeartbeatLaw(b: Board, c: Call, lease: nat)
    requires c.op.Heartbeat?
    ensures Execute(b, c, lease).Ok? <==>
              && c.op.task < |b.tasks| && c.op.run < |b.tasks[c.op.task].runs|
              && var r := b.tasks[c.op.task].runs[c.op.run]; r.agent == c.actor && Holding(r) && c.admitted
    ensures Execute(b, c, lease).Ok? ==>
              var i, k := c.op.task, c.op.run;
              var r := b.tasks[i].runs[k].(leaseExpires := c.at + lease, heartbeatAt := c.at);
              Writes(b, Execute(b, c, lease), i, b.tasks[i].(runs := b.tasks[i].runs[k := r]), [])
    ensures Execute(b, c, lease).Err? ==>
              match Execute(b, c, lease).error
              case NotFound =>
                || c.op.task >= |b.tasks| || c.op.run >= |b.tasks[c.op.task].runs|
                || (var r := b.tasks[c.op.task].runs[c.op.run]; r.agent != c.actor || !Holding(r))
              case RateLimit => !c.admitted
              case _ => false
  {
    hide Execute;
    LocalIsExecuted(b, c, lease);
  }

  // ----- Escalations -----

  /** Every choice is a short text, and no two are the same without regard to case. */
  ghost predicate Choices(options: seq<string>) {
    && |options| <= 10
    && (forall k :: 0 <= k < |options| ==> 1 <= |options[k]| <= 200)
    && (forall j, k :: 0 <= j < |options| && 0 <= k < |options| && Lower(options[j]) == Lower(options[k]) ==> j == k)
  }

  /** A person's id: no blanks, and not that of an agent or of a service token. */
  predicate Person(id: string) {
    && 1 <= |id| <= 200
    && ' ' !in id && '\t' !in id && '\r' !in id && '\n' !in id
    && !("agent:" <= id) && !("cloudflare_access:service_token:" <= id)
  }

  /** The people named, each once, in the order of their first mention. */
  ghost predicate EachOnce(names: seq<string>, once: seq<string>) {
    && (forall x :: x in names <==> x in once)
    && (forall j, k :: 0 <= j < k < |once| ==> once[j] != once[k])
    && (forall j, k :: 0 <= j < k < |once| ==> MentionedBefore(names, once[j], once[k]))
  }

  /** Some mention of x comes before every mention of y. */
  ghost predicate MentionedBefore(names: seq<string>, x: string, y: string) {
    exists p :: 0 <= p < |names| && names[p] == x && y !in names[..p + 1]
  }

  lemma {:induction false} UnrepeatedMeans(names: seq<string>)
    ensures EachOnce(names, Unrepeated(names))
    decreases |names|
  {
    if names != [] {
      var front, last := names[..|names| - 1], names[|names| - 1];
      UnrepeatedMeans(front);
      var rest, once := Unrepeated(front), Unrepeated(names);
      assert forall x :: x in names <==> x in front || x == last;
      forall j, k | 0 <= j < k < |once| ensures MentionedBefore(names, once[j], once[k]) {
        if k < |rest| {
          var p :| 0 <= p < |front| && front[p] == once[j] && once[k] !in front[..p + 1];
          assert names[..p + 1] == front[..p + 1] && names[p] == once[j];
        } else {
          assert once[j] in front;
          var p :| 0 <= p < |front| && front[p] == once[j];
          assert names[..p + 1] == front[..p + 1] && names[p] == once[j];
        }
      }
    }
  }

  ghost predicate MayAsk(b: Board, c: Call)
    requires c.op.Escalate?
  {
    && WellAsked(c.op)
    && c.op.task < |b.tasks|
    && var t := b.tasks[c.op.task];
       && c.op.run < |t.runs| && Holding(t.runs[c.op.run]) && t.runs[c.op.run].agent == c.actor
       && t.version == c.op.expected && t.status == Active
  }

  /** The fields of a question are in bounds: a minute to a week to answer, or no limit. */
  ghost predicate WellAsked(op: Op)
    requires op.Escalate?
  {
    && op.expected >= 1 && 1 <= |op.question| <= 4000 && |op.recommendation| <= 1000 && Choices(op.options)
    && |op.answerers| <= 20 && (forall k :: 0 <= k < |op.answerers| ==> Person(op.answerers[k]))
    && (op.expiresIn == 0 || 60 <= op.expiresIn <= 604_800)
  }

  /** A question is stored as it was asked. A blocking one also ends the asking run and parks the task. */
  lemma EscalateLaw(b: Board, c: Call, lease: nat)
    requires c.op.Escalate?
    ensures Execute(b, c, lease).Ok? <==> MayAsk(b, c)
    ensures MayAsk(b, c) ==>
              var i, run := c.op.task, c.op.run;
              var t, t' := b.tasks[i], Execute(b, c, lease).value.tasks[i];
              var people := Unrepeated(c.op.answerers);
              var q := Escalation(run, c.op.question, c.op.recommendation, c.op.blocking, true, c.op.options, people,
                                  if c.op.expiresIn == 0 then None else Some(c.at + c.op.expiresIn * 1_000_000_000),
                                  "", "", "");
              && EachOnce(c.op.answerers, people)
              && Writes(b, Execute(b, c, lease), i, t',
                        [Event(i, Some(run), "task.escalated", c.actor, c.at,
                               Record(c, c.op.(answerers := people)))])
              && if c.op.blocking then
                   t' == t.(escalations := t.escalations + [q], status := Waiting, waitingFor := Short(c.op.question),
                            version := t.version + 1, updatedAt := c.at,
                            runs := t.runs[run := t.runs[run].(status := Waiting, leaseExpires := c.at,
                                                               heartbeatAt := c.at, endedAt := Some(c.at))])
                 else t' == t.(escalations := t.escalations + [q])
    ensures Execute(b, c, lease).Err? ==>
              match Execute(b, c, lease).error
              case NotFound => c.op.task >= |b.tasks|
              case Conflict => var t := b.tasks[c.op.task]; t.version != c.op.expected || t.status != Active
              case Validation =>
                || !WellAsked(c.op)
                || (var t := b.tasks[c.op.task];
                    c.op.run >= |t.runs| || !Holding(t.runs[c.op.run]) || t.runs[c.op.run].agent != c.actor)
              case _ => false
  {
    hide Execute, Unrepeated;
    LocalIsExecuted(b, c, lease);
    UnrepeatedMeans(c.op.answerers);
    AskedFields(c.op);
  }

  lemma AskedFields(op: Op)
    requires op.Escalate?
    ensures ValidFields(op) <==> WellAsked(op)
  {
    forall id: string ensures ValidPerson(id) <==> Person(id) {
      if Person(id) {
        forall k | 0 <= k < |id| ensures id[k] !in " \t\r\n" { assert id[k] in id; }
      }
      if ValidPerson(id) {
        forall ch | ch in id ensures ch !in " \t\r\n" { var k :| 0 <= k < |id| && id[k] == ch; }
        assert ' ' in " \t\r\n" && '\t' in " \t\r\n" && '\r' in " \t\r\n" && '\n' in " \t\r\n";
      }
    }
  }

  ghost predicate MayAnswer(b: Board, c: Call)
    requires c.op.Resolve?
  {
    && c.op.expected >= 1 && 1 <= |AnswerText(c.op)| <= 4000
    && c.op.task < |b.tasks|
    && var t := b.tasks[c.op.task];
       && t.version == c.op.expected
       && c.op.escalation < |t.escalations|
       && var e := t.escalations[c.op.escalation];
          && e.open && (e.expiresAt == None || c.at < e.expiresAt.value)
          && (e.answerers == [] || c.actor in e.answerers)
          && (c.op.option == "" || c.op.option in e.options)
          && (e.blocking ==> t.status == Waiting)
  }

  /** The answer, or the chosen option in its place. */
  function AnswerText(op: Op): string
    requires op.Resolve?
  {
    if op.answer != "" then op.answer else op.option
  }

  /** An answer closes the question under the name of someone who may give it. If it was blocking, the waiting task goes
      back to the queue, and on the agents' lane to nobody in particular; otherwise nothing else changes. */
  lemma ResolveLaw(b: Board, c: Call, lease: nat)
    requires c.op.Resolve?
    ensures Execute(b, c, lease).Ok? <==> MayAnswer(b, c)
    ensures MayAnswer(b, c) ==>
              var i, k := c.op.task, c.op.escalation;
              var t, t' := b.tasks[i], Execute(b, c, lease).value.tasks[i];
              var e := t.escalations[k];
              var closed := e.(open := false, answer := AnswerText(c.op), selected := c.op.option,
                               answeredBy := c.actor);
              && Writes(b, Execute(b, c, lease), i, t',
                        [Event(i, Some(e.run), "task.escalation_answered", c.actor, c.at,
                               Record(c, c.op.(answer := AnswerText(c.op))))])
              && if e.blocking then
                   t' == t.(escalations := t.escalations[k := closed], status := Queued, waitingFor := "",
                            owner := if t.visibility == AgentLane then "" else t.owner, lastEditedBy := c.actor,
                            version := t.version + 1, updatedAt := c.at)
                 else t' == t.(escalations := t.escalations[k := closed])
    ensures Execute(b, c, lease).Err? ==>
              match Execute(b, c, lease).error
              case NotFound => c.op.task >= |b.tasks| || c.op.escalation >= |b.tasks[c.op.task].escalations|
              case Conflict =>
                var t := b.tasks[c.op.task];
                t.version != c.op.expected || !t.escalations[c.op.escalation].open
              case Forbidden =>
                var e := b.tasks[c.op.task].escalations[c.op.escalation];
                e.answerers != [] && c.actor !in e.answerers
              case Validation =>
                || c.op.expected < 1 || AnswerText(c.op) == "" || |AnswerText(c.op)| > 4000
                || (var t := b.tasks[c.op.task];
                    var e := t.escalations[c.op.escalation];
                    || (e.expiresAt != None && e.expiresAt.value <= c.at)
                    || (c.op.option != "" && c.op.option !in e.options)
                    || (e.blocking && t.status != Waiting))
              case RateLimit => false
  {
    hide Execute;
    LocalIsExecuted(b, c, lease);
  }

  // ----- Run controls -----

  /** Pausing and cancelling need the live run of an active task, resuming an ended run of a waiting or blocked one,
      retrying an ended run of a stale or cancelled one. */
  predicate Targetable(t: Task, run: nat, kind: ControlKind) {
    && run < |t.runs|
    && if kind == Pause || kind == Cancel then t.status == Active && Holding(t.runs[run])
       else
         && t.runs[run].endedAt != None
         && (kind == Resume ==> t.status == Waiting || t.status == Blocked)
         && (kind == Retry ==> t.status == Stale || t.status == Cancelled)
  }

  predicate InProgress(c: Control) {
    c.status == Requested || c.status == Acknowledged || c.status == Accepted
  }

  ghost predicate MayRequestControl(b: Board, c: Call)
    requires c.op.RequestControl?
  {
    && c.op.expected >= 1 && |c.op.reason| <= 1000
    && c.op.task < |b.tasks|
    && var t := b.tasks[c.op.task];
       && Targetable(t, c.op.run, c.op.kind) && t.version == c.op.expected
       && forall k :: 0 <= k < |t.controls| && t.controls[k].run == c.op.run && t.controls[k].kind == c.op.kind ==>
            !InProgress(t.controls[k])
  }

  /** A control waits for the agent of its run, for a day. */
  lemma RequestControlLaw(b: Board, c: Call, lease: nat)
    requires c.op.RequestControl?
    ensures Execute(b, c, lease).Ok? <==> MayRequestControl(b, c)
    ensures MayRequestControl(b, c) ==>
              var i, run := c.op.task, c.op.run;
              var t := b.tasks[i];
              var day := 86_400 * 1_000_000_000;
              var agent := t.runs[run].agent;
              var control := Control(run, agent, c.op.kind, Requested, c.at + day, c.actor, c.op.reason, "");
              Writes(b, Execute(b, c, lease), i, t.(controls := t.controls + [control]),
                     [Event(i, Some(run), "task.control_requested", c.actor, c.at, Record(c, c.op))])
    ensures Execute(b, c, lease).Err? ==>
              match Execute(b, c, lease).error
              case NotFound => c.op.task >= |b.tasks|
              case Conflict =>
                var t := b.tasks[c.op.task];
                || t.version != c.op.expected
                || exists k :: 0 <= k < |t.controls| && t.controls[k].run == c.op.run
                               && t.controls[k].kind == c.op.kind && InProgress(t.controls[k])
              case Validation =>
                || c.op.expected < 1 || |c.op.reason| > 1000
                || !Targetable(b.tasks[c.op.task], c.op.run, c.op.kind)
              case _ => false
  {
    hide Execute, LastOpen;
    LocalIsExecuted(b, c, lease);
  }

  /** The order in which an agent works through a control, which may lapse at any point before its end. */
  predicate Follows(from: ControlStatus, to: ControlStatus) {
    || (from == Requested && to == Acknowledged)
    || (from == Acknowledged && (to == Accepted || to == Rejected))
    || (from == Accepted && to == Completed)
    || ((from == Requested || from == Acknowledged || from == Accepted) && to == Expired)
  }

  ghost predicate MayAnswerControl(b: Board, c: Call)
    requires c.op.AnswerControl?
  {
    && WellAnswered(c.op)
    && c.op.task < |b.tasks|
    && var t := b.tasks[c.op.task];
       && c.op.control < |t.controls|
       && var control := t.controls[c.op.control];
          && control.agent == c.actor && Follows(control.status, c.op.answerStatus)
          && (c.op.answerStatus == Expired <==> control.expiresAt <= c.at)
          && (c.op.answerStatus == Completed ==> t.version == c.op.expected && StillTargets(t, control))
  }

  predicate WellAnswered(op: Op)
    requires op.AnswerControl?
  {
    && |op.note| <= 1000 && (op.answerStatus == Rejected ==> op.note != "")
    && (op.answerStatus == Completed ==> op.expected >= 1)
  }

  /** The run is still that of the agent the control was for, and still in a state the control is good for. */
  predicate StillTargets(t: Task, control: Control) {
    Targetable(t, control.run, control.kind) && t.runs[control.run].agent == control.agent
  }

  /** What completing a control makes of its task. */
  function CarriedOut(t: Task, control: Control, note: string, at: int): Task
    requires control.run < |t.runs|
  {
    var run := t.runs[control.run].(leaseExpires := at, heartbeatAt := at, endedAt := Some(at));
    var t' := t.(version := t.version + 1, updatedAt := at);
    match control.kind
    case Pause =>
      t'.(status := Waiting, waitingFor := if note == "" then "Paused by request" else Short(note),
          runs := t.runs[control.run := run.(status := Waiting)])
    case Cancel =>
      t'.(status := Cancelled, completedAt := Some(at), note := Short(note), waitingFor := "", blocker := "",
          runs := t.runs[control.run := run.(status := Cancelled)])
    case _ =>
      t'.(status := Queued, completedAt := None, note := Short(note), waitingFor := "", blocker := "",
          owner := if t.visibility == AgentLane then "" else t.owner)
  }

  /** Only the target agent moves a control on, one step at a time and in time; completing it, on the version the agent
      saw, is the one step that touches the task. */
  lemma AnswerControlLaw(b: Board, c: Call, lease: nat)
    requires c.op.AnswerControl?
    ensures Execute(b, c, lease).Ok? <==> MayAnswerControl(b, c)
    ensures MayAnswerControl(b, c) ==>
              var i, k := c.op.task, c.op.control;
              var t := b.tasks[i];
              var control := t.controls[k];
              var moved := t.(controls := t.controls[k := control.(status := c.op.answerStatus, outcome := c.op.note)]);
              Writes(b, Execute(b, c, lease), i,
                     if c.op.answerStatus == Completed then CarriedOut(moved, control, c.op.note, c.at) else moved,
                     [Event(i, Some(control.run), "task.control_updated", c.actor, c.at, Record(c, c.op))])
    ensures Execute(b, c, lease).Err? ==>
              match Execute(b, c, lease).error
              case NotFound => c.op.task >= |b.tasks| || c.op.control >= |b.tasks[c.op.task].controls|
              case Forbidden => b.tasks[c.op.task].controls[c.op.control].agent != c.actor
              case Conflict =>
                var t := b.tasks[c.op.task];
                var control := t.controls[c.op.control];
                || (c.op.answerStatus != Expired && control.expiresAt <= c.at)
                || (c.op.answerStatus == Completed && (t.version != c.op.expected || !StillTargets(t, control)))
              case Validation =>
                || !WellAnswered(c.op)
                || (var control := b.tasks[c.op.task].controls[c.op.control];
                    || !Follows(control.status, c.op.answerStatus)
                    || (c.op.answerStatus == Expired && c.at < control.expiresAt))
              case RateLimit => false
  {
    hide Execute;
    LocalIsExecuted(b, c, lease);
  }

  /** A control that nobody closed in time lapses, and only then. */
  lemma ExpireControlLaw(b: Board, c: Call, lease: nat)
    requires c.op.ExpireControl?
    ensures Execute(b, c, lease).Ok? <==>
              && c.op.task < |b.tasks| && c.op.control < |b.tasks[c.op.task].controls|
              && var control := b.tasks[c.op.task].controls[c.op.control];
                 InProgress(control) && control.expiresAt <= c.at
    ensures Execute(b, c, lease).Ok? ==>
              var i, k := c.op.task, c.op.control;
              var t := b.tasks[i];
              Writes(b, Execute(b, c, lease), i, t.(controls := t.controls[k := t.controls[k].(status := Expired)]),
                     [Event(i, Some(t.controls[k].run), "task.control_updated", "taskboard", c.at, None)])
    ensures Execute(b, c, lease).Err? ==> Execute(b, c, lease).error == NotFound
  {
    hide Execute;
    LocalIsExecuted(b, c, lease);
  }

  ghost predicate MayRequeue(b: Board, c: Call)
    requires c.op.Requeue?
  {
    && c.op.expected >= 1 && 1 <= |c.op.note| <= 1000
    && c.op.task < |b.tasks|
    && var t := b.tasks[c.op.task];
       && t.version == c.op.expected && c.op.run < |t.runs|
       && if t.status == Stale then t.runs[c.op.run].status == Stale && t.runs[c.op.run].endedAt != None
          else (t.status == Blocked || t.status == Waiting) && !StillHeld(t, c.at)
  }

  /** Some run that has not ended has time left. */
  ghost predicate StillHeld(t: Task, at: int) {
    exists k :: 0 <= k < |t.runs| && t.runs[k].endedAt == None && at <= t.runs[k].leaseExpires
  }

  predicate IsFor(c: Control, run: nat, kind: ControlKind) {
    c.run == run && c.kind == kind && InProgress(c)
  }

  /** The latest control of this kind in progress for the run is completed with the note; if there is none, a completed
      one is added. */
  ghost predicate SettlesControl(t: Task, controls': seq<Control>, run: nat, kind: ControlKind, c: Call)
    requires c.op.Requeue? && run < |t.runs|
  {
    if k :| 0 <= k < |t.controls| && IsFor(t.controls[k], run, kind)
            && forall j :: k < j < |t.controls| ==> !IsFor(t.controls[j], run, kind)
    then controls' == t.controls[k := t.controls[k].(status := Completed, outcome := c.op.note)]
    else
      controls' == t.controls + [Control(run, t.runs[run].agent, kind, Completed,
                                         c.at + 86_400 * 1_000_000_000, c.actor, c.op.note, c.op.note)]
  }

  /** Review and requeue puts a task that nobody holds back in the queue, ends the run it names, and settles the control
      it stands for: retrying a stale run or resuming any other. */
  lemma RequeueLaw(b: Board, c: Call, lease: nat)
    requires c.op.Requeue?
    ensures Execute(b, c, lease).Ok? <==> MayRequeue(b, c)
    ensures MayRequeue(b, c) ==>
              var i, k := c.op.task, c.op.run;
              var t, t' := b.tasks[i], Execute(b, c, lease).value.tasks[i];
              && Writes(b, Execute(b, c, lease), i, t',
                        [Event(i, Some(k), "task.reviewed_requeued", c.actor, c.at, None)])
              && t' == t.(status := Queued, completedAt := None, note := Short(c.op.note), waitingFor := "",
                          blocker := "", owner := if t.visibility == AgentLane then "" else t.owner,
                          lastEditedBy := c.actor, version := t.version + 1, updatedAt := c.at,
                          runs := t.runs[k := if t.runs[k].endedAt != None then t.runs[k]
                                              else t.runs[k].(endedAt := Some(c.at))],
                          controls := t'.controls)
              && SettlesControl(t, t'.controls, k, if t.status == Stale then Retry else Resume, c)
    ensures Execute(b, c, lease).Err? ==>
              match Execute(b, c, lease).error
              case NotFound => c.op.task >= |b.tasks|
              case Conflict =>
                var t := b.tasks[c.op.task];
                || t.version != c.op.expected || (t.status != Stale && t.status != Blocked && t.status != Waiting)
                || (t.status == Stale && (t.runs[c.op.run].status != Stale || t.runs[c.op.run].endedAt == None))
                || (t.status != Stale && StillHeld(t, c.at))
              case Validation =>
                || c.op.expected < 1 || c.op.note == "" || |c.op.note| > 1000
                || c.op.run >= |b.tasks[c.op.task].runs|
              case _ => false
  {
    hide Execute, LastOpen;
    LocalIsExecuted(b, c, lease);
  }

  // ----- Completion requirements, and edits that only raise the version -----

  /** Open work gets one more pending requirement. */
  lemma RequireLaw(b: Board, c: Call, lease: nat)
    requires c.op.Require?
    ensures Execute(b, c, lease).Ok? <==>
              && 1 <= c.op.expected && c.op.task < |b.tasks|
              && var t := b.tasks[c.op.task];
                 t.version == c.op.expected && t.status != Done && t.status != Cancelled
    ensures Execute(b, c, lease).Ok? ==>
              var i := c.op.task;
              var t := b.tasks[i];
              Writes(b, Execute(b, c, lease), i,
                     t.(requirements := t.requirements + [Requirement(c.op.required, Pending)],
                        lastEditedBy := c.actor, version := t.version + 1, updatedAt := c.at),
                     [Event(i, None, "task.completion_requirement_added", c.actor, c.at, None)])
    ensures Execute(b, c, lease).Err? ==>
              match Execute(b, c, lease).error
              case NotFound => c.op.task >= |b.tasks|
              case Conflict => b.tasks[c.op.task].version != c.op.expected
              case Validation => c.op.expected < 1 || b.tasks[c.op.task].status in {Done, Cancelled}
              case _ => false
  {
    hide Execute;
    LocalIsExecuted(b, c, lease);
  }

  /** A review with the evidence it needs gives the requirement its verdict. */
  lemma ReviewLaw(b: Board, c: Call, lease: nat)
    requires c.op.Review?
    ensures Execute(b, c, lease).Ok? <==>
              && 1 <= c.op.expected && c.op.task < |b.tasks| && c.admitted
              && var t := b.tasks[c.op.task]; t.version == c.op.expected && c.op.requirement < |t.requirements|
    ensures Execute(b, c, lease).Ok? ==>
              var i, k := c.op.task, c.op.requirement;
              var t := b.tasks[i];
              Writes(b, Execute(b, c, lease), i,
                     t.(requirements := t.requirements[k := t.requirements[k].(status := c.op.verdict)],
                        lastEditedBy := c.actor, version := t.version + 1, updatedAt := c.at),
                     [Event(i, None, "task.completion_requirement_reviewed", c.actor, c.at, None)])
    ensures Execute(b, c, lease).Err? ==>
              match Execute(b, c, lease).error
              case NotFound => c.op.task >= |b.tasks| || c.op.requirement >= |b.tasks[c.op.task].requirements|
              case Conflict => b.tasks[c.op.task].version != c.op.expected
              case Validation => c.op.expected < 1 || !c.admitted
              case _ => false
  {
    hide Execute;
    LocalIsExecuted(b, c, lease);
  }

  /** An edit of the routing requirements and a rename of a run raise the version and keep the rest; only the first
      names its editor. */
  lemma TouchLaw(b: Board, c: Call, lease: nat)
    requires c.op.Touch? || c.op.Rename?
    ensures Execute(b, c, lease).Ok? <==>
              && 1 <= c.op.expected && c.op.task < |b.tasks| && b.tasks[c.op.task].version == c.op.expected
              && (c.op.Rename? ==> c.op.run < |b.tasks[c.op.task].runs|)
    ensures Execute(b, c, lease).Ok? ==>
              var i := c.op.task;
              var t := b.tasks[i];
              var t' := t.(version := t.version + 1, updatedAt := c.at);
              if c.op.Touch? then
                Writes(b, Execute(b, c, lease), i, t'.(lastEditedBy := c.actor),
                       [Event(i, None, "task.requirements_updated", c.actor, c.at, None)])
              else
                Writes(b, Execute(b, c, lease), i, t',
                       [Event(i, Some(c.op.run), "run.callsign_updated", c.actor, c.at, None)])
    ensures Execute(b, c, lease).Err? ==>
              match Execute(b, c, lease).error
              case NotFound => c.op.task >= |b.tasks| || (c.op.Rename? && c.op.run >= |b.tasks[c.op.task].runs|)
              case Conflict => b.tasks[c.op.task].version != c.op.expected
              case Validation => c.op.expected < 1
              case _ => false
  {
    hide Execute;
    LocalIsExecuted(b, c, lease);
  }
}
