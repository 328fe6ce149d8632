/** Retried requests: a repeat of a committed request changes nothing and answers as the first did. */
module Retry {
  import opened Model
  import opened TaskSteps
  import opened Updates
  import opened Taskboard
  import opened Requests
  import opened Versions
  import opened Runs
  import opened Ordering
  import TaskLaws

  /** Whoever sends a key, agent or person, has a name. */
  predicate WellKeyed(c: Call) {
    c.key != "" ==> c.actor != ""
  }

  /** The request carries a key, looked up or not. */
  predicate HasKey(c: Call) {
    Keyed(c.op) && c.key != ""
  }

  /** The request carries a key that is looked up. */
  predicate Guarded(c: Call) {
    LooksUp(c) && c.key != ""
  }

  /** The task and run a keyed request creates or writes. */
  function Subject(b: Board, c: Call): (nat, Option<nat>)
    requires Keyed(c.op)
  {
    match c.op
    case Start(_) => (|b.tasks|, Some(0))
    case Create(_) => (|b.tasks|, None)
    case Claim(task, _) => (task, if task < |b.tasks| then Some(|b.tasks[task].runs|) else None)
    case Update(task, update) => (task, update.run)
    case Escalate(task, run, _, _, _, _, _, _, _) => (task, Some(run))
    case Resolve(task, k, _, _, _) => (task, if task < |b.tasks| then AskingRun(b.tasks[task], k) else None)
    case RequestControl(task, run, _, _, _) => (task, Some(run))
    case AnswerControl(task, k, _, _, _) => (task, if task < |b.tasks| then TargetRun(b.tasks[task], k) else None)
  }

  // ----- What a step writes to the log -----

  /** New events carry no receipt but that of the call, on its subject. */
  ghost predicate Logs(b: Board, b': Board, c: Call) {
    && |b.events| <= |b'.events| && b'.events[..|b.events|] == b.events
    && (forall i :: |b.events| <= i < |b'.events| && b'.events[i].receipt.Some? ==>
          b'.events[i].receipt == ReceiptOf(c) && (c.actor != "" ==> b'.events[i].actor == c.actor))
  }

  ghost predicate LogsReceipt(b: Board, b': Board, c: Call)
    requires HasKey(c)
  {
    var last := |b'.events| - 1;
    && |b.events| <= last
    && b'.events[last].receipt == ReceiptOf(c)
    && (c.actor != "" ==> b'.events[last].actor == c.actor)
    && (b'.events[last].task, b'.events[last].run) == Subject(b, c)
  }

  lemma UpdateEventsShape(b: Board, c: Call, t': Task)
    requires c.op.Update? && c.op.task < |b.tasks| && (Marks(c.op.update) ==> t'.duplicateOf.Some?)
    ensures var events := UpdateEvents(b, c, t');
            && events != []
            && (forall i :: 0 <= i < |events| - 1 ==> events[i].receipt.None?)
            && events[|events| - 1].receipt == ReceiptOf(c)
            && (c.actor != "" ==> events[|events| - 1].actor == c.actor)
            && (events[|events| - 1].task, events[|events| - 1].run) == Subject(b, c)
  {
  }

  lemma UpdateLogs(b: Board, c: Call, lease: nat)
    requires c.op.Update? && UpdateBoard(b, c, lease).Ok?
    ensures Logs(b, UpdateBoard(b, c, lease).value, c)
    ensures HasKey(c) ==> LogsReceipt(b, UpdateBoard(b, c, lease).value, c)
  {
    hide UpdateOne, UpdateEvents, Relinked, NextOccurrence, Subject, ReceiptOf;
    UpdateFiling(b, c, lease);
    UpdateEventsShape(b, c, UpdateOne(b, c, lease).value);
  }

  lemma ExecuteLogs(b: Board, c: Call, lease: nat)
    requires Execute(b, c, lease).Ok?
    ensures Logs(b, Execute(b, c, lease).value, c)
    ensures HasKey(c) ==> LogsReceipt(b, Execute(b, c, lease).value, c)
  {
    hide LocalBoard, UpdateBoard, StartedTask, QueuedTask, ScheduledTask, NextOrder, OpenOccurrence, SweptRuns,
        SweptTasks, Swapped;
    if c.op.Update? { UpdateLogs(b, c, lease); }
    else if Local(c.op) { LocalLogs(b, c, lease); }
    else if c.op.Start? || c.op.Create? { NewLogs(b, c, lease); }
    else { hide StartBoard, CreateBoard; }
  }

  lemma NewLogs(b: Board, c: Call, lease: nat)
    requires (c.op.Start? || c.op.Create?) && Execute(b, c, lease).Ok?
    ensures Logs(b, Execute(b, c, lease).value, c)
    ensures HasKey(c) ==> LogsReceipt(b, Execute(b, c, lease).value, c)
  {
    hide StartedTask, QueuedTask, NextOrder, ValidStart;
  }

  lemma LocalLogs(b: Board, c: Call, lease: nat)
    requires Local(c.op) && LocalBoard(b, c, lease).Ok?
    ensures Logs(b, LocalBoard(b, c, lease).value, c)
    ensures HasKey(c) ==> LogsReceipt(b, LocalBoard(b, c, lease).value, c)
  {
    hide LocalStep, Unblocked;
  }

  // ----- The log remembers -----

  /** Some event records this actor, operation and key. */
  ghost predicate HasRecord(b: Board, actor: string, op: Op, key: string) {
    exists i :: 0 <= i < |b.events| && Recorded(b.events[i], actor, op, key)
  }

  /** The log answers (actor, operation, key) with this request and its subject, or, once spoilt, with a record that
      matches no request. */
  ghost predicate Known(b: Board, actor: string, key: string, op: Op, subject: (nat, Option<nat>), spoilt: bool) {
    && actor != "" && ValidKey(key) && Keyed(op)
    && var r := FindRecord(b.events, actor, op, key);
       && r.Some?
       && (if spoilt then b.events[r.value].receipt.Some? && !b.events[r.value].receipt.value.hashed
           else b.events[r.value].receipt == Some(Receipt(key, Normal(op), true))
                && (b.events[r.value].task, b.events[r.value].run) == subject)
  }

  lemma CommitIsRecorded(b: Board, c: Call, lease: nat)
    requires HasKey(c) && WellKeyed(c) && Serve(b, c, lease).Committed?
    ensures HasRecord(After(b, c, lease), c.actor, c.op, c.key)
    ensures Guarded(c) ==> Known(After(b, c, lease), c.actor, c.key, c.op, Subject(b, c), false)
  {
    hide Execute;
    ExecuteLogs(b, c, lease);
    var events := After(b, c, lease).events;
    assert Recorded(events[|events| - 1], c.actor, c.op, c.key);
    assert FindRecord(events, c.actor, c.op, c.key) == Some(|events| - 1);
  }

  /** A looked-up key that was used before is never executed again. */
  lemma RecordedIsNotServed(b: Board, d: Call, lease: nat)
    ensures Guarded(d) && HasRecord(b, d.actor, d.op, d.key) ==>
              !Serve(b, d, lease).Committed? && After(b, d, lease) == b
  {
    hide Execute, EarlyRefusal, Normal;
  }

  lemma RecordPersists(b: Board, d: Call, lease: nat, actor: string, op: Op, key: string)
    requires HasRecord(b, actor, op, key)
    ensures HasRecord(After(b, d, lease), actor, op, key)
  {
    hide Execute, Recorded;
    if Serve(b, d, lease).Committed? {
      ExecuteLogs(b, d, lease);
      var i :| 0 <= i < |b.events| && Recorded(b.events[i], actor, op, key);
      var b' := After(b, d, lease);
      assert b'.events[..|b.events|][i] == b'.events[i] == b.events[i];
    }
  }

  lemma {:induction false} RecordedForever(b: Board, calls: seq<Call>, lease: nat, actor: string, op: Op, key: string)
    requires HasRecord(b, actor, op, key)
    ensures HasRecord(ServeAll(b, calls, lease), actor, op, key)
    decreases |calls|
  {
    hide HasRecord, After;
    if calls != [] {
      RecordPersists(b, calls[0], lease, actor, op, key);
      RecordedForever(After(b, calls[0], lease), calls[1..], lease, actor, op, key);
    }
  }

  /** The call records this actor, operation and key without looking it up: a person's start,
      create or update, under a name that an agent also uses. */
  predicate Blind(d: Call, actor: string, key: string, op: Op) {
    HasKey(d) && d.actor == actor && d.key == key && SameOperation(d.op, op) && !LooksUp(d)
  }

  /** Some call among these, served in turn, commits and records the key blindly. */
  ghost predicate Spoilt(b: Board, calls: seq<Call>, lease: nat, actor: string, key: string, op: Op)
    decreases |calls|
  {
    calls != [] && (SpoiltBy(b, calls[0], lease, actor, key, op)
                    || Spoilt(After(b, calls[0], lease), calls[1..], lease, actor, key, op))
  }

  ghost predicate SpoiltBy(b: Board, d: Call, lease: nat, actor: string, key: string, op: Op) {
    Blind(d, actor, key, op) && Serve(b, d, lease).Committed?
  }

  lemma KnownPersists(b: Board, d: Call, lease: nat, actor: string, key: string, op: Op, subject: (nat, Option<nat>),
      spoilt: bool)
    requires Known(b, actor, key, op, subject, spoilt) && WellKeyed(d)
    ensures Known(After(b, d, lease), actor, key, op, subject, spoilt || SpoiltBy(b, d, lease, actor, key, op))
  {
    hide Execute, Normal, EarlyRefusal, FindRecord, Recorded, ValidKey;
    if Serve(b, d, lease).Committed? {
      ExecuteLogs(b, d, lease);
      var b' := After(b, d, lease);
      if Blind(d, actor, key, op) {
        BlindRecordIsLast(b, d, lease, actor, key, op);
      } else {
        var r := FindRecord(b.events, actor, op, key).value;
        assert b'.events[..|b.events|][r] == b'.events[r] == b.events[r];
        NothingNew(b, d, lease, actor, key, op, r);
        assert FindRecord(b'.events, actor, op, key) == Some(r);
      }
    }
  }

  lemma BlindRecordIsLast(b: Board, d: Call, lease: nat, actor: string, key: string, op: Op)
    requires SpoiltBy(b, d, lease, actor, key, op) && actor != ""
    ensures var events := After(b, d, lease).events;
            && 0 < |events| && FindRecord(events, actor, op, key) == Some(|events| - 1)
            && events[|events| - 1].receipt.Some? && !events[|events| - 1].receipt.value.hashed
  {
    hide Execute, EarlyRefusal;
    ExecuteLogs(b, d, lease);
    var events := After(b, d, lease).events;
    NormalOperation(d.op, op);
    assert Recorded(events[|events| - 1], actor, op, key);
  }

  /** A committed call that is not blind adds no record for a key that was used. */
  lemma NothingNew(b: Board, d: Call, lease: nat, actor: string, key: string, op: Op, r: nat)
    requires FindRecord(b.events, actor, op, key) == Some(r) && actor != "" && WellKeyed(d) && !Blind(d, actor, key, op)
    requires Serve(b, d, lease).Committed?
    ensures forall i :: r < i < |After(b, d, lease).events| ==> !Recorded(After(b, d, lease).events[i], actor, op, key)
  {
    hide Execute, Normal, EarlyRefusal;
    ExecuteLogs(b, d, lease);
    RecordedIsNotServed(b, d, lease);
    var b' := After(b, d, lease);
    forall i | r < i < |b'.events| ensures !Recorded(b'.events[i], actor, op, key) {
      if i < |b.events| {
        assert b'.events[..|b.events|][i] == b'.events[i] == b.events[i];
      } else if Recorded(b'.events[i], actor, op, key) {
        NewRecordIsOwn(b, b', d, i, actor, key, op, r);
      }
    }
  }

  lemma NewRecordIsOwn(b: Board, b': Board, d: Call, i: nat, actor: string, key: string, op: Op, r: nat)
    requires Logs(b, b', d) && WellKeyed(d) && |b.events| <= i < |b'.events| && Recorded(b'.events[i], actor, op, key)
    requires r < |b.events| && Recorded(b.events[r], actor, op, key)
    ensures HasKey(d) && d.actor == actor && d.key == key && SameOperation(d.op, op)
    ensures HasRecord(b, d.actor, d.op, d.key)
  {
    assert b'.events[i].receipt == ReceiptOf(d);
    assert Recorded(b.events[r], d.actor, d.op, d.key);
  }

  lemma {:induction false} KnownForever(b: Board, calls: seq<Call>, lease: nat, actor: string, key: string,
          op: Op, subject: (nat, Option<nat>), spoilt: bool)
    requires Known(b, actor, key, op, subject, spoilt) && forall i :: 0 <= i < |calls| ==> WellKeyed(calls[i])
    ensures Known(ServeAll(b, calls, lease), actor, key, op, subject,
                  spoilt || Spoilt(b, calls, lease, actor, key, op))
    decreases |calls|
  {
    hide Known, After, SpoiltBy;
    if calls != [] {
      var now := spoilt || SpoiltBy(b, calls[0], lease, actor, key, op);
      KnownPersists(b, calls[0], lease, actor, key, op, subject, spoilt);
      KnownForever(After(b, calls[0], lease), calls[1..], lease, actor, key, op, subject, now);
    }
  }

  /** The answer to a call whose key was used for op: an early refusal, the recorded subject, or a conflict. */
  function Repeated(b: Board, d: Call, op: Op, subject: (nat, Option<nat>), spoilt: bool): Reply {
    if EarlyRefusal(b, d).Some? then Refused(EarlyRefusal(b, d).value)
    else if Normal(d.op) == Normal(op) && !spoilt then Replayed(subject.0, subject.1)
    else Refused(Conflict)
  }

  lemma KnownAnswers(b: Board, d: Call, lease: nat, op: Op, subject: (nat, Option<nat>), spoilt: bool)
    requires Known(b, d.actor, d.key, op, subject, spoilt) && SameOperation(op, d.op) && Guarded(d)
    ensures Serve(b, d, lease) == Repeated(b, d, op, subject, spoilt)
    ensures After(b, d, lease) == b
  {
    hide Execute, EarlyRefusal, Normal;
    var r := FindRecord(b.events, d.actor, op, d.key).value;
    assert Recorded(b.events[r], d.actor, d.op, d.key);
    assert FindRecord(b.events, d.actor, d.op, d.key) == Some(r) by {
      forall i | r < i < |b.events| ensures !Recorded(b.events[i], d.actor, d.op, d.key) {
        assert !Recorded(b.events[i], d.actor, op, d.key);
      }
    }
  }

  // ----- Main results -----

  /** Whatever happened in between, a looked-up request under a used key changes nothing: unless it is
      refused early, the same content is answered with the task and run of the first, and other
      content is a conflict.  The one thing that spoils the answer, and makes it a conflict too, is a person who
      records the same key for the same operation under the same name. */
  lemma RetryAnswersAsTheFirst(b: Board, c: Call, between: seq<Call>, d: Call, lease: nat)
    requires Guarded(c) && WellKeyed(c) && Serve(b, c, lease).Committed?
    requires forall i :: 0 <= i < |between| ==> WellKeyed(between[i])
    requires d.actor == c.actor && d.key == c.key && SameOperation(c.op, d.op) && LooksUp(d)
    ensures var now := ServeAll(After(b, c, lease), between, lease);
            var spoilt := Spoilt(After(b, c, lease), between, lease, c.actor, c.key, c.op);
            && After(now, d, lease) == now
            && Serve(now, d, lease) == Repeated(now, d, c.op, Subject(b, c), spoilt)
  {
    hide Known, Serve, After, EarlyRefusal, Spoilt, Normal;
    var b1 := After(b, c, lease);
    CommitIsRecorded(b, c, lease);
    KnownForever(b1, between, lease, c.actor, c.key, c.op, Subject(b, c), false);
    var spoilt := Spoilt(b1, between, lease, c.actor, c.key, c.op);
    KnownAnswers(ServeAll(b1, between, lease), d, lease, c.op, Subject(b, c), spoilt);
  }

  /** A repeat is refused early exactly when its lists are too long, when it asks a question and its run is no
      longer live, or when it requests a control and its target has moved on. */
  predicate Lost(now: Board, d: Call) {
    || !ValidFields(d.op)
    || (d.op.Escalate? && !(d.op.task < |now.tasks| && OwnLiveRun(now.tasks[d.op.task], d.op.run, d.actor)))
    || (d.op.RequestControl? && !(d.op.task < |now.tasks| && MayTarget(now.tasks[d.op.task], d.op.run, d.op.kind)))
  }

  lemma CommittedTask(b: Board, c: Call, lease: nat)
    requires Guarded(c) && Serve(b, c, lease).Committed?
    ensures ValidFields(c.op)
    ensures c.op.Escalate? || c.op.Resolve? || c.op.RequestControl? ==> c.op.task < |b.tasks|
  {
    hide Execute, Normal;
  }

  lemma NormalOperation(a: Op, b: Op)
    ensures SameOperation(Normal(a), b) <==> SameOperation(a, b)
  {
    hide Unrepeated;
  }

  lemma SameContent(a: Op, b: Op)
    requires Normal(a) == Normal(b)
    ensures (a.Escalate? <==> b.Escalate?) && (a.Resolve? <==> b.Resolve?) && (a.RequestControl? <==> b.RequestControl?)
    ensures Keyed(a) ==> SameOperation(a, b)
    ensures a.Escalate? || a.Resolve? || a.RequestControl? ==> a.task == b.task
  {
    hide Unrepeated;
  }

  /** So the same content is answered as the first time exactly when it is not refused early and the key was not
      spoilt. */
  lemma RepeatIsAnswered(b: Board, c: Call, between: seq<Call>, d: Call, lease: nat)
    requires Guarded(c) && WellKeyed(c) && Serve(b, c, lease).Committed?
    requires forall i :: 0 <= i < |between| ==> WellKeyed(between[i])
    requires d.actor == c.actor && d.key == c.key && Normal(d.op) == Normal(c.op) && LooksUp(d)
    ensures var now := ServeAll(After(b, c, lease), between, lease);
            Serve(now, d, lease) ==
            if Lost(now, d) then Refused(Validation)
            else if Spoilt(After(b, c, lease), between, lease, c.actor, c.key, c.op) then Refused(Conflict)
            else Replayed(Subject(b, c).0, Subject(b, c).1)
  {
    hide Serve, After, ValidFields, OwnLiveRun, MayTarget, Spoilt, Normal;
    SameContent(c.op, d.op);
    RetryAnswersAsTheFirst(b, c, between, d, lease);
    CommittedTask(b, c, lease);
    RunGrows(b, [c], lease);
    RunGrows(After(b, c, lease), between, lease);
  }

  /** A blocking question ends the run that asked it, so repeating it at once is refused, not answered. */
  lemma BlockingQuestionIsNotRepeated(b: Board, c: Call, lease: nat)
    requires Guarded(c) && c.op.Escalate? && c.op.blocking && Serve(b, c, lease).Committed?
    ensures Lost(After(b, c, lease), c) && Serve(After(b, c, lease), c, lease) == Refused(Validation)
  {
    hide Normal, FindRecord;
    CommittedTask(b, c, lease);
    AskingEnds(b, c, lease);
  }

  lemma AskingEnds(b: Board, c: Call, lease: nat)
    requires c.op.Escalate? && c.op.blocking && LocalBoard(b, c, lease).Ok?
    ensures var b' := LocalBoard(b, c, lease).value;
            c.op.task < |b'.tasks| && !OwnLiveRun(b'.tasks[c.op.task], c.op.run, c.actor)
  {
  }

  // ----- New keys, and keys that are not looked up -----

  /** Who has keys looked up: everyone for claims, questions, answers and controls, agents for the rest. */
  predicate HasLookup(c: Call) {
    || c.op.Claim? || c.op.Escalate? || c.op.Resolve? || c.op.RequestControl? || c.op.AnswerControl?
    || (c.agent && (c.op.Start? || c.op.Create? || c.op.Update?))
  }

  /** 8 to 128 letters, digits and marks. */
  ghost predicate GoodKey(key: string) {
    8 <= |key| <= 128 && forall ch :: ch in key ==>
      'a' <= ch <= 'z' || 'A' <= ch <= 'Z' || '0' <= ch <= '9' || ch == '.' || ch == '_' || ch == ':' || ch == '-'
  }

  /** The name under which an operation's keys are recorded. */
  function OperationName(op: Op): string {
    match op
    case Start(_) => "task_start"
    case Create(_) => "task_create"
    case Claim(_, _) => "task_claim"
    case Update(_, _) => "task_update"
    case Escalate(_, _, _, _, _, _, _, _, _) => "task_escalation_create"
    case Resolve(_, _, _, _, _) => "task_escalation_resolve"
    case RequestControl(_, _, _, _, _) => "run_control_create"
    case AnswerControl(_, _, _, _, _) => "run_control_update"
    case _ => ""
  }

  lemma NamesTellOperations(a: Op, b: Op)
    ensures SameOperation(a, b) <==> OperationName(a) == OperationName(b) != ""
  {
    assert "task_start"[5] != "task_claim"[5] && "task_create"[5] != "task_update"[5];
    assert "run_control_create"[12] != "run_control_update"[12];
  }

  /** The caller used the key for this operation before. */
  ghost predicate UsedKey(b: Board, c: Call) {
    exists i :: 0 <= i < |b.events| && b.events[i].actor == c.actor && b.events[i].receipt.Some?
                && b.events[i].receipt.value.key == c.key
                && OperationName(b.events[i].receipt.value.op) == OperationName(c.op)
  }

  /** A key of the wrong form is refused, a used one never writes, and with a new one the request is the bare
      transaction. */
  lemma KeyLaw(b: Board, c: Call, lease: nat)
    requires HasLookup(c) && c.key != ""
    ensures !GoodKey(c.key) ==> Serve(b, c, lease).Refused?
    ensures UsedKey(b, c) ==> !Serve(b, c, lease).Committed? && After(b, c, lease) == b
    ensures GoodKey(c.key) && !UsedKey(b, c) ==>
              var r := Execute(b, c, lease);
              Serve(b, c, lease) == if r.Ok? then Committed(r.value) else Refused(r.error)
  {
    hide Execute, EarlyRefusal, Normal;
    KeyForm(c.key);
    forall i | 0 <= i < |b.events| && b.events[i].receipt.Some? {
      NamesTellOperations(b.events[i].receipt.value.op, c.op);
    }
    if EarlyRefusal(b, c).Some? { EarlyRefusalIsFinal(b, c, lease); }
    assert UsedKey(b, c) <==> HasRecord(b, c.actor, c.op, c.key);
  }

  lemma KeyForm(key: string)
    ensures ValidKey(key) <==> GoodKey(key)
  {
    if ValidKey(key) {
      forall ch | ch in key ensures SafeCharacter(ch) { var i :| 0 <= i < |key| && key[i] == ch; }
    }
    if GoodKey(key) {
      forall i | 0 <= i < |key| ensures SafeCharacter(key[i]) { assert key[i] in key; }
    }
  }

  /** Two requests have the same content if they are equal up to repeated answerers and up to an answer left to the
      option. */
  lemma ContentLaw(a: Op, b: Op)
    ensures Normal(a) == Normal(b) <==>
              || a == b
              || (a.Escalate? && b.Escalate? && a.(answerers := []) == b.(answerers := [])
                  && Unrepeated(a.answerers) == Unrepeated(b.answerers))
              || (a.Resolve? && b.Resolve? && a.(answer := "") == b.(answer := "")
                  && TaskLaws.AnswerText(a) == TaskLaws.AnswerText(b))
  {
    hide Unrepeated;
  }

  /** A key that is not looked up changes no answer: the request is served as if it had none. */
  lemma IgnoredKey(b: Board, d: Call, lease: nat)
    requires !LooksUp(d)
    ensures Serve(b, d, lease) == Attempt(Execute(b, d, lease))
  {
  }

  /** A keyed request that committed, repeated at any later time, writes again if and only if it is a person's start or
      create: those keys are not looked up.  A person's update is not looked up either, but its version is spent. */
  lemma RepeatWritesIff(b: Board, c: Call, between: seq<Call>, d: Call, lease: nat)
    requires HasKey(c) && WellKeyed(c) && Serve(b, c, lease).Committed?
    requires d.op == c.op && d.actor == c.actor && d.key == c.key && d.admitted
    ensures var now := ServeAll(After(b, c, lease), between, lease);
            Serve(now, d, lease).Committed? <==> !d.agent && (d.op.Start? || d.op.Create?)
  {
    hide Serve, After, HasRecord, Execute;
    var now := ServeAll(After(b, c, lease), between, lease);
    if LooksUp(d) {
      CommitIsRecorded(b, c, lease);
      RecordedForever(After(b, c, lease), between, lease, c.actor, c.op, c.key);
      RecordedIsNotServed(now, d, lease);
    } else if c.op.Update? {
      UpdateIsNotRepeated(b, c, between, d, lease);
    } else {
      IgnoredKey(now, d, lease);
      VersionAfter(b, c, lease, 0);
      NewWorkAgain(b, c, now, d, lease);
    }
  }

  /** An update raises the version it was based on, so the same update never commits twice. */
  lemma UpdateIsNotRepeated(b: Board, c: Call, between: seq<Call>, d: Call, lease: nat)
    requires c.op.Update? && d.op == c.op && Serve(b, c, lease).Committed?
    ensures !Serve(ServeAll(After(b, c, lease), between, lease), d, lease).Committed?
  {
    hide Serve, After, Execute;
    if Serve(ServeAll(After(b, c, lease), between, lease), d, lease).Committed? {
      VersionAfter(b, c, lease, c.op.task);
      CommitNeedsVersion(b, c, lease, c.op.task, c.op.update.expected);
      WritesNeverShareAVersion(b, c, between, d, lease, c.op.task, c.op.update.expected, c.op.update.expected);
      assert false;
    }
  }

  /** Whether a start or a create commits does not depend on the board. */
  lemma NewWorkAgain(b: Board, c: Call, now: Board, d: Call, lease: nat)
    requires (c.op.Start? || c.op.Create?) && d.op == c.op && d.admitted && Execute(b, c, lease).Ok?
    ensures Execute(now, d, lease).Ok? && |Execute(now, d, lease).value.tasks| == |now.tasks| + 1
  {
    hide StartedTask, QueuedTask, NextOrder;
  }

  /** So a person who sends the same keyed create twice gets two tasks. */
  lemma PersonCreatesTwice(b: Board, c: Call, lease: nat)
    requires c.op.Create? && !c.agent && c.admitted && ValidStart(c.op.start)
    ensures |After(After(b, c, lease), c, lease).tasks| == |b.tasks| + 2
  {
    hide QueuedTask, NextOrder, ValidStart;
  }

  // ----- Transparency -----

  /** The calls without those that are looked up and repeat actor, operation, key and content of one
      committed before. */
  ghost function Thinned(b: Board, calls: seq<Call>, lease: nat, done: set<(string, string, Op)>): seq<Call>
    decreases |calls|
  {
    if calls == [] then []
    else
      var c := calls[0];
      if Guarded(c) && (c.actor, c.key, Normal(c.op)) in done then Thinned(b, calls[1..], lease, done)
      else [c] + Thinned(After(b, c, lease), calls[1..], lease, Done(b, c, lease, done))
  }

  /** The keyed requests committed so far. */
  ghost function Done(b: Board, c: Call, lease: nat, done: set<(string, string, Op)>): set<(string, string, Op)> {
    if HasKey(c) && Serve(b, c, lease).Committed? then done + {(c.actor, c.key, Normal(c.op))} else done
  }

  ghost predicate AllRecorded(b: Board, done: set<(string, string, Op)>) {
    forall d :: d in done ==> HasRecord(b, d.0, d.2, d.1)
  }

  lemma NormalRecord(b: Board, actor: string, op: Op, key: string)
    ensures HasRecord(b, actor, Normal(op), key) <==> HasRecord(b, actor, op, key)
  {
    hide Unrepeated;
    forall i | 0 <= i < |b.events|
      ensures Recorded(b.events[i], actor, Normal(op), key) <==> Recorded(b.events[i], actor, op, key)
    {}
  }

  lemma DoneIsRecorded(b: Board, c: Call, lease: nat, done: set<(string, string, Op)>)
    requires AllRecorded(b, done) && WellKeyed(c)
    ensures AllRecorded(After(b, c, lease), Done(b, c, lease, done))
  {
    hide HasRecord, After, Serve, Normal;
    forall d | d in Done(b, c, lease, done) ensures HasRecord(After(b, c, lease), d.0, d.2, d.1) {
      if d in done {
        RecordPersists(b, c, lease, d.0, d.2, d.1);
      } else {
        CommitIsRecorded(b, c, lease);
        NormalRecord(After(b, c, lease), c.actor, c.op, c.key);
      }
    }
  }

  lemma {:induction false} ThinnedRunsAlike(b: Board, calls: seq<Call>, lease: nat, done: set<(string, string, Op)>)
    requires AllRecorded(b, done) && forall i :: 0 <= i < |calls| ==> WellKeyed(calls[i])
    ensures ServeAll(b, Thinned(b, calls, lease, done), lease) == ServeAll(b, calls, lease)
    decreases |calls|
  {
    hide HasRecord, After, Serve, Done, Normal;
    if calls != [] {
      var c := calls[0];
      if Guarded(c) && (c.actor, c.key, Normal(c.op)) in done {
        NormalRecord(b, c.actor, c.op, c.key);
        RecordedIsNotServed(b, c, lease);
        ThinnedRunsAlike(b, calls[1..], lease, done);
      } else {
        DoneIsRecorded(b, c, lease, done);
        var b', now := After(b, c, lease), Done(b, c, lease, done);
        ThinnedRunsAlike(b', calls[1..], lease, now);
        var rest := Thinned(b', calls[1..], lease, now);
        assert ([c] + rest)[1..] == rest;
      }
    }
  }

  /** Deleting every looked-up request that repeats a committed one leaves the same board and event log. */
  lemma RetryTransparency(b: Board, calls: seq<Call>, lease: nat)
    requires forall i :: 0 <= i < |calls| ==> WellKeyed(calls[i])
    ensures ServeAll(b, Thinned(b, calls, lease, {}), lease) == ServeAll(b, calls, lease)
  {
    ThinnedRunsAlike(b, calls, lease, {});
  }
}
