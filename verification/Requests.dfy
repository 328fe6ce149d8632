/** Requests as the service answers them: the idempotency lookup, then the transaction. */
module Requests {
  import opened Model
  import opened TaskSteps
  import opened Taskboard

  datatype Reply = Committed(board: Board) | Replayed(task: nat, run: Option<nat>) | Refused(error: Error)

  predicate SafeCharacter(ch: char) {
    'a' <= ch <= 'z' || 'A' <= ch <= 'Z' || '0' <= ch <= '9' || ch in "._:-"
  }

  predicate ValidKey(key: string) {
    8 <= |key| <= 128 && forall i :: 0 <= i < |key| ==> SafeCharacter(key[i])
  }

  /** The operation name recorded beside the key. */
  predicate SameOperation(a: Op, b: Op) {
    || (a.Start? && b.Start?) || (a.Create? && b.Create?) || (a.Claim? && b.Claim?) || (a.Update? && b.Update?)
    || (a.Escalate? && b.Escalate?) || (a.Resolve? && b.Resolve?)
    || (a.RequestControl? && b.RequestControl?) || (a.AnswerControl? && b.AnswerControl?)
  }

  predicate Recorded(e: Event, actor: string, op: Op, key: string) {
    e.actor == actor && e.receipt.Some? && e.receipt.value.key == key && SameOperation(e.receipt.value.op, op)
  }

  /** replayIdempotency: the latest event this actor recorded under the key. */
  function FindRecord(events: seq<Event>, actor: string, op: Op, key: string): (r: Option<nat>)
    ensures r.Some? ==> r.value < |events| && Recorded(events[r.value], actor, op, key)
    ensures r.Some? ==> forall i :: r.value < i < |events| ==> !Recorded(events[i], actor, op, key)
    ensures r.None? ==> forall i :: 0 <= i < |events| ==> !Recorded(events[i], actor, op, key)
  {
    if events == [] then None
    else if Recorded(events[|events| - 1], actor, op, key) then Some(|events| - 1)
    else FindRecord(events[..|events| - 1], actor, op, key)
  }

  /** The recorded hash is that of this content. */
  predicate Matches(r: Receipt, op: Op) {
    r.hashed && r.op == Normal(op)
  }

  function Attempt(r: Result<Board>): Reply {
    if r.Ok? then Committed(r.value) else Refused(r.error)
  }

  /** What some requests are refused for before their key is looked up. */
  function EarlyRefusal(b: Board, c: Call): Option<Error> {
    if !ValidFields(c.op) then Some(Validation)
    else if (c.op.Escalate? || c.op.Resolve? || c.op.RequestControl?) && c.op.task >= |b.tasks| then Some(NotFound)
    else if c.op.Escalate? && !OwnLiveRun(b.tasks[c.op.task], c.op.run, c.actor) then Some(Validation)
    else if c.op.RequestControl? && !MayTarget(b.tasks[c.op.task], c.op.run, c.op.kind) then Some(Validation)
    else None
  }

  ghost function Serve(b: Board, c: Call, lease: nat): Reply {
    if !LooksUp(c) || c.key == "" then Attempt(Execute(b, c, lease))
    else if EarlyRefusal(b, c).Some? then Refused(EarlyRefusal(b, c).value)
    else if !ValidKey(c.key) then Refused(Validation)
    else
      var record := FindRecord(b.events, c.actor, c.op, c.key);
      if record.None? then Attempt(Execute(b, c, lease))
      else
        var e := b.events[record.value];
        if Matches(e.receipt.value, c.op) then Replayed(e.task, e.run) else Refused(Conflict)
  }

  ghost function After(b: Board, c: Call, lease: nat): Board {
    var reply := Serve(b, c, lease);
    if reply.Committed? then reply.board else b
  }

  /** A request refused early would be refused the same way by its transaction. */
  lemma EarlyRefusalIsFinal(b: Board, c: Call, lease: nat)
    requires EarlyRefusal(b, c).Some?
    ensures Execute(b, c, lease) == Err(EarlyRefusal(b, c).value)
  {
  }

  /** The board changes only by executing the transaction. */
  lemma OnlyExecution(b: Board, c: Call, lease: nat)
    ensures After(b, c, lease) == b || (Execute(b, c, lease).Ok? && After(b, c, lease) == Execute(b, c, lease).value)
  {
  }
}
