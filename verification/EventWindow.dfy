/**
 The recent-event window that keeps an event from being published twice: a map
 for lookup and a queue that bounds it by count and by age.
 */
module EventWindow {

  const CAPACITY: nat := 4096
  const MAX_AGE: nat := 600_000_000_000

  datatype Mark = Mark(id: string, seen: int)

  predicate Overdue(order: seq<Mark>, cutoff: int) {
    |order| > CAPACITY || (|order| > 0 && order[0].seen < cutoff)
  }

  /** Drop from the front while the queue is too long or its front too old. */
  function Trim(order: seq<Mark>, cutoff: int): seq<Mark> {
    if Overdue(order, cutoff) then Trim(order[1..], cutoff) else order
  }

  /** The queue after accepting these marks, oldest first. */
  function Remember(history: seq<Mark>): seq<Mark>
    decreases |history|
  {
    if history == [] then []
    else
      var last := history[|history| - 1];
      Trim(Remember(history[..|history| - 1]) + [last], last.seen - MAX_AGE)
  }

  ghost predicate Distinct(order: seq<Mark>) {
    forall i, j :: 0 <= i < j < |order| ==> order[i].id != order[j].id
  }

  function Ids(order: seq<Mark>): set<string> {
    set m | m in order :: m.id
  }

  class Recent {
    var events: map<string, int>
    var order: seq<Mark>
    ghost var history: seq<Mark>

    ghost predicate Valid()
      reads this
    {
      && order == Remember(history)
      && Indexed(events, order)
      && |order| <= CAPACITY
    }

    constructor ()
      ensures Valid() && history == []
    {
      events, order, history := map[], [], [];
    }

    /** Accept an id that the window does not hold. */
    method MarkEventSeen(id: string, now: int) returns (accepted: bool)
      requires Valid()
      modifies this
      ensures Valid()
      ensures accepted <==> id !in Ids(Remember(old(history)))
      ensures history == old(history) + if accepted then [Mark(id, now)] else []
      ensures events.Keys == Ids(order) && |events| == |order| <= CAPACITY
    {
      hide Indexed, Ids, Remember;
      SameIds(events, order);
      if id in events { return false; }
      IndexedPush(events, order, id, now);
      events := events[id := now];
      order := order + [Mark(id, now)];
      history := history + [Mark(id, now)];
      RememberPush(old(history), Mark(id, now));
      var cutoff := now - MAX_AGE;
      while |order| > CAPACITY || (|order| > 0 && order[0].seen < cutoff)
        invariant Indexed(events, order)
        invariant Trim(order, cutoff) == Remember(history)
        invariant history == old(history) + [Mark(id, now)]
        decreases |order|
      {
        IndexedPop(events, order);
        var oldest := order[0];
        order := order[1..];
        if oldest.id in events && events[oldest.id] == oldest.seen { events := events - {oldest.id}; }
      }
      SameIds(events, order);
      return true;
    }
  }

  lemma SameIds(events: map<string, int>, order: seq<Mark>)
    requires Indexed(events, order)
    ensures events.Keys == Ids(order) && |events| == |order|
  {
    IdsSize(order);
    assert |events| == |events.Keys|;
  }

  lemma RememberPush(history: seq<Mark>, m: Mark)
    ensures Remember(history + [m]) == Trim(Remember(history) + [m], m.seen - MAX_AGE)
  {
    assert (history + [m])[..|history|] == history;
  }

  /** The map and the queue hold the same ids with the same times, each once. */
  ghost predicate Indexed(events: map<string, int>, order: seq<Mark>) {
    && Distinct(order)
    && events.Keys == Ids(order)
    && (forall i :: 0 <= i < |order| && order[i].id in events ==> events[order[i].id] == order[i].seen)
  }

  lemma IdsPush(order: seq<Mark>, m: Mark)
    ensures Ids(order + [m]) == Ids(order) + {m.id}
  {
    var more := order + [m];
    assert forall x :: x in more <==> x in order || x == m;
    assert m in more;
  }

  lemma IdsPop(order: seq<Mark>)
    requires order != [] && Distinct(order)
    ensures Ids(order[1..]) == Ids(order) - {order[0].id}
    ensures order[0].id in Ids(order) && order[0].id !in Ids(order[1..])
    ensures Distinct(order[1..])
  {
    var rest := order[1..];
    assert forall x :: x in order <==> x == order[0] || x in rest;
    assert order[0] in order;
    forall x | x in rest ensures x.id != order[0].id {
      var i :| 0 <= i < |rest| && rest[i] == x;
      assert order[i + 1] == x;
    }
  }

  lemma IndexedPush(events: map<string, int>, order: seq<Mark>, id: string, now: int)
    requires Indexed(events, order) && id !in events
    ensures Indexed(events[id := now], order + [Mark(id, now)])
  {
    var m := Mark(id, now);
    IdsPush(order, m);
    assert events[id := now].Keys == events.Keys + {id};
    forall i | 0 <= i < |order| ensures order[i].id != id {
      assert order[i] in order;
      assert order[i].id in Ids(order);
    }
  }

  lemma IndexedPop(events: map<string, int>, order: seq<Mark>)
    requires Indexed(events, order) && order != []
    ensures order[0].id in events && events[order[0].id] == order[0].seen
    ensures Indexed(events - {order[0].id}, order[1..])
  {
    IdsPop(order);
    assert (events - {order[0].id}).Keys == events.Keys - {order[0].id};
  }

  lemma {:induction false} IdsSize(order: seq<Mark>)
    requires Distinct(order)
    ensures |Ids(order)| == |order|
    decreases |order|
  {
    if order == [] {
      assert Ids(order) == {};
    } else {
      IdsPop(order);
      IdsSize(order[1..]);
      assert Ids(order) == Ids(order[1..]) + {order[0].id};
    }
  }

  // ----- Exactly what the window holds -----

  /** The index in the history where the window starts. */
  function Start(history: seq<Mark>): int {
    |history| - |Remember(history)|
  }

  /** Some later acceptance found this mark more than ten minutes old. */
  ghost predicate Outlived(history: seq<Mark>, i: nat)
    requires i < |history|
  {
    exists j :: i < j < |history| && history[i].seen < history[j].seen - MAX_AGE
  }

  lemma {:induction false} TrimSuffix(order: seq<Mark>, cutoff: int)
    ensures var kept := Trim(order, cutoff);
            && |kept| <= |order| && |kept| <= CAPACITY
            && kept == order[|order| - |kept|..]
            && !Overdue(kept, cutoff)
            && (forall i :: 0 <= i < |order| - |kept| ==> |order| - i > CAPACITY || order[i].seen < cutoff)
    decreases |order|
  {
    if Overdue(order, cutoff) {
      TrimSuffix(order[1..], cutoff);
      var kept := Trim(order, cutoff);
      forall i | 0 <= i < |order| - |kept| ensures |order| - i > CAPACITY || order[i].seen < cutoff {
        if i > 0 { assert order[1..][i - 1] == order[i]; }
      }
    }
  }

  lemma RememberNothing()
    ensures Remember([]) == []
  {
  }

  lemma OutlivedStays(before: seq<Mark>, last: Mark, i: nat)
    requires i < |before| && Outlived(before, i)
    ensures Outlived(before + [last], i)
  {
    var j :| i < j < |before| && before[i].seen < before[j].seen - MAX_AGE;
    var history := before + [last];
    assert history[i].seen < history[j].seen - MAX_AGE;
  }

  lemma OutlivedNow(history: seq<Mark>, i: nat)
    requires i < |history| && history[i].seen < history[|history| - 1].seen - MAX_AGE
    ensures Outlived(history, i)
  {
    var n := |history| - 1;
    assert history[i].seen < history[n].seen - MAX_AGE;
  }

  /** The window is always the newest part of the history, never over capacity, and a mark leaves
      it only after 4096 later acceptances or one more than ten minutes later, whatever the clocks. */
  lemma {:induction false} WindowIsSuffix(history: seq<Mark>)
    ensures 0 <= Start(history) <= |history| && |Remember(history)| <= CAPACITY
    ensures Remember(history) == history[Start(history)..]
    ensures forall i :: 0 <= i < Start(history) ==> |history| - i > CAPACITY || Outlived(history, i)
    decreases |history|
  {
    hide Remember, Trim, Outlived;
    if history == [] {
      RememberNothing();
    } else {
      var n := |history| - 1;
      var before, last := history[..n], history[n];
      assert history == before + [last];
      RememberPush(before, last);
      WindowIsSuffix(before);
      var pushed := Remember(before) + [last];
      TrimSuffix(pushed, last.seen - MAX_AGE);
      assert pushed == history[Start(before)..];
      forall i | 0 <= i < Start(history) ensures |history| - i > CAPACITY || Outlived(history, i) {
        if i < Start(before) {
          if Outlived(before, i) { OutlivedStays(before, last, i); }
        } else {
          assert pushed[i - Start(before)] == history[i];
          if history[i].seen < last.seen - MAX_AGE { OutlivedNow(history, i); }
        }
      }
    }
  }

  /** An accepted id is refused while fewer than 4096 ids were accepted after it and none of
      those acceptances came more than ten minutes later. */
  lemma RefusedWhileRecent(history: seq<Mark>, i: nat)
    requires i < |history| && |history| - 1 - i < CAPACITY
    requires forall j :: i < j < |history| ==> history[j].seen <= history[i].seen + MAX_AGE
    ensures history[i].id in Ids(Remember(history))
  {
    hide Remember;
    WindowIsSuffix(history);
    assert !Outlived(history, i);
    assert history[i] == Remember(history)[i - Start(history)];
  }

  ghost predicate Timely(history: seq<Mark>) {
    forall i, j :: 0 <= i < j < |history| ==> history[i].seen <= history[j].seen
  }

  lemma FrontIsFresh(history: seq<Mark>)
    requires history != [] && Remember(history) != []
    ensures Remember(history)[0].seen >= history[|history| - 1].seen - MAX_AGE
  {
    hide Remember, Trim;
    var n := |history| - 1;
    assert history == history[..n] + [history[n]];
    RememberPush(history[..n], history[n]);
    TrimSuffix(Remember(history[..n]) + [history[n]], history[n].seen - MAX_AGE);
  }

  /** With nondecreasing clocks the window is exactly the last 4096 acceptances of the
      ten minutes up to the newest one. */
  lemma WindowExact(history: seq<Mark>, i: nat)
    requires Timely(history) && i < |history|
    ensures i >= Start(history) <==>
            |history| - i <= CAPACITY && history[i].seen >= history[|history| - 1].seen - MAX_AGE
  {
    hide Remember;
    WindowIsSuffix(history);
    var n := |history| - 1;
    if i >= Start(history) {
      FrontIsFresh(history);
      assert Remember(history)[0] == history[Start(history)];
    } else if Outlived(history, i) {
      var j :| i < j < |history| && history[i].seen < history[j].seen - MAX_AGE;
      assert history[j].seen <= history[n].seen;
    }
  }
}
