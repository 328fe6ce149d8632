/**
 Durable event catch-up: batches of stored events after a cursor, delivered one
 by one, the cursor moving with each delivery so that a failure anywhere resumes
 where it stopped.
 */
module CatchUp {

  const BATCH: nat := 256

  datatype Key = Key(createdAt: int, id: int)

  datatype Event = Event(key: Key, body: string)

  /** The WHERE clause of a batch. */
  predicate Follows(e: Key, c: Key) {
    e.createdAt > c.createdAt || (e.createdAt == c.createdAt && e.id > c.id)
  }

  ghost predicate Sorted(table: seq<Event>) {
    forall i, j :: 0 <= i < j < |table| ==> Follows(table[j].key, table[i].key)
  }

  /** The events after a cursor. */
  function Due(table: seq<Event>, c: Key): seq<Event> {
    if table == [] then []
    else (if Follows(table[0].key, c) then [table[0]] else []) + Due(table[1..], c)
  }

  function Take(s: seq<Event>, n: nat): seq<Event> {
    if |s| <= n then s else s[..n]
  }

  /** Where the cursor stands after these deliveries. */
  function Moved(c: Key, done: seq<Event>): Key {
    if done == [] then c else done[|done| - 1].key
  }

  /** Cursors are ordered by time and then by id: a strict total order. */
  lemma CursorOrder(a: Key, b: Key, c: Key)
    ensures a.createdAt < b.createdAt ==> Follows(b, a)
    ensures a.createdAt == b.createdAt && a.id < b.id ==> Follows(b, a)
    ensures a == b || Follows(a, b) || Follows(b, a)
    ensures !(Follows(a, b) && Follows(b, a))
    ensures Follows(c, b) && Follows(b, a) ==> Follows(c, a)
  {
  }

  // ----- Resuming at the cursor -----

  lemma {:induction false} DueMeans(table: seq<Event>, c: Key)
    requires Sorted(table)
    ensures Sorted(Due(table, c))
    ensures forall e :: e in Due(table, c) <==> e in table && Follows(e.key, c)
  {
    if table != [] {
      var rest := table[1..];
      DueMeans(rest, c);
      assert table == [table[0]] + rest;
      forall e | e in Due(rest, c) ensures Follows(e.key, table[0].key) {
        var i :| 0 <= i < |rest| && rest[i] == e;
        assert table[i + 1] == e;
      }
    }
  }

  lemma {:induction false} DueAll(table: seq<Event>, c: Key)
    requires forall i :: 0 <= i < |table| ==> Follows(table[i].key, c)
    ensures Due(table, c) == table
  {
    if table != [] { DueAll(table[1..], c); }
  }

  /** After delivering n events the cursor selects exactly the others. */
  lemma {:induction false} DueResumes(table: seq<Event>, c: Key, n: nat)
    requires Sorted(table) && n <= |Due(table, c)|
    ensures Due(table, Moved(c, Due(table, c)[..n])) == Due(table, c)[n..]
    decreases |table|
  {
    hide Due;
    if n == 0 {
      assert Due(table, c)[..0] == [];
    } else {
      NonEmptyDue(table, c);
      if Follows(table[0].key, c) {
        DueAllBehind(table, c);
        SuffixAfter(table, n - 1);
        assert table[..n][n - 1] == table[n - 1];
      } else {
        ResumesBehind(table, c, n);
        DueResumes(table[1..], c, n);
      }
    }
  }

  lemma NonEmptyDue(table: seq<Event>, c: Key)
    ensures table == [] ==> Due(table, c) == []
  {
  }

  lemma DueSkips(table: seq<Event>, c: Key)
    requires table != [] && !Follows(table[0].key, c)
    ensures Due(table, c) == Due(table[1..], c)
  {
    hide Follows;
    assert [] + Due(table[1..], c) == Due(table[1..], c);
  }

  lemma StaysBehind(e: Key, c: Key, d: Key)
    requires !Follows(e, c) && Follows(d, c)
    ensures !Follows(e, d)
  {
  }

  /** An event that is not due does not come back. */
  lemma ResumesBehind(table: seq<Event>, c: Key, n: nat)
    requires Sorted(table) && table != [] && !Follows(table[0].key, c) && 0 < n <= |Due(table, c)|
    ensures Due(table, c) == Due(table[1..], c)
    ensures var d := Moved(c, Due(table, c)[..n]); Due(table, d) == Due(table[1..], d)
  {
    hide Due, Sorted, Follows;
    DueSkips(table, c);
    DueMeans(table, c);
    var due := Due(table, c);
    var last := due[n - 1];
    assert last in due;
    assert Moved(c, due[..n]) == last.key;
    StaysBehind(table[0].key, c, last.key);
    DueSkips(table, last.key);
  }

  /** In a sorted table everything behind an event that is due is due. */
  lemma DueAllBehind(table: seq<Event>, c: Key)
    requires Sorted(table) && table != [] && Follows(table[0].key, c)
    ensures Due(table, c) == table
  {
    DueAll(table, c);
  }

  lemma {:induction false} SuffixAfter(table: seq<Event>, p: nat)
    requires Sorted(table) && p < |table|
    ensures Due(table, table[p].key) == table[p + 1..]
  {
    if p == 0 {
      DueAll(table[1..], table[0].key);
    } else {
      SuffixAfter(table[1..], p - 1);
    }
  }

  lemma {:induction false} DueGrows(table: seq<Event>, more: seq<Event>, c: Key)
    ensures Due(table + more, c) == Due(table, c) + Due(more, c)
  {
    if table == [] {
      assert table + more == more;
    } else {
      assert (table + more)[1..] == table[1..] + more;
      DueGrows(table[1..], more, c);
    }
  }

  // ----- Rounds: one query each, cut short anywhere -----

  /** One query against the table of its moment, of which the first count events are delivered. */
  datatype Round = Round(table: seq<Event>, count: nat)

  function Sent(c: Key, r: Round): seq<Event> {
    Take(Due(r.table, c), r.count)
  }

  /** What the rounds deliver, each starting where the one before stopped. */
  function Delivered(c: Key, rounds: seq<Round>): seq<Event>
    decreases |rounds|
  {
    if rounds == [] then [] else Sent(c, rounds[0]) + Delivered(Moved(c, Sent(c, rounds[0])), rounds[1..])
  }

  /** The last round delivered all that was due to it. */
  predicate Uncut(c: Key, rounds: seq<Round>)
    decreases |rounds|
  {
    if |rounds| <= 1 then rounds != [] && rounds[0].count >= |Due(rounds[0].table, c)|
    else Uncut(Moved(c, Sent(c, rounds[0])), rounds[1..])
  }

  lemma MovedTwice(c: Key, a: seq<Event>, b: seq<Event>)
    ensures Moved(c, a + b) == Moved(Moved(c, a), b)
  {
    if b == [] { assert a + b == a; }
  }

  lemma {:induction false} OneMoreRound(c: Key, rounds: seq<Round>, r: Round)
    ensures var d := Moved(c, Delivered(c, rounds));
            && Delivered(c, rounds + [r]) == Delivered(c, rounds) + Sent(d, r)
            && Moved(c, Delivered(c, rounds + [r])) == Moved(d, Sent(d, r))
            && (Uncut(c, rounds + [r]) <==> r.count >= |Due(r.table, d)|)
    decreases |rounds|
  {
    hide Due, Sent, Moved;
    var more := rounds + [r];
    if rounds == [] {
      NoRounds(c);
      assert more == [r] && Delivered(Moved(c, Sent(c, r)), more[1..]) == [];
      assert Sent(c, r) + [] == Sent(c, r);
    } else {
      var first, rest := Sent(c, rounds[0]), rounds[1..];
      var next := Moved(c, first);
      var done := Delivered(next, rest);
      assert more[1..] == rest + [r];
      OneMoreRound(next, rest, r);
      MovedTwice(c, first, done);
      assert first + (done + Sent(Moved(next, done), r)) == first + done + Sent(Moved(next, done), r);
    }
    MovedTwice(c, Delivered(c, rounds), Sent(Moved(c, Delivered(c, rounds)), r));
  }

  // ----- The catch-up loop -----

  class Fanout {
    var cursor: Key
    var delivered: seq<Event>

    /** Deliver batches until one is short.  The k-th query sees views[k], whatever rows have appeared
        since the one before; the connection fails after budget deliveries, or when views run out. */
    method CatchUpEvents(views: seq<seq<Event>>, budget: nat) returns (ok: bool, ghost rounds: seq<Round>)
      modifies this
      ensures |rounds| <= |views| && forall k :: 0 <= k < |rounds| ==> rounds[k].table == views[k]
      ensures delivered == old(delivered) + Delivered(old(cursor), rounds)
      ensures cursor == Moved(old(cursor), Delivered(old(cursor), rounds))
      ensures ok ==> Uncut(old(cursor), rounds)
      ensures |Delivered(old(cursor), rounds)| <= budget
    {
      hide Due, Sent, Delivered, Uncut, Moved;
      ghost var c, sent := cursor, delivered;
      NoRounds(c);
      rounds := [];
      var left := budget;
      for k := 0 to |views|
        invariant |rounds| == k && forall j :: 0 <= j < k ==> rounds[j].table == views[j]
        invariant delivered == sent + Delivered(c, rounds) && cursor == Moved(c, Delivered(c, rounds))
        invariant 0 <= left && |Delivered(c, rounds)| + left == budget
      {
        ghost var from := cursor;
        var rows := Take(Due(views[k], cursor), BATCH);
        var i := 0;
        MovedNowhere(from);
        assert rows[..0] == [];
        while i < |rows|
          invariant 0 <= i <= |rows| && 0 <= left && |Delivered(c, rounds)| + i + left == budget
          invariant delivered == sent + Delivered(c, rounds) + rows[..i] && cursor == Moved(from, rows[..i])
        {
          if left == 0 {
            OneMoreRound(c, rounds, Round(views[k], i));
            CutRound(views[k], from, i);
            rounds := rounds + [Round(views[k], i)];
            return false, rounds;
          }
          assert rows[..i + 1] == rows[..i] + [rows[i]];
          MovedTo(from, rows[..i], rows[i]);
          delivered := delivered + [rows[i]];
          cursor := rows[i].key;
          i, left := i + 1, left - 1;
        }
        assert rows[..i] == rows;
        OneMoreRound(c, rounds, Round(views[k], i));
        CutRound(views[k], from, i);
        rounds := rounds + [Round(views[k], i)];
        if |rows| < BATCH { return true, rounds; }
      }
      return false, rounds;
    }
  }

  lemma NoRounds(c: Key)
    ensures Delivered(c, []) == [] && Moved(c, []) == c
  {
  }

  lemma MovedNowhere(c: Key)
    ensures Moved(c, []) == c
  {
  }

  lemma MovedTo(c: Key, done: seq<Event>, e: Event)
    ensures Moved(c, done + [e]) == e.key
  {
  }

  /** A batch cut after i events is a round of i, and a short batch holds all that is due. */
  lemma CutRound(table: seq<Event>, c: Key, i: nat)
    requires i <= |Take(Due(table, c), BATCH)|
    ensures Sent(c, Round(table, i)) == Take(Due(table, c), BATCH)[..i]
    ensures |Take(Due(table, c), BATCH)| < BATCH ==> |Take(Due(table, c), BATCH)| == |Due(table, c)|
  {
    hide Due;
  }

  // ----- A table that grows in cursor order -----

  ghost predicate Tables(rounds: seq<Round>) {
    && (forall k :: 0 <= k < |rounds| ==> Sorted(rounds[k].table))
    && (forall k :: 0 < k < |rounds| ==> rounds[k - 1].table <= rounds[k].table)
  }

  lemma {:induction false} FirstInLast(rounds: seq<Round>)
    requires Tables(rounds) && rounds != []
    ensures rounds[0].table <= rounds[|rounds| - 1].table
    decreases |rounds|
  {
    if |rounds| > 1 {
      var rest := rounds[1..];
      forall k | 0 < k < |rest| ensures rest[k - 1].table <= rest[k].table {
        assert rounds[k].table <= rounds[k + 1].table;
      }
      FirstInLast(rest);
      assert rounds[1 - 1].table <= rounds[1].table;
    }
  }

  /** On a table that grows in cursor order, any number of rounds with any failures delivers
      a prefix of the events after the first cursor: each exactly once, in order, none skipped;
      and all of them once a round is not cut short. */
  lemma {:induction false} ExactlyOnceInOrder(c: Key, rounds: seq<Round>)
    requires Tables(rounds) && rounds != []
    ensures Delivered(c, rounds) <= Due(rounds[|rounds| - 1].table, c)
    ensures Uncut(c, rounds) ==> Delivered(c, rounds) == Due(rounds[|rounds| - 1].table, c)
    decreases |rounds|
  {
    hide Due;
    var r, rest, last := rounds[0], rounds[1..], rounds[|rounds| - 1].table;
    var sent := Sent(c, r);
    if rest == [] {
      assert Delivered(Moved(c, sent), rest) == [];
    } else {
      forall k | 0 < k < |rest| ensures rest[k - 1].table <= rest[k].table {
        assert rounds[k].table <= rounds[k + 1].table;
      }
      ExactlyOnceInOrder(Moved(c, sent), rest);
      FirstInLast(rounds);
      assert last == r.table + last[|r.table|..];
      DueGrows(r.table, last[|r.table|..], c);
      var due := Due(last, c);
      assert sent == due[..|sent|];
      DueResumes(last, c, |sent|);
      assert due == sent + due[|sent|..];
    }
  }

  // ----- Rows that appear anywhere -----

  ghost predicate SortedTables(rounds: seq<Round>) {
    forall k :: 0 <= k < |rounds| ==> Sorted(rounds[k].table)
  }

  /** When rows may also appear behind the cursor: an event present from some point on is
      delivered, once a round is not cut short, if and only if it sorts after the cursor at that point. */
  lemma {:induction false} DeliveredIffAhead(c: Key, rounds: seq<Round>, e: Event)
    requires SortedTables(rounds) && rounds != []
    requires forall k :: 0 <= k < |rounds| ==> e in rounds[k].table
    requires Uncut(c, rounds)
    ensures e in Delivered(c, rounds) <==> Follows(e.key, c)
    decreases |rounds|
  {
    hide Due, Sorted;
    var r, rest := rounds[0], rounds[1..];
    var sent := Sent(c, r);
    SentMeans(c, r, e);
    if rest == [] {
      assert Delivered(c, rounds) == sent;
    } else {
      DeliveredIffAhead(Moved(c, sent), rest, e);
    }
  }

  /** So a row that commits late can be lost: here it sorts before one already delivered. */
  lemma LateRowIsLost(c: Key, early: Event, late: Event)
    requires Follows(early.key, c) && Follows(late.key, early.key)
    ensures Delivered(c, [Round([late], 1), Round([early, late], 2)]) == [late]
    ensures Uncut(c, [Round([late], 1), Round([early, late], 2)])
  {
    var rounds := [Round([late], 1), Round([early, late], 2)];
    assert Due([late], c) == [late] by { DueAll([late], c); }
    assert Sent(c, rounds[0]) == [late];
    assert Due([early, late], late.key) == [] by { SuffixAfter([early, late], 1); }
    assert rounds[1..] == [Round([early, late], 2)];
    assert Delivered(late.key, rounds[1..]) == [];
  }

  /** And it stays lost: once a later one was delivered, no further rounds deliver it. */
  lemma LateRowStaysLost(c: Key, first: seq<Round>, rest: seq<Round>, early: Event, late: Event)
    requires SortedTables(rest) && Follows(late.key, early.key)
    requires Delivered(c, first) != [] && Delivered(c, first)[|Delivered(c, first)| - 1] == late
    ensures early !in Delivered(Moved(c, Delivered(c, first)), rest)
  {
    DeliveredSorted(late.key, rest);
  }

  /** A round either delivers an event that is ahead or leaves it ahead; one that is behind stays behind. */
  lemma SentMeans(c: Key, r: Round, e: Event)
    requires Sorted(r.table) && e in r.table
    ensures e in Sent(c, r) ==> Follows(e.key, c) && !Follows(e.key, Moved(c, Sent(c, r)))
    ensures Follows(e.key, c) && e !in Sent(c, r) ==> Follows(e.key, Moved(c, Sent(c, r)))
    ensures !Follows(e.key, c) ==> !Follows(e.key, Moved(c, Sent(c, r)))
    ensures r.count >= |Due(r.table, c)| && Follows(e.key, c) ==> e in Sent(c, r)
  {
    hide Due;
    DueMeans(r.table, c);
    var due, sent := Due(r.table, c), Sent(c, r);
    if sent != [] {
      assert sent[|sent| - 1] == due[|sent| - 1];
      assert due[|sent| - 1] in due;
    }
    if e in due {
      var i :| 0 <= i < |due| && due[i] == e;
      if i < |sent| { assert sent[i] == e; }
    }
  }

  /** No event is delivered twice, and deliveries are in cursor order, whatever appears in the table. */
  lemma {:induction false} DeliveredSorted(c: Key, rounds: seq<Round>)
    requires SortedTables(rounds)
    ensures Sorted(Delivered(c, rounds))
    ensures forall e :: e in Delivered(c, rounds) ==> Follows(e.key, c)
    decreases |rounds|
  {
    hide Due;
    if rounds != [] {
      var sent := Sent(c, rounds[0]);
      var d := Moved(c, sent);
      DueMeans(rounds[0].table, c);
      DeliveredSorted(d, rounds[1..]);
      assert forall e :: e in sent ==> e in Due(rounds[0].table, c);
      SortedJoin(sent, Delivered(d, rounds[1..]), c);
    }
  }

  lemma SortedJoin(a: seq<Event>, b: seq<Event>, c: Key)
    requires Sorted(a) && Sorted(b)
    requires forall e :: e in a ==> Follows(e.key, c)
    requires forall e :: e in b ==> Follows(e.key, Moved(c, a))
    ensures Sorted(a + b)
    ensures forall e :: e in a + b ==> Follows(e.key, c)
  {
    forall i, j | 0 <= i < j < |a + b| ensures Follows((a + b)[j].key, (a + b)[i].key) {
      if i < |a| <= j {
        assert b[j - |a|] in b;
      }
    }
    if a != [] { assert a[|a| - 1] in a; }
  }
}
