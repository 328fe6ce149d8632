/**
 Friendly callsigns: every seed orders the same 4096 names, and a new agent
 session takes the first one that no session uses, upper and lower case alike.
 */
module Callsigns {
  import opened Model
  import opened Sets
  import opened Text

  const COUNT: nat := 64
  const NAMES: nat := COUNT * COUNT

  const ROW0: seq<string> := ["Amber", "Aspen", "Atlas", "Birch", "Bramble", "Brook", "Cedar", "Cinder"]
  const ROW1: seq<string> := ["Clover", "Comet", "Coral", "Cove", "Dawn", "Delta", "Dune", "Echo"]
  const ROW2: seq<string> := ["Elm", "Ember", "Fern", "Finch", "Flint", "Frost", "Grove", "Harbor"]
  const ROW3: seq<string> := ["Hazel", "Iris", "Jade", "Juniper", "Lark", "Laurel", "Maple", "Meadow"]
  const ROW4: seq<string> := ["Mica", "Moss", "Nova", "Oak", "Ocean", "Olive", "Onyx", "Orbit"]
  const ROW5: seq<string> := ["Pebble", "Pine", "Plum", "Quartz", "Rain", "Reed", "River", "Robin"]
  const ROW6: seq<string> := ["Rowan", "Sage", "Sky", "Slate", "Sol", "Sparrow", "Spruce", "Star"]
  const ROW7: seq<string> := ["Stone", "Tide", "Vale", "Violet", "Willow", "Wren", "Yarrow", "Zephyr"]

  function Row(r: nat): (row: seq<string>)
    requires r < 8
    ensures |row| == 8
  {
    match r
    case 0 => ROW0
    case 1 => ROW1
    case 2 => ROW2
    case 3 => ROW3
    case 4 => ROW4
    case 5 => ROW5
    case 6 => ROW6
    case _ => ROW7
  }

  function Word(i: nat): string
    requires i < COUNT
  {
    Row(i / 8)[i % 8]
  }

  // ----- The words differ in their first three letters, ignoring case -----

  function Code(w: string): int
    requires |w| >= 3
  {
    (LowerChar(w[0]) as int) * 0x10000 + (LowerChar(w[1]) as int) * 0x100 + LowerChar(w[2]) as int
  }

  ghost predicate Plain(w: string) {
    |w| >= 3 && ' ' !in w
  }

  lemma Spelled(w: string, code: int)
    requires |w| >= 3 && ' ' !in w
    requires (LowerChar(w[0]) as int) * 0x10000 + (LowerChar(w[1]) as int) * 0x100 + LowerChar(w[2]) as int == code
    ensures Plain(w) && Code(w) == code
  {
  }

  /** A row of plain words whose codes rise strictly from at least lo to below hi. */
  ghost predicate Rising(row: seq<string>, lo: int, hi: int) {
    && (forall i :: 0 <= i < |row| ==> Plain(row[i]) && lo <= Code(row[i]) < hi)
    && (forall i :: 0 < i < |row| ==> Code(row[i - 1]) < Code(row[i]))
  }

  /** The least code of each row, and a bound past the last. */
  const BOUNDS: seq<int> := [6384994, 6515823, 6646893, 6840698, 7170403, 7365986, 7499639, 7566447, 8060928]

  lemma RowRises0()
    ensures Rising(ROW0, 6384994, 6515823)
  {
    hide Code, Plain;
    Spelled("Amber", 6384994);
    Spelled("Aspen", 6386544);
    Spelled("Atlas", 6386796);
    Spelled("Birch", 6449522);
    Spelled("Bramble", 6451809);
    Spelled("Brook", 6451823);
    Spelled("Cedar", 6514020);
    Spelled("Cinder", 6515054);
  }

  lemma RowRises1()
    ensures Rising(ROW1, 6515823, 6646893)
  {
    hide Code, Plain;
    Spelled("Clover", 6515823);
    Spelled("Comet", 6516589);
    Spelled("Coral", 6516594);
    Spelled("Cove", 6516598);
    Spelled("Dawn", 6578551);
    Spelled("Delta", 6579564);
    Spelled("Dune", 6583662);
    Spelled("Echo", 6644584);
  }

  lemma RowRises2()
    ensures Rising(ROW2, 6646893, 6840698)
  {
    hide Code, Plain;
    Spelled("Elm", 6646893);
    Spelled("Ember", 6647138);
    Spelled("Fern", 6710642);
    Spelled("Finch", 6711662);
    Spelled("Flint", 6712425);
    Spelled("Frost", 6713967);
    Spelled("Grove", 6779503);
    Spelled("Harbor", 6840690);
  }

  lemma RowRises3()
    ensures Rising(ROW3, 6840698, 7170403)
  {
    hide Code, Plain;
    Spelled("Hazel", 6840698);
    Spelled("Iris", 6910569);
    Spelled("Jade", 6971748);
    Spelled("Juniper", 6976878);
    Spelled("Lark", 7102834);
    Spelled("Laurel", 7102837);
    Spelled("Maple", 7168368);
    Spelled("Meadow", 7169377);
  }

  lemma RowRises4()
    ensures Rising(ROW4, 7170403, 7365986)
  {
    hide Code, Plain;
    Spelled("Mica", 7170403);
    Spelled("Moss", 7171955);
    Spelled("Nova", 7237494);
    Spelled("Oak", 7299435);
    Spelled("Ocean", 7299941);
    Spelled("Olive", 7302249);
    Spelled("Onyx", 7302777);
    Spelled("Orbit", 7303778);
  }

  lemma RowRises5()
    ensures Rising(ROW5, 7365986, 7499639)
  {
    hide Code, Plain;
    Spelled("Pebble", 7365986);
    Spelled("Pine", 7367022);
    Spelled("Plum", 7367797);
    Spelled("Quartz", 7435617);
    Spelled("Rain", 7496041);
    Spelled("Reed", 7497061);
    Spelled("River", 7498102);
    Spelled("Robin", 7499618);
  }

  lemma RowRises6()
    ensures Rising(ROW6, 7499639, 7566447)
  {
    hide Code, Plain;
    Spelled("Rowan", 7499639);
    Spelled("Sage", 7561575);
    Spelled("Sky", 7564153);
    Spelled("Slate", 7564385);
    Spelled("Sol", 7565164);
    Spelled("Sparrow", 7565409);
    Spelled("Spruce", 7565426);
    Spelled("Star", 7566433);
  }

  lemma RowRises7()
    ensures Rising(ROW7, 7566447, 8060928)
  {
    hide Code, Plain;
    Spelled("Stone", 7566447);
    Spelled("Tide", 7629156);
    Spelled("Vale", 7758188);
    Spelled("Violet", 7760239);
    Spelled("Willow", 7825772);
    Spelled("Wren", 7828069);
    Spelled("Yarrow", 7954802);
    Spelled("Zephyr", 8021360);
  }

  lemma RowRises(r: nat)
    requires r < 8
    ensures Rising(Row(r), BOUNDS[r], BOUNDS[r + 1])
  {
    hide Rising;
    match r {
      case 0 => RowRises0();
      case 1 => RowRises1();
      case 2 => RowRises2();
      case 3 => RowRises3();
      case 4 => RowRises4();
      case 5 => RowRises5();
      case 6 => RowRises6();
      case _ => RowRises7();
    }
  }

  lemma WordIsPlain(i: nat)
    requires i < COUNT
    ensures Plain(Word(i))
  {
    hide Row, Code, Plain;
    RowRises(i / 8);
  }

  lemma NextWordRises(i: nat)
    requires i + 1 < COUNT
    ensures Plain(Word(i)) && Plain(Word(i + 1)) && Code(Word(i)) < Code(Word(i + 1))
  {
    hide Row, Code, Plain;
    RowRises(i / 8);
    RowRises((i + 1) / 8);
    assert Word(i) == Row(i / 8)[i % 8];
    if i % 8 < 7 {
      assert (i + 1) / 8 == i / 8 && (i + 1) % 8 == i % 8 + 1;
    } else {
      assert (i + 1) / 8 == i / 8 + 1 && (i + 1) % 8 == 0;
    }
  }

  lemma {:induction false} WordsRise(i: nat, j: nat)
    requires i < j < COUNT
    ensures Plain(Word(i)) && Plain(Word(j)) && Code(Word(i)) < Code(Word(j))
    decreases j
  {
    hide Code, Plain, Word;
    NextWordRises(j - 1);
    if i < j - 1 { WordsRise(i, j - 1); }
  }

  // ----- Names -----

  datatype Name = Single(first: nat) | Pair(first: nat, second: nat)

  predicate IsName(n: Name) {
    n.first < COUNT && (n.Pair? ==> n.second < COUNT && n.second != n.first)
  }

  function Spelling(n: Name): string
    requires IsName(n)
  {
    if n.Single? then Word(n.first) else Word(n.first) + " " + Word(n.second)
  }

  lemma PlainHasNoSpace(w: string, i: nat)
    requires Plain(w) && i < |w|
    ensures LowerChar(w[i]) != ' '
  {
    assert w[i] in w;
  }

  lemma SameWord(i: nat, j: nat)
    requires i < COUNT && j < COUNT && Lower(Word(i)) == Lower(Word(j))
    ensures i == j
  {
    hide Word;
    WordIsPlain(i);
    WordIsPlain(j);
    var v, w := Word(i), Word(j);
    assert forall k :: 0 <= k < |v| ==> LowerChar(v[k]) == Lower(v)[k] == Lower(w)[k] == LowerChar(w[k]);
    assert Code(v) == Code(w);
    if i < j { WordsRise(i, j); } else if j < i { WordsRise(j, i); }
  }

  /** A shorter first word would put its space inside the other's first word. */
  lemma FirstWordFits(a: nat, rest: string, b: nat, other: string)
    requires a < COUNT && b < COUNT && (other == "" || other[0] == ' ')
    requires Lower(Word(a) + " " + rest) == Lower(Word(b) + other)
    ensures |Word(b)| <= |Word(a)|
  {
    hide Word, Plain;
    WordIsPlain(b);
    var s, t := Word(a) + " " + rest, Word(b) + other;
    if |Word(a)| < |Word(b)| {
      var k := |Word(a)|;
      assert Lower(s)[k] == LowerChar(s[k]) == ' ';
      assert Lower(t)[k] == LowerChar(t[k]) == LowerChar(Word(b)[k]);
      PlainHasNoSpace(Word(b), k);
    }
  }

  lemma LowerSplits(a: string, b: string, c: string, d: string)
    requires |a| == |c| && Lower(a + b) == Lower(c + d)
    ensures Lower(a) == Lower(c) && Lower(b) == Lower(d)
  {
    var s, t := a + b, c + d;
    assert |s| == |Lower(s)| == |Lower(t)| == |t|;
    forall k | 0 <= k < |a| ensures Lower(a)[k] == Lower(c)[k] { assert Lower(s)[k] == Lower(t)[k]; }
    forall k | 0 <= k < |b| ensures Lower(b)[k] == Lower(d)[k] { assert Lower(s)[|a| + k] == Lower(t)[|a| + k]; }
  }

  /** A single word is never a pair. */
  lemma SingleIsNotPair(i: nat, p: Name)
    requires i < COUNT && IsName(p) && p.Pair?
    ensures Lower(Word(i)) != Lower(Spelling(p))
  {
    hide Word, Plain;
    var w, k := Spelling(p), |Word(p.first)|;
    if Lower(Word(i)) == Lower(w) {
      WordIsPlain(i);
      assert |Word(i)| == |Lower(Word(i))| == |w| > k;
      assert LowerChar(Word(i)[k]) == Lower(Word(i))[k] == Lower(w)[k] == LowerChar(w[k]) == ' ';
      PlainHasNoSpace(Word(i), k);
    }
  }

  lemma PairsDiffer(a: Name, b: Name)
    requires IsName(a) && IsName(b) && a.Pair? && b.Pair? && Lower(Spelling(a)) == Lower(Spelling(b))
    ensures a == b
  {
    hide Word, Lower;
    var x, y := " " + Word(a.second), " " + Word(b.second);
    assert Spelling(a) == Word(a.first) + x && Spelling(b) == Word(b.first) + y;
    FirstWordFits(a.first, Word(a.second), b.first, y);
    FirstWordFits(b.first, Word(b.second), a.first, x);
    LowerSplits(Word(a.first), x, Word(b.first), y);
    LowerSplits(" ", Word(a.second), " ", Word(b.second));
    SameWord(a.first, b.first);
    SameWord(a.second, b.second);
  }

  /** Different names stay different in lower case. */
  lemma NamesDiffer(a: Name, b: Name)
    requires IsName(a) && IsName(b) && a != b
    ensures Lower(Spelling(a)) != Lower(Spelling(b))
  {
    hide Word, Lower;
    if Lower(Spelling(a)) == Lower(Spelling(b)) {
      if a.Pair? && b.Pair? { PairsDiffer(a, b); }
      else if a.Pair? { SingleIsNotPair(b.first, a); }
      else if b.Pair? { SingleIsNotPair(a.first, b); }
      else { SameWord(a.first, b.first); }
    }
  }

  // ----- The order a seed gives them -----

  /** The n-th candidate of a seed whose first word is start. */
  function NameAt(start: nat, n: nat): (r: Name)
    requires start < COUNT && n < NAMES
    ensures IsName(r)
  {
    if n < COUNT then Single((start + n) % 64)
    else
      var left, right := (n - COUNT) / 63, (n - COUNT) % 63 + 1;
      Pair((start + left) % 64, (start + left + right) % 64)
  }

  /** Where a name stands in a seed's order. */
  function PlaceOf(start: nat, a: Name): (n: nat)
    requires start < COUNT && IsName(a)
    ensures n < NAMES
  {
    var left := (a.first - start) % 64;
    if a.Single? then left
    else COUNT + left * 63 + (a.second - a.first) % 64 - 1
  }

  /** Wrapping around undoes itself. */
  lemma Wraps(base: nat, step: nat)
    requires step < COUNT
    ensures ((base + step) % 64 - base % 64) % 64 == step
  {
  }

  lemma WrapsBack(base: nat, target: nat)
    requires base < COUNT && target < COUNT
    ensures (base + (target - base) % 64) % 64 == target
  {
  }

  lemma PlaceOfPair(start: nat, left: nat, right: nat)
    requires start < COUNT && left < COUNT && 1 <= right < COUNT
    ensures var a := Pair((start + left) % 64, (start + left + right) % 64);
            IsName(a) && PlaceOf(start, a) == COUNT + left * 63 + right - 1
  {
    Wraps(start, left);
    Wraps(start + left, right);
    assert start % 64 == start;
  }

  lemma PlaceOfSingle(start: nat, n: nat)
    requires start < COUNT && n < COUNT
    ensures PlaceOf(start, Single((start + n) % 64)) == n
  {
    Wraps(start, n);
    assert start % 64 == start;
  }

  /** How a place past the single words splits into the two offsets. */
  lemma Offsets(start: nat, n: nat) returns (left: nat, right: nat)
    requires start < COUNT && COUNT <= n < NAMES
    ensures left < COUNT && 1 <= right < COUNT && n == COUNT + left * 63 + right - 1
    ensures NameAt(start, n) == Pair((start + left) % 64, (start + left + right) % 64)
  {
    left, right := (n - COUNT) / 63, (n - COUNT) % 63 + 1;
  }

  lemma PlaceOfNameAt(start: nat, n: nat)
    requires start < COUNT && n < NAMES
    ensures PlaceOf(start, NameAt(start, n)) == n
  {
    hide PlaceOf;
    if n < COUNT {
      PlaceOfSingle(start, n);
    } else {
      hide NameAt;
      var left, right := Offsets(start, n);
      PlaceOfPair(start, left, right);
    }
  }

  lemma PairAtPlace(start: nat, left: nat, right: nat)
    requires start < COUNT && left < COUNT && 1 <= right < COUNT
    ensures COUNT + left * 63 + right - 1 < NAMES
    ensures NameAt(start, COUNT + left * 63 + right - 1) == Pair((start + left) % 64, (start + left + right) % 64)
  {
  }

  lemma NameAtPlaceOf(start: nat, a: Name)
    requires start < COUNT && IsName(a)
    ensures NameAt(start, PlaceOf(start, a)) == a
  {
    WrapsBack(start, a.first);
    if a.Pair? {
      hide NameAt;
      var left, right := (a.first - start) % 64, (a.second - a.first) % 64;
      PairAtPlace(start, left, right);
      WrapsBack(a.first, a.second);
      SumWraps(start + left, right);
    }
  }

  lemma SumWraps(base: nat, step: nat)
    ensures (base + step) % 64 == (base % 64 + step) % 64
  {
  }

  function Candidate(start: nat, n: nat): string
    requires start < COUNT && n < NAMES
  {
    Spelling(NameAt(start, n))
  }

  lemma SingleCandidate(start: nat, offset: nat)
    requires start < COUNT && offset < COUNT
    ensures Candidate(start, offset) == Word((start + offset) % 64)
  {
    hide Word;
  }

  lemma PairCandidate(start: nat, left: nat, right: nat)
    requires start < COUNT && left < COUNT && 1 <= right < COUNT
    ensures COUNT + left * 63 + right - 1 < NAMES
    ensures Candidate(start, COUNT + left * 63 + right - 1) ==
            Word((start + left) % 64) + " " + Word((start + left + right) % 64)
  {
    hide Word, NameAt;
    PairAtPlace(start, left, right);
  }

  /** The nested loops over rotated offsets. */
  method Candidates(seedHash: nat) returns (names: seq<string>)
    ensures |names| == NAMES
    ensures forall n :: 0 <= n < NAMES ==> names[n] == Candidate(seedHash % COUNT, n)
  {
    hide Word, Candidate;
    var start := seedHash % 64;
    names := [];
    for offset := 0 to COUNT
      invariant |names| == offset
      invariant forall n :: 0 <= n < |names| ==> names[n] == Candidate(start, n)
    {
      SingleCandidate(start, offset);
      names := names + [Word((start + offset) % 64)];
    }
    for leftOffset := 0 to COUNT
      invariant |names| == COUNT + leftOffset * 63
      invariant forall n :: 0 <= n < |names| ==> names[n] == Candidate(start, n)
    {
      var left := Word((start + leftOffset) % 64);
      for rightOffset := 1 to COUNT
        invariant |names| == COUNT + leftOffset * 63 + rightOffset - 1
        invariant forall n :: 0 <= n < |names| ==> names[n] == Candidate(start, n)
      {
        var right := Word((start + leftOffset + rightOffset) % 64);
        PairCandidate(start, leftOffset, rightOffset);
        names := names + [left + " " + right];
      }
    }
  }

  /** For every seed the candidates are pairwise different, even in lower case. */
  lemma CandidatesDiffer(start: nat, n: nat, m: nat)
    requires start < COUNT && n < NAMES && m < NAMES && n != m
    ensures Lower(Candidate(start, n)) != Lower(Candidate(start, m))
  {
    hide NameAt, PlaceOf, Spelling, Lower;
    PlaceOfNameAt(start, n);
    PlaceOfNameAt(start, m);
    NamesDiffer(NameAt(start, n), NameAt(start, m));
  }

  /** Every word and every ordered pair of different words is a candidate of every seed, at one place. */
  lemma EveryNameIsACandidate(start: nat, a: Name)
    requires start < COUNT && IsName(a)
    ensures Candidate(start, PlaceOf(start, a)) == Spelling(a)
    ensures forall n :: 0 <= n < NAMES && Candidate(start, n) == Spelling(a) ==> n == PlaceOf(start, a)
  {
    hide NameAt, PlaceOf, Spelling, Lower;
    NameAtPlaceOf(start, a);
    forall n | 0 <= n < NAMES && n != PlaceOf(start, a) ensures Candidate(start, n) != Spelling(a) {
      CandidatesDiffer(start, n, PlaceOf(start, a));
    }
  }

  // ----- Sessions -----

  datatype Session = Session(agent: string, keyHash: string, callsign: string)

  ghost predicate Unique(rows: seq<Session>) {
    forall i, j :: 0 <= i < j < |rows| ==>
      && !(rows[i].agent == rows[j].agent && rows[i].keyHash == rows[j].keyHash)
      && Lower(rows[i].callsign) != Lower(rows[j].callsign)
  }

  predicate Taken(rows: seq<Session>, name: string) {
    exists i :: 0 <= i < |rows| && Lower(rows[i].callsign) == Lower(name)
  }

  function Find(rows: seq<Session>, agent: string, keyHash: string): (r: Option<nat>)
    ensures r.Some? ==> r.value < |rows| && rows[r.value].agent == agent && rows[r.value].keyHash == keyHash
    ensures r.None? ==> forall i :: 0 <= i < |rows| ==> !(rows[i].agent == agent && rows[i].keyHash == keyHash)
  {
    if rows == [] then None
    else if rows[0].agent == agent && rows[0].keyHash == keyHash then Some(0)
    else
      var rest := Find(rows[1..], agent, keyHash);
      if rest.None? then None else Some(rest.value + 1)
  }

  /** The first candidate from place n on that no session uses. */
  function FirstFree(rows: seq<Session>, start: nat, n: nat): (r: Option<nat>)
    requires start < COUNT && n <= NAMES
    ensures r.Some? ==> n <= r.value < NAMES
    decreases NAMES - n
  {
    if n == NAMES then None
    else if !Taken(rows, Candidate(start, n)) then Some(n)
    else FirstFree(rows, start, n + 1)
  }

  lemma {:induction false} FirstFreeMeans(rows: seq<Session>, start: nat, n: nat)
    requires start < COUNT && n <= NAMES
    ensures var r := FirstFree(rows, start, n);
            && (r.Some? ==> !Taken(rows, Candidate(start, r.value)))
            && (forall m :: n <= m < (if r.None? then NAMES else r.value) ==> Taken(rows, Candidate(start, m)))
    decreases NAMES - n
  {
    hide Candidate, Taken;
    if n < NAMES && Taken(rows, Candidate(start, n)) { FirstFreeMeans(rows, start, n + 1); }
  }

  /** A request for a session: the known one, a new one, or none when every candidate is taken. */
  function Register(rows: seq<Session>, agent: string, keyHash: string, start: nat): (Option<nat>, seq<Session>)
    requires start < COUNT
  {
    var known, free := Find(rows, agent, keyHash), FirstFree(rows, start, 0);
    if known.Some? then (known, rows)
    else if free.None? then (None, rows)
    else (Some(|rows|), rows + [Session(agent, keyHash, Candidate(start, free.value))])
  }

  class Sessions {
    var rows: seq<Session>

    /** INSERT … ON CONFLICT DO NOTHING under the two unique indexes. */
    method TryInsert(session: Session) returns (inserted: bool)
      modifies this
      ensures inserted <==> Find(old(rows), session.agent, session.keyHash).None? && !Taken(old(rows), session.callsign)
      ensures rows == if inserted then old(rows) + [session] else old(rows)
    {
      inserted := Find(rows, session.agent, session.keyHash).None? && !Taken(rows, session.callsign);
      if inserted { rows := rows + [session]; }
    }

    method InsertSession(agent: string, keyHash: string, seedHash: nat) returns (index: Option<nat>)
      modifies this
      ensures (index, rows) == Register(old(rows), agent, keyHash, seedHash % 64)
    {
      hide Candidate, Taken;
      var known := Find(rows, agent, keyHash);
      if known.Some? { return known; }
      var start := seedHash % 64;
      var names := Candidates(seedHash);
      for n := 0 to NAMES
        invariant rows == old(rows)
        invariant FirstFree(rows, start, 0) == FirstFree(rows, start, n)
      {
        var inserted := TryInsert(Session(agent, keyHash, names[n]));
        if inserted { return Some(|rows| - 1); }
      }
      return None;
    }
  }

  // ----- A free name whenever fewer than 4096 are taken -----

  ghost function CandidateSet(start: nat, k: nat): set<string>
    requires start < COUNT && k <= NAMES
  {
    if k == 0 then {} else CandidateSet(start, k - 1) + {Lower(Candidate(start, k - 1))}
  }

  lemma {:induction false} CandidateSetMeans(start: nat, k: nat)
    requires start < COUNT && k <= NAMES
    ensures |CandidateSet(start, k)| == k
    ensures forall x :: x in CandidateSet(start, k) ==> exists n :: 0 <= n < k && x == Lower(Candidate(start, n))
  {
    hide Candidate, Lower;
    if k > 0 {
      CandidateSetMeans(start, k - 1);
      var last := Lower(Candidate(start, k - 1));
      if last in CandidateSet(start, k - 1) {
        var n :| 0 <= n < k - 1 && last == Lower(Candidate(start, n));
        CandidatesDiffer(start, n, k - 1);
      }
    }
  }

  ghost function TakenSet(rows: seq<Session>): set<string> {
    if rows == [] then {} else {Lower(rows[0].callsign)} + TakenSet(rows[1..])
  }

  lemma {:induction false} TakenSetMeans(rows: seq<Session>)
    ensures |TakenSet(rows)| <= |rows|
    ensures forall i :: 0 <= i < |rows| ==> Lower(rows[i].callsign) in TakenSet(rows)
  {
    hide Lower;
    if rows != [] { TakenSetMeans(rows[1..]); }
  }

  lemma NameAvailable(rows: seq<Session>, start: nat)
    requires start < COUNT && |rows| < NAMES
    ensures FirstFree(rows, start, 0).Some?
  {
    hide Candidate, Lower;
    if FirstFree(rows, start, 0).None? {
      FirstFreeMeans(rows, start, 0);
      CandidateSetMeans(start, NAMES);
      TakenSetMeans(rows);
      forall x | x in CandidateSet(start, NAMES) ensures x in TakenSet(rows) {
        var n :| 0 <= n < NAMES && x == Lower(Candidate(start, n));
        assert Taken(rows, Candidate(start, n));
      }
      SubsetSize(CandidateSet(start, NAMES), TakenSet(rows));
      assert false;
    }
  }

  /** With fewer than 4096 sessions every request succeeds, and both uniqueness rules are kept. */
  lemma RegisterKeepsUnique(rows: seq<Session>, agent: string, keyHash: string, start: nat)
    requires start < COUNT && Unique(rows)
    ensures var (index, next) := Register(rows, agent, keyHash, start);
            && Unique(next)
            && rows <= next
            && (index.Some? ==>
                  index.value < |next| && next[index.value].agent == agent && next[index.value].keyHash == keyHash)
            && (|rows| < NAMES ==> index.Some?)
  {
    hide Candidate, Lower;
    if |rows| < NAMES { NameAvailable(rows, start); }
    var known, free := Find(rows, agent, keyHash), FirstFree(rows, start, 0);
    if known.None? && free.Some? {
      var name := Candidate(start, free.value);
      FirstFreeMeans(rows, start, 0);
      forall i | 0 <= i < |rows| ensures Lower(rows[i].callsign) != Lower(name) { assert !Taken(rows, name); }
    }
  }

  datatype Request = Request(agent: string, keyHash: string, seedHash: nat)

  function RegisterAll(rows: seq<Session>, requests: seq<Request>): seq<Session>
    decreases |requests|
  {
    if requests == [] then rows
    else
      var r := requests[0];
      RegisterAll(Register(rows, r.agent, r.keyHash, r.seedHash % 64).1, requests[1..])
  }

  lemma {:induction false} RegisterAllKeeps(rows: seq<Session>, requests: seq<Request>)
    requires Unique(rows)
    ensures Unique(RegisterAll(rows, requests)) && rows <= RegisterAll(rows, requests)
    decreases |requests|
  {
    hide Register, Unique;
    if requests != [] {
      var r := requests[0];
      RegisterKeepsUnique(rows, r.agent, r.keyHash, r.seedHash % 64);
      RegisterAllKeeps(Register(rows, r.agent, r.keyHash, r.seedHash % 64).1, requests[1..]);
    }
  }

  /** Whatever was registered in between, the same agent and session key get the same session back. */
  lemma SameKeySameSession(rows: seq<Session>, agent: string, keyHash: string, seed: nat, between: seq<Request>,
      seed': nat)
    requires Unique(rows) && Register(rows, agent, keyHash, seed % 64).0.Some?
    ensures var (index, next) := Register(rows, agent, keyHash, seed % 64);
            var later := RegisterAll(next, between);
            Register(later, agent, keyHash, seed' % 64) == (index, later)
  {
    hide Unique, FirstFree, Candidate;
    RegisterKeepsUnique(rows, agent, keyHash, seed % 64);
    var (index, next) := Register(rows, agent, keyHash, seed % 64);
    hide Register;
    RegisterAllKeeps(next, between);
    var later := RegisterAll(next, between);
    FindUnique(later, index.value);
    KnownIsReturned(later, agent, keyHash, seed' % 64, index.value);
  }

  lemma FindUnique(rows: seq<Session>, i: nat)
    requires Unique(rows) && i < |rows|
    ensures Find(rows, rows[i].agent, rows[i].keyHash) == Some(i)
  {
  }

  lemma KnownIsReturned(rows: seq<Session>, agent: string, keyHash: string, start: nat, i: nat)
    requires start < COUNT && Find(rows, agent, keyHash) == Some(i)
    ensures Register(rows, agent, keyHash, start) == (Some(i), rows)
  {
  }
}
