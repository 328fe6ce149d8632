/**
 The bounded request rate limiter: fixed windows per client key, at most
 maxEntries of them, and one overflow window shared by every key that finds the
 table full.
 */
module RateLimiter {
  import opened Model
  import opened Sets

  datatype Window = Window(count: nat, reset: int)

  datatype Config = Config(limit: nat, window: nat, maxEntries: nat)

  /** The overflow window is absent until it is first used. */
  datatype State = State(entries: map<string, Window>, overflow: Option<Window>)

  datatype Call = Call(key: string, now: int)

  // ----- One call -----

  function Bucket(key: string): string {
    if key == "" then "unknown" else key
  }

  predicate Running(w: Window, now: int) {
    now < w.reset
  }

  /** The entries whose window has not ended. */
  function Evicted(entries: map<string, Window>, now: int): map<string, Window> {
    map k | k in entries && Running(entries[k], now) :: entries[k]
  }

  /** The table after room was made for a new key, if that was needed. */
  function Trimmed(s: State, key: string, now: int, cfg: Config): map<string, Window> {
    if key !in s.entries && |s.entries| >= cfg.maxEntries then Evicted(s.entries, now) else s.entries
  }

  predicate Overflows(s: State, key: string, now: int, cfg: Config) {
    key !in s.entries && |Trimmed(s, key, now, cfg)| >= cfg.maxEntries
  }

  /** The window that counts this call, restarted if it has ended. */
  function Current(s: State, key: string, now: int, cfg: Config): Window {
    var entry := if Overflows(s, key, now, cfg) then s.overflow
                 else if key in s.entries then Some(s.entries[key]) else None;
    if entry.None? || !Running(entry.value, now) then Window(0, now + cfg.window) else entry.value
  }

  predicate Admits(s: State, key: string, now: int, cfg: Config) {
    Current(s, key, now, cfg).count < cfg.limit
  }

  function Counted(s: State, key: string, now: int, cfg: Config): Window {
    var w := Current(s, key, now, cfg);
    if w.count < cfg.limit then w.(count := w.count + 1) else w
  }

  /** The limiter after a call with this bucket key. */
  function Next(s: State, key: string, now: int, cfg: Config): State {
    var entries := Trimmed(s, key, now, cfg);
    if Overflows(s, key, now, cfg) then State(entries, Some(Counted(s, key, now, cfg)))
    else State(entries[key := Counted(s, key, now, cfg)], s.overflow)
  }

  class Limiter {
    const cfg: Config
    var entries: map<string, Window>
    var overflow: Option<Window>

    constructor (cfg: Config)
      ensures this.cfg == cfg && Snapshot() == State(map[], None)
    {
      this.cfg := cfg;
      entries, overflow := map[], None;
    }

    function Snapshot(): State
      reads this
    {
      State(entries, overflow)
    }

    /** DELETE every ended window. */
    method EvictEnded(now: int)
      modifies this`entries
      ensures entries == Evicted(old(entries), now)
    {
      var rest := entries.Keys;
      while rest != {}
        invariant rest <= entries.Keys <= old(entries).Keys
        invariant forall k :: k in entries ==> entries[k] == old(entries)[k]
        invariant forall k :: k in old(entries) && k !in rest ==> (k in entries <==> Running(old(entries)[k], now))
        decreases rest
      {
        var candidate :| candidate in rest;
        if now >= entries[candidate].reset { entries := entries - {candidate}; }
        rest := rest - {candidate};
      }
    }

    method Allow(rawKey: string, now: int) returns (ok: bool)
      modifies this
      ensures ok == Admits(old(Snapshot()), Bucket(rawKey), now, cfg)
      ensures Snapshot() == Next(old(Snapshot()), Bucket(rawKey), now, cfg)
    {
      var key := Bucket(rawKey);
      var present := key in entries;
      var entry := if present then entries[key] else Window(0, now);
      var full := false;
      if !present && |entries| >= cfg.maxEntries {
        EvictEnded(now);
        if |entries| >= cfg.maxEntries {
          present := overflow.Some?;
          if present { entry := overflow.value; }
          full := true;
        }
      }
      if !present || now >= entry.reset { entry := Window(0, now + cfg.window); }
      ok := entry.count < cfg.limit;
      if ok { entry := entry.(count := entry.count + 1); }
      if full { overflow := Some(entry); } else { entries := entries[key := entry]; }
    }
  }

  // ----- What every reachable limiter keeps -----

  ghost predicate Bounded(s: State, cfg: Config) {
    && |s.entries| <= cfg.maxEntries
    && (forall k :: k in s.entries ==> s.entries[k].count <= cfg.limit)
    && (s.overflow.Some? ==> s.overflow.value.count <= cfg.limit)
  }

  lemma EvictedFits(entries: map<string, Window>, now: int)
    ensures |Evicted(entries, now)| <= |entries|
    ensures forall k :: k in entries && k !in Evicted(entries, now) ==> |Evicted(entries, now)| < |entries|
  {
    var live := Evicted(entries, now);
    assert live.Keys <= entries.Keys;
    SubsetSize(live.Keys, entries.Keys);
    assert |live| == |live.Keys| && |entries| == |entries.Keys|;
  }

  lemma InsertSize(entries: map<string, Window>, key: string, w: Window)
    ensures |entries[key := w]| == |entries| + if key in entries then 0 else 1
  {
    assert entries[key := w].Keys == entries.Keys + {key};
    assert |entries[key := w]| == |entries[key := w].Keys|;
    assert |entries| == |entries.Keys|;
  }

  /** No call lets the table outgrow maxEntries or a window outgrow its limit. */
  lemma NextBounded(s: State, key: string, now: int, cfg: Config)
    requires Bounded(s, cfg)
    ensures Bounded(Next(s, key, now, cfg), cfg)
  {
    EvictedFits(s.entries, now);
    InsertSize(Trimmed(s, key, now, cfg), key, Counted(s, key, now, cfg));
  }

  // ----- Eviction is unobservable -----

  /** Two limiters that differ only in ended windows. */
  ghost predicate Alike(s: State, t: State, now: int) {
    s.overflow == t.overflow && Evicted(s.entries, now) == Evicted(t.entries, now)
  }

  /** Whether a call overflows depends on the running windows alone. */
  lemma OverflowByRunning(s: State, key: string, now: int, cfg: Config)
    requires |s.entries| <= cfg.maxEntries
    ensures Overflows(s, key, now, cfg) <==>
            key !in Evicted(s.entries, now) && |Evicted(s.entries, now)| >= cfg.maxEntries
  {
    EvictedFits(s.entries, now);
  }

  /** The window a call counts in, read off the running windows alone. */
  function RunningWindow(live: map<string, Window>, overflow: Option<Window>, key: string, now: int,
      cfg: Config): Window {
    if key in live then live[key]
    else if |live| >= cfg.maxEntries && overflow.Some? && Running(overflow.value, now) then overflow.value
    else Window(0, now + cfg.window)
  }

  lemma CurrentByRunning(s: State, key: string, now: int, cfg: Config)
    requires |s.entries| <= cfg.maxEntries
    ensures Current(s, key, now, cfg) == RunningWindow(Evicted(s.entries, now), s.overflow, key, now, cfg)
  {
    OverflowByRunning(s, key, now, cfg);
  }

  lemma TrimmedRunning(s: State, key: string, now: int, cfg: Config)
    ensures Evicted(Trimmed(s, key, now, cfg), now) == Evicted(s.entries, now)
  {
  }

  lemma EvictedInsert(a: map<string, Window>, b: map<string, Window>, key: string, w: Window, now: int)
    requires Evicted(a, now) == Evicted(b, now)
    ensures Evicted(a[key := w], now) == Evicted(b[key := w], now)
  {
    var x, y, live := Evicted(a[key := w], now), Evicted(b[key := w], now), Evicted(a, now);
    assert forall k :: k in live <==> k in a && Running(a[k], now);
    assert forall k :: k in live <==> k in b && Running(b[k], now);
    forall k | k in x ensures k in y && x[k] == y[k] { if k != key { assert k in live && live[k] == a[k] == b[k]; } }
    forall k | k in y ensures k in x { if k != key { assert k in live; } }
  }

  lemma AlikeStep(s: State, t: State, key: string, now: int, cfg: Config)
    requires |s.entries| <= cfg.maxEntries && |t.entries| <= cfg.maxEntries && Alike(s, t, now)
    ensures Admits(s, key, now, cfg) == Admits(t, key, now, cfg)
    ensures Alike(Next(s, key, now, cfg), Next(t, key, now, cfg), now)
  {
    hide Evicted, Trimmed, Current, Overflows;
    OverflowByRunning(s, key, now, cfg);
    OverflowByRunning(t, key, now, cfg);
    CurrentByRunning(s, key, now, cfg);
    CurrentByRunning(t, key, now, cfg);
    TrimmedRunning(s, key, now, cfg);
    TrimmedRunning(t, key, now, cfg);
    EvictedInsert(Trimmed(s, key, now, cfg), Trimmed(t, key, now, cfg), key, Counted(s, key, now, cfg), now);
  }

  lemma AlikeLater(s: State, t: State, now: int, later: int)
    requires Alike(s, t, now) && now <= later
    ensures Alike(s, t, later)
  {
    var live := Evicted(s.entries, now);
    assert Evicted(s.entries, later) == Evicted(live, later);
    assert Evicted(t.entries, later) == Evicted(live, later);
  }

  ghost predicate Timely(now: int, calls: seq<Call>) {
    && (forall i :: 0 <= i < |calls| ==> now <= calls[i].now)
    && (forall i, j :: 0 <= i < j < |calls| ==> calls[i].now <= calls[j].now)
  }

  /** The decisions of the limiter over a sequence of calls. */
  function Decisions(s: State, calls: seq<Call>, cfg: Config): seq<bool>
    decreases |calls|
  {
    if calls == [] then []
    else
      [Admits(s, calls[0].key, calls[0].now, cfg)]
      + Decisions(Next(s, calls[0].key, calls[0].now, cfg), calls[1..], cfg)
  }

  /** The limiter after some chosen keys were cleared of their ended windows. */
  function Cleared(s: State, chosen: set<string>, now: int): State {
    s.(entries := map k | k in s.entries && (k !in chosen || Running(s.entries[k], now)) :: s.entries[k])
  }

  /** The decisions when, before each call, the ended windows of any chosen keys are dropped. */
  function ClearedDecisions(s: State, calls: seq<Call>, choices: seq<set<string>>, cfg: Config): seq<bool>
    requires |choices| == |calls|
    decreases |calls|
  {
    if calls == [] then []
    else
      var c, swept := calls[0], Cleared(s, choices[0], calls[0].now);
      [Admits(swept, c.key, c.now, cfg)]
      + ClearedDecisions(Next(swept, c.key, c.now, cfg), calls[1..], choices[1..], cfg)
  }

  lemma ClearedIsAlike(s: State, chosen: set<string>, now: int, cfg: Config)
    requires Bounded(s, cfg)
    ensures Bounded(Cleared(s, chosen, now), cfg) && Alike(s, Cleared(s, chosen, now), now)
  {
    var swept := Cleared(s, chosen, now);
    assert swept.entries.Keys <= s.entries.Keys;
    SubsetSize(swept.entries.Keys, s.entries.Keys);
    assert |swept.entries| == |swept.entries.Keys| && |s.entries| == |s.entries.Keys|;
    assert Evicted(s.entries, now) == Evicted(swept.entries, now);
  }

  /** Which ended windows are dropped, and when, never changes a decision: for any choice of keys before
      each call, eager, late or none, the decisions are those of the limiter that evicts only under pressure. */
  lemma {:induction false} EvictionUnobservable(s: State, t: State, now: int, calls: seq<Call>,
      choices: seq<set<string>>, cfg: Config)
    requires Bounded(s, cfg) && Bounded(t, cfg) && Alike(s, t, now) && Timely(now, calls) && |choices| == |calls|
    ensures Decisions(s, calls, cfg) == ClearedDecisions(t, calls, choices, cfg)
    decreases |calls|
  {
    hide Bounded, Alike, Cleared, Admits, Next;
    if calls != [] {
      var c := calls[0];
      var swept := Cleared(t, choices[0], c.now);
      AlikeLater(s, t, now, c.now);
      ClearedIsAlike(t, choices[0], c.now, cfg);
      AlikeTransitive(s, t, swept, c.now);
      BoundedFits(s, cfg);
      BoundedFits(swept, cfg);
      AlikeStep(s, swept, c.key, c.now, cfg);
      NextBounded(s, c.key, c.now, cfg);
      NextBounded(swept, c.key, c.now, cfg);
      EvictionUnobservable(Next(s, c.key, c.now, cfg), Next(swept, c.key, c.now, cfg), c.now, calls[1..], choices[1..],
          cfg);
    }
  }

  lemma AlikeTransitive(s: State, t: State, u: State, now: int)
    requires Alike(s, t, now) && Alike(t, u, now)
    ensures Alike(s, u, now)
  {
  }

  lemma BoundedFits(s: State, cfg: Config)
    requires Bounded(s, cfg)
    ensures |s.entries| <= cfg.maxEntries
  {
  }

  // ----- The bound over one window length -----

  /** What a window still owes (negative) or has admitted since time a. */
  function Value(w: Window, a: int, cfg: Config): int {
    if w.reset >= a + cfg.window then w.count else w.count - cfg.limit
  }

  function OverflowValue(w: Option<Window>, a: int, cfg: Config): int {
    if w.None? then 0 - cfg.limit else Value(w.value, a, cfg)
  }

  ghost function Total(entries: map<string, Window>, a: int, cfg: Config): int
    decreases |entries|
  {
    if entries == map[] then 0
    else
      var k :| k in entries;
      RemoveSize(entries, k);
      Value(entries[k], a, cfg) + Total(entries - {k}, a, cfg)
  }

  lemma RemoveSize(entries: map<string, Window>, k: string)
    requires k in entries
    ensures |entries - {k}| == |entries| - 1
  {
    assert (entries - {k}).Keys == entries.Keys - {k};
    assert |entries| == |entries.Keys| && |entries - {k}| == |(entries - {k}).Keys|;
  }

  lemma {:induction false} TotalRemove(entries: map<string, Window>, k: string, a: int, cfg: Config)
    requires k in entries
    ensures Total(entries, a, cfg) == Value(entries[k], a, cfg) + Total(entries - {k}, a, cfg)
    decreases |entries|
  {
    var first :| first in entries && Total(entries, a, cfg) == Value(entries[first], a, cfg)
        + Total(entries - {first}, a, cfg);
    if first != k {
      RemoveSize(entries, first);
      TotalRemove(entries - {first}, k, a, cfg);
      TotalRemove(entries - {k}, first, a, cfg);
      assert entries - {first} - {k} == entries - {k} - {first};
    }
  }

  lemma TotalInsert(entries: map<string, Window>, k: string, w: Window, a: int, cfg: Config)
    ensures Total(entries[k := w], a, cfg) ==
            Total(entries, a, cfg) + Value(w, a, cfg) - if k in entries then Value(entries[k], a, cfg) else 0
  {
    TotalRemove(entries[k := w], k, a, cfg);
    assert entries[k := w] - {k} == entries - {k};
    if k in entries { TotalRemove(entries, k, a, cfg); } else { assert entries - {k} == entries; }
  }

  ghost predicate CountsFit(entries: map<string, Window>, cfg: Config) {
    forall k :: k in entries ==> entries[k].count <= cfg.limit
  }

  /** What n full windows hold. */
  function Capacity(n: nat, cfg: Config): nat {
    cfg.limit * n
  }

  lemma CapacityStep(n: nat, cfg: Config)
    ensures Capacity(n + 1, cfg) == Capacity(n, cfg) + cfg.limit
  {
  }

  lemma CapacityMonotone(n: nat, m: nat, cfg: Config)
    requires n <= m
    ensures Capacity(n, cfg) <= Capacity(m, cfg)
  {
  }

  lemma {:induction false} TotalRange(entries: map<string, Window>, a: int, cfg: Config)
    requires CountsFit(entries, cfg)
    ensures 0 - Capacity(|entries|, cfg) <= Total(entries, a, cfg) <= Capacity(|entries|, cfg)
    decreases |entries|
  {
    hide Capacity;
    if entries == map[] {
      CapacityMonotone(0, 0, cfg);
    } else {
      var k :| k in entries;
      RemoveSize(entries, k);
      TotalRemove(entries, k, a, cfg);
      TotalRange(entries - {k}, a, cfg);
      CapacityStep(|entries| - 1, cfg);
    }
  }

  /** Evicting during the interval drops only windows that began before it, so it raises the total. */
  lemma {:induction false} TotalEvicted(entries: map<string, Window>, now: int, a: int, cfg: Config)
    requires CountsFit(entries, cfg) && now < a + cfg.window
    ensures Total(Evicted(entries, now), a, cfg) >= Total(entries, a, cfg)
    decreases |entries|
  {
    if k :| k in entries && !Running(entries[k], now) {
      RemoveSize(entries, k);
      TotalRemove(entries, k, a, cfg);
      assert Evicted(entries - {k}, now) == Evicted(entries, now);
      TotalEvicted(entries - {k}, now, a, cfg);
    } else {
      assert Evicted(entries, now) == entries;
    }
  }

  ghost function Potential(s: State, a: int, cfg: Config): int {
    Total(s.entries, a, cfg) + OverflowValue(s.overflow, a, cfg)
  }

  /** Each admitted call inside the interval raises the potential by at least one, and no call lowers it. */
  lemma CallRaisesPotential(s: State, key: string, now: int, a: int, cfg: Config)
    requires Bounded(s, cfg) && a <= now < a + cfg.window
    ensures Potential(Next(s, key, now, cfg), a, cfg) >=
            Potential(s, a, cfg) + if Admits(s, key, now, cfg) then 1 else 0
  {
    TotalEvicted(s.entries, now, a, cfg);
    if !Overflows(s, key, now, cfg) {
      TotalInsert(Trimmed(s, key, now, cfg), key, Counted(s, key, now, cfg), a, cfg);
    }
  }

  function Admitted(s: State, calls: seq<Call>, cfg: Config): nat
    decreases |calls|
  {
    if calls == [] then 0
    else
      (if Admits(s, calls[0].key, calls[0].now, cfg) then 1 else 0)
      + Admitted(Next(s, calls[0].key, calls[0].now, cfg), calls[1..], cfg)
  }

  function Final(s: State, calls: seq<Call>, cfg: Config): State
    decreases |calls|
  {
    if calls == [] then s else Final(Next(s, calls[0].key, calls[0].now, cfg), calls[1..], cfg)
  }

  ghost predicate Within(calls: seq<Call>, a: int, cfg: Config) {
    forall i :: 0 <= i < |calls| ==> a <= calls[i].now < a + cfg.window
  }

  lemma {:induction false} AdmittedRaisesPotential(s: State, calls: seq<Call>, a: int, cfg: Config)
    requires Bounded(s, cfg) && Within(calls, a, cfg)
    ensures Bounded(Final(s, calls, cfg), cfg)
    ensures Admitted(s, calls, cfg) <= Potential(Final(s, calls, cfg), a, cfg) - Potential(s, a, cfg)
    decreases |calls|
  {
    if calls != [] {
      var c := calls[0];
      CallRaisesPotential(s, c.key, c.now, a, cfg);
      NextBounded(s, c.key, c.now, cfg);
      AdmittedRaisesPotential(Next(s, c.key, c.now, cfg), calls[1..], a, cfg);
    }
  }

  /** Whatever came before, any interval of one window length admits at most
      2·limit·(maxEntries+1) calls over all keys, the overflow bucket included. */
  lemma AdmissionBound(s: State, calls: seq<Call>, a: int, cfg: Config)
    requires Bounded(s, cfg) && Within(calls, a, cfg)
    ensures Admitted(s, calls, cfg) <= 2 * cfg.limit * (cfg.maxEntries + 1)
  {
    hide Capacity, Potential, Bounded, Admitted;
    AdmittedRaisesPotential(s, calls, a, cfg);
    var t := Final(s, calls, cfg);
    PotentialRange(s, a, cfg);
    PotentialRange(t, a, cfg);
    TwiceCapacity(cfg);
  }

  lemma PotentialRange(s: State, a: int, cfg: Config)
    requires Bounded(s, cfg)
    ensures 0 - Capacity(cfg.maxEntries + 1, cfg) <= Potential(s, a, cfg) <= Capacity(cfg.maxEntries + 1, cfg)
  {
    hide Capacity, Total;
    TotalRange(s.entries, a, cfg);
    CapacityMonotone(|s.entries|, cfg.maxEntries, cfg);
    CapacityStep(cfg.maxEntries, cfg);
  }

  lemma TwiceCapacity(cfg: Config)
    ensures 2 * Capacity(cfg.maxEntries + 1, cfg) == 2 * cfg.limit * (cfg.maxEntries + 1)
  {
  }

  lemma {:induction false} ReachableBounded(s: State, calls: seq<Call>, cfg: Config)
    requires Bounded(s, cfg)
    ensures Bounded(Final(s, calls, cfg), cfg)
    decreases |calls|
  {
    if calls != [] {
      NextBounded(s, calls[0].key, calls[0].now, cfg);
      ReachableBounded(Next(s, calls[0].key, calls[0].now, cfg), calls[1..], cfg);
    }
  }

  /** From a new limiter on: the table never outgrows maxEntries, and after any calls every interval meets the bound. */
  lemma EveryIntervalIsBounded(before: seq<Call>, calls: seq<Call>, a: int, cfg: Config)
    requires Within(calls, a, cfg)
    ensures var s := Final(State(map[], None), before, cfg);
            |s.entries| <= cfg.maxEntries && Admitted(s, calls, cfg) <= 2 * cfg.limit * (cfg.maxEntries + 1)
  {
    ReachableBounded(State(map[], None), before, cfg);
    AdmissionBound(Final(State(map[], None), before, cfg), calls, a, cfg);
  }

  // ----- Exactly which calls are admitted -----

  /** What a call counts against: its client's own window, or the one that clients share when the table is full. */
  datatype Account = Own(client: string) | Shared

  /** A call as a log of requests shows it: what it counted against, when, and whether it was let through. */
  datatype Seen = Seen(account: Account, now: int, admitted: bool)

  /** Requests without a key are one client, the same as those that give "unknown". */
  function Client(key: string): string {
    if |key| > 0 then key else "unknown"
  }

  /** The call that opened the account's latest window: the first one, and then each first one after a window ended. */
  function Opened(log: seq<Seen>, a: Account, window: nat): (r: Option<nat>)
    ensures r.Some? ==> r.value < |log| && log[r.value].account == a
    ensures r.None? <==> forall i :: 0 <= i < |log| ==> log[i].account != a
    decreases |log|
  {
    if log == [] then None
    else
      var last, before := |log| - 1, Opened(log[..|log| - 1], a, window);
      if log[last].account != a then before
      else if before.None? || log[before.value].now + window <= log[last].now then Some(last)
      else before
  }

  /** How many calls on the account were let through from this place of the log on. */
  function AdmittedSince(log: seq<Seen>, a: Account, from: nat): nat
    decreases |log|
  {
    if |log| <= from then 0
    else
      var last := log[|log| - 1];
      AdmittedSince(log[..|log| - 1], a, from) + if last.account == a && last.admitted then 1 else 0
  }

  /** The account has a window that is still open at this time. */
  predicate Busy(log: seq<Seen>, a: Account, now: int, window: nat) {
    var first := Opened(log, a, window);
    first.Some? && now < log[first.value].now + window
  }

  /** How many calls the account's current window has let through. */
  function Used(log: seq<Seen>, a: Account, now: int, window: nat): nat {
    if Busy(log, a, now, window) then AdmittedSince(log, a, Opened(log, a, window).value) else 0
  }

  function BusyClients(log: seq<Seen>, now: int, window: nat): set<string> {
    set i | 0 <= i < |log| && log[i].account.Own? && Busy(log, log[i].account, now, window) :: log[i].account.client
  }

  /** A call counts against its own client, unless that client has no open window and maxEntries others have. */
  function AccountOf(log: seq<Seen>, c: Call, cfg: Config): Account {
    var own := Own(Client(c.key));
    if !Busy(log, own, c.now, cfg.window) && |BusyClients(log, c.now, cfg.window)| >= cfg.maxEntries
    then Shared else own
  }

  /** The limiter after these calls. */
  function Reached(calls: seq<Call>, cfg: Config): State {
    Final(State(map[], None), seq(|calls|, i requires 0 <= i < |calls| => calls[i].(key := Bucket(calls[i].key))), cfg)
  }

  /** The log of a new limiter that serves these calls. */
  function Log(calls: seq<Call>, cfg: Config): (r: seq<Seen>)
    ensures |r| == |calls|
    decreases |calls|
  {
    if calls == [] then []
    else
      var front, c := calls[..|calls| - 1], calls[|calls| - 1];
      var log := Log(front, cfg);
      log + [Seen(AccountOf(log, c, cfg), c.now, Admits(Reached(front, cfg), Bucket(c.key), c.now, cfg))]
  }

  lemma {:induction false} OneCallMore(s: State, calls: seq<Call>, c: Call, cfg: Config)
    ensures Final(s, calls + [c], cfg) == Next(Final(s, calls, cfg), c.key, c.now, cfg)
    decreases |calls|
  {
    hide Next;
    if calls == [] {
      assert [c][1..] == [];
    } else {
      assert (calls + [c])[1..] == calls[1..] + [c];
      OneCallMore(Next(s, calls[0].key, calls[0].now, cfg), calls[1..], c, cfg);
    }
  }

  lemma ReachedGrows(calls: seq<Call>, c: Call, cfg: Config)
    ensures Reached(calls + [c], cfg) == Next(Reached(calls, cfg), Client(c.key), c.now, cfg)
  {
    hide Next;
    var filed := seq(|calls|, i requires 0 <= i < |calls| => calls[i].(key := Bucket(calls[i].key)));
    var more := calls + [c];
    assert seq(|more|, i requires 0 <= i < |more| => more[i].(key := Bucket(more[i].key)))
        == filed + [c.(key := Client(c.key))];
    OneCallMore(State(map[], None), filed, c.(key := Client(c.key)), cfg);
  }

  /** The latest window of an account, as the log shows it. */
  function LoggedWindow(log: seq<Seen>, a: Account, cfg: Config): Window
    requires Opened(log, a, cfg.window).Some?
  {
    var first := Opened(log, a, cfg.window).value;
    Window(AdmittedSince(log, a, first), log[first].now + cfg.window)
  }

  /** The limiter and the log agree: every entry is its client's latest window, every open window has an entry, and the
      overflow window is the shared one. */
  ghost predicate Agrees(s: State, log: seq<Seen>, now: int, cfg: Config) {
    && (forall k :: k in s.entries ==>
          Opened(log, Own(k), cfg.window).Some? && s.entries[k] == LoggedWindow(log, Own(k), cfg))
    && (forall k :: Busy(log, Own(k), now, cfg.window) ==> k in s.entries)
    && s.overflow == if Opened(log, Shared, cfg.window).None? then None else Some(LoggedWindow(log, Shared, cfg))
  }

  lemma AgreesLater(s: State, log: seq<Seen>, now: int, later: int, cfg: Config)
    requires Agrees(s, log, now, cfg) && now <= later
    ensures Agrees(s, log, later, cfg)
  {
    hide Opened, AdmittedSince;
    forall k | Busy(log, Own(k), later, cfg.window) ensures k in s.entries {
      assert Busy(log, Own(k), now, cfg.window);
    }
  }

  lemma RunningAreBusy(s: State, log: seq<Seen>, now: int, cfg: Config)
    requires Agrees(s, log, now, cfg)
    ensures Evicted(s.entries, now).Keys == BusyClients(log, now, cfg.window)
    ensures forall k :: k in Evicted(s.entries, now) <==> Busy(log, Own(k), now, cfg.window)
  {
    hide Opened, AdmittedSince;
    var live, busy := Evicted(s.entries, now), BusyClients(log, now, cfg.window);
    forall k | k in live ensures k in busy && Busy(log, Own(k), now, cfg.window) {
      var first := Opened(log, Own(k), cfg.window);
      assert log[first.value].account == Own(k);
    }
  }

  lemma OverflowIsShared(s: State, log: seq<Seen>, c: Call, cfg: Config)
    requires Agrees(s, log, c.now, cfg) && |s.entries| <= cfg.maxEntries
    ensures Overflows(s, Client(c.key), c.now, cfg) <==> AccountOf(log, c, cfg) == Shared
  {
    hide Overflows, Busy, BusyClients, Agrees;
    OverflowByRunning(s, Client(c.key), c.now, cfg);
    RunningAreBusy(s, log, c.now, cfg);
    assert |Evicted(s.entries, c.now)| == |Evicted(s.entries, c.now).Keys|;
  }

  lemma CurrentIsUsed(s: State, log: seq<Seen>, c: Call, cfg: Config)
    requires Agrees(s, log, c.now, cfg) && |s.entries| <= cfg.maxEntries
    ensures var w, a := Current(s, Client(c.key), c.now, cfg), AccountOf(log, c, cfg);
            && w.count == Used(log, a, c.now, cfg.window)
            && w.reset == (if Busy(log, a, c.now, cfg.window) then log[Opened(log, a, cfg.window).value].now else c.now)
                          + cfg.window
  {
    hide Opened, AdmittedSince, Overflows, AccountOf;
    OverflowIsShared(s, log, c, cfg);
    OwnOrShared(log, c, cfg);
  }

  lemma OwnOrShared(log: seq<Seen>, c: Call, cfg: Config)
    ensures AccountOf(log, c, cfg) in {Own(Client(c.key)), Shared}
  {
  }

  /** One more entry of the log. */
  lemma LogStep(log: seq<Seen>, e: Seen, a: Account, cfg: Config)
    ensures var first, first' := Opened(log, a, cfg.window), Opened(log + [e], a, cfg.window);
            if e.account != a then
              first' == first && (first.Some? ==> LoggedWindow(log + [e], a, cfg) == LoggedWindow(log, a, cfg))
            else
              && first' == Some(if Busy(log, a, e.now, cfg.window) then first.value else |log|)
              && AdmittedSince(log + [e], a, first'.value) ==
                 Used(log, a, e.now, cfg.window) + if e.admitted then 1 else 0
  {
    assert (log + [e])[..|log|] == log;
    NothingYet(log, a);
  }

  lemma NothingYet(log: seq<Seen>, a: Account)
    ensures AdmittedSince(log, a, |log|) == 0
  {
  }

  /** What a call does to the limiter: one window gets a new value, and only ended ones go. */
  lemma NextWrites(s: State, key: string, now: int, cfg: Config)
    ensures var s', w := Next(s, key, now, cfg), Counted(s, key, now, cfg);
            if Overflows(s, key, now, cfg) then
              && s'.overflow == Some(w)
              && (forall k :: k in s'.entries ==> k in s.entries && s'.entries[k] == s.entries[k])
              && (forall k :: k in s.entries && Running(s.entries[k], now) ==> k in s'.entries)
            else
              && s'.overflow == s.overflow && key in s'.entries && s'.entries[key] == w
              && (forall k :: k in s'.entries && k != key ==> k in s.entries && s'.entries[k] == s.entries[k])
              && (forall k :: k in s.entries && Running(s.entries[k], now) ==> k in s'.entries)
  {
    hide Current, Counted, Overflows;
  }

  /** The window a call counts in is, after the call, its account's latest one. */
  lemma CountedIsLogged(s: State, log: seq<Seen>, c: Call, cfg: Config)
    requires Agrees(s, log, c.now, cfg) && |s.entries| <= cfg.maxEntries
    ensures var key, a := Client(c.key), AccountOf(log, c, cfg);
            var log' := log + [Seen(a, c.now, Admits(s, key, c.now, cfg))];
            && (Admits(s, key, c.now, cfg) <==> Used(log, a, c.now, cfg.window) < cfg.limit)
            && Opened(log', a, cfg.window).Some? && Counted(s, key, c.now, cfg) == LoggedWindow(log', a, cfg)
  {
    hide Opened, AdmittedSince, Current, Used, AccountOf, Agrees;
    CurrentIsUsed(s, log, c, cfg);
    var a := AccountOf(log, c, cfg);
    LogStep(log, Seen(a, c.now, Admits(s, Client(c.key), c.now, cfg)), a, cfg);
  }

  lemma AgreementStep(s: State, log: seq<Seen>, c: Call, cfg: Config)
    requires Agrees(s, log, c.now, cfg) && Bounded(s, cfg)
    ensures var key, a := Client(c.key), AccountOf(log, c, cfg);
            && (Admits(s, key, c.now, cfg) <==> Used(log, a, c.now, cfg.window) < cfg.limit)
            && Agrees(Next(s, key, c.now, cfg), log + [Seen(a, c.now, Admits(s, key, c.now, cfg))], c.now, cfg)
  {
    hide Opened, Overflows, Counted, Admits, Next, Used, AccountOf, LoggedWindow;
    var key, a := Client(c.key), AccountOf(log, c, cfg);
    OverflowIsShared(s, log, c, cfg);
    OwnOrShared(log, c, cfg);
    CountedIsLogged(s, log, c, cfg);
    NextWrites(s, key, c.now, cfg);
    var e := Seen(a, c.now, Admits(s, key, c.now, cfg));
    var s', log' := Next(s, key, c.now, cfg), log + [e];
    LogStep(log, e, Shared, cfg);
    forall k | k in s'.entries
      ensures Opened(log', Own(k), cfg.window).Some? && s'.entries[k] == LoggedWindow(log', Own(k), cfg)
    {
      LogStep(log, e, Own(k), cfg);
    }
    forall k | Busy(log', Own(k), c.now, cfg.window) ensures k in s'.entries {
      LogStep(log, e, Own(k), cfg);
      if Own(k) != a { StillRunning(s, log, k, c.now, cfg); }
    }
  }

  lemma StillRunning(s: State, log: seq<Seen>, k: string, now: int, cfg: Config)
    requires Agrees(s, log, now, cfg)
    ensures Busy(log, Own(k), now, cfg.window) ==> k in s.entries && Running(s.entries[k], now)
  {
    hide Opened, AdmittedSince;
  }

  ghost predicate InOrder(calls: seq<Call>) {
    forall i, j :: 0 <= i < j < |calls| ==> calls[i].now <= calls[j].now
  }

  lemma {:induction false} LimiterAgrees(calls: seq<Call>, now: int, cfg: Config)
    requires InOrder(calls) && forall i :: 0 <= i < |calls| ==> calls[i].now <= now
    ensures Agrees(Reached(calls, cfg), Log(calls, cfg), now, cfg)
    ensures Bounded(Reached(calls, cfg), cfg)
    decreases |calls|
  {
    hide Agrees, Reached, Bounded, AccountOf, Next, Admits;
    if calls == [] {
      NothingLogged(now, cfg);
    } else {
      var front, c := calls[..|calls| - 1], calls[|calls| - 1];
      assert calls == front + [c];
      LimiterAgrees(front, c.now, cfg);
      AgreementStep(Reached(front, cfg), Log(front, cfg), c, cfg);
      NextBounded(Reached(front, cfg), Client(c.key), c.now, cfg);
      ReachedGrows(front, c, cfg);
      AgreesLater(Reached(calls, cfg), Log(calls, cfg), c.now, now, cfg);
    }
  }

  lemma NothingLogged(now: int, cfg: Config)
    ensures Agrees(Reached([], cfg), Log([], cfg), now, cfg) && Bounded(Reached([], cfg), cfg)
  {
  }

  /** The limiter decides every call by the log alone: it lets the call through if and only if the current window of the
      account it counts against has let fewer than limit calls through. */
  lemma AdmittedIff(calls: seq<Call>, c: Call, cfg: Config)
    requires InOrder(calls + [c])
    ensures Admits(Reached(calls, cfg), Bucket(c.key), c.now, cfg) <==>
            var log := Log(calls, cfg);
            Used(log, AccountOf(log, c, cfg), c.now, cfg.window) < cfg.limit
  {
    hide Agrees, Bounded, Admits, Next, Used, AccountOf;
    assert forall i :: 0 <= i < |calls| ==> (calls + [c])[i] == calls[i] && (calls + [c])[|calls|] == c;
    LimiterAgrees(calls, c.now, cfg);
    AgreementStep(Reached(calls, cfg), Log(calls, cfg), c, cfg);
  }

  /** So, while fewer than maxEntries clients have an open window, a client's first call is let through whatever the
      others did. */
  lemma FirstCallIsAdmitted(calls: seq<Call>, c: Call, cfg: Config)
    requires InOrder(calls + [c]) && cfg.limit > 0
    requires |BusyClients(Log(calls, cfg), c.now, cfg.window)| < cfg.maxEntries
    requires forall i :: 0 <= i < |calls| ==> Client(calls[i].key) != Client(c.key)
    ensures Admits(Reached(calls, cfg), Bucket(c.key), c.now, cfg)
  {
    AdmittedIff(calls, c, cfg);
    LogNames(calls, cfg);
  }

  /** The log shows a call under its own client or as shared. */
  lemma {:induction false} LogNames(calls: seq<Call>, cfg: Config)
    ensures forall i :: 0 <= i < |calls| ==> Log(calls, cfg)[i].account in {Own(Client(calls[i].key)), Shared}
    decreases |calls|
  {
    hide AccountOf, Admits, Reached;
    if calls != [] {
      var front, c := calls[..|calls| - 1], calls[|calls| - 1];
      LogNames(front, cfg);
      OwnOrShared(Log(front, cfg), c, cfg);
    }
  }
}
