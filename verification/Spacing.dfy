/**
 The check, when a schedule is saved, that no two consecutive firings are too
 close.  A cron expression is an abstract function from an instant to the next
 firing after it; ZERO stands for "no further firing".
 */
module Spacing {

  const INTERVAL: nat := 300
  const WINDOW: nat := 366 * 24 * 3600
  const BOUND: nat := WINDOW / INTERVAL + 1

  /** The zero time, in seconds relative to the start of the window. */
  const ZERO: int := -63871286400
  const START: int := 0
  const END: int := START + WINDOW

  /** The next firing is always later, or there is none. */
  ghost predicate Increasing(next: int -> int) {
    forall t :: next(t) == ZERO || next(t) > t
  }

  /** The firing after k others, counted from the start of the window. */
  function Firing(next: int -> int, k: nat): int {
    if k == 0 then next(START) else next(Firing(next, k - 1))
  }

  predicate InWindow(t: int) {
    t != ZERO && t <= END
  }

  /** Firings 1 to k+1 are all inside the window. */
  ghost predicate Reached(next: int -> int, k: nat) {
    forall j :: 1 <= j <= k + 1 ==> InWindow(Firing(next, j))
  }

  /** Firings k and k+1 are inside the window and too close. */
  ghost predicate ClosePair(next: int -> int, k: nat) {
    Reached(next, k) && Firing(next, k + 1) - Firing(next, k) < INTERVAL
  }

  /** The specification: some two consecutive firings inside the window are too close, however many there are. */
  ghost predicate TooClose(next: int -> int) {
    exists k: nat :: ClosePair(next, k)
  }

  /** The bounded loop over consecutive firings. */
  method ValidateSpacing(next: int -> int) returns (ok: bool)
    ensures ok <==> forall k :: 0 <= k < BOUND ==> !ClosePair(next, k)
    ensures Increasing(next) && next(START) != ZERO ==> (ok <==> !TooClose(next))
  {
    if Increasing(next) && next(START) != ZERO { BoundSuffices(next); }
    var previous := next(START);
    for i := 0 to BOUND
      invariant previous == Firing(next, i)
      invariant i > 0 ==> Reached(next, i - 1)
      invariant forall k :: 0 <= k < i ==> !ClosePair(next, k)
    {
      var following := next(previous);
      assert following == Firing(next, i + 1);
      if following == ZERO || following > END {
        assert forall k :: i <= k < BOUND ==> !Reached(next, k);
        return true;
      }
      if following - previous < INTERVAL {
        assert ClosePair(next, i);
        return false;
      }
      previous := following;
    }
    return true;
  }

  /** Firings spaced by the interval leave the window after at most WINDOW / INTERVAL of them. */
  lemma {:induction false} Spaced(next: int -> int, k: nat)
    requires next(START) > START
    requires forall j :: 0 <= j < k ==> Firing(next, j + 1) - Firing(next, j) >= INTERVAL
    ensures Firing(next, k) > START + INTERVAL * k
  {
    if k > 0 {
      Spaced(next, k - 1);
      assert Firing(next, (k - 1) + 1) - Firing(next, k - 1) >= INTERVAL;
    }
  }

  /** The first close pair, if there is one, comes before the loop bound. */
  lemma {:induction false} FirstClosePair(next: int -> int, k: nat)
    requires Increasing(next) && next(START) != ZERO && ClosePair(next, k)
    ensures exists j :: 0 <= j < BOUND && ClosePair(next, j)
    decreases k
  {
    if j: nat :| j < k && ClosePair(next, j) {
      FirstClosePair(next, j);
    } else {
      forall j | 0 <= j < k ensures Firing(next, j + 1) - Firing(next, j) >= INTERVAL {
        assert Reached(next, j);
        assert !ClosePair(next, j);
      }
      Spaced(next, k);
      assert InWindow(Firing(next, k + 1));
      assert Firing(next, k + 1) > Firing(next, k);
    }
  }

  lemma BoundSuffices(next: int -> int)
    requires Increasing(next) && next(START) != ZERO
    ensures TooClose(next) <==> exists k :: 0 <= k < BOUND && ClosePair(next, k)
  {
    if k: nat :| ClosePair(next, k) { FirstClosePair(next, k); }
  }

  /** The loop always ends inside: its last iteration never passes both of its tests,
      so the return after the loop hides no unexamined pair. */
  lemma BoundNeverExhausted(next: int -> int)
    requires Increasing(next) && next(START) != ZERO
    ensures !Reached(next, BOUND - 1) || exists k :: 0 <= k < BOUND && ClosePair(next, k)
  {
    if Reached(next, BOUND - 1) && forall k :: 0 <= k < BOUND ==> !ClosePair(next, k) {
      forall j | 0 <= j < BOUND ensures Firing(next, j + 1) - Firing(next, j) >= INTERVAL {
        assert Reached(next, j);
        assert !ClosePair(next, j);
      }
      Spaced(next, BOUND);
      assert false;
    }
  }
}
