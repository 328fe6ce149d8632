/**
 The blocked-by graph: reachability as the recursive query computes it, and what
 refusing an edge that would close a cycle is good for.
 */
module Graph {

  /** An edge (t, b) says that task t is blocked by task b. */
  type Edges = set<(nat, nat)>

  ghost predicate IsPath(edges: Edges, p: seq<nat>) {
    |p| >= 2 && forall i :: 0 <= i < |p| - 1 ==> (p[i], p[i + 1]) in edges
  }

  ghost predicate PathBetween(edges: Edges, p: seq<nat>, a: nat, b: nat) {
    IsPath(edges, p) && p[0] == a && p[|p| - 1] == b
  }

  /** b lies on some chain of blockers that starts at a. */
  ghost predicate Reaches(edges: Edges, a: nat, b: nat) {
    exists p :: PathBetween(edges, p, a, b)
  }

  ghost predicate Acyclic(edges: Edges) {
    forall v: nat :: !Reaches(edges, v, v)
  }

  // ----- The recursive query -----

  /** WITH RECURSIVE chain: a worklist that grows to exactly the reachable tasks. */
  method Chain(edges: Edges, start: nat) returns (chain: set<nat>)
    ensures forall v: nat :: v in chain <==> Reaches(edges, start, v)
  {
    chain := set e | e in edges && e.0 == start :: e.1;
    forall v | v in chain ensures Reaches(edges, start, v) {
      assert PathBetween(edges, [start, v], start, v);
    }
    var targets := set e | e in edges :: e.1;
    while exists e :: e in edges && e.0 in chain && e.1 !in chain
      invariant chain <= targets
      invariant forall e :: e in edges && e.0 == start ==> e.1 in chain
      invariant forall v :: v in chain ==> Reaches(edges, start, v)
      decreases targets - chain
    {
      var e :| e in edges && e.0 in chain && e.1 !in chain;
      Extend(edges, start, e.0, e.1);
      chain := chain + {e.1};
    }
    forall v: nat | Reaches(edges, start, v) ensures v in chain {
      var p :| PathBetween(edges, p, start, v);
      ClosedUnderPaths(edges, chain, p);
    }
  }

  lemma Extend(edges: Edges, a: nat, b: nat, c: nat)
    requires Reaches(edges, a, b) && (b, c) in edges
    ensures Reaches(edges, a, c)
  {
    var p :| PathBetween(edges, p, a, b);
    assert PathBetween(edges, p + [c], a, c);
  }

  lemma PathEdge(edges: Edges, p: seq<nat>, i: nat)
    ensures IsPath(edges, p) && i + 1 < |p| ==> (p[i], p[i + 1]) in edges
  {
  }

  lemma Prepend(edges: Edges, a: nat, b: nat, c: nat)
    requires (a, b) in edges && Reaches(edges, b, c)
    ensures Reaches(edges, a, c)
  {
    var p :| PathBetween(edges, p, b, c);
    var q := [a] + p;
    forall i | 0 <= i < |q| - 1 ensures (q[i], q[i + 1]) in edges {
      if i > 0 { assert (p[i - 1], p[i]) in edges; }
    }
    assert PathBetween(edges, q, a, c);
  }

  lemma {:induction false} ClosedUnderPaths(edges: Edges, chain: set<nat>, p: seq<nat>)
    requires IsPath(edges, p)
    requires forall e :: e in edges && e.0 == p[0] ==> e.1 in chain
    requires forall e :: e in edges && e.0 in chain ==> e.1 in chain
    ensures p[|p| - 1] in chain
    decreases |p|
  {
    var last := (p[|p| - 2], p[|p| - 1]);
    assert last in edges;
    if |p| > 2 {
      ClosedUnderPaths(edges, chain, p[..|p| - 1]);
    }
  }

  // ----- Edges that close no cycle -----

  /** The part of p before the first use of the edge (a, b). */
  lemma {:induction false} BeforeEdge(edges: Edges, a: nat, b: nat, p: seq<nat>) returns (found: bool, q: seq<nat>)
    requires IsPath(edges + {(a, b)}, p)
    ensures !found ==> IsPath(edges, p)
    ensures found ==> q != [] && q[0] == p[0] && q[|q| - 1] == a && (|q| >= 2 ==> IsPath(edges, q))
    decreases |p|
  {
    if (p[0], p[1]) == (a, b) {
      return true, [a];
    }
    assert (p[0], p[1]) in edges;
    if |p| == 2 {
      return false, [];
    }
    found, q := BeforeEdge(edges, a, b, p[1..]);
    if found {
      q := [p[0]] + q;
    } else {
      assert forall i :: 0 <= i < |p| - 1 ==> (p[i], p[i + 1]) in edges by {
        forall i | 0 <= i < |p| - 1 ensures (p[i], p[i + 1]) in edges {
          if i > 0 { assert (p[1..][i - 1], p[1..][i]) in edges; }
        }
      }
    }
  }

  /** The part of p after the last use of the edge (a, b). */
  lemma {:induction false} AfterEdge(edges: Edges, a: nat, b: nat, p: seq<nat>) returns (found: bool, q: seq<nat>)
    requires IsPath(edges + {(a, b)}, p)
    ensures !found ==> IsPath(edges, p)
    ensures found ==> q != [] && q[0] == b && q[|q| - 1] == p[|p| - 1] && (|q| >= 2 ==> IsPath(edges, q))
    decreases |p|
  {
    var n := |p|;
    if (p[n - 2], p[n - 1]) == (a, b) {
      return true, [b];
    }
    assert (p[n - 2], p[n - 1]) in edges;
    if n == 2 {
      return false, [];
    }
    found, q := AfterEdge(edges, a, b, p[..n - 1]);
    if found {
      q := q + [p[n - 1]];
    }
  }

  /** Adding t blocked by b closes a cycle exactly when b already waits for t. */
  lemma AddEdge(edges: Edges, t: nat, b: nat)
    requires Acyclic(edges) && t != b
    ensures Acyclic(edges + {(t, b)}) <==> !Reaches(edges, b, t)
  {
    var more := edges + {(t, b)};
    if Reaches(edges, b, t) {
      var p :| PathBetween(edges, p, b, t);
      assert PathBetween(more, p + [b], b, b);
      assert Reaches(more, b, b);
    } else {
      forall v: nat | Reaches(more, v, v) ensures false {
        var p :| PathBetween(more, p, v, v);
        var found, front := BeforeEdge(edges, t, b, p);
        var found', back := AfterEdge(edges, t, b, p);
        if !found || !found' {
          assert PathBetween(edges, p, v, v) && Reaches(edges, v, v);
        } else {
          Join(edges, back, front);
        }
      }
    }
  }

  lemma Join(edges: Edges, p: seq<nat>, q: seq<nat>)
    requires p != [] && q != [] && p[|p| - 1] == q[0] && p[0] != q[|q| - 1]
    requires |p| >= 2 ==> IsPath(edges, p)
    requires |q| >= 2 ==> IsPath(edges, q)
    ensures PathBetween(edges, p + q[1..], p[0], q[|q| - 1])
  {
    var r := p + q[1..];
    forall i | 0 <= i < |r| - 1 ensures (r[i], r[i + 1]) in edges {
      if i < |p| - 1 {
        assert (p[i], p[i + 1]) in edges;
      } else {
        var k := i - (|p| - 1);
        assert r[i] == q[k] && r[i + 1] == q[k + 1];
      }
    }
  }

  lemma FirstEdge(edges: Edges, p: seq<nat>)
    requires IsPath(edges, p)
    ensures edges != {}
  {
    assert (p[0], p[0 + 1]) in edges;
  }

  lemma NoEdges()
    ensures Acyclic({})
  {
    forall v: nat, p: seq<nat> ensures !PathBetween({}, p, v, v) {
      if IsPath({}, p) { FirstEdge({}, p); }
    }
  }

  lemma RemoveEdge(edges: Edges, e: (nat, nat))
    requires Acyclic(edges)
    ensures Acyclic(edges - {e})
  {
    forall v: nat | Reaches(edges - {e}, v, v) ensures false {
      var p :| PathBetween(edges - {e}, p, v, v);
      assert PathBetween(edges, p, v, v) && Reaches(edges, v, v);
    }
  }

  // ----- Progress -----

  ghost predicate Waits(edges: Edges, unfinished: set<nat>, t: nat) {
    exists b :: (t, b) in edges && b in unfinished
  }

  /** Among unfinished tasks of an acyclic board one has only finished blockers. */
  lemma SomeTaskIsStartable(edges: Edges, unfinished: set<nat>)
    requires Acyclic(edges) && unfinished != {}
    ensures exists t :: t in unfinished && !Waits(edges, unfinished, t)
  {
    if forall t :: t in unfinished ==> Waits(edges, unfinished, t) {
      var t :| t in unfinished;
      var p := Walk(edges, unfinished, t, |unfinished|);
      var i, j := Repeats(p, unfinished);
      assert PathBetween(edges, p[i..j + 1], p[i], p[i]);
      assert Reaches(edges, p[i], p[i]);
    }
  }

  lemma {:induction false} Walk(edges: Edges, unfinished: set<nat>, t: nat, n: nat) returns (p: seq<nat>)
    requires t in unfinished
    requires forall v :: v in unfinished ==> Waits(edges, unfinished, v)
    ensures |p| == n + 1 && forall i :: 0 <= i < |p| ==> p[i] in unfinished
    ensures forall i :: 0 <= i < |p| - 1 ==> (p[i], p[i + 1]) in edges
    decreases n
  {
    if n == 0 { return [t]; }
    var q := Walk(edges, unfinished, t, n - 1);
    assert Waits(edges, unfinished, q[n - 1]);
    var b :| (q[n - 1], b) in edges && b in unfinished;
    p := q + [b];
  }

  lemma {:induction false} Repeats(p: seq<nat>, vs: set<nat>) returns (i: nat, j: nat)
    requires |p| > |vs| && forall k :: 0 <= k < |p| ==> p[k] in vs
    ensures i < j < |p| && p[i] == p[j]
    decreases |p|
  {
    var last := p[|p| - 1];
    if k :| 0 <= k < |p| - 1 && p[k] == last {
      return k, |p| - 1;
    }
    i, j := Repeats(p[..|p| - 1], vs - {last});
  }
}
