/**
 * Directed graphs given as a list of arcs between numbered vertices: paths, cycles and the
 * counting argument behind removing vertices of in-degree zero one at a time.
 */
module Digraph {
  import opened Common

  type Arc = (nat, nat)

  ghost predicate IsPath(arcs: seq<Arc>, p: seq<nat>) {
    |p| > 0 && forall k :: 0 <= k < |p| - 1 ==> (p[k], p[k + 1]) in arcs
  }

  ghost predicate PathFromTo(arcs: seq<Arc>, p: seq<nat>, a: nat, b: nat) {
    IsPath(arcs, p) && p[0] == a && p[|p| - 1] == b
  }

  /** Some non-empty walk returns to where it started. */
  ghost predicate Cyclic(arcs: seq<Arc>) {
    exists p :: IsPath(arcs, p) && |p| >= 2 && p[0] == p[|p| - 1]
  }

  ghost predicate Within(arcs: seq<Arc>, n: nat) {
    forall k :: 0 <= k < |arcs| ==> arcs[k].0 < n && arcs[k].1 < n
  }

  /** Arcs into t whose source has not been removed yet. */
  ghost function InDegree(arcs: seq<Arc>, gone: set<nat>, t: nat): nat {
    if |arcs| == 0 then 0
    else
      var last := arcs[|arcs| - 1];
      InDegree(arcs[..|arcs| - 1], gone, t)
      + if last.1 == t && last.0 !in gone then 1 else 0
  }

  /** A vertex with a positive remaining in-degree has a remaining predecessor. */
  lemma {:induction false} PredecessorExists(arcs: seq<Arc>, gone: set<nat>, t: nat) returns (f: nat)
    requires InDegree(arcs, gone, t) > 0
    ensures (f, t) in arcs && f !in gone
  {
    var last := arcs[|arcs| - 1];
    if last.1 == t && last.0 !in gone {
      f := last.0;
    } else {
      f := PredecessorExists(arcs[..|arcs| - 1], gone, t);
    }
  }

  lemma {:induction false} NoPredecessor(arcs: seq<Arc>, gone: set<nat>, t: nat, f: nat)
    requires InDegree(arcs, gone, t) == 0
    requires (f, t) in arcs
    ensures f in gone
  {
    var last := arcs[|arcs| - 1];
    if last != (f, t) {
      assert (f, t) in arcs[..|arcs| - 1];
      NoPredecessor(arcs[..|arcs| - 1], gone, t, f);
    }
  }

  /** Removing v lowers the in-degree of t by the number of arcs from v to t. */
  lemma {:induction false} RemovalLowersDegree(arcs: seq<Arc>, gone: set<nat>, v: nat, t: nat)
    requires v !in gone
    ensures InDegree(arcs, gone, t) == InDegree(arcs, gone + {v}, t) + Parallel(arcs, v, t)
  {
    if |arcs| > 0 {
      RemovalLowersDegree(arcs[..|arcs| - 1], gone, v, t);
    }
  }

  /** How many arcs run from v to t. */
  ghost function Parallel(arcs: seq<Arc>, v: nat, t: nat): nat {
    if |arcs| == 0 then 0
    else Parallel(arcs[..|arcs| - 1], v, t) + if arcs[|arcs| - 1] == (v, t) then 1 else 0
  }

  lemma {:induction false} ParallelGrows(arcs: seq<Arc>, n: nat, m: nat, v: nat, t: nat)
    requires n <= m <= |arcs|
    ensures Parallel(arcs[..n], v, t) <= Parallel(arcs[..m], v, t)
    decreases m
  {
    if n < m {
      ParallelGrows(arcs, n, m - 1, v, t);
      assert arcs[..m][..m - 1] == arcs[..m - 1];
    }
  }

  /** A removal order in which no removed vertex still had a remaining predecessor. */
  ghost predicate Topological(arcs: seq<Arc>, order: seq<nat>) {
    && (forall i, j :: 0 <= i < j < |order| ==> order[i] != order[j])
    && (forall i, f :: 0 <= i < |order| && (f, order[i]) in arcs ==> f in order[..i])
  }

  lemma {:induction false} PathFollowsOrder(arcs: seq<Arc>, order: seq<nat>, p: seq<nat>) returns (i: nat, j: nat)
    requires Topological(arcs, order)
    requires IsPath(arcs, p) && p[|p| - 1] in order
    ensures i <= j < |order| && order[i] == p[0] && order[j] == p[|p| - 1]
    ensures |p| >= 2 ==> i < j
    decreases |p|
  {
    var last := |p| - 1;
    j :| 0 <= j < |order| && order[j] == p[last];
    if |p| == 1 {
      i := j;
    } else {
      assert (p[last - 1], p[last]) in arcs;
      var front := p[..last];
      assert front[|front| - 1] in order[..j];
      var a, b := PathFollowsOrder(arcs, order, front);
      i := a;
    }
  }

  /** A complete topological order leaves no room for a cycle. */
  lemma OrderMeansAcyclic(arcs: seq<Arc>, n: nat, order: seq<nat>)
    requires Within(arcs, n) && Topological(arcs, order)
    requires forall v: nat :: v < n ==> v in order
    ensures !Cyclic(arcs)
  {
    if p :| IsPath(arcs, p) && |p| >= 2 && p[0] == p[|p| - 1] {
      assert (p[|p| - 2], p[|p| - 1]) in arcs;
      var i, j := PathFollowsOrder(arcs, order, p);
      assert false;
    }
  }

  /** Every remaining vertex has a remaining predecessor, so a walk backwards never ends. */
  lemma {:induction false} BackwardWalk(arcs: seq<Arc>, gone: set<nat>, n: nat, v: nat, steps: nat) returns (p: seq<nat>)
    requires Within(arcs, n) && v < n && v !in gone
    requires forall t: nat :: t < n && t !in gone ==> InDegree(arcs, gone, t) > 0
    ensures |p| == steps + 1 && IsPath(arcs, p)
    ensures forall k :: 0 <= k < |p| ==> p[k] < n && p[k] !in gone
  {
    if steps == 0 {
      p := [v];
    } else {
      var q := BackwardWalk(arcs, gone, n, v, steps - 1);
      var f := PredecessorExists(arcs, gone, q[0]);
      p := [f] + q;
      forall k | 0 <= k < |p| - 1 ensures (p[k], p[k + 1]) in arcs {
        if k > 0 {
          assert p[k] == q[k - 1] && p[k + 1] == q[k];
        }
      }
    }
  }

  /** When no remaining vertex has in-degree zero, the remaining graph holds a cycle. */
  lemma StuckMeansCyclic(arcs: seq<Arc>, gone: set<nat>, n: nat, v: nat)
    requires Within(arcs, n) && v < n && v !in gone
    requires forall t: nat :: t < n && t !in gone ==> InDegree(arcs, gone, t) > 0
    ensures Cyclic(arcs)
  {
    var p := BackwardWalk(arcs, gone, n, v, n);
    var i, j := Pigeonhole(p, n);
    var c := p[i..j + 1];
    assert c[0] == c[|c| - 1];
    forall k | 0 <= k < |c| - 1 ensures (c[k], c[k + 1]) in arcs {
      assert c[k] == p[i + k] && c[k + 1] == p[i + k + 1];
    }
    assert IsPath(arcs, c);
  }
}
