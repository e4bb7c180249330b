/** Whether a flow has a trigger from which some action can be reached at all. */
module FlowRunnable {
  import opened Common
  import opened Digraph
  import opened FlowGraph

  datatype Answer = Runnable | TooManyCards | AddTrigger | AddAction | Connect

  ghost predicate IsKind(flow: Flow, v: nat, kind: Kind) {
    v < |flow.nodes| && KindOf(flow.nodes[v]) == kind
  }

  ghost predicate HasKind(flow: Flow, kind: Kind) {
    exists v :: IsKind(flow, v, kind)
  }

  /** A walk along the connections that starts at some trigger. */
  ghost predicate TriggerPath(flow: Flow, p: seq<nat>) {
    IsPath(Graph(flow), p) && IsKind(flow, p[0], Trigger)
  }

  ghost predicate ActionReachable(flow: Flow) {
    exists p :: TriggerPath(flow, p) && IsKind(flow, p[|p| - 1], Action)
  }

  // ---------- marks ----------

  ghost predicate Marks(flow: Flow, marks: seq<bool>) {
    |marks| == MAX_NODES && |flow.nodes| <= MAX_NODES
  }

  /** Every mark is backed by a walk from a trigger. */
  ghost predicate Sound(flow: Flow, marks: seq<bool>)
    requires Marks(flow, marks)
  {
    forall v: nat :: v < |flow.nodes| && marks[v] ==> exists p :: TriggerPath(flow, p) && p[|p| - 1] == v
  }

  /** Every walk of at most `length` vertices from a trigger ends at a marked card. */
  ghost predicate Covers(flow: Flow, marks: seq<bool>, length: nat)
    requires Marks(flow, marks)
  {
    forall p :: TriggerPath(flow, p) && |p| <= length ==>
      p[|p| - 1] < |flow.nodes| && marks[p[|p| - 1]]
  }

  ghost predicate Followed(flow: Flow, arcs: seq<Arc>, before: seq<bool>, after: seq<bool>)
    requires Marks(flow, before) && Marks(flow, after)
  {
    && (forall v :: 0 <= v < MAX_NODES && before[v] ==> after[v])
    && (forall k :: 0 <= k < |arcs| && arcs[k].0 < MAX_NODES && before[arcs[k].0] ==>
      arcs[k].1 < MAX_NODES && after[arcs[k].1])
  }

  lemma SoundStep(flow: Flow, marks: seq<bool>, f: nat, t: nat)
    requires Marks(flow, marks) && Sound(flow, marks) && (f, t) in Graph(flow)
    requires f < |flow.nodes| && t < |flow.nodes| && marks[f]
    ensures Sound(flow, marks[t := true])
  {
    var p :| TriggerPath(flow, p) && p[|p| - 1] == f;
    var q := p + [t];
    assert IsPath(Graph(flow), q) by {
      forall k | 0 <= k < |q| - 1 ensures (q[k], q[k + 1]) in Graph(flow) {
        if k < |p| - 1 {
          assert (p[k], p[k + 1]) in Graph(flow);
        }
      }
    }
    assert TriggerPath(flow, q) && q[|q| - 1] == t;
  }

  lemma CoverStep(flow: Flow, before: seq<bool>, after: seq<bool>, length: nat)
    requires Marks(flow, before) && Marks(flow, after) && length > 0
    requires Covers(flow, before, length) && Followed(flow, Graph(flow), before, after)
    ensures Covers(flow, after, length + 1)
  {
    ArcsWithin(flow.nodes, flow.edges);
    forall p | TriggerPath(flow, p) && |p| <= length + 1
      ensures p[|p| - 1] < |flow.nodes| && after[p[|p| - 1]]
    {
      if |p| == length + 1 {
        var front := p[..length];
        assert TriggerPath(flow, front);
        assert (p[length - 1], p[length]) in Graph(flow);
      } else {
        assert Covers(flow, before, length);
      }
    }
  }

  /** Cutting out a loop: any walk can be replaced by one visiting at most n vertices. */
  lemma {:induction false} Shorten(flow: Flow, p: seq<nat>) returns (q: seq<nat>)
    requires TriggerPath(flow, p)
    ensures TriggerPath(flow, q) && |q| <= |flow.nodes| && q[|q| - 1] == p[|p| - 1]
    decreases |p|
  {
    if |p| <= |flow.nodes| {
      q := p;
    } else {
      PathWithin(flow, p);
      var i, j := Pigeonhole(p, |flow.nodes|);
      var shorter := p[..i] + p[j..];
      forall k | 0 <= k < |shorter| - 1 ensures (shorter[k], shorter[k + 1]) in Graph(flow) {
        var m := if k < i then k else k - i + j;
        assert shorter[k] == p[m] && shorter[k + 1] == p[m + 1];
      }
      assert shorter[0] == p[0];
      q := Shorten(flow, shorter);
    }
  }

  lemma PathWithin(flow: Flow, p: seq<nat>)
    requires TriggerPath(flow, p)
    ensures forall k :: 0 <= k < |p| ==> p[k] < |flow.nodes|
  {
    ArcsWithin(flow.nodes, flow.edges);
    forall k | 0 <= k < |p| ensures p[k] < |flow.nodes| {
      if k > 0 {
        assert (p[k - 1], p[k - 1 + 1]) in Graph(flow);
      }
    }
  }

  // ---------- the question ----------

  /** n rounds over the connections suffice for n cards. */
  method IsRunnable(flow: Flow) returns (r: Answer)
    ensures r == Runnable <==> |flow.nodes| <= MAX_NODES && ActionReachable(flow)
    ensures r == TooManyCards <==> |flow.nodes| > MAX_NODES
    ensures r == AddTrigger <==> |flow.nodes| <= MAX_NODES && !HasKind(flow, Trigger)
    ensures r == AddAction <==>
      |flow.nodes| <= MAX_NODES && HasKind(flow, Trigger) && !HasKind(flow, Action)
  {
    var nodes := flow.nodes;
    if |nodes| > MAX_NODES {
      return TooManyCards;
    }
    if !exists v :: 0 <= v < |nodes| && KindOf(nodes[v]) == Trigger {
      return AddTrigger;
    }
    assert exists v :: IsKind(flow, v, Trigger) by {
      var v :| 0 <= v < |nodes| && KindOf(nodes[v]) == Trigger;
      assert IsKind(flow, v, Trigger);
    }
    if !exists v :: 0 <= v < |nodes| && KindOf(nodes[v]) == Action {
      return AddAction;
    }
    assert exists v :: IsKind(flow, v, Action) by {
      var v :| 0 <= v < |nodes| && KindOf(nodes[v]) == Action;
      assert IsKind(flow, v, Action);
    }
    var reachable := MarkReachable(flow);
    if exists v :: 0 <= v < |nodes| && KindOf(nodes[v]) == Action && reachable[v] {
      var v :| 0 <= v < |nodes| && KindOf(nodes[v]) == Action && reachable[v];
      assert IsKind(flow, v, Action);
      return Runnable;
    }
    return Connect;
  }

  method MarkReachable(flow: Flow) returns (marks: seq<bool>)
    requires |flow.nodes| <= MAX_NODES
    ensures Marks(flow, marks)
    ensures forall v: nat :: v < |flow.nodes| ==>
      (marks[v] <==> exists p :: TriggerPath(flow, p) && p[|p| - 1] == v)
  {
    var nodes := flow.nodes;
    var reachable := new bool[MAX_NODES](_ => false);
    for i := 0 to |nodes|
      invariant forall v :: 0 <= v < MAX_NODES ==> (reachable[v] <==> v < i && IsKind(flow, v, Trigger))
    {
      reachable[i] := KindOf(nodes[i]) == Trigger;
    }
    StartMarks(flow, reachable[..]);
    for round := 0 to |nodes|
      invariant Sound(flow, reachable[..]) && Covers(flow, reachable[..], round + 1)
    {
      ghost var before := reachable[..];
      Relax(flow, reachable);
      CoverStep(flow, before, reachable[..], round + 1);
    }
    marks := reachable[..];
    forall p | TriggerPath(flow, p) ensures p[|p| - 1] < |nodes| && marks[p[|p| - 1]] {
      var q := Shorten(flow, p);
      assert Covers(flow, marks, |nodes| + 1);
    }
  }

  lemma StartMarks(flow: Flow, marks: seq<bool>)
    requires Marks(flow, marks)
    requires forall v: nat :: v < MAX_NODES ==> (marks[v] <==> IsKind(flow, v, Trigger))
    ensures Sound(flow, marks) && Covers(flow, marks, 1)
  {
    forall v: nat | v < |flow.nodes| && marks[v] ensures exists p :: TriggerPath(flow, p) && p[|p| - 1] == v {
      var p := [v];
      assert TriggerPath(flow, p) && p[|p| - 1] == v;
    }
  }

  /** Following connection k keeps the marks sound and extends what has been followed. */
  lemma RelaxStep(flow: Flow, k: nat, before: seq<bool>, marks: seq<bool>, after: seq<bool>)
    requires k < |flow.edges| && Marks(flow, before) && Marks(flow, marks) && Marks(flow, after)
    requires Sound(flow, marks) && Followed(flow, Arcs(flow.nodes, flow.edges[..k]), before, marks)
    requires
      var f, t := NodeIndex(flow.nodes, flow.edges[k].from), NodeIndex(flow.nodes, flow.edges[k].to);
      after == if f.Some? && t.Some? && marks[f.value] then marks[t.value := true] else marks
    ensures Sound(flow, after) && Followed(flow, Arcs(flow.nodes, flow.edges[..k + 1]), before, after)
  {
    var f, t := NodeIndex(flow.nodes, flow.edges[k].from), NodeIndex(flow.nodes, flow.edges[k].to);
    if f.Some? && t.Some? && marks[f.value] {
      ArcsMeaning(flow.nodes, flow.edges, f.value, t.value);
      SoundStep(flow, marks, f.value, t.value);
    }
    FollowStep(flow, k, before, marks, after);
  }

  lemma FollowStep(flow: Flow, k: nat, before: seq<bool>, marks: seq<bool>, after: seq<bool>)
    requires k < |flow.edges| && Marks(flow, before) && Marks(flow, marks) && Marks(flow, after)
    requires Followed(flow, Arcs(flow.nodes, flow.edges[..k]), before, marks)
    requires
      var f, t := NodeIndex(flow.nodes, flow.edges[k].from), NodeIndex(flow.nodes, flow.edges[k].to);
      after == if f.Some? && t.Some? && marks[f.value] then marks[t.value := true] else marks
    ensures Followed(flow, Arcs(flow.nodes, flow.edges[..k + 1]), before, after)
  {
    ArcsPrefix(flow.nodes, flow.edges, k);
    var shorter, longer := Arcs(flow.nodes, flow.edges[..k]), Arcs(flow.nodes, flow.edges[..k + 1]);
    forall m | 0 <= m < |longer| && longer[m].0 < MAX_NODES && before[longer[m].0]
      ensures longer[m].1 < MAX_NODES && after[longer[m].1]
    {
      if m < |shorter| {
        assert longer[m] == shorter[m];
      }
    }
  }

  /** One pass over all connections; unresolved ones are ignored. */
  method Relax(flow: Flow, reachable: array<bool>)
    requires |flow.nodes| <= MAX_NODES == reachable.Length && Sound(flow, reachable[..])
    modifies reachable
    ensures Sound(flow, reachable[..])
    ensures Followed(flow, Graph(flow), old(reachable[..]), reachable[..])
  {
    var nodes, edges := flow.nodes, flow.edges;
    ghost var before := reachable[..];
    for k := 0 to |edges|
      invariant Sound(flow, reachable[..])
      invariant Followed(flow, Arcs(nodes, edges[..k]), before, reachable[..])
    {
      var from, to := NodeIndex(nodes, edges[k].from), NodeIndex(nodes, edges[k].to);
      ghost var marks := reachable[..];
      if from.Some? && to.Some? && reachable[from.value] {
        reachable[to.value] := true;
        assert reachable[..] == marks[to.value := true];
      }
      RelaxStep(flow, k, before, marks, reachable[..]);
    }
    assert edges[..|edges|] == edges;
  }
}
