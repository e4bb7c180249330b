/**
 * Flow canvases: cards, connections, the check run before a flow is stored or executed, and the
 * question whether a flow can do anything at all.
 */
module FlowGraph {
  import opened Common
  import opened Digraph

  const MAX_NODES: nat := 128
  const MAX_EDGES: nat := 256
  const MAX_NAME_BYTES: nat := 160
  const MAX_POSITION: real := 1000000.0

  datatype Kind = Trigger | Condition | Action | NoKind

  datatype Step = Step(cardType: string, appId: string, cardId: string, inverted: bool)

  datatype Coordinate = NotANumber | NotFinite | Finite(value: real)

  datatype Card = Card(id: string, step: Option<Step>, x: Option<Coordinate>, y: Option<Coordinate>)

  datatype Edge = Edge(from: string, to: string)

  datatype Flow = Flow(name: string, nodes: seq<Card>, edges: seq<Edge>)

  /** One constructor per message the check can answer with. */
  datatype Fault =
    | BadName | TooLarge
    | CardIdRequired | CardTypeInvalid | StepRequired | StepIncomplete | BadPosition | DuplicateCard
    | MissingCard | SelfConnection | TriggerTarget | DuplicateConnection
    | CycleFound | BadDegree

  datatype Verdict = Accepted | Refused(fault: Fault)

  // ---------- cards ----------

  /** Older documents hold "device-trigger", which still reads as a trigger. */
  function CardKind(cardType: string): Kind {
    if cardType == "trigger" || cardType == "device-trigger" then Trigger
    else if cardType == "condition" then Condition
    else if cardType == "action" then Action
    else NoKind
  }

  function KindOf(card: Card): Kind {
    match card.step
    case Some(step) => CardKind(step.cardType)
    case None => NoKind
  }

  /** The position of the first card carrying this id. */
  function NodeIndex(nodes: seq<Card>, id: string): (r: Option<nat>)
    ensures r.Some? ==> r.value < |nodes| && nodes[r.value].id == id
    ensures r.Some? ==> forall j :: 0 <= j < r.value ==> nodes[j].id != id
    ensures r.None? ==> forall j :: 0 <= j < |nodes| ==> nodes[j].id != id
  {
    if |nodes| == 0 then None
    else
      match NodeIndex(nodes[..|nodes| - 1], id)
      case Some(i) => Some(i)
      case None => if nodes[|nodes| - 1].id == id then Some(|nodes| - 1) else None
  }

  predicate IsSpace(c: char) {
    var u := c as int;
    9 <= u <= 13 || u == 32 || u == 0x85 || u == 0xA0 || u == 0x1680 || 0x2000 <= u <= 0x200A
    || u == 0x2028 || u == 0x2029 || u == 0x202F || u == 0x205F || u == 0x3000
  }

  function Trim(s: string): string
    decreases |s|
  {
    if |s| == 0 then s
    else if IsSpace(s[0]) then Trim(s[1..])
    else if IsSpace(s[|s| - 1]) then Trim(s[..|s| - 1])
    else s
  }

  ghost predicate Blank(s: string) {
    forall k :: 0 <= k < |s| ==> IsSpace(s[k])
  }

  /** Trimming takes away white space on both sides, all of it, and nothing else. */
  lemma {:induction false} TrimCuts(s: string) returns (before: string, after: string)
    ensures s == before + Trim(s) + after && Blank(before) && Blank(after)
    ensures Trim(s) != "" ==> !IsSpace(Trim(s)[0]) && !IsSpace(Trim(s)[|Trim(s)| - 1])
    decreases |s|
  {
    before, after := "", "";
    if |s| > 0 && IsSpace(s[0]) {
      before, after := TrimCuts(s[1..]);
      before := [s[0]] + before;
    } else if |s| > 0 && IsSpace(s[|s| - 1]) {
      before, after := TrimCuts(s[..|s| - 1]);
      after := after + [s[|s| - 1]];
    }
  }

  function Utf8Size(s: string): nat {
    if |s| == 0 then 0
    else
      var u := s[0] as int;
      (if u < 0x80 then 1 else if u < 0x800 then 2 else if u < 0x10000 then 3 else 4) + Utf8Size(s[1..])
  }

  predicate NameOk(name: string) {
    0 < |Trim(name)| && Utf8Size(Trim(name)) <= MAX_NAME_BYTES
  }

  predicate CoordinateOk(c: Option<Coordinate>) {
    c.Some? ==> c.value.Finite? && -MAX_POSITION <= c.value.value <= MAX_POSITION
  }

  function CardFault(card: Card): Verdict {
    if Trim(card.id) == "" then Refused(CardIdRequired)
    else if KindOf(card) == NoKind then Refused(CardTypeInvalid)
    else if card.step.None? then Refused(StepRequired)
    else if card.step.value.appId == "" || card.step.value.cardId == "" then Refused(StepIncomplete)
    else if !CoordinateOk(card.x) || !CoordinateOk(card.y) then Refused(BadPosition)
    else Accepted
  }

  // ---------- the flow as a graph ----------

  /** The connections whose two ends both name a card, as arcs between card positions. */
  function Arcs(nodes: seq<Card>, edges: seq<Edge>): seq<Arc> {
    if |edges| == 0 then []
    else
      var last := edges[|edges| - 1];
      var f, t := NodeIndex(nodes, last.from), NodeIndex(nodes, last.to);
      Arcs(nodes, edges[..|edges| - 1]) + if f.Some? && t.Some? then [(f.value, t.value)] else []
  }

  function Graph(flow: Flow): seq<Arc> {
    Arcs(flow.nodes, flow.edges)
  }

  lemma {:induction false} ArcsWithin(nodes: seq<Card>, edges: seq<Edge>)
    ensures Within(Arcs(nodes, edges), |nodes|)
  {
    if |edges| > 0 {
      ArcsWithin(nodes, edges[..|edges| - 1]);
    }
  }

  ghost predicate Resolves(nodes: seq<Card>, edge: Edge) {
    NodeIndex(nodes, edge.from).Some? && NodeIndex(nodes, edge.to).Some?
  }

  /** With every end resolved, arc k is connection k. */
  lemma {:induction false} ArcsAlign(nodes: seq<Card>, edges: seq<Edge>)
    requires forall k :: 0 <= k < |edges| ==> Resolves(nodes, edges[k])
    ensures |Arcs(nodes, edges)| == |edges|
    ensures forall k :: 0 <= k < |edges| ==>
      Resolves(nodes, edges[k])
      && Arcs(nodes, edges)[k] == (NodeIndex(nodes, edges[k].from).value, NodeIndex(nodes, edges[k].to).value)
  {
    if |edges| > 0 {
      ArcsAlign(nodes, edges[..|edges| - 1]);
    }
  }

  /** The arcs are exactly the pairs of cards joined by some connection. */
  lemma {:induction false} ArcsMeaning(nodes: seq<Card>, edges: seq<Edge>, i: nat, j: nat)
    ensures (i, j) in Arcs(nodes, edges) <==>
      exists k :: 0 <= k < |edges|
        && NodeIndex(nodes, edges[k].from) == Some(i) && NodeIndex(nodes, edges[k].to) == Some(j)
  {
    hide NodeIndex;
    if |edges| > 0 {
      var front, last := edges[..|edges| - 1], edges[|edges| - 1];
      ArcsMeaning(nodes, front, i, j);
      if (i, j) in Arcs(nodes, front) {
        var k :| 0 <= k < |front|
          && NodeIndex(nodes, front[k].from) == Some(i) && NodeIndex(nodes, front[k].to) == Some(j);
        assert edges[k] == front[k];
      }
      if exists k ::
        0 <= k < |edges| && NodeIndex(nodes, edges[k].from) == Some(i) && NodeIndex(nodes, edges[k].to) == Some(j)
      {
        var k :| 0 <= k < |edges|
          && NodeIndex(nodes, edges[k].from) == Some(i) && NodeIndex(nodes, edges[k].to) == Some(j);
        if k < |front| {
          assert front[k] == edges[k];
        }
      }
    }
  }

  /** The list of arcs of a prefix is a prefix of the list of arcs. */
  lemma ArcsPrefix(nodes: seq<Card>, edges: seq<Edge>, n: nat)
    requires n < |edges|
    ensures var f, t := NodeIndex(nodes, edges[n].from), NodeIndex(nodes, edges[n].to);
      Arcs(nodes, edges[..n + 1])
      == Arcs(nodes, edges[..n]) + if f.Some? && t.Some? then [(f.value, t.value)] else []
  {
    assert edges[..n + 1][..n] == edges[..n];
  }

  // ---------- what the check demands ----------

  ghost predicate UniqueIds(nodes: seq<Card>) {
    forall i, j :: 0 <= i < j < |nodes| ==> nodes[i].id != nodes[j].id
  }

  ghost predicate CardsOk(nodes: seq<Card>) {
    && (forall i :: 0 <= i < |nodes| ==> CardFault(nodes[i]) == Accepted)
    && UniqueIds(nodes)
  }

  ghost predicate EdgeOk(nodes: seq<Card>, edge: Edge) {
    && Resolves(nodes, edge)
    && NodeIndex(nodes, edge.from) != NodeIndex(nodes, edge.to)
    && KindOf(nodes[NodeIndex(nodes, edge.to).value]) != Trigger
  }

  ghost predicate EdgesOk(nodes: seq<Card>, edges: seq<Edge>) {
    && (forall k :: 0 <= k < |edges| ==> EdgeOk(nodes, edges[k]))
    && (forall i, j :: 0 <= i < j < |edges| ==> edges[i] != edges[j])
  }

  /** Everything the check demands of a flow short of being free of cycles. */
  ghost predicate WellFormed(flow: Flow) {
    && NameOk(flow.name)
    && |flow.nodes| <= MAX_NODES && |flow.edges| <= MAX_EDGES
    && CardsOk(flow.nodes) && EdgesOk(flow.nodes, flow.edges)
  }

  ghost predicate ValidFlow(flow: Flow) {
    WellFormed(flow) && !Cyclic(Graph(flow))
  }

  /** In a well-formed flow nothing leads into a trigger. */
  lemma TriggersHaveNoPredecessor(flow: Flow, i: nat, j: nat)
    requires WellFormed(flow) && (i, j) in Graph(flow)
    ensures i < |flow.nodes| && j < |flow.nodes| && KindOf(flow.nodes[j]) != Trigger
  {
    ArcsMeaning(flow.nodes, flow.edges, i, j);
  }

  // ---------- the check ----------

  method Validate(flow: Flow) returns (r: Verdict)
    // accepted exactly when well formed and free of directed cycles
    ensures r == Accepted <==> ValidFlow(flow)
    ensures r == Refused(CycleFound) <==> WellFormed(flow) && Cyclic(Graph(flow))
    // the degree bookkeeping never underflows
    ensures r != Refused(BadDegree)
    ensures r == Refused(BadName) <==> !NameOk(flow.name)
    ensures r == Refused(TooLarge) <==>
      NameOk(flow.name) && (|flow.nodes| > MAX_NODES || |flow.edges| > MAX_EDGES)
  {
    if !NameOk(flow.name) {
      return Refused(BadName);
    }
    if |flow.nodes| > MAX_NODES || |flow.edges| > MAX_EDGES {
      return Refused(TooLarge);
    }
    r := CheckCards(flow.nodes);
    if r.Refused? {
      return;
    }
    var incoming := new nat[MAX_NODES](_ => 0);
    r := CountIncoming(flow, incoming);
    if r.Refused? {
      return;
    }
    r := Peel(flow, incoming);
  }

  method CheckCards(nodes: seq<Card>) returns (r: Verdict)
    ensures r == Accepted <==> CardsOk(nodes)
    ensures r.Refused? ==> r.fault == DuplicateCard || exists i :: 0 <= i < |nodes| && CardFault(nodes[i]) == r
  {
    for i := 0 to |nodes|
      invariant CardsOk(nodes[..i])
    {
      var fault := CardFault(nodes[i]);
      if fault.Refused? {
        return fault;
      }
      if exists j :: 0 <= j < i && nodes[j].id == nodes[i].id {
        return Refused(DuplicateCard);
      }
      assert nodes[..i + 1] == nodes[..i] + [nodes[i]];
    }
    assert nodes[..|nodes|] == nodes;
    return Accepted;
  }

  /** The checks on connection k, given the connections before it. */
  function EdgeFault(nodes: seq<Card>, edges: seq<Edge>, k: nat): Verdict
    requires k < |edges|
  {
    var from, to := NodeIndex(nodes, edges[k].from), NodeIndex(nodes, edges[k].to);
    if from.None? || to.None? then Refused(MissingCard)
    else if from == to then Refused(SelfConnection)
    else if KindOf(nodes[to.value]) == Trigger then Refused(TriggerTarget)
    else if edges[k] in edges[..k] then Refused(DuplicateConnection)
    else Accepted
  }

  lemma EdgesOkStep(nodes: seq<Card>, edges: seq<Edge>, k: nat)
    requires k < |edges| && EdgesOk(nodes, edges[..k])
    ensures EdgeFault(nodes, edges, k) == Accepted <==> EdgesOk(nodes, edges[..k + 1])
  {
    var longer := edges[..k + 1];
    assert longer == edges[..k] + [edges[k]];
    if EdgesOk(nodes, longer) {
      assert EdgeOk(nodes, longer[k]);
    }
  }

  lemma EdgesOkPrefix(nodes: seq<Card>, edges: seq<Edge>, k: nat)
    requires k <= |edges| && EdgesOk(nodes, edges)
    ensures EdgesOk(nodes, edges[..k])
  {
  }

  ghost predicate Counted(arcs: seq<Arc>, gone: set<nat>, incoming: seq<nat>) {
    |incoming| == MAX_NODES && forall t :: 0 <= t < MAX_NODES ==> incoming[t] == InDegree(arcs, gone, t)
  }

  lemma CountOne(arcs: seq<Arc>, incoming: seq<nat>, f: nat, t: nat)
    requires Counted(arcs, {}, incoming) && t < MAX_NODES
    ensures Counted(arcs + [(f, t)], {}, incoming[t := incoming[t] + 1])
  {
    assert (arcs + [(f, t)])[..|arcs|] == arcs;
  }

  /** Resolves every connection and counts how many enter each card. */
  method CountIncoming(flow: Flow, incoming: array<nat>) returns (r: Verdict)
    requires CardsOk(flow.nodes) && |flow.nodes| <= MAX_NODES == incoming.Length
    requires forall t :: 0 <= t < MAX_NODES ==> incoming[t] == 0
    modifies incoming
    ensures r == Accepted <==> EdgesOk(flow.nodes, flow.edges)
    ensures r.Refused? ==> r.fault in {MissingCard, SelfConnection, TriggerTarget, DuplicateConnection}
    ensures r == Accepted ==> Counted(Graph(flow), {}, incoming[..])
  {
    var nodes, edges := flow.nodes, flow.edges;
    for k := 0 to |edges|
      invariant EdgesOk(nodes, edges[..k])
      invariant Counted(Arcs(nodes, edges[..k]), {}, incoming[..])
    {
      r := EdgeFault(nodes, edges, k);
      EdgesOkStep(nodes, edges, k);
      if r.Refused? {
        if EdgesOk(nodes, edges) {
          EdgesOkPrefix(nodes, edges, k + 1);
        }
        return;
      }
      var from, to := NodeIndex(nodes, edges[k].from).value, NodeIndex(nodes, edges[k].to).value;
      ArcsPrefix(nodes, edges, k);
      CountOne(Arcs(nodes, edges[..k]), incoming[..], from, to);
      incoming[to] := incoming[to] + 1;
    }
    assert edges[..|edges|] == edges;
    return Accepted;
  }

  /** The first card with no incoming connection left that has not been taken. */
  method FirstFree(n: nat, incoming: array<nat>, seen: array<bool>) returns (r: Option<nat>)
    requires n <= incoming.Length && n <= seen.Length
    ensures r.Some? ==> r.value < n && incoming[r.value] == 0 && !seen[r.value]
    ensures r.None? ==> forall i :: 0 <= i < n ==> incoming[i] != 0 || seen[i]
  {
    for i := 0 to n
      invariant forall j :: 0 <= j < i ==> incoming[j] != 0 || seen[j]
    {
      if incoming[i] == 0 && !seen[i] {
        return Some(i);
      }
    }
    return None;
  }

  /** The cards taken so far, in order, with the counts that leaves. */
  ghost predicate Peeled(arcs: seq<Arc>, n: nat, order: seq<nat>, seen: seq<bool>, incoming: seq<nat>) {
    && Within(arcs, n) && n <= MAX_NODES == |seen|
    && (forall k :: 0 <= k < |order| ==> order[k] < n)
    && (forall v: nat :: v < MAX_NODES ==> (seen[v] <==> v in order))
    && Topological(arcs, order)
    && Counted(arcs, Elements(order), incoming)
  }

  lemma PeelStuck(arcs: seq<Arc>, n: nat, order: seq<nat>, seen: seq<bool>, incoming: seq<nat>)
    requires Peeled(arcs, n, order, seen, incoming) && |order| < n
    requires forall i :: 0 <= i < n ==> incoming[i] != 0 || seen[i]
    ensures Cyclic(arcs)
  {
    DistinctSize(order);
    var left := MissingVertex(Elements(order), n);
    StuckMeansCyclic(arcs, Elements(order), n, left);
  }

  lemma PeelStep(arcs: seq<Arc>, n: nat, order: seq<nat>, seen: seq<bool>, before: seq<nat>, after: seq<nat>, v: nat)
    requires Peeled(arcs, n, order, seen, before)
    requires v < n && !seen[v] && before[v] == 0
    requires Counted(arcs, Elements(order) + {v}, after)
    ensures Peeled(arcs, n, order + [v], seen[v := true], after)
  {
    ExtendOrder(arcs, order, Elements(order), v);
    assert Elements(order + [v]) == Elements(order) + {v};
  }

  lemma PeelDone(arcs: seq<Arc>, n: nat, order: seq<nat>, seen: seq<bool>, incoming: seq<nat>)
    requires Peeled(arcs, n, order, seen, incoming) && |order| == n
    ensures !Cyclic(arcs)
  {
    DistinctSize(order);
    forall v: nat | v < n ensures v in order {
      if v !in order {
        BoundedSetSize(Elements(order) + {v}, n);
      }
    }
    OrderMeansAcyclic(arcs, n, order);
  }

  /** Takes cards without incoming connections one by one until all are gone or none is free. */
  method Peel(flow: Flow, incoming: array<nat>) returns (r: Verdict)
    requires WellFormed(flow) && incoming.Length == MAX_NODES
    requires Counted(Graph(flow), {}, incoming[..])
    modifies incoming
    ensures r == Accepted <==> !Cyclic(Graph(flow))
    ensures r.Refused? ==> r.fault == CycleFound
  {
    var n := |flow.nodes|;
    ghost var arcs := Graph(flow);
    ArcsWithin(flow.nodes, flow.edges);
    var seen := new bool[MAX_NODES](_ => false);
    ghost var order: seq<nat> := [];
    assert Elements(order) == {};
    for round := 0 to n
      invariant |order| == round && Peeled(arcs, n, order, seen[..], incoming[..])
    {
      var next := FirstFree(n, incoming, seen);
      if next.None? {
        PeelStuck(arcs, n, order, seen[..], incoming[..]);
        return Refused(CycleFound);
      }
      var index := next.value;
      ghost var marks, counts := seen[..], incoming[..];
      seen[index] := true;
      r := Release(flow, index, Elements(order), incoming);
      PeelStep(arcs, n, order, marks, counts, incoming[..], index);
      assert seen[..] == marks[index := true];
      order := order + [index];
    }
    PeelDone(arcs, n, order, seen[..], incoming[..]);
    return Accepted;
  }

  lemma MissingVertex(gone: set<nat>, n: nat) returns (v: nat)
    requires |gone| < n
    ensures v < n && v !in gone
  {
    if forall u: nat :: u < n ==> u in gone {
      AllBelow(gone, n);
      assert false;
    }
    v :| v < n && v !in gone;
  }

  lemma {:induction false} AllBelow(s: set<nat>, n: nat)
    requires forall u: nat :: u < n ==> u in s
    ensures |s| >= n
  {
    if n > 0 {
      AllBelow(s - {n - 1}, n - 1);
    }
  }

  lemma ExtendOrder(arcs: seq<Arc>, order: seq<nat>, gone: set<nat>, v: nat)
    requires Topological(arcs, order) && gone == Elements(order)
    requires v !in order && InDegree(arcs, gone, v) == 0
    ensures Topological(arcs, order + [v])
  {
    var longer := order + [v];
    forall i, f | 0 <= i < |longer| && (f, longer[i]) in arcs ensures f in longer[..i] {
      if i == |order| {
        NoPredecessor(arcs, gone, v, f);
        assert longer[..i] == order;
      } else {
        assert longer[..i] == order[..i];
        assert f in order[..i];
      }
    }
  }

  /** Part way through releasing a card: its first k arcs have been dropped from the counts. */
  ghost predicate Releasing(arcs: seq<Arc>, gone: set<nat>, index: nat, k: nat, incoming: seq<nat>)
    requires k <= |arcs|
  {
    && |incoming| == MAX_NODES
    && forall t :: 0 <= t < MAX_NODES ==>
      incoming[t] + Parallel(arcs[..k], index, t) == InDegree(arcs, gone, t)
  }

  lemma ReleaseSkip(arcs: seq<Arc>, gone: set<nat>, index: nat, k: nat, incoming: seq<nat>)
    requires k < |arcs| && Releasing(arcs, gone, index, k, incoming) && arcs[k].0 != index
    ensures Releasing(arcs, gone, index, k + 1, incoming)
  {
    assert arcs[..k + 1][..k] == arcs[..k];
  }

  lemma ReleaseOne(arcs: seq<Arc>, gone: set<nat>, index: nat, k: nat, incoming: seq<nat>)
    requires k < |arcs| && Releasing(arcs, gone, index, k, incoming)
    requires arcs[k].0 == index && index !in gone && arcs[k].1 < MAX_NODES
    ensures var to := arcs[k].1;
      incoming[to] > 0 && Releasing(arcs, gone, index, k + 1, incoming[to := incoming[to] - 1])
  {
    var to := arcs[k].1;
    assert arcs[..k + 1][..k] == arcs[..k];
    ParallelGrows(arcs, k + 1, |arcs|, index, to);
    assert arcs[..|arcs|] == arcs;
    RemovalLowersDegree(arcs, gone, index, to);
  }

  lemma ReleaseDone(arcs: seq<Arc>, gone: set<nat>, index: nat, incoming: seq<nat>)
    requires Releasing(arcs, gone, index, |arcs|, incoming) && index !in gone
    ensures Counted(arcs, gone + {index}, incoming)
  {
    assert arcs[..|arcs|] == arcs;
    forall t | 0 <= t < MAX_NODES ensures incoming[t] == InDegree(arcs, gone + {index}, t) {
      RemovalLowersDegree(arcs, gone, index, t);
    }
  }

  lemma OwnIndex(flow: Flow, index: nat)
    requires WellFormed(flow) && index < |flow.nodes|
    ensures NodeIndex(flow.nodes, flow.nodes[index].id) == Some(index)
  {
  }

  /** Drops the connections leaving one card from the counts. */
  method Release(flow: Flow, index: nat, ghost gone: set<nat>, incoming: array<nat>) returns (r: Verdict)
    requires WellFormed(flow) && incoming.Length == MAX_NODES
    requires index < |flow.nodes| && index !in gone
    requires Counted(Graph(flow), gone, incoming[..])
    modifies incoming
    ensures r == Accepted
    ensures Counted(Graph(flow), gone + {index}, incoming[..])
  {
    OwnIndex(flow, index);
    hide CardsOk, InDegree, UniqueIds;
    var nodes, edges, id := flow.nodes, flow.edges, flow.nodes[index].id;
    ghost var arcs := Graph(flow);
    ArcsAlign(nodes, edges);
    for k := 0 to |edges|
      invariant Releasing(arcs, gone, index, k, incoming[..])
    {
      assert Resolves(nodes, edges[k]);
      if edges[k].from == id {
        var to := NodeIndex(nodes, edges[k].to).value;
        ReleaseOne(arcs, gone, index, k, incoming[..]);
        if incoming[to] == 0 {
          return Refused(BadDegree);
        }
        incoming[to] := incoming[to] - 1;
      } else {
        ReleaseSkip(arcs, gone, index, k, incoming[..]);
      }
    }
    ReleaseDone(arcs, gone, index, incoming[..]);
    return Accepted;
  }
}
