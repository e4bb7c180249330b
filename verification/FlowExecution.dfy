/**
 * Executing a flow: a queue of card positions that grows as callbacks report back. The executor is a
 * state machine here, and the lemmas state what a whole run delivers.
 */
module FlowExecution {
  import opened Common
  import opened Digraph
  import opened FlowGraph

  datatype State = State(pending: seq<nat>, head: nat, visited: set<nat>, waiting: Option<nat>)

  /** A state with what happened so far: triggers started, cards delivered, cards that let their successors run. */
  datatype History = History(state: State, started: set<nat>, unlocked: set<nat>, delivered: seq<nat>)

  datatype Event = Next | Complete(passed: bool) | Skip

  const IDLE := State([], 0, {}, None)

  // ---------- the state machine ----------

  /** A condition lets its successors run when its answer differs from "inverted"; other cards always do. */
  predicate Opens(card: Card, passed: bool) {
    !(KindOf(card) == Condition && passed == (card.step.Some? && card.step.value.inverted))
  }

  predicate Leaves(flow: Flow, card: nat, k: nat) {
    card < |flow.nodes| && k < |flow.edges| && flow.edges[k].from == flow.nodes[card].id
  }

  function Target(flow: Flow, k: nat): Option<nat>
    requires k < |flow.edges|
  {
    NodeIndex(flow.nodes, flow.edges[k].to)
  }

  /** Queue the unvisited targets of the first k connections that leave the card, in order. */
  function Spread(flow: Flow, card: nat, k: nat, s: State): State
    requires card < |flow.nodes| && k <= |flow.edges|
  {
    if k == 0 then s
    else
      var before := Spread(flow, card, k - 1, s);
      var to := Target(flow, k - 1);
      if Leaves(flow, card, k - 1) && to.Some? && to.value !in before.visited
      then before.(pending := before.pending + [to.value], visited := before.visited + {to.value})
      else before
  }

  function Finished(flow: Flow, s: State, passed: bool): State
    requires s.waiting.Some?
  {
    var card := s.waiting.value;
    var settled := s.(waiting := None, visited := s.visited + {card});
    if card < |flow.nodes| && Opens(flow.nodes[card], passed) then Spread(flow, card, |flow.edges|, settled) else settled
  }

  function Begin(flow: Flow, starts: seq<nat>): History {
    if |starts| == 0 then History(IDLE, {}, {}, [])
    else
      var h, t := Begin(flow, starts[..|starts| - 1]), starts[|starts| - 1];
      if t in h.state.visited then h else StartOne(flow, h, t)
  }

  /** A trigger counts as completed the moment it starts. */
  function StartOne(flow: Flow, h: History, t: nat): History {
    History(Finished(flow, h.state.(waiting := Some(t)), true), h.started + {t}, h.unlocked + {t}, h.delivered)
  }

  /** One call on the executor; a call that is refused changes nothing. */
  function Apply(flow: Flow, h: History, e: Event): History {
    var s := h.state;
    match e
    case Next =>
      if s.waiting.Some? || s.head >= |s.pending| then h
      else h.(state := s.(head := s.head + 1, waiting := Some(s.pending[s.head])),
              delivered := h.delivered + [s.pending[s.head]])
    case Complete(passed) =>
      if s.waiting.None? then h
      else h.(state := Finished(flow, s, passed),
              unlocked := if s.waiting.value < |flow.nodes| && Opens(flow.nodes[s.waiting.value], passed)
                          then h.unlocked + {s.waiting.value} else h.unlocked)
    case Skip =>
      if s.waiting.None? then h
      else h.(state := s.(waiting := None, visited := s.visited + {s.waiting.value}))
  }

  // ---------- what every state satisfies ----------

  /** v hangs on a path from a started trigger along which every card before v let its successors run. */
  ghost predicate Reached(flow: Flow, started: set<nat>, unlocked: set<nat>, v: nat) {
    exists p :: OpenPath(flow, started, unlocked, p, v)
  }

  ghost predicate OpenPath(flow: Flow, started: set<nat>, unlocked: set<nat>, p: seq<nat>, v: nat) {
    && |p| >= 2 && PathFromTo(Graph(flow), p, p[0], v) && p[0] in started
    && forall k :: 0 <= k < |p| - 1 ==> p[k] in unlocked
  }

  /** What the executor needs of an accepted flow. */
  ghost predicate Links(flow: Flow) {
    && |flow.nodes| <= MAX_NODES
    && (forall k: nat, card: nat :: Leaves(flow, card, k) ==>
      Target(flow, k).Some? && (card, Target(flow, k).value) in Graph(flow))
    && (forall i, j :: (i, j) in Graph(flow) ==>
      && i < |flow.nodes| && j < |flow.nodes| && KindOf(flow.nodes[j]) != Trigger
      && exists k: nat :: Leaves(flow, i, k) && Target(flow, k) == Some(j))
  }

  lemma WellFormedLinks(flow: Flow)
    requires WellFormed(flow)
    ensures Links(flow)
  {
    forall k: nat, card: nat | Leaves(flow, card, k)
      ensures Target(flow, k).Some? && (card, Target(flow, k).value) in Graph(flow)
    {
      LeavingIsArc(flow, card, k);
    }
    forall i, j | (i, j) in Graph(flow)
      ensures i < |flow.nodes| && j < |flow.nodes| && KindOf(flow.nodes[j]) != Trigger
      ensures exists k: nat :: Leaves(flow, i, k) && Target(flow, k) == Some(j)
    {
      TriggersHaveNoPredecessor(flow, i, j);
      var k := ArcIsLeaving(flow, i, j);
    }
  }

  lemma LeavingIsArc(flow: Flow, card: nat, k: nat)
    requires CardsOk(flow.nodes) && EdgesOk(flow.nodes, flow.edges) && Leaves(flow, card, k)
    ensures Target(flow, k).Some? && (card, Target(flow, k).value) in Graph(flow)
  {
    assert EdgeOk(flow.nodes, flow.edges[k]);
    assert NodeIndex(flow.nodes, flow.edges[k].from) == Some(card);
    ArcsMeaning(flow.nodes, flow.edges, card, Target(flow, k).value);
  }

  lemma ArcIsLeaving(flow: Flow, i: nat, j: nat) returns (k: nat)
    requires (i, j) in Graph(flow)
    ensures Leaves(flow, i, k) && Target(flow, k) == Some(j)
  {
    ArcsMeaning(flow.nodes, flow.edges, i, j);
    k :| k < |flow.edges| && NodeIndex(flow.nodes, flow.edges[k].from) == Some(i)
      && NodeIndex(flow.nodes, flow.edges[k].to) == Some(j);
  }

  ghost predicate Distinct(s: seq<nat>) {
    forall i, j :: 0 <= i < j < |s| ==> s[i] != s[j]
  }

  /** The queue holds each non-trigger card at most once, and visited means queued or started. */
  ghost predicate Queue(flow: Flow, s: State, started: set<nat>) {
    && Links(flow)
    && s.head <= |s.pending| && Distinct(s.pending)
    && (forall v :: v in started ==> v < |flow.nodes| && KindOf(flow.nodes[v]) == Trigger)
    && (forall v :: v in s.pending ==> v < |flow.nodes| && KindOf(flow.nodes[v]) != Trigger)
    && s.visited == started + Elements(s.pending)
  }

  ghost predicate Settled(flow: Flow, h: History) {
    && Queue(flow, h.state, h.started)
    && h.delivered == h.state.pending[..h.state.head]
    && h.unlocked <= h.started + Elements(h.delivered)
    && (forall u, v :: u in h.unlocked && (u, v) in Graph(flow) ==> v in h.state.visited)
    && (forall v :: v in h.state.pending ==> Reached(flow, h.started, h.unlocked, v))
  }

  ghost predicate Inv(flow: Flow, h: History) {
    && Settled(flow, h) && h.started <= h.unlocked
    && (h.state.waiting.Some? ==>
      h.state.head > 0 && h.state.waiting.value == h.state.pending[h.state.head - 1]
      && h.state.waiting.value !in h.unlocked)
  }

  /** The 128 entries of the queue always suffice. */
  lemma RoomLeft(flow: Flow, s: State, started: set<nat>, v: nat)
    requires Queue(flow, s, started) && v < |flow.nodes| && v !in s.visited
    ensures |s.pending| < |flow.nodes| <= MAX_NODES
  {
    DistinctSize(s.pending);
    BoundedSetSize(Elements(s.pending) + {v}, |flow.nodes|);
  }

  /** One connection of Spread. */
  lemma SpreadOne(flow: Flow, card: nat, k: nat, s: State, started: set<nat>)
    requires Queue(flow, s, started) && Leaves(flow, card, k)
    ensures Target(flow, k).Some?
    ensures var to := Target(flow, k).value;
      to !in s.visited ==>
        && Queue(flow, s.(pending := s.pending + [to], visited := s.visited + {to}), started)
        && (card, to) in Graph(flow)
  {
    var to := Target(flow, k).value;
    assert (card, to) in Graph(flow);
    if to !in s.visited {
      assert Elements(s.pending + [to]) == Elements(s.pending) + {to};
      assert to !in s.pending;
    }
  }

  /** r extends s only at the back of the queue, by successors of the card. */
  ghost predicate Extends(flow: Flow, card: nat, s: State, r: State) {
    && s.pending <= r.pending && r.head == s.head && r.waiting == s.waiting && s.visited <= r.visited
    && (forall v :: v in r.pending && v !in s.pending ==> (card, v) in Graph(flow))
  }

  lemma {:induction false} SpreadKeepsQueue(flow: Flow, card: nat, k: nat, s: State, started: set<nat>)
    requires Queue(flow, s, started) && card < |flow.nodes| && k <= |flow.edges|
    ensures Queue(flow, Spread(flow, card, k, s), started) && Extends(flow, card, s, Spread(flow, card, k, s))
  {
    hide Queue, Graph, NodeIndex;
    if k > 0 {
      SpreadKeepsQueue(flow, card, k - 1, s, started);
      if Leaves(flow, card, k - 1) {
        SpreadOne(flow, card, k - 1, Spread(flow, card, k - 1, s), started);
      }
    }
  }

  lemma {:induction false} SpreadVisitsTargets(flow: Flow, card: nat, k: nat, s: State, m: nat)
    requires card < |flow.nodes| && m < k <= |flow.edges|
    requires Leaves(flow, card, m) && Target(flow, m).Some?
    ensures Target(flow, m).value in Spread(flow, card, k, s).visited
  {
    if m < k - 1 {
      SpreadVisitsTargets(flow, card, k - 1, s, m);
    }
  }

  lemma SpreadVisitsSuccessors(flow: Flow, card: nat, s: State, v: nat)
    requires Links(flow) && card < |flow.nodes| && (card, v) in Graph(flow)
    ensures v in Spread(flow, card, |flow.edges|, s).visited
  {
    var m :| Leaves(flow, card, m) && Target(flow, m) == Some(v);
    SpreadVisitsTargets(flow, card, |flow.edges|, s, m);
  }

  /** A connection that has been looked at: its target, and the card it leaves. */
  ghost predicate TargetOf(flow: Flow, card: nat, k: nat, v: nat) {
    Leaves(flow, card, k) && Target(flow, k) == Some(v)
  }

  lemma {:induction false} SpreadGrows(flow: Flow, card: nat, k: nat, s: State, v: nat)
    requires card < |flow.nodes| && k <= |flow.edges| && v !in s.visited && v !in s.pending
    ensures var r := Spread(flow, card, k, s);
      && s.pending <= r.pending
      && (v in r.pending <==> v in r.visited) && (v in r.pending <==> exists i: nat :: i < k && TargetOf(flow, card, i, v))
  {
    hide NodeIndex;
    if k > 0 {
      SpreadGrows(flow, card, k - 1, s, v);
      var before := Spread(flow, card, k - 1, s);
      assert TargetOf(flow, card, k - 1, v) <==> Leaves(flow, card, k - 1) && Target(flow, k - 1) == Some(v);
    }
  }

  lemma {:induction false} SpreadExtends(flow: Flow, card: nat, i: nat, k: nat, s: State)
    requires card < |flow.nodes| && i <= k <= |flow.edges|
    ensures Spread(flow, card, i, s).pending <= Spread(flow, card, k, s).pending
  {
    if i < k {
      SpreadExtends(flow, card, i, k - 1, s);
    }
  }

  /**
   * A completed card queues its successors in the order of the canvas's connections: of two new ones, the one
   * that is reached by an earlier connection comes first.
   */
  lemma SuccessorsInOrder(flow: Flow, card: nat, s: State, i: nat, v: nat, w: nat) returns (p: nat, q: nat)
    requires card < |flow.nodes| && TargetOf(flow, card, i, v) && v !in s.visited && v !in s.pending
    requires w !in s.visited && w !in s.pending && forall k: nat :: k <= i ==> !TargetOf(flow, card, k, w)
    requires exists j: nat :: i < j && TargetOf(flow, card, j, w)
    ensures var r := Spread(flow, card, |flow.edges|, s).pending; p < q < |r| && r[p] == v && r[q] == w
  {
    hide Spread, TargetOf;
    var n := |flow.edges|;
    assert i < n by {
      TargetInside(flow, card, i, v);
    }
    var j: nat :| i < j && TargetOf(flow, card, j, w);
    TargetInside(flow, card, j, w);
    SpreadGrows(flow, card, i + 1, s, v);
    SpreadGrows(flow, card, i + 1, s, w);
    SpreadGrows(flow, card, n, s, w);
    SpreadExtends(flow, card, i + 1, n, s);
    var early, r := Spread(flow, card, i + 1, s).pending, Spread(flow, card, n, s).pending;
    p :| 0 <= p < |early| && early[p] == v;
    q :| 0 <= q < |r| && r[q] == w;
    assert w !in early && forall k :: 0 <= k < |early| ==> r[k] == early[k];
  }

  lemma TargetInside(flow: Flow, card: nat, k: nat, v: nat)
    requires TargetOf(flow, card, k, v)
    ensures k < |flow.edges|
  {
  }

  lemma ReachedMonotone(flow: Flow, started: set<nat>, unlocked: set<nat>, started': set<nat>, unlocked': set<nat>, v: nat)
    requires started <= started' && unlocked <= unlocked' && Reached(flow, started, unlocked, v)
    ensures Reached(flow, started', unlocked', v)
  {
    var p :| OpenPath(flow, started, unlocked, p, v);
    assert OpenPath(flow, started', unlocked', p, v);
  }

  lemma ReachedStep(flow: Flow, started: set<nat>, unlocked: set<nat>, u: nat, v: nat)
    requires u in unlocked && (u, v) in Graph(flow)
    requires u in started || Reached(flow, started, unlocked, u)
    ensures Reached(flow, started, unlocked, v)
  {
    var p: seq<nat> := [u];
    if u !in started {
      p :| OpenPath(flow, started, unlocked, p, u);
    }
    var q := p + [v];
    forall k | 0 <= k < |q| - 1 ensures (q[k], q[k + 1]) in Graph(flow) && q[k] in unlocked {
      if k < |p| - 1 {
        assert (p[k], p[k + 1]) in Graph(flow);
      }
    }
    assert OpenPath(flow, started, unlocked, q, v);
  }

  /** Letting the successors of a started or delivered card run keeps the invariant. */
  lemma OpenKeepsSettled(flow: Flow, h: History, card: nat, h': History)
    requires card < |flow.nodes|
    requires Settled(flow, h) && card in h.started + Elements(h.delivered)
    requires h' == h.(state := Spread(flow, card, |flow.edges|, h.state), unlocked := h.unlocked + {card})
    ensures Settled(flow, h')
  {
    SpreadKeepsQueue(flow, card, |flow.edges|, h.state, h.started);
    forall u, v | u in h'.unlocked && (u, v) in Graph(flow) ensures v in h'.state.visited {
      if u == card {
        SpreadVisitsSuccessors(flow, card, h.state, v);
      }
    }
    forall v | v in h'.state.pending ensures Reached(flow, h'.started, h'.unlocked, v) {
      OpenedReaches(flow, h, card, h', v);
    }
  }

  lemma OpenedReaches(flow: Flow, h: History, card: nat, h': History, v: nat)
    requires card < |flow.nodes| && Settled(flow, h)
    requires card in h.started + Elements(h.delivered)
    requires h' == h.(state := Spread(flow, card, |flow.edges|, h.state), unlocked := h.unlocked + {card})
    requires v in h'.state.pending
    ensures Reached(flow, h'.started, h'.unlocked, v)
  {
    SpreadKeepsQueue(flow, card, |flow.edges|, h.state, h.started);
    if v in h.state.pending {
      ReachedMonotone(flow, h.started, h.unlocked, h'.started, h'.unlocked, v);
    } else {
      if card !in h.started {
        assert card in h.state.pending;
        ReachedMonotone(flow, h.started, h.unlocked, h'.started, h'.unlocked, card);
      }
      ReachedStep(flow, h'.started, h'.unlocked, card, v);
    }
  }

  // ---------- whole runs ----------

  ghost predicate Starts(flow: Flow, starts: seq<nat>) {
    forall k :: 0 <= k < |starts| ==> starts[k] < |flow.nodes| && KindOf(flow.nodes[starts[k]]) == Trigger
  }

  lemma {:induction false} BeginKeepsInv(flow: Flow, starts: seq<nat>)
    requires Links(flow) && Starts(flow, starts)
    ensures Inv(flow, Begin(flow, starts))
    ensures Begin(flow, starts).started == Elements(starts)
    ensures Begin(flow, starts).state.waiting.None? && Begin(flow, starts).delivered == []
  {
    hide Links, KindOf, Graph;
    if |starts| > 0 {
      var front, t := starts[..|starts| - 1], starts[|starts| - 1];
      BeginKeepsInv(flow, front);
      var h := Begin(flow, front);
      assert starts == front + [t];
      assert Elements(starts) == Elements(front) + {t};
      if t !in h.state.visited {
        StartKeepsInv(flow, h, t);
      } else {
        assert t !in h.state.pending;
      }
    }
  }

  lemma StartKeepsInv(flow: Flow, h: History, t: nat)
    requires Inv(flow, h) && h.state.waiting.None? && h.delivered == []
    requires t < |flow.nodes| && KindOf(flow.nodes[t]) == Trigger && t !in h.state.visited
    ensures Inv(flow, StartOne(flow, h, t))
    ensures StartOne(flow, h, t).state.waiting.None?
  {
    var s := h.state.(visited := h.state.visited + {t});
    assert h.state.(waiting := Some(t)).(waiting := None, visited := h.state.visited + {t}) == s;
    var marked := h.(state := s, started := h.started + {t});
    StartKeepsSettled(flow, h, t);
    OpenKeepsSettled(flow, marked, t, StartOne(flow, h, t));
    SpreadKeepsQueue(flow, t, |flow.edges|, s, marked.started);
  }

  lemma StartKeepsSettled(flow: Flow, h: History, t: nat)
    requires Inv(flow, h) && h.state.waiting.None?
    requires t < |flow.nodes| && KindOf(flow.nodes[t]) == Trigger
    ensures Settled(flow, h.(state := h.state.(visited := h.state.visited + {t}), started := h.started + {t}))
  {
    forall v | v in h.state.pending ensures Reached(flow, h.started + {t}, h.unlocked, v) {
      ReachedMonotone(flow, h.started, h.unlocked, h.started + {t}, h.unlocked, v);
    }
  }

  lemma ApplyKeepsInv(flow: Flow, h: History, e: Event)
    requires Inv(flow, h)
    ensures Inv(flow, Apply(flow, h, e))
  {
    hide Links, KindOf, Graph;
    var s := h.state;
    match e
    case Next =>
      if s.waiting.None? && s.head < |s.pending| {
        assert s.pending[..s.head + 1] == s.pending[..s.head] + [s.pending[s.head]];
        NextNotUnlocked(flow, h);
      }
    case Skip =>
      if s.waiting.Some? {
        assert s.visited + {s.waiting.value} == s.visited;
      }
    case Complete(passed) =>
      if s.waiting.Some? {
        var card := s.waiting.value;
        assert s.visited + {card} == s.visited;
        assert card == h.delivered[s.head - 1];
        if Opens(flow.nodes[card], passed) {
          OpenKeepsSettled(flow, h.(state := s.(waiting := None)), card, Apply(flow, h, e));
          SpreadKeepsQueue(flow, card, |flow.edges|, s.(waiting := None), h.started);
        }
      }
  }

  lemma NextNotUnlocked(flow: Flow, h: History)
    requires Inv(flow, h) && h.state.waiting.None? && h.state.head < |h.state.pending|
    ensures h.state.pending[h.state.head] !in h.unlocked
  {
    assert h.state.pending[h.state.head] !in h.delivered;
    assert h.state.pending[h.state.head] in h.state.pending;
  }

  /** The history after any sequence of calls. */
  function After(flow: Flow, starts: seq<nat>, events: seq<Event>): History {
    if |events| == 0 then Begin(flow, starts)
    else Apply(flow, After(flow, starts, events[..|events| - 1]), events[|events| - 1])
  }

  lemma {:induction false} AfterKeepsInv(flow: Flow, starts: seq<nat>, events: seq<Event>)
    requires Links(flow) && Starts(flow, starts)
    ensures Inv(flow, After(flow, starts, events))
    ensures After(flow, starts, events).started == Elements(starts)
    decreases |events|
  {
    if |events| == 0 {
      BeginKeepsInv(flow, starts);
    } else {
      AfterKeepsInv(flow, starts, events[..|events| - 1]);
      ApplyKeepsInv(flow, After(flow, starts, events[..|events| - 1]), events[|events| - 1]);
    }
  }

  /** In every run each card is delivered at most once, triggers never, and the queue fits its array. */
  lemma DeliveredOnce(flow: Flow, starts: seq<nat>, events: seq<Event>)
    requires Links(flow) && Starts(flow, starts)
    ensures var h := After(flow, starts, events);
      && Distinct(h.delivered) && |h.state.pending| <= MAX_NODES
      && forall v :: v in h.delivered ==> v < |flow.nodes| && KindOf(flow.nodes[v]) != Trigger
  {
    AfterKeepsInv(flow, starts, events);
    QueueFits(flow, After(flow, starts, events));
  }

  lemma PendingSmall(flow: Flow, s: State, started: set<nat>)
    requires Queue(flow, s, started)
    ensures |Elements(s.pending)| <= |flow.nodes|
  {
    hide KindOf, Graph;
    BoundedSetSize(Elements(s.pending), |flow.nodes|);
  }

  lemma QueueFits(flow: Flow, h: History)
    requires Inv(flow, h)
    ensures Distinct(h.delivered) && |h.state.pending| <= |flow.nodes| <= MAX_NODES
    ensures forall v :: v in h.delivered ==> v < |flow.nodes| && KindOf(flow.nodes[v]) != Trigger
  {
    hide KindOf, Graph, Elements;
    DistinctSize(h.state.pending);
    PendingSmall(flow, h.state, h.started);
    forall v | v in h.delivered ensures v in h.state.pending {
    }
  }

  /**
   * When a run is dry, the cards delivered are exactly those on a path from a started trigger whose
   * earlier cards all completed and let their successors run.
   */
  lemma DryRunDeliversReachable(flow: Flow, starts: seq<nat>, events: seq<Event>, v: nat)
    requires Links(flow) && Starts(flow, starts)
    requires var h := After(flow, starts, events); h.state.waiting.None? && h.state.head == |h.state.pending|
    ensures var h := After(flow, starts, events);
      v in h.delivered <==> Reached(flow, h.started, h.unlocked, v)
  {
    AfterKeepsInv(flow, starts, events);
    DryMeansReachable(flow, After(flow, starts, events), v);
  }

  lemma DryMeansReachable(flow: Flow, h: History, v: nat)
    requires Inv(flow, h) && h.state.waiting.None? && h.state.head == |h.state.pending|
    ensures v in h.delivered <==> Reached(flow, h.started, h.unlocked, v)
  {
    assert h.delivered == h.state.pending;
    if Reached(flow, h.started, h.unlocked, v) {
      var p :| OpenPath(flow, h.started, h.unlocked, p, v);
      var u := p[|p| - 2];
      assert (u, v) in Graph(flow);
      assert u in h.unlocked;
      assert v !in h.started;
    }
  }

  /** Call k of the run is the completion by which v let its successors run. */
  ghost predicate PassedAt(flow: Flow, starts: seq<nat>, events: seq<Event>, k: nat, v: nat) {
    k < |events| && PassingCompletion(flow, After(flow, starts, events[..k]), events[k], v)
  }

  lemma PassedAtPrefix(flow: Flow, starts: seq<nat>, events: seq<Event>, k: nat, v: nat)
    requires k < |events| - 1
    ensures PassedAt(flow, starts, events, k, v) <==> PassedAt(flow, starts, events[..|events| - 1], k, v)
  {
    assert events[..|events| - 1][..k] == events[..k];
  }

  /** Which cards unlocked their successors is decided by the completions alone. */
  lemma {:induction false} UnlockedByCompletion(flow: Flow, starts: seq<nat>, events: seq<Event>, v: nat)
    requires Links(flow) && Starts(flow, starts)
    ensures v in After(flow, starts, events).unlocked <==>
      v in starts || exists k: nat :: PassedAt(flow, starts, events, k, v)
    decreases |events|
  {
    if |events| == 0 {
      BeginUnlocksStarts(flow, starts);
    } else {
      var n := |events| - 1;
      var front := events[..n];
      UnlockedByCompletion(flow, starts, front, v);
      UnlockStep(flow, After(flow, starts, front), events[n], v);
      assert PassedAt(flow, starts, events, n, v) <==> PassingCompletion(flow, After(flow, starts, front), events[n], v);
      forall k: nat | k < n
        ensures PassedAt(flow, starts, events, k, v) <==> PassedAt(flow, starts, front, k, v)
      {
        PassedAtPrefix(flow, starts, events, k, v);
      }
    }
  }

  lemma UnlockStep(flow: Flow, h: History, e: Event, v: nat)
    ensures v in Apply(flow, h, e).unlocked <==> v in h.unlocked || PassingCompletion(flow, h, e, v)
  {
  }

  ghost predicate PassingCompletion(flow: Flow, h: History, e: Event, v: nat) {
    e.Complete? && h.state.waiting == Some(v) && v < |flow.nodes| && Opens(flow.nodes[v], e.passed)
  }

  lemma {:induction false} BeginUnlocksStarts(flow: Flow, starts: seq<nat>)
    requires Links(flow) && Starts(flow, starts)
    ensures Begin(flow, starts).unlocked == Begin(flow, starts).started == Elements(starts)
  {
    BeginKeepsInv(flow, starts);
    if |starts| > 0 {
      var front, t := starts[..|starts| - 1], starts[|starts| - 1];
      BeginUnlocksStarts(flow, front);
      BeginKeepsInv(flow, front);
      assert Elements(starts) == Elements(front) + {t};
    }
  }
}
