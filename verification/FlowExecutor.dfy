/** The executor on its fixed arrays, proved against the state machine of FlowExecution. */
module FlowExecutor {
  import opened Common
  import opened FlowGraph
  import opened FlowExecution

  datatype CallFault = StillPending | NothingPending | NoSuchCard | NotATrigger | Invalid(fault: Fault) | QueueFull

  ghost function Marked(marks: seq<bool>): set<nat> {
    set i: nat | i < |marks| && marks[i]
  }

  lemma FewCards(flow: Flow, s: State, started: set<nat>)
    requires Queue(flow, s, started)
    ensures |flow.nodes| <= MAX_NODES
  {
  }

  lemma MarkOne(marks: seq<bool>, i: nat)
    requires i < |marks|
    ensures Marked(marks[i := true]) == Marked(marks) + {i}
  {
  }

  ghost predicate TriggerId(flow: Flow, id: string) {
    var i := NodeIndex(flow.nodes, id);
    i.Some? && KindOf(flow.nodes[i.value]) == Trigger
  }

  ghost predicate TriggerIds(flow: Flow, ids: seq<string>) {
    forall k :: 0 <= k < |ids| ==> TriggerId(flow, ids[k])
  }

  /** The positions of the cards these ids name. */
  function Positions(flow: Flow, ids: seq<string>): seq<nat> {
    if |ids| == 0 then []
    else
      var last := NodeIndex(flow.nodes, ids[|ids| - 1]);
      Positions(flow, ids[..|ids| - 1]) + if last.Some? then [last.value] else []
  }

  lemma {:induction false} PositionsAreStarts(flow: Flow, ids: seq<string>)
    requires TriggerIds(flow, ids)
    ensures Starts(flow, Positions(flow, ids))
  {
    if |ids| > 0 {
      PositionsAreStarts(flow, ids[..|ids| - 1]);
      assert TriggerId(flow, ids[|ids| - 1]);
    }
  }

  lemma BeginNext(flow: Flow, ids: seq<string>, k: nat)
    requires k < |ids| && TriggerIds(flow, ids[..k]) && TriggerId(flow, ids[k])
    ensures TriggerIds(flow, ids[..k + 1])
    ensures var h, t := Begin(flow, Positions(flow, ids[..k])), NodeIndex(flow.nodes, ids[k]).value;
      Begin(flow, Positions(flow, ids[..k + 1])) == if t in h.state.visited then h else StartOne(flow, h, t)
  {
    assert ids[..k + 1][..k] == ids[..k];
    var before, t := Positions(flow, ids[..k]), NodeIndex(flow.nodes, ids[k]).value;
    assert (before + [t])[..|before|] == before;
  }

  class Execution {
    const pending: array<nat>
    const visited: array<bool>
    var head: nat
    var tail: nat
    var waiting: Option<nat>
    ghost var history: History

    ghost predicate Shape()
      reads this
    {
      pending.Length == MAX_NODES && visited.Length == MAX_NODES && tail <= MAX_NODES
    }

    ghost function View(): State
      requires Shape()
      reads this, pending, visited
    {
      State(pending[..tail], head, Marked(visited[..]), waiting)
    }

    /** The arrays hold the state the history speaks about. */
    ghost predicate Valid()
      reads this, pending, visited
    {
      Shape() && history.state == View()
    }

    constructor ()
      ensures Shape() && View() == IDLE && history == History(IDLE, {}, {}, [])
      ensures fresh(pending) && fresh(visited)
    {
      pending := new nat[MAX_NODES](_ => 0);
      visited := new bool[MAX_NODES](_ => false);
      head, tail, waiting := 0, 0, None;
      history := History(IDLE, {}, {}, []);
      new;
      assert Marked(visited[..]) == {};
    }

    /** Validates the flow, then starts each matched trigger once. */
    static method StartMany(flow: Flow, ids: seq<string>) returns (r: Result<Execution, CallFault>)
      ensures r.Ok? <==> ValidFlow(flow) && TriggerIds(flow, ids)
      ensures r.Ok? ==> fresh(r.value) && fresh(r.value.pending) && fresh(r.value.visited)
      ensures r.Ok? ==> r.value.Valid() && Inv(flow, r.value.history) && r.value.history == Begin(flow, Positions(flow, ids))
      ensures r.Err? ==> !r.error.QueueFull?
    {
      var verdict := Validate(flow);
      if verdict.Refused? {
        return Err(Invalid(verdict.fault));
      }
      WellFormedLinks(flow);
      var out := new Execution();
      BeginKeepsInv(flow, []);
      var fault := out.StartAll(flow, ids);
      if fault.Some? {
        return Err(fault.value);
      }
      return Ok(out);
    }

    method StartAll(flow: Flow, ids: seq<string>) returns (r: Option<CallFault>)
      requires Valid() && Inv(flow, history) && waiting.None? && history == Begin(flow, [])
      modifies this, pending, visited
      ensures r.None? <==> TriggerIds(flow, ids)
      ensures r.None? ==> Valid() && Inv(flow, history) && history == Begin(flow, Positions(flow, ids))
      ensures r.Some? ==> !r.value.QueueFull?
    {
      for k := 0 to |ids|
        invariant Valid() && Inv(flow, history) && waiting.None? && history.delivered == []
        invariant TriggerIds(flow, ids[..k]) && history == Begin(flow, Positions(flow, ids[..k]))
      {
        r := StartId(flow, ids[k]);
        if r.Some? {
          return;
        }
        BeginNext(flow, ids, k);
      }
      assert ids[..|ids|] == ids;
      return None;
    }

    method StartId(flow: Flow, id: string) returns (r: Option<CallFault>)
      requires Valid() && Inv(flow, history) && waiting.None? && history.delivered == []
      modifies this, pending, visited
      ensures Valid() && Inv(flow, history) && waiting.None? && history.delivered == []
      ensures r.None? <==> TriggerId(flow, id)
      ensures r.Some? ==> history == old(history) && !r.value.QueueFull?
      ensures r.None? ==>
        var t := NodeIndex(flow.nodes, id).value;
        history == if t in old(history).state.visited then old(history) else StartOne(flow, old(history), t)
    {
      var index := NodeIndex(flow.nodes, id);
      if index.None? {
        return Some(NoSuchCard);
      }
      if KindOf(flow.nodes[index.value]) != Trigger {
        return Some(NotATrigger);
      }
      if !visited[index.value] {
        StartTrigger(flow, index.value);
      }
      return None;
    }

    method StartTrigger(flow: Flow, t: nat)
      requires Valid() && Inv(flow, history) && waiting.None? && history.delivered == []
      requires t < |flow.nodes| && KindOf(flow.nodes[t]) == Trigger && !visited[t]
      modifies this, pending, visited
      ensures Valid() && Inv(flow, history) && history == StartOne(flow, old(history), t)
      ensures waiting.None? && history.delivered == []
    {
      StartKeepsSettled(flow, history, t);
      StartKeepsInv(flow, history, t);
      ghost var started := history.started + {t};
      waiting := Some(t);
      var fault := Finish(flow, true, started);
      history := StartOne(flow, history, t);
    }

    /** Hands out one card; the previous one must have reported back first. */
    method NextCard(flow: Flow) returns (r: Result<Option<nat>, CallFault>)
      requires Valid() && Inv(flow, history)
      modifies this
      ensures Valid() && history == Apply(flow, old(history), Next)
      ensures r.Err? <==> old(waiting).Some?
      ensures r.Ok? ==> (r.value.None? <==> old(head) == old(tail))
      ensures r.Ok? && r.value.Some? ==> history.delivered == old(history).delivered + [r.value.value]
      ensures r.Ok? && r.value.None? ==> history == old(history)
    {
      if waiting.Some? {
        return Err(StillPending);
      }
      if head == tail {
        return Ok(None);
      }
      history := Apply(flow, history, Next);
      var index := pending[head];
      head := head + 1;
      waiting := Some(index);
      return Ok(Some(index));
    }

    /** A failed action ends its own branch only. */
    method SkipCard(flow: Flow) returns (r: Option<CallFault>)
      requires Valid() && Inv(flow, history)
      modifies this, visited
      ensures Valid() && history == Apply(flow, old(history), Skip)
      ensures r.None? <==> old(waiting).Some?
    {
      if waiting.None? {
        return Some(NothingPending);
      }
      history := Apply(flow, history, Skip);
      var index := waiting.value;
      waiting := None;
      MarkOne(visited[..], index);
      ghost var marks := visited[..];
      visited[index] := true;
      assert visited[..] == marks[index := true];
      return None;
    }

    /** A condition that does not pass ends its own branch; a shared successor runs once. */
    method CompleteCard(flow: Flow, passed: bool) returns (r: Option<CallFault>)
      requires Valid() && Inv(flow, history)
      modifies this, pending, visited
      ensures Valid() && history == Apply(flow, old(history), Complete(passed))
      ensures r.None? <==> old(waiting).Some?
    {
      if waiting.None? {
        return Some(NothingPending);
      }
      assert View().visited + {waiting.value} == View().visited;
      r := Finish(flow, passed, history.started);
      history := Apply(flow, history, Complete(passed));
    }

    /** The common tail of completing a card and of starting a trigger. */
    method Finish(flow: Flow, passed: bool, ghost started: set<nat>) returns (r: Option<CallFault>)
      requires Shape() && waiting.Some? && waiting.value < |flow.nodes|
      requires Queue(flow, View().(waiting := None, visited := View().visited + {waiting.value}), started)
      modifies this`waiting, this`tail, pending, visited
      ensures Shape() && View() == Finished(flow, old(View()), passed)
      ensures r.None?
    {
      hide Queue, NodeIndex, KindOf;
      var index := waiting.value;
      FewCards(flow, View().(waiting := None, visited := View().visited + {index}), started);
      waiting := None;
      MarkOne(visited[..], index);
      ghost var marks := visited[..];
      visited[index] := true;
      assert visited[..] == marks[index := true];
      ghost var settled := View();
      var card := flow.nodes[index];
      var inverted := card.step.Some? && card.step.value.inverted;
      if KindOf(card) == Condition && passed == inverted {
        return None;
      }
      for k := 0 to |flow.edges|
        invariant Shape() && View() == Spread(flow, index, k, settled)
      {
        SpreadKeepsQueue(flow, index, k, settled, started);
        if flow.edges[k].from == card.id {
          r := Visit(flow, index, k, started);
        }
      }
      return None;
    }

    /** One connection leaving the completed card. */
    method Visit(flow: Flow, index: nat, k: nat, ghost started: set<nat>) returns (r: Option<CallFault>)
      requires Shape() && Leaves(flow, index, k) && Queue(flow, View(), started)
      modifies this`tail, pending, visited
      ensures Shape() && Target(flow, k).Some? && r.None?
      ensures var to := Target(flow, k).value;
        View() == if to in old(View()).visited then old(View())
          else old(View()).(pending := old(View()).pending + [to], visited := old(View()).visited + {to})
    {
      SpreadOne(flow, index, k, View(), started);
      var to := NodeIndex(flow.nodes, flow.edges[k].to);
      if to.None? {
        return Some(NoSuchCard);
      }
      if !visited[to.value] {
        RoomLeft(flow, View(), started, to.value);
        if tail >= pending.Length {
          return Some(QueueFull);
        }
        Push(to.value);
      }
      return None;
    }

    method Push(to: nat)
      requires Shape() && tail < MAX_NODES && to < MAX_NODES
      modifies this`tail, pending, visited
      ensures Shape()
      ensures View() == old(View()).(pending := old(View()).pending + [to], visited := old(View()).visited + {to})
    {
      MarkOne(visited[..], to);
      ghost var marks := visited[..];
      pending[tail] := to;
      tail := tail + 1;
      visited[to] := true;
      assert visited[..] == marks[to := true];
    }
  }
}
