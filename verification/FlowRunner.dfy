/** The run as the object its owner holds, proved against the state machine of FlowRun. */
module FlowRunner {
  import opened Common
  import opened FlowGraph
  import opened FlowExecution
  import opened FlowExecutor
  import opened FlowRun

  /** The answer a browser gets for a finished run. */
  datatype Summary = Summary(
    success: bool, stopped: bool, conditions: seq<CardResult>, actions: seq<CardResult>, error: string)

  /** The mutable part of a run besides its executor. */
  datatype Progress = Progress(
    wake: Option<nat>, waiting: Option<Step>, conditions: seq<CardResult>, actions: seq<CardResult>,
    blocked: bool, done: bool, error: string,
    filters: seq<(string, Step)>, starts: seq<string>, starting: bool, filtering: Option<string>)

  function AddResult(p: Progress, result: CardResult): Progress {
    if IsCondition(result.step) then p.(conditions := p.conditions + [result])
    else p.(actions := p.actions + [result])
  }

  /** The state machine's view of a run whose results were recorded in this order. */
  ghost function Machine(h: History, p: Progress, log: seq<CardResult>): RunState {
    RunState(h, p.wake, p.waiting, log, p.blocked, p.done, p.error, p.filters, p.starts, p.starting, p.filtering)
  }

  ghost predicate Lists(p: Progress, log: seq<CardResult>) {
    p.conditions == Select(log, true) && p.actions == Select(log, false)
  }

  lemma AddKeepsLists(p: Progress, log: seq<CardResult>, result: CardResult)
    requires Lists(p, log)
    ensures Lists(AddResult(p, result), log + [result])
  {
    SelectSnoc(log, result);
  }

  /** What the event that woke the controller means for one trigger card. */
  datatype Selection = Ignore | Matched | AskApp | Fault

  /** The ids of all trigger cards, in canvas order. */
  function TriggerList(nodes: seq<Card>): seq<string> {
    if |nodes| == 0 then []
    else
      var last := nodes[|nodes| - 1];
      TriggerList(nodes[..|nodes| - 1]) + if KindOf(last) == Trigger then [last.id] else []
  }

  /** The trigger cards for which the event selects this answer. */
  function Selected(nodes: seq<Card>, select: Card -> Selection, wanted: Selection): seq<Card> {
    if |nodes| == 0 then []
    else
      var last := nodes[|nodes| - 1];
      Selected(nodes[..|nodes| - 1], select, wanted)
      + if KindOf(last) == Trigger && select(last) == wanted then [last] else []
  }

  /** These are the ids of the triggers that match by themselves, in canvas order. */
  ghost predicate MatchedIds(nodes: seq<Card>, select: Card -> Selection, ids: seq<string>) {
    |ids| == |Selected(nodes, select, Matched)| && forall k :: 0 <= k < |ids| ==> ids[k] == Selected(nodes, select, Matched)[k].id
  }

  /** These are the triggers whose app must be asked, with their steps, in canvas order. */
  ghost predicate FilterCards(nodes: seq<Card>, select: Card -> Selection, filters: seq<(string, Step)>) {
    && |filters| == |Selected(nodes, select, AskApp)|
    && forall k :: 0 <= k < |filters| ==>
      filters[k].0 == Selected(nodes, select, AskApp)[k].id && Selected(nodes, select, AskApp)[k].step == Some(filters[k].1)
  }

  ghost predicate SomethingSelected(nodes: seq<Card>, select: Card -> Selection) {
    Selected(nodes, select, Matched) != [] || Selected(nodes, select, AskApp) != []
  }

  /** Every trigger card is found again under its own id. */
  ghost predicate OwnIds(flow: Flow) {
    forall i :: 0 <= i < |flow.nodes| && KindOf(flow.nodes[i]) == Trigger ==>
      flow.nodes[i].step.Some? && TriggerId(flow, flow.nodes[i].id)
  }

  lemma ValidOwnIds(flow: Flow)
    requires ValidFlow(flow)
    ensures OwnIds(flow)
  {
    hide NodeIndex, UniqueIds, EdgesOk;
    forall i | 0 <= i < |flow.nodes| ensures NodeIndex(flow.nodes, flow.nodes[i].id) == Some(i) {
      OwnIndex(flow, i);
    }
  }

  lemma {:induction false} TriggerListResolves(flow: Flow, n: nat)
    requires OwnIds(flow) && n <= |flow.nodes|
    ensures TriggerIds(flow, TriggerList(flow.nodes[..n])) && |TriggerList(flow.nodes[..n])| <= n
  {
    if n > 0 {
      TriggerListResolves(flow, n - 1);
      assert flow.nodes[..n][..n - 1] == flow.nodes[..n - 1];
    }
  }

  ghost predicate ResolvedTriggers(flow: Flow, cards: seq<Card>) {
    forall k :: 0 <= k < |cards| ==> cards[k].step.Some? && TriggerId(flow, cards[k].id)
  }

  lemma {:induction false} SelectedResolve(flow: Flow, n: nat, select: Card -> Selection)
    requires OwnIds(flow) && n <= |flow.nodes|
    ensures ResolvedTriggers(flow, Selected(flow.nodes[..n], select, Matched))
    ensures ResolvedTriggers(flow, Selected(flow.nodes[..n], select, AskApp))
    ensures |Selected(flow.nodes[..n], select, Matched)| + |Selected(flow.nodes[..n], select, AskApp)| <= n
  {
    hide TriggerId;
    if n > 0 {
      SelectedResolve(flow, n - 1, select);
      assert flow.nodes[..n][..n - 1] == flow.nodes[..n - 1];
    }
  }

  lemma SelectMore(nodes: seq<Card>, i: nat, select: Card -> Selection, matched: seq<string>, filters: seq<(string, Step)>)
    requires i < |nodes| && MatchedIds(nodes[..i], select, matched) && FilterCards(nodes[..i], select, filters)
    requires Selected(nodes[..i], select, Fault) == []
    ensures var card, trigger := nodes[i], KindOf(nodes[i]) == Trigger && nodes[i].step.Some?;
      && MatchedIds(nodes[..i + 1], select, if trigger && select(card) == Matched then matched + [card.id] else matched)
      && FilterCards(nodes[..i + 1], select, if trigger && select(card) == AskApp then filters + [(card.id, card.step.value)] else filters)
      && (Selected(nodes[..i + 1], select, Fault) != [] <==> trigger && select(card) == Fault)
  {
    var front := nodes[..i];
    assert nodes[..i + 1][..i] == front;
    SelectedSnoc(nodes, i, select, Matched);
    SelectedSnoc(nodes, i, select, AskApp);
    SelectedSnoc(nodes, i, select, Fault);
    hide Selected;
  }

  lemma SelectedSnoc(nodes: seq<Card>, i: nat, select: Card -> Selection, wanted: Selection)
    requires i < |nodes|
    ensures Selected(nodes[..i + 1], select, wanted) == Selected(nodes[..i], select, wanted)
      + if KindOf(nodes[i]) == Trigger && select(nodes[i]) == wanted then [nodes[i]] else []
    ensures KindOf(nodes[i]) == Trigger ==> nodes[i].step.Some?
  {
    assert nodes[..i + 1][..i] == nodes[..i];
  }

  lemma {:induction false} SelectedStays(nodes: seq<Card>, n: nat, select: Card -> Selection, wanted: Selection)
    requires n <= |nodes|
    ensures |Selected(nodes[..n], select, wanted)| <= |Selected(nodes, select, wanted)|
    decreases |nodes|
  {
    if n < |nodes| {
      SelectedStays(nodes[..|nodes| - 1], n, select, wanted);
      assert nodes[..|nodes| - 1][..n] == nodes[..n];
    } else {
      assert nodes[..n] == nodes;
    }
  }

  lemma ManualRunInv(flow: Flow, starts: seq<string>)
    requires ValidFlow(flow) && TriggerIds(flow, starts)
    ensures RunInv(flow, Fresh(Begin(flow, Positions(flow, starts)), [], [], false))
  {
    WellFormedLinks(flow);
    ValidHasSteps(flow);
    PositionsAreStarts(flow, starts);
    BeginKeepsInv(flow, Positions(flow, starts));
    FreshRunInv(flow, Begin(flow, Positions(flow, starts)), [], [], false);
  }

  lemma FreshRunInv(flow: Flow, h: History, starts: seq<string>, filters: seq<(string, Step)>, starting: bool)
    requires HasSteps(flow) && Inv(flow, h) && h.delivered == [] && h.state.waiting.None?
    requires TriggerIds(flow, starts) && forall k :: 0 <= k < |filters| ==> TriggerId(flow, filters[k].0)
    requires |starts| + |filters| <= MAX_NODES
    ensures RunInv(flow, Fresh(h, starts, filters, starting))
  {
  }

  class Run {
    const definition: Flow
    const deadline: nat
    var execution: Execution
    var at: Progress
    ghost var log: seq<CardResult>

    ghost predicate Valid()
      reads this, execution, execution.pending, execution.visited
    {
      execution.Valid() && Lists(at, log)
    }

    ghost function View(): RunState
      reads this, execution
    {
      Machine(execution.history, at, log)
    }

    constructor Init(definition: Flow, deadline: nat, execution: Execution, starts: seq<string>, filters: seq<(string, Step)>, starting: bool)
      requires execution.Valid()
      ensures Valid() && View() == Fresh(execution.history, starts, filters, starting)
      ensures this.definition == definition && this.deadline == deadline && this.execution == execution
    {
      this.definition, this.deadline, this.execution := definition, deadline, execution;
      at := Progress(None, None, [], [], false, false, "", filters, starts, starting, None);
      log := [];
    }

    /** The test button starts every trigger of the flow, enabled or not. */
    static method Manual(definition: Flow, now: nat) returns (r: Result<Run, RunFault>)
      ensures r.Ok? <==> ValidFlow(definition) && now + TIMEOUT_MS < U64_LIMIT
      ensures r.Ok? ==> r.value.Valid() && RunInv(definition, r.value.View()) && fresh(r.value)
      ensures r.Ok? ==> r.value.definition == definition && r.value.deadline == now + TIMEOUT_MS
      ensures r.Ok? ==>
        r.value.View() == Fresh(FlowExecution.Begin(definition, Positions(definition, TriggerList(definition.nodes))), [], [], false)
    {
      var starts := [];
      for i := 0 to |definition.nodes|
        invariant starts == TriggerList(definition.nodes[..i])
      {
        assert definition.nodes[..i + 1][..i] == definition.nodes[..i];
        if KindOf(definition.nodes[i]) == Trigger {
          starts := starts + [definition.nodes[i].id];
        }
      }
      assert definition.nodes[..|definition.nodes|] == definition.nodes;
      var begun := Execution.StartMany(definition, starts);
      if ValidFlow(definition) {
        ValidOwnIds(definition);
        TriggerListResolves(definition, |definition.nodes|);
      }
      if begun.Err? {
        return Err(Executor(begun.error));
      }
      if now + TIMEOUT_MS >= U64_LIMIT {
        return Err(ClockOverflow);
      }
      ManualRunInv(definition, starts);
      var run := new Run.Init(definition, now + TIMEOUT_MS, begun.value, [], [], false);
      return Ok(run);
    }

    /** An event starts a run only when it matches some trigger; app triggers are asked first. */
    static method Triggered(definition: Flow, enabled: bool, select: Card -> Selection, now: nat)
      returns (r: Result<Option<Run>, RunFault>)
      ensures r.Ok? && r.value.Some? <==>
        && enabled && Selected(definition.nodes, select, Fault) == [] && SomethingSelected(definition.nodes, select)
        && ValidFlow(definition) && now + TIMEOUT_MS < U64_LIMIT
      ensures r.Ok? && r.value.None? <==>
        !enabled || (Selected(definition.nodes, select, Fault) == [] && !SomethingSelected(definition.nodes, select))
      ensures r.Ok? && r.value.Some? ==>
        var run := r.value.value;
        fresh(run) && run.Valid() && RunInv(definition, run.View())
        && run.definition == definition && run.deadline == now + TIMEOUT_MS
        && run.at.starting && run.at.filtering.None? && run.at.waiting.None? && !run.at.done && run.execution.history.delivered == []
        && MatchedIds(definition.nodes, select, run.at.starts) && FilterCards(definition.nodes, select, run.at.filters)
    {
      hide RunInv, ValidFlow, Lists, Selected;
      if !enabled {
        return Ok(None);
      }
      var chosen := Choose(definition, select);
      if chosen.None? {
        return Err(ArgumentsFailed);
      }
      var (matched, filters) := chosen.value;
      if matched == [] && filters == [] {
        return Ok(None);
      }
      var manual := Manual(definition, now);
      if manual.Err? {
        return Err(manual.error);
      }
      r := Prepare(definition, select, now, matched, filters);
    }

    /** The triggers that match by themselves and those whose app must be asked, in the order of the canvas. */
    static method Choose(definition: Flow, select: Card -> Selection) returns (r: Option<(seq<string>, seq<(string, Step)>)>)
      ensures r.None? <==> Selected(definition.nodes, select, Fault) != []
      ensures r.Some? ==> MatchedIds(definition.nodes, select, r.value.0) && FilterCards(definition.nodes, select, r.value.1)
    {
      var matched: seq<string> := [];
      var filters: seq<(string, Step)> := [];
      for i := 0 to |definition.nodes|
        invariant MatchedIds(definition.nodes[..i], select, matched) && FilterCards(definition.nodes[..i], select, filters)
        invariant Selected(definition.nodes[..i], select, Fault) == []
      {
        hide Selected, MatchedIds, FilterCards;
        var card := definition.nodes[i];
        SelectMore(definition.nodes, i, select, matched, filters);
        if KindOf(card) == Trigger && card.step.Some? {
          match select(card) {
            case Ignore =>
            case Matched => matched := matched + [card.id];
            case AskApp => filters := filters + [(card.id, card.step.value)];
            case Fault =>
              SelectedStays(definition.nodes, i + 1, select, Fault);
              return None;
          }
        }
      }
      assert definition.nodes[..|definition.nodes|] == definition.nodes;
      return Some((matched, filters));
    }

    static method Prepare(definition: Flow, select: Card -> Selection, now: nat, matched: seq<string>, filters: seq<(string, Step)>)
      returns (r: Result<Option<Run>, RunFault>)
      requires ValidFlow(definition) && |matched| + |filters| > 0
      requires MatchedIds(definition.nodes, select, matched) && FilterCards(definition.nodes, select, filters)
      ensures r.Ok? && r.value.Some?
      ensures var run := r.value.value;
        fresh(run) && run.Valid() && RunInv(definition, run.View())
        && run.definition == definition && run.deadline == now + TIMEOUT_MS
        && run.at.starting && run.at.filtering.None? && run.at.waiting.None? && !run.at.done && run.execution.history.delivered == []
        && run.at.starts == matched && run.at.filters == filters
    {
      hide Selected, Settled, CardsOk, EdgesOk, Links;
      WellFormedLinks(definition);
      ValidOwnIds(definition);
      SelectedResolve(definition, |definition.nodes|, select);
      assert definition.nodes[..|definition.nodes|] == definition.nodes;
      var begun := Execution.StartMany(definition, []);
      BeginKeepsInv(definition, []);
      ValidHasSteps(definition);
      FreshRunInv(definition, FlowExecution.Begin(definition, []), matched, filters, true);
      var run := new Run.Init(definition, now + TIMEOUT_MS, begun.value, matched, filters, true);
      return Ok(Some(run));
    }

    /** Appends one result to the list of its kind. */
    method Record(result: CardResult)
      requires Valid()
      modifies this`at, this`log
      ensures Valid() && at == AddResult(old(at), result)
      ensures View() == old(View()).(log := old(View()).log + [result])
    {
      AddKeepsLists(at, log, result);
      at := AddResult(at, result);
      log := log + [result];
    }

    method Stop(message: string)
      requires Valid()
      modifies this`at, this`log
      ensures Valid() && View() == Stopped(old(View()), message)
    {
      if at.done {
        return;
      }
      if at.waiting.Some? {
        Record(CardResult(at.waiting.value, Unfinished));
      }
      End(message);
    }

    method End(message: string)
      requires Valid()
      modifies this`at
      ensures Valid() && View() == old(View()).(error := message, waiting := None, wake := None, done := true)
    {
      at := at.(error := message, waiting := None, wake := None, done := true);
    }

    method Fail(message: string)
      requires Valid() && RunInv(definition, View())
      modifies this`at, this`log, execution, execution.visited
      ensures Valid() && View() == FailStep(definition, old(View()), message)
    {
      if at.done {
        return;
      }
      if at.waiting.None? || at.filtering.Some? || at.waiting.value.cardType != "action" {
        Stop(message);
        return;
      }
      var result := CardResult(at.waiting.value, Failed(message));
      var fault := execution.SkipCard(definition);
      Record(result);
      at := at.(waiting := None, wake := None, error := if at.error == "" then message else at.error);
    }

    /** A callback answers; without one in flight the call is refused and nothing changes. */
    method Complete(answer: Answer, now: nat) returns (fault: Option<RunFault>)
      requires Valid() && RunInv(definition, View())
      modifies this`at, this`log, execution, execution.pending, execution.visited
      ensures Valid() && View() == AnswerStep(definition, deadline, old(View()), answer, now)
      ensures fault.Some? <==> !old(at).done && now < deadline && old(at).filtering.None? && old(at).waiting.None?
    {
      if at.done {
        return None;
      }
      if now >= deadline {
        Stop(TIMED_OUT);
        return None;
      }
      if at.filtering.Some? {
        FilterAnswered(answer);
        return None;
      }
      if at.waiting.None? {
        return Some(NoCallback);
      }
      if IsCondition(at.waiting.value) && answer.Other? {
        Stop(NO_CONDITION_ANSWER);
        return None;
      }
      CardAnswered(answer, now);
      return None;
    }

    /** A trigger filter answered: its trigger joins the starts when it passed. */
    method FilterAnswered(answer: Answer)
      requires Valid() && !at.done && at.filtering.Some?
      modifies this`at, this`log
      ensures Valid()
      ensures var open := old(View()).(filtering := None);
        View() == if answer.Other? then Stopped(open, NO_FILTER_ANSWER)
          else open.(starts := if answer.value then open.starts + [old(at).filtering.value] else open.starts, waiting := None)
    {
      var id := at.filtering.value;
      at := at.(filtering := None);
      if answer.Other? {
        Stop(NO_FILTER_ANSWER);
      } else {
        at := at.(starts := if answer.value then at.starts + [id] else at.starts, waiting := None);
      }
    }

    method CardAnswered(answer: Answer, now: nat)
      requires Valid() && RunInv(definition, View()) && !at.done && now < deadline && at.filtering.None? && at.waiting.Some?
      requires IsCondition(at.waiting.value) ==> answer.Boolean?
      modifies this`at, this`log, execution, execution.pending, execution.visited
      ensures Valid() && View() == AnswerStep(definition, deadline, old(View()), answer, now)
    {
      hide Recorded, FilterPhase, FirstFailure, Blocked, HasSteps, Apply, Settled;
      var step := at.waiting.value;
      var condition := IsCondition(step);
      var raw := if condition then answer.value else true;
      var passed := !condition || raw != step.inverted;
      var refused := execution.CompleteCard(definition, raw);
      Record(CardResult(step, Reported(passed)));
      at := at.(waiting := None, wake := None, blocked := at.blocked || (condition && !passed));
    }

    method FailEffect(message: string) returns (effect: Effect)
      requires Valid() && RunInv(definition, View())
      modifies this`at, this`log, execution, execution.visited
      ensures Valid() && (View(), effect) == Failing(definition, old(View()), message)
    {
      Fail(message);
      return if at.done then Finished else Waiting;
    }

    method Dispatch(step: Step, look: Lookup, now: nat) returns (effect: Effect)
      requires Valid() && RunInv(definition, View()) && at.waiting == Some(step)
      modifies this`at, this`log, execution, execution.pending, execution.visited
      ensures Valid() && (View(), effect) == DispatchStep(definition, deadline, old(View()), look, now)
    {
      if look.argumentsFail.Some? {
        effect := FailEffect(look.argumentsFail.value);
      } else if step.appId != "stulp" {
        effect := Call(step.appId);
      } else if step.cardType == "condition" {
        effect := DispatchCondition(look.condition, now);
      } else {
        effect := DispatchAction(step, look, now);
      }
    }

    method DispatchCondition(condition: Result<bool, string>, now: nat) returns (effect: Effect)
      requires Valid() && RunInv(definition, View())
      modifies this`at, this`log, execution, execution.pending, execution.visited
      ensures Valid()
      ensures (View(), effect) == match condition
        case Ok(b) => (AnswerStep(definition, deadline, old(View()), Boolean(b), now), Waiting)
        case Err(message) => Failing(definition, old(View()), message)
    {
      match condition {
        case Ok(b) =>
          var fault := Complete(Boolean(b), now);
          effect := Waiting;
        case Err(message) =>
          effect := FailEffect(message);
      }
    }

    method DispatchAction(step: Step, look: Lookup, now: nat) returns (effect: Effect)
      requires Valid() && RunInv(definition, View()) && at.waiting == Some(step)
      requires look.argumentsFail.None? && step.appId == "stulp" && !IsCondition(step)
      modifies this`at, this`log, execution, execution.visited
      ensures Valid() && (View(), effect) == DispatchStep(definition, deadline, old(View()), look, now)
    {
      if step.cardId == "delay" {
        if look.delay.Some? && look.delay.value <= MAX_DELAY_MS {
          at := at.(wake := Some(Saturated(now + look.delay.value)));
          effect := Waiting;
        } else {
          effect := FailEffect(BAD_DELAY);
        }
      } else if step.cardId == "notification" {
        effect := Notification;
      } else {
        match look.action {
          case Ok(app) => effect := Call(app);
          case Err(message) => effect := FailEffect(message);
        }
      }
    }

    method Deliver(look: Lookup, now: nat) returns (effect: Effect)
      requires Valid() && RunInv(definition, View()) && !at.done && at.waiting.None? && at.wake.None? && !at.starting
      modifies this`at, this`log, execution, execution.pending, execution.visited
      ensures Valid() && (View(), effect) == DeliverStep(definition, deadline, old(View()), look, now)
    {
      hide DispatchStep, Recorded, FilterPhase, FirstFailure, Blocked, Queue, Reached, HasSteps;
      ghost var before := View();
      var card := execution.NextCard(definition);
      if card.value.None? {
        at := at.(done := true);
        return Finished;
      }
      NextInStep(definition, before);
      at := at.(waiting := definition.nodes[card.value.value].step);
      effect := Dispatch(at.waiting.value, look, now);
    }

    /** At most one card per turn; a delay needs no sleeping thread. */
    method Advance(look: Lookup, now: nat) returns (r: Result<Effect, RunFault>)
      requires ValidFlow(definition) && Valid() && RunInv(definition, View())
      modifies this, execution, execution.pending, execution.visited
      ensures Valid() && (View(), r) == AdvanceStep(definition, deadline, old(View()), look, now)
    {
      hide DeliverStep, AnswerStep, Recorded, HasSteps, FirstFailure, Blocked, Settled, ValidFlow;
      if at.done {
        return Ok(Finished);
      }
      if now >= deadline {
        Stop(TIMED_OUT);
        return Ok(Finished);
      }
      if at.wake.Some? || at.waiting.Some? {
        Resume(now);
        return Ok(Waiting);
      }
      if at.starting && at.filters != [] {
        r := AskFilter(look);
      } else {
        r := Proceed(look, now);
      }
    }

    /** A card is in flight: only a delay that has passed moves on. */
    method Resume(now: nat)
      requires Valid() && RunInv(definition, View()) && !at.done && now < deadline && (at.wake.Some? || at.waiting.Some?)
      modifies this`at, this`log, execution, execution.pending, execution.visited
      ensures Valid()
      ensures View() == if old(at).wake.Some? && now >= old(at).wake.value
        then AnswerStep(definition, deadline, old(View()).(wake := None), Boolean(true), now) else old(View())
    {
      if at.wake.Some? && now >= at.wake.value {
        WakeKeepsInv(definition, View());
        ghost var woken := View().(wake := None);
        at := at.(wake := None);
        assert View() == woken;
        var fault := Complete(Boolean(true), now);
      }
    }

    method Proceed(look: Lookup, now: nat) returns (r: Result<Effect, RunFault>)
      requires ValidFlow(definition) && Valid() && RunInv(definition, View())
      requires !at.done && now < deadline && at.waiting.None? && at.wake.None? && (at.starting ==> at.filters == [])
      modifies this, execution, execution.pending, execution.visited
      ensures Valid() && (View(), r) == AdvanceStep(definition, deadline, old(View()), look, now)
    {
      if at.starting {
        ReadyKeepsInv(definition, View());
        ghost var ready := View().(h := FlowExecution.Begin(definition, Positions(definition, at.starts)), starting := false);
        Begin();
        assert View() == ready;
      }
      var effect := Deliver(look, now);
      return Ok(effect);
    }

    /** Filters run as real callbacks before the first card. */
    method AskFilter(look: Lookup) returns (r: Result<Effect, RunFault>)
      requires Valid() && at.filters != []
      modifies this`at
      ensures Valid()
      ensures var rest := old(View()).(filters := old(at).filters[1..]);
        var (id, step) := old(at).filters[0];
        (View(), r) == if look.argumentsFail.Some? then (rest, Err(ArgumentsFailed))
          else (rest.(filtering := Some(id), waiting := Some(step)), Ok(Call(step.appId)))
    {
      var (id, step) := at.filters[0];
      at := at.(filters := at.filters[1..]);
      if look.argumentsFail.Some? {
        return Err(ArgumentsFailed);
      }
      at := at.(filtering := Some(id), waiting := Some(step));
      return Ok(Call(step.appId));
    }

    /** All filters have answered: the collected triggers start together. */
    method Begin()
      requires ValidFlow(definition) && Valid() && TriggerIds(definition, at.starts)
      modifies this`execution, this`at
      ensures fresh(execution) && fresh(execution.pending) && fresh(execution.visited)
      ensures Valid()
      ensures View() == old(View()).(h := FlowExecution.Begin(definition, Positions(definition, at.starts)), starting := false)
    {
      hide ValidFlow, TriggerIds, Inv, FlowExecution.Begin, Positions, Select;
      var begun := Execution.StartMany(definition, at.starts);
      execution := begun.value;
      at := at.(starting := false);
    }

    method Conclude() returns (r: Option<Summary>)
      requires Valid()
      ensures r.None? <==> !at.done
      ensures r.Some? ==> r.value.success == (at.error == "") && r.value.error == at.error
      ensures r.Some? ==> r.value.conditions == Select(log, true) && r.value.actions == Select(log, false)
      ensures r.Some? ==> r.value.stopped == (at.error == "" && at.blocked && Select(log, false) == [])
    {
      if !at.done {
        return None;
      }
      return Some(Summary(at.error == "", at.error == "" && at.blocked && at.actions == [], at.conditions, at.actions, at.error));
    }
  }
}
