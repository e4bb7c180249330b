/** The filter phase of a triggered run: which apps are asked, in which order, and what their answers start. */
module FlowFilters {
  import opened Common
  import opened FlowGraph
  import opened FlowExecution
  import opened FlowExecutor
  import opened FlowRun

  /** A filter is asked, or lost because its arguments cannot be made, or its app replies. */
  datatype FilterEvent = Asked(id: string) | Lost(id: string) | Replied(id: string, yes: bool)

  predicate TakesFilter(deadline: nat, s: RunState, now: nat) {
    !s.done && now < deadline && s.wake.None? && s.waiting.None? && s.starting && s.filters != []
  }

  /** What one call to a run does in its filter phase. */
  function Happens(deadline: nat, s: RunState, c: RunCall): seq<FilterEvent> {
    match c
    case Advance(look, now) =>
      if TakesFilter(deadline, s, now)
      then [if look.argumentsFail.Some? then Lost(s.filters[0].0) else Asked(s.filters[0].0)]
      else []
    case Answered(answer, now) =>
      if !s.done && now < deadline && s.filtering.Some? && answer.Boolean?
      then [Replied(s.filtering.value, answer.value)] else []
    case _ => []
  }

  function Story(flow: Flow, deadline: nat, s: RunState, calls: seq<RunCall>): seq<FilterEvent> {
    if |calls| == 0 then []
    else
      var front := calls[..|calls| - 1];
      Story(flow, deadline, s, front) + Happens(deadline, AfterCalls(flow, deadline, s, front), calls[|calls| - 1])
  }

  function Ids(filters: seq<(string, Step)>): seq<string> {
    if |filters| == 0 then [] else [filters[0].0] + Ids(filters[1..])
  }

  /** The filters taken off the list, in order. */
  function Taken(story: seq<FilterEvent>): seq<string> {
    if |story| == 0 then []
    else
      var last := story[|story| - 1];
      Taken(story[..|story| - 1]) + if last.Replied? then [] else [last.id]
  }

  /** The triggers whose app said yes, in order. */
  function Granted(story: seq<FilterEvent>): seq<string> {
    if |story| == 0 then []
    else
      var last := story[|story| - 1];
      Granted(story[..|story| - 1]) + if last.Replied? && last.yes then [last.id] else []
  }

  /** Every reply comes right after its own question. */
  ghost predicate RepliesFollow(story: seq<FilterEvent>) {
    forall k :: 0 <= k < |story| && story[k].Replied? ==> k > 0 && story[k - 1] == Asked(story[k].id)
  }

  ghost predicate Told(flow: Flow, starts: seq<string>, filters: seq<(string, Step)>, story: seq<FilterEvent>, s: RunState) {
    && Taken(story) + Ids(s.filters) == Ids(filters)
    && s.starts == starts + Granted(story)
    && RepliesFollow(story)
    && (s.filtering.Some? ==> |story| > 0 && story[|story| - 1] == Asked(s.filtering.value))
    && (!s.starting ==> s.filters == [] && s.h.started == Elements(Positions(flow, s.starts)))
  }

  // ---------- one call ----------

  lemma ApplyKeepsStarted(flow: Flow, h: History, e: Event)
    ensures Apply(flow, h, e).started == h.started
  {
  }

  /** Nothing of the filter phase changes. */
  ghost predicate SamePhase(s: RunState, next: RunState) {
    && next.filters == s.filters && next.starts == s.starts && next.starting == s.starting
    && next.filtering == s.filtering && next.h.started == s.h.started
  }

  lemma AnswerSamePhase(flow: Flow, deadline: nat, s: RunState, answer: Answer, now: nat)
    requires s.filtering.None?
    ensures SamePhase(s, AnswerStep(flow, deadline, s, answer, now))
  {
    hide Apply;
    if s.waiting.Some? && (!IsCondition(s.waiting.value) || answer.Boolean?) {
      ApplyKeepsStarted(flow, s.h, Complete(if IsCondition(s.waiting.value) then answer.value else true));
    }
  }

  lemma FailSamePhase(flow: Flow, s: RunState, message: string)
    ensures SamePhase(s, FailStep(flow, s, message))
  {
    hide Apply;
    ApplyKeepsStarted(flow, s.h, Skip);
  }

  lemma DispatchSamePhase(flow: Flow, deadline: nat, s: RunState, look: Lookup, now: nat)
    requires s.waiting.Some? && s.filtering.None?
    ensures SamePhase(s, DispatchStep(flow, deadline, s, look, now).0)
  {
    hide AnswerStep, FailStep;
    if look.argumentsFail.Some? {
      FailSamePhase(flow, s, look.argumentsFail.value);
    }
    if look.condition.Ok? {
      AnswerSamePhase(flow, deadline, s, Boolean(look.condition.value), now);
    } else {
      FailSamePhase(flow, s, look.condition.error);
    }
    FailSamePhase(flow, s, BAD_DELAY);
    if look.action.Err? {
      FailSamePhase(flow, s, look.action.error);
    }
  }

  lemma DeliverSamePhase(flow: Flow, deadline: nat, s: RunState, look: Lookup, now: nat)
    requires s.filtering.None?
    ensures SamePhase(s, DeliverStep(flow, deadline, s, look, now).0)
  {
    hide DispatchStep, Apply;
    var q := s.h.state;
    if q.waiting.None? && q.head < |q.pending| && q.pending[q.head] < |flow.nodes| && flow.nodes[q.pending[q.head]].step.Some? {
      var delivered := s.(h := Apply(flow, s.h, Next), waiting := flow.nodes[q.pending[q.head]].step);
      ApplyKeepsStarted(flow, s.h, Next);
      DispatchSamePhase(flow, deadline, delivered, look, now);
    }
  }

  lemma ToldSame(flow: Flow, starts: seq<string>, filters: seq<(string, Step)>, story: seq<FilterEvent>, s: RunState, next: RunState)
    requires Told(flow, starts, filters, story, s) && SamePhase(s, next)
    ensures Told(flow, starts, filters, story + [], next)
  {
    assert story + [] == story;
  }

  lemma Snoc(story: seq<FilterEvent>, e: FilterEvent)
    ensures Taken(story + [e]) == Taken(story) + if e.Replied? then [] else [e.id]
    ensures Granted(story + [e]) == Granted(story) + if e.Replied? && e.yes then [e.id] else []
    ensures RepliesFollow(story) && (e.Replied? ==> |story| > 0 && story[|story| - 1] == Asked(e.id)) ==> RepliesFollow(story + [e])
  {
    assert (story + [e])[..|story|] == story;
    if RepliesFollow(story) && (e.Replied? ==> |story| > 0 && story[|story| - 1] == Asked(e.id)) {
      ReplySnoc(story, e);
    }
    hide RepliesFollow;
  }

  lemma ReplySnoc(story: seq<FilterEvent>, e: FilterEvent)
    requires RepliesFollow(story) && (e.Replied? ==> |story| > 0 && story[|story| - 1] == Asked(e.id))
    ensures RepliesFollow(story + [e])
  {
    var longer := story + [e];
    forall k | 0 <= k < |longer| && longer[k].Replied? ensures k > 0 && longer[k - 1] == Asked(longer[k].id) {
      if k < |story| {
        assert longer[k] == story[k];
      }
    }
  }

  lemma TakeTells(flow: Flow, starts: seq<string>, filters: seq<(string, Step)>, story: seq<FilterEvent>, s: RunState, e: FilterEvent, next: RunState)
    requires Told(flow, starts, filters, story, s) && s.filters != [] && s.filtering.None? && s.starting
    requires !e.Replied? && e.id == s.filters[0].0
    requires next.filters == s.filters[1..] && next.starts == s.starts && next.starting
    requires next.filtering == if e.Asked? then Some(e.id) else None
    ensures Told(flow, starts, filters, story + [e], next)
  {
    hide Taken, Granted, RepliesFollow;
    Snoc(story, e);
    assert Ids(s.filters) == [e.id] + Ids(next.filters);
    assert Taken(story) + ([e.id] + Ids(next.filters)) == (Taken(story) + [e.id]) + Ids(next.filters);
    assert Granted(story) + [] == Granted(story);
  }

  lemma ReplyTells(flow: Flow, starts: seq<string>, filters: seq<(string, Step)>, story: seq<FilterEvent>, s: RunState, yes: bool, next: RunState)
    requires Told(flow, starts, filters, story, s) && s.filtering.Some? && s.starting
    requires next == s.(filtering := None, waiting := None, starts := if yes then s.starts + [s.filtering.value] else s.starts)
    ensures Told(flow, starts, filters, story + [Replied(s.filtering.value, yes)], next)
  {
    hide Taken, Granted, RepliesFollow;
    var e := Replied(s.filtering.value, yes);
    Snoc(story, e);
    assert Taken(story) + [] == Taken(story) && Granted(story) + [] == Granted(story);
    assert starts + (Granted(story) + [e.id]) == (starts + Granted(story)) + [e.id];
  }

  /** The phase ends by starting what was matched and granted. */
  lemma ReadyTells(flow: Flow, starts: seq<string>, filters: seq<(string, Step)>, story: seq<FilterEvent>, s: RunState)
    requires RunInv(flow, s) && !s.done && s.waiting.None? && s.starting && s.filters == []
    requires Told(flow, starts, filters, story, s)
    ensures Told(flow, starts, filters, story, s.(h := Begin(flow, Positions(flow, s.starts)), starting := false))
  {
    RunLinks(flow, s);
    PositionsAreStarts(flow, s.starts);
    BeginKeepsInv(flow, Positions(flow, s.starts));
  }

  lemma AdvanceTells(flow: Flow, deadline: nat, starts: seq<string>, filters: seq<(string, Step)>, story: seq<FilterEvent>, s: RunState, look: Lookup, now: nat)
    requires RunInv(flow, s) && Told(flow, starts, filters, story, s)
    ensures Told(flow, starts, filters, story + Happens(deadline, s, Advance(look, now)), AdvanceStep(flow, deadline, s, look, now).0)
  {
    hide Told, AnswerStep, DeliverStep, Begin, Positions, Inv, HasSteps, Recorded, FirstFailure, Blocked;
    var next := AdvanceStep(flow, deadline, s, look, now).0;
    if s.done || now >= deadline || (s.wake.None? && s.waiting.Some?) {
      ToldSame(flow, starts, filters, story, s, next);
    } else if s.wake.Some? {
      AnswerSamePhase(flow, deadline, s.(wake := None), Boolean(true), now);
      ToldSame(flow, starts, filters, story, s, next);
    } else if s.starting && s.filters != [] {
      TakeTells(flow, starts, filters, story, s, Happens(deadline, s, Advance(look, now))[0], next);
    } else if s.starting {
      ReadyTells(flow, starts, filters, story, s);
      var ready := s.(h := Begin(flow, Positions(flow, s.starts)), starting := false);
      DeliverSamePhase(flow, deadline, ready, look, now);
      ToldSame(flow, starts, filters, story, ready, next);
    } else {
      DeliverSamePhase(flow, deadline, s, look, now);
      ToldSame(flow, starts, filters, story, s, next);
    }
  }

  lemma AnswerTells(flow: Flow, deadline: nat, starts: seq<string>, filters: seq<(string, Step)>, story: seq<FilterEvent>, s: RunState, answer: Answer, now: nat)
    requires RunInv(flow, s) && Told(flow, starts, filters, story, s)
    ensures Told(flow, starts, filters, story + Happens(deadline, s, Answered(answer, now)), AnswerStep(flow, deadline, s, answer, now))
  {
    var next := AnswerStep(flow, deadline, s, answer, now);
    if s.filtering.None? {
      AnswerSamePhase(flow, deadline, s, answer, now);
      hide Told, AnswerStep, RunInv;
      ToldSame(flow, starts, filters, story, s, next);
    } else if !s.done && now < deadline && answer.Boolean? {
      assert s.starting;
      ReplyTells(flow, starts, filters, story, s, answer.value, next);
    } else {
      assert story + [] == story;
    }
  }

  lemma CallTells(flow: Flow, deadline: nat, starts: seq<string>, filters: seq<(string, Step)>, story: seq<FilterEvent>, s: RunState, c: RunCall)
    requires RunInv(flow, s) && Told(flow, starts, filters, story, s)
    ensures Told(flow, starts, filters, story + Happens(deadline, s, c), RunStep(flow, deadline, s, c))
  {
    hide Told, RunInv, AdvanceStep, AnswerStep, FailStep;
    match c
    case Advance(look, now) => AdvanceTells(flow, deadline, starts, filters, story, s, look, now);
    case Answered(answer, now) => AnswerTells(flow, deadline, starts, filters, story, s, answer, now);
    case Failure(message) =>
      FailSamePhase(flow, s, message);
      ToldSame(flow, starts, filters, story, s, FailStep(flow, s, message));
    case Halt(message) => ToldSame(flow, starts, filters, story, s, Stopped(s, message));
  }

  // ---------- every run ----------

  /**
   * In every run the filters are taken in the order of the list and none is skipped, each reply answers the
   * question before it, and when cards start to be delivered the triggers started are exactly those that
   * matched by themselves and those whose app said yes.
   */
  lemma {:induction false} FiltersInOrder(flow: Flow, deadline: nat, s: RunState, calls: seq<RunCall>)
    requires RunInv(flow, s) && s.starting && s.filtering.None?
    ensures Told(flow, s.starts, s.filters, Story(flow, deadline, s, calls), AfterCalls(flow, deadline, s, calls))
  {
    hide RunInv, RunStep;
    if |calls| == 0 {
      assert s.starts + [] == s.starts;
    } else {
      hide Told;
      var front := calls[..|calls| - 1];
      FiltersInOrder(flow, deadline, s, front);
      EveryRunKeepsInv(flow, deadline, s, front);
      CallTells(flow, deadline, s.starts, s.filters, Story(flow, deadline, s, front), AfterCalls(flow, deadline, s, front), calls[|calls| - 1]);
    }
  }

  /** The filters asked, without those that were lost. */
  function AskedIds(story: seq<FilterEvent>): seq<string> {
    if |story| == 0 then []
    else
      var last := story[|story| - 1];
      AskedIds(story[..|story| - 1]) + if last.Asked? then [last.id] else []
  }

  lemma {:induction false} NoneLost(story: seq<FilterEvent>)
    requires forall k :: 0 <= k < |story| ==> !story[k].Lost?
    ensures AskedIds(story) == Taken(story)
  {
    if |story| > 0 {
      NoneLost(story[..|story| - 1]);
    }
  }

  /** As long as no argument fails, the ids asked in a run are a prefix of the list it began with. */
  lemma AskedIsPrefix(flow: Flow, deadline: nat, s: RunState, calls: seq<RunCall>)
    requires RunInv(flow, s) && s.starting && s.filtering.None?
    requires forall k :: 0 <= k < |Story(flow, deadline, s, calls)| ==> !Story(flow, deadline, s, calls)[k].Lost?
    ensures AskedIds(Story(flow, deadline, s, calls)) <= Ids(s.filters)
  {
    hide RunInv, Taken, AskedIds;
    FiltersInOrder(flow, deadline, s, calls);
    NoneLost(Story(flow, deadline, s, calls));
  }
}
