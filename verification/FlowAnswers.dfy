/**
 * What a run makes of the answers it gets: the result recorded for each card and the successors it opens
 * are read off the calls alone, and so are the moment a delay passes and the app that is called.
 */
module FlowAnswers {
  import opened Common
  import opened Digraph
  import opened FlowGraph
  import opened FlowExecution
  import opened FlowExecutor
  import opened FlowRun

  /** What is heard of a card: yes or no, that it was done, that it failed, or nothing before the run ended. */
  datatype Report = Said(step: Step, yes: bool) | Did(step: Step) | Broke(step: Step, message: string) | Cut(step: Step)

  /** The result a report stands for. */
  function Meaning(r: Report): CardResult {
    match r
    case Said(step, yes) => CardResult(step, Reported(yes != step.inverted))
    case Did(step) => CardResult(step, Reported(true))
    case Broke(step, message) => CardResult(step, Failed(message))
    case Cut(step) => CardResult(step, Unfinished)
  }

  function Meanings(story: seq<Report>): seq<CardResult> {
    seq(|story|, k requires 0 <= k < |story| => Meaning(story[k]))
  }

  /** A condition opens its successors when its answer differs from "inverted"; another card when it was done. */
  predicate Lets(r: Report) {
    match r
    case Said(step, yes) => yes != step.inverted
    case Did(_) => true
    case _ => false
  }

  /** The card in flight when the run ends. */
  function CutShort(s: RunState): seq<Report> {
    if s.waiting.Some? then [Cut(s.waiting.value)] else []
  }

  function Fault(step: Step, message: string): Report {
    if step.cardType == "action" then Broke(step, message) else Cut(step)
  }

  /** What is heard of a card in the turn that hands it out. */
  function Dealt(step: Step, look: Lookup): seq<Report> {
    if look.argumentsFail.Some? then [Fault(step, look.argumentsFail.value)]
    else if step.appId != "stulp" then []
    else if IsCondition(step) then
      [if look.condition.Ok? then Said(step, look.condition.value) else Cut(step)]
    else if step.cardId == "delay" then
      if look.delay.Some? && look.delay.value <= MAX_DELAY_MS then [] else [Fault(step, BAD_DELAY)]
    else if step.cardId == "notification" || look.action.Ok? then []
    else [Fault(step, look.action.error)]
  }

  /** The card at the front of a run's queue. */
  function NextStep(flow: Flow, h: History): Option<Step> {
    if h.state.waiting.Some? || h.state.head >= |h.state.pending| then None
    else
      var card := h.state.pending[h.state.head];
      if card >= |flow.nodes| then None else flow.nodes[card].step
  }

  /** The executor once the filters are through. */
  function Begun(flow: Flow, s: RunState): History {
    if s.starting then Begin(flow, Positions(flow, s.starts)) else s.h
  }

  /** What one call to a run tells of a card. */
  function Hears(flow: Flow, deadline: nat, s: RunState, c: RunCall): seq<Report> {
    if s.done then []
    else
      match c
      case Halt(_) => CutShort(s)
      case Failure(message) => if ActionInFlight(s) then [Broke(s.waiting.value, message)] else CutShort(s)
      case Answered(answer, now) =>
        if now >= deadline then CutShort(s)
        else if s.waiting.None? then []
        else if s.filtering.Some? then if answer.Other? then CutShort(s) else []
        else if !IsCondition(s.waiting.value) then [Did(s.waiting.value)]
        else if answer.Boolean? then [Said(s.waiting.value, answer.value)]
        else CutShort(s)
      case Advance(look, now) =>
        if now >= deadline then CutShort(s)
        else if s.waiting.Some? then
          if s.wake.Some? && now >= s.wake.value then [Did(s.waiting.value)] else []
        else if s.starting && s.filters != [] then []
        else
          var step := NextStep(flow, Begun(flow, s));
          if step.Some? then Dealt(step.value, look) else []
  }

  function Heard(flow: Flow, deadline: nat, s: RunState, calls: seq<RunCall>): seq<Report> {
    if |calls| == 0 then []
    else
      var front := calls[..|calls| - 1];
      Heard(flow, deadline, s, front) + Hears(flow, deadline, AfterCalls(flow, deadline, s, front), calls[|calls| - 1])
  }

  // ---------- one call ----------

  /** Only a card that is no condition sleeps. */
  ghost predicate Asleep(s: RunState) {
    s.wake.Some? ==> s.waiting.Some? && s.filtering.None? && !IsCondition(s.waiting.value)
  }

  /** The results so far say which delivered cards opened their successors, also once the run is over. */
  ghost predicate Opened(flow: Flow, s: RunState) {
    && (forall k :: 0 <= k < |s.log| && k < |s.h.delivered| ==>
      s.h.delivered[k] < |flow.nodes| && flow.nodes[s.h.delivered[k]].step == Some(s.log[k].step))
    && (forall k :: 0 <= k < |s.log| && k < |s.h.delivered| ==> (s.h.delivered[k] in s.h.unlocked <==> Proceeds(s.log[k])))
    && (forall v :: v in s.h.unlocked && v !in s.h.started ==>
      exists k :: 0 <= k < |s.log| && k < |s.h.delivered| && s.h.delivered[k] == v)
  }

  lemma RecordedOpens(flow: Flow, s: RunState)
    requires RunInv(flow, s) && !s.done
    ensures Opened(flow, s)
  {
    hide HasSteps, FilterPhase, FirstFailure, Blocked, Links, Reached, Graph, KindOf, Distinct;
    forall v | v in s.h.unlocked && v !in s.h.started
      ensures exists k :: 0 <= k < |s.log| && k < |s.h.delivered| && s.h.delivered[k] == v
    {
      var k :| 0 <= k < |s.h.delivered| && s.h.delivered[k] == v;
      assert k < |s.log|;
    }
  }

  /** The card in flight is the last one delivered, and has not opened its successors. */
  lemma LastInFlight(flow: Flow, s: RunState)
    requires Running(flow, s) && s.waiting.Some?
    ensures if s.filtering.Some? then |s.h.delivered| == |s.log| == 0
      else
        && |s.h.delivered| == |s.log| + 1 && s.h.delivered[|s.log|] !in s.h.unlocked
        && s.h.delivered[|s.log|] < |flow.nodes| && flow.nodes[s.h.delivered[|s.log|]].step == s.waiting
  {
    hide HasSteps, FirstFailure, Blocked, Links, Reached, Graph, KindOf, Distinct;
  }

  lemma StoppedOpens(flow: Flow, s: RunState, message: string)
    requires RunInv(flow, s) && !s.done
    ensures Opened(flow, Stopped(s, message))
  {
    hide Running;
    RecordedOpens(flow, s);
    var end := Stopped(s, message);
    if s.waiting.Some? {
      LastInFlight(flow, s);
    }
    assert forall k :: 0 <= k < |s.log| ==> end.log[k] == s.log[k];
  }

  /** One call recorded what it tells, in step with the successors it opened. */
  ghost predicate Tells(flow: Flow, s: RunState, story: seq<Report>, next: RunState) {
    next.log == s.log + Meanings(story) && Asleep(next) && Opened(flow, next)
  }

  lemma StoppedTells(flow: Flow, s: RunState, message: string)
    requires RunInv(flow, s) && !s.done
    ensures Tells(flow, s, CutShort(s), Stopped(s, message))
  {
    hide RunInv, Opened;
    StoppedOpens(flow, s, message);
  }

  lemma FailTells(flow: Flow, s: RunState, message: string)
    requires RunInv(flow, s) && !s.done
    ensures Tells(flow, s, if ActionInFlight(s) then [Broke(s.waiting.value, message)] else CutShort(s), FailStep(flow, s, message))
  {
    hide RunInv, Opened, Apply;
    FailKeepsInv(flow, s, message);
    if ActionInFlight(s) {
      RecordedOpens(flow, FailStep(flow, s, message));
    } else {
      StoppedTells(flow, s, message);
    }
  }

  lemma AnswerTells(flow: Flow, deadline: nat, s: RunState, answer: Answer, now: nat)
    requires RunInv(flow, s) && !s.done && Asleep(s)
    ensures Tells(flow, s, Hears(flow, deadline, s, Answered(answer, now)), AnswerStep(flow, deadline, s, answer, now))
  {
    hide RunInv, Opened, Apply;
    AnswerKeepsInv(flow, deadline, s, answer, now);
    FilterWaits(flow, s);
    var next := AnswerStep(flow, deadline, s, answer, now);
    if next.done {
      StoppedOpens(flow, s, TIMED_OUT);
      SameOpens(flow, Stopped(s, TIMED_OUT), next);
    } else {
      RecordedOpens(flow, next);
    }
  }

  lemma FilterWaits(flow: Flow, s: RunState)
    requires RunInv(flow, s) && !s.done
    ensures s.filtering.Some? ==> s.waiting.Some?
  {
  }

  lemma SameOpens(flow: Flow, s: RunState, next: RunState)
    requires Opened(flow, s) && next.h == s.h && next.log == s.log
    ensures Opened(flow, next)
  {
  }

  lemma DispatchTells(flow: Flow, deadline: nat, s: RunState, look: Lookup, now: nat)
    requires RunInv(flow, s) && !s.done && s.waiting.Some? && s.filtering.None? && s.wake.None? && now < deadline
    ensures Tells(flow, s, Dealt(s.waiting.value, look), DispatchStep(flow, deadline, s, look, now).0)
  {
    hide RunInv, AnswerStep, FailStep, Opened;
    DispatchKeepsInv(flow, deadline, s, look, now);
    if look.argumentsFail.Some? {
      FailTells(flow, s, look.argumentsFail.value);
    } else if s.waiting.value.appId == "stulp" {
      if look.condition.Ok? {
        AnswerTells(flow, deadline, s, Boolean(look.condition.value), now);
      } else {
        FailTells(flow, s, look.condition.error);
      }
      FailTells(flow, s, BAD_DELAY);
      if look.action.Err? {
        FailTells(flow, s, look.action.error);
      }
    }
    var next := DispatchStep(flow, deadline, s, look, now).0;
    if !next.done {
      RecordedOpens(flow, next);
    }
  }

  lemma DeliverTells(flow: Flow, deadline: nat, s: RunState, look: Lookup, now: nat)
    requires RunInv(flow, s) && !s.done && s.waiting.None? && s.wake.None? && !s.starting && now < deadline
    ensures var step := NextStep(flow, s.h);
      Tells(flow, s, if step.Some? then Dealt(step.value, look) else [], DeliverStep(flow, deadline, s, look, now).0)
  {
    hide DispatchStep, Opened, Dealt;
    var q := s.h.state;
    RecordedOpens(flow, s);
    if q.waiting.None? && q.head < |q.pending| {
      NextInStep(flow, s);
      var delivered := s.(h := Apply(flow, s.h, Next), waiting := flow.nodes[q.pending[q.head]].step);
      DispatchTells(flow, deadline, delivered, look, now);
    } else {
      SameOpens(flow, s, s.(done := true));
    }
  }

  lemma AwakeKeeps(flow: Flow, s: RunState)
    requires RunInv(flow, s) && !s.done && Asleep(s) && s.wake.Some?
    ensures RunInv(flow, s.(wake := None)) && s.waiting.Some? && s.filtering.None? && !IsCondition(s.waiting.value)
  {
    WakeKeepsInv(flow, s);
  }

  lemma StillTells(flow: Flow, s: RunState, next: RunState)
    requires RunInv(flow, s) && !s.done && Asleep(next) && next.h == s.h && next.log == s.log
    ensures Tells(flow, s, [], next)
  {
    hide RunInv, Opened;
    RecordedOpens(flow, s);
    SameOpens(flow, s, next);
  }

  lemma ProceedTells(flow: Flow, deadline: nat, s: RunState, look: Lookup, now: nat)
    requires RunInv(flow, s) && !s.done && s.waiting.None? && s.wake.None? && (s.starting ==> s.filters == []) && now < deadline
    ensures Tells(flow, s, Hears(flow, deadline, s, Advance(look, now)), AdvanceStep(flow, deadline, s, look, now).0)
  {
    hide RunInv, DeliverStep, NextStep, Dealt, Tells, Begin, Positions;
    if s.starting {
      RunLinks(flow, s);
      ReadyKeepsInv(flow, s);
      var ready := s.(h := Begin(flow, Positions(flow, s.starts)), starting := false);
      DeliverTells(flow, deadline, ready, look, now);
      TellsSame(flow, ready, s, Hears(flow, deadline, s, Advance(look, now)), DeliverStep(flow, deadline, ready, look, now).0);
    } else {
      DeliverTells(flow, deadline, s, look, now);
    }
  }

  lemma TellsSame(flow: Flow, s: RunState, other: RunState, story: seq<Report>, next: RunState)
    requires Tells(flow, s, story, next) && other.log == s.log
    ensures Tells(flow, other, story, next)
  {
  }

  lemma AdvanceTells(flow: Flow, deadline: nat, s: RunState, look: Lookup, now: nat)
    requires RunInv(flow, s) && !s.done && Asleep(s)
    ensures Tells(flow, s, Hears(flow, deadline, s, Advance(look, now)), AdvanceStep(flow, deadline, s, look, now).0)
  {
    hide RunInv, AnswerStep, DeliverStep, NextStep, Dealt, Tells, Begin, Positions, Meanings;
    if now >= deadline {
      StoppedTells(flow, s, TIMED_OUT);
    } else if s.wake.Some? {
      AwakeKeeps(flow, s);
      if now >= s.wake.value {
        AnswerTells(flow, deadline, s.(wake := None), Boolean(true), now);
        TellsSame(flow, s.(wake := None), s, [Did(s.waiting.value)], AnswerStep(flow, deadline, s.(wake := None), Boolean(true), now));
      } else {
        StillTells(flow, s, s);
      }
    } else if s.waiting.Some? || (s.starting && s.filters != []) {
      StillTells(flow, s, AdvanceStep(flow, deadline, s, look, now).0);
    } else {
      ProceedTells(flow, deadline, s, look, now);
    }
  }

  lemma CallTells(flow: Flow, deadline: nat, s: RunState, c: RunCall)
    requires RunInv(flow, s) && Asleep(s) && Opened(flow, s)
    ensures Tells(flow, s, Hears(flow, deadline, s, c), RunStep(flow, deadline, s, c))
  {
    hide RunInv, Opened;
    if s.done {
      assert s.log + [] == s.log;
      assert RunStep(flow, deadline, s, c) == s by {
        hide DeliverStep;
      }
    } else {
      hide AnswerStep, AdvanceStep, FailStep, Hears, Tells;
      CallTellsRunning(flow, deadline, s, c);
    }
  }

  lemma CallTellsRunning(flow: Flow, deadline: nat, s: RunState, c: RunCall)
    requires RunInv(flow, s) && Asleep(s) && !s.done
    ensures Tells(flow, s, Hears(flow, deadline, s, c), RunStep(flow, deadline, s, c))
  {
    hide RunInv, AnswerStep, AdvanceStep, FailStep, Tells, CutShort, NextStep, Dealt, Begun;
    match c
    case Advance(look, now) => AdvanceTells(flow, deadline, s, look, now);
    case Answered(answer, now) => AnswerTells(flow, deadline, s, answer, now);
    case Failure(message) => FailTells(flow, s, message);
    case Halt(message) => StoppedTells(flow, s, message);
  }

  // ---------- every run ----------

  lemma MeaningsJoin(a: seq<Report>, b: seq<Report>)
    ensures Meanings(a + b) == Meanings(a) + Meanings(b)
  {
  }

  /**
   * In every run the results are those of the reports heard, one for one and in order: a condition's is its
   * answer against "inverted". Each is the result of the card delivered at its place, and the cards that
   * opened their successors are, besides the triggers, exactly those whose report lets them.
   */
  lemma {:induction false} RunHears(flow: Flow, deadline: nat, s: RunState, calls: seq<RunCall>)
    requires RunInv(flow, s) && Asleep(s) && Opened(flow, s)
    ensures Tells(flow, s, Heard(flow, deadline, s, calls), AfterCalls(flow, deadline, s, calls))
  {
    hide RunInv, RunStep, Hears, Opened;
    if |calls| > 0 {
      var front := calls[..|calls| - 1];
      RunHears(flow, deadline, s, front);
      EveryRunKeepsInv(flow, deadline, s, front);
      var before := AfterCalls(flow, deadline, s, front);
      CallTells(flow, deadline, before, calls[|calls| - 1]);
      hide Meanings;
      MeaningsJoin(Heard(flow, deadline, s, front), Hears(flow, deadline, before, calls[|calls| - 1]));
    } else {
      assert s.log + [] == s.log;
    }
  }

  lemma FreshOpens(flow: Flow, s: RunState)
    requires RunInv(flow, s) && !s.done && s.log == [] && s.wake.None?
    ensures Asleep(s) && Opened(flow, s)
  {
    RecordedOpens(flow, s);
  }

  /** What a run's results and its openings are, from the reports alone. */
  lemma AnswersDecide(flow: Flow, deadline: nat, s: RunState, calls: seq<RunCall>, k: nat, v: nat)
    requires RunInv(flow, s) && !s.done && s.log == [] && s.wake.None?
    ensures var end, story := AfterCalls(flow, deadline, s, calls), Heard(flow, deadline, s, calls);
      && |end.log| == |story|
      && (k < |story| ==> end.log[k] == Meaning(story[k]))
      && (k < |story| && k < |end.h.delivered| ==>
        && end.h.delivered[k] < |flow.nodes| && flow.nodes[end.h.delivered[k]].step == Some(story[k].step)
        && (end.h.delivered[k] in end.h.unlocked <==> Lets(story[k])))
      && (v in end.h.unlocked ==>
        v in end.h.started || exists i :: 0 <= i < |story| && i < |end.h.delivered| && end.h.delivered[i] == v && Lets(story[i]))
  {
    hide RunInv, AfterCalls, Heard, Opened, Meanings, Lets, Meaning;
    FreshOpens(flow, s);
    RunHears(flow, deadline, s, calls);
    var end, story := AfterCalls(flow, deadline, s, calls), Heard(flow, deadline, s, calls);
    assert [] + Meanings(story) == Meanings(story);
    PlaceDecides(flow, end, story, k);
    if v in end.h.unlocked && v !in end.h.started {
      var i := OpenedPlace(flow, end, v);
      PlaceDecides(flow, end, story, i);
    }
  }

  /** The result and the opening at one place of the story. */
  lemma PlaceDecides(flow: Flow, end: RunState, story: seq<Report>, k: nat)
    requires Opened(flow, end) && end.log == Meanings(story)
    ensures |end.log| == |story| && (k < |story| ==> end.log[k] == Meaning(story[k]))
    ensures k < |story| && k < |end.h.delivered| ==>
      && end.h.delivered[k] < |flow.nodes| && flow.nodes[end.h.delivered[k]].step == Some(story[k].step)
      && (end.h.delivered[k] in end.h.unlocked <==> Lets(story[k]))
  {
  }

  lemma OpenedPlace(flow: Flow, end: RunState, v: nat) returns (i: nat)
    requires Opened(flow, end) && v in end.h.unlocked && v !in end.h.started
    ensures i < |end.log| && i < |end.h.delivered| && end.h.delivered[i] == v
  {
    i :| i < |end.log| && i < |end.h.delivered| && end.h.delivered[i] == v;
  }

  // ---------- why a run ends ----------

  /** The reason with which a call ends a run that has not dried up. */
  function Reason(flow: Flow, deadline: nat, s: RunState, c: RunCall): Option<string> {
    match c
    case Halt(message) => Some(message)
    case Failure(message) => if ActionInFlight(s) then None else Some(message)
    case Answered(answer, now) =>
      if now >= deadline then Some(TIMED_OUT)
      else if s.waiting.None? || answer.Boolean? then None
      else if s.filtering.Some? then Some(NO_FILTER_ANSWER)
      else if IsCondition(s.waiting.value) then Some(NO_CONDITION_ANSWER)
      else None
    case Advance(look, now) =>
      if now >= deadline then Some(TIMED_OUT)
      else if s.waiting.Some? || (s.starting && s.filters != []) then None
      else
        var step := NextStep(flow, Begun(flow, s));
        if step.None? || step.value.cardType == "action" then None
        else if look.argumentsFail.Some? then look.argumentsFail
        else if step.value.appId == "stulp" && IsCondition(step.value) && look.condition.Err? then Some(look.condition.error)
        else if step.value.appId == "stulp" && !IsCondition(step.value) then DealtReason(step.value, look)
        else None
  }

  function DealtReason(step: Step, look: Lookup): Option<string> {
    if step.cardId == "delay" then if look.delay.Some? && look.delay.value <= MAX_DELAY_MS then None else Some(BAD_DELAY)
    else if step.cardId == "notification" || look.action.Ok? then None
    else Some(look.action.error)
  }

  /**
   * A call with a reason ends the run and the reason is the error it reports. Without one the run goes on, or
   * ends because nothing is left, and then its error is the first failure among its results.
   */
  lemma EndReason(flow: Flow, deadline: nat, s: RunState, c: RunCall)
    requires RunInv(flow, s) && !s.done && Asleep(s)
    ensures var next, reason := RunStep(flow, deadline, s, c), Reason(flow, deadline, s, c);
      && (reason.Some? ==> next.done && next.error == reason.value)
      && (reason.None? && next.done ==>
        c.Advance? && next.error == FirstFailure(next.log) && NextStep(flow, Begun(flow, s)).None?)
  {
    hide Inv, HasSteps, Recorded, Blocked, FirstFailure, TriggerId, Apply, Begin, Positions;
    if c.Advance? && c.now < deadline && s.waiting.None? && !(s.starting && s.filters != []) {
      hide RunInv;
      DeliverReason(flow, deadline, s, c.look, c.now);
    } else if c.Advance? && c.now < deadline && s.wake.Some? {
      assert !IsCondition(s.waiting.value) && s.filtering.None?;
    } else if c.Answered? {
      FilterWaits(flow, s);
    }
  }

  lemma DeliverReason(flow: Flow, deadline: nat, s: RunState, look: Lookup, now: nat)
    requires RunInv(flow, s) && !s.done && now < deadline && s.waiting.None? && !(s.starting && s.filters != [])
    ensures var next, reason := AdvanceStep(flow, deadline, s, look, now).0, Reason(flow, deadline, s, Advance(look, now));
      && (reason.Some? ==> next.done && next.error == reason.value)
      && (reason.None? && next.done ==> next.error == FirstFailure(next.log) && NextStep(flow, Begun(flow, s)).None?)
  {
    hide RunInv, Begin, Positions, Apply, FirstFailure;
    NoWake(flow, s);
    var h := Begun(flow, s);
    if h.state.waiting.None? && h.state.head < |h.state.pending| {
      var dealt := HandedOut(flow, deadline, s, h.state.pending[h.state.head], look, now);
      hide AdvanceStep;
    }
  }

  lemma NoWake(flow: Flow, s: RunState)
    requires RunInv(flow, s) && !s.done && s.waiting.None?
    ensures s.wake.None? && s.error == FirstFailure(s.log)
  {
  }

  // ---------- one answer in a run ----------

  /** The card in flight is settled by this answer: its result is recorded and its successors are opened exactly on yes. */
  ghost predicate Settles(flow: Flow, before: RunState, card: nat, yes: bool, after: RunState) {
    && card < |flow.nodes| && flow.nodes[card].step.Some? && !after.done && after.waiting.None?
    && after.log == before.log + [CardResult(flow.nodes[card].step.value, Reported(yes))]
    && (card in after.h.unlocked <==> yes)
    && (yes ==> forall v :: (card, v) in Graph(flow) ==> v in after.h.state.visited)
  }

  lemma AnswerSettles(flow: Flow, deadline: nat, s: RunState, b: bool, now: nat)
    requires RunInv(flow, s) && !s.done && now < deadline
    requires s.filtering.None? && s.waiting.Some? && IsCondition(s.waiting.value)
    ensures s.h.state.waiting.Some?
    ensures var card, after := s.h.state.waiting.value, AnswerStep(flow, deadline, s, Boolean(b), now);
      && Settles(flow, s, card, b != s.waiting.value.inverted, after)
      && (b == s.waiting.value.inverted ==> after.h.state.pending == s.h.state.pending)
  {
    hide Recorded, FilterPhase, FirstFailure, Blocked, Apply, Reached, KindOf;
    var card := s.h.state.waiting.value;
    AnswerKeepsInv(flow, deadline, s, Boolean(b), now);
    var after := AnswerStep(flow, deadline, s, Boolean(b), now);
    ConditionOpens(flow, s.h, card, b);
  }

  lemma ConditionOpens(flow: Flow, h: History, card: nat, b: bool)
    requires h.state.waiting == Some(card) && card < |flow.nodes| && card !in h.unlocked
    requires flow.nodes[card].step.Some? && IsCondition(flow.nodes[card].step.value)
    ensures var inverted, next := flow.nodes[card].step.value.inverted, Apply(flow, h, Complete(b));
      && (card in next.unlocked <==> b != inverted)
      && (b == inverted ==> next.state.pending == h.state.pending)
  {
    UnlockStep(flow, h, Complete(b), card);
  }

  /**
   * After any calls, a callback's boolean for the condition in flight, given before the deadline, records
   * whether it differs from "inverted", and opens the card's successors exactly when it does.
   */
  lemma ConditionDecides(flow: Flow, deadline: nat, s: RunState, calls: seq<RunCall>, b: bool, now: nat)
    requires RunInv(flow, s) && now < deadline
    requires var before := AfterCalls(flow, deadline, s, calls);
      !before.done && before.filtering.None? && before.waiting.Some? && IsCondition(before.waiting.value)
    ensures var before, after := AfterCalls(flow, deadline, s, calls), AfterCalls(flow, deadline, s, calls + [Answered(Boolean(b), now)]);
      && before.h.state.waiting.Some?
      && Settles(flow, before, before.h.state.waiting.value, b != before.waiting.value.inverted, after)
      && (b == before.waiting.value.inverted ==> after.h.state.pending == before.h.state.pending)
  {
    hide RunInv, Settles, AnswerStep;
    EveryRunKeepsInv(flow, deadline, s, calls);
    AnswerSettles(flow, deadline, AfterCalls(flow, deadline, s, calls), b, now);
    assert (calls + [Answered(Boolean(b), now)])[..|calls|] == calls;
  }

  /** The card a turn hands out, when it hands out one. */
  ghost predicate HandsOut(deadline: nat, s: RunState, h: History, card: nat, now: nat) {
    && !s.done && now < deadline && s.waiting.None? && (s.starting ==> s.filters == [])
    && h.state.waiting.None? && h.state.head < |h.state.pending| && h.state.pending[h.state.head] == card
  }

  lemma HandedOut(flow: Flow, deadline: nat, s: RunState, card: nat, look: Lookup, now: nat) returns (dealt: RunState)
    requires RunInv(flow, s) && HandsOut(deadline, s, Begun(flow, s), card, now)
    ensures card < |flow.nodes| && flow.nodes[card].step.Some?
    ensures RunInv(flow, dealt) && !dealt.done && dealt.filtering.None? && dealt.wake.None? && dealt.log == s.log
    ensures dealt.waiting == flow.nodes[card].step && dealt.h.state.waiting == Some(card) && !dealt.starting
    ensures dealt.h.delivered == Begun(flow, s).delivered + [card] && dealt.h.state.pending == Begun(flow, s).state.pending
    ensures AdvanceStep(flow, deadline, s, look, now)
      == (DispatchStep(flow, deadline, dealt, look, now).0, Ok(DispatchStep(flow, deadline, dealt, look, now).1))
  {
    hide DispatchStep, Begin, Positions, Inv, HasSteps, Recorded, FirstFailure, Blocked, TriggerId;
    var ready := if s.starting then s.(h := Begin(flow, Positions(flow, s.starts)), starting := false) else s;
    if s.starting {
      RunLinks(flow, s);
      ReadyKeepsInv(flow, s);
    }
    NextInStep(flow, ready);
    dealt := ready.(h := Apply(flow, ready.h, Next), waiting := flow.nodes[card].step);
  }

  /** The same for a condition the controller answers itself, in the turn that hands it out. */
  lemma BuiltInDecides(flow: Flow, deadline: nat, s: RunState, calls: seq<RunCall>, card: nat, look: Lookup, b: bool, now: nat)
    requires RunInv(flow, s)
    requires var before := AfterCalls(flow, deadline, s, calls);
      HandsOut(deadline, before, Begun(flow, before), card, now)
    requires card < |flow.nodes| && flow.nodes[card].step.Some? && flow.nodes[card].step.value.appId == "stulp"
    requires IsCondition(flow.nodes[card].step.value) && look.argumentsFail.None? && look.condition == Ok(b)
    ensures var before, after := AfterCalls(flow, deadline, s, calls), AfterCalls(flow, deadline, s, calls + [Advance(look, now)]);
      && Settles(flow, before, card, b != flow.nodes[card].step.value.inverted, after)
      && (b == flow.nodes[card].step.value.inverted ==> after.h.state.pending == Begun(flow, before).state.pending)
  {
    hide RunInv, AnswerStep, AdvanceStep, Begin, Positions;
    EveryRunKeepsInv(flow, deadline, s, calls);
    var before := AfterCalls(flow, deadline, s, calls);
    var dealt := HandedOut(flow, deadline, before, card, look, now);
    AnswerSettles(flow, deadline, dealt, b, now);
    assert (calls + [Advance(look, now)])[..|calls|] == calls;
  }

  // ---------- delays and calls ----------

  /** Turns before the given moment. */
  ghost predicate TurnsBefore(calls: seq<RunCall>, limit: nat) {
    forall k :: 0 <= k < |calls| ==> calls[k].Advance? && calls[k].now < limit
  }

  lemma {:induction false} SleepsOn(flow: Flow, deadline: nat, s: RunState, calls: seq<RunCall>, until: nat)
    requires !s.done && s.wake == Some(until) && s.waiting.Some? && TurnsBefore(calls, deadline) && TurnsBefore(calls, until)
    ensures AfterCalls(flow, deadline, s, calls) == s
  {
    if |calls| > 0 {
      SleepsOn(flow, deadline, s, calls[..|calls| - 1], until);
    }
  }

  /**
   * A delay of d milliseconds handed out at a moment: the turns before that moment plus d change nothing,
   * and the first one that is not, before the deadline, reports the card as done and opens its successors.
   */
  lemma DelayPasses(flow: Flow, deadline: nat, s: RunState, card: nat, look: Lookup, d: nat, now: nat, calls: seq<RunCall>, late: Lookup, due: nat)
    requires RunInv(flow, s) && deadline < U64_LIMIT && HandsOut(deadline, s, Begun(flow, s), card, now)
    requires card < |flow.nodes| && flow.nodes[card].step.Some? && flow.nodes[card].step.value.appId == "stulp"
    requires !IsCondition(flow.nodes[card].step.value) && flow.nodes[card].step.value.cardId == "delay"
    requires look.argumentsFail.None? && look.delay == Some(d) && d <= MAX_DELAY_MS
    requires TurnsBefore(calls, deadline) && TurnsBefore(calls, now + d) && now + d <= due < deadline
    ensures var asleep := RunStep(flow, deadline, s, Advance(look, now));
      && asleep.log == s.log && asleep.waiting == flow.nodes[card].step && !asleep.done
      && AfterCalls(flow, deadline, asleep, calls) == asleep
      && Settles(flow, asleep, card, true, RunStep(flow, deadline, asleep, Advance(late, due)))
  {
    hide RunInv, AnswerStep, Settles, Begin, Positions, AfterCalls;
    var dealt := HandedOut(flow, deadline, s, card, look, now);
    var asleep := dealt.(wake := Some(Saturated(now + d)));
    assert RunStep(flow, deadline, s, Advance(look, now)) == asleep by {
      hide AdvanceStep;
    }
    SleepsOn(flow, deadline, asleep, calls, Saturated(now + d));
    DoneSettles(flow, deadline, dealt, card, due);
    SettlesSame(flow, dealt, asleep, card, AnswerStep(flow, deadline, dealt, Boolean(true), due));
    assert asleep.(wake := None) == dealt;
  }

  lemma SettlesSame(flow: Flow, s: RunState, other: RunState, card: nat, after: RunState)
    requires Settles(flow, s, card, true, after) && other.log == s.log
    ensures Settles(flow, other, card, true, after)
  {
  }

  /** A card that is no condition is settled as done by any answer. */
  lemma DoneSettles(flow: Flow, deadline: nat, s: RunState, card: nat, now: nat)
    requires RunInv(flow, s) && !s.done && now < deadline && s.filtering.None?
    requires s.waiting.Some? && !IsCondition(s.waiting.value) && s.h.state.waiting == Some(card)
    ensures Settles(flow, s, card, true, AnswerStep(flow, deadline, s, Boolean(true), now))
  {
    hide Recorded, FilterPhase, FirstFailure, Blocked, Apply, Reached;
    AnswerKeepsInv(flow, deadline, s, Boolean(true), now);
    UnlockStep(flow, s.h, Complete(true), card);
  }

  /**
   * The app a turn calls is that of the filter it asks or of the card it has just delivered; for a built-in
   * card it is the app the store named for the action.
   */
  lemma CallsOwnApp(flow: Flow, deadline: nat, s: RunState, look: Lookup, now: nat, app: string)
    requires RunInv(flow, s) && AdvanceStep(flow, deadline, s, look, now).1 == Ok(Call(app))
    ensures var next := AdvanceStep(flow, deadline, s, look, now).0;
      && !next.done && next.waiting.Some? && s.waiting.None?
      && (next.filtering.Some? ==> s.filters != [] && next.waiting == Some(s.filters[0].1) && app == s.filters[0].1.appId)
      && (next.filtering.None? ==>
        && |next.h.delivered| == |Begun(flow, s).delivered| + 1
        && next.h.delivered[|next.h.delivered| - 1] < |flow.nodes|
        && next.waiting == flow.nodes[next.h.delivered[|next.h.delivered| - 1]].step
        && (if next.waiting.value.appId != "stulp" then app == next.waiting.value.appId else look.action == Ok(app)))
  {
    hide RunInv, Begin, Positions, AnswerStep, FailStep, Apply;
    var h := Begun(flow, s);
    if s.waiting.None? && !(s.starting && s.filters != []) && h.state.waiting.None? && h.state.head < |h.state.pending| {
      var dealt := HandedOut(flow, deadline, s, h.state.pending[h.state.head], look, now);
      hide AdvanceStep;
    }
  }
}
