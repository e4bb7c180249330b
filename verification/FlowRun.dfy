/**
 * One run of a flow: it owns a snapshot of the flow, asks its owner for one effect at a time and is
 * resumed by callbacks, timers and failures. What the owner would look up in the store (resolved
 * arguments, built-in conditions and actions) arrives as a parameter.
 */
module FlowRun {
  import opened Common
  import opened FlowGraph
  import opened FlowExecution
  import opened FlowExecutor

  const TIMEOUT_MS: nat := 45_000
  const MAX_DELAY_MS: nat := 30_000
  const TIMED_OUT := "flow execution timed out"
  const NO_FILTER_ANSWER := "flow trigger filter did not return a boolean"
  const NO_CONDITION_ANSWER := "flow condition did not return a boolean"
  const BAD_DELAY := "delay must be between 0 and 30 seconds"

  /** What a callback reports: a boolean, or some other JSON value. */
  datatype Answer = Boolean(value: bool) | Other

  datatype Outcome = Reported(passed: bool) | Failed(message: string) | Unfinished

  datatype CardResult = CardResult(step: Step, outcome: Outcome)

  datatype Effect = Call(app: string) | Notification | Waiting | Finished

  datatype RunFault = ArgumentsFailed | Executor(fault: CallFault) | NoCallback | ClockOverflow

  /** The store's answers while one card is dispatched. */
  datatype Lookup = Lookup(
    argumentsFail: Option<string>, condition: Result<bool, string>, delay: Option<nat>, action: Result<string, string>)

  predicate IsCondition(step: Step) {
    step.cardType == "condition"
  }

  /** Whether a card with this result let its successors run. */
  predicate Proceeds(r: CardResult) {
    r.outcome.Reported? && r.outcome.passed
  }

  /** The results of one kind, in the order they were recorded. */
  function Select(log: seq<CardResult>, conditions: bool): seq<CardResult> {
    if |log| == 0 then []
    else
      var front, last := Select(log[..|log| - 1], conditions), log[|log| - 1];
      if IsCondition(last.step) == conditions then front + [last] else front
  }

  lemma {:induction false} SelectSizes(log: seq<CardResult>)
    ensures |Select(log, true)| + |Select(log, false)| == |log|
  {
    if |log| > 0 {
      SelectSizes(log[..|log| - 1]);
    }
  }

  lemma SelectSnoc(log: seq<CardResult>, r: CardResult)
    ensures Select(log + [r], true) == if IsCondition(r.step) then Select(log, true) + [r] else Select(log, true)
    ensures Select(log + [r], false) == if IsCondition(r.step) then Select(log, false) else Select(log, false) + [r]
  {
    assert (log + [r])[..|log|] == log;
  }

  /** Results are recorded for the delivered cards, in order, and say which of them let others run. */
  ghost predicate Recorded(flow: Flow, h: History, log: seq<CardResult>) {
    && |log| + (if h.state.waiting.Some? then 1 else 0) == |h.delivered|
    && (forall k :: 0 <= k < |h.delivered| ==> h.delivered[k] < |flow.nodes|)
    && (forall k :: 0 <= k < |log| ==> flow.nodes[h.delivered[k]].step == Some(log[k].step))
    && (forall k :: 0 <= k < |log| ==> (h.delivered[k] in h.unlocked <==> Proceeds(log[k])))
  }

  ghost predicate HasSteps(flow: Flow) {
    forall i :: 0 <= i < |flow.nodes| ==> flow.nodes[i].step.Some?
  }

  lemma ValidHasSteps(flow: Flow)
    requires ValidFlow(flow)
    ensures HasSteps(flow)
  {
    forall i | 0 <= i < |flow.nodes| ensures flow.nodes[i].step.Some? {
      assert CardFault(flow.nodes[i]) == Accepted;
    }
  }

  lemma DeliverKeepsRecorded(flow: Flow, h: History, log: seq<CardResult>)
    requires Inv(flow, h) && Recorded(flow, h, log)
    ensures Recorded(flow, Apply(flow, h, Next), log)
  {
    ApplyKeepsInv(flow, h, Next);
    QueueFits(flow, Apply(flow, h, Next));
  }

  lemma ReportSettles(flow: Flow, h: History, e: Event)
    requires Inv(flow, h) && h.state.waiting.Some? && !e.Next?
    ensures Apply(flow, h, e).state.waiting.None? && Apply(flow, h, e).delivered == h.delivered
  {
    var s, w := h.state, h.state.waiting.value;
    if e.Complete? && w < |flow.nodes| && Opens(flow.nodes[w], e.passed) {
      var settled := s.(waiting := None, visited := s.visited + {w});
      assert settled.visited == s.visited;
      SpreadKeepsQueue(flow, w, |flow.edges|, settled, h.started);
    }
  }

  /** Completing or skipping the card in flight records exactly one result for it. */
  lemma ReportKeepsRecorded(flow: Flow, h: History, e: Event, log: seq<CardResult>, r: CardResult)
    requires Inv(flow, h) && Recorded(flow, h, log) && h.state.waiting.Some? && !e.Next?
    requires flow.nodes[h.delivered[|log|]].step == Some(r.step)
    requires e.Skip? ==> !Proceeds(r)
    requires e.Complete? ==> (Proceeds(r) <==> (IsCondition(r.step) ==> e.passed != r.step.inverted))
    ensures Recorded(flow, Apply(flow, h, e), log + [r])
  {
    var h', n := Apply(flow, h, e), |log|;
    var w := h.state.waiting.value;
    assert h.delivered[n] == w;
    QueueFits(flow, h);
    ReportSettles(flow, h, e);
    forall k | 0 <= k < n + 1 ensures h'.delivered[k] in h'.unlocked <==> Proceeds((log + [r])[k]) {
      if k < n {
        assert h.delivered[k] != w;
      } else {
        assert Opens(flow.nodes[w], true) || IsCondition(r.step);
      }
    }
  }

  // ---------- the run as a state machine ----------

  datatype RunState = RunState(
    h: History, wake: Option<nat>, waiting: Option<Step>, log: seq<CardResult>, blocked: bool, done: bool, error: string,
    filters: seq<(string, Step)>, starts: seq<string>, starting: bool, filtering: Option<string>)

  function Fresh(h: History, starts: seq<string>, filters: seq<(string, Step)>, starting: bool): RunState {
    RunState(h, None, None, [], false, false, "", filters, starts, starting, None)
  }

  /** End the run with the waiting card in the result. */
  function Stopped(s: RunState, message: string): RunState {
    if s.done then s
    else
      s.(log := if s.waiting.Some? then s.log + [CardResult(s.waiting.value, Unfinished)] else s.log,
         error := message, waiting := None, wake := None, done := true)
  }

  predicate ActionInFlight(s: RunState) {
    s.filtering.None? && s.waiting.Some? && s.waiting.value.cardType == "action"
  }

  /** A failed action ends its own branch; a failed filter or condition ends the run. */
  function FailStep(flow: Flow, s: RunState, message: string): RunState {
    if s.done then s
    else if !ActionInFlight(s) then Stopped(s, message)
    else
      s.(h := Apply(flow, s.h, Skip), waiting := None, wake := None,
         log := s.log + [CardResult(s.waiting.value, Failed(message))],
         error := if s.error == "" then message else s.error)
  }

  /** A callback reports back. */
  function AnswerStep(flow: Flow, deadline: nat, s: RunState, answer: Answer, now: nat): RunState {
    if s.done then s
    else if now >= deadline then Stopped(s, TIMED_OUT)
    else if s.filtering.Some? then
      var open := s.(filtering := None);
      if answer.Other? then Stopped(open, NO_FILTER_ANSWER)
      else open.(starts := if answer.value then s.starts + [s.filtering.value] else s.starts, waiting := None)
    else if s.waiting.None? then s
    else
      var step := s.waiting.value;
      var condition := IsCondition(step);
      if condition && answer.Other? then Stopped(s, NO_CONDITION_ANSWER)
      else
        var raw := if condition then answer.value else true;
        var passed := !condition || raw != step.inverted;
        s.(h := Apply(flow, s.h, Complete(raw)), waiting := None, wake := None,
           log := s.log + [CardResult(step, Reported(passed))], blocked := s.blocked || !passed)
  }

  /** Dispatch a delivered card, given what the store answers. */
  function DispatchStep(flow: Flow, deadline: nat, s: RunState, look: Lookup, now: nat): (RunState, Effect)
    requires s.waiting.Some?
  {
    var step := s.waiting.value;
    if look.argumentsFail.Some? then Failing(flow, s, look.argumentsFail.value)
    else if step.appId != "stulp" then (s, Call(step.appId))
    else if IsCondition(step) then
      match look.condition
      case Ok(b) => (AnswerStep(flow, deadline, s, Boolean(b), now), Waiting)
      case Err(message) => Failing(flow, s, message)
    else if step.cardId == "delay" then
      if look.delay.Some? && look.delay.value <= MAX_DELAY_MS
      then (s.(wake := Some(Saturated(now + look.delay.value))), Waiting)
      else Failing(flow, s, BAD_DELAY)
    else if step.cardId == "notification" then (s, Notification)
    else
      match look.action
      case Ok(app) => (s, Call(app))
      case Err(message) => Failing(flow, s, message)
  }

  function Failing(flow: Flow, s: RunState, message: string): (RunState, Effect) {
    var failed := FailStep(flow, s, message);
    (failed, if failed.done then Finished else Waiting)
  }

  function Saturated(t: nat): nat {
    if t < U64_LIMIT then t else U64_LIMIT - 1
  }

  /** Hand out the next card, or finish when the executor is dry. */
  function DeliverStep(flow: Flow, deadline: nat, s: RunState, look: Lookup, now: nat): (RunState, Effect) {
    if s.h.state.waiting.Some? || s.h.state.head >= |s.h.state.pending| then (s.(done := true), Finished)
    else
      var card := s.h.state.pending[s.h.state.head];
      if card >= |flow.nodes| || flow.nodes[card].step.None? then (s.(done := true), Finished)
      else DispatchStep(flow, deadline, s.(h := Apply(flow, s.h, Next), waiting := flow.nodes[card].step), look, now)
  }

  function AdvanceStep(flow: Flow, deadline: nat, s: RunState, look: Lookup, now: nat)
    : (RunState, Result<Effect, RunFault>)
  {
    if s.done then (s, Ok(Finished))
    else if now >= deadline then (Stopped(s, TIMED_OUT), Ok(Finished))
    else if s.wake.Some? then
      (if now >= s.wake.value then AnswerStep(flow, deadline, s.(wake := None), Boolean(true), now) else s, Ok(Waiting))
    else if s.waiting.Some? then (s, Ok(Waiting))
    else if s.starting && s.filters != [] then
      var rest := s.(filters := s.filters[1..]);
      if look.argumentsFail.Some? then (rest, Err(ArgumentsFailed))
      else (rest.(filtering := Some(s.filters[0].0), waiting := Some(s.filters[0].1)), Ok(Call(s.filters[0].1.appId)))
    else
      var ready := if s.starting then s.(h := Begin(flow, Positions(flow, s.starts)), starting := false) else s;
      var (next, effect) := DeliverStep(flow, deadline, ready, look, now);
      (next, Ok(effect))
  }

  // ---------- what every run keeps ----------

  /** The first failure message that says anything. */
  function FirstFailure(log: seq<CardResult>): string {
    if |log| == 0 then ""
    else
      var earlier, last := FirstFailure(log[..|log| - 1]), log[|log| - 1];
      if earlier == "" && last.outcome.Failed? then last.outcome.message else earlier
  }

  ghost predicate Blocked(log: seq<CardResult>) {
    exists k :: 0 <= k < |log| && log[k].outcome == Reported(false)
  }

  ghost predicate FilterPhase(flow: Flow, s: RunState) {
    && TriggerIds(flow, s.starts)
    && (forall k :: 0 <= k < |s.filters| ==> TriggerId(flow, s.filters[k].0))
    && |s.starts| + |s.filters| + (if s.filtering.Some? then 1 else 0) <= MAX_NODES
    && (s.filtering.Some? ==> s.starting && s.waiting.Some? && TriggerId(flow, s.filtering.value))
    && (s.starting ==> s.log == [] && s.h.delivered == [] && s.h.state.waiting.None?)
  }

  /** A non-filter card waits exactly when the executor waits, and it is the same card. */
  ghost predicate InStep(flow: Flow, s: RunState) {
    && (s.waiting.Some? && s.filtering.None? <==> s.h.state.waiting.Some?)
    && (s.h.state.waiting.Some? ==>
      s.h.state.waiting.value < |flow.nodes| && flow.nodes[s.h.state.waiting.value].step == s.waiting)
    && (s.wake.Some? ==> s.waiting.Some? && s.filtering.None?)
  }

  ghost predicate Running(flow: Flow, s: RunState) {
    && Inv(flow, s.h) && HasSteps(flow) && FilterPhase(flow, s) && InStep(flow, s)
    && Recorded(flow, s.h, s.log)
    && (s.blocked <==> Blocked(s.log)) && s.error == FirstFailure(s.log)
  }

  ghost predicate RunInv(flow: Flow, s: RunState) {
    |s.log| <= MAX_NODES && (!s.done ==> Running(flow, s))
  }

  lemma RoomForOne(flow: Flow, s: RunState)
    requires Running(flow, s)
    ensures |s.log| + (if s.waiting.Some? then 1 else 0) <= MAX_NODES
  {
    QueueFits(flow, s.h);
  }

  lemma StoppedKeepsInv(flow: Flow, s: RunState, message: string)
    requires RunInv(flow, s)
    ensures RunInv(flow, Stopped(s, message)) && Stopped(s, message).done
  {
    if !s.done {
      RoomForOne(flow, s);
    }
  }

  lemma LogSnoc(log: seq<CardResult>, r: CardResult)
    ensures Blocked(log + [r]) <==> Blocked(log) || r.outcome == Reported(false)
    ensures FirstFailure(log + [r]) ==
      if FirstFailure(log) == "" && r.outcome.Failed? then r.outcome.message else FirstFailure(log)
  {
    var longer := log + [r];
    assert longer[..|log|] == log;
    assert longer[|log|] == r;
    if Blocked(log) {
      var k :| 0 <= k < |log| && log[k].outcome == Reported(false);
      assert longer[k] == log[k];
    }
    if Blocked(longer) && r.outcome != Reported(false) {
      var k :| 0 <= k < |longer| && longer[k].outcome == Reported(false);
      assert log[k] == longer[k];
    }
  }

  /** Reporting the card in flight, by completion or failure, keeps the run in step. */
  lemma ReportKeepsRunning(flow: Flow, s: RunState, e: Event, r: CardResult, s': RunState)
    requires Running(flow, s) && s.waiting == Some(r.step) && s.filtering.None? && !e.Next?
    requires e.Skip? ==> r.outcome.Failed?
    requires e.Complete? ==> r.outcome == Reported(!IsCondition(r.step) || e.passed != r.step.inverted)
    requires s' == s.(h := Apply(flow, s.h, e), waiting := None, wake := None, log := s.log + [r],
                      blocked := s.blocked || r.outcome == Reported(false),
                      error := if s.error == "" && r.outcome.Failed? then r.outcome.message else s.error)
    ensures Running(flow, s') && |s'.log| <= MAX_NODES
  {
    RoomForOne(flow, s);
    ApplyKeepsInv(flow, s.h, e);
    ReportSettles(flow, s.h, e);
    ReportKeepsRecorded(flow, s.h, e, s.log, r);
    LogSnoc(s.log, r);
  }

  lemma FailKeepsInv(flow: Flow, s: RunState, message: string)
    requires RunInv(flow, s)
    ensures RunInv(flow, FailStep(flow, s, message))
  {
    if s.done || !ActionInFlight(s) {
      StoppedKeepsInv(flow, s, message);
    } else {
      ReportKeepsRunning(flow, s, Skip, CardResult(s.waiting.value, Failed(message)), FailStep(flow, s, message));
    }
  }

  lemma AnswerKeepsInv(flow: Flow, deadline: nat, s: RunState, answer: Answer, now: nat)
    requires RunInv(flow, s)
    ensures RunInv(flow, AnswerStep(flow, deadline, s, answer, now))
  {
    if s.done || now >= deadline {
      StoppedKeepsInv(flow, s, TIMED_OUT);
    } else if s.filtering.Some? {
      assert s.log == [];
      if answer.Boolean? && answer.value {
        var starts := s.starts + [s.filtering.value];
        assert forall k :: 0 <= k < |starts| ==> TriggerId(flow, starts[k]);
      }
    } else if s.waiting.Some? {
      var step := s.waiting.value;
      if IsCondition(step) && answer.Other? {
        StoppedKeepsInv(flow, s, NO_CONDITION_ANSWER);
      } else {
        var raw := if IsCondition(step) then answer.value else true;
        var r := CardResult(step, Reported(!IsCondition(step) || raw != step.inverted));
        ReportKeepsRunning(flow, s, Complete(raw), r, AnswerStep(flow, deadline, s, answer, now));
      }
    }
  }

  lemma DelayKeepsInv(flow: Flow, s: RunState, until: nat)
    requires RunInv(flow, s) && s.waiting.Some? && s.filtering.None?
    ensures RunInv(flow, s.(wake := Some(until)))
  {
    hide Inv, HasSteps, TriggerId, FirstFailure, Blocked;
  }

  lemma DispatchKeepsInv(flow: Flow, deadline: nat, s: RunState, look: Lookup, now: nat)
    requires RunInv(flow, s) && !s.done && s.waiting.Some? && s.filtering.None? && s.wake.None?
    ensures RunInv(flow, DispatchStep(flow, deadline, s, look, now).0)
  {
    hide RunInv, AnswerStep, FailStep;
    if look.delay.Some? {
      DelayKeepsInv(flow, s, Saturated(now + look.delay.value));
    }
    if look.argumentsFail.Some? {
      FailKeepsInv(flow, s, look.argumentsFail.value);
    } else if s.waiting.value.appId == "stulp" {
      match look.condition {
        case Ok(b) => AnswerKeepsInv(flow, deadline, s, Boolean(b), now);
        case Err(message) => FailKeepsInv(flow, s, message);
      }
      FailKeepsInv(flow, s, BAD_DELAY);
      if look.action.Err? {
        FailKeepsInv(flow, s, look.action.error);
      }
    }
  }

  /** The next card goes into flight. */
  lemma NextInStep(flow: Flow, s: RunState)
    requires RunInv(flow, s) && !s.done && s.waiting.None? && s.wake.None? && !s.starting
    requires s.h.state.waiting.None? && s.h.state.head < |s.h.state.pending|
    ensures var card := s.h.state.pending[s.h.state.head];
      card < |flow.nodes| && flow.nodes[card].step.Some?
      && RunInv(flow, s.(h := Apply(flow, s.h, Next), waiting := flow.nodes[card].step))
  {
    var card := s.h.state.pending[s.h.state.head];
    assert card in s.h.state.pending;
    ApplyKeepsInv(flow, s.h, Next);
    DeliverKeepsRecorded(flow, s.h, s.log);
  }

  lemma DeliverKeepsInv(flow: Flow, deadline: nat, s: RunState, look: Lookup, now: nat)
    requires RunInv(flow, s) && !s.done && s.waiting.None? && s.wake.None? && !s.starting
    ensures RunInv(flow, DeliverStep(flow, deadline, s, look, now).0)
  {
    var q := s.h.state;
    if q.head < |q.pending| {
      NextInStep(flow, s);
      var delivered := s.(h := Apply(flow, s.h, Next), waiting := flow.nodes[q.pending[q.head]].step);
      DispatchKeepsInv(flow, deadline, delivered, look, now);
    }
  }

  lemma ReadyKeepsInv(flow: Flow, s: RunState)
    requires RunInv(flow, s) && !s.done && s.starting && s.filters == [] && s.waiting.None? && Links(flow)
    ensures RunInv(flow, s.(h := Begin(flow, Positions(flow, s.starts)), starting := false))
  {
    PositionsAreStarts(flow, s.starts);
    BeginKeepsInv(flow, Positions(flow, s.starts));
  }

  lemma WakeKeepsInv(flow: Flow, s: RunState)
    requires RunInv(flow, s)
    ensures RunInv(flow, s.(wake := None))
  {
  }

  lemma RunLinks(flow: Flow, s: RunState)
    requires RunInv(flow, s) && !s.done
    ensures Links(flow)
  {
  }

  lemma AdvanceKeepsInv(flow: Flow, deadline: nat, s: RunState, look: Lookup, now: nat)
    requires RunInv(flow, s)
    ensures RunInv(flow, AdvanceStep(flow, deadline, s, look, now).0)
  {
    hide AnswerStep, DeliverStep, Begin, Positions, Links, Inv, HasSteps, Recorded, FirstFailure, Blocked, TriggerId;
    if s.done || now >= deadline {
      StoppedKeepsInv(flow, s, TIMED_OUT);
    } else if s.wake.Some? {
      AnswerKeepsInv(flow, deadline, s.(wake := None), Boolean(true), now);
    } else if s.waiting.None? {
      if s.starting && s.filters != [] {
        assert TriggerId(flow, s.filters[0].0);
      } else if s.starting {
        RunLinks(flow, s);
        ReadyKeepsInv(flow, s);
        DeliverKeepsInv(flow, deadline, s.(h := Begin(flow, Positions(flow, s.starts)), starting := false), look, now);
      } else {
        DeliverKeepsInv(flow, deadline, s, look, now);
      }
    }
  }

  // ---------- whole runs ----------

  datatype RunCall =
    | Advance(look: Lookup, now: nat)
    | Answered(answer: Answer, now: nat)
    | Failure(message: string)
    | Halt(message: string)

  function RunStep(flow: Flow, deadline: nat, s: RunState, c: RunCall): RunState {
    match c
    case Advance(look, now) => AdvanceStep(flow, deadline, s, look, now).0
    case Answered(answer, now) => AnswerStep(flow, deadline, s, answer, now)
    case Failure(message) => FailStep(flow, s, message)
    case Halt(message) => Stopped(s, message)
  }

  function AfterCalls(flow: Flow, deadline: nat, s: RunState, calls: seq<RunCall>): RunState {
    if |calls| == 0 then s
    else RunStep(flow, deadline, AfterCalls(flow, deadline, s, calls[..|calls| - 1]), calls[|calls| - 1])
  }

  /** In every run the results stay in step with the cards delivered and fit their 128 entries. */
  lemma {:induction false} EveryRunKeepsInv(flow: Flow, deadline: nat, s: RunState, calls: seq<RunCall>)
    requires RunInv(flow, s)
    ensures RunInv(flow, AfterCalls(flow, deadline, s, calls))
    decreases |calls|
  {
    if |calls| > 0 {
      var n := |calls| - 1;
      EveryRunKeepsInv(flow, deadline, s, calls[..n]);
      var before := AfterCalls(flow, deadline, s, calls[..n]);
      match calls[n]
      case Advance(look, now) => AdvanceKeepsInv(flow, deadline, before, look, now);
      case Answered(answer, now) => AnswerKeepsInv(flow, deadline, before, answer, now);
      case Failure(message) => FailKeepsInv(flow, before, message);
      case Halt(message) => StoppedKeepsInv(flow, before, message);
    }
  }

  /** Once done, no further call changes anything. */
  lemma {:induction false} DoneIsFinal(flow: Flow, deadline: nat, s: RunState, calls: seq<RunCall>)
    requires s.done
    ensures AfterCalls(flow, deadline, s, calls) == s
    decreases |calls|
  {
    if |calls| > 0 {
      DoneIsFinal(flow, deadline, s, calls[..|calls| - 1]);
    }
  }

  /** Advancing or answering at or past the deadline ends the run. */
  lemma DeadlineEnds(flow: Flow, deadline: nat, s: RunState, calls: seq<RunCall>, last: RunCall)
    requires match last case Advance(_, now) => now >= deadline case Answered(_, now) => now >= deadline case _ => false
    ensures AfterCalls(flow, deadline, s, calls + [last]).done
  {
    assert (calls + [last])[..|calls|] == calls;
  }

  /** The cards that let their successors run, read off the recorded results. */
  ghost function Succeeded(s: RunState): set<nat> {
    set k | 0 <= k < |s.log| && k < |s.h.delivered| && Proceeds(s.log[k]) :: s.h.delivered[k]
  }

  /**
   * A run that ends because nothing is left has one result for each card delivered, in order, and has
   * delivered exactly the cards reachable from its triggers through cards whose result let them pass.
   */
  lemma DryFinish(flow: Flow, deadline: nat, s: RunState, look: Lookup, now: nat, v: nat)
    requires RunInv(flow, s) && !s.done && s.waiting.None? && !s.starting && now < deadline
    requires s.h.state.head == |s.h.state.pending|
    ensures AdvanceStep(flow, deadline, s, look, now) == (s.(done := true), Ok(Finished))
    ensures |s.log| == |s.h.delivered|
    ensures forall k :: 0 <= k < |s.log| ==>
      s.h.delivered[k] < |flow.nodes| && flow.nodes[s.h.delivered[k]].step == Some(s.log[k].step)
    ensures v in s.h.delivered <==> Reached(flow, s.h.started, s.h.started + Succeeded(s), v)
  {
    DryMeansReachable(flow, s.h, v);
    assert s.h.unlocked == s.h.started + Succeeded(s) by {
      forall u | u in s.h.unlocked ensures u in s.h.started + Succeeded(s) {
        if u !in s.h.started {
          var k :| 0 <= k < |s.h.delivered| && s.h.delivered[k] == u;
          assert Proceeds(s.log[k]);
        }
      }
    }
  }
}
