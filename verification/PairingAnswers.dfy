/** Pairing sessions and new devices from the request to the answer, over every run in between. */
module PairingAnswers {
  import opened Common
  import opened PairingSteps
  import opened PairingHistory
  import opened PairingSessions
  import opened PairingRuns
  import opened PairingRequests

  /** The last answer given is this one, and the others are as they were. */
  ghost predicate AnswersWith(s: State, next: State, token: nat, status: nat) {
    next.replies == s.replies + [Reply(token, status)]
  }

  /** The request was refused: one error for it and nothing else. */
  ghost predicate Refused(s: State, next: State, token: nat) {
    |next.replies| == |s.replies| + 1 && next.replies[|s.replies|].status >= 400 && next == s.(replies := next.replies)
    && AnswersWith(s, next, token, next.replies[|s.replies|].status)
  }

  // ---------- starting a session ----------

  /** A start waits at the app exactly when the driver exists and there is room for it; otherwise it is refused. */
  lemma StartAsked(s: State, env: Env, token: nat, app: string, driver: string)
    ensures var next := Serve(s, env, token, StartPair(app, driver));
      if env.defined && |s.sessions| + Starting(s.pending) < MAX_SESSIONS && CanSend(s, env)
      then next == s.(owner := s.owner + 1, pending :=
        s.pending + [Pending(s.owner + 1, Deadline(env), token, Start(Session(env.newId, app, driver)))])
      else Refused(s, next, token)
  {
  }

  /** A start ends with its session and 201 when the app's answer is good; any other end opens nothing and is an error. */
  lemma StartEnds(s: State, env: Env, c: Completion, p: Pending)
    requires p in s.pending && UniqueOwners(s.pending) && p.stage.Start? && c.owner == p.owner
    ensures var next := Complete(s, env, c).0;
      && (if !c.failed && c.wellFormed
          then next.sessions == s.sessions + [p.stage.session] && AnswersWith(s, next, p.token, 201)
          else next.sessions == s.sessions && AnswersWith(s, next, p.token, 502))
      && next.devices == s.devices
  {
    OwnEntry(s.pending, p);
  }

  /**
   * From request to answer: whatever happens meanwhile, a start that still waits ends with a session under its
   * new id, for the app and driver asked for, and 201, exactly when the app's answer is good. A failure, a
   * malformed answer and the deadline open nothing and are answered 502.
   */
  lemma StartToAnswer(w: World, token: nat, env: Env, app: string, driver: string, moves: seq<Move>, env': Env, c: Completion)
    requires RunInv(w) && Enabled(w, Ask(token, env, StartPair(app, driver)))
    requires Possible(Step(w, Ask(token, env, StartPair(app, driver))), moves)
    requires Serve(w.s, env, token, StartPair(app, driver)).pending != w.s.pending && c.owner == w.s.owner + 1
    requires FindOwner(After(Step(w, Ask(token, env, StartPair(app, driver))), moves).s.pending, w.s.owner + 1).Some?
    ensures var end := After(Step(w, Ask(token, env, StartPair(app, driver))), moves).s;
      var next := Complete(end, env', c).0;
      if !c.failed && c.wellFormed
      then next.sessions == end.sessions + [Session(env.newId, app, driver)] && AnswersWith(end, next, token, 201)
      else next.sessions == end.sessions && AnswersWith(end, next, token, 502)
  {
    hide RunInv, Serve, Complete;
    var m := Ask(token, env, StartPair(app, driver));
    StartAsked(w.s, env, token, app, driver);
    var w1 := Step(w, m);
    var p := Pending(w.s.owner + 1, Deadline(env), token, Start(Session(env.newId, app, driver)));
    assert w1.s.pending[|w.s.pending|] == p;
    StepKeepsInv(w, m);
    RunTable(w1);
    RunKeepsEntry(w1, moves, p);
    RunTable(After(w1, moves));
    StartEnds(After(w1, moves).s, env', c, p);
  }

  lemma ExpiredOpensNothing(s: State, env: Env, owner: nat)
    ensures Complete(s, env, Expired(owner)).0.sessions == s.sessions
  {
  }

  /** Deadlines open nothing. */
  lemma {:induction false} SweepOpensNothing(s: State, envs: nat -> Env, round: nat)
    ensures Poll(s, envs, round).sessions == s.sessions
    decreases |s.pending|
  {
    hide Complete;
    var due := FirstDue(s.pending, envs(round).now);
    if due.Some? {
      var owner := s.pending[due.value].owner;
      DueIsPending(s.pending, envs(round).now);
      ExpiredShrinks(s, envs(round), owner);
      ExpiredOpensNothing(s, envs(round), owner);
      SweepOpensNothing(Complete(s, envs(round), Expired(owner)).0, envs, round + 1);
    }
  }

  // ---------- an open session ----------

  /** Nobody asks to close this session. */
  ghost predicate LeftOpen(moves: seq<Move>, id: string) {
    forall k :: 0 <= k < |moves| ==> !(moves[k].Ask? && moves[k].request == ClosePair(id))
  }

  lemma AskKeepsOpen(s: State, used: set<string>, env: Env, token: nat, r: Request, x: Session)
    requires SessionsOk(s, used) && x in s.sessions && r != ClosePair(x.id)
    ensures x in Serve(s, env, token, r).sessions
  {
    hide SessionsOk, Serve;
    if r.ClosePair? {
      var d := CloseChange(s, env, token, r.session);
      if FindSession(s.sessions, r.session).Some? {
        ClosedIsGone(s, used, env, token, r.session);
      }
    } else {
      var d := AskChange(s, env, token, r);
    }
  }

  lemma CompleteKeepsOpen(s: State, env: Env, c: Completion, x: Session)
    requires x in s.sessions
    ensures x in Complete(s, env, c).0.sessions
  {
    hide Complete;
    var d := CompleteChange(s, env, c);
  }

  lemma StepKeepsOpen(w: World, m: Move, x: Session)
    requires RunInv(w) && x in w.s.sessions && !(m.Ask? && m.request == ClosePair(x.id))
    ensures x in Step(w, m).s.sessions
  {
    hide SessionsOk, Serve, Complete, Poll, Inv, DevicesOk;
    match m
    case Ask(token, env, r) => AskKeepsOpen(w.s, w.used, env, token, r, x);
    case End(env, c) => CompleteKeepsOpen(w.s, env, c, x);
    case Sweep(envs) => SweepOpensNothing(w.s, envs, 0);
    case Elsewhere(devices, owner) =>
  }

  /** A session stays open, for the same app and driver, over every run in which nobody closes it. */
  lemma {:induction false} SessionStays(w: World, moves: seq<Move>, x: Session)
    requires RunInv(w) && Possible(w, moves) && LeftOpen(moves, x.id) && x in w.s.sessions
    ensures RunInv(After(w, moves)) && x in After(w, moves).s.sessions
  {
    hide RunInv, Step;
    if |moves| > 0 {
      var front, m := moves[..|moves| - 1], moves[|moves| - 1];
      assert forall k :: 0 <= k < |front| ==> front[..k] == moves[..k];
      SessionStays(w, front, x);
      StepKeepsInv(After(w, front), m);
      StepKeepsOpen(After(w, front), m, x);
    }
  }

  /** An event is sent to the app of an open session exactly when it is valid and there is room for the call. */
  lemma EmitAsked(s: State, env: Env, token: nat, id: string)
    ensures var next := Serve(s, env, token, EmitPair(id));
      if env.valid && CanSend(s, env) && (exists x :: x in s.sessions && x.id == id)
      then next == s.(owner := s.owner + 1, pending := s.pending + [Pending(s.owner + 1, Deadline(env), token, Emit)])
      else Refused(s, next, token)
  {
    if x :| x in s.sessions && x.id == id {
      var k :| 0 <= k < |s.sessions| && s.sessions[k] == x;
      assert FindSession(s.sessions, id).Some?;
    }
  }

  /**
   * Once a good answer has opened a session, an event for it is sent to the app after every run in which
   * nobody closed it, unless the call is refused or the table is full.
   */
  lemma EmitReaches(w: World, env: Env, c: Completion, p: Pending, moves: seq<Move>, env': Env, token: nat)
    requires RunInv(w) && p in w.s.pending && p.stage.Start? && c.owner == p.owner && !c.failed && c.wellFormed
    requires var w1 := Step(w, End(env, c)); Possible(w1, moves) && LeftOpen(moves, p.stage.session.id)
    ensures var s := After(Step(w, End(env, c)), moves).s;
      var next := Serve(s, env', token, EmitPair(p.stage.session.id));
      && p.stage.session in s.sessions
      && (if env'.valid && CanSend(s, env')
          then next.replies == s.replies && next.pending == s.pending + [Pending(s.owner + 1, Deadline(env'), token, Emit)]
          else Refused(s, next, token))
  {
    hide RunInv, Serve, Complete;
    RunTable(w);
    StartEnds(w.s, env, c, p);
    StepKeepsInv(w, End(env, c));
    var w1 := Step(w, End(env, c));
    assert w1.s.sessions[|w.s.sessions|] == p.stage.session;
    SessionStays(w1, moves, p.stage.session);
    EmitAsked(After(w1, moves).s, env', token, p.stage.session.id);
  }

  // ---------- a new device ----------

  /** How many good answers for this owner number a run brought while it was waited for. */
  ghost function Goods(w: World, moves: seq<Move>, owner: nat): nat {
    if |moves| == 0 then 0
    else
      var front := moves[..|moves| - 1];
      Goods(w, front, owner) + Good(After(w, front), moves[|moves| - 1], owner)
  }

  ghost function Good(w: World, m: Move, owner: nat): nat {
    if MovesOn(m, owner) && FindOwner(w.s.pending, owner).Some? then 1 else 0
  }

  /** The second call of an operation that began with its driver. */
  ghost predicate Second(q: Pending, p: Pending) {
    p.stage.Driver? && q.owner == p.owner && q.token == p.token && q.stage == Init(p.stage.id, p.stage.keep)
  }

  /** After n good answers the operation waits for its first or its second call, or is over. */
  ghost predicate Tracked(s: State, p: Pending, n: nat) {
    && p.owner <= s.owner
    && (FindOwner(s.pending, p.owner).Some? ==>
      (n == 0 && p in s.pending) || (n == 1 && exists q :: q in s.pending && Second(q, p)))
  }

  lemma DriverMoves(s: State, env: Env, c: Completion, p: Pending)
    requires TableOk(s.pending, s.owner) && p in s.pending && p.stage.Driver? && p.owner == c.owner && !c.failed
    ensures Tracked(Complete(s, env, c).0, p, 1)
  {
    OwnEntry(s.pending, p);
    var k :| 0 <= k < |s.pending| && s.pending[k] == p;
    var i, moved := CompleteShape(s, env, c);
    var next := Complete(s, env, c).0;
    assert i == k;
    hide Complete, FindOwner;
    if moved {
      var q := next.pending[|s.pending| - 1];
      assert q in next.pending && Second(q, p);
    } else {
      DropKeepsTable(s.pending, s.owner, i);
      DroppedAt(s.pending, i);
      NobodyHas(next.pending, p.owner);
    }
  }

  lemma StepTracks(w: World, m: Move, p: Pending, n: nat)
    requires RunInv(w) && Enabled(w, m) && Tracked(w.s, p, n) && p.stage.Driver?
    ensures Tracked(Step(w, m).s, p, n + Good(w, m, p.owner))
  {
    hide RunInv, Complete, Serve, Poll, FindOwner;
    RunTable(w);
    if FindOwner(w.s.pending, p.owner).None? {
      GoneStays(w, m, p);
    } else if n == 0 {
      if MovesOn(m, p.owner) {
        DriverMoves(w.s, m.env, m.completion, p);
      } else {
        StepKeepsEntry(w, m, p);
      }
    } else {
      var q :| q in w.s.pending && Second(q, p);
      StepKeepsEntry(w, m, q);
      if MovesOn(m, p.owner) {
        CompleteKeepsEntry(w.s, m.env, m.completion, q);
      }
    }
  }

  lemma GoneStays(w: World, m: Move, p: Pending)
    requires RunInv(w) && Enabled(w, m) && p.owner <= w.s.owner && FindOwner(w.s.pending, p.owner).None?
    ensures FindOwner(Step(w, m).s.pending, p.owner).None? && p.owner <= Step(w, m).s.owner
  {
    hide RunInv, Complete, Serve, Poll;
    match m
    case Ask(token, env, r) => AskStaysGone(w, token, env, r, p.owner);
    case End(env, c) =>
      CompleteOwner(w.s, env, c);
      CompleteStaysGone(w.s, env, c, p.owner);
    case Sweep(envs) =>
      PollOwner(w.s, envs, 0);
      PollStaysGone(w.s, envs, 0, p.owner);
    case Elsewhere(devices, owner) =>
  }

  lemma {:induction false} RunTracks(w: World, moves: seq<Move>, p: Pending)
    requires RunInv(w) && Possible(w, moves) && p in w.s.pending && p.owner <= w.s.owner && p.stage.Driver?
    ensures RunInv(After(w, moves)) && Tracked(After(w, moves).s, p, Goods(w, moves, p.owner))
  {
    hide RunInv, Step, Good;
    if |moves| > 0 {
      var front, m := moves[..|moves| - 1], moves[|moves| - 1];
      assert forall k :: 0 <= k < |front| ==> front[..k] == moves[..k];
      RunTracks(w, front, p);
      hide Tracked;
      StepKeepsInv(After(w, front), m);
      StepTracks(After(w, front), m, p, Goods(w, front, p.owner));
    }
  }

  /** How a device's start ends: only a good second answer for a device that is still stored is a success. */
  lemma StartOfDeviceEnds(s: State, env: Env, c: Completion, q: Pending)
    requires q in s.pending && UniqueOwners(s.pending) && IsInit(q.stage) && c.owner == q.owner
    ensures var next := Complete(s, env, c).0;
      if q.stage.Driver? && !c.failed && env.call.None? then
        next.replies == s.replies && next.devices == s.devices
      else if q.stage.Init? && !c.failed && q.stage.id in s.devices then
        AnswersWith(s, next, q.token, 201) && next.devices == s.devices
      else
        && |next.replies| == |s.replies| + 1 && next.replies[|s.replies|].token == q.token && next.replies[|s.replies|].status >= 500
        && next.devices == if q.stage.keep || !env.deletes then s.devices else s.devices - {q.stage.id}
  {
    OwnEntry(s.pending, q);
    if q.stage.id !in s.devices {
      assert s.devices - {q.stage.id} == s.devices;
    }
  }

  /**
   * From request to answer: a new device is answered 201 exactly by the second good answer of its app, and
   * then it is stored. After one good answer the second call is made; any failure takes it out of the
   * store again, unless the store refuses, and is answered with an error.
   */
  lemma AdditionToAnswer(w: World, token: nat, env: Env, candidate: Device, moves: seq<Move>, env': Env, c: Completion)
    requires RunInv(w) && Enabled(w, Ask(token, env, AddDevice(candidate)))
    requires Possible(Step(w, Ask(token, env, AddDevice(candidate))), moves)
    requires Serve(w.s, env, token, AddDevice(candidate)).pending != w.s.pending && c.owner == w.s.owner + 1
    requires FindOwner(After(Step(w, Ask(token, env, AddDevice(candidate))), moves).s.pending, w.s.owner + 1).Some?
    ensures var w1 := Step(w, Ask(token, env, AddDevice(candidate)));
      var end, n := After(w1, moves).s, Goods(w1, moves, w.s.owner + 1);
      var next := Complete(end, env', c).0;
      && n <= 1
      && (AnswersWith(end, next, token, 201) <==> n == 1 && !c.failed && env.newId in end.devices)
      && (next.replies == end.replies <==> n == 0 && !c.failed && env'.call.None?)
      && (if next.replies == end.replies || AnswersWith(end, next, token, 201) then next.devices == end.devices
          else
            && |next.replies| == |end.replies| + 1 && next.replies[|end.replies|].status >= 500
            && (env'.deletes ==> env.newId !in next.devices))
  {
    hide RunInv, Serve, Complete;
    var m := Ask(token, env, AddDevice(candidate));
    KnownDevices(w);
    AdditionAsked(w.s, env, token, candidate);
    var w1 := Step(w, m);
    var p := Pending(w.s.owner + 1, Deadline(env), token, Driver(candidate.app, env.newId, false));
    assert w1.s.pending[|w.s.pending|] == p;
    StepKeepsInv(w, m);
    RunTable(w1);
    RunTracks(w1, moves, p);
    RunTable(After(w1, moves));
    var end := After(w1, moves).s;
    hide FindOwner;
    if Goods(w1, moves, p.owner) == 0 {
      StartOfDeviceEnds(end, env', c, p);
    } else {
      var q :| q in end.pending && Second(q, p);
      StartOfDeviceEnds(end, env', c, q);
    }
  }

  // ---------- the other calls and the clock ----------

  /** Closing and events are answered 200 when the app has answered; only a failed event is an error. */
  lemma CallEnds(s: State, env: Env, c: Completion, p: Pending)
    requires p in s.pending && UniqueOwners(s.pending) && (p.stage.Close? || p.stage.Emit?) && c.owner == p.owner
    ensures var next := Complete(s, env, c).0;
      && AnswersWith(s, next, p.token, if p.stage.Emit? && c.failed then 502 else 200)
      && next.sessions == s.sessions && next.devices == s.devices
  {
    OwnEntry(s.pending, p);
  }

  /** A closing request for an open session waits for the app when it can be told and is answered 200 at once otherwise. */
  lemma CloseAsked(s: State, env: Env, token: nat, id: string)
    ensures var next := Serve(s, env, token, ClosePair(id));
      if (exists x :: x in s.sessions && x.id == id) && CanSend(s, env)
      then next.replies == s.replies && next.pending == s.pending + [Pending(s.owner + 1, Deadline(env), token, Close)]
      else AnswersWith(s, next, token, 200) && next.pending == s.pending
  {
    if x :| x in s.sessions && x.id == id {
      var k :| 0 <= k < |s.sessions| && s.sessions[k] == x;
      assert FindSession(s.sessions, id).Some?;
    }
  }

  lemma {:induction false} SweepSpares(s: State, accepted: multiset<nat>, envs: nat -> Env, round: nat, p: Pending)
    requires Inv(s, accepted) && p in s.pending && forall r: nat :: envs(r).now < p.deadline
    ensures p in Poll(s, envs, round).pending
    decreases |s.pending|
  {
    hide Inv;
    var due := FirstDue(s.pending, envs(round).now);
    if due.Some? {
      var c := Expired(s.pending[due.value].owner);
      DueIsPending(s.pending, envs(round).now);
      ExpiredShrinks(s, envs(round), c.owner);
      InvTable(s, accepted);
      OwnEntry(s.pending, s.pending[due.value]);
      OwnEntry(s.pending, p);
      CompleteKeepsEntry(s, envs(round), c, p);
      CompleteKeepsInv(s, accepted, envs(round), c);
      SweepSpares(Complete(s, envs(round), c).0, accepted, envs, round + 1, p);
    }
  }

  lemma {:induction false} SweepLeavesNoneDue(s: State, envs: nat -> Env, round: nat, p: Pending)
    requires forall r: nat :: envs(r).now >= p.deadline
    ensures p !in Poll(s, envs, round).pending
    decreases |s.pending|
  {
    hide Complete;
    var due := FirstDue(s.pending, envs(round).now);
    if due.Some? {
      var c := Expired(s.pending[due.value].owner);
      DueIsPending(s.pending, envs(round).now);
      ExpiredShrinks(s, envs(round), c.owner);
      SweepLeavesNoneDue(Complete(s, envs(round), c).0, envs, round + 1, p);
    }
  }

  /**
   * An operation asked for at some moment waits for the time the app is given and one second more: no sweep before
   * that ends it, and every sweep from then on does.
   */
  lemma WaitsItsTime(w: World, env: Env, p: Pending, envs: nat -> Env)
    requires RunInv(w) && p in w.s.pending && p.deadline == Deadline(env) && env.now + env.timeout + 1000 < U64_LIMIT
    ensures (forall r: nat :: envs(r).now < env.now + env.timeout + 1000) ==> p in Step(w, Sweep(envs)).s.pending
    ensures (forall r: nat :: envs(r).now >= env.now + env.timeout + 1000) ==> p !in Step(w, Sweep(envs)).s.pending
  {
    hide RunInv, Poll;
    RunInvInv(w);
    if forall r: nat :: envs(r).now < env.now + env.timeout + 1000 {
      SweepSpares(w.s, w.accepted, envs, 0, p);
    } else if forall r: nat :: envs(r).now >= env.now + env.timeout + 1000 {
      SweepLeavesNoneDue(w.s, envs, 0, p);
    }
  }
}
