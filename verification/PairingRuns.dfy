/** Whole runs of pairing beside the rest of the controller, and the fate of devices that fail to start. */
module PairingRuns {
  import opened Common
  import opened PairingSteps
  import opened PairingHistory
  import opened PairingSessions

  datatype Move =
    | Ask(token: nat, env: Env, request: Request)
    | End(env: Env, completion: Completion)
    | Sweep(envs: nat -> Env)
    | Elsewhere(devices: map<string, Device>, owner: nat)

  /** `used` are all device ids ever given out, `undone` new devices whose start failed and whose removal did not. */
  datatype World = World(s: State, accepted: multiset<nat>, used: set<string>, undone: set<string>)

  function AskUndone(s: State, env: Env, token: nat, r: Request): set<string> {
    if r.AddDevice? && Route(s, env, token, r).1.Some? && env.deletes then {env.newId} else {}
  }

  function CompleteUndone(s: State, env: Env, c: Completion): set<string> {
    match FindOwner(s.pending, c.owner)
    case None => {}
    case Some(i) =>
      var stage := s.pending[i].stage;
      if IsInit(stage) && !stage.keep && env.deletes
         && Finish(s.(pending := Dropped(s.pending, i)), env, c, stage).1.Failed?
      then {stage.id} else {}
  }

  function PollUndone(s: State, envs: nat -> Env, round: nat): set<string>
    decreases |s.pending|
  {
    match FirstDue(s.pending, envs(round).now)
    case None => {}
    case Some(i) =>
      DueIsPending(s.pending, envs(round).now);
      ExpiredShrinks(s, envs(round), s.pending[i].owner);
      CompleteUndone(s, envs(round), Expired(s.pending[i].owner))
      + PollUndone(Complete(s, envs(round), Expired(s.pending[i].owner)).0, envs, round + 1)
  }

  /** New device ids are fresh; other parts of the controller change or remove devices and take owner numbers. */
  predicate Enabled(w: World, m: Move) {
    match m
    case Ask(_, env, r) => NeedsId(r) ==> env.newId !in w.used
    case Elsewhere(devices, owner) => devices.Keys <= w.s.devices.Keys && owner >= w.s.owner
    case _ => true
  }

  function Step(w: World, m: Move): World {
    match m
    case Ask(token, env, r) =>
      World(Serve(w.s, env, token, r), w.accepted + multiset{token},
            if NeedsId(r) then w.used + {env.newId} else w.used, w.undone + AskUndone(w.s, env, token, r))
    case End(env, c) => w.(s := Complete(w.s, env, c).0, undone := w.undone + CompleteUndone(w.s, env, c))
    case Sweep(envs) => w.(s := Poll(w.s, envs, 0), undone := w.undone + PollUndone(w.s, envs, 0))
    case Elsewhere(devices, owner) => w.(s := w.s.(devices := devices, owner := owner))
  }

  function After(w: World, moves: seq<Move>): World {
    if |moves| == 0 then w else Step(After(w, moves[..|moves| - 1]), moves[|moves| - 1])
  }

  ghost predicate Possible(w: World, moves: seq<Move>) {
    forall k :: 0 <= k < |moves| ==> Enabled(After(w, moves[..k]), moves[k])
  }

  function Begin(devices: map<string, Device>, owner: nat): World {
    World(State([], [], owner, devices, []), multiset{}, devices.Keys, {})
  }

  // ---------- devices ----------

  ghost predicate IdsKnown(pending: seq<Pending>, used: set<string>) {
    forall k :: 0 <= k < |pending| && StageDevice(pending[k].stage).Some? ==>
      StageDevice(pending[k].stage).value in used
  }

  ghost predicate DevicesOk(s: State, used: set<string>, undone: set<string>) {
    s.devices.Keys <= used && undone <= used && undone !! s.devices.Keys && IdsKnown(s.pending, used)
  }

  lemma SendKeepsIds(s: State, env: Env, token: nat, stage: Stage, used: set<string>)
    requires IdsKnown(s.pending, used) && (StageDevice(stage).Some? ==> StageDevice(stage).value in used)
    ensures IdsKnown(Send(s, env, token, stage).0.pending, used)
    ensures Send(s, env, token, stage).0.devices == s.devices
  {
  }

  lemma RouteKeepsDevices(s: State, env: Env, token: nat, r: Request, used: set<string>, undone: set<string>)
    requires DevicesOk(s, used, undone) && !r.AddDevice?
    ensures DevicesOk(Route(s, env, token, r).0, used, undone)
    ensures Route(s, env, token, r).0.devices.Keys <= s.devices.Keys
  {
    match r
    case ChangeSettings(id, wanted) =>
      if id in s.devices {
        SendKeepsIds(s, env, token, Settings(id, Patch(wanted, s.devices[id].settings)), used);
      }
    case RemoveDevice(id) =>
      if id in s.devices {
        SendKeepsIds(s, env, token, Delete(id), used);
      }
    case StartPair(app, driver) => SendKeepsIds(s, env, token, Start(Session(env.newId, app, driver)), used);
    case EmitPair(_) => SendKeepsIds(s, env, token, Emit, used);
    case ClosePair(id) =>
      if FindSession(s.sessions, id).Some? {
        SendKeepsIds(s.(sessions := Dropped(s.sessions, FindSession(s.sessions, id).value)), env, token, Close, used);
      }
    case ReplaceDevice(id, candidate) =>
      if id in s.devices {
        var renewed := s.(devices := s.devices[id := s.devices[id].(store := candidate.store)]);
        SendKeepsIds(renewed, env, token, Driver(candidate.app, id, true), used);
      }
  }

  lemma AddKeepsDevices(s: State, env: Env, token: nat, r: Request, used: set<string>, undone: set<string>)
    requires DevicesOk(s, used, undone) && r.AddDevice? && env.newId !in used
    ensures DevicesOk(Route(s, env, token, r).0, used + {env.newId}, undone + AskUndone(s, env, token, r))
  {
    var wider := used + {env.newId};
    assert IdsKnown(s.pending, wider);
    var added := s.(devices := s.devices[env.newId := r.candidate]);
    SendKeepsIds(added, env, token, Driver(r.candidate.app, env.newId, false), wider);
  }

  lemma AskKeepsDevices(s: State, env: Env, token: nat, r: Request, used: set<string>, undone: set<string>)
    requires DevicesOk(s, used, undone) && (NeedsId(r) ==> env.newId !in used)
    ensures DevicesOk(Serve(s, env, token, r), if NeedsId(r) then used + {env.newId} else used,
                      undone + AskUndone(s, env, token, r))
  {
    if r.AddDevice? {
      AddKeepsDevices(s, env, token, r, used, undone);
    } else {
      RouteKeepsDevices(s, env, token, r, used, undone);
      assert undone + AskUndone(s, env, token, r) == undone;
    }
  }

  /** What a completion does to the devices: a device that existed before is never taken away by a failing start. */
  lemma CompleteDevices(s: State, env: Env, c: Completion)
    ensures var next := Complete(s, env, c).0;
      && next.devices.Keys <= s.devices.Keys
      && CompleteUndone(s, env, c) !! next.devices.Keys
      && (forall id :: id in s.devices && id !in next.devices ==>
        exists k :: 0 <= k < |s.pending| && s.pending[k].owner == c.owner && StageDevice(s.pending[k].stage) == Some(id)
          && (s.pending[k].stage.Delete? || (IsInit(s.pending[k].stage) && !s.pending[k].stage.keep)))
  {
    hide FindOwner, Dropped, Deadline;
  }

  /** A failing start leaves its new device in the store only when the removal failed, and then says so. */
  lemma LeftoverIsReported(s: State, env: Env, c: Completion, i: nat)
    requires FindOwner(s.pending, c.owner) == Some(i) && IsInit(s.pending[i].stage) && !s.pending[i].stage.keep
    requires Finish(s.(pending := Dropped(s.pending, i)), env, c, s.pending[i].stage).1.Failed?
    ensures var next := Complete(s, env, c).0;
      && next.replies == s.replies + [Reply(s.pending[i].token, next.replies[|s.replies|].status)]
      && (s.pending[i].stage.id in next.devices ==>
        !env.deletes && next.replies[|s.replies|].status == if env.refusal == Storage then 503 else 502)
  {
  }

  lemma CompleteIds(s: State, env: Env, c: Completion, used: set<string>)
    requires IdsKnown(s.pending, used)
    ensures IdsKnown(Complete(s, env, c).0.pending, used) && CompleteUndone(s, env, c) <= used
  {
    if Complete(s, env, c).1 {
      var i, moved := CompleteShape(s, env, c);
      var next := Complete(s, env, c).0;
      assert forall k :: 0 <= k < |s.pending| - 1 ==> Dropped(s.pending, i)[k] == s.pending[if k < i then k else k + 1];
    }
  }

  lemma CompleteKeepsDevices(s: State, env: Env, c: Completion, used: set<string>, undone: set<string>)
    requires DevicesOk(s, used, undone)
    ensures DevicesOk(Complete(s, env, c).0, used, undone + CompleteUndone(s, env, c))
  {
    CompleteDevices(s, env, c);
    CompleteIds(s, env, c, used);
  }

  lemma {:induction false} PollKeepsDevices(s: State, envs: nat -> Env, round: nat, used: set<string>, undone: set<string>)
    requires DevicesOk(s, used, undone)
    ensures DevicesOk(Poll(s, envs, round), used, undone + PollUndone(s, envs, round))
    decreases |s.pending|
  {
    var due := FirstDue(s.pending, envs(round).now);
    if due.Some? {
      var c := Expired(s.pending[due.value].owner);
      DueIsPending(s.pending, envs(round).now);
      ExpiredShrinks(s, envs(round), c.owner);
      var first := CompleteUndone(s, envs(round), c);
      CompleteKeepsDevices(s, envs(round), c, used, undone);
      var next := Complete(s, envs(round), c).0;
      PollKeepsDevices(next, envs, round + 1, used, undone + first);
      assert undone + first + PollUndone(next, envs, round + 1) == undone + PollUndone(s, envs, round);
    } else {
      assert undone + PollUndone(s, envs, round) == undone;
    }
  }

  // ---------- every run ----------

  ghost predicate RunInv(w: World) {
    Inv(w.s, w.accepted) && DevicesOk(w.s, w.used, w.undone) && SessionsOk(w.s, w.used)
  }

  lemma FreshNotBusy(w: World, id: string)
    requires IdsKnown(w.s.pending, w.used) && id !in w.used
    ensures !Busy(w.s.pending, id)
  {
  }

  lemma ElsewhereKeepsInv(s: State, accepted: multiset<nat>, devices: map<string, Device>, owner: nat)
    requires Inv(s, accepted) && owner >= s.owner
    ensures Inv(s.(devices := devices, owner := owner), accepted)
  {
  }

  lemma StepKeepsInv(w: World, m: Move)
    requires RunInv(w) && Enabled(w, m)
    ensures RunInv(Step(w, m))
  {
    match m
    case Ask(token, env, r) =>
      if r.AddDevice? {
        FreshNotBusy(w, env.newId);
      }
      ServeKeepsInv(w.s, w.accepted, env, token, r);
      AskKeepsDevices(w.s, env, token, r, w.used, w.undone);
      AskKeepsSessions(w.s, w.used, env, token, r);
    case End(env, c) =>
      CompleteKeepsInv(w.s, w.accepted, env, c);
      CompleteKeepsDevices(w.s, env, c, w.used, w.undone);
      CompleteKeepsSessions(w.s, w.used, env, c);
    case Sweep(envs) =>
      var last := PollKeepsInv(w.s, w.accepted, envs, 0);
      PollKeepsDevices(w.s, envs, 0, w.used, w.undone);
      PollKeepsSessions(w.s, w.used, envs, 0);
    case Elsewhere(devices, owner) =>
      ElsewhereKeepsInv(w.s, w.accepted, devices, owner);
  }

  /**
   * Every run from an empty table: owners and devices in it are distinct, both bounds hold, every accepted
   * request waits once or was answered once, and no device whose failed start was undone ever comes back.
   */
  lemma {:induction false} EveryRunKeepsInv(devices: map<string, Device>, owner: nat, moves: seq<Move>)
    requires Possible(Begin(devices, owner), moves)
    ensures RunInv(After(Begin(devices, owner), moves))
  {
    var w := Begin(devices, owner);
    if |moves| > 0 {
      var front := moves[..|moves| - 1];
      assert forall k :: 0 <= k < |front| ==> front[..k] == moves[..k];
      EveryRunKeepsInv(devices, owner, front);
      StepKeepsInv(After(w, front), moves[|moves| - 1]);
    }
  }

  /** A session once closed never comes back, whatever happens. */
  lemma {:induction false} ClosedStaysGone(w: World, moves: seq<Move>, id: string)
    requires RunInv(w) && Absent(w.s, id) && id in w.used && Possible(w, moves)
    ensures RunInv(After(w, moves)) && Absent(After(w, moves).s, id) && id in After(w, moves).used
  {
    hide RunInv, Absent;
    if |moves| > 0 {
      var front, m := moves[..|moves| - 1], moves[|moves| - 1];
      assert forall k :: 0 <= k < |front| ==> front[..k] == moves[..k];
      ClosedStaysGone(w, front, id);
      var before := After(w, front);
      StepKeepsInv(before, m);
      match m
      case Ask(token, env, r) => AskKeepsAbsent(before.s, before.used, env, token, r, id);
      case End(env, c) => CompleteKeepsAbsent(before.s, env, c, id);
      case Sweep(envs) => PollKeepsAbsent(before.s, envs, 0, id);
      case Elsewhere(devices, owner) => ElsewhereKeepsAbsent(before.s, devices, owner, id);
    }
  }

  lemma ElsewhereKeepsAbsent(s: State, devices: map<string, Device>, owner: nat, id: string)
    requires Absent(s, id)
    ensures Absent(s.(devices := devices, owner := owner), id)
  {
  }

  // ---------- answers ----------

  lemma {:induction false} AnsweredCount(replies: seq<Reply>, token: nat, k: nat)
    requires k < |replies| && replies[k].token == token
    ensures Answered(replies)[token] >= 1
  {
    if k < |replies| - 1 {
      AnsweredCount(replies[..|replies| - 1], token, k);
    }
  }

  lemma {:induction false} AnsweredTwice(replies: seq<Reply>, token: nat, i: nat, j: nat)
    requires i < j < |replies| && replies[i].token == token == replies[j].token
    ensures Answered(replies)[token] >= 2
  {
    if j == |replies| - 1 {
      AnsweredCount(replies[..j], token, i);
    } else {
      AnsweredTwice(replies[..|replies| - 1], token, i, j);
    }
  }

  lemma {:induction false} WaitingCount(pending: seq<Pending>, token: nat, k: nat)
    requires k < |pending| && pending[k].token == token
    ensures Waiting(pending)[token] >= 1
  {
    if k < |pending| - 1 {
      WaitingCount(pending[..|pending| - 1], token, k);
    }
  }

  lemma {:induction false} AnsweredWitness(replies: seq<Reply>, token: nat) returns (k: nat)
    requires token in Answered(replies)
    ensures k < |replies| && replies[k].token == token
  {
    if replies[|replies| - 1].token == token {
      k := |replies| - 1;
    } else {
      k := AnsweredWitness(replies[..|replies| - 1], token);
    }
  }

  /** A request asked once is answered at most once, not while it waits, and has its answer once it no longer waits. */
  lemma AnsweredExactlyOnce(w: World, token: nat)
    requires RunInv(w) && w.accepted[token] == 1
    ensures forall i, j :: 0 <= i < j < |w.s.replies| ==> !(w.s.replies[i].token == token == w.s.replies[j].token)
    ensures (exists k :: 0 <= k < |w.s.replies| && w.s.replies[k].token == token) <==> token !in Waiting(w.s.pending)
  {
    assert Waiting(w.s.pending)[token] + Answered(w.s.replies)[token] == 1;
    forall i, j | 0 <= i < j < |w.s.replies| ensures !(w.s.replies[i].token == token == w.s.replies[j].token) {
      if w.s.replies[i].token == token == w.s.replies[j].token {
        AnsweredTwice(w.s.replies, token, i, j);
      }
    }
    if k: nat :| k < |w.s.replies| && w.s.replies[k].token == token {
      AnsweredCount(w.s.replies, token, k);
    }
    if token !in Waiting(w.s.pending) {
      var k := AnsweredWitness(w.s.replies, token);
    }
  }

  ghost predicate AllDue(pending: seq<Pending>, envs: nat -> Env) {
    forall r: nat, k :: 0 <= k < |pending| ==> pending[k].deadline <= envs(r).now
  }

  /** When the clock has passed every deadline, a sweep answers all that wait. */
  lemma SweepAnswersAll(w: World, envs: nat -> Env)
    requires RunInv(w) && AllDue(w.s.pending, envs)
    ensures Step(w, Sweep(envs)).s.pending == []
  {
    PollEmpties(w.s, envs, 0);
  }

  lemma ExpiredDrops(s: State, env: Env, owner: nat) returns (i: nat)
    requires FindOwner(s.pending, owner).Some?
    ensures i < |s.pending| && Complete(s, env, Expired(owner)).0.pending == Dropped(s.pending, i)
  {
    var at, moved := CompleteShape(s, env, Expired(owner));
    i := at;
  }

  lemma DropStaysDue(pending: seq<Pending>, envs: nat -> Env, i: nat)
    requires AllDue(pending, envs) && i < |pending|
    ensures AllDue(Dropped(pending, i), envs)
  {
    assert forall k :: 0 <= k < |pending| - 1 ==> Dropped(pending, i)[k] == pending[if k < i then k else k + 1];
  }

  lemma {:induction false} PollEmpties(s: State, envs: nat -> Env, round: nat)
    requires AllDue(s.pending, envs)
    ensures Poll(s, envs, round).pending == []
    decreases |s.pending|
  {
    if s.pending != [] {
      assert s.pending[0].deadline <= envs(round).now;
      var due := FirstDue(s.pending, envs(round).now).value;
      var owner := s.pending[due].owner;
      DueIsPending(s.pending, envs(round).now);
      ExpiredShrinks(s, envs(round), owner);
      var i := ExpiredDrops(s, envs(round), owner);
      DropStaysDue(s.pending, envs, i);
      PollEmpties(Complete(s, envs(round), Expired(owner)).0, envs, round + 1);
    }
  }
}
