/** What a caller of pairing can rely on, from a request to its answer. */
module PairingRequests {
  import opened Common
  import opened PairingSteps
  import opened PairingHistory
  import opened PairingSessions
  import opened PairingRuns

  // ---------- an operation while it waits ----------

  /** A completion leaves every other entry alone, and takes its own off the table unless it moves on. */
  lemma CompleteKeepsEntry(s: State, env: Env, c: Completion, p: Pending)
    requires TableOk(s.pending, s.owner) && p in s.pending && (p.stage.Driver? && p.owner == c.owner ==> c.failed)
    ensures var next := Complete(s, env, c).0;
      if p.owner == c.owner then FindOwner(next.pending, p.owner).None? else p in next.pending
  {
    if Complete(s, env, c).1 {
      var i, moved := CompleteShape(s, env, c);
      EndedKeepsEntry(s, i, Complete(s, env, c).0, moved, p);
    }
  }

  lemma EndedKeepsEntry(s: State, i: nat, next: State, moved: bool, p: Pending)
    requires TableOk(s.pending, s.owner) && Ended(s, i, next, moved) && p in s.pending
    requires moved ==> p.owner != s.pending[i].owner || !p.stage.Driver?
    ensures if p.owner == s.pending[i].owner then FindOwner(next.pending, p.owner).None? else p in next.pending
  {
    hide FindOwner, Dropped, UniqueDevices, OwnersBelow;
    var k :| 0 <= k < |s.pending| && s.pending[k] == p;
    DropKeepsTable(s.pending, s.owner, i);
    DroppedAt(s.pending, i);
    if k == i {
      NobodyHas(next.pending, p.owner);
    } else {
      var at := if k < i then k else k - 1;
      assert Dropped(s.pending, i)[at] == p;
      assert next.pending[at] == p;
    }
  }

  lemma NobodyHas(pending: seq<Pending>, owner: nat)
    requires forall k :: 0 <= k < |pending| ==> pending[k].owner != owner
    ensures FindOwner(pending, owner).None?
  {
  }

  lemma {:induction false} PollKeepsEntry(s: State, accepted: multiset<nat>, envs: nat -> Env, round: nat, p: Pending)
    requires Inv(s, accepted) && p in s.pending
    ensures var next := Poll(s, envs, round); p in next.pending || FindOwner(next.pending, p.owner).None?
    decreases |s.pending|
  {
    hide Inv;
    var due := FirstDue(s.pending, envs(round).now);
    if due.Some? {
      var c := Expired(s.pending[due.value].owner);
      DueIsPending(s.pending, envs(round).now);
      ExpiredShrinks(s, envs(round), c.owner);
      InvTable(s, accepted);
      CompleteKeepsEntry(s, envs(round), c, p);
      CompleteKeepsInv(s, accepted, envs(round), c);
      var next := Complete(s, envs(round), c).0;
      if p.owner == c.owner {
        PollStaysGone(next, envs, round + 1, p.owner);
      } else {
        PollKeepsEntry(next, accepted, envs, round + 1, p);
      }
    }
  }

  lemma InvTable(s: State, accepted: multiset<nat>)
    requires Inv(s, accepted)
    ensures TableOk(s.pending, s.owner)
  {
  }

  lemma CompleteStaysGone(s: State, env: Env, c: Completion, owner: nat)
    requires FindOwner(s.pending, owner).None?
    ensures FindOwner(Complete(s, env, c).0.pending, owner).None?
  {
    if Complete(s, env, c).1 {
      var i, moved := CompleteShape(s, env, c);
      DroppedAt(s.pending, i);
    }
  }

  lemma {:induction false} PollStaysGone(s: State, envs: nat -> Env, round: nat, owner: nat)
    requires FindOwner(s.pending, owner).None?
    ensures FindOwner(Poll(s, envs, round).pending, owner).None?
    decreases |s.pending|
  {
    hide FindOwner, Complete;
    var due := FirstDue(s.pending, envs(round).now);
    if due.Some? {
      var c := Expired(s.pending[due.value].owner);
      DueIsPending(s.pending, envs(round).now);
      ExpiredShrinks(s, envs(round), c.owner);
      CompleteStaysGone(s, envs(round), c, owner);
      PollStaysGone(Complete(s, envs(round), c).0, envs, round + 1, owner);
    }
  }

  lemma AskKeepsEntry(w: World, token: nat, env: Env, r: Request, p: Pending)
    requires RunInv(w) && Enabled(w, Ask(token, env, r)) && p in w.s.pending
    ensures p in Serve(w.s, env, token, r).pending
  {
    hide Serve;
    if r.AddDevice? {
      FreshNotBusy(w, env.newId);
    }
    var answered := ServeShape(w.s, env, token, r);
  }

  lemma AskStaysGone(w: World, token: nat, env: Env, r: Request, owner: nat)
    requires RunInv(w) && Enabled(w, Ask(token, env, r)) && FindOwner(w.s.pending, owner).None? && owner <= w.s.owner
    ensures FindOwner(Serve(w.s, env, token, r).pending, owner).None? && owner <= Serve(w.s, env, token, r).owner
  {
    hide Serve;
    if r.AddDevice? {
      FreshNotBusy(w, env.newId);
    }
    var answered := ServeShape(w.s, env, token, r);
    var next := Serve(w.s, env, token, r);
    assert forall k :: 0 <= k < |next.pending| ==> next.pending[k].owner != owner;
  }

  /** While an operation waits it is the operation that was asked for; once it is gone its number never returns. */
  ghost predicate Kept(s: State, p: Pending) {
    p.owner <= s.owner && (p in s.pending || FindOwner(s.pending, p.owner).None?)
  }

  /** A good answer for this owner number. */
  predicate MovesOn(m: Move, owner: nat) {
    m.End? && m.completion.owner == owner && !m.completion.failed
  }

  lemma StepKeepsEntry(w: World, m: Move, p: Pending)
    requires RunInv(w) && Enabled(w, m) && Kept(w.s, p)
    requires p in w.s.pending && p.stage.Driver? ==> !MovesOn(m, p.owner)
    ensures Kept(Step(w, m).s, p)
  {
    hide RunInv, FindOwner, Complete, Serve, Poll;
    RunTable(w);
    match m
    case Ask(token, env, r) =>
      if p in w.s.pending {
        AskKeepsEntry(w, token, env, r, p);
        AskOwner(w, token, env, r);
      } else {
        AskStaysGone(w, token, env, r, p.owner);
      }
    case End(env, c) =>
      CompleteOwner(w.s, env, c);
      if p in w.s.pending {
        CompleteKeepsEntry(w.s, env, c, p);
      } else {
        CompleteStaysGone(w.s, env, c, p.owner);
      }
    case Sweep(envs) =>
      PollOwner(w.s, envs, 0);
      if p in w.s.pending {
        RunInvInv(w);
        PollKeepsEntry(w.s, w.accepted, envs, 0, p);
      } else {
        PollStaysGone(w.s, envs, 0, p.owner);
      }
    case Elsewhere(devices, owner) =>
  }

  lemma RunInvInv(w: World)
    requires RunInv(w)
    ensures Inv(w.s, w.accepted)
  {
  }

  lemma RunTable(w: World)
    requires RunInv(w)
    ensures TableOk(w.s.pending, w.s.owner)
  {
  }

  lemma AskOwner(w: World, token: nat, env: Env, r: Request)
    requires RunInv(w) && Enabled(w, Ask(token, env, r))
    ensures Serve(w.s, env, token, r).owner >= w.s.owner
  {
    hide Serve;
    if r.AddDevice? {
      FreshNotBusy(w, env.newId);
    }
    var answered := ServeShape(w.s, env, token, r);
  }

  lemma CompleteOwner(s: State, env: Env, c: Completion)
    ensures Complete(s, env, c).0.owner == s.owner
  {
  }

  lemma {:induction false} PollOwner(s: State, envs: nat -> Env, round: nat)
    ensures Poll(s, envs, round).owner == s.owner
    decreases |s.pending|
  {
    hide Complete;
    var due := FirstDue(s.pending, envs(round).now);
    if due.Some? {
      var c := Expired(s.pending[due.value].owner);
      DueIsPending(s.pending, envs(round).now);
      ExpiredShrinks(s, envs(round), c.owner);
      CompleteOwner(s, envs(round), c);
      PollOwner(Complete(s, envs(round), c).0, envs, round + 1);
    }
  }

  lemma {:induction false} RunKeepsEntry(w: World, moves: seq<Move>, p: Pending)
    requires RunInv(w) && Possible(w, moves) && Kept(w.s, p) && !p.stage.Driver?
    ensures RunInv(After(w, moves)) && Kept(After(w, moves).s, p)
  {
    hide RunInv, Kept;
    if |moves| > 0 {
      var front, m := moves[..|moves| - 1], moves[|moves| - 1];
      assert forall k :: 0 <= k < |front| ==> front[..k] == moves[..k];
      RunKeepsEntry(w, front, p);
      StepKeepsInv(After(w, front), m);
      StepKeepsEntry(After(w, front), m, p);
    }
  }

  // ---------- settings ----------

  /** What is sent to the app: exactly the wanted settings the record does not have, and merging them is merging all. */
  lemma SettingsSent(wanted: map<string, string>, current: map<string, string>)
    ensures var patch := Patch(wanted, current);
      && (forall k :: k in patch <==> k in wanted && !(k in current && current[k] == wanted[k]))
      && (forall k :: k in patch ==> patch[k] == wanted[k])
      && current + patch == current + wanted
      && (patch == map[] <==> current + wanted == current)
  {
    var patch := Patch(wanted, current);
    assert current + patch == current + wanted;
    if patch == map[] {
      assert current + map[] == current;
    }
    if current + wanted == current {
      forall k | k in wanted ensures k in current && current[k] == wanted[k] {
        assert (current + wanted)[k] == wanted[k];
      }
    }
  }

  /** There is room in the table and an owner number left, and the app takes the call. */
  predicate CanSend(s: State, env: Env) {
    |s.pending| != MAX_PENDING && s.owner + 1 < U64_LIMIT && env.call.None?
  }

  /** A change of settings waits at the app with exactly that patch, is answered at once, or is refused; no device is touched. */
  lemma SettingsAsked(s: State, env: Env, token: nat, id: string, wanted: map<string, string>)
    ensures var next := Serve(s, env, token, ChangeSettings(id, wanted));
      var free := id in s.devices && !Busy(s.pending, id) && env.valid;
      && next.devices == s.devices
      && (if free && Patch(wanted, s.devices[id].settings) == map[] then
            next.pending == s.pending && next.replies == s.replies + [Reply(token, 200)]
          else if free && CanSend(s, env) then
            next.replies == s.replies
            && next.pending == s.pending + [Pending(s.owner + 1, Deadline(env), token, Settings(id, Patch(wanted, s.devices[id].settings)))]
          else
            next.pending == s.pending && |next.replies| == |s.replies| + 1 && next.replies[|s.replies|].status >= 400)
  {
  }

  ghost predicate AllWanted(settings: map<string, string>, wanted: map<string, string>) {
    forall k :: k in wanted ==> k in settings && settings[k] == wanted[k]
  }

  /** The wanted settings that were not sent still hold in the newest record. */
  ghost predicate UnsentStillHold(newest: map<string, string>, wanted: map<string, string>, patch: map<string, string>) {
    forall k :: k in wanted && k !in patch ==> k in newest && newest[k] == wanted[k]
  }

  lemma MergedSettings(newest: map<string, string>, wanted: map<string, string>, current: map<string, string>)
    ensures var patch := Patch(wanted, current);
      && (AllWanted(newest + patch, wanted) <==> UnsentStillHold(newest, wanted, patch))
      && (forall k :: k !in wanted ==> (k in newest + patch <==> k in newest) && (k in newest ==> (newest + patch)[k] == newest[k]))
  {
    var patch := Patch(wanted, current);
    forall k | k in wanted ensures (k in newest + patch && (newest + patch)[k] == wanted[k]) <==> (k in patch || (k in newest && newest[k] == wanted[k])) {
    }
  }

  /** The patch is merged into the newest record exactly when the app agrees and the store takes it; else no device changes. */
  lemma SettingsEnd(s: State, env: Env, c: Completion, p: Pending)
    requires p in s.pending && UniqueOwners(s.pending) && p.stage.Settings? && c.owner == p.owner
    ensures var next := Complete(s, env, c).0;
      if !c.failed && p.stage.id in s.devices && env.puts then
        var d := s.devices[p.stage.id];
        && next.devices == s.devices[p.stage.id := d.(settings := d.settings + p.stage.patch)]
        && next.replies == s.replies + [Reply(p.token, 200)]
      else
        next.devices == s.devices && |next.replies| == |s.replies| + 1
        && next.replies[|s.replies|].token == p.token && next.replies[|s.replies|].status >= 500
  {
    OwnEntry(s.pending, p);
  }

  lemma OwnEntry(pending: seq<Pending>, p: Pending)
    requires p in pending && UniqueOwners(pending)
    ensures FindOwner(pending, p.owner).Some? && pending[FindOwner(pending, p.owner).value] == p
  {
    var k :| 0 <= k < |pending| && pending[k] == p;
  }

  /**
   * From request to answer: the sent settings are merged into the newest record, whatever happened to it
   * meanwhile. Every wanted setting holds at the end exactly when those that needed no sending still hold,
   * and settings that were not asked for are those of the newest record.
   */
  lemma SettingsToAnswer(w: World, token: nat, env: Env, id: string, wanted: map<string, string>, moves: seq<Move>, env': Env)
    requires RunInv(w) && Enabled(w, Ask(token, env, ChangeSettings(id, wanted)))
    requires Possible(Step(w, Ask(token, env, ChangeSettings(id, wanted))), moves)
    requires Serve(w.s, env, token, ChangeSettings(id, wanted)).pending != w.s.pending
    requires var end := After(Step(w, Ask(token, env, ChangeSettings(id, wanted))), moves).s;
      FindOwner(end.pending, w.s.owner + 1).Some? && id in end.devices && env'.puts
    ensures id in w.s.devices
    ensures var end := After(Step(w, Ask(token, env, ChangeSettings(id, wanted))), moves).s;
      var patch := Patch(wanted, w.s.devices[id].settings);
      var newest := end.devices[id].settings;
      var next := Complete(end, env', Completion(w.s.owner + 1, false, true)).0;
      && next.replies == end.replies + [Reply(token, 200)]
      && next.devices == end.devices[id := end.devices[id].(settings := newest + patch)]
      && (AllWanted(newest + patch, wanted) <==> UnsentStillHold(newest, wanted, patch))
      && (forall k :: k !in wanted && k in newest ==> (newest + patch)[k] == newest[k])
  {
    hide RunInv, Patch, Serve, AllWanted, UnsentStillHold;
    var m := Ask(token, env, ChangeSettings(id, wanted));
    SettingsAsked(w.s, env, token, id, wanted);
    var w1 := Step(w, m);
    var p := Pending(w.s.owner + 1, Deadline(env), token, Settings(id, Patch(wanted, w.s.devices[id].settings)));
    assert w1.s.pending[|w.s.pending|] == p;
    StepKeepsInv(w, m);
    RunTable(w1);
    RunKeepsEntry(w1, moves, p);
    RunTable(After(w1, moves));
    SettingsEnd(After(w1, moves).s, env', Completion(p.owner, false, true), p);
    MergedSettings(After(w1, moves).s.devices[id].settings, wanted, w.s.devices[id].settings);
  }

  /**
   * The failing family: a wanted setting that was already there is not sent, so when it changes before the
   * app answers, the request is answered with success and the setting is not what was asked for.
   */
  lemma SettingOvertaken(id: string, d: Device, key: string, other: string, wanted: map<string, string>, env: Env, token: nat)
    requires key in d.settings && key in wanted && wanted[key] == d.settings[key] != other
    requires Patch(wanted, d.settings) != map[] && env.valid && env.call.None? && env.puts
    ensures var moves := OvertakingMoves(id, d, key, other, wanted, env, token);
      var end := After(Begin(map[id := d], 0), moves).s;
      && Possible(Begin(map[id := d], 0), moves)
      && end.replies == [Reply(token, 200)] && SettingOf(end.devices, id, key) == Some(other)
    ensures other != wanted[key]
  {
    var changed := d.(settings := d.settings[key := other]);
    var first, second, third := Ask(token, env, ChangeSettings(id, wanted)), Elsewhere(map[id := changed], 1), End(env, Completion(1, false, true));
    var w := Begin(map[id := d], 0);
    var p := Pending(1, Deadline(env), token, Settings(id, Patch(wanted, d.settings)));
    SettingsSent(wanted, d.settings);
    FirstAsked(id, d, wanted, env, token);
    ThreeSteps(w, first, second, third);
    var waiting := State([], [p], 1, map[id := changed], []);
    hide Patch, Serve, Complete;
    assert Step(Step(w, first), second).s == waiting;
    SettingsEnd(waiting, env, Completion(1, false, true), p);
  }

  function SettingOf(devices: map<string, Device>, id: string, key: string): Option<string> {
    if id in devices && key in devices[id].settings then Some(devices[id].settings[key]) else None
  }

  /** The request, a change of the setting elsewhere, and the app's good answer. */
  function OvertakingMoves(id: string, d: Device, key: string, other: string, wanted: map<string, string>, env: Env, token: nat): seq<Move> {
    [Ask(token, env, ChangeSettings(id, wanted)), Elsewhere(map[id := d.(settings := d.settings[key := other])], 1)]
    + [End(env, Completion(1, false, true))]
  }

  lemma FirstAsked(id: string, d: Device, wanted: map<string, string>, env: Env, token: nat)
    requires Patch(wanted, d.settings) != map[] && env.valid && env.call.None?
    ensures Serve(Begin(map[id := d], 0).s, env, token, ChangeSettings(id, wanted))
      == State([], [Pending(1, Deadline(env), token, Settings(id, Patch(wanted, d.settings)))], 1, map[id := d], [])
  {
    hide Patch;
    var p := Pending(1, Deadline(env), token, Settings(id, Patch(wanted, d.settings)));
    assert [] + [p] == [p];
  }

  lemma ThreeSteps(w: World, a: Move, b: Move, c: Move)
    ensures After(w, [a, b] + [c]) == Step(Step(Step(w, a), b), c)
    ensures Possible(w, [a, b] + [c]) <==> Enabled(w, a) && Enabled(Step(w, a), b) && Enabled(Step(Step(w, a), b), c)
  {
    hide Step, Enabled;
    var moves := [a, b] + [c];
    assert moves[..3] == moves && moves[..3][..2] == moves[..2] && moves[..2][..1] == moves[..1] && moves[..1][..0] == [];
    assert After(w, moves[..0]) == w;
    assert After(w, moves[..1]) == Step(w, a);
    assert After(w, moves[..2]) == Step(Step(w, a), b);
    assert moves[0] == a && moves[1] == b && moves[2] == c;
  }

  // ---------- removing ----------

  /**
   * Asking to remove a device: it is gone exactly when the answer is 200, which happens when it belongs to a
   * scene, or when its app is missing or refuses; while the app is asked, the device stays.
   */
  lemma RemovalAsked(s: State, env: Env, token: nat, id: string)
    requires id in s.devices
    ensures var next := Serve(s, env, token, RemoveDevice(id));
      && (next.devices == s.devices || next.devices == s.devices - {id})
      && (id !in next.devices <==> |next.replies| == |s.replies| + 1 && next.replies[|s.replies|] == Reply(token, 200))
      && (id !in next.devices <==>
        && env.deletes
        && (s.devices[id].app == SCENE_APP
            || (!Busy(s.pending, id) && |s.pending| != MAX_PENDING && s.owner + 1 < U64_LIMIT
                && (env.call == Some(Missing) || env.call == Some(Invalid)))))
      && (next.pending != s.pending ==>
        next.pending == s.pending + [Pending(s.owner + 1, Deadline(env), token, Delete(id))] && next.devices == s.devices)
  {
    assert id !in s.devices - {id};
  }

  /** The app's answer, good or bad, or the deadline removes the device; only the store can keep it, and then the answer says so. */
  lemma RemovalEnds(s: State, env: Env, c: Completion, p: Pending)
    requires p in s.pending && UniqueOwners(s.pending) && p.stage.Delete? && c.owner == p.owner
    ensures var next := Complete(s, env, c).0;
      && |next.replies| == |s.replies| + 1 && next.replies[|s.replies|].token == p.token
      && (next.replies[|s.replies|].status == 200 <==> p.stage.id in s.devices && env.deletes)
      && next.devices == (if env.deletes then s.devices - {p.stage.id} else s.devices)
  {
    OwnEntry(s.pending, p);
    if p.stage.id !in s.devices {
      assert s.devices - {p.stage.id} == s.devices;
    }
  }

  /** From request to answer: whatever happens meanwhile, an app that fails or never answers does not keep its device. */
  lemma RemovalToAnswer(w: World, token: nat, env: Env, id: string, moves: seq<Move>, env': Env, failed: bool)
    requires RunInv(w) && id in w.s.devices && Enabled(w, Ask(token, env, RemoveDevice(id)))
    requires Possible(Step(w, Ask(token, env, RemoveDevice(id))), moves)
    requires Serve(w.s, env, token, RemoveDevice(id)).pending != w.s.pending
    requires FindOwner(After(Step(w, Ask(token, env, RemoveDevice(id))), moves).s.pending, w.s.owner + 1).Some?
    ensures var end := After(Step(w, Ask(token, env, RemoveDevice(id))), moves).s;
      var next := Complete(end, env', Completion(w.s.owner + 1, failed, true)).0;
      && |next.replies| == |end.replies| + 1 && next.replies[|end.replies|].token == token
      && (next.replies[|end.replies|].status == 200 <==> id in end.devices && env'.deletes)
      && (env'.deletes ==> id !in next.devices)
  {
    hide RunInv, Serve, Complete;
    var m := Ask(token, env, RemoveDevice(id));
    RemovalAsked(w.s, env, token, id);
    var w1 := Step(w, m);
    var p := Pending(w.s.owner + 1, Deadline(env), token, Delete(id));
    assert w1.s.pending[|w.s.pending|] == p;
    StepKeepsInv(w, m);
    RunTable(w1);
    RunKeepsEntry(w1, moves, p);
    RunTable(After(w1, moves));
    RemovalEnds(After(w1, moves).s, env', Completion(p.owner, failed, true), p);
  }

  // ---------- replacing and adding ----------

  /**
   * A replacement renews what the app keeps with the device exactly when the candidate is the same hardware,
   * the device is free and the store takes it; anything else leaves every device as it was.
   */
  lemma ReplacementAsked(s: State, env: Env, token: nat, id: string, candidate: Device)
    requires id in s.devices
    ensures var next := Serve(s, env, token, ReplaceDevice(id, candidate));
      var accepted := SameHardware(s.devices[id], candidate) && !Busy(s.pending, id) && env.defined && env.valid
        && |s.pending| != MAX_PENDING && env.puts;
      && next.devices == (if accepted then s.devices[id := s.devices[id].(store := candidate.store)] else s.devices)
      && (if accepted && env.adopts && CanSend(s, env)
          then next.pending == s.pending + [Pending(s.owner + 1, Deadline(env), token, Driver(candidate.app, id, true))]
          else next.pending == s.pending && |next.replies| == |s.replies| + 1 && next.replies[|s.replies|].status >= 400)
  {
  }

  /** A replacement with other data is always refused: the identity of a device cannot be renewed. */
  lemma NewIdentityRefused(s: State, env: Env, token: nat, id: string, candidate: Device)
    requires id in s.devices && candidate.data != s.devices[id].data
    ensures var next := Serve(s, env, token, ReplaceDevice(id, candidate));
      && next.devices == s.devices && next.pending == s.pending && next.sessions == s.sessions
      && |next.replies| == |s.replies| + 1 && next.replies[|s.replies|].status >= 400
  {
  }

  /** A new device is in the store, as it was given, from the moment its start is asked for; otherwise nothing new is left unless the store refuses. */
  lemma AdditionAsked(s: State, env: Env, token: nat, candidate: Device)
    requires env.newId !in s.devices
    ensures var next := Serve(s, env, token, AddDevice(candidate));
      && (next.pending != s.pending <==>
        && env.defined && env.valid && env.puts && env.adopts && CanSend(s, env)
        && !(exists id :: id in s.devices && SameHardware(s.devices[id], candidate)))
      && (next.pending != s.pending ==>
        && next.pending == s.pending + [Pending(s.owner + 1, Deadline(env), token, Driver(candidate.app, env.newId, false))]
        && next.devices == s.devices[env.newId := candidate] && next.replies == s.replies)
      && (env.defined && env.valid && (exists id :: id in s.devices && SameHardware(s.devices[id], candidate)) ==>
        next == s.(replies := s.replies + [Reply(token,
          if exists id :: id in s.devices && SameHardware(s.devices[id], candidate) && Initializing(s.pending, id) then 409 else 201)]))
      && (next.pending == s.pending && env.deletes ==> next.devices == s.devices)
      && (next.devices != s.devices && next.pending == s.pending ==> next.replies == s.replies + [Reply(token, FaultStatus(env.refusal))])
  {
    assert s.devices - {env.newId} == s.devices;
  }

  // ---------- devices that are starting ----------

  /** A device whose start is waited for is in the store, and is no scene's. */
  ghost predicate StartsStored(s: State) {
    forall k :: 0 <= k < |s.pending| && IsInit(s.pending[k].stage) ==>
      s.pending[k].stage.id in s.devices && s.devices[s.pending[k].stage.id].app != SCENE_APP
  }

  /** Scenes have no drivers, and other parts of the controller leave devices that are starting in place. */
  ghost predicate Considerate(s: State, m: Move) {
    match m
    case Ask(_, env, ReplaceDevice(_, candidate)) => candidate.app == SCENE_APP ==> !env.defined
    case Ask(_, env, AddDevice(candidate)) => candidate.app == SCENE_APP ==> !env.defined
    case Elsewhere(devices, _) =>
      forall id :: Initializing(s.pending, id) && id in s.devices ==> id in devices && devices[id].app == s.devices[id].app
    case _ => true
  }

  lemma AskKeepsStored(w: World, token: nat, env: Env, r: Request)
    requires RunInv(w) && StartsStored(w.s) && Enabled(w, Ask(token, env, r)) && Considerate(w.s, Ask(token, env, r))
    ensures StartsStored(Serve(w.s, env, token, r))
  {
    hide RunInv;
    var s, next := w.s, Serve(w.s, env, token, r);
    match r
    case RemoveDevice(id) =>
      if id in s.devices {
        RemovalAsked(s, env, token, id);
        forall k | 0 <= k < |s.pending| && IsInit(s.pending[k].stage) ensures s.pending[k].stage.id in next.devices {
          assert s.pending[k].stage.id == id ==> StageDevice(s.pending[k].stage) == Some(id);
        }
      }
    case ChangeSettings(id, wanted) => SettingsAsked(s, env, token, id, wanted);
    case ReplaceDevice(id, candidate) =>
      if id in s.devices {
        ReplacementAsked(s, env, token, id, candidate);
      }
    case AddDevice(candidate) =>
      KnownDevices(w);
      AdditionAsked(s, env, token, candidate);
      AddKeepsOthers(s, env, token, candidate);
    case StartPair(_, _) =>
    case ClosePair(_) =>
    case EmitPair(_) =>
  }

  lemma AddKeepsOthers(s: State, env: Env, token: nat, candidate: Device)
    requires env.newId !in s.devices
    ensures var next := Serve(s, env, token, AddDevice(candidate));
      forall id :: id in s.devices ==> id in next.devices && next.devices[id] == s.devices[id]
  {
  }

  lemma KnownDevices(w: World)
    requires RunInv(w)
    ensures w.s.devices.Keys <= w.used
  {
  }

  lemma CompleteKeepsStored(s: State, env: Env, c: Completion)
    requires TableOk(s.pending, s.owner) && StartsStored(s)
    ensures StartsStored(Complete(s, env, c).0)
  {
    if Complete(s, env, c).1 {
      var i, moved := CompleteShape(s, env, c);
      CompleteTouches(s, env, c, i, moved);
      EndedKeepsStored(s, i, Complete(s, env, c).0, moved);
    }
  }

  /** Only the device of the stage that ends may change, and it stays what it is. */
  ghost predicate Touches(s: State, i: nat, next: State, moved: bool)
    requires i < |s.pending|
  {
    && (forall id :: id in s.devices && StageDevice(s.pending[i].stage) != Some(id) ==>
      id in next.devices && next.devices[id] == s.devices[id])
    && (moved ==> next.devices == s.devices)
  }

  lemma CompleteTouches(s: State, env: Env, c: Completion, i: nat, moved: bool)
    requires UniqueOwners(s.pending) && Complete(s, env, c).1
    requires Ended(s, i, Complete(s, env, c).0, moved) && s.pending[i].owner == c.owner
    ensures Touches(s, i, Complete(s, env, c).0, moved)
  {
    assert FindOwner(s.pending, c.owner) == Some(i);
    var rest := s.(pending := Dropped(s.pending, i));
    FinishDevices(rest, env, c, s.pending[i].stage);
    var (next, ending) := Finish(rest, env, c, s.pending[i].stage);
    if moved {
      assert |Dropped(s.pending, i)| == |s.pending| - 1;
    }
  }

  lemma EndedKeepsStored(s: State, i: nat, next: State, moved: bool)
    requires TableOk(s.pending, s.owner) && StartsStored(s) && Ended(s, i, next, moved) && Touches(s, i, next, moved)
    ensures StartsStored(next)
  {
    hide Dropped, UniqueOwners, OwnersBelow;
    DroppedAt(s.pending, i);
    forall k | 0 <= k < |next.pending| && IsInit(next.pending[k].stage)
      ensures next.pending[k].stage.id in next.devices && next.devices[next.pending[k].stage.id].app != SCENE_APP
    {
      if k < |s.pending| - 1 {
        var at := if k < i then k else k + 1;
        assert next.pending[k] == s.pending[at];
        assert StageDevice(s.pending[at].stage) == Some(s.pending[at].stage.id);
        assert StageDevice(s.pending[at].stage) != StageDevice(s.pending[i].stage);
      } else {
        assert StageDevice(s.pending[i].stage) == Some(s.pending[i].stage.id);
      }
    }
  }

  /** A completion touches only the device of its own stage, and never who it belongs to. */
  lemma FinishDevices(s: State, env: Env, c: Completion, stage: Stage)
    ensures var (next, ending) := Finish(s, env, c, stage);
      && (forall id :: id in s.devices && StageDevice(stage) != Some(id) ==> id in next.devices && next.devices[id] == s.devices[id])
      && (forall id :: id in next.devices ==> id in s.devices && SameHardware(next.devices[id], s.devices[id]))
      && (ending.Again? ==> stage.Driver? && next == s)
  {
  }

  lemma {:induction false} PollKeepsStored(s: State, accepted: multiset<nat>, envs: nat -> Env, round: nat)
    requires Inv(s, accepted) && StartsStored(s)
    ensures StartsStored(Poll(s, envs, round))
    decreases |s.pending|
  {
    hide Inv, StartsStored;
    var due := FirstDue(s.pending, envs(round).now);
    if due.Some? {
      var c := Expired(s.pending[due.value].owner);
      DueIsPending(s.pending, envs(round).now);
      ExpiredShrinks(s, envs(round), c.owner);
      InvTable(s, accepted);
      CompleteKeepsStored(s, envs(round), c);
      CompleteKeepsInv(s, accepted, envs(round), c);
      PollKeepsStored(Complete(s, envs(round), c).0, accepted, envs, round + 1);
    }
  }

  ghost predicate ConsiderateRun(w: World, moves: seq<Move>) {
    forall k :: 0 <= k < |moves| ==> Considerate(After(w, moves[..k]).s, moves[k])
  }

  /** Over every such run a device whose start is waited for is in the store. */
  lemma {:induction false} StartsStayStored(devices: map<string, Device>, owner: nat, moves: seq<Move>)
    requires Possible(Begin(devices, owner), moves) && ConsiderateRun(Begin(devices, owner), moves)
    ensures RunInv(After(Begin(devices, owner), moves)) && StartsStored(After(Begin(devices, owner), moves).s)
  {
    hide RunInv;
    var w := Begin(devices, owner);
    EveryRunKeepsInv(devices, owner, moves);
    if |moves| > 0 {
      var front, m := moves[..|moves| - 1], moves[|moves| - 1];
      assert forall k :: 0 <= k < |front| ==> front[..k] == moves[..k];
      StartsStayStored(devices, owner, front);
      var before := After(w, front);
      match m
      case Ask(token, env, r) => AskKeepsStored(before, token, env, r);
      case End(env, c) =>
        RunTable(before);
        CompleteKeepsStored(before.s, env, c);
      case Sweep(envs) =>
        RunInvInv(before);
        PollKeepsStored(before.s, before.accepted, envs, 0);
      case Elsewhere(others, number) => ElsewhereKeepsStored(before.s, others, number);
    }
  }

  lemma ElsewhereKeepsStored(s: State, devices: map<string, Device>, owner: nat)
    requires StartsStored(s) && Considerate(s, Elsewhere(devices, owner))
    ensures StartsStored(s.(devices := devices, owner := owner))
  {
    forall k | 0 <= k < |s.pending| && IsInit(s.pending[k].stage)
      ensures s.pending[k].stage.id in devices && devices[s.pending[k].stage.id].app != SCENE_APP
    {
      assert StageDevice(s.pending[k].stage) == Some(s.pending[k].stage.id);
      assert Initializing(s.pending, s.pending[k].stage.id);
    }
  }
}
