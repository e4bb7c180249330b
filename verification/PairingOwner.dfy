/** The pairing owner as the controller runs it: tables and store changed in place. */
module PairingOwner {
  import opened Common
  import opened PairingSteps
  import opened PairingHistory

  class Pairing {
    var sessions: seq<Session>
    var pending: seq<Pending>
    /** The owner counter, the devices of the store and the answers sent, as far as pairing touches them. */
    var owner: nat
    var devices: map<string, Device>
    var replies: seq<Reply>

    ghost function View(): State
      reads this
    {
      State(sessions, pending, owner, devices, replies)
    }

    constructor (owner: nat, devices: map<string, Device>)
      ensures View() == State([], [], owner, devices, []) && Inv(View(), multiset{})
    {
      sessions, pending, replies := [], [], [];
      this.owner, this.devices := owner, devices;
    }

    method DeviceBusy(id: string) returns (r: bool)
      ensures r == Busy(pending, id)
    {
      for i := 0 to |pending|
        invariant forall k :: 0 <= k < i ==> StageDevice(pending[k].stage) != Some(id)
      {
        if StageDevice(pending[i].stage) == Some(id) {
          return true;
        }
      }
      return false;
    }

    method CountStarting() returns (n: nat)
      ensures n == Starting(pending)
    {
      n := 0;
      for i := 0 to |pending|
        invariant n == Starting(pending[..i])
      {
        assert pending[..i + 1][..i] == pending[..i];
        if pending[i].stage.Start? {
          n := n + 1;
        }
      }
      assert pending[..|pending|] == pending;
    }

    method SessionAt(id: string) returns (r: Option<nat>)
      ensures r == FindSession(sessions, id)
    {
      for i := 0 to |sessions|
        invariant FindSession(sessions[..i], id) == None
      {
        assert sessions[..i + 1][..i] == sessions[..i];
        if sessions[i].id == id {
          SessionPrefix(sessions, i + 1, id);
          return Some(i);
        }
      }
      assert sessions[..|sessions|] == sessions;
      return None;
    }

    method PendingAt(number: nat) returns (r: Option<nat>)
      ensures r == FindOwner(pending, number)
    {
      for i := 0 to |pending|
        invariant FindOwner(pending[..i], number) == None
      {
        assert pending[..i + 1][..i] == pending[..i];
        if pending[i].owner == number {
          OwnerPrefix(pending, i + 1, number);
          return Some(i);
        }
      }
      assert pending[..|pending|] == pending;
      return None;
    }

    method DueAt(now: nat) returns (r: Option<nat>)
      ensures r == FirstDue(pending, now)
    {
      for i := 0 to |pending|
        invariant FirstDue(pending[..i], now) == None
      {
        assert pending[..i + 1][..i] == pending[..i];
        if pending[i].deadline <= now {
          DuePrefix(pending, i + 1, now);
          return Some(i);
        }
      }
      assert pending[..|pending|] == pending;
      return None;
    }

    method Push(env: Env, token: nat, stage: Stage) returns (fault: Option<Fault>)
      modifies this`pending, this`owner
      ensures (View(), fault) == Send(old(View()), env, token, stage)
    {
      if |pending| == MAX_PENDING || owner + 1 >= U64_LIMIT {
        return Some(Full);
      }
      if env.call.Some? {
        return env.call;
      }
      owner := owner + 1;
      pending := pending + [Pending(owner, Deadline(env), token, stage)];
      return None;
    }

    method Respond(token: nat, status: nat)
      modifies this`replies
      ensures View() == Answer(old(View()), token, status)
    {
      replies := replies + [Reply(token, status)];
    }

    method ChangeSettingsOf(env: Env, token: nat, id: string, wanted: map<string, string>) returns (fault: Option<Fault>)
      modifies this
      ensures (View(), fault) == RouteSettings(old(View()), env, token, id, wanted)
    {
      if id !in devices {
        return Some(Missing);
      }
      var busy := DeviceBusy(id);
      if busy {
        return Some(Conflict);
      }
      if !env.valid {
        return Some(Invalid);
      }
      var patch := Patch(wanted, devices[id].settings);
      if patch == map[] {
        Respond(token, 200);
        return None;
      }
      fault := Push(env, token, Settings(id, patch));
    }

    method RemoveDeviceOf(env: Env, token: nat, id: string) returns (fault: Option<Fault>)
      modifies this
      ensures (View(), fault) == RouteRemove(old(View()), env, token, id)
    {
      if id !in devices {
        return Some(Missing);
      }
      if devices[id].app != SCENE_APP {
        var busy := DeviceBusy(id);
        if busy {
          return Some(Conflict);
        }
        fault := Push(env, token, Delete(id));
        if fault.None? {
          return None;
        }
        if fault.value != Missing && fault.value != Invalid {
          return fault;
        }
      }
      if !env.deletes {
        return Some(env.refusal);
      }
      devices := devices - {id};
      Respond(token, 200);
      return None;
    }

    method StartSession(env: Env, token: nat, app: string, driver: string) returns (fault: Option<Fault>)
      modifies this
      ensures (View(), fault) == RouteStart(old(View()), env, token, app, driver)
    {
      if !env.defined {
        return Some(Missing);
      }
      var starting := CountStarting();
      if |sessions| + starting >= MAX_SESSIONS {
        return Some(Full);
      }
      fault := Push(env, token, Start(Session(env.newId, app, driver)));
    }

    method CloseSession(env: Env, token: nat, id: string) returns (fault: Option<Fault>)
      modifies this
      ensures (View(), fault) == RouteClose(old(View()), env, token, id)
    {
      var at := SessionAt(id);
      if at.Some? {
        sessions := sessions[..at.value] + sessions[at.value + 1..];
        fault := Push(env, token, Close);
        if fault.None? {
          return None;
        }
      }
      Respond(token, 200);
      return None;
    }

    method EmitEvent(env: Env, token: nat, id: string) returns (fault: Option<Fault>)
      modifies this
      ensures (View(), fault) == RouteEmit(old(View()), env, token, id)
    {
      if !env.valid {
        return Some(Invalid);
      }
      var at := SessionAt(id);
      if at.None? {
        return Some(Missing);
      }
      fault := Push(env, token, Emit);
    }

    method Replace(env: Env, token: nat, id: string, candidate: Device) returns (fault: Option<Fault>)
      modifies this
      ensures (View(), fault) == RouteReplace(old(View()), env, token, id, candidate)
    {
      if id !in devices {
        return Some(Missing);
      }
      if devices[id].app != candidate.app || devices[id].driver != candidate.driver {
        return Some(Invalid);
      }
      var busy := DeviceBusy(id);
      if busy {
        return Some(Conflict);
      }
      if !env.defined || !env.valid {
        return Some(Invalid);
      }
      if |pending| == MAX_PENDING {
        return Some(Full);
      }
      if devices[id].data != candidate.data {
        return Some(Invalid);
      }
      if !env.puts {
        return Some(env.refusal);
      }
      devices := devices[id := devices[id].(store := candidate.store)];
      if !env.adopts {
        return Some(Invalid);
      }
      fault := Push(env, token, Driver(candidate.app, id, true));
    }

    /** Stores the device first and takes it out again when its app cannot start it. */
    method Add(env: Env, token: nat, candidate: Device) returns (fault: Option<Fault>)
      requires env.newId !in devices
      modifies this
      ensures (View(), fault) == RouteAdd(old(View()), env, token, candidate)
    {
      if !env.defined || !env.valid {
        return Some(Invalid);
      }
      if exists id :: id in devices && SameHardware(devices[id], candidate) {
        if exists id :: id in devices && SameHardware(devices[id], candidate) && Initializing(pending, id) {
          return Some(Conflict);
        }
        Respond(token, 201);
        return None;
      }
      if |pending| == MAX_PENDING {
        return Some(Full);
      }
      if !env.puts {
        return Some(env.refusal);
      }
      ghost var before := devices;
      devices := devices[env.newId := candidate];
      fault := Some(Invalid);
      if env.adopts {
        fault := Push(env, token, Driver(candidate.app, env.newId, false));
      }
      if fault.Some? {
        if !env.deletes {
          return Some(env.refusal);
        }
        devices := devices - {env.newId};
        assert devices == before - {env.newId};
      }
    }

    /** One request from start to its answer or its place in the table; a refusal is answered too. */
    method Ask(env: Env, token: nat, r: Request)
      requires |pending| <= MAX_PENDING && (r.AddDevice? ==> env.newId !in devices && !Busy(pending, env.newId))
      modifies this
      ensures View() == Serve(old(View()), env, token, r)
      ensures forall accepted :: Inv(old(View()), accepted) ==> Inv(View(), accepted + multiset{token})
    {
      ghost var before := View();
      forall accepted | Inv(before, accepted) ensures Inv(Serve(before, env, token, r), accepted + multiset{token}) {
        ServeKeepsInv(before, accepted, env, token, r);
      }
      hide RouteSettings, RouteRemove, RouteStart, RouteClose, RouteEmit, RouteReplace, RouteAdd, Inv;
      var fault;
      match r {
        case ChangeSettings(id, wanted) => fault := ChangeSettingsOf(env, token, id, wanted);
        case RemoveDevice(id) => fault := RemoveDeviceOf(env, token, id);
        case StartPair(app, driver) => fault := StartSession(env, token, app, driver);
        case ClosePair(id) => fault := CloseSession(env, token, id);
        case EmitPair(id) => fault := EmitEvent(env, token, id);
        case ReplaceDevice(id, candidate) => fault := Replace(env, token, id, candidate);
        case AddDevice(candidate) => fault := Add(env, token, candidate);
      }
      if fault.Some? {
        Respond(token, FaultStatus(fault.value));
      }
    }

    method End(env: Env, c: Completion, stage: Stage) returns (ending: Ending)
      modifies this`devices, this`sessions
      ensures (View(), ending) == Finish(old(View()), env, c, stage)
    {
      if stage.Delete? {
        if stage.id !in devices {
          return Failed(Missing);
        }
        if !env.deletes {
          return Failed(env.refusal);
        }
        devices := devices - {stage.id};
        return Done(200);
      }
      if stage.Close? {
        return Done(200);
      }
      if c.failed {
        return Failed(Invalid);
      }
      match stage {
        case Start(session) =>
          if !c.wellFormed {
            return Failed(Invalid);
          }
          sessions := sessions + [session];
          return Done(201);
        case Settings(id, patch) =>
          if id !in devices {
            return Failed(Missing);
          }
          if !env.puts {
            return Failed(env.refusal);
          }
          devices := devices[id := devices[id].(settings := devices[id].settings + patch)];
          return Done(200);
        case Emit =>
          return Done(200);
        case Driver(_, _, _) =>
          if env.call.Some? {
            return Failed(env.call.value);
          }
          return Again;
        case Init(id, _) =>
          if id !in devices {
            return Failed(Missing);
          }
          return Done(201);
      }
    }

    method Complete(env: Env, c: Completion) returns (ours: bool)
      modifies this
      ensures (View(), ours) == PairingSteps.Complete(old(View()), env, c)
      ensures forall accepted :: Inv(old(View()), accepted) ==> Inv(View(), accepted)
    {
      ghost var before := View();
      forall accepted | Inv(before, accepted) ensures Inv(PairingSteps.Complete(before, env, c).0, accepted) {
        CompleteKeepsInv(before, accepted, env, c);
      }
      var at := PendingAt(c.owner);
      if at.None? {
        return false;
      }
      var p := pending[at.value];
      pending := pending[..at.value] + pending[at.value + 1..];
      var ending := End(env, c, p.stage);
      match ending {
        case Again =>
          pending := pending + [p.(deadline := Deadline(env), stage := AfterDriver(p.stage))];
        case Done(status) =>
          Respond(p.token, status);
        case Failed(fault) =>
          var failed := fault;
          if IsInit(p.stage) && !p.stage.keep && p.stage.id in devices {
            if env.deletes {
              devices := devices - {p.stage.id};
            } else {
              failed := env.refusal;
            }
          }
          Respond(p.token, if failed == Storage then 503 else 502);
      }
      return true;
    }

    /** Fails what is overdue until nothing is; the clock may move on between rounds. */
    method PollAll(envs: nat -> Env)
      modifies this
      ensures View() == Poll(old(View()), envs, 0)
      ensures forall accepted :: Inv(old(View()), accepted) ==> Inv(View(), accepted)
    {
      ghost var before := View();
      forall accepted | Inv(before, accepted) ensures Inv(Poll(before, envs, 0), accepted) {
        var last := PollKeepsInv(before, accepted, envs, 0);
      }
      ghost var goal := Poll(View(), envs, 0);
      var round := 0;
      var due := DueAt(envs(round).now);
      while due.Some?
        invariant due == FirstDue(pending, envs(round).now)
        invariant Poll(View(), envs, round) == goal
        decreases |pending|
      {
        DueIsPending(pending, envs(round).now);
        ExpiredShrinks(View(), envs(round), pending[due.value].owner);
        var ours := Complete(envs(round), Expired(pending[due.value].owner));
        round := round + 1;
        due := DueAt(envs(round).now);
      }
    }
  }

  lemma {:induction false} SessionPrefix(s: seq<Session>, n: nat, id: string)
    requires n <= |s| && FindSession(s[..n], id).Some?
    ensures FindSession(s, id) == FindSession(s[..n], id)
  {
    if n == |s| {
      assert s[..n] == s;
    } else {
      assert s[..|s| - 1][..n] == s[..n];
      SessionPrefix(s[..|s| - 1], n, id);
    }
  }

  lemma {:induction false} OwnerPrefix(s: seq<Pending>, n: nat, owner: nat)
    requires n <= |s| && FindOwner(s[..n], owner).Some?
    ensures FindOwner(s, owner) == FindOwner(s[..n], owner)
  {
    if n == |s| {
      assert s[..n] == s;
    } else {
      assert s[..|s| - 1][..n] == s[..n];
      OwnerPrefix(s[..|s| - 1], n, owner);
    }
  }

  lemma {:induction false} DuePrefix(s: seq<Pending>, n: nat, now: nat)
    requires n <= |s| && FirstDue(s[..n], now).Some?
    ensures FirstDue(s, now) == FirstDue(s[..n], now)
  {
    if n == |s| {
      assert s[..n] == s;
    } else {
      assert s[..|s| - 1][..n] == s[..n];
      DuePrefix(s[..|s| - 1], n, now);
    }
  }
}
