/** Pairing sessions and pending device operations: what a request, a completion and a deadline do. */
module PairingSteps {
  import opened Common

  const MAX_SESSIONS: nat := 32
  const MAX_PENDING: nat := 64
  const SCENE_APP: string := "com.stulp.scene"

  datatype Session = Session(id: string, app: string, driver: string)

  /** App, driver and data identify the hardware; `store` is what the app keeps with it. */
  datatype Device = Device(app: string, driver: string, data: string, store: string, settings: map<string, string>)

  /** What a pending operation is waiting for; `keep` marks a device that existed before. */
  datatype Stage =
    | Start(session: Session)
    | Emit
    | Close
    | Settings(id: string, patch: map<string, string>)
    | Delete(id: string)
    | Driver(app: string, id: string, keep: bool)
    | Init(id: string, keep: bool)

  datatype Pending = Pending(owner: nat, deadline: nat, token: nat, stage: Stage)

  datatype Reply = Reply(token: nat, status: nat)

  datatype Fault = Full | Missing | Invalid | Conflict | Storage

  datatype State = State(
    sessions: seq<Session>, pending: seq<Pending>, owner: nat,
    devices: map<string, Device>, replies: seq<Reply>)

  /** What the surroundings answer during one step; `refusal` is the fault of a write the store does not take. */
  datatype Env = Env(
    now: nat, timeout: nat, newId: string,
    call: Option<Fault>, adopts: bool, puts: bool, deletes: bool, refusal: Fault,
    defined: bool, valid: bool)

  datatype Request =
    | ChangeSettings(device: string, wanted: map<string, string>)
    | RemoveDevice(device: string)
    | StartPair(app: string, driver: string)
    | ClosePair(session: string)
    | EmitPair(session: string)
    | ReplaceDevice(device: string, candidate: Device)
    | AddDevice(candidate: Device)

  datatype Completion = Completion(owner: nat, failed: bool, wellFormed: bool)

  // ---------- the pending table ----------

  function StageDevice(stage: Stage): Option<string> {
    match stage
    case Settings(id, _) => Some(id)
    case Delete(id) => Some(id)
    case Driver(_, id, _) => Some(id)
    case Init(id, _) => Some(id)
    case _ => None
  }

  predicate Busy(pending: seq<Pending>, id: string) {
    exists k :: 0 <= k < |pending| && StageDevice(pending[k].stage) == Some(id)
  }

  predicate Initializing(pending: seq<Pending>, id: string) {
    exists k :: 0 <= k < |pending| && IsInit(pending[k].stage) && StageDevice(pending[k].stage) == Some(id)
  }

  predicate IsInit(stage: Stage) {
    stage.Driver? || stage.Init?
  }

  function Starting(pending: seq<Pending>): nat {
    if |pending| == 0 then 0
    else Starting(pending[..|pending| - 1]) + (if pending[|pending| - 1].stage.Start? then 1 else 0)
  }

  function FindOwner(pending: seq<Pending>, owner: nat): (r: Option<nat>)
    ensures r.Some? ==> r.value < |pending| && pending[r.value].owner == owner
    ensures r.None? ==> forall k :: 0 <= k < |pending| ==> pending[k].owner != owner
  {
    if |pending| == 0 then None
    else
      var earlier := FindOwner(pending[..|pending| - 1], owner);
      if earlier.Some? then earlier
      else if pending[|pending| - 1].owner == owner then Some(|pending| - 1)
      else None
  }

  function FindSession(sessions: seq<Session>, id: string): (r: Option<nat>)
    ensures r.Some? ==> r.value < |sessions| && sessions[r.value].id == id
    ensures r.None? ==> forall k :: 0 <= k < |sessions| ==> sessions[k].id != id
  {
    if |sessions| == 0 then None
    else
      var earlier := FindSession(sessions[..|sessions| - 1], id);
      if earlier.Some? then earlier
      else if sessions[|sessions| - 1].id == id then Some(|sessions| - 1)
      else None
  }

  function Dropped<T>(s: seq<T>, i: nat): seq<T>
    requires i < |s|
  {
    s[..i] + s[i + 1..]
  }

  function Deadline(env: Env): nat {
    if env.now + env.timeout + 1000 < U64_LIMIT then env.now + env.timeout + 1000 else U64_LIMIT - 1
  }

  function Answer(s: State, token: nat, status: nat): State {
    s.(replies := s.replies + [Reply(token, status)])
  }

  /** Calls the app under a new owner number and remembers who is waiting. */
  function Send(s: State, env: Env, token: nat, stage: Stage): (State, Option<Fault>) {
    if |s.pending| == MAX_PENDING || s.owner + 1 >= U64_LIMIT then (s, Some(Full))
    else if env.call.Some? then (s, env.call)
    else
      (s.(owner := s.owner + 1, pending := s.pending + [Pending(s.owner + 1, Deadline(env), token, stage)]), None)
  }

  // ---------- requests ----------

  function Patch(wanted: map<string, string>, current: map<string, string>): map<string, string> {
    map k | k in wanted && !(k in current && current[k] == wanted[k]) :: wanted[k]
  }

  function RouteSettings(s: State, env: Env, token: nat, id: string, wanted: map<string, string>): (State, Option<Fault>) {
    if id !in s.devices then (s, Some(Missing))
    else if Busy(s.pending, id) then (s, Some(Conflict))
    else if !env.valid then (s, Some(Invalid))
    else
      var patch := Patch(wanted, s.devices[id].settings);
      if patch == map[] then (Answer(s, token, 200), None)
      else Send(s, env, token, Settings(id, patch))
  }

  function RouteRemove(s: State, env: Env, token: nat, id: string): (State, Option<Fault>) {
    if id !in s.devices then (s, Some(Missing))
    else if s.devices[id].app != SCENE_APP && Busy(s.pending, id) then (s, Some(Conflict))
    else
      var (sent, fault) := if s.devices[id].app == SCENE_APP then (s, Some(Missing)) else Send(s, env, token, Delete(id));
      if fault.None? then (sent, None)
      else if fault.value != Missing && fault.value != Invalid then (s, fault)
      else if !env.deletes then (s, Some(env.refusal))
      else (Answer(s.(devices := s.devices - {id}), token, 200), None)
  }

  function RouteStart(s: State, env: Env, token: nat, app: string, driver: string): (State, Option<Fault>) {
    if !env.defined then (s, Some(Missing))
    else if |s.sessions| + Starting(s.pending) >= MAX_SESSIONS then (s, Some(Full))
    else Send(s, env, token, Start(Session(env.newId, app, driver)))
  }

  /** Closing is idempotent: the session is gone even when the app cannot be told. */
  function RouteClose(s: State, env: Env, token: nat, id: string): (State, Option<Fault>) {
    match FindSession(s.sessions, id)
    case None => (Answer(s, token, 200), None)
    case Some(i) =>
      var closed := s.(sessions := Dropped(s.sessions, i));
      var (sent, fault) := Send(closed, env, token, Close);
      if fault.None? then (sent, None) else (Answer(closed, token, 200), None)
  }

  function RouteEmit(s: State, env: Env, token: nat, id: string): (State, Option<Fault>) {
    if !env.valid then (s, Some(Invalid))
    else if FindSession(s.sessions, id).None? then (s, Some(Missing))
    else Send(s, env, token, Emit)
  }

  /** The store refuses to change what identifies a device, so only the rest of the record is renewed. */
  function RouteReplace(s: State, env: Env, token: nat, id: string, candidate: Device): (State, Option<Fault>) {
    if id !in s.devices then (s, Some(Missing))
    else if s.devices[id].app != candidate.app || s.devices[id].driver != candidate.driver then (s, Some(Invalid))
    else if Busy(s.pending, id) then (s, Some(Conflict))
    else if !env.defined || !env.valid then (s, Some(Invalid))
    else if |s.pending| == MAX_PENDING then (s, Some(Full))
    else if s.devices[id].data != candidate.data then (s, Some(Invalid))
    else if !env.puts then (s, Some(env.refusal))
    else
      var renewed := s.(devices := s.devices[id := s.devices[id].(store := candidate.store)]);
      if !env.adopts then (renewed, Some(Invalid)) else Send(renewed, env, token, Driver(candidate.app, id, true))
  }

  predicate SameHardware(a: Device, b: Device) {
    a.app == b.app && a.driver == b.driver && a.data == b.data
  }

  /** A device that cannot be handed to its app is taken out of the store again. */
  function RouteAdd(s: State, env: Env, token: nat, candidate: Device): (State, Option<Fault>) {
    if !env.defined || !env.valid then (s, Some(Invalid))
    else if exists id :: id in s.devices && SameHardware(s.devices[id], candidate) then
      if exists id :: id in s.devices && SameHardware(s.devices[id], candidate) && Initializing(s.pending, id)
      then (s, Some(Conflict))
      else (Answer(s, token, 201), None)
    else if |s.pending| == MAX_PENDING then (s, Some(Full))
    else if !env.puts then (s, Some(env.refusal))
    else
      var added := s.(devices := s.devices[env.newId := candidate]);
      var (sent, fault) :=
        if !env.adopts then (added, Some(Invalid)) else Send(added, env, token, Driver(candidate.app, env.newId, false));
      if fault.None? then (sent, None)
      else if env.deletes then (s.(devices := s.devices - {env.newId}), fault)
      else (added, Some(env.refusal))
  }

  function Route(s: State, env: Env, token: nat, r: Request): (State, Option<Fault>) {
    match r
    case ChangeSettings(id, wanted) => RouteSettings(s, env, token, id, wanted)
    case RemoveDevice(id) => RouteRemove(s, env, token, id)
    case StartPair(app, driver) => RouteStart(s, env, token, app, driver)
    case ClosePair(id) => RouteClose(s, env, token, id)
    case EmitPair(id) => RouteEmit(s, env, token, id)
    case ReplaceDevice(id, candidate) => RouteReplace(s, env, token, id, candidate)
    case AddDevice(candidate) => RouteAdd(s, env, token, candidate)
  }

  function FaultStatus(f: Fault): nat {
    match f
    case Missing => 404
    case Conflict => 409
    case Invalid => 400
    case Full => 503
    case Storage => 503
  }

  /** A refused request is answered by the caller of the router. */
  function Serve(s: State, env: Env, token: nat, r: Request): State {
    var (next, fault) := Route(s, env, token, r);
    if fault.Some? then Answer(next, token, FaultStatus(fault.value)) else next
  }

  // ---------- completions and deadlines ----------

  /** How a stage ends: an answer, one more call, or a fault. */
  datatype Ending = Done(status: nat) | Again | Failed(fault: Fault)

  function Finish(s: State, env: Env, c: Completion, stage: Stage): (State, Ending) {
    if stage.Delete? then
      if stage.id !in s.devices then (s, Failed(Missing))
      else if !env.deletes then (s, Failed(env.refusal))
      else (s.(devices := s.devices - {stage.id}), Done(200))
    else if stage.Close? then (s, Done(200))
    else if c.failed then (s, Failed(Invalid))
    else if stage.Start? then
      if !c.wellFormed then (s, Failed(Invalid)) else (s.(sessions := s.sessions + [stage.session]), Done(201))
    else if stage.Settings? then
      if stage.id !in s.devices then (s, Failed(Missing))
      else if !env.puts then (s, Failed(env.refusal))
      else
        var d := s.devices[stage.id];
        (s.(devices := s.devices[stage.id := d.(settings := d.settings + stage.patch)]), Done(200))
    else if stage.Emit? then (s, Done(200))
    else if stage.Driver? then (if env.call.Some? then (s, Failed(env.call.value)) else (s, Again))
    else if stage.id !in s.devices then (s, Failed(Missing))
    else (s, Done(201))
  }

  /** Whether a failing stage must take its new device out of the store. */
  predicate MustUndo(s: State, stage: Stage) {
    IsInit(stage) && !stage.keep && stage.id in s.devices
  }

  function GiveUp(s: State, env: Env, p: Pending, fault: Fault): State {
    var failed := if MustUndo(s, p.stage) && !env.deletes then env.refusal else fault;
    var cleaned := if MustUndo(s, p.stage) && env.deletes then s.(devices := s.devices - {p.stage.id}) else s;
    Answer(cleaned, p.token, if failed == Storage then 503 else 502)
  }

  /** Ends or advances the operation with this owner number; anything else is not ours. */
  function Complete(s: State, env: Env, c: Completion): (State, bool) {
    match FindOwner(s.pending, c.owner)
    case None => (s, false)
    case Some(i) =>
      var p := s.pending[i];
      var rest := s.(pending := Dropped(s.pending, i));
      var (next, ending) := Finish(rest, env, c, p.stage);
      match ending
      case Done(status) => (Answer(next, p.token, status), true)
      case Again =>
        (next.(pending := next.pending + [p.(deadline := Deadline(env), stage := AfterDriver(p.stage))]), true)
      case Failed(fault) => (GiveUp(next, env, p, fault), true)
  }

  function AfterDriver(stage: Stage): Stage {
    if stage.Driver? then Init(stage.id, stage.keep) else stage
  }

  function FirstDue(pending: seq<Pending>, now: nat): (r: Option<nat>)
    ensures r.Some? ==> r.value < |pending| && pending[r.value].deadline <= now
    ensures r.None? ==> forall k :: 0 <= k < |pending| ==> pending[k].deadline > now
  {
    if |pending| == 0 then None
    else
      var earlier := FirstDue(pending[..|pending| - 1], now);
      if earlier.Some? then earlier
      else if pending[|pending| - 1].deadline <= now then Some(|pending| - 1)
      else None
  }

  function Expired(owner: nat): Completion {
    Completion(owner, true, false)
  }

  /** A failing completion always takes the operation off the table. */
  lemma ExpiredShrinks(s: State, env: Env, owner: nat)
    requires FindOwner(s.pending, owner).Some?
    ensures |Complete(s, env, Expired(owner)).0.pending| == |s.pending| - 1
    ensures |Complete(s, env, Expired(owner)).0.replies| == |s.replies| + 1
  {
  }

  lemma DueIsPending(pending: seq<Pending>, now: nat)
    requires FirstDue(pending, now).Some?
    ensures FindOwner(pending, pending[FirstDue(pending, now).value].owner).Some?
  {
  }

  /** Everything due is failed, one at a time; `envs` answers for each round. */
  function Poll(s: State, envs: nat -> Env, round: nat): State
    decreases |s.pending|
  {
    match FirstDue(s.pending, envs(round).now)
    case None => s
    case Some(i) =>
      DueIsPending(s.pending, envs(round).now);
      ExpiredShrinks(s, envs(round), s.pending[i].owner);
      Poll(Complete(s, envs(round), Expired(s.pending[i].owner)).0, envs, round + 1)
  }
}
