/** Pairing sessions over a run: ids stay distinct, so closing a session ends it for good. */
module PairingSessions {
  import opened Common
  import opened PairingSteps
  import opened PairingHistory

  predicate StartsAs(p: Pending, id: string) {
    p.stage.Start? && p.stage.session.id == id
  }

  /** No session has this id, nor is one being started under it. */
  ghost predicate Absent(s: State, id: string) {
    && (forall k :: 0 <= k < |s.sessions| ==> s.sessions[k].id != id)
    && (forall k :: 0 <= k < |s.pending| ==> !StartsAs(s.pending[k], id))
  }

  ghost predicate DistinctSessions(sessions: seq<Session>) {
    forall i, j :: 0 <= i < j < |sessions| ==> sessions[i].id != sessions[j].id
  }

  ghost predicate DistinctStarts(pending: seq<Pending>) {
    forall i, j :: 0 <= i < j < |pending| && pending[i].stage.Start? ==> !StartsAs(pending[j], pending[i].stage.session.id)
  }

  ghost predicate Apart(sessions: seq<Session>, pending: seq<Pending>) {
    forall i, j :: 0 <= i < |sessions| && 0 <= j < |pending| ==> !StartsAs(pending[j], sessions[i].id)
  }

  /** Every id in use is known, and no two sessions, running or starting, share one. */
  ghost predicate SessionsOk(s: State, used: set<string>) {
    && DistinctSessions(s.sessions) && DistinctStarts(s.pending) && Apart(s.sessions, s.pending)
    && (forall id :: id !in used ==> Absent(s, id))
  }

  // ---------- what a step may do to sessions ----------

  /** The only ways a step changes sessions and starting entries. */
  datatype Change = Same | Queues(p: Pending) | Closes(i: nat) | ClosesAndQueues(i: nat, p: Pending)
    | Ends(i: nat) | Opens(i: nat) | Moves(i: nat, p: Pending)

  ghost predicate Changed(s: State, next: State, c: Change) {
    match c
    case Same => next.sessions == s.sessions && next.pending == s.pending
    case Queues(p) => next.sessions == s.sessions && next.pending == s.pending + [p]
    case Closes(i) => i < |s.sessions| && next.sessions == Dropped(s.sessions, i) && next.pending == s.pending
    case ClosesAndQueues(i, p) =>
      i < |s.sessions| && next.sessions == Dropped(s.sessions, i) && next.pending == s.pending + [p] && !p.stage.Start?
    case Ends(i) => i < |s.pending| && next.sessions == s.sessions && next.pending == Dropped(s.pending, i)
    case Opens(i) =>
      && i < |s.pending| && s.pending[i].stage.Start?
      && next.sessions == s.sessions + [s.pending[i].stage.session] && next.pending == Dropped(s.pending, i)
    case Moves(i, p) =>
      i < |s.pending| && next.sessions == s.sessions && next.pending == Dropped(s.pending, i) + [p] && !p.stage.Start?
  }

  lemma DroppedAt<T>(s: seq<T>, i: nat)
    requires i < |s|
    ensures |Dropped(s, i)| == |s| - 1
    ensures forall k :: 0 <= k < |s| - 1 ==> Dropped(s, i)[k] == s[if k < i then k else k + 1]
  {
  }

  /** A change that starts nothing under an id it did not know brings no id back. */
  lemma ChangeKeepsAbsent(s: State, next: State, c: Change, id: string)
    requires Changed(s, next, c) && Absent(s, id) && (c.Queues? ==> !StartsAs(c.p, id))
    ensures Absent(next, id)
  {
    match c
    case Same =>
    case Queues(p) =>
    case Closes(i) => DroppedAt(s.sessions, i);
    case ClosesAndQueues(i, p) => DroppedAt(s.sessions, i);
    case Ends(i) => DroppedAt(s.pending, i);
    case Opens(i) => DroppedAt(s.pending, i);
    case Moves(i, p) => DroppedAt(s.pending, i);
  }

  lemma OpensKeepsDistinct(s: State, next: State, i: nat)
    requires DistinctSessions(s.sessions) && DistinctStarts(s.pending) && Apart(s.sessions, s.pending)
    requires Changed(s, next, Opens(i))
    ensures DistinctSessions(next.sessions) && DistinctStarts(next.pending) && Apart(next.sessions, next.pending)
  {
    DroppedAt(s.pending, i);
    var id := s.pending[i].stage.session.id;
    assert forall k :: 0 <= k < |s.sessions| ==> s.sessions[k].id != id by {
      forall k | 0 <= k < |s.sessions| ensures s.sessions[k].id != id {
        assert !StartsAs(s.pending[i], s.sessions[k].id);
      }
    }
    forall k | 0 <= k < |next.pending| ensures !StartsAs(next.pending[k], id) {
      var at := if k < i then k else k + 1;
      assert next.pending[k] == s.pending[at];
    }
  }

  lemma QueueDistinct(sessions: seq<Session>, pending: seq<Pending>, p: Pending)
    requires DistinctStarts(pending) && Apart(sessions, pending)
    requires p.stage.Start? ==> forall k :: 0 <= k < |sessions| ==> sessions[k].id != p.stage.session.id
    requires p.stage.Start? ==> forall k :: 0 <= k < |pending| ==> !StartsAs(pending[k], p.stage.session.id)
    ensures DistinctStarts(pending + [p]) && Apart(sessions, pending + [p])
  {
  }

  lemma CloseDistinct(sessions: seq<Session>, pending: seq<Pending>, i: nat)
    requires DistinctSessions(sessions) && Apart(sessions, pending) && i < |sessions|
    ensures DistinctSessions(Dropped(sessions, i)) && Apart(Dropped(sessions, i), pending)
  {
    DroppedAt(sessions, i);
  }

  lemma EndDistinct(sessions: seq<Session>, pending: seq<Pending>, i: nat)
    requires DistinctStarts(pending) && Apart(sessions, pending) && i < |pending|
    ensures DistinctStarts(Dropped(pending, i)) && Apart(sessions, Dropped(pending, i))
  {
    DroppedAt(pending, i);
  }

  lemma ChangeKeepsDistinct(s: State, next: State, c: Change)
    requires DistinctSessions(s.sessions) && DistinctStarts(s.pending) && Apart(s.sessions, s.pending)
    requires Changed(s, next, c)
    requires c.Queues? && c.p.stage.Start? ==> Absent(s, c.p.stage.session.id)
    ensures DistinctSessions(next.sessions) && DistinctStarts(next.pending) && Apart(next.sessions, next.pending)
  {
    hide Dropped, DistinctSessions, DistinctStarts, Apart;
    match c
    case Same =>
    case Queues(p) => QueueDistinct(s.sessions, s.pending, p);
    case Closes(i) => CloseDistinct(s.sessions, s.pending, i);
    case ClosesAndQueues(i, p) =>
      CloseDistinct(s.sessions, s.pending, i);
      QueueDistinct(Dropped(s.sessions, i), s.pending, p);
    case Ends(i) => EndDistinct(s.sessions, s.pending, i);
    case Opens(i) => OpensKeepsDistinct(s, next, i);
    case Moves(i, p) =>
      EndDistinct(s.sessions, s.pending, i);
      QueueDistinct(s.sessions, Dropped(s.pending, i), p);
  }

  lemma ChangeKeepsSessions(s: State, next: State, c: Change, used: set<string>, wider: set<string>)
    requires SessionsOk(s, used) && used <= wider && Changed(s, next, c)
    requires c.Queues? && c.p.stage.Start? ==> c.p.stage.session.id in wider && c.p.stage.session.id !in used
    ensures SessionsOk(next, wider)
  {
    hide Changed, DistinctSessions, DistinctStarts, Apart, Absent;
    ChangeKeepsDistinct(s, next, c);
    forall id | id !in wider ensures Absent(next, id) {
      ChangeKeepsAbsent(s, next, c, id);
    }
  }

  // ---------- requests, completions, sweeps ----------

  predicate NeedsId(r: Request) {
    r.AddDevice? || r.StartPair?
  }

  lemma SendChange(s: State, base: State, env: Env, token: nat, stage: Stage) returns (c: Change)
    requires base.sessions == s.sessions && base.pending == s.pending
    ensures Changed(s, Send(base, env, token, stage).0, c) && (c.Same? || (c.Queues? && c.p.stage == stage))
  {
    var next := Send(base, env, token, stage).0;
    c := if next.pending == s.pending then Same else Queues(next.pending[|s.pending|]);
  }

  lemma AskChange(s: State, env: Env, token: nat, r: Request) returns (c: Change)
    requires !r.ClosePair?
    ensures Changed(s, Serve(s, env, token, r), c)
    ensures c.Same? || c.Queues?
    ensures c.Queues? && c.p.stage.Start? ==> r.StartPair? && c.p.stage.session.id == env.newId
  {
    c := Same;
    match r
    case ChangeSettings(id, wanted) =>
      if id in s.devices {
        var d := SendChange(s, s, env, token, Settings(id, Patch(wanted, s.devices[id].settings)));
        c := if Serve(s, env, token, r).pending == s.pending then Same else d;
      }
    case RemoveDevice(id) =>
      var d := SendChange(s, s, env, token, Delete(id));
      c := if Serve(s, env, token, r).pending == s.pending then Same else d;
    case StartPair(app, driver) =>
      var d := SendChange(s, s, env, token, Start(Session(env.newId, app, driver)));
      c := if Serve(s, env, token, r).pending == s.pending then Same else d;
    case EmitPair(id) =>
      var d := SendChange(s, s, env, token, Emit);
      c := if Serve(s, env, token, r).pending == s.pending then Same else d;
    case ReplaceDevice(id, candidate) =>
      if id in s.devices {
        var renewed := s.(devices := s.devices[id := s.devices[id].(store := candidate.store)]);
        var d := SendChange(s, renewed, env, token, Driver(candidate.app, id, true));
        c := if Serve(s, env, token, r).pending == s.pending then Same else d;
      }
    case AddDevice(candidate) =>
      var added := s.(devices := s.devices[env.newId := candidate]);
      var d := SendChange(s, added, env, token, Driver(candidate.app, env.newId, false));
      c := if Serve(s, env, token, r).pending == s.pending then Same else d;
  }

  lemma CloseChange(s: State, env: Env, token: nat, id: string) returns (c: Change)
    ensures Changed(s, Serve(s, env, token, ClosePair(id)), c)
    ensures match FindSession(s.sessions, id)
      case None => c.Same?
      case Some(i) => (c.Closes? || c.ClosesAndQueues?) && c.i == i
  {
    var found := FindSession(s.sessions, id);
    if found.None? {
      c := Same;
    } else {
      var closed := s.(sessions := Dropped(s.sessions, found.value));
      var d := SendChange(closed, closed, env, token, Close);
      c := if d.Same? then Closes(found.value) else ClosesAndQueues(found.value, d.p);
    }
  }

  lemma AskKeepsSessions(s: State, used: set<string>, env: Env, token: nat, r: Request)
    requires SessionsOk(s, used) && (NeedsId(r) ==> env.newId !in used)
    ensures SessionsOk(Serve(s, env, token, r), if NeedsId(r) then used + {env.newId} else used)
  {
    hide SessionsOk, Serve, Changed;
    var wider := if NeedsId(r) then used + {env.newId} else used;
    var c;
    if r.ClosePair? {
      c := CloseChange(s, env, token, r.session);
    } else {
      c := AskChange(s, env, token, r);
    }
    ChangeKeepsSessions(s, Serve(s, env, token, r), c, used, wider);
  }

  lemma CompleteChange(s: State, env: Env, c: Completion) returns (d: Change)
    ensures Changed(s, Complete(s, env, c).0, d) && (d.Same? || d.Ends? || d.Opens? || d.Moves?)
  {
    d := Same;
    if Complete(s, env, c).1 {
      var i, moved := CompleteShape(s, env, c);
      i := FindOwner(s.pending, c.owner).value;
      var p, next := s.pending[i], Complete(s, env, c).0;
      FinishSessions(s.(pending := Dropped(s.pending, i)), env, c, p.stage);
      if Finish(s.(pending := Dropped(s.pending, i)), env, c, p.stage).1.Again? {
        d := Moves(i, p.(deadline := Deadline(env), stage := AfterDriver(p.stage)));
      } else if next.sessions == s.sessions {
        d := Ends(i);
      } else {
        d := Opens(i);
      }
    }
  }

  lemma FinishSessions(s: State, env: Env, c: Completion, stage: Stage)
    ensures var (next, ending) := Finish(s, env, c, stage);
      && next.pending == s.pending
      && (next.sessions == s.sessions || (stage.Start? && next.sessions == s.sessions + [stage.session] && ending.Done?))
      && (ending.Again? ==> stage.Driver? && next == s)
  {
  }

  lemma CompleteKeepsSessions(s: State, used: set<string>, env: Env, c: Completion)
    requires SessionsOk(s, used)
    ensures SessionsOk(Complete(s, env, c).0, used)
  {
    var d := CompleteChange(s, env, c);
    ChangeKeepsSessions(s, Complete(s, env, c).0, d, used, used);
  }

  lemma {:induction false} PollKeepsSessions(s: State, used: set<string>, envs: nat -> Env, round: nat)
    requires SessionsOk(s, used)
    ensures SessionsOk(Poll(s, envs, round), used)
    decreases |s.pending|
  {
    hide SessionsOk;
    var due := FirstDue(s.pending, envs(round).now);
    if due.Some? {
      var owner := s.pending[due.value].owner;
      DueIsPending(s.pending, envs(round).now);
      ExpiredShrinks(s, envs(round), owner);
      CompleteKeepsSessions(s, used, envs(round), Expired(owner));
      PollKeepsSessions(Complete(s, envs(round), Expired(owner)).0, used, envs, round + 1);
    }
  }

  // ---------- closing ----------

  /** Closing answers or queues the request, removes the session and touches no other. */
  lemma ClosedIsGone(s: State, used: set<string>, env: Env, token: nat, id: string)
    requires SessionsOk(s, used) && FindSession(s.sessions, id).Some?
    ensures var next := Serve(s, env, token, ClosePair(id));
      && Absent(next, id) && next.devices == s.devices
      && (forall x :: x in s.sessions && x.id != id ==> x in next.sessions)
      && (forall x :: x in next.sessions ==> x in s.sessions)
  {
    var i := FindSession(s.sessions, id).value;
    var next := Serve(s, env, token, ClosePair(id));
    var c := CloseChange(s, env, token, id);
    assert next.devices == s.devices;
    hide Serve, FindSession, Dropped;
    assert forall k :: 0 <= k < |s.pending| ==> !StartsAs(s.pending[k], s.sessions[i].id);
    DropOne(s.sessions, i);
  }

  lemma DropOne(sessions: seq<Session>, i: nat)
    requires DistinctSessions(sessions) && i < |sessions|
    ensures forall k :: 0 <= k < |sessions| - 1 ==> Dropped(sessions, i)[k].id != sessions[i].id
    ensures |Dropped(sessions, i)| == |sessions| - 1
    ensures forall x :: x in sessions && x.id != sessions[i].id ==> x in Dropped(sessions, i)
    ensures forall x :: x in Dropped(sessions, i) ==> x in sessions
  {
    DroppedAt(sessions, i);
    forall x | x in sessions && x.id != sessions[i].id ensures x in Dropped(sessions, i) {
      var k :| 0 <= k < |sessions| && sessions[k] == x;
      assert Dropped(sessions, i)[if k < i then k else k - 1] == x;
    }
  }

  /** An id that is used up and absent stays absent in every step. */
  lemma AskKeepsAbsent(s: State, used: set<string>, env: Env, token: nat, r: Request, id: string)
    requires Absent(s, id) && id in used && (NeedsId(r) ==> env.newId !in used)
    ensures Absent(Serve(s, env, token, r), id)
  {
    hide Absent, Serve, Changed;
    var c;
    if r.ClosePair? {
      c := CloseChange(s, env, token, r.session);
    } else {
      c := AskChange(s, env, token, r);
    }
    ChangeKeepsAbsent(s, Serve(s, env, token, r), c, id);
  }

  lemma CompleteKeepsAbsent(s: State, env: Env, c: Completion, id: string)
    requires Absent(s, id)
    ensures Absent(Complete(s, env, c).0, id)
  {
    var d := CompleteChange(s, env, c);
    ChangeKeepsAbsent(s, Complete(s, env, c).0, d, id);
  }

  lemma {:induction false} PollKeepsAbsent(s: State, envs: nat -> Env, round: nat, id: string)
    requires Absent(s, id)
    ensures Absent(Poll(s, envs, round), id)
    decreases |s.pending|
  {
    hide Absent;
    var due := FirstDue(s.pending, envs(round).now);
    if due.Some? {
      var owner := s.pending[due.value].owner;
      DueIsPending(s.pending, envs(round).now);
      ExpiredShrinks(s, envs(round), owner);
      CompleteKeepsAbsent(s, envs(round), Expired(owner), id);
      PollKeepsAbsent(Complete(s, envs(round), Expired(owner)).0, envs, round + 1, id);
    }
  }
}
