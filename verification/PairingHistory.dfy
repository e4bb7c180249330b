/** What every run of pairing keeps: bounded tables, one answer per request, no half-made devices. */
module PairingHistory {
  import opened Common
  import opened PairingSteps

  // ---------- the pending table ----------

  ghost predicate UniqueOwners(pending: seq<Pending>) {
    forall i, j :: 0 <= i < j < |pending| ==> pending[i].owner != pending[j].owner
  }

  ghost predicate UniqueDevices(pending: seq<Pending>) {
    forall i, j :: 0 <= i < j < |pending| && StageDevice(pending[i].stage).Some? ==>
      StageDevice(pending[i].stage) != StageDevice(pending[j].stage)
  }

  ghost predicate OwnersBelow(pending: seq<Pending>, owner: nat) {
    forall k :: 0 <= k < |pending| ==> pending[k].owner <= owner
  }

  ghost predicate TableOk(pending: seq<Pending>, owner: nat) {
    && |pending| <= MAX_PENDING && UniqueOwners(pending) && UniqueDevices(pending) && OwnersBelow(pending, owner)
  }

  lemma AppendKeepsTable(pending: seq<Pending>, owner: nat, p: Pending)
    requires TableOk(pending, owner) && |pending| < MAX_PENDING && p.owner == owner + 1
    requires StageDevice(p.stage).Some? ==> !Busy(pending, StageDevice(p.stage).value)
    ensures TableOk(pending + [p], owner + 1)
  {
    var next := pending + [p];
    forall i, j | 0 <= i < j < |next| && StageDevice(next[i].stage).Some?
      ensures StageDevice(next[i].stage) != StageDevice(next[j].stage)
    {
      if j == |pending| && StageDevice(p.stage).Some? {
        assert StageDevice(pending[i].stage) != Some(StageDevice(p.stage).value);
      }
    }
  }

  lemma DropKeepsTable(pending: seq<Pending>, owner: nat, i: nat)
    requires TableOk(pending, owner) && i < |pending|
    ensures TableOk(Dropped(pending, i), owner) && |Dropped(pending, i)| == |pending| - 1
    ensures forall k :: 0 <= k < |pending| - 1 ==> Dropped(pending, i)[k].owner != pending[i].owner
    ensures StageDevice(pending[i].stage).Some? ==> !Busy(Dropped(pending, i), StageDevice(pending[i].stage).value)
  {
    var rest := Dropped(pending, i);
    assert forall k :: 0 <= k < |rest| ==> rest[k] == pending[if k < i then k else k + 1];
  }

  lemma MoveKeepsTable(pending: seq<Pending>, owner: nat, i: nat, p: Pending)
    requires TableOk(pending, owner) && i < |pending|
    requires p.owner == pending[i].owner && StageDevice(p.stage) == StageDevice(pending[i].stage)
    ensures TableOk(Dropped(pending, i) + [p], owner)
  {
    DropKeepsTable(pending, owner, i);
    var rest := Dropped(pending, i);
    var next := rest + [p];
    forall a, b | 0 <= a < b < |next| && StageDevice(next[a].stage).Some?
      ensures StageDevice(next[a].stage) != StageDevice(next[b].stage)
    {
      if b == |rest| && StageDevice(p.stage).Some? {
        assert StageDevice(rest[a].stage) != Some(StageDevice(p.stage).value);
      }
    }
  }

  lemma {:induction false} StartingDropped(pending: seq<Pending>, i: nat)
    requires i < |pending|
    ensures Starting(pending) == Starting(Dropped(pending, i)) + if pending[i].stage.Start? then 1 else 0
  {
    var rest := Dropped(pending, i);
    if i == |pending| - 1 {
      assert rest == pending[..i];
    } else {
      var front := pending[..|pending| - 1];
      StartingDropped(front, i);
      assert rest[..|rest| - 1] == Dropped(front, i);
    }
  }

  lemma StartingAppended(pending: seq<Pending>, p: Pending)
    ensures Starting(pending + [p]) == Starting(pending) + if p.stage.Start? then 1 else 0
  {
    assert (pending + [p])[..|pending|] == pending;
  }

  // ---------- who waits, who was answered ----------

  ghost function Waiting(pending: seq<Pending>): multiset<nat> {
    if |pending| == 0 then multiset{} else Waiting(pending[..|pending| - 1]) + multiset{pending[|pending| - 1].token}
  }

  ghost function Answered(replies: seq<Reply>): multiset<nat> {
    if |replies| == 0 then multiset{} else Answered(replies[..|replies| - 1]) + multiset{replies[|replies| - 1].token}
  }

  lemma WaitingAppended(pending: seq<Pending>, p: Pending)
    ensures Waiting(pending + [p]) == Waiting(pending) + multiset{p.token}
  {
    assert (pending + [p])[..|pending|] == pending;
  }

  lemma AnsweredAppended(replies: seq<Reply>, r: Reply)
    ensures Answered(replies + [r]) == Answered(replies) + multiset{r.token}
  {
    assert (replies + [r])[..|replies|] == replies;
  }

  lemma {:induction false} WaitingDropped(pending: seq<Pending>, i: nat)
    requires i < |pending|
    ensures Waiting(pending) == Waiting(Dropped(pending, i)) + multiset{pending[i].token}
  {
    var rest := Dropped(pending, i);
    if i == |pending| - 1 {
      assert rest == pending[..i];
    } else {
      var front := pending[..|pending| - 1];
      WaitingDropped(front, i);
      assert rest[..|rest| - 1] == Dropped(front, i);
    }
  }

  // ---------- one request ----------

  /** A request is either answered at once or waits at the end of the table under a new owner number. */
  ghost predicate Served(s: State, token: nat, next: State, answered: bool) {
    && |next.sessions| <= |s.sessions|
    && (if answered
        then next.owner == s.owner && next.pending == s.pending
             && |next.replies| == |s.replies| + 1 && next.replies == s.replies + [Reply(token, next.replies[|s.replies|].status)]
        else next.replies == s.replies && Queued(s, token, next))
  }

  ghost predicate Queued(s: State, token: nat, next: State) {
    && |s.pending| < MAX_PENDING && |next.pending| == |s.pending| + 1 && next.owner == s.owner + 1
    && var p := next.pending[|s.pending|];
      && next.pending == s.pending + [p] && p.owner == s.owner + 1 && p.token == token
      && (p.stage.Start? ==> |s.sessions| + Starting(s.pending) < MAX_SESSIONS)
      && (StageDevice(p.stage).Some? ==> !Busy(s.pending, StageDevice(p.stage).value))
  }

  /** Only sessions and devices may differ. */
  ghost predicate SameTable(s: State, base: State) {
    base.owner == s.owner && base.pending == s.pending && base.replies == s.replies && |base.sessions| <= |s.sessions|
  }

  lemma SendShape(s: State, base: State, env: Env, token: nat, stage: Stage)
    requires SameTable(s, base) && |s.pending| <= MAX_PENDING
    requires StageDevice(stage).Some? ==> !Busy(s.pending, StageDevice(stage).value)
    requires stage.Start? ==> |s.sessions| + Starting(s.pending) < MAX_SESSIONS
    ensures var (next, fault) := Send(base, env, token, stage);
      if fault.Some? then next == base else Served(s, token, next, false)
  {
    var (next, fault) := Send(base, env, token, stage);
    if fault.None? {
      assert next.pending[|s.pending|] == Pending(s.owner + 1, Deadline(env), token, stage);
    }
  }

  lemma AnswerShape(s: State, base: State, token: nat, status: nat)
    requires SameTable(s, base)
    ensures Served(s, token, Answer(base, token, status), true)
  {
  }

  ghost predicate Routed(s: State, token: nat, next: State, fault: Option<Fault>) {
    if fault.Some? then SameTable(s, next) else Served(s, token, next, true) || Served(s, token, next, false)
  }

  lemma DeviceRouteShape(s: State, env: Env, token: nat, r: Request)
    requires |s.pending| <= MAX_PENDING && (r.ChangeSettings? || r.RemoveDevice?)
    ensures var (next, fault) := Route(s, env, token, r); Routed(s, token, next, fault)
  {
    var id := r.device;
    if id in s.devices {
      if r.ChangeSettings? {
        if !Busy(s.pending, id) {
          SendShape(s, s, env, token, Settings(id, Patch(r.wanted, s.devices[id].settings)));
        }
        AnswerShape(s, s, token, 200);
      } else {
        if !Busy(s.pending, id) {
          SendShape(s, s, env, token, Delete(id));
        }
        AnswerShape(s, s.(devices := s.devices - {id}), token, 200);
      }
    }
  }

  lemma SessionRouteShape(s: State, env: Env, token: nat, r: Request)
    requires |s.pending| <= MAX_PENDING && (r.StartPair? || r.ClosePair? || r.EmitPair?)
    ensures var (next, fault) := Route(s, env, token, r); Routed(s, token, next, fault)
  {
    if r.StartPair? {
      if |s.sessions| + Starting(s.pending) < MAX_SESSIONS {
        SendShape(s, s, env, token, Start(Session(env.newId, r.app, r.driver)));
      }
    } else if r.EmitPair? {
      SendShape(s, s, env, token, Emit);
    } else {
      AnswerShape(s, s, token, 200);
      if FindSession(s.sessions, r.session).Some? {
        var closed := s.(sessions := Dropped(s.sessions, FindSession(s.sessions, r.session).value));
        SendShape(s, closed, env, token, Close);
        AnswerShape(s, closed, token, 200);
      }
    }
  }

  lemma PairRouteShape(s: State, env: Env, token: nat, r: Request)
    requires |s.pending| <= MAX_PENDING && (r.ReplaceDevice? || (r.AddDevice? && !Busy(s.pending, env.newId)))
    ensures var (next, fault) := Route(s, env, token, r); Routed(s, token, next, fault)
  {
    if r.ReplaceDevice? {
      if r.device in s.devices && !Busy(s.pending, r.device) {
        var renewed := s.(devices := s.devices[r.device := s.devices[r.device].(store := r.candidate.store)]);
        SendShape(s, renewed, env, token, Driver(r.candidate.app, r.device, true));
      }
    } else {
      var added := s.(devices := s.devices[env.newId := r.candidate]);
      SendShape(s, added, env, token, Driver(r.candidate.app, env.newId, false));
      AnswerShape(s, s, token, 201);
    }
  }

  lemma ServeShape(s: State, env: Env, token: nat, r: Request) returns (answered: bool)
    requires |s.pending| <= MAX_PENDING && (r.AddDevice? ==> !Busy(s.pending, env.newId))
    ensures Served(s, token, Serve(s, env, token, r), answered)
  {
    if r.ChangeSettings? || r.RemoveDevice? {
      DeviceRouteShape(s, env, token, r);
    } else if r.ReplaceDevice? || r.AddDevice? {
      PairRouteShape(s, env, token, r);
    } else {
      SessionRouteShape(s, env, token, r);
    }
    var (next, fault) := Route(s, env, token, r);
    if fault.Some? {
      AnswerShape(s, next, token, FaultStatus(fault.value));
    }
    answered := fault.Some? || Served(s, token, next, true);
  }

  // ---------- the invariant ----------

  /** Bounds, distinct owners and devices, and each accepted request waiting or answered, never both or twice. */
  ghost predicate Inv(s: State, accepted: multiset<nat>) {
    && TableOk(s.pending, s.owner)
    && |s.sessions| + Starting(s.pending) <= MAX_SESSIONS
    && Waiting(s.pending) + Answered(s.replies) == accepted
  }

  lemma ServeKeepsInv(s: State, accepted: multiset<nat>, env: Env, token: nat, r: Request)
    requires Inv(s, accepted) && (r.AddDevice? ==> !Busy(s.pending, env.newId))
    ensures Inv(Serve(s, env, token, r), accepted + multiset{token})
  {
    var answered := ServeShape(s, env, token, r);
    ServedKeepsInv(s, accepted, token, Serve(s, env, token, r), answered);
  }

  lemma ServedKeepsInv(s: State, accepted: multiset<nat>, token: nat, next: State, answered: bool)
    requires Inv(s, accepted) && Served(s, token, next, answered)
    ensures Inv(next, accepted + multiset{token})
  {
    if answered {
      AnsweredAppended(s.replies, next.replies[|s.replies|]);
    } else {
      var p := next.pending[|s.pending|];
      AppendKeepsTable(s.pending, s.owner, p);
      StartingAppended(s.pending, p);
      WaitingAppended(s.pending, p);
    }
  }

  /** A completion answers its request or moves it one stage on; the rest of the table is untouched. */
  ghost predicate Ended(s: State, i: nat, next: State, moved: bool) {
    && i < |s.pending| && next.owner == s.owner
    && (if moved
        then next.replies == s.replies && next.sessions == s.sessions
             && |next.pending| == |s.pending|
             && var p := next.pending[|s.pending| - 1];
               && next.pending == Dropped(s.pending, i) + [p] && s.pending[i].stage.Driver? && p.stage.Init?
               && p.owner == s.pending[i].owner && p.token == s.pending[i].token
               && p.stage == AfterDriver(s.pending[i].stage)
        else next.pending == Dropped(s.pending, i)
             && |next.replies| == |s.replies| + 1
             && next.replies == s.replies + [Reply(s.pending[i].token, next.replies[|s.replies|].status)]
             && |next.sessions| <= |s.sessions| + (if s.pending[i].stage.Start? then 1 else 0))
  }

  lemma FinishShape(s: State, env: Env, c: Completion, stage: Stage)
    ensures var (next, ending) := Finish(s, env, c, stage);
      && next.owner == s.owner && next.pending == s.pending && next.replies == s.replies
      && |next.sessions| <= |s.sessions| + (if stage.Start? then 1 else 0)
      && (ending.Again? ==> stage.Driver? && next == s && !c.failed)
  {
  }

  lemma CompleteShape(s: State, env: Env, c: Completion) returns (i: nat, moved: bool)
    requires Complete(s, env, c).1
    ensures Ended(s, i, Complete(s, env, c).0, moved) && s.pending[i].owner == c.owner && (moved ==> !c.failed)
  {
    i := FindOwner(s.pending, c.owner).value;
    var p := s.pending[i];
    var rest := s.(pending := Dropped(s.pending, i));
    FinishShape(rest, env, c, p.stage);
    var (next, ending) := Finish(rest, env, c, p.stage);
    moved := ending.Again?;
    if moved {
      var q := p.(deadline := Deadline(env), stage := AfterDriver(p.stage));
      assert (next.pending + [q])[|next.pending|] == q;
    }
  }

  lemma CompleteKeepsInv(s: State, accepted: multiset<nat>, env: Env, c: Completion)
    requires Inv(s, accepted)
    ensures Inv(Complete(s, env, c).0, accepted)
  {
    if Complete(s, env, c).1 {
      var i, moved := CompleteShape(s, env, c);
      EndedKeepsInv(s, accepted, i, Complete(s, env, c).0, moved);
    }
  }

  lemma EndedKeepsInv(s: State, accepted: multiset<nat>, i: nat, next: State, moved: bool)
    requires Inv(s, accepted) && Ended(s, i, next, moved)
    ensures Inv(next, accepted)
  {
    WaitingDropped(s.pending, i);
    StartingDropped(s.pending, i);
    if moved {
      var p := next.pending[|s.pending| - 1];
      MoveKeepsTable(s.pending, s.owner, i, p);
      StartingAppended(Dropped(s.pending, i), p);
      WaitingAppended(Dropped(s.pending, i), p);
    } else {
      DropKeepsTable(s.pending, s.owner, i);
      AnsweredAppended(s.replies, next.replies[|s.replies|]);
    }
  }

  /** Polling ends with nothing overdue, and answers exactly as many requests as it takes off the table. */
  lemma {:induction false} PollKeepsInv(s: State, accepted: multiset<nat>, envs: nat -> Env, round: nat) returns (last: nat)
    requires Inv(s, accepted)
    ensures Inv(Poll(s, envs, round), accepted)
    ensures var end := Poll(s, envs, round);
      && last >= round && FirstDue(end.pending, envs(last).now).None?
      && |end.replies| - |s.replies| == |s.pending| - |end.pending| == last - round
    decreases |s.pending|
  {
    last := round;
    var due := FirstDue(s.pending, envs(round).now);
    if due.Some? {
      var owner := s.pending[due.value].owner;
      DueIsPending(s.pending, envs(round).now);
      ExpiredShrinks(s, envs(round), owner);
      CompleteKeepsInv(s, accepted, envs(round), Expired(owner));
      last := PollKeepsInv(Complete(s, envs(round), Expired(owner)).0, accepted, envs, round + 1);
    }
  }
}
