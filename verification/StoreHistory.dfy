/** Runs of the store: a candidate is written first, then document, log and readers follow. */
module StoreHistory {
  import opened Common
  import opened Bytes
  import opened SlotCodec
  import opened SlotHistory
  import EventLog
  import FlowGraph
  import opened StoreRecords

  /** The text form of a document, when it fits, and the reading of time stamps. */
  datatype Codec = Codec(encode: Document -> Option<seq<Byte>>, parse: string -> Option<nat>)

  datatype State = State(document: Document, log: EventLog.Log, owner: Owner, disk: Disk)

  /** How storage behaves during one save; `None` is an owner that refuses after an earlier uncertain write. */
  type Storage = Option<Outcome>

  function Numbers(sequence: nat, notices: seq<Notice>): (r: seq<EventLog.Event>)
    ensures |r| == |notices|
    ensures forall k :: 0 <= k < |r| ==>
      r[k] == EventLog.Event(sequence + k + 1, notices[k].manager, notices[k].kind, notices[k].id)
  {
    if |notices| == 0 then []
    else
      var n := notices[|notices| - 1];
      Numbers(sequence, notices[..|notices| - 1])
      + [EventLog.Event(sequence + |notices|, n.manager, n.kind, n.id)]
  }

  predicate HasRoom(log: EventLog.Log, notices: seq<Notice>) {
    log.sequence + |notices| < U64_LIMIT
  }

  function Persist(o: Owner, d: Disk, bytes: seq<Byte>, storage: Storage): (Owner, Disk, bool) {
    if storage.None? then (o, d, false) else SaveStep(o, d, bytes, storage.value)
  }

  function CommitPlan(codec: Codec, s: State, plan: Plan, storage: Storage): (State, Option<Fault>)
    requires plan.Commit?
  {
    if !HasRoom(s.log, plan.notices) then (s, Some(Full))
    else
      var bytes := codec.encode(plan.candidate);
      if bytes.None? then (s, Some(Full))
      else
        var (owner, disk, done) := Persist(s.owner, s.disk, bytes.value, storage);
        if !done then (s.(owner := owner, disk := disk), Some(Fault.Storage))
        else
          var log := if plan.reload then s.log.(events := []) else s.log;
          (State(plan.candidate, EventLog.PublishAll(log, Numbers(s.log.sequence, plan.notices)), owner, disk), None)
  }

  function Perform(codec: Codec, s: State, plan: Plan, storage: Storage): (State, Option<Fault>) {
    match plan
    case Refuse(fault) => (s, Some(fault))
    case Nothing => (s, None)
    case Tell(notices) =>
      if !HasRoom(s.log, notices) then (s, Some(Full))
      else (s.(log := EventLog.PublishAll(s.log, Numbers(s.log.sequence, notices))), None)
    case Commit(_, _, _) => CommitPlan(codec, s, plan, storage)
  }

  ghost function Apply(codec: Codec, s: State, op: Op, storage: Storage): (State, Option<Fault>) {
    Perform(codec, s, PlanOf(s.document, codec.parse, op), storage)
  }

  ghost function After(codec: Codec, s: State, ops: seq<(Op, Storage)>): State {
    if |ops| == 0 then s
    else
      var last := ops[|ops| - 1];
      Apply(codec, After(codec, s, ops[..|ops| - 1]), last.0, last.1).0
  }

  /** Every step of the run was answered without a fault. */
  ghost predicate Taken(codec: Codec, s: State, ops: seq<(Op, Storage)>) {
    |ops| > 0 ==>
      var front, last := ops[..|ops| - 1], ops[|ops| - 1];
      Taken(codec, s, front) && Apply(codec, After(codec, s, front), last.0, last.1).1.None?
  }

  // ---------- storage ----------

  /** The active slot holds this document, in a generation no other slot can beat. */
  ghost predicate Stored(codec: Codec, s: State) {
    && codec.encode(s.document).Some?
    && Select(s.disk) == Ok(Opened(s.owner.active, Record(s.owner.generation, codec.encode(s.document).value)))
  }

  /** A refused mutation leaves the document and the log alone, even when its write was torn. */
  lemma FailureChangesNothing(codec: Codec, s: State, op: Op, storage: Storage)
    requires Apply(codec, s, op, storage).1.Some?
    ensures Apply(codec, s, op, storage).0.document == s.document
    ensures Apply(codec, s, op, storage).0.log == s.log
    ensures Apply(codec, s, op, storage).0.owner == s.owner
  {
    hide PlanOf;
    FaultKeeps(codec, s, PlanOf(s.document, codec.parse, op), storage);
  }

  lemma FaultKeeps(codec: Codec, s: State, plan: Plan, storage: Storage)
    requires Perform(codec, s, plan, storage).1.Some?
    ensures var after := Perform(codec, s, plan, storage).0;
      after.document == s.document && after.log == s.log && after.owner == s.owner
  {
    hide Encode, Decode;
  }

  lemma DocumentAfter(codec: Codec, s: State, plan: Plan, storage: Storage)
    ensures var after := Perform(codec, s, plan, storage);
      after.0.document == if plan.Commit? && after.1.None? then plan.candidate else s.document
  {
  }

  /** The world of the slots as this store sees it. */
  ghost predicate Owns(s: State, w: World) {
    Inv(w) && w.disk == s.disk && w.owner == Some(s.owner)
  }

  ghost function SlotAfter(codec: Codec, s: State, w: World, op: Op, storage: Storage): World {
    var plan := PlanOf(s.document, codec.parse, op);
    if plan.Commit? && HasRoom(s.log, plan.notices) && codec.encode(plan.candidate).Some? && storage.Some?
    then SlotHistory.Step(w, Save(codec.encode(plan.candidate).value, storage.value))
    else w
  }

  lemma SlotsFollow(codec: Codec, s: State, w: World, op: Op, storage: Storage)
    requires Owns(s, w)
    ensures Owns(Apply(codec, s, op, storage).0, SlotAfter(codec, s, w, op, storage))
  {
    hide PlanOf, Encode, Decode, Inv, EventLog.PublishAll, Numbers;
    var plan := PlanOf(s.document, codec.parse, op);
    if plan.Commit? && HasRoom(s.log, plan.notices) && codec.encode(plan.candidate).Some? && storage.Some? {
      SlotHistory.StepKeepsInv(w, Save(codec.encode(plan.candidate).value, storage.value));
    }
  }

  /** Each successful write leaves the active slot equal to the encoded document, which is what a restart reads. */
  lemma SuccessIsStored(codec: Codec, s: State, w: World, op: Op, storage: Storage)
    requires Owns(s, w) && Apply(codec, s, op, storage).1.None? && PlanOf(s.document, codec.parse, op).Commit?
    ensures Stored(codec, Apply(codec, s, op, storage).0)
    ensures Apply(codec, s, op, storage).0.document == PlanOf(s.document, codec.parse, op).candidate
  {
    hide PlanOf, Encode, Decode;
    var plan := PlanOf(s.document, codec.parse, op);
    var bytes := codec.encode(plan.candidate).value;
    DurableSaveSurvives(w, bytes, storage.value, 0);
    SlotsFollow(codec, s, w, op, storage);
  }

  // ---------- the log ----------

  lemma PerformFollows(codec: Codec, s: State, plan: Plan, storage: Storage, all: seq<EventLog.Event>)
    returns (more: seq<EventLog.Event>)
    requires EventLog.Tied(s.log, all)
    requires plan.Commit? && plan.reload ==> |plan.notices| == 1
    ensures EventLog.Tied(Perform(codec, s, plan, storage).0.log, all + more)
    ensures Perform(codec, s, plan, storage).1.Some? ==> more == []
  {
    more := [];
    assert all + more == all;
    if Perform(codec, s, plan, storage).1.None? && (plan.Tell? || plan.Commit?) {
      more := Numbers(s.log.sequence, plan.notices);
      if plan.Commit? && plan.reload {
        ReloadAll(s.log, all, more);
      } else {
        EventLog.PublishAllTied(s.log, all, more);
      }
    }
  }

  lemma OnlyRestoreReloads(doc: Document, parse: string -> Option<nat>, op: Op)
    requires PlanOf(doc, parse, op).Commit?
    ensures PlanOf(doc, parse, op).reload <==> op.Restore?
    ensures op.Restore? ==> |PlanOf(doc, parse, op).notices| == 1
  {
  }

  lemma ReloadAll(log: EventLog.Log, all: seq<EventLog.Event>, more: seq<EventLog.Event>)
    requires EventLog.Tied(log, all) && |more| == 1 && more[0].sequence == log.sequence + 1
    ensures EventLog.Tied(EventLog.PublishAll(log.(events := []), more), all + more)
  {
    EventLog.ReloadKeepsTied(log, all, more[0]);
    assert more[..0] == [] && more == [more[0]];
    assert EventLog.PublishAll(log.(events := []), more[..0]) == log.(events := []);
  }

  // ---------- every run ----------

  /** After the first write the active slot always holds the document in memory. */
  ghost predicate ActiveHolds(codec: Codec, s: State) {
    s.owner.active != Legacy ==>
      codec.encode(s.document).Some?
      && DecodeFile(Content(s.disk, s.owner.active)) == Some(Record(s.owner.generation, codec.encode(s.document).value))
  }

  ghost predicate RunInv(codec: Codec, s: State, w: World, all: seq<EventLog.Event>) {
    Owns(s, w) && ActiveHolds(codec, s) && EventLog.Tied(s.log, all) && UniqueFlows(s.document.flows)
  }

  lemma PerformHolds(codec: Codec, s: State, w: World, plan: Plan, storage: Storage)
    requires Owns(s, w) && ActiveHolds(codec, s)
    ensures ActiveHolds(codec, Perform(codec, s, plan, storage).0)
  {
    hide Encode, Decode, EventLog.PublishAll, Numbers;
    if plan.Commit? && storage.Some? && codec.encode(plan.candidate).Some? {
      var bytes := codec.encode(plan.candidate).value;
      if CanEncode(s.owner, bytes) {
        WriteDecode(Content(s.disk, Target(s.owner)), s.owner.generation + 1, bytes, storage.value);
      }
    }
  }

  lemma StepKeepsInv(codec: Codec, s: State, w: World, all: seq<EventLog.Event>, op: Op, storage: Storage)
    returns (w': World, more: seq<EventLog.Event>)
    requires RunInv(codec, s, w, all)
    ensures RunInv(codec, Apply(codec, s, op, storage).0, w', all + more)
    ensures Apply(codec, s, op, storage).1.Some? ==> more == []
  {
    hide PlanOf, Perform, Owns, ActiveHolds, EventLog.Tied, UniqueFlows, SlotAfter;
    var plan := PlanOf(s.document, codec.parse, op);
    w' := SlotAfter(codec, s, w, op, storage);
    DocumentAfter(codec, s, plan, storage);
    SlotsFollow(codec, s, w, op, storage);
    if plan.Commit? {
      OnlyRestoreReloads(s.document, codec.parse, op);
      PlanKeepsUnique(s.document, codec.parse, op);
    }
    more := PerformFollows(codec, s, plan, storage, all);
    PerformHolds(codec, s, w, plan, storage);
  }

  lemma Regroup(codec: Codec, s: State, w: World, all: seq<EventLog.Event>, m1: seq<EventLog.Event>, m2: seq<EventLog.Event>)
    requires RunInv(codec, s, w, all + m1 + m2)
    ensures RunInv(codec, s, w, all + (m1 + m2))
  {
    assert all + m1 + m2 == all + (m1 + m2);
  }

  /** Over every run of mutations, with saves failing or tearing at will, log, slots and document stay in step. */
  lemma {:induction false} EveryRunKeepsInv(codec: Codec, s: State, w: World, all: seq<EventLog.Event>, ops: seq<(Op, Storage)>)
    returns (w': World, more: seq<EventLog.Event>)
    requires RunInv(codec, s, w, all)
    ensures RunInv(codec, After(codec, s, ops), w', all + more)
  {
    if |ops| == 0 {
      w', more := w, [];
      assert all + more == all;
    } else {
      var front, last := ops[..|ops| - 1], ops[|ops| - 1];
      var w1, m1 := EveryRunKeepsInv(codec, s, w, all, front);
      var w2, m2 := StepKeepsInv(codec, After(codec, s, front), w1, all + m1, last.0, last.1);
      w', more := w2, m1 + m2;
      Regroup(codec, After(codec, s, ops), w', all, m1, m2);
    }
  }

  // ---------- revisions ----------

  /** Neither restored nor deleted in this run. */
  ghost predicate Spared(ops: seq<(Op, Storage)>, id: string) {
    forall k :: 0 <= k < |ops| ==> !ops[k].0.Restore? && !(ops[k].0.DeleteFlow? && ops[k].0.id == id)
  }

  function FlowOf(s: State, id: string): Option<FlowRecord> {
    Find(s.document.flows, id)
  }

  /** The number of steps of a run that wrote this flow. */
  ghost function Writes(codec: Codec, s: State, ops: seq<(Op, Storage)>, id: string): nat {
    if |ops| == 0 then 0
    else
      var front := ops[..|ops| - 1];
      Writes(codec, s, front, id)
      + (if FlowOf(After(codec, s, ops), id) == FlowOf(After(codec, s, front), id) then 0 else 1)
  }

  lemma StepRevises(codec: Codec, s: State, op: Op, storage: Storage, id: string)
    requires FlowOf(s, id).Some? && Spared([(op, storage)], id)
    ensures var after := FlowOf(Apply(codec, s, op, storage).0, id);
      after.Some? && Succeeds(FlowOf(s, id).value, after.value)
  {
    assert [(op, storage)][0].0 == op;
    var plan := PlanOf(s.document, codec.parse, op);
    if plan.Commit? {
      PlanRevises(s.document, codec.parse, op, id);
    }
    DocumentAfter(codec, s, plan, storage);
  }

  /** Between creation and deletion the revision counts the writes, so it grows with each of them. */
  lemma {:induction false} RevisionCountsWrites(codec: Codec, s: State, ops: seq<(Op, Storage)>, id: string)
    requires FlowOf(s, id).Some? && Spared(ops, id)
    ensures var after := FlowOf(After(codec, s, ops), id);
      && after.Some? && after.value.revision == FlowOf(s, id).value.revision + Writes(codec, s, ops, id)
      && (Writes(codec, s, ops, id) == 0 ==> after == FlowOf(s, id))
  {
    if |ops| > 0 {
      var front, last := ops[..|ops| - 1], ops[|ops| - 1];
      RevisionCountsWrites(codec, s, front, id);
      assert Spared([last], id) by {
        assert ops[|ops| - 1] == last;
      }
      StepRevises(codec, After(codec, s, front), last.0, last.1, id);
    }
  }

  /** A put that succeeds with the revision read saw no other write, and itself makes that revision stale. */
  lemma PutIsExclusive(codec: Codec, s: State, ops: seq<(Op, Storage)>, op: Op, storage: Storage)
    requires op.PutFlow? && !op.create && FlowOf(s, op.record.id).Some? && Spared(ops, op.record.id)
    requires op.revision == Some(FlowOf(s, op.record.id).value.revision)
    requires Apply(codec, After(codec, s, ops), op, storage).1.None?
    ensures FlowOf(After(codec, s, ops), op.record.id) == FlowOf(s, op.record.id)
    ensures var after := FlowOf(Apply(codec, After(codec, s, ops), op, storage).0, op.record.id);
      after.Some? && after.value.revision == op.revision.value + 1
  {
    var end := After(codec, s, ops);
    RevisionCountsWrites(codec, s, ops, op.record.id);
    PutWrites(codec, end, op, storage);
  }

  lemma PerformRefuses(codec: Codec, s: State, plan: Plan, storage: Storage)
    ensures plan.Refuse? ==> Perform(codec, s, plan, storage).1.Some?
  {
  }

  lemma PutWrites(codec: Codec, s: State, op: Op, storage: Storage)
    requires op.PutFlow? && Apply(codec, s, op, storage).1.None?
    ensures PutGuard(s.document, op).None?
    ensures var previous := FlowOf(s, op.record.id);
      FlowOf(Apply(codec, s, op, storage).0, op.record.id) == Some(Prepared(op, previous))
  {
    hide Find, Without, Perform, FlowGraph.ValidFlow;
    var plan := PutPlan(s.document, op);
    PerformRefuses(codec, s, plan, storage);
    DocumentAfter(codec, s, plan, storage);
    ReplacedFind(s.document.flows, Prepared(op, FlowOf(s, op.record.id)), op.record.id);
  }
}
