/** Optimistic revisions over every run, deletions and restores included: when an old revision is caught. */
module StoreRevisions {
  import opened Common
  import opened SlotCodec
  import opened SlotHistory
  import FlowGraph
  import EventLog
  import opened StoreRecords
  import opened StoreHistory

  type Run = seq<(Op, StoreHistory.Storage)>

  /** The document was replaced by an archive. */
  ghost predicate Restored(codec: Codec, s: State, step: (Op, StoreHistory.Storage)) {
    step.0.Restore? && Apply(codec, s, step.0, step.1).1.None?
  }

  /**
   * The age of a flow: nothing while it is absent, one when it is created, what the archive says when it
   * is restored, and one more with every other write.
   */
  ghost function Age(codec: Codec, s: State, ops: Run, id: string): nat {
    var now := FlowOf(StoreHistory.After(codec, s, ops), id);
    if now.None? then 0
    else if |ops| == 0 then now.value.revision
    else
      var front, last := ops[..|ops| - 1], ops[|ops| - 1];
      var before := FlowOf(StoreHistory.After(codec, s, front), id);
      if Restored(codec, StoreHistory.After(codec, s, front), last) then ArchivedRevision(last.0, id)
      else if before.None? then 1
      else Age(codec, s, front, id) + (if now == before then 0 else 1)
  }

  function ArchivedRevision(op: Op, id: string): nat {
    if op.Restore? && op.document.Some? && Find(op.document.value.flows, id).Some?
    then Find(op.document.value.flows, id).value.revision else 0
  }

  // ---------- one step ----------

  lemma RestoredRevision(codec: Codec, s: State, op: Op, storage: StoreHistory.Storage, id: string)
    requires Restored(codec, s, (op, storage))
    ensures var after := FlowOf(Apply(codec, s, op, storage).0, id);
      after.Some? ==> after.value.revision == ArchivedRevision(op, id)
  {
    var plan := PlanOf(s.document, codec.parse, op);
    PerformRefuses(codec, s, plan, storage);
    DocumentAfter(codec, s, plan, storage);
  }

  /** A step that neither restores nor deletes the flow keeps it or raises its revision by one. */
  lemma PresentStep(codec: Codec, s: State, op: Op, storage: StoreHistory.Storage, id: string)
    requires FlowOf(s, id).Some? && !Restored(codec, s, (op, storage))
    ensures var after := FlowOf(Apply(codec, s, op, storage).0, id);
      after.Some? ==> Succeeds(FlowOf(s, id).value, after.value)
  {
    hide PlanOf, Perform;
    var plan := PlanOf(s.document, codec.parse, op);
    DocumentAfter(codec, s, plan, storage);
    if op.DeleteFlow? && op.id == id {
      DeletedIsAbsent(codec, s, op, storage);
    } else if !op.Restore? {
      assert [(op, storage)][0].0 == op;
      StepRevises(codec, s, op, storage, id);
    } else if plan.Commit? {
      assert Perform(codec, s, plan, storage).1.Some?;
    }
  }

  lemma DeletedIsAbsent(codec: Codec, s: State, op: Op, storage: StoreHistory.Storage)
    requires op.DeleteFlow?
    ensures Apply(codec, s, op, storage).1.None? ==> FlowOf(Apply(codec, s, op, storage).0, op.id).None?
    ensures Apply(codec, s, op, storage).1.Some? ==> Apply(codec, s, op, storage).0.document == s.document
  {
    var plan := DeletePlan(s.document, op.id);
    PerformRefuses(codec, s, plan, storage);
    DocumentAfter(codec, s, plan, storage);
    WithoutFind(s.document.flows, op.id, op.id);
  }

  lemma PutAppears(doc: Document, op: Op, id: string)
    requires op.PutFlow? && PutPlan(doc, op).Commit? && Find(doc.flows, id).None?
    ensures var after := Find(PutPlan(doc, op).candidate.flows, id);
      after.Some? ==> after.value.revision == 1
  {
    hide Find, Without;
    ReplacedFind(doc.flows, Prepared(op, Find(doc.flows, op.record.id)), id);
  }

  lemma ReportAppears(doc: Document, parse: string -> Option<nat>, op: Op, id: string)
    requires op.ReportRun? && ReportPlan(doc, parse, op).Commit? && Find(doc.flows, id).None?
    ensures Find(ReportPlan(doc, parse, op).candidate.flows, id).None?
  {
    hide Find, Without;
    ReplacedFind(doc.flows, Reported(op, Find(doc.flows, op.id).value), id);
  }

  lemma OtherAppears(doc: Document, parse: string -> Option<nat>, op: Op, id: string)
    requires !op.PutFlow? && !op.ReportRun? && !op.Restore? && PlanOf(doc, parse, op).Commit? && Find(doc.flows, id).None?
    ensures Find(PlanOf(doc, parse, op).candidate.flows, id).None?
  {
    hide Find, Without, Mapped, References;
    match op
    case DeleteFlow(target) => WithoutFind(doc.flows, target, id);
    case DeleteApp(app) => MappedFind(doc.flows, f => Orphaned(doc, app, f), id);
    case Rewrite(_, _, _, _) => MappedFind(doc.flows, f => Renewed(op, f), id);
    case Change(_, _) =>
  }

  /** A flow that appears without a restore was created and has revision one. */
  lemma AbsentStep(codec: Codec, s: State, op: Op, storage: StoreHistory.Storage, id: string)
    requires FlowOf(s, id).None? && !Restored(codec, s, (op, storage))
    ensures var after := FlowOf(Apply(codec, s, op, storage).0, id);
      after.Some? ==> after.value.revision == 1
  {
    hide Perform, PutPlan, ReportPlan, Find;
    var plan := PlanOf(s.document, codec.parse, op);
    DocumentAfter(codec, s, plan, storage);
    if plan.Commit? && Perform(codec, s, plan, storage).1.None? {
      if op.PutFlow? {
        PutAppears(s.document, op, id);
      } else if op.ReportRun? {
        ReportAppears(s.document, codec.parse, op, id);
      } else {
        OtherAppears(s.document, codec.parse, op, id);
      }
    }
  }

  // ---------- every run ----------

  /** In every run, with deletions, creations and restores, the revision of a present flow is its age. */
  lemma {:induction false} RevisionIsAge(codec: Codec, s: State, ops: Run, id: string)
    ensures var after := FlowOf(StoreHistory.After(codec, s, ops), id);
      after.Some? ==> after.value.revision == Age(codec, s, ops, id)
  {
    hide Apply, Find;
    if |ops| > 0 {
      var front, last := ops[..|ops| - 1], ops[|ops| - 1];
      var before := StoreHistory.After(codec, s, front);
      RevisionIsAge(codec, s, front, id);
      assert last == (last.0, last.1);
      if Restored(codec, before, last) {
        RestoredRevision(codec, before, last.0, last.1, id);
      } else if FlowOf(before, id).None? {
        AbsentStep(codec, before, last.0, last.1, id);
      } else {
        PresentStep(codec, before, last.0, last.1, id);
      }
    }
  }

  /** The flow was there all the time and never came from an archive. */
  ghost predicate Unbroken(codec: Codec, s: State, ops: Run, id: string) {
    && FlowOf(StoreHistory.After(codec, s, ops), id).Some?
    && (|ops| > 0 ==>
      !Restored(codec, StoreHistory.After(codec, s, ops[..|ops| - 1]), ops[|ops| - 1])
      && Unbroken(codec, s, ops[..|ops| - 1], id))
  }

  /** As long as a flow is never gone nor restored, its age counts the writes since it was read. */
  lemma {:induction false} UnbrokenCounts(codec: Codec, s: State, ops: Run, id: string)
    requires Unbroken(codec, s, ops, id)
    ensures FlowOf(s, id).Some?
    ensures Age(codec, s, ops, id) == FlowOf(s, id).value.revision + Writes(codec, s, ops, id)
    ensures Writes(codec, s, ops, id) == 0 ==> FlowOf(StoreHistory.After(codec, s, ops), id) == FlowOf(s, id)
  {
    hide Apply, Find;
    if |ops| > 0 {
      UnbrokenCounts(codec, s, ops[..|ops| - 1], id);
    }
  }

  /**
   * A put carrying a revision is refused as stale exactly when the flow is there and its age is another;
   * while the flow was never gone nor restored, that is exactly when something wrote it since it was read.
   */
  lemma StaleExactlyWhenWritten(codec: Codec, s: State, ops: Run, op: Op)
    requires op.PutFlow? && !op.create && op.record.id != "" && op.revision.Some?
    ensures var end := StoreHistory.After(codec, s, ops);
      && (PutGuard(end.document, op) == Some(Stale) <==>
        FlowOf(end, op.record.id).Some? && Age(codec, s, ops, op.record.id) != op.revision.value)
      && (Unbroken(codec, s, ops, op.record.id)
          && FlowOf(s, op.record.id).Some? && op.revision.value == FlowOf(s, op.record.id).value.revision ==>
        (PutGuard(end.document, op) == Some(Stale) <==> Writes(codec, s, ops, op.record.id) > 0))
  {
    hide Apply, Find;
    RevisionIsAge(codec, s, ops, op.record.id);
    if Unbroken(codec, s, ops, op.record.id) {
      UnbrokenCounts(codec, s, ops, op.record.id);
    }
  }

  /** A put of something read in `s` that is not caught although the flow was written since. */
  ghost predicate SlipsThrough(codec: Codec, s: State, ops: Run, op: Op)
    requires op.PutFlow?
  {
    && PutGuard(StoreHistory.After(codec, s, ops).document, op) == None
    && Writes(codec, s, ops, op.record.id) > 0
  }

  /**
   * Exactly when an overtaken put slips through: the flow was deleted or restored in between, is back, and
   * its writes since then, creation included, number exactly the revision that was read, below the limit.
   */
  lemma SlipsThroughExactly(codec: Codec, s: State, ops: Run, op: Op)
    requires op.PutFlow? && !op.create && op.record.id != "" && FlowOf(s, op.record.id).Some?
    requires op.revision == Some(FlowOf(s, op.record.id).value.revision)
    ensures SlipsThrough(codec, s, ops, op) <==>
      && !Unbroken(codec, s, ops, op.record.id) && FlowOf(StoreHistory.After(codec, s, ops), op.record.id).Some?
      && Age(codec, s, ops, op.record.id) == op.revision.value && op.revision.value + 1 < U64_LIMIT
      && Writes(codec, s, ops, op.record.id) > 0
  {
    hide Apply, Find;
    StaleExactlyWhenWritten(codec, s, ops, op);
    RevisionIsAge(codec, s, ops, op.record.id);
  }

  // ---------- such a run, for every revision ----------

  const WELL: StoreHistory.Storage := Some(Durable)

  function Removal(id: string): (Op, StoreHistory.Storage) {
    (DeleteFlow(id), WELL)
  }

  function Write(record: FlowRecord, create: bool, now: string): (Op, StoreHistory.Storage) {
    (PutFlow(record, create, None, now, true), WELL)
  }

  /** Delete, create again, and write until the flow has had r writes. */
  function Recreation(record: FlowRecord, now: string, r: nat): Run
    requires r >= 1
  {
    if r == 1 then [Removal(record.id), Write(record, true, now)]
    else Recreation(record, now, r - 1) + [Write(record, false, now)]
  }

  lemma PreparedRevision(op: Op, previous: Option<FlowRecord>)
    requires op.PutFlow?
    ensures Prepared(op, previous).revision == (if previous.Some? then previous.value.revision else 0) + 1
  {
  }

  /** A put that was taken wrote the next revision. */
  lemma WriteAges(codec: Codec, s: State, record: FlowRecord, create: bool, now: string)
    requires Apply(codec, s, Write(record, create, now).0, WELL).1.None?
    ensures var before, after := FlowOf(s, record.id), FlowOf(Apply(codec, s, Write(record, create, now).0, WELL).0, record.id);
      after.Some? && after.value.revision == (if before.Some? then before.value.revision else 0) + 1
  {
    hide Apply, Find, Prepared;
    PutWrites(codec, s, Write(record, create, now).0, WELL);
    PreparedRevision(Write(record, create, now).0, FlowOf(s, record.id));
  }

  lemma {:induction false} RecreationAges(codec: Codec, s: State, record: FlowRecord, now: string, r: nat)
    requires r >= 1 && FlowOf(s, record.id).Some? && Taken(codec, s, Recreation(record, now, r))
    ensures var ops := Recreation(record, now, r);
      var end := FlowOf(StoreHistory.After(codec, s, ops), record.id);
      && end.Some? && end.value.revision == r
      && !Unbroken(codec, s, ops, record.id) && Writes(codec, s, ops, record.id) > 0
  {
    hide Apply, Find;
    var ops := Recreation(record, now, r);
    if r == 1 {
      var first := [Removal(record.id)];
      assert ops[..1] == first && first[..0] == [];
      assert StoreHistory.After(codec, s, first[..0]) == s;
      assert Taken(codec, s, first);
      DeletedIsAbsent(codec, s, DeleteFlow(record.id), WELL);
      WriteAges(codec, StoreHistory.After(codec, s, first), record, true, now);
      assert !Unbroken(codec, s, first, record.id);
    } else {
      var front := Recreation(record, now, r - 1);
      assert ops[..|ops| - 1] == front;
      RecreationAges(codec, s, record, now, r - 1);
      WriteAges(codec, StoreHistory.After(codec, s, front), record, false, now);
    }
  }

  /**
   * The failing family: whatever revision r a client read, once the flow was deleted, created again and
   * written r - 1 more times, that old revision looks current.
   */
  lemma RecreatedLooksCurrent(codec: Codec, s: State, record: FlowRecord, now: string, put: Op)
    requires put.PutFlow? && !put.create && put.record.id == record.id && FlowOf(s, record.id).Some?
    requires put.revision == Some(FlowOf(s, record.id).value.revision)
    requires record.id != "" && 1 <= put.revision.value && put.revision.value + 1 < U64_LIMIT
    requires Taken(codec, s, Recreation(record, now, put.revision.value))
    ensures SlipsThrough(codec, s, Recreation(record, now, put.revision.value), put)
  {
    hide Apply, Find, Unbroken, Writes, Taken;
    RecreationAges(codec, s, record, now, put.revision.value);
  }

  // ---------- when such a run is taken ----------

  ghost predicate Encodes(codec: Codec, d: Document) {
    codec.encode(d).Some? && |codec.encode(d).value| <= MAX_BYTES
  }

  /** What this run writes can be encoded. */
  ghost predicate Fits(codec: Codec, s: State, ops: Run) {
    |ops| > 0 ==>
      var front, last := ops[..|ops| - 1], ops[|ops| - 1];
      var plan := PlanOf(StoreHistory.After(codec, s, front).document, codec.parse, last.0);
      Fits(codec, s, front) && (plan.Commit? ==> Encodes(codec, plan.candidate))
  }

  /** No counter overflows within n more writes, and the flows are within their bound. */
  predicate Roomy(s: State, n: nat) {
    s.owner.generation + n < U64_LIMIT && s.log.sequence + n < U64_LIMIT && |s.document.flows| <= MAX_RECORDS
  }

  lemma DurableCommit(codec: Codec, s: State, plan: Plan, n: nat)
    requires Roomy(s, n) && n > 0 && plan.Commit? && |plan.notices| == 1 && !plan.reload
    requires |plan.candidate.flows| <= MAX_RECORDS && Encodes(codec, plan.candidate)
    ensures var (after, fault) := Perform(codec, s, plan, WELL);
      fault.None? && after.document == plan.candidate && Roomy(after, n - 1)
  {
    hide Encode, Decode;
    var more := Numbers(s.log.sequence, plan.notices);
    assert more[..0] == [];
    assert EventLog.PublishAll(s.log, more[..0]) == s.log;
  }

  lemma {:induction false} WithoutShorter(flows: seq<FlowRecord>, id: string)
    ensures |Without(flows, id)| <= |flows| && (Find(flows, id).Some? ==> |Without(flows, id)| < |flows|)
  {
    if |flows| > 0 {
      WithoutShorter(flows[..|flows| - 1], id);
    }
  }

  lemma RemovalWorks(codec: Codec, s: State, id: string, n: nat)
    requires Roomy(s, n) && n > 0 && FlowOf(s, id).Some? && Encodes(codec, DeletePlan(s.document, id).candidate)
    ensures var (after, fault) := Apply(codec, s, DeleteFlow(id), WELL);
      fault.None? && Roomy(after, n - 1) && |after.document.flows| < MAX_RECORDS
  {
    hide Perform, Find, Encodes;
    WithoutShorter(s.document.flows, id);
    DurableCommit(codec, s, DeletePlan(s.document, id), n);
  }

  lemma WriteWorks(codec: Codec, s: State, record: FlowRecord, create: bool, now: string, n: nat)
    requires Roomy(s, n) && n > 0 && record.id != "" && FlowGraph.ValidFlow(WithCanvasName(record).canvas)
    requires create <==> FlowOf(s, record.id).None?
    requires create ==> |s.document.flows| < MAX_RECORDS
    requires !create ==> FlowOf(s, record.id).value.revision + 1 < U64_LIMIT
    requires var plan := PutPlan(s.document, Write(record, create, now).0); plan.Commit? ==> Encodes(codec, plan.candidate)
    ensures var (after, fault) := Apply(codec, s, Write(record, create, now).0, WELL);
      fault.None? && Roomy(after, n - 1)
  {
    hide Perform, Find, FlowGraph.ValidFlow, Encodes;
    WithoutShorter(s.document.flows, record.id);
    DurableCommit(codec, s, PutPlan(s.document, Write(record, create, now).0), n);
  }

  /** With a valid canvas, room in the counters and texts that fit, the run above is taken step by step. */
  lemma {:induction false} RecreationIsTaken(codec: Codec, s: State, record: FlowRecord, now: string, r: nat, n: nat)
    requires r >= 1 && n > r && r < U64_LIMIT && Roomy(s, n) && FlowOf(s, record.id).Some?
    requires record.id != "" && FlowGraph.ValidFlow(WithCanvasName(record).canvas)
    requires Fits(codec, s, Recreation(record, now, r))
    ensures Taken(codec, s, Recreation(record, now, r))
    ensures Roomy(StoreHistory.After(codec, s, Recreation(record, now, r)), n - r - 1)
  {
    hide Apply, Find, PutPlan, DeletePlan, FlowGraph.ValidFlow, Roomy, Encodes;
    var ops := Recreation(record, now, r);
    if r == 1 {
      var first := [Removal(record.id)];
      assert ops[..1] == first;
      RemovalIsTaken(codec, s, record.id, n);
      WriteWorks(codec, StoreHistory.After(codec, s, first), record, true, now, n - 1);
    } else {
      var front := Recreation(record, now, r - 1);
      assert ops[..|ops| - 1] == front;
      RecreationIsTaken(codec, s, record, now, r - 1, n);
      RecreationAges(codec, s, record, now, r - 1);
      WriteWorks(codec, StoreHistory.After(codec, s, front), record, false, now, n - r);
    }
  }

  lemma RemovalIsTaken(codec: Codec, s: State, id: string, n: nat)
    requires Roomy(s, n) && n > 0 && FlowOf(s, id).Some? && Fits(codec, s, [Removal(id)])
    ensures var after := StoreHistory.After(codec, s, [Removal(id)]);
      Taken(codec, s, [Removal(id)]) && FlowOf(after, id).None? && Roomy(after, n - 1) && |after.document.flows| < MAX_RECORDS
  {
    hide Apply, Find, DeletePlan, Roomy, Encodes;
    var first := [Removal(id)];
    assert first[..0] == [] && StoreHistory.After(codec, s, first[..0]) == s && Taken(codec, s, first[..0]);
    RemovalCommits(s.document, id);
    RemovalWorks(codec, s, id, n);
    DeletedIsAbsent(codec, s, DeleteFlow(id), WELL);
  }

  lemma RemovalCommits(doc: Document, id: string)
    requires Find(doc.flows, id).Some?
    ensures DeletePlan(doc, id).Commit?
  {
  }
}
