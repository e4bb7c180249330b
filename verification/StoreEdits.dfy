/** What a mutation of a flow leaves in the document, field by field, and how long an edit lasts. */
module StoreEdits {
  import opened Common
  import EventLog
  import FlowGraph
  import opened StoreRecords
  import opened StoreHistory

  /** The old value of a field the caller cannot overwrite, or the caller's where there is none. */
  ghost predicate Inherits(earlier: Option<string>, given: Option<string>, now: Option<string>) {
    now == if earlier.Some? then earlier else given
  }

  /** The part of a flow that its editor decides. */
  ghost predicate Carries(f: FlowRecord, request: FlowRecord) {
    && f.id == request.id && f.content == request.content
    && f.canvas.nodes == request.canvas.nodes && f.canvas.edges == request.canvas.edges
    && f.canvas.name == FlowGraph.Trim(request.canvas.name)
  }

  /** The records of a document besides this flow. */
  ghost predicate OthersKept(before: State, after: State, id: string) {
    && (forall other :: other != id ==> FlowOf(after, other) == FlowOf(before, other))
    && after.document.(flows := []) == before.document.(flows := [])
  }

  // ---------- one mutation ----------

  lemma ReplaceKeepsOthers(flows: seq<FlowRecord>, record: FlowRecord)
    ensures forall other :: other != record.id ==> Find(Without(flows, record.id) + [record], other) == Find(flows, other)
  {
    hide Find, Without;
    forall other | other != record.id
      ensures Find(Without(flows, record.id) + [record], other) == Find(flows, other)
    {
      ReplacedFind(flows, record, other);
    }
  }

  /**
   * After a put that was taken the flow is the request's, with its name trimmed: switched on or off, cards,
   * connections and all. Only when it was created, when it last ran and its last error outlive the put.
   */
  lemma PutStores(codec: Codec, s: State, op: Op, storage: Storage)
    requires op.PutFlow? && Apply(codec, s, op, storage).1.None?
    ensures var id, end := op.record.id, Apply(codec, s, op, storage).0;
      var before, after := FlowOf(s, id), FlowOf(end, id);
      && after.Some? && Carries(after.value, op.record) && after.value.enabled == op.record.enabled
      && (before.None? <==> op.create)
      && after.value.updatedAt == Some(op.now)
      && (op.create ==>
        && after.value.createdAt == Some(op.now) && after.value.revision == 1
        && after.value.lastRunAt == op.record.lastRunAt && after.value.lastError == op.record.lastError)
      && (before.Some? ==>
        && after.value.revision == before.value.revision + 1
        && Inherits(before.value.createdAt, op.record.createdAt, after.value.createdAt)
        && Inherits(before.value.lastRunAt, op.record.lastRunAt, after.value.lastRunAt)
        && Inherits(before.value.lastError, op.record.lastError, after.value.lastError))
      && OthersKept(s, end, id)
  {
    hide Find, Without, Perform, FlowGraph.ValidFlow, FlowGraph.Trim;
    PutWrites(codec, s, op, storage);
    PutReplaces(codec, s, op, storage);
    ReplaceKeepsOthers(s.document.flows, Prepared(op, FlowOf(s, op.record.id)));
  }

  lemma PutReplaces(codec: Codec, s: State, op: Op, storage: Storage)
    requires op.PutFlow? && Apply(codec, s, op, storage).1.None?
    ensures var next := Prepared(op, FlowOf(s, op.record.id));
      Apply(codec, s, op, storage).0.document == s.document.(flows := Without(s.document.flows, next.id) + [next])
  {
    hide Find, Without, Perform, FlowGraph.ValidFlow;
    PerformRefuses(codec, s, PutPlan(s.document, op), storage);
    DocumentAfter(codec, s, PutPlan(s.document, op), storage);
  }

  /**
   * A report that was taken leaves its start, its error and the moment of writing in the flow and nothing
   * else, unless the flow already has a later start; then, and only then, it changes nothing.
   */
  lemma ReportStores(codec: Codec, s: State, op: Op, storage: Storage)
    requires op.ReportRun? && Apply(codec, s, op, storage).1.None?
    ensures FlowOf(s, op.id).Some?
    ensures var before, end := FlowOf(s, op.id).value, Apply(codec, s, op, storage).0;
      var after := FlowOf(end, op.id);
      && OthersKept(s, end, op.id) && after.Some?
      && (after.value == before <==> Before(codec.parse, op.ranAt, StampText(before.lastRunAt)))
      && (!Before(codec.parse, op.ranAt, StampText(before.lastRunAt)) ==>
        && after.value.lastRunAt == Some(op.ranAt) && after.value.lastError == Some(op.error)
        && after.value.updatedAt == Some(op.now) && after.value.revision == before.revision + 1
        && after.value.id == before.id && after.value.createdAt == before.createdAt
        && after.value.enabled == before.enabled && after.value.canvas == before.canvas && after.value.content == before.content)
  {
    hide Find, Without, Perform;
    var plan := ReportPlan(s.document, codec.parse, op);
    PerformRefuses(codec, s, plan, storage);
    DocumentAfter(codec, s, plan, storage);
    if plan.Commit? {
      var next := Reported(op, FlowOf(s, op.id).value);
      FindHasId(s.document.flows, op.id);
      ReplacedFind(s.document.flows, next, op.id);
      ReplaceKeepsOthers(s.document.flows, next);
    }
  }

  lemma FindHasId(flows: seq<FlowRecord>, id: string)
    ensures Find(flows, id).Some? ==> Find(flows, id).value.id == id
  {
  }

  /** A deletion that was taken removes the flow and nothing else. */
  lemma DeleteStores(codec: Codec, s: State, id: string, storage: Storage)
    requires Apply(codec, s, DeleteFlow(id), storage).1.None?
    ensures var end := Apply(codec, s, DeleteFlow(id), storage).0;
      FlowOf(s, id).Some? && FlowOf(end, id).None? && OthersKept(s, end, id)
  {
    hide Find, Without, Perform;
    var plan := DeletePlan(s.document, id);
    PerformRefuses(codec, s, plan, storage);
    DocumentAfter(codec, s, plan, storage);
    forall other | true ensures Find(Without(s.document.flows, id), other) == if other == id then None else Find(s.document.flows, other) {
      WithoutFind(s.document.flows, id, other);
    }
  }

  /** The kind of event readers are told of, when a mutation of a flow was written. */
  function KindTold(op: Op): string {
    match op
    case PutFlow(_, create, _, _, _) => if create then "flow.create" else "flow.update"
    case DeleteFlow(_) => "flow.delete"
    case _ => "flow.run"
  }

  function IdOf(op: Op): string {
    match op
    case PutFlow(record, _, _, _, _) => record.id
    case DeleteFlow(id) => id
    case ReportRun(id, _, _, _) => id
    case _ => ""
  }

  /** Each put, deletion and report that was written tells readers once, under the next number, what happened to which flow. */
  lemma WriteIsTold(codec: Codec, s: State, op: Op, storage: Storage)
    requires (op.PutFlow? || op.DeleteFlow? || op.ReportRun?) && Apply(codec, s, op, storage).1.None?
    requires !(op.ReportRun? && PlanOf(s.document, codec.parse, op).Nothing?)
    ensures var told := EventLog.Event(s.log.sequence + 1, "flow", KindTold(op), IdOf(op));
      Apply(codec, s, op, storage).0.log == EventLog.PublishAll(s.log, [told])
  {
    hide Find, Without, FlowGraph.ValidFlow, EventLog.PublishAll, Persist;
    var plan := PlanOf(s.document, codec.parse, op);
    assert plan.Commit? && !plan.reload && |plan.notices| == 1;
    var told := EventLog.Event(s.log.sequence + 1, "flow", KindTold(op), IdOf(op));
    assert Numbers(s.log.sequence, plan.notices) == [told];
  }

  /**
   * A rewrite that was taken gives each flow the cards and contents of its change, and a new revision and
   * moment exactly when these differ; whether it is on, and its history, stay.
   */
  lemma RewriteStores(codec: Codec, s: State, op: Op, storage: Storage, id: string)
    requires op.Rewrite? && Apply(codec, s, op, storage).1.None?
    requires FlowOf(s, id).Some?
    ensures var before := FlowOf(s, id).value;
      var after, change := FlowOf(Apply(codec, s, op, storage).0, id), op.change(before);
      && after.Some? && change.Some?
      && after.value.canvas == change.value.canvas && after.value.content == change.value.content
      && after.value.(canvas := before.canvas, content := before.content, revision := before.revision, updatedAt := before.updatedAt) == before
      && (if change.value.canvas == before.canvas && change.value.content == before.content
          then after.value == before
          else after.value.revision == before.revision + 1 && after.value.updatedAt == Some(op.now))
  {
    hide Find, Mapped, Perform, FlowGraph.ValidFlow;
    var plan := RewritePlan(s.document, op);
    PerformRefuses(codec, s, plan, storage);
    DocumentAfter(codec, s, plan, storage);
    FoundIsIn(s.document.flows, id);
    if plan.Commit? {
      MappedFind(s.document.flows, f => Renewed(op, f), id);
    } else {
      QuietRewrite(op, s.document.flows, FlowOf(s, id).value);
    }
  }

  lemma FoundIsIn(flows: seq<FlowRecord>, id: string)
    requires Find(flows, id).Some?
    ensures Find(flows, id).value in flows
  {
  }

  /** A rewrite with nothing to tell changes no flow. */
  lemma {:induction false} QuietRewrite(op: Op, flows: seq<FlowRecord>, f: FlowRecord)
    requires op.Rewrite? && RewriteNotices(op, flows) == [] && f in flows
    ensures Renewed(op, f) == f
  {
    var front, last := flows[..|flows| - 1], flows[|flows| - 1];
    assert flows == front + [last];
    if f != last {
      QuietRewrite(op, front, f);
    }
  }

  // ---------- how long an edit lasts ----------

  /** Nothing in this run edits the flow: it is not put, deleted, rewritten or restored. */
  ghost predicate Unedited(ops: seq<(Op, Storage)>, id: string) {
    forall k :: 0 <= k < |ops| ==>
      && !ops[k].0.Restore? && !ops[k].0.Rewrite?
      && !(ops[k].0.DeleteFlow? && ops[k].0.id == id) && !(ops[k].0.PutFlow? && ops[k].0.record.id == id)
  }

  ghost predicate NoUninstall(ops: seq<(Op, Storage)>) {
    forall k :: 0 <= k < |ops| ==> !ops[k].0.DeleteApp?
  }

  /** The editor's part of a flow is unchanged; only removing an app can have switched it off. */
  ghost predicate Lasts(before: FlowRecord, after: Option<FlowRecord>, calm: bool) {
    && after.Some? && after.value.id == before.id && after.value.canvas == before.canvas && after.value.content == before.content
    && (after.value.enabled ==> before.enabled) && (calm ==> after.value.enabled == before.enabled)
  }

  lemma StepLasts(codec: Codec, s: State, op: Op, storage: Storage, id: string)
    requires FlowOf(s, id).Some? && Unedited([(op, storage)], id)
    ensures Lasts(FlowOf(s, id).value, FlowOf(Apply(codec, s, op, storage).0, id), !op.DeleteApp?)
  {
    hide Find, Without, Mapped, Perform, FlowGraph.ValidFlow, References;
    assert [(op, storage)][0].0 == op;
    var plan := PlanOf(s.document, codec.parse, op);
    DocumentAfter(codec, s, plan, storage);
    if plan.Commit? {
      match op
      case PutFlow(_, _, _, _, _) => ReplacedFind(s.document.flows, Prepared(op, FlowOf(s, op.record.id)), id);
      case DeleteFlow(target) => WithoutFind(s.document.flows, target, id);
      case ReportRun(target, _, _, _) =>
        FindHasId(s.document.flows, target);
        ReplacedFind(s.document.flows, Reported(op, FlowOf(s, target).value), id);
      case DeleteApp(app) => MappedFind(s.document.flows, f => Orphaned(s.document, app, f), id);
      case Change(_, _) =>
    }
  }

  lemma {:induction false} RunLasts(codec: Codec, s: State, ops: seq<(Op, Storage)>, id: string)
    requires FlowOf(s, id).Some? && Unedited(ops, id)
    ensures Lasts(FlowOf(s, id).value, FlowOf(After(codec, s, ops), id), NoUninstall(ops))
  {
    hide FlowOf, Apply;
    if |ops| > 0 {
      var front, last := ops[..|ops| - 1], ops[|ops| - 1];
      RunLasts(codec, s, front, id);
      assert Unedited([last], id) by {
        assert ops[|ops| - 1] == last;
      }
      StepLasts(codec, After(codec, s, front), last.0, last.1, id);
      assert NoUninstall(ops) ==> NoUninstall(front) && !last.0.DeleteApp?;
    }
  }

  /**
   * An edit that was taken is still there after any run in which nobody edits the flow, however many reports,
   * failed saves and changes to other records the run holds, and whatever app is removed.
   */
  lemma EditLasts(codec: Codec, s: State, op: Op, storage: Storage, ops: seq<(Op, Storage)>)
    requires op.PutFlow? && Apply(codec, s, op, storage).1.None? && Unedited(ops, op.record.id)
    ensures var after := FlowOf(After(codec, Apply(codec, s, op, storage).0, ops), op.record.id);
      && after.Some? && Carries(after.value, op.record)
      && (after.value.enabled ==> op.record.enabled)
      && (NoUninstall(ops) ==> after.value.enabled == op.record.enabled)
  {
    hide FlowOf, Apply, FlowGraph.Trim;
    PutStores(codec, s, op, storage);
    RunLasts(codec, Apply(codec, s, op, storage).0, ops, op.record.id);
  }
}
