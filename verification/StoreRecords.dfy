/** The document of the controller and what each mutation of it wants to write. */
module StoreRecords {
  import opened Common
  import FlowGraph

  const MAX_RECORDS: nat := 4096

  /** A value inside a record, as far as it can refer to something. */
  datatype Body = Text(text: string) | Items(items: seq<Body>) | Fields(fields: seq<(string, Body)>) | Scalar

  /** A stored flow; `content` is everything in it besides the fields named here, card arguments included. */
  datatype FlowRecord = FlowRecord(
    id: string, revision: nat, createdAt: Option<string>, updatedAt: Option<string>,
    lastRunAt: Option<string>, lastError: Option<string>, enabled: bool,
    canvas: FlowGraph.Flow, content: Body)

  datatype Device = Device(id: string, appId: string, extra: string)

  datatype Document = Document(
    flows: seq<FlowRecord>, devices: seq<Device>, apps: seq<string>,
    settings: map<string, string>, states: map<string, string>, other: string)

  datatype Fault = Conflict | Missing | Stale | Invalid | Full | Storage

  datatype Notice = Notice(manager: string, kind: string, id: string)

  /** What a mutation wants: refuse, leave everything, tell readers only, or write a candidate first. */
  datatype Plan =
    | Refuse(fault: Fault)
    | Nothing
    | Tell(notices: seq<Notice>)
    | Commit(candidate: Document, notices: seq<Notice>, reload: bool)

  // ---------- records ----------

  ghost predicate UniqueFlows(flows: seq<FlowRecord>) {
    forall i, j :: 0 <= i < j < |flows| ==> flows[i].id != flows[j].id
  }

  /** The first record with this id. */
  function Find(flows: seq<FlowRecord>, id: string): (r: Option<FlowRecord>)
    ensures r.Some? ==> r.value in flows && r.value.id == id
    ensures r.None? <==> forall k :: 0 <= k < |flows| ==> flows[k].id != id
  {
    if |flows| == 0 then None
    else
      var earlier := Find(flows[..|flows| - 1], id);
      if earlier.Some? then earlier
      else if flows[|flows| - 1].id == id then Some(flows[|flows| - 1])
      else None
  }

  function Without(flows: seq<FlowRecord>, id: string): seq<FlowRecord> {
    if |flows| == 0 then []
    else
      var rest := Without(flows[..|flows| - 1], id);
      if flows[|flows| - 1].id == id then rest else rest + [flows[|flows| - 1]]
  }

  function Mapped(flows: seq<FlowRecord>, change: FlowRecord -> FlowRecord): (r: seq<FlowRecord>)
    ensures |r| == |flows| && forall k :: 0 <= k < |r| ==> r[k] == change(flows[k])
  {
    if |flows| == 0 then [] else Mapped(flows[..|flows| - 1], change) + [change(flows[|flows| - 1])]
  }

  lemma {:induction false} WithoutMembers(flows: seq<FlowRecord>, id: string)
    ensures forall x :: x in Without(flows, id) <==> x in flows && x.id != id
  {
    if |flows| > 0 {
      WithoutMembers(flows[..|flows| - 1], id);
      assert flows == flows[..|flows| - 1] + [flows[|flows| - 1]];
    }
  }

  lemma UniqueSnoc(flows: seq<FlowRecord>, record: FlowRecord)
    requires UniqueFlows(flows) && forall x :: x in flows ==> x.id != record.id
    ensures UniqueFlows(flows + [record])
  {
    assert forall i :: 0 <= i < |flows| ==> flows[i] in flows;
  }

  lemma {:induction false} WithoutUnique(flows: seq<FlowRecord>, id: string)
    requires UniqueFlows(flows)
    ensures UniqueFlows(Without(flows, id))
  {
    if |flows| > 0 {
      var front, last := flows[..|flows| - 1], flows[|flows| - 1];
      WithoutUnique(front, id);
      WithoutMembers(front, id);
      if last.id != id {
        assert forall x :: x in front ==> x.id != last.id;
        UniqueSnoc(Without(front, id), last);
      }
    }
  }

  lemma {:induction false} WithoutFind(flows: seq<FlowRecord>, id: string, other: string)
    ensures Find(Without(flows, id), other) == if other == id then None else Find(flows, other)
  {
    if |flows| > 0 {
      var rest := Without(flows[..|flows| - 1], id);
      WithoutFind(flows[..|flows| - 1], id, other);
      if flows[|flows| - 1].id != id {
        assert (rest + [flows[|flows| - 1]])[..|rest|] == rest;
      }
    }
  }

  lemma FindLast(flows: seq<FlowRecord>, record: FlowRecord, id: string)
    requires forall x :: x in flows ==> x.id != record.id
    ensures Find(flows + [record], id) == if id == record.id then Some(record) else Find(flows, id)
  {
    assert (flows + [record])[..|flows|] == flows;
  }

  lemma {:induction false} MappedFind(flows: seq<FlowRecord>, change: FlowRecord -> FlowRecord, id: string)
    requires forall x :: x in flows ==> change(x).id == x.id
    ensures Find(Mapped(flows, change), id) == (match Find(flows, id) case Some(f) => Some(change(f)) case None => None)
  {
    if |flows| > 0 {
      var front := flows[..|flows| - 1];
      MappedFind(front, change, id);
      assert Mapped(flows, change)[..|front|] == Mapped(front, change);
    }
  }

  // ---------- mutations ----------

  datatype Op =
    | PutFlow(record: FlowRecord, create: bool, revision: Option<nat>, now: string, resolves: bool)
    | DeleteFlow(id: string)
    | ReportRun(id: string, ranAt: string, error: string, now: string)
    | DeleteApp(app: string)
    | Rewrite(change: FlowRecord -> Option<FlowRecord>, now: string, others: Document, tail: seq<Notice>)
    | Change(others: Document, notices: seq<Notice>)
    | Announce(notice: Notice)
    | Restore(document: Option<Document>)

  function WithCanvasName(record: FlowRecord): FlowRecord {
    record.(canvas := record.canvas.(name := FlowGraph.Trim(record.canvas.name)))
  }

  /** What the record becomes: the next revision, and history fields the caller cannot overwrite. */
  function Prepared(op: Op, previous: Option<FlowRecord>): FlowRecord
    requires op.PutFlow?
  {
    var kept := if previous.Some? then previous.value else op.record;
    WithCanvasName(op.record.(
      revision := (if previous.Some? then previous.value.revision else 0) + 1,
      createdAt := if op.create then Some(op.now) else if kept.createdAt.Some? then kept.createdAt else op.record.createdAt,
      updatedAt := Some(op.now),
      lastRunAt := if kept.lastRunAt.Some? then kept.lastRunAt else op.record.lastRunAt,
      lastError := if kept.lastError.Some? then kept.lastError else op.record.lastError))
  }

  function PutGuard(doc: Document, op: Op): Option<Fault>
    requires op.PutFlow?
  {
    var previous := Find(doc.flows, op.record.id);
    if op.record.id == "" then Some(Invalid)
    else if op.create && previous.Some? then Some(Conflict)
    else if !op.create && previous.None? then Some(Missing)
    else if op.revision.Some? && (previous.None? || previous.value.revision != op.revision.value) then Some(Stale)
    else if previous.Some? && previous.value.revision + 1 >= U64_LIMIT then Some(Full)
    else None
  }

  ghost function PutPlan(doc: Document, op: Op): Plan
    requires op.PutFlow?
  {
    var refused := PutGuard(doc, op);
    var next := Prepared(op, Find(doc.flows, op.record.id));
    if refused.Some? then Refuse(refused.value)
    else if !FlowGraph.ValidFlow(next.canvas) || !op.resolves then Refuse(Invalid)
    else if |Without(doc.flows, next.id)| + 1 > MAX_RECORDS then Refuse(Full)
    else
      Commit(doc.(flows := Without(doc.flows, next.id) + [next]),
             [Notice("flow", if op.create then "flow.create" else "flow.update", next.id)], false)
  }

  function DeletePlan(doc: Document, id: string): Plan {
    if Find(doc.flows, id).None? then Refuse(Missing)
    else Commit(doc.(flows := Without(doc.flows, id)), [Notice("flow", "flow.delete", id)], false)
  }

  /** Stamps that cannot be read are never earlier than anything. */
  predicate Before(parse: string -> Option<nat>, a: string, b: string) {
    parse(a).Some? && parse(b).Some? && parse(a).value < parse(b).value
  }

  function StampText(stamp: Option<string>): string {
    if stamp.Some? then stamp.value else ""
  }

  function Reported(op: Op, f: FlowRecord): FlowRecord
    requires op.ReportRun?
  {
    f.(lastRunAt := Some(op.ranAt), updatedAt := Some(op.now), lastError := Some(op.error), revision := f.revision + 1)
  }

  function ReportPlan(doc: Document, parse: string -> Option<nat>, op: Op): Plan
    requires op.ReportRun?
  {
    match Find(doc.flows, op.id)
    case None => Refuse(Missing)
    case Some(f) =>
      if Before(parse, op.ranAt, StampText(f.lastRunAt)) then Nothing
      else if f.revision + 1 >= U64_LIMIT then Refuse(Full)
      else if |Without(doc.flows, op.id)| + 1 > MAX_RECORDS then Refuse(Full)
      else
        Commit(doc.(flows := Without(doc.flows, op.id) + [Reported(op, f)]), [Notice("flow", "flow.run", op.id)], false)
  }

  predicate OwnsDevice(devices: seq<Device>, id: string, app: string) {
    |devices| > 0
    && (if devices[0].id == id then devices[0].appId == app else OwnsDevice(devices[1..], id, app))
  }

  predicate BelongsTo(card: FlowGraph.Card, app: string) {
    card.step.Some? && card.step.value.appId == app
  }

  /** The first field with this name. */
  function FieldOf(fields: seq<(string, Body)>, key: string): Option<Body> {
    if |fields| == 0 then None
    else if fields[0].0 == key then Some(fields[0].1)
    else FieldOf(fields[1..], key)
  }

  /** An object names an app by its id, or one of the app's devices. */
  predicate Names(doc: Document, v: Body, app: string) {
    v.Fields?
    && var id, device := FieldOf(v.fields, "appId"), FieldOf(v.fields, "$device");
      || (if id.Some? && id.value.Text? then id.value.text else "") == app
      || (device.Some? && device.value.Text? && OwnsDevice(doc.devices, device.value.text, app))
  }

  /** The walk through a value, down to any depth. */
  predicate Mentions(doc: Document, v: Body, app: string) {
    || Names(doc, v, app)
    || (v.Items? && exists k :: 0 <= k < |v.items| && Mentions(doc, v.items[k], app))
    || (v.Fields? && exists k :: 0 <= k < |v.fields| && Mentions(doc, v.fields[k].1, app))
  }

  ghost predicate Inside(part: Body, v: Body) {
    || part == v
    || (v.Items? && exists k :: 0 <= k < |v.items| && Inside(part, v.items[k]))
    || (v.Fields? && exists k :: 0 <= k < |v.fields| && Inside(part, v.fields[k].1))
  }

  /** The walk finds an app exactly when some object inside the value names it. */
  lemma {:induction false} MentionsMeans(doc: Document, v: Body, app: string)
    ensures Mentions(doc, v, app) <==> exists part :: Inside(part, v) && Names(doc, part, app)
  {
    hide Names;
    if Mentions(doc, v, app) {
      if Names(doc, v, app) {
        assert Inside(v, v);
      } else {
        var child := ChildWhere(v, c => Mentions(doc, c, app));
        MentionsMeans(doc, child, app);
        var part :| Inside(part, child) && Names(doc, part, app);
        assert Inside(part, v);
      }
    }
    if part :| Inside(part, v) && Names(doc, part, app) {
      if part != v {
        var child := ChildWhere(v, c => Inside(part, c));
        MentionsMeans(doc, child, app);
      }
    }
  }

  lemma ChildWhere(v: Body, p: Body -> bool) returns (child: Body)
    requires (v.Items? && exists k :: 0 <= k < |v.items| && p(v.items[k])) || (v.Fields? && exists k :: 0 <= k < |v.fields| && p(v.fields[k].1))
    ensures p(child) && child < v
    ensures (v.Items? && child in v.items) || (v.Fields? && exists k :: 0 <= k < |v.fields| && v.fields[k].1 == child)
  {
    if v.Items? {
      var k :| 0 <= k < |v.items| && p(v.items[k]);
      child := v.items[k];
    } else {
      var k :| 0 <= k < |v.fields| && p(v.fields[k].1);
      child := v.fields[k].1;
    }
  }

  /** A flow refers to an app through a card of the app or anywhere else in the record. */
  predicate References(doc: Document, flow: FlowRecord, app: string) {
    || (exists k :: 0 <= k < |flow.canvas.nodes| && BelongsTo(flow.canvas.nodes[k], app))
    || Mentions(doc, flow.content, app)
  }

  function Orphaned(doc: Document, app: string, flow: FlowRecord): FlowRecord {
    if References(doc, flow, app)
    then flow.(enabled := false, lastError := Some("app was uninstalled"), revision := flow.revision + 1)
    else flow
  }

  function Kept(devices: seq<Device>, app: string): (r: seq<Device>)
    ensures forall d :: d in r <==> d in devices && d.appId != app
  {
    if |devices| == 0 then []
    else
      var rest := Kept(devices[..|devices| - 1], app);
      var last := devices[|devices| - 1];
      assert devices == devices[..|devices| - 1] + [last];
      if last.appId == app then rest else rest + [last]
  }

  function KeptApps(apps: seq<string>, app: string): (r: seq<string>)
    ensures forall a :: a in r <==> a in apps && a != app
  {
    if |apps| == 0 then []
    else
      var rest := KeptApps(apps[..|apps| - 1], app);
      var last := apps[|apps| - 1];
      assert apps == apps[..|apps| - 1] + [last];
      if last == app then rest else rest + [last]
  }

  /** Removing an app: its flows are stopped before its devices disappear. */
  function Uninstalled(doc: Document, app: string): Document {
    Document(Mapped(doc.flows, f => Orphaned(doc, app, f)), Kept(doc.devices, app), KeptApps(doc.apps, app),
             doc.settings - {app}, doc.states - {app}, doc.other)
  }

  function DeleteAppPlan(doc: Document, app: string): Plan {
    if app !in doc.apps then Refuse(Missing)
    else if exists k :: 0 <= k < |doc.flows| && References(doc, doc.flows[k], app) && doc.flows[k].revision + 1 >= U64_LIMIT
    then Refuse(Full)
    else Commit(Uninstalled(doc, app), [Notice("apps", "app.delete", app)], false)
  }

  /** A rewritten flow keeps its identity and history; one that changes gets the next revision. */
  function Renewed(op: Op, flow: FlowRecord): FlowRecord
    requires op.Rewrite?
  {
    match op.change(flow)
    case None => flow
    case Some(f) =>
      var next := flow.(canvas := f.canvas, content := f.content);
      if next == flow then flow else next.(revision := flow.revision + 1, updatedAt := Some(op.now))
  }

  ghost predicate CanRenew(op: Op, flow: FlowRecord)
    requires op.Rewrite?
  {
    && op.change(flow).Some?
    && (Renewed(op, flow) != flow ==>
      FlowGraph.ValidFlow(Renewed(op, flow).canvas) && flow.revision + 1 < U64_LIMIT)
  }

  function RewriteNotices(op: Op, flows: seq<FlowRecord>): seq<Notice>
    requires op.Rewrite?
  {
    if |flows| == 0 then []
    else
      var rest, last := RewriteNotices(op, flows[..|flows| - 1]), flows[|flows| - 1];
      if Renewed(op, last) == last then rest else rest + [Notice("flow", "flow.update", last.id)]
  }

  ghost function RewritePlan(doc: Document, op: Op): Plan
    requires op.Rewrite?
  {
    var notices := RewriteNotices(op, doc.flows) + op.tail;
    if exists f :: f in doc.flows && !CanRenew(op, f) then Refuse(Invalid)
    else if notices == [] then Nothing
    else Commit(op.others.(flows := Mapped(doc.flows, f => Renewed(op, f))), notices, false)
  }

  ghost function PlanOf(doc: Document, parse: string -> Option<nat>, op: Op): Plan {
    match op
    case PutFlow(_, _, _, _, _) => PutPlan(doc, op)
    case DeleteFlow(id) => DeletePlan(doc, id)
    case ReportRun(_, _, _, _) => ReportPlan(doc, parse, op)
    case DeleteApp(app) => DeleteAppPlan(doc, app)
    case Rewrite(_, _, _, _) => RewritePlan(doc, op)
    case Change(others, notices) => Commit(others.(flows := doc.flows), notices, false)
    case Announce(notice) => Tell([notice])
    case Restore(d) =>
      if d.None? || !UniqueFlows(d.value.flows) then Refuse(Invalid)
      else Commit(d.value, [Notice("store", "store.reload", "")], true)
  }

  // ---------- what every plan keeps ----------

  /** How one flow relates to itself across a plan that neither deletes nor restores it. */
  ghost predicate Succeeds(before: FlowRecord, after: FlowRecord) {
    after == before || after.revision == before.revision + 1
  }

  lemma ReplacedUnique(flows: seq<FlowRecord>, record: FlowRecord)
    requires UniqueFlows(flows)
    ensures UniqueFlows(Without(flows, record.id) + [record])
  {
    WithoutUnique(flows, record.id);
    WithoutMembers(flows, record.id);
    UniqueSnoc(Without(flows, record.id), record);
  }

  lemma ReplacedFind(flows: seq<FlowRecord>, record: FlowRecord, id: string)
    ensures Find(Without(flows, record.id) + [record], id) == if id == record.id then Some(record) else Find(flows, id)
  {
    WithoutFind(flows, record.id, id);
    WithoutMembers(flows, record.id);
    FindLast(Without(flows, record.id), record, id);
  }

  lemma MappedUnique(flows: seq<FlowRecord>, change: FlowRecord -> FlowRecord)
    requires UniqueFlows(flows) && forall x :: x in flows ==> change(x).id == x.id
    ensures UniqueFlows(Mapped(flows, change))
  {
    assert forall i :: 0 <= i < |flows| ==> Mapped(flows, change)[i].id == flows[i].id;
  }

  lemma PlanKeepsUnique(doc: Document, parse: string -> Option<nat>, op: Op)
    requires UniqueFlows(doc.flows) && PlanOf(doc, parse, op).Commit?
    ensures UniqueFlows(PlanOf(doc, parse, op).candidate.flows)
  {
    match op
    case PutFlow(record, _, _, _, _) => ReplacedUnique(doc.flows, Prepared(op, Find(doc.flows, record.id)));
    case DeleteFlow(target) => WithoutUnique(doc.flows, target);
    case ReportRun(target, _, _, _) => ReplacedUnique(doc.flows, Reported(op, Find(doc.flows, target).value));
    case DeleteApp(app) => MappedUnique(doc.flows, f => Orphaned(doc, app, f));
    case Rewrite(_, _, _, _) => MappedUnique(doc.flows, f => Renewed(op, f));
    case Change(_, _) =>
    case Restore(_) =>
  }

  /** Every write of a flow raises its revision by exactly one, and no other operation touches it. */
  lemma PlanRevises(doc: Document, parse: string -> Option<nat>, op: Op, id: string)
    requires PlanOf(doc, parse, op).Commit? && Find(doc.flows, id).Some?
    requires !op.Restore? && !(op.DeleteFlow? && op.id == id)
    ensures var after := Find(PlanOf(doc, parse, op).candidate.flows, id);
      after.Some? && Succeeds(Find(doc.flows, id).value, after.value)
  {
    hide Find, Without, Mapped;
    if op.PutFlow? {
      PutRevises(doc, op, id);
    } else if op.ReportRun? {
      ReportRevises(doc, parse, op, id);
    } else {
      OtherRevises(doc, parse, op, id);
    }
  }

  lemma PutRevises(doc: Document, op: Op, id: string)
    requires op.PutFlow? && PutPlan(doc, op).Commit? && Find(doc.flows, id).Some?
    ensures var after := Find(PutPlan(doc, op).candidate.flows, id);
      after.Some? && Succeeds(Find(doc.flows, id).value, after.value)
  {
    hide Find, Without;
    ReplacedFind(doc.flows, Prepared(op, Find(doc.flows, op.record.id)), id);
  }

  lemma ReportRevises(doc: Document, parse: string -> Option<nat>, op: Op, id: string)
    requires op.ReportRun? && ReportPlan(doc, parse, op).Commit? && Find(doc.flows, id).Some?
    ensures var after := Find(ReportPlan(doc, parse, op).candidate.flows, id);
      after.Some? && Succeeds(Find(doc.flows, id).value, after.value)
  {
    hide Find, Without;
    ReplacedFind(doc.flows, Reported(op, Find(doc.flows, op.id).value), id);
  }

  lemma OtherRevises(doc: Document, parse: string -> Option<nat>, op: Op, id: string)
    requires !op.PutFlow? && !op.ReportRun? && !op.Restore? && !(op.DeleteFlow? && op.id == id)
    requires PlanOf(doc, parse, op).Commit? && Find(doc.flows, id).Some?
    ensures var after := Find(PlanOf(doc, parse, op).candidate.flows, id);
      after.Some? && Succeeds(Find(doc.flows, id).value, after.value)
  {
    hide Find, Without, Mapped, References;
    match op
    case DeleteFlow(target) => WithoutFind(doc.flows, target, id);
    case DeleteApp(app) => MappedFind(doc.flows, f => Orphaned(doc, app, f), id);
    case Rewrite(_, _, _, _) => MappedFind(doc.flows, f => Renewed(op, f), id);
    case Change(_, _) =>
  }

  /** After an app is removed nothing of it is left, and no flow that used it or its devices is still enabled. */
  lemma UninstallStops(doc: Document, app: string)
    ensures var after := Uninstalled(doc, app);
      && (forall a :: a in after.apps <==> a in doc.apps && a != app)
      && after.settings == doc.settings - {app} && after.states == doc.states - {app} && after.other == doc.other
      && (forall d :: d in after.devices <==> d in doc.devices && d.appId != app)
      && |after.flows| == |doc.flows|
      && (forall k :: 0 <= k < |doc.flows| ==>
        && (References(doc, doc.flows[k], app) ==>
          && !after.flows[k].enabled && after.flows[k].lastError.Some? && after.flows[k].revision == doc.flows[k].revision + 1
          && after.flows[k].(enabled := doc.flows[k].enabled, lastError := doc.flows[k].lastError, revision := doc.flows[k].revision) == doc.flows[k])
        && (!References(doc, doc.flows[k], app) ==> after.flows[k] == doc.flows[k])
        && (after.flows[k].enabled ==> !References(doc, after.flows[k], app)))
  {
    forall k | 0 <= k < |doc.flows|
      ensures Uninstalled(doc, app).flows[k].enabled ==> !References(doc, Uninstalled(doc, app).flows[k], app)
    {
      assert Uninstalled(doc, app).flows[k] == Orphaned(doc, app, doc.flows[k]);
    }
  }
}
