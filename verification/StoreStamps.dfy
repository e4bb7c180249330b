/** When a flow last ran: reports arrive in any order, the latest start wins. */
module StoreStamps {
  import opened Common
  import opened StoreRecords
  import opened StoreHistory

  type Parse = string -> Option<nat>

  /** One report against the stamp on record. */
  function Take(parse: Parse, stamp: Option<string>, report: string): Option<string> {
    if Before(parse, report, StampText(stamp)) then stamp else Some(report)
  }

  function Settle(parse: Parse, stamp: Option<string>, reports: seq<string>): Option<string> {
    if |reports| == 0 then stamp
    else Take(parse, Settle(parse, stamp, reports[..|reports| - 1]), reports[|reports| - 1])
  }

  /** The stamps a run brought in for a flow: runs it accepted, and a stamp written where there was none. */
  ghost function Reports(codec: Codec, s: State, ops: seq<(Op, Storage)>, id: string): seq<string>
    requires FlowOf(s, id).Some? && Spared(ops, id)
  {
    if |ops| == 0 then []
    else
      var front, last := ops[..|ops| - 1], ops[|ops| - 1];
      Reports(codec, s, front, id) + Brought(codec, After(codec, s, front), last.0, last.1, id)
  }

  ghost function Brought(codec: Codec, s: State, op: Op, storage: Storage, id: string): seq<string> {
    var before, after := FlowOf(s, id), FlowOf(Apply(codec, s, op, storage).0, id);
    if op.ReportRun? then (if op.id == id && Apply(codec, s, op, storage).1.None? then [op.ranAt] else [])
    else if before.Some? && before.value.lastRunAt.None? && after.Some? && after.value.lastRunAt.Some?
    then [after.value.lastRunAt.value]
    else []
  }

  // ---------- one step ----------

  /** How a write treats the stamp of a flow. */
  ghost predicate Stamped(parse: Parse, op: Op, id: string, before: FlowRecord, after: Option<FlowRecord>) {
    && after.Some?
    && (if op.ReportRun? && op.id == id
        then after.value.lastRunAt == Some(op.ranAt) && !Before(parse, op.ranAt, StampText(before.lastRunAt))
        else (op.ReportRun? || before.lastRunAt.Some? ==> after.value.lastRunAt == before.lastRunAt))
  }

  lemma PutStamps(doc: Document, parse: Parse, op: Op, id: string)
    requires op.PutFlow? && PutPlan(doc, op).Commit? && Find(doc.flows, id).Some?
    ensures Stamped(parse, op, id, Find(doc.flows, id).value, Find(PutPlan(doc, op).candidate.flows, id))
  {
    ReplacedFind(doc.flows, Prepared(op, Find(doc.flows, op.record.id)), id);
  }

  lemma ReportStamps(doc: Document, parse: Parse, op: Op, id: string)
    requires op.ReportRun? && ReportPlan(doc, parse, op).Commit? && Find(doc.flows, id).Some?
    ensures Stamped(parse, op, id, Find(doc.flows, id).value, Find(ReportPlan(doc, parse, op).candidate.flows, id))
  {
    ReplacedFind(doc.flows, Reported(op, Find(doc.flows, op.id).value), id);
  }

  lemma PlanStamps(doc: Document, parse: Parse, op: Op, id: string)
    requires PlanOf(doc, parse, op).Commit? && Find(doc.flows, id).Some?
    requires !op.Restore? && !(op.DeleteFlow? && op.id == id)
    ensures Stamped(parse, op, id, Find(doc.flows, id).value, Find(PlanOf(doc, parse, op).candidate.flows, id))
  {
    if op.PutFlow? {
      PutStamps(doc, parse, op, id);
    } else if op.ReportRun? {
      ReportStamps(doc, parse, op, id);
    } else {
      OtherStamps(doc, parse, op, id);
    }
  }

  lemma OtherStamps(doc: Document, parse: Parse, op: Op, id: string)
    requires !op.PutFlow? && !op.ReportRun? && !op.Restore? && !(op.DeleteFlow? && op.id == id)
    requires PlanOf(doc, parse, op).Commit? && Find(doc.flows, id).Some?
    ensures var after := Find(PlanOf(doc, parse, op).candidate.flows, id);
      after.Some? && after.value.lastRunAt == Find(doc.flows, id).value.lastRunAt
  {
    hide Find, Without, Mapped, References;
    match op
    case DeleteFlow(target) => WithoutFind(doc.flows, target, id);
    case DeleteApp(app) => MappedFind(doc.flows, f => Orphaned(doc, app, f), id);
    case Rewrite(_, _, _, _) => MappedFind(doc.flows, f => Renewed(op, f), id);
    case Change(_, _) =>
  }

  lemma StepSettles(codec: Codec, s: State, op: Op, storage: Storage, id: string)
    requires FlowOf(s, id).Some? && codec.parse("").None?
    requires !op.Restore? && !(op.DeleteFlow? && op.id == id)
    ensures var after := FlowOf(Apply(codec, s, op, storage).0, id);
      && after.Some?
      && after.value.lastRunAt
         == Settle(codec.parse, FlowOf(s, id).value.lastRunAt, Brought(codec, s, op, storage, id))
  {
    var plan := PlanOf(s.document, codec.parse, op);
    DocumentAfter(codec, s, plan, storage);
    if plan.Commit? {
      PlanStamps(s.document, codec.parse, op, id);
    }
    var more := Brought(codec, s, op, storage, id);
    if |more| == 1 {
      assert more[..0] == [] && Settle(codec.parse, FlowOf(s, id).value.lastRunAt, more[..0]) == FlowOf(s, id).value.lastRunAt;
    }
  }

  lemma {:induction false} SettleConcat(parse: Parse, stamp: Option<string>, a: seq<string>, b: seq<string>)
    ensures Settle(parse, stamp, a + b) == Settle(parse, Settle(parse, stamp, a), b)
  {
    if |b| == 0 {
      assert a + b == a;
    } else {
      SettleConcat(parse, stamp, a, b[..|b| - 1]);
      assert (a + b)[..|a + b| - 1] == a + b[..|b| - 1];
    }
  }

  /** The stamp at the end of every run is the settlement of the reports the run accepted. */
  lemma {:induction false} RunSettles(codec: Codec, s: State, ops: seq<(Op, Storage)>, id: string)
    requires FlowOf(s, id).Some? && Spared(ops, id) && codec.parse("").None?
    ensures var after := FlowOf(After(codec, s, ops), id);
      && after.Some?
      && after.value.lastRunAt == Settle(codec.parse, FlowOf(s, id).value.lastRunAt, Reports(codec, s, ops, id))
  {
    if |ops| > 0 {
      var front, last := ops[..|ops| - 1], ops[|ops| - 1];
      RunSettles(codec, s, front, id);
      StepSettles(codec, After(codec, s, front), last.0, last.1, id);
      SettleConcat(codec.parse, FlowOf(s, id).value.lastRunAt, Reports(codec, s, front, id),
                   Brought(codec, After(codec, s, front), last.0, last.1, id));
    }
  }

  // ---------- the latest start wins ----------

  ghost predicate AllParse(parse: Parse, stamps: seq<string>) {
    forall r :: r in stamps ==> parse(r).Some?
  }

  /** One of the stamps, and no readable stamp is later. */
  ghost predicate Latest(parse: Parse, stamp: string, stamps: seq<string>) {
    && stamp in stamps && parse(stamp).Some?
    && forall r :: r in stamps && parse(r).Some? ==> parse(r).value <= parse(stamp).value
  }

  function Known(stamp: Option<string>): seq<string> {
    if stamp.Some? then [stamp.value] else []
  }

  lemma {:induction false} SettleLatest(parse: Parse, stamp: Option<string>, reports: seq<string>)
    requires parse("").None? && AllParse(parse, Known(stamp) + reports) && Known(stamp) + reports != []
    ensures Settle(parse, stamp, reports).Some?
    ensures Latest(parse, Settle(parse, stamp, reports).value, Known(stamp) + reports)
  {
    if |reports| > 0 {
      var front, last := reports[..|reports| - 1], reports[|reports| - 1];
      assert Known(stamp) + reports == Known(stamp) + front + [last];
      if Known(stamp) + front == [] {
        assert Settle(parse, stamp, front).None?;
      } else {
        SettleLatest(parse, stamp, front);
      }
    }
  }

  /** Whatever the order in which readable starts arrive, the flow ends with the latest. */
  lemma LastRunIsLatest(codec: Codec, s: State, ops: seq<(Op, Storage)>, id: string)
    requires FlowOf(s, id).Some? && Spared(ops, id) && codec.parse("").None?
    requires var stamps := Known(FlowOf(s, id).value.lastRunAt) + Reports(codec, s, ops, id);
      AllParse(codec.parse, stamps) && stamps != []
    ensures var after := FlowOf(After(codec, s, ops), id);
      && after.Some? && after.value.lastRunAt.Some?
      && Latest(codec.parse, after.value.lastRunAt.value, Known(FlowOf(s, id).value.lastRunAt) + Reports(codec, s, ops, id))
  {
    RunSettles(codec, s, ops, id);
    SettleLatest(codec.parse, FlowOf(s, id).value.lastRunAt, Reports(codec, s, ops, id));
  }

  /** Once an unreadable stamp came in, only what followed counts. */
  lemma {:induction false} UnreadableForgets(parse: Parse, stamp: Option<string>, earlier: seq<string>, bad: string, later: seq<string>)
    requires parse(bad).None? && parse("").None?
    ensures Settle(parse, stamp, earlier + [bad] + later) == if later == [] then Some(bad) else Settle(parse, None, later)
  {
    SettleConcat(parse, stamp, earlier, [bad]);
    SettleConcat(parse, stamp, earlier + [bad], later);
    var kept := Settle(parse, stamp, earlier);
    assert [bad][..0] == [] && Settle(parse, kept, [bad][..0]) == kept;
    assert Settle(parse, kept, [bad]) == Some(bad);
    if later != [] {
      FirstReadable(parse, bad, later);
    }
  }

  lemma {:induction false} FirstReadable(parse: Parse, bad: string, later: seq<string>)
    requires parse(bad).None? && parse("").None? && later != []
    ensures Settle(parse, Some(bad), later) == Settle(parse, None, later)
  {
    if |later| > 1 {
      FirstReadable(parse, bad, later[..|later| - 1]);
    } else {
      assert later[..0] == [];
      assert Settle(parse, Some(bad), later[..0]) == Some(bad) && Settle(parse, None, later[..0]) == None;
    }
  }

  /**
   * Exactly when the latest start wins after an unreadable stamp: something readable followed, and no
   * readable start before it is later than all that followed.
   */
  lemma LatestAfterUnreadable(parse: Parse, stamp: Option<string>, earlier: seq<string>, bad: string, later: seq<string>)
    requires parse(bad).None? && parse("").None? && AllParse(parse, later)
    ensures var all := Known(stamp) + earlier + [bad] + later;
      var end := Settle(parse, stamp, earlier + [bad] + later);
      && end.Some?
      && (Latest(parse, end.value, all) <==>
        later != [] && forall r :: r in Known(stamp) + earlier && parse(r).Some? ==>
          exists l :: l in later && parse(l).value >= parse(r).value)
  {
    var all := Known(stamp) + earlier + [bad] + later;
    UnreadableForgets(parse, stamp, earlier, bad, later);
    if later != [] {
      assert Known(None) + later == later;
      SettleLatest(parse, None, later);
      var end := Settle(parse, None, later).value;
      if Latest(parse, end, all) {
        forall r | r in Known(stamp) + earlier && parse(r).Some? ensures exists l :: l in later && parse(l).value >= parse(r).value {
          assert r in all && end in later;
        }
      }
    }
  }

  /** Over runs: with an unreadable stamp among the reports, exactly when the flow still ends with the latest start. */
  lemma RunLatestExactly(codec: Codec, s: State, ops: seq<(Op, Storage)>, id: string, earlier: seq<string>, bad: string, later: seq<string>)
    requires FlowOf(s, id).Some? && Spared(ops, id) && codec.parse("").None?
    requires Reports(codec, s, ops, id) == earlier + [bad] + later && codec.parse(bad).None? && AllParse(codec.parse, later)
    ensures var stamp, after := FlowOf(s, id).value.lastRunAt, FlowOf(After(codec, s, ops), id);
      && after.Some? && after.value.lastRunAt.Some?
      && (Latest(codec.parse, after.value.lastRunAt.value, Known(stamp) + earlier + [bad] + later) <==>
        later != [] && forall r :: r in Known(stamp) + earlier && codec.parse(r).Some? ==>
          exists l :: l in later && codec.parse(l).value >= codec.parse(r).value)
  {
    hide Settle, Latest;
    RunSettles(codec, s, ops, id);
    LatestAfterUnreadable(codec.parse, FlowOf(s, id).value.lastRunAt, earlier, bad, later);
  }

  function ThreeReports(id: string, a: string, b: string, c: string, now: string, storage: Storage): seq<(Op, Storage)> {
    [(ReportRun(id, a, "", now), storage)] + [(ReportRun(id, b, "", now), storage)] + [(ReportRun(id, c, "", now), storage)]
  }

  lemma ThreeBring(codec: Codec, s: State, id: string, a: string, b: string, c: string, now: string, storage: Storage)
    requires FlowOf(s, id).Some? && Taken(codec, s, ThreeReports(id, a, b, c, now, storage))
    ensures Spared(ThreeReports(id, a, b, c, now, storage), id)
    ensures Reports(codec, s, ThreeReports(id, a, b, c, now, storage), id) == [a] + [b] + [c]
  {
    hide Apply;
    var ops := ThreeReports(id, a, b, c, now, storage);
    assert ops[..3] == ops && ops[..3][..2] == ops[..2] && ops[..2][..1] == ops[..1] && ops[..1][..0] == [];
    assert Taken(codec, s, ops[..2]) && Taken(codec, s, ops[..1]);
    assert Reports(codec, s, ops[..1], id) == [a] by {
      assert Reports(codec, s, ops[..1][..0], id) == [] && [] + [a] == [a];
    }
    assert Reports(codec, s, ops[..2], id) == [a] + [b];
  }

  /**
   * The failing family: whenever the store takes a readable start, then an unreadable stamp, then an earlier
   * start, the flow ends with that earlier start.
   */
  lemma UnreadableStampLoses(codec: Codec, s: State, id: string, newer: string, bad: string, older: string, now: string, storage: Storage)
    requires FlowOf(s, id).Some? && codec.parse("").None? && codec.parse(bad).None?
    requires codec.parse(newer).Some? && codec.parse(older).Some? && codec.parse(older).value < codec.parse(newer).value
    requires Taken(codec, s, ThreeReports(id, newer, bad, older, now, storage))
    ensures var ops := ThreeReports(id, newer, bad, older, now, storage);
      var after := FlowOf(After(codec, s, ops), id);
      && Spared(ops, id) && Reports(codec, s, ops, id) == [newer] + [bad] + [older]
      && after.Some? && after.value.lastRunAt == Some(older) && !Latest(codec.parse, older, Reports(codec, s, ops, id))
  {
    hide Apply, Taken;
    var ops, stamp := ThreeReports(id, newer, bad, older, now, storage), FlowOf(s, id).value.lastRunAt;
    ThreeBring(codec, s, id, newer, bad, older, now, storage);
    RunSettles(codec, s, ops, id);
    UnreadableForgets(codec.parse, stamp, [newer], bad, [older]);
    assert [older][..0] == [] && Settle(codec.parse, None, [older][..0]) == None;
    assert newer in [newer] + [bad] + [older];
  }
}
