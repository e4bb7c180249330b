/** The single owner of the document: fields changed in place, and only after storage took the candidate. */
module StoreOwner {
  import opened Common
  import opened SlotHistory
  import opened SlotFiles
  import FlowGraph
  import EventLog
  import opened StoreRecords
  import opened StoreHistory

  class Store {
    const codec: Codec
    const files: Files
    var document: Document
    var events: seq<EventLog.Event>
    var sequence: nat

    ghost function Log(): EventLog.Log
      reads this
    {
      EventLog.Log(events, sequence)
    }

    ghost function View(): State
      reads this, files, files.backend
    {
      State(document, Log(), files.View(), files.backend.disk)
    }

    constructor (codec: Codec, files: Files, document: Document)
      ensures this.codec == codec && this.files == files
      ensures View() == State(document, EventLog.Log([], 0), files.View(), files.backend.disk)
      ensures EventLog.Tied(Log(), [])
    {
      this.codec, this.files, this.document, events, sequence := codec, files, document, [], 0;
    }

    /** The events a reader has not seen yet, or the news that some are gone. */
    method EventsAfter(cursor: nat) returns (r: Result<seq<EventLog.Event>, EventLog.Lost>)
      ensures r == EventLog.EventsAfter(Log(), cursor)
    {
      if cursor > sequence {
        return Err(EventLog.Changed);
      }
      if |events| > 0 && events[0].sequence > 0 && cursor < events[0].sequence - 1 {
        return Err(EventLog.Changed);
      }
      var newer: seq<EventLog.Event> := [];
      for i := 0 to |events|
        invariant newer == EventLog.Newer(events[..i], cursor)
      {
        assert events[..i + 1][..i] == events[..i];
        if events[i].sequence > cursor {
          newer := newer + [events[i]];
        }
      }
      assert events[..|events|] == events;
      return Ok(newer);
    }

    method Publish(event: EventLog.Event)
      modifies this`events, this`sequence
      ensures Log() == EventLog.Publish(old(Log()), event)
    {
      sequence := event.sequence;
      if |events| == EventLog.EVENT_CAPACITY {
        events := events[1..];
      }
      events := events + [event];
    }

    method PublishNotices(notices: seq<Notice>)
      modifies this`events, this`sequence
      ensures Log() == EventLog.PublishAll(old(Log()), Numbers(old(sequence), notices))
    {
      ghost var before := Log();
      ghost var all := Numbers(sequence, notices);
      var first := sequence;
      assert EventLog.PublishAll(before, all[..0]) == before;
      for k := 0 to |notices|
        invariant Log() == EventLog.PublishAll(before, all[..k])
      {
        var n := notices[k];
        assert all[..k + 1][..k] == all[..k] && all[..k + 1][k] == all[k];
        Publish(EventLog.Event(first + k + 1, n.manager, n.kind, n.id));
      }
      assert all[..|notices|] == all;
    }

    /** Storage first; only then do document and log change. */
    method Commit(candidate: Document, notices: seq<Notice>, reload: bool, disk: WritePlan)
      returns (r: Option<Fault>, ghost storage: Storage)
      modifies this, files, files.backend
      ensures (View(), r) == Perform(codec, old(View()), Plan.Commit(candidate, notices, reload), storage)
      ensures old(files.backend.poisoned) ==> storage.None?
    {
      storage := None;
      if sequence + |notices| >= U64_LIMIT {
        return Some(Fault.Full), storage;
      }
      var bytes := codec.encode(candidate);
      if bytes.None? {
        return Some(Fault.Full), storage;
      }
      ghost var before := View();
      ghost var poisoned := files.backend.poisoned;
      var done, outcome := files.Save(bytes.value, disk);
      storage := if poisoned then None else Some(outcome);
      assert (files.View(), files.backend.disk, done) == Persist(before.owner, before.disk, bytes.value, storage);
      if !done {
        return Some(Fault.Storage), storage;
      }
      document := candidate;
      if reload {
        events := [];
      }
      PublishNotices(notices);
      return None, storage;
    }

    /** The stored record with this id. */
    method FindFlow(id: string) returns (r: Option<FlowRecord>)
      ensures r == Find(document.flows, id)
    {
      for i := 0 to |document.flows|
        invariant Find(document.flows[..i], id) == None
      {
        assert document.flows[..i + 1][..i] == document.flows[..i];
        if document.flows[i].id == id {
          FindPrefix(document.flows, i + 1, id);
          return Some(document.flows[i]);
        }
      }
      assert document.flows[..|document.flows|] == document.flows;
      return None;
    }

    /** All records but one, in order. */
    method OthersThan(id: string) returns (kept: seq<FlowRecord>)
      ensures kept == Without(document.flows, id)
    {
      kept := [];
      for i := 0 to |document.flows|
        invariant kept == Without(document.flows[..i], id)
      {
        assert document.flows[..i + 1][..i] == document.flows[..i];
        if document.flows[i].id != id {
          kept := kept + [document.flows[i]];
        }
      }
      assert document.flows[..|document.flows|] == document.flows;
    }

    method Put(op: Op, disk: WritePlan) returns (r: Option<Fault>, ghost storage: Storage)
      requires op.PutFlow?
      modifies this, files, files.backend
      ensures (View(), r) == Apply(codec, old(View()), op, storage)
    {
      storage := None;
      var previous := FindFlow(op.record.id);
      var refused := PutGuard(document, op);
      if refused.Some? {
        return refused, storage;
      }
      var next := Prepared(op, previous);
      var verdict := FlowGraph.Validate(next.canvas);
      if verdict != FlowGraph.Accepted || !op.resolves {
        return Some(Invalid), storage;
      }
      var records := OthersThan(next.id);
      if |records| + 1 > MAX_RECORDS {
        return Some(Fault.Full), storage;
      }
      r, storage := Commit(document.(flows := records + [next]),
                           [Notice("flow", if op.create then "flow.create" else "flow.update", next.id)], false, disk);
    }

    method Delete(id: string, disk: WritePlan) returns (r: Option<Fault>, ghost storage: Storage)
      modifies this, files, files.backend
      ensures (View(), r) == Apply(codec, old(View()), DeleteFlow(id), storage)
    {
      storage := None;
      var previous := FindFlow(id);
      if previous.None? {
        return Some(Missing), storage;
      }
      var records := OthersThan(id);
      r, storage := Commit(document.(flows := records), [Notice("flow", "flow.delete", id)], false, disk);
    }

    /** A finished run is recorded unless a later start already is. */
    method FlowResult(op: Op, disk: WritePlan) returns (r: Option<Fault>, ghost storage: Storage)
      requires op.ReportRun?
      modifies this, files, files.backend
      ensures (View(), r) == Apply(codec, old(View()), op, storage)
    {
      storage := None;
      var previous := FindFlow(op.id);
      if previous.None? {
        return Some(Missing), storage;
      }
      if Before(codec.parse, op.ranAt, StampText(previous.value.lastRunAt)) {
        return None, storage;
      }
      if previous.value.revision + 1 >= U64_LIMIT {
        return Some(Fault.Full), storage;
      }
      var records := OthersThan(op.id);
      if |records| + 1 > MAX_RECORDS {
        return Some(Fault.Full), storage;
      }
      r, storage := Commit(document.(flows := records + [Reported(op, previous.value)]),
                           [Notice("flow", "flow.run", op.id)], false, disk);
    }

    /** Stops the flows of an app in a candidate; nothing when a revision cannot grow. */
    method Uninstall(app: string) returns (r: Option<Document>)
      ensures r.None? <==>
        exists k :: 0 <= k < |document.flows|
          && References(document, document.flows[k], app) && document.flows[k].revision + 1 >= U64_LIMIT
      ensures r.Some? ==> r.value == Uninstalled(document, app)
    {
      var flows: seq<FlowRecord> := [];
      for i := 0 to |document.flows|
        invariant |flows| == i && forall k :: 0 <= k < i ==> flows[k] == Orphaned(document, app, document.flows[k])
        invariant forall k :: 0 <= k < i ==>
          !(References(document, document.flows[k], app) && document.flows[k].revision + 1 >= U64_LIMIT)
      {
        var flow := document.flows[i];
        if References(document, flow, app) {
          if flow.revision + 1 >= U64_LIMIT {
            return None;
          }
          flow := flow.(enabled := false, lastError := Some("app was uninstalled"), revision := flow.revision + 1);
        }
        flows := flows + [flow];
      }
      assert flows == Uninstalled(document, app).flows;
      return Some(Document(flows, Kept(document.devices, app), KeptApps(document.apps, app),
                           document.settings - {app}, document.states - {app}, document.other));
    }

    method RemoveApp(app: string, disk: WritePlan) returns (r: Option<Fault>, ghost storage: Storage)
      modifies this, files, files.backend
      ensures (View(), r) == Apply(codec, old(View()), DeleteApp(app), storage)
    {
      storage := None;
      if app !in document.apps {
        return Some(Missing), storage;
      }
      var candidate := Uninstall(app);
      if candidate.None? {
        return Some(Fault.Full), storage;
      }
      r, storage := Commit(candidate.value, [Notice("apps", "app.delete", app)], false, disk);
    }
  }

  lemma {:induction false} FindPrefix(flows: seq<FlowRecord>, n: nat, id: string)
    requires n <= |flows| && Find(flows[..n], id).Some?
    ensures Find(flows, id) == Find(flows[..n], id)
  {
    if n == |flows| {
      assert flows[..n] == flows;
    } else {
      assert flows[..|flows| - 1][..n] == flows[..n];
      FindPrefix(flows[..|flows| - 1], n, id);
    }
  }
}
