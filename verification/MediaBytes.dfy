/** What a viewer is sent under a frame's id: the bytes its source sent, from arrival to the last release. */
module MediaBytes {
  import opened Common
  import opened Bytes
  import opened MediaDepot
  import opened MediaOwner
  import opened MediaBalance

  type Mail = map<nat, seq<Byte>>

  /** What was taken so far, and with it what this event brings. */
  function Mailed(m: Media, e: Event, mail: Mail): Mail {
    if e.Arrive? && Takes(m, e.id, e.key, e.bytes) then mail[m.depot.next + 1 := e.bytes] else mail
  }

  /** The frames taken in a run, by the ids they were given. */
  function Taken(events: seq<Event>): Mail {
    if |events| == 0 then map[]
    else
      var front := events[..|events| - 1];
      Mailed(After(front), events[|events| - 1], Taken(front))
  }

  /** Every stored frame holds what was taken under its id. */
  ghost predicate Unaltered(d: Depot, mail: Mail) {
    && (forall k :: 0 <= k < |d.frames| ==> d.frames[k].id in mail && d.frames[k].bytes == mail[d.frames[k].id])
    && (forall id :: id in mail ==> id <= d.next)
  }

  lemma ReleaseUnaltered(d: Depot, id: nat, mail: Mail)
    requires Unaltered(d, mail)
    ensures Unaltered(Release(d, id), mail) && Release(d, id).next == d.next
  {
  }

  lemma RetainUnaltered(d: Depot, id: nat, mail: Mail)
    requires Unaltered(d, mail)
    ensures Unaltered(Retain(d, id), mail)
  {
  }

  lemma {:induction false} ReleaseAllUnaltered(d: Depot, ids: seq<nat>, mail: Mail)
    requires Unaltered(d, mail)
    ensures Unaltered(ReleaseAll(d, ids), mail) && ReleaseAll(d, ids).next == d.next
  {
    hide Unaltered;
    if |ids| > 0 {
      ReleaseAllUnaltered(d, ids[..|ids| - 1], mail);
      ReleaseUnaltered(ReleaseAll(d, ids[..|ids| - 1]), ids[|ids| - 1], mail);
    }
  }

  lemma {:induction false} RetainAllUnaltered(d: Depot, ids: seq<nat>, mail: Mail)
    requires Unaltered(d, mail)
    ensures Unaltered(RetainAll(d, ids), mail)
  {
    hide Unaltered;
    if |ids| > 0 {
      RetainAllUnaltered(d, ids[..|ids| - 1], mail);
      RetainUnaltered(RetainAll(d, ids[..|ids| - 1]), ids[|ids| - 1], mail);
    }
  }

  lemma {:induction false} CloseViewsUnaltered(m: Media, id: nat, i: nat, mail: Mail)
    requires Unaltered(m.depot, mail)
    ensures Unaltered(CloseViews(m, id, i).depot, mail)
    decreases |m.views| - i
  {
    hide Unaltered;
    if i < |m.views| {
      if m.views[i].source == Some(id) {
        ReleaseAllUnaltered(m.depot, m.views[i].frames, mail);
        CloseViewsUnaltered(DropView(m, i), id, i, mail);
      } else {
        CloseViewsUnaltered(m, id, i + 1, mail);
      }
    }
  }

  lemma CloseUnaltered(m: Media, id: nat, mail: Mail)
    requires Unaltered(m.depot, mail)
    ensures Unaltered(CloseStep(m, id).depot, mail)
  {
    hide Unaltered;
    CloseViewsUnaltered(m, id, 0, mail);
    var closed := CloseViews(m, id, 0);
    var j := SourceIndex(closed.sources, id);
    if j.Some? {
      ReleaseAllUnaltered(closed.depot, closed.sources[j.value].gop, mail);
    }
  }

  lemma RegroupUnaltered(m: Media, j: nat, key: bool, size: nat, mail: Mail)
    requires j < |m.sources| && Unaltered(m.depot, mail)
    ensures var grouped := Regroup(m, j, key, size); Unaltered(grouped.depot, mail) && grouped.depot.next == m.depot.next
  {
    hide Unaltered, ReleaseAll;
    ReleaseAllUnaltered(m.depot, m.sources[j].gop, mail);
    var keyed := if key then var c := ClearGop(m, j); c.(sources := c.sources[j := c.sources[j].(valid := true)]) else m;
    ReleaseAllUnaltered(keyed.depot, keyed.sources[j].gop, mail);
  }

  lemma {:induction false} OfferAllUnaltered(m: Media, k: nat, id: nat, key: bool, frame: nat, mail: Mail)
    requires k <= |m.views| && Unaltered(m.depot, mail)
    ensures Unaltered(OfferAll(m, k, id, key, frame).depot, mail)
  {
    hide Unaltered;
    if k > 0 {
      OfferAllUnaltered(m, k - 1, id, key, frame, mail);
      RetainUnaltered(OfferAll(m, k - 1, id, key, frame).depot, frame, mail);
    }
  }

  lemma PutUnaltered(d: Depot, bytes: seq<Byte>, mail: Mail)
    requires Unaltered(d, mail)
    ensures Unaltered(Put(d, bytes), mail[d.next + 1 := bytes])
  {
  }

  lemma DistributeUnaltered(m: Media, j: nat, id: nat, key: bool, bytes: seq<Byte>, mail: Mail)
    requires j < |m.sources| && Unaltered(m.depot, mail)
    ensures Unaltered(Distribute(m, j, id, key, bytes).depot, mail[m.depot.next + 1 := bytes])
  {
    hide Unaltered, Retain, Release, Put;
    var frame, wider := m.depot.next + 1, mail[m.depot.next + 1 := bytes];
    PutUnaltered(m.depot, bytes, mail);
    RetainUnaltered(Put(m.depot, bytes), frame, wider);
    var listed := Enlist(m.(depot := Put(m.depot, bytes)), j, frame, |bytes|);
    OfferAllUnaltered(listed, |listed.views|, id, key, frame, wider);
    ReleaseUnaltered(OfferAll(listed, |listed.views|, id, key, frame).depot, frame, wider);
  }

  lemma ArriveUnaltered(m: Media, id: nat, key: bool, bytes: seq<Byte>, mail: Mail)
    requires Unaltered(m.depot, mail)
    ensures Unaltered(ArriveStep(m, id, key, bytes).depot,
                      if Takes(m, id, key, bytes) then mail[m.depot.next + 1 := bytes] else mail)
  {
    hide Unaltered, CloseStep, Distribute, Regroup;
    var j := SourceIndex(m.sources, id);
    if j.None? {
      CloseUnaltered(m, id, mail);
    } else {
      var grouped := Regroup(m, j.value, key, |bytes|);
      RegroupUnaltered(m, j.value, key, |bytes|, mail);
      CloseUnaltered(grouped, id, mail);
      if HasRoom(grouped.depot, bytes) {
        RegroupSources(m, j.value, key, |bytes|);
        DistributeUnaltered(grouped, j.value, id, key, bytes, mail);
      }
    }
  }

  lemma RegroupSources(m: Media, j: nat, key: bool, size: nat)
    requires j < |m.sources|
    ensures |Regroup(m, j, key, size).sources| == |m.sources|
  {
  }

  lemma StepUnaltered(m: Media, e: Event, mail: Mail)
    requires Unaltered(m.depot, mail)
    ensures Unaltered(Step(m, e).depot, Mailed(m, e, mail))
  {
    hide Unaltered, CloseStep, ArriveStep, Takes;
    match e
    case Register(id, _, _) => CloseUnaltered(m, id, mail);
    case Close(id) => CloseUnaltered(m, id, mail);
    case Arrive(id, key, bytes) => ArriveUnaltered(m, id, key, bytes, mail);
    case Attach(_, j) =>
      if j < |m.sources| {
        RetainAllUnaltered(m.depot, m.sources[j].gop, mail);
      }
    case Pop(i) =>
      if i < |m.views| && |m.views[i].frames| > 0 {
        ReleaseUnaltered(m.depot, m.views[i].frames[0], mail);
      }
    case Drop(i) =>
      if i < |m.views| {
        ReleaseAllUnaltered(m.depot, m.views[i].frames, mail);
      }
    case Accept =>
    case Prune =>
  }

  /** In every run each stored frame holds the bytes that were sent when it got its id. */
  lemma {:induction false} StoredAsSent(events: seq<Event>)
    ensures Unaltered(After(events).depot, Taken(events))
  {
    if |events| > 0 {
      hide Unaltered, Step, Mailed;
      var front := events[..|events| - 1];
      StoredAsSent(front);
      StepUnaltered(After(front), events[|events| - 1], Taken(front));
    }
  }

  /**
   * In every run that sends frames to video sources only, whatever a viewer has still to be sent is stored
   * under its id, once, with the bytes its source sent.
   */
  lemma ViewerGetsWhatWasSent(events: seq<Event>, i: nat, k: nat)
    requires ProperRun(events) && i < |After(events).views| && k < |After(events).views[i].frames|
    ensures var m := After(events);
      var id := m.views[i].frames[k];
      var at := Position(m.depot.frames, id);
      at.Some? && id in Taken(events) && m.depot.frames[at.value].bytes == Taken(events)[id]
  {
    hide After, Taken, Position;
    StoredAsSent(events);
    CountsAreTrue(events);
    var m := After(events);
    var id := m.views[i].frames[k];
    QueueHeld(m, i);
    assert id in multiset(m.views[i].frames);
    assert id in Holders(m);
    StoredIsFound(m.depot.frames, id);
  }

  lemma StoredIsFound(frames: seq<Frame>, id: nat)
    requires Stored(frames, id)
    ensures Position(frames, id).Some?
  {
  }
}
