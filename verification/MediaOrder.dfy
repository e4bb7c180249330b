/** The runs a viewer sees come in the order of its source: nothing is sent twice and nothing out of order. */
module MediaOrder {
  import opened Common
  import opened Bytes
  import opened MediaDepot
  import opened MediaOwner
  import opened MediaBalance
  import opened MediaStream

  /** Frames in the order in which they were stored, none twice, none from the future. */
  ghost predicate Rising(q: seq<nat>, next: nat) {
    && (forall i, j :: 0 <= i < j < |q| ==> q[i] < q[j])
    && (forall i :: 0 <= i < |q| ==> q[i] <= next)
  }

  ghost predicate AllRising(queued: seq<seq<nat>>, next: nat) {
    forall i :: 0 <= i < |queued| ==> Rising(queued[i], next)
  }

  ghost predicate InOrder(t: Told) {
    AllRising(t.story.queued, t.media.depot.next)
  }

  lemma RisingLater(q: seq<nat>, next: nat, later: nat)
    requires Rising(q, next) && next <= later
    ensures Rising(q, later)
  {
  }

  lemma SwapRemoveRising(queued: seq<seq<nat>>, i: nat, next: nat)
    requires AllRising(queued, next) && i < |queued|
    ensures AllRising(SwapRemove(queued, i), next)
  {
    hide Rising;
    var n, left := |queued| - 1, SwapRemove(queued, i);
    assert forall k :: 0 <= k < n ==> left[k] == queued[if k == i then n else k];
  }

  lemma {:induction false} CloseQueuedRising(m: Media, queued: seq<seq<nat>>, id: nat, i: nat, next: nat)
    requires |queued| == |m.views| && AllRising(queued, next)
    ensures AllRising(CloseQueued(m, queued, id, i), next)
    decreases |m.views| - i
  {
    hide AllRising;
    if i < |m.views| {
      if m.views[i].source == Some(id) {
        SwapRemoveRising(queued, i, next);
        CloseQueuedRising(DropView(m, i), SwapRemove(queued, i), id, i, next);
      } else {
        CloseQueuedRising(m, queued, id, i + 1, next);
      }
    }
  }

  lemma CloseNext(m: Media, id: nat)
    ensures CloseStep(m, id).depot.next == m.depot.next
  {
    CloseViewsNext(m, id, 0);
    var closed := CloseViews(m, id, 0);
    var j := SourceIndex(closed.sources, id);
    if j.Some? {
      ReleaseAllNext(closed.depot, closed.sources[j.value].gop);
    }
  }

  lemma CloseInOrder(t: Told, m: Media, id: nat, next: Told)
    requires InOrder(t) && |t.story.queued| == |t.media.views| && m.depot.next == t.media.depot.next
    requires next == Told(CloseStep(m, id), Closed(t, id))
    ensures InOrder(next)
  {
    hide AllRising;
    CloseNext(m, id);
    CloseQueuedRising(t.media, t.story.queued, id, 0, t.media.depot.next);
  }

  /** A new frame is later than everything queued before. */
  lemma TookInOrder(views: seq<View>, queued: seq<seq<nat>>, id: nat, key: bool, next: nat)
    requires |queued| == |views| && AllRising(queued, next)
    ensures AllRising(QueueAll(views, queued, id, key, next + 1), next + 1)
  {
    var after := QueueAll(views, queued, id, key, next + 1);
    forall i | 0 <= i < |after| ensures Rising(after[i], next + 1) {
      assert Rising(queued[i], next);
      RisingLater(queued[i], next, next + 1);
    }
  }

  lemma ArriveInOrder(t: Told, id: nat, key: bool, bytes: seq<Byte>, next: Told)
    requires InOrder(t) && |t.story.queued| == |t.media.views| && Arrived(t, id, key, bytes, next)
    ensures InOrder(next)
  {
    hide AllRising, CloseStep, Regroup, Distribute, SourceIndex;
    var j := SourceIndex(t.media.sources, id);
    if j.None? {
      CloseInOrder(t, t.media, id, next);
    } else {
      var g := Regroup(t.media, j.value, key, |bytes|);
      RegroupOne(t.media, j.value, key, |bytes|);
      if HasRoom(g.depot, bytes) {
        DistributeShape(g, j.value, id, key, bytes);
        TookInOrder(t.media.views, t.story.queued, id, key, t.media.depot.next);
      } else {
        CloseInOrder(t, g, id, next);
      }
    }
  }

  lemma GroupRising(log: seq<Entry>, s: Source, next: nat)
    requires GroupOk(log, s) && Grows(log, next)
    ensures Rising(s.gop, next)
  {
    if s.valid {
      var from: nat :| GroupFrom(log, s, from);
      assert forall k :: 0 <= k < |s.gop| ==> s.gop[k] == log[from + k].frame;
    }
  }

  lemma AttachInOrder(t: Told, i: nat, j: nat)
    requires TaleOk(t) && InOrder(t) && CanAttach(t.media, i, j)
    ensures InOrder(Advance(t, Attach(i, j)))
  {
    hide AllRising, Rising, RetainAll, ViewOk, TaleOk;
    var m, s := t.media, t.media.sources[j];
    RetainAllNext(m.depot, s.gop);
    NewcomerSeeded(t, i, j);
    ReplacedRising(t.story.queued, i, t.story.queued[i] + s.gop, m.depot.next);
  }

  lemma NewcomerSeeded(t: Told, i: nat, j: nat)
    requires TaleOk(t) && CanAttach(t.media, i, j)
    ensures |t.story.queued| == |t.media.views| && Rising(t.story.queued[i] + t.media.sources[j].gop, t.media.depot.next)
  {
    hide ViewOk, GroupOk, Grows;
    var m, s := t.media, t.media.sources[j];
    SourceKnown(t.story.logs, m.sources, j);
    GroupRising(t.story.logs[s.id], s, m.depot.next);
    NewcomerEmpty(t.story.logs, m.views[i], t.story.queued[i]);
    assert t.story.queued[i] + s.gop == s.gop;
  }

  lemma ReplacedRising(queued: seq<seq<nat>>, i: nat, q: seq<nat>, next: nat)
    requires AllRising(queued, next) && i < |queued| && Rising(q, next)
    ensures AllRising(queued[i := q], next)
  {
  }

  lemma StepInOrder(t: Told, e: Event)
    requires TaleOk(t) && InOrder(t)
    ensures InOrder(Advance(t, e))
  {
    hide AllRising, CloseStep, ViewOk, SourcesOk, LogsGrow;
    var m := t.media;
    match e
    case Register(id, token, image) =>
      if !MayRegister(m, id, token, image) {
        CloseInOrder(t, m, id, Advance(t, e));
      }
    case Close(id) => CloseInOrder(t, m, id, Advance(t, e));
    case Arrive(id, key, bytes) =>
      ArriveCases(t, id, key, bytes);
      ArriveInOrder(t, id, key, bytes, Advance(t, e));
    case Accept => AcceptInOrder(t.story.queued, m.depot.next);
    case Attach(i, j) =>
      if CanAttach(m, i, j) {
        AttachInOrder(t, i, j);
      }
    case Pop(i) =>
      if i < |m.views| && |m.views[i].frames| > 0 {
        ReleaseNext(m.depot, m.views[i].frames[0]);
      }
    case Drop(i) =>
      if i < |m.views| {
        SwapRemoveRising(t.story.queued, i, m.depot.next);
        ReleaseAllNext(m.depot, m.views[i].frames);
      }
    case Prune =>
  }

  lemma AcceptInOrder(queued: seq<seq<nat>>, next: nat)
    requires AllRising(queued, next)
    ensures AllRising(queued + [[]], next)
  {
  }

  lemma {:induction false} RunInOrder(events: seq<Event>)
    requires FreshRun(events)
    ensures TaleOk(AfterTold(events)) && InOrder(AfterTold(events))
  {
    hide TaleOk, InOrder, Advance;
    RunKeepsTale(events);
    if |events| == 0 {
      NothingQueued();
    } else {
      var n := |events| - 1;
      var front := events[..n];
      forall k | 0 <= k < n ensures Fresh(AfterTold(front[..k]), front[k]) {
        assert front[..k] == events[..k];
      }
      RunInOrder(front);
      StepInOrder(AfterTold(front), events[n]);
    }
  }

  lemma NothingQueued()
    ensures InOrder(AfterTold([]))
  {
  }

  /**
   * In every run without reused source ids, what a viewer has been sent is made of runs of its source:
   * every frame is a keyframe or the one that follows, in source order, the frame sent before it, and the
   * runs follow each other in the order of the source, no frame being sent twice.
   */
  lemma ViewerSeesRuns(events: seq<Event>, i: nat)
    requires FreshRun(events) && i < |AfterTold(events).media.views|
    ensures TaleOk(AfterTold(events))
    ensures var t := AfterTold(events);
      && Rising(Sent(t, i), t.media.depot.next)
      && (Sent(t, i) != [] ==>
        && t.media.views[i].source.Some?
        && InRuns(LogOf(t.story.logs, t.media.views[i].source.value), Sent(t, i))
        && Grows(LogOf(t.story.logs, t.media.views[i].source.value), t.media.depot.next))
  {
    RunInOrder(events);
    var t := AfterTold(events);
    assert Rising(t.story.queued[i], t.media.depot.next);
    SentRising(t, i);
    hide TaleOk, InRun, Rising;
    if Sent(t, i) != [] {
      SentInRun(t, i, 0);
      forall k: nat | k < |Sent(t, i)| ensures InRun(LogOf(t.story.logs, t.media.views[i].source.value), Sent(t, i), k) {
        SentInRun(t, i, k);
      }
    }
  }

  lemma SentRising(t: Told, i: nat)
    requires TaleOk(t) && i < |t.media.views| && Rising(t.story.queued[i], t.media.depot.next)
    ensures Rising(Sent(t, i), t.media.depot.next)
  {
  }
}
