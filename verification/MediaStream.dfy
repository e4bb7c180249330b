/**
 * What a viewer gets to see: the frames of its source in runs, each run starting at a keyframe and
 * following the source frame by frame, whatever is dropped in between.
 */
module MediaStream {
  import opened Common
  import opened Bytes
  import opened MediaDepot
  import opened MediaOwner
  import opened MediaBalance

  datatype Entry = Entry(frame: nat, key: bool)

  /** Per source id all frames it ever took, per viewer all frames ever queued for it. */
  datatype Story = Story(logs: map<nat, seq<Entry>>, queued: seq<seq<nat>>)

  datatype Told = Told(media: Media, story: Story)

  // ---------- telling the story alongside the owner ----------

  function CloseQueued(m: Media, queued: seq<seq<nat>>, id: nat, i: nat): seq<seq<nat>>
    requires |queued| == |m.views|
    decreases |m.views| - i
  {
    if i >= |m.views| then queued
    else if m.views[i].source == Some(id) then CloseQueued(DropView(m, i), SwapRemove(queued, i), id, i)
    else CloseQueued(m, queued, id, i + 1)
  }

  predicate Takes(v: View, id: nat, key: bool) {
    v.source == Some(id) && |v.frames| < MAX_LIVE && (key || !v.keyframe)
  }

  function QueueAll(views: seq<View>, queued: seq<seq<nat>>, id: nat, key: bool, frame: nat): seq<seq<nat>>
    requires |queued| == |views|
  {
    seq(|views|, i requires 0 <= i < |views| => if Takes(views[i], id, key) then queued[i] + [frame] else queued[i])
  }

  function LogOf(logs: map<nat, seq<Entry>>, id: nat): seq<Entry> {
    if id in logs then logs[id] else []
  }

  function Closed(t: Told, id: nat): Story
    requires |t.story.queued| == |t.media.views|
  {
    Story(t.story.logs, CloseQueued(t.media, t.story.queued, id, 0))
  }

  function Took(t: Told, id: nat, e: Entry): Story
    requires |t.story.queued| == |t.media.views|
  {
    Story(t.story.logs[id := LogOf(t.story.logs, id) + [e]], QueueAll(t.media.views, t.story.queued, id, e.key, e.frame))
  }

  function TellArrival(t: Told, id: nat, key: bool, bytes: seq<Byte>): Story
    requires |t.story.queued| == |t.media.views|
  {
    match SourceIndex(t.media.sources, id)
    case None => Closed(t, id)
    case Some(j) =>
      var grouped := Regroup(t.media, j, key, |bytes|);
      if !HasRoom(grouped.depot, bytes) then Closed(t, id) else Took(t, id, Entry(grouped.depot.next + 1, key))
  }

  function Tell(t: Told, e: Event): Story {
    var m, logs, queued := t.media, t.story.logs, t.story.queued;
    if |queued| != |m.views| then t.story
    else
      match e
      case Register(id, token, image) =>
        if MayRegister(m, id, token, image) then Story(logs[id := []], queued) else Closed(t, id)
      case Close(id) => Closed(t, id)
      case Arrive(id, key, bytes) => TellArrival(t, id, key, bytes)
      case Accept => if |m.views| < MAX_VIEWS then Story(logs, queued + [[]]) else t.story
      case Attach(i, j) =>
        if CanAttach(m, i, j) && m.sources[j].valid
        then Story(logs, queued[i := queued[i] + m.sources[j].gop]) else t.story
      case Pop(i) => t.story
      case Drop(i) => if i < |m.views| then Story(logs, SwapRemove(queued, i)) else t.story
      case Prune => t.story
  }

  function Advance(t: Told, e: Event): Told {
    Told(Step(t.media, e), Tell(t, e))
  }

  // ---------- runs ----------

  /** Position k of the sequence starts a run at a keyframe or continues with the source's next frame. */
  ghost predicate InRun(log: seq<Entry>, frames: seq<nat>, k: nat) {
    k < |frames| && exists p: nat :: RunPosition(log, frames, k, p)
  }

  ghost predicate RunPosition(log: seq<Entry>, frames: seq<nat>, k: nat, p: nat) {
    && k < |frames| && p < |log| && log[p].frame == frames[k]
    && (log[p].key || (k > 0 && p > 0 && log[p - 1].frame == frames[k - 1]))
  }

  ghost predicate InRuns(log: seq<Entry>, frames: seq<nat>) {
    forall k: nat :: k < |frames| ==> InRun(log, frames, k)
  }

  function FramesOf(log: seq<Entry>): (r: seq<nat>)
    ensures |r| == |log| && forall i :: 0 <= i < |log| ==> r[i] == log[i].frame
  {
    seq(|log|, i requires 0 <= i < |log| => log[i].frame)
  }

  /** The group of a source is what it took since its last keyframe. */
  ghost predicate GroupOk(log: seq<Entry>, s: Source) {
    if s.valid then exists k: nat :: GroupFrom(log, s, k) else s.gop == []
  }

  ghost predicate GroupFrom(log: seq<Entry>, s: Source, k: nat) {
    k < |log| && log[k].key && s.gop == FramesOf(log[k..])
  }

  /** A viewer that is not waiting for a keyframe is up to date with its source. */
  ghost predicate ViewOk(logs: map<nat, seq<Entry>>, v: View, queued: seq<nat>) {
    && |v.frames| <= |queued| && v.frames == queued[|queued| - |v.frames|..]
    && (v.source.None? ==> queued == [] && v.keyframe)
    && (v.source.Some? ==>
      var log := LogOf(logs, v.source.value);
      && InRuns(log, queued)
      && (!v.keyframe ==> |queued| > 0 && |log| > 0 && queued[|queued| - 1] == log[|log| - 1].frame))
  }

  ghost predicate ViewsOk(logs: map<nat, seq<Entry>>, views: seq<View>, queued: seq<seq<nat>>) {
    |queued| == |views| && forall i :: 0 <= i < |views| ==> ViewOk(logs, views[i], queued[i])
  }

  ghost predicate SourcesOk(logs: map<nat, seq<Entry>>, sources: seq<Source>) {
    && UniqueSources(sources)
    && forall j :: 0 <= j < |sources| ==> sources[j].id in logs && GroupOk(logs[sources[j].id], sources[j])
  }

  /** Frame ids grow along every log, so a frame names one position. */
  ghost predicate LogsGrow(logs: map<nat, seq<Entry>>, next: nat) {
    forall id :: id in logs ==> Grows(logs[id], next)
  }

  ghost predicate Grows(log: seq<Entry>, next: nat) {
    && (forall p, q :: 0 <= p < q < |log| ==> log[p].frame < log[q].frame)
    && (forall p :: 0 <= p < |log| ==> log[p].frame <= next)
  }

  ghost predicate TaleOk(t: Told) {
    && ViewsOk(t.story.logs, t.media.views, t.story.queued)
    && SourcesOk(t.story.logs, t.media.sources)
    && LogsGrow(t.story.logs, t.media.depot.next)
  }

  // ---------- runs survive what happens ----------

  lemma RunsGrow(log: seq<Entry>, more: seq<Entry>, frames: seq<nat>)
    requires InRuns(log, frames)
    ensures InRuns(log + more, frames)
  {
    forall k: nat | k < |frames| ensures InRun(log + more, frames, k) {
      assert InRun(log, frames, k);
      var p: nat :| RunPosition(log, frames, k, p);
      assert RunPosition(log + more, frames, k, p);
    }
  }

  lemma RunsExtend(log: seq<Entry>, e: Entry, frames: seq<nat>)
    requires InRuns(log, frames)
    requires e.key || (|frames| > 0 && |log| > 0 && frames[|frames| - 1] == log[|log| - 1].frame)
    ensures InRuns(log + [e], frames + [e.frame])
  {
    RunsGrow(log, [e], frames);
    var l, f := log + [e], frames + [e.frame];
    forall k: nat | k < |f| ensures InRun(l, f, k) {
      if k < |frames| {
        assert InRun(l, frames, k);
        var p: nat :| RunPosition(l, frames, k, p);
        assert RunPosition(l, f, k, p);
      } else {
        assert RunPosition(l, f, k, |log|);
      }
    }
  }

  lemma GroupInRuns(log: seq<Entry>, s: Source)
    requires GroupOk(log, s) && s.valid
    ensures InRuns(log, s.gop) && |s.gop| > 0 && |log| > 0 && s.gop[|s.gop| - 1] == log[|log| - 1].frame
  {
    var from: nat :| GroupFrom(log, s, from);
    hide InRun;
    forall k: nat | k < |s.gop| ensures InRun(log, s.gop, k) {
      GroupRunAt(log, s, from, k);
    }
  }

  lemma GroupRunAt(log: seq<Entry>, s: Source, from: nat, k: nat)
    requires GroupFrom(log, s, from) && k < |s.gop|
    ensures InRun(log, s.gop, k)
  {
    assert s.gop[k] == log[from..][k].frame;
    assert k > 0 ==> s.gop[k - 1] == log[from..][k - 1].frame;
    assert RunPosition(log, s.gop, k, from + k);
  }

  /** One viewer, when its source takes a frame. */
  lemma OfferKeepsView(logs: map<nat, seq<Entry>>, v: View, queued: seq<nat>, id: nat, e: Entry)
    requires ViewOk(logs, v, queued) && id in logs
    ensures var v' := Offered(v, id, e.key, e.frame);
      ViewOk(logs[id := logs[id] + [e]], v', if Takes(v, id, e.key) then queued + [e.frame] else queued)
  {
    hide InRuns;
    if v.source == Some(id) {
      if Takes(v, id, e.key) {
        RunsExtend(logs[id], e, queued);
        assert (queued + [e.frame])[|queued| - |v.frames|..] == v.frames + [e.frame];
      } else {
        RunsGrow(logs[id], [e], queued);
      }
    }
  }

  /** A viewer after its source took a frame. */
  function Offered(v: View, id: nat, key: bool, frame: nat): View {
    if v.source != Some(id) then v
    else if |v.frames| >= MAX_LIVE then v.(keyframe := true)
    else if v.keyframe && !key then v
    else v.(frames := v.frames + [frame], keyframe := false)
  }

  lemma {:induction false} OfferAllViews(m: Media, k: nat, id: nat, key: bool, frame: nat)
    requires k <= |m.views|
    ensures var r := OfferAll(m, k, id, key, frame);
      |r.views| == |m.views|
      && forall i :: 0 <= i < |m.views| ==> r.views[i] == if i < k then Offered(m.views[i], id, key, frame) else m.views[i]
  {
    if k > 0 {
      OfferAllViews(m, k - 1, id, key, frame);
    }
  }

  // ---------- every event keeps the tale ----------

  ghost predicate Fresh(t: Told, e: Event) {
    e.Register? ==> e.id !in t.story.logs
  }

  lemma SwapRemoveViews(logs: map<nat, seq<Entry>>, views: seq<View>, queued: seq<seq<nat>>, i: nat)
    requires ViewsOk(logs, views, queued) && i < |views|
    ensures ViewsOk(logs, SwapRemove(views, i), SwapRemove(queued, i))
  {
    hide ViewOk;
    var n, left, rest := |views| - 1, SwapRemove(views, i), SwapRemove(queued, i);
    assert forall k :: 0 <= k < n ==> left[k] == views[if k == i then n else k] && rest[k] == queued[if k == i then n else k];
  }

  lemma {:induction false} CloseViewsTale(logs: map<nat, seq<Entry>>, m: Media, queued: seq<seq<nat>>, id: nat, i: nat)
    requires ViewsOk(logs, m.views, queued)
    ensures ViewsOk(logs, CloseViews(m, id, i).views, CloseQueued(m, queued, id, i))
    decreases |m.views| - i
  {
    if i < |m.views| {
      if m.views[i].source == Some(id) {
        SwapRemoveViews(logs, m.views, queued, i);
        CloseViewsTale(logs, DropView(m, i), SwapRemove(queued, i), id, i);
      } else {
        CloseViewsTale(logs, m, queued, id, i + 1);
      }
    }
  }

  lemma {:induction false} ReleaseAllNext(d: Depot, ids: seq<nat>)
    ensures ReleaseAll(d, ids).next == d.next
  {
    if |ids| > 0 {
      ReleaseAllNext(d, ids[..|ids| - 1]);
    }
  }

  lemma {:induction false} RetainAllNext(d: Depot, ids: seq<nat>)
    ensures RetainAll(d, ids).next == d.next
  {
    if |ids| > 0 {
      RetainAllNext(d, ids[..|ids| - 1]);
    }
  }

  lemma {:induction false} CloseViewsNext(m: Media, id: nat, i: nat)
    ensures CloseViews(m, id, i).depot.next == m.depot.next
    decreases |m.views| - i
  {
    if i < |m.views| {
      if m.views[i].source == Some(id) {
        ReleaseAllNext(m.depot, m.views[i].frames);
        CloseViewsNext(DropView(m, i), id, i);
      } else {
        CloseViewsNext(m, id, i + 1);
      }
    }
  }

  lemma SwapRemoveSources(logs: map<nat, seq<Entry>>, sources: seq<Source>, j: nat)
    requires SourcesOk(logs, sources) && j < |sources|
    ensures SourcesOk(logs, SwapRemove(sources, j))
  {
    var after, n := SwapRemove(sources, j), |sources| - 1;
    assert forall k :: 0 <= k < |after| ==> after[k] == if k == j then sources[n] else sources[k];
  }

  lemma CloseTale(t: Told, id: nat, next: Told)
    requires TaleOk(t) && next == Told(CloseStep(t.media, id), Closed(t, id))
    ensures TaleOk(next)
  {
    var m, logs := t.media, t.story.logs;
    CloseViewsTale(logs, m, t.story.queued, id, 0);
    CloseViewsSources(m, id, 0);
    CloseViewsNext(m, id, 0);
    var closed := CloseViews(m, id, 0);
    var j := SourceIndex(closed.sources, id);
    if j.Some? {
      SwapRemoveSources(logs, m.sources, j.value);
      ReleaseAllNext(closed.depot, closed.sources[j.value].gop);
    }
  }

  /** Regrouping touches one source only; its group is then what it was, empty, or about to be started. */
  lemma RegroupOne(m: Media, j: nat, key: bool, size: nat)
    requires j < |m.sources|
    ensures var g := Regroup(m, j, key, size);
      && g.views == m.views && g.depot.next == m.depot.next && |g.sources| == |m.sources|
      && g.sources == m.sources[j := g.sources[j]]
      && g.sources[j].id == m.sources[j].id
      && ((g.sources[j] == m.sources[j] && !key)
        || (!g.sources[j].valid && g.sources[j].gop == [])
        || (key && g.sources[j].valid && g.sources[j].gop == []))
  {
    ReleaseAllNext(m.depot, m.sources[j].gop);
    if key {
      var c := ClearGop(m, j);
      ReleaseAllNext(c.depot, c.sources[j].gop);
    }
  }

  lemma LogSnoc(log: seq<Entry>, e: Entry, next: nat)
    requires Grows(log, next) && e.frame == next + 1
    ensures Grows(log + [e], next + 1)
  {
  }

  /** The group after the source took the frame. */
  lemma GroupTakes(log: seq<Entry>, before: Source, s: Source, e: Entry)
    requires GroupOk(log, before)
    requires (s == before && !e.key) || (!s.valid && s.gop == []) || (e.key && s.valid && s.gop == [])
    ensures GroupOk(log + [e], if s.valid then s.(gop := s.gop + [e.frame]) else s)
  {
    var l := log + [e];
    if s.valid {
      var taken := s.(gop := s.gop + [e.frame]);
      if e.key {
        assert l[|log|..] == [e];
        assert GroupFrom(l, taken, |log|);
      } else {
        var k: nat :| GroupFrom(log, s, k);
        assert l[k..] == log[k..] + [e];
        assert GroupFrom(l, taken, k);
      }
    }
  }

  lemma GroupIgnoresBytes(log: seq<Entry>, s: Source, bytes: nat)
    requires GroupOk(log, s)
    ensures GroupOk(log, s.(bytes := bytes))
  {
    if s.valid {
      var k: nat :| GroupFrom(log, s, k);
      assert GroupFrom(log, s.(bytes := bytes), k);
    }
  }

  lemma TakeSources(logs: map<nat, seq<Entry>>, sources: seq<Source>, j: nat, grouped: Source, e: Entry, bytes: nat)
    requires SourcesOk(logs, sources) && j < |sources| && grouped.id == sources[j].id
    requires (grouped == sources[j] && !e.key) || (!grouped.valid && grouped.gop == [])
      || (e.key && grouped.valid && grouped.gop == [])
    ensures var s := if grouped.valid then grouped.(gop := grouped.gop + [e.frame], bytes := bytes) else grouped;
      SourcesOk(logs[grouped.id := logs[grouped.id] + [e]], sources[j := s])
  {
    var s := if grouped.valid then grouped.(gop := grouped.gop + [e.frame], bytes := bytes) else grouped;
    GroupTakes(logs[grouped.id], sources[j], grouped, e);
    if grouped.valid {
      GroupIgnoresBytes(logs[grouped.id] + [e], grouped.(gop := grouped.gop + [e.frame]), bytes);
    }
    var after := sources[j := s];
    assert forall k :: 0 <= k < |sources| ==> after[k].id == sources[k].id;
  }

  lemma TakeViews(logs: map<nat, seq<Entry>>, m: Media, queued: seq<seq<nat>>, id: nat, e: Entry, after: seq<View>)
    requires ViewsOk(logs, m.views, queued) && id in logs
    requires |after| == |m.views| && forall i :: 0 <= i < |after| ==> after[i] == Offered(m.views[i], id, e.key, e.frame)
    ensures ViewsOk(logs[id := logs[id] + [e]], after, QueueAll(m.views, queued, id, e.key, e.frame))
  {
    forall i | 0 <= i < |after|
      ensures ViewOk(logs[id := logs[id] + [e]], after[i], QueueAll(m.views, queued, id, e.key, e.frame)[i])
    {
      OfferKeepsView(logs, m.views[i], queued[i], id, e);
    }
  }

  lemma ReleaseNext(d: Depot, id: nat)
    ensures Release(d, id).next == d.next && Retain(d, id).next == d.next
  {
  }

  lemma {:induction false} OfferAllNext(m: Media, k: nat, id: nat, key: bool, frame: nat)
    requires k <= |m.views|
    ensures OfferAll(m, k, id, key, frame).depot.next == m.depot.next
  {
    if k > 0 {
      OfferAllNext(m, k - 1, id, key, frame);
      ReleaseNext(OfferAll(m, k - 1, id, key, frame).depot, frame);
    }
  }

  lemma DistributeShape(m: Media, j: nat, id: nat, key: bool, bytes: seq<Byte>)
    requires j < |m.sources|
    ensures var r, frame, s := Distribute(m, j, id, key, bytes), m.depot.next + 1, m.sources[j];
      && r.depot.next == frame && |r.views| == |m.views|
      && (forall i :: 0 <= i < |r.views| ==> r.views[i] == Offered(m.views[i], id, key, frame))
      && r.sources == m.sources[j := if s.valid then s.(gop := s.gop + [frame], bytes := s.bytes + |bytes|) else s]
  {
    var frame := m.depot.next + 1;
    var stored := m.(depot := Put(m.depot, bytes));
    ReleaseNext(stored.depot, frame);
    var listed := Enlist(stored, j, frame, |bytes|);
    OfferAllViews(listed, |listed.views|, id, key, frame);
    OfferAllSources(listed, |listed.views|, id, key, frame);
    OfferAllNext(listed, |listed.views|, id, key, frame);
    ReleaseNext(OfferAll(listed, |listed.views|, id, key, frame).depot, frame);
  }

  /** Next is t after source j, regrouped to s, took the frame e. */
  ghost predicate TookFrame(t: Told, j: nat, id: nat, e: Entry, s: Source, size: nat, next: Told)
    requires j < |t.media.sources| && |t.story.queued| == |t.media.views|
  {
    && s.id == id
    && ((s == t.media.sources[j] && !e.key) || (!s.valid && s.gop == []) || (e.key && s.valid && s.gop == []))
    && e.frame == t.media.depot.next + 1 && next.media.depot.next == e.frame
    && |next.media.views| == |t.media.views| && next.story == Took(t, id, e)
    && (forall i :: 0 <= i < |next.media.views| ==>
      next.media.views[i] == Offered(t.media.views[i], id, e.key, e.frame))
    && next.media.sources ==
      t.media.sources[j := if s.valid then s.(gop := s.gop + [e.frame], bytes := s.bytes + size) else s]
  }

  lemma TakeFacts(t: Told, j: nat, id: nat, key: bool, bytes: seq<Byte>, g: Media, next: Told)
    requires j < |t.media.sources| && t.media.sources[j].id == id && |t.story.queued| == |t.media.views|
    requires g == Regroup(t.media, j, key, |bytes|)
    requires next == Told(Distribute(g, j, id, key, bytes), Took(t, id, Entry(g.depot.next + 1, key)))
    ensures j < |g.sources| && TookFrame(t, j, id, Entry(g.depot.next + 1, key), g.sources[j], |bytes|, next)
  {
    RegroupOne(t.media, j, key, |bytes|);
    DistributeShape(g, j, id, key, bytes);
  }

  lemma TakeTale(t: Told, j: nat, id: nat, key: bool, bytes: seq<Byte>, next: Told)
    requires TaleOk(t) && j < |t.media.sources| && t.media.sources[j].id == id
    requires var g := Regroup(t.media, j, key, |bytes|);
      next == Told(Distribute(g, j, id, key, bytes), Took(t, id, Entry(g.depot.next + 1, key)))
    ensures TaleOk(next)
  {
    var g := Regroup(t.media, j, key, |bytes|);
    TakeFacts(t, j, id, key, bytes, g, next);
    TakeShape(t, j, id, Entry(g.depot.next + 1, key), g.sources[j], |bytes|, next);
  }

  lemma TakeShape(t: Told, j: nat, id: nat, e: Entry, s: Source, size: nat, next: Told)
    requires TaleOk(t) && j < |t.media.sources| && t.media.sources[j].id == id
    requires TookFrame(t, j, id, e, s, size, next)
    ensures TaleOk(next)
  {
    var m, logs := t.media, t.story.logs;
    assert LogOf(logs, id) == logs[id];
    TakeViews(logs, m, t.story.queued, id, e, next.media.views);
    TakeSources(logs, m.sources, j, s, e, s.bytes + size);
    TakeLogs(logs, id, e, m.depot.next);
  }

  lemma TakeLogs(logs: map<nat, seq<Entry>>, id: nat, e: Entry, next: nat)
    requires LogsGrow(logs, next) && id in logs && e.frame == next + 1
    ensures LogsGrow(logs[id := logs[id] + [e]], next + 1)
  {
    LogSnoc(logs[id], e, next);
    var after := logs[id := logs[id] + [e]];
    forall other | other in after ensures Grows(after[other], next + 1) {
      if other != id {
        assert Grows(logs[other], next);
      }
    }
  }

  /** The three ways a frame can be taken, each naming the state it leads to. */
  ghost predicate Arrived(t: Told, id: nat, key: bool, bytes: seq<Byte>, next: Told)
    requires |t.story.queued| == |t.media.views|
  {
    match SourceIndex(t.media.sources, id)
    case None => next == Told(CloseStep(t.media, id), Closed(t, id))
    case Some(j) =>
      var g := Regroup(t.media, j, key, |bytes|);
      if HasRoom(g.depot, bytes)
      then next == Told(Distribute(g, j, id, key, bytes), Took(t, id, Entry(g.depot.next + 1, key)))
      else next == Told(CloseStep(g, id), Closed(t, id))
  }

  lemma ArriveCases(t: Told, id: nat, key: bool, bytes: seq<Byte>)
    requires |t.story.queued| == |t.media.views|
    ensures Arrived(t, id, key, bytes, Advance(t, Arrive(id, key, bytes)))
  {
  }

  lemma ArriveTale(t: Told, id: nat, key: bool, bytes: seq<Byte>, next: Told)
    requires TaleOk(t) && Arrived(t, id, key, bytes, next)
    ensures TaleOk(next)
  {
    var j := SourceIndex(t.media.sources, id);
    if j.None? {
      CloseTale(t, id, next);
    } else if HasRoom(Regroup(t.media, j.value, key, |bytes|).depot, bytes) {
      TakeTale(t, j.value, id, key, bytes, next);
    } else {
      RefusedTale(t, j.value, id, key, |bytes|, next);
    }
  }

  /** Without room the source is closed, whatever its group was. */
  lemma RefusedTale(t: Told, j: nat, id: nat, key: bool, size: nat, next: Told)
    requires TaleOk(t) && SourceIndex(t.media.sources, id) == Some(j)
    requires next == Told(CloseStep(Regroup(t.media, j, key, size), id), Closed(t, id))
    ensures TaleOk(next)
  {
    hide ViewOk, GroupOk, ReleaseAll;
    var m, logs := t.media, t.story.logs;
    var g := Regroup(m, j, key, size);
    RegroupOne(m, j, key, size);
    SameViewsSameClosing(m, g, t.story.queued, id, 0);
    CloseViewsTale(logs, g, t.story.queued, id, 0);
    CloseViewsSources(g, id, 0);
    CloseViewsNext(g, id, 0);
    var closed := CloseViews(g, id, 0);
    var k := SourceIndex(closed.sources, id);
    assert closed.sources[j].id == id;
    assert k == Some(j) by {
      assert forall i :: 0 <= i < |g.sources| && i != j ==> g.sources[i].id != id;
    }
    ReleaseAllNext(closed.depot, closed.sources[j].gop);
    var n := |m.sources| - 1;
    var after := SwapRemove(g.sources, j);
    SwapRemoveSources(logs, m.sources, j);
    assert after == SwapRemove(m.sources, j);
  }

  lemma {:induction false} SameViewsSameClosing(a: Media, b: Media, queued: seq<seq<nat>>, id: nat, i: nat)
    requires a.views == b.views && |queued| == |a.views|
    ensures CloseQueued(a, queued, id, i) == CloseQueued(b, queued, id, i)
    decreases |a.views| - i
  {
    if i < |a.views| {
      if a.views[i].source == Some(id) {
        SameViewsSameClosing(DropView(a, i), DropView(b, i), SwapRemove(queued, i), id, i);
      } else {
        SameViewsSameClosing(a, b, queued, id, i + 1);
      }
    }
  }

  lemma RegisterTale(t: Told, id: nat, token: string, image: bool)
    requires TaleOk(t) && id !in t.story.logs && MayRegister(t.media, id, token, image)
    ensures TaleOk(Told(RegisterStep(t.media, id, token, image), Story(t.story.logs[id := []], t.story.queued)))
  {
    var m, logs := t.media, t.story.logs;
    var more := logs[id := []];
    forall i | 0 <= i < |m.views| ensures ViewOk(more, m.views[i], t.story.queued[i]) {
      assert ViewOk(logs, m.views[i], t.story.queued[i]);
    }
    assert Grows([], m.depot.next);
  }

  lemma AttachTale(t: Told, i: nat, j: nat, next: Told)
    requires TaleOk(t) && CanAttach(t.media, i, j)
    requires next.media == AttachStep(t.media, i, j) && next.story.logs == t.story.logs
    requires next.story.queued ==
      if t.media.sources[j].valid then t.story.queued[i := t.story.queued[i] + t.media.sources[j].gop] else t.story.queued
    ensures TaleOk(next)
  {
    hide ViewsOk, SourcesOk, RetainAll;
    var m, s := t.media, t.media.sources[j];
    RetainAllNext(m.depot, s.gop);
    AttachSources(t.story.logs, m.sources, j);
    SourceKnown(t.story.logs, m.sources, j);
    AttachViews(t.story.logs, m.views, t.story.queued, i, s);
  }

  lemma AttachViews(logs: map<nat, seq<Entry>>, views: seq<View>, queued: seq<seq<nat>>, i: nat, s: Source)
    requires ViewsOk(logs, views, queued) && i < |views| && views[i].source.None?
    requires s.id in logs && GroupOk(logs[s.id], s)
    ensures var joined := views[i].(source := Some(s.id), image := s.image);
      if s.valid
      then ViewsOk(logs, views[i := joined.(frames := views[i].frames + s.gop, keyframe := false)], queued[i := queued[i] + s.gop])
      else ViewsOk(logs, views[i := joined], queued)
  {
    hide GroupOk;
    var v := views[i];
    var joined := v.(source := Some(s.id), image := s.image);
    NewcomerEmpty(logs, v, queued[i]);
    JoinedView(logs, v, s);
    hide ViewOk;
    assert [] + s.gop == s.gop;
    if s.valid {
      OneView(logs, views, queued, i, joined.(frames := s.gop, keyframe := false), s.gop);
    } else {
      OneView(logs, views, queued, i, joined, []);
      assert queued[i := []] == queued;
    }
  }

  lemma NewcomerEmpty(logs: map<nat, seq<Entry>>, v: View, q: seq<nat>)
    requires ViewOk(logs, v, q) && v.source.None?
    ensures v.frames == [] && q == [] && v.keyframe
  {
  }

  lemma SourceKnown(logs: map<nat, seq<Entry>>, sources: seq<Source>, j: nat)
    requires SourcesOk(logs, sources) && j < |sources|
    ensures sources[j].id in logs && GroupOk(logs[sources[j].id], sources[j])
  {
  }

  lemma OneView(logs: map<nat, seq<Entry>>, views: seq<View>, queued: seq<seq<nat>>, i: nat, v: View, q: seq<nat>)
    requires ViewsOk(logs, views, queued) && i < |views| && ViewOk(logs, v, q)
    ensures ViewsOk(logs, views[i := v], queued[i := q])
  {
  }

  /** A viewer that joins a source: seeded with the group, or waiting for a keyframe. */
  lemma JoinedView(logs: map<nat, seq<Entry>>, v: View, s: Source)
    requires v.frames == [] && v.keyframe && s.id in logs && GroupOk(logs[s.id], s)
    ensures ViewOk(logs, v.(source := Some(s.id), image := s.image), [])
    ensures s.valid ==> ViewOk(logs, v.(source := Some(s.id), image := s.image, frames := s.gop, keyframe := false), s.gop)
  {
    if s.valid {
      GroupInRuns(logs[s.id], s);
    }
  }

  lemma AttachSources(logs: map<nat, seq<Entry>>, sources: seq<Source>, j: nat)
    requires SourcesOk(logs, sources) && j < |sources|
    ensures SourcesOk(logs, sources[j := sources[j].(ready := !sources[j].image)])
  {
    var s := sources[j];
    var after := sources[j := s.(ready := !s.image)];
    if s.valid {
      var k: nat :| GroupFrom(logs[s.id], s, k);
      assert GroupFrom(logs[s.id], after[j], k);
    }
    assert forall k :: 0 <= k < |sources| ==> after[k].id == sources[k].id;
  }

  lemma PopTale(t: Told, i: nat)
    requires TaleOk(t) && i < |t.media.views| && |t.media.views[i].frames| > 0
    ensures TaleOk(Told(PopStep(t.media, i), t.story))
  {
    var v, q := t.media.views[i], t.story.queued[i];
    assert ViewOk(t.story.logs, v, q);
    ReleaseNext(t.media.depot, v.frames[0]);
    assert v.frames[1..] == q[|q| - |v.frames| + 1..];
  }

  lemma {:induction false} KeptSourcesTale(logs: map<nat, seq<Entry>>, sources: seq<Source>)
    requires SourcesOk(logs, sources)
    ensures SourcesOk(logs, KeptSources(sources))
    ensures forall k :: 0 <= k < |KeptSources(sources)| ==> exists j :: 0 <= j < |sources| && sources[j] == KeptSources(sources)[k]
  {
    if |sources| > 0 {
      var front, last := sources[..|sources| - 1], sources[|sources| - 1];
      KeptSourcesTale(logs, front);
      var kept := KeptSources(sources);
      forall k | 0 <= k < |kept| ensures exists j :: 0 <= j < |sources| && sources[j] == kept[k] {
        if k < |KeptSources(front)| {
          var j :| 0 <= j < |front| && front[j] == KeptSources(front)[k];
          assert sources[j] == kept[k];
        } else {
          assert sources[|sources| - 1] == kept[k];
        }
      }
      forall a, b | 0 <= a < b < |kept| ensures kept[a].id != kept[b].id {
        if b == |KeptSources(front)| {
          var j :| 0 <= j < |front| && front[j] == KeptSources(front)[a];
          assert sources[j].id != last.id;
        }
      }
    }
  }

  lemma StepKeepsTale(t: Told, e: Event)
    requires TaleOk(t) && Fresh(t, e)
    ensures TaleOk(Advance(t, e))
  {
    if e.Arrive? {
      ArriveCases(t, e.id, e.key, e.bytes);
      ArriveTale(t, e.id, e.key, e.bytes, Advance(t, e));
    } else {
      OtherKeepsTale(t, e, Advance(t, e));
    }
  }

  lemma OtherKeepsTale(t: Told, e: Event, next: Told)
    requires TaleOk(t) && Fresh(t, e) && !e.Arrive? && next == Advance(t, e)
    ensures TaleOk(next)
  {
    var m := t.media;
    match e
    case Register(id, token, image) =>
      if MayRegister(m, id, token, image) {
        RegisterTale(t, id, token, image);
      } else {
        CloseTale(t, id, next);
      }
    case Close(id) => CloseTale(t, id, next);
    case Accept =>
    case Attach(i, j) =>
      if CanAttach(m, i, j) {
        AttachTale(t, i, j, next);
      }
    case Pop(i) =>
      if i < |m.views| && |m.views[i].frames| > 0 {
        PopTale(t, i);
      }
    case Drop(i) =>
      if i < |m.views| {
        SwapRemoveViews(t.story.logs, m.views, t.story.queued, i);
        ReleaseAllNext(m.depot, m.views[i].frames);
      }
    case Prune => KeptSourcesTale(t.story.logs, m.sources);
  }

  // ---------- whole runs ----------

  function AfterTold(events: seq<Event>): Told {
    if |events| == 0 then Told(QUIET, Story(map[], []))
    else Advance(AfterTold(events[..|events| - 1]), events[|events| - 1])
  }

  /** No source id is registered twice. */
  ghost predicate FreshRun(events: seq<Event>) {
    forall n :: 0 <= n < |events| ==> Fresh(AfterTold(events[..n]), events[n])
  }

  lemma {:induction false} RunKeepsTale(events: seq<Event>)
    requires FreshRun(events)
    ensures TaleOk(AfterTold(events)) && AfterTold(events).media == After(events)
  {
    if |events| > 0 {
      var n := |events| - 1;
      var front := events[..n];
      forall k | 0 <= k < n ensures Fresh(AfterTold(front[..k]), front[k]) {
        assert front[..k] == events[..k];
      }
      RunKeepsTale(front);
      StepKeepsTale(AfterTold(front), events[n]);
    }
  }

  /** The frames a viewer has been sent completely. */
  ghost function Sent(t: Told, i: nat): seq<nat>
    requires TaleOk(t) && i < |t.media.views|
  {
    assert ViewOk(t.story.logs, t.media.views[i], t.story.queued[i]);
    t.story.queued[i][..|t.story.queued[i]| - |t.media.views[i].frames|]
  }

  /** What a viewer has been sent is made of runs of its source. */
  lemma SentInRun(t: Told, i: nat, k: nat)
    requires TaleOk(t) && i < |t.media.views| && k < |Sent(t, i)|
    ensures t.media.views[i].source.Some?
    ensures var log := LogOf(t.story.logs, t.media.views[i].source.value);
      InRun(log, Sent(t, i), k) && Grows(log, t.media.depot.next)
  {
    var v, q := t.media.views[i], t.story.queued[i];
    assert ViewOk(t.story.logs, v, q);
    var log := LogOf(t.story.logs, v.source.value);
    assert InRun(log, q, k);
    var p: nat :| RunPosition(log, q, k, p);
    assert RunPosition(log, Sent(t, i), k, p);
    assert v.source.value in t.story.logs;
  }
}
