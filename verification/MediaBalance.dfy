/** In every reachable state the reference counts are the true numbers of holders. */
module MediaBalance {
  import opened Common
  import opened Bytes
  import opened MediaDepot
  import opened MediaOwner

  /** Balanced, with `extra` held by the operation in progress. */
  ghost predicate Holds(m: Media, extra: multiset<nat>) {
    Balanced(m.depot, Holders(m) + extra)
  }

  lemma GopsUpdate(sources: seq<Source>, j: nat, s: Source)
    requires j < |sources|
    ensures Gops(sources[j := s]) == Gops(sources)[j := s.gop]
    ensures forall x: nat ::
      Refs(Gops(sources[j := s]))[x] + multiset(sources[j].gop)[x] == Refs(Gops(sources))[x] + multiset(s.gop)[x]
  {
    assert Gops(sources[j := s]) == Gops(sources)[j := s.gop];
    RefsUpdate(Gops(sources), j, s.gop);
  }

  lemma QueuesUpdate(views: seq<View>, i: nat, v: View)
    requires i < |views|
    ensures Queues(views[i := v]) == Queues(views)[i := v.frames]
    ensures forall x: nat ::
      Refs(Queues(views[i := v]))[x] + multiset(views[i].frames)[x] == Refs(Queues(views))[x] + multiset(v.frames)[x]
  {
    assert Queues(views[i := v]) == Queues(views)[i := v.frames];
    RefsUpdate(Queues(views), i, v.frames);
  }

  lemma GopHeld(m: Media, j: nat)
    requires j < |m.sources|
    ensures multiset(m.sources[j].gop) <= Holders(m)
  {
    RefsContain(Gops(m.sources), j);
  }

  lemma QueueHeld(m: Media, i: nat)
    requires i < |m.views|
    ensures multiset(m.views[i].frames) <= Holders(m)
  {
    RefsContain(Queues(m.views), i);
  }

  /** How the holders change when one source or one view is replaced or removed. */
  lemma HoldersOfSource(m: Media, j: nat, s: Source, m': Media)
    requires j < |m.sources| && m'.sources == m.sources[j := s] && m'.views == m.views
    ensures forall x: nat :: Holders(m')[x] + multiset(m.sources[j].gop)[x] == Holders(m)[x] + multiset(s.gop)[x]
  {
    GopsUpdate(m.sources, j, s);
  }

  lemma HoldersOfView(m: Media, i: nat, v: View, m': Media)
    requires i < |m.views| && m'.views == m.views[i := v] && m'.sources == m.sources
    ensures forall x: nat :: Holders(m')[x] + multiset(m.views[i].frames)[x] == Holders(m)[x] + multiset(v.frames)[x]
  {
    QueuesUpdate(m.views, i, v);
  }

  lemma HoldersWithoutView(m: Media, i: nat, m': Media)
    requires i < |m.views| && m'.views == SwapRemove(m.views, i) && m'.sources == m.sources
    ensures Holders(m') == Holders(m) - multiset(m.views[i].frames)
  {
    assert Queues(SwapRemove(m.views, i)) == SwapRemove(Queues(m.views), i);
    RefsSwapRemove(Queues(m.views), i);
  }

  lemma HoldersWithoutSource(m: Media, j: nat, m': Media)
    requires j < |m.sources| && m'.sources == SwapRemove(m.sources, j) && m'.views == m.views
    ensures Holders(m') == Holders(m) - multiset(m.sources[j].gop)
  {
    assert Gops(SwapRemove(m.sources, j)) == SwapRemove(Gops(m.sources), j);
    RefsSwapRemove(Gops(m.sources), j);
  }

  lemma Less(a: multiset<nat>, b: multiset<nat>, extra: multiset<nat>)
    requires b <= a
    ensures (a - b) + extra == a + extra - b && b <= a + extra
  {
  }

  lemma ClearGopHolds(m: Media, j: nat, extra: multiset<nat>)
    requires j < |m.sources| && Holds(m, extra)
    ensures Holds(ClearGop(m, j), extra)
  {
    var s, m' := m.sources[j], ClearGop(m, j);
    GopHeld(m, j);
    HoldersOfSource(m, j, m'.sources[j], m');
    assert Holders(m') == Holders(m) - multiset(s.gop);
    Less(Holders(m), multiset(s.gop), extra);
    ReleaseAllBalanced(m.depot, Holders(m) + extra, s.gop);
  }

  lemma DropViewHolds(m: Media, i: nat, extra: multiset<nat>)
    requires i < |m.views| && Holds(m, extra)
    ensures Holds(DropView(m, i), extra)
  {
    var v := m.views[i];
    QueueHeld(m, i);
    HoldersWithoutView(m, i, DropView(m, i));
    Less(Holders(m), multiset(v.frames), extra);
    ReleaseAllBalanced(m.depot, Holders(m) + extra, v.frames);
  }

  lemma {:induction false} CloseViewsHolds(m: Media, id: nat, i: nat, extra: multiset<nat>)
    requires Holds(m, extra)
    ensures Holds(CloseViews(m, id, i), extra) && CloseViews(m, id, i).sources == m.sources
    decreases |m.views| - i
  {
    if i < |m.views| {
      if m.views[i].source == Some(id) {
        DropViewHolds(m, i, extra);
        CloseViewsHolds(DropView(m, i), id, i, extra);
      } else {
        CloseViewsHolds(m, id, i + 1, extra);
      }
    }
  }

  lemma DropSourceHolds(m: Media, j: nat, extra: multiset<nat>)
    requires j < |m.sources| && Holds(m, extra)
    ensures Holds(DropSource(m, j), extra)
  {
    var s := m.sources[j];
    GopHeld(m, j);
    HoldersWithoutSource(m, j, DropSource(m, j));
    Less(Holders(m), multiset(s.gop), extra);
    ReleaseAllBalanced(m.depot, Holders(m) + extra, s.gop);
  }

  lemma CloseHolds(m: Media, id: nat, extra: multiset<nat>)
    requires Holds(m, extra)
    ensures Holds(CloseStep(m, id), extra)
  {
    CloseViewsHolds(m, id, 0, extra);
    var closed := CloseViews(m, id, 0);
    var j := SourceIndex(closed.sources, id);
    if j.Some? {
      DropSourceHolds(closed, j.value, extra);
    }
  }

  lemma RegroupHolds(m: Media, j: nat, key: bool, size: nat, extra: multiset<nat>)
    requires j < |m.sources| && Holds(m, extra)
    ensures Holds(Regroup(m, j, key, size), extra) && |Regroup(m, j, key, size).sources| == |m.sources|
  {
    var keyed := m;
    if key {
      ClearGopHolds(m, j, extra);
      var c := ClearGop(m, j);
      keyed := c.(sources := c.sources[j := c.sources[j].(valid := true)]);
      assert Gops(keyed.sources) == Gops(c.sources);
    }
    ClearGopHolds(keyed, j, extra);
  }

  /** One more holder for a frame that is already held. */
  lemma More(m: Media, m': Media, frame: nat)
    requires Holds(m, multiset{frame}) && m'.depot == Retain(m.depot, frame)
    requires Holders(m') == Holders(m) + multiset{frame}
    ensures Holds(m', multiset{frame})
  {
    RetainBalanced(m.depot, Holders(m) + multiset{frame}, frame);
  }

  lemma EnlistHolds(m: Media, j: nat, frame: nat, size: nat)
    requires j < |m.sources| && Holds(m, multiset{frame})
    ensures Holds(Enlist(m, j, frame, size), multiset{frame}) && Enlist(m, j, frame, size).views == m.views
  {
    var s, m' := m.sources[j], Enlist(m, j, frame, size);
    if s.valid {
      HoldersOfSource(m, j, m'.sources[j], m');
      assert multiset(s.gop + [frame]) == multiset(s.gop) + multiset{frame};
      assert Holders(m') == Holders(m) + multiset{frame};
      More(m, m', frame);
    }
  }

  lemma OfferHolders(m: Media, i: nat, id: nat, key: bool, frame: nat)
    requires i < |m.views|
    ensures var v, m' := m.views[i], Offer(m, i, id, key, frame);
      if v.source == Some(id) && |v.frames| < MAX_LIVE && (key || !v.keyframe)
      then Holders(m') == Holders(m) + multiset{frame} && m'.depot == Retain(m.depot, frame)
      else Holders(m') == Holders(m) && m'.depot == m.depot
  {
    var v, m' := m.views[i], Offer(m, i, id, key, frame);
    if v.source == Some(id) && |v.frames| < MAX_LIVE && (key || !v.keyframe) {
      HoldersOfView(m, i, m'.views[i], m');
      assert multiset(v.frames + [frame]) == multiset(v.frames) + multiset{frame};
    } else {
      assert Queues(m'.views) == Queues(m.views);
    }
  }

  lemma OfferHolds(m: Media, i: nat, id: nat, key: bool, frame: nat)
    requires i < |m.views| && Holds(m, multiset{frame})
    ensures Holds(Offer(m, i, id, key, frame), multiset{frame})
  {
    var m' := Offer(m, i, id, key, frame);
    OfferHolders(m, i, id, key, frame);
    if Holders(m') == Holders(m) + multiset{frame} && m'.depot == Retain(m.depot, frame) {
      More(m, m', frame);
    }
  }

  lemma {:induction false} OfferAllHolds(m: Media, k: nat, id: nat, key: bool, frame: nat)
    requires k <= |m.views| && Holds(m, multiset{frame})
    ensures Holds(OfferAll(m, k, id, key, frame), multiset{frame})
    ensures OfferAll(m, k, id, key, frame).sources == m.sources
  {
    hide Holds, Retain;
    if k > 0 {
      OfferAllHolds(m, k - 1, id, key, frame);
      OfferHolds(OfferAll(m, k - 1, id, key, frame), k - 1, id, key, frame);
    }
  }

  lemma StoreHolds(m: Media, bytes: seq<Byte>)
    requires Holds(m, multiset{}) && HasRoom(m.depot, bytes)
    ensures Holds(m.(depot := Put(m.depot, bytes)), multiset{m.depot.next + 1})
  {
    PutBalanced(m.depot, Holders(m) + multiset{}, bytes);
    assert Holders(m) + multiset{} == Holders(m);
  }

  lemma LetGoHolds(m: Media, frame: nat)
    requires Holds(m, multiset{frame})
    ensures Holds(m.(depot := Release(m.depot, frame)), multiset{})
  {
    ReleaseBalanced(m.depot, Holders(m) + multiset{frame}, frame);
    assert Holders(m) + multiset{frame} - multiset{frame} == Holders(m) + multiset{};
  }

  lemma DistributeHolds(m: Media, j: nat, id: nat, key: bool, bytes: seq<Byte>)
    requires j < |m.sources| && Holds(m, multiset{}) && HasRoom(m.depot, bytes)
    ensures Holds(Distribute(m, j, id, key, bytes), multiset{})
  {
    var frame := m.depot.next + 1;
    var stored := m.(depot := Put(m.depot, bytes));
    StoreHolds(m, bytes);
    EnlistHolds(stored, j, frame, |bytes|);
    var listed := Enlist(stored, j, frame, |bytes|);
    OfferAllHolds(listed, |listed.views|, id, key, frame);
    LetGoHolds(OfferAll(listed, |listed.views|, id, key, frame), frame);
  }

  lemma ArriveHolds(m: Media, id: nat, key: bool, bytes: seq<Byte>)
    requires Holds(m, multiset{})
    ensures Holds(ArriveStep(m, id, key, bytes), multiset{})
  {
    var j := SourceIndex(m.sources, id);
    if j.None? {
      CloseHolds(m, id, multiset{});
    } else {
      RegroupHolds(m, j.value, key, |bytes|, multiset{});
      var grouped := Regroup(m, j.value, key, |bytes|);
      if HasRoom(grouped.depot, bytes) {
        DistributeHolds(grouped, j.value, id, key, bytes);
      } else {
        CloseHolds(grouped, id, multiset{});
      }
    }
  }

  lemma AttachHolders(m: Media, i: nat, j: nat)
    requires CanAttach(m, i, j)
    ensures Holders(AttachStep(m, i, j)) == Holders(m) + if m.sources[j].valid then multiset(m.sources[j].gop) else multiset{}
  {
    var v, s, m' := m.views[i], m.sources[j], AttachStep(m, i, j);
    assert Gops(m'.sources) == Gops(m.sources);
    QueuesUpdate(m.views, i, m'.views[i]);
    if s.valid {
      assert multiset(v.frames + s.gop) == multiset(v.frames) + multiset(s.gop);
    } else {
      assert Queues(m'.views) == Queues(m.views);
    }
  }

  lemma AttachHolds(m: Media, i: nat, j: nat)
    requires CanAttach(m, i, j) && Holds(m, multiset{})
    ensures Holds(AttachStep(m, i, j), multiset{})
  {
    var s := m.sources[j];
    AttachHolders(m, i, j);
    GopHeld(m, j);
    assert Holders(m) + multiset{} == Holders(m);
    if s.valid {
      forall k | 0 <= k < |s.gop| ensures s.gop[k] in Holders(m) {
        assert s.gop[k] in multiset(s.gop);
      }
      RetainAllBalanced(m.depot, Holders(m), s.gop);
      assert Holders(AttachStep(m, i, j)) + multiset{} == Holders(m) + multiset(s.gop);
    }
  }

  lemma PopHolders(m: Media, i: nat)
    requires i < |m.views| && |m.views[i].frames| > 0
    ensures Holders(PopStep(m, i)) == Holders(m) - multiset{m.views[i].frames[0]} && m.views[i].frames[0] in Holders(m)
  {
    var v, m' := m.views[i], PopStep(m, i);
    QueueHeld(m, i);
    HoldersOfView(m, i, m'.views[i], m');
    assert v.frames == [v.frames[0]] + v.frames[1..];
    assert multiset(v.frames) == multiset{v.frames[0]} + multiset(v.frames[1..]);
  }

  lemma PopHolds(m: Media, i: nat)
    requires i < |m.views| && |m.views[i].frames| > 0 && Holds(m, multiset{})
    ensures Holds(PopStep(m, i), multiset{})
    // the frame at the head of a queue is always there to be written
    ensures Stored(m.depot.frames, m.views[i].frames[0])
  {
    var first := m.views[i].frames[0];
    PopHolders(m, i);
    assert Holders(m) + multiset{} == Holders(m);
    ReleaseBalanced(m.depot, Holders(m), first);
    assert Holders(PopStep(m, i)) + multiset{} == Holders(m) - multiset{first};
  }

  ghost predicate SpentHoldNothing(sources: seq<Source>) {
    forall k :: 0 <= k < |sources| && !Kept(sources[k]) ==> sources[k].gop == []
  }

  lemma {:induction false} KeptRefs(sources: seq<Source>)
    ensures Refs(Gops(KeptSources(sources))) <= Refs(Gops(sources))
    ensures Refs(Gops(KeptSources(sources))) == Refs(Gops(sources)) <==> SpentHoldNothing(sources)
  {
    if |sources| > 0 {
      var front, last := sources[..|sources| - 1], sources[|sources| - 1];
      KeptRefs(front);
      SpentSnoc(front, last);
      assert sources == front + [last];
      KeptSnoc(front, last);
    }
  }

  lemma SpentSnoc(front: seq<Source>, last: Source)
    ensures SpentHoldNothing(front + [last]) <==> SpentHoldNothing(front) && (!Kept(last) ==> last.gop == [])
  {
    var all := front + [last];
    assert all[|front|] == last;
    assert forall k :: 0 <= k < |front| ==> all[k] == front[k];
  }

  lemma GopsSnoc(front: seq<Source>, last: Source)
    ensures Refs(Gops(front + [last])) == Refs(Gops(front)) + multiset(last.gop)
  {
    assert Gops(front + [last]) == Gops(front) + [last.gop];
    RefsSnoc(Gops(front), last.gop);
  }

  lemma KeptSourcesSnoc(front: seq<Source>, last: Source)
    ensures KeptSources(front + [last]) == if Kept(last) then KeptSources(front) + [last] else KeptSources(front)
  {
    assert (front + [last])[..|front|] == front;
  }

  lemma KeptSnoc(front: seq<Source>, last: Source)
    requires Refs(Gops(KeptSources(front))) <= Refs(Gops(front))
    ensures var kept, all := Refs(Gops(KeptSources(front + [last]))), Refs(Gops(front + [last]));
      kept <= all
      && (kept == all <==> Refs(Gops(KeptSources(front))) == Refs(Gops(front)) && (!Kept(last) ==> last.gop == []))
  {
    var kept, all, own := Refs(Gops(KeptSources(front))), Refs(Gops(front)), multiset(last.gop);
    GopsSnoc(front, last);
    KeptSourcesSnoc(front, last);
    if Kept(last) {
      GopsSnoc(KeptSources(front), last);
      MultisetCancel(kept, all, own);
    } else {
      Dropped(kept, all, own);
      assert last.gop != [] ==> last.gop[0] in own;
    }
  }

  lemma Dropped(kept: multiset<nat>, all: multiset<nat>, own: multiset<nat>)
    requires kept <= all
    ensures kept <= all + own && (kept == all + own <==> kept == all && own == multiset{})
  {
    if kept == all + own {
      forall x: nat ensures own[x] == 0 {
        assert kept[x] == (all + own)[x];
      }
    }
  }

  lemma MultisetCancel(a: multiset<nat>, b: multiset<nat>, c: multiset<nat>)
    ensures a + c == b + c <==> a == b
    ensures a <= b ==> a + c <= b + c
  {
    if a + c == b + c {
      assert a == (a + c) - c;
      assert b == (b + c) - c;
    }
  }

  /** Dropping spent images keeps the counts true exactly when none of them still holds a frame. */
  lemma PruneExact(m: Media)
    requires Holds(m, multiset{})
    ensures Holds(PruneStep(m), multiset{}) <==> SpentHoldNothing(m.sources)
  {
    KeptRefs(m.sources);
    var m' := PruneStep(m);
    if Holds(m', multiset{}) {
      SameDepotSameHolders(m.depot, Holders(m) + multiset{}, Holders(m') + multiset{});
      MultisetCancel(Refs(Gops(m'.sources)), Refs(Gops(m.sources)), Refs(Queues(m.views)));
      assert Holders(m) == Holders(m') by {
        assert Holders(m) + multiset{} == Holders(m);
        assert Holders(m') + multiset{} == Holders(m');
      }
    }
  }

  lemma SameDepotSameHolders(d: Depot, a: multiset<nat>, b: multiset<nat>)
    requires Balanced(d, a) && Balanced(d, b)
    ensures a == b
  {
    forall id ensures a[id] == b[id] {
      if id in a || id in b {
        assert Stored(d.frames, id);
        var k :| 0 <= k < |d.frames| && d.frames[k].id == id;
        assert d.frames[k].refs == a[id] && d.frames[k].refs == b[id];
      }
    }
  }

  // ---------- whole runs ----------

  ghost predicate UniqueSources(sources: seq<Source>) {
    forall i, j :: 0 <= i < j < |sources| ==> sources[i].id != sources[j].id
  }

  /** No image source holds a frame. */
  ghost predicate ImagesHoldNothing(sources: seq<Source>) {
    forall k :: 0 <= k < |sources| && sources[k].image ==> sources[k].gop == []
  }

  ghost predicate Inv(m: Media) {
    Holds(m, multiset{}) && ImagesHoldNothing(m.sources)
  }

  /** Frames are only sent for video sources. */
  ghost predicate Proper(m: Media, e: Event) {
    e.Arrive? && SourceIndex(m.sources, e.id).Some? ==> !m.sources[SourceIndex(m.sources, e.id).value].image
  }

  lemma {:induction false} CloseViewsSources(m: Media, id: nat, i: nat)
    ensures CloseViews(m, id, i).sources == m.sources
    decreases |m.views| - i
  {
    if i < |m.views| {
      if m.views[i].source == Some(id) {
        CloseViewsSources(DropView(m, i), id, i);
      } else {
        CloseViewsSources(m, id, i + 1);
      }
    }
  }

  lemma CloseImages(m: Media, id: nat)
    requires ImagesHoldNothing(m.sources)
    ensures ImagesHoldNothing(CloseStep(m, id).sources)
  {
    CloseViewsSources(m, id, 0);
    var closed := CloseViews(m, id, 0);
    var j := SourceIndex(closed.sources, id);
    if j.Some? {
      var after, n := SwapRemove(m.sources, j.value), |m.sources| - 1;
      assert forall k :: 0 <= k < |after| ==> after[k] == if k == j.value then m.sources[n] else m.sources[k];
    }
  }

  lemma {:induction false} OfferAllSources(m: Media, k: nat, id: nat, key: bool, frame: nat)
    requires k <= |m.views|
    ensures OfferAll(m, k, id, key, frame).sources == m.sources
  {
    if k > 0 {
      OfferAllSources(m, k - 1, id, key, frame);
    }
  }

  lemma RegroupImages(m: Media, j: nat, key: bool, size: nat)
    requires j < |m.sources| && ImagesHoldNothing(m.sources) && !m.sources[j].image
    ensures var g := Regroup(m, j, key, size);
      j < |g.sources| && ImagesHoldNothing(g.sources) && !g.sources[j].image
  {
  }

  lemma DistributeImages(m: Media, j: nat, id: nat, key: bool, bytes: seq<Byte>)
    requires j < |m.sources| && ImagesHoldNothing(m.sources) && !m.sources[j].image
    ensures ImagesHoldNothing(Distribute(m, j, id, key, bytes).sources)
  {
    var frame := m.depot.next + 1;
    var listed := Enlist(m.(depot := Put(m.depot, bytes)), j, frame, |bytes|);
    OfferAllSources(listed, |listed.views|, id, key, frame);
  }

  lemma ArriveImages(m: Media, id: nat, key: bool, bytes: seq<Byte>)
    requires ImagesHoldNothing(m.sources) && Proper(m, Arrive(id, key, bytes))
    ensures ImagesHoldNothing(ArriveStep(m, id, key, bytes).sources)
  {
    var j := SourceIndex(m.sources, id);
    if j.None? {
      CloseImages(m, id);
    } else {
      RegroupImages(m, j.value, key, |bytes|);
      var grouped := Regroup(m, j.value, key, |bytes|);
      if HasRoom(grouped.depot, bytes) {
        DistributeImages(grouped, j.value, id, key, bytes);
      } else {
        CloseImages(grouped, id);
      }
    }
  }

  lemma {:induction false} KeptImages(sources: seq<Source>)
    requires ImagesHoldNothing(sources)
    ensures ImagesHoldNothing(KeptSources(sources))
  {
    if |sources| > 0 {
      KeptImages(sources[..|sources| - 1]);
    }
  }

  lemma AcceptHolds(m: Media, v: View)
    requires Holds(m, multiset{}) && v.frames == []
    ensures Holds(m.(views := m.views + [v]), multiset{})
  {
    assert Queues(m.views + [v]) == Queues(m.views) + [v.frames];
    RefsSnoc(Queues(m.views), v.frames);
    assert multiset(v.frames) == multiset{};
    assert Holders(m.(views := m.views + [v])) == Holders(m);
  }

  lemma RegisterHolds(m: Media, id: nat, token: string, image: bool)
    requires Holds(m, multiset{})
    ensures Holds(RegisterStep(m, id, token, image), multiset{})
  {
    var s := Source(id, token, image, true, [], 0, false);
    GopsSnoc(m.sources, s);
    assert multiset(s.gop) == multiset{};
    assert Holders(RegisterStep(m, id, token, image)) == Holders(m);
  }

  lemma ImagesSpent(sources: seq<Source>)
    requires ImagesHoldNothing(sources)
    ensures SpentHoldNothing(sources)
  {
  }

  lemma StepHolds(m: Media, e: Event)
    requires Inv(m) && Proper(m, e)
    ensures Holds(Step(m, e), multiset{})
  {
    hide Holds, RegisterStep, CloseStep, ArriveStep, AttachStep, PopStep, DropView, PruneStep, MayRegister, CanAttach,
      ImagesHoldNothing, SpentHoldNothing;
    match e
    case Register(id, token, image) =>
      RegisterHolds(m, id, token, image);
      CloseHolds(m, id, multiset{});
    case Close(id) => CloseHolds(m, id, multiset{});
    case Arrive(id, key, bytes) => ArriveHolds(m, id, key, bytes);
    case Accept => AcceptHolds(m, View(None, false, [], true));
    case Attach(i, j) =>
      if CanAttach(m, i, j) {
        AttachHolds(m, i, j);
      }
    case Pop(i) =>
      if i < |m.views| && |m.views[i].frames| > 0 {
        PopHolds(m, i);
      }
    case Drop(i) =>
      if i < |m.views| {
        DropViewHolds(m, i, multiset{});
      }
    case Prune =>
      ImagesSpent(m.sources);
      PruneExact(m);
  }

  lemma StepImages(m: Media, e: Event)
    requires ImagesHoldNothing(m.sources) && Proper(m, e)
    ensures ImagesHoldNothing(Step(m, e).sources)
  {
    hide CloseStep, ArriveStep, MayRegister, KeptSources;
    match e
    case Register(id, token, image) => CloseImages(m, id);
    case Close(id) => CloseImages(m, id);
    case Arrive(id, key, bytes) => ArriveImages(m, id, key, bytes);
    case Accept =>
    case Attach(i, j) =>
    case Pop(i) =>
    case Drop(i) =>
    case Prune => KeptImages(m.sources);
  }

  lemma StepKeepsInv(m: Media, e: Event)
    requires Inv(m) && Proper(m, e)
    ensures Inv(Step(m, e))
  {
    hide Step, Holds, ImagesHoldNothing, Proper;
    StepHolds(m, e);
    StepImages(m, e);
  }

  function After(events: seq<Event>): Media {
    if |events| == 0 then QUIET else Step(After(events[..|events| - 1]), events[|events| - 1])
  }

  ghost predicate ProperRun(events: seq<Event>) {
    forall n :: 0 <= n < |events| ==> Proper(After(events[..n]), events[n])
  }

  lemma {:induction false} RunKeepsInv(events: seq<Event>)
    requires ProperRun(events)
    ensures Inv(After(events))
  {
    if |events| == 0 {
      assert Holders(QUIET) + multiset{} == multiset{};
    } else {
      var n := |events| - 1;
      var front := events[..n];
      forall k | 0 <= k < n ensures Proper(After(front[..k]), front[k]) {
        assert front[..k] == events[..k];
      }
      RunKeepsInv(front);
      StepKeepsInv(After(front), events[n]);
    }
  }

  /**
   * In every run that sends frames to video sources only, each stored frame's count is the number of
   * times it occurs in groups and queues, the byte total is exact and bounded, and once all sources and
   * viewers are gone the depot is empty.
   */
  lemma CountsAreTrue(events: seq<Event>)
    requires ProperRun(events)
    ensures var m := After(events);
      && (forall k :: 0 <= k < |m.depot.frames| ==>
        m.depot.frames[k].refs == Holders(m)[m.depot.frames[k].id] > 0)
      && (forall id :: id in Holders(m) ==> Stored(m.depot.frames, id))
      && m.depot.bytes == Sizes(m.depot.frames) <= MAX_DEPOT
      && (m.sources == [] && m.views == [] ==> m.depot.frames == [] && m.depot.bytes == 0)
  {
    RunKeepsInv(events);
    var m := After(events);
    assert Holders(m) + multiset{} == Holders(m);
    if m.sources == [] && m.views == [] {
      assert Holders(m) == multiset{};
      NothingHeld(m.depot);
    }
  }

  /** The failing family: an image whose header was handed out takes the frames it holds with it for good. */
  lemma SpentImageLeaks(m: Media, j: nat)
    requires Holds(m, multiset{}) && j < |m.sources| && !Kept(m.sources[j]) && m.sources[j].gop != []
    ensures !Holds(PruneStep(m), multiset{})
  {
    PruneExact(m);
  }

  /** An image source before its first frame, and with one frame in its group. */
  function Image(id: nat, token: string, ready: bool): Source {
    Source(id, token, true, ready, [], 0, false)
  }

  function HoldingImage(id: nat, token: string, ready: bool, size: nat): Source {
    Source(id, token, true, ready, [1], size, true)
  }

  function OneFrame(bytes: seq<Byte>, refs: nat): Depot {
    Depot([Frame(1, bytes, refs)], |bytes|, 1)
  }

  function Watching(id: nat): View {
    View(Some(id), true, [1], false)
  }

  const NEWCOMER := View(None, false, [], true)

  /**
   * Such runs, for every id, token and frame that fits a group: a keyframe for an image stays in the depot
   * with nobody left to release it.
   */
  lemma ImageFrameStays(id: nat, token: string, bytes: seq<Byte>)
    requires |bytes| <= MAX_GOP
    ensures After(LeakyRun(id, token, bytes)) == Media([], [], OneFrame(bytes, 1))
  {
    hide After, Step;
    var e := LeakyRun(id, token, bytes);
    var empty, full, spent := Image(id, token, true), HoldingImage(id, token, true, |bytes|), HoldingImage(id, token, false, |bytes|);
    NothingYet();
    FirstSource(id, token);
    ByStep([], Register(id, token, true), QUIET, Media([empty], [], EMPTY));
    FirstFrame(id, token, bytes);
    ByStep(e[..1], e[1], Media([empty], [], EMPTY), Media([full], [], OneFrame(bytes, 1)));
    FirstWaiting(full, bytes);
    ByStep(e[..2], e[2], Media([full], [], OneFrame(bytes, 1)), Media([full], [NEWCOMER], OneFrame(bytes, 1)));
    FirstViewer(id, token, bytes);
    ByStep(e[..3], e[3], Media([full], [NEWCOMER], OneFrame(bytes, 1)), Media([spent], [Watching(id)], OneFrame(bytes, 2)));
    SpentImageGoes(id, token, bytes);
    ByStep(e[..4], e[4], Media([spent], [Watching(id)], OneFrame(bytes, 2)), Media([], [Watching(id)], OneFrame(bytes, 2)));
    LastViewer(id, bytes);
    ByStep(e[..5], e[5], Media([], [Watching(id)], OneFrame(bytes, 2)), Media([], [], OneFrame(bytes, 1)));
    assert e == e[..5] + [e[5]];
  }

  lemma NothingYet()
    ensures After([]) == QUIET
  {
  }

  lemma FirstSource(id: nat, token: string)
    ensures Step(QUIET, Register(id, token, true)) == Media([Image(id, token, true)], [], EMPTY)
  {
  }

  lemma FirstWaiting(s: Source, bytes: seq<Byte>)
    ensures Step(Media([s], [], OneFrame(bytes, 1)), Accept) == Media([s], [NEWCOMER], OneFrame(bytes, 1))
  {
  }

  lemma SpentImageGoes(id: nat, token: string, bytes: seq<Byte>)
    ensures var spent := HoldingImage(id, token, false, |bytes|);
      Step(Media([spent], [Watching(id)], OneFrame(bytes, 2)), Prune) == Media([], [Watching(id)], OneFrame(bytes, 2))
  {
    var sources := [HoldingImage(id, token, false, |bytes|)];
    assert KeptSources(sources[..0]) == [];
    assert KeptSources(sources) == [];
  }

  function LeakyRun(id: nat, token: string, bytes: seq<Byte>): (e: seq<Event>)
    ensures |e| == 6 && e[..1] == [] + [e[0]] && e[..2] == e[..1] + [e[1]] && e[..3] == e[..2] + [e[2]]
      && e[..4] == e[..3] + [e[3]] && e[..5] == e[..4] + [e[4]]
  {
    [Register(id, token, true), Arrive(id, true, bytes), Accept, Attach(0, 0), Prune, Drop(0)]
  }

  lemma ByStep(events: seq<Event>, e: Event, before: Media, after: Media)
    requires After(events) == before && Step(before, e) == after
    ensures After(events + [e]) == after
  {
    assert (events + [e])[..|events|] == events;
  }

  lemma FirstFrame(id: nat, token: string, bytes: seq<Byte>)
    requires |bytes| <= MAX_GOP
    ensures Step(Media([Image(id, token, true)], [], EMPTY), Arrive(id, true, bytes))
      == Media([HoldingImage(id, token, true, |bytes|)], [], OneFrame(bytes, 1))
  {
    hide Distribute, Regroup;
    assert SourceIndex([Image(id, token, true)], id) == Some(0);
    FirstGroup(id, token, |bytes|);
    FirstListed(id, token, bytes);
  }

  lemma FirstGroup(id: nat, token: string, size: nat)
    requires size <= MAX_GOP
    ensures Regroup(Media([Image(id, token, true)], [], EMPTY), 0, true, size)
      == Media([Image(id, token, true).(valid := true)], [], EMPTY)
  {
  }

  lemma FirstListed(id: nat, token: string, bytes: seq<Byte>)
    ensures Distribute(Media([Image(id, token, true).(valid := true)], [], EMPTY), 0, id, true, bytes)
      == Media([HoldingImage(id, token, true, |bytes|)], [], OneFrame(bytes, 1))
  {
    var g := Media([Image(id, token, true).(valid := true)], [], EMPTY);
    var put := g.(depot := Put(g.depot, bytes));
    assert put.depot == OneFrame(bytes, 1);
    assert Position(put.depot.frames, 1) == Some(0);
    var listed := Enlist(put, 0, 1, |bytes|);
    assert listed.depot == OneFrame(bytes, 2);
    assert [] + [1] == [1];
    assert listed.sources == [HoldingImage(id, token, true, |bytes|)];
    assert Position(listed.depot.frames, 1) == Some(0);
    assert OfferAll(listed, 0, id, true, 1) == listed;
  }

  lemma FirstViewer(id: nat, token: string, bytes: seq<Byte>)
    ensures Step(Media([HoldingImage(id, token, true, |bytes|)], [NEWCOMER], OneFrame(bytes, 1)), Attach(0, 0))
      == Media([HoldingImage(id, token, false, |bytes|)], [Watching(id)], OneFrame(bytes, 2))
  {
    var d := OneFrame(bytes, 1);
    assert [1][..0] == [];
    assert RetainAll(d, [1]) == Retain(RetainAll(d, []), 1);
    assert Position(d.frames, 1) == Some(0);
    assert Retain(d, 1) == OneFrame(bytes, 2);
    assert [] + [1] == [1];
  }

  lemma LastViewer(id: nat, bytes: seq<Byte>)
    ensures Step(Media([], [Watching(id)], OneFrame(bytes, 2)), Drop(0)) == Media([], [], OneFrame(bytes, 1))
  {
    var d := OneFrame(bytes, 2);
    assert [1][..0] == [];
    assert ReleaseAll(d, [1]) == Release(ReleaseAll(d, []), 1);
    assert Position(d.frames, 1) == Some(0);
    assert Release(d, 1) == OneFrame(bytes, 1);
  }
}
