/** The depot and the media owner as mutable objects, proved against MediaDepot and MediaOwner. */
module MediaService {
  import opened Common
  import opened Bytes
  import opened MediaDepot
  import opened MediaOwner

  class Store {
    var frames: seq<Frame>
    var bytes: nat
    var next: nat

    ghost function View(): Depot
      reads this
    {
      Depot(frames, bytes, next)
    }

    constructor ()
      ensures View() == EMPTY
    {
      frames, bytes, next := [], 0, 0;
    }

    method PutFrame(data: seq<Byte>) returns (r: Option<nat>)
      modifies this
      ensures r.Some? <==> HasRoom(old(View()), data)
      ensures r.Some? ==> r.value == next && View() == Put(old(View()), data)
      ensures r.None? ==> View() == old(View())
    {
      if |data| + bytes > MAX_DEPOT || |frames| >= MAX_FRAMES {
        return None;
      }
      if next + 1 >= U64_LIMIT {
        return None;
      }
      var id := next + 1;
      bytes := bytes + |data|;
      frames := frames + [Frame(id, data, 1)];
      next := id;
      return Some(id);
    }

    /** The first frame with this id. */
    method Find(id: nat) returns (r: Option<nat>)
      ensures r == Position(frames, id)
    {
      for i := 0 to |frames|
        invariant Position(frames[..i], id) == None
      {
        assert frames[..i + 1][..i] == frames[..i];
        if frames[i].id == id {
          PositionFirst(frames, id, i);
          return Some(i);
        }
      }
      assert frames[..|frames|] == frames;
      return None;
    }

    method RetainFrame(id: nat) returns (found: bool)
      modifies this`frames
      ensures View() == Retain(old(View()), id)
      ensures found <==> Stored(old(frames), id)
    {
      var at := Find(id);
      if at.None? {
        return false;
      }
      frames := frames[at.value := frames[at.value].(refs := frames[at.value].refs + 1)];
      return true;
    }

    /** The last release takes the frame out of the depot. */
    method ReleaseFrame(id: nat)
      modifies this
      ensures View() == Release(old(View()), id)
    {
      var at := Find(id);
      if at.Some? {
        var f := frames[at.value];
        if f.refs <= 1 {
          frames := SwapRemove(frames, at.value);
          bytes := if bytes >= |f.bytes| then bytes - |f.bytes| else 0;
        } else {
          frames := frames[at.value := f.(refs := f.refs - 1)];
        }
      }
    }

    method ReleaseFrames(ids: seq<nat>)
      modifies this
      ensures View() == ReleaseAll(old(View()), ids)
    {
      for k := 0 to |ids|
        invariant View() == ReleaseAll(old(View()), ids[..k])
      {
        assert ids[..k + 1][..k] == ids[..k];
        ReleaseFrame(ids[k]);
      }
      assert ids[..|ids|] == ids;
    }

    method RetainFrames(ids: seq<nat>)
      modifies this`frames
      ensures View() == RetainAll(old(View()), ids)
    {
      for k := 0 to |ids|
        invariant View() == RetainAll(old(View()), ids[..k])
      {
        assert ids[..k + 1][..k] == ids[..k];
        var found := RetainFrame(ids[k]);
      }
      assert ids[..|ids|] == ids;
    }
  }

  lemma {:induction false} PositionFirst(frames: seq<Frame>, id: nat, i: nat)
    requires i < |frames| && frames[i].id == id && Position(frames[..i], id) == None
    ensures Position(frames, id) == Some(i)
  {
    if i < |frames| - 1 {
      var front := frames[..|frames| - 1];
      assert front[..i] == frames[..i];
      PositionFirst(front, id, i);
    } else {
      assert frames[..|frames| - 1] == frames[..i];
    }
  }

  lemma {:induction false} SourceFirst(sources: seq<Source>, id: nat, i: nat)
    requires i < |sources| && sources[i].id == id && SourceIndex(sources[..i], id) == None
    ensures SourceIndex(sources, id) == Some(i)
  {
    if i < |sources| - 1 {
      var front := sources[..|sources| - 1];
      assert front[..i] == sources[..i];
      SourceFirst(front, id, i);
    } else {
      assert sources[..|sources| - 1] == sources[..i];
    }
  }

  class Owner {
    var sources: seq<Source>
    var views: seq<View>
    const depot: Store

    ghost function View(): Media
      reads this, depot
    {
      Media(sources, views, depot.View())
    }

    constructor ()
      ensures View() == QUIET && fresh(depot)
    {
      sources, views := [], [];
      depot := new Store();
    }

    method FindSource(id: nat) returns (r: Option<nat>)
      ensures r == SourceIndex(sources, id)
    {
      for i := 0 to |sources|
        invariant SourceIndex(sources[..i], id) == None
      {
        assert sources[..i + 1][..i] == sources[..i];
        if sources[i].id == id {
          SourceFirst(sources, id, i);
          return Some(i);
        }
      }
      assert sources[..|sources|] == sources;
      return None;
    }

    method Clear(j: nat)
      requires j < |sources|
      modifies this`sources, depot
      ensures View() == ClearGop(old(View()), j)
    {
      depot.ReleaseFrames(sources[j].gop);
      sources := sources[j := sources[j].(gop := [], bytes := 0, valid := false)];
    }

    method RemoveView(i: nat)
      requires i < |views|
      modifies this`views, depot
      ensures View() == DropView(old(View()), i)
    {
      depot.ReleaseFrames(views[i].frames);
      views := SwapRemove(views, i);
    }

    /** Close a source with all its viewers. */
    method CloseSource(id: nat)
      modifies this, depot
      ensures View() == CloseStep(old(View()), id)
    {
      var i := 0;
      while i < |views|
        invariant CloseViews(View(), id, i) == CloseViews(old(View()), id, 0)
        decreases |views| - i
      {
        if views[i].source == Some(id) {
          RemoveView(i);
        } else {
          i := i + 1;
        }
      }
      var j := FindSource(id);
      if j.Some? {
        depot.ReleaseFrames(sources[j.value].gop);
        sources := SwapRemove(sources, j.value);
      }
    }

    method Count(image: bool) returns (n: nat)
      ensures n == OfKind(sources, image)
    {
      n := 0;
      for i := 0 to |sources|
        invariant n == OfKind(sources[..i], image)
      {
        assert sources[..i + 1][..i] == sources[..i];
        if sources[i].image == image {
          n := n + 1;
        }
      }
      assert sources[..|sources|] == sources;
    }

    method RegisterSource(id: nat, token: string, image: bool) returns (ok: bool)
      modifies this, depot
      ensures ok <==> MayRegister(old(View()), id, token, image)
      ensures View() == Step(old(View()), Register(id, token, image))
    {
      var kind := Count(image);
      if (exists k :: 0 <= k < |sources| && (sources[k].id == id || sources[k].token == token))
        || |sources| >= MAX_SOURCES || kind >= MAX_KIND
      {
        CloseSource(id);
        return false;
      }
      sources := sources + [Source(id, token, image, true, [], 0, false)];
      return true;
    }

    /** A frame from the plugin, with its keyframe flag. */
    method Frame(id: nat, key: bool, bytes: seq<Byte>) returns (ok: bool)
      modifies this, depot
      ensures View() == ArriveStep(old(View()), id, key, bytes)
      ensures ok <==> Takes(old(View()), id, key, bytes)
    {
      var j := FindSource(id);
      if j.None? {
        CloseSource(id);
        return false;
      }
      StartGroup(j.value, key, |bytes|);
      var frame := depot.PutFrame(bytes);
      if frame.None? {
        CloseSource(id);
        return false;
      }
      HandOut(j.value, id, key, frame.value, |bytes|);
      return true;
    }

    method StartGroup(j: nat, key: bool, size: nat)
      requires j < |sources|
      modifies this`sources, depot
      ensures View() == Regroup(old(View()), j, key, size)
    {
      if key {
        Clear(j);
        sources := sources[j := sources[j].(valid := true)];
      }
      if sources[j].bytes + size > MAX_GOP || |sources[j].gop| >= MAX_GOP_FRAMES {
        Clear(j);
      }
    }

    method HandOut(j: nat, id: nat, key: bool, frame: nat, size: nat)
      requires j < |sources|
      modifies this, depot
      ensures View() ==
        var listed := Enlist(old(View()), j, frame, size);
        var offered := OfferAll(listed, |listed.views|, id, key, frame);
        offered.(depot := Release(offered.depot, frame))
    {
      if sources[j].valid {
        var found := depot.RetainFrame(frame);
        sources := sources[j := sources[j].(gop := sources[j].gop + [frame], bytes := sources[j].bytes + size)];
      }
      ghost var listed := View();
      assert listed == Enlist(old(View()), j, frame, size);
      for i := 0 to |views|
        invariant |views| == |listed.views| && View() == OfferAll(listed, i, id, key, frame)
      {
        OfferTo(i, id, key, frame);
      }
      depot.ReleaseFrame(frame);
    }

    method OfferTo(i: nat, id: nat, key: bool, frame: nat)
      requires i < |views|
      modifies this`views, depot
      ensures View() == Offer(old(View()), i, id, key, frame)
    {
      var v := views[i];
      if v.source != Some(id) {
        return;
      }
      if |v.frames| >= MAX_LIVE {
        views := views[i := v.(keyframe := true)];
        return;
      }
      if v.keyframe && !key {
        return;
      }
      var found := depot.RetainFrame(frame);
      views := views[i := v.(frames := v.frames + [frame], keyframe := false)];
    }

    method Welcome()
      modifies this`views
      ensures View() == Step(old(View()), Accept)
    {
      if |views| < MAX_VIEWS {
        views := views + [MediaOwner.View.View(None, false, [], true)];
      }
    }

    /** A request named source j: the viewer joins it and is seeded with its group. */
    method Join(i: nat, j: nat)
      requires CanAttach(View(), i, j)
      modifies this, depot
      ensures View() == AttachStep(old(View()), i, j)
    {
      var s := sources[j];
      var joined := views[i].(source := Some(s.id), image := s.image);
      sources := sources[j := s.(ready := !s.image)];
      if s.valid {
        depot.RetainFrames(s.gop);
        joined := joined.(frames := views[i].frames + s.gop, keyframe := false);
      }
      views := views[i := joined];
    }

    /** The frame at the head has been written completely. */
    method FrameWritten(i: nat)
      requires i < |views| && |views[i].frames| > 0
      modifies this`views, depot
      ensures View() == PopStep(old(View()), i)
    {
      var v := views[i];
      views := views[i := v.(frames := v.frames[1..])];
      depot.ReleaseFrame(v.frames[0]);
    }

    method PruneImages()
      modifies this`sources
      ensures View() == PruneStep(old(View()))
    {
      var kept := [];
      for i := 0 to |sources|
        invariant kept == KeptSources(sources[..i])
      {
        assert sources[..i + 1][..i] == sources[..i];
        if Kept(sources[i]) {
          kept := kept + [sources[i]];
        }
      }
      assert sources[..|sources|] == sources;
      sources := kept;
    }
  }
}
