/**
 * The media owner: sources keep the frames since their last keyframe, viewers keep a queue, and both
 * hold frames of one depot. Sockets, clocks and the bytes already on their way are not part of the
 * state: what a socket or a timer decides arrives as an event.
 */
module MediaOwner {
  import opened Common
  import opened Bytes
  import opened MediaDepot

  const MAX_GOP: nat := 0x80_0000
  const MAX_GOP_FRAMES: nat := 512
  const MAX_LIVE: nat := 8
  const MAX_VIEWS: nat := 8
  const MAX_SOURCES: nat := 8
  const MAX_KIND: nat := 4

  /** `ready` means the header is still there; an image hands its header to its one viewer. */
  datatype Source = Source(id: nat, token: string, image: bool, ready: bool, gop: seq<nat>, bytes: nat, valid: bool)

  datatype View = View(source: Option<nat>, image: bool, frames: seq<nat>, keyframe: bool)

  datatype Media = Media(sources: seq<Source>, views: seq<View>, depot: Depot)

  const QUIET := Media([], [], EMPTY)

  datatype Event =
    | Register(id: nat, token: string, image: bool)
    | Close(id: nat)
    | Arrive(id: nat, key: bool, bytes: seq<Byte>)
    | Accept
    | Attach(view: nat, source: nat)
    | Pop(view: nat)
    | Drop(view: nat)
    | Prune

  // ---------- who holds what ----------

  function Refs(queues: seq<seq<nat>>): multiset<nat> {
    if |queues| == 0 then multiset{} else Refs(queues[..|queues| - 1]) + multiset(queues[|queues| - 1])
  }

  function Gops(sources: seq<Source>): seq<seq<nat>> {
    seq(|sources|, i requires 0 <= i < |sources| => sources[i].gop)
  }

  function Queues(views: seq<View>): seq<seq<nat>> {
    seq(|views|, i requires 0 <= i < |views| => views[i].frames)
  }

  /** Every occurrence of a frame in a source or a viewer queue. */
  function Holders(m: Media): multiset<nat> {
    Refs(Gops(m.sources)) + Refs(Queues(m.views))
  }

  lemma {:induction false} RefsUpdate(queues: seq<seq<nat>>, i: nat, q: seq<nat>)
    requires i < |queues|
    ensures forall x: nat :: Refs(queues[i := q])[x] + multiset(queues[i])[x] == Refs(queues)[x] + multiset(q)[x]
  {
    var n := |queues| - 1;
    if i == n {
      assert queues[i := q][..n] == queues[..n];
    } else {
      RefsUpdate(queues[..n], i, q);
      assert queues[i := q][..n] == queues[..n][i := q];
    }
  }

  lemma RefsContain(queues: seq<seq<nat>>, i: nat)
    requires i < |queues|
    ensures multiset(queues[i]) <= Refs(queues)
  {
    var none: seq<nat> := [];
    RefsUpdate(queues, i, none);
    forall x: nat ensures multiset(queues[i])[x] <= Refs(queues)[x] {
      assert Refs(queues[i := none])[x] + multiset(queues[i])[x] == Refs(queues)[x] + multiset(none)[x];
    }
  }

  lemma Rebalance(moved: multiset<nat>, front: multiset<nat>, last: multiset<nat>, gone: multiset<nat>, all: multiset<nat>)
    requires moved == front + last && forall x: nat :: moved[x] + gone[x] == all[x] + last[x]
    ensures forall x: nat :: front[x] + gone[x] == all[x]
  {
    forall x: nat ensures front[x] + gone[x] == all[x] {
      assert moved[x] + gone[x] == all[x] + last[x];
    }
  }

  lemma RefsSwapRemove(queues: seq<seq<nat>>, i: nat)
    requires i < |queues|
    ensures forall x: nat :: Refs(SwapRemove(queues, i))[x] + multiset(queues[i])[x] == Refs(queues)[x]
  {
    var n := |queues| - 1;
    var moved := queues[i := queues[n]];
    RefsUpdate(queues, i, queues[n]);
    assert moved == moved[..n] + [queues[n]];
    RefsSnoc(moved[..n], queues[n]);
    Rebalance(Refs(moved), Refs(moved[..n]), multiset(queues[n]), multiset(queues[i]), Refs(queues));
  }

  lemma RefsSnoc(queues: seq<seq<nat>>, q: seq<nat>)
    ensures Refs(queues + [q]) == Refs(queues) + multiset(q)
  {
    assert (queues + [q])[..|queues|] == queues;
  }

  // ---------- operations ----------

  function SourceIndex(sources: seq<Source>, id: nat): (r: Option<nat>)
    ensures r.Some? ==> r.value < |sources| && sources[r.value].id == id
    ensures r.None? ==> forall k :: 0 <= k < |sources| ==> sources[k].id != id
  {
    if |sources| == 0 then None
    else
      var earlier := SourceIndex(sources[..|sources| - 1], id);
      if earlier.Some? then earlier
      else if sources[|sources| - 1].id == id then Some(|sources| - 1)
      else None
  }

  function OfKind(sources: seq<Source>, image: bool): nat {
    if |sources| == 0 then 0
    else OfKind(sources[..|sources| - 1], image) + if sources[|sources| - 1].image == image then 1 else 0
  }

  predicate MayRegister(m: Media, id: nat, token: string, image: bool) {
    && (forall k :: 0 <= k < |m.sources| ==> m.sources[k].id != id && m.sources[k].token != token)
    && |m.sources| < MAX_SOURCES && OfKind(m.sources, image) < MAX_KIND
  }

  function RegisterStep(m: Media, id: nat, token: string, image: bool): Media {
    m.(sources := m.sources + [Source(id, token, image, true, [], 0, false)])
  }

  /** Forget the frames since the last keyframe. */
  function ClearGop(m: Media, j: nat): Media
    requires j < |m.sources|
  {
    var s := m.sources[j];
    m.(sources := m.sources[j := s.(gop := [], bytes := 0, valid := false)], depot := ReleaseAll(m.depot, s.gop))
  }

  function DropView(m: Media, i: nat): Media
    requires i < |m.views|
  {
    m.(views := SwapRemove(m.views, i), depot := ReleaseAll(m.depot, m.views[i].frames))
  }

  /** Remove every viewer of one source, scanning from position i. */
  function CloseViews(m: Media, id: nat, i: nat): Media
    decreases |m.views| - i
  {
    if i >= |m.views| then m
    else if m.views[i].source == Some(id) then CloseViews(DropView(m, i), id, i)
    else CloseViews(m, id, i + 1)
  }

  function DropSource(m: Media, j: nat): Media
    requires j < |m.sources|
  {
    m.(sources := SwapRemove(m.sources, j), depot := ReleaseAll(m.depot, m.sources[j].gop))
  }

  function CloseStep(m: Media, id: nat): Media {
    var closed := CloseViews(m, id, 0);
    match SourceIndex(closed.sources, id)
    case Some(j) => DropSource(closed, j)
    case None => closed
  }

  /** A keyframe starts a new group; a group that would grow too large is given up. */
  function Regroup(m: Media, j: nat, key: bool, size: nat): Media
    requires j < |m.sources|
  {
    var keyed := if key then var c := ClearGop(m, j); c.(sources := c.sources[j := c.sources[j].(valid := true)]) else m;
    if keyed.sources[j].bytes + size > MAX_GOP || |keyed.sources[j].gop| >= MAX_GOP_FRAMES
    then ClearGop(keyed, j) else keyed
  }

  function Enlist(m: Media, j: nat, frame: nat, size: nat): Media
    requires j < |m.sources|
  {
    var s := m.sources[j];
    if !s.valid then m
    else m.(sources := m.sources[j := s.(gop := s.gop + [frame], bytes := s.bytes + size)], depot := Retain(m.depot, frame))
  }

  /** A full viewer waits for the next keyframe; a waiting viewer takes nothing else. */
  function Offer(m: Media, i: nat, id: nat, key: bool, frame: nat): Media
    requires i < |m.views|
  {
    var v := m.views[i];
    if v.source != Some(id) then m
    else if |v.frames| >= MAX_LIVE then m.(views := m.views[i := v.(keyframe := true)])
    else if v.keyframe && !key then m
    else m.(views := m.views[i := v.(frames := v.frames + [frame], keyframe := false)], depot := Retain(m.depot, frame))
  }

  function OfferAll(m: Media, k: nat, id: nat, key: bool, frame: nat): Media
    requires k <= |m.views|
    ensures |OfferAll(m, k, id, key, frame).views| == |m.views|
  {
    if k == 0 then m else Offer(OfferAll(m, k - 1, id, key, frame), k - 1, id, key, frame)
  }

  /** Store the frame, hand it to its group and its viewers, then drop the owner's own hold. */
  function Distribute(m: Media, j: nat, id: nat, key: bool, bytes: seq<Byte>): Media
    requires j < |m.sources|
  {
    var frame := m.depot.next + 1;
    var listed := Enlist(m.(depot := Put(m.depot, bytes)), j, frame, |bytes|);
    var offered := OfferAll(listed, |listed.views|, id, key, frame);
    offered.(depot := Release(offered.depot, frame))
  }

  /** A frame for an unknown source, or one the depot cannot take, closes that source. */
  function ArriveStep(m: Media, id: nat, key: bool, bytes: seq<Byte>): Media {
    match SourceIndex(m.sources, id)
    case None => CloseStep(m, id)
    case Some(j) =>
      var grouped := Regroup(m, j, key, |bytes|);
      if !HasRoom(grouped.depot, bytes) then CloseStep(grouped, id) else Distribute(grouped, j, id, key, bytes)
  }

  /** The frame is taken: its source is known and the depot has room once the group has been renewed. */
  predicate Takes(m: Media, id: nat, key: bool, bytes: seq<Byte>) {
    var j := SourceIndex(m.sources, id);
    j.Some? && HasRoom(Regroup(m, j.value, key, |bytes|).depot, bytes)
  }

  predicate CanAttach(m: Media, i: nat, j: nat) {
    i < |m.views| && j < |m.sources| && m.views[i].source.None? && m.sources[j].ready
  }

  /** A new viewer is seeded with the whole group; an image gives its header away. */
  function AttachStep(m: Media, i: nat, j: nat): Media
    requires CanAttach(m, i, j)
  {
    var v, s := m.views[i], m.sources[j];
    var joined := v.(source := Some(s.id), image := s.image);
    m.(views := m.views[i := if s.valid then joined.(frames := v.frames + s.gop, keyframe := false) else joined],
       sources := m.sources[j := s.(ready := !s.image)],
       depot := if s.valid then RetainAll(m.depot, s.gop) else m.depot)
  }

  function PopStep(m: Media, i: nat): Media
    requires i < |m.views| && |m.views[i].frames| > 0
  {
    var v := m.views[i];
    m.(views := m.views[i := v.(frames := v.frames[1..])], depot := Release(m.depot, v.frames[0]))
  }

  predicate Kept(s: Source) {
    !s.image || s.ready
  }

  function KeptSources(sources: seq<Source>): seq<Source> {
    if |sources| == 0 then []
    else KeptSources(sources[..|sources| - 1]) + if Kept(sources[|sources| - 1]) then [sources[|sources| - 1]] else []
  }

  /** Images whose header has been handed out disappear, without clearing what they hold. */
  function PruneStep(m: Media): Media {
    m.(sources := KeptSources(m.sources))
  }

  function Step(m: Media, e: Event): Media {
    match e
    case Register(id, token, image) =>
      if MayRegister(m, id, token, image) then RegisterStep(m, id, token, image) else CloseStep(m, id)
    case Close(id) => CloseStep(m, id)
    case Arrive(id, key, bytes) => ArriveStep(m, id, key, bytes)
    case Accept => if |m.views| < MAX_VIEWS then m.(views := m.views + [View(None, false, [], true)]) else m
    case Attach(i, j) => if CanAttach(m, i, j) then AttachStep(m, i, j) else m
    case Pop(i) => if i < |m.views| && |m.views[i].frames| > 0 then PopStep(m, i) else m
    case Drop(i) => if i < |m.views| then DropView(m, i) else m
    case Prune => PruneStep(m)
  }
}
