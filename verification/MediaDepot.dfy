/** The frame depot: buffers behind ids, each with a hand-kept reference count. */
module MediaDepot {
  import opened Common
  import opened Bytes

  const MAX_DEPOT: nat := 0x200_0000
  const MAX_FRAMES: nat := 2048

  datatype Frame = Frame(id: nat, bytes: seq<Byte>, refs: nat)

  datatype Depot = Depot(frames: seq<Frame>, bytes: nat, next: nat)

  const EMPTY := Depot([], 0, 0)

  /** The last element takes the place of the removed one. */
  function SwapRemove<T>(s: seq<T>, i: nat): seq<T>
    requires i < |s|
  {
    s[i := s[|s| - 1]][..|s| - 1]
  }

  function Sizes(frames: seq<Frame>): nat {
    if |frames| == 0 then 0 else Sizes(frames[..|frames| - 1]) + |frames[|frames| - 1].bytes|
  }

  function Position(frames: seq<Frame>, id: nat): (r: Option<nat>)
    ensures r.Some? ==> r.value < |frames| && frames[r.value].id == id
    ensures r.None? ==> forall k :: 0 <= k < |frames| ==> frames[k].id != id
  {
    if |frames| == 0 then None
    else
      var earlier := Position(frames[..|frames| - 1], id);
      if earlier.Some? then earlier
      else if frames[|frames| - 1].id == id then Some(|frames| - 1)
      else None
  }

  predicate HasRoom(d: Depot, bytes: seq<Byte>) {
    |bytes| + d.bytes <= MAX_DEPOT && |d.frames| < MAX_FRAMES && d.next + 1 < U64_LIMIT
  }

  function Put(d: Depot, bytes: seq<Byte>): Depot {
    Depot(d.frames + [Frame(d.next + 1, bytes, 1)], d.bytes + |bytes|, d.next + 1)
  }

  function Retain(d: Depot, id: nat): Depot {
    match Position(d.frames, id)
    case None => d
    case Some(i) => d.(frames := d.frames[i := d.frames[i].(refs := d.frames[i].refs + 1)])
  }

  function Release(d: Depot, id: nat): Depot {
    match Position(d.frames, id)
    case None => d
    case Some(i) =>
      if d.frames[i].refs <= 1
      then Depot(SwapRemove(d.frames, i), if d.bytes >= |d.frames[i].bytes| then d.bytes - |d.frames[i].bytes| else 0, d.next)
      else d.(frames := d.frames[i := d.frames[i].(refs := d.frames[i].refs - 1)])
  }

  function ReleaseAll(d: Depot, ids: seq<nat>): Depot {
    if |ids| == 0 then d else Release(ReleaseAll(d, ids[..|ids| - 1]), ids[|ids| - 1])
  }

  function RetainAll(d: Depot, ids: seq<nat>): Depot {
    if |ids| == 0 then d else Retain(RetainAll(d, ids[..|ids| - 1]), ids[|ids| - 1])
  }

  // ---------- counting ----------

  ghost predicate DistinctIds(frames: seq<Frame>) {
    forall i, j :: 0 <= i < j < |frames| ==> frames[i].id != frames[j].id
  }

  ghost predicate Stored(frames: seq<Frame>, id: nat) {
    exists k :: 0 <= k < |frames| && frames[k].id == id
  }

  ghost predicate Counted(frames: seq<Frame>, next: nat, held: multiset<nat>) {
    && DistinctIds(frames)
    && (forall k :: 0 <= k < |frames| ==> 0 < frames[k].id <= next && frames[k].refs == held[frames[k].id] > 0)
  }

  ghost predicate Covers(frames: seq<Frame>, held: multiset<nat>) {
    forall id :: id in held ==> Stored(frames, id)
  }

  /** Every count is the number of holders, nothing is held that is not stored, and the sizes add up. */
  ghost predicate Balanced(d: Depot, held: multiset<nat>) {
    && Counted(d.frames, d.next, held) && Covers(d.frames, held)
    && d.bytes == Sizes(d.frames) <= MAX_DEPOT && |d.frames| <= MAX_FRAMES
  }

  lemma {:induction false} SizesUpdate(frames: seq<Frame>, i: nat, f: Frame)
    requires i < |frames|
    ensures Sizes(frames[i := f]) + |frames[i].bytes| == Sizes(frames) + |f.bytes|
  {
    var n := |frames| - 1;
    if i == n {
      assert frames[i := f][..n] == frames[..n];
    } else {
      SizesUpdate(frames[..n], i, f);
      assert frames[i := f][..n] == frames[..n][i := f];
    }
  }

  lemma SizesSwapRemove(frames: seq<Frame>, i: nat)
    requires i < |frames|
    ensures Sizes(SwapRemove(frames, i)) + |frames[i].bytes| == Sizes(frames)
  {
    var n := |frames| - 1;
    SizesUpdate(frames, i, frames[n]);
    assert frames[i := frames[n]][n] == frames[n];
  }

  lemma SizesSnoc(frames: seq<Frame>, f: Frame)
    ensures Sizes(frames + [f]) == Sizes(frames) + |f.bytes|
  {
    assert (frames + [f])[..|frames|] == frames;
  }

  lemma AppendCounted(frames: seq<Frame>, next: nat, held: multiset<nat>, f: Frame)
    requires Counted(frames, next, held) && Covers(frames, held) && f.id == next + 1 && f.refs == 1
    ensures f.id !in held && Counted(frames + [f], f.id, held + multiset{f.id})
  {
    assert f.id !in held;
  }

  lemma AppendCovers(frames: seq<Frame>, held: multiset<nat>, f: Frame)
    requires Covers(frames, held)
    ensures Covers(frames + [f], held + multiset{f.id})
  {
    var after := frames + [f];
    forall id | id in held + multiset{f.id} ensures Stored(after, id) {
      if id in held {
        var k :| 0 <= k < |frames| && frames[k].id == id;
        assert after[k] == frames[k];
      } else {
        assert after[|frames|].id == id;
      }
    }
  }

  lemma AppendBalanced(d: Depot, held: multiset<nat>, f: Frame)
    requires Balanced(d, held) && f.id == d.next + 1 && f.refs == 1
    requires d.bytes + |f.bytes| <= MAX_DEPOT && |d.frames| < MAX_FRAMES
    ensures Balanced(Depot(d.frames + [f], d.bytes + |f.bytes|, f.id), held + multiset{f.id}) && f.id !in held
  {
    AppendCounted(d.frames, d.next, held, f);
    AppendCovers(d.frames, held, f);
    SizesSnoc(d.frames, f);
  }

  lemma PutBalanced(d: Depot, held: multiset<nat>, bytes: seq<Byte>)
    requires Balanced(d, held) && HasRoom(d, bytes)
    ensures Balanced(Put(d, bytes), held + multiset{d.next + 1}) && d.next + 1 !in held
  {
    var f := Frame(d.next + 1, bytes, 1);
    AppendBalanced(d, held, f);
    assert Put(d, bytes) == Depot(d.frames + [f], d.bytes + |f.bytes|, f.id);
  }

  function Recount(frames: seq<Frame>, i: nat, refs: nat): seq<Frame>
    requires i < |frames|
  {
    frames[i := frames[i].(refs := refs)]
  }

  lemma RecountCounted(frames: seq<Frame>, next: nat, held: multiset<nat>, i: nat, refs: nat)
    requires Counted(frames, next, held) && i < |frames| && refs > 0
    ensures Counted(Recount(frames, i, refs), next, held[frames[i].id := refs])
  {
    var after := Recount(frames, i, refs);
    assert forall k :: 0 <= k < |frames| ==> after[k].id == frames[k].id && (k != i ==> after[k] == frames[k]);
  }

  lemma RecountCovers(frames: seq<Frame>, held: multiset<nat>, i: nat, refs: nat)
    requires Covers(frames, held) && i < |frames| && refs > 0
    ensures Covers(Recount(frames, i, refs), held[frames[i].id := refs])
  {
    var after := Recount(frames, i, refs);
    forall id | id in held[frames[i].id := refs] ensures Stored(after, id) {
      if id == frames[i].id {
        assert after[i].id == id;
      } else {
        assert id in held;
        var k :| 0 <= k < |frames| && frames[k].id == id;
        assert after[k].id == id;
      }
    }
  }

  lemma RetainBalanced(d: Depot, held: multiset<nat>, id: nat)
    requires Balanced(d, held) && id in held
    ensures Balanced(Retain(d, id), held + multiset{id}) && Retain(d, id).next == d.next
  {
    assert Stored(d.frames, id);
    var i := Position(d.frames, id).value;
    var refs := d.frames[i].refs + 1;
    RecountCounted(d.frames, d.next, held, i, refs);
    RecountCovers(d.frames, held, i, refs);
    SizesUpdate(d.frames, i, d.frames[i].(refs := refs));
    assert held[id := refs] == held + multiset{id};
  }

  lemma RemoveCounted(frames: seq<Frame>, next: nat, held: multiset<nat>, i: nat)
    requires Counted(frames, next, held) && i < |frames|
    ensures Counted(SwapRemove(frames, i), next, held[frames[i].id := 0])
  {
    var after, last := SwapRemove(frames, i), |frames| - 1;
    assert forall k :: 0 <= k < |after| ==> after[k] == if k == i then frames[last] else frames[k];
  }

  lemma RemoveCovers(frames: seq<Frame>, held: multiset<nat>, i: nat)
    requires Covers(frames, held) && i < |frames|
    ensures Covers(SwapRemove(frames, i), held[frames[i].id := 0])
  {
    var after := SwapRemove(frames, i);
    forall id | id in held[frames[i].id := 0] ensures Stored(after, id) {
      assert id in held;
      var k :| 0 <= k < |frames| && frames[k].id == id;
      var m := if k == |frames| - 1 then i else k;
      assert after[m] == frames[k];
    }
  }

  lemma ReleaseLast(d: Depot, held: multiset<nat>, i: nat)
    requires Balanced(d, held) && i < |d.frames| && d.frames[i].refs == 1
    ensures d.bytes >= |d.frames[i].bytes|
    ensures Balanced(Depot(SwapRemove(d.frames, i), d.bytes - |d.frames[i].bytes|, d.next), held - multiset{d.frames[i].id})
  {
    RemoveCounted(d.frames, d.next, held, i);
    RemoveCovers(d.frames, held, i);
    SizesSwapRemove(d.frames, i);
    assert held[d.frames[i].id := 0] == held - multiset{d.frames[i].id};
  }

  lemma ReleaseOne(d: Depot, held: multiset<nat>, i: nat, refs: nat)
    requires Balanced(d, held) && i < |d.frames| && d.frames[i].refs == refs + 1 && refs > 0
    ensures Balanced(d.(frames := Recount(d.frames, i, refs)), held - multiset{d.frames[i].id})
  {
    RecountCounted(d.frames, d.next, held, i, refs);
    RecountCovers(d.frames, held, i, refs);
    SizesUpdate(d.frames, i, d.frames[i].(refs := refs));
    assert held[d.frames[i].id := refs] == held - multiset{d.frames[i].id};
  }

  lemma ReleaseBalanced(d: Depot, held: multiset<nat>, id: nat)
    requires Balanced(d, held) && id in held
    ensures Balanced(Release(d, id), held - multiset{id}) && Release(d, id).next == d.next
  {
    assert Stored(d.frames, id);
    var i := Position(d.frames, id).value;
    hide Balanced;
    if d.frames[i].refs <= 1 {
      ReleaseLast(d, held, i);
    } else {
      ReleaseOne(d, held, i, d.frames[i].refs - 1);
    }
  }

  lemma {:induction false} ReleaseAllBalanced(d: Depot, held: multiset<nat>, ids: seq<nat>)
    requires Balanced(d, held) && multiset(ids) <= held
    ensures Balanced(ReleaseAll(d, ids), held - multiset(ids)) && ReleaseAll(d, ids).next == d.next
  {
    if |ids| == 0 {
      assert held - multiset(ids) == held;
    } else {
      var front, last := ids[..|ids| - 1], ids[|ids| - 1];
      assert ids == front + [last];
      ReleaseAllBalanced(d, held, front);
      ReleaseBalanced(ReleaseAll(d, front), held - multiset(front), last);
      assert held - multiset(ids) == held - multiset(front) - multiset{last};
    }
  }

  lemma {:induction false} RetainAllBalanced(d: Depot, held: multiset<nat>, ids: seq<nat>)
    requires Balanced(d, held) && forall k :: 0 <= k < |ids| ==> ids[k] in held
    ensures Balanced(RetainAll(d, ids), held + multiset(ids)) && RetainAll(d, ids).next == d.next
  {
    if |ids| == 0 {
      assert held + multiset(ids) == held;
    } else {
      var front, last := ids[..|ids| - 1], ids[|ids| - 1];
      assert ids == front + [last];
      RetainAllBalanced(d, held, front);
      RetainBalanced(RetainAll(d, front), held + multiset(front), last);
      assert held + multiset(ids) == held + multiset(front) + multiset{last};
    }
  }

  /** Nothing held means nothing stored. */
  lemma NothingHeld(d: Depot)
    requires Balanced(d, multiset{})
    ensures d.frames == [] && d.bytes == 0
  {
    assert forall k :: 0 <= k < |d.frames| ==> d.frames[k].refs == 0;
  }
}
