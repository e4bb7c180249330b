/** How large groups and queues get: the byte count of a group is the size of what was sent, and both are bounded. */
module MediaBounds {
  import opened Common
  import opened Bytes
  import opened MediaDepot
  import opened MediaOwner
  import opened MediaBalance
  import opened MediaBytes

  /** The size of these frames as they were sent. */
  function SizeOf(ids: seq<nat>, mail: Mail): nat {
    if |ids| == 0 then 0
    else
      var last := ids[|ids| - 1];
      SizeOf(ids[..|ids| - 1], mail) + if last in mail then |mail[last]| else 0
  }

  ghost predicate GroupOk(s: Source, mail: Mail) {
    && (forall id :: id in s.gop ==> id in mail)
    && s.bytes == SizeOf(s.gop, mail) <= MAX_GOP && |s.gop| <= MAX_GOP_FRAMES && (s.valid || s.gop == [])
  }

  /** A viewer that has not joined has nothing queued, and no queue is longer than a group. */
  ghost predicate QueueOk(v: View) {
    |v.frames| <= MAX_GOP_FRAMES && (v.source.None? ==> v.frames == [])
  }

  ghost predicate Bounded(m: Media, mail: Mail) {
    && (forall j :: 0 <= j < |m.sources| ==> GroupOk(m.sources[j], mail))
    && (forall i :: 0 <= i < |m.views| ==> QueueOk(m.views[i]))
  }

  lemma {:induction false} SizeOfWider(ids: seq<nat>, mail: Mail, id: nat, bytes: seq<Byte>)
    requires id !in mail && forall x :: x in ids ==> x in mail
    ensures SizeOf(ids, mail[id := bytes]) == SizeOf(ids, mail)
  {
    if |ids| > 0 {
      assert ids[|ids| - 1] in ids;
      SizeOfWider(ids[..|ids| - 1], mail, id, bytes);
    }
  }

  lemma BoundedWider(m: Media, mail: Mail, id: nat, bytes: seq<Byte>)
    requires Bounded(m, mail) && id !in mail
    ensures Bounded(m, mail[id := bytes])
  {
    hide SizeOf;
    forall j | 0 <= j < |m.sources| ensures GroupOk(m.sources[j], mail[id := bytes]) {
      SizeOfWider(m.sources[j].gop, mail, id, bytes);
    }
  }

  lemma {:induction false} CloseViewsBounded(m: Media, id: nat, i: nat, mail: Mail)
    requires Bounded(m, mail)
    ensures Bounded(CloseViews(m, id, i), mail)
    decreases |m.views| - i
  {
    hide GroupOk, QueueOk, ReleaseAll;
    if i < |m.views| {
      if m.views[i].source == Some(id) {
        DropViewBounded(m, i, mail);
        CloseViewsBounded(DropView(m, i), id, i, mail);
      } else {
        CloseViewsBounded(m, id, i + 1, mail);
      }
    }
  }

  lemma DropViewBounded(m: Media, i: nat, mail: Mail)
    requires Bounded(m, mail) && i < |m.views|
    ensures Bounded(DropView(m, i), mail)
  {
    hide GroupOk, QueueOk, ReleaseAll;
  }

  lemma CloseBounded(m: Media, id: nat, mail: Mail)
    requires Bounded(m, mail)
    ensures Bounded(CloseStep(m, id), mail)
  {
    hide GroupOk, QueueOk, ReleaseAll, CloseViews;
    CloseViewsBounded(m, id, 0, mail);
  }

  lemma ClearBounded(m: Media, j: nat, mail: Mail)
    requires Bounded(m, mail) && j < |m.sources|
    ensures var c := ClearGop(m, j);
      && Bounded(c, mail) && c.sources[j].gop == [] && c.sources[j].bytes == 0 && !c.sources[j].valid
      && |c.sources| == |m.sources| && Bounded(c.(sources := c.sources[j := c.sources[j].(valid := true)]), mail)
  {
    hide QueueOk, ReleaseAll;
  }

  /** After the group is renewed a valid one has room for the frame. */
  lemma RegroupBounded(m: Media, j: nat, key: bool, size: nat, mail: Mail)
    requires Bounded(m, mail) && j < |m.sources|
    ensures var g := Regroup(m, j, key, size);
      && Bounded(g, mail) && |g.sources| == |m.sources|
      && (g.sources[j].valid ==> g.sources[j].bytes + size <= MAX_GOP && |g.sources[j].gop| < MAX_GOP_FRAMES)
  {
    hide Bounded;
    ClearBounded(m, j, mail);
    var keyed := if key then var c := ClearGop(m, j); c.(sources := c.sources[j := c.sources[j].(valid := true)]) else m;
    ClearBounded(keyed, j, mail);
  }

  lemma EnlistBounded(m: Media, j: nat, frame: nat, bytes: seq<Byte>, mail: Mail)
    requires Bounded(m, mail) && j < |m.sources| && frame in mail && mail[frame] == bytes
    requires m.sources[j].valid ==> m.sources[j].bytes + |bytes| <= MAX_GOP && |m.sources[j].gop| < MAX_GOP_FRAMES
    ensures Bounded(Enlist(m, j, frame, |bytes|), mail)
  {
    hide GroupOk, QueueOk, Retain;
    if m.sources[j].valid {
      GroupGrows(m.sources[j], frame, bytes, mail);
    }
  }

  lemma GroupGrows(s: Source, frame: nat, bytes: seq<Byte>, mail: Mail)
    requires GroupOk(s, mail) && frame in mail && mail[frame] == bytes && s.valid
    requires s.bytes + |bytes| <= MAX_GOP && |s.gop| < MAX_GOP_FRAMES
    ensures GroupOk(s.(gop := s.gop + [frame], bytes := s.bytes + |bytes|), mail)
  {
    assert (s.gop + [frame])[..|s.gop|] == s.gop;
  }

  lemma {:induction false} OfferAllBounded(m: Media, k: nat, id: nat, key: bool, frame: nat, mail: Mail)
    requires k <= |m.views| && Bounded(m, mail)
    ensures Bounded(OfferAll(m, k, id, key, frame), mail)
  {
    hide GroupOk, Retain;
    if k > 0 {
      OfferAllBounded(m, k - 1, id, key, frame, mail);
    }
  }

  lemma DistributeBounded(m: Media, j: nat, id: nat, key: bool, bytes: seq<Byte>, mail: Mail)
    requires Bounded(m, mail) && j < |m.sources| && m.depot.next + 1 !in mail
    requires m.sources[j].valid ==> m.sources[j].bytes + |bytes| <= MAX_GOP && |m.sources[j].gop| < MAX_GOP_FRAMES
    ensures Bounded(Distribute(m, j, id, key, bytes), mail[m.depot.next + 1 := bytes])
  {
    hide GroupOk, QueueOk, Retain, Release;
    var frame, wider := m.depot.next + 1, mail[m.depot.next + 1 := bytes];
    BoundedWider(m, mail, frame, bytes);
    var put := m.(depot := Put(m.depot, bytes));
    EnlistBounded(put, j, frame, bytes, wider);
    var listed := Enlist(put, j, frame, |bytes|);
    OfferAllBounded(listed, |listed.views|, id, key, frame, wider);
  }

  lemma ArriveBounded(m: Media, id: nat, key: bool, bytes: seq<Byte>, mail: Mail)
    requires Bounded(m, mail) && Unaltered(m.depot, mail)
    ensures Bounded(ArriveStep(m, id, key, bytes), if Takes(m, id, key, bytes) then mail[m.depot.next + 1 := bytes] else mail)
  {
    hide Bounded, CloseStep, Distribute, Regroup;
    var j := SourceIndex(m.sources, id);
    if j.None? {
      CloseBounded(m, id, mail);
    } else {
      var grouped := Regroup(m, j.value, key, |bytes|);
      RegroupBounded(m, j.value, key, |bytes|, mail);
      RegroupUnaltered(m, j.value, key, |bytes|, mail);
      if HasRoom(grouped.depot, bytes) {
        DistributeBounded(grouped, j.value, id, key, bytes, mail);
      } else {
        CloseBounded(grouped, id, mail);
      }
    }
  }

  lemma {:induction false} KeptBounded(sources: seq<Source>, mail: Mail)
    requires forall j :: 0 <= j < |sources| ==> GroupOk(sources[j], mail)
    ensures forall j :: 0 <= j < |KeptSources(sources)| ==> GroupOk(KeptSources(sources)[j], mail)
  {
    hide GroupOk;
    if |sources| > 0 {
      KeptBounded(sources[..|sources| - 1], mail);
    }
  }

  lemma StepBounded(m: Media, e: Event, mail: Mail)
    requires Bounded(m, mail) && Unaltered(m.depot, mail)
    ensures Bounded(Step(m, e), Mailed(m, e, mail))
  {
    hide CloseStep, ArriveStep, Takes, ReleaseAll, RetainAll;
    match e
    case Register(id, _, _) => CloseBounded(m, id, mail);
    case Close(id) => CloseBounded(m, id, mail);
    case Arrive(id, key, bytes) => ArriveBounded(m, id, key, bytes, mail);
    case Drop(i) =>
      if i < |m.views| {
        DropViewBounded(m, i, mail);
      }
    case Prune => KeptBounded(m.sources, mail);
    case Attach(_, _) =>
    case Pop(_) =>
    case Accept =>
  }

  /**
   * In every run the byte count of a group is the size of its frames as they were sent, at most 8 MiB in at
   * most 512 frames, and no viewer has more than 512 frames to be sent.
   */
  lemma {:induction false} GroupsStayBounded(events: seq<Event>)
    ensures Bounded(After(events), Taken(events))
  {
    if |events| > 0 {
      hide Bounded, Step, Mailed, Unaltered;
      var front := events[..|events| - 1];
      GroupsStayBounded(front);
      StoredAsSent(front);
      StepBounded(After(front), events[|events| - 1], Taken(front));
    }
  }
}
