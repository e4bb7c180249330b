/**
 * The app channel end to end: a bounded queue of packets written in arbitrary pieces, a byte stream
 * that arrives in arbitrary pieces, and the frames the receiving end makes of it.
 */
module AppChannel {
  import opened Bytes
  import opened FrameStream

  const MAX_OUTPUT: nat := 0x40_0000
  const MAX_PACKETS: nat := 64

  datatype Sender = Sender(outgoing: seq<seq<Byte>>, offset: nat, queued: nat)

  const SILENT := Sender([], 0, 0)

  function Total(packets: seq<seq<Byte>>): nat {
    if |packets| == 0 then 0 else |packets[0]| + Total(packets[1..])
  }

  /** The bytes accepted but not written yet. */
  ghost function Unsent(s: Sender): seq<Byte>
    requires s.offset <= |Flat(s.outgoing)|
  {
    Flat(s.outgoing)[s.offset..]
  }

  ghost predicate SenderOk(s: Sender) {
    && s.queued == Total(s.outgoing) <= MAX_OUTPUT && |s.outgoing| <= MAX_PACKETS
    && (forall k :: 0 <= k < |s.outgoing| ==> |s.outgoing[k]| > 0)
    && (if s.outgoing == [] then s.offset == 0 else s.offset < |s.outgoing[0]|)
  }

  predicate Fits(s: Sender, packet: seq<Byte>) {
    |packet| + s.queued <= MAX_OUTPUT && |s.outgoing| < MAX_PACKETS
  }

  function QueueStep(s: Sender, packet: seq<Byte>): Sender {
    if Fits(s, packet) then s.(outgoing := s.outgoing + [packet], queued := s.queued + |packet|) else s
  }

  /** How much of the first packet one write of at most n bytes takes. */
  function Taken(s: Sender, n: nat): nat {
    if s.outgoing == [] || s.offset > |s.outgoing[0]| then 0
    else if n < |s.outgoing[0]| - s.offset then n
    else |s.outgoing[0]| - s.offset
  }

  function WriteStep(s: Sender, n: nat): Sender {
    var m := Taken(s, n);
    if m == 0 then s
    else if s.offset + m == |s.outgoing[0]| then
      Sender(s.outgoing[1..], 0, if s.queued >= |s.outgoing[0]| then s.queued - |s.outgoing[0]| else 0)
    else s.(offset := s.offset + m)
  }

  function Written(s: Sender, n: nat): seq<Byte> {
    if Taken(s, n) == 0 then [] else s.outgoing[0][s.offset..s.offset + Taken(s, n)]
  }

  lemma FirstOfFlat(packets: seq<seq<Byte>>)
    requires |packets| > 0
    ensures Flat(packets) == packets[0] + Flat(packets[1..])
  {
  }

  lemma {:induction false} FlatSnoc(packets: seq<seq<Byte>>, p: seq<Byte>)
    ensures Flat(packets + [p]) == Flat(packets) + p && Total(packets + [p]) == Total(packets) + |p|
  {
    if |packets| == 0 {
      assert packets + [p] == [p];
      assert [p][1..] == [];
    } else {
      FlatSnoc(packets[1..], p);
      assert (packets + [p])[1..] == packets[1..] + [p];
    }
  }

  lemma QueueKeeps(s: Sender, packet: seq<Byte>)
    requires SenderOk(s) && |packet| > 0
    ensures SenderOk(QueueStep(s, packet))
    ensures s.offset <= |Flat(s.outgoing)| && QueueStep(s, packet).offset <= |Flat(QueueStep(s, packet).outgoing)|
    ensures Unsent(QueueStep(s, packet)) == Unsent(s) + if Fits(s, packet) then packet else []
  {
    FlatSnoc(s.outgoing, packet);
    OffsetFits(s);
    OffsetFits(QueueStep(s, packet));
  }

  lemma OffsetFits(s: Sender)
    requires SenderOk(s)
    ensures s.offset <= |Flat(s.outgoing)|
  {
  }

  /** A write moves bytes from unsent to the wire, in order and without loss. */
  lemma WriteKeeps(s: Sender, n: nat)
    requires SenderOk(s)
    ensures SenderOk(WriteStep(s, n)) && s.offset <= |Flat(s.outgoing)|
    ensures WriteStep(s, n).offset <= |Flat(WriteStep(s, n).outgoing)|
    ensures Written(s, n) + Unsent(WriteStep(s, n)) == Unsent(s)
  {
    OffsetFits(s);
    var m := Taken(s, n);
    if m > 0 {
      FirstOfFlat(s.outgoing);
      var head, rest := s.outgoing[0], Flat(s.outgoing[1..]);
      assert Unsent(s) == head[s.offset..] + rest;
      if s.offset + m == |head| {
        assert Flat(s.outgoing[1..])[0..] == rest;
        assert head[s.offset..s.offset + m] == head[s.offset..];
      } else {
        assert head[s.offset..] == head[s.offset..s.offset + m] + head[s.offset + m..];
        assert Unsent(WriteStep(s, n)) == head[s.offset + m..] + rest;
      }
      OffsetFits(WriteStep(s, n));
    }
  }

  // ---------- the whole channel ----------

  datatype Channel = Channel(sender: Sender, accepted: seq<seq<Byte>>, wire: seq<Byte>, read: nat)

  datatype Event = Queue(body: seq<Byte>) | Write(n: nat) | Arrive(n: nat)

  function Step(c: Channel, e: Event): Channel {
    match e
    case Queue(body) =>
      if !BodyOk(body) || !Fits(c.sender, EncodeFrame(body).value) then c
      else c.(sender := QueueStep(c.sender, EncodeFrame(body).value), accepted := c.accepted + [body])
    case Write(n) => c.(sender := WriteStep(c.sender, n), wire := c.wire + Written(c.sender, n))
    case Arrive(n) => c.(read := if c.read + n < |c.wire| then c.read + n else |c.wire|)
  }

  function After(events: seq<Event>): Channel {
    if |events| == 0 then Channel(SILENT, [], [], 0) else Step(After(events[..|events| - 1]), events[|events| - 1])
  }

  /** What the receiving end has made of the bytes that arrived. */
  function Received(c: Channel): Drained
    requires c.read <= |c.wire|
  {
    Drain(false, c.wire[..c.read])
  }

  ghost predicate Inv(c: Channel) {
    && SenderOk(c.sender) && c.read <= |c.wire| && c.sender.offset <= |Flat(c.sender.outgoing)|
    && (forall k :: 0 <= k < |c.accepted| ==> BodyOk(c.accepted[k]))
    && c.wire + Unsent(c.sender) == Framed(c.accepted)
  }

  lemma {:induction false} FramedSnoc(bodies: seq<seq<Byte>>, body: seq<Byte>)
    requires (forall k :: 0 <= k < |bodies| ==> BodyOk(bodies[k])) && BodyOk(body)
    ensures Framed(bodies + [body]) == Framed(bodies) + EncodeFrame(body).value
  {
    if |bodies| == 0 {
      assert bodies + [body] == [body];
      assert [body][1..] == [];
    } else {
      FramedSnoc(bodies[1..], body);
      assert (bodies + [body])[1..] == bodies[1..] + [body];
    }
  }

  lemma StepKeepsInv(c: Channel, e: Event)
    requires Inv(c)
    ensures Inv(Step(c, e))
  {
    hide SenderOk, Flat, Unsent, Framed, Written, WriteStep;
    match e
    case Queue(body) =>
      if BodyOk(body) && Fits(c.sender, EncodeFrame(body).value) {
        var packet := EncodeFrame(body).value;
        QueueKeeps(c.sender, packet);
        FramedSnoc(c.accepted, body);
        assert c.wire + (Unsent(c.sender) + packet) == (c.wire + Unsent(c.sender)) + packet;
      }
    case Write(n) =>
      WriteKeeps(c.sender, n);
      assert (c.wire + Written(c.sender, n)) + Unsent(WriteStep(c.sender, n))
        == c.wire + (Written(c.sender, n) + Unsent(WriteStep(c.sender, n)));
    case Arrive(n) =>
  }

  lemma {:induction false} ChannelKeepsInv(events: seq<Event>)
    ensures Inv(After(events))
  {
    if |events| > 0 {
      ChannelKeepsInv(events[..|events| - 1]);
      StepKeepsInv(After(events[..|events| - 1]), events[|events| - 1]);
    } else {
      assert Flat([]) == [];
    }
  }

  /** The first frame is over the greeting limit, though the queue took it. */
  predicate LargeGreeting(c: Channel) {
    |c.accepted| > 0 && |c.accepted[0]| > MAX_GREETING
  }

  lemma WirePrefix(c: Channel)
    requires Inv(c)
    ensures c.read <= |Framed(c.accepted)| && c.wire[..c.read] == Framed(c.accepted)[..c.read]
    ensures c.sender.outgoing == [] ==> c.wire == Framed(c.accepted)
  {
    assert c.wire == Framed(c.accepted)[..|c.wire|];
  }

  /** The header of a large greeting is all the receiver needs to refuse it. */
  lemma LargeGreetingDrains(c: Channel)
    requires Inv(c) && LargeGreeting(c)
    ensures Received(c).frames == [] && (Received(c).poisoned <==> c.read >= 4)
  {
    WirePrefix(c);
    var body := c.accepted[0];
    FrameHeader(body);
    if c.read >= 4 {
      assert c.wire[..c.read][..4] == EncodeFrame(body).value[..4];
    }
  }

  /**
   * Whatever the pattern of partial writes and reads, the frames received are a prefix of the frames
   * queued, unchanged and in order, and the byte count of the queue is exact. The receiver refuses the
   * stream exactly when the header of a first frame over the greeting limit has arrived; once everything
   * was written and has arrived, all frames have been received exactly when there is no such frame.
   */
  lemma FramesArriveInOrder(events: seq<Event>)
    ensures var c := After(events);
      && c.read <= |c.wire|
      && Received(c).frames <= c.accepted
      && (Received(c).poisoned <==> c.read >= 4 && LargeGreeting(c))
      && c.sender.queued == Total(c.sender.outgoing) <= MAX_OUTPUT
      && (c.sender.outgoing == [] && c.read == |c.wire| ==>
        (Received(c).frames == c.accepted && Received(c).rest == [] <==> !LargeGreeting(c)))
  {
    var c := After(events);
    ChannelKeepsInv(events);
    WirePrefix(c);
    if LargeGreeting(c) {
      LargeGreetingDrains(c);
    } else {
      PrefixDrains(false, c.accepted, c.read);
    }
  }

  lemma {:induction false} FirstStays(body: seq<Byte>, more: seq<Event>)
    requires BodyOk(body) && 4 + |body| <= MAX_OUTPUT
    ensures var c := After([Queue(body)] + more); |c.accepted| > 0 && c.accepted[0] == body
    decreases |more|
  {
    var events := [Queue(body)] + more;
    if |more| == 0 {
      FrameHeader(body);
      assert events == [Queue(body)] && events[..0] == [];
      assert After(events[..0]) == Channel(SILENT, [], [], 0);
      assert After(events) == Step(After(events[..0]), events[0]);
    } else {
      var front := more[..|more| - 1];
      assert events[..|events| - 1] == [Queue(body)] + front;
      FirstStays(body, front);
    }
  }

  /**
   * The failing family: a greeting over its own limit that fits the queue is accepted by the sender, and in
   * every run that begins with it the receiver never delivers a frame and refuses the stream with the
   * fourth byte it reads.
   */
  lemma LargeGreetingRefused(body: seq<Byte>, more: seq<Event>)
    requires MAX_GREETING < |body| && 4 + |body| <= MAX_OUTPUT
    ensures var c := After([Queue(body)] + more);
      && |c.accepted| > 0 && c.accepted[0] == body
      && c.read <= |c.wire| && Received(c).frames == [] && (Received(c).poisoned <==> c.read >= 4)
  {
    FirstStays(body, more);
    ChannelKeepsInv([Queue(body)] + more);
    LargeGreetingDrains(After([Queue(body)] + more));
  }

  /** Such a run: queue it, write it, let its header arrive. */
  lemma LargeGreetingRun(body: seq<Byte>)
    requires MAX_GREETING < |body| && 4 + |body| <= MAX_OUTPUT
    ensures var c := After([Queue(body)] + [Write(4 + |body|), Arrive(4)]);
      c.read == 4 <= |c.wire| && c.accepted == [body] && c.sender.outgoing == [] && Received(c).poisoned
  {
    var e := EncodeFrame(body).value;
    var events := [Queue(body)] + [Write(4 + |body|), Arrive(4)];
    FrameHeader(body);
    assert events[..3] == events && events[..3][..2] == events[..2] && events[..2][..1] == events[..1] && events[..1][..0] == [];
    var queued := Channel(Sender([e], 0, |e|), [body], [], 0);
    assert After(events[..1]) == queued by {
      assert After(events[..1][..0]) == Channel(SILENT, [], [], 0);
      assert [] + [e] == [e] && [] + [body] == [body];
    }
    var written := Channel(Sender([], 0, 0), [body], e, 0);
    assert After(events[..2]) == written by {
      assert After(events[..2]) == Step(queued, Write(4 + |body|));
      assert [e][0][0..|e|] == e && [e][1..] == [];
    }
    assert After(events) == Step(written, Arrive(4));
    hide After;
    LargeGreetingRefused(body, [Write(4 + |body|), Arrive(4)]);
  }

  // ---------- the sending end ----------

  datatype Attempt = Pending | Wrote(n: nat) | Broken

  function Amount(a: Attempt): nat {
    if a.Wrote? then a.n else 0
  }

  /** The sender after the first k answers of the socket. */
  ghost function Writes(s: Sender, answer: nat -> Attempt, k: nat): Sender {
    if k == 0 then s else WriteStep(Writes(s, answer, k - 1), Amount(answer(k - 1)))
  }

  /** What those answers put on the wire. */
  ghost function Sent(s: Sender, answer: nat -> Attempt, k: nat): seq<Byte> {
    if k == 0 then [] else Sent(s, answer, k - 1) + Written(Writes(s, answer, k - 1), Amount(answer(k - 1)))
  }

  /** Something waits in this round and the socket takes some of it. */
  ghost predicate Goes(s: Sender, answer: nat -> Attempt, k: nat) {
    Writes(s, answer, k).outgoing != [] && answer(k).Wrote? && Taken(Writes(s, answer, k), answer(k).n) > 0
  }

  /** Something waits in this round and the socket is broken or closed. */
  ghost predicate Fails(s: Sender, answer: nat -> Attempt, k: nat) {
    Writes(s, answer, k).outgoing != [] && !answer(k).Pending? && !Goes(s, answer, k)
  }

  /** A flush goes on for this many rounds: to the first that takes nothing, and at most 64. */
  ghost predicate Lasts(s: Sender, answer: nat -> Attempt, rounds: nat) {
    && rounds <= MAX_PACKETS && GoesUntil(s, answer, rounds)
    && (rounds < MAX_PACKETS ==> !Goes(s, answer, rounds))
  }

  ghost predicate GoesUntil(s: Sender, answer: nat -> Attempt, rounds: nat) {
    forall k :: 0 <= k < rounds ==> Goes(s, answer, k)
  }

  lemma {:induction false} WritesKeep(s: Sender, answer: nat -> Attempt, k: nat)
    requires SenderOk(s)
    ensures var end := Writes(s, answer, k);
      && SenderOk(end) && s.offset <= |Flat(s.outgoing)| && end.offset <= |Flat(end.outgoing)|
      && Sent(s, answer, k) + Unsent(end) == Unsent(s)
  {
    hide Flat, Unsent, Written, WriteStep, SenderOk;
    OffsetFits(s);
    if k > 0 {
      WritesKeep(s, answer, k - 1);
      WriteKeeps(Writes(s, answer, k - 1), Amount(answer(k - 1)));
    }
  }

  /** A packet whose rest is taken in full leaves the queue, and its bytes no longer count. */
  lemma FullWriteLeaves(s: Sender, n: nat)
    requires SenderOk(s) && s.outgoing != []
    ensures (n >= |s.outgoing[0]| - s.offset ==>
      WriteStep(s, n) == Sender(s.outgoing[1..], 0, s.queued - |s.outgoing[0]|) && Written(s, n) == s.outgoing[0][s.offset..])
    ensures (0 < n < |s.outgoing[0]| - s.offset ==>
      WriteStep(s, n) == s.(offset := s.offset + n) && Written(s, n) == s.outgoing[0][s.offset..s.offset + n])
  {
  }

  lemma {:induction false} WideWrites(s: Sender, answer: nat -> Attempt, k: nat)
    requires SenderOk(s) && k <= |s.outgoing| && forall r: nat :: answer(r).Wrote? && answer(r).n >= MAX_OUTPUT
    ensures SenderOk(Writes(s, answer, k)) && Writes(s, answer, k).outgoing == s.outgoing[k..]
    ensures k < |s.outgoing| ==> Goes(s, answer, k)
  {
    if k > 0 {
      WideWrites(s, answer, k - 1);
      var before := Writes(s, answer, k - 1);
      WriteKeeps(before, answer(k - 1).n);
      FullWriteLeaves(before, answer(k - 1).n);
    }
  }

  /** A socket that takes all it is offered empties the queue in one flush, a round for each packet, and everything is sent. */
  lemma WideSocketEmpties(s: Sender, answer: nat -> Attempt)
    requires SenderOk(s) && forall r: nat :: answer(r).Wrote? && answer(r).n >= MAX_OUTPUT
    ensures Lasts(s, answer, |s.outgoing|) && Writes(s, answer, |s.outgoing|) == SILENT && !Fails(s, answer, |s.outgoing|)
    ensures s.offset <= |Flat(s.outgoing)| && Sent(s, answer, |s.outgoing|) == Unsent(s)
  {
    var n := |s.outgoing|;
    WideWrites(s, answer, n);
    WritesKeep(s, answer, n);
    assert Flat([]) == [];
    forall k | 0 <= k < n ensures Goes(s, answer, k) {
      WideWrites(s, answer, k);
    }
  }

  /** The write events of a flush. */
  ghost function WriteEvents(answer: nat -> Attempt, k: nat): seq<Event> {
    if k == 0 then [] else WriteEvents(answer, k - 1) + [Write(Amount(answer(k - 1)))]
  }

  /** A flush is a stretch of a run of the channel, so what holds of every run holds after it. */
  lemma {:induction false} FlushIsRun(events: seq<Event>, answer: nat -> Attempt, k: nat)
    ensures var c := After(events);
      After(events + WriteEvents(answer, k))
      == c.(sender := Writes(c.sender, answer, k), wire := c.wire + Sent(c.sender, answer, k))
  {
    hide WriteStep, Written, After;
    var c := After(events);
    if k == 0 {
      assert events + [] == events && c.wire + [] == c.wire;
    } else {
      FlushIsRun(events, answer, k - 1);
      AfterWrite(events + WriteEvents(answer, k - 1), Amount(answer(k - 1)));
      assert events + WriteEvents(answer, k) == events + WriteEvents(answer, k - 1) + [Write(Amount(answer(k - 1)))];
    }
  }

  lemma AfterWrite(events: seq<Event>, n: nat)
    ensures var c := After(events);
      After(events + [Write(n)]) == c.(sender := WriteStep(c.sender, n), wire := c.wire + Written(c.sender, n))
  {
    hide WriteStep, Written;
    assert (events + [Write(n)])[..|events|] == events;
  }

  /** One more round that takes something. */
  lemma GoesOn(s: Sender, answer: nat -> Attempt, k: nat)
    requires GoesUntil(s, answer, k) && Goes(s, answer, k)
    ensures GoesUntil(s, answer, k + 1) && Writes(s, answer, k + 1) == WriteStep(Writes(s, answer, k), Amount(answer(k)))
  {
    hide Goes, WriteStep;
  }

  class Connection {
    var outgoing: seq<seq<Byte>>
    var offset: nat
    var queued: nat

    ghost function View(): Sender
      reads this
    {
      Sender(outgoing, offset, queued)
    }

    constructor ()
      ensures View() == SILENT
    {
      outgoing, offset, queued := [], 0, 0;
    }

    method Queue(packet: seq<Byte>) returns (ok: bool)
      requires SenderOk(View()) && |packet| > 0
      modifies this
      ensures ok <==> Fits(old(View()), packet)
      ensures View() == QueueStep(old(View()), packet)
    {
      if |packet| > MAX_OUTPUT - queued {
        return false;
      }
      if |outgoing| >= MAX_PACKETS {
        return false;
      }
      outgoing := outgoing + [packet];
      queued := queued + |packet|;
      return true;
    }

    /** Takes up to n bytes off the first packet, and the packet off the queue when it is through. */
    method TakeFirst(n: nat) returns (some: bool)
      requires SenderOk(View()) && outgoing != []
      modifies this
      ensures View() == WriteStep(old(View()), n) && (some <==> Taken(old(View()), n) > 0)
    {
      var first := outgoing[0];
      var written := if n < |first| - offset then n else |first| - offset;
      offset := offset + written;
      if offset == |first| {
        queued := queued - |first|;
        offset := 0;
        outgoing := outgoing[1..];
      }
      return written > 0;
    }

    /** At most 64 writes, up to the first that takes nothing; it fails exactly when that one is broken or closed. */
    method Flush(answer: nat -> Attempt) returns (ok: bool, ghost rounds: nat, ghost sent: seq<Byte>)
      requires SenderOk(View())
      modifies this
      ensures Lasts(old(View()), answer, rounds) && View() == Writes(old(View()), answer, rounds)
      ensures ok <==> !(rounds < MAX_PACKETS && Fails(old(View()), answer, rounds))
      ensures sent == Sent(old(View()), answer, rounds)
      ensures SenderOk(View()) && old(View()).offset <= |Flat(old(View()).outgoing)|
      ensures View().offset <= |Flat(View().outgoing)| && sent + Unsent(View()) == Unsent(old(View()))
    {
      ghost var start := View();
      assert start == Writes(start, answer, 0) && GoesUntil(start, answer, 0);
      hide Flat, Unsent, Written, WriteStep, SenderOk, Writes, GoesUntil, Taken;
      ok, rounds := true, 0;
      for round := 0 to MAX_PACKETS
        invariant ok && rounds == round && View() == Writes(start, answer, round) && GoesUntil(start, answer, round)
      {
        if outgoing == [] {
          break;
        }
        match answer(round) {
          case Broken =>
            ok := false;
            break;
          case Pending => break;
          case Wrote(n) =>
            WritesKeep(start, answer, round);
            ok := TakeFirst(n);
            if !ok {
              NothingTaken(Writes(start, answer, round), n);
              break;
            }
            GoesOn(start, answer, round);
            rounds := rounds + 1;
        }
      }
      sent := Sent(start, answer, rounds);
      WritesKeep(start, answer, rounds);
    }
  }

  lemma NothingTaken(s: Sender, n: nat)
    requires Taken(s, n) == 0
    ensures WriteStep(s, n) == s
  {
  }
}
