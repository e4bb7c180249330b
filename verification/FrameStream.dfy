/** Length-prefixed frames on a byte stream: what a stream means, independent of how it arrives. */
module FrameStream {
  import opened Common
  import opened Bytes

  const MAX_FRAME: nat := 0x80_0000
  const MAX_GREETING: nat := 0x4_0000

  /** The limit for the next frame: the first one is a greeting. */
  function Limit(greeted: bool): nat {
    if greeted then MAX_FRAME else MAX_GREETING
  }

  predicate SizeOk(size: nat, limit: nat) {
    0 < size <= limit && size <= MAX_FRAME
  }

  /** The frames complete so far, the bytes held back, and whether a length was refused. */
  datatype Drained = Drained(frames: seq<seq<Byte>>, rest: seq<Byte>, poisoned: bool)

  function Drain(greeted: bool, s: seq<Byte>): Drained
    decreases |s|
  {
    if |s| < 4 then Drained([], s, false)
    else
      var size := FromBe(s[..4]);
      if !SizeOk(size, Limit(greeted)) then Drained([], [], true)
      else if |s| < 4 + size then Drained([], s, false)
      else
        var later := Drain(true, s[4 + size..]);
        Drained([s[4..4 + size]] + later.frames, later.rest, later.poisoned)
  }

  /** The whole first frame is there. */
  ghost predicate HasFrame(greeted: bool, s: seq<Byte>) {
    |s| >= 4 && SizeOk(FromBe(s[..4]), Limit(greeted)) && |s| >= 4 + FromBe(s[..4])
  }

  function Append(frame: seq<Byte>, d: Drained): Drained {
    Drained([frame] + d.frames, d.rest, d.poisoned)
  }

  function Continue(first: Drained, more: Drained): Drained {
    Drained(first.frames + more.frames, more.rest, more.poisoned)
  }

  lemma DrainFrame(greeted: bool, s: seq<Byte>, t: seq<Byte>)
    requires HasFrame(greeted, s)
    ensures var size := FromBe(s[..4]);
      Drain(greeted, s + t) == Append(s[4..4 + size], Drain(true, s[4 + size..] + t))
  {
    var size := FromBe(s[..4]);
    assert (s + t)[..4] == s[..4];
    assert (s + t)[4 + size..] == s[4 + size..] + t && (s + t)[4..4 + size] == s[4..4 + size];
  }

  /** Without a whole first frame the bytes are held back, or refused for good. */
  lemma DrainPartial(greeted: bool, s: seq<Byte>, t: seq<Byte>)
    requires !HasFrame(greeted, s)
    ensures Drain(greeted, s).frames == [] && (Drain(greeted, s).poisoned || Drain(greeted, s).rest == s)
    ensures Drain(greeted, s).poisoned ==> Drain(greeted, s + t) == Drain(greeted, s)
  {
    if |s| >= 4 {
      assert (s + t)[..4] == s[..4];
    }
  }

  /** Draining in two goes is draining at once: fragmentation does not matter. */
  lemma {:induction false} DrainConcat(greeted: bool, s: seq<Byte>, t: seq<Byte>)
    ensures var first := Drain(greeted, s);
      Drain(greeted, s + t) ==
        if first.poisoned then first else Continue(first, Drain(greeted || first.frames != [], first.rest + t))
    decreases |s|
  {
    hide Drain, FromBe;
    if HasFrame(greeted, s) {
      var size := FromBe(s[..4]);
      var frame, tail := s[4..4 + size], s[4 + size..];
      DrainFrame(greeted, s, t);
      DrainFrame(greeted, s, []);
      assert s + [] == s && tail + [] == tail;
      DrainConcat(true, tail, t);
      var later := Drain(true, tail);
      if !later.poisoned {
        var more := Drain(true, later.rest + t);
        assert [frame] + (later.frames + more.frames) == ([frame] + later.frames) + more.frames;
      }
    } else {
      DrainPartial(greeted, s, t);
      var first := Drain(greeted, s);
      if !first.poisoned {
        var more := Drain(greeted, s + t);
        assert [] + more.frames == more.frames;
      }
    }
  }

  // ---------- encoding ----------

  predicate BodyOk(body: seq<Byte>) {
    0 < |body| <= MAX_FRAME
  }

  function EncodeFrame(body: seq<Byte>): Option<seq<Byte>> {
    if BodyOk(body) then Some(BeBytes(|body|, 4) + body) else None
  }

  ghost predicate Sendable(greeted: bool, bodies: seq<seq<Byte>>) {
    && (forall k :: 0 <= k < |bodies| ==> BodyOk(bodies[k]))
    && (!greeted && |bodies| > 0 ==> |bodies[0]| <= MAX_GREETING)
  }

  ghost function Flat(packets: seq<seq<Byte>>): seq<Byte> {
    if |packets| == 0 then [] else packets[0] + Flat(packets[1..])
  }

  ghost function Framed(bodies: seq<seq<Byte>>): seq<Byte>
    requires forall k :: 0 <= k < |bodies| ==> BodyOk(bodies[k])
  {
    if |bodies| == 0 then [] else EncodeFrame(bodies[0]).value + Framed(bodies[1..])
  }

  lemma FrameHeader(body: seq<Byte>)
    requires BodyOk(body)
    ensures var e := EncodeFrame(body).value;
      |e| == 4 + |body| && FromBe(e[..4]) == |body| && e[4..] == body
  {
    CapacityOfWords();
    BeRoundTrip(|body|, 4);
    assert EncodeFrame(body).value[..4] == BeBytes(|body|, 4);
  }

  /** A frame begins with the four octets of its body's length, the highest first. */
  lemma FrameOctets(body: seq<Byte>)
    requires BodyOk(body)
    ensures var e, n := EncodeFrame(body).value, |body|;
      && |e| == 4 + n && e[4..] == body
      && e[0] as nat == n / 0x100_0000 && e[1] as nat == n / 0x1_0000 % 256 && e[2] as nat == n / 256 % 256 && e[3] as nat == n % 256
  {
    var n := |body|;
    forall i: nat | i < 4 ensures BeBytes(n, 4)[i] as nat == n / Capacity(3 - i) % 256 {
      BeIsLeBackwards(n, 4, i);
      LeOctet(n, 4, 3 - i);
    }
    assert Capacity(1) == 256 && Capacity(2) == 0x1_0000 && Capacity(3) == 0x100_0000;
    assert BeBytes(n, 4)[0] as nat == n / Capacity(3) % 256;
    assert BeBytes(n, 4)[1] as nat == n / Capacity(2) % 256;
    assert BeBytes(n, 4)[2] as nat == n / Capacity(1) % 256;
    assert BeBytes(n, 4)[3] as nat == n / Capacity(0) % 256;
  }

  lemma WholeFirst(stream: seq<Byte>, e: seq<Byte>, tail: seq<Byte>, body: seq<Byte>, n: nat)
    requires stream == e + tail && |e| == 4 + |body| && e[4..] == body && |e| <= n <= |stream|
    ensures stream[..n][..4] == e[..4] && stream[..n][4..|e|] == body && stream[..n][|e|..] == tail[..n - |e|]
  {
  }

  /** Any prefix of the framed bodies drains, without being refused, to a prefix of the bodies. */
  lemma {:induction false} PrefixDrains(greeted: bool, bodies: seq<seq<Byte>>, n: nat)
    requires Sendable(greeted, bodies) && n <= |Framed(bodies)|
    ensures var d := Drain(greeted, Framed(bodies)[..n]);
      !d.poisoned && d.frames <= bodies && (n == |Framed(bodies)| ==> d.frames == bodies && d.rest == [])
    decreases |bodies|
  {
    hide FromBe, BeBytes;
    if |bodies| > 0 {
      var e, tail := EncodeFrame(bodies[0]).value, Framed(bodies[1..]);
      var stream := Framed(bodies);
      FrameHeader(bodies[0]);
      assert stream == e + tail;
      if n >= |e| {
        PrefixDrains(true, bodies[1..], n - |e|);
        WholeFirst(stream, e, tail, bodies[0], n);
        assert bodies == [bodies[0]] + bodies[1..];
      } else if n >= 4 {
        assert stream[..n][..4] == e[..4];
      }
    }
  }
}
