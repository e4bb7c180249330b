/** The incremental decoder: it owns at most one frame and copes with any fragmentation. */
module FrameDecoder {
  import opened Common
  import opened Bytes
  import opened FrameStream

  datatype FeedFault = Poisoned | BadLength

  class Decoder {
    const prefix: array<Byte>
    const limit: nat
    var prefixLen: nat
    var body: seq<Byte>
    var expected: Option<nat>
    var poisoned: bool

    ghost predicate Valid()
      reads this, prefix
    {
      && prefix.Length == 4 && prefixLen <= 4
      && (expected.None? ==> body == [])
      && (expected.Some? ==>
        prefixLen == 4 && !poisoned && expected.value == FromBe(prefix[..4])
        && SizeOk(expected.value, limit) && |body| <= expected.value)
      && (!poisoned && expected.None? ==> prefixLen < 4)
    }

    /** The bytes of the frame in progress. */
    ghost function Held(): seq<Byte>
      reads this, prefix
      requires prefix.Length == 4 && prefixLen <= 4
    {
      prefix[..prefixLen] + body
    }

    ghost predicate Complete()
      reads this
    {
      expected == Some(|body|)
    }

    constructor (limit: nat)
      ensures Valid() && !poisoned && Held() == [] && !Complete() && this.limit == limit && fresh(prefix)
    {
      prefix := new Byte[4](_ => 0);
      this.limit := limit;
      prefixLen, body, expected, poisoned := 0, [], None, false;
    }

    /** Consumes at most the rest of one frame. */
    method Feed(bytes: seq<Byte>) returns (r: Result<nat, FeedFault>)
      requires Valid()
      modifies this, prefix
      ensures Valid()
      ensures old(poisoned) ==> r == Err(FeedFault.Poisoned)
      ensures !old(poisoned) ==>
        (r.Err? <==> |old(Held()) + bytes| >= 4 && !SizeOk(FromBe((old(Held()) + bytes)[..4]), limit))
      ensures r.Err? ==> poisoned
      ensures r.Ok? ==> !poisoned && r.value <= |bytes| && Held() == old(Held()) + bytes[..r.value]
      ensures r.Ok? && !old(Complete()) && bytes != [] ==> r.value > 0
      ensures r.Ok? && r.value < |bytes| ==> Complete()
    {
      hide FromBe, SizeOk;
      if poisoned {
        return Err(FeedFault.Poisoned);
      }
      ghost var start := Held();
      var used := FillPrefix(bytes);
      if prefixLen < 4 {
        return Ok(used);
      }
      assert (start + bytes)[..4] == prefix[..4] by {
        if expected.None? {
          assert start + bytes == Held() + bytes[used..];
        }
      }
      if expected.None? {
        var size := FromBe(prefix[..]);
        assert prefix[..] == prefix[..4];
        if !SizeOk(size, limit) {
          poisoned := true;
          return Err(BadLength);
        }
        expected := Some(size);
      }
      var remaining := expected.value - |body|;
      var take := if remaining < |bytes| - used then remaining else |bytes| - used;
      body := body + bytes[used..used + take];
      assert bytes[..used + take] == bytes[..used] + bytes[used..used + take];
      return Ok(used + take);
    }

    method FillPrefix(bytes: seq<Byte>) returns (used: nat)
      requires Valid() && !poisoned
      modifies this`prefixLen, prefix
      ensures prefixLen <= 4 && used <= |bytes| && prefixLen == old(prefixLen) + used
      ensures Held() == old(Held()) + bytes[..used]
      ensures prefixLen < 4 ==> used == |bytes|
      ensures old(prefixLen) == 4 ==> used == 0 && prefix[..] == old(prefix[..])
      ensures old(prefixLen) < 4 && bytes != [] ==> used > 0
    {
      used := 0;
      while prefixLen < 4 && used < |bytes|
        invariant prefixLen <= 4 && used <= |bytes| && prefixLen == old(prefixLen) + used
        invariant prefix[..prefixLen] == old(prefix[..prefixLen]) + bytes[..used]
        invariant used == 0 ==> prefix[..] == old(prefix[..])
      {
        prefix[prefixLen] := bytes[used];
        prefixLen := prefixLen + 1;
        used := used + 1;
      }
    }

    /** Hands over the completed frame and starts the next one. */
    method Take() returns (r: Option<seq<Byte>>)
      requires Valid()
      modifies this`body, this`expected, this`prefixLen
      ensures Valid() && poisoned == old(poisoned)
      ensures r.Some? <==> old(Complete())
      ensures r.None? ==> Held() == old(Held()) && expected == old(expected)
      ensures r.Some? ==> r.value == old(body) && Held() == [] && !Complete()
      ensures r.Some? ==>
        old(Held()) == old(prefix[..4]) + r.value && SizeOk(|r.value|, limit) && |r.value| == FromBe(old(prefix[..4]))
    {
      if expected != Some(|body|) {
        return None;
      }
      r := Some(body);
      expected := None;
      prefixLen := 0;
      body := [];
    }

    /** End of stream inside a length or a body is an error, between frames it is not. */
    method Finish() returns (clean: bool)
      requires Valid()
      ensures clean <==> !poisoned && Held() == []
    {
      return !poisoned && prefixLen == 0;
    }
  }

  ghost predicate Means(stream: seq<Byte>, greeted: bool, received: seq<seq<Byte>>, held: seq<Byte>) {
    greeted == (received != []) && Drain(false, stream) == Drained(received, held, false)
  }

  lemma MoreHeld(stream: seq<Byte>, greeted: bool, received: seq<seq<Byte>>, held: seq<Byte>, more: seq<Byte>)
    requires Means(stream, greeted, received, held)
    ensures Drain(false, stream + more) == Continue(Drained(received, held, false), Drain(greeted, held + more))
  {
    DrainConcat(false, stream, more);
  }

  /** A frame still in progress is held back. */
  lemma StillHeld(stream: seq<Byte>, greeted: bool, received: seq<seq<Byte>>, held: seq<Byte>, more: seq<Byte>)
    requires Means(stream, greeted, received, held)
    requires var h := held + more;
      |h| < 4 || (SizeOk(FromBe(h[..4]), Limit(greeted)) && |h| < 4 + FromBe(h[..4]))
    ensures Means(stream + more, greeted, received, held + more)
  {
    MoreHeld(stream, greeted, received, held, more);
    assert received + [] == received;
  }

  /** A frame just completed is delivered and nothing is held back. */
  lemma Delivered(stream: seq<Byte>, greeted: bool, received: seq<seq<Byte>>, held: seq<Byte>, more: seq<Byte>,
                  head: seq<Byte>, frame: seq<Byte>)
    requires Means(stream, greeted, received, held)
    requires held + more == head + frame && |head| == 4 && FromBe(head) == |frame| && SizeOk(|frame|, Limit(greeted))
    ensures Means(stream + more, true, received + [frame], [])
  {
    var h := held + more;
    MoreHeld(stream, greeted, received, held, more);
    assert h[..4] == head && h[4..4 + |frame|] == frame && h[4 + |frame|..] == [];
    assert Drain(greeted, h) == Drained([frame] + [], [], false);
    assert [frame] + [] == [frame];
  }

  lemma Rejected(stream: seq<Byte>, greeted: bool, received: seq<seq<Byte>>, held: seq<Byte>, more: seq<Byte>)
    requires Means(stream, greeted, received, held)
    requires |held + more| >= 4 && !SizeOk(FromBe((held + more)[..4]), Limit(greeted))
    ensures Drain(false, stream + more).poisoned
  {
    MoreHeld(stream, greeted, received, held, more);
  }

  lemma SplitAt(start: seq<Byte>, buf: seq<Byte>, used: nat)
    requires used <= |buf|
    ensures start + buf == (start + buf[..used]) + buf[used..]
  {
  }

  lemma SplitPast(start: seq<Byte>, buf: seq<Byte>, used: nat, n: nat)
    requires used + n <= |buf|
    ensures start + buf[..used + n] == (start + buf[..used]) + buf[used..][..n]
  {
  }

  /** The receiving end: a decoder that is replaced once the greeting has been accepted. */
  class Receiver {
    var decoder: Decoder
    var greeted: bool
    var received: seq<seq<Byte>>
    /** Every byte consumed so far. */
    ghost var stream: seq<Byte>

    /** What was received and what is held back is what the stream means. */
    ghost predicate Valid()
      reads this, decoder, decoder.prefix
    {
      && decoder.Valid() && !decoder.poisoned && !decoder.Complete() && decoder.limit == Limit(greeted)
      && Means(stream, greeted, received, decoder.Held())
    }

    constructor ()
      ensures Valid() && stream == [] && received == [] && fresh(decoder) && fresh(decoder.prefix)
    {
      decoder := new Decoder(MAX_GREETING);
      greeted, received, stream := false, [], [];
    }

    /** One read: feed and take until the buffer is used up, each turn making progress. */
    method Consume(buf: seq<Byte>, accept: bool) returns (ok: bool)
      requires Valid()
      modifies this, decoder, decoder.prefix
      ensures ok ==> Valid() && stream == old(stream) + buf && old(received) <= received
      ensures !ok ==> Drain(false, old(stream) + buf).poisoned || (!accept && !old(greeted))
    {
      var used := 0;
      ghost var start := stream;
      while used < |buf|
        invariant used <= |buf| && Valid() && stream == start + buf[..used] && old(received) <= received
        invariant old(greeted) ==> greeted
        invariant decoder == old(decoder) || fresh(decoder)
        invariant decoder.prefix == old(decoder.prefix) || fresh(decoder.prefix)
        decreases |buf| - used
      {
        SplitAt(start, buf, used);
        var n := Turn(buf[used..], accept);
        if n == 0 {
          return false;
        }
        SplitPast(start, buf, used, n);
        used := used + n;
      }
      assert buf[..used] == buf;
      return true;
    }

    /** Feeds once and takes a completed frame; zero means the connection must close. */
    method Turn(bytes: seq<Byte>, accept: bool) returns (n: nat)
      requires Valid() && bytes != []
      modifies this, decoder, decoder.prefix
      ensures n > 0 ==> n <= |bytes| && Valid() && stream == old(stream) + bytes[..n] && old(received) <= received
      ensures n > 0 && old(greeted) ==> greeted
      ensures n == 0 ==> Drain(false, old(stream) + bytes).poisoned || (!accept && !old(greeted))
      ensures decoder == old(decoder) || fresh(decoder)
      ensures decoder.prefix == old(decoder.prefix) || fresh(decoder.prefix)
    {
      ghost var held := decoder.Held();
      var fed := decoder.Feed(bytes);
      if fed.Err? {
        Rejected(stream, greeted, received, held, bytes);
        return 0;
      }
      n := fed.value;
      ghost var head := decoder.prefix[..4];
      var taken := decoder.Take();
      if taken.None? {
        StillHeld(stream, greeted, received, held, bytes[..n]);
        stream := stream + bytes[..n];
      } else {
        if !greeted && !accept {
          return 0;
        }
        Delivered(stream, greeted, received, held, bytes[..n], head, taken.value);
        stream := stream + bytes[..n];
        received := received + [taken.value];
        if !greeted {
          decoder := new Decoder(MAX_FRAME);
          greeted := true;
        }
      }
    }
  }
}
