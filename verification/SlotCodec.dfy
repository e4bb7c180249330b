/** One document generation as a self-checking record: eight magic bytes, generation, length, checksum, payload. */
module SlotCodec {
  import opened Common
  import opened Bytes
  import opened Crc32

  const HEADER: nat := 24
  const MAX_BYTES: nat := 0x400_0000
  const MAGIC: seq<Byte> := [83, 84, 85, 76, 80, 65, 66, 1]

  datatype Record = Record(generation: nat, payload: seq<Byte>)

  datatype EncodeFault = ZeroGeneration | TooLarge

  /** Everything the checksum covers in the header. */
  function Prefix(generation: nat, length: nat): (s: seq<Byte>)
    ensures |s| == 20
  {
    MAGIC + LeBytes(generation, 8) + LeBytes(length, 4)
  }

  function Encode(generation: nat, payload: seq<Byte>): Result<seq<Byte>, EncodeFault> {
    if generation == 0 then Err(ZeroGeneration)
    else if |payload| > MAX_BYTES then Err(TooLarge)
    else
      var prefix := Prefix(generation, |payload|);
      Ok(prefix + LeBytes(Checksum(prefix, payload), 4) + payload)
  }

  function Decode(bytes: seq<Byte>): Option<Record> {
    if |bytes| < HEADER || bytes[..8] != MAGIC then None
    else
      var generation := FromLe(bytes[8..16]);
      var length := FromLe(bytes[16..20]);
      var expected := FromLe(bytes[20..24]);
      var payload := bytes[HEADER..];
      if generation == 0 || length != |payload| || length > MAX_BYTES
        || Checksum(bytes[..20], payload) != expected
      then None
      else Some(Record(generation, payload))
  }

  // ---------- layout ----------

  lemma Layout(generation: nat, payload: seq<Byte>)
    requires 0 < generation && |payload| <= MAX_BYTES
    ensures var e := Encode(generation, payload).value;
      var prefix := Prefix(generation, |payload|);
      && |e| == HEADER + |payload|
      && e[..8] == MAGIC && e[8..16] == LeBytes(generation, 8) && e[16..20] == LeBytes(|payload|, 4)
      && e[..20] == prefix && e[20..24] == LeBytes(Checksum(prefix, payload), 4) && e[HEADER..] == payload
  {
  }

  /** A slot is the magic, then generation, length and checksum with their lowest octets first, then the payload. */
  lemma SlotOctets(generation: nat, payload: seq<Byte>, i: nat)
    requires 0 < generation && |payload| <= MAX_BYTES
    ensures var e := Encode(generation, payload).value;
      && |e| == 24 + |payload| && e[..8] == [0x53, 0x54, 0x55, 0x4C, 0x50, 0x41, 0x42, 0x01] && e[24..] == payload
      && Capacity(i) > 0
      && (i < 8 ==> e[8 + i] as nat == generation / Capacity(i) % 256)
      && (i < 4 ==> e[16 + i] as nat == |payload| / Capacity(i) % 256)
      && (i < 4 ==> e[20 + i] as nat == Checksum(e[..20], payload) / Capacity(i) % 256)
  {
    hide Checksum;
    Layout(generation, payload);
    CapacityPositive(i);
    if i < 8 {
      LeOctet(generation, 8, i);
    }
    if i < 4 {
      LeOctet(|payload|, 4, i);
      LeOctet(Checksum(Prefix(generation, |payload|), payload), 4, i);
    }
  }

  lemma FieldsRead(generation: nat, payload: seq<Byte>)
    requires 0 < generation < U64_LIMIT && |payload| <= MAX_BYTES
    ensures var e := Encode(generation, payload).value;
      && |e| == HEADER + |payload|
      && FromLe(e[8..16]) == generation && FromLe(e[16..20]) == |payload|
      && FromLe(e[20..24]) == Checksum(e[..20], payload)
  {
    Layout(generation, payload);
    CapacityOfWords();
    LeRoundTrip(generation, 8);
    LeRoundTrip(|payload|, 4);
    LeRoundTrip(Checksum(Prefix(generation, |payload|), payload), 4);
  }

  // ---------- what the record promises ----------

  /** Reading back a record returns what was written. */
  lemma RoundTrip(generation: nat, payload: seq<Byte>)
    requires 0 < generation < U64_LIMIT && |payload| <= MAX_BYTES
    ensures Encode(generation, payload).Ok?
    ensures Decode(Encode(generation, payload).value) == Some(Record(generation, payload))
  {
    Layout(generation, payload);
    FieldsRead(generation, payload);
  }

  /** A record cut short anywhere is not a record. */
  lemma StrictPrefixRejected(generation: nat, payload: seq<Byte>, n: nat)
    requires 0 < generation < U64_LIMIT && |payload| <= MAX_BYTES
    requires n < |Encode(generation, payload).value|
    ensures Decode(Encode(generation, payload).value[..n]) == None
  {
    var e := Encode(generation, payload).value;
    FieldsRead(generation, payload);
    if n >= HEADER {
      assert e[..n][16..20] == e[16..20];
    }
  }

  /** What Decode demands of a record as long as an encoding whose length field is intact. */
  lemma Accepted(generation: nat, payload: seq<Byte>, x: seq<Byte>)
    requires 0 < generation < U64_LIMIT && |payload| <= MAX_BYTES
    requires |x| == HEADER + |payload| && Decode(x).Some?
    ensures x[..8] == MAGIC && x[16..20] == LeBytes(|payload|, 4)
    ensures FromLe(x[20..24]) == Checksum(x[..20], x[HEADER..])
  {
    Layout(generation, payload);
    FieldsRead(generation, payload);
    FromLeInjective(x[16..20], LeBytes(|payload|, 4));
  }

  /** Two sequences agree outside the window from i to j. */
  ghost predicate AgreeOutside(x: seq<Byte>, y: seq<Byte>, i: nat, j: nat) {
    |x| == |y| && i <= j <= |x| && forall k :: 0 <= k < |x| && !(i <= k < j) ==> x[k] == y[k]
  }

  lemma ThreeParts(x: seq<Byte>, i: nat, j: nat)
    requires i <= j <= |x|
    ensures x == x[..i] + x[i..j] + x[j..]
  {
  }

  lemma WindowInCrc(x: seq<Byte>, y: seq<Byte>, i: nat, j: nat)
    requires AgreeOutside(x, y, i, j) && j - i <= 4 && x != y
    ensures Crc(MAX, x) != Crc(MAX, y)
  {
    hide Crc;
    assert x[..i] == y[..i];
    assert x[j..] == y[j..];
    ThreeParts(x, i, j);
    ThreeParts(y, i, j);
    BurstDetected(MAX, x[..i], x[i..j], y[i..j], x[j..]);
  }

  lemma ChecksumAsOne(prefix: seq<Byte>, payload: seq<Byte>)
    ensures Checksum(prefix, payload) == MAX - Crc(MAX, prefix + payload)
  {
    CrcConcat(MAX, prefix, payload);
  }

  /** The part of a record the checksum covers. */
  ghost function Covered(x: seq<Byte>): seq<Byte>
    requires |x| >= HEADER
  {
    x[..20] + x[HEADER..]
  }

  lemma CoveredChangeRejected(generation: nat, payload: seq<Byte>, x: seq<Byte>)
    requires 0 < generation < U64_LIMIT && |payload| <= MAX_BYTES
    requires var e := Encode(generation, payload).value;
      |x| == |e| == HEADER + |payload| && x[20..24] == e[20..24] && Crc(MAX, Covered(x)) != Crc(MAX, Covered(e))
    ensures Decode(x) == None
  {
    var e := Encode(generation, payload).value;
    CrcBound(MAX, Covered(x));
    CrcBound(MAX, Covered(e));
    ChecksumAsOne(x[..20], x[HEADER..]);
    ChecksumAsOne(e[..20], e[HEADER..]);
    Layout(generation, payload);
    FieldsRead(generation, payload);
    if Decode(x).Some? {
      Accepted(generation, payload, x);
      assert false;
    }
  }

  lemma ChecksumChangeRejected(generation: nat, payload: seq<Byte>, x: seq<Byte>)
    requires 0 < generation < U64_LIMIT && |payload| <= MAX_BYTES
    requires var e := Encode(generation, payload).value;
      |x| == |e| == HEADER + |payload| && x[20..24] != e[20..24] && x[..20] == e[..20] && x[HEADER..] == e[HEADER..]
    ensures Decode(x) == None
  {
    if Decode(x).Some? {
      Layout(generation, payload);
      FieldsRead(generation, payload);
      Accepted(generation, payload, x);
      FromLeInjective(x[20..24], Encode(generation, payload).value[20..24]);
      assert false;
    }
  }

  /**
   * A record altered inside any four neighbouring bytes is rejected, unless the window straddles the
   * border between checksum and payload, where a forged pair of changes could match.
   */
  lemma BurstRejected(generation: nat, payload: seq<Byte>, x: seq<Byte>, i: nat, j: nat)
    requires 0 < generation < U64_LIMIT && |payload| <= MAX_BYTES
    requires var e := Encode(generation, payload).value; AgreeOutside(x, e, i, j) && x != e
    requires j - i <= 4 && !(i < HEADER < j)
    ensures Decode(x) == None
  {
    var e := Encode(generation, payload).value;
    Layout(generation, payload);
    if i >= HEADER {
      HeadAgrees(x, e, i, j);
      CoveredWindow(x, e, i, j);
      CoveredChangeRejected(generation, payload, x);
    } else if x[..20] == e[..20] {
      TailAgrees(x, e, i, j);
      ChecksumChangeRejected(generation, payload, x);
    } else if x[20..24] == e[20..24] {
      TailAgrees(x, e, i, j);
      CoveredWindow(x, e, i, j);
      CoveredChangeRejected(generation, payload, x);
    } else {
      // the change reaches from the length field into the checksum: the length no longer fits
      StraddleRejected(generation, payload, x, i, j);
    }
  }

  lemma HeadAgrees(x: seq<Byte>, e: seq<Byte>, i: nat, j: nat)
    requires AgreeOutside(x, e, i, j) && i >= HEADER
    ensures x[..20] == e[..20] && x[20..24] == e[20..24]
  {
  }

  lemma TailAgrees(x: seq<Byte>, e: seq<Byte>, i: nat, j: nat)
    requires AgreeOutside(x, e, i, j) && j <= HEADER <= |x|
    ensures x[HEADER..] == e[HEADER..]
    ensures x[..20] == e[..20] && x != e ==> x[20..24] != e[20..24]
  {
    assert x == x[..20] + x[20..24] + x[24..] && e == e[..20] + e[20..24] + e[24..];
  }

  /** A window that spares the checksum field is a window of the covered bytes. */
  lemma CoveredWindow(x: seq<Byte>, e: seq<Byte>, i: nat, j: nat)
    requires AgreeOutside(x, e, i, j) && j - i <= 4 && x != e && HEADER <= |x|
    requires x[20..24] == e[20..24] && (i >= HEADER || j <= HEADER)
    ensures Crc(MAX, Covered(x)) != Crc(MAX, Covered(e))
  {
    var a := if i >= HEADER then i - 4 else if i < 20 then i else 20;
    var b := if i >= HEADER then j - 4 else if j < 20 then j else 20;
    assert x == Covered(x)[..20] + x[20..24] + Covered(x)[20..];
    assert e == Covered(e)[..20] + e[20..24] + Covered(e)[20..];
    forall k | 0 <= k < |Covered(x)| && !(a <= k < b) ensures Covered(x)[k] == Covered(e)[k] {
      var m := if k < 20 then k else k + 4;
      assert Covered(x)[k] == x[m] && Covered(e)[k] == e[m];
    }
    WindowInCrc(Covered(x), Covered(e), a, b);
  }

  lemma LengthChanged(x: seq<Byte>, e: seq<Byte>, i: nat, j: nat)
    requires AgreeOutside(x, e, i, j) && j - i <= 4 && HEADER <= |x|
    requires x[..20] != e[..20] && x[20..24] != e[20..24]
    ensures x[16..20] != e[16..20]
  {
    var k :| 0 <= k < 20 && x[k] != e[k];
    var m :| 20 <= m < 24 && x[m] != e[m];
    assert x[16..20][k - 16] != e[16..20][k - 16];
  }

  lemma StraddleRejected(generation: nat, payload: seq<Byte>, x: seq<Byte>, i: nat, j: nat)
    requires 0 < generation < U64_LIMIT && |payload| <= MAX_BYTES
    requires var e := Encode(generation, payload).value;
      AgreeOutside(x, e, i, j) && j - i <= 4 && x[..20] != e[..20] && x[20..24] != e[20..24]
    requires HEADER <= |x|
    ensures Decode(x) == None
  {
    Layout(generation, payload);
    LengthChanged(x, Encode(generation, payload).value, i, j);
    if Decode(x).Some? {
      Accepted(generation, payload, x);
      assert false;
    }
  }

  /** In particular a record with exactly one byte altered is rejected, wherever the byte is. */
  lemma AlteredByteRejected(generation: nat, payload: seq<Byte>, k: nat, b: Byte)
    requires 0 < generation < U64_LIMIT && |payload| <= MAX_BYTES
    requires k < |Encode(generation, payload).value| && b != Encode(generation, payload).value[k]
    ensures Decode(Encode(generation, payload).value[k := b]) == None
  {
    var e := Encode(generation, payload).value;
    var x := e[k := b];
    assert x[k] != e[k];
    BurstRejected(generation, payload, x, k, k + 1);
  }
}
