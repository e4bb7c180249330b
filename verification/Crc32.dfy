/**
 * The reflected CRC-32 register (polynomial 0xEDB88320) used to guard document slots, and why a
 * change confined to four neighbouring bytes can never leave it unchanged. Registers are whole
 * numbers below 2^32 and exclusive-or works on their binary digits.
 */
module Crc32 {
  import opened Bytes

  const POLYNOMIAL: nat := 0xedb8_8320
  const MAX: nat := 0xffff_ffff

  function Xor(a: nat, b: nat): nat
    decreases a + b
  {
    if a == 0 then b
    else if b == 0 then a
    else 2 * Xor(a / 2, b / 2) + (a + b) % 2
  }

  function Mix(c: nat, on: bool): nat {
    if on then Xor(c, POLYNOMIAL) else c
  }

  /** One bit out; a one that falls out mixes the polynomial in. */
  function Shift(c: nat): nat {
    Mix(c / 2, c % 2 == 1)
  }

  function ShiftTimes(c: nat, n: nat): nat {
    if n == 0 then c else Shift(ShiftTimes(c, n - 1))
  }

  function Absorb(c: nat, b: Byte): nat {
    ShiftTimes(Xor(c, b as nat), 8)
  }

  function Crc(c: nat, bytes: seq<Byte>): nat {
    if |bytes| == 0 then c else Absorb(Crc(c, bytes[..|bytes| - 1]), bytes[|bytes| - 1])
  }

  /** Over the header without its checksum field, then the payload, complemented. */
  function Checksum(prefix: seq<Byte>, payload: seq<Byte>): (sum: nat)
    ensures sum <= MAX
  {
    CrcBound(MAX, prefix);
    CrcBound(Crc(MAX, prefix), payload);
    MAX - Crc(Crc(MAX, prefix), payload)
  }

  // ---------- the loops ----------

  /** Byte by byte, and within a byte bit by bit. */
  method Update(start: nat, bytes: seq<Byte>) returns (crc: nat)
    ensures crc == Crc(start, bytes)
  {
    crc := start;
    for i := 0 to |bytes|
      invariant crc == Crc(start, bytes[..i])
    {
      crc := Xor(crc, bytes[i] as nat);
      ghost var loaded := crc;
      for k := 0 to 8
        invariant crc == ShiftTimes(loaded, k)
      {
        crc := if crc % 2 == 1 then Xor(crc / 2, POLYNOMIAL) else crc / 2;
      }
      assert bytes[..i + 1][..i] == bytes[..i];
    }
    assert bytes[..|bytes|] == bytes;
  }

  method ChecksumOf(prefix: seq<Byte>, payload: seq<Byte>) returns (sum: nat)
    ensures sum == Checksum(prefix, payload)
  {
    var crc := Update(MAX, prefix);
    crc := Update(crc, payload);
    CrcBound(MAX, prefix);
    CrcBound(Crc(MAX, prefix), payload);
    return MAX - crc;
  }

  // ---------- exclusive-or ----------

  lemma XorHalves(a: nat, b: nat)
    ensures Xor(a, b) / 2 == Xor(a / 2, b / 2) && Xor(a, b) % 2 == (a + b) % 2
  {
  }

  lemma {:induction false} XorCommutes(a: nat, b: nat)
    ensures Xor(a, b) == Xor(b, a)
    decreases a + b
  {
    if a > 0 && b > 0 {
      XorCommutes(a / 2, b / 2);
    }
  }

  lemma HalvesDetermine(x: nat, y: nat)
    requires x / 2 == y / 2 && x % 2 == y % 2
    ensures x == y
  {
  }

  lemma SameParity(a: nat, b: nat, c: nat, ab: nat, bc: nat)
    requires ab % 2 == (a + b) % 2 && bc % 2 == (b + c) % 2
    ensures (ab + c) % 2 == (a + bc) % 2
  {
  }

  lemma {:induction false} XorAssociates(a: nat, b: nat, c: nat)
    ensures Xor(Xor(a, b), c) == Xor(a, Xor(b, c))
    decreases a + b + c
  {
    if a > 0 && b > 0 && c > 0 {
      var ab, bc := Xor(a, b), Xor(b, c);
      XorHalves(a, b);
      XorHalves(b, c);
      XorHalves(ab, c);
      XorHalves(a, bc);
      XorAssociates(a / 2, b / 2, c / 2);
      SameParity(a, b, c, ab, bc);
      HalvesDetermine(Xor(ab, c), Xor(a, bc));
    }
  }

  lemma {:induction false} XorSelf(a: nat)
    ensures Xor(a, a) == 0
  {
    if a > 0 {
      XorSelf(a / 2);
    }
  }

  lemma XorCancels(a: nat, b: nat, w: nat)
    requires Xor(a, w) == Xor(b, w)
    ensures a == b
  {
    XorAssociates(a, w, w);
    XorAssociates(b, w, w);
    XorSelf(w);
    XorCommutes(a, 0);
    XorCommutes(b, 0);
  }

  lemma XorCancelsLeft(a: nat, b: nat, w: nat)
    requires Xor(w, a) == Xor(w, b)
    ensures a == b
  {
    XorCommutes(w, a);
    XorCommutes(w, b);
    XorCancels(a, b, w);
  }

  function Pow2(k: nat): nat {
    if k == 0 then 1 else 2 * Pow2(k - 1)
  }

  lemma {:induction false} XorBound(a: nat, b: nat, k: nat)
    requires a < Pow2(k) && b < Pow2(k)
    ensures Xor(a, b) < Pow2(k)
  {
    if k > 0 && a > 0 && b > 0 {
      XorBound(a / 2, b / 2, k - 1);
    }
  }

  /** A top digit present in only one operand is present in the result. */
  lemma {:induction false} XorTop(a: nat, b: nat, k: nat)
    requires a < Pow2(k) <= b < Pow2(k + 1)
    ensures Pow2(k) <= Xor(a, b)
  {
    if k > 0 && a > 0 {
      XorTop(a / 2, b / 2, k - 1);
    }
  }

  /** Digits that do not overlap simply add up. */
  lemma {:induction false} XorDisjoint(low: nat, high: nat, k: nat)
    requires low < Pow2(k)
    ensures Xor(low, Pow2(k) * high) == low + Pow2(k) * high
  {
    hide Xor, Pow2;
    if k == 0 {
      PowHalf(0);
      XorZero(Pow2(0) * high);
    } else {
      PowHalf(k);
      PowHalves(k, high);
      XorDisjoint(low / 2, high, k - 1);
      XorEven(low, Pow2(k - 1) * high);
    }
  }

  lemma PowHalf(k: nat)
    ensures Pow2(k) == if k == 0 then 1 else 2 * Pow2(k - 1)
  {
  }

  lemma XorZero(b: nat)
    ensures Xor(0, b) == b
  {
  }

  lemma XorStep(a: nat, b: nat)
    requires a > 0 && b > 0
    ensures Xor(a, b) == 2 * Xor(a / 2, b / 2) + (a + b) % 2
  {
  }

  lemma XorEven(a: nat, v: nat)
    ensures Xor(a, 2 * v) == 2 * Xor(a / 2, v) + a % 2
  {
    hide Xor;
    var b, half, odd := 2 * v, a / 2, a % 2;
    Halves(a, v);
    if a == 0 {
      XorZero(b);
      XorZero(v);
    } else if v == 0 {
      XorCommutes(a, 0);
      XorZero(a);
      XorCommutes(half, 0);
      XorZero(half);
    } else {
      XorStep(a, b);
    }
  }

  lemma Halves(a: nat, v: nat)
    ensures (2 * v) / 2 == v && (a + 2 * v) % 2 == a % 2 && a == 2 * (a / 2) + a % 2
  {
    var q, r := a / 2, a % 2;
    assert a + 2 * v == 2 * (q + v) + r;
  }

  lemma Powers()
    ensures Pow2(8) == 256 && Pow2(16) == 65536 && Pow2(24) == 0x100_0000
    ensures Pow2(31) == 0x8000_0000 && Pow2(32) == 0x1_0000_0000
  {
    assert Pow2(4) == 16;
    assert Pow2(8) == 16 * Pow2(4);
    assert Pow2(12) == 16 * Pow2(8);
    assert Pow2(16) == 16 * Pow2(12);
    assert Pow2(20) == 16 * Pow2(16);
    assert Pow2(24) == 16 * Pow2(20);
    assert Pow2(28) == 16 * Pow2(24);
    assert Pow2(31) == 8 * Pow2(28);
  }

  // ---------- every step is a bijection on registers ----------

  lemma ShiftBound(c: nat)
    requires c <= MAX
    ensures Shift(c) <= MAX
  {
    Powers();
    XorBound(c / 2, POLYNOMIAL, 32);
  }

  lemma {:induction false} ShiftTimesBound(c: nat, n: nat)
    requires c <= MAX
    ensures ShiftTimes(c, n) <= MAX
  {
    if n > 0 {
      ShiftTimesBound(c, n - 1);
      ShiftBound(ShiftTimes(c, n - 1));
    }
  }

  lemma AbsorbBound(c: nat, b: Byte)
    requires c <= MAX
    ensures Absorb(c, b) <= MAX
  {
    Powers();
    XorBound(c, b as nat, 32);
    ShiftTimesBound(Xor(c, b as nat), 8);
  }

  lemma {:induction false} CrcBound(c: nat, bytes: seq<Byte>)
    requires c <= MAX
    ensures Crc(c, bytes) <= MAX
  {
    if |bytes| > 0 {
      CrcBound(c, bytes[..|bytes| - 1]);
      AbsorbBound(Crc(c, bytes[..|bytes| - 1]), bytes[|bytes| - 1]);
    }
  }

  /** The top digit of the result tells whether the polynomial was mixed in. */
  lemma ShiftInjective(a: nat, b: nat)
    requires a <= MAX && b <= MAX && Shift(a) == Shift(b)
    ensures a == b
  {
    Powers();
    XorTop(a / 2, POLYNOMIAL, 31);
    XorTop(b / 2, POLYNOMIAL, 31);
    if a % 2 == 1 && b % 2 == 1 {
      XorCancels(a / 2, b / 2, POLYNOMIAL);
    }
  }

  lemma {:induction false} ShiftTimesInjective(a: nat, b: nat, n: nat)
    requires a <= MAX && b <= MAX && ShiftTimes(a, n) == ShiftTimes(b, n)
    ensures a == b
  {
    if n > 0 {
      ShiftTimesBound(a, n - 1);
      ShiftTimesBound(b, n - 1);
      ShiftInjective(ShiftTimes(a, n - 1), ShiftTimes(b, n - 1));
      ShiftTimesInjective(a, b, n - 1);
    }
  }

  lemma AbsorbInjective(a: nat, b: nat, byte: Byte)
    requires a <= MAX && b <= MAX && Absorb(a, byte) == Absorb(b, byte)
    ensures a == b
  {
    Powers();
    XorBound(a, byte as nat, 32);
    XorBound(b, byte as nat, 32);
    ShiftTimesInjective(Xor(a, byte as nat), Xor(b, byte as nat), 8);
    XorCancels(a, b, byte as nat);
  }

  /** Different registers stay different whatever follows. */
  lemma {:induction false} CrcInjective(a: nat, b: nat, bytes: seq<Byte>)
    requires a <= MAX && b <= MAX && Crc(a, bytes) == Crc(b, bytes)
    ensures a == b
  {
    if |bytes| > 0 {
      var front, last := bytes[..|bytes| - 1], bytes[|bytes| - 1];
      CrcBound(a, front);
      CrcBound(b, front);
      AbsorbInjective(Crc(a, front), Crc(b, front), last);
      CrcInjective(a, b, front);
    }
  }

  lemma {:induction false} CrcConcat(c: nat, s: seq<Byte>, t: seq<Byte>)
    ensures Crc(c, s + t) == Crc(Crc(c, s), t)
    decreases |t|
  {
    if |t| == 0 {
      assert s + t == s;
    } else {
      var front := t[..|t| - 1];
      CrcConcat(c, s, front);
      assert (s + t)[..|s + t| - 1] == s + front;
    }
  }

  // ---------- four neighbouring bytes ----------

  lemma ShiftLinear(x: nat, y: nat)
    ensures Shift(Xor(x, y)) == Xor(Shift(x), Shift(y))
  {
    XorHalves(x, y);
    OddSum(x, y);
    MixLinear(x / 2, y / 2, x % 2 == 1, y % 2 == 1);
  }

  lemma OddSum(x: nat, y: nat)
    ensures (x + y) % 2 == 1 <==> (x % 2 == 1) != (y % 2 == 1)
  {
  }

  lemma MixLinear(p: nat, q: nat, m: bool, n: bool)
    ensures Mix(Xor(p, q), m != n) == Xor(Mix(p, m), Mix(q, n))
  {
    var r := POLYNOMIAL;
    if m && n {
      XorTwice(p, q, r);
    } else if m {
      XorAssociates(p, r, q);
      XorCommutes(r, q);
      XorAssociates(p, q, r);
    } else if n {
      XorAssociates(p, q, r);
    }
  }

  lemma XorTwice(p: nat, q: nat, r: nat)
    ensures Xor(Xor(p, r), Xor(q, r)) == Xor(p, q)
  {
    XorAssociates(p, r, Xor(q, r));
    XorCommutes(q, r);
    XorAssociates(r, r, q);
    XorSelf(r);
  }

  lemma {:induction false} ShiftTimesLinear(x: nat, y: nat, n: nat)
    ensures ShiftTimes(Xor(x, y), n) == Xor(ShiftTimes(x, n), ShiftTimes(y, n))
  {
    if n > 0 {
      ShiftTimesLinear(x, y, n - 1);
      ShiftLinear(ShiftTimes(x, n - 1), ShiftTimes(y, n - 1));
    }
  }

  lemma {:induction false} ShiftTimesAdd(c: nat, m: nat, n: nat)
    ensures ShiftTimes(ShiftTimes(c, m), n) == ShiftTimes(c, m + n)
  {
    if n > 0 {
      ShiftTimesAdd(c, m, n - 1);
    }
  }

  /** While only zero digits fall out, the register is simply halved. */
  lemma {:induction false} ShiftTimesPlain(w: nat, n: nat)
    ensures ShiftTimes(Pow2(n) * w, n) == w
  {
    hide ShiftTimes, Pow2;
    if n == 0 {
      OneTimes(w);
    } else {
      PowHalves(n, w);
      ShiftDoubled(Pow2(n - 1) * w, n);
      ShiftTimesPlain(w, n - 1);
    }
  }

  lemma OneTimes(w: nat)
    ensures ShiftTimes(Pow2(0) * w, 0) == w
  {
  }

  lemma PowHalves(n: nat, w: nat)
    requires n > 0
    ensures Pow2(n) * w == 2 * (Pow2(n - 1) * w)
  {
    Associate(2, Pow2(n - 1), w);
  }

  lemma Associate(a: nat, b: nat, c: nat)
    ensures (a * b) * c == a * (b * c)
  {
  }

  lemma ShiftDoubled(v: nat, n: nat)
    requires n > 0
    ensures ShiftTimes(2 * v, n) == ShiftTimes(v, n - 1)
  {
    ShiftTimesAdd(2 * v, 1, n - 1);
    assert ShiftTimes(2 * v, 0) == 2 * v;
    assert ShiftTimes(2 * v, 1) == v;
  }

  lemma {:induction false} FromLeSnoc(s: seq<Byte>, b: Byte)
    ensures FromLe(s + [b]) == FromLe(s) + Pow2(8 * |s|) * (b as nat)
  {
    if |s| > 0 {
      var n := |s| - 1;
      FromLeSnoc(s[1..], b);
      assert (s + [b])[1..] == s[1..] + [b];
      Pow2Byte(n);
      assert Pow2(8 * |s|) * (b as nat) == 256 * (Pow2(8 * n) * (b as nat));
    }
  }

  lemma Pow2Byte(n: nat)
    ensures Pow2(8 * (n + 1)) == 256 * Pow2(8 * n)
  {
    var k := 8 * n;
    assert Pow2(k + 2) == 4 * Pow2(k);
    assert Pow2(k + 4) == 4 * Pow2(k + 2);
    assert Pow2(k + 6) == 4 * Pow2(k + 4);
    assert Pow2(k + 8) == 4 * Pow2(k + 6);
  }

  lemma {:induction false} FromLeBound(s: seq<Byte>)
    ensures FromLe(s) < Pow2(8 * |s|)
  {
    if |s| > 0 {
      FromLeBound(s[1..]);
      Pow2Byte(|s| - 1);
    }
  }

  /** Feeding bytes is one exclusive-or with the number they spell, then shifting. */
  lemma {:induction false} CrcAsShift(c: nat, s: seq<Byte>)
    ensures Crc(c, s) == ShiftTimes(Xor(c, FromLe(s)), 8 * |s|)
  {
    hide Xor, Pow2, ShiftTimes, FromLe;
    if |s| == 0 {
      ShiftNothing(c);
    } else {
      var front, b := s[..|s| - 1], s[|s| - 1];
      CrcAsShift(c, front);
      AbsorbShifted(Xor(c, FromLe(front)), b, 8 * |front|, 8);
      WordGrows(c, front, b);
      assert s == front + [b];
    }
  }

  lemma ShiftNothing(c: nat)
    ensures ShiftTimes(Xor(c, FromLe([])), 0) == c
  {
    XorCommutes(c, 0);
  }

  lemma WordGrows(c: nat, front: seq<Byte>, b: Byte)
    ensures Xor(Xor(c, FromLe(front)), Pow2(8 * |front|) * (b as nat)) == Xor(c, FromLe(front + [b]))
  {
    hide Xor, Pow2, FromLe;
    FromLeBound(front);
    FromLeSnoc(front, b);
    XorAssociates(c, FromLe(front), Pow2(8 * |front|) * (b as nat));
    XorDisjoint(FromLe(front), b as nat, 8 * |front|);
  }

  /** A byte mixed in late is the same byte mixed in early, further up. */
  lemma AbsorbShifted(x: nat, b: Byte, k: nat, m: nat)
    ensures ShiftTimes(Xor(ShiftTimes(x, k), b as nat), m) == ShiftTimes(Xor(x, Pow2(k) * (b as nat)), k + m)
  {
    var y := Pow2(k) * (b as nat);
    ShiftTimesPlain(b as nat, k);
    ShiftTimesLinear(x, y, k);
    ShiftTimesAdd(Xor(x, y), k, m);
  }

  /** Up to four bytes entering the same register are told apart. */
  lemma FourBytesTellApart(c: nat, s: seq<Byte>, t: seq<Byte>)
    requires c <= MAX && |s| == |t| <= 4 && Crc(c, s) == Crc(c, t)
    ensures s == t
  {
    CrcAsShift(c, s);
    CrcAsShift(c, t);
    Powers();
    WordBound(s);
    WordBound(t);
    XorBound(c, FromLe(s), 32);
    XorBound(c, FromLe(t), 32);
    ShiftTimesInjective(Xor(c, FromLe(s)), Xor(c, FromLe(t)), 8 * |s|);
    XorCancelsLeft(FromLe(s), FromLe(t), c);
    FromLeInjective(s, t);
  }

  lemma WordBound(s: seq<Byte>)
    requires |s| <= 4
    ensures FromLe(s) < Pow2(32)
  {
    FromLeBound(s);
    Pow2Monotone(8 * |s|, 32);
  }

  lemma {:induction false} Pow2Monotone(m: nat, n: nat)
    requires m <= n
    ensures Pow2(m) <= Pow2(n)
  {
    if m < n {
      Pow2Monotone(m, n - 1);
    }
  }

  /** Messages that differ, but only inside four neighbouring bytes, have different registers. */
  lemma BurstDetected(c: nat, before: seq<Byte>, s: seq<Byte>, t: seq<Byte>, after: seq<Byte>)
    requires c <= MAX && |s| == |t| <= 4 && s != t
    ensures Crc(c, before + s + after) != Crc(c, before + t + after)
  {
    var reached := Crc(c, before);
    CrcBound(c, before);
    CrcBound(reached, s);
    CrcBound(reached, t);
    CrcConcat(c, before, s);
    CrcConcat(c, before, t);
    CrcConcat(c, before + s, after);
    CrcConcat(c, before + t, after);
    if Crc(c, before + s + after) == Crc(c, before + t + after) {
      CrcInjective(Crc(reached, s), Crc(reached, t), after);
      FourBytesTellApart(reached, s, t);
    }
  }
}
