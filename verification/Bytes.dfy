/** Octets on disk and on the wire, and how whole numbers are laid out in them. */
module Bytes {

  newtype Byte = x: int | 0 <= x < 256

  // ---------- whole numbers in k octets ----------

  function Capacity(k: nat): nat {
    if k == 0 then 1 else 256 * Capacity(k - 1)
  }

  /** The k lowest octets of n, lowest first. */
  function LeBytes(n: nat, k: nat): (s: seq<Byte>)
    ensures |s| == k
  {
    if k == 0 then [] else [(n % 256) as Byte] + LeBytes(n / 256, k - 1)
  }

  function FromLe(s: seq<Byte>): nat {
    if |s| == 0 then 0 else s[0] as nat + 256 * FromLe(s[1..])
  }

  lemma {:induction false} LeRoundTrip(n: nat, k: nat)
    requires n < Capacity(k)
    ensures FromLe(LeBytes(n, k)) == n
  {
    if k > 0 {
      assert n / 256 < Capacity(k - 1);
      LeRoundTrip(n / 256, k - 1);
      assert LeBytes(n, k)[1..] == LeBytes(n / 256, k - 1);
    }
  }

  lemma {:induction false} FromLeInjective(s: seq<Byte>, t: seq<Byte>)
    requires |s| == |t| && FromLe(s) == FromLe(t)
    ensures s == t
  {
    if |s| > 0 {
      assert s[0] as nat == t[0] as nat && FromLe(s[1..]) == FromLe(t[1..]);
      FromLeInjective(s[1..], t[1..]);
      assert s == [s[0]] + s[1..] && t == [t[0]] + t[1..];
    }
  }

  /** The k lowest octets of n, highest first. */
  function BeBytes(n: nat, k: nat): (s: seq<Byte>)
    ensures |s| == k
  {
    if k == 0 then [] else BeBytes(n / 256, k - 1) + [(n % 256) as Byte]
  }

  function FromBe(s: seq<Byte>): nat {
    if |s| == 0 then 0 else 256 * FromBe(s[..|s| - 1]) + s[|s| - 1] as nat
  }

  lemma {:induction false} BeRoundTrip(n: nat, k: nat)
    requires n < Capacity(k)
    ensures FromBe(BeBytes(n, k)) == n
  {
    if k > 0 {
      assert n / 256 < Capacity(k - 1);
      BeRoundTrip(n / 256, k - 1);
      assert BeBytes(n, k)[..k - 1] == BeBytes(n / 256, k - 1);
    }
  }

  lemma CapacityPositive(k: nat)
    ensures Capacity(k) > 0
  {
  }

  lemma DivTwice(n: nat, c: nat)
    requires c > 0
    ensures n / 256 / c == n / (256 * c)
  {
    var q, r := n / (256 * c), n % (256 * c);
    assert n == 256 * (q * c) + r;
    assert n / 256 == q * c + r / 256;
    QuotientOf(n / 256, q, r / 256, c);
  }

  lemma QuotientOf(n: nat, q: nat, r: nat, c: nat)
    requires n == q * c + r && r < c
    ensures n / c == q
  {
    var d, m := n / c, n % c;
    assert n == d * c + m && 0 <= m < c;
    assert (q - d) * c == m - r;
    AwayFromZero(q - d, c);
  }

  lemma AwayFromZero(k: int, c: int)
    requires c >= 0
    ensures k > 0 ==> k * c >= c
    ensures k < 0 ==> k * c <= -c
  {
    if k > 0 {
      NotNegative(k - 1, c);
    } else if k < 0 {
      NotNegative(-k - 1, c);
    }
  }

  lemma NotNegative(k: int, c: int)
    requires k >= 0 && c >= 0
    ensures k * c >= 0
  {
  }

  /** Octet i of the little-endian form has weight 256 to the i. */
  lemma {:induction false} LeOctet(n: nat, k: nat, i: nat)
    requires i < k
    ensures Capacity(i) > 0 && LeBytes(n, k)[i] as nat == n / Capacity(i) % 256
  {
    if i > 0 {
      LeOctet(n / 256, k - 1, i - 1);
      DivTwice(n, Capacity(i - 1));
    }
  }

  /** The big-endian form is the little-endian one from back to front. */
  lemma {:induction false} BeIsLeBackwards(n: nat, k: nat, i: nat)
    requires i < k
    ensures BeBytes(n, k)[i] == LeBytes(n, k)[k - 1 - i]
  {
    if i < k - 1 {
      BeIsLeBackwards(n / 256, k - 1, i);
    }
  }

  lemma CapacityOfWords()
    ensures Capacity(4) == 0x1_0000_0000 && Capacity(8) == 0x1_0000_0000_0000_0000
  {
    assert Capacity(2) == 65536;
    assert Capacity(4) == 65536 * Capacity(2);
    assert Capacity(6) == 65536 * Capacity(4);
    assert Capacity(8) == 65536 * Capacity(6);
  }
}
