/** Decoded strings are UTF-8 again, whatever mix of raw bytes and escapes they were written with. */
module JsonUtf8 {
  import opened Common
  import opened Bytes
  import opened JsonTree
  import opened JsonParse
  import opened JsonSound

  /** The bytes of a character alone decide its size. */
  lemma SizeInFront(a: seq<Byte>, b: seq<Byte>)
    requires CharSize(a) > 0
    ensures CharSize(a + b) == CharSize(a)
  {
    var s := a + b;
    assert s[0] == a[0];
    assert |a| >= 2 ==> s[1] == a[1];
    assert |a| >= 3 ==> s[2] == a[2];
    assert |a| >= 4 ==> s[3] == a[3];
    TwoSizes(a, s);
  }

  lemma TwoSizes(a: seq<Byte>, s: seq<Byte>)
    requires CharSize(a) > 0 && |s| >= |a|
    requires forall k :: 0 <= k < 4 && k < |a| ==> s[k] == a[k]
    ensures CharSize(s) == CharSize(a)
  {
  }

  lemma {:induction false} ValidConcat(a: seq<Byte>, b: seq<Byte>)
    requires ValidUtf8(a) && ValidUtf8(b)
    ensures ValidUtf8(a + b)
    decreases |a|
  {
    if |a| == 0 {
      assert a + b == b;
    } else {
      var k := CharSize(a);
      SizeInFront(a, b);
      assert (a + b)[k..] == a[k..] + b;
      ValidConcat(a[k..], b);
    }
  }

  lemma OneChar(s: seq<Byte>)
    requires |s| > 0 && CharSize(s) == |s|
    ensures ValidUtf8(s)
  {
    assert s[|s|..] == [];
    assert ValidUpTo([]) == 0;
  }

  /** Every code point an escape can name becomes one UTF-8 character. */
  lemma CharBytesValid(cp: nat)
    requires cp <= 0x10FFFF
    ensures ValidUtf8(CharBytes(cp))
  {
    var s := CharBytes(cp);
    if cp < 0x80 {
    } else if cp < 0x800 {
      TwoBytes(cp);
    } else if High(cp) || Low(cp) {
    } else if cp < 0x10000 {
      ThreeBytes(cp);
    } else {
      FourBytes(cp);
    }
    OneChar(s);
  }

  lemma TwoBytes(cp: nat)
    requires 0x80 <= cp < 0x800
    ensures CharSize(CharBytes(cp)) == 2
  {
    assert 2 <= cp / 64 <= 31;
  }

  lemma ThreeBytes(cp: nat)
    requires 0x800 <= cp < 0x10000 && !High(cp) && !Low(cp)
    ensures CharSize(CharBytes(cp)) == 3
  {
    var x, y := cp / 4096, cp / 64 % 64;
    assert cp / 64 == 64 * x + y;
    assert 0 <= x <= 15 && 0 <= y <= 63;
    assert x == 0 ==> y >= 32;
    assert x == 13 ==> y < 32;
  }

  lemma FourBytes(cp: nat)
    requires 0x10000 <= cp <= 0x10FFFF
    ensures CharSize(CharBytes(cp)) == 4
  {
    var x, y := cp / 262144, cp / 4096 % 64;
    assert cp / 4096 == 64 * x + y;
    assert 0 <= x <= 4 && 0 <= y <= 63;
    assert x == 0 ==> y >= 16;
    assert x == 4 ==> y < 16;
  }

  lemma {:induction false} HexBound(hex: seq<Byte>)
    requires HexOk(hex)
    ensures HexValue(hex) < 0x10000
  {
    assert hex[..3][..2] == hex[..2] && hex[..2][..1] == hex[..1] && hex[..1][..0] == [];
    assert HexValue(hex[..1]) < 16;
    assert HexValue(hex[..2]) < 256;
    assert HexValue(hex[..3]) < 4096;
  }

  lemma EscapeIsUtf8(e: Escape)
    requires EscapeOk(e)
    ensures ValidUtf8(EscapeMeaning(e))
  {
    match e
    case Letter(c) => OneChar(EscapeMeaning(e));
    case Unit(hex) =>
      HexBound(hex);
      CharBytesValid(HexValue(hex));
    case Pair(hi, lo) => CharBytesValid(PairValue(HexValue(hi), HexValue(lo)));
  }

  lemma {:induction false} StringIsUtf8(s: StringTree)
    requires StringOk(s)
    ensures ValidUtf8(StringMeaning(s))
  {
    if s.Escaped? {
      EscapeIsUtf8(s.escape);
      StringIsUtf8(s.rest);
      ValidConcat(EscapeMeaning(s.escape), StringMeaning(s.rest));
      ValidConcat(s.run, EscapeMeaning(s.escape) + StringMeaning(s.rest));
    }
  }

  /** Whatever string the parser returns is valid UTF-8. */
  lemma ParsedStringIsUtf8(b: seq<Byte>, pos: nat)
    requires pos <= |b| && ParseString(b, pos, []).Ok?
    ensures ValidUtf8(ParseString(b, pos, []).value.0)
  {
    hide ParseString, ValidUtf8;
    var (out, end) := ParseString(b, pos, []).value;
    var s := StringOf(b, pos, [], out, end);
    StringIsUtf8(s);
    assert [] + StringMeaning(s) == StringMeaning(s);
  }

  /** A surrogate pair names the code point it was made from, and every pair names one above the basic plane. */
  lemma PairsAreExact(cp: nat, hi: nat, lo: nat)
    ensures 0x10000 <= cp <= 0x10FFFF ==>
      var h, l := 0xD800 + (cp - 0x10000) / 1024, 0xDC00 + (cp - 0x10000) % 1024;
      High(h) && Low(l) && PairValue(h, l) == cp
    ensures High(hi) && Low(lo) ==>
      var c := PairValue(hi, lo);
      0x10000 <= c <= 0x10FFFF && hi == 0xD800 + (c - 0x10000) / 1024 && lo == 0xDC00 + (c - 0x10000) % 1024
  {
    if High(hi) && Low(lo) {
      var low := lo - 0xDC00;
      assert ((hi - 0xD800) * 1024 + low) / 1024 == hi - 0xD800;
    }
  }
}
