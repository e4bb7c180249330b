/**
 * What single tokens stand for, without reference to the functions that decode them: the code point of a
 * UTF-8 character by its bit fields, the escapes of a string, and whole numbers.
 */
module JsonTokens {
  import opened Common
  import opened Bytes
  import opened JsonTree
  import opened JsonParse
  import opened JsonComplete
  import opened JsonUtf8

  // ---------- characters ----------

  /** The code point in the free bits of a character of one to four bytes (RFC 3629, section 3). */
  function CodePoint(s: seq<Byte>): nat {
    if |s| == 1 then s[0] as nat
    else if |s| == 2 then s[0] as nat % 32 * 64 + s[1] as nat % 64
    else if |s| == 3 then s[0] as nat % 16 * 4096 + s[1] as nat % 64 * 64 + s[2] as nat % 64
    else if |s| == 4 then s[0] as nat % 8 * 262144 + s[1] as nat % 64 * 4096 + s[2] as nat % 64 * 64 + s[3] as nat % 64
    else 0
  }

  /** One whole character. */
  predicate OneCharacter(s: seq<Byte>) {
    |s| > 0 && CharSize(s) == |s|
  }

  predicate Scalar(cp: nat) {
    cp <= 0x10FFFF && !High(cp) && !Low(cp)
  }

  lemma TwoBytesPoint(cp: nat)
    requires 0x80 <= cp < 0x800
    ensures |CharBytes(cp)| == 2 && CodePoint(CharBytes(cp)) == cp
  {
    var x, y := cp / 64, cp % 64;
    assert 2 <= x <= 31;
    assert (0xC0 + x) % 32 == x && (0x80 + y) % 64 == y;
  }

  lemma ThreeBytesPoint(cp: nat)
    requires 0x800 <= cp < 0x10000 && Scalar(cp)
    ensures |CharBytes(cp)| == 3 && CodePoint(CharBytes(cp)) == cp
  {
    var x, y, z := cp / 4096, cp / 64 % 64, cp % 64;
    assert cp / 64 == 64 * x + y;
    assert 0 <= x <= 15;
    assert (0xE0 + x) % 16 == x && (0x80 + y) % 64 == y && (0x80 + z) % 64 == z;
  }

  lemma FourBytesPoint(cp: nat)
    requires 0x10000 <= cp <= 0x10FFFF
    ensures |CharBytes(cp)| == 4 && CodePoint(CharBytes(cp)) == cp
  {
    var w, x, y, z := cp / 262144, cp / 4096 % 64, cp / 64 % 64, cp % 64;
    assert cp / 4096 == 64 * w + x;
    assert cp / 64 == 64 * (64 * w + x) + y;
    assert 0 <= w <= 4;
    assert (0xF0 + w) % 8 == w && (0x80 + x) % 64 == x && (0x80 + y) % 64 == y && (0x80 + z) % 64 == z;
  }

  /** Every code point that is no surrogate is written as one character from which its bits give it back. */
  lemma PointOfBytes(cp: nat)
    requires Scalar(cp)
    ensures OneCharacter(CharBytes(cp)) && CodePoint(CharBytes(cp)) == cp
  {
    if cp < 0x80 {
    } else if cp < 0x800 {
      TwoBytes(cp);
      TwoBytesPoint(cp);
    } else if cp < 0x10000 {
      ThreeBytes(cp);
      ThreeBytesPoint(cp);
    } else {
      FourBytes(cp);
      FourBytesPoint(cp);
    }
  }

  lemma TwoBytesBack(s: seq<Byte>)
    requires OneCharacter(s) && |s| == 2
    ensures Scalar(CodePoint(s)) && CharBytes(CodePoint(s)) == s
  {
    var x, y := s[0] as nat - 0xC0, s[1] as nat - 0x80;
    assert s[0] as nat % 32 == x && s[1] as nat % 64 == y;
    var cp := x * 64 + y;
    assert CodePoint(s) == cp && 0x80 <= cp < 0x800;
    assert cp / 64 == x && cp % 64 == y;
  }

  lemma ThreeBytesBack(s: seq<Byte>)
    requires OneCharacter(s) && |s| == 3
    ensures Scalar(CodePoint(s)) && CharBytes(CodePoint(s)) == s
  {
    var x, y, z := s[0] as nat - 0xE0, s[1] as nat - 0x80, s[2] as nat - 0x80;
    assert s[0] as nat % 16 == x && s[1] as nat % 64 == y && s[2] as nat % 64 == z;
    var cp := x * 4096 + y * 64 + z;
    assert CodePoint(s) == cp && 0x800 <= cp < 0x10000;
    assert cp / 64 == 64 * x + y && cp % 64 == z;
    assert cp / 4096 == x && cp / 64 % 64 == y;
  }

  lemma FourBytesBack(s: seq<Byte>)
    requires OneCharacter(s) && |s| == 4
    ensures Scalar(CodePoint(s)) && CharBytes(CodePoint(s)) == s
  {
    var w, x, y, z := s[0] as nat - 0xF0, s[1] as nat - 0x80, s[2] as nat - 0x80, s[3] as nat - 0x80;
    assert w <= 4 && x <= 63 && y <= 63 && z <= 63 && (w == 0 ==> x >= 16) && (w == 4 ==> x <= 15);
    hide CharSize;
    FreeBits(w, x, y, z);
    assert CodePoint(s) == w * 262144 + x * 4096 + y * 64 + z;
  }

  lemma FreeBits(w: nat, x: nat, y: nat, z: nat)
    requires w <= 4 && x <= 63 && y <= 63 && z <= 63 && (w == 0 ==> x >= 16) && (w == 4 ==> x <= 15)
    ensures (0xF0 + w) % 8 == w && (0x80 + x) % 64 == x && (0x80 + y) % 64 == y && (0x80 + z) % 64 == z
    ensures var cp := w * 262144 + x * 4096 + y * 64 + z;
      && 0x10000 <= cp <= 0x10FFFF && cp % 64 == z && cp / 64 % 64 == y && cp / 4096 % 64 == x && cp / 262144 == w
  {
    var cp := w * 262144 + x * 4096 + y * 64 + z;
    assert cp / 64 == w * 4096 + x * 64 + y && cp % 64 == z;
    assert cp / 4096 == w * 64 + x && cp / 64 % 64 == y;
  }

  /** And every character is the writing of its code point, which is no surrogate. */
  lemma BytesOfPoint(s: seq<Byte>)
    requires OneCharacter(s)
    ensures Scalar(CodePoint(s)) && CharBytes(CodePoint(s)) == s
  {
    if |s| == 2 {
      TwoBytesBack(s);
    } else if |s| == 3 {
      ThreeBytesBack(s);
    } else if |s| == 4 {
      FourBytesBack(s);
    }
  }

  // ---------- escapes ----------

  lemma TreeParses(t: Tree, limit: nat, depth: nat)
    requires TreeOk(t, depth) && |TreeText(t)| <= limit
    ensures Parse(TreeText(t), limit, depth) == Ok(Meaning(t))
  {
    hide Parse, Meaning, TreeOk, TreeText;
    assert [] + (TreeText(t) + []) == TreeText(t);
    RenderingsParse(TreeText(t), [], t, [], limit, depth);
  }

  /** A string of one escape is read as what the escape means. */
  lemma EscapeParses(e: Escape, limit: nat, depth: nat)
    requires EscapeOk(e) && depth > 0 && |EscapeText(e)| + 3 <= limit
    ensures Parse([QUOTE, BACKSLASH] + EscapeText(e) + [QUOTE], limit, depth) == Ok(Text(EscapeMeaning(e)))
  {
    hide Parse, EscapeText, EscapeMeaning;
    var s := Escaped([], e, End([]));
    var t := Quoted(s);
    assert StringText(End([])) == [QUOTE];
    assert TreeText(t) == [QUOTE, BACKSLASH] + EscapeText(e) + [QUOTE];
    assert StringMeaning(s) == EscapeMeaning(e);
    assert ValidUtf8([]);
    assert StringOk(End([])) && StringOk(s);
    TreeParses(t, limit, depth);
  }

  /** The letters that may be escaped and what each stands for (RFC 8259, section 7). */
  const LETTERS: map<Byte, Byte> :=
    map[0x22 := 0x22, 0x5C := 0x5C, 0x2F := 0x2F, 0x62 := 0x08, 0x66 := 0x0C, 0x6E := 0x0A, 0x72 := 0x0D, 0x74 := 0x09]

  /** A string of one escaped letter is that letter's byte; no other byte but the `u` of a code can be escaped. */
  lemma LettersParse(c: Byte, limit: nat, depth: nat)
    requires limit >= 4 && depth > 0
    ensures c in LETTERS ==> Parse([QUOTE, BACKSLASH, c, QUOTE], limit, depth) == Ok(Text([LETTERS[c]]))
    ensures c !in LETTERS && c != LETTER_U ==> Parse([QUOTE, BACKSLASH, c, QUOTE], limit, depth) == Err(Syntax(2))
  {
    var b := [QUOTE, BACKSLASH, c, QUOTE];
    if c in LETTERS {
      EscapeParses(Letter(c), limit, depth);
      assert [QUOTE, BACKSLASH] + [c] + [QUOTE] == b;
    } else if c != LETTER_U {
      assert SkipPlain(b, 1) == 1 && b[1..1] == [];
      assert ParseEscape(b, 2) == Err(Syntax(2));
      assert ValidUtf8([]);
    }
  }

  /** A hexadecimal digit of this value, in either case. */
  predicate HexByte(c: Byte, d: nat) {
    (d < 10 && c as nat == 0x30 + d) || (10 <= d < 16 && (c as nat == 0x41 + d - 10 || c as nat == 0x61 + d - 10))
  }

  /** These four bytes write a number below 65536 in hexadecimal. */
  predicate Writes(hex: seq<Byte>, n: nat) {
    && |hex| == 4 && HexByte(hex[0], n / 4096) && HexByte(hex[1], n / 256 % 16)
    && HexByte(hex[2], n / 16 % 16) && HexByte(hex[3], n % 16)
  }

  lemma HexReads(hex: seq<Byte>, n: nat)
    requires n < 0x10000 && Writes(hex, n)
    ensures HexOk(hex) && HexValue(hex) == n
  {
    DigitReads(hex[0], n / 4096);
    DigitReads(hex[1], n / 256 % 16);
    DigitReads(hex[2], n / 16 % 16);
    DigitReads(hex[3], n % 16);
    hide HexByte, HexDigit;
    FourDigits(hex, n / 4096, n / 256 % 16, n / 16 % 16, n % 16);
    Nibbles(n);
  }

  lemma DigitReads(c: Byte, d: nat)
    requires HexByte(c, d)
    ensures HexDigit(c) == Some(d)
  {
  }

  lemma FourDigits(hex: seq<Byte>, a: nat, b: nat, c: nat, d: nat)
    requires |hex| == 4 && HexDigit(hex[0]) == Some(a) && HexDigit(hex[1]) == Some(b)
    requires HexDigit(hex[2]) == Some(c) && HexDigit(hex[3]) == Some(d)
    ensures HexValue(hex) == 16 * (16 * (16 * a + b) + c) + d
  {
    hide HexDigit;
    assert hex[..3][..2] == hex[..2] && hex[..2][..1] == hex[..1] && hex[..1][..0] == [];
    assert HexValue(hex[..1]) == a;
    assert HexValue(hex[..2]) == 16 * a + b;
    assert HexValue(hex[..3]) == 16 * (16 * a + b) + c;
  }

  lemma Nibbles(n: nat)
    ensures n == 16 * (16 * (16 * (n / 4096) + n / 256 % 16) + n / 16 % 16) + n % 16
  {
    assert n / 256 == 16 * (n / 4096) + n / 256 % 16;
    assert n / 16 == 16 * (n / 256) + n / 16 % 16;
  }

  /** The answer is a text of the one character with this code point. */
  ghost predicate IsCharacter(r: Result<Value, Fault>, cp: nat) {
    r.Ok? && r.value.Text? && OneCharacter(r.value.bytes) && CodePoint(r.value.bytes) == cp
  }

  /** A string of one four-digit code is the character with that code point; a lone low surrogate is U+FFFD. */
  lemma CodeParses(hex: seq<Byte>, cp: nat, limit: nat, depth: nat)
    requires cp < 0x10000 && Writes(hex, cp) && !High(cp) && limit >= 8 && depth > 0
    ensures IsCharacter(Parse([QUOTE, BACKSLASH, LETTER_U] + hex + [QUOTE], limit, depth), if Low(cp) then 0xFFFD else cp)
  {
    hide Parse, Writes, CharBytes, HexValue, CodePoint;
    HexReads(hex, cp);
    EscapeParses(Unit(hex), limit, depth);
    assert [QUOTE, BACKSLASH] + ([LETTER_U] + hex) + [QUOTE] == [QUOTE, BACKSLASH, LETTER_U] + hex + [QUOTE];
    if Low(cp) {
      Replacement(cp);
    } else {
      PointOfBytes(cp);
    }
  }

  lemma Replacement(cp: nat)
    requires Low(cp)
    ensures OneCharacter(CharBytes(cp)) && CodePoint(CharBytes(cp)) == 0xFFFD
  {
  }

  /** A string of one surrogate pair is the character above the basic plane that the pair was made from. */
  lemma PairParses(hi: seq<Byte>, lo: seq<Byte>, cp: nat, limit: nat, depth: nat)
    requires 0x10000 <= cp <= 0x10FFFF && limit >= 14 && depth > 0
    requires Writes(hi, 0xD800 + (cp - 0x10000) / 1024) && Writes(lo, 0xDC00 + (cp - 0x10000) % 1024)
    ensures IsCharacter(Parse([QUOTE, BACKSLASH, LETTER_U] + hi + [BACKSLASH, LETTER_U] + lo + [QUOTE], limit, depth), cp)
  {
    hide Parse, Writes, CharBytes, HexValue, CodePoint;
    var h, l := 0xD800 + (cp - 0x10000) / 1024, 0xDC00 + (cp - 0x10000) % 1024;
    PairsAreExact(cp, h, l);
    HexReads(hi, h);
    HexReads(lo, l);
    EscapeParses(Pair(hi, lo), limit, depth);
    assert [QUOTE, BACKSLASH] + ([LETTER_U] + (hi + ([BACKSLASH, LETTER_U] + lo))) + [QUOTE]
      == [QUOTE, BACKSLASH, LETTER_U] + hi + [BACKSLASH, LETTER_U] + lo + [QUOTE];
    PointOfBytes(cp);
  }

  // ---------- numbers and words ----------

  /** A number written in decimal without leading zeros. */
  function DecimalText(n: nat): seq<Byte> {
    if n < 10 then [(0x30 + n) as Byte] else DecimalText(n / 10) + [(0x30 + n % 10) as Byte]
  }

  lemma {:induction false} DecimalReads(n: nat)
    ensures var s := DecimalText(n);
      s != [] && AllDigits(s) && Decimal(s) == n && (s[0] == ZERO <==> n == 0) && (n < 10 ==> |s| == 1)
  {
    var s := DecimalText(n);
    if n < 10 {
      assert s[..0] == [];
    } else {
      DecimalReads(n / 10);
      assert s[..|s| - 1] == DecimalText(n / 10);
    }
  }

  /** A whole number is read exactly when it fits 64 bits, signed behind a minus; otherwise its text is kept. */
  lemma WholeParses(n: nat, limit: nat, depth: nat)
    requires |DecimalText(n)| < limit && depth > 0
    ensures Parse(DecimalText(n), limit, depth) == Ok(Num(if n < 0x1_0000_0000_0000_0000 then Uint(n) else Float(DecimalText(n))))
    ensures Parse([MINUS] + DecimalText(n), limit, depth)
      == Ok(Num(if n <= 0x8000_0000_0000_0000 then Int(0 - n) else Float([MINUS] + DecimalText(n))))
  {
    hide Parse, DecimalText, Decimal;
    var s := DecimalText(n);
    DecimalReads(n);
    var plain, minus := NumberTree(false, s, None, None), NumberTree(true, s, None, None);
    assert s + ([] + []) == s && [] + s == s;
    assert NumberText(plain) == s && NumberText(minus) == [MINUS] + s;
    TreeParses(Numeral(plain), limit, depth);
    TreeParses(Numeral(minus), limit, depth);
  }

  /** The three words. */
  lemma WordsParse(limit: nat, depth: nat)
    requires limit >= 5 && depth > 0
    ensures Parse([0x6E, 0x75, 0x6C, 0x6C], limit, depth) == Ok(Null)
    ensures Parse([0x74, 0x72, 0x75, 0x65], limit, depth) == Ok(Bool(true))
    ensures Parse([0x66, 0x61, 0x6C, 0x73, 0x65], limit, depth) == Ok(Bool(false))
  {
    hide Parse;
    TreeParses(NullWord, limit, depth);
    TreeParses(TrueWord, limit, depth);
    TreeParses(FalseWord, limit, depth);
  }
}
