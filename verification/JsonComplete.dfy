/** Every well-formed text is accepted with its meaning. */
module JsonComplete {
  import opened Common
  import opened Bytes
  import opened JsonTree
  import opened JsonParse

  /** The end of the input or a byte that cannot continue a token. */
  predicate Delimited(b: seq<Byte>, pos: nat) {
    pos >= |b| || IsSpace(b[pos]) || b[pos] == COMMA || b[pos] == CLOSE_ARRAY || b[pos] == CLOSE_OBJECT
  }

  // ---------- texts inside the input ----------

  lemma SplitWord(b: seq<Byte>, pos: nat, s: seq<Byte>, t: seq<Byte>)
    requires WordAt(b, pos, s + t)
    ensures WordAt(b, pos, s) && WordAt(b, pos + |s|, t)
  {
    assert forall k :: 0 <= k < |s| ==> s[k] == (s + t)[k];
    assert forall k :: 0 <= k < |t| ==> t[k] == (s + t)[|s| + k];
  }

  lemma SliceIs(b: seq<Byte>, pos: nat, s: seq<Byte>)
    requires WordAt(b, pos, s)
    ensures b[pos..pos + |s|] == s
  {
  }

  lemma FirstOf(b: seq<Byte>, pos: nat, c: Byte, t: seq<Byte>)
    requires WordAt(b, pos, [c] + t)
    ensures PeekIs(b, pos, c) && WordAt(b, pos + 1, t)
  {
    SplitWord(b, pos, [c], t);
    assert [c][0] == c;
  }

  lemma {:induction false} SpaceAt(b: seq<Byte>, pos: nat, s: seq<Byte>)
    requires WordAt(b, pos, s) && AllSpace(s) && (pos + |s| < |b| ==> !IsSpace(b[pos + |s|]))
    ensures SkipSpace(b, pos) == pos + |s|
    decreases |s|
  {
    if |s| > 0 {
      assert s == [s[0]] + s[1..];
      FirstOf(b, pos, s[0], s[1..]);
      SpaceAt(b, pos + 1, s[1..]);
    }
  }

  lemma {:induction false} DigitsAt(b: seq<Byte>, pos: nat, s: seq<Byte>)
    requires WordAt(b, pos, s) && AllDigits(s) && (pos + |s| < |b| ==> !IsDigit(b[pos + |s|]))
    ensures SkipDigits(b, pos) == pos + |s|
    decreases |s|
  {
    if |s| > 0 {
      assert s == [s[0]] + s[1..];
      FirstOf(b, pos, s[0], s[1..]);
      DigitsAt(b, pos + 1, s[1..]);
    }
  }

  lemma {:induction false} PlainAt(b: seq<Byte>, pos: nat, s: seq<Byte>)
    requires WordAt(b, pos, s) && AllPlain(s) && (pos + |s| < |b| ==> !Plain(b[pos + |s|]))
    ensures SkipPlain(b, pos) == pos + |s|
    decreases |s|
  {
    if |s| > 0 {
      assert s == [s[0]] + s[1..];
      FirstOf(b, pos, s[0], s[1..]);
      PlainAt(b, pos + 1, s[1..]);
    }
  }

  // ---------- strings ----------

  lemma HexAt(b: seq<Byte>, pos: nat, hex: seq<Byte>)
    requires WordAt(b, pos, hex) && HexOk(hex)
    ensures ParseHex(b, pos, 4, 0) == Ok((HexValue(hex), pos + 4))
  {
    assert b[pos] == hex[0] && b[pos + 1] == hex[1] && b[pos + 2] == hex[2] && b[pos + 3] == hex[3];
    HexOfFour(hex);
    var d0, d1, d2, d3 := HexDigit(hex[0]).value, HexDigit(hex[1]).value, HexDigit(hex[2]).value, HexDigit(hex[3]).value;
    assert ParseHex(b, pos + 4, 0, ((d0 * 16 + d1) * 16 + d2) * 16 + d3) == Ok((((d0 * 16 + d1) * 16 + d2) * 16 + d3, pos + 4));
    assert ParseHex(b, pos + 3, 1, (d0 * 16 + d1) * 16 + d2) == ParseHex(b, pos + 4, 0, ((d0 * 16 + d1) * 16 + d2) * 16 + d3);
    assert ParseHex(b, pos + 2, 2, d0 * 16 + d1) == ParseHex(b, pos + 3, 1, (d0 * 16 + d1) * 16 + d2);
    assert ParseHex(b, pos + 1, 3, d0) == ParseHex(b, pos + 2, 2, d0 * 16 + d1);
  }

  lemma HexOfFour(hex: seq<Byte>)
    requires HexOk(hex)
    ensures HexValue(hex) == ((HexDigit(hex[0]).value * 16 + HexDigit(hex[1]).value) * 16 + HexDigit(hex[2]).value) * 16
      + HexDigit(hex[3]).value
  {
    assert hex[..3][..2] == hex[..2] && hex[..2][..1] == hex[..1] && hex[..1][..0] == [];
    assert HexValue(hex[..1]) == HexDigit(hex[0]).value;
    assert HexValue(hex[..2]) == 16 * HexValue(hex[..1]) + HexDigit(hex[1]).value;
    assert HexValue(hex[..3]) == 16 * HexValue(hex[..2]) + HexDigit(hex[2]).value;
  }

  lemma PairAt(b: seq<Byte>, pos: nat, hi: seq<Byte>, lo: seq<Byte>)
    requires EscapeOk(Pair(hi, lo)) && WordAt(b, pos, hi + ([BACKSLASH, LETTER_U] + lo))
    ensures ParseUnicode(b, pos) == Ok((CharBytes(PairValue(HexValue(hi), HexValue(lo))), pos + 10))
  {
    SplitWord(b, pos, hi, [BACKSLASH, LETTER_U] + lo);
    HexAt(b, pos, hi);
    SplitWord(b, pos + 4, [BACKSLASH, LETTER_U], lo);
    HexAt(b, pos + 6, lo);
  }

  lemma UnitAt(b: seq<Byte>, pos: nat, hex: seq<Byte>)
    requires EscapeOk(Unit(hex)) && WordAt(b, pos, hex)
    ensures ParseUnicode(b, pos) == Ok((CharBytes(HexValue(hex)), pos + 4))
  {
    hide CharBytes, HexValue;
    HexAt(b, pos, hex);
  }

  lemma UnicodeAt(b: seq<Byte>, pos: nat, tail: seq<Byte>)
    requires WordAt(b, pos, [LETTER_U] + tail)
    ensures WordAt(b, pos + 1, tail) && ParseEscape(b, pos) == ParseUnicode(b, pos + 1)
  {
    FirstOf(b, pos, LETTER_U, tail);
  }

  lemma EscapeAt(b: seq<Byte>, pos: nat, e: Escape)
    requires EscapeOk(e) && WordAt(b, pos, EscapeText(e))
    ensures ParseEscape(b, pos) == Ok((EscapeMeaning(e), pos + |EscapeText(e)|))
  {
    hide ParseUnicode, HexValue, CharBytes;
    match e
    case Letter(c) =>
      FirstOf(b, pos, c, []);
    case Unit(hex) =>
      UnicodeAt(b, pos, hex);
      UnitAt(b, pos + 1, hex);
    case Pair(hi, lo) =>
      UnicodeAt(b, pos, hi + ([BACKSLASH, LETTER_U] + lo));
      PairAt(b, pos + 1, hi, lo);
  }

  lemma RunAt(b: seq<Byte>, pos: nat, run: seq<Byte>, c: Byte, tail: seq<Byte>)
    requires AllPlain(run) && !Plain(c) && WordAt(b, pos, run + ([c] + tail))
    ensures SkipPlain(b, pos) == pos + |run| && b[pos..pos + |run|] == run
    ensures PeekIs(b, pos + |run|, c) && WordAt(b, pos + |run| + 1, tail)
  {
    SplitWord(b, pos, run, [c] + tail);
    FirstOf(b, pos + |run|, c, tail);
    PlainAt(b, pos, run);
  }

  /** One turn of the loop over a string. */
  lemma StringTurn(b: seq<Byte>, pos: nat, text: seq<Byte>, run: seq<Byte>, piece: seq<Byte>, next: nat)
    requires pos + |run| <= |b| && SkipPlain(b, pos) == pos + |run| && b[pos..pos + |run|] == run && ValidUtf8(run)
    requires PeekIs(b, pos + |run|, BACKSLASH) && ParseEscape(b, pos + |run| + 1) == Ok((piece, next))
    ensures next <= |b| && ParseString(b, pos, text) == ParseString(b, next, text + run + piece)
  {
    hide ParseEscape, SkipPlain, ValidUtf8;
  }

  lemma StringEnds(b: seq<Byte>, pos: nat, text: seq<Byte>, run: seq<Byte>)
    requires pos + |run| <= |b| && SkipPlain(b, pos) == pos + |run| && b[pos..pos + |run|] == run && ValidUtf8(run)
    requires PeekIs(b, pos + |run|, QUOTE)
    ensures ParseString(b, pos, text) == Ok((text + run, pos + |run| + 1))
  {
    hide ParseEscape, SkipPlain, ValidUtf8;
  }

  lemma EscapedAt(b: seq<Byte>, pos: nat, run: seq<Byte>, escape: Escape, rest: seq<Byte>, text: seq<Byte>) returns (next: nat)
    requires AllPlain(run) && ValidUtf8(run) && EscapeOk(escape)
    requires WordAt(b, pos, run + ([BACKSLASH] + (EscapeText(escape) + rest)))
    ensures next == pos + |run| + 1 + |EscapeText(escape)| <= |b| && WordAt(b, next, rest)
    ensures ParseString(b, pos, text) == ParseString(b, next, text + run + EscapeMeaning(escape))
  {
    hide ParseString, ParseEscape, SkipPlain, WordAt, AllPlain, ValidUtf8, EscapeOk, EscapeText, EscapeMeaning;
    RunAt(b, pos, run, BACKSLASH, EscapeText(escape) + rest);
    var at := pos + |run| + 1;
    SplitWord(b, at, EscapeText(escape), rest);
    EscapeAt(b, at, escape);
    next := at + |EscapeText(escape)|;
    StringTurn(b, pos, text, run, EscapeMeaning(escape), next);
  }

  lemma EndAt(b: seq<Byte>, pos: nat, run: seq<Byte>, text: seq<Byte>)
    requires AllPlain(run) && ValidUtf8(run) && WordAt(b, pos, run + [QUOTE])
    ensures ParseString(b, pos, text) == Ok((text + run, pos + |run| + 1))
  {
    hide ParseString, SkipPlain, WordAt, AllPlain, ValidUtf8;
    assert run + [QUOTE] == run + ([QUOTE] + []);
    RunAt(b, pos, run, QUOTE, []);
    StringEnds(b, pos, text, run);
  }

  lemma {:induction false} StringAt(b: seq<Byte>, pos: nat, s: StringTree, text: seq<Byte>)
    requires StringOk(s) && WordAt(b, pos, StringText(s))
    ensures ParseString(b, pos, text) == Ok((text + StringMeaning(s), pos + |StringText(s)|))
    decreases s, 0
  {
    hide ParseString, WordAt, AllPlain, ValidUtf8, EscapeOk, EscapeText, EscapeMeaning;
    if s.End? {
      EndAt(b, pos, s.run, text);
    } else {
      MoreAt(b, pos, s.run, s.escape, s.rest, text);
      EscapedShape(s, text);
    }
  }

  lemma {:induction false} MoreAt(b: seq<Byte>, pos: nat, run: seq<Byte>, escape: Escape, rest: StringTree, text: seq<Byte>)
    requires AllPlain(run) && ValidUtf8(run) && EscapeOk(escape) && StringOk(rest)
    requires WordAt(b, pos, StringText(Escaped(run, escape, rest)))
    ensures ParseString(b, pos, text)
      == Ok((text + run + EscapeMeaning(escape) + StringMeaning(rest), pos + |run| + 1 + |EscapeText(escape)| + |StringText(rest)|))
    decreases rest, 1
  {
    hide ParseString, WordAt, AllPlain, ValidUtf8, EscapeOk, EscapeText, EscapeMeaning, StringOk, StringText, StringMeaning;
    EscapedShape(Escaped(run, escape, rest), text);
    var next := EscapedAt(b, pos, run, escape, StringText(rest), text);
    StringAt(b, next, rest, text + run + EscapeMeaning(escape));
  }

  lemma EscapedShape(s: StringTree, text: seq<Byte>)
    requires s.Escaped?
    ensures StringText(s) == s.run + ([BACKSLASH] + (EscapeText(s.escape) + StringText(s.rest)))
    ensures |StringText(s)| == |s.run| + 1 + |EscapeText(s.escape)| + |StringText(s.rest)|
    ensures text + s.run + EscapeMeaning(s.escape) + StringMeaning(s.rest) == text + StringMeaning(s)
  {
    Join(text, s.run, EscapeMeaning(s.escape), StringMeaning(s.rest));
  }

  lemma Join(p: seq<Byte>, q: seq<Byte>, r: seq<Byte>, t: seq<Byte>)
    ensures p + q + r + t == p + (q + (r + t))
  {
  }

  // ---------- numbers ----------

  lemma WholeAt(b: seq<Byte>, pos: nat, whole: seq<Byte>)
    requires WordAt(b, pos, whole) && whole != [] && AllDigits(whole) && (whole[0] == ZERO ==> |whole| == 1)
    requires pos + |whole| < |b| ==> !IsDigit(b[pos + |whole|])
    ensures ParseWhole(b, pos) == Ok(pos + |whole|)
  {
    assert whole == [whole[0]] + whole[1..];
    FirstOf(b, pos, whole[0], whole[1..]);
    if whole[0] != ZERO {
      DigitsAt(b, pos + 1, whole[1..]);
    }
  }

  lemma DigitRun(b: seq<Byte>, pos: nat, digits: seq<Byte>)
    requires WordAt(b, pos, digits) && digits != [] && AllDigits(digits)
    requires pos + |digits| < |b| ==> !IsDigit(b[pos + |digits|])
    ensures ParseDigits(b, pos) == Ok(pos + |digits|)
  {
    DigitsAt(b, pos, digits);
  }

  lemma ExponentTextAt(b: seq<Byte>, pos: nat, e: Option<Exponent>)
    requires WordAt(b, pos, ExponentText(e)) && (e.Some? ==> ExponentOk(e.value))
    requires Delimited(b, pos + |ExponentText(e)|)
    ensures ParseExponent(b, pos) == Ok(pos + |ExponentText(e)|)
    ensures pos < |b| ==> !IsDigit(b[pos]) && b[pos] != DOT
  {
    if e.Some? {
      var x := e.value;
      FirstOf(b, pos, x.letter, x.sign + x.digits);
      SplitWord(b, pos + 1, x.sign, x.digits);
      DigitRun(b, pos + 1 + |x.sign|, x.digits);
      if x.sign != [] {
        assert b[pos + 1] == x.sign[0];
      } else {
        assert b[pos + 1] == x.digits[0];
      }
    }
  }

  lemma FractionTextAt(b: seq<Byte>, pos: nat, f: Option<seq<Byte>>)
    requires WordAt(b, pos, FractionText(f)) && (f.Some? ==> f.value != [] && AllDigits(f.value))
    requires var end := pos + |FractionText(f)|; end < |b| ==> !IsDigit(b[end]) && b[end] != DOT
    ensures ParseFraction(b, pos) == Ok(pos + |FractionText(f)|)
    ensures pos < |b| ==> !IsDigit(b[pos])
  {
    if f.Some? {
      FirstOf(b, pos, DOT, f.value);
      DigitRun(b, pos + 1, f.value);
    }
  }

  /** Where the parts of a number end. */
  lemma NumberParts(b: seq<Byte>, pos: nat, n: NumberTree, f: seq<Byte>, e: seq<Byte>)
    requires NumberOk(n) && f == FractionText(n.fraction) && e == ExponentText(n.exponent)
    requires WordAt(b, pos, n.whole + (f + e)) && Delimited(b, pos + |n.whole| + |f| + |e|)
    ensures pos + |n.whole| + |f| + |e| <= |b|
    ensures ParseExponent(b, pos + |n.whole| + |f|) == Ok(pos + |n.whole| + |f| + |e|)
    ensures ParseFraction(b, pos + |n.whole|) == Ok(pos + |n.whole| + |f|)
    ensures ParseWhole(b, pos) == Ok(pos + |n.whole|)
    ensures IsDigit(b[pos])
  {
    SplitWord(b, pos, n.whole, f + e);
    SplitWord(b, pos + |n.whole|, f, e);
    ExponentTextAt(b, pos + |n.whole| + |f|, n.exponent);
    FractionTextAt(b, pos + |n.whole|, n.fraction);
    WholeAt(b, pos, n.whole);
    assert n.whole[0] == b[pos];
  }

  lemma NumberTurn(b: seq<Byte>, pos: nat, start: nat, whole: nat, fraction: nat, end: nat)
    requires pos <= start <= |b| && start == (if PeekIs(b, pos, MINUS) then pos + 1 else pos)
    requires ParseWhole(b, start) == Ok(whole) && ParseFraction(b, whole) == Ok(fraction) && ParseExponent(b, fraction) == Ok(end)
    ensures end <= |b| && ParseNumber(b, pos) == Ok((NumberOf(b[pos..end], end != whole), end))
  {
  }

  lemma NumberBody(b: seq<Byte>, pos: nat, start: nat, n: NumberTree, f: seq<Byte>, e: seq<Byte>)
    requires NumberOk(n) && f == FractionText(n.fraction) && e == ExponentText(n.exponent)
    requires pos <= start && WordAt(b, start, n.whole + (f + e)) && Delimited(b, start + |n.whole| + |f| + |e|)
    requires if n.minus then PeekIs(b, pos, MINUS) && start == pos + 1 else start == pos
    ensures var end := start + |n.whole| + |f| + |e|;
      end <= |b| && ParseNumber(b, pos) == Ok((NumberOf(b[pos..end], n.fraction.Some? || n.exponent.Some?), end))
    ensures b[pos] == MINUS || IsDigit(b[pos])
  {
    hide ParseNumber, ParseWhole, ParseFraction, ParseExponent, NumberOf, WordAt, Delimited;
    NumberParts(b, start, n, f, e);
    NumberTurn(b, pos, start, start + |n.whole|, start + |n.whole| + |f|, start + |n.whole| + |f| + |e|);
  }

  lemma NumberAt(b: seq<Byte>, pos: nat, n: NumberTree)
    requires NumberOk(n) && WordAt(b, pos, NumberText(n)) && Delimited(b, pos + |NumberText(n)|)
    ensures ParseNumber(b, pos) == Ok((NumberMeaning(n), pos + |NumberText(n)|))
    ensures b[pos] == MINUS || IsDigit(b[pos])
  {
    hide ParseNumber, NumberOf, NumberMeaning, FractionText, ExponentText, Delimited;
    var f, e := FractionText(n.fraction), ExponentText(n.exponent);
    var sign := if n.minus then [MINUS] else [];
    SplitWord(b, pos, sign, n.whole + (f + e));
    if n.minus {
      assert sign[0] == b[pos];
    }
    NumberBody(b, pos, pos + |sign|, n, f, e);
    NumberTextMeans(n);
    SliceIs(b, pos, NumberText(n));
  }

  lemma NumberTextMeans(n: NumberTree)
    requires NumberOk(n)
    ensures NumberOf(NumberText(n), n.fraction.Some? || n.exponent.Some?) == NumberMeaning(n)
  {
    if n.fraction.None? && n.exponent.None? {
      if n.minus {
        assert NumberText(n) == [MINUS] + n.whole;
        assert NumberText(n)[1..] == n.whole;
      } else {
        assert NumberText(n) == n.whole;
      }
    }
  }

  // ---------- values ----------

  /** White space in front of something that is none. */
  lemma SpaceThen(b: seq<Byte>, pos: nat, space: seq<Byte>, c: Byte, tail: seq<Byte>)
    requires AllSpace(space) && !IsSpace(c) && WordAt(b, pos, space + ([c] + tail))
    ensures SkipSpace(b, pos) == pos + |space| && PeekIs(b, pos + |space|, c) && WordAt(b, pos + |space| + 1, tail)
  {
    SplitWord(b, pos, space, [c] + tail);
    FirstOf(b, pos + |space|, c, tail);
    SpaceAt(b, pos, space);
  }

  lemma TreeStarts(t: Tree, room: nat)
    requires TreeOk(t, room)
    ensures |TreeText(t)| > 0 && !IsSpace(TreeText(t)[0])
    ensures TreeText(t)[0] != CLOSE_ARRAY && TreeText(t)[0] != CLOSE_OBJECT
  {
    if t.Numeral? {
      var n := t.number;
      assert n.minus ==> NumberText(n)[0] == MINUS;
      assert !n.minus ==> NumberText(n)[0] == n.whole[0];
    }
  }

  /** White space, a value, white space and what follows. */
  lemma SpacedParts(b: seq<Byte>, pos: nat, before: seq<Byte>, t: Tree, room: nat, after: seq<Byte>, c: Byte, tail: seq<Byte>)
    requires AllSpace(before) && AllSpace(after) && TreeOk(t, room) && !IsSpace(c)
    requires c == COMMA || c == CLOSE_ARRAY || c == CLOSE_OBJECT
    requires WordAt(b, pos, before + (TreeText(t) + (after + ([c] + tail))))
    ensures SkipSpace(b, pos) == pos + |before| && WordAt(b, pos + |before|, TreeText(t))
    ensures var end := pos + |before| + |TreeText(t)|;
      && Delimited(b, end) && end + |after| < |b| && SkipSpace(b, end) == end + |after|
      && PeekIs(b, end + |after|, c) && WordAt(b, end + |after| + 1, tail)
  {
    var word := TreeText(t);
    TreeStarts(t, room);
    SplitWord(b, pos, before, word + (after + ([c] + tail)));
    SplitWord(b, pos + |before|, word, after + ([c] + tail));
    assert word[0] == b[pos + |before|];
    SpaceAt(b, pos, before);
    var end := pos + |before| + |word|;
    SpaceThen(b, end, after, c, tail);
    if after != [] {
      SplitWord(b, end, after, [c] + tail);
      assert after[0] == b[end];
    }
  }

  lemma WordsAt(b: seq<Byte>, pos: nat, t: Tree, room: nat)
    requires t.NullWord? || t.TrueWord? || t.FalseWord?
    requires room > 0 && WordAt(b, pos, TreeText(t))
    ensures ParseValue(b, pos, room) == Ok((Meaning(t), pos + |TreeText(t)|))
  {
    assert TreeText(t)[0] == b[pos];
  }

  lemma QuotedAt(b: seq<Byte>, pos: nat, s: StringTree, room: nat)
    requires room > 0 && StringOk(s) && WordAt(b, pos, [QUOTE] + StringText(s))
    ensures ParseValue(b, pos, room) == Ok((Text(StringMeaning(s)), pos + 1 + |StringText(s)|))
  {
    hide ParseString, ParseNumber, ParseMembers, ParseItems, ParseWord, SkipSpace, StringText, StringMeaning, StringOk, WordAt;
    FirstOf(b, pos, QUOTE, StringText(s));
    StringAt(b, pos + 1, s, []);
    assert [] + StringMeaning(s) == StringMeaning(s);
  }

  lemma NumeralAt(b: seq<Byte>, pos: nat, n: NumberTree, room: nat)
    requires room > 0 && NumberOk(n) && WordAt(b, pos, NumberText(n)) && Delimited(b, pos + |NumberText(n)|)
    ensures ParseValue(b, pos, room) == Ok((Num(NumberMeaning(n)), pos + |NumberText(n)|))
  {
    hide ParseString, ParseNumber, ParseMembers, ParseItems, ParseWord, SkipSpace, NumberText, NumberMeaning, NumberOk, WordAt, Delimited;
    NumberAt(b, pos, n);
  }

  lemma EmptyAt(b: seq<Byte>, pos: nat, t: Tree, room: nat)
    requires (t.EmptyArray? || t.EmptyObject?) && room > 0 && AllSpace(t.space) && WordAt(b, pos, TreeText(t))
    ensures ParseValue(b, pos, room) == Ok((Meaning(t), pos + |TreeText(t)|))
  {
    var first, last := if t.EmptyArray? then OPEN_ARRAY else OPEN_OBJECT, if t.EmptyArray? then CLOSE_ARRAY else CLOSE_OBJECT;
    assert TreeText(t) == [first] + (t.space + ([last] + []));
    FirstOf(b, pos, first, t.space + ([last] + []));
    SpaceThen(b, pos + 1, t.space, last, []);
  }

  /** What closes or continues a list, and the text behind it. */
  function ItemsMark(items: Items): Byte {
    if items.LastItem? then CLOSE_ARRAY else COMMA
  }

  function ItemsRest(items: Items): seq<Byte> {
    if items.LastItem? then [] else ItemsText(items.rest)
  }

  lemma ItemsShape(items: Items)
    ensures ItemsText(items) == items.before + (TreeText(items.value) + (items.after + ([ItemsMark(items)] + ItemsRest(items))))
  {
    assert [CLOSE_ARRAY] + [] == [CLOSE_ARRAY];
  }

  lemma ItemParts(b: seq<Byte>, pos: nat, items: Items, room: nat)
    requires ItemsOk(items, room) && WordAt(b, pos, ItemsText(items))
    ensures SkipSpace(b, pos) == pos + |items.before| && WordAt(b, pos + |items.before|, TreeText(items.value))
    ensures var end := pos + |items.before| + |TreeText(items.value)|;
      && Delimited(b, end) && end + |items.after| < |b| && SkipSpace(b, end) == end + |items.after|
      && PeekIs(b, end + |items.after|, ItemsMark(items)) && WordAt(b, end + |items.after| + 1, ItemsRest(items))
      && |ItemsText(items)| == end + |items.after| + 1 + |ItemsRest(items)| - pos
  {
    ItemsShape(items);
    SpacedParts(b, pos, items.before, items.value, room, items.after, ItemsMark(items), ItemsRest(items));
  }

  lemma ItemsTurn(b: seq<Byte>, pos: nat, room: nat, done: seq<Value>, start: nat, v: Value, end: nat, at: nat)
    requires pos <= |b| && start == SkipSpace(b, pos) && ParseValue(b, start, room) == Ok((v, end)) && at == SkipSpace(b, end)
    ensures PeekIs(b, at, COMMA) ==> ParseItems(b, pos, room, done) == ParseItems(b, at + 1, room, done + [v])
    ensures PeekIs(b, at, CLOSE_ARRAY) ==> ParseItems(b, pos, room, done) == Ok((List(done + [v]), at + 1))
  {
  }

  lemma {:induction false} ItemsAt(b: seq<Byte>, pos: nat, items: Items, room: nat, done: seq<Value>)
    requires ItemsOk(items, room) && WordAt(b, pos, ItemsText(items))
    ensures ParseItems(b, pos, room, done) == Ok((List(done + ItemsMeaning(items)), pos + |ItemsText(items)|))
    decreases items, 1
  {
    hide ParseItems, ParseValue, SkipSpace, PeekIs, Delimited, TreeText, WordAt, ItemsText;
    ItemParts(b, pos, items, room);
    var start := pos + |items.before|;
    var end := start + |TreeText(items.value)|;
    TreeAt(b, start, items.value, room);
    ItemsTurn(b, pos, room, done, start, Meaning(items.value), end, end + |items.after|);
    if items.MoreItems? {
      ItemsAt(b, end + |items.after| + 1, items.rest, room, done + [Meaning(items.value)]);
      assert done + [Meaning(items.value)] + ItemsMeaning(items.rest) == done + ItemsMeaning(items);
    } else {
      assert done + [Meaning(items.value)] == done + ItemsMeaning(items);
    }
  }

  lemma ArrayAt(b: seq<Byte>, pos: nat, items: Items, room: nat)
    requires room > 0 && ItemsOk(items, room - 1) && WordAt(b, pos, [OPEN_ARRAY] + ItemsText(items))
    ensures ParseValue(b, pos, room) == Ok((List(ItemsMeaning(items)), pos + 1 + |ItemsText(items)|))
    decreases items, 2
  {
    hide ParseValue, ParseItems, SkipSpace, ItemsMeaning, ItemsText, ItemsOk, WordAt;
    FirstOf(b, pos, OPEN_ARRAY, ItemsText(items));
    ItemsAt(b, pos + 1, items, room - 1, []);
    assert [] + ItemsMeaning(items) == ItemsMeaning(items);
    ItemsStart(b, pos + 1, items, room - 1);
    ArrayTurn(b, pos, room);
  }

  lemma ArrayTurn(b: seq<Byte>, pos: nat, room: nat)
    requires PeekIs(b, pos, OPEN_ARRAY) && room > 0 && !PeekIs(b, SkipSpace(b, pos + 1), CLOSE_ARRAY)
    ensures ParseValue(b, pos, room) == ParseItems(b, SkipSpace(b, pos + 1), room - 1, [])
  {
    hide ParseString, ParseNumber, ParseMembers, ParseItems, ParseWord, SkipSpace;
  }

  lemma ItemsSkipOnce(b: seq<Byte>, pos: nat, room: nat)
    requires pos <= |b|
    ensures ParseItems(b, SkipSpace(b, pos), room, []) == ParseItems(b, pos, room, [])
  {
    hide ParseValue, SkipSpace;
    SkipTwice(b, pos);
  }

  /** An array with items does not look like an empty one, and the first skip changes nothing. */
  lemma ItemsStart(b: seq<Byte>, pos: nat, items: Items, room: nat)
    requires ItemsOk(items, room) && WordAt(b, pos, ItemsText(items))
    ensures var at := SkipSpace(b, pos);
      && !PeekIs(b, at, CLOSE_ARRAY)
      && ParseItems(b, at, room, []) == ParseItems(b, pos, room, [])
  {
    hide ParseItems, SkipSpace, ItemsText, TreeText, TreeOk, WordAt, Delimited, ItemsMark, ItemsRest;
    ItemParts(b, pos, items, room);
    TreeStarts(items.value, room);
    HeadIs(b, pos + |items.before|, TreeText(items.value));
    ItemsSkipOnce(b, pos, room);
  }

  lemma {:induction false} TreeAt(b: seq<Byte>, pos: nat, t: Tree, room: nat)
    requires TreeOk(t, room) && WordAt(b, pos, TreeText(t)) && Delimited(b, pos + |TreeText(t)|)
    ensures ParseValue(b, pos, room) == Ok((Meaning(t), pos + |TreeText(t)|))
    decreases t, 0
  {
    hide ParseValue, WordAt, Delimited, StringOk, NumberOk, ItemsOk, MembersOk, DistinctKeys, AllSpace, StringText, NumberText,
      ItemsText, MembersText, StringMeaning, NumberMeaning, ItemsMeaning, MembersMeaning;
    match t
    case Numeral(n) => NumeralAt(b, pos, n, room);
    case Quoted(s) => QuotedAt(b, pos, s, room);
    case EmptyArray(_) => EmptyAt(b, pos, t, room);
    case EmptyObject(_) => EmptyAt(b, pos, t, room);
    case Array(items) => ArrayAt(b, pos, items, room);
    case Object(members) => ObjectAt(b, pos, members, room);
    case NullWord => WordsAt(b, pos, t, room);
    case TrueWord => WordsAt(b, pos, t, room);
    case FalseWord => WordsAt(b, pos, t, room);
  }

  // ---------- objects ----------

  function MembersMark(m: Members): Byte {
    if m.LastMember? then CLOSE_OBJECT else COMMA
  }

  function MembersRest(m: Members): seq<Byte> {
    if m.LastMember? then [] else MembersText(m.rest)
  }

  /** The text of a member behind its colon. */
  function MemberValue(m: Members): seq<Byte> {
    m.indent + (TreeText(m.value) + (m.after + ([MembersMark(m)] + MembersRest(m))))
  }

  lemma MembersShape(m: Members)
    ensures MembersText(m) == m.before + ([QUOTE] + (StringText(m.key) + (m.gap + ([COLON] + MemberValue(m)))))
    ensures |MembersText(m)| == |m.before| + 1 + |StringText(m.key)| + |m.gap| + 1 + |MemberValue(m)|
    ensures |MemberValue(m)| == |m.indent| + |TreeText(m.value)| + |m.after| + 1 + |MembersRest(m)|
    ensures MembersMark(m) == COMMA || MembersMark(m) == CLOSE_OBJECT
  {
    assert [CLOSE_OBJECT] + [] == [CLOSE_OBJECT];
  }

  lemma KeyTurn(b: seq<Byte>, pos: nat, fields: seq<(seq<Byte>, Value)>, start: nat, key: seq<Byte>, end: nat, colon: nat)
    requires pos <= |b| && SkipSpace(b, pos) == start && PeekIs(b, start, QUOTE)
    requires ParseString(b, start + 1, []) == Ok((key, end)) && !HasKey(fields, key)
    requires SkipSpace(b, end) == colon && PeekIs(b, colon, COLON)
    ensures ParseKey(b, pos, fields) == Ok((key, SkipSpace(b, colon + 1)))
  {
    hide ParseString, HasKey;
  }

  lemma KeyAt(b: seq<Byte>, pos: nat, before: seq<Byte>, key: StringTree, gap: seq<Byte>, value: seq<Byte>,
              fields: seq<(seq<Byte>, Value)>) returns (colon: nat)
    requires AllSpace(before) && StringOk(key) && AllSpace(gap) && !HasKey(fields, StringMeaning(key))
    requires WordAt(b, pos, before + ([QUOTE] + (StringText(key) + (gap + ([COLON] + value)))))
    ensures colon == pos + |before| + 1 + |StringText(key)| + |gap|
    ensures colon + 1 <= |b| && WordAt(b, colon + 1, value)
    ensures ParseKey(b, pos, fields) == Ok((StringMeaning(key), SkipSpace(b, colon + 1)))
  {
    hide ParseString, ParseKey, SkipSpace, HasKey, StringText, StringMeaning, StringOk, WordAt;
    var text := StringText(key);
    SpaceThen(b, pos, before, QUOTE, text + (gap + ([COLON] + value)));
    var start := pos + |before|;
    SplitWord(b, start + 1, text, gap + ([COLON] + value));
    StringAt(b, start + 1, key, []);
    assert [] + StringMeaning(key) == StringMeaning(key);
    SpaceThen(b, start + 1 + |text|, gap, COLON, value);
    colon := start + 1 + |text| + |gap|;
    KeyTurn(b, pos, fields, start, StringMeaning(key), start + 1 + |text|, colon);
  }

  lemma MembersTurn(b: seq<Byte>, pos: nat, room: nat, done: seq<(seq<Byte>, Value)>, key: seq<Byte>, start: nat, v: Value,
                    end: nat, at: nat)
    requires pos <= |b| && ParseKey(b, pos, done) == Ok((key, start)) && ParseValue(b, start, room) == Ok((v, end))
    requires at == SkipSpace(b, end)
    ensures PeekIs(b, at, COMMA) ==> ParseMembers(b, pos, room, done) == ParseMembers(b, at + 1, room, done + [(key, v)])
    ensures PeekIs(b, at, CLOSE_OBJECT) ==> ParseMembers(b, pos, room, done) == Ok((Fields(done + [(key, v)]), at + 1))
  {
  }

  lemma NewKey(done: seq<(seq<Byte>, Value)>, m: Members)
    requires DistinctKeys(done + MembersMeaning(m))
    ensures !HasKey(done, StringMeaning(m.key))
  {
    var all := done + MembersMeaning(m);
    assert all[|done|].0 == StringMeaning(m.key);
    assert forall k :: 0 <= k < |done| ==> all[k] == done[k];
  }

  /** Where the value of a member starts and ends, and what follows it. */
  lemma MemberParts(b: seq<Byte>, pos: nat, m: Members, room: nat, done: seq<(seq<Byte>, Value)>) returns (start: nat, end: nat)
    requires MembersOk(m, room) && !HasKey(done, StringMeaning(m.key)) && WordAt(b, pos, MembersText(m))
    ensures ParseKey(b, pos, done) == Ok((StringMeaning(m.key), start))
    ensures end == start + |TreeText(m.value)| && WordAt(b, start, TreeText(m.value)) && Delimited(b, end)
    ensures end + |m.after| < |b| && SkipSpace(b, end) == end + |m.after| && PeekIs(b, end + |m.after|, MembersMark(m))
    ensures WordAt(b, end + |m.after| + 1, MembersRest(m))
    ensures |MembersText(m)| == end + |m.after| + 1 + |MembersRest(m)| - pos
  {
    hide ParseKey, SkipSpace, HasKey, StringText, StringMeaning, StringOk, TreeText, TreeOk, WordAt, Delimited, MembersText,
      MembersRest, MembersMark, PeekIs, AllSpace;
    MembersShape(m);
    var colon := KeyAt(b, pos, m.before, m.key, m.gap, MemberValue(m), done);
    SpacedParts(b, colon + 1, m.indent, m.value, room, m.after, MembersMark(m), MembersRest(m));
    start := colon + 1 + |m.indent|;
    end := start + |TreeText(m.value)|;
  }

  /** One turn over a member whose value was read. */
  lemma MemberStep(b: seq<Byte>, pos: nat, m: Members, room: nat, done: seq<(seq<Byte>, Value)>, start: nat, end: nat)
    requires pos <= |b| && end + |m.after| < |b|
    requires ParseKey(b, pos, done) == Ok((StringMeaning(m.key), start)) && ParseValue(b, start, room) == Ok((Meaning(m.value), end))
    requires SkipSpace(b, end) == end + |m.after| && PeekIs(b, end + |m.after|, MembersMark(m))
    ensures var at := end + |m.after| + 1;
      if m.LastMember? then ParseMembers(b, pos, room, done) == Ok((Fields(done + MembersMeaning(m)), at))
      else ParseMembers(b, pos, room, done)
           == ParseMembers(b, at, room, done + [(StringMeaning(m.key), Meaning(m.value))])
  {
    hide ParseMembers, ParseKey, ParseValue, SkipSpace, PeekIs, HasKey, StringMeaning, Meaning;
    MembersTurn(b, pos, room, done, StringMeaning(m.key), start, Meaning(m.value), end, end + |m.after|);
    if m.LastMember? {
      assert done + [(StringMeaning(m.key), Meaning(m.value))] == done + MembersMeaning(m);
    }
  }

  lemma {:induction false} MembersAt(b: seq<Byte>, pos: nat, m: Members, room: nat, done: seq<(seq<Byte>, Value)>)
    requires MembersOk(m, room) && DistinctKeys(done + MembersMeaning(m)) && WordAt(b, pos, MembersText(m))
    ensures ParseMembers(b, pos, room, done) == Ok((Fields(done + MembersMeaning(m)), pos + |MembersText(m)|))
    decreases m, 1
  {
    hide ParseMembers, ParseKey, ParseValue, SkipSpace, PeekIs, HasKey, Delimited, TreeText, StringMeaning, MembersText, DistinctKeys;
    NewKey(done, m);
    var start, end := MemberParts(b, pos, m, room, done);
    TreeAt(b, start, m.value, room);
    MemberStep(b, pos, m, room, done, start, end);
    if m.MoreMembers? {
      var field := (StringMeaning(m.key), Meaning(m.value));
      assert done + [field] + MembersMeaning(m.rest) == done + MembersMeaning(m);
      MembersAt(b, end + |m.after| + 1, m.rest, room, done + [field]);
    }
  }

  lemma SkipOnce(b: seq<Byte>, pos: nat, room: nat)
    requires pos <= |b|
    ensures var at := SkipSpace(b, pos);
      && SkipSpace(b, at) == at
      && ParseMembers(b, at, room, []) == ParseMembers(b, pos, room, [])
  {
    hide ParseValue, ParseString, SkipSpace, HasKey;
    SkipTwice(b, pos);
    assert ParseKey(b, SkipSpace(b, pos), []) == ParseKey(b, pos, []);
  }

  lemma {:induction false} SkipTwice(b: seq<Byte>, pos: nat)
    requires pos <= |b|
    ensures SkipSpace(b, SkipSpace(b, pos)) == SkipSpace(b, pos)
    decreases |b| - pos
  {
    if pos < |b| && IsSpace(b[pos]) {
      SkipTwice(b, pos + 1);
    }
  }

  lemma MembersStart(b: seq<Byte>, pos: nat, m: Members, room: nat)
    requires MembersOk(m, room) && WordAt(b, pos, MembersText(m))
    ensures var at := SkipSpace(b, pos);
      && !PeekIs(b, at, CLOSE_OBJECT)
      && ParseMembers(b, at, room, []) == ParseMembers(b, pos, room, [])
  {
    MembersShape(m);
    SpaceThen(b, pos, m.before, QUOTE, StringText(m.key) + (m.gap + ([COLON] + MemberValue(m))));
    SkipOnce(b, pos, room);
  }

  lemma ObjectTurn(b: seq<Byte>, pos: nat, room: nat)
    requires PeekIs(b, pos, OPEN_OBJECT) && room > 0 && !PeekIs(b, SkipSpace(b, pos + 1), CLOSE_OBJECT)
    ensures ParseValue(b, pos, room) == ParseMembers(b, SkipSpace(b, pos + 1), room - 1, [])
  {
    hide ParseString, ParseNumber, ParseMembers, ParseItems, ParseWord, SkipSpace;
  }

  lemma ObjectAt(b: seq<Byte>, pos: nat, m: Members, room: nat)
    requires room > 0 && MembersOk(m, room - 1) && DistinctKeys(MembersMeaning(m))
    requires WordAt(b, pos, [OPEN_OBJECT] + MembersText(m))
    ensures ParseValue(b, pos, room) == Ok((Fields(MembersMeaning(m)), pos + 1 + |MembersText(m)|))
    decreases m, 2
  {
    hide ParseValue, ParseMembers, SkipSpace, MembersMeaning, MembersText, MembersOk, WordAt;
    FirstOf(b, pos, OPEN_OBJECT, MembersText(m));
    assert [] + MembersMeaning(m) == MembersMeaning(m);
    MembersAt(b, pos + 1, m, room - 1, []);
    MembersStart(b, pos + 1, m, room - 1);
    ObjectTurn(b, pos, room);
  }

  // ---------- documents ----------

  /** A text is the rendering of a tree with white space around it. */
  ghost predicate Renders(b: seq<Byte>, before: seq<Byte>, t: Tree, after: seq<Byte>) {
    AllSpace(before) && AllSpace(after) && b == before + (TreeText(t) + after)
  }

  lemma DocumentTurn(b: seq<Byte>, limit: nat, depth: nat, start: nat, v: Value, end: nat)
    requires |b| <= limit && SkipSpace(b, 0) == start && ParseValue(b, start, depth) == Ok((v, end))
    requires SkipSpace(b, end) == |b|
    ensures Parse(b, limit, depth) == Ok(v)
  {
    hide ParseValue, SkipSpace;
  }

  lemma RenderedParts(b: seq<Byte>, before: seq<Byte>, word: seq<Byte>, after: seq<Byte>)
    requires AllSpace(before) && AllSpace(after) && |word| > 0 && !IsSpace(word[0])
    requires WordAt(b, 0, before + (word + after)) && |b| == |before| + |word| + |after|
    ensures SkipSpace(b, 0) == |before| && WordAt(b, |before|, word) && Delimited(b, |before| + |word|)
    ensures SkipSpace(b, |before| + |word|) == |b|
  {
    hide SkipSpace, Delimited, WordAt;
    SplitWord(b, 0, before, word + after);
    SplitWord(b, |before|, word, after);
    HeadIs(b, |before|, word);
    SpaceAt(b, 0, before);
    TailSpace(b, |before| + |word|, after);
  }

  lemma HeadIs(b: seq<Byte>, pos: nat, w: seq<Byte>)
    requires WordAt(b, pos, w) && |w| > 0
    ensures pos + |w| <= |b| && b[pos] == w[0]
  {
    assert w[0] == b[pos];
  }

  lemma WholeText(b: seq<Byte>)
    ensures WordAt(b, 0, b)
  {
  }

  lemma TailSpace(b: seq<Byte>, pos: nat, after: seq<Byte>)
    requires WordAt(b, pos, after) && AllSpace(after) && pos + |after| == |b|
    ensures SkipSpace(b, pos) == |b| && Delimited(b, pos)
  {
    hide SkipSpace;
    SpaceAt(b, pos, after);
    if after != [] {
      assert after[0] == b[pos];
    }
  }

  /** Completeness: every rendering of every well-formed tree that fits parses to its meaning. */
  lemma RenderingsParse(b: seq<Byte>, before: seq<Byte>, t: Tree, after: seq<Byte>, limit: nat, depth: nat)
    requires TreeOk(t, depth) && Renders(b, before, t, after) && |b| <= limit
    ensures Parse(b, limit, depth) == Ok(Meaning(t))
  {
    hide ParseValue, SkipSpace, TreeText, TreeOk, Meaning, WordAt, Delimited, Parse;
    TreeStarts(t, depth);
    WholeText(b);
    RenderedParts(b, before, TreeText(t), after);
    TreeAt(b, |before|, t, depth);
    DocumentTurn(b, limit, depth, |before|, Meaning(t), |before| + |TreeText(t)|);
  }
}
