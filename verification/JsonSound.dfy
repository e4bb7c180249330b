/** Nothing but a well-formed text is accepted: every accepted input is the rendering of a tree. */
module JsonSound {
  import opened Common
  import opened Bytes
  import opened JsonTree
  import opened JsonParse
  import opened JsonComplete

  lemma Glue(b: seq<Byte>, p: nat, q: nat, r: nat)
    requires p <= q <= r <= |b|
    ensures b[p..q] + b[q..r] == b[p..r]
  {
  }

  lemma Single(b: seq<Byte>, p: nat)
    requires p < |b|
    ensures b[p..p + 1] == [b[p]]
  {
  }

  lemma {:induction false} SpaceOf(b: seq<Byte>, pos: nat)
    requires pos <= |b|
    ensures AllSpace(b[pos..SkipSpace(b, pos)])
    decreases |b| - pos
  {
    if pos < |b| && IsSpace(b[pos]) {
      SpaceOf(b, pos + 1);
      Glue(b, pos, pos + 1, SkipSpace(b, pos));
    }
  }

  lemma {:induction false} DigitsOf(b: seq<Byte>, pos: nat)
    requires pos <= |b|
    ensures AllDigits(b[pos..SkipDigits(b, pos)])
    decreases |b| - pos
  {
    if pos < |b| && IsDigit(b[pos]) {
      DigitsOf(b, pos + 1);
      Glue(b, pos, pos + 1, SkipDigits(b, pos));
    }
  }

  lemma {:induction false} PlainOf(b: seq<Byte>, pos: nat)
    requires pos <= |b|
    ensures AllPlain(b[pos..SkipPlain(b, pos)])
    decreases |b| - pos
  {
    if pos < |b| && Plain(b[pos]) {
      PlainOf(b, pos + 1);
      Glue(b, pos, pos + 1, SkipPlain(b, pos));
    }
  }

  // ---------- strings ----------

  lemma HexOf(b: seq<Byte>, pos: nat)
    requires pos <= |b| && ParseHex(b, pos, 4, 0).Ok?
    ensures pos + 4 <= |b| && HexOk(b[pos..pos + 4])
    ensures ParseHex(b, pos, 4, 0) == Ok((HexValue(b[pos..pos + 4]), pos + 4))
  {
    var d0 := HexDigit(b[pos]).value;
    assert ParseHex(b, pos, 4, 0) == ParseHex(b, pos + 1, 3, d0);
    var d1 := HexDigit(b[pos + 1]).value;
    assert ParseHex(b, pos + 1, 3, d0) == ParseHex(b, pos + 2, 2, d0 * 16 + d1);
    var d2 := HexDigit(b[pos + 2]).value;
    assert ParseHex(b, pos + 2, 2, d0 * 16 + d1) == ParseHex(b, pos + 3, 1, (d0 * 16 + d1) * 16 + d2);
    assert HexDigit(b[pos + 3]).Some?;
    HexAt(b, pos, b[pos..pos + 4]);
  }

  lemma UnicodeOf(b: seq<Byte>, pos: nat, piece: seq<Byte>, end: nat) returns (e: Escape)
    requires pos < |b| && b[pos] == LETTER_U && ParseUnicode(b, pos + 1) == Ok((piece, end))
    ensures EscapeOk(e) && pos < end <= |b| && EscapeText(e) == b[pos..end] && EscapeMeaning(e) == piece
  {
    hide ParseHex, HexValue, CharBytes;
    HexOf(b, pos + 1);
    var hi := b[pos + 1..pos + 5];
    Single(b, pos);
    Glue(b, pos, pos + 1, pos + 5);
    if !High(HexValue(hi)) {
      e := Unit(hi);
    } else {
      HexOf(b, pos + 7);
      var lo := b[pos + 7..pos + 11];
      e := Pair(hi, lo);
      SliceIs(b, pos + 5, [BACKSLASH, LETTER_U]);
      Glue(b, pos + 5, pos + 7, pos + 11);
      Glue(b, pos + 1, pos + 5, pos + 11);
      Glue(b, pos, pos + 1, pos + 11);
    }
  }

  lemma EscapeOf(b: seq<Byte>, pos: nat, piece: seq<Byte>, end: nat) returns (e: Escape)
    requires pos <= |b| && ParseEscape(b, pos) == Ok((piece, end))
    ensures EscapeOk(e) && pos < end <= |b| && EscapeText(e) == b[pos..end] && EscapeMeaning(e) == piece
  {
    hide ParseUnicode, HexValue, CharBytes;
    if Short(b[pos]).Some? {
      e := Letter(b[pos]);
      Single(b, pos);
    } else {
      e := UnicodeOf(b, pos, piece, end);
    }
  }

  lemma EscapedSlice(b: seq<Byte>, p: nat, q: nat, r: nat, s: nat)
    requires p <= q < r <= s <= |b|
    ensures b[p..s] == b[p..q] + ([b[q]] + (b[q + 1..r] + b[r..s]))
  {
    Glue(b, q + 1, r, s);
    Single(b, q);
    Glue(b, q, q + 1, s);
    Glue(b, p, q, s);
  }

  lemma StringCases(b: seq<Byte>, pos: nat, text: seq<Byte>, stop: nat)
    requires pos <= |b| && ParseString(b, pos, text).Ok? && stop == SkipPlain(b, pos)
    ensures ValidUtf8(b[pos..stop]) && (PeekIs(b, stop, QUOTE) || PeekIs(b, stop, BACKSLASH))
    ensures PeekIs(b, stop, QUOTE) ==> ParseString(b, pos, text) == Ok((text + b[pos..stop], stop + 1))
    ensures PeekIs(b, stop, BACKSLASH) ==>
      ParseEscape(b, stop + 1).Ok?
      && ParseString(b, pos, text)
         == ParseString(b, ParseEscape(b, stop + 1).value.1, text + b[pos..stop] + ParseEscape(b, stop + 1).value.0)
  {
    hide ParseEscape, SkipPlain, ValidUtf8;
  }

  lemma {:induction false} StringOf(b: seq<Byte>, pos: nat, text: seq<Byte>, out: seq<Byte>, end: nat) returns (s: StringTree)
    requires pos <= |b| && ParseString(b, pos, text) == Ok((out, end))
    ensures StringOk(s) && pos < end <= |b| && StringText(s) == b[pos..end] && out == text + StringMeaning(s)
    decreases |b| - pos
  {
    hide ParseString, ParseEscape, SkipPlain, ValidUtf8, EscapeOk, EscapeText, EscapeMeaning, AllPlain;
    var stop := SkipPlain(b, pos);
    var run := b[pos..stop];
    StringCases(b, pos, text, stop);
    PlainOf(b, pos);
    if PeekIs(b, stop, QUOTE) {
      s := End(run);
      Single(b, stop);
      Glue(b, pos, stop, stop + 1);
    } else {
      var (piece, next) := ParseEscape(b, stop + 1).value;
      var e := EscapeOf(b, stop + 1, piece, next);
      var rest := StringOf(b, next, text + run + piece, out, end);
      s := Escaped(run, e, rest);
      EscapedSlice(b, pos, stop, next, end);
      EscapedShape(s, text);
    }
  }

  // ---------- numbers ----------

  lemma WholeOf(b: seq<Byte>, pos: nat, end: nat)
    requires pos <= |b| && ParseWhole(b, pos) == Ok(end)
    ensures pos < end <= |b| && AllDigits(b[pos..end]) && (b[pos] == ZERO ==> end == pos + 1)
  {
    hide SkipDigits;
    if b[pos] != ZERO {
      DigitsOf(b, pos + 1);
      Single(b, pos);
      Glue(b, pos, pos + 1, end);
    }
  }

  lemma FractionOf(b: seq<Byte>, pos: nat, end: nat) returns (f: Option<seq<Byte>>)
    requires pos <= |b| && ParseFraction(b, pos) == Ok(end)
    ensures pos <= end <= |b| && FractionText(f) == b[pos..end] && (f.Some? <==> end != pos)
    ensures f.Some? ==> f.value != [] && AllDigits(f.value)
  {
    hide SkipDigits;
    if PeekIs(b, pos, DOT) {
      f := Some(b[pos + 1..end]);
      DigitsOf(b, pos + 1);
      Single(b, pos);
      Glue(b, pos, pos + 1, end);
    } else {
      f := None;
    }
  }

  lemma ExponentOf(b: seq<Byte>, pos: nat, end: nat) returns (e: Option<Exponent>)
    requires pos <= |b| && ParseExponent(b, pos) == Ok(end)
    ensures pos <= end <= |b| && ExponentText(e) == b[pos..end] && (e.Some? <==> end != pos)
    ensures e.Some? ==> ExponentOk(e.value)
  {
    hide SkipDigits;
    if ExponentAt(b, pos) {
      var digits := if SignAt(b, pos + 1) then pos + 2 else pos + 1;
      e := Some(Exponent(b[pos], b[pos + 1..digits], b[digits..end]));
      DigitsOf(b, digits);
      Single(b, pos);
      if SignAt(b, pos + 1) {
        Single(b, pos + 1);
      }
      Glue(b, pos + 1, digits, end);
      Glue(b, pos, pos + 1, end);
    } else {
      e := None;
    }
  }

  lemma NumberCases(b: seq<Byte>, pos: nat) returns (start: nat, whole: nat, fraction: nat, end: nat)
    requires pos <= |b| && ParseNumber(b, pos).Ok?
    ensures start == (if PeekIs(b, pos, MINUS) then pos + 1 else pos) <= |b|
    ensures start < whole <= fraction <= end <= |b|
    ensures ParseWhole(b, start) == Ok(whole) && ParseFraction(b, whole) == Ok(fraction) && ParseExponent(b, fraction) == Ok(end)
    ensures ParseNumber(b, pos) == Ok((NumberOf(b[pos..end], end != whole), end))
  {
    hide ParseWhole, ParseFraction, ParseExponent, NumberOf;
    start := if PeekIs(b, pos, MINUS) then pos + 1 else pos;
    whole := ParseWhole(b, start).value;
    fraction := ParseFraction(b, whole).value;
    end := ParseExponent(b, fraction).value;
  }

  lemma NumberOfText(b: seq<Byte>, pos: nat, v: Number, end: nat) returns (n: NumberTree)
    requires pos <= |b| && ParseNumber(b, pos) == Ok((v, end))
    ensures NumberOk(n) && pos < end <= |b| && NumberText(n) == b[pos..end] && NumberMeaning(n) == v
  {
    hide ParseNumber, ParseWhole, ParseFraction, ParseExponent, NumberOf, NumberMeaning, FractionText, ExponentText, AllDigits, ExponentOk;
    var start, whole, fraction, stop := NumberCases(b, pos);
    WholeOf(b, start, whole);
    var f := FractionOf(b, whole, fraction);
    var e := ExponentOf(b, fraction, end);
    n := NumberTree(PeekIs(b, pos, MINUS), b[start..whole], f, e);
    Glue(b, whole, fraction, end);
    Glue(b, start, whole, end);
    if n.minus {
      Single(b, pos);
      Glue(b, pos, pos + 1, end);
    } else {
      assert [] + b[start..end] == b[start..end];
    }
    assert NumberText(n) == b[pos..end];
    NumberTextMeans(n);
  }

  // ---------- values ----------

  /** Which branch a value took, by its first byte. */
  lemma ValueCases(b: seq<Byte>, pos: nat, room: nat)
    requires pos <= |b| && ParseValue(b, pos, room).Ok?
    ensures room > 0 && pos < |b|
    ensures b[pos] == OPEN_OBJECT ==>
      var at := SkipSpace(b, pos + 1);
      ParseValue(b, pos, room) == if PeekIs(b, at, CLOSE_OBJECT) then Ok((Fields([]), at + 1)) else ParseMembers(b, at, room - 1, [])
    ensures b[pos] == OPEN_ARRAY ==>
      var at := SkipSpace(b, pos + 1);
      ParseValue(b, pos, room) == if PeekIs(b, at, CLOSE_ARRAY) then Ok((List([]), at + 1)) else ParseItems(b, at, room - 1, [])
    ensures b[pos] == QUOTE ==>
      var s := ParseString(b, pos + 1, []);
      s.Ok? && ParseValue(b, pos, room) == Ok((Text(s.value.0), s.value.1))
  {
    hide ParseString, ParseNumber, ParseMembers, ParseItems, ParseWord, SkipSpace;
  }

  lemma ScalarOf(b: seq<Byte>, pos: nat, room: nat, v: Value, end: nat) returns (t: Tree)
    requires pos <= |b| && ParseValue(b, pos, room) == Ok((v, end))
    requires pos < |b| && b[pos] != OPEN_OBJECT && b[pos] != OPEN_ARRAY && b[pos] != QUOTE
    ensures TreeOk(t, room) && TreeText(t) == b[pos..end] && Meaning(t) == v
  {
    hide ParseString, ParseNumber, ParseMembers, ParseItems, SkipSpace, NumberOk, NumberText, NumberMeaning;
    if b[pos] == MINUS || IsDigit(b[pos]) {
      var n := NumberOfText(b, pos, ParseNumber(b, pos).value.0, end);
      t := Numeral(n);
    } else if b[pos] == 0x74 {
      t := TrueWord;
      SliceIs(b, pos, TRUE);
    } else if b[pos] == 0x66 {
      t := FalseWord;
      SliceIs(b, pos, FALSE);
    } else {
      t := NullWord;
      SliceIs(b, pos, NULL);
    }
  }

  lemma EmptyOf(b: seq<Byte>, pos: nat, at: nat)
    requires pos < |b| && at == SkipSpace(b, pos + 1) && at < |b|
    ensures AllSpace(b[pos + 1..at]) && b[pos..at + 1] == [b[pos]] + (b[pos + 1..at] + [b[at]])
  {
    hide SkipSpace;
    SpaceOf(b, pos + 1);
    Single(b, at);
    Glue(b, pos + 1, at, at + 1);
    Single(b, pos);
    Glue(b, pos, pos + 1, at + 1);
  }

  lemma HeadSlice(b: seq<Byte>, p: nat, r: nat)
    requires p < r <= |b|
    ensures b[p..r] == [b[p]] + b[p + 1..r]
  {
    Single(b, p);
    Glue(b, p, p + 1, r);
  }

  lemma {:induction false} TreeOf(b: seq<Byte>, pos: nat, room: nat, v: Value, end: nat) returns (t: Tree)
    requires pos <= |b| && ParseValue(b, pos, room) == Ok((v, end))
    ensures TreeOk(t, room) && pos < end <= |b| && TreeText(t) == b[pos..end] && Meaning(t) == v
    decreases |b| - pos, 2
  {
    hide ParseValue, ParseString, ParseMembers, ParseItems, SkipSpace, StringOk, StringText, StringMeaning, NumberOk,
      ItemsOk, ItemsText, ItemsMeaning, MembersOk, MembersText, MembersMeaning, DistinctKeys;
    ValueCases(b, pos, room);
    if b[pos] == OPEN_OBJECT || b[pos] == OPEN_ARRAY {
      t := NestedOf(b, pos, room, v, end);
    } else if b[pos] == QUOTE {
      var s := StringOf(b, pos + 1, [], ParseString(b, pos + 1, []).value.0, end);
      t := Quoted(s);
      HeadSlice(b, pos, end);
    } else {
      t := ScalarOf(b, pos, room, v, end);
    }
  }

  lemma {:induction false} NestedOf(b: seq<Byte>, pos: nat, room: nat, v: Value, end: nat) returns (t: Tree)
    requires pos < |b| && ParseValue(b, pos, room) == Ok((v, end)) && (b[pos] == OPEN_OBJECT || b[pos] == OPEN_ARRAY)
    ensures TreeOk(t, room) && pos < end <= |b| && TreeText(t) == b[pos..end] && Meaning(t) == v
    decreases |b| - pos, 1
  {
    hide ParseValue, ParseMembers, ParseItems, SkipSpace, ItemsOk, ItemsText, ItemsMeaning, MembersOk, MembersText,
      MembersMeaning, DistinctKeys, AllSpace;
    ValueCases(b, pos, room);
    var at := SkipSpace(b, pos + 1);
    if b[pos] == OPEN_OBJECT {
      if PeekIs(b, at, CLOSE_OBJECT) {
        EmptyOf(b, pos, at);
        t := EmptyObject(b[pos + 1..at]);
      } else {
        SkipOnce(b, pos + 1, room - 1);
        NoKeys();
        var m := MembersOf(b, pos + 1, room - 1, [], v, end);
        t := Object(m);
        HeadSlice(b, pos, end);
        assert [] + MembersMeaning(m) == MembersMeaning(m);
      }
    } else {
      if PeekIs(b, at, CLOSE_ARRAY) {
        EmptyOf(b, pos, at);
        t := EmptyArray(b[pos + 1..at]);
      } else {
        ItemsSkipOnce(b, pos + 1, room - 1);
        var items := ItemsOf(b, pos + 1, room - 1, [], v, end);
        t := Array(items);
        HeadSlice(b, pos, end);
        assert [] + ItemsMeaning(items) == ItemsMeaning(items);
      }
    }
  }

  lemma NoKeys()
    ensures DistinctKeys([])
  {
  }

  // ---------- lists ----------

  lemma ItemsCases(b: seq<Byte>, pos: nat, room: nat, done: seq<Value>) returns (start: nat, v: Value, stop: nat, at: nat)
    requires pos <= |b| && ParseItems(b, pos, room, done).Ok?
    ensures pos <= start == SkipSpace(b, pos) <= |b| && ParseValue(b, start, room) == Ok((v, stop))
    ensures start < stop <= |b| && stop <= at == SkipSpace(b, stop) < |b| && (b[at] == COMMA || b[at] == CLOSE_ARRAY)
    ensures b[at] == COMMA ==> ParseItems(b, pos, room, done) == ParseItems(b, at + 1, room, done + [v])
    ensures b[at] == CLOSE_ARRAY ==> ParseItems(b, pos, room, done) == Ok((List(done + [v]), at + 1))
  {
    hide ParseValue, SkipSpace;
    start := SkipSpace(b, pos);
    v, stop := ParseValue(b, start, room).value.0, ParseValue(b, start, room).value.1;
    at := SkipSpace(b, stop);
  }

  /** The slice of one item: space, value, space, mark and the rest. */
  lemma ItemSlice(b: seq<Byte>, p: nat, q: nat, r: nat, s: nat, end: nat)
    requires p <= q <= r <= s < end <= |b|
    ensures b[p..end] == b[p..q] + (b[q..r] + (b[r..s] + ([b[s]] + b[s + 1..end])))
  {
    HeadSlice(b, s, end);
    Glue(b, r, s, end);
    Glue(b, q, r, end);
    Glue(b, p, q, end);
  }

  lemma {:induction false} ItemsOf(b: seq<Byte>, pos: nat, room: nat, done: seq<Value>, v: Value, end: nat) returns (items: Items)
    requires pos <= |b| && ParseItems(b, pos, room, done) == Ok((v, end))
    ensures ItemsOk(items, room) && pos < end <= |b| && ItemsText(items) == b[pos..end]
    ensures v == List(done + ItemsMeaning(items))
    decreases |b| - pos, 3
  {
    hide ParseItems, ParseValue, SkipSpace, TreeOk, TreeText, Meaning, AllSpace, ItemsMeaning;
    var start, first, stop, at := ItemsCases(b, pos, room, done);
    var t := TreeOf(b, start, room, first, stop);
    SpaceOf(b, pos);
    SpaceOf(b, stop);
    var before, after := b[pos..start], b[stop..at];
    ItemSlice(b, pos, start, stop, at, if b[at] == COMMA then end else at + 1);
    if b[at] == COMMA {
      var rest := ItemsOf(b, at + 1, room, done + [first], v, end);
      items := MoreItems(before, t, after, rest);
    } else {
      items := LastItem(before, t, after);
      assert [b[at]] + b[at + 1..at + 1] == [CLOSE_ARRAY];
    }
    OneItem(done, items);
  }

  lemma OneItem(done: seq<Value>, items: Items)
    ensures var more := done + [Meaning(items.value)];
      done + ItemsMeaning(items) == if items.LastItem? then more else more + ItemsMeaning(items.rest)
  {
    hide Meaning;
    var first := Meaning(items.value);
    var rest := if items.LastItem? then [] else ItemsMeaning(items.rest);
    assert ItemsMeaning(items) == [first] + rest;
    hide ItemsMeaning;
    assert done + ([first] + rest) == done + [first] + rest;
  }

  // ---------- objects ----------

  lemma KeyCases(b: seq<Byte>, pos: nat, fields: seq<(seq<Byte>, Value)>) returns (start: nat, stop: nat, colon: nat)
    requires pos <= |b| && ParseKey(b, pos, fields).Ok?
    ensures pos <= start == SkipSpace(b, pos) < |b| && b[start] == QUOTE
    ensures ParseString(b, start + 1, []) == Ok((ParseKey(b, pos, fields).value.0, stop)) && start + 1 < stop <= |b|
    ensures !HasKey(fields, ParseKey(b, pos, fields).value.0)
    ensures stop <= colon == SkipSpace(b, stop) < |b| && b[colon] == COLON
    ensures ParseKey(b, pos, fields).value.1 == SkipSpace(b, colon + 1)
  {
    hide ParseString, SkipSpace, HasKey;
    start := SkipSpace(b, pos);
    stop := ParseString(b, start + 1, []).value.1;
    colon := SkipSpace(b, stop);
  }

  lemma MembersCases(b: seq<Byte>, pos: nat, room: nat, done: seq<(seq<Byte>, Value)>)
    returns (key: seq<Byte>, start: nat, v: Value, stop: nat, at: nat)
    requires pos <= |b| && ParseMembers(b, pos, room, done).Ok?
    ensures ParseKey(b, pos, done) == Ok((key, start)) && pos < start <= |b|
    ensures ParseValue(b, start, room) == Ok((v, stop))
    ensures start < stop <= |b| && stop <= at == SkipSpace(b, stop) < |b| && (b[at] == COMMA || b[at] == CLOSE_OBJECT)
    ensures b[at] == COMMA ==> ParseMembers(b, pos, room, done) == ParseMembers(b, at + 1, room, done + [(key, v)])
    ensures b[at] == CLOSE_OBJECT ==> ParseMembers(b, pos, room, done) == Ok((Fields(done + [(key, v)]), at + 1))
  {
    hide ParseKey, ParseValue, SkipSpace;
    key, start := ParseKey(b, pos, done).value.0, ParseKey(b, pos, done).value.1;
    v, stop := ParseValue(b, start, room).value.0, ParseValue(b, start, room).value.1;
    at := SkipSpace(b, stop);
  }

  /** The written form of a key up to the value behind its colon. */
  lemma KeyOf(b: seq<Byte>, pos: nat, done: seq<(seq<Byte>, Value)>, key: seq<Byte>, start: nat, end: nat)
    returns (before: seq<Byte>, tree: StringTree, gap: seq<Byte>, indent: seq<Byte>)
    requires pos <= |b| && ParseKey(b, pos, done) == Ok((key, start)) && start <= end <= |b|
    ensures AllSpace(before) && StringOk(tree) && AllSpace(gap) && AllSpace(indent)
    ensures StringMeaning(tree) == key && !HasKey(done, key)
    ensures b[pos..end] == before + ([QUOTE] + (StringText(tree) + (gap + ([COLON] + (indent + b[start..end])))))
  {
    hide ParseKey, ParseString, SkipSpace, HasKey, StringOk, StringText, StringMeaning, AllSpace;
    var quote, stop, colon := KeyCases(b, pos, done);
    tree := StringOf(b, quote + 1, [], key, stop);
    assert [] + StringMeaning(tree) == StringMeaning(tree);
    before, gap, indent := b[pos..quote], b[stop..colon], b[colon + 1..start];
    SpaceOf(b, pos);
    SpaceOf(b, stop);
    SpaceOf(b, colon + 1);
    KeySlice(b, pos, quote, stop, colon, start, end);
  }

  lemma KeySlice(b: seq<Byte>, p: nat, q: nat, r: nat, c: nat, s: nat, end: nat)
    requires p <= q < r <= c < s <= end <= |b|
    ensures b[p..end] == b[p..q] + ([b[q]] + (b[q + 1..r] + (b[r..c] + ([b[c]] + (b[c + 1..s] + b[s..end])))))
  {
    Glue(b, c + 1, s, end);
    ValueSlice(b, q + 1, r, c, end);
    HeadSlice(b, q, end);
    Glue(b, p, q, end);
  }

  lemma AddKey(done: seq<(seq<Byte>, Value)>, key: seq<Byte>, v: Value)
    requires DistinctKeys(done) && !HasKey(done, key)
    ensures DistinctKeys(done + [(key, v)])
  {
  }

  lemma {:induction false} MembersOf(b: seq<Byte>, pos: nat, room: nat, done: seq<(seq<Byte>, Value)>, v: Value, end: nat)
    returns (m: Members)
    requires pos <= |b| && ParseMembers(b, pos, room, done) == Ok((v, end)) && DistinctKeys(done)
    ensures MembersOk(m, room) && pos < end <= |b| && MembersText(m) == b[pos..end]
    ensures v == Fields(done + MembersMeaning(m)) && DistinctKeys(done + MembersMeaning(m))
    decreases |b| - pos, 3
  {
    hide ParseMembers, ParseKey, ParseValue, ParseString, SkipSpace, HasKey, TreeOk, TreeText, Meaning, StringMeaning,
      DistinctKeys, MembersText, MembersOk, MembersMeaning;
    var key, start, first, stop, at := MembersCases(b, pos, room, done);
    var t := TreeOf(b, start, room, first, stop);
    var quote, close, colon := KeyCases(b, pos, done);
    AddKey(done, key, first);
    if b[at] == CLOSE_OBJECT {
      m := LastOf(b, pos, room, done, key, start, t, stop, at);
      OneMember(done, m);
    } else {
      var rest := MembersOf(b, at + 1, room, done + [(key, first)], v, end);
      m := MoreOf(b, pos, room, done, key, start, t, stop, at, rest, end);
      OneMember(done, m);
    }
  }

  lemma OneMember(done: seq<(seq<Byte>, Value)>, m: Members)
    ensures var more := done + [(StringMeaning(m.key), Meaning(m.value))];
      done + MembersMeaning(m) == if m.LastMember? then more else more + MembersMeaning(m.rest)
  {
    hide StringMeaning, Meaning;
    var field := (StringMeaning(m.key), Meaning(m.value));
    var rest := if m.LastMember? then [] else MembersMeaning(m.rest);
    assert MembersMeaning(m) == [field] + rest;
    hide MembersMeaning;
    Prepend(done, field, rest);
  }

  lemma Prepend(done: seq<(seq<Byte>, Value)>, field: (seq<Byte>, Value), rest: seq<(seq<Byte>, Value)>)
    ensures done + ([field] + rest) == done + [field] + rest
    ensures rest == [] ==> done + ([field] + rest) == done + [field]
  {
  }

  lemma LastOf(b: seq<Byte>, pos: nat, room: nat, done: seq<(seq<Byte>, Value)>, key: seq<Byte>, start: nat, t: Tree,
               stop: nat, at: nat) returns (m: Members)
    requires pos <= |b| && ParseKey(b, pos, done) == Ok((key, start))
    requires start < stop <= |b| && TreeOk(t, room) && TreeText(t) == b[start..stop]
    requires at == SkipSpace(b, stop) && PeekIs(b, at, CLOSE_OBJECT)
    ensures m.LastMember? && MembersOk(m, room) && MembersText(m) == b[pos..at + 1]
    ensures StringMeaning(m.key) == key && m.value == t
  {
    hide ParseKey, SkipSpace, HasKey, TreeOk, TreeText, StringOk, StringText, StringMeaning, AllSpace;
    var before, tree, gap, indent := KeyOf(b, pos, done, key, start, at + 1);
    m := LastMember(before, tree, gap, indent, t, b[stop..at]);
    SpaceOf(b, stop);
    ValueSlice(b, start, stop, at, at + 1);
    assert [b[at]] + b[at + 1..at + 1] == [CLOSE_OBJECT];
  }

  lemma MoreOf(b: seq<Byte>, pos: nat, room: nat, done: seq<(seq<Byte>, Value)>, key: seq<Byte>, start: nat, t: Tree,
               stop: nat, at: nat, rest: Members, end: nat) returns (m: Members)
    requires pos <= |b| && ParseKey(b, pos, done) == Ok((key, start))
    requires start < stop <= |b| && TreeOk(t, room) && TreeText(t) == b[start..stop]
    requires at == SkipSpace(b, stop) && PeekIs(b, at, COMMA)
    requires at + 1 < end <= |b| && MembersOk(rest, room) && MembersText(rest) == b[at + 1..end]
    ensures m.MoreMembers? && MembersOk(m, room) && MembersText(m) == b[pos..end]
    ensures StringMeaning(m.key) == key && m.value == t && m.rest == rest
  {
    hide ParseKey, SkipSpace, HasKey, TreeOk, TreeText, StringOk, StringText, StringMeaning, AllSpace;
    var before, tree, gap, indent := KeyOf(b, pos, done, key, start, end);
    m := MoreMembers(before, tree, gap, indent, t, b[stop..at], rest);
    SpaceOf(b, stop);
    ValueSlice(b, start, stop, at, end);
  }

  lemma ValueSlice(b: seq<Byte>, q: nat, r: nat, s: nat, end: nat)
    requires q <= r <= s < end <= |b|
    ensures b[q..end] == b[q..r] + (b[r..s] + ([b[s]] + b[s + 1..end]))
  {
    HeadSlice(b, s, end);
    Glue(b, r, s, end);
    Glue(b, q, r, end);
  }

  // ---------- documents ----------

  /** Soundness: every accepted input is the rendering of a well-formed tree that means the answer. */
  lemma ParsedRenders(b: seq<Byte>, limit: nat, depth: nat, v: Value) returns (before: seq<Byte>, t: Tree, after: seq<Byte>)
    requires Parse(b, limit, depth) == Ok(v)
    ensures |b| <= limit && TreeOk(t, depth) && Renders(b, before, t, after) && Meaning(t) == v
  {
    hide ParseValue, SkipSpace, TreeOk, TreeText, Meaning, AllSpace;
    var start := SkipSpace(b, 0);
    var end := ParseValue(b, start, depth).value.1;
    t := TreeOf(b, start, depth, v, end);
    SpaceOf(b, 0);
    SpaceOf(b, end);
    before, after := b[0..start], b[end..|b|];
    Glue(b, start, end, |b|);
    Glue(b, 0, start, |b|);
    assert b[0..|b|] == b;
  }

  ghost predicate HasRendering(b: seq<Byte>, depth: nat, v: Value) {
    exists before, t, after :: TreeOk(t, depth) && Renders(b, before, t, after) && Meaning(t) == v
  }

  /** The parser answers a value exactly when the input, not too long, is a rendering of it. */
  lemma ParsesExactlyRenderings(b: seq<Byte>, limit: nat, depth: nat, v: Value)
    ensures Parse(b, limit, depth) == Ok(v) <==> |b| <= limit && HasRendering(b, depth, v)
  {
    hide Parse, TreeOk, Renders, Meaning;
    if Parse(b, limit, depth) == Ok(v) {
      var before, t, after := ParsedRenders(b, limit, depth, v);
    }
    if |b| <= limit && HasRendering(b, depth, v) {
      var before, t, after :| TreeOk(t, depth) && Renders(b, before, t, after) && Meaning(t) == v;
      RenderingsParse(b, before, t, after, limit, depth);
    }
  }

  /** Two readings of one text mean the same. */
  lemma RenderingsAgree(b: seq<Byte>, depth: nat, v: Value, w: Value)
    requires HasRendering(b, depth, v) && HasRendering(b, depth, w)
    ensures v == w
  {
    hide Parse, HasRendering;
    ParsesExactlyRenderings(b, |b|, depth, v);
    ParsesExactlyRenderings(b, |b|, depth, w);
  }
}
