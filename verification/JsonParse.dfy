/** What the bounded parser answers at a position of its input: a value and where it ends, or the first fault. */
module JsonParse {
  import opened Common
  import opened Bytes
  import opened JsonTree

  datatype Fault =
    | TooLarge
    | Trailing(offset: nat)
    | Syntax(offset: nat)
    | TooDeep(offset: nat)
    | DuplicateKey(key: seq<Byte>)

  type Parsed<T> = Result<(T, nat), Fault>

  predicate PeekIs(b: seq<Byte>, pos: nat, c: Byte) {
    pos < |b| && b[pos] == c
  }

  function SkipSpace(b: seq<Byte>, pos: nat): (end: nat)
    requires pos <= |b|
    ensures pos <= end <= |b|
    decreases |b| - pos
  {
    if pos < |b| && IsSpace(b[pos]) then SkipSpace(b, pos + 1) else pos
  }

  function SkipDigits(b: seq<Byte>, pos: nat): (end: nat)
    requires pos <= |b|
    ensures pos <= end <= |b|
    decreases |b| - pos
  {
    if pos < |b| && IsDigit(b[pos]) then SkipDigits(b, pos + 1) else pos
  }

  function SkipPlain(b: seq<Byte>, pos: nat): (end: nat)
    requires pos <= |b|
    ensures pos <= end <= |b|
    decreases |b| - pos
  {
    if pos < |b| && Plain(b[pos]) then SkipPlain(b, pos + 1) else pos
  }

  predicate WordAt(b: seq<Byte>, pos: nat, word: seq<Byte>) {
    pos + |word| <= |b| && forall k :: 0 <= k < |word| ==> word[k] == b[pos + k]
  }

  // ---------- strings ----------

  function ParseHex(b: seq<Byte>, pos: nat, left: nat, value: nat): (r: Parsed<nat>)
    requires pos <= |b|
    ensures r.Ok? ==> r.value.1 == pos + left <= |b|
    decreases left
  {
    if left == 0 then Ok((value, pos))
    else if pos < |b| && HexDigit(b[pos]).Some? then ParseHex(b, pos + 1, left - 1, value * 16 + HexDigit(b[pos]).value)
    else Err(Syntax(pos))
  }

  function ParseUnicode(b: seq<Byte>, pos: nat): (r: Parsed<seq<Byte>>)
    requires pos <= |b|
    ensures r.Ok? ==> pos < r.value.1 <= |b|
  {
    var hi := ParseHex(b, pos, 4, 0);
    if hi.Err? then Err(hi.error)
    else
      var (unit, at) := hi.value;
      if !High(unit) then Ok((CharBytes(unit), at))
      else if !WordAt(b, at, [BACKSLASH, LETTER_U]) then Err(Syntax(at))
      else
        var lo := ParseHex(b, at + 2, 4, 0);
        if lo.Err? then Err(lo.error)
        else if !Low(lo.value.0) then Err(Syntax(lo.value.1))
        else Ok((CharBytes(PairValue(unit, lo.value.0)), lo.value.1))
  }

  function ParseEscape(b: seq<Byte>, pos: nat): (r: Parsed<seq<Byte>>)
    requires pos <= |b|
    ensures r.Ok? ==> pos < r.value.1 <= |b|
  {
    if pos == |b| then Err(Syntax(pos))
    else if Short(b[pos]).Some? then Ok(([Short(b[pos]).value], pos + 1))
    else if b[pos] == LETTER_U then ParseUnicode(b, pos + 1)
    else Err(Syntax(pos))
  }

  /** From behind the opening quote; `text` is what was decoded so far. */
  function ParseString(b: seq<Byte>, pos: nat, text: seq<Byte>): (r: Parsed<seq<Byte>>)
    requires pos <= |b|
    ensures r.Ok? ==> pos < r.value.1 <= |b|
    decreases |b| - pos
  {
    var stop := SkipPlain(b, pos);
    var run := b[pos..stop];
    if !ValidUtf8(run) then Err(Syntax(pos + ValidUpTo(run)))
    else if PeekIs(b, stop, QUOTE) then Ok((text + run, stop + 1))
    else if PeekIs(b, stop, BACKSLASH) then
      var e := ParseEscape(b, stop + 1);
      if e.Err? then e else ParseString(b, e.value.1, text + run + e.value.0)
    else Err(Syntax(stop))
  }

  // ---------- numbers ----------

  function NumberOf(text: seq<Byte>, float: bool): Number {
    if float || |text| == 0 then Float(text)
    else if text[0] != MINUS then (if Decimal(text) < U64_LIMIT then Uint(Decimal(text)) else Float(text))
    else if Decimal(text[1..]) <= U64_LIMIT / 2 then Int(0 - Decimal(text[1..]))
    else Float(text)
  }

  function ParseWhole(b: seq<Byte>, pos: nat): (r: Result<nat, Fault>)
    requires pos <= |b|
    ensures r.Ok? ==> pos < r.value <= |b|
  {
    if PeekIs(b, pos, ZERO) then Ok(pos + 1)
    else if pos < |b| && IsDigit(b[pos]) then Ok(SkipDigits(b, pos + 1))
    else Err(Syntax(pos))
  }

  /** At least one digit. */
  function ParseDigits(b: seq<Byte>, pos: nat): (r: Result<nat, Fault>)
    requires pos <= |b|
    ensures r.Ok? ==> pos < r.value <= |b|
  {
    if SkipDigits(b, pos) == pos then Err(Syntax(pos)) else Ok(SkipDigits(b, pos))
  }

  function ParseFraction(b: seq<Byte>, pos: nat): (r: Result<nat, Fault>)
    requires pos <= |b|
    ensures r.Ok? ==> pos <= r.value <= |b|
  {
    if PeekIs(b, pos, DOT) then ParseDigits(b, pos + 1) else Ok(pos)
  }

  predicate ExponentAt(b: seq<Byte>, pos: nat) {
    PeekIs(b, pos, 0x65) || PeekIs(b, pos, 0x45)
  }

  predicate SignAt(b: seq<Byte>, pos: nat) {
    PeekIs(b, pos, PLUS) || PeekIs(b, pos, MINUS)
  }

  function ParseExponent(b: seq<Byte>, pos: nat): (r: Result<nat, Fault>)
    requires pos <= |b|
    ensures r.Ok? ==> pos <= r.value <= |b|
  {
    if ExponentAt(b, pos) then ParseDigits(b, if SignAt(b, pos + 1) then pos + 2 else pos + 1) else Ok(pos)
  }

  function ParseNumber(b: seq<Byte>, pos: nat): (r: Parsed<Number>)
    requires pos <= |b|
    ensures r.Ok? ==> pos < r.value.1 <= |b|
  {
    var whole := ParseWhole(b, if PeekIs(b, pos, MINUS) then pos + 1 else pos);
    if whole.Err? then Err(whole.error)
    else
      var fraction := ParseFraction(b, whole.value);
      if fraction.Err? then Err(fraction.error)
      else
        var exponent := ParseExponent(b, fraction.value);
        if exponent.Err? then Err(exponent.error)
        else Ok((NumberOf(b[pos..exponent.value], exponent.value != whole.value), exponent.value))
  }

  // ---------- values ----------

  function ParseWord(b: seq<Byte>, pos: nat, word: seq<Byte>, v: Value): (r: Parsed<Value>)
    requires pos <= |b| && |word| > 0
    ensures r.Ok? ==> pos < r.value.1 <= |b|
  {
    if WordAt(b, pos, word) then Ok((v, pos + |word|)) else Err(Syntax(pos))
  }

  function ParseValue(b: seq<Byte>, pos: nat, room: nat): (r: Parsed<Value>)
    requires pos <= |b|
    ensures r.Ok? ==> pos < r.value.1 <= |b|
    decreases |b| - pos, 2
  {
    if room == 0 then Err(TooDeep(pos))
    else if pos == |b| then Err(Syntax(pos))
    else if b[pos] == OPEN_OBJECT then
      var at := SkipSpace(b, pos + 1);
      if PeekIs(b, at, CLOSE_OBJECT) then Ok((Fields([]), at + 1)) else ParseMembers(b, at, room - 1, [])
    else if b[pos] == OPEN_ARRAY then
      var at := SkipSpace(b, pos + 1);
      if PeekIs(b, at, CLOSE_ARRAY) then Ok((List([]), at + 1)) else ParseItems(b, at, room - 1, [])
    else if b[pos] == QUOTE then
      var s := ParseString(b, pos + 1, []);
      if s.Err? then Err(s.error) else Ok((Text(s.value.0), s.value.1))
    else if b[pos] == 0x74 then ParseWord(b, pos, TRUE, Bool(true))
    else if b[pos] == 0x66 then ParseWord(b, pos, FALSE, Bool(false))
    else if b[pos] == 0x6E then ParseWord(b, pos, NULL, Null)
    else if b[pos] == MINUS || IsDigit(b[pos]) then
      var n := ParseNumber(b, pos);
      if n.Err? then Err(n.error) else Ok((Num(n.value.0), n.value.1))
    else Err(Syntax(pos))
  }

  function ParseItems(b: seq<Byte>, pos: nat, room: nat, items: seq<Value>): (r: Parsed<Value>)
    requires pos <= |b|
    ensures r.Ok? ==> pos < r.value.1 <= |b|
    decreases |b| - pos, 3
  {
    var v := ParseValue(b, SkipSpace(b, pos), room);
    if v.Err? then v
    else
      var at := SkipSpace(b, v.value.1);
      var more := items + [v.value.0];
      if PeekIs(b, at, COMMA) then ParseItems(b, at + 1, room, more)
      else if PeekIs(b, at, CLOSE_ARRAY) then Ok((List(more), at + 1))
      else Err(Syntax(at))
  }

  /** A key, which must be new, and the position of the value behind its colon. */
  function ParseKey(b: seq<Byte>, pos: nat, fields: seq<(seq<Byte>, Value)>): (r: Parsed<seq<Byte>>)
    requires pos <= |b|
    ensures r.Ok? ==> pos < r.value.1 <= |b|
  {
    var start := SkipSpace(b, pos);
    if !PeekIs(b, start, QUOTE) then Err(Syntax(start))
    else
      var key := ParseString(b, start + 1, []);
      if key.Err? then key
      else if HasKey(fields, key.value.0) then Err(DuplicateKey(key.value.0))
      else
        var colon := SkipSpace(b, key.value.1);
        if !PeekIs(b, colon, COLON) then Err(Syntax(colon)) else Ok((key.value.0, SkipSpace(b, colon + 1)))
  }

  function ParseMembers(b: seq<Byte>, pos: nat, room: nat, fields: seq<(seq<Byte>, Value)>): (r: Parsed<Value>)
    requires pos <= |b|
    ensures r.Ok? ==> pos < r.value.1 <= |b|
    decreases |b| - pos, 3
  {
    var key := ParseKey(b, pos, fields);
    if key.Err? then Err(key.error)
    else
      var v := ParseValue(b, key.value.1, room);
      if v.Err? then v
      else
        var at := SkipSpace(b, v.value.1);
        var more := fields + [(key.value.0, v.value.0)];
        if PeekIs(b, at, COMMA) then ParseMembers(b, at + 1, room, more)
        else if PeekIs(b, at, CLOSE_OBJECT) then Ok((Fields(more), at + 1))
        else Err(Syntax(at))
  }

  /** The whole input, with space around one value. */
  function Parse(b: seq<Byte>, limit: nat, depth: nat): Result<Value, Fault> {
    if |b| > limit then Err(TooLarge)
    else
      var v := ParseValue(b, SkipSpace(b, 0), depth);
      if v.Err? then Err(v.error)
      else
        var end := SkipSpace(b, v.value.1);
        if end < |b| then Err(Trailing(end)) else Ok(v.value.0)
  }
}
