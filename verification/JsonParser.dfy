/** The parser as a cursor that moves through its input. */
module JsonParser {
  import opened Common
  import opened Bytes
  import opened JsonTree
  import opened JsonParse

  class Parser {
    const b: seq<Byte>
    var pos: nat

    constructor (b: seq<Byte>)
      ensures this.b == b && pos == 0
    {
      this.b, pos := b, 0;
    }

    ghost predicate Inside()
      reads this
    {
      pos <= |b|
    }

    /** What was read and where the cursor stands, as one answer. */
    ghost function Answer<T>(r: Result<T, Fault>): Parsed<T>
      reads this
    {
      match r case Ok(v) => Ok((v, pos)) case Err(e) => Err(e)
    }

    method SkipWhite()
      requires Inside()
      modifies this
      ensures Inside() && pos == SkipSpace(b, old(pos))
    {
      ghost var goal := SkipSpace(b, pos);
      while pos < |b| && IsSpace(b[pos])
        invariant Inside() && SkipSpace(b, pos) == goal
        decreases |b| - pos
      {
        pos := pos + 1;
      }
    }

    method Digits() returns (n: nat)
      requires Inside()
      modifies this
      ensures Inside() && pos == SkipDigits(b, old(pos)) && n == pos - old(pos)
    {
      ghost var goal := SkipDigits(b, pos);
      var start := pos;
      while pos < |b| && IsDigit(b[pos])
        invariant start <= pos <= |b| && SkipDigits(b, pos) == goal
        decreases |b| - pos
      {
        pos := pos + 1;
      }
      n := pos - start;
    }

    method Hex4() returns (r: Result<nat, Fault>)
      requires Inside()
      modifies this
      ensures Inside() && Answer(r) == ParseHex(b, old(pos), 4, 0)
    {
      ghost var goal := ParseHex(b, pos, 4, 0);
      var v: nat := 0;
      var left: nat := 4;
      while left > 0
        invariant Inside() && ParseHex(b, pos, left, v) == goal
      {
        if pos == |b| || HexDigit(b[pos]).None? {
          return Err(Syntax(pos));
        }
        v := v * 16 + HexDigit(b[pos]).value;
        pos := pos + 1;
        left := left - 1;
      }
      return Ok(v);
    }

    method Unicode() returns (r: Result<seq<Byte>, Fault>)
      requires Inside()
      modifies this
      ensures Inside() && Answer(r) == ParseUnicode(b, old(pos))
    {
      hide ParseHex, CharBytes;
      var hi := Hex4();
      if hi.Err? {
        return Err(hi.error);
      }
      if !High(hi.value) {
        return Ok(CharBytes(hi.value));
      }
      if !WordAt(b, pos, [BACKSLASH, LETTER_U]) {
        return Err(Syntax(pos));
      }
      pos := pos + 2;
      var lo := Hex4();
      if lo.Err? {
        return Err(lo.error);
      }
      if !Low(lo.value) {
        return Err(Syntax(pos));
      }
      return Ok(CharBytes(PairValue(hi.value, lo.value)));
    }

    method Escape() returns (r: Result<seq<Byte>, Fault>)
      requires Inside()
      modifies this
      ensures Inside() && Answer(r) == ParseEscape(b, old(pos))
    {
      hide ParseUnicode;
      if pos == |b| {
        return Err(Syntax(pos));
      }
      var c := b[pos];
      if Short(c).Some? {
        pos := pos + 1;
        return Ok([Short(c).value]);
      }
      if c == LETTER_U {
        pos := pos + 1;
        r := Unicode();
        return;
      }
      return Err(Syntax(pos));
    }

    method PlainRun()
      requires Inside()
      modifies this
      ensures Inside() && pos == SkipPlain(b, old(pos))
    {
      ghost var goal := SkipPlain(b, pos);
      while pos < |b| && Plain(b[pos])
        invariant Inside() && SkipPlain(b, pos) == goal
        decreases |b| - pos
      {
        pos := pos + 1;
      }
    }

    /** A string from its opening quote. */
    method StringValue() returns (r: Result<seq<Byte>, Fault>)
      requires PeekIs(b, pos, QUOTE)
      modifies this
      ensures Inside() && Answer(r) == ParseString(b, old(pos) + 1, [])
    {
      hide ParseEscape, SkipPlain, ValidUpTo;
      pos := pos + 1;
      ghost var goal := ParseString(b, pos, []);
      var out: seq<Byte> := [];
      while true
        invariant Inside() && ParseString(b, pos, out) == goal
        decreases |b| - pos
      {
        var start := pos;
        PlainRun();
        var run := b[start..pos];
        if !ValidUtf8(run) {
          return Err(Syntax(start + ValidUpTo(run)));
        }
        out := out + run;
        if pos == |b| {
          return Err(Syntax(pos));
        }
        if b[pos] == QUOTE {
          pos := pos + 1;
          return Ok(out);
        }
        if b[pos] != BACKSLASH {
          return Err(Syntax(pos));
        }
        pos := pos + 1;
        var e := Escape();
        if e.Err? {
          return Err(e.error);
        }
        out := out + e.value;
      }
    }

    method Whole() returns (r: Option<Fault>)
      requires Inside()
      modifies this
      ensures Inside()
      ensures ParseWhole(b, old(pos)) == if r.None? then Ok(pos) else Err(r.value)
    {
      if PeekIs(b, pos, ZERO) {
        pos := pos + 1;
        return None;
      }
      if pos == |b| || !IsDigit(b[pos]) {
        return Some(Syntax(pos));
      }
      var n := Digits();
      return None;
    }

    method SomeDigits() returns (r: Option<Fault>)
      requires Inside()
      modifies this
      ensures Inside()
      ensures ParseDigits(b, old(pos)) == if r.None? then Ok(pos) else Err(r.value)
    {
      var n := Digits();
      return if n == 0 then Some(Syntax(pos)) else None;
    }

    method Fraction() returns (r: Option<Fault>)
      requires Inside()
      modifies this
      ensures Inside()
      ensures ParseFraction(b, old(pos)) == if r.None? then Ok(pos) else Err(r.value)
    {
      hide ParseDigits;
      if !PeekIs(b, pos, DOT) {
        return None;
      }
      pos := pos + 1;
      r := SomeDigits();
    }

    method Exponential() returns (r: Option<Fault>)
      requires Inside()
      modifies this
      ensures Inside()
      ensures ParseExponent(b, old(pos)) == if r.None? then Ok(pos) else Err(r.value)
    {
      hide ParseDigits;
      if !ExponentAt(b, pos) {
        return None;
      }
      pos := pos + 1;
      if SignAt(b, pos) {
        pos := pos + 1;
      }
      r := SomeDigits();
    }

    method NumberValue() returns (r: Result<Number, Fault>)
      requires Inside()
      modifies this
      ensures Inside() && Answer(r) == ParseNumber(b, old(pos))
    {
      hide ParseWhole, ParseFraction, ParseExponent, NumberOf;
      var start := pos;
      if PeekIs(b, pos, MINUS) {
        pos := pos + 1;
      }
      var fault := Whole();
      if fault.Some? {
        return Err(fault.value);
      }
      var whole := pos;
      fault := Fraction();
      if fault.Some? {
        return Err(fault.value);
      }
      fault := Exponential();
      if fault.Some? {
        return Err(fault.value);
      }
      return Ok(NumberOf(b[start..pos], pos != whole));
    }

    method Word(word: seq<Byte>, v: Value) returns (r: Result<Value, Fault>)
      requires Inside() && |word| > 0
      modifies this
      ensures Inside() && Answer(r) == ParseWord(b, old(pos), word, v)
    {
      if WordAt(b, pos, word) {
        pos := pos + |word|;
        return Ok(v);
      }
      return Err(Syntax(pos));
    }

    method ReadValue(room: nat) returns (r: Result<Value, Fault>)
      requires Inside()
      modifies this
      ensures Inside() && Answer(r) == ParseValue(b, old(pos), room)
      decreases |b| - pos, 2
    {
      hide ParseString, ParseNumber, ParseMembers, ParseItems, SkipSpace, WordAt;
      if room == 0 {
        return Err(TooDeep(pos));
      }
      if pos == |b| {
        return Err(Syntax(pos));
      }
      var c := b[pos];
      if c == OPEN_OBJECT {
        r := ReadObject(room);
      } else if c == OPEN_ARRAY {
        r := ReadArray(room);
      } else if c == QUOTE {
        var s := StringValue();
        r := if s.Ok? then Ok(Text(s.value)) else Err(s.error);
      } else if c == 0x74 {
        r := Word(TRUE, Bool(true));
      } else if c == 0x66 {
        r := Word(FALSE, Bool(false));
      } else if c == 0x6E {
        r := Word(NULL, Null);
      } else if c == MINUS || IsDigit(c) {
        var n := NumberValue();
        r := if n.Ok? then Ok(Num(n.value)) else Err(n.error);
      } else {
        r := Err(Syntax(pos));
      }
    }

    method ReadArray(room: nat) returns (r: Result<Value, Fault>)
      requires PeekIs(b, pos, OPEN_ARRAY) && room > 0
      modifies this
      ensures Inside()
      ensures var at := SkipSpace(b, old(pos) + 1);
        Answer(r) == if PeekIs(b, at, CLOSE_ARRAY) then Ok((List([]), at + 1)) else ParseItems(b, at, room - 1, [])
      decreases |b| - pos, 1
    {
      hide ParseValue, SkipSpace;
      ghost var first := pos;
      pos := pos + 1;
      SkipWhite();
      if PeekIs(b, pos, CLOSE_ARRAY) {
        pos := pos + 1;
        return Ok(List([]));
      }
      ghost var goal := ParseItems(b, pos, room - 1, []);
      var items: seq<Value> := [];
      while true
        invariant first < pos && Inside() && ParseItems(b, pos, room - 1, items) == goal
        decreases |b| - pos
      {
        SkipWhite();
        var v := ReadValue(room - 1);
        if v.Err? {
          return Err(v.error);
        }
        items := items + [v.value];
        SkipWhite();
        if PeekIs(b, pos, COMMA) {
          pos := pos + 1;
        } else if PeekIs(b, pos, CLOSE_ARRAY) {
          pos := pos + 1;
          return Ok(List(items));
        } else {
          return Err(Syntax(pos));
        }
      }
    }

    method ReadKey(fields: seq<(seq<Byte>, Value)>) returns (r: Result<seq<Byte>, Fault>)
      requires Inside()
      modifies this
      ensures Inside() && Answer(r) == ParseKey(b, old(pos), fields)
    {
      hide ParseString, SkipSpace, HasKey;
      SkipWhite();
      if !PeekIs(b, pos, QUOTE) {
        return Err(Syntax(pos));
      }
      var key := StringValue();
      if key.Err? {
        return key;
      }
      if HasKey(fields, key.value) {
        return Err(DuplicateKey(key.value));
      }
      SkipWhite();
      if !PeekIs(b, pos, COLON) {
        return Err(Syntax(pos));
      }
      pos := pos + 1;
      SkipWhite();
      return key;
    }

    method ReadObject(room: nat) returns (r: Result<Value, Fault>)
      requires PeekIs(b, pos, OPEN_OBJECT) && room > 0
      modifies this
      ensures Inside()
      ensures var at := SkipSpace(b, old(pos) + 1);
        Answer(r) == if PeekIs(b, at, CLOSE_OBJECT) then Ok((Fields([]), at + 1)) else ParseMembers(b, at, room - 1, [])
      decreases |b| - pos, 1
    {
      hide ParseValue, ParseKey, SkipSpace;
      ghost var first := pos;
      pos := pos + 1;
      SkipWhite();
      if PeekIs(b, pos, CLOSE_OBJECT) {
        pos := pos + 1;
        return Ok(Fields([]));
      }
      ghost var goal := ParseMembers(b, pos, room - 1, []);
      var fields: seq<(seq<Byte>, Value)> := [];
      while true
        invariant first < pos && Inside() && ParseMembers(b, pos, room - 1, fields) == goal
        decreases |b| - pos
      {
        var key := ReadKey(fields);
        if key.Err? {
          return Err(key.error);
        }
        var v := ReadValue(room - 1);
        if v.Err? {
          return Err(v.error);
        }
        fields := fields + [(key.value, v.value)];
        SkipWhite();
        if PeekIs(b, pos, COMMA) {
          pos := pos + 1;
        } else if PeekIs(b, pos, CLOSE_OBJECT) {
          pos := pos + 1;
          return Ok(Fields(fields));
        } else {
          return Err(Syntax(pos));
        }
      }
    }
  }

  /** One value with space around it, within the caller's limit. */
  method ParseDocument(b: seq<Byte>, limit: nat, depth: nat) returns (r: Result<Value, Fault>)
    ensures r == Parse(b, limit, depth)
  {
    hide ParseValue, SkipSpace;
    if |b| > limit {
      return Err(TooLarge);
    }
    var p := new Parser(b);
    p.SkipWhite();
    var v := p.ReadValue(depth);
    if v.Err? {
      return v;
    }
    p.SkipWhite();
    if p.pos < |b| {
      return Err(Trailing(p.pos));
    }
    return v;
  }
}
