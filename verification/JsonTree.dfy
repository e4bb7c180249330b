/**
 * JSON texts as trees: every way to write a value, with its whitespace and escapes, and what it means.
 * The shapes follow sections 2 to 7 of RFC 8259.
 */
module JsonTree {
  import opened Common
  import opened Bytes

  const QUOTE: Byte := 0x22
  const BACKSLASH: Byte := 0x5C
  const COMMA: Byte := 0x2C
  const COLON: Byte := 0x3A
  const MINUS: Byte := 0x2D
  const PLUS: Byte := 0x2B
  const DOT: Byte := 0x2E
  const ZERO: Byte := 0x30
  const OPEN_ARRAY: Byte := 0x5B
  const CLOSE_ARRAY: Byte := 0x5D
  const OPEN_OBJECT: Byte := 0x7B
  const CLOSE_OBJECT: Byte := 0x7D
  const LETTER_U: Byte := 0x75

  /** A number is kept exactly when it fits 64 bits and as its text otherwise. */
  datatype Number = Uint(whole: nat) | Int(signed: int) | Float(text: seq<Byte>)

  datatype Value =
    | Null
    | Bool(value: bool)
    | Num(number: Number)
    | Text(bytes: seq<Byte>)
    | List(items: seq<Value>)
    | Fields(fields: seq<(seq<Byte>, Value)>)

  // ---------- characters ----------

  predicate IsSpace(c: Byte) {
    c == 0x20 || c == 0x09 || c == 0x0A || c == 0x0D
  }

  predicate IsDigit(c: Byte) {
    0x30 <= c <= 0x39
  }

  predicate Plain(c: Byte) {
    c != QUOTE && c != BACKSLASH && c >= 0x20
  }

  ghost predicate AllSpace(s: seq<Byte>) {
    forall k :: 0 <= k < |s| ==> IsSpace(s[k])
  }

  ghost predicate AllDigits(s: seq<Byte>) {
    forall k :: 0 <= k < |s| ==> IsDigit(s[k])
  }

  ghost predicate AllPlain(s: seq<Byte>) {
    forall k :: 0 <= k < |s| ==> Plain(s[k])
  }

  function HexDigit(c: Byte): Option<nat> {
    if 0x30 <= c <= 0x39 then Some(c as nat - 0x30)
    else if 0x61 <= c <= 0x66 then Some(c as nat - 0x61 + 10)
    else if 0x41 <= c <= 0x46 then Some(c as nat - 0x41 + 10)
    else None
  }

  predicate Continues(c: Byte) {
    0x80 <= c <= 0xBF
  }

  /** The length of the UTF-8 character at the front, 0 when there is none (RFC 3629, section 4). */
  function CharSize(s: seq<Byte>): (n: nat)
    ensures n <= |s|
  {
    if |s| == 0 then 0
    else if s[0] < 0x80 then 1
    else if 0xC2 <= s[0] <= 0xDF && |s| >= 2 && Continues(s[1]) then 2
    else if |s| >= 3 && Continues(s[2])
      && ((s[0] == 0xE0 && 0xA0 <= s[1] <= 0xBF) || (s[0] == 0xED && 0x80 <= s[1] <= 0x9F)
          || ((0xE1 <= s[0] <= 0xEC || 0xEE <= s[0] <= 0xEF) && Continues(s[1]))) then 3
    else if |s| >= 4 && Continues(s[2]) && Continues(s[3])
      && ((s[0] == 0xF0 && 0x90 <= s[1] <= 0xBF) || (s[0] == 0xF4 && 0x80 <= s[1] <= 0x8F)
          || (0xF1 <= s[0] <= 0xF3 && Continues(s[1]))) then 4
    else 0
  }

  /** How far the bytes are whole UTF-8 characters. */
  function ValidUpTo(s: seq<Byte>): (n: nat)
    ensures n <= |s|
    decreases |s|
  {
    var k := CharSize(s);
    if k == 0 then 0 else k + ValidUpTo(s[k..])
  }

  predicate ValidUtf8(s: seq<Byte>) {
    ValidUpTo(s) == |s|
  }

  predicate High(unit: nat) {
    0xD800 <= unit < 0xDC00
  }

  predicate Low(unit: nat) {
    0xDC00 <= unit < 0xE000
  }

  function ByteOf(n: nat): Byte {
    if n < 256 then n as Byte else 0
  }

  /** UTF-8 of a code point; a lone surrogate becomes U+FFFD. */
  function CharBytes(cp: nat): seq<Byte> {
    if cp < 0x80 then [ByteOf(cp)]
    else if cp < 0x800 then [ByteOf(0xC0 + cp / 64), ByteOf(0x80 + cp % 64)]
    else if High(cp) || Low(cp) || cp > 0x10FFFF then [0xEF, 0xBF, 0xBD]
    else if cp < 0x10000 then [ByteOf(0xE0 + cp / 4096), ByteOf(0x80 + cp / 64 % 64), ByteOf(0x80 + cp % 64)]
    else [ByteOf(0xF0 + cp / 262144), ByteOf(0x80 + cp / 4096 % 64), ByteOf(0x80 + cp / 64 % 64), ByteOf(0x80 + cp % 64)]
  }

  /** The byte an escape letter stands for. */
  function Short(c: Byte): Option<Byte> {
    if c == QUOTE || c == BACKSLASH || c == 0x2F then Some(c)
    else if c == 0x62 then Some(0x08)
    else if c == 0x66 then Some(0x0C)
    else if c == 0x6E then Some(0x0A)
    else if c == 0x72 then Some(0x0D)
    else if c == 0x74 then Some(0x09)
    else None
  }

  // ---------- strings ----------

  datatype Escape = Letter(c: Byte) | Unit(hex: seq<Byte>) | Pair(hi: seq<Byte>, lo: seq<Byte>)

  /** The part of a string behind its opening quote: a plain run, then an escape and more, or the closing quote. */
  datatype StringTree = End(run: seq<Byte>) | Escaped(run: seq<Byte>, escape: Escape, rest: StringTree)

  ghost predicate HexOk(hex: seq<Byte>) {
    |hex| == 4 && forall k :: 0 <= k < 4 ==> HexDigit(hex[k]).Some?
  }

  function HexValue(hex: seq<Byte>): nat {
    if |hex| == 0 then 0
    else
      var d := HexDigit(hex[|hex| - 1]);
      16 * HexValue(hex[..|hex| - 1]) + (if d.Some? then d.value else 0)
  }

  ghost predicate EscapeOk(e: Escape) {
    match e
    case Letter(c) => Short(c).Some?
    case Unit(hex) => HexOk(hex) && !High(HexValue(hex))
    case Pair(hi, lo) => HexOk(hi) && HexOk(lo) && High(HexValue(hi)) && Low(HexValue(lo))
  }

  function EscapeText(e: Escape): seq<Byte> {
    match e
    case Letter(c) => [c]
    case Unit(hex) => [LETTER_U] + hex
    case Pair(hi, lo) => [LETTER_U] + (hi + ([BACKSLASH, LETTER_U] + lo))
  }

  function EscapeMeaning(e: Escape): seq<Byte> {
    match e
    case Letter(c) => if Short(c).Some? then [Short(c).value] else []
    case Unit(hex) => CharBytes(HexValue(hex))
    case Pair(hi, lo) => if High(HexValue(hi)) && Low(HexValue(lo)) then CharBytes(PairValue(HexValue(hi), HexValue(lo))) else []
  }

  function PairValue(hi: nat, lo: nat): nat
    requires High(hi) && Low(lo)
  {
    0x10000 + (hi - 0xD800) * 1024 + (lo - 0xDC00)
  }

  ghost predicate StringOk(s: StringTree) {
    && AllPlain(s.run) && ValidUtf8(s.run)
    && (s.Escaped? ==> EscapeOk(s.escape) && StringOk(s.rest))
  }

  function StringText(s: StringTree): seq<Byte> {
    match s
    case End(run) => run + [QUOTE]
    case Escaped(run, escape, rest) => run + ([BACKSLASH] + (EscapeText(escape) + StringText(rest)))
  }

  function StringMeaning(s: StringTree): seq<Byte> {
    match s
    case End(run) => run
    case Escaped(run, escape, rest) => run + (EscapeMeaning(escape) + StringMeaning(rest))
  }

  // ---------- numbers ----------

  datatype Exponent = Exponent(letter: Byte, sign: seq<Byte>, digits: seq<Byte>)

  datatype NumberTree = NumberTree(minus: bool, whole: seq<Byte>, fraction: Option<seq<Byte>>, exponent: Option<Exponent>)

  ghost predicate ExponentOk(e: Exponent) {
    && (e.letter == 0x65 || e.letter == 0x45)
    && (e.sign == [] || e.sign == [PLUS] || e.sign == [MINUS])
    && e.digits != [] && AllDigits(e.digits)
  }

  ghost predicate NumberOk(n: NumberTree) {
    && n.whole != [] && AllDigits(n.whole) && (n.whole[0] == ZERO ==> |n.whole| == 1)
    && (n.fraction.Some? ==> n.fraction.value != [] && AllDigits(n.fraction.value))
    && (n.exponent.Some? ==> ExponentOk(n.exponent.value))
  }

  function FractionText(f: Option<seq<Byte>>): seq<Byte> {
    if f.Some? then [DOT] + f.value else []
  }

  function ExponentText(e: Option<Exponent>): seq<Byte> {
    if e.Some? then [e.value.letter] + (e.value.sign + e.value.digits) else []
  }

  function NumberText(n: NumberTree): seq<Byte> {
    (if n.minus then [MINUS] else []) + (n.whole + (FractionText(n.fraction) + ExponentText(n.exponent)))
  }

  function Decimal(digits: seq<Byte>): nat {
    if |digits| == 0 then 0
    else
      var last := digits[|digits| - 1];
      10 * Decimal(digits[..|digits| - 1]) + (if IsDigit(last) then last as nat - 0x30 else 0)
  }

  /** Whole numbers of 64 bits are kept exactly; a minus sign makes them signed. */
  function NumberMeaning(n: NumberTree): Number {
    if n.fraction.Some? || n.exponent.Some? then Float(NumberText(n))
    else if !n.minus then (if Decimal(n.whole) < U64_LIMIT then Uint(Decimal(n.whole)) else Float(NumberText(n)))
    else if Decimal(n.whole) <= U64_LIMIT / 2 then Int(0 - Decimal(n.whole))
    else Float(NumberText(n))
  }

  // ---------- values ----------

  datatype Tree =
    | NullWord
    | TrueWord
    | FalseWord
    | Numeral(number: NumberTree)
    | Quoted(text: StringTree)
    | EmptyArray(space: seq<Byte>)
    | Array(items: Items)
    | EmptyObject(space: seq<Byte>)
    | Object(members: Members)

  datatype Items =
    | LastItem(before: seq<Byte>, value: Tree, after: seq<Byte>)
    | MoreItems(before: seq<Byte>, value: Tree, after: seq<Byte>, rest: Items)

  datatype Members =
    | LastMember(before: seq<Byte>, key: StringTree, gap: seq<Byte>, indent: seq<Byte>, value: Tree, after: seq<Byte>)
    | MoreMembers(before: seq<Byte>, key: StringTree, gap: seq<Byte>, indent: seq<Byte>, value: Tree, after: seq<Byte>,
                  rest: Members)

  const NULL: seq<Byte> := [0x6E, 0x75, 0x6C, 0x6C]
  const TRUE: seq<Byte> := [0x74, 0x72, 0x75, 0x65]
  const FALSE: seq<Byte> := [0x66, 0x61, 0x6C, 0x73, 0x65]

  function TreeText(t: Tree): seq<Byte> {
    match t
    case NullWord => NULL
    case TrueWord => TRUE
    case FalseWord => FALSE
    case Numeral(n) => NumberText(n)
    case Quoted(s) => [QUOTE] + StringText(s)
    case EmptyArray(space) => [OPEN_ARRAY] + (space + [CLOSE_ARRAY])
    case Array(items) => [OPEN_ARRAY] + ItemsText(items)
    case EmptyObject(space) => [OPEN_OBJECT] + (space + [CLOSE_OBJECT])
    case Object(members) => [OPEN_OBJECT] + MembersText(members)
  }

  function ItemsText(items: Items): seq<Byte> {
    items.before + (TreeText(items.value) + (items.after + (
      match items
      case LastItem(_, _, _) => [CLOSE_ARRAY]
      case MoreItems(_, _, _, rest) => [COMMA] + ItemsText(rest))))
  }

  function MembersText(m: Members): seq<Byte> {
    m.before + ([QUOTE] + (StringText(m.key) + (m.gap + ([COLON] + (m.indent + (TreeText(m.value) + (m.after + (
      match m
      case LastMember(_, _, _, _, _, _) => [CLOSE_OBJECT]
      case MoreMembers(_, _, _, _, _, _, rest) => [COMMA] + MembersText(rest)))))))))
  }

  function Meaning(t: Tree): Value {
    match t
    case NullWord => Null
    case TrueWord => Bool(true)
    case FalseWord => Bool(false)
    case Numeral(n) => Num(NumberMeaning(n))
    case Quoted(s) => Text(StringMeaning(s))
    case EmptyArray(_) => List([])
    case Array(items) => List(ItemsMeaning(items))
    case EmptyObject(_) => Fields([])
    case Object(members) => Fields(MembersMeaning(members))
  }

  function ItemsMeaning(items: Items): seq<Value> {
    [Meaning(items.value)] + (match items case LastItem(_, _, _) => [] case MoreItems(_, _, _, rest) => ItemsMeaning(rest))
  }

  function MembersMeaning(m: Members): seq<(seq<Byte>, Value)> {
    [(StringMeaning(m.key), Meaning(m.value))]
    + (match m case LastMember(_, _, _, _, _, _) => [] case MoreMembers(_, _, _, _, _, _, rest) => MembersMeaning(rest))
  }

  predicate HasKey(fields: seq<(seq<Byte>, Value)>, key: seq<Byte>) {
    exists k :: 0 <= k < |fields| && fields[k].0 == key
  }

  ghost predicate DistinctKeys(fields: seq<(seq<Byte>, Value)>) {
    forall i, j :: 0 <= i < j < |fields| ==> fields[i].0 != fields[j].0
  }

  /** Well formed, with distinct decoded keys, and nested less than `room` deep. */
  ghost predicate TreeOk(t: Tree, room: nat) {
    && room > 0
    && match t
      case Numeral(n) => NumberOk(n)
      case Quoted(s) => StringOk(s)
      case EmptyArray(space) => AllSpace(space)
      case Array(items) => ItemsOk(items, room - 1)
      case EmptyObject(space) => AllSpace(space)
      case Object(members) => MembersOk(members, room - 1) && DistinctKeys(MembersMeaning(members))
      case _ => true
  }

  ghost predicate ItemsOk(items: Items, room: nat) {
    AllSpace(items.before) && TreeOk(items.value, room) && AllSpace(items.after)
    && (items.MoreItems? ==> ItemsOk(items.rest, room))
  }

  ghost predicate MembersOk(m: Members, room: nat) {
    AllSpace(m.before) && StringOk(m.key) && AllSpace(m.gap) && AllSpace(m.indent)
    && TreeOk(m.value, room) && AllSpace(m.after)
    && (m.MoreMembers? ==> MembersOk(m.rest, room))
  }
}
