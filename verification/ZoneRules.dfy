/**
 * The yearly rules of a time zone against the switching instants of all years: which offset is in force,
 * and exactly when looking at one year only finds it.
 */
module ZoneRules {
  import opened Common
  import opened Calendar
  import opened Timezone

  /** The largest time of day or offset the rule text can spell: 168:59:59. */
  const MAX_SPELLED: int := 608399
  const MARGIN: int := 15 * DAY

  predicate Spelled(seconds: int) {
    -MAX_SPELLED <= seconds <= MAX_SPELLED
  }

  /** What reading the rule text can give; a missing second offset is one hour more than the first. */
  predicate Parsed(e: Extension) {
    && Spelled(e.std) && -MAX_SPELLED <= e.dst <= MAX_SPELLED + 3600
    && (e.rules.Some? ==>
      && KnownRule(e.rules.value.0.kind) && Spelled(e.rules.value.0.seconds)
      && KnownRule(e.rules.value.1.kind) && Spelled(e.rules.value.1.seconds))
  }

  function January(year: int): int {
    DayNumber(Date(year, 1, 1)) * DAY
  }

  /** When a rule switches in any year, given the offset in force before it. */
  function Switch(rule: Rule, offset: int, year: int): int {
    January(year) + RuleDays(rule.kind, year) * DAY + rule.seconds - offset
  }

  predicate Tame(rule: Rule, offset: int) {
    KnownRule(rule.kind) && Spelled(rule.seconds) && -MAX_SPELLED <= offset <= MAX_SPELLED + 3600
  }

  function Starts(e: Extension, year: int): int
    requires e.rules.Some?
  {
    Switch(e.rules.value.0, e.std, year)
  }

  function Ends(e: Extension, year: int): int
    requires e.rules.Some?
  {
    Switch(e.rules.value.1, e.dst, year)
  }

  /**
   * Daylight saving is in force when the latest switch at or before the instant, over all years, is a
   * start; a start wins over an end at the same instant.
   */
  ghost predicate Daylight(e: Extension, unix: int)
    requires e.rules.Some?
  {
    exists y :: Starts(e, y) <= unix && forall z :: Ends(e, z) <= unix ==> Ends(e, z) <= Starts(e, y)
  }

  ghost function OffsetInForce(e: Extension, unix: int): int {
    if e.rules.Some? && Daylight(e, unix) then e.dst else e.std
  }

  // ---------- where switching instants lie ----------

  lemma YearLength(year: int)
    ensures 365 * DAY <= January(year + 1) - January(year) <= 366 * DAY
  {
    hide DayNumber;
    DayOfYearIs(year, 12, 31);
    NextYear(year);
    assert DaysBefore(12) == 334;
  }

  lemma {:induction false} MonthRuleWindow(kind: RuleKind, year: int)
    requires kind.Month? && KnownRule(kind)
    ensures DaysBefore(kind.month) + 7 * (kind.week - 1) - 7 <= RuleDays(kind, year) <= DaysBefore(kind.month) + 7 * (kind.week - 1) + 7
    ensures 0 <= RuleDays(kind, year) <= 365
  {
    hide DayNumber, Weekday, RuleDays, DaysBefore, Leap;
    var days := MonthRuleDay(year, kind.month, kind.week, kind.weekday);
    assert kind == Month(kind.month, kind.week, kind.weekday);
    DayOfYearIs(year, kind.month, 1);
    MonthEnds(year, kind.month);
    MonthDaysBound(year, kind.month);
  }

  lemma MonthEnds(year: int, month: int)
    requires 1 <= month <= 12
    ensures 0 <= DaysBefore(month) && DaysBefore(month) + (if month > 2 && Leap(year) then 1 else 0) + MonthDays(year, month) <= 366
  {
  }

  /** The day of year a rule falls on hardly moves from year to year. */
  lemma RuleWindow(kind: RuleKind, a: int, b: int)
    requires KnownRule(kind)
    ensures 0 <= RuleDays(kind, a) <= 365 && RuleDays(kind, a) - RuleDays(kind, b) <= 14
  {
    if kind.Month? {
      hide RuleDays;
      MonthRuleWindow(kind, a);
      MonthRuleWindow(kind, b);
    }
  }

  lemma SwitchNear(rule: Rule, offset: int, year: int)
    requires Tame(rule, offset)
    ensures January(year) - MARGIN <= Switch(rule, offset, year) <= January(year) + 365 * DAY + MARGIN
  {
    hide RuleDays, January;
    RuleWindow(rule.kind, year, year);
  }

  lemma SwitchGrows(rule: Rule, offset: int, year: int)
    requires Tame(rule, offset)
    ensures Switch(rule, offset, year) < Switch(rule, offset, year + 1)
  {
    hide RuleDays, January;
    RuleWindow(rule.kind, year, year + 1);
    YearLength(year);
  }

  lemma {:induction false} SwitchOrder(rule: Rule, offset: int, a: int, b: int)
    requires Tame(rule, offset) && a < b
    ensures Switch(rule, offset, a) < Switch(rule, offset, b)
    decreases b - a
  {
    hide Switch;
    SwitchGrows(rule, offset, b - 1);
    if a < b - 1 {
      SwitchOrder(rule, offset, a, b - 1);
    }
  }

  predicate InYear(unix: int, year: int) {
    January(year) <= unix < January(year + 1)
  }

  /** The latest switch of one rule at or before an instant of the year. */
  function Latest(rule: Rule, offset: int, unix: int, year: int): int {
    if Switch(rule, offset, year + 1) <= unix then Switch(rule, offset, year + 1)
    else if Switch(rule, offset, year) <= unix then Switch(rule, offset, year)
    else if Switch(rule, offset, year - 1) <= unix then Switch(rule, offset, year - 1)
    else Switch(rule, offset, year - 2)
  }

  lemma NeighboursSuffice(rule: Rule, offset: int, unix: int, year: int)
    requires Tame(rule, offset) && InYear(unix, year)
    ensures Switch(rule, offset, year - 2) <= unix < Switch(rule, offset, year + 2)
  {
    hide January, Switch;
    SwitchNear(rule, offset, year - 2);
    SwitchNear(rule, offset, year + 2);
    YearLength(year - 2);
    YearLength(year - 1);
    YearLength(year + 1);
  }

  lemma LatestIs(rule: Rule, offset: int, unix: int, year: int, y: int)
    requires Tame(rule, offset) && InYear(unix, year)
    ensures Latest(rule, offset, unix, year) <= unix
    ensures Switch(rule, offset, y) <= unix ==> Switch(rule, offset, y) <= Latest(rule, offset, unix, year)
  {
    hide Switch, InYear;
    NeighboursSuffice(rule, offset, unix, year);
    if y > year + 1 {
      if y > year + 2 {
        SwitchOrder(rule, offset, year + 2, y);
      }
    } else {
      if y < year + 1 {
        SwitchOrder(rule, offset, y, year + 1);
      }
      if y < year {
        SwitchOrder(rule, offset, y, year);
      }
      if y < year - 1 {
        SwitchOrder(rule, offset, y, year - 1);
      }
      if y < year - 2 {
        SwitchOrder(rule, offset, y, year - 2);
      }
    }
  }

  lemma LatestWitness(rule: Rule, offset: int, unix: int, year: int) returns (y: int)
    ensures Latest(rule, offset, unix, year) == Switch(rule, offset, y)
  {
    hide Switch;
    y := if Switch(rule, offset, year + 1) <= unix then year + 1
         else if Switch(rule, offset, year) <= unix then year
         else if Switch(rule, offset, year - 1) <= unix then year - 1
         else year - 2;
  }

  /** Four years of each rule decide what is in force. */
  lemma DaylightByLatest(e: Extension, unix: int, year: int)
    requires Parsed(e) && e.rules.Some? && InYear(unix, year)
    ensures Daylight(e, unix) <==>
      Latest(e.rules.value.0, e.std, unix, year) >= Latest(e.rules.value.1, e.dst, unix, year)
  {
    hide Switch, Latest, InYear;
    var (start, end) := e.rules.value;
    var a := LatestWitness(start, e.std, unix, year);
    var b := LatestWitness(end, e.dst, unix, year);
    LatestIs(start, e.std, unix, year, a);
    LatestIs(end, e.dst, unix, year, b);
    if Switch(start, e.std, a) >= Switch(end, e.dst, b) {
      forall z | Ends(e, z) <= unix ensures Ends(e, z) <= Starts(e, a) {
        LatestIs(end, e.dst, unix, year, z);
      }
      assert Starts(e, a) <= unix;
    }
    if Daylight(e, unix) {
      var y :| Starts(e, y) <= unix && forall z :: Ends(e, z) <= unix ==> Ends(e, z) <= Starts(e, y);
      LatestIs(start, e.std, unix, year, y);
      assert Ends(e, b) <= Starts(e, y);
    }
  }

  /** Without daylight saving the latest switch is an end. */
  lemma StandardMeans(e: Extension, unix: int, year: int)
    requires Parsed(e) && e.rules.Some? && InYear(unix, year)
    ensures !Daylight(e, unix) <==>
      exists z :: Ends(e, z) <= unix && forall y :: Starts(e, y) <= unix ==> Starts(e, y) < Ends(e, z)
  {
    hide Switch, Latest, InYear;
    var (start, end) := e.rules.value;
    DaylightByLatest(e, unix, year);
    var a := LatestWitness(start, e.std, unix, year);
    var b := LatestWitness(end, e.dst, unix, year);
    LatestIs(start, e.std, unix, year, a);
    LatestIs(end, e.dst, unix, year, b);
    if !Daylight(e, unix) {
      forall y | Starts(e, y) <= unix ensures Starts(e, y) < Ends(e, b) {
        LatestIs(start, e.std, unix, year, y);
      }
    }
    if z :| Ends(e, z) <= unix && forall y :: Starts(e, y) <= unix ==> Starts(e, y) < Ends(e, z) {
      LatestIs(end, e.dst, unix, year, z);
      assert Starts(e, a) < Ends(e, z);
    }
  }

  // ---------- one year only ----------

  /** What the two switches of the instant's own year say. */
  predicate OwnYearSays(e: Extension, unix: int, year: int)
    requires e.rules.Some?
  {
    var s, t := Starts(e, year), Ends(e, year);
    if s < t then s <= unix < t else unix >= s || unix < t
  }

  lemma YearOfInstant(unix: int)
    requires CivilOf(unix, 0).Ok?
    ensures 1 <= CivilOf(unix, 0).value.year <= 9999 && InYear(unix, CivilOf(unix, 0).value.year)
  {
    hide DateOf, DayNumber, MonthDays;
    var d := DateOf(unix / DAY);
    DateOfCorrect(unix / DAY);
    YearBounds(d);
    DayInterval(unix, DayNumber(Date(d.year, 1, 1)));
    DayInterval(unix, DayNumber(Date(d.year + 1, 1, 1)));
  }

  lemma SwitchIsRuleAt(rule: Rule, offset: int, year: int)
    requires 1 <= year <= 9999 && KnownRule(rule.kind)
    ensures RuleAt(rule, year, offset) == Ok(Switch(rule, offset, year))
  {
    hide RuleDays, DayNumber, RuleAt;
    RuleInstant(rule, year, offset, DayNumber(Date(year, 1, 1)), RuleDays(rule.kind, year));
  }

  lemma ExtensionLooksAtOneYear(e: Extension, unix: int)
    requires Parsed(e) && e.rules.Some? && CivilOf(unix, 0).Ok?
    ensures var year := CivilOf(unix, 0).value.year;
      ExtendedOffset(e, unix) == Ok(if OwnYearSays(e, unix, year) then e.dst else e.std)
  {
    hide RuleAt, Switch, CivilOf;
    var year := CivilOf(unix, 0).value.year;
    YearOfInstant(unix);
    SwitchIsRuleAt(e.rules.value.0, e.std, year);
    SwitchIsRuleAt(e.rules.value.1, e.dst, year);
  }

  /**
   * Where the switches of the neighbouring years must lie for the own year to be enough.
   * Both switches behind the instant: those of next year must not have turned it round already.
   * Only the start behind: last year's end must not have come after it.
   * Only the end behind: last year's start must not have come after it.
   * Neither: the last switches of the years before must be in the order of this year's.
   */
  predicate NeighboursAgree(e: Extension, unix: int, year: int)
    requires e.rules.Some?
  {
    var s, t := Starts(e, year), Ends(e, year);
    var nextStart, nextEnd := Starts(e, year + 1), Ends(e, year + 1);
    if s <= unix && t <= unix then
      var lastStart := if nextStart <= unix then nextStart else s;
      var lastEnd := if nextEnd <= unix then nextEnd else t;
      (lastStart >= lastEnd <==> s >= t)
    else if s <= unix then !(s < Ends(e, year - 1) <= unix) || nextStart <= unix
    else if t <= unix then !(t <= Starts(e, year - 1) <= unix) || nextEnd <= unix
    else
      var lastStart := if Starts(e, year - 1) <= unix then Starts(e, year - 1) else Starts(e, year - 2);
      var lastEnd := if Ends(e, year - 1) <= unix then Ends(e, year - 1) else Ends(e, year - 2);
      (lastStart >= lastEnd <==> s >= t)
  }

  /** Switches two years apart are in the order of their years. */
  lemma FarApart(first: Rule, p: int, second: Rule, q: int, year: int)
    requires Tame(first, p) && Tame(second, q)
    ensures Switch(first, p, year - 2) < Switch(second, q, year)
  {
    hide January, Switch;
    SwitchNear(first, p, year - 2);
    SwitchNear(second, q, year);
    YearLength(year - 2);
    YearLength(year - 1);
  }

  lemma OwnYearExactly(e: Extension, unix: int, year: int)
    requires Parsed(e) && e.rules.Some? && InYear(unix, year)
    ensures (OwnYearSays(e, unix, year) <==> Daylight(e, unix)) <==> NeighboursAgree(e, unix, year)
  {
    hide Switch, Daylight, InYear;
    var (start, end) := e.rules.value;
    DaylightByLatest(e, unix, year);
    SwitchGrows(start, e.std, year);
    SwitchGrows(end, e.dst, year);
    FarApart(start, e.std, end, e.dst, year);
    FarApart(end, e.dst, start, e.std, year);
    FarApart(start, e.std, end, e.dst, year + 1);
    FarApart(end, e.dst, start, e.std, year + 1);
  }

  /** The offset given is the one in force exactly when the neighbouring years agree, or both offsets are the same. */
  lemma ExtensionRightExactly(e: Extension, unix: int)
    requires Parsed(e) && e.rules.Some? && CivilOf(unix, 0).Ok?
    ensures ExtendedOffset(e, unix) == Ok(OffsetInForce(e, unix)) <==>
      e.std == e.dst || NeighboursAgree(e, unix, CivilOf(unix, 0).value.year)
  {
    hide ExtendedOffset, OwnYearSays, NeighboursAgree, Daylight, CivilOf, InYear;
    YearOfInstant(unix);
    ExtensionLooksAtOneYear(e, unix);
    OwnYearExactly(e, unix, CivilOf(unix, 0).value.year);
  }

  /** Both switches lie inside their own year, in the same order every year. */
  ghost predicate Ordinary(e: Extension)
    requires e.rules.Some?
  {
    && (forall y :: InYear(Starts(e, y), y)) && (forall y :: InYear(Ends(e, y), y))
    && ((forall y :: Starts(e, y) < Ends(e, y)) || (forall y :: Starts(e, y) >= Ends(e, y)))
  }

  /** For such zones the offset is right at every instant. */
  lemma OrdinaryZoneRight(e: Extension, unix: int)
    requires Parsed(e) && e.rules.Some? && Ordinary(e) && CivilOf(unix, 0).Ok?
    ensures ExtendedOffset(e, unix) == Ok(OffsetInForce(e, unix))
  {
    hide ExtendedOffset, NeighboursAgree, CivilOf, InYear, Ordinary, OffsetInForce;
    YearOfInstant(unix);
    ExtensionRightExactly(e, unix);
    OrdinaryAgrees(e, unix, CivilOf(unix, 0).value.year);
  }

  lemma OrdinaryAgrees(e: Extension, unix: int, year: int)
    requires e.rules.Some? && Ordinary(e) && InYear(unix, year)
    ensures NeighboursAgree(e, unix, year)
  {
    hide Switch, January;
    assert InYear(Starts(e, year), year) && InYear(Ends(e, year), year);
    assert InYear(Starts(e, year - 1), year - 1) && InYear(Ends(e, year - 1), year - 1);
    assert InYear(Starts(e, year + 1), year + 1) && InYear(Ends(e, year + 1), year + 1);
  }

  // ---------- a zone it gets wrong ----------

  /** Daylight saving all year round, written XXX3EDT4,0/0,J365/23: each year ends daylight saving when the next starts it. */
  const ALL_YEAR := Extension(-10800, -14400, Some((Rule(DayOfYear(0), 0), Rule(Julian(365), 82800))))

  lemma Millennium()
    ensures January(1999) == 10592 * DAY && January(2000) == 10957 * DAY
    ensures January(2001) == 11323 * DAY && January(2002) == 11688 * DAY
  {
    assert 1998 / 400 == 4 && 1999 / 400 == 4 && 2000 / 400 == 5 && 2001 / 400 == 5 && (153 * 10 + 2) / 5 == 306;
    assert YearStart(398) == 398 * 365 + 99 - 3 && YearStart(399) == 399 * 365 + 99 - 3;
    assert YearStart(0) == 0 && YearStart(1) == 365;
  }

  /** One hour into 2001 daylight saving is in force, and the standard offset is given. */
  lemma AllYearFails()
    ensures var unix := January(2001) + 3600;
      OffsetInForce(ALL_YEAR, unix) == -14400 && ExtendedOffset(ALL_YEAR, unix) == Ok(-10800)
  {
    var unix := January(2001) + 3600;
    Millennium();
    assert Starts(ALL_YEAR, 2000) == 10957 * DAY + 10800 && Starts(ALL_YEAR, 2001) == 11323 * DAY + 10800;
    assert Starts(ALL_YEAR, 2002) == 11688 * DAY + 10800;
    JulianEnd(1999);
    JulianEnd(2000);
    JulianEnd(2001);
    YearLength(2002);
    JulianEnd(2002);
    InTwoThousandOne(unix);
    hide Switch, January, CivilOf, ExtendedOffset;
    ExtensionLooksAtOneYear(ALL_YEAR, unix);
    DaylightByLatest(ALL_YEAR, unix, 2001);
  }

  lemma JulianEnd(year: int)
    ensures Ends(ALL_YEAR, year) == January(year + 1) + 10800
  {
    hide DayNumber;
    DayOfYearIs(year, 12, 31);
    NextYear(year);
    assert DaysBefore(12) == 334;
  }

  lemma InTwoThousandOne(unix: int)
    requires unix == 11323 * DAY + 3600
    ensures CivilOf(unix, 0).Ok? && CivilOf(unix, 0).value.year == 2001 && InYear(unix, 2001)
  {
    Millennium();
    hide DateOf, DayNumber;
    assert unix / DAY == 11323;
    DateOfDayNumber(Date(2001, 1, 1));
  }

  // ---------- the table ----------

  /** Inside the table the offset is that of the last transition at or before the instant. */
  lemma TableInForce(t: Table, unix: int, k: nat)
    requires Sorted(t.transitions) && k < |t.transitions| && ZonesKnown(t.transitions, |t.zones|)
    requires t.transitions[k].at <= unix && (k + 1 < |t.transitions| ==> unix < t.transitions[k + 1].at)
    requires k + 1 < |t.transitions| || t.extend.None?
    ensures OffsetAt(t, unix) == Ok(t.zones[t.transitions[k].zone].offset)
  {
    PassedIs(t.transitions, unix, k + 1);
  }

  ghost predicate IsStandard(zones: seq<Zone>, k: int) {
    0 <= k < |zones| && !zones[k].dst
  }

  lemma {:induction false} FindStandardIs(zones: seq<Zone>, n: nat)
    requires n <= |zones|
    ensures match FindStandard(zones, n)
      case Some(k) => k < n && IsStandard(zones, k) && forall j :: k < j < n ==> !IsStandard(zones, j)
      case None => forall j :: 0 <= j < n ==> !IsStandard(zones, j)
  {
    if n > 0 {
      FindStandardIs(zones, n - 1);
    }
  }

  lemma {:induction false} FirstStandardIs(zones: seq<Zone>)
    ensures match FirstStandard(zones)
      case Some(k) => IsStandard(zones, k) && forall j :: 0 <= j < k ==> !IsStandard(zones, j)
      case None => forall j :: 0 <= j < |zones| ==> !IsStandard(zones, j)
  {
    if |zones| > 0 {
      var front := zones[..|zones| - 1];
      FirstStandardIs(front);
      assert forall j :: 0 <= j < |front| ==> (IsStandard(front, j) <==> IsStandard(zones, j));
    }
  }

  /**
   * Before the first transition the zone is 0 unless a transition uses it; then it is the nearest standard
   * zone below a first transition into daylight saving, else the first standard zone, else 0.
   */
  lemma FirstZoneIs(t: Table)
    requires ZonesKnown(t.transitions, |t.zones|) && |t.zones| > 0
    ensures FirstZone(t) < |t.zones|
    ensures (forall k :: 0 <= k < |t.transitions| ==> t.transitions[k].zone != 0) ==> FirstZone(t) == 0
    ensures (exists k :: 0 <= k < |t.transitions| && t.transitions[k].zone == 0) ==>
      var z := t.transitions[0].zone;
      if t.zones[z].dst && exists k :: 0 <= k < z && IsStandard(t.zones, k)
      then FirstZone(t) < z && IsStandard(t.zones, FirstZone(t)) && forall j :: FirstZone(t) < j < z ==> !IsStandard(t.zones, j)
      else if exists k :: 0 <= k < |t.zones| && IsStandard(t.zones, k)
      then IsStandard(t.zones, FirstZone(t)) && forall j :: 0 <= j < FirstZone(t) ==> !IsStandard(t.zones, j)
      else FirstZone(t) == 0
  {
    FirstStandardIs(t.zones);
    if |t.transitions| > 0 {
      FindStandardIs(t.zones, t.transitions[0].zone);
    }
  }

  /** Before the first transition, and without transitions when no rule extends the table, that zone's offset holds. */
  lemma BeforeTable(t: Table, unix: int)
    requires Sorted(t.transitions) && ZonesKnown(t.transitions, |t.zones|) && |t.zones| > 0
    requires if |t.transitions| > 0 then unix < t.transitions[0].at else t.extend.None?
    ensures FirstZone(t) < |t.zones| && OffsetAt(t, unix) == Ok(t.zones[FirstZone(t)].offset)
  {
    FirstZoneIs(t);
    PassedIs(t.transitions, unix, 0);
    if |t.transitions| > 1 {
      assert t.transitions[0].at < t.transitions[|t.transitions| - 1].at;
    }
  }
}
