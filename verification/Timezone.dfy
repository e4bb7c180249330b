/** Time zones: a table of transitions searched by halving, and the yearly rules that extend it. */
module Timezone {
  import opened Common
  import opened Calendar

  const MAX_TRANSITIONS: nat := 100_000

  datatype Zone = Zone(offset: int, dst: bool)

  datatype Transition = Transition(at: int, zone: nat)

  datatype RuleKind = Julian(n: int) | DayOfYear(n: int) | Month(month: int, week: int, weekday: int)

  datatype Rule = Rule(kind: RuleKind, seconds: int)

  datatype Extension = Extension(std: int, dst: int, rules: Option<(Rule, Rule)>)

  datatype Table = Table(zones: seq<Zone>, transitions: seq<Transition>, extend: Option<Extension>)

  // ---------- the table ----------

  ghost predicate Sorted(ts: seq<Transition>) {
    forall i, j :: 0 <= i < j < |ts| ==> ts[i].at < ts[j].at
  }

  ghost predicate ZonesKnown(ts: seq<Transition>, types: nat) {
    forall i :: 0 <= i < |ts| ==> ts[i].zone < types
  }

  /** Transitions are taken over one by one; a step back in time or an unknown zone refuses the file. */
  method Load(raw: seq<Transition>, types: nat) returns (r: Option<seq<Transition>>)
    ensures r.Some? <==> Sorted(raw) && ZonesKnown(raw, types) && |raw| <= MAX_TRANSITIONS
    ensures r.Some? ==> r.value == raw
  {
    var transitions: seq<Transition> := [];
    for i := 0 to |raw|
      invariant transitions == raw[..i] && Sorted(transitions) && ZonesKnown(transitions, types)
      invariant i <= MAX_TRANSITIONS
    {
      var t := raw[i];
      if t.zone >= types {
        return None;
      }
      if |transitions| > 0 && transitions[|transitions| - 1].at >= t.at {
        assert raw[i - 1].at >= raw[i].at;
        return None;
      }
      if |transitions| >= MAX_TRANSITIONS {
        return None;
      }
      transitions := transitions + [t];
    }
    assert raw[..|raw|] == raw;
    return Some(transitions);
  }

  /** How many transitions are at or before the instant, by scanning. */
  function Passed(ts: seq<Transition>, unix: int): (n: nat)
    ensures n <= |ts|
  {
    if |ts| == 0 then 0
    else if ts[|ts| - 1].at <= unix then |ts|
    else Passed(ts[..|ts| - 1], unix)
  }

  /** Halving finds the same place as scanning. */
  method PartitionPoint(ts: seq<Transition>, unix: int) returns (n: nat)
    requires Sorted(ts)
    ensures n == Passed(ts, unix)
  {
    var low, high := 0, |ts|;
    while low < high
      invariant 0 <= low <= high <= |ts|
      invariant low > 0 ==> ts[low - 1].at <= unix
      invariant high < |ts| ==> ts[high].at > unix
    {
      var mid := (low + high) / 2;
      if ts[mid].at <= unix {
        low := mid + 1;
      } else {
        high := mid;
      }
    }
    PassedIs(ts, unix, low);
    return low;
  }

  lemma {:induction false} PassedIs(ts: seq<Transition>, unix: int, n: nat)
    requires Sorted(ts) && n <= |ts|
    requires (n > 0 ==> ts[n - 1].at <= unix) && (n < |ts| ==> ts[n].at > unix)
    ensures Passed(ts, unix) == n
  {
    if n < |ts| {
      assert ts[|ts| - 1].at > unix;
      var front := ts[..|ts| - 1];
      if n < |front| {
        assert front[n] == ts[n];
      }
      PassedIs(front, unix, n);
    }
  }

  /** The last transition at or before the instant is the one in force. */
  lemma LastInForce(ts: seq<Transition>, unix: int)
    requires Sorted(ts)
    ensures var n := Passed(ts, unix);
      && (forall i :: 0 <= i < n ==> ts[i].at <= unix)
      && (forall i :: n <= i < |ts| ==> ts[i].at > unix)
  {
    if |ts| > 0 && ts[|ts| - 1].at > unix {
      var front := ts[..|ts| - 1];
      LastInForce(front, unix);
      assert forall i :: 0 <= i < |front| ==> front[i] == ts[i];
    }
  }

  function FindStandard(zones: seq<Zone>, n: nat): Option<nat>
    requires n <= |zones|
  {
    if n == 0 then None else if !zones[n - 1].dst then Some(n - 1) else FindStandard(zones, n - 1)
  }

  function FirstStandard(zones: seq<Zone>): Option<nat> {
    if |zones| == 0 then None
    else
      var earlier := FirstStandard(zones[..|zones| - 1]);
      if earlier.Some? then earlier else if !zones[|zones| - 1].dst then Some(|zones| - 1) else None
  }

  /** The zone before the first transition. */
  function FirstZone(t: Table): nat {
    if forall k :: 0 <= k < |t.transitions| ==> t.transitions[k].zone != 0 then 0
    else
      var z := t.transitions[0].zone;
      if z < |t.zones| && t.zones[z].dst && FindStandard(t.zones, z).Some? then FindStandard(t.zones, z).value
      else if FirstStandard(t.zones).Some? then FirstStandard(t.zones).value
      else 0
  }

  /** The offset in force, with the table scanned from the back. */
  function OffsetAt(t: Table, unix: int): Result<int, Fault> {
    if t.zones == [] then Ok(0)
    else if (t.transitions == [] || unix >= t.transitions[|t.transitions| - 1].at) && t.extend.Some?
    then ExtendedOffset(t.extend.value, unix)
    else
      var n := Passed(t.transitions, unix);
      var zone := if n > 0 then t.transitions[n - 1].zone else FirstZone(t);
      if zone < |t.zones| then Ok(t.zones[zone].offset) else Err(OutOfRange)
  }

  method Offset(t: Table, unix: int) returns (r: Result<int, Fault>)
    requires Sorted(t.transitions)
    ensures r == OffsetAt(t, unix)
  {
    if t.zones == [] {
      return Ok(0);
    }
    if t.transitions == [] || unix >= t.transitions[|t.transitions| - 1].at {
      if t.extend.Some? {
        return ExtendedOffset(t.extend.value, unix);
      }
    }
    var n := PartitionPoint(t.transitions, unix);
    var zone := if n > 0 then t.transitions[n - 1].zone else FirstZone(t);
    if zone >= |t.zones| {
      return Err(OutOfRange);
    }
    return Ok(t.zones[zone].offset);
  }

  // ---------- yearly rules ----------

  /** 0 is Sunday; day 0 was a Thursday. */
  function Weekday(dayNumber: int): int {
    (dayNumber + 4) % 7
  }

  /** Days after 1 January on which the rule falls. */
  function RuleDays(kind: RuleKind, year: int): int {
    match kind
    case Julian(n) => n - 1 + (if Leap(year) && n >= 60 then 1 else 0)
    case DayOfYear(n) => n
    case Month(month, week, weekday) =>
      var start := DayNumber(Date(year, month, 1));
      var first := (weekday - Weekday(start)) % 7 + 7 * (week - 1);
      start - DayNumber(Date(year, 1, 1)) + (if first >= MonthDays(year, month) then first - 7 else first)
  }

  predicate KnownRule(kind: RuleKind) {
    match kind
    case Julian(n) => 1 <= n <= 365
    case DayOfYear(n) => 0 <= n <= 365
    case Month(month, week, weekday) => 1 <= month <= 12 && 1 <= week <= 5 && 0 <= weekday <= 6
  }

  /** The instant at which the rule switches in a year, given the offset in force before it. */
  function RuleAt(rule: Rule, year: int, offset: int): Result<int, Fault> {
    var january := Midnight(year, 1, 1);
    if january.Err? || (rule.kind.Month? && Midnight(year, rule.kind.month, 1).Err?) then Err(OutOfRange)
    else Ok(january.value + RuleDays(rule.kind, year) * DAY + rule.seconds - offset)
  }

  function ExtendedOffset(e: Extension, unix: int): Result<int, Fault> {
    if e.rules.None? then Ok(e.std)
    else
      var civil := CivilOf(unix, 0);
      if civil.Err? then Err(civil.error)
      else
        var start := RuleAt(e.rules.value.0, civil.value.year, e.std);
        var end := RuleAt(e.rules.value.1, civil.value.year, e.dst);
        if start.Err? || end.Err? then Err(OutOfRange)
        else
          var daylight :=
            if start.value < end.value then start.value <= unix < end.value
            else unix >= start.value || unix < end.value;
          Ok(if daylight then e.dst else e.std)
  }

  /** The date on which a rule falls in a year. */
  function RuleDate(kind: RuleKind, year: int): Date {
    DateOf(DayNumber(Date(year, 1, 1)) + RuleDays(kind, year))
  }

  /**
   * A month rule falls inside its month on the requested weekday; weeks 1 to 4 count from the start of
   * the month, week 5 is the last one.
   */
  lemma MonthRuleDate(year: int, month: int, week: int, weekday: int)
    requires KnownRule(Month(month, week, weekday))
    ensures var d := RuleDate(Month(month, week, weekday), year);
      && ValidDate(d) && d.year == year && d.month == month && Weekday(DayNumber(d)) == weekday
      && (week <= 4 ==> 7 * (week - 1) < d.day <= 7 * week)
      && (week == 5 ==> d.day + 7 > MonthDays(year, month))
  {
    hide DayNumber, DateOf, Weekday, MonthDays, RuleDays;
    var days := MonthRuleDay(year, month, week, weekday);
    var d := Date(year, month, days + 1);
    InMonth(year, month, days + 1);
    DateOfDayNumber(d);
  }

  lemma MonthRuleDay(year: int, month: int, week: int, weekday: int) returns (days: int)
    requires KnownRule(Month(month, week, weekday))
    ensures RuleDays(Month(month, week, weekday), year)
      == DayNumber(Date(year, month, 1)) - DayNumber(Date(year, 1, 1)) + days
    ensures 0 <= days < MonthDays(year, month) && Weekday(DayNumber(Date(year, month, 1)) + days) == weekday
    ensures week <= 4 ==> 7 * (week - 1) <= days < 7 * week
    ensures week == 5 ==> days + 8 > MonthDays(year, month)
  {
    hide DayNumber, MonthDays, Weekday;
    var start := DayNumber(Date(year, month, 1));
    var first := (weekday - Weekday(start)) % 7 + 7 * (week - 1);
    days := if first >= MonthDays(year, month) then first - 7 else first;
    MonthDaysBound(year, month);
    WeekdayHit(start, weekday, week, days);
  }

  lemma MonthDaysBound(year: int, month: int)
    requires 1 <= month <= 12
    ensures 28 <= MonthDays(year, month) <= 31
  {
  }

  lemma WeekdayHit(start: int, weekday: int, week: int, days: int)
    requires 0 <= weekday <= 6
    requires var first := (weekday - Weekday(start)) % 7 + 7 * (week - 1); days == first || days == first - 7
    ensures Weekday(start + days) == weekday
  {
    var w := (weekday - Weekday(start)) % 7;
    var k := if days == w + 7 * (week - 1) then week - 1 else week - 2;
    assert days == w + 7 * k;
    var q := (start + 4) / 7;
    assert start + 4 == 7 * q + Weekday(start);
    var p := (weekday - Weekday(start)) / 7;
    assert weekday - Weekday(start) == 7 * p + w;
    assert start + days + 4 == 7 * (q + k - p) + weekday;
  }

  /** Days before a month in a common year. */
  function DaysBefore(month: int): int {
    if month <= 2 then 31 * (month - 1) else (153 * (month - 3) + 2) / 5 + 59
  }

  lemma DayOfYearIs(year: int, month: int, day: int)
    requires 1 <= month <= 12
    ensures DayNumber(Date(year, month, day)) - DayNumber(Date(year, 1, 1))
      == DaysBefore(month) + (if month > 2 && Leap(year) then 1 else 0) + day - 1
  {
    if month > 2 {
      hide Leap;
      LeapShift(year);
    }
  }

  /** The month and day of the n-th day of a common year. */
  function CommonDate(year: int, n: int): Date {
    DateOf(DayNumber(Date(2001, 1, 1)) + n - 1).(year := year)
  }

  /** A Julian rule names the same month and day in every year and never 29 February. */
  lemma JulianRuleDate(year: int, n: int)
    requires 1 <= n <= 365
    ensures var d := RuleDate(Julian(n), year);
      ValidDate(d) && d == CommonDate(year, n) && !(d.month == 2 && d.day == 29)
  {
    var ref := CommonRef(n);
    JulianInYear(year, n, ref);
  }

  lemma CommonRef(n: int) returns (ref: Date)
    requires 1 <= n <= 365
    ensures ref == DateOf(DayNumber(Date(2001, 1, 1)) + n - 1)
    ensures 1 <= ref.month <= 12 && 1 <= ref.day <= MonthDays(2001, ref.month)
    ensures DaysBefore(ref.month) + ref.day == n
  {
    hide DateOf, DayNumber, DaysBefore, MonthDays;
    ref := DateOf(DayNumber(Date(2001, 1, 1)) + n - 1);
    DateOfCorrect(DayNumber(Date(2001, 1, 1)) + n - 1);
    InsideYear(2001, ref, n - 1);
    DayOfYearIs(2001, ref.month, ref.day);
  }

  lemma JulianInYear(year: int, n: int, ref: Date)
    requires 1 <= ref.month <= 12 && 1 <= ref.day <= MonthDays(2001, ref.month) && DaysBefore(ref.month) + ref.day == n
    ensures var d := ref.(year := year);
      ValidDate(d) && RuleDate(Julian(n), year) == d && !(d.month == 2 && d.day == 29)
  {
    hide DayNumber, DateOf, DaysBefore, MonthDays, Leap, RuleDays;
    var d := Date(year, ref.month, ref.day);
    assert d == ref.(year := year);
    SameInEveryYear(year, ref.month, ref.day);
    JulianDays(year, n, ref.month, ref.day);
    DateOfDayNumber(d);
  }

  lemma JulianDays(year: int, n: int, month: int, day: int)
    requires 1 <= month <= 12 && 1 <= day <= MonthDays(2001, month) && DaysBefore(month) + day == n
    ensures DayNumber(Date(year, 1, 1)) + RuleDays(Julian(n), year) == DayNumber(Date(year, month, day))
  {
    hide DayNumber, DaysBefore, MonthDays, Leap;
    JulianMonth(month, day, n);
    DayOfYearIs(year, month, day);
  }

  lemma SameInEveryYear(year: int, month: int, day: int)
    requires 1 <= month <= 12 && 1 <= day <= MonthDays(2001, month)
    ensures day <= MonthDays(year, month) && !(month == 2 && day == 29)
  {
  }

  lemma InsideYear(year: int, d: Date, k: int)
    requires ValidDate(d) && DayNumber(d) == DayNumber(Date(year, 1, 1)) + k && 0 <= k < 365
    ensures d.year == year
  {
    hide DayNumber, MonthDays;
    YearBounds(d);
    if d.year < year {
      JanuaryGrows(d.year + 1, year);
    } else if d.year > year {
      JanuaryGrows(year + 1, d.year);
      DayOfYearIs(year, 12, 31);
      NextYear(year);
    }
  }

  lemma JulianMonth(month: int, day: int, n: int)
    requires 1 <= month <= 12 && 1 <= day <= MonthDays(2001, month)
    requires DaysBefore(month) + day - 1 == n - 1
    ensures n >= 60 <==> month > 2
  {
  }

  /** A day-of-year rule counts days from 1 January, 29 February included. */
  lemma DayRuleDate(year: int, n: int)
    requires 0 <= n <= 365
    ensures RuleDate(DayOfYear(n), year) == Later(Date(year, 1, 1), n)
  {
    hide DayNumber, DateOf, Later;
    LaterCounts(Date(year, 1, 1), n);
    DateOfDayNumber(Later(Date(year, 1, 1), n));
  }

  /** The instant is local midnight of that date plus the rule's time of day, read in the old offset. */
  lemma RuleAtDate(rule: Rule, year: int, offset: int)
    requires 1 <= year <= 9999 && KnownRule(rule.kind)
    ensures RuleAt(rule, year, offset) == Ok(DayNumber(RuleDate(rule.kind, year)) * DAY + rule.seconds - offset)
  {
    var january, days := DayNumber(Date(year, 1, 1)), RuleDays(rule.kind, year);
    RuleInstant(rule, year, offset, january, days);
    RuleDayNumber(rule.kind, year, january, days);
    Scaled(january, days);
  }

  lemma RuleInstant(rule: Rule, year: int, offset: int, january: int, days: int)
    requires 1 <= year <= 9999 && KnownRule(rule.kind)
    requires january == DayNumber(Date(year, 1, 1)) && days == RuleDays(rule.kind, year)
    ensures RuleAt(rule, year, offset) == Ok(january * DAY + days * DAY + rule.seconds - offset)
  {
    FirstOfMonth(year, 1);
    if rule.kind.Month? {
      FirstOfMonth(year, rule.kind.month);
    }
  }

  lemma FirstOfMonth(year: int, month: int)
    requires 1 <= year <= 9999 && 1 <= month <= 12
    ensures Midnight(year, month, 1) == Ok(DayNumber(Date(year, month, 1)) * DAY)
  {
    MidnightCountsDays(Date(year, month, 1));
  }

  lemma RuleDayNumber(kind: RuleKind, year: int, january: int, days: int)
    requires january == DayNumber(Date(year, 1, 1)) && days == RuleDays(kind, year)
    ensures DayNumber(RuleDate(kind, year)) == january + days
  {
    hide DayNumber, DateOf, RuleDays;
    DateOfCorrect(january + days);
  }

  lemma Scaled(a: int, b: int)
    ensures (a + b) * DAY == a * DAY + b * DAY
  {
  }
}
