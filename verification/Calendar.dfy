/** The Gregorian calendar without a clock: closed-form conversions against counting day by day. */
module Calendar {
  import opened Common

  const DAY: int := 86400
  const MIN_I64: int := -0x8000_0000_0000_0000
  const MAX_I64: int := 0x7fff_ffff_ffff_ffff

  datatype Date = Date(year: int, month: int, day: int)

  datatype Civil = Civil(year: int, month: int, day: int, hour: int, minute: int, offset: int)

  datatype Fault = OutOfRange | Overflow

  predicate Leap(year: int) {
    year % 4 == 0 && (year % 100 != 0 || year % 400 == 0)
  }

  /** Zero for months that do not exist. */
  function MonthDays(year: int, month: int): int {
    if month in {1, 3, 5, 7, 8, 10, 12} then 31
    else if month in {4, 6, 9, 11} then 30
    else if month == 2 then (if Leap(year) then 29 else 28)
    else 0
  }

  /** A day of the Gregorian calendar, in any year. */
  predicate ValidDate(d: Date) {
    1 <= d.month <= 12 && 1 <= d.day <= MonthDays(d.year, d.month)
  }

  predicate InRange(d: Date) {
    1 <= d.year <= 9999 && ValidDate(d)
  }

  /** Days before year yo of a 400-year era whose years begin in March. */
  function YearStart(yo: int): int {
    yo * 365 + yo / 4 - yo / 100
  }

  /** The day number of a date, in closed form; day 0 is 1970-01-01. */
  function DayNumber(d: Date): int {
    var y := d.year - (if d.month <= 2 then 1 else 0);
    var era := y / 400;
    var yo := y - era * 400;
    var m := d.month + (if d.month > 2 then -3 else 9);
    var doy := (153 * m + 2) / 5 + d.day - 1;
    era * 146097 + YearStart(yo) + doy - 719468
  }

  function Midnight(year: int, month: int, day: int): Result<int, Fault> {
    if !(1 <= year <= 9999) || day <= 0 || day > MonthDays(year, month) then Err(OutOfRange)
    else Ok(DayNumber(Date(year, month, day)) * DAY)
  }

  function YearOfEra(doe: int): int {
    (doe - doe / 1460 + doe / 36524 - doe / 146096) / 365
  }

  /** The date of a March-based day of a year of an era. */
  function FromMarch(era: int, yo: int, doy: int): Date {
    var mp := (5 * doy + 2) / 153;
    var m := mp + (if mp < 10 then 3 else -9);
    Date(yo + era * 400 + (if m <= 2 then 1 else 0), m, doy - (153 * mp + 2) / 5 + 1)
  }

  /** The date with this day number, in closed form. */
  function DateOf(n: int): Date {
    var z := n + 719468;
    var era := z / 146097;
    var doe := z - era * 146097;
    var yo := YearOfEra(doe);
    FromMarch(era, yo, doe - YearStart(yo))
  }

  function CivilOf(unix: int, offset: int): Result<Civil, Fault> {
    var local := unix + offset;
    if !(MIN_I64 <= local <= MAX_I64) then Err(Overflow)
    else
      var d := DateOf(local / DAY);
      if !(1 <= d.year <= 9999) then Err(OutOfRange)
      else Ok(Civil(d.year, d.month, d.day, local % DAY / 3600, local % 3600 / 60, offset))
  }

  // ---------- counting day by day ----------

  /** The calendar day after a date. */
  function Tomorrow(d: Date): Date {
    if d.day < MonthDays(d.year, d.month) then d.(day := d.day + 1)
    else if d.month < 12 then Date(d.year, d.month + 1, 1)
    else Date(d.year + 1, 1, 1)
  }

  const EPOCH := Date(1970, 1, 1)

  /** n days after a date, one day at a time. */
  function Later(d: Date, n: nat): Date {
    if n == 0 then d else Tomorrow(Later(d, n - 1))
  }

  lemma TomorrowValid(d: Date)
    requires ValidDate(d)
    ensures ValidDate(Tomorrow(d))
  {
  }

  /** Within one month the closed form counts days. */
  lemma SameMonth(d: Date)
    ensures DayNumber(d.(day := d.day + 1)) == DayNumber(d) + 1
  {
  }

  lemma NextMonth(year: int, month: int)
    requires 1 <= month < 12
    ensures DayNumber(Date(year, month + 1, 1)) == DayNumber(Date(year, month, MonthDays(year, month))) + 1
  {
    if month == 1 {
    } else if month == 2 {
      FebruaryEnds(year);
    } else {
      LaterMonth(year, month);
    }
  }

  lemma FebruaryEnds(year: int)
    ensures DayNumber(Date(year, 3, 1)) == DayNumber(Date(year, 2, MonthDays(year, 2))) + 1
  {
    hide Leap;
    LeapShift(year);
  }

  lemma LaterMonth(year: int, month: int)
    requires 3 <= month < 12
    ensures DayNumber(Date(year, month + 1, 1)) == DayNumber(Date(year, month, MonthDays(year, month))) + 1
  {
    hide Leap, YearStart;
    assert (153 * (month - 2) + 2) / 5 == (153 * (month - 3) + 2) / 5 + MonthDays(year, month);
  }

  /** Within a month the day number counts on from the first. */
  lemma InMonth(year: int, month: int, day: int)
    ensures DayNumber(Date(year, month, day)) == DayNumber(Date(year, month, 1)) + day - 1
  {
  }

  lemma {:induction false} MonthsGrow(year: int, a: int, b: int)
    requires 1 <= a <= b <= 12
    ensures DayNumber(Date(year, a, 1)) <= DayNumber(Date(year, b, 1))
    decreases b - a
  {
    hide DayNumber;
    if a < b {
      MonthsGrow(year, a, b - 1);
      NextMonth(year, b - 1);
      InMonth(year, b - 1, MonthDays(year, b - 1));
    }
  }

  /** The extra day of a leap year, seen from years that begin in March. */
  lemma LeapShift(year: int)
    ensures var y, z := year, year - 1;
      (y / 400) * 146097 + (y % 400) * 365 + (y % 400) / 4 - (y % 400) / 100
      == (z / 400) * 146097 + (z % 400) * 365 + (z % 400) / 4 - (z % 400) / 100 + 365 + (if Leap(year) then 1 else 0)
  {
    var era, k := year / 400, year % 400;
    LeapInEra(era, k, year);
    if k == 0 {
      assert year - 1 == 400 * (era - 1) + 399;
      assert (year - 1) / 400 == era - 1 && (year - 1) % 400 == 399;
    } else {
      assert year - 1 == 400 * era + (k - 1);
      assert (year - 1) / 400 == era && (year - 1) % 400 == k - 1;
      YearSteps(k);
    }
  }

  lemma LeapInEra(era: int, k: int, year: int)
    requires 0 <= k < 400 && year == 400 * era + k
    ensures Leap(year) <==> Leap(k)
  {
    RestOf4(100 * era, k);
    RestOf100(4 * era, k);
  }

  lemma RestOf4(q: int, k: int)
    ensures (4 * q + k) % 4 == k % 4
  {
  }

  lemma RestOf100(q: int, k: int)
    ensures (100 * q + k) % 100 == k % 100
  {
  }

  lemma YearSteps(k: int)
    requires 0 < k < 400
    ensures k / 4 - k / 100 == (k - 1) / 4 - (k - 1) / 100 + (if Leap(k) then 1 else 0)
  {
  }

  lemma NextYear(year: int)
    ensures DayNumber(Date(year + 1, 1, 1)) == DayNumber(Date(year, 12, 31)) + 1
  {
  }

  lemma TomorrowCounts(d: Date)
    requires ValidDate(d)
    ensures DayNumber(Tomorrow(d)) == DayNumber(d) + 1
  {
    hide DayNumber;
    if d.day < MonthDays(d.year, d.month) {
      SameMonth(d);
    } else if d.month < 12 {
      NextMonth(d.year, d.month);
    } else {
      NextYear(d.year);
    }
  }

  /** n steps of one day move the day number by n. */
  lemma {:induction false} LaterCounts(d: Date, n: nat)
    requires ValidDate(d)
    ensures ValidDate(Later(d, n)) && DayNumber(Later(d, n)) == DayNumber(d) + n
  {
    if n > 0 {
      LaterCounts(d, n - 1);
      TomorrowValid(Later(d, n - 1));
      TomorrowCounts(Later(d, n - 1));
    }
  }

  // ---------- the inverse ----------

  /** A day of a 400-year era as century, four-year block, year and day of year. */
  predicate Parts(c: int, q: int, s: int, t: int) {
    && 0 <= c <= 3 && 0 <= q <= 24 && 0 <= s <= 3 && 0 <= t <= 365
    && (t == 365 ==> s == 3 && (q == 24 ==> c == 3))
  }

  lemma PartsCorrect(c: int, q: int, s: int, t: int)
    requires Parts(c, q, s, t)
    ensures var doe, yo := 36524 * c + 1461 * q + 365 * s + t, 100 * c + 4 * q + s;
      0 <= doe < 146097 && YearOfEra(doe) == yo && YearStart(yo) + t == doe && 0 <= yo < 400
  {
    hide YearStart;
    var doe := 36524 * c + 1461 * q + 365 * s + t;
    var e := if 24 * c + q + 365 * s + t >= 1460 then 1 else 0;
    FourYears(c, q, s, t, doe);
    Centuries(c, q, s, t, doe);
    YearFound(100 * c + 4 * q + s, t, e);
    YearStartOf(c, q, s);
  }

  lemma YearFound(yo: int, t: int, e: int)
    requires 0 <= t - e < 365
    ensures (365 * yo + t - e) / 365 == yo
  {
  }

  lemma YearStartOf(c: int, q: int, s: int)
    requires 0 <= c <= 3 && 0 <= q <= 24 && 0 <= s <= 3
    ensures YearStart(100 * c + 4 * q + s) == 36524 * c + 1461 * q + 365 * s
  {
    var yo := 100 * c + 4 * q + s;
    assert yo / 4 == 25 * c + q;
    assert yo / 100 == c;
  }

  lemma FourYears(c: int, q: int, s: int, t: int, doe: int)
    requires Parts(c, q, s, t) && doe == 36524 * c + 1461 * q + 365 * s + t
    ensures doe / 1460 == 25 * c + q + (if 24 * c + q + 365 * s + t >= 1460 then 1 else 0)
  {
    assert doe == 1460 * (25 * c + q) + (24 * c + q + 365 * s + t);
  }

  lemma Centuries(c: int, q: int, s: int, t: int, doe: int)
    requires Parts(c, q, s, t) && doe == 36524 * c + 1461 * q + 365 * s + t
    ensures 0 <= doe < 146097 && doe / 36524 == c + doe / 146096
  {
    assert doe / 146096 == if doe == 146096 then 1 else 0;
  }

  lemma PartsExist(doe: int) returns (c: int, q: int, s: int, t: int)
    requires 0 <= doe < 146097
    ensures Parts(c, q, s, t) && doe == 36524 * c + 1461 * q + 365 * s + t
  {
    c := if doe < 146096 then doe / 36524 else 3;
    var r := doe - 36524 * c;
    q := r / 1461;
    var u := r - 1461 * q;
    s := if u < 1460 then u / 365 else 3;
    t := u - 365 * s;
  }

  /** A March-based day of year determines the month index. */
  lemma MonthIndex(doy: int)
    requires 0 <= doy <= 365
    ensures var mp := (5 * doy + 2) / 153;
      0 <= mp <= 11 && 1 <= doy - (153 * mp + 2) / 5 + 1 <= 31
  {
  }

  lemma MonthLength(year: int, doy: int)
    requires 0 <= doy <= 365
    ensures var mp := (5 * doy + 2) / 153;
      var month := mp + (if mp < 10 then 3 else -9);
      doy - (153 * mp + 2) / 5 + 1 <= MonthDays(year, month) || (doy == 365 && !Leap(year))
  {
  }

  lemma LeapYearEnds(c: int, q: int, s: int, t: int, era: int)
    requires Parts(c, q, s, t) && t == 365
    ensures Leap(100 * c + 4 * q + s + 400 * era + 1)
  {
    var y := 100 * c + 4 * q + s + 400 * era + 1;
    assert y == 4 * (25 * c + q + 100 * era + 1);
    if q == 24 {
      assert y == 400 * (era + 1);
    } else {
      assert y == 100 * (c + 4 * era) + 4 * (q + 1) && 0 < 4 * (q + 1) < 100;
    }
  }

  lemma FromMarchCorrect(era: int, yo: int, doy: int)
    requires 0 <= yo < 400 && 0 <= doy <= 365 && (doy == 365 ==> Leap(yo + era * 400 + 1))
    ensures ValidDate(FromMarch(era, yo, doy))
    ensures DayNumber(FromMarch(era, yo, doy)) == era * 146097 + YearStart(yo) + doy - 719468
  {
    MonthIndex(doy);
    MonthLength(FromMarch(era, yo, doy).year, doy);
    EraOfYear(yo, era);
  }

  lemma DateOfIs(n: int, era: int, doe: int, yo: int, t: int)
    requires n + 719468 == era * 146097 + doe && 0 <= doe < 146097
    requires YearOfEra(doe) == yo && doe == YearStart(yo) + t
    ensures DateOf(n) == FromMarch(era, yo, t)
  {
    hide FromMarch, YearOfEra, YearStart;
    EraOfDay(doe, era);
  }

  lemma EraOfDay(doe: int, era: int)
    requires 0 <= doe < 146097
    ensures (era * 146097 + doe) / 146097 == era
  {
  }

  lemma EraExists(n: int) returns (era: int, yo: int, t: int)
    ensures 0 <= yo < 400 && 0 <= t <= 365 && (t == 365 ==> Leap(yo + era * 400 + 1))
    ensures n + 719468 == era * 146097 + YearStart(yo) + t
    ensures DateOf(n) == FromMarch(era, yo, t)
  {
    era := (n + 719468) / 146097;
    var doe := n + 719468 - era * 146097;
    var c, q, s, r := PartsExist(doe);
    PartsCorrect(c, q, s, r);
    yo, t := 100 * c + 4 * q + s, r;
    if t == 365 {
      LeapYearEnds(c, q, s, t, era);
    }
    DateOfIs(n, era, doe, yo, t);
  }

  /** Every day number has a date, and the date has that day number. */
  lemma DateOfCorrect(n: int)
    ensures ValidDate(DateOf(n)) && DayNumber(DateOf(n)) == n
  {
    var era, yo, t := EraExists(n);
    FromMarchCorrect(era, yo, t);
  }

  lemma EraOfYear(yo: int, era: int)
    requires 0 <= yo < 400
    ensures (yo + era * 400) / 400 == era
  {
  }

  /** Two valid dates with the same day number are the same date. */
  lemma DayNumberInjective(a: Date, b: Date)
    requires ValidDate(a) && ValidDate(b) && DayNumber(a) == DayNumber(b)
    ensures a == b
  {
    DateOfDayNumber(a);
    DateOfDayNumber(b);
  }

  lemma DateOfDayNumber(d: Date)
    requires ValidDate(d)
    ensures DateOf(DayNumber(d)) == d
  {
    var era, yo, doy := MarchParts(d);
    DateOfParts(era, yo, doy);
  }

  lemma MarchParts(d: Date) returns (era: int, yo: int, doy: int)
    requires ValidDate(d)
    ensures 0 <= yo < 400 && 0 <= doy <= 365
    ensures doy == 365 ==> yo % 4 == 3 && (yo % 100 / 4 == 24 ==> yo / 100 == 3)
    ensures DayNumber(d) == era * 146097 + YearStart(yo) + doy - 719468
    ensures FromMarch(era, yo, doy) == d
  {
    var y := d.year - (if d.month <= 2 then 1 else 0);
    era := y / 400;
    yo := y - era * 400;
    var m := d.month + (if d.month > 2 then -3 else 9);
    doy := (153 * m + 2) / 5 + d.day - 1;
    MonthRecovered(d, m, doy);
    if doy == 365 {
      LastDayOfLeapYear(d.year, yo, era);
    }
  }

  lemma DateOfParts(era: int, yo: int, doy: int)
    requires 0 <= yo < 400 && 0 <= doy <= 365
    requires doy == 365 ==> yo % 4 == 3 && (yo % 100 / 4 == 24 ==> yo / 100 == 3)
    ensures DateOf(era * 146097 + YearStart(yo) + doy - 719468) == FromMarch(era, yo, doy)
  {
    var c, q, s := yo / 100, yo % 100 / 4, yo % 4;
    YearParts(yo);
    PartsCorrect(c, q, s, doy);
    DateOfIs(era * 146097 + YearStart(yo) + doy - 719468, era, YearStart(yo) + doy, yo, doy);
  }

  lemma YearParts(yo: int)
    ensures yo == 100 * (yo / 100) + 4 * (yo % 100 / 4) + yo % 4
  {
    var c, r := yo / 100, yo % 100;
    assert yo == 4 * (25 * c) + r;
    assert yo % 4 == r % 4;
    assert r == 4 * (r / 4) + r % 4;
  }

  lemma LastDayOfLeapYear(year: int, yo: int, era: int)
    requires 0 <= yo < 400 && year == yo + 400 * era + 1 && Leap(year)
    ensures yo % 4 == 3 && (yo % 100 / 4 == 24 ==> yo / 100 == 3)
  {
    RestOf4(100 * era, yo + 1);
    RestOf100(4 * era, yo + 1);
    RestOf400(era, yo + 1);
    YearEnds(yo);
  }

  lemma RestOf400(q: int, k: int)
    ensures (400 * q + k) % 400 == k % 400
  {
  }

  lemma YearEnds(yo: int)
    requires 0 <= yo < 400 && Leap(yo + 1)
    ensures yo % 4 == 3 && (yo % 100 / 4 == 24 ==> yo / 100 == 3)
  {
  }

  lemma MonthRecovered(d: Date, m: int, doy: int)
    requires ValidDate(d) && m == d.month + (if d.month > 2 then -3 else 9) && doy == (153 * m + 2) / 5 + d.day - 1
    ensures 0 <= doy <= 365 && (doy == 365 ==> d.month == 2 && Leap(d.year))
    ensures (5 * doy + 2) / 153 == m
  {
  }

  // ---------- the promises ----------

  /** Midnight of every date in range is the number of days stepped from 1970-01-01, forwards or backwards. */
  lemma MidnightCountsDays(d: Date)
    requires InRange(d)
    ensures Midnight(d.year, d.month, d.day) == Ok(DayNumber(d) * DAY)
    ensures DayNumber(d) >= 0 ==> Later(EPOCH, DayNumber(d)) == d
    ensures DayNumber(d) < 0 ==> Later(d, -DayNumber(d)) == EPOCH
  {
    var n := DayNumber(d);
    EpochIsZero();
    hide DayNumber, MonthDays, Later;
    if n >= 0 {
      LaterCounts(EPOCH, n);
      DayNumberInjective(Later(EPOCH, n), d);
    } else {
      LaterCounts(d, -n);
      DayNumberInjective(Later(d, -n), EPOCH);
    }
  }

  lemma EpochIsZero()
    ensures DayNumber(EPOCH) == 0 && ValidDate(EPOCH)
  {
    assert 1969 / 400 == 4 && (153 * 10 + 2) / 5 == 306;
    assert YearStart(369) == 134774;
  }

  lemma MidnightRefuses(year: int, month: int, day: int)
    ensures Midnight(year, month, day).Ok? <==> InRange(Date(year, month, day))
  {
  }

  /** An earlier day number means an earlier date, so the range of years is an interval of days. */
  lemma YearsAreIntervals(d: Date)
    requires ValidDate(d)
    ensures d.year >= 1 <==> DayNumber(d) >= DayNumber(Date(1, 1, 1))
    ensures d.year <= 9999 <==> DayNumber(d) <= DayNumber(Date(9999, 12, 31))
  {
    hide DayNumber;
    YearBounds(d);
    NextYear(9999);
    if d.year < 1 {
      JanuaryGrows(d.year + 1, 1);
    } else {
      JanuaryGrows(1, d.year);
    }
    if d.year <= 9999 {
      JanuaryGrows(d.year + 1, 10000);
    } else {
      JanuaryGrows(10000, d.year);
    }
  }

  /** A date lies between the first days of its own and the next year. */
  lemma YearBounds(d: Date)
    requires ValidDate(d)
    ensures DayNumber(Date(d.year, 1, 1)) <= DayNumber(d) < DayNumber(Date(d.year + 1, 1, 1))
  {
    hide DayNumber;
    MonthBounds(d.year, d.month);
    InMonth(d.year, d.month, d.day);
    InMonth(d.year, d.month, MonthDays(d.year, d.month));
  }

  lemma MonthBounds(year: int, month: int)
    requires 1 <= month <= 12
    ensures DayNumber(Date(year, 1, 1)) <= DayNumber(Date(year, month, 1))
    ensures DayNumber(Date(year, month, MonthDays(year, month))) < DayNumber(Date(year + 1, 1, 1))
  {
    hide DayNumber;
    MonthsGrow(year, 1, month);
    NextYear(year);
    InMonth(year, 12, 31);
    if month < 12 {
      NextMonth(year, month);
      MonthsGrow(year, month + 1, 12);
    }
  }

  lemma {:induction false} JanuaryGrows(a: int, b: int)
    ensures a <= b ==> DayNumber(Date(a, 1, 1)) <= DayNumber(Date(b, 1, 1))
    decreases if a <= b then b - a else 0
  {
    if a < b {
      JanuaryGrows(a, b - 1);
      YearBounds(Date(b - 1, 1, 1));
    }
  }

  /**
   * The split of an instant is a date in range with hour and minute inside the day, and together they
   * name exactly the minute the instant falls in; it fails only outside years 1 to 9999.
   */
  lemma CivilInverts(unix: int, offset: int)
    requires MIN_I64 <= unix + offset <= MAX_I64
    ensures var r := CivilOf(unix, offset);
      && (r.Ok? <==>
        DayNumber(Date(1, 1, 1)) * DAY <= unix + offset < (DayNumber(Date(9999, 12, 31)) + 1) * DAY)
      && (r.Ok? ==>
        var c := r.value;
        && InRange(Date(c.year, c.month, c.day)) && 0 <= c.hour < 24 && 0 <= c.minute < 60 && c.offset == offset
        && Midnight(c.year, c.month, c.day).Ok?
        && var start := Midnight(c.year, c.month, c.day).value + 3600 * c.hour + 60 * c.minute;
          start <= unix + offset < start + 60)
  {
    hide DateOf, DayNumber, MonthDays;
    var local := unix + offset;
    DateOfCorrect(local / DAY);
    YearsAreIntervals(DateOf(local / DAY));
    TimeOfDay(local);
    DayInterval(local, DayNumber(Date(1, 1, 1)));
    DayInterval(local, DayNumber(Date(9999, 12, 31)) + 1);
  }

  lemma TimeOfDay(local: int)
    ensures var h, m := local % DAY / 3600, local % 3600 / 60;
      0 <= h < 24 && 0 <= m < 60 && 0 <= local - (local / DAY * DAY + 3600 * h + 60 * m) < 60
  {
    assert local % DAY % 3600 == local % 3600;
  }

  lemma DayInterval(local: int, n: int)
    ensures n * DAY <= local <==> n <= local / DAY
  {
  }

  lemma FirstAndLastDay()
    ensures DayNumber(Date(1, 1, 1)) == -719162 && DayNumber(Date(9999, 12, 31)) == 2932896
  {
    assert 9999 / 400 == 24 && (153 * 10 + 2) / 5 == 306 && (153 * 9 + 2) / 5 == 275;
    assert YearStart(399) == 399 * 365 + 99 - 3;
  }

  lemma RangeOfDays(d: Date)
    requires InRange(d)
    ensures -719162 <= DayNumber(d) <= 2932896
  {
    hide DayNumber, ValidDate;
    YearsAreIntervals(d);
    FirstAndLastDay();
  }

  /** The other way round: any minute of any date in range is split back into that date and minute. */
  lemma CivilOfMidnight(d: Date, hour: int, minute: int, second: int, offset: int)
    requires InRange(d) && 0 <= hour < 24 && 0 <= minute < 60 && 0 <= second < 60
    ensures var local := Midnight(d.year, d.month, d.day).value + 3600 * hour + 60 * minute + second;
      CivilOf(local - offset, offset) == Ok(Civil(d.year, d.month, d.day, hour, minute, offset))
  {
    hide DateOf, DayNumber, MonthDays;
    var n, rest := DayNumber(d), 3600 * hour + 60 * minute + second;
    var local := n * DAY + rest;
    RangeOfDays(d);
    SplitDay(n, rest);
    DateOfDayNumber(d);
    ClockOf(n, hour, minute, second);
  }

  lemma SplitDay(n: int, rest: int)
    requires 0 <= rest < DAY
    ensures (n * DAY + rest) / DAY == n && (n * DAY + rest) % DAY == rest
  {
  }

  lemma ClockOf(n: int, hour: int, minute: int, second: int)
    requires 0 <= hour < 24 && 0 <= minute < 60 && 0 <= second < 60
    ensures (3600 * hour + 60 * minute + second) / 3600 == hour
    ensures (n * DAY + 3600 * hour + 60 * minute + second) % 3600 / 60 == minute
  {
    var k := 24 * n + hour;
    assert n * DAY + 3600 * hour + 60 * minute + second == 3600 * k + (60 * minute + second);
    assert (3600 * k + (60 * minute + second)) % 3600 == 60 * minute + second;
  }

  function MinuteNumber(c: Civil): int {
    DayNumber(Date(c.year, c.month, c.day)) * 1440 + 60 * c.hour + c.minute
  }

  lemma CivilNamesMinute(unix: int, offset: int)
    requires CivilOf(unix, offset).Ok?
    ensures (unix + offset) / 60 == MinuteNumber(CivilOf(unix, offset).value)
  {
    CivilInverts(unix, offset);
    var c := CivilOf(unix, offset).value;
    var n := DayNumber(Date(c.year, c.month, c.day));
    InMinute(unix + offset, n, c.hour, c.minute);
  }

  lemma InMinute(local: int, n: int, hour: int, minute: int)
    requires n * DAY + 3600 * hour + 60 * minute <= local < n * DAY + 3600 * hour + 60 * minute + 60
    ensures local / 60 == n * 1440 + 60 * hour + minute
  {
    var k := n * 1440 + 60 * hour + minute;
    assert 60 * k <= local < 60 * k + 60;
  }

  /** Equal dates and minutes under one offset mean the same minute. */
  lemma SameMinute(a: int, b: int, offset: int)
    requires CivilOf(a, offset).Ok? && CivilOf(a, offset) == CivilOf(b, offset)
    ensures (a + offset) / 60 == (b + offset) / 60
  {
    CivilNamesMinute(a, offset);
    CivilNamesMinute(b, offset);
  }
}
