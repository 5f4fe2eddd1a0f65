/**
 The civil date of a day count. The source works in 400-year eras of years that start in March; the
 reference is the Gregorian calendar itself, counted up from 1970-01-01.
 */
module Calendar {

  datatype Date = Date(year: nat, month: nat, day: nat)

  /** `days_to_ymd`, in unsigned arithmetic: every intermediate value is a natural number. */
  function DaysToYmd(days: nat): Date {
    var (y, doy) := MarchYear(days);
    CivilDate(y, doy)
  }

  /** The first lines of `days_to_ymd`: a year that starts in March, and the day of that year. */
  function MarchYear(days: nat): (r: (nat, nat))
    ensures days + 719_468 == MarchStart(r.0) + r.1 && r.1 < 365 + LeapDay(r.0 + 1)
  {
    var z: nat := days + 719_468;
    var era: nat := z / 146_097;
    var doe: nat := z - era * 146_097;
    var yoe: nat := YearOfEra(doe);
    YearOfEraEncloses(doe);
    DayOfEra(days, era, yoe, doe);
    (yoe + era * 400, doe - MarchDays(yoe))
  }

  function YearOfEra(doe: nat): nat
    requires doe < 146_097
  {
    (doe - doe / 1_460 + doe / 36_524 - doe / 146_096) / 365
  }

  /** The last lines of `days_to_ymd`: month and day from the day of a year that starts in March. */
  function CivilDate(y: nat, doy: nat): Date
    requires doy < 366
  {
    var mp: nat := (5 * doy + 2) / 153;
    MonthOfYear(doy);
    var d: nat := doy - (153 * mp + 2) / 5 + 1;
    var m: nat := if mp < 10 then mp + 3 else mp - 9;
    Date(if m <= 2 then y + 1 else y, m, d)
  }

  // --- the Gregorian calendar -----------------------------------------------------------------------------

  predicate IsLeap(y: nat) { y % 4 == 0 && (y % 100 != 0 || y % 400 == 0) }

  function LeapDay(y: nat): nat { if IsLeap(y) then 1 else 0 }

  function MonthLength(y: nat, m: nat): nat {
    if m == 2 then 28 + LeapDay(y)
    else if m == 4 || m == 6 || m == 9 || m == 11 then 30
    else 31
  }

  predicate ValidDate(t: Date) {
    1 <= t.month <= 12 && 1 <= t.day <= MonthLength(t.year, t.month)
  }

  function NextDay(t: Date): Date {
    if t.day < MonthLength(t.year, t.month) then t.(day := t.day + 1)
    else if t.month < 12 then Date(t.year, t.month + 1, 1)
    else Date(t.year + 1, 1, 1)
  }

  function DaysBeforeYear(y: nat): nat {
    if y <= 1970 then 0 else DaysBeforeYear(y - 1) + 365 + LeapDay(y - 1)
  }

  function DaysBeforeMonth(y: nat, m: nat): nat {
    if m <= 1 then 0 else DaysBeforeMonth(y, m - 1) + MonthLength(y, m - 1)
  }

  /** The number of days from 1970-01-01. */
  function DayNumber(t: Date): nat
    requires t.day >= 1
  {
    DaysBeforeYear(t.year) + DaysBeforeMonth(t.year, t.month) + t.day - 1
  }

  // --- years that start in March ----------------------------------------------------------------------------

  /** Days before March of the given year of an era. */
  function MarchDays(yoe: nat): nat { 365 * yoe + yoe / 4 - yoe / 100 }

  /** The year of era of a day given as `c` centuries, `q` four-year cycles and `t` days. */
  lemma YearFormula(c: nat, q: nat, t: nat, doe: nat)
    requires c <= 3 && q <= 24 && t <= 1460 && doe == 36_524 * c + 1_461 * q + t < 146_097
    requires c < 3 && q == 24 ==> t < 1460
    ensures YearOfEra(doe) == 100 * c + 4 * q + YearOfCycle(t)
  {
    var b := if 24 * c + q + t >= 1460 then 1 else 0;
    CyclesOf(25 * c + q, 24 * c + q + t, doe);
    CenturiesOf(c, 1_461 * q + t, doe);
    YearsOf(100 * c + 4 * q, t - b);
    assert (t - b) / 365 == YearOfCycle(t);
  }

  lemma CyclesOf(k: nat, r: nat, doe: nat)
    requires doe == 1_460 * k + r && r < 2 * 1_460
    ensures doe / 1_460 == k + if r >= 1_460 then 1 else 0
  {
  }

  lemma CenturiesOf(c: nat, r: nat, doe: nat)
    requires c <= 3 && doe == 36_524 * c + r < 146_097 && (c < 3 ==> r < 36_524)
    ensures doe / 36_524 - doe / 146_096 == c
  {
  }

  lemma YearsOf(k: nat, r: nat)
    ensures (365 * k + r) / 365 == k + r / 365
  {
  }

  /** Four years from March: the fourth may have a 366th day. */
  function YearOfCycle(t: nat): nat { if t / 365 > 3 then 3 else t / 365 }

  lemma YearBounds(c: nat, q: nat, t: nat)
    requires c <= 3 && q <= 24 && t <= 1460
    requires c < 3 && q == 24 ==> t < 1460
    ensures var yoe := 100 * c + 4 * q + YearOfCycle(t);
            var doe := 36_524 * c + 1_461 * q + t;
            yoe < 400 && MarchDays(yoe) <= doe < MarchDays(yoe) + 365 + LeapDay(yoe + 1)
  {
    var k := YearOfCycle(t);
    var yoe := 100 * c + 4 * q + k;
    assert yoe / 4 == 25 * c + q;
    assert yoe / 100 == c;
    if t == 1460 {
      assert yoe + 1 == 4 * (25 * c + q + 1);
      assert q < 24 ==> (yoe + 1) % 100 == 4 * q + 4;
      assert q == 24 ==> yoe + 1 == 400;
    }
  }

  /** The source's year of era is the one whose days enclose the given day. */
  lemma YearOfEraEncloses(doe: nat)
    requires doe < 146_097
    ensures var yoe := YearOfEra(doe);
            yoe < 400 && MarchDays(yoe) <= doe < MarchDays(yoe) + 365 + LeapDay(yoe + 1)
  {
    var c := if doe / 36_524 > 3 then 3 else doe / 36_524;
    var r := doe - 36_524 * c;
    var q, t := r / 1_461, r % 1_461;
    YearFormula(c, q, t, doe);
    YearBounds(c, q, t);
  }

  // --- the date is the right one -----------------------------------------------------------------------------

  /** Days from 0000-03-01 to March of year `y`. */
  function MarchStart(y: nat): nat { 365 * y + y / 4 - y / 100 + y / 400 }

  lemma EraStart(era: nat, yoe: nat)
    requires yoe < 400
    ensures MarchStart(400 * era + yoe) == 146_097 * era + MarchDays(yoe)
  {
    var y := 400 * era + yoe;
    assert y / 4 == 100 * era + yoe / 4;
    assert y / 100 == 4 * era + yoe / 100;
    assert y / 400 == era;
  }

  lemma MarchStartStep(y: nat)
    ensures MarchStart(y + 1) == MarchStart(y) + 365 + LeapDay(y + 1)
  {
    DivisionStep(y, 4);
    DivisionStep(y, 100);
    DivisionStep(y, 400);
    LeapMultiples(y + 1);
  }

  lemma DivisionStep(y: nat, n: nat)
    requires n == 4 || n == 100 || n == 400
    ensures (y + 1) / n == y / n + if (y + 1) % n == 0 then 1 else 0
  {
  }

  lemma LeapMultiples(y: nat)
    ensures (y % 400 == 0 ==> y % 100 == 0) && (y % 100 == 0 ==> y % 4 == 0)
  {
    if y % 400 == 0 { NoRemainder(y, 100, 4 * (y / 400)); }
    if y % 100 == 0 { NoRemainder(y, 4, 25 * (y / 100)); }
  }

  lemma NoRemainder(y: nat, n: nat, k: nat)
    requires (n == 4 || n == 100) && y == n * k
    ensures y % n == 0
  {
    if n == 4 { assert y / 4 == k; } else { assert y / 100 == k; }
  }

  /** The year's own count of days and the March-based one agree. */
  lemma {:induction false} YearStart(y: nat)
    requires y >= 1970
    ensures DaysBeforeYear(y) + 719_468 + 59 + LeapDay(y) == MarchStart(y)
    decreases y
  {
    if y > 1970 {
      YearStart(y - 1);
      MarchStartStep(y - 1);
    }
  }

  /** Days before the `mp`-th month counted from March. */
  function MarchMonthDays(mp: nat): nat { (153 * mp + 2) / 5 }

  lemma MonthTable(y: nat)
    ensures forall m | 3 <= m <= 12 :: DaysBeforeMonth(y, m) == 59 + LeapDay(y) + MarchMonthDays(m - 3)
    ensures DaysBeforeMonth(y, 1) + 306 == MarchMonthDays(10) && DaysBeforeMonth(y, 2) + 306 == MarchMonthDays(11)
    ensures DaysBeforeMonth(y, 13) == 365 + LeapDay(y)
  {
    assert DaysBeforeMonth(y, 2) == 31;
    assert DaysBeforeMonth(y, 3) == 59 + LeapDay(y);
    assert DaysBeforeMonth(y, 4) == 90 + LeapDay(y);
    assert DaysBeforeMonth(y, 5) == 120 + LeapDay(y);
    assert DaysBeforeMonth(y, 6) == 151 + LeapDay(y);
    assert DaysBeforeMonth(y, 7) == 181 + LeapDay(y);
    assert DaysBeforeMonth(y, 8) == 212 + LeapDay(y);
    assert DaysBeforeMonth(y, 9) == 243 + LeapDay(y);
    assert DaysBeforeMonth(y, 10) == 273 + LeapDay(y);
    assert DaysBeforeMonth(y, 11) == 304 + LeapDay(y);
    assert DaysBeforeMonth(y, 12) == 334 + LeapDay(y);
  }

  /** The source's month is the one whose days enclose the day of the March year. */
  lemma MonthOfYear(doy: nat)
    requires doy < 366
    ensures var mp := (5 * doy + 2) / 153;
            mp <= 11 && MarchMonthDays(mp) <= doy < MarchMonthDays(mp + 1)
  {
  }

  /** A day of a March year is a civil date with the right day number. */
  lemma AssembleDate(days: nat, y: nat, doy: nat)
    requires days + 719_468 == MarchStart(y) + doy && doy < 365 + LeapDay(y + 1)
    ensures ValidDate(CivilDate(y, doy)) && CivilDate(y, doy).year >= 1970
    ensures DayNumber(CivilDate(y, doy)) == days
  {
    MarchStartMonotone(y);
    if (5 * doy + 2) / 153 < 10 {
      AssembleFromMarch(days, y, doy);
    } else {
      AssembleFromJanuary(days, y, doy);
    }
  }

  lemma MarchMonthLength(y: nat, mp: nat)
    requires mp < 10
    ensures MarchMonthDays(mp) + MonthLength(y, mp + 3) == MarchMonthDays(mp + 1)
  {
  }

  lemma AssembleFromMarch(days: nat, y: nat, doy: nat)
    requires days + 719_468 == MarchStart(y) + doy && doy < 366 && (5 * doy + 2) / 153 < 10 && y >= 1970
    ensures ValidDate(CivilDate(y, doy)) && CivilDate(y, doy).year >= 1970 && DayNumber(CivilDate(y, doy)) == days
  {
    var mp := (5 * doy + 2) / 153;
    MonthOfYear(doy);
    assert CivilDate(y, doy) == Date(y, mp + 3, doy - MarchMonthDays(mp) + 1);
    MarchMonthLength(y, mp);
    assert DaysBeforeMonth(y, mp + 3) == 59 + LeapDay(y) + MarchMonthDays(mp) by { MonthTable(y); }
    YearStart(y);
  }

  lemma AssembleFromJanuary(days: nat, y: nat, doy: nat)
    requires days + 719_468 == MarchStart(y) + doy && doy < 365 + LeapDay(y + 1) && (5 * doy + 2) / 153 >= 10
    requires y >= 1969
    ensures ValidDate(CivilDate(y, doy)) && CivilDate(y, doy).year >= 1970 && DayNumber(CivilDate(y, doy)) == days
  {
    MonthOfYear(doy);
    MonthTable(y + 1);
    YearStart(y + 1);
    MarchStartStep(y);
  }

  /** A day on or after 1970-01-01 falls in the March year 1969 or later. */
  lemma MarchStartMonotone(y: nat)
    ensures y < 1969 ==> MarchStart(y) + 366 <= 719_468
    ensures y == 1969 ==> MarchStart(y) == 719_468 - 306
  {
  }

  lemma {:induction false} LeapPeriod(era: nat, y: nat)
    ensures LeapDay(400 * era + y) == LeapDay(y)
    decreases era
  {
    if era > 0 {
      LeapPeriod(era - 1, y);
      LeapAgain(400 * (era - 1) + y);
    }
  }

  lemma LeapAgain(y: nat)
    ensures LeapDay(y + 400) == LeapDay(y)
  {
    RemainderAgain(y, 4);
    RemainderAgain(y, 100);
    RemainderAgain(y, 400);
  }

  lemma RemainderAgain(y: nat, n: nat)
    requires n == 4 || n == 100 || n == 400
    ensures (y + 400) % n == y % n
  {
    if n == 4 {
      assert (y + 400) / 4 == y / 4 + 100;
    } else if n == 100 {
      assert (y + 400) / 100 == y / 100 + 4;
    } else {
      assert (y + 400) / 400 == y / 400 + 1;
    }
  }

  lemma DayOfEra(days: nat, era: nat, yoe: nat, doe: nat)
    requires days + 719_468 == 146_097 * era + doe && yoe < 400
    requires MarchDays(yoe) <= doe < MarchDays(yoe) + 365 + LeapDay(yoe + 1)
    ensures days + 719_468 == MarchStart(yoe + era * 400) + (doe - MarchDays(yoe))
    ensures doe - MarchDays(yoe) < 365 + LeapDay(yoe + era * 400 + 1)
  {
    EraStart(era, yoe);
    LeapPeriod(era, yoe + 1);
  }

  /** Every day count yields a real date, and the date is that many days after 1970-01-01. */
  lemma DateOfDay(days: nat)
    ensures ValidDate(DaysToYmd(days)) && DaysToYmd(days).year >= 1970
    ensures DayNumber(DaysToYmd(days)) == days
  {
    AssembleDate(days, MarchYear(days).0, MarchYear(days).1);
  }

  // --- inverse and successor ----------------------------------------------------------------------------------

  lemma {:induction false} YearsGrow(a: nat, b: nat)
    requires 1970 <= a < b
    ensures DaysBeforeYear(a) + 365 + LeapDay(a) <= DaysBeforeYear(b)
    decreases b
  {
    if a + 1 < b { YearsGrow(a, b - 1); }
  }

  lemma {:induction false} MonthsGrow(y: nat, a: nat, b: nat)
    requires 1 <= a < b
    ensures DaysBeforeMonth(y, a) + MonthLength(y, a) <= DaysBeforeMonth(y, b)
    decreases b
  {
    if a + 1 < b { MonthsGrow(y, a, b - 1); }
  }

  lemma DayWithinYear(t: Date)
    requires ValidDate(t)
    ensures DaysBeforeMonth(t.year, t.month) + t.day <= 365 + LeapDay(t.year)
  {
    MonthTable(t.year);
    MonthsGrow(t.year, t.month, 13);
  }

  /** Different dates have different day numbers. */
  lemma DayNumberInjective(s: Date, t: Date)
    requires ValidDate(s) && ValidDate(t) && s.year >= 1970 && t.year >= 1970 && DayNumber(s) == DayNumber(t)
    ensures s == t
  {
    DayWithinYear(s);
    DayWithinYear(t);
    if s.year < t.year { YearsGrow(s.year, t.year); }
    if t.year < s.year { YearsGrow(t.year, s.year); }
    if s.month < t.month { MonthsGrow(s.year, s.month, t.month); }
    if t.month < s.month { MonthsGrow(t.year, t.month, s.month); }
  }

  /** `days_to_ymd` inverts the day number on every date from 1970 on. */
  lemma DayOfDate(t: Date, days: nat)
    requires ValidDate(t) && t.year >= 1970 && days == DayNumber(t)
    ensures DaysToYmd(days) == t
  {
    DateOfDay(days);
    DayNumberInjective(DaysToYmd(days), t);
  }

  lemma NextDayNumber(t: Date)
    requires ValidDate(t) && t.year >= 1970
    ensures ValidDate(NextDay(t)) && DayNumber(NextDay(t)) == DayNumber(t) + 1
  {
    MonthTable(t.year);
    assert t.month == 12 ==> DaysBeforeMonth(t.year, 13) == DaysBeforeMonth(t.year, 12) + 31;
  }

  lemma Epoch()
    ensures DaysToYmd(0) == Date(1970, 1, 1)
  {
    DayOfDate(Date(1970, 1, 1), 0);
  }

  /** The next day's date is the calendar successor of this day's. */
  lemma Successor(days: nat)
    ensures DaysToYmd(days + 1) == NextDay(DaysToYmd(days))
  {
    DateOfDay(days);
    SuccessorOf(days, DaysToYmd(days));
  }

  lemma SuccessorOf(days: nat, t: Date)
    requires ValidDate(t) && t.year >= 1970 && DayNumber(t) == days
    ensures DaysToYmd(days + 1) == NextDay(t)
  {
    NextDayNumber(t);
    DayOfDate(NextDay(t), days + 1);
  }
}
