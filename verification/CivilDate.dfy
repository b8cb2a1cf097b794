/**
  Day counts and proleptic Gregorian dates. The counts are relative to 1970-01-01; inside the formulas a
  year starts in March and 400 years make an era of 146,097 days.
 */
module CivilDate {
  datatype Date = Date(year: int, month: int, day: int)

  // -------------------------------------------------------------------------
  // The calendar itself, by its rules
  // -------------------------------------------------------------------------

  predicate Leap(year: int)
  {
    year % 4 == 0 && (year % 100 != 0 || year % 400 == 0)
  }

  function MonthLength(year: int, month: int): int
  {
    if month == 2 then (if Leap(year) then 29 else 28)
    else if month == 4 || month == 6 || month == 9 || month == 11 then 30
    else 31
  }

  predicate ValidDate(d: Date)
  {
    1 <= d.month <= 12 && 1 <= d.day <= MonthLength(d.year, d.month)
  }

  function NextDay(d: Date): Date
  {
    if d.day < MonthLength(d.year, d.month) then Date(d.year, d.month, d.day + 1)
    else if d.month < 12 then Date(d.year, d.month + 1, 1)
    else Date(d.year + 1, 1, 1)
  }

  // -------------------------------------------------------------------------
  // The two conversions
  // -------------------------------------------------------------------------

  /** Integer division as the program does it: toward zero. */
  function TruncDiv(a: int, b: int): int
    requires b > 0
  {
    if a >= 0 then a / b else -((-a) / b)
  }

  /** Day within a year that starts in March, of which month `mp` is the `mp`-th. */
  function DayOfYear(mp: int, day: int): int
  {
    TruncDiv(153 * mp + 2, 5) + day - 1
  }

  function DayOfEra(yoe: int, doy: int): int
  {
    yoe * 365 + TruncDiv(yoe, 4) - TruncDiv(yoe, 100) + doy
  }

  function EraOfYear(year: int): int
  {
    TruncDiv(if year >= 0 then year else year - 399, 400)
  }

  function MarchYear(d: Date): int
  {
    d.year - if d.month <= 2 then 1 else 0
  }

  function MarchMonth(month: int): int
  {
    month + if month > 2 then -3 else 9
  }

  function DaysFromCivil(d: Date): int
  {
    var year := MarchYear(d);
    var era := EraOfYear(year);
    era * 146_097 + DayOfEra(year - era * 400, DayOfYear(MarchMonth(d.month), d.day)) - 719_468
  }

  function EraOfDay(z: int): int
  {
    TruncDiv(if z >= 0 then z else z - 146_096, 146_097)
  }

  function YearOfEra(doe: int): int
  {
    TruncDiv(doe - TruncDiv(doe, 1_460) + TruncDiv(doe, 36_524) - TruncDiv(doe, 146_096), 365)
  }

  /** Month of the March year, and day of that month. */
  function MonthAndDay(doy: int): (int, int)
  {
    var mp := TruncDiv(5 * doy + 2, 153);
    (mp, doy - TruncDiv(153 * mp + 2, 5) + 1)
  }

  function CivilFromDays(days: int): Date
  {
    var z := days + 719_468;
    var era := EraOfDay(z);
    var doe := z - era * 146_097;
    var yoe := YearOfEra(doe);
    var (mp, day) := MonthAndDay(doe - (365 * yoe + TruncDiv(yoe, 4) - TruncDiv(yoe, 100)));
    var month := mp + if mp < 10 then 3 else -9;
    Date(yoe + era * 400 + (if month <= 2 then 1 else 0), month, day)
  }

  // -------------------------------------------------------------------------
  // Eras
  // -------------------------------------------------------------------------

  /** Both era computations round down, on either side of zero. */
  lemma {:induction false} Eras(x: int)
    ensures EraOfYear(x) * 400 <= x < EraOfYear(x) * 400 + 400
    ensures EraOfDay(x) * 146_097 <= x < EraOfDay(x) * 146_097 + 146_097
  {
  }

  /** First day of March year `yoe` within its era, for 0 <= yoe < 400. */
  function YearStart(yoe: int): int
  {
    365 * yoe + yoe / 4 - yoe / 100
  }

  /** One past its last day: the era's last year is one day longer than the formula for starts says. */
  function YearEnd(yoe: int): int
  {
    if yoe == 399 then 146_097 else YearStart(yoe + 1)
  }

  /** A quotient is the number whose multiples enclose the dividend. */
  lemma {:induction false} QuotientIs(a: int, b: int, q: int)
    requires b > 0 && q * b <= a < q * b + b
    ensures a / b == q
  {
    var d := a / b - q;
    assert d * b == a - a % b - q * b;
    assert d >= 1 ==> d * b >= b;
    assert d <= -1 ==> d * b <= -b;
  }

  /** Day `r` of four-year cycle `q` of century `c` lies in the year the formula says. */
  lemma {:induction false} YearOfCycleDay(c: int, q: int, r: int, doe: int)
    requires 0 <= c < 4 && 0 <= q < 25 && 0 <= r <= 1_460
    requires r == 1_460 ==> q < 24 || c == 3
    requires doe == 36_524 * c + 1_461 * q + r < 146_097
    ensures YearOfEra(doe) == 100 * c + 4 * q + if r == 1_460 then 3 else r / 365
  {
    var late := if 24 * c + q + r >= 1_460 then 1 else 0;
    QuotientIs(doe, 1_460, 25 * c + q + late);
    var k := if r == 1_460 then 3 else r / 365;
    if doe == 146_096 {
    } else {
      QuotientIs(doe, 36_524, c);
      QuotientIs(doe, 146_096, 0);
      QuotientIs(doe - (25 * c + q + late) + c, 365, 100 * c + 4 * q + k);
    }
  }

  lemma {:induction false} YearOfEraMeaning(doe: int)
    requires 0 <= doe < 146_097
    ensures var yoe := YearOfEra(doe); 0 <= yoe < 400 && YearStart(yoe) <= doe < YearEnd(yoe)
  {
    var c := if doe == 146_096 then 3 else doe / 36_524;
    var rest := doe - 36_524 * c;
    var q := rest / 1_461;
    var r := rest - 1_461 * q;
    YearOfCycleDay(c, q, r, doe);
    var k := if r == 1_460 then 3 else r / 365;
    StartOfYear(c, q, k);
  }

  lemma {:induction false} StartOfYear(c: int, q: int, k: int)
    requires 0 <= c < 4 && 0 <= q < 25 && 0 <= k < 4
    ensures var y := 100 * c + 4 * q + k;
            && YearStart(y) == 36_524 * c + 1_461 * q + 365 * k
            && YearEnd(y) == YearStart(y) + (if k == 3 && (q < 24 || c == 3) then 366 else 365)
  {
    var y := 100 * c + 4 * q + k;
    QuotientIs(y, 4, 25 * c + q);
    QuotientIs(y, 100, c);
    if k < 3 {
      QuotientIs(y + 1, 4, 25 * c + q);
      QuotientIs(y + 1, 100, c);
    } else {
      QuotientIs(y + 1, 4, 25 * c + q + 1);
      QuotientIs(y + 1, 100, if q == 24 then c + 1 else c);
    }
  }

  lemma {:induction false} YearsInOrder(y: int, z: int)
    requires 0 <= y < z < 400
    ensures YearEnd(y) <= YearStart(z)
  {
    var n := y + 1;
    assert z / 4 >= n / 4;
    assert z / 100 - n / 100 <= z - n;
  }

  /** Which civil year's February closes a March year decides how long it is. */
  lemma {:induction false} YearLength(era: int, yoe: int)
    requires 0 <= yoe < 400
    ensures YearEnd(yoe) == YearStart(yoe) + if Leap(era * 400 + yoe + 1) then 366 else 365
  {
    var c := yoe / 100;
    var q := (yoe - 100 * c) / 4;
    var k := yoe - 100 * c - 4 * q;
    StartOfYear(c, q, k);
    var next := era * 400 + yoe + 1;
    QuotientIs(next, 4, era * 100 + 25 * c + q + if k == 3 then 1 else 0);
    QuotientIs(next, 100, era * 4 + c + if q == 24 && k == 3 then 1 else 0);
    QuotientIs(next, 400, era + if yoe == 399 then 1 else 0);
  }

  // -------------------------------------------------------------------------
  // Months
  // -------------------------------------------------------------------------

  function MonthStart(mp: int): int
  {
    (153 * mp + 2) / 5
  }

  /** Civil month of the `mp`-th month of a March year. */
  function CivilMonth(mp: int): int
  {
    mp + if mp < 10 then 3 else -9
  }

  lemma {:induction false} MonthTable()
    ensures MonthStart(0) == 0 && MonthStart(1) == 31 && MonthStart(2) == 61 && MonthStart(3) == 92
    ensures MonthStart(4) == 122 && MonthStart(5) == 153 && MonthStart(6) == 184 && MonthStart(7) == 214
    ensures MonthStart(8) == 245 && MonthStart(9) == 275 && MonthStart(10) == 306 && MonthStart(11) == 337
    ensures MonthStart(12) == 367
  {
  }

  /** The months before the closing February have their calendar lengths. */
  lemma {:induction false} MonthLengths(mp: int, year: int)
    requires 0 <= mp < 11
    ensures MonthStart(mp + 1) == MonthStart(mp) + MonthLength(year, CivilMonth(mp))
  {
    MonthTable();
    assert mp == 0 || mp == 1 || mp == 2 || mp == 3 || mp == 4 || mp == 5
           || mp == 6 || mp == 7 || mp == 8 || mp == 9 || mp == 10;
  }

  lemma {:induction false} MonthAndDayMeaning(doy: int)
    requires 0 <= doy < 366
    ensures var (mp, day) := MonthAndDay(doy);
            0 <= mp < 12 && MonthStart(mp) <= doy < MonthStart(mp + 1) && day == doy - MonthStart(mp) + 1
  {
    MonthTable();
    var mp := (5 * doy + 2) / 153;
    assert 0 <= mp < 12;
  }

  lemma {:induction false} MonthUnique(doy: int, mp: int)
    requires 0 <= doy < 366 && 0 <= mp < 12 && MonthStart(mp) <= doy < MonthStart(mp + 1)
    ensures MonthAndDay(doy) == (mp, doy - MonthStart(mp) + 1)
  {
    MonthAndDayMeaning(doy);
  }

  // -------------------------------------------------------------------------
  // Taking a date apart
  // -------------------------------------------------------------------------

  /** The date of month `mp` and day `day` of March year `yoe` of an era. */
  function Assembled(era: int, yoe: int, mp: int, day: int): Date
  {
    var month := CivilMonth(mp);
    Date(yoe + era * 400 + (if month <= 2 then 1 else 0), month, day)
  }

  /** A place in the calendar: the parts are in range and the day exists. */
  ghost predicate Place(era: int, yoe: int, mp: int, day: int)
  {
    && 0 <= yoe < 400 && 0 <= mp < 12 && day >= 1
    && MonthStart(mp) + day - 1 < MonthStart(mp + 1)
    && YearStart(yoe) + MonthStart(mp) + day - 1 < YearEnd(yoe)
  }

  lemma {:induction false} AssembledDays(era: int, yoe: int, mp: int, day: int)
    requires Place(era, yoe, mp, day)
    ensures DaysFromCivil(Assembled(era, yoe, mp, day))
            == era * 146_097 + YearStart(yoe) + MonthStart(mp) + day - 1 - 719_468
  {
    var d := Assembled(era, yoe, mp, day);
    assert MarchYear(d) == yoe + era * 400 && MarchMonth(d.month) == mp;
    Eras(yoe + era * 400);
    assert EraOfYear(yoe + era * 400) == era;
  }

  lemma {:induction false} StartsByTruncation(yoe: int)
    requires 0 <= yoe
    ensures YearStart(yoe) == 365 * yoe + TruncDiv(yoe, 4) - TruncDiv(yoe, 100)
  {
  }

  lemma {:induction false} PlaceOfDay(days: int) returns (era: int, yoe: int, mp: int, day: int)
    ensures Place(era, yoe, mp, day) && CivilFromDays(days) == Assembled(era, yoe, mp, day)
    ensures days + 719_468 == era * 146_097 + YearStart(yoe) + MonthStart(mp) + day - 1
  {
    hide TruncDiv, YearStart, YearEnd, YearOfEra, MonthAndDay, MonthStart, Leap, EraOfDay;
    var z := days + 719_468;
    era := EraOfDay(z);
    Eras(z);
    var doe := z - era * 146_097;
    yoe := YearOfEra(doe);
    YearOfEraMeaning(doe);
    YearLength(era, yoe);
    StartsByTruncation(yoe);
    var doy := doe - YearStart(yoe);
    MonthAndDayMeaning(doy);
    mp, day := MonthAndDay(doy).0, MonthAndDay(doy).1;
    assert CivilFromDays(days) == Assembled(era, yoe, mp, day);
  }

  /** Different places are different days: a day count determines its place. */
  lemma {:induction false} PlaceUnique(era: int, yoe: int, mp: int, day: int, days: int)
    requires Place(era, yoe, mp, day)
    requires days + 719_468 == era * 146_097 + YearStart(yoe) + MonthStart(mp) + day - 1
    ensures CivilFromDays(days) == Assembled(era, yoe, mp, day)
  {
    var e, y, m, d := PlaceOfDay(days);
    YearBounds(yoe);
    YearBounds(y);
    MonthTable();
    assert e == era;
    if y < yoe { YearsInOrder(y, yoe); } else if yoe < y { YearsInOrder(yoe, y); }
    YearLength(era, yoe);
    var doy := MonthStart(mp) + day - 1;
    MonthUnique(doy, mp);
    MonthUnique(doy, m);
  }

  lemma {:induction false} YearBounds(yoe: int)
    requires 0 <= yoe < 400
    ensures 0 <= YearStart(yoe) && YearEnd(yoe) <= 146_097
  {
    if yoe < 398 {
      YearsInOrder(yoe, 399);
    }
  }

  lemma {:induction false} ValidPlace(d: Date) returns (era: int, yoe: int, mp: int)
    requires ValidDate(d)
    ensures Place(era, yoe, mp, d.day) && d == Assembled(era, yoe, mp, d.day) && mp == MarchMonth(d.month)
  {
    hide YearStart, YearEnd, MonthStart, Leap, EraOfYear;
    var year := MarchYear(d);
    Eras(year);
    era := EraOfYear(year);
    yoe := year - era * 400;
    mp := MarchMonth(d.month);
    MonthTable();
    YearLength(era, yoe);
    if mp < 11 {
      MonthLengths(mp, d.year);
      MonthStartsGrow(mp + 1, 11);
    }
  }

  lemma {:induction false} MonthStartsGrow(a: int, b: int)
    requires a <= b
    ensures MonthStart(a) <= MonthStart(b)
  {
  }

  // -------------------------------------------------------------------------
  // The conversions are inverse, and count days
  // -------------------------------------------------------------------------

  /** Every day count is the count of its date. */
  lemma {:induction false} DaysOfCivil(days: int)
    ensures DaysFromCivil(CivilFromDays(days)) == days
  {
    var era, yoe, mp, day := PlaceOfDay(days);
    AssembledDays(era, yoe, mp, day);
  }

  /** Every valid date is the date of its count. */
  lemma {:induction false} CivilOfDays(d: Date)
    requires ValidDate(d)
    ensures CivilFromDays(DaysFromCivil(d)) == d
  {
    var era, yoe, mp := ValidPlace(d);
    AssembledDays(era, yoe, mp, d.day);
    PlaceUnique(era, yoe, mp, d.day, DaysFromCivil(d));
  }

  lemma {:induction false} CivilIsValid(days: int)
    ensures ValidDate(CivilFromDays(days))
  {
    var era, yoe, mp, day := PlaceOfDay(days);
    var d := CivilFromDays(days);
    YearLength(era, yoe);
    MonthTable();
    if mp < 11 {
      MonthLengths(mp, d.year);
    }
  }

  lemma {:induction false} SameMonthCounts(d: Date)
    ensures DaysFromCivil(Date(d.year, d.month, d.day + 1)) == DaysFromCivil(d) + 1
  {
    hide TruncDiv, EraOfYear;
  }

  lemma {:induction false} FirstOfMonth(mp: int, day: int)
    requires 0 <= mp && MonthStart(mp + 1) == MonthStart(mp) + day
    ensures DayOfYear(mp + 1, 1) == DayOfYear(mp, day) + 1
  {
  }

  /** The first of a month counts one more than the last of the month before it, except in March. */
  lemma {:induction false} NextMonthCounts(d: Date, n: Date)
    requires 1 <= d.month <= 12 && d.month != 2 && d.day == MonthLength(d.year, d.month)
    requires n == if d.month < 12 then Date(d.year, d.month + 1, 1) else Date(d.year + 1, 1, 1)
    ensures DaysFromCivil(n) == DaysFromCivil(d) + 1
  {
    hide TruncDiv, EraOfYear, DayOfYear;
    var mp := MarchMonth(d.month);
    MonthLengths(mp, d.year);
    FirstOfMonth(mp, d.day);
  }

  lemma {:induction false} YearSeam(yoe: int)
    ensures YearStart(0) == 0 && YearEnd(399) == 146_097
    ensures yoe < 399 ==> YearEnd(yoe) == YearStart(yoe + 1)
  {
    hide YearStart;
    YearZero();
  }

  lemma {:induction false} YearZero()
    ensures YearStart(0) == 0
  {
  }

  /** Where the March year after this one starts. */
  lemma {:induction false} NextYearPlace(era: int, yoe: int) returns (e: int, y: int)
    requires 0 <= yoe < 400
    ensures Place(e, y, 0, 1) && e * 400 + y == era * 400 + yoe + 1
    ensures e * 146_097 + YearStart(y) == era * 146_097 + YearEnd(yoe)
  {
    hide YearStart, YearEnd, MonthStart, Leap;
    if yoe < 399 {
      e, y := era, yoe + 1;
    } else {
      e, y := era + 1, 0;
    }
    YearSeam(yoe);
    YearLength(e, y);
    MonthTable();
  }

  lemma {:induction false} FirstOfMarchCounts(year: int)
    ensures DaysFromCivil(Date(year, 3, 1)) == DaysFromCivil(Date(year, 2, MonthLength(year, 2))) + 1
  {
    hide YearStart, YearEnd, MonthStart, Leap, EraOfYear, DaysFromCivil, Place;
    var d := Date(year, 2, MonthLength(year, 2));
    MonthTable();
    var era, yoe, mp := ValidPlace(d);
    PlaceBounds(era, yoe, mp, d.day);
    YearLength(era, yoe);
    AssembledDays(era, yoe, mp, d.day);
    var e, y := NextYearPlace(era, yoe);
    AssembledDays(e, y, 0, 1);
    assert Assembled(e, y, 0, 1) == Date(year, 3, 1);
  }

  lemma {:induction false} PlaceBounds(era: int, yoe: int, mp: int, day: int)
    requires Place(era, yoe, mp, day)
    ensures 0 <= yoe < 400 && 0 <= mp < 12
  {
  }

  /** The next day's count is one more. */
  lemma {:induction false} NextDayCounts(d: Date)
    requires ValidDate(d)
    ensures ValidDate(NextDay(d)) && DaysFromCivil(NextDay(d)) == DaysFromCivil(d) + 1
  {
    hide DaysFromCivil, Leap;
    if d.day < MonthLength(d.year, d.month) {
      SameMonthCounts(d);
    } else if d.month == 2 {
      FirstOfMarchCounts(d.year);
    } else {
      NextMonthCounts(d, NextDay(d));
    }
  }

  /** Day zero is 1970-01-01. */
  lemma {:induction false} Epoch()
    ensures CivilFromDays(0) == Date(1970, 1, 1)
  {
    hide CivilFromDays;
    var d := Date(1970, 1, 1);
    assert EraOfYear(MarchYear(d)) == 4;
    assert DayOfYear(MarchMonth(1), 1) == 306;
    assert DayOfEra(369, 306) == 135_080;
    hide EraOfYear, DayOfYear, DayOfEra;
    assert DaysFromCivil(d) == 0;
    hide DaysFromCivil;
    CivilOfDays(d);
  }

  /** The date of the next day count is the calendar's next day. */
  lemma {:induction false} NextCivil(days: int)
    ensures CivilFromDays(days + 1) == NextDay(CivilFromDays(days))
  {
    hide CivilFromDays, DaysFromCivil, NextDay, ValidDate;
    var d := CivilFromDays(days);
    CivilIsValid(days);
    DaysOfCivil(days);
    NextDayCounts(d);
    CivilOfDays(NextDay(d));
  }
}
