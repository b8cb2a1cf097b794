/** Calendar readings and Unix nanoseconds, with the program's integer widths. */
module NetworkTime {
  import opened CivilDate

  datatype Time = Time(date: Date, hour: int, minute: int, second: int, nano: int)

  /** A result, a refusal, or an arithmetic overflow (a panic in checked builds). */
  datatype Reading<T> = Known(value: T) | Absent | Overflow

  predicate I32(x: int) { -0x8000_0000 <= x < 0x8000_0000 }

  predicate I64(x: int) { -0x8000_0000_0000_0000 <= x < 0x8000_0000_0000_0000 }

  /** A narrowing cast keeps the low bits. */
  function AsI32(x: int): (r: int)
    ensures I32(x) ==> r == x
  {
    (x + 0x8000_0000) % 0x1_0000_0000 - 0x8000_0000
  }

  function AsI64(x: int): (r: int)
    ensures I64(x) ==> r == x
  {
    (x + 0x8000_0000_0000_0000) % 0x1_0000_0000_0000_0000 - 0x8000_0000_0000_0000
  }

  /** The last day whose count survives 32-bit arithmetic; it is in the year 5879610. */
  const MAX_DAYS: int := 0x7FFF_FFFF - 719_468

  const DAY_NS: int := 86_400_000_000_000

  // -------------------------------------------------------------------------
  // Conversions at machine width
  // -------------------------------------------------------------------------

  /** Every 32-bit intermediate of the day count, in the order it is computed. */
  predicate DaysFit(d: Date)
  {
    var year := MarchYear(d);
    var era := EraOfYear(year);
    var doe := DayOfEra(year - era * 400, DayOfYear(MarchMonth(d.month), d.day));
    && I32(year) && (year < 0 ==> I32(year - 399)) && I32(era * 400)
    && I32(era * 146_097) && I32(era * 146_097 + doe) && I32(era * 146_097 + doe - 719_468)
  }

  function CheckedDays(d: Date): Reading<int>
  {
    if DaysFit(d) then Known(DaysFromCivil(d)) else Overflow
  }

  /** Every intermediate of the date of a 64-bit day count; the era is narrowed by a cast. */
  predicate CivilFits(days: int)
  {
    var z := days + 719_468;
    var era := AsI32(EraOfDay(z));
    var yoe := YearOfEra(z - EraOfDay(z) * 146_097);
    I64(z) && (z < 0 ==> I64(z - 146_096)) && I32(era * 400) && I32(yoe + era * 400)
    && I32(yoe + era * 400 + if CivilFromDays(days).month <= 2 then 1 else 0)
  }

  function CheckedCivil(days: int): Reading<Date>
  {
    if CivilFits(days) then
      var z := days + 719_468;
      var lost := EraOfDay(z) - AsI32(EraOfDay(z));
      var d := CivilFromDays(days);
      Known(Date(d.year - lost * 400, d.month, d.day))
    else Overflow
  }

  /** The fields of second `sod` of a day. */
  function TimeOn(date: Date, sod: int, nano: int): Time
  {
    Time(date, sod / 3_600, (sod % 3_600) / 60, sod % 60, nano)
  }

  function FromUnixNs(n: int): Reading<Time>
  {
    if n < 0 then Absent
    else
      var secs := n / 1_000_000_000;
      match CheckedCivil(AsI64(secs / 86_400))
      case Absent => Absent
      case Overflow => Overflow
      case Known(date) => Known(TimeOn(date, secs % 86_400, n % 1_000_000_000))
  }

  /** Only field ranges are checked: a day that its month does not have is accepted. */
  predicate FieldsOk(t: Time)
  {
    && 1 <= t.date.month <= 12 && 1 <= t.date.day <= 31
    && 0 <= t.hour <= 23 && 0 <= t.minute <= 59 && 0 <= t.second <= 59 && 0 <= t.nano < 1_000_000_000
  }

  function SecondOfDay(t: Time): int
  {
    t.hour * 3_600 + t.minute * 60 + t.second
  }

  function AsUnixNs(t: Time): Reading<int>
  {
    if !FieldsOk(t) then Absent
    else match CheckedDays(t.date)
      case Known(days) => Known((days * 86_400 + SecondOfDay(t)) * 1_000_000_000 + t.nano)
      case Absent => Absent
      case Overflow => Overflow
  }

  // -------------------------------------------------------------------------
  // Round trips
  // -------------------------------------------------------------------------

  lemma {:induction false} EraBounds(days: int)
    requires 0 <= days
    ensures var z := days + 719_468;
            var era := EraOfDay(z);
            && 0 <= era && era * 146_097 <= z && 0 <= YearOfEra(z - era * 146_097) < 400
            && (z <= 0x7FFF_FFFF ==> era * 400 <= 5_880_000)
  {
    hide YearOfEra, EraOfDay;
    var z := days + 719_468;
    Eras(z);
    YearOfEraMeaning(z - EraOfDay(z) * 146_097);
    var era := EraOfDay(z);
    if z <= 0x7FFF_FFFF {
      assert era * 146_097 <= 0x7FFF_FFFF;
      assert era <= 14_699;
    }
  }

  /** From the epoch on, a day count goes through both conversions unharmed exactly up to `MAX_DAYS`. */
  lemma {:induction false} DayRoundTrip(days: int)
    requires 0 <= days
    ensures days <= MAX_DAYS ==> CheckedCivil(days) == Known(CivilFromDays(days))
    ensures DaysFit(CivilFromDays(days)) <==> days <= MAX_DAYS
  {
    hide CivilFromDays, DaysFromCivil, EraOfDay, YearOfEra, EraOfYear, DayOfEra, DayOfYear, AsI32, AsI64, MarchYear,
      MarchMonth;
    EraBounds(days);
    DateParts(days);
  }

  lemma {:induction false} DateParts(days: int)
    requires 0 <= days
    ensures var d := CivilFromDays(days);
            var z := days + 719_468;
            var year := MarchYear(d);
            && EraOfYear(year) == EraOfDay(z) && year == EraOfDay(z) * 400 + YearOfEra(z - EraOfDay(z) * 146_097)
            && DayOfEra(year - EraOfYear(year) * 400, DayOfYear(MarchMonth(d.month), d.day))
               == z - EraOfDay(z) * 146_097
  {
    hide CivilFromDays, EraOfDay, YearOfEra, EraOfYear, DayOfEra, DayOfYear, MarchYear, MarchMonth;
    var z := days + 719_468;
    var d := CivilFromDays(days);
    EraBounds(days);
    DaysOfCivil(days);
    CivilIsValid(days);
    MarchYearOfDay(days);
    Eras(MarchYear(d));
    Eras(z);
    assert EraOfYear(MarchYear(d)) == EraOfDay(z);
  }

  lemma {:induction false} MarchYearOfDay(days: int)
    ensures var z := days + 719_468;
            MarchYear(CivilFromDays(days)) == EraOfDay(z) * 400 + YearOfEra(z - EraOfDay(z) * 146_097)
  {
    hide EraOfDay, YearOfEra, TruncDiv;
  }

  /** The parts of a nanosecond count: its day, the second of that day, and the rest. */
  lemma {:induction false} NsParts(n: int, days: int, sod: int, nano: int)
    requires 0 <= sod < 86_400 && 0 <= nano < 1_000_000_000
    requires n == days * DAY_NS + sod * 1_000_000_000 + nano
    ensures n / DAY_NS == days && n / 1_000_000_000 / 86_400 == days
    ensures n / 1_000_000_000 % 86_400 == sod && n % 1_000_000_000 == nano
  {
    QuotientIs(n, DAY_NS, days);
    QuotientIs(n, 1_000_000_000, days * 86_400 + sod);
    QuotientIs(days * 86_400 + sod, 86_400, days);
  }

  /** Every nanosecond count has such parts. */
  lemma {:induction false} NsSplit(n: int) returns (days: int, sod: int, nano: int)
    ensures 0 <= sod < 86_400 && 0 <= nano < 1_000_000_000
    ensures n == days * DAY_NS + sod * 1_000_000_000 + nano
  {
    var secs := n / 1_000_000_000;
    days, sod, nano := secs / 86_400, secs % 86_400, n % 1_000_000_000;
  }

  /** The fields of a second of the day spell that second, and no other fields do. */
  lemma {:induction false} SecondFields(date: Date, sod: int, nano: int)
    requires 0 <= sod < 86_400
    ensures var t := TimeOn(date, sod, nano);
            0 <= t.hour <= 23 && 0 <= t.minute <= 59 && 0 <= t.second <= 59 && SecondOfDay(t) == sod
  {
  }

  lemma {:induction false} FieldsUnique(t: Time)
    requires 0 <= t.hour <= 23 && 0 <= t.minute <= 59 && 0 <= t.second <= 59
    ensures 0 <= SecondOfDay(t) < 86_400 && TimeOn(t.date, SecondOfDay(t), t.nano) == t
  {
    var sod := SecondOfDay(t);
    QuotientIs(sod, 3_600, t.hour);
    QuotientIs(sod % 3_600, 60, t.minute);
    QuotientIs(sod, 60, t.hour * 60 + t.minute);
  }

  /** A known nanosecond count lies on the day its date was counted to. */
  lemma {:induction false} DayOfNs(t: Time)
    requires AsUnixNs(t).Known?
    ensures FieldsOk(t) && DaysFit(t.date)
    ensures AsUnixNs(t).value == DaysFromCivil(t.date) * DAY_NS + SecondOfDay(t) * 1_000_000_000 + t.nano
    ensures AsUnixNs(t).value / DAY_NS == DaysFromCivil(t.date) <= MAX_DAYS
  {
    hide DaysFit, DaysFromCivil, SecondOfDay, TimeOn;
    DaysBound(t.date);
    FieldsUnique(t);
    NsParts(AsUnixNs(t).value, DaysFromCivil(t.date), SecondOfDay(t), t.nano);
  }

  lemma {:induction false} DaysBound(d: Date)
    requires DaysFit(d)
    ensures DaysFromCivil(d) <= MAX_DAYS
  {
  }

  /** Up to `MAX_DAYS` a reading is a real date with every field in range, and counts back to its nanoseconds. */
  lemma {:induction false} KnownFromUnix(n: int, days: int, sod: int, nano: int)
    requires 0 <= days <= MAX_DAYS && 0 <= sod < 86_400 && 0 <= nano < 1_000_000_000
    requires n == days * DAY_NS + sod * 1_000_000_000 + nano
    ensures var t := TimeOn(CivilFromDays(days), sod, nano);
            FromUnixNs(n) == Known(t) && ValidDate(t.date) && FieldsOk(t) && AsUnixNs(t) == Known(n)
  {
    hide CivilFromDays, DaysFromCivil, CheckedCivil, DaysFit, ValidDate, SecondOfDay, TimeOn;
    NsParts(n, days, sod, nano);
    DayRoundTrip(days);
    CivilIsValid(days);
    DaysOfCivil(days);
    SecondFields(CivilFromDays(days), sod, nano);
    DatesHaveFields(CivilFromDays(days));
    assert n >= 0;
    assert TimeOn(CivilFromDays(days), sod, nano).date == CivilFromDays(days) by {
      TimeOnDate(CivilFromDays(days), sod, nano);
    }
    assert TimeOn(CivilFromDays(days), sod, nano).nano == nano by { TimeOnDate(CivilFromDays(days), sod, nano); }
  }

  lemma {:induction false} TimeOnDate(date: Date, sod: int, nano: int)
    ensures TimeOn(date, sod, nano).date == date && TimeOn(date, sod, nano).nano == nano
  {
  }

  lemma {:induction false} DatesHaveFields(d: Date)
    ensures ValidDate(d) ==> 1 <= d.month <= 12 && 1 <= d.day <= 31
  {
  }

  /**
    The nanoseconds of a reading taken from nanoseconds are those nanoseconds, exactly up to the end of
    day `MAX_DAYS`.
   */
  lemma {:induction false} UnixRoundTrip(n: int)
    requires 0 <= n
    ensures FromUnixNs(n).Known? && AsUnixNs(FromUnixNs(n).value) == Known(n) <==> n / DAY_NS <= MAX_DAYS
  {
    hide FromUnixNs, AsUnixNs, TimeOn;
    var days, sod, nano := NsSplit(n);
    NsParts(n, days, sod, nano);
    if days <= MAX_DAYS {
      KnownFromUnix(n, days, sod, nano);
    } else if FromUnixNs(n).Known? && AsUnixNs(FromUnixNs(n).value) == Known(n) {
      DayOfNs(FromUnixNs(n).value);
    }
  }

  /** The other way round: a reading survives exactly when its date exists. */
  lemma {:induction false} CalendarRoundTrip(t: Time)
    requires AsUnixNs(t).Known? && AsUnixNs(t).value >= 0
    ensures FromUnixNs(AsUnixNs(t).value) == Known(t) <==> ValidDate(t.date)
  {
    hide FromUnixNs, AsUnixNs, TimeOn, ValidDate, CivilFromDays, DaysFromCivil, SecondOfDay;
    var n, days := AsUnixNs(t).value, DaysFromCivil(t.date);
    DayOfNs(t);
    FieldsUnique(t);
    KnownFromUnix(n, days, SecondOfDay(t), t.nano);
    if ValidDate(t.date) {
      CivilOfDays(t.date);
    }
    TimeOnDate(CivilFromDays(days), SecondOfDay(t), t.nano);
  }

  lemma {:induction false} NoSuchDay(d: Date)
    requires d.year == 2023 && d.month == 2 && d.day == 31
    ensures DaysFit(d) && DaysFromCivil(d) == 19_419 && !ValidDate(d)
  {
    assert EraOfYear(MarchYear(d)) == 5;
    assert DayOfYear(MarchMonth(d.month), d.day) == 367;
    assert DayOfEra(22, 367) == 8_402;
  }

  /** A day that does not exist, such as 31 February 2023, is accepted and comes back as another one. */
  lemma {:induction false} NoSuchDayIsAccepted(t: Time)
    requires t.date.year == 2023 && t.date.month == 2 && t.date.day == 31 && FieldsOk(t)
    ensures AsUnixNs(t).Known? && AsUnixNs(t).value >= 0 && FromUnixNs(AsUnixNs(t).value) != Known(t)
  {
    hide DaysFromCivil, DaysFit, FromUnixNs, ValidDate;
    NoSuchDay(t.date);
    CalendarRoundTrip(t);
  }

  // -------------------------------------------------------------------------
  // Advancing a reading
  // -------------------------------------------------------------------------

  function Advance(t: Time, elapsed: nat): Reading<Time>
  {
    match AsUnixNs(t)
    case Absent => Absent
    case Overflow => Overflow
    case Known(n) => FromUnixNs(n + elapsed)
  }

  function AdvanceTwice(t: Time, a: nat, b: nat): Reading<Time>
  {
    match Advance(t, a)
    case Absent => Absent
    case Overflow => Overflow
    case Known(u) => Advance(u, b)
  }

  /** A first advance that ends at or after the epoch passes on exactly its nanoseconds. */
  lemma {:induction false} FirstAdvance(t: Time, a: nat, b: nat)
    requires AsUnixNs(t).Known? && AsUnixNs(t).value + a >= 0 && (AsUnixNs(t).value + a + b) / DAY_NS <= MAX_DAYS
    ensures AdvanceTwice(t, a, b) == FromUnixNs(AsUnixNs(t).value + a + b)
  {
    hide AsUnixNs, FromUnixNs;
    var m := AsUnixNs(t).value + a;
    DaysGrow(m, m + b);
    UnixRoundTrip(m);
    assert Advance(t, a) == FromUnixNs(m);
    assert Advance(FromUnixNs(m).value, b) == FromUnixNs(m + b);
  }

  /**
    Within the representable days, two advances are one advance exactly when the first does not end
    before 1970 or both end there: an intermediate reading before the epoch is refused.
   */
  lemma {:induction false} AdvanceIsAdditive(t: Time, a: nat, b: nat)
    requires AsUnixNs(t).Known? && (AsUnixNs(t).value + a + b) / DAY_NS <= MAX_DAYS
    ensures AdvanceTwice(t, a, b) == Advance(t, a + b)
            <==> AsUnixNs(t).value + a >= 0 || AsUnixNs(t).value + a + b < 0
  {
    hide AsUnixNs, FromUnixNs;
    var n := AsUnixNs(t).value;
    assert n + (a + b) == n + a + b;
    if n + a >= 0 {
      FirstAdvance(t, a, b);
    } else {
      NegativeIsAbsent(n + a);
      if n + a + b < 0 {
        NegativeIsAbsent(n + a + b);
      } else {
        var days, sod, nano := NsSplit(n + a + b);
        NsParts(n + a + b, days, sod, nano);
        KnownFromUnix(n + a + b, days, sod, nano);
      }
    }
  }

  lemma {:induction false} NegativeIsAbsent(n: int)
    requires n < 0
    ensures FromUnixNs(n) == Absent
  {
  }

  lemma {:induction false} DaysGrow(n: int, m: int)
    requires n <= m
    ensures n / DAY_NS <= m / DAY_NS
  {
  }
}
