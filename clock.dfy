/** UTC calendar arithmetic: day numbers, the proleptic Gregorian calendar, and
    the "2006-01-02" and RFC 3339 renderings the sentinel writes. A day number
    counts days since 1970-01-01; the day of an instant is the UTC day it falls
    in. */
module Clock {
  import opened Base
  import opened Text

  /** The UTC day an instant falls in (Dafny's division rounds down, like the
      calendar). */
  function DayOf(nanos: int): int {
    nanos / NanosPerDay
  }

  /** The instant at which a UTC day begins. */
  function Midnight(day: int): int {
    day * NanosPerDay
  }

  /** An instant lies between the midnight that starts its day and the next. */
  lemma DayBounds(nanos: int)
    ensures Midnight(DayOf(nanos)) <= nanos < Midnight(DayOf(nanos) + 1)
  {
  }

  predicate IsLeap(y: int) {
    y % 4 == 0 && (y % 100 != 0 || y % 400 == 0)
  }

  function DaysIn(m: int, y: int): int
    requires 1 <= m <= 12
  {
    if m == 2 then (if IsLeap(y) then 29 else 28)
    else if m == 4 || m == 6 || m == 9 || m == 11 then 30
    else 31
  }

  /** What time.Parse accepts as year, month and day: a month from 1 to 12 and a
      day that exists in that month of that year. */
  predicate ValidDate(y: int, m: int, d: int) {
    1 <= m <= 12 && 1 <= d <= DaysIn(m, y)
  }

  /** The day number of a calendar date (counting in 400-year eras of 146097
      days, with years starting in March so that the leap day comes last). */
  function DaysFromCivil(y: int, m: int, d: int): int
    requires 1 <= m <= 12
  {
    var y' := if m <= 2 then y - 1 else y;
    var era := y' / 400;
    var yoe := y' - era * 400;
    var mp := if m > 2 then m - 3 else m + 9;
    var doy := MonthStart(mp) + d - 1;
    era * 146097 + YearStart(yoe) + doy - 719468
  }

  /** The calendar date (year, month, day) of a day number; the inverse of
      DaysFromCivil (CivilRoundTrip). */
  function CivilFromDays(day: int): (int, int, int) {
    var z := day + 719468;
    var era := z / 146097;
    var doe := z - era * 146097;
    var yoe := YearOfEra(doe);
    DateOfYearDay(era, yoe, doe - YearStart(yoe))
  }

  /** The date of day doy (counted from March 1) of the year yoe of the
      400-year era era. */
  function DateOfYearDay(era: int, yoe: int, doy: int): (int, int, int) {
    var mp := MonthOfDay(doy);
    var d := doy - MonthStart(mp) + 1;
    var m := if mp < 10 then mp + 3 else mp - 9;
    var y := yoe + era * 400;
    (if m <= 2 then y + 1 else y, m, d)
  }

  /** The month, counted from March = 0, of a day of a March-based year. */
  function MonthOfDay(doy: int): int {
    (5 * doy + 2) / 153
  }

  /** The day of a March-based year on which a month, counted from March = 0,
      begins. */
  function MonthStart(mp: int): int {
    (153 * mp + 2) / 5
  }

  /** The March-based year within its 400-year era of a day of the era. */
  function YearOfEra(doe: int): int {
    (doe - doe / 1460 + doe / 36524 - doe / 146096) / 365
  }

  /** The day of the era on which a March-based year of the era begins. */
  function YearStart(yoe: int): int {
    365 * yoe + yoe / 4 - yoe / 100
  }

  /** Every day of an era falls in a year of the era, at most 365 days after
      the year's start, and only a year followed by a leap February has a day
      365. */
  lemma YearOfEraSplit(doe: int)
    requires 0 <= doe < 146097
    ensures 0 <= YearOfEra(doe) < 400
    ensures 0 <= doe - YearStart(YearOfEra(doe)) <= 365
    ensures doe - YearStart(YearOfEra(doe)) == 365 ==> IsLeap(YearOfEra(doe) + 1)
  {
    if doe == 146096 {
      assert YearOfEra(doe) == 399;
    } else {
      var c := doe / 36524;
      var r := doe - 36524 * c;
      var k := r / 1461;
      var t := r - 1461 * k;
      var j := BlockOfCentury(c, k, t);
    }
  }

  /** YearOfEraSplit for the day at offset t of the 4-year block k of the
      century c of an era (the last day, 146096, aside): it falls in year j of
      the block. */
  lemma BlockOfCentury(c: int, k: int, t: int) returns (j: int)
    requires 0 <= c <= 3 && 0 <= k <= 24 && 0 <= t <= 1460 && (k == 24 ==> t < 1460)
    ensures 0 <= j <= 3 && 0 <= t - 365 * j <= 365
    ensures YearOfEra(36524 * c + 1461 * k + t) == 100 * c + 4 * k + j
    ensures YearStart(100 * c + 4 * k + j) == 36524 * c + 1461 * k + 365 * j
    ensures t - 365 * j == 365 ==> IsLeap(100 * c + 4 * k + j + 1)
  {
    var e := EraQuotients(c, k, t);
    j := YearOfBlock(t, e);
    var yoe := 100 * c + 4 * k + j;
    DivIs(365 * (100 * c + 4 * k) + (t - e), 365, yoe);
    DivIs(yoe, 4, 25 * c + k);
    DivIs(yoe, 100, c);
    if t - 365 * j == 365 {
      DivIs(yoe + 1, 4, 25 * c + k + 1);
      DivIs(yoe + 1, 100, c);
    }
  }

  /** The divisions YearOfEra makes, for the day at offset t of block k of
      century c: e counts whether the day lies past the block's leap day as
      the 1460-day approximation sees it. */
  lemma EraQuotients(c: int, k: int, t: int) returns (e: int)
    requires 0 <= c <= 3 && 0 <= k <= 24 && 0 <= t <= 1460 && (k == 24 ==> t < 1460)
    ensures e == 0 || e == 1
    ensures e == 1 ==> t >= 1364
    ensures t == 1460 ==> e == 1
    ensures var doe := 36524 * c + 1461 * k + t;
            doe - doe / 1460 + doe / 36524 - doe / 146096 == 365 * (100 * c + 4 * k) + (t - e)
  {
    var doe := 36524 * c + 1461 * k + t;
    e := if 24 * c + k + t >= 1460 then 1 else 0;
    DivIs(doe, 1460, 25 * c + k + e);
    DivIs(doe, 36524, c);
    DivIs(doe, 146096, 0);
  }

  /** The year j within a 4-year block of the day at offset t. */
  lemma YearOfBlock(t: int, e: int) returns (j: int)
    requires 0 <= t <= 1460 && (e == 0 || e == 1) && (e == 1 ==> t >= 1364) && (t == 1460 ==> e == 1)
    ensures 0 <= j <= 3 && 365 * j <= t - e < 365 * j + 365
    ensures 0 <= t - 365 * j <= 365
    ensures t - 365 * j == 365 ==> t == 1460 && j == 3
  {
    j := if t - e < 365 then 0 else if t - e < 730 then 1 else if t - e < 1095 then 2 else 3;
  }

  /** The quotient of a division by one of the calendar's constants, from
      bounds on the dividend. */
  lemma DivIs(x: int, dv: int, q: int)
    requires dv == 4 || dv == 100 || dv == 365 || dv == 400 || dv == 1460 || dv == 36524 || dv == 146096
    requires dv * q <= x < dv * q + dv
    ensures x / dv == q && x % dv == x - dv * q
  {
    if dv == 4 {
    } else if dv == 100 {
    } else if dv == 365 {
    } else if dv == 400 {
    } else if dv == 1460 {
    } else if dv == 36524 {
    } else {
    }
  }

  /** The month (counted from March) and day of a day of a March-based year, as
      CivilFromDays computes them: a real day of that month, where February has
      a 29th only on day 365. */
  lemma MonthOfYear(doy: int)
    requires 0 <= doy <= 365
    ensures var mp := MonthOfDay(doy);
            var d := doy - MonthStart(mp) + 1;
            var m := if mp < 10 then mp + 3 else mp - 9;
            && 0 <= mp <= 11 && 1 <= d
            && (m != 2 ==> d <= DaysIn(m, 0))
            && (m == 2 ==> d <= 28 || (d == 29 && doy == 365))
  {
  }

  /** A leap year stays one 400 years later or earlier. */
  lemma LeapPeriodic(y: int, era: int)
    ensures IsLeap(y + 400 * era) == IsLeap(y)
  {
    var x := y + 400 * era;
    DivIs(x, 4, y / 4 + 100 * era);
    DivIs(x, 100, y / 100 + 4 * era);
    DivIs(x, 400, y / 400 + era);
  }

  /** Converting a day number to a date gives a valid date, and converting that
      date back gives the same day number. */
  lemma CivilRoundTrip(day: int)
    ensures var (y, m, d) := CivilFromDays(day);
            ValidDate(y, m, d) && DaysFromCivil(y, m, d) == day
  {
    var z := day + 719468;
    var era := z / 146097;
    var doe := z - era * 146097;
    YearOfEraSplit(doe);
    var yoe := YearOfEra(doe);
    var doy := doe - YearStart(yoe);
    DateOfYearDayBack(era, yoe, doy);
    assert CivilFromDays(day) == DateOfYearDay(era, yoe, doy);
    var (y, m, d) := DateOfYearDay(era, yoe, doy);
    assert DaysFromCivil(y, m, d) == era * 146097 + doe - 719468;
  }

  /** The date of a day of a year of an era is valid, and DaysFromCivil takes
      it back to that day. */
  lemma DateOfYearDayBack(era: int, yoe: int, doy: int)
    requires 0 <= yoe < 400 && 0 <= doy <= 365 && (doy == 365 ==> IsLeap(yoe + 1))
    ensures var (y, m, d) := DateOfYearDay(era, yoe, doy);
            ValidDate(y, m, d) && DaysFromCivil(y, m, d) == era * 146097 + YearStart(yoe) + doy - 719468
  {
    MonthOfYear(doy);
    var mp := MonthOfDay(doy);
    var m := if mp < 10 then mp + 3 else mp - 9;
    if m == 2 {
      LeapPeriodic(yoe + 1, era);
    }
    DivIs(yoe + era * 400, 400, era);
  }

  /** An integer as time.Format writes a year: at least four digits, a minus sign
      first when negative. */
  function FormatYear(y: int): string {
    if y < 0 then "-" + PadDecimal(-y, 4) else PadDecimal(y, 4)
  }

  /** The layout "2006-01-02". */
  function FormatDate(y: int, m: int, d: int): string {
    FormatYear(y) + "-" + PadDecimal(if m < 0 then 0 else m, 2) + "-" + PadDecimal(if d < 0 then 0 else d, 2)
  }

  /** The "2006-01-02" rendering of a day number. */
  function DateOfDay(day: int): string {
    var (y, m, d) := CivilFromDays(day);
    FormatDate(y, m, d)
  }

  /** time.Now().UTC().Format("2006-01-02") for a clock reading. */
  function UtcDate(nanos: int): string {
    DateOfDay(DayOf(nanos))
  }

  /** The shape of the layout "2006-01-02": four digits, a hyphen, two digits,
      a hyphen, two digits. */
  predicate DateShaped(s: string) {
    |s| == 10 && AllDigits(s[..4]) && s[4] == '-' && AllDigits(s[5..7]) && s[7] == '-' && AllDigits(s[8..])
  }

  /** time.Parse("2006-01-02", s) as a day number: none when s does not have the
      layout, the month is not 1 to 12 or the day does not exist in that month. */
  function ParseDate(s: string): Option<int> {
    if !DateShaped(s) then None
    else
      var y, m, d := DecimalValue(s[..4]), DecimalValue(s[5..7]), DecimalValue(s[8..]);
      if ValidDate(y, m, d) then Some(DaysFromCivil(y, m, d)) else None
  }

  /** Parsing a formatted date with a four-digit year gives back its day number. */
  lemma ParseFormatDate(y: int, m: int, d: int)
    requires 0 <= y <= 9999 && ValidDate(y, m, d)
    ensures DateShaped(FormatDate(y, m, d))
    ensures ParseDate(FormatDate(y, m, d)) == Some(DaysFromCivil(y, m, d))
  {
    var ys, ms, ds := PadDecimal(y, 4), PadDecimal(m, 2), PadDecimal(d, 2);
    PadLength(y, 4);
    PadLength(m, 2);
    PadLength(d, 2);
    DecimalValueOfPad(y, 4);
    DecimalValueOfPad(m, 2);
    DecimalValueOfPad(d, 2);
    var s := FormatDate(y, m, d);
    assert s == ys + "-" + ms + "-" + ds;
    assert s[..4] == ys && s[5..7] == ms && s[8..] == ds;
  }

  /** The date written for a day (in the years 0 to 9999) parses back to that
      day. */
  lemma ParseDateOfDay(day: int)
    requires 0 <= CivilFromDays(day).0 <= 9999
    ensures DateShaped(DateOfDay(day))
    ensures ParseDate(DateOfDay(day)) == Some(day)
  {
    var (y, m, d) := CivilFromDays(day);
    CivilRoundTrip(day);
    ParseFormatDate(y, m, d);
  }

  /** A name can have the layout and still hold no date: the month 13 and the
      29th of February of a common year are rejected. */
  lemma ParseRejectsMissingDates()
    ensures ParseDate("2024-13-01") == None
    ensures ParseDate("2023-02-29") == None
  {
    DigitStrings();
    var a, b := "2024-13-01", "2023-02-29";
    assert a[5..7] == "13";
    assert b[..4] == "2023" && b[5..7] == "02" && b[8..] == "29";
    assert !ValidDate(DecimalValue(a[..4]), DecimalValue(a[5..7]), DecimalValue(a[8..]));
    assert !IsLeap(2023) && DaysIn(2, 2023) == 28;
  }

  /** The values of the digit strings above, one digit at a time. */
  lemma DigitStrings()
    ensures DecimalValue("13") == 13 && DecimalValue("02") == 2 && DecimalValue("29") == 29
    ensures DecimalValue("2023") == 2023
  {
    assert "1"[..0] == [] && "0"[..0] == [] && "2"[..0] == [];
    assert DecimalValue("1") == 1 && DecimalValue("0") == 0 && DecimalValue("2") == 2;
    assert "13"[..1] == "1" && "02"[..1] == "0" && "29"[..1] == "2" && "20"[..1] == "2";
    assert DecimalValue("20") == 20;
    assert "202"[..2] == "20";
    assert DecimalValue("202") == 202;
    assert "2023"[..3] == "202";
  }

  /** The RFC 3339 rendering (section 5.6 of RFC 3339) of an instant in UTC, to
      the second; the zero time.Time is 0001-01-01T00:00:00Z. */
  function Rfc3339(t: Time): string {
    match t
    case ZeroTime => "0001-01-01T00:00:00Z"
    case At(nanos) =>
      var secs := (nanos % NanosPerDay) / NanosPerSecond;
      UtcDate(nanos) + "T" + PadDecimal(secs / 3600, 2) + ":" + PadDecimal(secs % 3600 / 60, 2)
        + ":" + PadDecimal(secs % 60, 2) + "Z"
  }
}
