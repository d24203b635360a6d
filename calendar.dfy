/**
 * `days_to_string` (Howard Hinnant's civil_from_days on the proleptic Gregorian calendar,
 * rendered as DD-MM-Y) and the memo text that `log_claim` builds from it.
 */
module Calendar {
  import opened Types

  /** A civil date. */
  datatype Date = Date(year: int, month: int, day: int)

  /** Days from 0000-03-01 to 1970-01-01. */
  const EPOCH_SHIFT: int := 719468

  /** The era (400-year block starting on March 1st) holding the shifted day `z`. */
  function EraOf(z: int): int
  {
    CDiv(if z >= 0 then z else z - 146096, 146097)
  }

  /** The day of the era, `doe`. */
  function DayOfEra(z: int): int
  {
    z - EraOf(z) * 146097
  }

  /** The year of the era, `yoe`. */
  function YearOfEra(doe: int): int
  {
    (doe - doe / 1460 + doe / 36524 - doe / 146096) / 365
  }

  /** The first day of year `yoe` of an era, counted from the start of the era. */
  function YearStart(yoe: int): int
  {
    365 * yoe + yoe / 4 - yoe / 100
  }

  /** The month counted from March, `mp`. */
  function MonthFromMarch(doy: int): int
  {
    (5 * doy + 2) / 153
  }

  /** The first day of March-based month `mp` as a day of the year. */
  function MonthStart(mp: int): int
  {
    (153 * mp + 2) / 5
  }

  /** The civil month of March-based month `mp`. */
  function CivilMonth(mp: int): int
  {
    if mp < 10 then mp + 3 else mp - 9
  }

  /** The civil date on day `doy` of the March-based year `y` (which ends in February of y + 1). */
  function DateOfMarchYear(y: int, doy: int): Date
  {
    var mp := MonthFromMarch(doy);
    var m := CivilMonth(mp);
    Date(y + (if m <= 2 then 1 else 0), m, doy - MonthStart(mp) + 1)
  }

  /** The date arithmetic of `days_to_string`: day `days` since 1970-01-01 as a civil date. */
  function CivilFromDays(days: int): Date
  {
    var z := days + EPOCH_SHIFT;
    var era := EraOf(z);
    var doe := DayOfEra(z);
    var yoe := YearOfEra(doe);
    DateOfMarchYear(yoe + era * 400, doe - YearStart(yoe))
  }

  /** Gregorian leap years. */
  predicate IsLeap(y: int)
  {
    y % 4 == 0 && (y % 100 != 0 || y % 400 == 0)
  }

  function DaysInMonth(y: int, m: int): int
    requires 1 <= m <= 12
  {
    if m == 2 then (if IsLeap(y) then 29 else 28)
    else if m == 4 || m == 6 || m == 9 || m == 11 then 30
    else 31
  }

  /** The day of an era as centuries, four-year blocks, years and days. */
  lemma EraParts(doe: int) returns (c: int, q: int, yy: int, dd: int)
    requires 0 <= doe < 146096
    ensures doe == 36524 * c + 1461 * q + 365 * yy + dd
    ensures 0 <= c <= 3 && 0 <= q <= 24 && 0 <= yy <= 4 && 0 <= dd <= 364
    ensures yy == 4 ==> dd == 0 && q <= 23
  {
    var r1, r2;
    c, r1 := doe / 36524, doe % 36524;
    q, r2 := r1 / 1461, r1 % 1461;
    yy, dd := r2 / 365, r2 % 365;
  }

  /**
   * The year of the era is the one whose span holds the day: its day of the year is
   * in [0, 365], and day 365 only exists when the year ends with a February 29th.
   */
  lemma YearOfEraFits(doe: int)
    requires 0 <= doe <= 146096
    ensures 0 <= YearOfEra(doe) <= 399
    ensures 0 <= doe - YearStart(YearOfEra(doe)) <= 365
    ensures doe - YearStart(YearOfEra(doe)) == 365 ==>
              var next := YearOfEra(doe) + 1;
              next % 4 == 0 && (next % 100 != 0 || next == 400)
  {
    if doe == 146096 {
      assert YearOfEra(doe) == 399;
      assert YearStart(399) == 145731;
    } else {
      var c, q, yy, dd := EraParts(doe);
      var s := 24 * c + q + 365 * yy + dd;
      assert doe == 1460 * (25 * c + q) + s;
      assert doe / 1460 == 25 * c + q + (if s >= 1460 then 1 else 0);
      assert doe / 36524 == c;
      assert doe / 146096 == 0;
      var y3 := if yy == 4 then 3 else yy;
      var yoe := 100 * c + 4 * q + y3;
      var b := if s >= 1460 then 1 else 0;
      assert doe - doe / 1460 + doe / 36524 - doe / 146096 == 365 * (100 * c + 4 * q) + (365 * yy + dd - b);
      assert 0 <= 365 * yy + dd - b - 365 * y3 < 365 by {
        if yy == 4 { assert b == 1; } else if dd == 0 { assert b == 0; }
      }
      assert YearOfEra(doe) == yoe;
      assert YearStart(yoe) == 36524 * c + 1461 * q + 365 * y3 by {
        assert yoe / 4 == 25 * c + q;
        assert yoe / 100 == c;
      }
      if yy == 4 {
        var next := yoe + 1;
        assert next == 4 * (25 * c + q + 1);
        assert next == 100 * c + (4 * q + 4);
      }
    }
  }

  /** Day `doy` of a March-based year falls in month `mp`, on a day that month has. */
  lemma MonthOfDayOfYear(doy: int)
    requires 0 <= doy <= 365
    ensures var mp := MonthFromMarch(doy);
            var d := doy - MonthStart(mp) + 1;
            && 0 <= mp <= 11
            && 1 <= d <= (if mp == 11 then 29 else if mp in {1, 3, 6, 8} then 30 else 31)
            && (mp == 11 && d == 29 ==> doy == 365)
  {
    var mp := MonthFromMarch(doy);
    assert 153 * mp <= 5 * doy + 2 < 153 * mp + 153;
    assert 0 <= mp <= 11;
    if mp == 0 { assert MonthStart(mp) == 0; }
    else if mp == 1 { assert MonthStart(mp) == 31; }
    else if mp == 2 { assert MonthStart(mp) == 61; }
    else if mp == 3 { assert MonthStart(mp) == 92; }
    else if mp == 4 { assert MonthStart(mp) == 122; }
    else if mp == 5 { assert MonthStart(mp) == 153; }
    else if mp == 6 { assert MonthStart(mp) == 184; }
    else if mp == 7 { assert MonthStart(mp) == 214; }
    else if mp == 8 { assert MonthStart(mp) == 245; }
    else if mp == 9 { assert MonthStart(mp) == 275; }
    else if mp == 10 { assert MonthStart(mp) == 306; }
    else { assert MonthStart(mp) == 337; }
  }

  /**
   * The intermediate values of `days_to_string` stay in the ranges its comments give:
   * doe in [0, 146096], yoe in [0, 399], doy in [0, 365], mp in [0, 11], day in [1, 31],
   * month in [1, 12], and the year is y + (m <= 2).
   */
  lemma CivilRanges(days: int) returns (era: int, doe: int, yoe: int, doy: int, mp: int)
    ensures days + EPOCH_SHIFT == era * 146097 + doe
    ensures 0 <= doe <= 146096 && yoe == YearOfEra(doe) && 0 <= yoe <= 399
    ensures doy == doe - YearStart(yoe) && 0 <= doy <= 365
    ensures mp == MonthFromMarch(doy) && 0 <= mp <= 11
    ensures 1 <= doy - MonthStart(mp) + 1 <= 31 && 1 <= CivilMonth(mp) <= 12
    ensures CivilFromDays(days) == DateOfMarchYear(yoe + era * 400, doy)
  {
    var z := days + EPOCH_SHIFT;
    era := EraOf(z);
    doe := DayOfEra(z);
    yoe := YearOfEra(doe);
    doy := doe - YearStart(yoe);
    mp := MonthFromMarch(doy);
    assert CivilFromDays(days) == DateOfMarchYear(yoe + era * 400, doy);
    assert era == z / 146097;
    YearOfEraFits(doe);
    MonthOfDayOfYear(doy);
  }

  /** A leap year of the era is a leap year of the calendar. */
  lemma LeapEra(era: int, k: int)
    requires 1 <= k <= 400
    requires k % 4 == 0 && (k % 100 != 0 || k == 400)
    ensures IsLeap(era * 400 + k)
  {
    var y := era * 400 + k;
    assert y == 4 * (era * 100 + k / 4);
    if k == 400 {
      assert y == 400 * (era + 1);
    } else {
      assert y == 100 * (era * 4) + k;
    }
  }

  /** Day `doy` of year `yoe` of an era is a valid date, given that day 365 only exists before a leap day. */
  lemma MarchYearDateIsValid(era: int, yoe: int, doy: int)
    requires 0 <= yoe <= 399 && 0 <= doy <= 365
    requires doy == 365 ==> (yoe + 1) % 4 == 0 && ((yoe + 1) % 100 != 0 || yoe + 1 == 400)
    ensures var date := DateOfMarchYear(yoe + era * 400, doy);
            1 <= date.month <= 12 && 1 <= date.day <= DaysInMonth(date.year, date.month)
  {
    MonthOfDayOfYear(doy);
    var mp := MonthFromMarch(doy);
    if mp == 11 && doy == 365 {
      LeapEra(era, yoe + 1);
      assert DateOfMarchYear(yoe + era * 400, doy).year == era * 400 + (yoe + 1);
    }
  }

  /** Every day number renders as a valid Gregorian date. */
  lemma CivilDateIsValid(days: int)
    ensures var date := CivilFromDays(days);
            1 <= date.month <= 12 && 1 <= date.day <= DaysInMonth(date.year, date.month)
  {
    var era, doe, yoe, doy, mp := CivilRanges(days);
    YearOfEraFits(doe);
    MarchYearDateIsValid(era, yoe, doy);
  }

  /** Hinnant's days_from_civil, the inverse of the conversion: a reference definition. */
  function DaysFromCivil(date: Date): int
  {
    var y := date.year - (if date.month <= 2 then 1 else 0);
    var era := CDiv(if y >= 0 then y else y - 399, 400);
    var yoe := y - era * 400;
    var mp := if date.month > 2 then date.month - 3 else date.month + 9;
    var doy := MonthStart(mp) + date.day - 1;
    era * 146097 + YearStart(yoe) + doy - EPOCH_SHIFT
  }

  /** days_from_civil finds the era of a year the way civil_from_days numbered it. */
  lemma EraFromYear(era: int, yoe: int)
    requires 0 <= yoe <= 399
    ensures var y := yoe + era * 400; CDiv(if y >= 0 then y else y - 399, 400) == era
  {
    var y := yoe + era * 400;
    if y < 0 {
      assert 399 - y == 400 * (-era) + (399 - yoe);
    }
  }

  /** days_from_civil counts back to day `doy` of year `yoe` of the era. */
  lemma DaysFromMarchYear(era: int, yoe: int, doy: int)
    requires 0 <= yoe <= 399 && 0 <= doy <= 365
    ensures DaysFromCivil(DateOfMarchYear(yoe + era * 400, doy))
              == era * 146097 + YearStart(yoe) + doy - EPOCH_SHIFT
  {
    MonthOfDayOfYear(doy);
    var mp := MonthFromMarch(doy);
    var m := CivilMonth(mp);
    var date := DateOfMarchYear(yoe + era * 400, doy);
    assert date.month == m && date.day == doy - MonthStart(mp) + 1;
    assert date.year - (if date.month <= 2 then 1 else 0) == yoe + era * 400;
    EraFromYear(era, yoe);
    assert (if m > 2 then m - 3 else m + 9) == mp;
  }

  /** Different day numbers render as different dates: days_from_civil undoes the conversion. */
  lemma CivilRoundTrip(days: int)
    ensures DaysFromCivil(CivilFromDays(days)) == days
  {
    var era, doe, yoe, doy, mp := CivilRanges(days);
    DaysFromMarchYear(era, yoe, doy);
  }

  // ---- decimal rendering (std::to_string) ----

  function DigitChar(n: int): char
    requires 0 <= n <= 9
  {
    ('0' as int + n) as char
  }

  predicate IsDigit(c: char)
  {
    '0' <= c <= '9'
  }

  /** `std::to_string` of a non-negative integer: its decimal digits, no leading zero. */
  function NatToString(n: nat): (s: string)
    ensures 1 <= |s|
    ensures forall i :: 0 <= i < |s| ==> IsDigit(s[i])
    ensures (|s| == 1) == (n < 10)
    ensures n >= 10 ==> s[0] != '0'
  {
    if n < 10 then [DigitChar(n)] else NatToString(n / 10) + [DigitChar(n % 10)]
  }

  /** `std::to_string` of a signed integer. */
  function IntToString(n: int): string
  {
    if n < 0 then "-" + NatToString(-n) else NatToString(n)
  }

  /** The number a string of decimal digits denotes. */
  function DecimalValue(s: string): int
  {
    if s == [] then 0 else 10 * DecimalValue(s[..|s| - 1]) + (s[|s| - 1] as int - '0' as int)
  }

  /** Reads back what IntToString writes. */
  function ParseInt(s: string): int
  {
    if |s| > 0 && s[0] == '-' then -DecimalValue(s[1..]) else DecimalValue(s)
  }

  lemma {:induction false} NatToStringRoundTrip(n: nat)
    ensures DecimalValue(NatToString(n)) == n
  {
    if n >= 10 {
      NatToStringRoundTrip(n / 10);
      var s := NatToString(n);
      assert s[..|s| - 1] == NatToString(n / 10);
    }
  }

  lemma IntToStringRoundTrip(n: int)
    ensures ParseInt(IntToString(n)) == n
  {
    if n < 0 {
      NatToStringRoundTrip(-n);
      assert IntToString(n)[1..] == NatToString(-n);
    } else {
      NatToStringRoundTrip(n);
    }
  }

  /** The zero padding of `days_to_string`: a one-digit rendering gets a leading '0'. */
  function Pad2(n: nat): (s: string)
    requires n <= 99
    ensures |s| == 2 && IsDigit(s[0]) && IsDigit(s[1])
    ensures DecimalValue(s) == n
  {
    var t := NatToString(n);
    NatToStringRoundTrip(n);
    if |t| == 1 then "0" + t else t
  }

  /** The string assembly of `days_to_string`. */
  function FormatDate(date: Date): string
    requires 0 <= date.day <= 99 && 0 <= date.month <= 99
  {
    Pad2(date.day) + "-" + Pad2(date.month) + "-" + IntToString(date.year)
  }

  /** Reads a DD-MM-Y string back into a date. */
  function ParseDate(s: string): Date
    requires |s| >= 6
  {
    Date(ParseInt(s[6..]), DecimalValue(s[3..5]), DecimalValue(s[..2]))
  }

  /** The rendering is DD-MM-Y with a two-digit day and month, and it reads back as the date. */
  lemma FormatDateParses(date: Date)
    requires 0 <= date.day <= 99 && 0 <= date.month <= 99
    ensures var s := FormatDate(date);
            && |s| >= 7 && s[2] == '-' && s[5] == '-'
            && IsDigit(s[0]) && IsDigit(s[1]) && IsDigit(s[3]) && IsDigit(s[4])
            && ParseDate(s) == date
  {
    var s := FormatDate(date);
    assert s[..2] == Pad2(date.day);
    assert s[3..5] == Pad2(date.month);
    assert s[6..] == IntToString(date.year);
    IntToStringRoundTrip(date.year);
  }

  /** `days_to_string`: the date of day `days`, as DD-MM-Y. */
  function DaysToString(days: int): string
  {
    CivilDateIsValid(days);
    FormatDate(CivilFromDays(days))
  }

  /** The rendered date identifies the day number it was made from. */
  lemma DaysToStringDecodes(days: int)
    ensures |DaysToString(days)| >= 7
    ensures DaysFromCivil(ParseDate(DaysToString(days))) == days
  {
    CivilDateIsValid(days);
    FormatDateParses(CivilFromDays(days));
    CivilRoundTrip(days);
  }

  /** The comment at dailycoin.hpp:127: day 18628 is January 1st, 2021. */
  lemma LastSignupRewardDayIsNewYear2021()
    ensures DaysToString(LAST_SIGNUP_REWARD_DAY as int) == "01-01-2021"
  {
    var era, doe, yoe, doy, mp := CivilRanges(18628);
    assert era == 5 && doe == 7611;
    assert yoe == 20;
    assert doy == 306;
    assert CivilFromDays(18628) == Date(2021, 1, 1) by {
      assert MonthFromMarch(306) == 10;
    }
    assert FormatDate(Date(2021, 1, 1)) == "01-01-2021" by {
      assert Pad2(1) == "01";
      assert IntToString(2021) == "2021" by {
        assert NatToString(20) == "20";
        assert NatToString(202) == "202";
      }
    }
  }

  lemma FourDigits(n: nat)
    requires 1000 <= n <= 9999
    ensures |NatToString(n)| == 4
  {
    assert |NatToString(n / 10)| == 3 by {
      assert |NatToString(n / 100)| == 2;
    }
  }

  /** Every day a `time_type` can name, plus one, falls in a four-digit year. */
  lemma DateStringLength(days: int)
    requires 1 <= days <= 0x1_0000
    ensures |DaysToString(days)| == 10
  {
    var era, doe, yoe, doy, mp := CivilRanges(days);
    var date := CivilFromDays(days);
    assert 1600 <= date.year <= 2400;
    FourDigits(date.year);
  }

  /** The part of the memo that reports lost days; empty when none were lost. */
  function LostDaysText(lostDays: TimeType): string
  {
    if lostDays > 0 then ", lost " + IntToString(lostDays) + " days of income." else ""
  }

  /** The memo of the "income" notification sent by `log_claim`. */
  function ClaimMemo(nextLastClaimDay: TimeType, lostDays: TimeType): string
  {
    "next on " + DaysToString(nextLastClaimDay + 1) + LostDaysText(lostDays)
  }

  /** The text layout of the memo around the date and the number of lost days. */
  lemma MemoLayout(date: string, lostDays: TimeType)
    requires |date| == 10
    ensures var memo := "next on " + date + LostDaysText(lostDays);
            && memo[..8] == "next on " && memo[8..18] == date
            && (lostDays == 0 <==> |memo| == 18)
            && (lostDays > 0 ==>
                  && |memo| > 18 + 7 + 16
                  && memo[18..25] == ", lost "
                  && DecimalValue(memo[25..|memo| - 16]) == lostDays
                  && memo[|memo| - 16..] == " days of income.")
  {
    var head := "next on " + date;
    assert head[..8] == "next on " && head[8..18] == date;
    if lostDays > 0 {
      var digits := NatToString(lostDays);
      NatToStringRoundTrip(lostDays);
      var tail := ", lost " + digits + " days of income.";
      assert tail == LostDaysText(lostDays);
      var memo := head + tail;
      assert memo[..18] == head;
      assert tail[..7] == ", lost ";
      assert tail[7..|tail| - 16] == digits;
      assert tail[|tail| - 16..] == " days of income.";
      assert memo[18..] == tail;
      assert memo[25..|memo| - 16] == digits;
    }
  }

  /** The memo names the rendered day after the new last claim day, and the lost days exactly when there are any. */
  lemma ClaimMemoReports(nextLastClaimDay: TimeType, lostDays: TimeType)
    ensures var memo := ClaimMemo(nextLastClaimDay, lostDays);
            && |memo| >= 18
            && memo[..8] == "next on "
            && memo[8..18] == DaysToString(nextLastClaimDay + 1)
            && (lostDays == 0 <==> |memo| == 18)
            && (lostDays > 0 ==>
                  && |memo| > 18 + 7 + 16
                  && memo[18..25] == ", lost "
                  && DecimalValue(memo[25..|memo| - 16]) == lostDays
                  && memo[|memo| - 16..] == " days of income.")
  {
    DateStringLength(nextLastClaimDay + 1);
    MemoLayout(DaysToString(nextLastClaimDay + 1), lostDays);
  }
}
