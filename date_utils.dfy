/**
 * Date arithmetic of the tracker (src/utils/dateUtils.ts).
 *
 * A `YYYY-MM-DD` string is modelled as a `Date` triple. Parsing such a string with
 * `new Date(...)` gives UTC midnight of that calendar day, i.e. `Timestamp(d)`
 * milliseconds since the epoch. The wall clock is not read: "now" (an instant in
 * milliseconds) and "today" (the local calendar date) are parameters.
 */
module DateUtils {
  import opened Wrappers

  /** Milliseconds in a day: the divisor of `calculateDaysBetween`. */
  const MsPerDay: int := 86400000

  /** Days from 0001-01-01 to 1970-01-01 in the proleptic Gregorian calendar. */
  const EpochDays: int := 719162

  /** A calendar date; `month` is 1-based. */
  datatype Date = Date(year: int, month: int, day: int)

  predicate IsLeapYear(y: int) {
    y % 4 == 0 && (y % 100 != 0 || y % 400 == 0)
  }

  function DaysInYear(y: int): int {
    if IsLeapYear(y) then 366 else 365
  }

  function DaysInMonth(y: int, m: int): int {
    if m == 2 then (if IsLeapYear(y) then 29 else 28)
    else if m == 4 || m == 6 || m == 9 || m == 11 then 30
    else 31
  }

  /** A real calendar date: month 1..12 and a day that exists in that month. */
  predicate ValidDate(d: Date) {
    1 <= d.month <= 12 && 1 <= d.day <= DaysInMonth(d.year, d.month)
  }

  /** Days from 0001-01-01 to the first day of year `y`. */
  function DaysBeforeYear(y: int): int {
    var p := y - 1;
    365 * p + p / 4 - p / 100 + p / 400
  }

  /** Days from the first of January of `y` to the first day of month `m`. */
  function DaysBeforeMonth(y: int, m: int): int {
    var common :=
      if m <= 1 then 0 else if m == 2 then 31 else if m == 3 then 59
      else if m == 4 then 90 else if m == 5 then 120 else if m == 6 then 151
      else if m == 7 then 181 else if m == 8 then 212 else if m == 9 then 243
      else if m == 10 then 273 else if m == 11 then 304 else 334;
    common + (if m > 2 && IsLeapYear(y) then 1 else 0)
  }

  /** Days since 1970-01-01 (negative before it). */
  function DayNumber(d: Date): (r: int)
    ensures d == Date(1970, 1, 1) ==> r == 0
    ensures ValidDate(d) ==> 0 <= r - (DaysBeforeYear(d.year) - EpochDays) < DaysInYear(d.year)
  {
    var n := DaysBeforeYear(d.year) + DaysBeforeMonth(d.year, d.month) + d.day - 1 - EpochDays;
    if ValidDate(d) then (DayOfYearBounds(d); n) else n
  }

  /** `new Date("YYYY-MM-DD").getTime()`: UTC midnight of the day, in milliseconds. */
  function Timestamp(d: Date): int
  {
    DayNumber(d) * MsPerDay
  }

  /** Calendar (lexicographic year, month, day) order: `a` is strictly earlier than `b`. */
  predicate DateBefore(a: Date, b: Date) {
    a.year < b.year || (a.year == b.year && (a.month < b.month || (a.month == b.month && a.day < b.day)))
  }

  /** The calendar day after `d`. */
  function NextDay(d: Date): Date {
    if d.day < DaysInMonth(d.year, d.month) then Date(d.year, d.month, d.day + 1)
    else if d.month < 12 then Date(d.year, d.month + 1, 1)
    else Date(d.year + 1, 1, 1)
  }

  // ---------------------------------------------------------------------------
  // The day-number scale agrees with the calendar.

  lemma DivStep4(q: int)
    ensures q / 4 - (q - 1) / 4 == if q % 4 == 0 then 1 else 0
  {
  }

  lemma DivStep100(q: int)
    ensures q / 100 - (q - 1) / 100 == if q % 100 == 0 then 1 else 0
  {
  }

  lemma DivStep400(q: int)
    ensures q / 400 - (q - 1) / 400 == if q % 400 == 0 then 1 else 0
  {
  }

  /** Consecutive years start `DaysInYear` days apart. */
  lemma YearLength(y: int)
    ensures DaysBeforeYear(y + 1) == DaysBeforeYear(y) + DaysInYear(y)
  {
    DivStep4(y);
    DivStep100(y);
    DivStep400(y);
    if y % 400 == 0 {
      Century400(y);
    } else if y % 100 == 0 {
      Century100(y);
    }
  }

  /** A multiple of 400 is a multiple of 100 and of 4. */
  lemma Century400(y: int)
    requires y % 400 == 0
    ensures y % 100 == 0 && y % 4 == 0
  {
    var q := y / 400;
    assert y == 100 * (4 * q);
    assert y == 4 * (100 * q);
  }

  /** A multiple of 100 is a multiple of 4. */
  lemma Century100(y: int)
    requires y % 100 == 0
    ensures y % 4 == 0
  {
    var q := y / 100;
    assert y == 4 * (25 * q);
  }

  /** The next calendar day is a real date, exactly one day number later. */
  lemma NextDayNumber(d: Date)
    requires ValidDate(d)
    ensures ValidDate(NextDay(d))
    ensures DayNumber(NextDay(d)) == DayNumber(d) + 1
  {
    if d.day == DaysInMonth(d.year, d.month) && d.month == 12 {
      YearLength(d.year);
    }
  }

  /** A valid date's offset within its year lies in [0, DaysInYear). */
  lemma DayOfYearBounds(d: Date)
    requires ValidDate(d)
    ensures 0 <= DaysBeforeMonth(d.year, d.month) + d.day - 1 < DaysInYear(d.year)
  {
  }

  /** Earlier months of a year end no later than later months begin. */
  lemma MonthOrder(y: int, m1: int, m2: int)
    requires 1 <= m1 < m2 <= 12
    ensures DaysBeforeMonth(y, m1) + DaysInMonth(y, m1) <= DaysBeforeMonth(y, m2)
  {
  }

  /** Earlier years end no later than later years begin. */
  lemma {:induction false} YearOrder(y1: int, y2: int)
    requires y1 < y2
    ensures DaysBeforeYear(y1) + DaysInYear(y1) <= DaysBeforeYear(y2)
    decreases y2 - y1
  {
    YearLength(y1);
    if y1 + 1 < y2 {
      YearOrder(y1 + 1, y2);
    }
  }

  /** On valid dates, the day-number order is the calendar order. */
  lemma DayNumberOrder(a: Date, b: Date)
    requires ValidDate(a) && ValidDate(b)
    ensures DateBefore(a, b) <==> DayNumber(a) < DayNumber(b)
  {
    DayOfYearBounds(a);
    DayOfYearBounds(b);
    if a.year < b.year {
      YearOrder(a.year, b.year);
    } else if b.year < a.year {
      YearOrder(b.year, a.year);
    } else if a.month < b.month {
      MonthOrder(a.year, a.month, b.month);
    } else if b.month < a.month {
      MonthOrder(a.year, b.month, a.month);
    }
  }

  /** Distinct valid dates have distinct day numbers. */
  lemma DayNumberInjective(a: Date, b: Date)
    requires ValidDate(a) && ValidDate(b)
    requires DayNumber(a) == DayNumber(b)
    ensures a == b
  {
    DayNumberOrder(a, b);
    DayNumberOrder(b, a);
  }

  // ---------------------------------------------------------------------------
  // calculateDaysBetween, calculateDaysHeld, formatCurrentDate

  /**
   * `calculateDaysBetween(startDate, endDate?)`: whole days from start to end, rounded
   * toward negative infinity, never clamped. An absent (or empty) end date means the
   * instant `nowMs`. Dafny's `/` with a positive divisor is floor division, as `Math.floor` is.
   */
  function CalculateDaysBetween(startDate: Date, endDate: Option<Date>, nowMs: int): (r: int)
    ensures var span := (if endDate.Some? then Timestamp(endDate.value) else nowMs) - Timestamp(startDate);
            r * MsPerDay <= span < r * MsPerDay + MsPerDay
  {
    var endMs := if endDate.Some? then Timestamp(endDate.value) else nowMs;
    (endMs - Timestamp(startDate)) / MsPerDay
  }

  /** Between two date-only values the count is the exact difference of day numbers. */
  lemma DaysBetweenDates(s: Date, e: Date, nowMs: int)
    ensures CalculateDaysBetween(s, Some(e), nowMs) == DayNumber(e) - DayNumber(s)
  {
    var r := CalculateDaysBetween(s, Some(e), nowMs);
    var k := DayNumber(e) - DayNumber(s);
    assert Timestamp(e) - Timestamp(s) == k * MsPerDay;
    assert r * MsPerDay <= k * MsPerDay < r * MsPerDay + MsPerDay;
  }

  /** The same date gives 0 days. */
  lemma DaysBetweenSameDate(d: Date, nowMs: int)
    ensures CalculateDaysBetween(d, Some(d), nowMs) == 0
  {
    DaysBetweenDates(d, d, nowMs);
  }

  /** No clamping: an end before the start gives a negative count, an end after it a positive one. */
  lemma DaysBetweenSign(s: Date, e: Date, nowMs: int)
    requires ValidDate(s) && ValidDate(e)
    ensures DateBefore(e, s) ==> CalculateDaysBetween(s, Some(e), nowMs) < 0
    ensures DateBefore(s, e) ==> CalculateDaysBetween(s, Some(e), nowMs) > 0
  {
    DaysBetweenDates(s, e, nowMs);
    DayNumberOrder(e, s);
    DayNumberOrder(s, e);
  }

  /** One calendar day apart counts as exactly one day. */
  lemma DaysBetweenNextDay(d: Date, nowMs: int)
    requires ValidDate(d)
    ensures CalculateDaysBetween(d, Some(NextDay(d)), nowMs) == 1
  {
    DaysBetweenDates(d, NextDay(d), nowMs);
    NextDayNumber(d);
  }

  /** Day counts add up along a chain of dates. */
  lemma DaysBetweenAdditive(a: Date, b: Date, c: Date, nowMs: int)
    ensures CalculateDaysBetween(a, Some(b), nowMs) + CalculateDaysBetween(b, Some(c), nowMs)
         == CalculateDaysBetween(a, Some(c), nowMs)
  {
    DaysBetweenDates(a, b, nowMs);
    DaysBetweenDates(b, c, nowMs);
    DaysBetweenDates(a, c, nowMs);
  }

  /** Swapping start and end negates the count. */
  lemma DaysBetweenAntisymmetric(a: Date, b: Date, nowMs: int)
    ensures CalculateDaysBetween(a, Some(b), nowMs) == -CalculateDaysBetween(b, Some(a), nowMs)
  {
    DaysBetweenDates(a, b, nowMs);
    DaysBetweenDates(b, a, nowMs);
  }

  /** The fields of a position that `calculateDaysHeld` looks at. */
  datatype Holding = Holding(purchaseDate: Date, redeemed: bool, redemptionDate: Option<Date>)

  /** The end of the holding period: the redemption date when redeemed with one set, else today. */
  function HoldingEnd(h: Holding, today: Date): Date
  {
    if h.redeemed && h.redemptionDate.Some? then h.redemptionDate.value else today
  }

  /**
   * `calculateDaysHeld(product)`: 0 for an absent product, otherwise the days from the
   * purchase date to the end of the holding period. The end date is always supplied,
   * so the instant "now" of `CalculateDaysBetween` is never consulted.
   */
  function CalculateDaysHeld(product: Option<Holding>, today: Date): (r: int)
    ensures product.None? ==> r == 0
    ensures product.Some? && product.value.redeemed && product.value.redemptionDate.Some? ==>
              r == DayNumber(product.value.redemptionDate.value) - DayNumber(product.value.purchaseDate)
    ensures product.Some? && !(product.value.redeemed && product.value.redemptionDate.Some?) ==>
              r == DayNumber(today) - DayNumber(product.value.purchaseDate)
  {
    match product
    case None => 0
    case Some(h) =>
      var end := HoldingEnd(h, today);
      DaysBetweenDates(h.purchaseDate, end, 0);
      CalculateDaysBetween(h.purchaseDate, Some(end), 0)
  }

  // Decimal text, as produced by `String(n)` and `padStart(2, '0')`.

  predicate IsDigit(c: char) {
    '0' <= c <= '9'
  }

  predicate AllDigits(s: string) {
    forall i :: 0 <= i < |s| ==> IsDigit(s[i])
  }

  function DigitChar(n: int): (c: char)
    requires 0 <= n < 10
    ensures IsDigit(c) && c as int - '0' as int == n
  {
    ('0' as int + n) as char
  }

  /** The number a string of decimal digits denotes. */
  function DigitsValue(s: string): nat
    requires AllDigits(s)
  {
    if s == [] then 0 else DigitsValue(s[..|s| - 1]) * 10 + (s[|s| - 1] as int - '0' as int)
  }

  /** `String(n)` for a natural number: digits without leading zeros that denote `n`. */
  function NatToDecimal(n: nat): (s: string)
    ensures 1 <= |s| && AllDigits(s) && DigitsValue(s) == n
    ensures |s| > 1 ==> s[0] != '0'
    ensures n < 10 ==> |s| == 1
    ensures 10 <= n < 100 ==> |s| == 2
  {
    if n < 10 then [DigitChar(n)]
    else
      var s := NatToDecimal(n / 10) + [DigitChar(n % 10)];
      assert s[..|s| - 1] == NatToDecimal(n / 10);
      s
  }

  function Repeat(c: char, n: nat): (s: string)
    ensures |s| == n && forall i :: 0 <= i < n ==> s[i] == c
  {
    if n == 0 then [] else [c] + Repeat(c, n - 1)
  }

  /** `s.padStart(len, c)` with a one-character pad: `c` repeated in front up to length `len`. */
  function PadStart(s: string, len: nat, c: char): (r: string)
    ensures |r| == if |s| >= len then |s| else len
    ensures r[|r| - |s|..] == s
    ensures forall i :: 0 <= i < |r| - |s| ==> r[i] == c
  {
    if |s| >= len then s else Repeat(c, len - |s|) + s
  }

  /** Leading zeros do not change the value of a digit string. */
  lemma {:induction false} LeadingZeros(z: nat, s: string)
    requires AllDigits(s)
    ensures AllDigits(Repeat('0', z) + s)
    ensures DigitsValue(Repeat('0', z) + s) == DigitsValue(s)
    decreases |s|
  {
    var t := Repeat('0', z) + s;
    if s == [] {
      assert t == Repeat('0', z);
      ZerosValue(z);
    } else {
      assert t[..|t| - 1] == Repeat('0', z) + s[..|s| - 1];
      LeadingZeros(z, s[..|s| - 1]);
    }
  }

  lemma {:induction false} ZerosValue(z: nat)
    ensures AllDigits(Repeat('0', z)) && DigitsValue(Repeat('0', z)) == 0
  {
    if z > 0 {
      var t := Repeat('0', z);
      assert t[..|t| - 1] == Repeat('0', z - 1) by {
        RepeatSplit(z);
      }
      ZerosValue(z - 1);
    }
  }

  lemma RepeatSplit(z: nat)
    requires z > 0
    ensures Repeat('0', z)[..z - 1] == Repeat('0', z - 1)
  {
  }

  /** A month or day number (1..99) padded to two digits. */
  function TwoDigits(n: int): (s: string)
    requires 1 <= n < 100
    ensures |s| == 2 && AllDigits(s) && DigitsValue(s) == n
  {
    var d := NatToDecimal(n);
    var s := PadStart(d, 2, '0');
    assert s == Repeat('0', 2 - |d|) + d;
    LeadingZeros(2 - |d|, d);
    s
  }

  /** `String(year)`: a minus sign for negative years, then the digits. */
  function YearText(y: int): (s: string)
    ensures 1 <= |s|
    ensures y >= 0 ==> AllDigits(s) && DigitsValue(s) == y
    ensures y < 0 ==> |s| >= 2 && s[0] == '-' && AllDigits(s[1..]) && DigitsValue(s[1..]) == -y
  {
    if y < 0 then
      var d := NatToDecimal(-y);
      assert ("-" + d)[1..] == d;
      "-" + d
    else NatToDecimal(y)
  }

  /** Where the three fields of `y-mm-dd` sit in the joined text. */
  lemma DashedFields(y: string, m: string, d: string, month: int, day: int)
    requires |m| == 2 && AllDigits(m) && DigitsValue(m) == month
    requires |d| == 2 && AllDigits(d) && DigitsValue(d) == day
    ensures var r := y + "-" + m + "-" + d;
      && |r| == |y| + 6
      && r[..|y|] == y && r[|y|] == '-' && r[|y| + 3] == '-'
      && AllDigits(r[|y| + 1..|y| + 3]) && DigitsValue(r[|y| + 1..|y| + 3]) == month
      && AllDigits(r[|y| + 4..]) && DigitsValue(r[|y| + 4..]) == day
  {
    var head := y + "-" + m;
    var r := head + "-" + d;
    assert r[..|head|] == head;
    assert r[..|y|] == head[..|y|];
    assert r[|y| + 1..|y| + 3] == head[|y| + 1..] == m;
    assert r[|y| + 4..] == d;
  }

  /**
   * `formatCurrentDate()` for the local date `today`: the year as written by `String`,
   * then the 1-based month and the day, each exactly two digits, joined by '-'.
   */
  function FormatCurrentDate(today: Date): (r: string)
    requires ValidDate(today)
    ensures var n := |YearText(today.year)|;
      && |r| == n + 6
      && r[..n] == YearText(today.year)
      && r[n] == '-' && r[n + 3] == '-'
      && AllDigits(r[n + 1..n + 3]) && DigitsValue(r[n + 1..n + 3]) == today.month
      && AllDigits(r[n + 4..]) && DigitsValue(r[n + 4..]) == today.day
  {
    var y := YearText(today.year);
    var m := TwoDigits(today.month);
    var d := TwoDigits(today.day);
    DashedFields(y, m, d, today.month, today.day);
    y + "-" + m + "-" + d
  }

  /** A purchase on 2024-01-01 queried on 2024-07-01 has been held 182 days. */
  lemma ExampleHoldingPeriod(nowMs: int)
    ensures CalculateDaysBetween(Date(2024, 1, 1), Some(Date(2024, 7, 1)), nowMs) == 182
  {
    DaysBetweenDates(Date(2024, 1, 1), Date(2024, 7, 1), nowMs);
  }
}
