/** The year of a day count, against the Gregorian calendar defined year by year. */
module Calendar {

  const I64_MIN: int := -0x8000_0000_0000_0000
  const I64_MAX: int := 0x7FFF_FFFF_FFFF_FFFF
  const I32_MIN: int := -0x8000_0000
  const I32_MAX: int := 0x7FFF_FFFF

  newtype Days = d: int | I64_MIN <= d <= I64_MAX

  // --- The calendar ---

  predicate Leap(y: int) { y % 4 == 0 && (y % 100 != 0 || y % 400 == 0) }

  function YearLength(y: int): int { if Leap(y) then 366 else 365 }

  /** The first day of a year, counted from the first of January 1970. */
  function FirstDay(y: int): int
    decreases if y >= 1970 then y - 1970 else 1970 - y
  {
    if y == 1970 then 0
    else if y > 1970 then FirstDay(y - 1) + YearLength(y - 1)
    else FirstDay(y + 1) - YearLength(y)
  }

  ghost predicate InYear(d: int, y: int) { FirstDay(y) <= d < FirstDay(y + 1) }

  /** Leap days in the years 1 to n, below zero counted the other way. */
  function LeapDays(n: int): int { n / 4 - n / 100 + n / 400 }

  lemma {:induction false} LeapDaysStep(n: int)
    ensures LeapDays(n) == LeapDays(n - 1) + if Leap(n) then 1 else 0
  {
    DivStep(n, 4);
    DivStep(n, 100);
    DivStep(n, 400);
    if n % 100 == 0 { Multiple(n, 25, 4); }
    if n % 400 == 0 { Multiple(n, 4, 100); }
  }

  lemma {:induction false} Multiple(n: int, a: int, b: int)
    requires (a == 25 && b == 4) || (a == 4 && b == 100)
    requires n % (a * b) == 0
    ensures n % b == 0
  {
    var m := n / (a * b);
    assert n == b * (a * m);
  }

  lemma {:induction false} DivStep(n: int, m: int)
    requires m == 4 || m == 100 || m == 400
    ensures n / m == (n - 1) / m + if n % m == 0 then 1 else 0
  {
  }

  lemma {:induction false} FirstDayClosed(y: int)
    ensures FirstDay(y) == 365 * (y - 1970) + LeapDays(y - 1) - LeapDays(1969)
    decreases if y >= 1970 then y - 1970 else 1970 - y
  {
    hide LeapDays, Leap;
    if y > 1970 {
      FirstDayClosed(y - 1);
      LeapDaysStep(y - 1);
    } else if y < 1970 {
      FirstDayClosed(y + 1);
      LeapDaysStep(y);
    }
  }

  lemma {:induction false} NextYear(y: int)
    ensures FirstDay(y + 1) == FirstDay(y) + YearLength(y)
  {
    hide Leap;
  }

  lemma {:induction false} YearsAdvance(y: int, z: int)
    requires y <= z
    ensures FirstDay(z) >= FirstDay(y) + 365 * (z - y)
    decreases z - y
  {
    hide FirstDay, Leap;
    if y < z {
      YearsAdvance(y, z - 1);
      NextYear(z - 1);
    }
  }

  /** A day belongs to one year only. */
  lemma {:induction false} YearIsUnique(d: int, y: int, z: int)
    requires InYear(d, y) && InYear(d, z)
    ensures y == z
  {
    hide FirstDay;
    if y < z { YearsAdvance(y + 1, z); }
    if z < y { YearsAdvance(z + 1, y); }
  }

  // --- The closed form ---

  /** Division as the machine divides: toward zero. */
  function Quotient(a: int, b: int): int
    requires b > 0
  {
    if a >= 0 then a / b else -((-a) / b)
  }

  function SaturatingAdd(a: int, b: int): int {
    if a + b > I64_MAX then I64_MAX else if a + b < I64_MIN then I64_MIN else a + b
  }

  function EraOf(shifted: int): int {
    Quotient(if shifted >= 0 then shifted else shifted - 146_096, 146_097)
  }

  function YearOfEra(day: int): int {
    Quotient(day - Quotient(day, 1_460) + Quotient(day, 36_524) - Quotient(day, 146_096), 365)
  }

  /** The year of a day counted from the first of March of year 0. */
  function YearOfShifted(shifted: int): int {
    var era := EraOf(shifted);
    var day := shifted - era * 146_097;
    var year := YearOfEra(day);
    var dayOfYear := day - (365 * year + Quotient(year, 4) - Quotient(year, 100));
    year + era * 400 + if Quotient(5 * dayOfYear + 2, 153) >= 10 then 1 else 0
  }

  function YearFromUnixDays(days: Days): int {
    var year := YearOfShifted(SaturatingAdd(days as int, 719_468));
    if I32_MIN <= year <= I32_MAX then year else I32_MAX
  }

  // --- Why it is right ---

  lemma {:induction false} EraIsFloor(shifted: int)
    ensures 0 <= shifted - EraOf(shifted) * 146_097 <= 146_096
  {
  }

  /** Days from the first of March of an era's first year to that of its year y. */
  function DaysBefore(y: int): int { 365 * y + y / 4 - y / 100 }

  /** Centuries, four-year cycles, years and days of an era. */
  ghost predicate Splits(day: int, c: int, q: int, k: int, r: int) {
    && 0 <= c <= 3 && 0 <= q <= 24 && 0 <= k <= 3 && 0 <= r <= 365
    && day == 36_524 * c + 1_461 * q + 365 * k + r
    && (r == 365 ==> k == 3 && (q < 24 || c == 3))
  }

  lemma {:induction false} SplitDay(day: int) returns (c: int, q: int, k: int, r: int)
    requires 0 <= day <= 146_096
    ensures Splits(day, c, q, k, r)
  {
    c := if day / 36_524 > 3 then 3 else day / 36_524;
    var inCentury := day - 36_524 * c;
    q := if inCentury / 1_461 > 24 then 24 else inCentury / 1_461;
    var inCycle := inCentury - 1_461 * q;
    k := if inCycle / 365 > 3 then 3 else inCycle / 365;
    r := inCycle - 365 * k;
  }

  lemma {:induction false} CyclesOf(day: int, c: int, q: int, k: int, r: int) returns (t: int)
    requires Splits(day, c, q, k, r)
    ensures day / 1_460 == 25 * c + q + t && (t == 0 || t == 1) && (r == 0 ==> t == 0) && (r == 365 ==> t == 1)
  {
    t := if 24 * c + q + 365 * k + r >= 1_460 then 1 else 0;
    assert day == 1_460 * (25 * c + q + t) + (24 * c + q + 365 * k + r - 1_460 * t);
  }

  lemma {:induction false} CenturiesOf(day: int, c: int, q: int, k: int, r: int)
    requires Splits(day, c, q, k, r)
    ensures day / 36_524 - day / 146_096 == c
  {
    if day == 146_096 {
    } else {
      var rest := 1_461 * q + 365 * k + r;
      assert day == 36_524 * c + rest && 0 <= rest < 36_524;
    }
  }

  lemma {:induction false} YearOfEraIsRight(day: int, c: int, q: int, k: int, r: int)
    requires Splits(day, c, q, k, r)
    ensures var y := 100 * c + 4 * q + k; YearOfEra(day) == y && 0 <= y <= 399 && day == DaysBefore(y) + r
  {
    var t := CyclesOf(day, c, q, k, r);
    CenturiesOf(day, c, q, k, r);
    var y := 100 * c + 4 * q + k;
    assert day - day / 1_460 + day / 36_524 - day / 146_096 == 365 * y + (r - t);
    assert y / 4 == 25 * c + q;
    assert y / 100 == c;
  }

  /** The year that begins in the March of an era's year y plus ten months. */
  lemma {:induction false} NewYearAfterMarch(era: int, y: int)
    requires 0 <= y <= 399
    ensures FirstDay(400 * era + y + 1) + 719_468 == 146_097 * era + DaysBefore(y) + 306
  {
    var n := 400 * era + y;
    FirstDayClosed(n + 1);
    assert n / 4 == 100 * era + y / 4;
    assert n / 100 == 4 * era + y / 100;
    assert n / 400 == era;
    assert LeapDays(1969) == 477;
  }

  lemma {:induction false} ShiftedIsRight(d: int)
    ensures InYear(d, YearOfShifted(d + 719_468))
  {
    hide FirstDay, YearOfEra, DaysBefore, Leap;
    var shifted := d + 719_468;
    var era := EraOf(shifted);
    EraIsFloor(shifted);
    hide EraOf;
    var day := shifted - era * 146_097;
    var c, q, k, r := SplitDay(day);
    YearOfEraIsRight(day, c, q, k, r);
    var y := 100 * c + 4 * q + k;
    DayOfYear(day, y, r);
    NewYearAfterMarch(era, y);
    NextYear(400 * era + y);
    NextYear(400 * era + y + 1);
  }

  lemma {:induction false} DayOfYear(day: int, y: int, r: int)
    requires 0 <= y <= 399 && day == DaysBefore(y) + r && 0 <= r <= 365
    ensures day - (365 * y + Quotient(y, 4) - Quotient(y, 100)) == r
    ensures Quotient(5 * r + 2, 153) >= 10 <==> r >= 306
  {
  }

  lemma {:induction false} FarYears(d: int)
    requires d > I64_MAX - 719_468
    ensures YearOfShifted(d + 719_468) > I32_MAX && YearOfShifted(I64_MAX) > I32_MAX
  {
    hide YearOfShifted, FirstDay;
    ShiftedIsRight(d);
    ShiftedIsRight(I64_MAX - 719_468);
    FarYear(d, YearOfShifted(d + 719_468));
    FarYear(I64_MAX - 719_468, YearOfShifted(I64_MAX));
  }

  lemma {:induction false} FarYear(d: int, y: int)
    requires InYear(d, y) && d >= I64_MAX - 719_468
    ensures y > I32_MAX
  {
    FirstDayClosed(y + 1);
  }

  /**
   For every 64-bit day count, before 1970 and after: the result is the one year that holds the day,
   unless that year does not fit 32 bits, and then it is the largest that does.
   */
  lemma {:induction false} YearIsRight(days: Days, y: int)
    requires InYear(days as int, y)
    ensures YearFromUnixDays(days) == if I32_MIN <= y <= I32_MAX then y else I32_MAX
  {
    hide YearOfShifted, FirstDay;
    var d := days as int;
    ShiftedIsRight(d);
    YearIsUnique(d, y, YearOfShifted(d + 719_468));
    if d > I64_MAX - 719_468 { FarYears(d); }
  }

  /** Every day belongs to some year. */
  lemma {:induction false} EveryDayHasAYear(d: int)
    ensures exists y :: InYear(d, y)
  {
    hide YearOfShifted, FirstDay;
    ShiftedIsRight(d);
  }
}
