/** `Date.prototype.getFullYear` on a millisecond time value, in the proleptic
    Gregorian calendar, read in UTC. */
module Calendar {

  const MsPerDay: int := 24 * 60 * 60 * 1000

  // ---------------------------------------------------------------- the calendar itself

  /** The Gregorian leap rule: every fourth year, except centuries not divisible by 400. */
  predicate IsLeapYear(y: int) {
    y % 4 == 0 && (y % 100 != 0 || y % 400 == 0)
  }

  function YearLength(y: int): int {
    if IsLeapYear(y) then 366 else 365
  }

  /** The day number (day 0 is 1970-01-01) of 1 January of year `y`, counted year by year
      from 1970 in either direction. */
  function DaysBeforeYear(y: int): int
    decreases if y >= 1970 then y - 1970 else 1970 - y
  {
    if y == 1970 then 0
    else if y > 1970 then DaysBeforeYear(y - 1) + YearLength(y - 1)
    else DaysBeforeYear(y + 1) - YearLength(y)
  }

  // ---------------------------------------------------------------- the conversion

  /** The calendar year of day number `days`, found the usual way: whole 400-year cycles of
      146097 days counted from 0001-01-01, then the year within the cycle. */
  function YearOfDay(days: int): int {
    var n := days + 719162;
    400 * (n / 146097) + YearInCycle(n % 146097)
  }

  /** The year (1 to 400) of day `r` of a cycle: centuries of 36524 days, four-year blocks
      of 1461 days and years of 365 days; the last day of the cycle and of a four-year block
      falls in the year before the one the quotients point at. */
  function YearInCycle(r: int): int {
    var n100 := r / 36524;
    var n4 := r % 36524 / 1461;
    var n1 := r % 36524 % 1461 / 365;
    var y := 100 * n100 + 4 * n4 + n1 + 1;
    if n100 == 4 || n1 == 4 then y - 1 else y
  }

  /** `new Date(ms).getFullYear()`; `/` floors here as the day of a negative time value needs. */
  function YearOf(ms: int): int {
    YearOfDay(ms / MsPerDay)
  }

  // ---------------------------------------------------------------- properties

  /** Every day falls in the year whose 1 January is the last one not after it. */
  lemma YearOfDayInYear(days: int)
    ensures DaysBeforeYear(YearOfDay(days)) <= days < DaysBeforeYear(YearOfDay(days) + 1)
  {
    var n := days + 719162;
    var q, r := n / 146097, n % 146097;
    var y' := YearInCycle(r);
    YearInCycleBounds(r);
    assert YearOfDay(days) == 400 * q + y';
    Cycles(y' - 1, q);
    Cycles(y', q);
    assert DaysOfYears(1969) == 719162;
    ClosedForm(400 * q + y');
    ClosedForm(400 * q + y' + 1);
  }

  /** Day `r` of a cycle falls in year `YearInCycle(r)` of it. */
  lemma YearInCycleBounds(r: int)
    requires 0 <= r < 146097
    ensures 1 <= YearInCycle(r) <= 400
    ensures DaysOfYears(YearInCycle(r) - 1) <= r < DaysOfYears(YearInCycle(r))
  {
    var a, ra := r / 36524, r % 36524;
    var b, rb := ra / 1461, ra % 1461;
    var c := rb / 365;
    if a == 4 {
      assert YearInCycle(r) == 400;
      assert DaysOfYears(399) == 145731;
      Centuries(4);
    } else if c == 4 {
      assert YearInCycle(r) == 100 * a + 4 * b + 4;
      Block(a, b, 3);
      Block(a, b + 1, 0);
    } else {
      assert YearInCycle(r) == 100 * a + 4 * b + c + 1;
      Block(a, b, c);
      if c < 3 {
        Block(a, b, c + 1);
      } else if b < 24 {
        Block(a, b + 1, 0);
      } else {
        Centuries(a + 1);
      }
    }
  }

  /** 1 January comes strictly later every year. */
  lemma {:induction false} DaysBeforeYearIncreasing(y: int, z: int)
    requires y < z
    ensures DaysBeforeYear(y) + 365 * (z - y) <= DaysBeforeYear(z)
    decreases z - y
  {
    if z > y + 1 {
      DaysBeforeYearIncreasing(y, z - 1);
    }
    ClosedForm(z - 1);
    ClosedForm(z);
    LeapDays(z - 1);
  }

  /** Day `days` is in year `y` exactly when it lies between 1 January of `y` and 1 January
      of the year after. */
  lemma YearOfDayCharacterised(days: int, y: int)
    ensures YearOfDay(days) == y <==> DaysBeforeYear(y) <= days < DaysBeforeYear(y + 1)
  {
    YearOfDayInYear(days);
    var x := YearOfDay(days);
    if x + 1 < y {
      DaysBeforeYearIncreasing(x + 1, y);
    } else if y + 1 < x {
      DaysBeforeYearIncreasing(y + 1, x);
    }
  }

  /** `getFullYear` returns `y` exactly when the time value lies between 1 January of `y`
      and 1 January of the year after, both at midnight UTC. */
  lemma YearOfCharacterised(ms: int, y: int)
    ensures YearOf(ms) == y <==>
      DaysBeforeYear(y) * MsPerDay <= ms < DaysBeforeYear(y + 1) * MsPerDay
  {
    YearOfDayCharacterised(ms / MsPerDay, y);
    DayBounds(ms, DaysBeforeYear(y));
    DayBounds(ms, DaysBeforeYear(y + 1));
  }

  /** A time value is at or after midnight of day `d` exactly when its day is at least `d`. */
  lemma DayBounds(ms: int, d: int)
    ensures d * MsPerDay <= ms <==> d <= ms / MsPerDay
  {
    var q, r := ms / MsPerDay, ms % MsPerDay;
    assert ms == q * MsPerDay + r && 0 <= r < MsPerDay;
    if d <= q {
      assert d * MsPerDay <= q * MsPerDay;
    } else {
      assert (q + 1) * MsPerDay <= d * MsPerDay;
    }
  }

  /** A later time value never falls in an earlier year. */
  lemma YearOfMonotone(ms: int, later: int)
    requires ms <= later
    ensures YearOf(ms) <= YearOf(later)
  {
    var d, e := ms / MsPerDay, later / MsPerDay;
    assert d <= e by {
      DayBounds(ms, d);
      DayBounds(later, d);
    }
    var y, z := YearOfDay(d), YearOfDay(e);
    YearOfDayInYear(d);
    YearOfDayInYear(e);
    if z + 1 < y {
      DaysBeforeYearIncreasing(z + 1, y);
    }
  }

  /** The epoch falls in 1970. */
  lemma EpochYear()
    ensures YearOf(0) == 1970
  {
    YearOfCharacterised(0, 1970);
  }

  /** The last millisecond of 2024 and the first of 2025 (UTC) fall in different years. */
  lemma NewYear2025()
    ensures YearOf(1735689599999) == 2024
    ensures YearOf(1735689600000) == 2025
  {
    ClosedForm(2024);
    ClosedForm(2025);
    ClosedForm(2026);
    YearOfCharacterised(1735689599999, 2024);
    YearOfCharacterised(1735689600000, 2025);
  }

  // ---------------------------------------------------------------- helpers

  /** The days of the years 1 to `n`: 365 each, plus the leap days among them. */
  function DaysOfYears(n: int): int {
    365 * n + n / 4 - n / 100 + n / 400
  }

  lemma {:induction false} ClosedForm(y: int)
    ensures DaysBeforeYear(y) == DaysOfYears(y - 1) - DaysOfYears(1969)
    decreases if y >= 1970 then y - 1970 else 1970 - y
  {
    if y > 1970 {
      ClosedForm(y - 1);
      LeapDays(y - 1);
    } else if y < 1970 {
      ClosedForm(y + 1);
      LeapDays(y);
    }
  }

  /** Year `n` adds its own length to the count. */
  lemma LeapDays(n: int)
    ensures DaysOfYears(n) - DaysOfYears(n - 1) == YearLength(n)
  {
    DivStep(n, 4);
    DivStep(n, 100);
    DivStep(n, 400);
  }

  lemma DivStep(n: int, m: int)
    requires m == 4 || m == 100 || m == 400
    ensures n / m - (n - 1) / m == if n % m == 0 then 1 else 0
  {
    var q, r := (n - 1) / m, (n - 1) % m;
    if r + 1 < m {
      DivIs(n, m, q, r + 1);
    } else {
      DivIs(n, m, q + 1, 0);
    }
  }

  lemma DivIs(x: int, m: int, q: int, r: int)
    requires m == 4 || m == 100 || m == 400 || m == 146097
    requires 0 <= r < m && x == q * m + r
    ensures x / m == q && x % m == r
  {
  }

  /** Whole 400-year cycles add 146097 days each. */
  lemma Cycles(m: int, k: int)
    ensures DaysOfYears(m + 400 * k) == DaysOfYears(m) + 146097 * k
  {
    DivIs(m + 400 * k, 4, m / 4 + 100 * k, m % 4);
    DivIs(m + 400 * k, 100, m / 100 + 4 * k, m % 100);
    DivIs(m + 400 * k, 400, m / 400 + k, m % 400);
  }

  /** Inside a cycle, before its last century ends: centuries of 36524 days, four-year
      blocks of 1461 and years of 365. */
  lemma Block(a: int, b: int, c: int)
    requires 0 <= a <= 3 && 0 <= b <= 24 && 0 <= c <= 3
    ensures DaysOfYears(100 * a + 4 * b + c) == 36524 * a + 1461 * b + 365 * c
  {
    var x := 100 * a + 4 * b + c;
    DivIs(x, 4, 25 * a + b, c);
    DivIs(x, 100, a, 4 * b + c);
    DivIs(x, 400, 0, x);
  }

  /** Whole centuries of a cycle; the fourth one ends with the cycle's extra leap day. */
  lemma Centuries(a: int)
    requires 1 <= a <= 4
    ensures DaysOfYears(100 * a) == 36524 * a + (if a == 4 then 1 else 0)
  {
    DivIs(100 * a, 4, 25 * a, 0);
    DivIs(100 * a, 100, a, 0);
    if a == 4 {
      DivIs(400, 400, 1, 0);
    } else {
      DivIs(100 * a, 400, 0, 100 * a);
    }
  }
}
