/**
  Naive date-times as the billing code sees them: a civil date in the proleptic
  Gregorian calendar plus the second of the day. Subtraction gives the whole
  number of days rounded toward negative infinity (`timedelta.days`), and adding
  a number of days moves the date while keeping the time of day.
*/
module Calendar {

  const SecondsPerDay: int := 86400

  /** A date-time; `second` is the number of seconds since midnight. */
  datatype DateTime = DateTime(year: int, month: int, day: int, second: int)

  predicate IsLeap(y: int) {
    y % 4 == 0 && (y % 100 != 0 || y % 400 == 0)
  }

  function DaysInMonth(y: int, m: int): (n: int)
    ensures 28 <= n <= 31
    ensures n == 29 <==> m == 2 && IsLeap(y)
  {
    if m == 2 then (if IsLeap(y) then 29 else 28)
    else if m == 4 || m == 6 || m == 9 || m == 11 then 30
    else 31
  }

  /** A date-time Python's `datetime` could hold (its year range aside). */
  predicate Valid(d: DateTime) {
    && 1 <= d.month <= 12
    && 1 <= d.day <= DaysInMonth(d.year, d.month)
    && 0 <= d.second < SecondsPerDay
  }

  /** Days from 0001-01-01 to January 1st of year `y`. */
  function DaysBeforeYear(y: int): int {
    var p := y - 1;
    365 * p + p / 4 - p / 100 + p / 400
  }

  /** Days from January 1st of year `y` to the first of month `m`. */
  function DaysBeforeMonth(y: int, m: int): int
    requires 1 <= m <= 12
  {
    [0, 31, 59, 90, 120, 151, 181, 212, 243, 273, 304, 334][m - 1]
      + (if m > 2 && IsLeap(y) then 1 else 0)
  }

  /** Days since 0001-01-01 (`toordinal() - 1`). */
  function DayNumber(d: DateTime): int
    requires 1 <= d.month <= 12
  {
    DaysBeforeYear(d.year) + DaysBeforeMonth(d.year, d.month) + d.day - 1
  }

  /** Seconds since 0001-01-01 00:00:00. */
  function Instant(d: DateTime): int
    requires 1 <= d.month <= 12
  {
    DayNumber(d) * SecondsPerDay + d.second
  }

  /** `a < b` on date-times. */
  predicate Before(a: DateTime, b: DateTime)
    requires 1 <= a.month <= 12 && 1 <= b.month <= 12
  {
    Instant(a) < Instant(b)
  }

  /** `(later - earlier).days`: the whole days between, rounded toward negative infinity. */
  function DaysBetween(later: DateTime, earlier: DateTime): (n: int)
    requires 1 <= later.month <= 12 && 1 <= earlier.month <= 12
    ensures n * SecondsPerDay <= Instant(later) - Instant(earlier) < (n + 1) * SecondsPerDay
  {
    (Instant(later) - Instant(earlier)) / SecondsPerDay
  }

  function NextDay(d: DateTime): DateTime {
    if d.day < DaysInMonth(d.year, d.month) then d.(day := d.day + 1)
    else if d.month < 12 then d.(month := d.month + 1, day := 1)
    else DateTime(d.year + 1, 1, 1, d.second)
  }

  function PrevDay(d: DateTime): DateTime {
    if d.day > 1 then d.(day := d.day - 1)
    else if d.month > 1 then d.(month := d.month - 1, day := DaysInMonth(d.year, d.month - 1))
    else DateTime(d.year - 1, 12, 31, d.second)
  }

  /** `d + timedelta(days=n)`. */
  function AddDays(d: DateTime, n: int): DateTime
    decreases if n < 0 then -n else n
  {
    if n == 0 then d
    else if n > 0 then AddDays(NextDay(d), n - 1)
    else AddDays(PrevDay(d), n + 1)
  }

  /** Moving one past `p` adds one to `p / k` exactly when `p + 1` is a multiple of `k`. */
  lemma FloorDivStep4(p: int)
    ensures (p + 1) / 4 - p / 4 == (if (p + 1) % 4 == 0 then 1 else 0)
  {
  }

  lemma FloorDivStep100(p: int)
    ensures (p + 1) / 100 - p / 100 == (if (p + 1) % 100 == 0 then 1 else 0)
  {
  }

  lemma FloorDivStep400(p: int)
    ensures (p + 1) / 400 - p / 400 == (if (p + 1) % 400 == 0 then 1 else 0)
  {
  }

  /** A multiple of `m * k` is a multiple of `k`. */
  lemma MultipleOfMultiple(y: int, m: int, k: int)
    requires 0 < m && 0 < k && y % (m * k) == 0
    ensures y % k == 0
  {
    var a, b, r := y / (m * k), y / k, y % k;
    assert y == (m * k) * a;
    assert y == k * b + r && 0 <= r < k;
    var c := m * a - b;
    assert r == k * c by {
      assert (m * k) * a == k * (m * a);
    }
    ProductBounds(k, c);
  }

  /** A positive `k` times a non-zero `c` is at least `k` away from zero. */
  lemma ProductBounds(k: int, c: int)
    requires 0 < k
    ensures c >= 1 ==> k * c >= k
    ensures c <= -1 ==> k * c <= -k
  {
    if c >= 1 {
      assert k * c == k * (c - 1) + k;
    } else if c <= -1 {
      assert k * c == k * (c + 1) - k;
    }
  }

  /** A multiple of 400 is a multiple of 100, and a multiple of 100 a multiple of 4. */
  lemma MultipleChain(y: int)
    ensures y % 400 == 0 ==> y % 100 == 0
    ensures y % 100 == 0 ==> y % 4 == 0
  {
    if y % 400 == 0 {
      MultipleOfMultiple(y, 4, 100);
    }
    if y % 100 == 0 {
      MultipleOfMultiple(y, 25, 4);
    }
  }

  lemma YearLength(y: int)
    ensures DaysBeforeYear(y + 1) == DaysBeforeYear(y) + (if IsLeap(y) then 366 else 365)
  {
    var p := y - 1;
    FloorDivStep4(p);
    FloorDivStep100(p);
    FloorDivStep400(p);
    MultipleChain(y);
    assert DaysBeforeYear(y + 1) - DaysBeforeYear(y) == 365 + (y / 4 - p / 4) - (y / 100 - p / 100) + (y / 400 - p / 400);
  }

  lemma NextDayStep(d: DateTime)
    requires Valid(d)
    ensures Valid(NextDay(d)) && NextDay(d).second == d.second
    ensures DayNumber(NextDay(d)) == DayNumber(d) + 1
  {
    if d.day == DaysInMonth(d.year, d.month) && d.month == 12 {
      YearLength(d.year);
    }
  }

  lemma PrevDayStep(d: DateTime)
    requires Valid(d)
    ensures Valid(PrevDay(d)) && PrevDay(d).second == d.second
    ensures DayNumber(PrevDay(d)) == DayNumber(d) - 1
  {
    if d.day == 1 && d.month == 1 {
      YearLength(d.year - 1);
    }
  }

  /** Adding `n` days moves the day number by exactly `n` and keeps the time of day. */
  lemma {:induction false} AddDaysShifts(d: DateTime, n: int)
    requires Valid(d)
    ensures Valid(AddDays(d, n)) && AddDays(d, n).second == d.second
    ensures DayNumber(AddDays(d, n)) == DayNumber(d) + n
    decreases if n < 0 then -n else n
  {
    if n > 0 {
      NextDayStep(d);
      AddDaysShifts(NextDay(d), n - 1);
    } else if n < 0 {
      PrevDayStep(d);
      AddDaysShifts(PrevDay(d), n + 1);
    }
  }
}
