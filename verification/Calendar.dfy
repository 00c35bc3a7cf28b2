/** The proleptic Gregorian calendar (clause 3.2.1 of ISO 8601:2004) over day
    numbers: day 1 is the first of January of year 1, and every later date is the
    number of days counted from there. A date of the program is such a number;
    its year, month and day are read back with `FromOrdinal`. Years have no upper
    limit here. */
module Calendar {

  type Day = int

  datatype Date = Date(year: int, month: int, day: int)

  predicate Leap(year: int) {
    year % 4 == 0 && (year % 100 != 0 || year % 400 == 0)
  }

  function MonthLength(year: int, month: int): int {
    if month == 2 then (if Leap(year) then 29 else 28)
    else if month == 4 || month == 6 || month == 9 || month == 11 then 30
    else 31
  }

  predicate Valid(d: Date) {
    1 <= d.year && 1 <= d.month <= 12 && 1 <= d.day <= MonthLength(d.year, d.month)
  }

  /** Months numbered across years; month 12 is the first January. */
  function MonthIndex(d: Date): int {
    12 * d.year + d.month - 1
  }

  function LengthOf(k: int): int {
    MonthLength(k / 12, k % 12 + 1)
  }

  /** The day number of the first day of month `k`. */
  function FirstOf(k: int): (first: Day)
    requires 12 <= k
    ensures 1 <= first
  {
    if k == 12 then 1 else FirstOf(k - 1) + LengthOf(k - 1)
  }

  function ToOrdinal(d: Date): (n: Day)
    requires Valid(d)
    ensures 1 <= n
  {
    FirstOf(MonthIndex(d)) + d.day - 1
  }

  function MonthFrom(n: Day, k: int): (r: int)
    requires 12 <= k && FirstOf(k) <= n
    ensures k <= r && FirstOf(r) <= n < FirstOf(r + 1)
    decreases n - FirstOf(k)
  {
    if n < FirstOf(k + 1) then k else MonthFrom(n, k + 1)
  }

  function DateIn(k: int, day: int): (d: Date)
    requires 12 <= k && 1 <= day <= LengthOf(k)
    ensures Valid(d) && MonthIndex(d) == k && d.day == day
  {
    Date(k / 12, k % 12 + 1, day)
  }

  function FromOrdinal(n: Day): (d: Date)
    requires 1 <= n
    ensures Valid(d) && ToOrdinal(d) == n
  {
    var k := MonthFrom(n, 12);
    DateIn(k, n - FirstOf(k) + 1)
  }

  lemma OwnMonth(d: Date)
    requires 1 <= d.month <= 12
    ensures MonthIndex(d) / 12 == d.year && MonthIndex(d) % 12 + 1 == d.month
    ensures LengthOf(MonthIndex(d)) == MonthLength(d.year, d.month)
  {
    hide MonthLength;
  }

  // ----- what makes the numbering the calendar's own -----

  function NextDay(d: Date): Date {
    if d.day < MonthLength(d.year, d.month) then d.(day := d.day + 1)
    else if d.month < 12 then Date(d.year, d.month + 1, 1)
    else Date(d.year + 1, 1, 1)
  }

  /** Numbers follow the calendar day by day from 0001-01-01. */
  lemma OrdinalCountsDays(d: Date)
    requires Valid(d)
    ensures ToOrdinal(Date(1, 1, 1)) == 1
    ensures Valid(NextDay(d)) && ToOrdinal(NextDay(d)) == ToOrdinal(d) + 1
  {
    hide Leap, LengthOf;
    var k := MonthIndex(d);
    OwnMonth(d);
    if d.day == MonthLength(d.year, d.month) {
      assert MonthIndex(NextDay(d)) == k + 1;
      assert FirstOf(k + 1) == FirstOf(k) + LengthOf(k);
    }
  }

  predicate Before(a: Date, b: Date) {
    a.year < b.year ||
    (a.year == b.year && (a.month < b.month || (a.month == b.month && a.day < b.day)))
  }

  lemma {:induction false} MonthStartsGrow(a: int, b: int)
    requires 12 <= a <= b
    ensures FirstOf(a) + 28 * (b - a) <= FirstOf(b)
    decreases b - a
  {
    if a < b {
      MonthStartsGrow(a + 1, b);
    }
  }

  /** Comparing two numbers is comparing the two dates field by field. */
  lemma OrderIsChronological(a: Date, b: Date)
    requires Valid(a) && Valid(b)
    ensures Before(a, b) <==> ToOrdinal(a) < ToOrdinal(b)
  {
    hide ToOrdinal, MonthLength;
    OrderForward(a, b);
    OrderForward(b, a);
  }

  lemma OrderForward(a: Date, b: Date)
    requires Valid(a) && Valid(b)
    ensures Before(a, b) ==> ToOrdinal(a) < ToOrdinal(b)
  {
    hide Leap, LengthOf;
    var k := MonthIndex(a);
    OwnMonth(a);
    OwnMonth(b);
    if k < MonthIndex(b) {
      assert FirstOf(k + 1) == FirstOf(k) + LengthOf(k);
      MonthStartsGrow(k + 1, MonthIndex(b));
    }
  }

  /** The two readings of a date are inverse to one another. */
  lemma CalendarRoundTrip(d: Date)
    requires Valid(d)
    ensures FromOrdinal(ToOrdinal(d)) == d
  {
    var back := FromOrdinal(ToOrdinal(d));
    OrderIsChronological(d, back);
    OrderIsChronological(back, d);
  }

  // ----- how long months in a row are -----

  /** Three months in a row never hold more than 92 days. */
  lemma QuarterLength(k: int)
    requires 12 <= k
    ensures FirstOf(k + 3) == FirstOf(k) + LengthOf(k) + LengthOf(k + 1) + LengthOf(k + 2)
    ensures LengthOf(k) + LengthOf(k + 1) + LengthOf(k + 2) <= 92
  {
    ThreeInARow(k / 12, (k + 1) / 12, (k + 2) / 12, k % 12);
    ShiftMonth(k, 1);
    ShiftMonth(k, 2);
    assert FirstOf(k + 2) == FirstOf(k + 1) + LengthOf(k + 1);
  }

  lemma ShiftMonth(k: int, s: int)
    requires 0 <= s <= 12
    ensures k % 12 + s < 12 ==> (k + s) / 12 == k / 12 && (k + s) % 12 == k % 12 + s
    ensures 12 <= k % 12 + s ==> (k + s) / 12 == k / 12 + 1 && (k + s) % 12 == k % 12 + s - 12
  {
  }

  // Among three months in a row, one has at most 30 days.
  lemma ThreeInARow(a: int, b: int, c: int, m: int)
    requires 0 <= m < 12
    ensures MonthLength(a, m + 1) <= 30 || MonthLength(b, (m + 1) % 12 + 1) <= 30 || MonthLength(c, (m + 2) % 12 + 1) <= 30
  {
  }

  /** Twelve months hold 365 days, and one more when their February is long. */
  lemma {:induction false} TwelveMonths(k: int)
    requires 12 <= k
    ensures FirstOf(k + 12) - FirstOf(k) == 365 + LeapDay((k + 10) / 12)
  {
    if k == 12 {
      assert FirstOf(24) == 366;
    } else {
      hide LengthOf, LeapDay;
      TwelveMonths(k - 1);
      SameMonthNextYear(k - 1);
      FebruaryOf(k);
    }
  }

  function LeapDay(year: int): int {
    if Leap(year) then 1 else 0
  }

  lemma SameMonthNextYear(k: int)
    ensures LengthOf(k + 12) - LengthOf(k) ==
            if k % 12 == 1 then LeapDay(k / 12 + 1) - LeapDay(k / 12) else 0
  {
    hide Leap;
    ShiftMonth(k, 12);
  }

  // The year of the February among the twelve months from `k` on.
  lemma FebruaryOf(k: int)
    ensures (k - 1) % 12 == 1 ==> (k + 9) / 12 == (k - 1) / 12 && (k + 10) / 12 == (k - 1) / 12 + 1
    ensures (k - 1) % 12 != 1 ==> (k + 9) / 12 == (k + 10) / 12
  {
  }

  // ----- the numbering in closed form -----

  /** Years start where the leap years before them put them. */
  lemma {:induction false} YearStarts(year: int)
    requires 1 <= year
    ensures FirstOf(12 * year) == 365 * (year - 1) + (year - 1) / 4 - (year - 1) / 100 + (year - 1) / 400 + 1
  {
    if year != 1 {
      hide LengthOf;
      YearStarts(year - 1);
      TwelveMonths(12 * (year - 1));
      assert (12 * (year - 1) + 10) / 12 == year - 1;
      LeapDays(year - 1);
    }
  }

  lemma LeapDays(z: int)
    ensures LeapDay(z) == (z / 4 - (z - 1) / 4) - (z / 100 - (z - 1) / 100) + (z / 400 - (z - 1) / 400)
  {
    Every4(z);
    Every100(z);
    Every400(z);
  }

  lemma Every4(z: int)
    ensures z / 4 - (z - 1) / 4 == if z % 4 == 0 then 1 else 0
  {
  }

  lemma Every100(z: int)
    ensures z / 100 - (z - 1) / 100 == if z % 100 == 0 then 1 else 0
    ensures z % 100 == 0 ==> z % 4 == 0
  {
    Step100(z, z / 100, z % 100);
    if z % 100 == 0 {
      Multiple4(z, 25 * (z / 100));
    }
  }

  lemma Every400(z: int)
    ensures z / 400 - (z - 1) / 400 == if z % 400 == 0 then 1 else 0
    ensures z % 400 == 0 ==> z % 100 == 0
  {
    Step400(z, z / 400, z % 400);
    if z % 400 == 0 {
      Multiple100(z, 4 * (z / 400));
    }
  }

  lemma Step100(z: int, q: int, r: int)
    requires z == 100 * q + r && 0 <= r < 100
    ensures (z - 1) / 100 == if r == 0 then q - 1 else q
  {
  }

  lemma Step400(z: int, q: int, r: int)
    requires z == 400 * q + r && 0 <= r < 400
    ensures (z - 1) / 400 == if r == 0 then q - 1 else q
  {
  }

  lemma Multiple4(z: int, k: int)
    requires z == 4 * k
    ensures z % 4 == 0
  {
  }

  lemma Multiple100(z: int, k: int)
    requires z == 100 * k
    ensures z % 100 == 0
  {
  }

  function LongFebruary(year: int): int {
    if year % 4 == 0 && (year % 100 != 0 || year % 400 == 0) then 1 else 0
  }

  lemma MonthAt(year: int, m: int)
    requires 1 <= year && 0 <= m < 11
    ensures FirstOf(12 * year + m + 1) == FirstOf(12 * year + m) + MonthLength(year, m + 1)
  {
    assert (12 * year + m) / 12 == year && (12 * year + m) % 12 == m;
  }

  lemma MonthStarts(year: int, month: int)
    requires 1 <= year && 1 <= month <= 12
    ensures FirstOf(12 * year + month - 1) ==
            FirstOf(12 * year) + [0, 31, 59, 90, 120, 151, 181, 212, 243, 273, 304, 334][month - 1]
            + if 2 < month then LongFebruary(year) else 0
  {
    hide FirstOf;
    if month != 1 {
      MonthStarts(year, month - 1);
      MonthAt(year, month - 2);
    }
  }

  /** The number of a date in closed form: the days of the years before it, of the
      months before it, and its own. */
  lemma ClosedForm(d: Date)
    requires Valid(d)
    ensures var y := d.year - 1;
            ToOrdinal(d) ==
            365 * y + y / 4 - y / 100 + y / 400
            + [0, 31, 59, 90, 120, 151, 181, 212, 243, 273, 304, 334][d.month - 1]
            + (if 2 < d.month then LongFebruary(d.year) else 0) + d.day
  {
    hide FirstOf;
    YearStarts(d.year);
    MonthStarts(d.year, d.month);
  }
}
