/** When a commitment falls due: month arithmetic with end-of-month clamping, the
    jump to a first index, and the loop that collects the dates of a window.
    A rule is the part of a commitment the dates depend on. */
module Schedule {
  import opened Calendar
  import opened Options

  datatype Frequency = Weekly | Monthly | Quarterly | Yearly | Oneoff

  datatype Rule = Rule(startsOn: Day, frequency: Frequency, endsOn: Option<Day>) {
    // The first day of year 1 is the earliest date the program can hold.
    predicate Recurring() {
      1 <= startsOn && frequency != Oneoff
    }

    predicate WithinTerm(d: Day) {
      endsOn.None? || d <= endsOn.value
    }
  }

  const GENERATION_HORIZON_DAYS := 90
  const HORIZON_MARGIN_DAYS := 30
  const MAX_OCCURRENCES_PER_COMMITMENT := 60

  function LongestPeriodDays(frequency: Frequency): int {
    match frequency
    case Weekly => 7
    case Monthly => 31
    case Quarterly => 92
    case Yearly => 366
    case Oneoff => 0
  }

  function Max(a: int, b: int): int {
    if a < b then b else a
  }

  function Min(a: int, b: int): int {
    if a < b then a else b
  }

  function HorizonDays(frequency: Frequency): int {
    Max(GENERATION_HORIZON_DAYS, LongestPeriodDays(frequency) + HORIZON_MARGIN_DAYS)
  }

  function MonthsByFrequency(frequency: Frequency): int
    requires frequency.Monthly? || frequency.Quarterly? || frequency.Yearly?
  {
    match frequency
    case Monthly => 1
    case Quarterly => 3
    case Yearly => 12
  }

  function AddMonths(anchor: Day, months: nat): (due: Day)
    requires 1 <= anchor
    ensures 1 <= due
  {
    var d := FromOrdinal(anchor);
    var total := d.month - 1 + months;
    var year := d.year + total / 12;
    var month := total % 12 + 1;
    ToOrdinal(Date(year, month, Min(d.day, MonthLength(year, month))))
  }

  function NthDueDate(rule: Rule, index: nat): Day
    requires rule.Recurring()
  {
    if rule.frequency.Weekly? then
      rule.startsOn + 7 * index
    else
      AddMonths(rule.startsOn, index * MonthsByFrequency(rule.frequency))
  }

  function FirstIndex(rule: Rule, floor: Day): nat
    requires rule.Recurring()
  {
    if floor <= rule.startsOn then 0
    else if rule.frequency.Weekly? then Max(0, (floor - rule.startsOn) / 7 - 1)
    else
      var from, to := FromOrdinal(rule.startsOn), FromOrdinal(floor);
      var elapsed := (to.year - from.year) * 12 + (to.month - from.month);
      Max(0, elapsed / MonthsByFrequency(rule.frequency) - 1)
  }

  // ----- what a rule means -----

  /** `d` is one of the rule's due dates. */
  ghost predicate Scheduled(rule: Rule, d: Day) {
    rule.WithinTerm(d) &&
    if rule.Recurring() then exists i: nat :: NthDueDate(rule, i) == d else d == rule.startsOn
  }

  function LastDay(rule: Rule, horizon: Day): Day {
    if rule.endsOn.Some? then Min(horizon, rule.endsOn.value) else horizon
  }

  /** The plain enumeration, from index `i` on, with nothing skipped and no cap. */
  function Enumerate(rule: Rule, i: nat, floor: Day, last: Day): seq<Day>
    requires rule.Recurring()
    decreases last - NthDueDate(rule, i)
  {
    var due := NthDueDate(rule, i);
    Gap(rule, i);
    if last < due then []
    else (if floor <= due then [due] else []) + Enumerate(rule, i + 1, floor, last)
  }

  function Capped(dates: seq<Day>): seq<Day> {
    if |dates| <= MAX_OCCURRENCES_PER_COMMITMENT then dates
    else dates[..MAX_OCCURRENCES_PER_COMMITMENT]
  }

  /** The dates a window holds, by plain enumeration from index zero. */
  function Dates(rule: Rule, floor: Day, horizon: Day): seq<Day>
    requires 1 <= rule.startsOn
  {
    if horizon < floor then []
    else if rule.frequency.Oneoff? then
      if rule.startsOn <= horizon && rule.WithinTerm(rule.startsOn) then [rule.startsOn] else []
    else Capped(Enumerate(rule, 0, floor, LastDay(rule, horizon)))
  }

  /** The program's own loop, starting at `FirstIndex`, is the plain enumeration. */
  method OccurrenceDates(rule: Rule, floor: Day, horizon: Day) returns (dates: seq<Day>)
    requires 1 <= rule.startsOn
    ensures dates == Dates(rule, floor, horizon)
  {
    hide NthDueDate, FirstIndex;
    dates := [];
    if horizon < floor {
      return;
    }
    if rule.frequency.Oneoff? {
      if rule.startsOn <= horizon && (rule.endsOn.None? || rule.startsOn <= rule.endsOn.value) {
        return [rule.startsOn];
      }
      return;
    }
    var index := FirstIndex(rule, floor);
    ghost var last := LastDay(rule, horizon);
    ghost var all := Enumerate(rule, 0, floor, last);
    JumpLosesNothing(rule, floor, last);
    while |dates| < MAX_OCCURRENCES_PER_COMMITMENT
      invariant |dates| <= MAX_OCCURRENCES_PER_COMMITMENT
      invariant all == dates + Enumerate(rule, index, floor, last)
      decreases last - NthDueDate(rule, index)
    {
      var due := NthDueDate(rule, index);
      Gap(rule, index);
      if horizon < due {
        break;
      }
      if rule.endsOn.Some? && rule.endsOn.value < due {
        break;
      }
      if floor <= due {
        dates := dates + [due];
      }
      index := index + 1;
    }
    assert dates == Capped(all);
  }

  // ----- due dates move forward, by a bounded step -----

  /** Where `AddMonths` lands, with months counted across years. */
  lemma AddMonthsAt(anchor: Day, months: nat)
    requires 1 <= anchor
    ensures 12 <= MonthIndex(FromOrdinal(anchor))
    ensures var k := MonthIndex(FromOrdinal(anchor)) + months;
            AddMonths(anchor, months) == ClampedDay(k, FromOrdinal(anchor).day)
  {
    hide MonthLength, FirstOf;
    var d := FromOrdinal(anchor);
    WholeYears(d.year, d.month - 1 + months);
  }

  lemma WholeYears(year: int, months: nat)
    ensures (12 * year + months) / 12 == year + months / 12
    ensures (12 * year + months) % 12 == months % 12
  {
  }

  /** Read back in the calendar: the month that many months later, on the anchor's
      day or, where the month is too short, on its last. */
  lemma MonthsLater(anchor: Day, months: nat)
    requires 1 <= anchor
    ensures var d, r := FromOrdinal(anchor), FromOrdinal(AddMonths(anchor, months));
            && MonthIndex(r) == MonthIndex(d) + months
            && r.day == Min(d.day, MonthLength(r.year, r.month))
  {
    hide FromOrdinal, ToOrdinal, MonthLength;
    var d := FromOrdinal(anchor);
    var total := d.month - 1 + months;
    var year, month := d.year + total / 12, total % 12 + 1;
    var r := Date(year, month, Min(d.day, MonthLength(year, month)));
    LongEnough(year, month);
    CalendarRoundTrip(r);
  }

  lemma LongEnough(year: int, month: int)
    ensures 28 <= MonthLength(year, month)
  {
  }

  lemma NoMonthsAdded(anchor: Day)
    requires 1 <= anchor
    ensures AddMonths(anchor, 0) == anchor
  {
    AddMonthsAt(anchor, 0);
    OwnMonth(FromOrdinal(anchor));
    hide AddMonths, LengthOf, MonthIndex, FromOrdinal;
  }

  /** Two dates in a row are at least a week apart and at most the hard-coded
      period of their frequency, clamping and leap years included. */
  lemma Gap(rule: Rule, i: nat)
    requires rule.Recurring()
    ensures NthDueDate(rule, i) + 7 <= NthDueDate(rule, i + 1)
    ensures NthDueDate(rule, i + 1) <= NthDueDate(rule, i) + LongestPeriodDays(rule.frequency)
  {
    hide AddMonths, ClampedDay, MonthIndex, FromOrdinal;
    if !rule.frequency.Weekly? {
      var start, p := FromOrdinal(rule.startsOn), MonthsByFrequency(rule.frequency);
      var k := MonthIndex(start) + i * p;
      NthAt(rule, i);
      NthAt(rule, i + 1);
      assert MonthIndex(start) + (i + 1) * p == k + p;
      ClampedStep(k, p, start.day);
    }
  }

  /** The day of month `k` that stands for an anchor's day of the month. */
  function ClampedDay(k: int, day: int): Day
    requires 12 <= k
  {
    FirstOf(k) - 1 + Min(day, LengthOf(k))
  }

  lemma NthAt(rule: Rule, i: nat)
    requires rule.Recurring() && !rule.frequency.Weekly?
    ensures 12 <= MonthIndex(FromOrdinal(rule.startsOn))
    ensures var start := FromOrdinal(rule.startsOn);
            var k := MonthIndex(start) + i * MonthsByFrequency(rule.frequency);
            NthDueDate(rule, i) == ClampedDay(k, start.day)
  {
    AddMonthsAt(rule.startsOn, i * MonthsByFrequency(rule.frequency));
  }

  lemma ClampedStep(k: int, p: int, day: int)
    requires 12 <= k && 1 <= day <= 31
    requires p == 1 || p == 3 || p == 12
    ensures var step := ClampedDay(k + p, day) - ClampedDay(k, day);
            7 <= step <= (if p == 1 then 31 else if p == 3 then 92 else 366)
  {
    hide Leap;
    if p == 1 {
      assert FirstOf(k + 1) == FirstOf(k) + LengthOf(k);
    } else if p == 3 {
      QuarterlyStep(k, day);
    } else {
      YearlyStep(k, day);
    }
  }

  lemma QuarterlyStep(k: int, day: int)
    requires 12 <= k && 1 <= day <= 31
    ensures 7 <= ClampedDay(k + 3, day) - ClampedDay(k, day) <= 92
  {
    hide Leap, FirstOf;
    QuarterLength(k);
    QuarterLength(k + 1);
    QuarterArithmetic(FirstOf(k + 3) - FirstOf(k), LengthOf(k), LengthOf(k + 1), LengthOf(k + 2), LengthOf(k + 3), day);
  }

  lemma YearlyStep(k: int, day: int)
    requires 12 <= k && 1 <= day <= 31
    ensures 7 <= ClampedDay(k + 12, day) - ClampedDay(k, day) <= 366
  {
    hide Leap, FirstOf;
    TwelveMonths(k);
    SameMonthNextYear(k);
    assert k % 12 == 1 ==> (k + 10) / 12 == k / 12;
    YearArithmetic(FirstOf(k + 12) - FirstOf(k), LengthOf(k), LengthOf(k + 12), day);
  }

  lemma QuarterArithmetic(days: int, a: int, b: int, c: int, d: int, day: int)
    requires 28 <= a <= 31 && 28 <= b <= 31 && 28 <= c <= 31 && 28 <= d <= 31 && 1 <= day <= 31
    requires days == a + b + c <= 92 && b + c + d <= 92
    ensures 7 <= days + Min(day, d) - Min(day, a) <= 92
  {
  }

  lemma YearArithmetic(days: int, a: int, b: int, day: int)
    requires 28 <= a <= 31 && 28 <= b <= 31 && 1 <= day <= 31
    requires 365 <= days <= 366 && b <= a + 1 && (a < b ==> days == 365)
    ensures 7 <= days + Min(day, b) - Min(day, a) <= 366
  {
  }

  lemma DatesGrow(rule: Rule, i: nat, j: nat)
    requires rule.Recurring() && i <= j
    ensures NthDueDate(rule, i) + 7 * (j - i) <= NthDueDate(rule, j)
    decreases j - i
  {
    if i < j {
      Gap(rule, i);
      DatesGrow(rule, i + 1, j);
    }
  }

  /** The i-th date is i weeks after the start, or i, 3i or 12i months after it on the
      start's own day of the month, which a shorter month only borrows: a date on the
      31st comes back to the 31st. */
  lemma DatesKeepTheDay(rule: Rule, i: nat)
    requires rule.Recurring()
    ensures rule.frequency.Weekly? ==> NthDueDate(rule, i) == rule.startsOn + 7 * i
    ensures !rule.frequency.Weekly? ==>
              1 <= NthDueDate(rule, i) &&
              var s, d := FromOrdinal(rule.startsOn), FromOrdinal(NthDueDate(rule, i));
              var months := if rule.frequency.Monthly? then i else if rule.frequency.Quarterly? then 3 * i else 12 * i;
              && MonthIndex(d) == MonthIndex(s) + months && d.day == Min(s.day, MonthLength(d.year, d.month))
  {
    if !rule.frequency.Weekly? {
      MonthsLater(rule.startsOn, i * MonthsByFrequency(rule.frequency));
    }
    hide AddMonths, FromOrdinal, MonthLength, MonthIndex;
  }

  // ----- the first index -----

  /** Nothing before the first index reaches the floor, and from two indices
      further on everything does: the loop computes at most two dates in vain. */
  lemma FirstIndexIsTight(rule: Rule, floor: Day, j: nat)
    requires rule.Recurring()
    ensures j < FirstIndex(rule, floor) ==> NthDueDate(rule, j) < floor
    ensures FirstIndex(rule, floor) + 2 <= j ==> floor <= NthDueDate(rule, j)
  {
    if floor <= rule.startsOn {
      StartIsFirst(rule);
      DatesGrow(rule, 0, j);
    } else if !rule.frequency.Weekly? {
      var from, to := FromOrdinal(rule.startsOn), FromOrdinal(floor);
      var elapsed := MonthIndex(to) - MonthIndex(from);
      ElapsedPeriods(elapsed, MonthsByFrequency(rule.frequency), j);
      AgainstFloor(rule, floor, j);
    }
  }

  lemma AgainstFloor(rule: Rule, floor: Day, j: nat)
    requires rule.Recurring() && !rule.frequency.Weekly? && 1 <= floor
    ensures var k := MonthIndex(FromOrdinal(rule.startsOn)) + j * MonthsByFrequency(rule.frequency);
            var f := MonthIndex(FromOrdinal(floor));
            (k < f ==> NthDueDate(rule, j) < floor) && (f < k ==> floor < NthDueDate(rule, j))
  {
    hide NthDueDate, ClampedDay, ToOrdinal, MonthLength;
    var from, to := FromOrdinal(rule.startsOn), FromOrdinal(floor);
    var k, f := MonthIndex(from) + j * MonthsByFrequency(rule.frequency), MonthIndex(to);
    NthAt(rule, j);
    OwnClampedDay(floor);
    MonthOrder(from.day, k, to.day, f);
    MonthOrder(to.day, f, from.day, k);
  }

  lemma OwnClampedDay(d: Day)
    requires 1 <= d
    ensures 12 <= MonthIndex(FromOrdinal(d))
    ensures var date := FromOrdinal(d);
            var k := MonthIndex(date);
            d == ClampedDay(k, date.day)
  {
    AddMonthsAt(d, 0);
    NoMonthsAdded(d);
  }

  lemma StartIsFirst(rule: Rule)
    requires rule.Recurring()
    ensures NthDueDate(rule, 0) == rule.startsOn
  {
    NoMonthsAdded(rule.startsOn);
  }

  // A date of an earlier month is an earlier date, clamped or not.
  lemma MonthOrder(dayA: int, a: int, dayB: int, b: int)
    requires 1 <= dayA && 1 <= dayB && 12 <= a && 12 <= b
    ensures a < b ==> ClampedDay(a, dayA) < ClampedDay(b, dayB)
  {
    hide Leap;
    if a < b {
      assert FirstOf(a + 1) == FirstOf(a) + LengthOf(a);
      MonthStartsGrow(a + 1, b);
    }
  }

  lemma ElapsedPeriods(elapsed: int, p: int, j: nat)
    requires p == 1 || p == 3 || p == 12
    ensures j + 1 < elapsed / p ==> j * p < elapsed
    ensures elapsed / p + 1 <= j ==> elapsed < j * p
  {
  }

  lemma JumpLosesNothing(rule: Rule, floor: Day, last: Day)
    requires rule.Recurring()
    ensures Enumerate(rule, 0, floor, last) == Enumerate(rule, FirstIndex(rule, floor), floor, last)
  {
    SkipTo(rule, 0, FirstIndex(rule, floor), floor, last);
  }

  lemma {:induction false} SkipTo(rule: Rule, i: nat, k: nat, floor: Day, last: Day)
    requires rule.Recurring() && i <= k <= FirstIndex(rule, floor)
    ensures Enumerate(rule, i, floor, last) == Enumerate(rule, k, floor, last)
    decreases k - i
  {
    hide NthDueDate, FirstIndex;
    if i < k {
      FirstIndexIsTight(rule, floor, i);
      DatesGrow(rule, i, k);
      if NthDueDate(rule, i) <= last {
        SkipTo(rule, i + 1, k, floor, last);
      }
    }
  }

  // ----- the window holds exactly the scheduled dates -----

  predicate Increasing(dates: seq<Day>) {
    forall i, j :: 0 <= i < j < |dates| ==> dates[i] < dates[j]
  }

  lemma {:induction false} EnumerateIsExact(rule: Rule, i: nat, floor: Day, last: Day)
    requires rule.Recurring()
    ensures Increasing(Enumerate(rule, i, floor, last))
    ensures forall d :: d in Enumerate(rule, i, floor, last) <==>
                        floor <= d <= last && exists j: nat :: i <= j && NthDueDate(rule, j) == d
    decreases last - NthDueDate(rule, i)
  {
    hide NthDueDate;
    var due := NthDueDate(rule, i);
    Gap(rule, i);
    forall j: nat | i <= j
      ensures due <= NthDueDate(rule, j)
      ensures i < j ==> due < NthDueDate(rule, j)
    {
      DatesGrow(rule, i, j);
    }
    if due <= last {
      var rest := Enumerate(rule, i + 1, floor, last);
      EnumerateIsExact(rule, i + 1, floor, last);
      forall d | d in rest
        ensures due < d
      {
        var j: nat :| i + 1 <= j && NthDueDate(rule, j) == d;
      }
      var all := Enumerate(rule, i, floor, last);
      assert all == (if floor <= due then [due] else []) + rest;
      assert forall b :: 0 <= b < |rest| ==> rest[b] in rest;
    }
  }

  /** A recurring rule's dates in a window, before any cap: strictly increasing, and
      exactly the scheduled dates between the floor and the horizon. */
  lemma WindowIsExact(rule: Rule, floor: Day, horizon: Day)
    requires rule.Recurring()
    ensures Increasing(Enumerate(rule, 0, floor, LastDay(rule, horizon)))
    ensures forall d :: d in Enumerate(rule, 0, floor, LastDay(rule, horizon)) <==>
                        Scheduled(rule, d) && floor <= d <= horizon
  {
    hide NthDueDate;
    EnumerateIsExact(rule, 0, floor, LastDay(rule, horizon));
  }

  // ----- the hard-coded periods and horizons are wide enough -----

  /** From any day on or after the start, a due date comes within one period. */
  lemma {:induction false} NextDateWithin(rule: Rule, t: Day, i: nat) returns (j: nat)
    requires rule.Recurring() && NthDueDate(rule, i) <= t
    ensures t <= NthDueDate(rule, j) < t + LongestPeriodDays(rule.frequency)
    decreases t - NthDueDate(rule, i)
  {
    hide NthDueDate;
    Gap(rule, i);
    if NthDueDate(rule, i) == t {
      j := i;
    } else if t <= NthDueDate(rule, i + 1) {
      j := i + 1;
    } else {
      j := NextDateWithin(rule, t, i + 1);
    }
  }

  /** Each bound is reached, so no smaller constant would do. */
  lemma PeriodsAreTight()
    ensures PeriodReached(Date(2023, 12, 31), Monthly)
    ensures PeriodReached(Date(2023, 5, 31), Quarterly)
    ensures PeriodReached(Date(2024, 1, 1), Yearly)
  {
    hide PeriodReached;
    Reached(Date(2023, 12, 31), Monthly, Date(2024, 1, 31));
    Reached(Date(2023, 5, 31), Quarterly, Date(2023, 8, 31));
    Reached(Date(2024, 1, 1), Yearly, Date(2025, 1, 1));
  }

  lemma Reached(start: Date, frequency: Frequency, next: Date)
    requires Valid(start) && (frequency.Monthly? || frequency.Quarterly? || frequency.Yearly?)
    requires MonthIndex(next) == MonthIndex(start) + MonthsByFrequency(frequency)
    requires Valid(next) && next.day == Min(start.day, MonthLength(next.year, next.month))
    requires ToOrdinal(next) - ToOrdinal(start) == LongestPeriodDays(frequency)
    ensures PeriodReached(start, frequency)
  {
    hide FromOrdinal, ToOrdinal, MonthLength;
    CalendarRoundTrip(start);
    var rule := Rule(ToOrdinal(start), frequency, None);
    StartIsFirst(rule);
    var total := start.month - 1 + MonthsByFrequency(frequency);
    assert start.year + total / 12 == next.year && total % 12 + 1 == next.month;
    assert NthDueDate(rule, 1) == ToOrdinal(next);
  }

  ghost predicate PeriodReached(start: Date, frequency: Frequency) {
    Valid(start) &&
    var rule := Rule(ToOrdinal(start), frequency, None);
    rule.Recurring() && NthDueDate(rule, 1) - NthDueDate(rule, 0) == LongestPeriodDays(frequency)
  }

  lemma {:induction false} SpacedOut(rule: Rule, i: nat, floor: Day, last: Day)
    requires rule.Recurring()
    ensures var start := Max(floor, NthDueDate(rule, i));
            |Enumerate(rule, i, floor, last)| <= (if start <= last then (last - start) / 7 + 1 else 0)
    decreases last - NthDueDate(rule, i)
  {
    hide NthDueDate;
    var due := NthDueDate(rule, i);
    Gap(rule, i);
    if due <= last {
      SpacedOut(rule, i + 1, floor, last);
    }
  }

  /** The cap of 60 never cuts the window the generator asks for. */
  lemma CapNeverCuts(rule: Rule, today: Day)
    requires rule.Recurring()
    ensures var horizon := today + HorizonDays(rule.frequency);
            Dates(rule, today, horizon) == Enumerate(rule, 0, today, LastDay(rule, horizon))
  {
    hide NthDueDate;
    SpacedOut(rule, 0, today, LastDay(rule, today + HorizonDays(rule.frequency)));
  }

  /** What the generator writes on day `today` for a recurring commitment: every
      scheduled date up to the horizon, none missing and none added. */
  lemma GeneratedWindow(rule: Rule, today: Day)
    requires rule.Recurring()
    ensures var horizon := today + HorizonDays(rule.frequency);
            Increasing(Dates(rule, today, horizon)) &&
            forall d :: d in Dates(rule, today, horizon) <==> Scheduled(rule, d) && today <= d <= horizon
  {
    hide NthDueDate;
    CapNeverCuts(rule, today);
    WindowIsExact(rule, today, today + HorizonDays(rule.frequency));
  }

  /** An open-ended commitment always shows a date: after its start, the window
      written on `today` still holds one `missed` days later, for up to 30 days. */
  lemma AlwaysADateAhead(rule: Rule, today: Day, missed: nat) returns (d: Day)
    requires rule.Recurring() && rule.endsOn.None? && rule.startsOn <= today && missed <= 30
    ensures d in Dates(rule, today, today + HorizonDays(rule.frequency)) && today + missed <= d
  {
    hide NthDueDate;
    StartIsFirst(rule);
    var j := NextDateWithin(rule, today + missed, 0);
    d := NthDueDate(rule, j);
    GeneratedWindow(rule, today);
  }

  // ----- the windows of every rule, by the numbers -----

  /** 60 dates at most, and the first ones. */
  lemma CappedAtSixty(rule: Rule, floor: Day, horizon: Day)
    requires rule.Recurring() && floor <= horizon
    ensures var all := Enumerate(rule, 0, floor, LastDay(rule, horizon));
            Dates(rule, floor, horizon) == if |all| <= 60 then all else all[..60]
  {
  }

  /** A one-off commitment falls due once, on its start, and the floor does not count:
      an invoice dated yesterday did exist. */
  lemma OneOffWindow(rule: Rule, floor: Day, horizon: Day)
    requires rule.frequency.Oneoff? && 1 <= rule.startsOn
    ensures floor <= horizon ==> forall d :: d in Dates(rule, floor, horizon) <==> Scheduled(rule, d) && d <= horizon
    ensures forall d :: Scheduled(rule, d) <==> d == rule.startsOn && (rule.endsOn.None? || d <= rule.endsOn.value)
    ensures |Dates(rule, floor, horizon)| <= 1 && (horizon < floor ==> Dates(rule, floor, horizon) == [])
  {
  }

  /** How far ahead each frequency is written, in days. */
  function DaysAhead(frequency: Frequency): int {
    match frequency
    case Weekly => 90
    case Monthly => 90
    case Quarterly => 122
    case Yearly => 396
    case Oneoff => 90
  }

  /** What the generator writes on a day for a rule of any frequency: the scheduled
      dates up to 90, 122 or 396 days ahead, and for a recurring rule none before that
      day. */
  lemma WrittenOn(rule: Rule, today: Day, d: Day)
    requires 1 <= rule.startsOn
    ensures d in Dates(rule, today, today + HorizonDays(rule.frequency)) <==>
            Scheduled(rule, d) && (rule.frequency.Oneoff? || today <= d) && d <= today + DaysAhead(rule.frequency)
  {
    if rule.frequency.Oneoff? {
      OneOffWindow(rule, today, today + HorizonDays(rule.frequency));
    } else {
      GeneratedWindow(rule, today);
    }
    hide Scheduled, Dates;
  }
}
