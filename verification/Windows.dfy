/** One instant, read in each person's calendar. */
module Clock {
  import opened Calendar
  import opened Records

  const HOUR: int := 3_600_000_000
  const DAY: int := 24 * HOUR

  /** A zone is any offset from UTC-12 to UTC+14 at the instant considered. */
  predicate Offset(o: int) {
    -12 * HOUR <= o <= 14 * HOUR
  }

  function DateAt(at: Instant, offset: int): Day {
    (at + offset) / DAY + 1
  }

  /** A date holds from midnight to midnight of the zone's own clock, and no one's is more
      than a day from the server's. */
  lemma OneDayApart(at: Instant, offset: int)
    requires Offset(offset)
    ensures (DateAt(at, offset) - 1) * 86_400_000_000 <= at + offset < DateAt(at, offset) * 86_400_000_000
    ensures DateAt(at, 0) - 1 <= DateAt(at, offset) <= DateAt(at, 0) + 1
  {
  }

  /** Midday of a given date, for a pass replayed for that date. */
  function Noon(today: Day): Instant {
    (today - 1) * DAY + 12 * HOUR
  }

  /** At noon the date is everybody's, except that from UTC+12 on it is tomorrow. */
  lemma NoonIsThatDay(today: Day, offset: int)
    requires Offset(offset)
    ensures DateAt(Noon(today), offset) == if 12 * HOUR <= offset then today + 1 else today
  {
  }
}

/** The days on which a reminder family may go out. */
module ReminderWindow {
  import opened Calendar
  import opened Records
  import opened Schedule

  const TIMEZONE_SPREAD_DAYS := 1

  datatype Span = Span(earliest: Day, latest: Day) {
    predicate Has(d: Day) {
      earliest <= d <= latest
    }
  }

  function Bounds(kind: Kind, onDate: Day): Span {
    match kind
    case Notice => Span(onDate, onDate + MAX_REMINDER_DAYS)
    case Overdue => Span(onDate - OVERDUE_REMINDER_WINDOW_DAYS, onDate - OVERDUE_REMINDER_DAYS)
    case ActionRequired => Span(onDate, onDate + MAX_CANCELLATION_NOTICE_DAYS + MAX_REMINDER_DAYS)
  }

  function QueryBounds(kind: Kind, onDate: Day): Span {
    var b := Bounds(kind, onDate);
    Span(b.earliest - TIMEZONE_SPREAD_DAYS, b.latest + TIMEZONE_SPREAD_DAYS)
  }

  predicate IsDue(kind: Kind, due: Day, c: Commitment, today: Day) {
    var b := Bounds(kind, today);
    var latest := if kind.Notice? then Min(b.latest, today + c.reminderDaysBefore) else b.latest;
    b.earliest <= due <= latest
  }

  /** The days on which the exact predicate holds form one interval around the due
      date: this is what makes a skipped pass recoverable. */
  lemma DueDays(kind: Kind, due: Day, c: Commitment, today: Day)
    requires c.Valid()
    ensures IsDue(Notice, due, c, today) <==> due - c.reminderDaysBefore <= today <= due
    ensures IsDue(Overdue, due, c, today) <==>
              due + 3 <= today <= due + 30
  {
  }
}

/** The deadlines that call for an action before a due date: the end of a trial and
    the last day to cancel. */
module ActionWindows {
  import opened Calendar
  import opened Options
  import opened Records
  import opened ReminderWindow
  import opened Schedule

  datatype Reason = Trial | Cancellation

  datatype ActionWindow = ActionWindow(deadline: Day, reason: Reason, leadDays: int) {
    function OpensOn(): Day {
      deadline - leadDays
    }

    predicate IsOpen(reference: Day) {
      OpensOn() <= reference <= deadline
    }
  }

  function TrialWindow(c: Commitment, due: Day): Option<ActionWindow> {
    if c.trialEndsOn.None? || due != c.rule.startsOn then None
    else Some(ActionWindow(c.trialEndsOn.value, Trial, Max(c.reminderDaysBefore, MIN_TRIAL_NOTICE_DAYS)))
  }

  function CancellationWindow(c: Commitment, due: Day): Option<ActionWindow> {
    if c.cancellationNoticeDays.None? then None
    else Some(ActionWindow(due - c.cancellationNoticeDays.value, Cancellation, c.reminderDaysBefore))
  }

  function NotPast(w: Option<ActionWindow>, reference: Day): seq<ActionWindow> {
    if w.Some? && reference <= w.value.deadline then [w.value] else []
  }

  // The order of the pair (deadline, reason), where the word for a cancellation
  // sorts before the word for a trial.
  predicate Precedes(a: ActionWindow, b: ActionWindow) {
    a.deadline < b.deadline || (a.deadline == b.deadline && a.reason.Cancellation?)
  }

  function ActionWindowOf(c: Commitment, due: Day, reference: Day): Option<ActionWindow> {
    var windows := NotPast(TrialWindow(c, due), reference) + NotPast(CancellationWindow(c, due), reference);
    if |windows| == 0 then None
    else if |windows| == 1 || !Precedes(windows[1], windows[0]) then Some(windows[0])
    else Some(windows[1])
  }

  predicate Candidate(c: Commitment, due: Day, reference: Day, w: ActionWindow) {
    (TrialWindow(c, due) == Some(w) || CancellationWindow(c, due) == Some(w)) && reference <= w.deadline
  }

  /** The window chosen is the tightest whose deadline has not passed, a
      cancellation winning a tie; there is none only when none is left. */
  lemma ChoosesTightest(c: Commitment, due: Day, reference: Day)
    ensures var chosen := ActionWindowOf(c, due, reference);
            (chosen.Some? ==> Candidate(c, due, reference, chosen.value)) &&
            forall w :: Candidate(c, due, reference, w) ==>
              chosen.Some? && (w == chosen.value || Precedes(chosen.value, w))
  {
  }

  /** The trial's deadline stands: it concerns the first due date only, and the day it is
      read on has not passed it. */
  predicate TrialStands(c: Commitment, due: Day, onDate: Day) {
    c.trialEndsOn.Some? && due == c.rule.startsOn && onDate <= c.trialEndsOn.value
  }

  predicate CancellationStands(c: Commitment, due: Day, onDate: Day) {
    c.cancellationNoticeDays.Some? && onDate <= due - c.cancellationNoticeDays.value
  }

  /** The earlier deadline comes first, a cancellation before a trial on the same day. */
  predicate TrialFirst(c: Commitment, due: Day, onDate: Day) {
    TrialStands(c, due, onDate) &&
    (CancellationStands(c, due, onDate) ==> c.trialEndsOn.value < due - c.cancellationNoticeDays.value)
  }

  /** The window chosen, by the columns: for a trial, open from the lead time or three
      days before its end; for a cancellation, from the lead time before the last day to
      cancel. */
  lemma ChosenByColumns(c: Commitment, due: Day, onDate: Day, today: Day)
    ensures var w := ActionWindowOf(c, due, onDate);
            && (w.Some? <==> TrialStands(c, due, onDate) || CancellationStands(c, due, onDate))
            && (w.Some? && w.value.reason.Trial? <==> TrialFirst(c, due, onDate))
            && (w.Some? ==>
                  (w.value.IsOpen(today) <==>
                   if TrialFirst(c, due, onDate) then
                     today <= c.trialEndsOn.value
                     && (c.trialEndsOn.value - c.reminderDaysBefore <= today || c.trialEndsOn.value - 3 <= today)
                   else
                     due - c.cancellationNoticeDays.value - c.reminderDaysBefore <= today <= due - c.cancellationNoticeDays.value))
  {
  }

  /** The action bounds cover every day of a cancellation window. */
  lemma CancellationAlwaysCovered(c: Commitment, due: Day, today: Day)
    requires c.Valid() && CancellationWindow(c, due).Some? && CancellationWindow(c, due).value.IsOpen(today)
    ensures IsDue(ActionRequired, due, c, today)
    ensures today <= due <= today + MAX_CANCELLATION_NOTICE_DAYS + MAX_REMINDER_DAYS
  {
  }

  /** They cover every day of a trial window if and only if the start comes at most
      90 days after the window opens; 60 days from the trial's end always suffice. */
  lemma TrialCoverage(c: Commitment)
    requires c.Valid() && c.trialEndsOn.Some?
    ensures var w := TrialWindow(c, c.rule.startsOn).value;
            (forall t :: w.IsOpen(t) ==> IsDue(ActionRequired, c.rule.startsOn, c, t)) <==>
            c.rule.startsOn - w.OpensOn() <= 90
    ensures c.rule.startsOn - c.trialEndsOn.value <= 60 ==>
              c.rule.startsOn - TrialWindow(c, c.rule.startsOn).value.OpensOn() <= 90
  {
    var w := TrialWindow(c, c.rule.startsOn).value;
    assert w.IsOpen(w.OpensOn());
  }
}
