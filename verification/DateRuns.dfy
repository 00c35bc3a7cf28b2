/** Reminders counted by due date rather than by row: an edit that reschedules deletes
    the rows of a commitment and writes new ones, each with its own log lines. */
module DateRuns {
  import opened Daily
  import opened Evolution
  import opened Records
  import opened ReminderRuns
  import opened Reminders

  /** The step delivers the date's reminder. */
  ghost predicate SentAt(s: Sys, step: Step, k: Key, kind: Kind, channel: Channel) {
    step.Dispatching? && step.kind == kind && step.channel == channel && k in Delivered(s.db, step.p, kind, channel)
  }

  /** The step deletes the line of the date's row. */
  ghost predicate ReopenedAt(s: Sys, step: Step, k: Key, kind: Kind, channel: Channel) {
    step.Reopening? && k in s.db.rows && Mark(s.db.rows[k].id, kind, channel) in Reopened(s.db, step.commitment)
  }

  /** The date has a row it did not have before. */
  ghost predicate Replaced(a: Db, b: Db, k: Key) {
    k in b.rows && (k in a.rows ==> a.rows[k].id != b.rows[k].id)
  }

  ghost predicate Unsent(s: Sys, k: Key, kind: Kind, channel: Channel) {
    k in s.db.rows && Mark(s.db.rows[k].id, kind, channel) !in s.closed
  }

  ghost function Sends(states: seq<Sys>, steps: seq<Step>, k: Key, kind: Kind, channel: Channel, n: nat): nat
    requires n <= |steps| <= |states|
  {
    if n == 0 then 0
    else Sends(states, steps, k, kind, channel, n - 1) + Times(SentAt(states[n - 1], steps[n - 1], k, kind, channel))
  }

  ghost function Reopenings(states: seq<Sys>, steps: seq<Step>, k: Key, kind: Kind, channel: Channel, n: nat): nat
    requires n <= |steps| <= |states|
  {
    if n == 0 then 0
    else Reopenings(states, steps, k, kind, channel, n - 1) + Times(ReopenedAt(states[n - 1], steps[n - 1], k, kind, channel))
  }

  /** How many rows the date has had. */
  ghost function RowsHad(states: seq<Sys>, k: Key, n: nat): nat
    requires n < |states|
  {
    if n == 0 then Times(k in states[0].db.rows)
    else RowsHad(states, k, n - 1) + Times(Replaced(states[n - 1].db, states[n].db, k))
  }

  /** A delivery uses up an unsent row, which only a new row or a reopening gives back. */
  lemma StepPays(s: Sys, step: Step, k: Key, kind: Kind, channel: Channel)
    requires Inv(s) && Legal(s, step)
    ensures var t := Next(s, step);
            Times(SentAt(s, step, k, kind, channel)) + Times(Unsent(t, k, kind, channel)) <=
            Times(Unsent(s, k, kind, channel)) + Times(Replaced(s.db, t.db, k)) + Times(ReopenedAt(s, step, k, kind, channel))
  {
    match step
    case Dispatching(p, _, _) =>
      hide Delivered, Stamps;
      if SentAt(s, step, k, kind, channel) {
        DeliveryCloses(s, p, k, kind, channel);
      }
    case _ => hide Prepare, Reopened, Evolves;
  }

  lemma DeliveryCloses(s: Sys, p: Pass, k: Key, kind: Kind, channel: Channel)
    requires Inv(s) && p.Valid() && OnTime(s, p, REMINDER_LOG_MARGIN_DAYS) && k in Delivered(s.db, p, kind, channel)
    ensures Unsent(s, k, kind, channel)
    ensures Mark(s.db.rows[k].id, kind, channel) in Next(s, Dispatching(p, kind, channel)).closed
  {
    DeliveredWasOpen(s, p, k, kind, channel);
    assert Mark(s.db.rows[k].id, kind, channel) in Marks(s.db, Delivered(s.db, p, kind, channel), kind, channel);
  }

  lemma {:induction false} DeliveriesArePaid(states: seq<Sys>, steps: seq<Step>, k: Key, kind: Kind, channel: Channel, n: nat)
    requires IsRun(states, steps) && Inv(states[0]) && n <= |steps|
    ensures Sends(states, steps, k, kind, channel, n) + Times(Unsent(states[n], k, kind, channel)) <=
            RowsHad(states, k, n) + Reopenings(states, steps, k, kind, channel, n)
  {
    if n != 0 {
      hide Inv, Next, LegalWithin, SentAt, ReopenedAt, Replaced, Unsent, Times;
      DeliveriesArePaid(states, steps, k, kind, channel, n - 1);
      RunKeepsInv(states, steps, n - 1);
      StepPays(states[n - 1], steps[n - 1], k, kind, channel);
    }
  }

  lemma {:induction false} OnlyActionsAreReopened(states: seq<Sys>, steps: seq<Step>, k: Key, kind: Kind, channel: Channel, n: nat)
    requires n <= |steps| <= |states| && !kind.ActionRequired?
    ensures Reopenings(states, steps, k, kind, channel, n) == 0
  {
    if n != 0 {
      OnlyActionsAreReopened(states, steps, k, kind, channel, n - 1);
    }
  }

  /** In any run a date's reminder of a family goes out on a channel at most once for
      each row the date has had, and once more for each reopening: a date whose row no
      edit replaced is announced once. */
  lemma OncePerRowOfDate(states: seq<Sys>, steps: seq<Step>, k: Key, kind: Kind, channel: Channel)
    requires IsRun(states, steps) && Start(states[0])
    ensures var n := |steps|;
            Sends(states, steps, k, kind, channel, n) <= RowsHad(states, k, n) + Reopenings(states, steps, k, kind, channel, n)
    ensures !kind.ActionRequired? ==> Sends(states, steps, k, kind, channel, |steps|) <= RowsHad(states, k, |steps|)
  {
    DeliveriesArePaid(states, steps, k, kind, channel, |steps|);
    if !kind.ActionRequired? {
      OnlyActionsAreReopened(states, steps, k, kind, channel, |steps|);
    }
  }
}
