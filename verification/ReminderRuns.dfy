/** Any run of the reminder protocol: daily preparations, dispatches of any family on
    any channel in any order, with any deliveries failing, and any change of the
    tables in between. */
module ReminderRuns {
  import opened ActionWindows
  import opened Calendar
  import opened Daily
  import opened Evolution
  import opened Occurrences
  import opened Records
  import opened Reminders
  import opened ReminderWindow
  import opened Schedule

  /** The tables, and what an observer of a run remembers: how often each reminder
      was delivered, which lines were ever written to the log and not reopened
      since, how often each was reopened, and the latest day the log was purged on. */
  datatype Sys = Sys(db: Db, sent: multiset<Mark>, closed: set<Mark>, reopened: multiset<Mark>, latest: Day)

  datatype Step =
    | Preparing(reference: Day, cutoff: Instant)
    | Dispatching(p: Pass, kind: Kind, channel: Channel)
    | Reopening(commitment: CommitmentId)
    | Changing(after: Db)

  /** No account of the tables reads a day further behind the latest purge than the
      margin. */
  ghost predicate OnTime(s: Sys, p: Pass, margin: int) {
    forall user :: user in s.db.users ==> s.latest - margin <= p.Today(user)
  }

  ghost predicate Possible(s: Sys, step: Step) {
    match step
    case Preparing(_, _) => s.db.Sound()
    case Dispatching(p, _, _) => p.Valid()
    case Reopening(_) => true
    case Changing(after) => Evolves(s.db, after)
  }

  ghost predicate LegalWithin(s: Sys, step: Step, margin: int) {
    Possible(s, step) && (step.Dispatching? ==> OnTime(s, step.p, margin))
  }

  /** The margin the program's constants leave between the last overdue reminder and
      the purge. */
  ghost predicate Legal(s: Sys, step: Step) {
    LegalWithin(s, step, REMINDER_LOG_MARGIN_DAYS)
  }

  function PendingOf(db: Db, id: CommitmentId): set<Key> {
    set k | k in db.rows && k.commitment == id && db.rows[k].status.Pending?
  }

  /** The lines an edit of a deadline clears, so that its action can go out again. */
  function Reopened(db: Db, id: CommitmentId): set<Mark> {
    set m | m in db.log && m.kind.ActionRequired? && m.row in RowIds(db, PendingOf(db, id))
  }

  function ClearActions(db: Db, id: CommitmentId): Db {
    db.(log := db.log - Reopened(db, id))
  }

  ghost function Next(s: Sys, step: Step): Sys
    requires step.Preparing? ==> s.db.Sound()
  {
    match step
    case Preparing(reference, cutoff) =>
      s.(db := Prepare(s.db, reference, cutoff), latest := Max(s.latest, reference))
    case Dispatching(p, kind, channel) =>
      var keys := Delivered(s.db, p, kind, channel);
      s.(db := Dispatch(s.db, p, kind, channel),
         sent := s.sent + multiset(Marks(s.db, keys, kind, channel)),
         closed := s.closed + Stamps(s.db, keys, kind, channel, p.Reference()))
    case Reopening(id) =>
      s.(db := ClearActions(s.db, id),
         closed := s.closed - Reopened(s.db, id),
         reopened := s.reopened + multiset(Reopened(s.db, id)))
    case Changing(after) => s.(db := after)
  }

  /** A run is the list of its states, one legal step apart. */
  ghost predicate IsRunWithin(states: seq<Sys>, steps: seq<Step>, margin: int) {
    && |states| == |steps| + 1
    && forall i :: 0 <= i < |steps| ==> LegalWithin(states[i], steps[i], margin) && states[i + 1] == Next(states[i], steps[i])
  }

  ghost predicate IsRun(states: seq<Sys>, steps: seq<Step>) {
    IsRunWithin(states, steps, REMINDER_LOG_MARGIN_DAYS)
  }

  /** A run may start from any sound tables, the log taken as it stands. */
  ghost predicate Start(s: Sys) {
    s.db.Sound() && s.sent == multiset{} && s.reopened == multiset{} && s.closed == s.db.log
  }

  // ----- the invariant -----

  /** A line once written stays in the log until it is too old to matter. */
  ghost predicate ClosedIsLogged(s: Sys, k: Key) {
    k in s.db.rows ==>
      forall kind, channel :: Mark(s.db.rows[k].id, kind, channel) in s.closed ==>
        Mark(s.db.rows[k].id, kind, channel) in s.db.log || k.due < s.latest - PURGE_REMINDERS_AFTER_DAYS
  }

  function Times(b: bool): nat {
    if b then 1 else 0
  }

  ghost predicate Inv(s: Sys) {
    && s.db.Sound()
    && s.db.log <= s.closed
    && (forall m :: m in s.closed ==> m.row < s.db.nextRow)
    && (forall k :: ClosedIsLogged(s, k))
    && (forall m :: s.sent[m] <= s.reopened[m] + Times(m in s.closed))
  }

  /** A row that is sent was not closed: where the account's own day is at most 15 days
      behind the latest purge, no row whose lines were purged is due. */
  lemma DeliveredWasOpen(s: Sys, p: Pass, k: Key, kind: Kind, channel: Channel)
    requires Inv(s) && p.Valid() && k in Delivered(s.db, p, kind, channel)
    requires s.latest - REMINDER_LOG_MARGIN_DAYS <= p.Today(s.db.rows[k].user)
    ensures Mark(s.db.rows[k].id, kind, channel) !in s.closed
  {
    DeliveredIsOpen(s.db, p, k, kind, channel);
    assert ClosedIsLogged(s, k);
  }

  /** What one dispatch does to one line: it is sent at most once, and then closed. */
  lemma DispatchEffect(s: Sys, step: Step, m: Mark)
    requires Inv(s) && step.Dispatching? && Legal(s, step)
    ensures var t := Next(s, step);
            && s.closed <= t.closed
            && (t.sent[m] == s.sent[m] || (t.sent[m] == s.sent[m] + 1 && m !in s.closed && m in t.closed))
            && (t.sent[m] == s.sent[m] + 1 <==>
                m.kind == step.kind && m.channel == step.channel &&
                exists k :: k in Delivered(s.db, step.p, step.kind, step.channel) && s.db.rows[k].id == m.row)
  {
    var keys := Delivered(s.db, step.p, step.kind, step.channel);
    if m in Marks(s.db, keys, step.kind, step.channel) {
      var k :| k in keys && m == Mark(s.db.rows[k].id, step.kind, step.channel);
      DeliveredWasOpen(s, step.p, k, step.kind, step.channel);
    }
  }

  lemma StepKeepsInv(s: Sys, step: Step)
    requires Inv(s) && Legal(s, step)
    ensures Inv(Next(s, step))
  {
    match step
    case Preparing(reference, cutoff) => PreparingKeepsInv(s, reference, cutoff);
    case Dispatching(p, kind, channel) => DispatchingKeepsInv(s, step);
    case Reopening(id) => ReopeningKeepsInv(s, id);
    case Changing(after) => ChangingKeepsInv(s, after);
  }

  lemma PreparingKeepsInv(s: Sys, reference: Day, cutoff: Instant)
    requires Inv(s)
    ensures Inv(Next(s, Preparing(reference, cutoff)))
  {
    hide Prepare;
    var t := Next(s, Preparing(reference, cutoff));
    PrepareKeeps(s.db, reference, cutoff);
    forall k
      ensures ClosedIsLogged(t, k)
    {
      if k in t.db.rows {
        assert KeptByPurge(s.db, t.db, k, reference - PURGE_REMINDERS_AFTER_DAYS);
        assert ClosedIsLogged(s, k);
      }
    }
  }

  lemma DispatchingKeepsInv(s: Sys, step: Step)
    requires Inv(s) && step.Dispatching? && Legal(s, step)
    ensures Inv(Next(s, step))
  {
    hide Delivered, Stamps;
    var t := Next(s, step);
    var keys := Delivered(s.db, step.p, step.kind, step.channel);
    StampsAreOfRows(s.db, keys, step.kind, step.channel, step.p.Reference());
    assert t.db.Sound();
    forall m
      ensures t.sent[m] <= t.reopened[m] + Times(m in t.closed)
    {
      hide Next, Db.Sound;
      DispatchEffect(s, step, m);
      assert t.reopened == s.reopened by { DispatchFrame(s, step); }
    }
    forall k
      ensures ClosedIsLogged(t, k)
    {
      assert ClosedIsLogged(s, k);
    }
  }

  lemma DispatchFrame(s: Sys, step: Step)
    requires step.Dispatching? && Legal(s, step)
    ensures Next(s, step).reopened == s.reopened
  {
  }

  lemma StampsAreOfRows(db: Db, keys: set<Key>, kind: Kind, channel: Channel, onDate: Day)
    requires db.Sound()
    ensures forall m :: m in Stamps(db, keys, kind, channel, onDate) ==> m.row < db.nextRow
  {
    hide TrialAction;
  }

  lemma ReopeningKeepsInv(s: Sys, id: CommitmentId)
    requires Inv(s)
    ensures Inv(Next(s, Reopening(id)))
  {
    hide Reopened;
    var t := Next(s, Reopening(id));
    forall k
      ensures ClosedIsLogged(t, k)
    {
      assert ClosedIsLogged(s, k);
    }
  }

  lemma ChangingKeepsInv(s: Sys, after: Db)
    requires Inv(s) && Evolves(s.db, after)
    ensures Inv(Next(s, Changing(after)))
  {
    var t := Next(s, Changing(after));
    forall k
      ensures ClosedIsLogged(t, k)
    {
      if k in after.rows && after.rows[k].id < s.db.nextRow {
        assert Persists(s.db, after, k);
        assert ClosedIsLogged(s, k);
      }
    }
  }

  lemma {:induction false} RunKeepsInv(states: seq<Sys>, steps: seq<Step>, i: nat)
    requires IsRun(states, steps) && Inv(states[0]) && i <= |steps|
    ensures Inv(states[i])
  {
    hide Inv, Next, LegalWithin;
    if i != 0 {
      RunKeepsInv(states, steps, i - 1);
      StepKeepsInv(states[i - 1], steps[i - 1]);
    }
  }

  // ----- main results -----

  /** Whatever happens, a row's reminder of a family is delivered on a channel once,
      and once more only for each time an edit reopened it. */
  lemma AtMostOnce(states: seq<Sys>, steps: seq<Step>, m: Mark)
    requires IsRun(states, steps) && Start(states[0])
    ensures states[|steps|].sent[m] <= 1 + states[|steps|].reopened[m]
    ensures !m.kind.ActionRequired? ==> states[|steps|].sent[m] <= 1
  {
    RunKeepsInv(states, steps, |steps|);
    if !m.kind.ActionRequired? {
      OnlyActionsReopen(states, steps, m, |steps|);
    }
  }

  lemma {:induction false} OnlyActionsReopen(states: seq<Sys>, steps: seq<Step>, m: Mark, i: nat)
    requires IsRun(states, steps) && !m.kind.ActionRequired? && i <= |steps|
    ensures states[i].reopened[m] == states[0].reopened[m]
  {
    if i != 0 {
      OnlyActionsReopen(states, steps, m, i - 1);
      assert states[i] == Next(states[i - 1], steps[i - 1]);
    }
  }

  lemma ClosedStep(s: Sys, step: Step, m: Mark)
    requires Inv(s) && Legal(s, step) && m in s.closed && !m.kind.ActionRequired?
    ensures m in Next(s, step).closed && Next(s, step).sent[m] == s.sent[m]
  {
    hide Inv, Delivered, Stamps, Prepare;
    if step.Dispatching? {
      DispatchEffect(s, step, m);
    }
  }

  /** A closed line that no edit can reopen is never sent again. */
  lemma {:induction false} ClosedForGood(states: seq<Sys>, steps: seq<Step>, m: Mark, i: nat, j: nat)
    requires IsRun(states, steps) && Inv(states[0]) && i <= j <= |steps|
    requires m in states[i].closed && !m.kind.ActionRequired?
    ensures m in states[j].closed && states[j].sent[m] == states[i].sent[m]
  {
    hide Inv, Next, LegalWithin;
    if i < j {
      ClosedForGood(states, steps, m, i, j - 1);
      RunKeepsInv(states, steps, j - 1);
      ClosedStep(states[j - 1], steps[j - 1], m);
    }
  }

  /** After an action for a trial went out on a channel, no notice of that row
      follows on it, in the same pass or ever. */
  lemma NoNoticeAfterTrialAction(states: seq<Sys>, steps: seq<Step>, i: nat, j: nat, k: Key)
    requires IsRun(states, steps) && Start(states[0]) && i < j <= |steps|
    requires steps[i].Dispatching? && steps[i].kind.ActionRequired?
    requires k in Delivered(states[i].db, steps[i].p, ActionRequired, steps[i].channel)
    requires TrialAction(states[i].db, k, steps[i].p.Reference())
    ensures var notice := Mark(states[i].db.rows[k].id, Notice, steps[i].channel);
            states[j].sent[notice] == states[i].sent[notice]
  {
    hide Delivered, TrialAction;
    var notice := Mark(states[i].db.rows[k].id, Notice, steps[i].channel);
    assert states[i + 1] == Next(states[i], steps[i]);
    RunKeepsInv(states, steps, i);
    DispatchEffect(states[i], steps[i], notice);
    var keys := Delivered(states[i].db, steps[i].p, ActionRequired, steps[i].channel);
    assert k in TrialActions(states[i].db, keys, steps[i].p.Reference());
    assert notice in states[i + 1].closed;
    ClosedForGood(states, steps, notice, i + 1, j);
  }

  // ----- catching up -----

  /** Row `k` stays pending, with its reminders on, for an account that accepts this
      family on this channel; and it is not the first due date after a trial. */
  ghost predicate Steady(db: Db, k: Key, id: RowId, user: UserId, c: Commitment, kind: Kind, channel: Channel) {
    && db.Sound()
    && k in db.rows && db.rows[k].id == id && db.rows[k].user == user && db.rows[k].status.Pending?
    && db.commitments[k.commitment] == c
    && c.status.Active? && c.Live() && c.isReminderEnabled && TrialWindow(c, k.due).None?
    && user in db.users && Accepts(db.users[user], kind, channel)
  }

  /** A dispatch of the family on the channel, on a day its window holds. */
  ghost predicate Reminds(step: Step, k: Key, user: UserId, c: Commitment, kind: Kind, channel: Channel) {
    step.Dispatching? && step.kind == kind && step.channel == channel && IsDue(kind, k.due, c, step.p.Today(user))
  }

  lemma SteadyDispatch(s: Sys, step: Step, k: Key, id: RowId, user: UserId, c: Commitment, kind: Kind, channel: Channel)
    requires Inv(s) && Legal(s, step) && step.Dispatching? && !kind.ActionRequired?
    requires Steady(s.db, k, id, user, c, kind, channel) && Attempt(user, kind, channel) !in step.p.failing
    ensures var m, t := Mark(id, kind, channel), Next(s, step);
            && (m in t.closed <==> m in s.closed || Reminds(step, k, user, c, kind, channel))
            && t.sent[m] == s.sent[m] + Times(m !in s.closed && Reminds(step, k, user, c, kind, channel))
  {
    var m, t := Mark(id, kind, channel), Next(s, step);
    DispatchEffect(s, step, m);
    AfterDispatch(s.db, step.p, step.kind, step.channel, m);
    assert ClosedIsLogged(s, k);
    WideQueryLosesNothing(s.db, step.p, k, kind, channel);
    assert !TrialAction(s.db, k, step.p.Reference()) by {
      ChoosesTightest(c, k.due, step.p.Reference());
    }
  }

  /** Catch-up: while a row stays as it is, its notice goes out exactly once if some
      dispatch falls on a day from `reminderDaysBefore` before it to the due date, and
      never otherwise; likewise the overdue reminder, from 3 to 30 days after. */
  lemma {:induction false} CaughtUpExactlyOnce(states: seq<Sys>, steps: seq<Step>, n: nat, k: Key, id: RowId, user: UserId,
                             c: Commitment, kind: Kind, channel: Channel)
    requires IsRun(states, steps) && Inv(states[0]) && n <= |steps| && !kind.ActionRequired?
    requires forall i :: 0 <= i < |states| ==> Steady(states[i].db, k, id, user, c, kind, channel)
    requires forall i :: 0 <= i < |steps| && steps[i].Dispatching? ==>
               Attempt(user, kind, channel) !in steps[i].p.failing
    requires Mark(id, kind, channel) !in states[0].closed
    ensures var m := Mark(id, kind, channel);
            var caught := exists i :: 0 <= i < n && Reminds(steps[i], k, user, c, kind, channel);
            states[n].sent[m] == states[0].sent[m] + Times(caught) && (m in states[n].closed <==> caught)
  {
    hide Steady, Reminds, Inv, Next, LegalWithin;
    if n != 0 {
      CaughtUpExactlyOnce(states, steps, n - 1, k, id, user, c, kind, channel);
      RunKeepsInv(states, steps, n - 1);
      SteadyStep(states[n - 1], steps[n - 1], k, id, user, c, kind, channel);
    }
  }

  lemma SteadyStep(s: Sys, step: Step, k: Key, id: RowId, user: UserId, c: Commitment, kind: Kind, channel: Channel)
    requires Inv(s) && Legal(s, step) && !kind.ActionRequired?
    requires Steady(s.db, k, id, user, c, kind, channel)
    requires step.Dispatching? ==> Attempt(user, kind, channel) !in step.p.failing
    ensures var m, t := Mark(id, kind, channel), Next(s, step);
            && (m in t.closed <==> m in s.closed || Reminds(step, k, user, c, kind, channel))
            && t.sent[m] == s.sent[m] + Times(m !in s.closed && Reminds(step, k, user, c, kind, channel))
  {
    hide Steady, Inv, Prepare, Dispatch, Stamps, Delivered;
    if step.Dispatching? {
      SteadyDispatch(s, step, k, id, user, c, kind, channel);
    }
  }

  // ----- the daily job is such a run -----

  function OnOneChannel(p: Pass, channel: Channel): seq<Step> {
    [Dispatching(p, ActionRequired, channel), Dispatching(p, Notice, channel), Dispatching(p, Overdue, channel)]
  }

  /** The steps of the daily job, in its own order. */
  function JobSteps(p: Pass, cutoff: Instant): seq<Step> {
    [Preparing(p.Reference(), cutoff)] + OnOneChannel(p, Email) + if p.pushConfigured then OnOneChannel(p, Push) else []
  }

  ghost function SentOnChannel(s: Sys, p: Pass, channel: Channel): Sys {
    Next(Next(Next(s, Dispatching(p, ActionRequired, channel)), Dispatching(p, Notice, channel)), Dispatching(p, Overdue, channel))
  }

  ghost function AfterJob(s: Sys, p: Pass, cutoff: Instant): Sys
    requires s.db.Sound()
  {
    var afterEmail := SentOnChannel(Next(s, Preparing(p.Reference(), cutoff)), p, Email);
    if p.pushConfigured then SentOnChannel(afterEmail, p, Push) else afterEmail
  }

  /** The job's own order is one of these runs: purge and generate, then on each
      channel the actions, the notices and the late payments. */
  lemma DailyJobIsARun(s: Sys, p: Pass, cutoff: Instant, margin: int) returns (states: seq<Sys>)
    requires s.db.Sound() && p.Valid() && OnTime(s, p, margin) && 1 <= margin
    ensures IsRunWithin(states, JobSteps(p, cutoff), margin)
    ensures states[0] == s && states[|states| - 1] == AfterJob(s, p, cutoff)
    ensures AfterJob(s, p, cutoff).db == RunDaily(s.db, p, cutoff)
    ensures forall i :: 0 < i < |states| ==> states[i].latest == Max(s.latest, p.Reference())
  {
    hide Next, IsRunWithin, SendDue, Prepare, OnTime;
    var email := EmailRun(s, p, cutoff, margin);
    states := email;
    assert !p.pushConfigured ==> JobSteps(p, cutoff) == [Preparing(p.Reference(), cutoff)] + OnOneChannel(p, Email);
    if p.pushConfigured {
      var push := DispatchRun(email[4], p, Push, margin);
      Joined(email, [Preparing(p.Reference(), cutoff)] + OnOneChannel(p, Email), push, OnOneChannel(p, Push), margin);
      states := email + push[1..];
    }
    JobTables(s, p, cutoff);
  }

  lemma EmailRun(s: Sys, p: Pass, cutoff: Instant, margin: int) returns (states: seq<Sys>)
    requires s.db.Sound() && p.Valid() && OnTime(s, p, margin) && 1 <= margin
    ensures |states| == 5 && states[0] == s
    ensures states[4] == SentOnChannel(Next(s, Preparing(p.Reference(), cutoff)), p, Email) && OnTime(states[4], p, margin)
    ensures IsRunWithin(states, [Preparing(p.Reference(), cutoff)] + OnOneChannel(p, Email), margin)
    ensures forall i :: 0 < i < 5 ==> states[i].latest == Max(s.latest, p.Reference())
  {
    hide Next, IsRunWithin, OnTime;
    var ready := PrepareRun(s, p, cutoff, margin);
    var email := DispatchRun(ready, p, Email, margin);
    states := [s, ready] + email[1..];
    Joined([s, ready], [Preparing(p.Reference(), cutoff)], email, OnOneChannel(p, Email), margin);
  }

  lemma JobTables(s: Sys, p: Pass, cutoff: Instant)
    requires s.db.Sound()
    ensures AfterJob(s, p, cutoff).db == RunDaily(s.db, p, cutoff)
  {
    hide Dispatch, Prepare, Stamps, Delivered;
  }

  lemma PrepareRun(s: Sys, p: Pass, cutoff: Instant, margin: int) returns (ready: Sys)
    requires s.db.Sound() && p.Valid() && OnTime(s, p, margin) && 1 <= margin
    ensures ready == Next(s, Preparing(p.Reference(), cutoff)) && ready.latest == Max(s.latest, p.Reference())
    ensures IsRunWithin([s, ready], [Preparing(p.Reference(), cutoff)], margin) && OnTime(ready, p, margin)
  {
    hide Prepare;
    ready := Next(s, Preparing(p.Reference(), cutoff));
    PrepareKeepsUsers(s.db, p.Reference(), cutoff);
    forall user
      ensures p.Reference() - 1 <= p.Today(user)
    {
      PersonsDay(p, user);
    }
  }

  /** Two runs, the second from where the first ends, are one. */
  lemma Joined(a: seq<Sys>, stepsA: seq<Step>, b: seq<Sys>, stepsB: seq<Step>, margin: int)
    requires |a| == |stepsA| + 1 && |b| == |stepsB| + 1
    requires IsRunWithin(a, stepsA, margin) && IsRunWithin(b, stepsB, margin) && a[|stepsA|] == b[0]
    ensures IsRunWithin(a + b[1..], stepsA + stepsB, margin) && (a + b[1..])[|stepsA + stepsB|] == b[|stepsB|]
  {
    hide Next, OnTime, Evolves;
    var states, steps := a + b[1..], stepsA + stepsB;
    forall i | 0 <= i < |steps|
      ensures LegalWithin(states[i], steps[i], margin) && states[i + 1] == Next(states[i], steps[i])
    {
      if i < |stepsA| {
        assert states[i] == a[i] && states[i + 1] == a[i + 1] && steps[i] == stepsA[i];
      } else {
        var j := i - |stepsA|;
        assert states[i] == b[j] && states[i + 1] == b[j + 1] && steps[i] == stepsB[j];
      }
    }
  }

  lemma PrepareKeepsUsers(db: Db, reference: Day, cutoff: Instant)
    requires Startable(db)
    ensures Startable(PurgeReminders(PurgeDeleted(db, cutoff), reference - PURGE_REMINDERS_AFTER_DAYS))
    ensures Prepare(db, reference, cutoff).users == db.users
  {
  }

  lemma DispatchRun(s: Sys, p: Pass, channel: Channel, margin: int) returns (states: seq<Sys>)
    requires p.Valid() && OnTime(s, p, margin)
    ensures |states| == 4 && states[0] == s && states[3] == SentOnChannel(s, p, channel)
    ensures IsRunWithin(states, OnOneChannel(p, channel), margin) && states[3].db == OnChannel(s.db, p, channel)
    ensures OnTime(states[3], p, margin) && forall i :: 0 <= i < 4 ==> states[i].latest == s.latest
  {
    hide Stamps, Delivered;
    var one := Next(s, Dispatching(p, ActionRequired, channel));
    var two := Next(one, Dispatching(p, Notice, channel));
    states := [s, one, two, Next(two, Dispatching(p, Overdue, channel))];
  }
}
