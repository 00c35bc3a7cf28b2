/** How far behind a replayed pass may be, and what it sends. */
module ReplayMargins {
  import opened ActionWindows
  import opened Calendar
  import opened Clock
  import opened Commitments
  import opened Daily
  import opened Evolution
  import opened Occurrences
  import opened Options
  import opened Recovery
  import opened ReminderRuns
  import opened Reminders
  import opened ReminderWindow
  import opened Records
  import opened Schedule

  // ----- what a replay sends -----

  /** What a replay sends: the notices and overdue reminders due on that day whose line
      was never closed, neither by a delivery nor by a trial action, and no others. */
  lemma SendsWhatIsOpen(s: Sys, p: Pass, k: Key, kind: Kind, channel: Channel)
    requires Inv(s) && p.Valid() && OnTime(s, p, REMINDER_LOG_MARGIN_DAYS) && !kind.ActionRequired?
    ensures k in Delivered(s.db, p, kind, channel) <==>
            && Remindable(s.db, k) && Mark(s.db.rows[k].id, kind, channel) !in s.closed
            && Welcomes(s.db, s.db.rows[k].user, kind, channel)
            && IsDue(kind, k.due, s.db.commitments[k.commitment], p.Today(s.db.rows[k].user))
            && Attempt(s.db.rows[k].user, kind, channel) !in p.failing
  {
    WideQueryLosesNothing(s.db, p, k, kind, channel);
    assert ClosedIsLogged(s, k);
  }

  /** A pass at noon of a date, with everybody in UTC and nothing failing. */
  function AtNoon(day: Day): Pass {
    Pass(Noon(day), map[], false, {})
  }

  lemma AtNoonIsThatDay(day: Day)
    ensures AtNoon(day).Valid() && AtNoon(day).Reference() == day && AtNoon(day).failing == {}
    ensures forall user :: AtNoon(day).Today(user) == day
  {
    NoonIsThatDay(day, 0);
  }

  function NoCommitments(user: UserId): Db {
    Db(map[user := ACCEPTING], map[], map[], {}, 0, 0)
  }

  function MonthlyFrom(user: UserId, start: Day): Commitment {
    Commitment(user, "", None, Subscription, "", 1, Rule(start, Monthly, None), None, None, 3, true, Active, None)
  }

  /** A replay may send something new: a commitment that started on day `t` is created
      the day after, when that date is no longer written. The replay of day `t` writes
      it and announces it. */
  lemma ReplaySendsNew(user: UserId, t: Day) returns (created: Db, met: Db, replayed: Db)
    requires 1 <= t
    ensures NoCommitments(user).Sound() && Creatable(MonthlyFrom(user, t))
    ensures created == Create(NoCommitments(user), MonthlyFrom(user, t), t + 1) && created.Sound()
    ensures met == RunDaily(created, AtNoon(t + 1), 0) && met.Sound() && Key(0, t) !in met.rows
    ensures replayed == RunDaily(met, AtNoon(t), 0) && Key(0, t) in replayed.rows
    ensures Mark(replayed.rows[Key(0, t)].id, Notice, Email) in replayed.log
  {
    hide Window, Prepare, SendDue;
    NoCommitmentsYet(user, t);
    created := NewCommitment(user, t);
    AtNoonIsThatDay(t);
    AtNoonIsThatDay(t + 1);
    met := NewJob(created, user, t, t + 1);
    replayed := NewJob(met, user, t, t);
  }

  ghost predicate HasMonthly(db: Db, user: UserId, t: Day) {
    && db.Sound() && db.users == map[user := ACCEPTING]
    && 0 in db.commitments && db.commitments[0] == MonthlyFrom(user, t)
  }

  lemma NoCommitmentsYet(user: UserId, t: Day)
    requires 1 <= t
    ensures NoCommitments(user).Sound() && Creatable(MonthlyFrom(user, t)) && !Full(NoCommitments(user), user, Subscription)
  {
    assert CountedIds(NoCommitments(user), user, Subscription) == {};
  }

  lemma NewCommitment(user: UserId, t: Day) returns (created: Db)
    requires 1 <= t && NoCommitments(user).Sound() && Creatable(MonthlyFrom(user, t))
    ensures created == Create(NoCommitments(user), MonthlyFrom(user, t), t + 1)
    ensures HasMonthly(created, user, t) && Key(0, t) !in created.rows
  {
    hide Create, Full, Window, Evolves, Db.Sound, Creatable;
    var empty, c := NoCommitments(user), MonthlyFrom(user, t);
    NoCommitmentsYet(user, t);
    StartIn(c, t);
    created := Create(empty, c, t + 1);
    CreateEvolves(empty, c, t + 1);
    EvolvesSound(empty, created);
    CreateWritesWindow(empty, c, t + 1);
  }

  // The first date is in the window of its own day and not in the next day's.
  lemma StartIn(c: Commitment, t: Day)
    requires c.rule == Rule(t, Monthly, None) && 1 <= t
    ensures t in Window(c, t) && t !in Window(c, t + 1) && !Falls(c.rule, t + 1, t)
  {
    hide NthDueDate, Window;
    StartIsFirst(c.rule);
    assert Scheduled(c.rule, t);
    hide Scheduled;
    RecurringWindow(c, t);
    RecurringWindow(c, t + 1);
  }

  lemma NewJob(db: Db, user: UserId, t: Day, day: Day) returns (after: Db)
    requires HasMonthly(db, user, t) && Key(0, t) !in db.rows && 1 <= t <= day <= t + 1
    ensures after == RunDaily(db, AtNoon(day), 0) && HasMonthly(after, user, t)
    ensures Key(0, t) in after.rows <==> day == t
    ensures day == t ==> Mark(after.rows[Key(0, t)].id, Notice, Email) in after.log
  {
    hide Window, Prepare, SendDue, AtNoon;
    var ready, p := Prepare(db, day, 0), AtNoon(day);
    AtNoonIsThatDay(day);
    StartIn(db.commitments[0], t);
    PrepareFills(db, day, 0, 0, t);
    PrepareKeeps(db, day, 0);
    hide Db.Sound;
    after := SendDue(ready, p);
    LogStaysSound(ready, p);
    if day == t {
      IsAnnounced(ready, p, Key(0, t));
    }
  }

  lemma IsAnnounced(db: Db, p: Pass, k: Key)
    requires db.Sound() && p.Valid() && p.failing == {} && Remindable(db, k)
    requires Welcomes(db, db.rows[k].user, Notice, Email)
    requires IsDue(Notice, k.due, db.commitments[k.commitment], p.Today(db.rows[k].user))
    ensures Mark(db.rows[k].id, Notice, Email) in SendDue(db, p).log
  {
    var m := Mark(db.rows[k].id, Notice, Email);
    AfterPass(db, p, m);
    WideQueryLosesNothing(db, p, k, Notice, Email);
    hide Sendable, SendDue, TrialAction;
    assert m !in db.log ==> Writes(db, p, k, m, Notice, Email);
  }

  // ----- the limit on one line -----

  /** How long after its due date a reminder of a family may still go out. */
  function WindowDays(kind: Kind): int {
    if kind.Overdue? then 30 else 0
  }

  /** After a purge on day `latest`, a reminder already in the log is sent again exactly
      when its line was purged and it is due on the account's own day; and there is such
      a due date exactly when that day is further behind than the margin. */
  lemma LoggedLineRepeats(db: Db, p: Pass, k: Key, kind: Kind, channel: Channel, latest: Day)
    requires db.Sound() && p.Valid() && !kind.ActionRequired?
    requires Remindable(db, k) && Mark(db.rows[k].id, kind, channel) in db.log
    requires Welcomes(db, db.rows[k].user, kind, channel) && Attempt(db.rows[k].user, kind, channel) !in p.failing
    ensures var c, today := db.commitments[k.commitment], p.Today(db.rows[k].user);
            var repeats := k in Delivered(PurgeReminders(db, latest - PURGE_REMINDERS_AFTER_DAYS), p, kind, channel);
            && (repeats <==> k.due < latest - 45 && IsDue(kind, k.due, c, today))
            && ((exists due :: due < latest - 45 && IsDue(kind, due, c, today)) <==> today < latest - 45 + WindowDays(kind))
  {
    var before := latest - PURGE_REMINDERS_AFTER_DAYS;
    var purged, m := PurgeReminders(db, before), Mark(db.rows[k].id, kind, channel);
    PurgedLog(db, before);
    assert m in purged.log <==> before <= k.due;
    WideQueryLosesNothing(purged, p, k, kind, channel);
    var c, today := db.commitments[k.commitment], p.Today(db.rows[k].user);
    assert IsDue(kind, today - WindowDays(kind), c, today);
  }

  // A purge at a day's job forgets the lines of a row too old, and keeps the row.
  lemma StaleLineForgotten(db: Db, reference: Day, cutoff: Instant, k: Key, kind: Kind, channel: Channel)
    requires db.Sound() && Generates(db, k.commitment) && k in db.rows && k.due < reference - PURGE_REMINDERS_AFTER_DAYS
    ensures Mark(db.rows[k].id, kind, channel) !in Prepare(db, reference, cutoff).log
  {
    var kept := PurgeDeleted(db, cutoff);
    assert k in kept.rows && kept.rows[k] == db.rows[k];
    assert db.rows[k].id in StaleRows(kept, reference - PURGE_REMINDERS_AFTER_DAYS);
  }

  /** What a job does with the email of one overdue reminder: the line is kept unless
      the row is past the purge date, and the reminder goes out when it is due and its
      line is not there. */
  lemma JobOnOverdue(s: Sys, p: Pass, cutoff: Instant, k: Key)
    requires s.db.Sound() && p.Valid() && Remindable(s.db, k)
    requires var user := s.db.rows[k].user;
             Welcomes(s.db, user, Overdue, Email) && Attempt(user, Overdue, Email) !in p.failing
    ensures var t, c, m := AfterJob(s, p, cutoff), s.db.commitments[k.commitment], Mark(s.db.rows[k].id, Overdue, Email);
            var kept := m in s.db.log && p.Reference() - 45 <= k.due;
            var due := IsDue(Overdue, k.due, c, p.Today(s.db.rows[k].user));
            && t.db.Sound() && t.db.users == s.db.users && Remindable(t.db, k)
            && t.db.rows[k] == s.db.rows[k] && t.db.commitments[k.commitment] == c
            && t.latest == Max(s.latest, p.Reference())
            && t.sent[m] == s.sent[m] + Times(due && !kept)
            && (m in t.db.log <==> kept || due)
  {
    hide Dispatch, Prepare, Window, Delivered, Stamps, IsDue;
    var ready := Next(s, Preparing(p.Reference(), cutoff));
    var m := Mark(s.db.rows[k].id, Overdue, Email);
    PreparedLine(s.db, p.Reference(), cutoff, k);
    WideQueryLosesNothing(ready.db, p, k, Overdue, Email);
    InDelivered(ready.db, p, k);
    ChannelOnLine(ready, p, Email, k);
    if p.pushConfigured {
      ChannelOnLine(SentOnChannel(ready, p, Email), p, Push, k);
    }
  }

  lemma InDelivered(db: Db, p: Pass, k: Key)
    requires k in db.rows && Attempt(db.rows[k].user, Overdue, Email) !in p.failing
    ensures k in Delivered(db, p, Overdue, Email) <==> Sendable(db, p, k, Overdue, Email)
  {
  }

  lemma PreparedLine(db: Db, reference: Day, cutoff: Instant, k: Key)
    requires db.Sound() && Remindable(db, k)
    ensures var ready, m := Prepare(db, reference, cutoff), Mark(db.rows[k].id, Overdue, Email);
            && ready.Sound() && ready.users == db.users && Remindable(ready, k)
            && ready.rows[k] == db.rows[k] && ready.commitments[k.commitment] == db.commitments[k.commitment]
            && (m in ready.log <==> m in db.log && reference - PURGE_REMINDERS_AFTER_DAYS <= k.due)
  {
    hide Prepare, Window;
    PrepareKeeps(db, reference, cutoff);
    PrepareFills(db, reference, cutoff, k.commitment, k.due);
    if k.due < reference - PURGE_REMINDERS_AFTER_DAYS {
      StaleLineForgotten(db, reference, cutoff, k, Overdue, Email);
    }
  }

  predicate Hit(db: Db, p: Pass, kind: Kind, channel: Channel, k: Key) {
    kind.Overdue? && channel.Email? && k in Delivered(db, p, Overdue, Email)
  }

  lemma DispatchOnLine(s: Sys, p: Pass, kind: Kind, channel: Channel, k: Key)
    requires s.db.Sound() && k in s.db.rows
    ensures var t, m := Next(s, Dispatching(p, kind, channel)), Mark(s.db.rows[k].id, Overdue, Email);
            && t.db == s.db.(log := t.db.log) && t.db.Sound() && t.latest == s.latest
            && t.sent[m] == s.sent[m] + Times(Hit(s.db, p, kind, channel, k))
            && (m in t.db.log <==> m in s.db.log || Hit(s.db, p, kind, channel, k))
  {
    hide Delivered, Stamps, Marks, Hit;
    StampsAreOfRows(s.db, Delivered(s.db, p, kind, channel), kind, channel, p.Reference());
    LineOfRow(s.db, p, kind, channel, k);
  }

  lemma LineOfRow(db: Db, p: Pass, kind: Kind, channel: Channel, k: Key)
    requires db.Sound() && k in db.rows
    ensures var keys, m := Delivered(db, p, kind, channel), Mark(db.rows[k].id, Overdue, Email);
            && (m in Marks(db, keys, kind, channel) <==> Hit(db, p, kind, channel, k))
            && (m in Stamps(db, keys, kind, channel, p.Reference()) <==> Hit(db, p, kind, channel, k))
  {
    hide Sendable, TrialAction, ActionWindowOf;
  }

  lemma ChannelOnLine(s: Sys, p: Pass, channel: Channel, k: Key)
    requires s.db.Sound() && k in s.db.rows
    ensures var t, m := SentOnChannel(s, p, channel), Mark(s.db.rows[k].id, Overdue, Email);
            var hit := Hit(s.db, p, Overdue, channel, k);
            && t.db == s.db.(log := t.db.log) && t.db.Sound() && t.latest == s.latest
            && t.sent[m] == s.sent[m] + Times(hit) && (m in t.db.log <==> m in s.db.log || hit)
  {
    hide Next, Delivered, Db.Sound;
    var one := Next(s, Dispatching(p, ActionRequired, channel));
    var two := Next(one, Dispatching(p, Notice, channel));
    DispatchOnLine(s, p, ActionRequired, channel, k);
    DispatchOnLine(one, p, Notice, channel, k);
    DispatchOnLine(two, p, Overdue, channel, k);
    OwnLineDecides(s.db, two.db, p, k, Overdue, Email);
  }

  /** On a channel an action goes out before the notice and stands in for it: in a pass
      that delivers a trial's action, that row's notice is not delivered. */
  lemma TrialActionAlone(s: Sys, p: Pass, channel: Channel, k: Key)
    requires s.db.Sound() && k in Delivered(s.db, p, ActionRequired, channel) && TrialAction(s.db, k, p.Reference())
    ensures var notice := Mark(s.db.rows[k].id, Notice, channel);
            SentOnChannel(s, p, channel).sent[notice] == s.sent[notice] && notice in SentOnChannel(s, p, channel).db.log
  {
    hide Sendable, ActionWindowOf;
    var notice := Mark(s.db.rows[k].id, Notice, channel);
    var one := Next(s, Dispatching(p, ActionRequired, channel));
    var two := Next(one, Dispatching(p, Notice, channel));
    assert k in TrialActions(s.db, Delivered(s.db, p, ActionRequired, channel), p.Reference());
    assert notice in one.db.log;
    hide Next;
    NotSentAgain(one, p, Notice, channel, notice);
    NotSentAgain(two, p, Overdue, channel, notice);
    NotSentAgain(s, p, ActionRequired, channel, notice);
  }

  // A line already logged is not sent, nor is one of another family.
  lemma NotSentAgain(s: Sys, p: Pass, kind: Kind, channel: Channel, m: Mark)
    requires m.kind != kind || m in s.db.log
    ensures var t := Next(s, Dispatching(p, kind, channel));
            t.sent[m] == s.sent[m] && (m in s.db.log ==> m in t.db.log)
  {
    hide Stamps, Sendable;
    if m in Marks(s.db, Delivered(s.db, p, kind, channel), kind, channel) {
      var k :| k in Delivered(s.db, p, kind, channel) && m == Mark(s.db.rows[k].id, kind, channel);
      DeliveredIsOpen(s.db, p, k, kind, channel);
    }
  }

  // ----- runs -----

  /** The pass is at most so many days behind the latest purge on the server's day; or
      so many if it starts at noon of its date, as a replayed job does. */
  ghost predicate Replays(s: Sys, step: Step, days: int, noonDays: int) {
    step.Dispatching? ==>
      var p := step.p;
      s.latest - (if p.at == Noon(p.Reference()) then noonDays else days) <= p.Reference()
  }

  ghost predicate AllReplay(states: seq<Sys>, steps: seq<Step>, days: int, noonDays: int)
    requires |steps| <= |states|
  {
    forall i :: 0 <= i < |steps| ==> Replays(states[i], steps[i], days, noonDays)
  }

  /** A run of whole jobs, one for each pass, within the margin and the days given. */
  ghost predicate IsJobRun(states: seq<Sys>, passes: seq<Pass>, to: Sys, margin: int, days: int, noonDays: int) {
    && IsRunWithin(states, StepsOf(passes), margin) && AllReplay(states, StepsOf(passes), days, noonDays)
    && states[|states| - 1] == to
  }

  function StepsOf(passes: seq<Pass>): seq<Step> {
    if passes == [] then [] else StepsOf(passes[..|passes| - 1]) + JobSteps(passes[|passes| - 1], 0)
  }

  lemma OneMoreJob(states: seq<Sys>, passes: seq<Pass>, to: Sys, p: Pass, margin: int, days: int, noonDays: int)
    returns (longer: seq<Sys>)
    requires IsJobRun(states, passes, to, margin, days, noonDays)
    requires to.db.Sound() && p.Valid() && OnTime(to, p, margin) && 1 <= margin
    requires Max(to.latest, p.Reference()) - (if p.at == Noon(p.Reference()) then noonDays else days) <= p.Reference()
    ensures IsJobRun(longer, passes + [p], AfterJob(to, p, 0), margin, days, noonDays) && longer[0] == states[0]
  {
    hide Next, LegalWithin, AfterJob, Noon, DateAt, OnTime, Replays;
    var steps := StepsOf(passes);
    assert (passes + [p])[..|passes|] == passes;
    var job := DailyJobIsARun(to, p, 0, margin);
    JobReplays(job, to, p, days, noonDays);
    longer := states + job[1..];
    Joined(states, steps, job, JobSteps(p, 0), margin);
    ReplaysJoined(states, steps, job, JobSteps(p, 0), days, noonDays);
  }

  lemma JobReplays(job: seq<Sys>, s: Sys, p: Pass, days: int, noonDays: int)
    requires |job| == |JobSteps(p, 0)| + 1
    requires forall i :: 0 < i < |job| ==> job[i].latest == Max(s.latest, p.Reference())
    requires Max(s.latest, p.Reference()) - (if p.at == Noon(p.Reference()) then noonDays else days) <= p.Reference()
    ensures AllReplay(job, JobSteps(p, 0), days, noonDays)
  {
    hide Noon, DateAt;
    assert forall i :: 0 < i < |JobSteps(p, 0)| ==> JobSteps(p, 0)[i].Dispatching? && JobSteps(p, 0)[i].p == p;
  }

  lemma ReplaysJoined(a: seq<Sys>, stepsA: seq<Step>, b: seq<Sys>, stepsB: seq<Step>, days: int, noonDays: int)
    requires |a| == |stepsA| + 1 && |b| == |stepsB| + 1 && a[|stepsA|] == b[0]
    requires AllReplay(a, stepsA, days, noonDays) && AllReplay(b, stepsB, days, noonDays)
    ensures AllReplay(a + b[1..], stepsA + stepsB, days, noonDays)
  {
    hide Replays;
    var states, steps := a + b[1..], stepsA + stepsB;
    forall i | 0 <= i < |steps|
      ensures Replays(states[i], steps[i], days, noonDays)
    {
      if |stepsA| <= i {
        assert states[i] == b[i - |stepsA|] && steps[i] == stepsB[i - |stepsA|];
      }
    }
  }

  function OneRow(user: UserId, due: Day): Db {
    var c := Commitment(user, "", None, Invoice, "", 1, Rule(due, Oneoff, None), None, None, 0, true, Active, None);
    Db(map[user := ACCEPTING], map[0 := c], map[Key(0, due) := Row(0, user, 1, Pending)], {}, 1, 1)
  }

  /** A pass that is further behind for some account than the margin can repeat an
      overdue reminder: three daily jobs, of which the first sends it in time, the second
      purges its line, and the third is that pass. Dates start on day 1, so the account's
      day is at least the 31st. */
  lemma LateReplayRepeats(p: Pass, user: UserId, latest: Day, days: nat, noonDays: nat)
    returns (states: seq<Sys>, steps: seq<Step>, m: Mark)
    requires p.Valid() && p.failing == {} && 31 <= p.Today(user) < latest - REMINDER_LOG_MARGIN_DAYS
    requires latest - (if p.at == Noon(p.Reference()) then noonDays else days) <= p.Reference()
    ensures steps == StepsOf([AtNoon(p.Today(user)), AtNoon(latest), p])
    ensures IsRunWithin(states, steps, latest - p.Today(user)) && AllReplay(states, steps, days, noonDays)
    ensures Start(states[0]) && !m.kind.ActionRequired? && states[|steps|].sent[m] == 2
  {
    hide Noon, DateAt, AfterJob, Db.Sound, AtNoon, IsRunWithin, AllReplay;
    var margin, first, second := latest - p.Today(user), AtNoon(p.Today(user)), AtNoon(latest);
    var zero := OneRowStart(user, p.Today(user) - OVERDUE_REMINDER_WINDOW_DAYS);
    m := Mark(0, Overdue, Email);
    ThreeJobs(zero, user, p, latest);
    var one := AfterJob(zero, first, 0);
    var two := AfterJob(one, second, 0);
    AtNoonIsThatDay(p.Today(user));
    AtNoonIsThatDay(latest);
    PersonsDay(p, user);
    NoJobs(zero, margin, days, noonDays);
    states := OneMoreJob([zero], [], zero, first, margin, days, noonDays);
    assert [] + [first] == [first] && [first] + [second] == [first, second] && [first, second] + [p] == [first, second, p];
    states := OneMoreJob(states, [first], one, second, margin, days, noonDays);
    states := OneMoreJob(states, [first, second], two, p, margin, days, noonDays);
    steps := StepsOf([first, second, p]);
    JobRunEnds(states, [first, second, p], AfterJob(two, p, 0), margin, days, noonDays);
  }

  lemma JobRunEnds(states: seq<Sys>, passes: seq<Pass>, to: Sys, margin: int, days: int, noonDays: int)
    requires IsJobRun(states, passes, to, margin, days, noonDays)
    ensures |states| == |StepsOf(passes)| + 1 && states[|StepsOf(passes)|] == to
  {
  }

  lemma NoJobs(s: Sys, margin: int, days: int, noonDays: int)
    ensures IsJobRun([s], [], s, margin, days, noonDays)
  {
  }

  lemma OneRowStart(user: UserId, due: Day) returns (zero: Sys)
    requires 1 <= due
    ensures zero == Sys(OneRow(user, due), multiset{}, {}, multiset{}, due) && Start(zero)
    ensures Remindable(zero.db, Key(0, due)) && Welcomes(zero.db, user, Overdue, Email)
  {
    zero := Sys(OneRow(user, due), multiset{}, {}, multiset{}, due);
    assert zero.db.Sound();
  }

  lemma ThreeJobs(zero: Sys, user: UserId, p: Pass, latest: Day)
    requires p.Valid() && p.failing == {} && 31 <= p.Today(user) < latest - REMINDER_LOG_MARGIN_DAYS
    requires var due := p.Today(user) - OVERDUE_REMINDER_WINDOW_DAYS;
             zero == Sys(OneRow(user, due), multiset{}, {}, multiset{}, due) && zero.db.Sound()
    ensures var one := AfterJob(zero, AtNoon(p.Today(user)), 0);
            && one.db.Sound() && one.latest == p.Today(user) && one.db.users == zero.db.users
            && var two := AfterJob(one, AtNoon(latest), 0);
               && two.db.Sound() && two.latest == latest && two.db.users == zero.db.users
               && AfterJob(two, p, 0).sent[Mark(0, Overdue, Email)] == 2
  {
    hide AfterJob, Db.Sound, Noon, DateAt;
    var k := Key(0, p.Today(user) - OVERDUE_REMINDER_WINDOW_DAYS);
    AtNoonIsThatDay(p.Today(user));
    AtNoonIsThatDay(latest);
    JobOnOverdue(zero, AtNoon(p.Today(user)), 0, k);
    var one := AfterJob(zero, AtNoon(p.Today(user)), 0);
    JobOnOverdue(one, AtNoon(latest), 0, k);
    JobOnOverdue(AfterJob(one, AtNoon(latest), 0), p, 0, k);
  }

  /** No run within a margin ever delivers a notice or an overdue reminder twice. */
  ghost predicate NeverRepeats(margin: int) {
    forall states: seq<Sys>, steps: seq<Step>, m: Mark ::
      IsRunWithin(states, steps, margin) && Start(states[0]) && !m.kind.ActionRequired? ==> states[|steps|].sent[m] <= 1
  }

  /** The margin of the program's constants is exact. */
  lemma MarginIsExact(margin: int)
    ensures NeverRepeats(margin) <==> margin <= 15
  {
    hide Start;
    if margin <= REMINDER_LOG_MARGIN_DAYS {
      forall states: seq<Sys>, steps: seq<Step>, m: Mark | IsRunWithin(states, steps, margin) && Start(states[0]) && !m.kind.ActionRequired?
        ensures states[|steps|].sent[m] <= 1
      {
        WiderRun(states, steps, margin, REMINDER_LOG_MARGIN_DAYS);
        AtMostOnce(states, steps, m);
      }
    } else {
      AtNoonIsThatDay(100);
      var states, steps, m := LateReplayRepeats(AtNoon(100), 0, 100 + REMINDER_LOG_MARGIN_DAYS + 1, 16, 16);
      WiderRun(states, steps, REMINDER_LOG_MARGIN_DAYS + 1, margin);
    }
  }

  lemma WiderRun(states: seq<Sys>, steps: seq<Step>, margin: int, wider: int)
    requires IsRunWithin(states, steps, margin) && margin <= wider
    ensures IsRunWithin(states, steps, wider)
  {
    hide Next, Possible;
  }

  ghost predicate IsReplayRun(states: seq<Sys>, steps: seq<Step>, days: int, noonDays: int) {
    && |states| == |steps| + 1 && AllReplay(states, steps, days, noonDays)
    && forall i :: 0 <= i < |steps| ==> Possible(states[i], steps[i]) && states[i + 1] == Next(states[i], steps[i])
  }

  ghost predicate ReplaysNeverRepeat(days: int, noonDays: int) {
    forall states: seq<Sys>, steps: seq<Step>, m: Mark ::
      IsReplayRun(states, steps, days, noonDays) && Start(states[0]) && !m.kind.ActionRequired? ==> states[|steps|].sent[m] <= 1
  }

  /** In terms of the server's day: 14 days behind is the limit for a pass at any
      instant, and 15 for one that starts at noon, when nobody's day is behind the
      server's. */
  lemma ReplayDaysAreExact(days: nat, noonDays: nat)
    ensures ReplaysNeverRepeat(days, noonDays) <==> days <= 14 && noonDays <= 15
  {
    if days <= 14 && noonDays <= 15 {
      forall states: seq<Sys>, steps: seq<Step>, m: Mark
        | IsReplayRun(states, steps, days, noonDays) && Start(states[0]) && !m.kind.ActionRequired?
        ensures states[|steps|].sent[m] <= 1
      {
        ReplaysAreOnTime(states, steps, days, noonDays);
        AtMostOnce(states, steps, m);
      }
    } else if 14 < days {
      var p := Pass(100 * DAY, map[0 := -12 * HOUR], false, {});
      assert p.Reference() == 101 && p.Today(0) == 100;
      RepeatingReplay(p, 101 + days, days, noonDays);
    } else {
      AtNoonIsThatDay(100);
      RepeatingReplay(AtNoon(100), 100 + noonDays, days, noonDays);
    }
  }

  lemma ReplaysAreOnTime(states: seq<Sys>, steps: seq<Step>, days: int, noonDays: int)
    requires IsReplayRun(states, steps, days, noonDays) && days <= 14 && noonDays <= 15
    ensures IsRun(states, steps)
  {
    hide Next;
    forall i | 0 <= i < |steps|
      ensures LegalWithin(states[i], steps[i], REMINDER_LOG_MARGIN_DAYS)
    {
      assert Possible(states[i], steps[i]) && Replays(states[i], steps[i], days, noonDays);
      if steps[i].Dispatching? {
        EveryoneOnTime(states[i], steps[i].p, days, noonDays);
      }
    }
  }

  lemma EveryoneOnTime(s: Sys, p: Pass, days: int, noonDays: int)
    requires p.Valid() && days <= 14 && noonDays <= 15
    requires s.latest - (if p.at == Noon(p.Reference()) then noonDays else days) <= p.Reference()
    ensures OnTime(s, p, REMINDER_LOG_MARGIN_DAYS)
  {
    forall user
      ensures p.Reference() - 1 <= p.Today(user)
      ensures p.at == Noon(p.Reference()) ==> p.Reference() <= p.Today(user)
    {
      PersonsDay(p, user);
      NoonIsThatDay(p.Reference(), if user in p.offsets then p.offsets[user] else 0);
    }
  }

  lemma RepeatingReplay(p: Pass, latest: Day, days: nat, noonDays: nat)
    requires p.Valid() && p.failing == {} && 31 <= p.Today(0) < latest - REMINDER_LOG_MARGIN_DAYS
    requires latest - (if p.at == Noon(p.Reference()) then noonDays else days) <= p.Reference()
    ensures !ReplaysNeverRepeat(days, noonDays)
  {
    hide Next, Start, Noon;
    var states, steps, m := LateReplayRepeats(p, 0, latest, days, noonDays);
    assert IsReplayRun(states, steps, days, noonDays);
  }
}
