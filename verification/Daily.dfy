/** The daily job: purge, generate, send, all from one instant. */
module Daily {
  import opened Calendar
  import opened Clock
  import opened Evolution
  import opened Occurrences
  import opened Options
  import opened Records
  import opened Reminders
  import opened ReminderWindow
  import opened Schedule
  import opened ActionWindows

  function Expired(db: Db, before: Instant): set<CommitmentId> {
    set id | id in db.commitments && db.commitments[id].deletedAt.Some?
             && db.commitments[id].deletedAt.value < before
  }

  /** Empty the trash of what was deleted before an instant. */
  function PurgeDeleted(db: Db, before: Instant): Db {
    DropCommitments(db, Expired(db, before))
  }

  /** The trash older than an instant goes, with all that hangs from it; what is not in
      the trash, or was put there since, stays. */
  lemma OldTrashGoes(db: Db, before: Instant)
    ensures var after := PurgeDeleted(db, before);
            && (forall id :: id in after.commitments <==>
                  id in db.commitments && (db.commitments[id].deletedAt == None || before <= db.commitments[id].deletedAt.value))
            && (forall id :: id in after.commitments ==> after.commitments[id] == db.commitments[id])
            && (forall k :: k in db.rows && k.commitment in db.commitments ==>
                  (k in after.rows <==> k.commitment in after.commitments))
            && (forall k :: k in after.rows ==> k in db.rows && after.rows[k] == db.rows[k])
  {
    DroppedExactly(db, Expired(db, before));
    hide DropCommitments;
  }

  function StaleRows(db: Db, before: Day): set<RowId> {
    set k | k in db.rows && k.due < before :: db.rows[k].id
  }

  /** Forget the log lines of rows due before a day. */
  function PurgeReminders(db: Db, before: Day): Db {
    db.(log := set m | m in db.log && m.row !in StaleRows(db, before))
  }

  /** What the job does before it sends anything. */
  function Prepare(db: Db, reference: Day, cutoff: Instant): Db
    requires Startable(db)
  {
    SyncAllActive(PurgeReminders(PurgeDeleted(db, cutoff), reference - PURGE_REMINDERS_AFTER_DAYS), reference)
  }

  function RunDaily(db: Db, p: Pass, cutoff: Instant): Db
    requires Startable(db)
  {
    SendDue(Prepare(db, p.Reference(), cutoff), p)
  }

  /** A row of `b` is new, or is the row `a` had; and a line `a` had for it is gone
      only if the row was due before the log's purge date. */
  ghost predicate KeptByPurge(a: Db, b: Db, k: Key, before: Day) {
    && k in b.rows
    && (a.nextRow <= b.rows[k].id ||
        (k in a.rows && b.rows[k].id == a.rows[k].id &&
         forall kind, channel :: Mark(b.rows[k].id, kind, channel) in a.log ==>
           Mark(b.rows[k].id, kind, channel) in b.log || k.due < before))
  }

  lemma PurgedLog(db: Db, before: Day)
    requires db.Sound()
    ensures var after := PurgeReminders(db, before);
            after.Sound() && forall k :: k in after.rows ==> KeptByPurge(db, after, k, before)
  {
    var after := PurgeReminders(db, before);
    forall k, kind, channel | k in after.rows && Mark(after.rows[k].id, kind, channel) in db.log && before <= k.due
      ensures Mark(after.rows[k].id, kind, channel) in after.log
    {
      assert db.rows[k].id !in StaleRows(db, before);
    }
  }

  lemma PrepareKeeps(db: Db, reference: Day, cutoff: Instant)
    requires db.Sound()
    ensures var after := Prepare(db, reference, cutoff);
            && after.Sound() && after.log <= db.log && db.nextRow <= after.nextRow
            && (forall k :: k in after.rows ==>
                  KeptByPurge(db, after, k, reference - PURGE_REMINDERS_AFTER_DAYS))
  {
    var before := reference - PURGE_REMINDERS_AFTER_DAYS;
    var a := PurgeDeleted(db, cutoff);
    var b := PurgeReminders(a, before);
    var c := Prepare(db, reference, cutoff);
    DropEvolves(db, Expired(db, cutoff));
    PurgedLog(a, before);
    SyncAllActiveExact(b, reference);
    forall k | k in c.rows && c.rows[k].id < db.nextRow
      ensures KeptByPurge(db, c, k, before)
    {
      assert Persists(b, c, k);
      assert KeptByPurge(a, b, k, before);
      assert Persists(db, a, k);
    }
  }

  /** A live, active commitment keeps its rows and is given its window. */
  lemma PrepareFills(db: Db, reference: Day, cutoff: Instant, id: CommitmentId, d: Day)
    requires db.Sound() && Generates(db, id)
    ensures var ready, k := Prepare(db, reference, cutoff), Key(id, d);
            && ready.users == db.users && Generates(ready, id) && ready.commitments[id] == db.commitments[id]
            && (k in db.rows ==> k in ready.rows && ready.rows[k] == db.rows[k])
            && (k in ready.rows <==> k in db.rows || d in Window(db.commitments[id], reference))
            && (k in ready.rows && k !in db.rows ==>
                  ready.rows[k] == Row(ready.rows[k].id, db.commitments[id].user, db.commitments[id].amount, Pending))
  {
    hide Window, Evolves;
    var kept := PurgeDeleted(db, cutoff);
    var purged := PurgeReminders(kept, reference - PURGE_REMINDERS_AFTER_DAYS);
    PurgedIsSound(db, reference, cutoff);
    SyncAllActiveExact(purged, reference);
  }

  lemma PurgedIsSound(db: Db, reference: Day, cutoff: Instant)
    requires db.Sound()
    ensures PurgeReminders(PurgeDeleted(db, cutoff), reference - PURGE_REMINDERS_AFTER_DAYS).Sound()
  {
    DropEvolves(db, Expired(db, cutoff));
    PurgedLog(PurgeDeleted(db, cutoff), reference - PURGE_REMINDERS_AFTER_DAYS);
  }

  /** A whole day's job drops the old trash, and changes no other commitment and no row
      that stays. */
  lemma JobKeeps(db: Db, p: Pass, cutoff: Instant)
    requires db.Sound()
    ensures var after := RunDaily(db, p, cutoff);
            && after.users == db.users
            && (forall id :: id in after.commitments <==>
                  id in db.commitments && (db.commitments[id].deletedAt == None || cutoff <= db.commitments[id].deletedAt.value))
            && (forall id :: id in after.commitments ==> after.commitments[id] == db.commitments[id])
            && (forall k :: k in db.rows && k.commitment in after.commitments ==> k in after.rows && after.rows[k] == db.rows[k])
  {
    hide Expired, Window, Evolves, Dispatch;
    var purged := PurgeReminders(PurgeDeleted(db, cutoff), p.Reference() - PURGE_REMINDERS_AFTER_DAYS);
    OldTrashGoes(db, cutoff);
    PurgedIsSound(db, p.Reference(), cutoff);
    SyncAllActiveExact(purged, p.Reference());
    SendingOnlyLogs(Prepare(db, p.Reference(), cutoff), p);
  }

  lemma SendingOnlyLogs(db: Db, p: Pass)
    ensures SendDue(db, p) == db.(log := SendDue(db, p).log)
  {
    hide Stamps, Delivered;
  }

  // ----- cancellation warnings, in every zone -----

  lemma InWindow(c: Commitment, today: Day, d: Day)
    requires 1 <= c.rule.startsOn && Scheduled(c.rule, d) && (today <= d || c.rule.frequency.Oneoff?)
    ensures d in Window(c, today) <==> d <= today + HorizonDays(c.rule.frequency)
  {
    WindowIs(c, today);
    hide Window, Scheduled;
  }

  predicate CancellationOpen(c: Commitment, due: Day, today: Day) {
    CancellationWindow(c, due).Some? && CancellationWindow(c, due).value.IsOpen(today)
  }

  /** While the cancellation window of a scheduled date is open for its owner, the
      action query reaches the date, and the day's job has its row in the table before
      it sends if and only if it had one already or the date is within the horizon of
      the server's day. It is, unless the owner is a day ahead and the date is 91 days
      off: the window opens there 90 days before, and the table is filled on the
      server's day. */
  lemma CancellationIsGenerated(db: Db, reference: Day, cutoff: Instant, id: CommitmentId, d: Day, today: Day)
    requires db.Sound() && Generates(db, id) && Scheduled(db.commitments[id].rule, d)
    requires reference - 1 <= today <= reference + 1 && CancellationOpen(db.commitments[id], d, today)
    ensures var ready, horizon := Prepare(db, reference, cutoff), HorizonDays(db.commitments[id].rule.frequency);
            && ready.Sound() && ready.users == db.users && Generates(ready, id)
            && ready.commitments[id] == db.commitments[id]
            && (Key(id, d) in ready.rows <==> Key(id, d) in db.rows || d <= reference + horizon)
            && (reference + horizon < d ==> today == reference + 1 && d == reference + 91)
    ensures QueryBounds(ActionRequired, reference).Has(d)
  {
    hide Window, Scheduled, Prepare;
    PrepareKeeps(db, reference, cutoff);
    PrepareFills(db, reference, cutoff, id, d);
    CancellationAlwaysCovered(db.commitments[id], d, today);
    InWindow(db.commitments[id], reference, d);
  }

  /** The window chosen for an owner whose cancellation window is open: the trial's if
      the server has passed the deadline; otherwise the cancellation's own, or a tighter
      trial's, which the owner must not have passed. */
  predicate NotMasked(c: Commitment, due: Day, reference: Day, today: Day)
    requires CancellationWindow(c, due).Some?
  {
    var trial := TrialWindow(c, due);
    var live := trial.Some? && reference <= trial.value.deadline;
    if reference <= CancellationWindow(c, due).value.deadline then !(live && trial.value.deadline < today)
    else live && trial.value.IsOpen(today)
  }

  /** While the cancellation window is open on the person's day, the row is sent if and
      only if no trial masks it: a trial whose deadline the server has not passed and
      the person has. */
  lemma OpenCancellationIsSendable(db: Db, p: Pass, k: Key, channel: Channel)
    requires p.Valid() && db.Sound() && Open(db, k, ActionRequired, channel)
    requires CancellationOpen(db.commitments[k.commitment], k.due, p.Today(db.rows[k].user))
    requires Welcomes(db, db.rows[k].user, ActionRequired, channel)
    ensures Sendable(db, p, k, ActionRequired, channel) <==>
            NotMasked(db.commitments[k.commitment], k.due, p.Reference(), p.Today(db.rows[k].user))
  {
    var c, today := db.commitments[k.commitment], p.Today(db.rows[k].user);
    PersonsDay(p, db.rows[k].user);
    SelectedByWindow(db, p, k, channel);
    CancellationAlwaysCovered(c, k.due, today);
    ChoosesTightest(c, k.due, p.Reference());
  }

  /** On every day the window is open for its owner, in every zone: once the row is
      there and pending, its line is in the log at the end of the job if and only if it
      was there before or no trial masks the window. */
  lemma CancellationIsSentInTime(db: Db, p: Pass, cutoff: Instant, id: CommitmentId, d: Day, channel: Channel)
    requires db.Sound() && p.Valid() && Generates(db, id) && Scheduled(db.commitments[id].rule, d)
    requires var c := db.commitments[id];
             && CancellationOpen(c, d, p.Today(c.user)) && c.isReminderEnabled
             && Welcomes(db, c.user, ActionRequired, channel)
             && Attempt(c.user, ActionRequired, channel) !in p.failing && (channel.Push? ==> p.pushConfigured)
    ensures var ready, k, c := Prepare(db, p.Reference(), cutoff), Key(id, d), db.commitments[id];
            k in ready.rows && ready.rows[k].status.Pending? ==>
              var m := Mark(ready.rows[k].id, ActionRequired, channel);
              m in RunDaily(db, p, cutoff).log <==>
              m in ready.log || NotMasked(c, d, p.Reference(), p.Today(c.user))
  {
    hide Prepare, SendDue, Scheduled, CancellationOpen, NotMasked;
    var c := db.commitments[id];
    PersonsDay(p, c.user);
    CancellationIsGenerated(db, p.Reference(), cutoff, id, d, p.Today(c.user));
    var ready, k := Prepare(db, p.Reference(), cutoff), Key(id, d);
    if k in ready.rows && ready.rows[k].status.Pending? {
      var m := Mark(ready.rows[k].id, ActionRequired, channel);
      AfterPass(ready, p, m);
      if m !in ready.log {
        OwnActionLine(ready, p, k, channel);
        OpenCancellationIsSendable(ready, p, k, channel);
      }
    }
  }

  // An action line is written for its own row and by its own family only.
  lemma OwnActionLine(db: Db, p: Pass, k: Key, channel: Channel)
    requires db.Sound() && k in db.rows && (channel.Push? ==> p.pushConfigured)
    requires Attempt(db.rows[k].user, ActionRequired, channel) !in p.failing
    ensures PassWrites(db, p, Mark(db.rows[k].id, ActionRequired, channel)) <==>
            Sendable(db, p, k, ActionRequired, channel)
  {
    hide Sendable;
    var m := Mark(db.rows[k].id, ActionRequired, channel);
    if Sendable(db, p, k, ActionRequired, channel) {
      assert Writes(db, p, k, m, ActionRequired, channel);
    }
  }

  /** A masked day costs no warning where the job ran the day before: the account was
      then sent the trial's own action for the same row. */
  lemma MaskedWasWarned(db: Db, p: Pass, k: Key, channel: Channel, next: Pass)
    requires p.Valid() && next.Valid() && db.Sound() && Open(db, k, ActionRequired, channel)
    requires Welcomes(db, db.rows[k].user, ActionRequired, channel)
    requires var user := db.rows[k].user;
             && next.Reference() == p.Reference() + 1 && next.Today(user) == p.Today(user) + 1
             && k.due <= p.Today(user) + 90
    requires var c, today := db.commitments[k.commitment], next.Today(db.rows[k].user);
             && CancellationOpen(c, k.due, today) && next.Reference() < today
             && !NotMasked(c, k.due, next.Reference(), today)
    ensures Sendable(db, p, k, ActionRequired, channel) && TrialAction(db, k, p.Reference())
  {
    var c := db.commitments[k.commitment];
    PersonsDay(next, db.rows[k].user);
    SelectedByWindow(db, p, k, channel);
    ChoosesTightest(c, k.due, p.Reference());
  }

  // ----- the two conditions are needed -----

  const ACCEPTING: User := User(true, true, true, true, true, true, true)

  function OneOff(user: UserId, due: Day, trialEndsOn: Option<Day>, notice: int, lead: int): Commitment {
    Commitment(user, "", None, Invoice, "", 1, Rule(due, Oneoff, None), trialEndsOn, Some(notice), lead, true, Active, None)
  }

  /** A trial ending on day 100, a due date on day 103, one day of notice and a lead of
      ten: the job of noon on day 100 sends nothing to an account at UTC+13, whose
      cancellation window is open that day and the server's as well. */
  lemma TrialMasksCancellation(user: UserId)
    ensures var c := OneOff(user, 103, Some(100), 1, 10);
            var db := Db(map[user := ACCEPTING], map[0 := c], map[Key(0, 103) := Row(0, user, 1, Pending)], {}, 1, 1);
            var p := Pass(Noon(100), map[user := 13 * HOUR], true, {});
            && db.Sound() && p.Valid() && c.Valid()
            && CancellationOpen(c, 103, p.Reference()) && CancellationOpen(c, 103, p.Today(user))
            && forall channel :: Open(db, Key(0, 103), ActionRequired, channel)
                                 && !Sendable(db, p, Key(0, 103), ActionRequired, channel)
  {
    var c := OneOff(user, 103, Some(100), 1, 10);
    var db := Db(map[user := ACCEPTING], map[0 := c], map[Key(0, 103) := Row(0, user, 1, Pending)], {}, 1, 1);
    var p := Pass(Noon(100), map[user := 13 * HOUR], true, {});
    assert p.Reference() == 100 && p.Today(user) == 101;
    forall channel
      ensures Open(db, Key(0, 103), ActionRequired, channel) && !Sendable(db, p, Key(0, 103), ActionRequired, channel)
    {
      OpenCancellationIsSendable(db, p, Key(0, 103), channel);
    }
  }

  /** With the longest notice and lead, an account at UTC+13 is warned a day late: on
      the day its window opens, the job of noon has not written the row yet. */
  lemma GenerationIsOutrun(user: UserId, cutoff: Instant)
    ensures var c := OneOff(user, 191, None, MAX_CANCELLATION_NOTICE_DAYS, MAX_REMINDER_DAYS);
            var db := Db(map[user := ACCEPTING], map[0 := c], map[], {}, 1, 0);
            var p := Pass(Noon(100), map[user := 13 * HOUR], true, {});
            && db.Sound() && CancellationOpen(c, 191, p.Today(user))
            && Key(0, 191) !in Prepare(db, p.Reference(), cutoff).rows
  {
    var c := OneOff(user, 191, None, MAX_CANCELLATION_NOTICE_DAYS, MAX_REMINDER_DAYS);
    var db := Db(map[user := ACCEPTING], map[0 := c], map[], {}, 1, 0);
    var p := Pass(Noon(100), map[user := 13 * HOUR], true, {});
    assert p.Reference() == 100 && p.Today(user) == 101;
    assert Scheduled(c.rule, 191);
    CancellationIsGenerated(db, 100, cutoff, 0, 191, 101);
  }
}
