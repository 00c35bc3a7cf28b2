/** Creating, editing, trashing and restoring commitments, with the ceiling on how
    many of each type an account may follow. */
module Commitments {
  import opened Calendar
  import opened Evolution
  import opened Occurrences
  import opened Options
  import opened Records
  import opened Schedule
  import opened ReminderRuns

  // ----- counting -----

  predicate CountsFor(c: Commitment, user: UserId, t: CommitmentType) {
    c.user == user && c.Live() && c.Counted() && c.commitmentType == t
  }

  function CountedIds(db: Db, user: UserId, t: CommitmentType): set<CommitmentId> {
    set id | id in db.commitments && CountsFor(db.commitments[id], user, t)
  }

  function Count(db: Db, user: UserId, t: CommitmentType): nat {
    |CountedIds(db, user, t)|
  }

  predicate Full(db: Db, user: UserId, t: CommitmentType) {
    MAX_COMMITMENTS_PER_TYPE <= Count(db, user, t)
  }

  const ROOF: nat := RESTORE_CEILING_FACTOR * MAX_COMMITMENTS_PER_TYPE

  predicate Owned(db: Db, user: UserId, id: CommitmentId) {
    id in db.commitments && db.commitments[id].user == user && db.commitments[id].Live()
  }

  /** The live active or paused lines of a type an account follows. */
  ghost function Population(db: Db, user: UserId, t: CommitmentType): set<CommitmentId> {
    set id | id in db.commitments && db.commitments[id].user == user && db.commitments[id].deletedAt == None
             && (db.commitments[id].status == Active || db.commitments[id].status == Paused)
             && db.commitments[id].commitmentType == t
  }

  lemma CountIsPopulation(db: Db, user: UserId, t: CommitmentType)
    ensures Count(db, user, t) == |Population(db, user, t)| && (Full(db, user, t) <==> 25 <= |Population(db, user, t)|)
  {
    assert CountedIds(db, user, t) == Population(db, user, t);
  }

  // ----- editing -----

  /** The fields of an edit. A column that may be cleared carries an option inside. */
  datatype Changes = Changes(
    title: Option<string>,
    notes: Option<Option<string>>,
    commitmentType: Option<CommitmentType>,
    category: Option<Category>,
    amount: Option<Cents>,
    frequency: Option<Frequency>,
    startsOn: Option<Day>,
    endsOn: Option<Option<Day>>,
    trialEndsOn: Option<Option<Day>>,
    cancellationNoticeDays: Option<Option<int>>,
    reminderDaysBefore: Option<int>,
    isReminderEnabled: Option<bool>,
    status: Option<CommitmentStatus>)
  {
    /** The ranges the request schema accepts. */
    predicate Valid() {
      && (amount.Some? ==> 0 < amount.value)
      && (startsOn.Some? ==> 1 <= startsOn.value)
      && (reminderDaysBefore.Some? ==> 0 <= reminderDaysBefore.value <= MAX_REMINDER_DAYS)
      && (cancellationNoticeDays.Some? && cancellationNoticeDays.value.Some? ==>
            1 <= cancellationNoticeDays.value.value <= MAX_CANCELLATION_NOTICE_DAYS)
    }

    predicate Reschedules() {
      amount.Some? || frequency.Some? || startsOn.Some? || endsOn.Some? || status.Some?
    }

    predicate EditsDeadlines() {
      trialEndsOn.Some? || cancellationNoticeDays.Some?
    }
  }

  const NO_CHANGE: Changes := Changes(None, None, None, None, None, None, None, None, None, None, None, None, None)

  function Or<T>(change: Option<T>, current: T): T {
    if change.Some? then change.value else current
  }

  function Applied(c: Commitment, ch: Changes): Commitment {
    c.(title := Or(ch.title, c.title),
       notes := Or(ch.notes, c.notes),
       commitmentType := Or(ch.commitmentType, c.commitmentType),
       category := Or(ch.category, c.category),
       amount := Or(ch.amount, c.amount),
       rule := Rule(Or(ch.startsOn, c.rule.startsOn), Or(ch.frequency, c.rule.frequency), Or(ch.endsOn, c.rule.endsOn)),
       trialEndsOn := Or(ch.trialEndsOn, c.trialEndsOn),
       cancellationNoticeDays := Or(ch.cancellationNoticeDays, c.cancellationNoticeDays),
       reminderDaysBefore := Or(ch.reminderDaysBefore, c.reminderDaysBefore),
       isReminderEnabled := Or(ch.isReminderEnabled, c.isReminderEnabled),
       status := Or(ch.status, c.status))
  }

  datatype Refusal = NoFieldsToUpdate | CommitmentNotFound | InvalidDateRange | CommitmentLimitReached | RestoreLimitReached

  datatype Result = Done | Refused(why: Refusal)

  /** The line would enter a population it is not already counted in. */
  predicate Enters(c: Commitment, ch: Changes) {
    var after := Applied(c, ch);
    after.Counted() && !(c.Counted() && c.commitmentType == after.commitmentType)
  }

  function RefusalOf(db: Db, user: UserId, id: CommitmentId, ch: Changes): Result {
    if ch == NO_CHANGE then Refused(NoFieldsToUpdate)
    else if !Owned(db, user, id) then Refused(CommitmentNotFound)
    else
      var c := db.commitments[id];
      var after := Applied(c, ch);
      if after.rule.endsOn.Some? && after.rule.endsOn.value < after.rule.startsOn then Refused(InvalidDateRange)
      else if after.trialEndsOn.Some? && after.rule.startsOn < after.trialEndsOn.value then Refused(InvalidDateRange)
      else if Enters(c, ch) && Full(db, user, after.commitmentType) then Refused(CommitmentLimitReached)
      else Done
  }

  predicate Given<T(==)>(change: Option<T>, before: T, after: T) {
    (change.Some? && after == change.value) || (change.None? && after == before)
  }

  /** Column by column: what is given is written, what is not stays. */
  predicate Edited(c: Commitment, ch: Changes, e: Commitment) {
    && Given(ch.title, c.title, e.title) && Given(ch.notes, c.notes, e.notes)
    && Given(ch.commitmentType, c.commitmentType, e.commitmentType) && Given(ch.category, c.category, e.category)
    && Given(ch.amount, c.amount, e.amount) && Given(ch.frequency, c.rule.frequency, e.rule.frequency)
    && Given(ch.startsOn, c.rule.startsOn, e.rule.startsOn) && Given(ch.endsOn, c.rule.endsOn, e.rule.endsOn)
    && Given(ch.trialEndsOn, c.trialEndsOn, e.trialEndsOn)
    && Given(ch.cancellationNoticeDays, c.cancellationNoticeDays, e.cancellationNoticeDays)
    && Given(ch.reminderDaysBefore, c.reminderDaysBefore, e.reminderDaysBefore)
    && Given(ch.isReminderEnabled, c.isReminderEnabled, e.isReminderEnabled) && Given(ch.status, c.status, e.status)
    && e.user == c.user && e.deletedAt == c.deletedAt
  }

  /** The edited line; and which columns reschedule, and which only reopen its actions. */
  lemma EditedColumns(c: Commitment, ch: Changes)
    ensures Edited(c, ch, Applied(c, ch))
    ensures ch.Reschedules() <==> ch.amount.Some? || ch.frequency.Some? || ch.startsOn.Some? || ch.endsOn.Some? || ch.status.Some?
    ensures ch.EditsDeadlines() <==> ch.trialEndsOn.Some? || ch.cancellationNoticeDays.Some?
  {
  }

  predicate SomethingGiven(ch: Changes) {
    ch.title.Some? || ch.notes.Some? || ch.commitmentType.Some? || ch.category.Some? || ch.amount.Some?
    || ch.frequency.Some? || ch.startsOn.Some? || ch.endsOn.Some? || ch.trialEndsOn.Some?
    || ch.cancellationNoticeDays.Some? || ch.reminderDaysBefore.Some? || ch.isReminderEnabled.Some? || ch.status.Some?
  }

  predicate DatesInOrder(e: Commitment) {
    (e.rule.endsOn.Some? ==> e.rule.startsOn <= e.rule.endsOn.value)
    && (e.trialEndsOn.Some? ==> e.trialEndsOn.value <= e.rule.startsOn)
  }

  /** Why an edit is refused, in the order of the checks: nothing given; not a live line
      of the account; dates out of order; or a line that would enter a population of
      twenty-five it is not counted in. */
  lemma RefusedExactly(db: Db, user: UserId, id: CommitmentId, ch: Changes)
    ensures var r := RefusalOf(db, user, id, ch);
            var owned := id in db.commitments && db.commitments[id].user == user && db.commitments[id].deletedAt == None;
            && (r == Refused(NoFieldsToUpdate) <==> !SomethingGiven(ch))
            && (r == Refused(CommitmentNotFound) <==> SomethingGiven(ch) && !owned)
            && (r == Refused(InvalidDateRange) <==>
                SomethingGiven(ch) && owned && !DatesInOrder(Applied(db.commitments[id], ch)))
            && (r == Refused(CommitmentLimitReached) <==>
                && SomethingGiven(ch) && owned && DatesInOrder(Applied(db.commitments[id], ch))
                && var e := Applied(db.commitments[id], ch);
                   && e.status != Archived && 25 <= |Population(db, user, e.commitmentType)|
                   && id !in Population(db, user, e.commitmentType))
            && (r == Done || r in {Refused(NoFieldsToUpdate), Refused(CommitmentNotFound), Refused(InvalidDateRange), Refused(CommitmentLimitReached)})
  {
    hide Count;
    if id in db.commitments {
      CountIsPopulation(db, user, Applied(db.commitments[id], ch).commitmentType);
    }
  }

  function SetCommitment(db: Db, id: CommitmentId, c: Commitment): Db {
    db.(commitments := db.commitments[id := c])
  }

  function Update(db: Db, user: UserId, id: CommitmentId, ch: Changes, today: Day): Db
    requires db.Sound() && ch.Valid()
  {
    if RefusalOf(db, user, id, ch).Refused? then db
    else
      var edited := SetCommitment(db, id, Applied(db.commitments[id], ch));
      if ch.Reschedules() then Resync(edited, id, today)
      else if ch.EditsDeadlines() then ClearActions(edited, id)
      else edited
  }

  // ----- creating, trashing, restoring -----

  predicate Creatable(c: Commitment) {
    c.Valid() && c.Live() && c.status.Active?
  }

  function Created(db: Db, c: Commitment): Db {
    SetCommitment(db, db.nextCommitment, c).(nextCommitment := db.nextCommitment + 1)
  }

  function Create(db: Db, c: Commitment, today: Day): Db
    requires db.Sound() && Creatable(c)
  {
    if Full(db, c.user, c.commitmentType) then db
    else Sync(Created(db, c), db.nextCommitment, today)
  }

  function SoftDelete(db: Db, user: UserId, ids: set<CommitmentId>, at: Instant): Db {
    db.(commitments := map id | id in db.commitments ::
      if id in ids && Owned(db, user, id) then db.commitments[id].(deletedAt := Some(at)) else db.commitments[id])
  }

  predicate InTrash(db: Db, user: UserId, id: CommitmentId) {
    id in db.commitments && db.commitments[id].user == user && !db.commitments[id].Live()
  }

  /** The trashed lines named by a request that would count again. */
  function Entrants(db: Db, user: UserId, ids: set<CommitmentId>, t: CommitmentType): set<CommitmentId> {
    set id | id in ids && InTrash(db, user, id) && db.commitments[id].Counted() && db.commitments[id].commitmentType == t
  }

  predicate OverRoof(db: Db, user: UserId, ids: set<CommitmentId>, t: CommitmentType) {
    Entrants(db, user, ids, t) != {} && ROOF < Count(db, user, t) + |Entrants(db, user, ids, t)|
  }

  function RestoreRefused(db: Db, user: UserId, ids: set<CommitmentId>): bool {
    OverRoof(db, user, ids, Subscription) || OverRoof(db, user, ids, Invoice)
  }

  function Restore(db: Db, user: UserId, ids: set<CommitmentId>): Db {
    if RestoreRefused(db, user, ids) then db
    else db.(commitments := map id | id in db.commitments ::
      if id in ids && InTrash(db, user, id) then db.commitments[id].(deletedAt := None) else db.commitments[id])
  }

  function Trash(db: Db, user: UserId, t: Option<CommitmentType>): set<CommitmentId> {
    set id | id in db.commitments && InTrash(db, user, id) && (t.None? || db.commitments[id].commitmentType == t.value)
  }

  function PurgeNow(db: Db, user: UserId, t: Option<CommitmentType>): Db {
    DropCommitments(db, Trash(db, user, t))
  }

  // ----- the trash, line by line -----

  /** Trashing stamps the live lines of the account that are named, and no others. */
  lemma TrashedExactly(db: Db, user: UserId, ids: set<CommitmentId>, at: Instant)
    ensures var after := SoftDelete(db, user, ids, at);
            && after == db.(commitments := after.commitments) && after.commitments.Keys == db.commitments.Keys
            && forall id :: id in db.commitments ==>
                 var c := db.commitments[id];
                 after.commitments[id] == if id in ids && c.user == user && c.deletedAt == None then c.(deletedAt := Some(at)) else c
  {
  }

  /** The lines of the account's trash that are named and would be counted again. */
  ghost function Returning(db: Db, user: UserId, ids: set<CommitmentId>, t: CommitmentType): set<CommitmentId> {
    set id | id in ids && id in db.commitments && db.commitments[id].user == user && db.commitments[id].deletedAt != None
             && db.commitments[id].status != Archived && db.commitments[id].commitmentType == t
  }

  /** A restoration is refused exactly when a type something would enter passes fifty; it
      then changes nothing, and otherwise it clears the stamp of the trashed lines of the
      account that are named, and of no others. */
  lemma RestoredExactly(db: Db, user: UserId, ids: set<CommitmentId>)
    ensures RestoreRefused(db, user, ids) <==>
            exists t :: Returning(db, user, ids, t) != {} && 50 < |Population(db, user, t)| + |Returning(db, user, ids, t)|
    ensures var after := Restore(db, user, ids);
            && after == db.(commitments := after.commitments) && after.commitments.Keys == db.commitments.Keys
            && forall id :: id in db.commitments ==>
                 var c := db.commitments[id];
                 after.commitments[id] ==
                 if !RestoreRefused(db, user, ids) && id in ids && c.user == user && c.deletedAt != None then c.(deletedAt := None) else c
  {
    forall t
      ensures OverRoof(db, user, ids, t) <==>
              Returning(db, user, ids, t) != {} && 50 < |Population(db, user, t)| + |Returning(db, user, ids, t)|
    {
      CountIsPopulation(db, user, t);
      assert Returning(db, user, ids, t) == Entrants(db, user, ids, t);
    }
    hide OverRoof, Population, Returning;
    assert RestoreRefused(db, user, ids) <==> exists t :: OverRoof(db, user, ids, t);
  }

  /** Emptying the trash drops the account's trashed lines, of one type or all, with what
      hangs from them, and keeps everything else. */
  lemma EmptiedExactly(db: Db, user: UserId, t: Option<CommitmentType>)
    ensures var after := PurgeNow(db, user, t);
            && (forall id :: id in after.commitments <==>
                  id in db.commitments &&
                  var c := db.commitments[id];
                  c.user != user || c.deletedAt == None || (t != None && c.commitmentType != t.value))
            && (forall id :: id in after.commitments ==> after.commitments[id] == db.commitments[id])
            && (forall k :: k in after.rows ==> k in db.rows && after.rows[k] == db.rows[k])
            && (forall k :: k in db.rows && k.commitment in db.commitments ==>
                  (k in after.rows <==> k.commitment in after.commitments))
  {
    DroppedExactly(db, Trash(db, user, t));
    hide DropCommitments;
  }

  // ----- every edit is a change the reminder runs allow -----

  lemma AppliedIsValid(db: Db, user: UserId, id: CommitmentId, ch: Changes)
    requires db.Sound() && ch.Valid() && RefusalOf(db, user, id, ch).Done?
    ensures Applied(db.commitments[id], ch).Valid()
    ensures Evolves(db, SetCommitment(db, id, Applied(db.commitments[id], ch)))
  {
    EditEvolves(db, SetCommitment(db, id, Applied(db.commitments[id], ch)));
  }

  /** An edit keeps the tables sound. It evolves them, except that an edit of deadlines
      alone also clears the lines of the commitment's actions. */
  lemma UpdateEvolves(db: Db, user: UserId, id: CommitmentId, ch: Changes, today: Day)
    requires db.Sound() && ch.Valid()
    ensures Update(db, user, id, ch, today).Sound()
    ensures Evolves(db, Update(db, user, id, ch, today)) ||
            exists edited :: Evolves(db, edited) && Update(db, user, id, ch, today) == ClearActions(edited, id)
  {
    if RefusalOf(db, user, id, ch).Refused? {
      EvolvesSame(db);
    } else {
      AppliedIsValid(db, user, id, ch);
      var edited := SetCommitment(db, id, Applied(db.commitments[id], ch));
      if ch.Reschedules() {
        SyncEvolves(edited, id, today);
        EvolvesChain(db, edited, Resync(edited, id, today));
      }
    }
  }

  lemma CreateEvolves(db: Db, c: Commitment, today: Day)
    requires db.Sound() && Creatable(c)
    ensures Evolves(db, Create(db, c, today))
  {
    if Full(db, c.user, c.commitmentType) {
      EvolvesSame(db);
    } else {
      var created := Created(db, c);
      CreatedEvolves(db, c);
      assert created.Sound();
      SyncEvolves(created, db.nextCommitment, today);
      EvolvesChain(db, created, Create(db, c, today));
    }
  }

  lemma CreatedEvolves(db: Db, c: Commitment)
    requires db.Sound() && Creatable(c)
    ensures Evolves(db, Created(db, c))
  {
    EditEvolves(db, Created(db, c));
  }

  lemma TrashEvolves(db: Db, user: UserId, ids: set<CommitmentId>, at: Instant)
    requires db.Sound()
    ensures Evolves(db, SoftDelete(db, user, ids, at))
  {
    EditEvolves(db, SoftDelete(db, user, ids, at));
  }

  lemma RestoreEvolves(db: Db, user: UserId, ids: set<CommitmentId>)
    requires db.Sound()
    ensures Evolves(db, Restore(db, user, ids))
  {
    EditEvolves(db, Restore(db, user, ids));
  }

  // ----- what a request leaves in the tables -----

  /** An edit touches its own line only. Rescheduling fields replace its open rows by
      the new schedule; deadline fields alone clear its action lines and nothing else;
      any other edit leaves rows and log as they were. */
  lemma UpdateEffects(db: Db, user: UserId, id: CommitmentId, ch: Changes, today: Day)
    requires db.Sound() && ch.Valid() && RefusalOf(db, user, id, ch).Done?
    ensures var after := Update(db, user, id, ch, today);
            && (forall other :: other in db.commitments && other != id ==>
                  other in after.commitments && after.commitments[other] == db.commitments[other])
            && (forall k :: k in db.rows && k.commitment != id ==> k in after.rows && after.rows[k] == db.rows[k])
    ensures ch.Reschedules() ==>
              Rescheduled(SetCommitment(db, id, Applied(db.commitments[id], ch)), Update(db, user, id, ch, today), id, today)
    ensures !ch.Reschedules() ==> Update(db, user, id, ch, today).rows == db.rows
    ensures !ch.Reschedules() && !ch.EditsDeadlines() ==> Update(db, user, id, ch, today).log == db.log
    ensures !ch.Reschedules() && ch.EditsDeadlines() ==>
              forall m :: m in Update(db, user, id, ch, today).log <==>
                m in db.log && !(m.kind == ActionRequired && exists k :: PendingLine(db, id, k, m.row))
  {
    AppliedIsValid(db, user, id, ch);
    var edited := SetCommitment(db, id, Applied(db.commitments[id], ch));
    if ch.Reschedules() {
      hide Resync, Window, RefusalOf, Db.Sound, Applied;
      RescheduleIsExact(edited, id, today);
    } else {
      hide Applied, RefusalOf, Db.Sound, Reopened, PendingLine;
      forall m
        ensures m in ClearActions(edited, id).log <==>
                m in db.log && !(m.kind == ActionRequired && exists k :: PendingLine(db, id, k, m.row))
      {
        ClearedEdited(db, id, edited.commitments[id], m);
      }
    }
  }

  lemma ClearedEdited(db: Db, id: CommitmentId, c: Commitment, m: Mark)
    ensures m in ClearActions(SetCommitment(db, id, c), id).log <==>
            m in db.log && !(m.kind == ActionRequired && exists k :: PendingLine(db, id, k, m.row))
  {
    var edited := SetCommitment(db, id, c);
    ClearedExactly(edited, id, m);
    assert forall k :: PendingLine(edited, id, k, m.row) <==> PendingLine(db, id, k, m.row);
  }

  lemma ClearedExactly(db: Db, id: CommitmentId, m: Mark)
    ensures m in ClearActions(db, id).log <==>
            m in db.log && !(m.kind == ActionRequired && exists k :: PendingLine(db, id, k, m.row))
  {
    if k :| PendingLine(db, id, k, m.row) {
      assert k in PendingOf(db, id);
    }
    if m.row in RowIds(db, PendingOf(db, id)) {
      var k :| k in PendingOf(db, id) && db.rows[k].id == m.row;
      assert PendingLine(db, id, k, m.row);
    }
  }

  ghost predicate PendingLine(db: Db, id: CommitmentId, k: Key, row: RowId) {
    k in db.rows && k.commitment == id && db.rows[k].status == Pending && db.rows[k].id == row
  }

  /** The line that was edited takes its new columns; if it was rescheduled its dates are
      those kept and, while it is active, those its new rule falls on. */
  lemma UpdatedLine(db: Db, user: UserId, id: CommitmentId, ch: Changes, today: Day)
    requires db.Sound() && ch.Valid() && RefusalOf(db, user, id, ch).Done?
    ensures var after, e := Update(db, user, id, ch, today), Applied(db.commitments[id], ch);
            && after.commitments == db.commitments[id := e] && after.users == db.users && Edited(db.commitments[id], ch, e)
            && (ch.amount.Some? || ch.frequency.Some? || ch.startsOn.Some? || ch.endsOn.Some? || ch.status.Some? ==>
                  forall d :: Key(id, d) in after.rows <==>
                    Kept(db, Key(id, d), id, today) || (e.status == Active && Falls(e.rule, today, d)))
  {
    EditedColumns(db.commitments[id], ch);
    hide Falls, Applied, Resync, Edited;
    AppliedIsValid(db, user, id, ch);
    var edited := SetCommitment(db, id, Applied(db.commitments[id], ch));
    ResyncOnlyRows(edited, id, today);
    forall d
      ensures Key(id, d) in Resync(edited, id, today).rows <==>
              Kept(db, Key(id, d), id, today) ||
              (edited.commitments[id].status == Active && Falls(edited.commitments[id].rule, today, d))
    {
      RescheduledDates(edited, id, today, d);
    }
  }

  lemma ResyncOnlyRows(db: Db, id: CommitmentId, today: Day)
    requires Generable(db, id)
    ensures var after := Resync(db, id, today); after.commitments == db.commitments && after.users == db.users
  {
    hide Window, AddOccurrences;
  }

  /** A creation is refused exactly where twenty-five lines of the type are followed. */
  lemma CreatedUnlessFull(db: Db, c: Commitment, today: Day)
    requires db.Sound() && Creatable(c)
    ensures 25 <= |Population(db, c.user, c.commitmentType)| ==> Create(db, c, today) == db
    ensures |Population(db, c.user, c.commitmentType)| < 25 ==>
              Create(db, c, today).commitments == db.commitments[db.nextCommitment := c]
  {
    CountIsPopulation(db, c.user, c.commitmentType);
    if |Population(db, c.user, c.commitmentType)| < 25 {
      CreateWritesWindow(db, c, today);
    }
    hide Population;
  }

  /** A new commitment is written with its whole window, at its amount and pending, and
      with nothing else. */
  lemma CreateWritesWindow(db: Db, c: Commitment, today: Day)
    requires db.Sound() && Creatable(c) && !Full(db, c.user, c.commitmentType)
    ensures var after, id := Create(db, c, today), db.nextCommitment;
            && after.commitments == db.commitments[id := c]
            && (forall d :: Key(id, d) in after.rows <==> Falls(c.rule, today, d))
            && (forall d :: Key(id, d) in after.rows ==>
                  after.rows[Key(id, d)] == Row(after.rows[Key(id, d)].id, c.user, c.amount, Pending))
            && (forall k :: k in db.rows ==> k in after.rows && after.rows[k] == db.rows[k])
            && after == db.(commitments := after.commitments, rows := after.rows,
                            nextCommitment := id + 1, nextRow := after.nextRow)
  {
    AddOccurrencesExact(Created(db, c), db.nextCommitment, c, Window(c, today));
    hide Window, Falls, Full;
    WindowIs(c, today);
  }
}
