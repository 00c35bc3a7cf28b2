/** The tables of the program as one value. A map stands for a table with its
    primary key; an occurrence row is keyed by the pair its unique constraint
    names, and carries the identifier the reminder log refers to. */
module Records {
  import opened Calendar
  import opened Options
  import opened Schedule

  type UserId = nat
  type CommitmentId = nat
  type RowId = nat
  type Cents = int
  type Category = string
  /** Microseconds since the first instant of day 1, in UTC. */
  type Instant = int

  datatype CommitmentType = Subscription | Invoice
  datatype CommitmentStatus = Active | Paused | Archived
  datatype OccurrenceStatus = Pending | Paid | Skipped
  datatype Kind = Notice | Overdue | ActionRequired
  datatype Channel = Email | Push

  const MAX_REMINDER_DAYS := 30
  const OVERDUE_REMINDER_DAYS := 3
  const OVERDUE_REMINDER_WINDOW_DAYS := 30
  const REMINDER_LOG_MARGIN_DAYS := 15
  const PURGE_REMINDERS_AFTER_DAYS := OVERDUE_REMINDER_WINDOW_DAYS + REMINDER_LOG_MARGIN_DAYS
  const MIN_TRIAL_NOTICE_DAYS := 3
  const MAX_CANCELLATION_NOTICE_DAYS := 60
  const MAX_COMMITMENTS_PER_TYPE := 25
  const RESTORE_CEILING_FACTOR := 2

  datatype User = User(
    isActive: bool,
    isVerified: bool,
    emailEnabled: bool,
    pushEnabled: bool,
    noticeEnabled: bool,
    overdueEnabled: bool,
    actionEnabled: bool)

  datatype Commitment = Commitment(
    user: UserId,
    title: string,
    notes: Option<string>,
    commitmentType: CommitmentType,
    category: Category,
    amount: Cents,
    rule: Rule,
    trialEndsOn: Option<Day>,
    cancellationNoticeDays: Option<int>,
    reminderDaysBefore: int,
    isReminderEnabled: bool,
    status: CommitmentStatus,
    deletedAt: Option<Instant>)
  {
    /** The check constraints of the table. */
    predicate Valid() {
      && 0 < amount
      && 1 <= rule.startsOn
      && 0 <= reminderDaysBefore <= MAX_REMINDER_DAYS
      && (rule.endsOn.Some? ==> rule.startsOn <= rule.endsOn.value)
      && (trialEndsOn.Some? ==> trialEndsOn.value <= rule.startsOn)
      && (cancellationNoticeDays.Some? ==> 1 <= cancellationNoticeDays.value <= MAX_CANCELLATION_NOTICE_DAYS)
    }

    predicate Live() {
      deletedAt.None?
    }

    /** The statuses the ceiling counts. */
    predicate Counted() {
      status.Active? || status.Paused?
    }
  }

  datatype Key = Key(commitment: CommitmentId, due: Day)

  datatype Row = Row(id: RowId, user: UserId, amount: Cents, status: OccurrenceStatus)

  /** A line of the reminder log. */
  datatype Mark = Mark(row: RowId, kind: Kind, channel: Channel)

  datatype Db = Db(
    users: map<UserId, User>,
    commitments: map<CommitmentId, Commitment>,
    rows: map<Key, Row>,
    log: set<Mark>,
    nextCommitment: CommitmentId,
    nextRow: RowId)
  {
    /** Check constraints, foreign keys and fresh identifiers. */
    ghost predicate Sound() {
      && (forall id :: id in commitments ==> id < nextCommitment && commitments[id].Valid())
      && (forall k :: k in rows ==> k.commitment in commitments && rows[k].id < nextRow && 0 < rows[k].amount)
      && (forall k :: k in rows ==> rows[k].user == commitments[k.commitment].user)
      && (forall j, k :: j in rows && k in rows && rows[j].id == rows[k].id ==> j == k)
      && (forall m :: m in log ==> m.row < nextRow)
    }
  }
}
