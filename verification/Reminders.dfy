/** One pass of reminders as a function of the tables: which rows each family
    sends on each channel, and what the log holds afterwards. */
module Reminders {
  import opened ActionWindows
  import opened Calendar
  import opened Clock
  import opened Options
  import opened Records
  import opened ReminderWindow
  import opened Schedule

  datatype Attempt = Attempt(user: UserId, kind: Kind, channel: Channel)

  /** A pass starts from one instant. The zone offsets of the people and the
      deliveries that will fail are decided outside the program. */
  datatype Pass = Pass(at: Instant, offsets: map<UserId, int>, pushConfigured: bool, failing: set<Attempt>) {
    predicate Valid() {
      forall u :: u in offsets ==> Offset(offsets[u])
    }

    function Reference(): Day {
      DateAt(at, 0)
    }

    // A person without a known zone falls back to UTC.
    function Today(user: UserId): Day {
      DateAt(at, if user in offsets then offsets[user] else 0)
    }
  }

  lemma PersonsDay(p: Pass, user: UserId)
    requires p.Valid()
    ensures p.Reference() - 1 <= p.Today(user) <= p.Reference() + 1
  {
    OneDayApart(p.at, if user in p.offsets then p.offsets[user] else 0);
  }

  // ----- selection -----

  predicate Remindable(db: Db, k: Key) {
    && k in db.rows && k.commitment in db.commitments
    && db.rows[k].status.Pending?
    && db.commitments[k.commitment].status.Active?
    && db.commitments[k.commitment].Live()
    && db.commitments[k.commitment].isReminderEnabled
  }

  predicate Open(db: Db, k: Key, kind: Kind, channel: Channel) {
    Remindable(db, k) && Mark(db.rows[k].id, kind, channel) !in db.log
  }

  /** The rows the wide query returns for a family on the server's day. */
  predicate Selected(db: Db, k: Key, kind: Kind, channel: Channel, onDate: Day) {
    && Open(db, k, kind, channel)
    && QueryBounds(kind, onDate).Has(k.due)
    && var c := db.commitments[k.commitment];
       match kind
       case Notice => k.due <= onDate + TIMEZONE_SPREAD_DAYS + c.reminderDaysBefore
       case Overdue => true
       case ActionRequired =>
         (c.trialEndsOn.Some? || c.cancellationNoticeDays.Some?) && ActionWindowOf(c, k.due, onDate).Some?
  }

  predicate Accepts(user: User, kind: Kind, channel: Channel) {
    && user.isActive && user.isVerified
    && (match channel case Email => user.emailEnabled case Push => user.pushEnabled)
    && (match kind
        case Notice => user.noticeEnabled
        case Overdue => user.overdueEnabled
        case ActionRequired => user.actionEnabled)
  }

  predicate Welcomes(db: Db, user: UserId, kind: Kind, channel: Channel) {
    user in db.users && Accepts(db.users[user], kind, channel)
  }

  /** The exact predicate, on the person's own day. */
  predicate DueFor(db: Db, k: Key, kind: Kind, onDate: Day, today: Day)
    requires k.commitment in db.commitments
  {
    var c := db.commitments[k.commitment];
    && IsDue(kind, k.due, c, today)
    && (kind.ActionRequired? ==>
          ActionWindowOf(c, k.due, onDate).Some? && ActionWindowOf(c, k.due, onDate).value.IsOpen(today))
  }

  predicate Sendable(db: Db, p: Pass, k: Key, kind: Kind, channel: Channel) {
    && Selected(db, k, kind, channel, p.Reference())
    && var user := db.rows[k].user;
       user in db.users && Accepts(db.users[user], kind, channel)
       && DueFor(db, k, kind, p.Reference(), p.Today(user))
  }

  function Delivered(db: Db, p: Pass, kind: Kind, channel: Channel): (keys: set<Key>)
    ensures keys <= db.rows.Keys
  {
    set k | k in db.rows && Sendable(db, p, k, kind, channel)
            && Attempt(db.rows[k].user, kind, channel) !in p.failing
  }

  // ----- what a dispatch writes -----

  function Marks(db: Db, keys: set<Key>, kind: Kind, channel: Channel): set<Mark> {
    set k | k in keys && k in db.rows :: Mark(db.rows[k].id, kind, channel)
  }

  predicate TrialAction(db: Db, k: Key, onDate: Day) {
    k.commitment in db.commitments &&
    var w := ActionWindowOf(db.commitments[k.commitment], k.due, onDate);
    w.Some? && w.value.reason.Trial?
  }

  function TrialActions(db: Db, keys: set<Key>, onDate: Day): set<Key> {
    set k: Key | k in keys && TrialAction(db, k, onDate)
  }

  /** A delivered row is logged; an action for a trial also closes its notice. */
  function Stamps(db: Db, keys: set<Key>, kind: Kind, channel: Channel, onDate: Day): set<Mark> {
    Marks(db, keys, kind, channel) +
    if kind.ActionRequired? then Marks(db, TrialActions(db, keys, onDate), Notice, channel) else {}
  }

  function Dispatch(db: Db, p: Pass, kind: Kind, channel: Channel): Db {
    db.(log := db.log + Stamps(db, Delivered(db, p, kind, channel), kind, channel, p.Reference()))
  }

  /** The three families on one channel, the actions first. */
  function OnChannel(db: Db, p: Pass, channel: Channel): Db {
    Dispatch(Dispatch(Dispatch(db, p, ActionRequired, channel), p, Notice, channel), p, Overdue, channel)
  }

  function SendDue(db: Db, p: Pass): Db {
    var afterEmail := OnChannel(db, p, Email);
    if p.pushConfigured then OnChannel(afterEmail, p, Push) else afterEmail
  }

  // ----- the wide query against the exact predicate -----

  /** For notices and late payments, filtering the selected rows is filtering all
      unreminded rows: the wide indexed query drops none the predicate keeps. */
  lemma WideQueryLosesNothing(db: Db, p: Pass, k: Key, kind: Kind, channel: Channel)
    requires p.Valid() && db.Sound() && !kind.ActionRequired?
    ensures Sendable(db, p, k, kind, channel) <==>
            Open(db, k, kind, channel) && Welcomes(db, db.rows[k].user, kind, channel)
            && IsDue(kind, k.due, db.commitments[k.commitment], p.Today(db.rows[k].user))
  {
    if Open(db, k, kind, channel) {
      PersonsDay(p, db.rows[k].user);
    }
  }

  // ----- actions: chosen on the server's day, opened on the person's -----

  /** What an action would do if both days were the person's own. */
  predicate ActionableOn(c: Commitment, due: Day, chosenOn: Day, today: Day) {
    var w := ActionWindowOf(c, due, chosenOn);
    w.Some? && w.value.IsOpen(today) && (w.value.reason.Cancellation? || due <= today + 90)
  }

  /** A deadline that one of two calendars has passed and the other has not. */
  ghost predicate Straddled(c: Commitment, due: Day, a: Day, b: Day) {
    exists w :: (TrialWindow(c, due) == Some(w) || CancellationWindow(c, due) == Some(w))
                && Min(a, b) <= w.deadline < Max(a, b)
  }

  /** In every zone: unless a deadline falls between the two days, an action is sent
      exactly when its tightest live window is open on the person's own day. Where one
      does, an account ahead of the server gets nothing that day, and an account behind
      it gets the window that is left, if that one is open. */
  lemma ActionsInEveryZone(db: Db, p: Pass, k: Key, channel: Channel)
    requires p.Valid() && db.Sound() && Open(db, k, ActionRequired, channel)
    ensures var c, ref, user := db.commitments[k.commitment], p.Reference(), db.rows[k].user;
            var today := p.Today(user);
            Sendable(db, p, k, ActionRequired, channel) <==>
            && Welcomes(db, user, ActionRequired, channel)
            && if !Straddled(c, k.due, ref, today) then ActionableOn(c, k.due, today, today)
               else today < ref && ActionableOn(c, k.due, ref, today)
  {
    var c, ref, user := db.commitments[k.commitment], p.Reference(), db.rows[k].user;
    var today := p.Today(user);
    PersonsDay(p, user);
    SelectedByWindow(db, p, k, channel);
    ChosenOnEitherDay(c, k.due, ref, today);
  }

  // The wide bounds of the query never decide: the exact predicate does.
  lemma SelectedByWindow(db: Db, p: Pass, k: Key, channel: Channel)
    requires p.Valid() && db.Sound() && Open(db, k, ActionRequired, channel)
    ensures var c, user := db.commitments[k.commitment], db.rows[k].user;
            Sendable(db, p, k, ActionRequired, channel) <==>
            Welcomes(db, user, ActionRequired, channel) && ActionableOn(c, k.due, p.Reference(), p.Today(user))
  {
    PersonsDay(p, db.rows[k].user);
    ChoosesTightest(db.commitments[k.commitment], k.due, p.Reference());
  }

  lemma ChosenOnEitherDay(c: Commitment, due: Day, ref: Day, today: Day)
    requires c.Valid() && ref - 1 <= today <= ref + 1
    ensures !Straddled(c, due, ref, today) ==> ActionWindowOf(c, due, ref) == ActionWindowOf(c, due, today)
    ensures Straddled(c, due, ref, today) && ref < today ==> !ActionableOn(c, due, ref, today)
  {
    if !Straddled(c, due, ref, today) {
      forall w
        ensures Candidate(c, due, ref, w) <==> Candidate(c, due, today, w)
      {
      }
    }
    ChoosesTightest(c, due, ref);
    ChoosesTightest(c, due, today);
  }

  // ----- who is reminded of what, column by column -----

  predicate Switched(user: User, kind: Kind, channel: Channel) {
    && user.isActive && user.isVerified
    && (channel.Email? ==> user.emailEnabled) && (channel.Push? ==> user.pushEnabled)
    && (kind.Notice? ==> user.noticeEnabled) && (kind.Overdue? ==> user.overdueEnabled)
    && (kind.ActionRequired? ==> user.actionEnabled)
  }

  /** The days of each family: a notice from its lead time to the due date, a late
      payment from 3 to 30 days after it, an action while its window is open, a trial's
      only if the date is at most 90 days off. */
  predicate OnItsDays(c: Commitment, due: Day, kind: Kind, onDate: Day, today: Day) {
    match kind
    case Notice => due - c.reminderDaysBefore <= today <= due
    case Overdue => due + 3 <= today <= due + 30
    case ActionRequired =>
      if TrialFirst(c, due, onDate) then
        today <= c.trialEndsOn.value && due <= today + 90
        && (c.trialEndsOn.value - c.reminderDaysBefore <= today || c.trialEndsOn.value - 3 <= today)
      else
        CancellationStands(c, due, onDate)
        && due - c.cancellationNoticeDays.value - c.reminderDaysBefore <= today <= due - c.cancellationNoticeDays.value
  }

  /** A row is delivered exactly when it is pending and not yet logged, its commitment is
      active, out of the trash and reminded, its owner is active, verified and has left
      the channel and the family on, the day is one of the family's on the owner's
      calendar, and the delivery does not fail. */
  lemma RemindedExactly(db: Db, p: Pass, k: Key, kind: Kind, channel: Channel)
    requires db.Sound() && p.Valid()
    ensures k in Delivered(db, p, kind, channel) <==>
            && k in db.rows && db.rows[k].status == Pending && Mark(db.rows[k].id, kind, channel) !in db.log
            && db.commitments[k.commitment].status == Active && db.commitments[k.commitment].deletedAt == None
            && db.commitments[k.commitment].isReminderEnabled
            && db.rows[k].user in db.users && Switched(db.users[db.rows[k].user], kind, channel)
            && OnItsDays(db.commitments[k.commitment], k.due, kind, p.Reference(), p.Today(db.rows[k].user))
            && Attempt(db.rows[k].user, kind, channel) !in p.failing
  {
    if Open(db, k, kind, channel) {
      var c, today := db.commitments[k.commitment], p.Today(db.rows[k].user);
      if kind.ActionRequired? {
        SelectedByWindow(db, p, k, channel);
        ChosenByColumns(c, k.due, p.Reference(), today);
      } else {
        WideQueryLosesNothing(db, p, k, kind, channel);
        DueDays(kind, k.due, c, today);
      }
      hide Sendable, ActionWindowOf, IsDue;
    } else {
      hide ActionWindowOf, IsDue, Accepts;
    }
  }

  // ----- what a whole pass leaves in the log -----

  /** Dispatching this family on this channel, were it alone, writes line `m`
      because of row `k`. */
  predicate Writes(db: Db, p: Pass, k: Key, m: Mark, kind: Kind, channel: Channel) {
    && k in Delivered(db, p, kind, channel)
    && m.row == db.rows[k].id && m.channel == channel
    && (m.kind == kind || (kind.ActionRequired? && m.kind.Notice? && TrialAction(db, k, p.Reference())))
  }

  lemma AfterDispatch(db: Db, p: Pass, kind: Kind, channel: Channel, m: Mark)
    ensures m in Dispatch(db, p, kind, channel).log <==>
            m in db.log || exists k :: Writes(db, p, k, m, kind, channel)
  {
    var keys := Delivered(db, p, kind, channel);
    if m in Marks(db, keys, kind, channel) {
      var k :| k in keys && m == Mark(db.rows[k].id, kind, channel);
      assert Writes(db, p, k, m, kind, channel);
    }
    if kind.ActionRequired? && m in Marks(db, TrialActions(db, keys, p.Reference()), Notice, channel) {
      var k :| k in TrialActions(db, keys, p.Reference()) && m == Mark(db.rows[k].id, Notice, channel);
      assert Writes(db, p, k, m, kind, channel);
    }
  }

  /** Whether a row is sent depends on the log through its own line only. */
  lemma OwnLineDecides(a: Db, b: Db, p: Pass, k: Key, kind: Kind, channel: Channel)
    requires b == a.(log := b.log) && k in a.rows
    requires Mark(a.rows[k].id, kind, channel) in a.log <==> Mark(a.rows[k].id, kind, channel) in b.log
    ensures k in Delivered(a, p, kind, channel) <==> k in Delivered(b, p, kind, channel)
  {
  }

  lemma DeliveredIsOpen(db: Db, p: Pass, k: Key, kind: Kind, channel: Channel)
    requires k in Delivered(db, p, kind, channel)
    ensures Open(db, k, kind, channel)
  {
  }

  /** Line `m` is written by some family of the pass, judged on the log the pass
      started from. */
  ghost predicate PassWrites(db: Db, p: Pass, m: Mark) {
    (m.channel.Push? ==> p.pushConfigured) &&
    exists k, kind :: Writes(db, p, k, m, kind, m.channel)
  }

  // A notice or late-payment line not in the log either way is written alike.
  lemma WrittenAlike(a: Db, b: Db, p: Pass, k: Key, m: Mark, kind: Kind, channel: Channel)
    requires b == a.(log := b.log) && !kind.ActionRequired? && m !in a.log && m !in b.log
    ensures Writes(a, p, k, m, kind, channel) <==> Writes(b, p, k, m, kind, channel)
  {
    hide Sendable;
    if k in a.rows && m == Mark(a.rows[k].id, kind, channel) {
      OwnLineDecides(a, b, p, k, kind, channel);
    }
  }

  lemma AfterChannel(db: Db, p: Pass, channel: Channel, m: Mark)
    ensures m in OnChannel(db, p, channel).log <==>
            m in db.log || (m.channel == channel && exists k, kind :: Writes(db, p, k, m, kind, channel))
  {
    hide Writes, Delivered, Stamps;
    var one := Dispatch(db, p, ActionRequired, channel);
    var two := Dispatch(one, p, Notice, channel);
    AfterDispatch(db, p, ActionRequired, channel, m);
    AfterDispatch(one, p, Notice, channel, m);
    AfterDispatch(two, p, Overdue, channel, m);
    if m !in one.log {
      forall k
        ensures Writes(db, p, k, m, Notice, channel) <==> Writes(one, p, k, m, Notice, channel)
      {
        WrittenAlike(db, one, p, k, m, Notice, channel);
      }
    }
    if m !in two.log {
      forall k
        ensures Writes(db, p, k, m, Overdue, channel) <==> Writes(two, p, k, m, Overdue, channel)
      {
        WrittenAlike(db, two, p, k, m, Overdue, channel);
      }
    }
    forall k, kind | Writes(db, p, k, m, kind, channel)
      ensures m.channel == channel && m in OnChannel(db, p, channel).log
    {
      OwnChannel(db, p, k, m, kind, channel);
      match kind
      case ActionRequired => assert m in one.log;
      case Notice => assert m in two.log;
      case Overdue =>
    }
    if k :| Writes(db, p, k, m, ActionRequired, channel) {
      assert m.channel == channel;
    } else if k :| Writes(one, p, k, m, Notice, channel) {
      OwnChannel(one, p, k, m, Notice, channel);
    } else if k :| Writes(two, p, k, m, Overdue, channel) {
      OwnChannel(two, p, k, m, Overdue, channel);
    }
  }

  lemma OwnChannel(db: Db, p: Pass, k: Key, m: Mark, kind: Kind, channel: Channel)
    requires Writes(db, p, k, m, kind, channel)
    ensures m.channel == channel
  {
  }

  lemma AfterPass(db: Db, p: Pass, m: Mark)
    ensures m in SendDue(db, p).log <==> m in db.log || PassWrites(db, p, m)
  {
    hide Writes, OnChannel;
    var afterEmail := OnChannel(db, p, Email);
    AfterChannel(db, p, Email, m);
    if p.pushConfigured {
      AfterChannel(afterEmail, p, Push, m);
      if m.channel.Push? {
        forall k, kind
          ensures Writes(afterEmail, p, k, m, kind, Push) <==> Writes(db, p, k, m, kind, Push)
        {
          OtherChannel(db, afterEmail, p, k, m, kind);
        }
      }
    }
  }

  // What the email channel wrote does not change what the push channel does.
  lemma OtherChannel(db: Db, afterEmail: Db, p: Pass, k: Key, m: Mark, kind: Kind)
    requires afterEmail == OnChannel(db, p, Email)
    ensures Writes(afterEmail, p, k, m, kind, Push) <==> Writes(db, p, k, m, kind, Push)
  {
    if k in db.rows {
      AfterChannel(db, p, Email, Mark(db.rows[k].id, kind, Push));
      OwnLineDecides(db, afterEmail, p, k, kind, Push);
    }
  }
}
