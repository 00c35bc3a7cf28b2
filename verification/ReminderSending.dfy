/** The reminder service as the program runs it: select, group by account, filter by
    each account's own day, deliver, then log. */
module ReminderSending {
  import opened ActionWindows
  import opened Calendar
  import opened Records
  import opened Reminders
  import opened ReminderWindow
  import opened Repository
  import opened ReminderRuns

  /** The part of a dispatch that concerns some accounts only. */
  ghost function Share(db: Db, p: Pass, kind: Kind, channel: Channel, accounts: seq<UserId>): set<Key> {
    set k | k in Delivered(db, p, kind, channel) && db.rows[k].user in accounts
  }

  ghost function Failures(db: Db, p: Pass, kind: Kind, channel: Channel): set<Key> {
    set k | k in db.rows && Sendable(db, p, k, kind, channel)
            && Attempt(db.rows[k].user, kind, channel) in p.failing
  }

  ghost function FailedShare(db: Db, p: Pass, kind: Kind, channel: Channel, accounts: seq<UserId>): set<Key> {
    set k | k in Failures(db, p, kind, channel) && db.rows[k].user in accounts
  }

  function AsSet<T>(s: seq<T>): set<T> {
    set x | x in s
  }

  /** The reminders one channel delivers in a pass, family after family. */
  ghost function ChannelSends(db: Db, p: Pass, channel: Channel): multiset<Mark> {
    var one := Reminders.Dispatch(db, p, ActionRequired, channel);
    var two := Reminders.Dispatch(one, p, Notice, channel);
    multiset(Marks(db, Delivered(db, p, ActionRequired, channel), ActionRequired, channel))
    + multiset(Marks(one, Delivered(one, p, Notice, channel), Notice, channel))
    + multiset(Marks(two, Delivered(two, p, Overdue, channel), Overdue, channel))
  }

  /** The rows left for the next pass because a delivery failed. */
  ghost function ChannelFailures(db: Db, p: Pass, channel: Channel): nat {
    var one := Reminders.Dispatch(db, p, ActionRequired, channel);
    var two := Reminders.Dispatch(one, p, Notice, channel);
    |Failures(db, p, ActionRequired, channel)| + |Failures(one, p, Notice, channel)| + |Failures(two, p, Overdue, channel)|
  }

  class ReminderService {
    const repo: CommitmentRepository
    // Every reminder ever delivered, as the recipients would count them.
    var sent: multiset<Mark>
    // How many rows failed on each channel; the email count decides the exit code.
    var failed: multiset<Channel>

    constructor (repo: CommitmentRepository)
      ensures this.repo == repo && sent == multiset{} && failed == multiset{}
    {
      this.repo := repo;
      sent, failed := multiset{}, multiset{};
    }

    /** Group the selected rows by account, in the order the accounts appear. */
    method GroupByUser(entries: seq<Key>) returns (grouped: map<UserId, seq<Key>>, order: seq<UserId>)
      requires Distinct(entries) && forall k :: k in entries ==> k in repo.rows
      ensures Distinct(order) && forall u :: u in order <==> u in grouped
      ensures forall k :: k in entries ==> repo.rows[k].user in grouped
      ensures forall u :: u in grouped ==> Distinct(grouped[u])
      ensures forall u, k :: u in grouped ==> (k in grouped[u] <==> k in entries && repo.rows[k].user == u)
    {
      grouped, order := map[], [];
      for n := 0 to |entries|
        invariant Distinct(order) && forall u :: u in order <==> u in grouped
        invariant forall k :: k in entries[..n] ==> repo.rows[k].user in grouped
        invariant forall u :: u in grouped ==> Distinct(grouped[u])
        invariant forall u, k :: u in grouped ==> (k in grouped[u] <==> k in entries[..n] && repo.rows[k].user == u)
      {
        var k := entries[n];
        var u := repo.rows[k].user;
        if u !in grouped {
          grouped := grouped[u := []];
          order := order + [u];
        }
        assert k !in entries[..n];
        assert entries[..n + 1] == entries[..n] + [k];
        grouped := grouped[u := grouped[u] + [k]];
      }
      assert entries[..|entries|] == entries;
    }

    /** Keep the rows due on the person's own day. */
    method DueToday(kind: Kind, entries: seq<Key>, onDate: Day, today: Day, ghost db: Db) returns (kept: seq<Key>)
      requires repo.commitments == db.commitments
      requires Distinct(entries) && forall k :: k in entries ==> k.commitment in db.commitments
      ensures Distinct(kept)
      ensures forall k :: k in kept <==> k in entries && DueFor(db, k, kind, onDate, today)
    {
      kept := [];
      for n := 0 to |entries|
        invariant Distinct(kept)
        invariant forall k :: k in kept <==> k in entries[..n] && DueFor(db, k, kind, onDate, today)
      {
        var k := entries[n];
        assert entries[..n + 1] == entries[..n] + [k];
        var c := repo.commitments[k.commitment];
        if !IsDue(kind, k.due, c, today) {
          continue;
        }
        if kind.ActionRequired? {
          var w := ActionWindowOf(c, k.due, onDate);
          if w.None? || !w.value.IsOpen(today) {
            continue;
          }
        }
        assert k !in kept by { assert k !in entries[..n]; }
        kept := kept + [k];
      }
      assert entries[..|entries|] == entries;
    }

    /** One account's part of a dispatch: one message, its lines of the log, and for
        trial actions the notices they close; or a counted failure. */
    method RemindUser(kind: Kind, rows: seq<Key>, u: UserId, p: Pass, channel: Channel, ghost db: Db)
      requires repo.View() == db.(log := repo.log) && Distinct(rows)
      requires forall k :: k in rows <==> Selected(db, k, kind, channel, p.Reference()) && db.rows[k].user == u
      modifies repo`log, this
      ensures repo.log == old(repo.log) + Stamps(db, Share(db, p, kind, channel, [u]), kind, channel, p.Reference())
      ensures sent == old(sent) + multiset(Marks(db, Share(db, p, kind, channel, [u]), kind, channel))
      ensures failed == CountFailures(old(failed), channel, FailedShare(db, p, kind, channel, [u]))
    {
      hide Stamps, Marks, Accepts, IsDue, ActionWindowOf, Selected, Share, FailedShare, DueFor, AsSet;
      if u !in repo.users || !Accepts(repo.users[u], kind, channel) {
        Refused(db, p, kind, channel, u);
        return;
      }
      SelectedAreRows(db, kind, channel, p.Reference());
      var kept := DueToday(kind, rows, p.Reference(), p.Today(u), db);
      KeptIsShare(db, p, kind, channel, u, rows, kept);
      if |kept| == 0 {
        NothingYet(db, p, kind, channel);
        NothingKept(kept);
        return;
      }
      Deliver(kind, kept, u, p, channel, db);
    }

    /** One message to one account, which may fail. */
    method Deliver(kind: Kind, kept: seq<Key>, u: UserId, p: Pass, channel: Channel, ghost db: Db)
      requires repo.View() == db.(log := repo.log) && Distinct(kept)
      requires forall k :: k in kept ==> k in repo.rows && k.commitment in repo.commitments
      modifies repo`log, this
      ensures var arrived := if Attempt(u, kind, channel) in p.failing then {} else AsSet(kept);
              && repo.log == old(repo.log) + Stamps(db, arrived, kind, channel, p.Reference())
              && sent == old(sent) + multiset(Marks(db, arrived, kind, channel))
              && failed == CountFailures(old(failed), channel, AsSet(kept) - arrived)
    {
      hide Stamps;
      if Attempt(u, kind, channel) in p.failing {
        NothingYet(db, p, kind, channel);
        DistinctCount(kept);
        assert AsSet(kept) - {} == AsSet(kept);
        failed := failed[channel := failed[channel] + |kept|];
      } else {
        assert AsSet(kept) - AsSet(kept) == {};
        var delivered := Marks(repo.View(), AsSet(kept), kind, channel);
        assert delivered == Marks(db, AsSet(kept), kind, channel);
        hide Marks, AsSet;
        sent := sent + multiset(delivered);
        LogDelivery(kind, kept, p.Reference(), channel, db);
      }
    }

    /** The lines a delivered message leaves in the log. */
    method LogDelivery(kind: Kind, kept: seq<Key>, onDate: Day, channel: Channel, ghost db: Db)
      requires repo.View() == db.(log := repo.log)
      requires forall k :: k in kept ==> k in repo.rows && k.commitment in repo.commitments
      modifies repo`log
      ensures repo.log == old(repo.log) + Stamps(db, AsSet(kept), kind, channel, onDate)
    {
      hide ActionWindowOf;
      MarkRows(kept, kind, channel, db);
      if kind.ActionRequired? {
        var covered := CoveredByTrial(kept, onDate);
        assert AsSet(covered) == TrialActions(db, AsSet(kept), onDate);
        MarkRows(covered, Notice, channel, db);
      }
    }

    method MarkRows(keys: seq<Key>, kind: Kind, channel: Channel, ghost db: Db)
      requires repo.View() == db.(log := repo.log)
      requires forall k :: k in keys ==> k in repo.rows
      modifies repo`log
      ensures repo.log == old(repo.log) + Marks(db, AsSet(keys), kind, channel)
    {
      var ids := [];
      for i := 0 to |keys|
        invariant |ids| == i && forall j :: 0 <= j < i ==> ids[j] == repo.rows[keys[j]].id
      {
        ids := ids + [repo.rows[keys[i]].id];
      }
      IdsOf(db, keys, ids, kind, channel);
      repo.MarkRemindersSent(ids, kind, channel);
    }

    method CoveredByTrial(kept: seq<Key>, onDate: Day) returns (covered: seq<Key>)
      requires forall k :: k in kept ==> k in repo.rows && k.commitment in repo.commitments
      ensures forall k :: k in covered <==> k in kept && TrialAction(repo.View(), k, onDate)
    {
      covered := [];
      for n := 0 to |kept|
        invariant forall k :: k in covered <==> k in kept[..n] && TrialAction(repo.View(), k, onDate)
      {
        assert kept[..n + 1] == kept[..n] + [kept[n]];
        var w := ActionWindowOf(repo.commitments[kept[n].commitment], kept[n].due, onDate);
        if w.Some? && w.value.reason.Trial? {
          covered := covered + [kept[n]];
        }
      }
      assert kept[..|kept|] == kept;
    }

    /** A dispatch of one family on one channel, account after account, leaves the log
        and delivers the reminders of its specification. */
    method Dispatch(kind: Kind, p: Pass, channel: Channel)
      requires repo.View().Sound()
      modifies repo`log, this
      ensures repo.View() == Reminders.Dispatch(old(repo.View()), p, kind, channel)
      ensures sent == old(sent) + multiset(Marks(old(repo.View()), Delivered(old(repo.View()), p, kind, channel), kind, channel))
      ensures failed == CountFailures(old(failed), channel, Failures(old(repo.View()), p, kind, channel))
      ensures repo.View().Sound()
    {
      ghost var db := repo.View();
      var entries := repo.Select(kind, channel, p.Reference());
      var grouped, order := GroupByUser(entries);
      Everybody(db, p, kind, channel, order);
      RemindAll(kind, grouped, order, p, channel, db);
      StampsAreOfRows(db, Delivered(db, p, kind, channel), kind, channel, p.Reference());
    }

    /** The families in their order on one channel: an action closes the notice of a
        trial before the notices go out. */
    method OnChannel(p: Pass, channel: Channel)
      requires repo.View().Sound()
      modifies repo`log, this
      ensures repo.View() == Reminders.OnChannel(old(repo.View()), p, channel) && repo.View().Sound()
      ensures sent == old(sent) + ChannelSends(old(repo.View()), p, channel)
      ensures failed == old(failed)[channel := old(failed)[channel] + ChannelFailures(old(repo.View()), p, channel)]
    {
      hide Delivered, Failures, Marks, Stamps, Db.Sound;
      Dispatch(ActionRequired, p, channel);
      Dispatch(Notice, p, channel);
      Dispatch(Overdue, p, channel);
    }

    method SendDue(p: Pass)
      requires repo.View().Sound()
      modifies repo`log, this
      ensures repo.View() == Reminders.SendDue(old(repo.View()), p)
      ensures var db := old(repo.View());
              var afterEmail := Reminders.OnChannel(db, p, Email);
              sent == old(sent) + ChannelSends(db, p, Email)
                      + if p.pushConfigured then ChannelSends(afterEmail, p, Push) else multiset{}
      ensures failed[Email] == old(failed)[Email] + ChannelFailures(old(repo.View()), p, Email)
    {
      OnChannel(p, Email);
      if p.pushConfigured {
        OnChannel(p, Push);
      }
    }

    method RemindAll(kind: Kind, grouped: map<UserId, seq<Key>>, order: seq<UserId>, p: Pass, channel: Channel, ghost db: Db)
      requires db.Sound() && repo.View() == db && Distinct(order)
      requires forall u :: u in order ==> u in grouped && Distinct(grouped[u])
      requires forall u, k :: u in order ==>
                 (k in grouped[u] <==> Selected(db, k, kind, channel, p.Reference()) && db.rows[k].user == u)
      modifies repo`log, this
      ensures repo.log == db.log + Stamps(db, Share(db, p, kind, channel, order), kind, channel, p.Reference())
      ensures sent == old(sent) + multiset(Marks(db, Share(db, p, kind, channel, order), kind, channel))
      ensures failed == CountFailures(old(failed), channel, FailedShare(db, p, kind, channel, order))
    {
      hide Stamps, Marks, Share, FailedShare, Selected;
      NothingYet(db, p, kind, channel);
      for i := 0 to |order|
        invariant repo.View() == db.(log := repo.log)
        invariant repo.log == db.log + Stamps(db, Share(db, p, kind, channel, order[..i]), kind, channel, p.Reference())
        invariant sent == old(sent) + multiset(Marks(db, Share(db, p, kind, channel, order[..i]), kind, channel))
        invariant failed == CountFailures(old(failed), channel, FailedShare(db, p, kind, channel, order[..i]))
      {
        RemindUser(kind, grouped[order[i]], order[i], p, channel, db);
        OneMoreAccount(db, p, kind, channel, order, i);
      }
      assert order[..|order|] == order;
    }
  }

  function CountFailures(failed: multiset<Channel>, channel: Channel, keys: set<Key>): multiset<Channel> {
    failed[channel := failed[channel] + |keys|]
  }

  lemma Refused(db: Db, p: Pass, kind: Kind, channel: Channel, u: UserId)
    requires u !in db.users || !Accepts(db.users[u], kind, channel)
    ensures Share(db, p, kind, channel, [u]) == {} && FailedShare(db, p, kind, channel, [u]) == {}
    ensures Marks(db, {}, kind, channel) == {} && Stamps(db, {}, kind, channel, p.Reference()) == {}
  {
    NothingYet(db, p, kind, channel);
  }

  lemma NothingKept(kept: seq<Key>)
    requires kept == []
    ensures AsSet(kept) == {}
  {
  }

  lemma SelectedAreRows(db: Db, kind: Kind, channel: Channel, onDate: Day)
    ensures forall k :: Selected(db, k, kind, channel, onDate) ==> k in db.rows && k.commitment in db.commitments
  {
  }

  lemma KeptIsShare(db: Db, p: Pass, kind: Kind, channel: Channel, u: UserId, rows: seq<Key>, kept: seq<Key>)
    requires u in db.users && Accepts(db.users[u], kind, channel)
    requires forall k :: k in rows <==> Selected(db, k, kind, channel, p.Reference()) && db.rows[k].user == u
    requires forall k :: k in rows ==> k.commitment in db.commitments
    requires forall k :: k in kept <==> k in rows && DueFor(db, k, kind, p.Reference(), p.Today(u))
    ensures var failing := Attempt(u, kind, channel) in p.failing;
            && Share(db, p, kind, channel, [u]) == (if failing then {} else AsSet(kept))
            && FailedShare(db, p, kind, channel, [u]) == (if failing then AsSet(kept) else {})
  {
    hide IsDue, ActionWindowOf, Accepts;
  }

  lemma DistinctCount(s: seq<Key>)
    requires Distinct(s)
    ensures |AsSet(s)| == |s|
  {
    if s != [] {
      var front := s[..|s| - 1];
      DistinctCount(front);
      assert AsSet(s) == AsSet(front) + {s[|s| - 1]};
    }
  }

  lemma IdsOf(db: Db, keys: seq<Key>, ids: seq<RowId>, kind: Kind, channel: Channel)
    requires |ids| == |keys| && forall i :: 0 <= i < |keys| ==> keys[i] in db.rows && ids[i] == db.rows[keys[i]].id
    ensures (set id | id in ids :: Mark(id, kind, channel)) == Marks(db, AsSet(keys), kind, channel)
  {
    forall m
      ensures m in (set id | id in ids :: Mark(id, kind, channel)) <==> m in Marks(db, AsSet(keys), kind, channel)
    {
      if m in Marks(db, AsSet(keys), kind, channel) {
        var k :| k in keys && m == Mark(db.rows[k].id, kind, channel);
        var i :| 0 <= i < |keys| && keys[i] == k;
        assert ids[i] in ids;
      }
    }
  }

  lemma NothingYet(db: Db, p: Pass, kind: Kind, channel: Channel)
    ensures Share(db, p, kind, channel, []) == {} && FailedShare(db, p, kind, channel, []) == {}
    ensures Marks(db, {}, kind, channel) == {} && Stamps(db, {}, kind, channel, p.Reference()) == {}
  {
    assert TrialActions(db, {}, p.Reference()) == {};
  }

  lemma OneMoreAccount(db: Db, p: Pass, kind: Kind, channel: Channel, order: seq<UserId>, i: nat)
    requires db.Sound() && Distinct(order) && i < |order|
    ensures var before, mine := Share(db, p, kind, channel, order[..i]), Share(db, p, kind, channel, [order[i]]);
            var after := Share(db, p, kind, channel, order[..i + 1]);
            && Stamps(db, after, kind, channel, p.Reference()) ==
               Stamps(db, before, kind, channel, p.Reference()) + Stamps(db, mine, kind, channel, p.Reference())
            && multiset(Marks(db, after, kind, channel)) ==
               multiset(Marks(db, before, kind, channel)) + multiset(Marks(db, mine, kind, channel))
    ensures |FailedShare(db, p, kind, channel, order[..i + 1])| ==
            |FailedShare(db, p, kind, channel, order[..i])| + |FailedShare(db, p, kind, channel, [order[i]])|
  {
    var before, mine := Share(db, p, kind, channel, order[..i]), Share(db, p, kind, channel, [order[i]]);
    SharesSplit(db, p, kind, channel, order, i);
    hide Share, FailedShare;
    SplitMarks(db, before, mine, kind, channel);
    SplitStamps(db, before, mine, kind, channel, p.Reference());
  }

  lemma SharesSplit(db: Db, p: Pass, kind: Kind, channel: Channel, order: seq<UserId>, i: nat)
    requires Distinct(order) && i < |order|
    ensures var before, mine := Share(db, p, kind, channel, order[..i]), Share(db, p, kind, channel, [order[i]]);
            before !! mine && Share(db, p, kind, channel, order[..i + 1]) == before + mine
    ensures var before, mine := FailedShare(db, p, kind, channel, order[..i]), FailedShare(db, p, kind, channel, [order[i]]);
            before !! mine && FailedShare(db, p, kind, channel, order[..i + 1]) == before + mine
  {
    hide Delivered, Failures;
    assert order[..i + 1] == order[..i] + [order[i]];
    assert order[i] !in order[..i];
  }

  lemma SplitStamps(db: Db, a: set<Key>, b: set<Key>, kind: Kind, channel: Channel, onDate: Day)
    ensures Stamps(db, a + b, kind, channel, onDate) ==
            Stamps(db, a, kind, channel, onDate) + Stamps(db, b, kind, channel, onDate)
  {
    hide TrialAction;
    assert TrialActions(db, a + b, onDate) == TrialActions(db, a, onDate) + TrialActions(db, b, onDate);
  }

  lemma SplitMarks(db: Db, a: set<Key>, b: set<Key>, kind: Kind, channel: Channel)
    requires db.Sound() && a !! b
    ensures Marks(db, a + b, kind, channel) == Marks(db, a, kind, channel) + Marks(db, b, kind, channel)
    ensures multiset(Marks(db, a + b, kind, channel)) ==
            multiset(Marks(db, a, kind, channel)) + multiset(Marks(db, b, kind, channel))
  {
    assert Marks(db, a, kind, channel) !! Marks(db, b, kind, channel);
  }

  lemma Everybody(db: Db, p: Pass, kind: Kind, channel: Channel, order: seq<UserId>)
    requires forall k :: Selected(db, k, kind, channel, p.Reference()) ==> db.rows[k].user in order
    ensures Share(db, p, kind, channel, order) == Delivered(db, p, kind, channel)
    ensures FailedShare(db, p, kind, channel, order) == Failures(db, p, kind, channel)
  {
  }

  // ----- what a failure count of zero means -----

  lemma SentUnlessLogged(a: Db, b: Db, p: Pass, k: Key, kind: Kind, channel: Channel)
    requires b == a.(log := b.log) && a.log <= b.log
    ensures Sendable(b, p, k, kind, channel) <==>
            Sendable(a, p, k, kind, channel) && Mark(a.rows[k].id, kind, channel) !in b.log
  {
    hide ActionWindowOf;
  }

  /** The tables a family of a pass starts from, on the email channel. */
  ghost function Before(db: Db, p: Pass, kind: Kind): Db {
    var one := Reminders.Dispatch(db, p, ActionRequired, Email);
    match kind
    case ActionRequired => db
    case Notice => one
    case Overdue => Reminders.Dispatch(one, p, Notice, Email)
  }

  lemma LogsGrow(db: Db, p: Pass, kind: Kind)
    ensures var b := Before(db, p, kind); b == db.(log := b.log) && db.log <= b.log
    ensures Reminders.Dispatch(Before(db, p, kind), p, kind, Email).log <= Reminders.OnChannel(db, p, Email).log
    ensures Reminders.OnChannel(db, p, Email).log <= Reminders.SendDue(db, p).log
  {
    hide Stamps, Delivered;
  }

  /** A row fails in its family exactly when it could be sent and its line is missing
      from the log after the whole pass. */
  lemma FailedIsUnlogged(db: Db, p: Pass, k: Key, kind: Kind)
    requires db.Sound()
    ensures k in Failures(Before(db, p, kind), p, kind, Email) <==>
            Sendable(db, p, k, kind, Email) && Mark(db.rows[k].id, kind, Email) !in Reminders.SendDue(db, p).log
  {
    hide Sendable, Reminders.SendDue, Reminders.OnChannel, Stamps;
    LogsGrow(db, p, kind);
    var before := Before(db, p, kind);
    SentUnlessLogged(db, before, p, k, kind, Email);
    if Sendable(db, p, k, kind, Email) {
      SendableIsOpen(db, p, k, kind);
      var m := Mark(db.rows[k].id, kind, Email);
      AfterPass(db, p, m);
      hide Before, Reminders.Dispatch;
      if k in Failures(before, p, kind, Email) {
        FailedIsNotWritten(db, p, k, kind);
      } else if m !in before.log {
        assert k in Delivered(before, p, kind, Email);
        assert Writes(before, p, k, m, kind, Email);
        AfterDispatch(before, p, kind, Email, m);
      }
    }
  }

  lemma SendableIsOpen(db: Db, p: Pass, k: Key, kind: Kind)
    requires Sendable(db, p, k, kind, Email)
    ensures Open(db, k, kind, Email)
  {
  }

  lemma FailedIsNotWritten(db: Db, p: Pass, k: Key, kind: Kind)
    requires db.Sound() && Open(db, k, kind, Email) && k in Failures(Before(db, p, kind), p, kind, Email)
    requires Before(db, p, kind).rows == db.rows
    ensures !PassWrites(db, p, Mark(db.rows[k].id, kind, Email))
  {
    var m, before := Mark(db.rows[k].id, kind, Email), Before(db, p, kind);
    assert m !in before.log && Attempt(db.rows[k].user, kind, Email) in p.failing;
    hide Sendable, Failures;
    AfterDispatch(db, p, ActionRequired, Email, m);
  }

  /** An email was due when the pass started and is not in the log at its end. */
  ghost predicate LeftOut(db: Db, p: Pass, k: Key, kind: Kind) {
    k in db.rows && Sendable(db, p, k, kind, Email) && Mark(db.rows[k].id, kind, Email) !in Reminders.SendDue(db, p).log
  }

  lemma FamiliesAddUp(db: Db, p: Pass)
    ensures ChannelFailures(db, p, Email) ==
            |Failures(Before(db, p, ActionRequired), p, ActionRequired, Email)|
            + |Failures(Before(db, p, Notice), p, Notice, Email)|
            + |Failures(Before(db, p, Overdue), p, Overdue, Email)|
  {
  }

  lemma SomeLeftOut(db: Db, p: Pass, kind: Kind)
    requires db.Sound()
    ensures |Failures(Before(db, p, kind), p, kind, Email)| == 0 <==> forall k :: !LeftOut(db, p, k, kind)
  {
    forall k
      ensures k in Failures(Before(db, p, kind), p, kind, Email) <==> LeftOut(db, p, k, kind)
    {
      FailedIsUnlogged(db, p, k, kind);
    }
    hide Failures, LeftOut;
    if |Failures(Before(db, p, kind), p, kind, Email)| != 0 {
      var k :| k in Failures(Before(db, p, kind), p, kind, Email);
      assert LeftOut(db, p, k, kind);
    }
  }

  /** No email failed exactly when the pass left none out. */
  lemma NothingFailed(db: Db, p: Pass)
    requires db.Sound()
    ensures ChannelFailures(db, p, Email) == 0 <==> forall k, kind :: !LeftOut(db, p, k, kind)
  {
    hide LeftOut, Failures, ChannelFailures, Before;
    FamiliesAddUp(db, p);
    forall kind
      ensures |Failures(Before(db, p, kind), p, kind, Email)| == 0 <==> forall k :: !LeftOut(db, p, k, kind)
    {
      SomeLeftOut(db, p, kind);
    }
    if k, kind :| LeftOut(db, p, k, kind) {
      assert |Failures(Before(db, p, kind), p, kind, Email)| != 0;
      assert kind == ActionRequired || kind == Notice || kind == Overdue;
    }
  }
}

/** The daily job on the program's tables. */
module DailyJob {
  import opened Calendar
  import opened Evolution
  import opened Records
  import opened Reminders
  import opened ReminderSending
  import opened Repository
  import Daily

  datatype Report = Report(generated: nat, purged: nat, forgotten: nat, failed: nat)

  /** Purge the trash, purge the log, generate; and count what each did. */
  method Prepare(repo: CommitmentRepository, reference: Day, cutoff: Instant)
    returns (purged: nat, forgotten: nat, generated: nat)
    requires repo.View().Sound()
    modifies repo
    ensures repo.View() == Daily.Prepare(old(repo.View()), reference, cutoff) && repo.View().Sound()
    ensures purged == |old(repo.commitments)| - |repo.commitments|
    ensures var kept := Daily.PurgeDeleted(old(repo.View()), cutoff);
            forgotten == |kept.log| - |repo.log| && generated == |repo.rows| - |kept.rows|
  {
    ghost var db := repo.View();
    purged := repo.PurgeDeleted(cutoff);
    DropEvolves(db, Daily.Expired(db, cutoff));
    Daily.PurgedLog(repo.View(), reference - PURGE_REMINDERS_AFTER_DAYS);
    forgotten := repo.PurgeReminders(reference - PURGE_REMINDERS_AFTER_DAYS);
    var generator := new OccurrenceGenerator(repo);
    generated := generator.SyncAllActive(reference);
    Daily.PrepareKeeps(db, reference, cutoff);
  }

  /** The job leaves the specified tables and counts what it did. The process fails
      exactly when it leaves out an email that was due: a failed push does not count. */
  method RunDaily(repo: CommitmentRepository, p: Pass, cutoff: Instant) returns (report: Report, exitCode: int)
    requires repo.View().Sound()
    modifies repo
    ensures repo.View() == Daily.RunDaily(old(repo.View()), p, cutoff)
    ensures report.purged == |old(repo.commitments)| - |repo.commitments|
    ensures var kept, ready := Daily.PurgeDeleted(old(repo.View()), cutoff), Daily.Prepare(old(repo.View()), p.Reference(), cutoff);
            && report.forgotten == |kept.log| - |ready.log| && report.generated == |ready.rows| - |kept.rows|
            && report.failed == ChannelFailures(ready, p, Email)
            && (exitCode == 0 <==> forall k, kind :: !LeftOut(ready, p, k, kind))
  {
    hide Daily.Prepare, Daily.PurgeDeleted, LeftOut, ChannelFailures, ChannelSends, Reminders.SendDue, Db.Sound;
    var purged, forgotten, generated := Prepare(repo, p.Reference(), cutoff);
    ghost var ready := repo.View();
    var service := new ReminderService(repo);
    service.SendDue(p);
    NothingFailed(ready, p);
    report := Report(generated, purged, forgotten, service.failed[Email]);
    exitCode := if report.failed != 0 then 1 else 0;
  }
}
