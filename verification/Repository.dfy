/** The tables as the program holds them, updated in place, and the generator that
    fills the occurrence table. Every method is tied to the function of the tables
    whose properties are proved elsewhere. */
module Repository {
  import opened Calendar
  import opened Evolution
  import opened Occurrences
  import opened Options
  import opened Records
  import opened Reminders
  import opened Schedule
  import Daily
  import ReminderRuns

  class CommitmentRepository {
    var users: map<UserId, User>
    var commitments: map<CommitmentId, Commitment>
    var rows: map<Key, Row>
    var log: set<Mark>
    var nextCommitment: CommitmentId
    var nextRow: RowId

    constructor (db: Db)
      ensures View() == db
    {
      users, commitments, rows, log := db.users, db.commitments, db.rows, db.log;
      nextCommitment, nextRow := db.nextCommitment, db.nextRow;
    }

    function View(): Db
      reads this
    {
      Db(users, commitments, rows, log, nextCommitment, nextRow)
    }

    method AddOccurrences(id: CommitmentId, c: Commitment, dates: seq<Day>) returns (added: nat)
      modifies this
      ensures View() == Occurrences.AddOccurrences(old(View()), id, c, dates)
      ensures added == |rows| - |old(rows)|
    {
      added := 0;
      for i := 0 to |dates|
        invariant View() == Occurrences.AddOccurrences(old(View()), id, c, dates[..i])
        invariant added == |rows| - |old(rows)|
      {
        assert dates[..i + 1][..i] == dates[..i];
        if Key(id, dates[i]) !in rows {
          rows := rows[Key(id, dates[i]) := Row(nextRow, c.user, c.amount, Pending)];
          nextRow := nextRow + 1;
          added := added + 1;
        }
      }
      assert dates[..|dates|] == dates;
    }

    method DeletePendingOccurrencesFrom(id: CommitmentId, floor: Day)
      modifies this
      ensures View() == DeletePendingFrom(old(View()), id, floor)
    {
      var keys := PendingFrom(View(), id, floor);
      DeleteRows(keys);
    }

    // Deleting a row takes its lines of the log with it.
    method DeleteRows(keys: set<Key>)
      modifies this
      ensures View() == Without(old(View()), keys)
    {
      var gone := RowIds(View(), keys);
      rows := rows - keys;
      log := set m | m in log && m.row !in gone;
    }

    method SetOccurrenceStatus(k: Key, status: OccurrenceStatus, amount: Option<Cents>) returns (found: bool)
      modifies this
      ensures found <==> k in old(rows)
      ensures View() == if !found then old(View())
                        else SetOccurrence(old(View()), k, status, if amount.Some? then amount.value else old(rows)[k].amount)
    {
      found := k in rows;
      if found {
        var row := rows[k].(status := status);
        if amount.Some? {
          row := row.(amount := amount.value);
        }
        rows := rows[k := row];
      }
    }

    method PurgeDeleted(before: Instant) returns (purged: nat)
      modifies this
      ensures View() == Daily.PurgeDeleted(old(View()), before)
      ensures purged == |old(commitments)| - |commitments|
    {
      var ids := Daily.Expired(View(), before);
      purged := DropAll(ids);
    }

    // Deleting commitments takes their rows and the rows' lines of the log with them.
    method DropAll(ids: set<CommitmentId>) returns (dropped: nat)
      requires ids <= commitments.Keys
      modifies this
      ensures View() == DropCommitments(old(View()), ids)
      ensures dropped == |old(commitments)| - |commitments|
    {
      DeleteRows(OwnedBy(View(), ids));
      assert commitments.Keys == (commitments - ids).Keys + ids;
      commitments := commitments - ids;
      dropped := |ids|;
    }

    method PurgeReminders(before: Day) returns (forgotten: nat)
      modifies this
      ensures View() == Daily.PurgeReminders(old(View()), before)
      ensures forgotten == |old(log)| - |log|
    {
      var stale := Daily.StaleRows(View(), before);
      var gone := set m | m in log && m.row in stale;
      assert log - gone == set m | m in log && m.row !in stale;
      log := log - gone;
      forgotten := |gone|;
    }

    method ClearActionReminders(id: CommitmentId)
      modifies this
      ensures View() == ReminderRuns.ClearActions(old(View()), id)
    {
      var pending := RowIds(View(), ReminderRuns.PendingOf(View(), id));
      log := set m | m in log && !(m.kind.ActionRequired? && m.row in pending);
    }

    method MarkRemindersSent(ids: seq<RowId>, kind: Kind, channel: Channel)
      modifies this`log
      ensures log == old(log) + set id | id in ids :: Mark(id, kind, channel)
    {
      if |ids| == 0 {
        return;
      }
      log := log + set id | id in ids :: Mark(id, kind, channel);
    }

    /** The rows one of the three reminder queries returns, each once. */
    method Select(kind: Kind, channel: Channel, onDate: Day) returns (entries: seq<Key>)
      ensures forall k :: k in entries <==> Selected(View(), k, kind, channel, onDate)
      ensures Distinct(entries)
    {
      var found := set k | k in rows && Selected(View(), k, kind, channel, onDate);
      var rest := found;
      entries := [];
      while rest != {}
        invariant rest <= found && forall k :: k in entries <==> k in found - rest
        invariant Distinct(entries)
      {
        var k :| k in rest;
        assert k !in entries && forall i :: 0 <= i < |entries| ==> entries[i] in entries;
        rest := rest - {k};
        entries := entries + [k];
      }
    }
  }

  predicate Distinct<T(==)>(s: seq<T>) {
    forall i, j :: 0 <= i < j < |s| ==> s[i] != s[j]
  }

  class OccurrenceGenerator {
    const repo: CommitmentRepository

    constructor (repo: CommitmentRepository)
      ensures this.repo == repo
    {
      this.repo := repo;
    }

    method Sync(id: CommitmentId, today: Day) returns (created: nat)
      requires Generable(repo.View(), id)
      modifies repo
      ensures repo.View() == Occurrences.Sync(old(repo.View()), id, today)
      ensures created == |repo.rows| - |old(repo.rows)|
    {
      var c := repo.commitments[id];
      if !c.status.Active? {
        return 0;
      }
      var dates := OccurrenceDates(c.rule, today, today + HorizonDays(c.rule.frequency));
      created := repo.AddOccurrences(id, c, dates);
    }

    method Resync(id: CommitmentId, today: Day) returns (created: nat)
      requires Generable(repo.View(), id)
      modifies repo
      ensures repo.View() == Occurrences.Resync(old(repo.View()), id, today)
    {
      repo.DeletePendingOccurrencesFrom(id, today);
      created := Sync(id, today);
    }

    /** Commitments are numbered in order of creation, the order of the query. */
    method SyncAllActive(today: Day) returns (created: nat)
      requires Startable(repo.View())
      modifies repo
      ensures repo.View() == Occurrences.SyncAllActive(old(repo.View()), today)
      ensures created == |repo.rows| - |old(repo.rows)|
    {
      created := 0;
      var i := 0;
      while i < repo.nextCommitment
        invariant Startable(repo.View())
        invariant SyncFrom(repo.View(), i, today) == Occurrences.SyncAllActive(old(repo.View()), today)
        invariant created == |repo.rows| - |old(repo.rows)|
        decreases repo.nextCommitment - i
      {
        if Generates(repo.View(), i) {
          var n := Sync(i, today);
          created := created + n;
        }
        i := i + 1;
      }
    }
  }
}
