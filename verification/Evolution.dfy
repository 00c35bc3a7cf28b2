/** What every change of the tables other than the reminder log keeps: rows that
    stay keep their identifier and their lines of the log, and rows that appear
    have fresh identifiers. */
module Evolution {
  import opened Calendar
  import opened Occurrences
  import opened Records

  /** Row `k` of `b` is the row `a` had, with every line of the log it had. */
  ghost predicate Persists(a: Db, b: Db, k: Key) {
    && k in a.rows && k in b.rows && b.rows[k].id == a.rows[k].id
    && forall kind, channel :: Mark(b.rows[k].id, kind, channel) in a.log ==>
                               Mark(b.rows[k].id, kind, channel) in b.log
  }

  ghost predicate Evolves(a: Db, b: Db) {
    && a.Sound() && b.Sound() && a.nextRow <= b.nextRow && b.log <= a.log
    && forall k :: k in b.rows ==> a.nextRow <= b.rows[k].id || Persists(a, b, k)
  }

  lemma EvolvesChain(a: Db, b: Db, c: Db)
    requires Evolves(a, b) && Evolves(b, c)
    ensures Evolves(a, c) && c.Sound()
  {
    forall k | k in c.rows && c.rows[k].id < a.nextRow
      ensures Persists(a, c, k)
    {
      assert Persists(b, c, k);
      assert Persists(a, b, k);
    }
  }

  lemma EvolvesSame(a: Db)
    requires a.Sound()
    ensures Evolves(a, a)
  {
    assert forall k :: k in a.rows ==> Persists(a, a, k);
  }

  lemma AddedEvolves(a: Db, b: Db, id: CommitmentId, c: Commitment, dates: seq<Day>)
    requires a.Sound() && Added(a, b, id, c, dates) && id in a.commitments && a.commitments[id] == c
    ensures Evolves(a, b)
  {
    AddedSound(a, b, id, c, dates);
    assert b.log == a.log;
    forall k | k in b.rows && b.rows[k].id < a.nextRow
      ensures Persists(a, b, k)
    {
      assert k in a.rows;
    }
  }

  lemma AddedSound(a: Db, b: Db, id: CommitmentId, c: Commitment, dates: seq<Day>)
    requires a.Sound() && Added(a, b, id, c, dates) && id in a.commitments && a.commitments[id] == c
    ensures b.Sound()
  {
    forall j, k | j in b.rows && k in b.rows && b.rows[j].id == b.rows[k].id
      ensures j == k
    {
      if j in a.rows {
        assert k in a.rows;
      }
    }
  }

  lemma WithoutEvolves(db: Db, keys: set<Key>)
    requires db.Sound()
    ensures Evolves(db, Without(db, keys))
  {
    var after := Without(db, keys);
    forall k | k in after.rows
      ensures Persists(db, after, k)
    {
      assert db.rows[k].id !in RowIds(db, keys);
    }
  }

  /** Generating and rescheduling only ever add fresh rows and delete whole ones. */
  lemma SyncEvolves(db: Db, id: CommitmentId, today: Day)
    requires db.Sound() && id in db.commitments
    ensures Evolves(db, Sync(db, id, today)) && Evolves(db, Resync(db, id, today))
  {
    var c := db.commitments[id];
    var cleared := DeletePendingFrom(db, id, today);
    WithoutEvolves(db, PendingFrom(db, id, today));
    if c.status.Active? {
      AddOccurrencesExact(db, id, c, Window(c, today));
      AddedEvolves(db, Sync(db, id, today), id, c, Window(c, today));
      AddOccurrencesExact(cleared, id, c, Window(c, today));
      AddedEvolves(cleared, Sync(cleared, id, today), id, c, Window(c, today));
      EvolvesChain(db, cleared, Resync(db, id, today));
    } else {
      EvolvesSame(db);
    }
  }

  /** Editing rows in place, or the users and commitments around them. */
  lemma EditEvolves(a: Db, b: Db)
    requires a.Sound() && b.Sound() && b.log == a.log && b.nextRow == a.nextRow
    requires forall k :: k in b.rows ==> k in a.rows && b.rows[k].id == a.rows[k].id
    ensures Evolves(a, b)
  {
    assert forall k :: k in b.rows ==> Persists(a, b, k);
  }

  lemma SettleEvolves(db: Db, k: Key, status: OccurrenceStatus, amount: Cents)
    requires db.Sound() && 0 < amount
    ensures Evolves(db, SetOccurrence(db, k, status, amount))
  {
    hide SetOccurrence;
    SettleIsExact(db, k, status, amount);
    EditEvolves(db, SetOccurrence(db, k, status, amount));
  }

  /** Every step of the occurrence table, and so every run of them, is a change the
      reminder runs allow. */
  lemma {:induction false} TableRunEvolves(db: Db, id: CommitmentId, steps: seq<TableStep>)
    requires db.Sound() && id in db.commitments
    requires forall step :: step in steps && step.Settle? ==> 0 < step.amount
    ensures Evolves(db, TableRun(db, id, steps))
    decreases |steps|
  {
    if steps == [] {
      EvolvesSame(db);
    } else {
      hide Evolves, Db.Sound;
      var front, step := steps[..|steps| - 1], steps[|steps| - 1];
      var before := TableRun(db, id, front);
      TableRunEvolves(db, id, front);
      EvolvesSound(db, before);
      assert step in steps;
      if step.SyncOn? {
        SyncEvolves(before, id, step.today);
      } else {
        SettleEvolves(before, Key(id, step.due), step.status, step.amount);
      }
      EvolvesChain(db, before, TableRun(db, id, steps));
    }
  }

  lemma EvolvesSound(a: Db, b: Db)
    requires Evolves(a, b)
    ensures b.Sound()
  {
  }

  // ----- deleting commitments for good -----

  function OwnedBy(db: Db, ids: set<CommitmentId>): set<Key> {
    set k | k in db.rows && k.commitment in ids
  }

  /** Delete commitments, and by cascade their rows and log lines. */
  function DropCommitments(db: Db, ids: set<CommitmentId>): Db {
    Without(db, OwnedBy(db, ids)).(commitments := db.commitments - ids)
  }

  /** Those commitments go, their rows and the lines of those rows with them, and nothing
      else. */
  lemma DroppedExactly(db: Db, ids: set<CommitmentId>)
    ensures var after := DropCommitments(db, ids);
            && after == db.(commitments := after.commitments, rows := after.rows, log := after.log)
            && (forall id :: id in after.commitments <==> id in db.commitments && id !in ids)
            && (forall id :: id in after.commitments ==> after.commitments[id] == db.commitments[id])
            && (forall k :: k in after.rows <==> k in db.rows && k.commitment !in ids)
            && (forall k :: k in after.rows ==> after.rows[k] == db.rows[k])
            && (forall m :: m in after.log <==>
                  m in db.log && !exists k :: k in db.rows && k.commitment in ids && db.rows[k].id == m.row)
  {
  }

  lemma DropEvolves(db: Db, ids: set<CommitmentId>)
    requires db.Sound()
    ensures Evolves(db, DropCommitments(db, ids))
  {
    var without := Without(db, OwnedBy(db, ids));
    WithoutEvolves(db, OwnedBy(db, ids));
    EditEvolves(without, DropCommitments(db, ids));
    EvolvesChain(db, without, DropCommitments(db, ids));
  }

  // ----- one generation for everybody -----

  /** `after` is `before` with the windows of commitments `from` to `to` filled in. */
  ghost predicate Generated(before: Db, after: Db, from: CommitmentId, to: CommitmentId, today: Day)
    requires before.Sound()
  {
    && Evolves(before, after)
    && after == before.(rows := after.rows, nextRow := after.nextRow)
    && (forall k :: k in before.rows ==> k in after.rows && after.rows[k] == before.rows[k])
    && (forall id, d :: from <= id < to && Generates(before, id) && d in Window(before.commitments[id], today) ==>
          Key(id, d) in after.rows)
    && (forall k :: k in after.rows && k !in before.rows ==> Fresh(before, k, after.rows[k], today))
  }

  ghost predicate Fresh(before: Db, k: Key, row: Row, today: Day)
    requires before.Sound()
  {
    && Generates(before, k.commitment)
    && k.due in Window(before.commitments[k.commitment], today)
    && row == Row(row.id, before.commitments[k.commitment].user, before.commitments[k.commitment].amount, Pending)
  }

  lemma GenerateOne(db: Db, i: CommitmentId, today: Day)
    requires db.Sound()
    ensures Startable(db) && SyncOne(db, i, today).Sound()
    ensures Generated(db, SyncOne(db, i, today), i, i + 1, today)
  {
    if Generates(db, i) {
      var c := db.commitments[i];
      SyncEvolves(db, i, today);
      AddOccurrencesExact(db, i, c, Window(c, today));
      AddedGenerates(db, Sync(db, i, today), i, today);
    } else {
      EvolvesSame(db);
    }
  }

  lemma AddedGenerates(a: Db, b: Db, i: CommitmentId, today: Day)
    requires a.Sound() && Evolves(a, b) && Generates(a, i)
    requires Added(a, b, i, a.commitments[i], Window(a.commitments[i], today))
    ensures Generated(a, b, i, i + 1, today)
  {
    hide Evolves, Window, Db.Sound;
  }

  lemma GeneratedChain(a: Db, b: Db, c: Db, i: CommitmentId, j: CommitmentId, n: CommitmentId, today: Day)
    requires a.Sound() && b.Sound()
    requires Generated(a, b, i, j, today) && Generated(b, c, j, n, today)
    ensures c.Sound() && Generated(a, c, i, n, today)
  {
    hide Evolves, Window, Db.Sound;
    EvolvesChain(a, b, c);
    forall k | k in c.rows && k !in a.rows
      ensures Fresh(a, k, c.rows[k], today)
    {
      if k in b.rows {
        assert Fresh(a, k, b.rows[k], today);
      } else {
        assert Fresh(b, k, c.rows[k], today);
      }
    }
  }

  lemma GeneratedNone(db: Db, i: CommitmentId, today: Day)
    requires db.Sound()
    ensures Generated(db, db, i, i, today)
  {
    EvolvesSame(db);
  }

  lemma SoundIsStartable(db: Db)
    requires db.Sound()
    ensures Startable(db)
  {
  }

  lemma {:induction false} SyncFromExact(db: Db, i: CommitmentId, today: Day)
    requires db.Sound() && Startable(db) && i <= db.nextCommitment
    ensures Generated(db, SyncFrom(db, i, today), i, db.nextCommitment, today)
    decreases db.nextCommitment - i
  {
    hide Generated, SyncOne, Db.Sound, Startable;
    if i == db.nextCommitment {
      GeneratedNone(db, i, today);
    } else {
      var next := SyncOne(db, i, today);
      GenerateOne(db, i, today);
      SoundIsStartable(next);
      SyncFromExact(next, i + 1, today);
      GeneratedChain(db, next, SyncFrom(next, i + 1, today), i, i + 1, db.nextCommitment, today);
    }
  }

  /** The daily generation gives every active, live commitment its whole window,
      adds nothing else and changes no row already there. */
  lemma SyncAllActiveExact(db: Db, today: Day)
    requires db.Sound()
    ensures Generated(db, SyncAllActive(db, today), 0, db.nextCommitment, today)
  {
    SyncFromExact(db, 0, today);
  }
}
