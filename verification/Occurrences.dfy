/** The occurrence table: what the generator writes, what rescheduling replaces,
    and what is left after any run of generations. */
module Occurrences {
  import opened Calendar
  import opened Schedule
  import opened Records

  // ----- statements on the tables -----

  /** Insert one pending row unless its commitment already has that date. */
  function InsertOne(db: Db, id: CommitmentId, c: Commitment, due: Day): Db {
    if Key(id, due) in db.rows then db
    else db.(rows := db.rows[Key(id, due) := Row(db.nextRow, c.user, c.amount, Pending)],
             nextRow := db.nextRow + 1)
  }

  function AddOccurrences(db: Db, id: CommitmentId, c: Commitment, dates: seq<Day>): (r: Db)
    ensures r == db.(rows := r.rows, nextRow := r.nextRow)
    decreases |dates|
  {
    if dates == [] then db
    else InsertOne(AddOccurrences(db, id, c, dates[..|dates| - 1]), id, c, dates[|dates| - 1])
  }

  function RowIds(db: Db, keys: set<Key>): set<RowId> {
    set k | k in keys && k in db.rows :: db.rows[k].id
  }

  /** Delete rows, and by cascade their lines of the reminder log. */
  function Without(db: Db, keys: set<Key>): Db {
    db.(rows := db.rows - keys, log := set m | m in db.log && m.row !in RowIds(db, keys))
  }

  function PendingFrom(db: Db, id: CommitmentId, floor: Day): set<Key> {
    set k | k in db.rows && k.commitment == id && db.rows[k].status.Pending? && floor <= k.due
  }

  function DeletePendingFrom(db: Db, id: CommitmentId, floor: Day): Db {
    Without(db, PendingFrom(db, id, floor))
  }

  // ----- the generator -----

  function Window(c: Commitment, today: Day): seq<Day>
    requires 1 <= c.rule.startsOn
  {
    Dates(c.rule, today, today + HorizonDays(c.rule.frequency))
  }

  ghost predicate Generable(db: Db, id: CommitmentId) {
    id in db.commitments && 1 <= db.commitments[id].rule.startsOn
  }

  function Sync(db: Db, id: CommitmentId, today: Day): Db
    requires Generable(db, id)
  {
    var c := db.commitments[id];
    if c.status.Active? then AddOccurrences(db, id, c, Window(c, today)) else db
  }

  function Resync(db: Db, id: CommitmentId, today: Day): Db
    requires Generable(db, id)
  {
    Sync(DeletePendingFrom(db, id, today), id, today)
  }

  predicate Generates(db: Db, id: CommitmentId) {
    id in db.commitments && db.commitments[id].status.Active? && db.commitments[id].Live()
  }

  function SyncOne(db: Db, i: CommitmentId, today: Day): (r: Db)
    requires Startable(db)
    ensures r == db.(rows := r.rows, nextRow := r.nextRow)
  {
    if Generates(db, i) then Sync(db, i, today) else db
  }

  ghost predicate Startable(db: Db) {
    forall id :: id in db.commitments ==> 1 <= db.commitments[id].rule.startsOn
  }

  /** Every active, live commitment in order of creation, from `i` on. */
  function SyncFrom(db: Db, i: CommitmentId, today: Day): (r: Db)
    requires Startable(db)
    ensures r == db.(rows := r.rows, nextRow := r.nextRow)
    decreases db.nextCommitment - i
  {
    if db.nextCommitment <= i then db else SyncFrom(SyncOne(db, i, today), i + 1, today)
  }

  function SyncAllActive(db: Db, today: Day): Db
    requires Startable(db)
  {
    SyncFrom(db, 0, today)
  }

  // ----- what an insertion does -----

  /** `after` is `before` with pending rows of `c` added at the dates that were
      free: nothing else changed, and the new identifiers are fresh. */
  ghost predicate Added(before: Db, after: Db, id: CommitmentId, c: Commitment, dates: seq<Day>) {
    && after == before.(rows := after.rows, nextRow := after.nextRow)
    && before.nextRow <= after.nextRow
    && (forall k :: k in before.rows ==> k in after.rows && after.rows[k] == before.rows[k])
    && (forall d :: d in dates ==> Key(id, d) in after.rows)
    && (forall k :: k in after.rows && k !in before.rows ==>
          && k.commitment == id && k.due in dates
          && after.rows[k] == Row(after.rows[k].id, c.user, c.amount, Pending)
          && before.nextRow <= after.rows[k].id < after.nextRow)
    && (forall j, k | j in after.rows && j !in before.rows && k in after.rows && k !in before.rows ::
          after.rows[j].id == after.rows[k].id ==> j == k)
  }

  lemma {:induction false} AddOccurrencesExact(db: Db, id: CommitmentId, c: Commitment, dates: seq<Day>)
    ensures Added(db, AddOccurrences(db, id, c, dates), id, c, dates)
    decreases |dates|
  {
    if dates != [] {
      AddOccurrencesExact(db, id, c, dates[..|dates| - 1]);
      assert dates == dates[..|dates| - 1] + [dates[|dates| - 1]];
    }
  }

  /** The window of a commitment: its scheduled dates up to the horizon of its
      frequency, from that day on unless it is a one-off. */
  ghost predicate Falls(rule: Rule, today: Day, d: Day) {
    Scheduled(rule, d) && (rule.frequency.Oneoff? || today <= d) && d <= today + DaysAhead(rule.frequency)
  }

  lemma WindowIs(c: Commitment, today: Day)
    requires 1 <= c.rule.startsOn
    ensures forall d :: d in Window(c, today) <==> Falls(c.rule, today, d)
  {
    forall d
      ensures d in Window(c, today) <==> Falls(c.rule, today, d)
    {
      WrittenOn(c.rule, today, d);
    }
  }

  // ----- rescheduling -----

  /** Row `k` of commitment `id` survives a rescheduling on day `today`. */
  ghost predicate Kept(db: Db, k: Key, id: CommitmentId, today: Day) {
    k in db.rows && (k.commitment != id || !db.rows[k].status.Pending? || k.due < today)
  }

  ghost predicate Rescheduled(before: Db, after: Db, id: CommitmentId, today: Day)
    requires Generable(before, id)
  {
    var c := before.commitments[id];
    && after.commitments == before.commitments
    && (forall k :: Kept(before, k, id, today) ==> k in after.rows && after.rows[k] == before.rows[k])
    && (forall k :: k in after.rows <==>
          Kept(before, k, id, today) || (c.status.Active? && k.commitment == id && k.due in Window(c, today)))
    && (forall k :: k in after.rows && !Kept(before, k, id, today) ==>
          after.rows[k].status.Pending? && after.rows[k].amount == c.amount && before.nextRow <= after.rows[k].id)
  }

  /** Rescheduling leaves settled and past rows alone, and its other rows are
      exactly the scheduled dates still free, pending at the new amount. */
  lemma RescheduleIsExact(db: Db, id: CommitmentId, today: Day)
    requires Generable(db, id)
    ensures Rescheduled(db, Resync(db, id, today), id, today)
    ensures !db.commitments[id].status.Active? ==>
              PendingFrom(Resync(db, id, today), id, today) == {}
  {
    var c := db.commitments[id];
    AddOccurrencesExact(DeletePendingFrom(db, id, today), id, c, Window(c, today));
  }

  /** By date: the rows kept, and for an active commitment the dates its new rule falls
      on, a past one-off included. */
  lemma RescheduledDates(db: Db, id: CommitmentId, today: Day, d: Day)
    requires Generable(db, id)
    ensures Key(id, d) in Resync(db, id, today).rows <==>
            Kept(db, Key(id, d), id, today) ||
            (db.commitments[id].status.Active? && Falls(db.commitments[id].rule, today, d))
  {
    hide Window, Falls, Kept, Resync;
    RescheduleIsExact(db, id, today);
    WindowIs(db.commitments[id], today);
  }

  /** Same dates, statuses and amounts; identifiers and log lines may differ. */
  ghost predicate SameContents(a: Db, b: Db) {
    && a.rows.Keys == b.rows.Keys
    && forall k :: k in a.rows ==> a.rows[k].status == b.rows[k].status && a.rows[k].amount == b.rows[k].amount
  }

  lemma RescheduleTwiceIsOnce(db: Db, id: CommitmentId, today: Day)
    requires Generable(db, id)
    ensures SameContents(Resync(Resync(db, id, today), id, today), Resync(db, id, today))
  {
    var once := Resync(db, id, today);
    RescheduleIsExact(db, id, today);
    RescheduleIsExact(once, id, today);
    var twice := Resync(once, id, today);
    forall k
      ensures k in twice.rows <==> k in once.rows
    {
      if k in once.rows && !Kept(once, k, id, today) {
        assert !Kept(db, k, id, today);
      }
    }
  }

  // ----- runs of generations -----

  datatype TableStep = SyncOn(today: Day) | Settle(due: Day, status: OccurrenceStatus, amount: Cents)

  /** One day's generation, or the owner settling or editing one row. */
  function TableNext(db: Db, id: CommitmentId, step: TableStep): Db
    requires Generable(db, id)
  {
    match step
    case SyncOn(today) => Sync(db, id, today)
    case Settle(due, status, amount) => SetOccurrence(db, Key(id, due), status, amount)
  }

  function SetOccurrence(db: Db, k: Key, status: OccurrenceStatus, amount: Cents): Db {
    if k in db.rows then db.(rows := db.rows[k := db.rows[k].(status := status, amount := amount)]) else db
  }

  /** Settling writes the status and the amount of one row, and nothing where there is
      none. */
  lemma SettleIsExact(db: Db, k: Key, status: OccurrenceStatus, amount: Cents)
    ensures var after := SetOccurrence(db, k, status, amount);
            && after == db.(rows := after.rows) && after.rows.Keys == db.rows.Keys
            && (forall j :: j in db.rows && j != k ==> after.rows[j] == db.rows[j])
            && (k in db.rows ==> after.rows[k] == Row(db.rows[k].id, db.rows[k].user, amount, status))
  {
  }

  function TableRun(db: Db, id: CommitmentId, steps: seq<TableStep>): (r: Db)
    requires Generable(db, id)
    ensures r.commitments == db.commitments
    decreases |steps|
  {
    if steps == [] then db
    else TableNext(TableRun(db, id, steps[..|steps| - 1]), id, steps[|steps| - 1])
  }

  ghost predicate Reaches(rule: Rule, today: Day, d: Day) {
    Scheduled(rule, d) && today <= d <= today + HorizonDays(rule.frequency)
  }

  lemma RecurringWindow(c: Commitment, today: Day)
    requires c.rule.Recurring()
    ensures forall d :: d in Window(c, today) <==> Reaches(c.rule, today, d)
  {
    GeneratedWindow(c.rule, today);
  }

  /** After any run of generations and settlements, the dates of an active recurring
      commitment are those it had, and those within reach of some generation. */
  lemma {:induction false} RunIsExact(db: Db, id: CommitmentId, steps: seq<TableStep>, d: Day)
    requires Generable(db, id) && db.commitments[id].status.Active? && db.commitments[id].rule.Recurring()
    ensures Key(id, d) in TableRun(db, id, steps).rows <==>
            Key(id, d) in db.rows ||
            exists i :: 0 <= i < |steps| && steps[i].SyncOn? && Reaches(db.commitments[id].rule, steps[i].today, d)
    decreases |steps|
  {
    if steps != [] {
      var front, step := steps[..|steps| - 1], steps[|steps| - 1];
      var before := TableRun(db, id, front);
      RunIsExact(db, id, front, d);
      assert forall i :: 0 <= i < |front| ==> front[i] == steps[i];
      if step.SyncOn? {
        var c := db.commitments[id];
        RecurringWindow(c, step.today);
        AddOccurrencesExact(before, id, c, Window(c, step.today));
      }
    }
  }

  /** The days of a run's generations never go back. */
  predicate Forward(days: seq<Day>) {
    forall i, j :: 0 <= i < j < |days| ==> days[i] <= days[j]
  }

  function Generations(days: seq<Day>): seq<TableStep> {
    seq(|days|, i requires 0 <= i < |days| => SyncOn(days[i]))
  }

  /** Whether a forward run of generations on an empty table leaves the whole
      schedule, from its first day to its last day's horizon, and nothing else. */
  ghost predicate LeavesWholeSchedule(db: Db, id: CommitmentId, days: seq<Day>)
    requires Generable(db, id) && 0 < |days|
  {
    var rule := db.commitments[id].rule;
    forall d :: Key(id, d) in TableRun(db, id, Generations(days)).rows <==>
                Scheduled(rule, d) && days[0] <= d <= days[|days| - 1] + HorizonDays(rule.frequency)
  }

  ghost predicate Covered(rule: Rule, days: seq<Day>, d: Day) {
    exists i :: 0 <= i < |days| && Reaches(rule, days[i], d)
  }

  ghost predicate NoGap(rule: Rule, days: seq<Day>) {
    forall i, d :: 0 <= i < |days| - 1 && Scheduled(rule, d) ==>
      !(days[i] + HorizonDays(rule.frequency) < d < days[i + 1])
  }

  /** It does if and only if no scheduled date falls between one generation's
      horizon and the next generation's day. */
  lemma ForwardRuns(db: Db, id: CommitmentId, days: seq<Day>)
    requires Generable(db, id) && db.commitments[id].status.Active? && db.commitments[id].rule.Recurring()
    requires 0 < |days| && Forward(days) && forall d :: Key(id, d) !in db.rows
    ensures var rule := db.commitments[id].rule;
            LeavesWholeSchedule(db, id, days) <==> NoGap(rule, days)
  {
    hide Scheduled, TableRun;
    var rule, steps := db.commitments[id].rule, Generations(days);
    forall d
      ensures Key(id, d) in TableRun(db, id, steps).rows <==> Covered(rule, days, d)
    {
      RunIsExact(db, id, steps, d);
      if Covered(rule, days, d) {
        var i :| 0 <= i < |days| && Reaches(rule, days[i], d);
        assert steps[i].SyncOn? && Reaches(rule, steps[i].today, d);
      }
    }
    if NoGap(rule, days) {
      NoGapCovers(rule, days);
    }
    if LeavesWholeSchedule(db, id, days) {
      forall i, d | 0 <= i < |days| - 1 && Scheduled(rule, d)
        ensures !(days[i] + HorizonDays(rule.frequency) < d < days[i + 1])
      {
        if days[i] + HorizonDays(rule.frequency) < d < days[i + 1] {
          GapIsNotCovered(rule, days, i, d);
        }
      }
    }
  }

  lemma NoGapCovers(rule: Rule, days: seq<Day>)
    requires 0 < |days| && Forward(days) && NoGap(rule, days)
    ensures forall d :: Covered(rule, days, d) <==>
                        Scheduled(rule, d) && days[0] <= d <= days[|days| - 1] + HorizonDays(rule.frequency)
  {
    hide Scheduled;
    forall d | Scheduled(rule, d) && days[0] <= d <= days[|days| - 1] + HorizonDays(rule.frequency)
      ensures Covered(rule, days, d)
    {
      var i := LastNotAfter(days, d, |days| - 1);
      assert Reaches(rule, days[i], d);
    }
  }

  lemma GapIsNotCovered(rule: Rule, days: seq<Day>, i: nat, d: Day)
    requires i + 1 < |days| && Forward(days)
    requires days[i] + HorizonDays(rule.frequency) < d < days[i + 1]
    ensures !Covered(rule, days, d) && days[0] <= d <= days[|days| - 1]
  {
  }

  lemma {:induction false} LastNotAfter(days: seq<Day>, d: Day, n: nat) returns (i: nat)
    requires n < |days| && days[0] <= d
    ensures i <= n && days[i] <= d && (i < n ==> d < days[i + 1])
  {
    if days[n] <= d {
      i := n;
    } else {
      i := LastNotAfter(days, d, n - 1);
    }
  }

  /** In particular when generations are at most a horizon and a day apart. */
  lemma CloseGenerationsLeaveNoGap(db: Db, id: CommitmentId, days: seq<Day>)
    requires Generable(db, id) && db.commitments[id].status.Active? && db.commitments[id].rule.Recurring()
    requires 0 < |days| && Forward(days) && forall d :: Key(id, d) !in db.rows
    requires forall i :: 0 <= i < |days| - 1 ==>
               days[i + 1] <= days[i] + HorizonDays(db.commitments[id].rule.frequency) + 1
    ensures LeavesWholeSchedule(db, id, days)
  {
    ForwardRuns(db, id, days);
  }
}
