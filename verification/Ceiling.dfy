/** The ceiling on followed commitments, in every reachable state, and the greedy
    batch change of status. */
module Ceiling {
  import opened Calendar
  import opened Commitments
  import opened Evolution
  import opened Options
  import opened Records
  import opened Schedule
  import opened Sets
  import Daily

  // ----- the batch change of status -----

  function StatusOnly(status: CommitmentStatus): Changes {
    NO_CHANGE.(status := Some(status))
  }

  datatype Batch = Batch(db: Db, changed: seq<CommitmentId>, blocked: seq<CommitmentId>)

  /** A change of status alone is refused by the ceiling or not at all. */
  lemma StatusRefusals(db: Db, user: UserId, id: CommitmentId, status: CommitmentStatus)
    requires db.Sound() && Owned(db, user, id)
    ensures RefusalOf(db, user, id, StatusOnly(status)) in {Done, Refused(CommitmentLimitReached)}
  {
  }

  function OneOfBatch(b: Batch, user: UserId, id: CommitmentId, status: CommitmentStatus, today: Day): (r: Batch)
    requires b.db.Sound()
    ensures r.db.Sound()
  {
    if !Owned(b.db, user, id) || b.db.commitments[id].status == status then b
    else
      UpdateEvolves(b.db, user, id, StatusOnly(status), today);
      if RefusalOf(b.db, user, id, StatusOnly(status)).Refused? then b.(blocked := b.blocked + [id])
      else Batch(Update(b.db, user, id, StatusOnly(status), today), b.changed + [id], b.blocked)
  }

  function SetStatusMany(db: Db, user: UserId, ids: seq<CommitmentId>, status: CommitmentStatus, today: Day): (r: Batch)
    requires db.Sound()
    ensures r.db.Sound()
  {
    if ids == [] then Batch(db, [], [])
    else OneOfBatch(SetStatusMany(db, user, ids[..|ids| - 1], status, today), user, ids[|ids| - 1], status, today)
  }

  // ----- steps that change the population -----

  datatype Step =
    | Creating(c: Commitment, today: Day)
    | Updating(user: UserId, id: CommitmentId, changes: Changes, today: Day)
    | Batching(user: UserId, request: seq<CommitmentId>, status: CommitmentStatus, today: Day)
    | Trashing(user: UserId, ids: set<CommitmentId>, at: Instant)
    | Restoring(user: UserId, ids: set<CommitmentId>)
    | PurgingTrash(user: UserId, t: Option<CommitmentType>)
    | DailyPreparing(reference: Day, cutoff: Instant)

  ghost predicate Legal(db: Db, step: Step) {
    && db.Sound()
    && match step
       case Creating(c, _) => Creatable(c)
       case Updating(_, _, changes, _) => changes.Valid()
       case _ => true
  }

  ghost function Next(db: Db, step: Step): Db
    requires Legal(db, step)
  {
    match step
    case Creating(c, today) => Create(db, c, today)
    case Updating(user, id, changes, today) => Update(db, user, id, changes, today)
    case Batching(user, ids, status, today) => SetStatusMany(db, user, ids, status, today).db
    case Trashing(user, ids, at) => SoftDelete(db, user, ids, at)
    case Restoring(user, ids) => Restore(db, user, ids)
    case PurgingTrash(user, t) => PurgeNow(db, user, t)
    case DailyPreparing(reference, cutoff) => Daily.Prepare(db, reference, cutoff)
  }

  lemma StepKeepsSound(db: Db, step: Step)
    requires Legal(db, step)
    ensures Next(db, step).Sound()
  {
    match step
    case Creating(c, today) => CreateEvolves(db, c, today);
    case Updating(user, id, changes, today) => UpdateEvolves(db, user, id, changes, today);
    case Batching(_, _, _, _) =>
    case Trashing(user, ids, at) => TrashEvolves(db, user, ids, at);
    case Restoring(user, ids) => RestoreEvolves(db, user, ids);
    case PurgingTrash(user, t) => DropEvolves(db, Trash(db, user, t));
    case DailyPreparing(reference, cutoff) => Daily.PrepareKeeps(db, reference, cutoff);
  }

  // ----- the ceiling, step by step -----

  /** No population grew past the ceiling. */
  ghost predicate CeilingKept(a: Db, b: Db) {
    forall user, t :: Count(b, user, t) <= Max(MAX_COMMITMENTS_PER_TYPE, Count(a, user, t))
  }

  lemma FewerCounted(a: Db, b: Db)
    requires forall id, user, t :: id in CountedIds(b, user, t) ==> id in CountedIds(a, user, t)
    ensures CeilingKept(a, b)
  {
    forall user, t
      ensures Count(b, user, t) <= Count(a, user, t)
    {
      SubsetSize(CountedIds(b, user, t), CountedIds(a, user, t));
    }
  }

  /** Setting one line lets it enter one population at most, and only where the guard
      found room. */
  lemma OneLineSet(db: Db, id: CommitmentId, c: Commitment)
    requires CountsFor(c, c.user, c.commitmentType) && id !in CountedIds(db, c.user, c.commitmentType) ==>
               !Full(db, c.user, c.commitmentType)
    ensures CeilingKept(db, SetCommitment(db, id, c))
  {
    var after := SetCommitment(db, id, c);
    forall user, t
      ensures Count(after, user, t) <= Max(MAX_COMMITMENTS_PER_TYPE, Count(db, user, t))
    {
      var was, now := CountedIds(db, user, t), CountedIds(after, user, t);
      if id in now && id !in was {
        SubsetSize(now, was + {id});
      } else {
        SubsetSize(now, was);
      }
    }
  }

  lemma SameCommitments(a: Db, b: Db)
    requires a.commitments == b.commitments
    ensures forall user, t :: CountedIds(a, user, t) == CountedIds(b, user, t)
  {
  }

  lemma UpdateKeepsCeiling(db: Db, user: UserId, id: CommitmentId, ch: Changes, today: Day)
    requires db.Sound() && ch.Valid()
    ensures CeilingKept(db, Update(db, user, id, ch, today))
  {
    if RefusalOf(db, user, id, ch).Done? {
      var after := Applied(db.commitments[id], ch);
      AppliedIsValid(db, user, id, ch);
      OneLineSet(db, id, after);
      SameCommitments(SetCommitment(db, id, after), Update(db, user, id, ch, today));
    }
  }

  lemma {:induction false} BatchKeepsCeiling(db: Db, user: UserId, ids: seq<CommitmentId>, status: CommitmentStatus, today: Day)
    requires db.Sound()
    ensures CeilingKept(db, SetStatusMany(db, user, ids, status, today).db)
  {
    if ids != [] {
      BatchKeepsCeiling(db, user, ids[..|ids| - 1], status, today);
      var b := SetStatusMany(db, user, ids[..|ids| - 1], status, today);
      UpdateKeepsCeiling(b.db, user, ids[|ids| - 1], StatusOnly(status), today);
    }
  }

  lemma DropKeepsCeiling(db: Db, ids: set<CommitmentId>)
    ensures CeilingKept(db, DropCommitments(db, ids))
  {
    FewerCounted(db, DropCommitments(db, ids));
  }

  lemma CreateKeepsCeiling(db: Db, c: Commitment, today: Day)
    requires db.Sound() && Creatable(c)
    ensures CeilingKept(db, Create(db, c, today))
  {
    if !Full(db, c.user, c.commitmentType) {
      OneLineSet(db, db.nextCommitment, c);
      SameCommitments(SetCommitment(db, db.nextCommitment, c), Create(db, c, today));
    }
  }

  lemma PrepareKeepsCeiling(db: Db, reference: Day, cutoff: Instant)
    requires db.Sound()
    ensures CeilingKept(db, Daily.Prepare(db, reference, cutoff))
  {
    var dropped := DropCommitments(db, Daily.Expired(db, cutoff));
    Daily.PrepareKeeps(db, reference, cutoff);
    DropKeepsCeiling(db, Daily.Expired(db, cutoff));
    SameCommitments(dropped, Daily.Prepare(db, reference, cutoff));
  }

  /** Every step but restoring keeps each population at most at the larger of the
      ceiling and what it was. */
  lemma StepKeepsCeiling(db: Db, step: Step)
    requires Legal(db, step) && !step.Restoring?
    ensures CeilingKept(db, Next(db, step))
  {
    hide CeilingKept, Db.Sound;
    match step
    case Creating(c, today) => CreateKeepsCeiling(db, c, today);
    case Updating(user, id, changes, today) => UpdateKeepsCeiling(db, user, id, changes, today);
    case Batching(user, ids, status, today) => BatchKeepsCeiling(db, user, ids, status, today);
    case Trashing(user, ids, at) => FewerCounted(db, SoftDelete(db, user, ids, at));
    case PurgingTrash(user, t) => DropKeepsCeiling(db, Trash(db, user, t));
    case DailyPreparing(reference, cutoff) => PrepareKeepsCeiling(db, reference, cutoff);
  }

  lemma RestoredPopulation(db: Db, user: UserId, ids: set<CommitmentId>, t: CommitmentType)
    requires !RestoreRefused(db, user, ids)
    ensures CountedIds(Restore(db, user, ids), user, t) == CountedIds(db, user, t) + Entrants(db, user, ids, t)
    ensures CountedIds(db, user, t) !! Entrants(db, user, ids, t)
  {
    hide RestoreRefused;
  }

  lemma OthersUntouched(db: Db, user: UserId, ids: set<CommitmentId>, other: UserId, t: CommitmentType)
    requires other != user
    ensures CountedIds(Restore(db, user, ids), other, t) == CountedIds(db, other, t)
  {
    hide RestoreRefused;
  }

  /** Restoring brings every entrant back or changes nothing at all. It may pass the
      ceiling, but not the roof at twice the ceiling. */
  lemma RestoreKeepsRoof(db: Db, user: UserId, ids: set<CommitmentId>, other: UserId, t: CommitmentType)
    ensures Count(Restore(db, user, ids), other, t) <= Max(ROOF, Count(db, other, t))
    ensures RestoreRefused(db, user, ids) ==> Restore(db, user, ids) == db
    ensures !RestoreRefused(db, user, ids) ==>
              Count(Restore(db, user, ids), user, t) == Count(db, user, t) + |Entrants(db, user, ids, t)|
  {
    if !RestoreRefused(db, user, ids) {
      RestoredPopulation(db, user, ids, t);
      if other != user {
        OthersUntouched(db, user, ids, other, t);
      }
      assert !OverRoof(db, user, ids, t);
      hide Restore, CountedIds, Entrants;
    }
  }

  ghost predicate IsRun(states: seq<Db>, steps: seq<Step>) {
    && |states| == |steps| + 1
    && forall i :: 0 <= i < |steps| ==> Legal(states[i], steps[i]) && states[i + 1] == Next(states[i], steps[i])
  }

  /** In every state reachable from empty tables, by any sequence of creations, edits,
      batches, deletions, restorations and purges, an account follows at most fifty
      live commitments of a type. */
  lemma {:induction false} RoofHolds(states: seq<Db>, steps: seq<Step>, i: nat, user: UserId, t: CommitmentType)
    requires IsRun(states, steps) && states[0].commitments == map[] && i <= |steps|
    ensures Count(states[i], user, t) <= 50
  {
    hide Next, Legal, CountedIds;
    if i == 0 {
      NothingCounted(states[0], user, t);
    } else {
      RoofHolds(states, steps, i - 1, user, t);
      RoofStep(states[i - 1], steps[i - 1], user, t);
    }
  }

  lemma NothingCounted(db: Db, user: UserId, t: CommitmentType)
    requires db.commitments == map[]
    ensures Count(db, user, t) == 0
  {
    assert CountedIds(db, user, t) == {};
  }

  lemma RoofStep(db: Db, step: Step, user: UserId, t: CommitmentType)
    requires Legal(db, step) && Count(db, user, t) <= ROOF
    ensures Count(Next(db, step), user, t) <= ROOF
  {
    hide Count;
    if step.Restoring? {
      RestoreKeepsRoof(db, step.user, step.ids, user, t);
    } else {
      StepKeepsCeiling(db, step);
    }
  }

  // ----- the life of the trash -----

  /** A line trashed at an instant is gone after the nightly purge exactly if that instant
      is before its cutoff, gone after its owner empties the trash of its type, and comes
      back unchanged otherwise; lines of other accounts and lines not named go through
      either as they would have without. */
  lemma TrashLifecycle(db: Db, user: UserId, ids: set<CommitmentId>, at: Instant, before: Instant, t: Option<CommitmentType>, id: CommitmentId)
    requires id in db.commitments
    ensures var c, trashed := db.commitments[id], SoftDelete(db, user, ids, at);
            var nightly, emptied := Daily.PurgeDeleted(trashed, before), PurgeNow(trashed, user, t);
            if id in ids && c.user == user && c.deletedAt == None then
              && (id in nightly.commitments <==> before <= at)
              && (id in emptied.commitments <==> t != None && c.commitmentType != t.value)
              && trashed.commitments[id] == c.(deletedAt := Some(at))
            else
              && trashed.commitments[id] == c
              && (id in nightly.commitments <==> id in Daily.PurgeDeleted(db, before).commitments)
              && (id in emptied.commitments <==> id in PurgeNow(db, user, t).commitments)
  {
    var trashed := SoftDelete(db, user, ids, at);
    TrashedExactly(db, user, ids, at);
    Daily.OldTrashGoes(trashed, before);
    Daily.OldTrashGoes(db, before);
    EmptiedExactly(trashed, user, t);
    EmptiedExactly(db, user, t);
    hide SoftDelete, Daily.PurgeDeleted, PurgeNow;
  }

  // ----- the trash gives back what went in -----

  /** Restoring what was just deleted gives the very same tables back, whatever the
      account follows: the roof never refuses the return of a population it held. */
  lemma TrashRoundTrip(db: Db, user: UserId, ids: set<CommitmentId>, at: Instant)
    requires forall id :: id in ids ==> Owned(db, user, id)
    requires forall t :: Count(db, user, t) <= ROOF
    ensures Restore(SoftDelete(db, user, ids, at), user, ids) == db
  {
    var deleted := SoftDelete(db, user, ids, at);
    forall t
      ensures !OverRoof(deleted, user, ids, t)
    {
      DeletedPopulation(db, user, ids, at, t);
    }
    assert Restore(deleted, user, ids).commitments == db.commitments;
  }

  lemma DeletedPopulation(db: Db, user: UserId, ids: set<CommitmentId>, at: Instant, t: CommitmentType)
    requires forall id :: id in ids ==> Owned(db, user, id)
    ensures var deleted := SoftDelete(db, user, ids, at);
            Count(deleted, user, t) + |Entrants(deleted, user, ids, t)| == Count(db, user, t)
  {
    var deleted := SoftDelete(db, user, ids, at);
    assert CountedIds(db, user, t) == CountedIds(deleted, user, t) + Entrants(deleted, user, ids, t);
    assert CountedIds(deleted, user, t) !! Entrants(deleted, user, ids, t);
  }
}
