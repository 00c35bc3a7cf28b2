/** The commitment service on the program's tables: each request guards first, then
    writes. */
module CommitmentRequests {
  import opened Calendar
  import opened Ceiling
  import opened Commitments
  import opened Options
  import opened Records
  import opened Repository

  class CommitmentService {
    const repo: CommitmentRepository
    const generator: OccurrenceGenerator

    constructor (repo: CommitmentRepository)
      ensures this.repo == repo && generator.repo == repo
    {
      this.repo := repo;
      generator := new OccurrenceGenerator(repo);
    }

    ghost predicate Valid()
      reads this, repo
    {
      generator.repo == repo && repo.View().Sound()
    }

    method Create(c: Commitment, today: Day) returns (result: Result)
      requires Valid() && Creatable(c)
      modifies repo
      ensures repo.View() == Commitments.Create(old(repo.View()), c, today)
      ensures result == if Full(old(repo.View()), c.user, c.commitmentType) then Refused(CommitmentLimitReached) else Done
    {
      if MAX_COMMITMENTS_PER_TYPE <= Count(repo.View(), c.user, c.commitmentType) {
        return Refused(CommitmentLimitReached);
      }
      var id := repo.nextCommitment;
      hide Db.Sound, Count;
      repo.commitments := repo.commitments[id := c];
      repo.nextCommitment := id + 1;
      assert repo.View() == Created(old(repo.View()), c);
      hide Created;
      var created := generator.Sync(id, today);
      result := Done;
    }

    method Update(user: UserId, id: CommitmentId, ch: Changes, today: Day) returns (result: Result)
      requires Valid() && ch.Valid()
      modifies repo
      ensures repo.View() == Commitments.Update(old(repo.View()), user, id, ch, today) && Valid()
      ensures result == RefusalOf(old(repo.View()), user, id, ch)
    {
      UpdateEvolves(repo.View(), user, id, ch, today);
      result := RefusalOf(repo.View(), user, id, ch);
      if result.Refused? {
        return;
      }
      AppliedIsValid(repo.View(), user, id, ch);
      repo.commitments := repo.commitments[id := Applied(repo.commitments[id], ch)];
      if ch.Reschedules() {
        var created := generator.Resync(id, today);
      } else if ch.EditsDeadlines() {
        repo.ClearActionReminders(id);
      }
    }

    /** Line after line, in the order of the request; a refused line stops nothing. */
    method SetStatusMany(user: UserId, ids: seq<CommitmentId>, status: CommitmentStatus, today: Day)
      returns (changed: seq<CommitmentId>, blocked: seq<CommitmentId>)
      requires Valid()
      modifies repo
      ensures Batch(repo.View(), changed, blocked) == Ceiling.SetStatusMany(old(repo.View()), user, ids, status, today)
    {
      changed, blocked := [], [];
      for i := 0 to |ids|
        invariant Valid()
        invariant Batch(repo.View(), changed, blocked) == Ceiling.SetStatusMany(old(repo.View()), user, ids[..i], status, today)
      {
        assert ids[..i + 1][..i] == ids[..i];
        var id := ids[i];
        if !Owned(repo.View(), user, id) || repo.commitments[id].status == status {
          continue;
        }
        var result := Update(user, id, StatusOnly(status), today);
        if result == Refused(CommitmentLimitReached) {
          blocked := blocked + [id];
          continue;
        }
        StatusRefusals(Ceiling.SetStatusMany(old(repo.View()), user, ids[..i], status, today).db, user, id, status);
        changed := changed + [id];
      }
      assert ids[..|ids|] == ids;
    }

    method Delete(user: UserId, ids: set<CommitmentId>, at: Instant) returns (trashed: set<CommitmentId>)
      modifies repo
      ensures repo.View() == SoftDelete(old(repo.View()), user, ids, at)
      ensures forall id :: id in trashed <==> id in ids && Owned(old(repo.View()), user, id)
    {
      var before := repo.View();
      trashed := set id | id in ids && Owned(before, user, id);
      var rest := trashed;
      ghost var stamped := {};
      while rest != {}
        invariant rest !! stamped && forall id :: id in rest + stamped <==> id in ids && Owned(before, user, id)
        invariant repo.View() == before.(commitments := Stamped(before, stamped, at))
      {
        var id :| id in rest;
        repo.commitments := repo.commitments[id := repo.commitments[id].(deletedAt := Some(at))];
        rest, stamped := rest - {id}, stamped + {id};
      }
      assert Stamped(before, stamped, at) == SoftDelete(before, user, ids, at).commitments;
    }

    /** Count the trashed lines that would enter, type by type. */
    method CountEntrants(user: UserId, ids: set<CommitmentId>) returns (entrants: map<CommitmentType, nat>)
      ensures entrants.Keys == {Subscription, Invoice}
      ensures forall t :: t in entrants && entrants[t] == |Entrants(repo.View(), user, ids, t)|
    {
      hide Entrants;
      var db := repo.View();
      var rest := set id | id in repo.commitments && InTrash(db, user, id);
      entrants := map[Subscription := 0, Invoice := 0];
      ghost var seen := {};
      NoEntrants(db, user, ids, seen);
      forall t: CommitmentType
        ensures t in entrants && entrants[t] == 0
      {
        match t
        case Subscription =>
        case Invoice =>
      }
      while rest != {}
        invariant entrants.Keys == {Subscription, Invoice}
        invariant seen !! rest && forall id :: id in seen + rest <==> InTrash(db, user, id)
        invariant forall t :: t in entrants && entrants[t] == |Entrants(db, user, ids * seen, t)|
        decreases rest
      {
        var id :| id in rest;
        assert id in seen + rest;
        EntrantsOneMore(db, user, ids, seen, id);
        if id in ids && db.commitments[id].Counted() {
          var t := db.commitments[id].commitmentType;
          entrants := entrants[t := entrants[t] + 1];
        }
        rest, seen := rest - {id}, seen + {id};
      }
      AllEntrants(db, user, ids, seen);
    }

    /** The roof is checked for each type that something would enter. */
    method GuardRestore(user: UserId, ids: set<CommitmentId>) returns (allowed: bool)
      ensures allowed <==> !RestoreRefused(repo.View(), user, ids)
    {
      var entrants := CountEntrants(user, ids);
      var types := [Subscription, Invoice];
      for i := 0 to |types|
        invariant forall j :: 0 <= j < i ==> !OverRoof(repo.View(), user, ids, types[j])
      {
        var entering := entrants[types[i]];
        if 0 < entering && ROOF < Count(repo.View(), user, types[i]) + entering {
          return false;
        }
      }
      assert !OverRoof(repo.View(), user, ids, types[0]) && !OverRoof(repo.View(), user, ids, types[1]);
      allowed := true;
    }

    method Restore(user: UserId, ids: set<CommitmentId>) returns (result: Result, restored: nat)
      modifies repo
      ensures repo.View() == Commitments.Restore(old(repo.View()), user, ids)
      ensures restored == if result.Done? then |set id | id in ids && InTrash(old(repo.View()), user, id)| else 0
      ensures result == if RestoreRefused(old(repo.View()), user, ids) then Refused(RestoreLimitReached) else Done
    {
      var allowed := GuardRestore(user, ids);
      if !allowed {
        return Refused(RestoreLimitReached), 0;
      }
      var db := repo.View();
      repo.commitments := map id | id in db.commitments ::
        if id in ids && InTrash(db, user, id) then db.commitments[id].(deletedAt := None) else db.commitments[id];
      result, restored := Done, |set id | id in ids && InTrash(db, user, id)|;
    }

    method PurgeNow(user: UserId, t: Option<CommitmentType>) returns (purged: nat)
      modifies repo
      ensures repo.View() == Commitments.PurgeNow(old(repo.View()), user, t)
      ensures purged == |old(repo.commitments)| - |repo.commitments|
    {
      purged := repo.DropAll(Trash(repo.View(), user, t));
    }
  }

  ghost function Stamped(db: Db, ids: set<CommitmentId>, at: Instant): map<CommitmentId, Commitment> {
    map id | id in db.commitments :: if id in ids then db.commitments[id].(deletedAt := Some(at)) else db.commitments[id]
  }

  lemma NoEntrants(db: Db, user: UserId, ids: set<CommitmentId>, seen: set<CommitmentId>)
    requires seen == {}
    ensures forall t :: |Entrants(db, user, ids * seen, t)| == 0
  {
  }

  lemma AllEntrants(db: Db, user: UserId, ids: set<CommitmentId>, seen: set<CommitmentId>)
    requires forall id :: id in seen <==> InTrash(db, user, id)
    ensures forall t :: Entrants(db, user, ids * seen, t) == Entrants(db, user, ids, t)
  {
  }

  lemma EntrantsOneMore(db: Db, user: UserId, ids: set<CommitmentId>, seen: set<CommitmentId>, id: CommitmentId)
    requires id !in seen && InTrash(db, user, id)
    ensures forall t :: |Entrants(db, user, ids * (seen + {id}), t)| ==
                        |Entrants(db, user, ids * seen, t)|
                        + if id in ids && db.commitments[id].Counted() && db.commitments[id].commitmentType == t then 1 else 0
  {
    forall t
      ensures |Entrants(db, user, ids * (seen + {id}), t)| ==
              |Entrants(db, user, ids * seen, t)|
              + if id in ids && db.commitments[id].Counted() && db.commitments[id].commitmentType == t then 1 else 0
    {
      var was, now := Entrants(db, user, ids * seen, t), Entrants(db, user, ids * (seen + {id}), t);
      if id in ids && db.commitments[id].Counted() && db.commitments[id].commitmentType == t {
        assert now == was + {id};
      } else {
        assert now == was;
      }
    }
  }
}
