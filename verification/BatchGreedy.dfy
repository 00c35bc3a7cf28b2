/** The batch change of status grants the free places in the order of the request. */
module BatchGreedy {
  import opened Calendar
  import opened Ceiling
  import opened Commitments
  import opened Records

  /** An archived line of a type: bringing it back takes a place. */
  predicate TakesPlace(db: Db, user: UserId, id: CommitmentId, t: CommitmentType) {
    Owned(db, user, id) && db.commitments[id].status.Archived? && db.commitments[id].commitmentType == t
  }

  /** The archived lines of a type in the order they are first named. */
  function Candidates(db: Db, user: UserId, ids: seq<CommitmentId>, t: CommitmentType): seq<CommitmentId> {
    if ids == [] then []
    else
      var front, last := Candidates(db, user, ids[..|ids| - 1], t), ids[|ids| - 1];
      if TakesPlace(db, user, last, t) && last !in front then front + [last] else front
  }

  function Room(db: Db, user: UserId, t: CommitmentType): nat {
    if Full(db, user, t) then 0 else MAX_COMMITMENTS_PER_TYPE - Count(db, user, t)
  }

  function Take<T>(s: seq<T>, n: nat): seq<T> {
    if |s| <= n then s else s[..n]
  }

  /** The first candidates of a type, as many as there are places. */
  function Granted(db: Db, user: UserId, ids: seq<CommitmentId>, t: CommitmentType): seq<CommitmentId> {
    Take(Candidates(db, user, ids, t), Room(db, user, t))
  }

  /** Among `changed`, the lines of a type that were archived. */
  function BroughtBack(db: Db, user: UserId, changed: seq<CommitmentId>, t: CommitmentType): seq<CommitmentId> {
    if changed == [] then []
    else
      var front, last := BroughtBack(db, user, changed[..|changed| - 1], t), changed[|changed| - 1];
      if TakesPlace(db, user, last, t) then front + [last] else front
  }

  /** The lines as the batch leaves them. */
  ghost predicate OnlyStatuses(db: Db, b: Batch, status: CommitmentStatus) {
    && b.db.commitments.Keys == db.commitments.Keys
    && forall id :: id in db.commitments ==>
         b.db.commitments[id] == if id in b.changed then db.commitments[id].(status := status) else db.commitments[id]
  }

  /** A line already counted, named with another status: it is changed, not blocked. */
  predicate Moves(db: Db, user: UserId, id: CommitmentId, status: CommitmentStatus) {
    Owned(db, user, id) && db.commitments[id].status != status && !db.commitments[id].status.Archived?
  }

  ghost predicate GreedyFor(db: Db, user: UserId, ids: seq<CommitmentId>, b: Batch, t: CommitmentType) {
    && BroughtBack(db, user, b.changed, t) == Granted(db, user, ids, t)
    && (forall id :: TakesPlace(db, user, id, t) ==>
          (id in b.changed <==> id in Granted(db, user, ids, t)) &&
          (id in b.blocked <==> id in Candidates(db, user, ids, t) && id !in Granted(db, user, ids, t)))
    && Count(b.db, user, t) == Count(db, user, t) + |Granted(db, user, ids, t)|
  }

  /** Only lines that could move or come back were changed, only the latter blocked. */
  ghost predicate KnownLines(db: Db, user: UserId, status: CommitmentStatus, b: Batch) {
    && (forall id :: id in b.changed ==> id in db.commitments)
    && (forall id :: id in b.changed ==>
          Moves(db, user, id, status) || TakesPlace(db, user, id, db.commitments[id].commitmentType))
    && (forall id :: id in b.blocked ==>
          id in db.commitments && TakesPlace(db, user, id, db.commitments[id].commitmentType))
  }

  ghost predicate Lines(db: Db, user: UserId, ids: seq<CommitmentId>, status: CommitmentStatus, b: Batch) {
    && OnlyStatuses(db, b, status)
    && KnownLines(db, user, status, b)
    && (forall id :: Moves(db, user, id, status) ==> (id in b.changed <==> id in ids))
  }

  ghost predicate Greedy(db: Db, user: UserId, ids: seq<CommitmentId>, status: CommitmentStatus, b: Batch) {
    Lines(db, user, ids, status, b) && forall t :: GreedyFor(db, user, ids, b, t)
  }

  lemma ChangedLine(b: Batch, user: UserId, id: CommitmentId, status: CommitmentStatus, today: Day)
    requires b.db.Sound() && Owned(b.db, user, id) && RefusalOf(b.db, user, id, StatusOnly(status)).Done?
    ensures Update(b.db, user, id, StatusOnly(status), today).commitments ==
            b.db.commitments[id := b.db.commitments[id].(status := status)]
  {
  }

  // Who is refused: an archived line of a full type, brought back.
  lemma WhoIsRefused(d: Db, user: UserId, id: CommitmentId, status: CommitmentStatus)
    requires d.Sound() && Owned(d, user, id) && !status.Archived? && d.commitments[id].status != status
    ensures RefusalOf(d, user, id, StatusOnly(status)).Refused? <==>
            d.commitments[id].status.Archived? && Full(d, user, d.commitments[id].commitmentType)
  {
    StatusRefusals(d, user, id, status);
  }

  lemma CountAfter(d: Db, e: Db, user: UserId, id: CommitmentId, status: CommitmentStatus, t: CommitmentType)
    requires Owned(d, user, id) && !status.Archived?
    requires e.commitments == d.commitments[id := d.commitments[id].(status := status)]
    ensures Count(e, user, t) == Count(d, user, t) + if TakesPlace(d, user, id, t) then 1 else 0
  {
    if TakesPlace(d, user, id, t) {
      assert CountedIds(e, user, t) == CountedIds(d, user, t) + {id};
    } else {
      assert CountedIds(e, user, t) == CountedIds(d, user, t);
    }
  }

  lemma {:induction false} CandidatesAre(db: Db, user: UserId, ids: seq<CommitmentId>, t: CommitmentType)
    ensures forall id :: id in Candidates(db, user, ids, t) <==> id in ids && TakesPlace(db, user, id, t)
  {
    if ids != [] {
      CandidatesAre(db, user, ids[..|ids| - 1], t);
      assert ids == ids[..|ids| - 1] + [ids[|ids| - 1]];
    }
  }

  // ----- one more identifier -----

  /** What is known of the next identifier before it is handled. */
  lemma Before(db: Db, user: UserId, ids: seq<CommitmentId>, status: CommitmentStatus, b: Batch, id: CommitmentId)
    requires !status.Archived? && Greedy(db, user, ids, status, b)
    ensures Owned(b.db, user, id) <==> Owned(db, user, id)
    ensures Owned(db, user, id) && id !in b.changed ==> b.db.commitments[id] == db.commitments[id]
    ensures Owned(db, user, id) && id in b.changed ==> b.db.commitments[id].status == status
  {
  }

  lemma SameCandidates(db: Db, user: UserId, ids: seq<CommitmentId>, id: CommitmentId, t: CommitmentType)
    requires TakesPlace(db, user, id, t) ==> id in Candidates(db, user, ids, t)
    ensures Candidates(db, user, ids + [id], t) == Candidates(db, user, ids, t)
  {
    assert (ids + [id])[..|ids|] == ids;
  }

  lemma OneMoreCandidate(db: Db, user: UserId, ids: seq<CommitmentId>, id: CommitmentId, t: CommitmentType)
    requires TakesPlace(db, user, id, t) && id !in Candidates(db, user, ids, t)
    ensures Candidates(db, user, ids + [id], t) == Candidates(db, user, ids, t) + [id]
  {
    assert (ids + [id])[..|ids|] == ids;
  }

  lemma SkippedFor(db: Db, user: UserId, ids: seq<CommitmentId>, id: CommitmentId, status: CommitmentStatus, b: Batch, t: CommitmentType)
    requires !status.Archived? && Greedy(db, user, ids, status, b)
    requires !Owned(b.db, user, id) || b.db.commitments[id].status == status
    ensures GreedyFor(db, user, ids + [id], b, t)
  {
    assert GreedyFor(db, user, ids, b, t);
    Before(db, user, ids, status, b, id);
    assert TakesPlace(db, user, id, t) ==> id in Candidates(db, user, ids, t);
    SameCandidates(db, user, ids, id, t);
    hide Candidates, BroughtBack, TakesPlace;
  }

  lemma BlockedFor(db: Db, user: UserId, ids: seq<CommitmentId>, id: CommitmentId, b: Batch, t: CommitmentType)
    requires GreedyFor(db, user, ids, b, t) && id !in b.changed
    requires TakesPlace(db, user, id, t) ==> Full(b.db, user, t)
    requires forall id :: id in Candidates(db, user, ids, t) <==> id in ids && TakesPlace(db, user, id, t)
    ensures GreedyFor(db, user, ids + [id], b.(blocked := b.blocked + [id]), t)
  {
    if TakesPlace(db, user, id, t) && id !in Candidates(db, user, ids, t) {
      OneMoreCandidate(db, user, ids, id, t);
      hide Candidates, BroughtBack, TakesPlace, Count;
      var all := Candidates(db, user, ids, t);
      assert Room(db, user, t) <= |all|;
      assert Take(all + [id], Room(db, user, t)) == Take(all, Room(db, user, t));
    } else {
      SameCandidates(db, user, ids, id, t);
      hide Candidates, BroughtBack, TakesPlace, Count;
    }
  }

  lemma ChangedFor(db: Db, user: UserId, ids: seq<CommitmentId>, id: CommitmentId, b: Batch, r: Batch, t: CommitmentType)
    requires GreedyFor(db, user, ids, b, t) && id !in b.changed
    requires r.changed == b.changed + [id] && r.blocked == b.blocked
    requires TakesPlace(db, user, id, t) ==> !Full(b.db, user, t)
    requires Count(r.db, user, t) == Count(b.db, user, t) + if TakesPlace(db, user, id, t) then 1 else 0
    requires forall id :: id in Candidates(db, user, ids, t) <==> id in ids && TakesPlace(db, user, id, t)
    ensures GreedyFor(db, user, ids + [id], r, t)
  {
    hide Candidates, BroughtBack, TakesPlace, Count, Full, Granted;
    OneMoreBack(db, user, b.changed, id, t);
    if TakesPlace(db, user, id, t) {
      PlaceGranted(db, user, ids, id, b, t);
    } else {
      SameGranted(db, user, ids, id, t);
    }
  }

  lemma SameGranted(db: Db, user: UserId, ids: seq<CommitmentId>, id: CommitmentId, t: CommitmentType)
    requires !TakesPlace(db, user, id, t)
    ensures Candidates(db, user, ids + [id], t) == Candidates(db, user, ids, t)
    ensures Granted(db, user, ids + [id], t) == Granted(db, user, ids, t)
  {
    SameCandidates(db, user, ids, id, t);
  }

  lemma OneMoreBack(db: Db, user: UserId, changed: seq<CommitmentId>, id: CommitmentId, t: CommitmentType)
    ensures BroughtBack(db, user, changed + [id], t) ==
            BroughtBack(db, user, changed, t) + if TakesPlace(db, user, id, t) then [id] else []
  {
    assert (changed + [id])[..|changed|] == changed;
  }

  lemma PlaceGranted(db: Db, user: UserId, ids: seq<CommitmentId>, id: CommitmentId, b: Batch, t: CommitmentType)
    requires GreedyFor(db, user, ids, b, t) && id !in b.changed && TakesPlace(db, user, id, t) && !Full(b.db, user, t)
    ensures Granted(db, user, ids, t) == Candidates(db, user, ids, t)
    ensures Candidates(db, user, ids + [id], t) == Candidates(db, user, ids, t) + [id]
    ensures Granted(db, user, ids + [id], t) == Granted(db, user, ids, t) + [id]
  {
    hide Candidates, BroughtBack, TakesPlace, Count;
    OneMoreCandidate(db, user, ids, id, t);
  }

  lemma OneMoreFor(db: Db, user: UserId, ids: seq<CommitmentId>, id: CommitmentId, status: CommitmentStatus, b: Batch, today: Day, t: CommitmentType)
    requires db.Sound() && b.db.Sound() && !status.Archived? && Greedy(db, user, ids, status, b)
    ensures GreedyFor(db, user, ids + [id], OneOfBatch(b, user, id, status, today), t)
  {
    hide GreedyFor, Candidates, BroughtBack, Db.Sound, Count;
    assert GreedyFor(db, user, ids, b, t);
    Before(db, user, ids, status, b, id);
    CandidatesAre(db, user, ids, t);
    var r := OneOfBatch(b, user, id, status, today);
    if !Owned(b.db, user, id) || b.db.commitments[id].status == status {
      SkippedFor(db, user, ids, id, status, b, t);
    } else {
      WhoIsRefused(b.db, user, id, status);
      if RefusalOf(b.db, user, id, StatusOnly(status)).Refused? {
        BlockedFor(db, user, ids, id, b, t);
      } else {
        ChangedLine(b, user, id, status, today);
        CountAfter(b.db, r.db, user, id, status, t);
        ChangedFor(db, user, ids, id, b, r, t);
      }
    }
  }

  lemma BlockedLine(db: Db, user: UserId, ids: seq<CommitmentId>, id: CommitmentId, status: CommitmentStatus, b: Batch)
    requires Greedy(db, user, ids, status, b) && id in db.commitments
    requires TakesPlace(db, user, id, db.commitments[id].commitmentType)
    ensures Lines(db, user, ids + [id], status, b.(blocked := b.blocked + [id]))
  {
    hide GreedyFor;
  }

  lemma ChangedLines(db: Db, user: UserId, ids: seq<CommitmentId>, id: CommitmentId, status: CommitmentStatus, b: Batch, r: Batch)
    requires Greedy(db, user, ids, status, b) && id in db.commitments && id !in b.changed
    requires Moves(db, user, id, status) || TakesPlace(db, user, id, db.commitments[id].commitmentType)
    requires r.changed == b.changed + [id] && r.blocked == b.blocked
    requires r.db.commitments == b.db.commitments[id := db.commitments[id].(status := status)]
    ensures Lines(db, user, ids + [id], status, r)
  {
    hide GreedyFor, TakesPlace, Moves;
  }

  lemma OneMoreLines(db: Db, user: UserId, ids: seq<CommitmentId>, id: CommitmentId, status: CommitmentStatus, b: Batch, today: Day)
    requires db.Sound() && b.db.Sound() && !status.Archived? && Greedy(db, user, ids, status, b)
    ensures Lines(db, user, ids + [id], status, OneOfBatch(b, user, id, status, today))
  {
    hide GreedyFor, Db.Sound, Full, Count, OnlyStatuses, KnownLines;
    Before(db, user, ids, status, b, id);
    if Owned(b.db, user, id) && b.db.commitments[id].status != status {
      WhoIsRefused(b.db, user, id, status);
      if RefusalOf(b.db, user, id, StatusOnly(status)).Done? {
        ChangedLine(b, user, id, status, today);
        ChangedLines(db, user, ids, id, status, b, OneOfBatch(b, user, id, status, today));
      } else {
        BlockedLine(db, user, ids, id, status, b);
      }
    }
  }

  lemma {:induction false} EveryPrefixIsGreedy(db: Db, user: UserId, ids: seq<CommitmentId>, status: CommitmentStatus, today: Day)
    requires db.Sound() && !status.Archived?
    ensures Greedy(db, user, ids, status, SetStatusMany(db, user, ids, status, today))
  {
    if ids == [] {
      assert forall t :: GreedyFor(db, user, ids, Batch(db, [], []), t);
    } else {
      hide GreedyFor, Lines, Db.Sound, OneOfBatch;
      var front, id := ids[..|ids| - 1], ids[|ids| - 1];
      assert ids == front + [id];
      EveryPrefixIsGreedy(db, user, front, status, today);
      var b := SetStatusMany(db, user, front, status, today);
      OneMoreLines(db, user, front, id, status, b, today);
      forall t
        ensures GreedyFor(db, user, ids, OneOfBatch(b, user, id, status, today), t)
      {
        OneMoreFor(db, user, front, id, status, b, today, t);
      }
    }
  }

  // ----- main results -----

  /** Asked to make lines active or paused, the batch brings back the first archived
      lines of each type as named, as many as there were free places, and blocks the
      others; it changes every line already counted and blocks none of those; it passes
      over lines of other accounts and lines already in the status; no line is both
      changed and blocked, however often it was named; and the changed lines take the
      status and nothing else. */
  lemma BatchIsGreedy(db: Db, user: UserId, ids: seq<CommitmentId>, status: CommitmentStatus, today: Day)
    requires db.Sound() && !status.Archived?
    ensures var b := SetStatusMany(db, user, ids, status, today);
            && (forall t :: BroughtBack(db, user, b.changed, t) == Granted(db, user, ids, t))
            && (forall id, t :: TakesPlace(db, user, id, t) ==>
                  (id in b.blocked <==> id in ids && id !in Granted(db, user, ids, t)))
            && (forall id :: Moves(db, user, id, status) ==> (id in b.changed <==> id in ids) && id !in b.blocked)
            && (forall id :: !Owned(db, user, id) || db.commitments[id].status == status ==>
                  id !in b.changed && id !in b.blocked)
            && (forall id :: !(id in b.changed && id in b.blocked))
            && OnlyStatuses(db, b, status)
  {
    var b := SetStatusMany(db, user, ids, status, today);
    EveryPrefixIsGreedy(db, user, ids, status, today);
    GreedyIgnores(db, user, ids, status, b);
    hide Greedy, SetStatusMany, BroughtBack, Granted, TakesPlace, Moves, OnlyStatuses, Db.Sound;
    forall t
      ensures BroughtBack(db, user, b.changed, t) == Granted(db, user, ids, t)
    {
      GreedyOrder(db, user, ids, status, b, t);
    }
    forall id, t | TakesPlace(db, user, id, t)
      ensures id in b.blocked <==> id in ids && id !in Granted(db, user, ids, t)
    {
      GreedyLine(db, user, ids, status, b, id, t);
    }
    forall id
      ensures Moves(db, user, id, status) ==> (id in b.changed <==> id in ids) && id !in b.blocked
      ensures !(id in b.changed && id in b.blocked)
    {
      GreedyMove(db, user, ids, status, b, id);
    }
  }

  lemma GreedyIgnores(db: Db, user: UserId, ids: seq<CommitmentId>, status: CommitmentStatus, b: Batch)
    requires Greedy(db, user, ids, status, b) && !status.Archived?
    ensures forall id :: !Owned(db, user, id) || db.commitments[id].status == status ==> id !in b.changed && id !in b.blocked
    ensures OnlyStatuses(db, b, status)
  {
    hide GreedyFor;
  }

  lemma GreedyOrder(db: Db, user: UserId, ids: seq<CommitmentId>, status: CommitmentStatus, b: Batch, t: CommitmentType)
    requires Greedy(db, user, ids, status, b)
    ensures BroughtBack(db, user, b.changed, t) == Granted(db, user, ids, t)
  {
    assert GreedyFor(db, user, ids, b, t);
  }

  lemma GreedyLine(db: Db, user: UserId, ids: seq<CommitmentId>, status: CommitmentStatus, b: Batch, id: CommitmentId, t: CommitmentType)
    requires Greedy(db, user, ids, status, b) && TakesPlace(db, user, id, t)
    ensures id in b.blocked <==> id in ids && id !in Granted(db, user, ids, t)
    ensures id in b.changed <==> id in Granted(db, user, ids, t)
  {
    hide OnlyStatuses, KnownLines, BroughtBack, Granted;
    assert GreedyFor(db, user, ids, b, t);
    CandidatesAre(db, user, ids, t);
  }

  lemma GreedyMove(db: Db, user: UserId, ids: seq<CommitmentId>, status: CommitmentStatus, b: Batch, id: CommitmentId)
    requires Greedy(db, user, ids, status, b)
    ensures Moves(db, user, id, status) ==> (id in b.changed <==> id in ids) && id !in b.blocked
    ensures !(id in b.changed && id in b.blocked)
  {
    hide OnlyStatuses, GreedyFor;
    if id in b.blocked {
      GreedyLine(db, user, ids, status, b, id, db.commitments[id].commitmentType);
    }
  }

  /** Archiving blocks nothing, and changes every line named that was not archived. */
  lemma {:induction false} ArchivingNeverBlocks(db: Db, user: UserId, ids: seq<CommitmentId>, today: Day)
    requires db.Sound()
    ensures var b := SetStatusMany(db, user, ids, Archived, today);
            && b.blocked == [] && OnlyStatuses(db, b, Archived)
            && forall id :: id in b.changed <==> id in ids && Moves(db, user, id, Archived)
  {
    if ids != [] {
      var front, id := ids[..|ids| - 1], ids[|ids| - 1];
      assert ids == front + [id];
      ArchivingNeverBlocks(db, user, front, today);
      ArchivingOneMore(db, user, front, id, SetStatusMany(db, user, front, Archived, today), today);
      hide OneOfBatch, Moves, OnlyStatuses, Db.Sound;
    }
  }

  lemma ArchivingOneMore(db: Db, user: UserId, ids: seq<CommitmentId>, id: CommitmentId, b: Batch, today: Day)
    requires b.db.Sound() && b.blocked == [] && OnlyStatuses(db, b, Archived)
    requires forall x :: x in b.changed <==> x in ids && Moves(db, user, x, Archived)
    ensures var r := OneOfBatch(b, user, id, Archived, today);
            && r.blocked == [] && OnlyStatuses(db, r, Archived)
            && forall x :: x in r.changed <==> x in ids + [id] && Moves(db, user, x, Archived)
  {
    hide Update, Db.Sound;
    if Owned(b.db, user, id) && b.db.commitments[id].status != Archived {
      NeverRefused(b.db, user, id);
      ChangedLine(b, user, id, Archived, today);
    }
  }

  lemma NeverRefused(d: Db, user: UserId, id: CommitmentId)
    requires d.Sound() && Owned(d, user, id)
    ensures RefusalOf(d, user, id, StatusOnly(Archived)).Done?
  {
    StatusRefusals(d, user, id, Archived);
  }
}

/** What the batch does to the occurrence table. */
module BatchRows {
  import opened BatchGreedy
  import opened Calendar
  import opened Ceiling
  import opened Commitments
  import opened Occurrences
  import opened Records

  /** The dates of a line after the batch. One that was not changed has its own; one that
      was keeps the settled and the past ones and, if it is active now, has those its rule
      falls on. */
  ghost predicate DatesAre(db: Db, after: Db, id: CommitmentId, changed: bool, status: CommitmentStatus, today: Day)
    requires id in db.commitments
  {
    forall d ::
      && (Key(id, d) in after.rows <==>
          if changed then
            Kept(db, Key(id, d), id, today) || (status == Active && Falls(db.commitments[id].rule, today, d))
          else Key(id, d) in db.rows)
      && (Key(id, d) in db.rows && (changed ==> Kept(db, Key(id, d), id, today)) ==> after.rows[Key(id, d)] == db.rows[Key(id, d)])
  }

  lemma Statuses(db: Db, user: UserId, ids: seq<CommitmentId>, status: CommitmentStatus, today: Day)
    requires db.Sound()
    ensures OnlyStatuses(db, SetStatusMany(db, user, ids, status, today), status)
  {
    if status.Archived? {
      ArchivingNeverBlocks(db, user, ids, today);
    } else {
      BatchIsGreedy(db, user, ids, status, today);
    }
  }

  /** Archived lines lose their open dates from that day on, lines made active are given
      their window, and no other line's dates change. */
  lemma {:induction false} BatchDates(db: Db, user: UserId, ids: seq<CommitmentId>, status: CommitmentStatus, today: Day, id: CommitmentId)
    requires db.Sound() && id in db.commitments
    ensures var b := SetStatusMany(db, user, ids, status, today);
            DatesAre(db, b.db, id, id in b.changed, status, today)
  {
    if ids != [] {
      hide DatesAre, Db.Sound, OnlyStatuses, OneOfBatch;
      var front, last := ids[..|ids| - 1], ids[|ids| - 1];
      var b := SetStatusMany(db, user, front, status, today);
      BatchDates(db, user, front, status, today, id);
      Statuses(db, user, front, status, today);
      OneMoreDates(db, b, user, last, status, today, id);
    } else {
      hide Db.Sound, Falls;
    }
  }

  lemma OneMoreDates(db: Db, b: Batch, user: UserId, last: CommitmentId, status: CommitmentStatus, today: Day, id: CommitmentId)
    requires db.Sound() && b.db.Sound() && OnlyStatuses(db, b, status) && id in db.commitments
    requires DatesAre(db, b.db, id, id in b.changed, status, today)
    ensures var r := OneOfBatch(b, user, last, status, today);
            DatesAre(db, r.db, id, id in r.changed, status, today)
  {
    hide DatesAre, Update, Db.Sound, Count;
    if Owned(b.db, user, last) && b.db.commitments[last].status != status
       && RefusalOf(b.db, user, last, StatusOnly(status)).Done? {
      hide RefusalOf;
      var after := Update(b.db, user, last, StatusOnly(status), today);
      if last == id {
        assert id !in b.changed && b.db.commitments[id] == db.commitments[id];
        ChangedDates(db, b.db, after, user, id, status, today);
      } else {
        OtherDates(db, b.db, after, user, last, status, today, id, id in b.changed);
      }
    }
  }

  lemma ChangedDates(db: Db, before: Db, after: Db, user: UserId, id: CommitmentId, status: CommitmentStatus, today: Day)
    requires before.Sound() && id in db.commitments && id in before.commitments && before.commitments[id] == db.commitments[id]
    requires DatesAre(db, before, id, false, status, today)
    requires RefusalOf(before, user, id, StatusOnly(status)).Done?
    requires after == Update(before, user, id, StatusOnly(status), today)
    ensures DatesAre(db, after, id, true, status, today)
  {
    hide Update, RefusalOf, Db.Sound, Falls, Window;
    UpdatedLine(before, user, id, StatusOnly(status), today);
    KeepsRows(before, user, id, status, today);
    assert forall d :: Kept(before, Key(id, d), id, today) <==> Kept(db, Key(id, d), id, today);
  }

  lemma KeepsRows(before: Db, user: UserId, id: CommitmentId, status: CommitmentStatus, today: Day)
    requires before.Sound() && id in before.commitments && RefusalOf(before, user, id, StatusOnly(status)).Done?
    ensures var after := Update(before, user, id, StatusOnly(status), today);
            forall k :: Kept(before, k, id, today) ==> k in after.rows && after.rows[k] == before.rows[k]
  {
    hide Update, RefusalOf, Db.Sound, Window;
    UpdateEffects(before, user, id, StatusOnly(status), today);
    var edited := SetCommitment(before, id, Applied(before.commitments[id], StatusOnly(status)));
    assert forall k :: Kept(before, k, id, today) <==> Kept(edited, k, id, today);
  }

  lemma OtherDates(db: Db, before: Db, after: Db, user: UserId, last: CommitmentId, status: CommitmentStatus, today: Day,
                   id: CommitmentId, changed: bool)
    requires before.Sound() && last in before.commitments && id in db.commitments && id != last
    requires DatesAre(db, before, id, changed, status, today)
    requires RefusalOf(before, user, last, StatusOnly(status)).Done?
    requires after == Update(before, user, last, StatusOnly(status), today)
    ensures DatesAre(db, after, id, changed, status, today)
  {
    OtherRows(before, user, last, status, today);
    hide Update, RefusalOf, Db.Sound, Falls, Kept;
  }

  lemma OtherRows(before: Db, user: UserId, last: CommitmentId, status: CommitmentStatus, today: Day)
    requires before.Sound() && last in before.commitments && RefusalOf(before, user, last, StatusOnly(status)).Done?
    ensures var after := Update(before, user, last, StatusOnly(status), today);
            && (forall k: Key :: k.commitment != last ==> (k in after.rows <==> k in before.rows))
            && (forall k: Key :: k.commitment != last && k in before.rows ==> after.rows[k] == before.rows[k])
  {
    hide RefusalOf, Window;
    var edited := SetCommitment(before, last, Applied(before.commitments[last], StatusOnly(status)));
    AppliedIsValid(before, user, last, StatusOnly(status));
    RescheduleIsExact(edited, last, today);
    hide Resync, Db.Sound;
  }
}
