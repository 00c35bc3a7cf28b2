/** A pass whose deliveries fail is made up for by the next clean one. */
module Recovery {
  import opened ActionWindows
  import opened Records
  import opened Reminders

  function Passes(db: Db, passes: seq<Pass>): Db
    decreases |passes|
  {
    if passes == [] then db else SendDue(Passes(db, passes[..|passes| - 1]), passes[|passes| - 1])
  }

  /** After any number of passes at one instant, whatever deliveries failed in each,
      a clean pass leaves exactly the log a single clean pass would have left,
      including the notices closed by trial actions. */
  lemma {:induction false} CleanPassRecovers(db: Db, passes: seq<Pass>, clean: Pass)
    requires db.Sound() && clean.failing == {}
    requires forall p :: p in passes ==> p.(failing := {}) == clean
    ensures SendDue(Passes(db, passes), clean) == SendDue(db, clean)
    decreases |passes|
  {
    hide SendDue;
    if passes != [] {
      var front, last := passes[..|passes| - 1], passes[|passes| - 1];
      assert last in passes;
      CleanPassRecovers(db, front, clean);
      PassesOnlyLog(db, front);
      OneFailedPass(Passes(db, front), last, clean);
    }
  }

  lemma {:induction false} PassesOnlyLog(db: Db, passes: seq<Pass>)
    requires db.Sound()
    ensures Passes(db, passes) == db.(log := Passes(db, passes).log) && Passes(db, passes).Sound()
    decreases |passes|
  {
    if passes != [] {
      PassesOnlyLog(db, passes[..|passes| - 1]);
      LogStaysSound(Passes(db, passes[..|passes| - 1]), passes[|passes| - 1]);
    }
  }

  lemma LogStaysSound(db: Db, p: Pass)
    requires db.Sound()
    ensures SendDue(db, p) == db.(log := SendDue(db, p).log) && SendDue(db, p).Sound()
  {
    forall m | m in SendDue(db, p).log
      ensures m.row < db.nextRow
    {
      AfterPass(db, p, m);
    }
    assert SendDue(db, p) == db.(log := SendDue(db, p).log) by {
      hide Stamps, Delivered;
    }
  }

  lemma OneFailedPass(db: Db, failed: Pass, clean: Pass)
    requires db.Sound() && clean == failed.(failing := {})
    ensures SendDue(SendDue(db, failed), clean) == SendDue(db, clean)
  {
    hide SendDue, PassWrites;
    var after := SendDue(db, failed);
    LogStaysSound(db, failed);
    LogStaysSound(db, clean);
    LogStaysSound(after, clean);
    forall m
      ensures m in SendDue(after, clean).log <==> m in SendDue(db, clean).log
    {
      AfterPass(db, failed, m);
      AfterPass(after, clean, m);
      AfterPass(db, clean, m);
      if PassWrites(db, clean, m) && m !in after.log {
        NothingLost(db, failed, clean, m);
      }
      if PassWrites(db, failed, m) || PassWrites(after, clean, m) {
        NothingAdded(db, failed, clean, m);
      }
    }
  }

  lemma FewerFailures(db: Db, failed: Pass, k: Key, kind: Kind, channel: Channel)
    requires k in Delivered(db, failed, kind, channel)
    ensures k in Delivered(db, failed.(failing := {}), kind, channel)
  {
  }

  // Where a trial action was logged, its notice was closed with it.
  lemma ActionLineBringsNotice(db: Db, p: Pass, k: Key, channel: Channel)
    requires db.Sound() && k in db.rows && TrialAction(db, k, p.Reference())
    requires var action := Mark(db.rows[k].id, ActionRequired, channel);
             action !in db.log && PassWrites(db, p, action)
    ensures PassWrites(db, p, Mark(db.rows[k].id, Notice, channel))
  {
    hide Sendable, ActionWindowOf;
    var action := Mark(db.rows[k].id, ActionRequired, channel);
    var j, kind :| Writes(db, p, j, action, kind, channel);
    assert Writes(db, p, k, Mark(db.rows[k].id, Notice, channel), kind, channel);
  }

  lemma NothingLost(db: Db, failed: Pass, clean: Pass, m: Mark)
    requires db.Sound() && clean == failed.(failing := {})
    requires PassWrites(db, clean, m) && m !in SendDue(db, failed).log
    ensures PassWrites(SendDue(db, failed), clean, m)
  {
    hide SendDue, Sendable, ActionWindowOf;
    var after := SendDue(db, failed);
    LogStaysSound(db, failed);
    var k, kind :| Writes(db, clean, k, m, kind, m.channel);
    var own := Mark(db.rows[k].id, kind, m.channel);
    AfterPass(db, failed, own);
    AfterPass(db, failed, m);
    DeliveredIsOpen(db, clean, k, kind, m.channel);
    if own in after.log {
      ActionLineBringsNotice(db, failed, k, m.channel);
    } else {
      OwnLineDecides(db, after, clean, k, kind, m.channel);
      assert Writes(after, clean, k, m, kind, m.channel);
    }
  }

  lemma NothingAdded(db: Db, failed: Pass, clean: Pass, m: Mark)
    requires db.Sound() && clean == failed.(failing := {})
    requires PassWrites(db, failed, m) || PassWrites(SendDue(db, failed), clean, m)
    ensures PassWrites(db, clean, m)
  {
    hide SendDue, Sendable, ActionWindowOf;
    var after := SendDue(db, failed);
    LogStaysSound(db, failed);
    if PassWrites(db, failed, m) {
      var k, kind :| Writes(db, failed, k, m, kind, m.channel);
      FewerFailures(db, failed, k, kind, m.channel);
      assert Writes(db, clean, k, m, kind, m.channel);
    } else {
      var k, kind :| Writes(after, clean, k, m, kind, m.channel);
      AfterPass(db, failed, Mark(db.rows[k].id, kind, m.channel));
      DeliveredIsOpen(after, clean, k, kind, m.channel);
      OwnLineDecides(db, after, clean, k, kind, m.channel);
      assert Writes(db, clean, k, m, kind, m.channel);
    }
  }
}
