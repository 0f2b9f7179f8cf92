/** A crash inside an update is healed by delivering the update again. */
module IndexerCrash {
  import opened Options
  import opened IndexerModel
  import opened IndexerForks

  /** The tables a crash can leave behind: before the update, between its two transactions, or between two events. */
  ghost predicate CrashPoint(db: Db, u: Update, mid: Db) {
    match u
    case SlotNotice(slot, parent, status) => mid == db || mid == UpsertSlot(db, slot, parent, status).db
    case AccountNotice(_, _, _, _) => mid == db
    case EventNotice(events) =>
      exists i :: 0 <= i <= |events| && InsertEvents(db, events[..i]).ok && mid == InsertEvents(db, events[..i]).db
  }

  // ---- Slots ----

  lemma NoticeAgain(db: Db, slot: nat, parent: Option<nat>)
    requires UpsertSlot(db, slot, parent, Finalized).ok
    ensures var up := UpsertSlot(db, slot, parent, Finalized).db; UpsertSlot(up, slot, parent, Finalized) == Outcome(up, true)
  {
    FinalizedUpsert(db, slot, parent);
    PutSlotFrame(db, slot, parent, Finalized);
    var up := UpsertSlot(db, slot, parent, Finalized).db;
    assert up.slots[slot] == SlotRow(Finalized, parent);
    assert up.slots[slot := up.slots[slot]] == up.slots;
  }

  lemma SingleNoticeAgain(db: Db, slot: nat, parent: Option<nat>, status: Commitment)
    requires !status.Finalized?
    ensures var up := UpsertSlot(db, slot, parent, status).db;
            UpsertSlot(up, slot, parent, status) == UpsertSlot(db, slot, parent, status)
  {
    var first := UpsertSlot(db, slot, parent, status);
    if first.ok && first.db != db {
      PutSlotFrame(db, slot, parent, status);
      var up := first.db;
      assert up.slots[slot] == SlotRow(status, up.slots[slot].parent);
      assert up.slots[slot].parent == parent;
      assert up.slots[slot := up.slots[slot]] == up.slots;
      if status.Dead? {
        CleanedTwice(db.(slots := up.slots), slot);
      }
    }
  }

  lemma CleanedTwice(db: Db, slot: nat)
    ensures CleanupDead(CleanupDead(db, slot), slot) == CleanupDead(db, slot)
  {
    var once := CleanupDead(db, slot);
    var twice := CleanupDead(once, slot);
    assert twice.raw == once.raw && twice.events == once.events && twice.staged == once.staged;
  }

  // ---- Events ----

  predicate Settles(db: Db, e: Event) {
    InsertEvent(db, e) == Outcome(db, true)
  }

  lemma {:induction false} EventsSettle(db: Db, events: seq<Event>)
    requires InsertEvents(db, events).ok
    ensures var out := InsertEvents(db, events).db;
            && out == db.(events := out.events) && db.events.Keys <= out.events.Keys
            && forall i :: 0 <= i < |events| ==> Settles(out, events[i])
    decreases |events|
  {
    if events == [] {
    } else {
      var init, last := events[..|events| - 1], events[|events| - 1];
      EventsSettle(db, init);
      var mid, out := InsertEvents(db, init).db, InsertEvents(db, events).db;
      forall i | 0 <= i < |events| ensures Settles(out, events[i]) {
        if i < |init| {
          assert Settles(mid, init[i]);
        }
      }
    }
  }

  lemma {:induction false} EventsAgain(db: Db, events: seq<Event>, i: nat, j: nat)
    requires i <= j <= |events| && InsertEvents(db, events[..i]).ok
    ensures InsertEvents(InsertEvents(db, events[..i]).db, events[..j]) == InsertEvents(db, events[..j])
    decreases j
  {
    var mid := InsertEvents(db, events[..i]).db;
    if i == j {
      EventsSettle(db, events[..i]);
      AllSettled(mid, events[..i]);
    } else {
      EventsAgain(db, events, i, j - 1);
      assert events[..j][..j - 1] == events[..j - 1];
    }
  }

  lemma {:induction false} AllSettled(db: Db, events: seq<Event>)
    requires forall i :: 0 <= i < |events| ==> Settles(db, events[i])
    ensures InsertEvents(db, events) == Outcome(db, true)
    decreases |events|
  {
    if events == [] {
    } else {
      AllSettled(db, events[..|events| - 1]);
      assert Settles(db, events[|events| - 1]);
    }
  }

  // ---- Every crash ----

  /** Delivering the update again ends exactly where it would have ended without the crash. */
  lemma CrashHeals(db: Db, u: Update, mid: Db)
    requires CrashPoint(db, u, mid)
    ensures Ingest(mid, u) == Ingest(db, u)
  {
    match u
    case SlotNotice(slot, parent, status) =>
      if mid == db {
      } else if status.Finalized? {
        NoticeAgain(db, slot, parent);
      } else {
        SingleNoticeAgain(db, slot, parent, status);
      }
    case AccountNotice(_, _, _, _) =>
    case EventNotice(events) =>
      var i :| 0 <= i <= |events| && InsertEvents(db, events[..i]).ok && mid == InsertEvents(db, events[..i]).db;
      EventsAgain(db, events, i, |events|);
      assert events[..|events|] == events;
  }

  lemma {:induction false} RunSplits(db: Db, a: seq<Update>, b: seq<Update>)
    ensures Run(db, a + b) == if Run(db, a).ok then Run(Run(db, a).db, b) else Run(db, a)
    decreases |b|
  {
    if b == [] {
      assert a + b == a;
    } else {
      var init, last := b[..|b| - 1], b[|b| - 1];
      RunSplits(db, a, init);
      assert (a + b)[..|a + b| - 1] == a + init;
    }
  }

  /** The tables, and how many updates of the stream the indexer has finished. */
  datatype Life = Life(db: Db, done: nat)

  /** One more update finished, or a crash somewhere inside it; then the same update is delivered again. */
  ghost predicate Goes(us: seq<Update>, a: Life, b: Life) {
    && a.done < |us|
    && var u := us[a.done];
    || (Ingest(a.db, u).ok && b == Life(Ingest(a.db, u).db, a.done + 1))
    || (CrashPoint(a.db, u, b.db) && b.done == a.done)
  }

  /** A life of the indexer with any number of crashes, also inside one and the same update. */
  ghost predicate IsLife(us: seq<Update>, lives: seq<Life>) {
    && |lives| > 0 && lives[0] == Life(EMPTY_DB, 0)
    && forall i :: 0 <= i < |lives| - 1 ==> Goes(us, lives[i], lives[i + 1])
  }

  /** Going on without crashes ends the same before and after a step. */
  lemma SameEnd(us: seq<Update>, a: Life, b: Life)
    requires Goes(us, a, b)
    ensures b.done <= |us| && Run(b.db, us[b.done..]) == Run(a.db, us[a.done..])
  {
    var u, rest := us[a.done], us[a.done + 1..];
    assert us[a.done..] == [u] + rest;
    RunSplits(a.db, [u], rest);
    OneUpdate(a.db, u);
    if b.done == a.done {
      CrashHeals(a.db, u, b.db);
      RunSplits(b.db, [u], rest);
      OneUpdate(b.db, u);
    }
  }

  /**
   * Whole runs: at every point of a life with any number of crashes, going on with the rest of the stream ends with
   * the tables of an undisturbed run, all invariants back; and so does a life that finishes the stream.
   */
  lemma {:induction false} CrashedRunResumes(us: seq<Update>, lives: seq<Life>, n: nat)
    requires AllFromSource(us) && IsLife(us, lives) && n < |lives|
    ensures lives[n].done <= |us| && Run(lives[n].db, us[lives[n].done..]) == Run(EMPTY_DB, us)
    ensures ForkInv(Run(lives[n].db, us[lives[n].done..]).db)
    ensures lives[n].done == |us| ==> lives[n].db == Run(EMPTY_DB, us).db && Run(EMPTY_DB, us).ok
    decreases n
  {
    RunKeeps(EMPTY_DB, us);
    if n == 0 {
      assert us[0..] == us;
    } else {
      CrashedRunResumes(us, lives, n - 1);
      SameEnd(us, lives[n - 1], lives[n]);
    }
    if lives[n].done == |us| {
      assert us[|us|..] == [];
    }
  }

  lemma OneUpdate(db: Db, u: Update)
    ensures Run(db, [u]) == Ingest(db, u)
  {
    RunSnoc(db, [], u);
    assert [] + [u] == [u];
  }
}
