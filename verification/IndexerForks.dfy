/** Fork safety: what every ingested update keeps, over whole runs of the engine. */
module IndexerForks {
  import opened Limits
  import opened Options
  import opened IndexerModel
  import Ancestry

  /** Between completed ingests: only finalized slots are public, and the checkpoint covers them. */
  ghost predicate PublicOk(db: Db) {
    forall c :: c in db.proj ==> FinalizedAt(db.slots, db.proj[c].asOf) && db.proj[c].asOf <= db.finalizedSlot
  }

  ghost predicate CheckpointOk(db: Db) {
    forall s :: s in db.slots ==>
      && (db.slots[s].status.Finalized? ==> s <= db.finalizedSlot)
      && (!db.slots[s].status.Dead? ==> s <= db.processedSlot)
  }

  ghost predicate StagedOk(db: Db) {
    forall v :: v in db.staged ==> v in db.raw && !FinalizedAt(db.slots, v.slot)
  }

  /** A raw row or event is marked finalized exactly when its slot is. */
  ghost predicate MarksOk(db: Db) {
    && (forall v :: v in db.raw ==> (db.raw[v].commitment.Finalized? <==> FinalizedAt(db.slots, v.slot)))
    && (forall k :: k in db.events ==> (db.events[k].commitment.Finalized? <==> FinalizedAt(db.slots, db.events[k].slot)))
  }

  ghost predicate ForkInv(db: Db) {
    PublicOk(db) && CheckpointOk(db) && StagedOk(db) && MarksOk(db)
  }

  /** Statuses only move up the lattice, finalized and dead are final, and a recorded parent stays. */
  ghost predicate SlotsAdvance(old': map<nat, SlotRow>, new': map<nat, SlotRow>) {
    forall s :: s in old' ==>
      && s in new' && CanUpgrade(old'[s].status, new'[s].status)
      && (old'[s].parent.Some? ==> new'[s].parent == old'[s].parent)
  }

  lemma PutSlotFrame(db: Db, slot: nat, parent: Option<nat>, status: Commitment)
    ensures var out := PutSlot(db, slot, parent, status);
            && slot in out.slots && out.slots == db.slots[slot := out.slots[slot]]
            && out.slots[slot].status == status
            && out.proj == db.proj && out.finalizedSlot == db.finalizedSlot
            && (slot in db.slots && db.slots[slot].parent.Some? ==> out.slots[slot].parent == db.slots[slot].parent)
            && (slot !in db.slots ==> out.slots[slot].parent == parent)
            && (!status.Dead? ==> out == db.(slots := out.slots, processedSlot := Max(db.processedSlot, slot)))
  {
  }

  lemma UpsertAdvances(db: Db, slot: nat, parent: Option<nat>, status: Commitment)
    ensures var o := UpsertSlot(db, slot, parent, status);
            SlotsAdvance(db.slots, o.db.slots) && o.db.proj == db.proj && o.db.finalizedSlot == db.finalizedSlot
  {
    PutSlotFrame(db, slot, parent, status);
  }

  /** Publishing touches a cell only to give it this slot's version or to remove it. */
  lemma {:induction false} PublishedRows(proj: PublicTables, rows: seq<Version>, staged: map<Version, Projection>, slot: nat, c: Cell)
    requires forall i :: 0 <= i < |rows| ==> rows[i] in staged && rows[i].slot == slot
    ensures var out := PublishAll(proj, rows, staged);
            c in out ==> out[c].asOf == slot || (c in proj && out[c] == proj[c])
    decreases |rows|
  {
    if rows == [] {
    } else {
      PublishedRows(proj, rows[..|rows| - 1], staged, slot, c);
    }
  }

  lemma DeadKeeps(db: Db, slot: nat, parent: Option<nat>)
    requires ForkInv(db) && !FinalizedAt(db.slots, slot)
    ensures ForkInv(PutSlot(db, slot, parent, Dead))
  {
    PutSlotFrame(db, slot, parent, Dead);
  }

  lemma LiveKeeps(db: Db, slot: nat, parent: Option<nat>, status: Commitment)
    requires ForkInv(db) && !FinalizedAt(db.slots, slot) && (status.Processed? || status.Confirmed?)
    ensures ForkInv(PutSlot(db, slot, parent, status))
  {
    PutSlotFrame(db, slot, parent, status);
  }

  /** A slot notice that does not finalize keeps the invariant. */
  lemma UpsertKeeps(db: Db, slot: nat, parent: Option<nat>, status: Commitment)
    requires ForkInv(db) && !status.Finalized?
    ensures ForkInv(UpsertSlot(db, slot, parent, status).db)
  {
    if !FinalizedAt(db.slots, slot) {
      if status.Dead? {
        DeadKeeps(db, slot, parent);
      } else {
        LiveKeeps(db, slot, parent, status);
      }
    }
  }

  /** The state between the two transactions of a finalized notice. */
  ghost predicate AboutToPublish(db: Db, up: Db, slot: nat) {
    && slot in up.slots && up.slots == db.slots[slot := up.slots[slot]] && up.slots[slot].status.Finalized?
    && up == db.(slots := up.slots, processedSlot := Max(db.processedSlot, slot))
  }

  /** The update finalizes a slot for the first time. */
  predicate NewlyFinalizes(db: Db, u: Update) {
    u.SlotNotice? && u.status.Finalized? && !FinalizedAt(db.slots, u.slot) && UpsertSlot(db, u.slot, u.parent, Finalized).ok
  }

  lemma FinalizedUpsert(db: Db, slot: nat, parent: Option<nat>)
    requires UpsertSlot(db, slot, parent, Finalized).ok
    ensures AboutToPublish(db, UpsertSlot(db, slot, parent, Finalized).db, slot) && slot <= I64_MAX
    ensures !DeadAt(db.slots, slot)
  {
    PutSlotFrame(db, slot, parent, Finalized);
  }

  lemma PublishKeepsPublic(db: Db, up: Db, slot: nat)
    requires PublicOk(db) && AboutToPublish(db, up, slot)
    ensures PublicOk(Publish(up, slot))
  {
    var out := Publish(up, slot);
    forall c | c in out.proj ensures FinalizedAt(out.slots, out.proj[c].asOf) && out.proj[c].asOf <= out.finalizedSlot {
      PublishedRows(up.proj, StagedRows(up.staged, slot), up.staged, slot, c);
    }
  }

  lemma PublishKeepsRest(db: Db, up: Db, slot: nat)
    requires CheckpointOk(db) && StagedOk(db) && MarksOk(db) && AboutToPublish(db, up, slot)
    ensures CheckpointOk(Publish(up, slot)) && StagedOk(Publish(up, slot)) && MarksOk(Publish(up, slot))
  {
  }

  /** Reporting a slot finalized: the two transactions together keep the invariant. */
  lemma FinalizeKeeps(db: Db, slot: nat, parent: Option<nat>)
    requires ForkInv(db) && UpsertSlot(db, slot, parent, Finalized).ok
    ensures ForkInv(Publish(UpsertSlot(db, slot, parent, Finalized).db, slot))
  {
    var up := UpsertSlot(db, slot, parent, Finalized).db;
    FinalizedUpsert(db, slot, parent);
    PublishKeepsPublic(db, up, slot);
    PublishKeepsRest(db, up, slot);
  }

  lemma AppliedRow(db: Db, v: Version, p: Projection)
    requires PublicOk(db) && FinalizedAt(db.slots, v.slot) && v.slot <= db.finalizedSlot
    ensures PublicOk(db.(proj := ApplyProjection(db.proj, v, p)))
  {
  }

  /** What an account update changes. */
  lemma AccountFrame(db: Db, u: Update)
    requires u.AccountNotice? && FromSource(u)
    ensures var out, final := Ingest(db, u).db, FinalizedAt(db.slots, u.key.slot);
            && out == db.(raw := out.raw, staged := out.staged, proj := out.proj)
            && (out.raw == db.raw || out.raw == db.raw[u.key := RawRow(u.content, if final then Finalized else u.commitment)])
            && (out.staged == db.staged || out.staged == db.staged - {u.key}
                || (!final && u.key in out.raw && u.projection.Some? && out.staged == db.staged[u.key := u.projection.value]))
            && (out.proj == db.proj || (final && u.projection.Some? && out.proj == ApplyProjection(db.proj, u.key, u.projection.value)))
  {
  }

  lemma AccountKeeps(db: Db, u: Update)
    requires ForkInv(db) && u.AccountNotice? && FromSource(u)
    ensures ForkInv(Ingest(db, u).db)
  {
    var out := Ingest(db, u).db;
    AccountFrame(db, u);
    if u.projection.Some? && FinalizedAt(db.slots, u.key.slot) {
      AppliedRow(db, u.key, u.projection.value);
    }
    assert PublicOk(out) && CheckpointOk(out);
  }

  lemma {:induction false} EventsKeep(db: Db, events: seq<Event>)
    requires ForkInv(db) && FromSource(EventNotice(events))
    ensures var o := InsertEvents(db, events); ForkInv(o.db) && o.db == db.(events := o.db.events)
    decreases |events|
  {
    if events == [] {
    } else {
      EventsKeep(db, events[..|events| - 1]);
    }
  }

  lemma SlotNoticeKeeps(db: Db, slot: nat, parent: Option<nat>, status: Commitment)
    requires ForkInv(db)
    ensures var o := Ingest(db, SlotNotice(slot, parent, status));
            ForkInv(o.db) && SlotsAdvance(db.slots, o.db.slots)
  {
    UpsertAdvances(db, slot, parent, status);
    if status.Finalized? {
      if UpsertSlot(db, slot, parent, status).ok {
        FinalizeKeeps(db, slot, parent);
        FinalizedUpsert(db, slot, parent);
      }
    } else {
      UpsertKeeps(db, slot, parent, status);
    }
  }

  lemma IngestKeeps(db: Db, u: Update)
    requires ForkInv(db) && FromSource(u)
    ensures ForkInv(Ingest(db, u).db)
    ensures SlotsAdvance(db.slots, Ingest(db, u).db.slots)
  {
    match u
    case SlotNotice(slot, parent, status) => SlotNoticeKeeps(db, slot, parent, status);
    case AccountNotice(_, _, _, _) => AccountKeeps(db, u);
    case EventNotice(events) => EventsKeep(db, events);
  }

  predicate AllFromSource(us: seq<Update>) {
    forall i :: 0 <= i < |us| ==> FromSource(us[i])
  }

  lemma {:induction false} RunKeeps(db: Db, us: seq<Update>)
    requires ForkInv(db) && AllFromSource(us)
    ensures ForkInv(Run(db, us).db)
    ensures SlotsAdvance(db.slots, Run(db, us).db.slots)
    decreases |us|
  {
    if us == [] {
    } else {
      var init := us[..|us| - 1];
      RunKeeps(db, init);
      if Run(db, init).ok {
        IngestKeeps(Run(db, init).db, us[|us| - 1]);
        AdvanceTransitive(db.slots, Run(db, init).db.slots, Run(db, us).db.slots);
      }
    }
  }

  lemma AdvanceTransitive(a: map<nat, SlotRow>, b: map<nat, SlotRow>, c: map<nat, SlotRow>)
    requires SlotsAdvance(a, b) && SlotsAdvance(b, c)
    ensures SlotsAdvance(a, c)
  {
  }

  /**
   * Fork safety over whole runs: in every state the engine reaches, each public row comes from a finalized
   * slot at or below the checkpoint, and whatever is ingested later that slot is never dead. A slot once dead
   * is never the source of a public row, and a recorded parent never changes.
   */
  lemma ForkSafety(us: seq<Update>, more: seq<Update>)
    requires AllFromSource(us) && AllFromSource(more)
    ensures var db := Run(EMPTY_DB, us).db;
            var later := Run(db, more).db;
            && (forall c :: c in db.proj ==>
                  FinalizedAt(later.slots, db.proj[c].asOf) && db.proj[c].asOf <= db.finalizedSlot)
            && (forall s :: DeadAt(db.slots, s) ==>
                  DeadAt(later.slots, s) && forall c :: c in later.proj ==> later.proj[c].asOf != s)
            && (forall s :: s in db.slots && db.slots[s].parent.Some? ==>
                  s in later.slots && later.slots[s].parent == db.slots[s].parent)
  {
    RunKeeps(EMPTY_DB, us);
    RunKeeps(Run(EMPTY_DB, us).db, more);
  }

  /** `finalize_slot` on a slot not yet finalized publishes only on an accepted ancestry. */
  lemma FirstFinalizationChecksAncestry(db: Db, slot: nat)
    requires !FinalizedAt(db.slots, slot)
    ensures FinalizeSlot(db, slot).ok <==>
              slot <= I64_MAX && slot in db.slots && !db.slots[slot].status.Dead? && AncestryAccepted(db.slots, slot)
    ensures !FinalizeSlot(db, slot).ok ==> FinalizeSlot(db, slot).db == db
  {
  }

  /** The engine never gets that check: its upsert has marked the slot finalized before. */
  lemma EngineSkipsAncestry(db: Db, slot: nat, parent: Option<nat>)
    ensures Ingest(db, SlotNotice(slot, parent, Finalized)).ok <==> UpsertSlot(db, slot, parent, Finalized).ok
  {
    if UpsertSlot(db, slot, parent, Finalized).ok {
      FinalizedUpsert(db, slot, parent);
    }
  }

  lemma RunSnoc(db: Db, us: seq<Update>, u: Update)
    ensures Run(db, us + [u]) == if Run(db, us).ok then Ingest(Run(db, us).db, u) else Run(db, us)
  {
    assert (us + [u])[..|us|] == us;
  }

  /** A slot dies, and its child is confirmed. */
  const ORPHANED: seq<Update> := [SlotNotice(1, None, Dead), SlotNotice(2, Some(1), Confirmed)]

  lemma OrphanedTables()
    ensures Run(EMPTY_DB, ORPHANED).ok
    ensures Run(EMPTY_DB, ORPHANED).db.slots == map[1 := SlotRow(Dead, None), 2 := SlotRow(Confirmed, Some(1))]
  {
    var first, second := SlotNotice(1, None, Dead), SlotNotice(2, Some(1), Confirmed);
    RunSnoc(EMPTY_DB, [], first);
    RunSnoc(EMPTY_DB, [first], second);
    assert [] + [first] == [first] && [first] + [second] == ORPHANED;
    var db := Run(EMPTY_DB, [first]).db;
    assert db.slots == map[1 := SlotRow(Dead, None)];
  }

  /** So a stream reaches tables on which `finalize_slot` refuses a slot and the engine finalizes it, over a dead parent. */
  lemma EngineFinalizesOverDeadParent()
    ensures var db := Run(EMPTY_DB, ORPHANED).db;
            var finalized := Run(EMPTY_DB, ORPHANED + [SlotNotice(2, Some(1), Finalized)]);
            && !FinalizeSlot(db, 2).ok
            && finalized.ok && FinalizedAt(finalized.db.slots, 2) && DeadAt(finalized.db.slots, 1)
            && finalized.db.slots[2].parent == Some(1)
  {
    OrphanedTables();
    var db, last := Run(EMPTY_DB, ORPHANED).db, SlotNotice(2, Some(1), Finalized);
    RunSnoc(EMPTY_DB, ORPHANED, last);
    EngineSkipsAncestry(db, 2, Some(1));
    FinalizedUpsert(db, 2, Some(1));
    Ancestry.WalkIsAncestry(db.slots, 2);
  }
}
