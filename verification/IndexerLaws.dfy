/** What the tables hold after a stream, said through the stream itself. */
module IndexerLaws {
  import opened Limits
  import opened Options
  import opened IndexerModel
  import opened IndexerForks
  import opened IndexerReplay

  /** One content per event key and per account version. */
  type Tales = EventKey -> nat
  type Bodies = Version -> nat

  /** The stream never gives one key two contents. */
  predicate Steady(u: Update, tales: Tales, bodies: Bodies) {
    match u
    case SlotNotice(_, _, _) => true
    case AccountNotice(key, content, _, _) => content == bodies(key)
    case EventNotice(events) => forall i :: 0 <= i < |events| ==> events[i].content == tales(events[i].key)
  }

  /** The update contains word of this event, with this commitment unless the row has been finalized since. */
  predicate TellsEvent(u: Update, k: EventKey, mark: Commitment) {
    u.EventNotice? && exists i :: 0 <= i < |u.events| && u.events[i].key == k && (mark.Finalized? || u.events[i].commitment == mark)
  }

  predicate TellsVersion(u: Update, v: Version, mark: Commitment) {
    u.AccountNotice? && u.key == v && (mark.Finalized? || u.commitment == mark)
  }

  ghost predicate ToldEvent(us: seq<Update>, k: EventKey, mark: Commitment) {
    exists n :: 0 <= n < |us| && TellsEvent(us[n], k, mark)
  }

  ghost predicate ToldVersion(us: seq<Update>, v: Version, mark: Commitment) {
    exists n :: 0 <= n < |us| && TellsVersion(us[n], v, mark)
  }

  /** Rows kept from one state of a table to the next: as they were, or finalized. */
  ghost predicate EventsKept(a: map<EventKey, EventRow>, b: map<EventKey, EventRow>) {
    forall k :: k in b ==> k in a && (b[k].commitment == a[k].commitment || b[k].commitment.Finalized?)
  }

  ghost predicate VersionsKept(a: map<Version, RawRow>, b: map<Version, RawRow>) {
    forall v :: v in b ==> v in a && (b[v].commitment == a[v].commitment || b[v].commitment.Finalized?)
  }

  // ---- Contents ----

  /** Every row carries the content of its key. */
  ghost predicate TrueRows(db: Db, tales: Tales, bodies: Bodies) {
    && (forall k :: k in db.events ==> db.events[k].content == tales(k))
    && (forall v :: v in db.raw ==> db.raw[v].content == bodies(v))
  }

  lemma {:induction false} EventsStayTrue(db: Db, events: seq<Event>, tales: Tales, bodies: Bodies)
    requires TrueRows(db, tales, bodies) && Steady(EventNotice(events), tales, bodies)
    ensures TrueRows(InsertEvents(db, events).db, tales, bodies)
    ensures var out := InsertEvents(db, events).db.events;
            forall k :: k in out ==>
              (k in db.events && out[k] == db.events[k]) || TellsEvent(EventNotice(events), k, out[k].commitment)
    ensures InsertEvents(db, events).db.raw == db.raw
    decreases |events|
  {
    if events == [] {
    } else {
      var init, last := events[..|events| - 1], events[|events| - 1];
      EventsStayTrue(db, init, tales, bodies);
      assert last.content == tales(last.key);
      var mid, out := InsertEvents(db, init).db.events, InsertEvents(db, events).db.events;
      forall k | k in out
        ensures (k in db.events && out[k] == db.events[k]) || TellsEvent(EventNotice(events), k, out[k].commitment)
      {
        if k in mid && out[k] == mid[k] {
          if !(k in db.events && out[k] == db.events[k]) {
            assert TellsEvent(EventNotice(init), k, mid[k].commitment);
            var i :| 0 <= i < |init| && init[i].key == k && (mid[k].commitment.Finalized? || init[i].commitment == mid[k].commitment);
            assert events[i].key == k;
          }
        } else {
          assert events[|events| - 1].key == k;
        }
      }
    }
  }

  lemma FinalStaysTrue(db: Db, slot: nat, parent: Option<nat>, tales: Tales, bodies: Bodies)
    requires TrueRows(db, tales, bodies)
    ensures var out := Ingest(db, SlotNotice(slot, parent, Finalized)).db;
            TrueRows(out, tales, bodies) && EventsKept(db.events, out.events) && VersionsKept(db.raw, out.raw)
  {
    if UpsertSlot(db, slot, parent, Finalized).ok {
      FinalizedUpsert(db, slot, parent);
    }
  }

  lemma NoticeStaysTrue(db: Db, u: Update, tales: Tales, bodies: Bodies)
    requires TrueRows(db, tales, bodies) && u.SlotNotice?
    ensures var out := Ingest(db, u).db;
            TrueRows(out, tales, bodies) && EventsKept(db.events, out.events) && VersionsKept(db.raw, out.raw)
  {
    if u.status.Finalized? {
      FinalStaysTrue(db, u.slot, u.parent, tales, bodies);
    } else {
      PutSlotFrame(db, u.slot, u.parent, u.status);
    }
  }

  lemma AccountStaysTrue(db: Db, u: Update, tales: Tales, bodies: Bodies)
    requires TrueRows(db, tales, bodies) && u.AccountNotice? && Steady(u, tales, bodies)
    ensures var out := Ingest(db, u).db;
            && TrueRows(out, tales, bodies) && out.events == db.events
            && forall v :: v in out.raw ==>
                 (v in db.raw && out.raw[v] == db.raw[v]) || TellsVersion(u, v, out.raw[v].commitment)
  {
  }

  /** Each row was told by the stream, with its commitment unless it has been finalized since. */
  ghost predicate RowsTold(us: seq<Update>, db: Db) {
    && (forall k :: k in db.events ==> ToldEvent(us, k, db.events[k].commitment))
    && (forall v :: v in db.raw ==> ToldVersion(us, v, db.raw[v].commitment))
  }

  /** Each row after an update was there before, or is told by it. */
  ghost predicate Carries(a: Db, b: Db, u: Update) {
    && (forall k :: k in b.events ==>
          || (k in a.events && (b.events[k].commitment == a.events[k].commitment || b.events[k].commitment.Finalized?))
          || TellsEvent(u, k, b.events[k].commitment))
    && (forall v :: v in b.raw ==>
          || (v in a.raw && (b.raw[v].commitment == a.raw[v].commitment || b.raw[v].commitment.Finalized?))
          || TellsVersion(u, v, b.raw[v].commitment))
  }

  lemma UpdateCarries(db: Db, u: Update, tales: Tales, bodies: Bodies)
    requires TrueRows(db, tales, bodies) && Steady(u, tales, bodies)
    ensures TrueRows(Ingest(db, u).db, tales, bodies) && Carries(db, Ingest(db, u).db, u)
  {
    match u
    case SlotNotice(_, _, _) => NoticeStaysTrue(db, u, tales, bodies);
    case AccountNotice(_, _, _, _) => AccountStaysTrue(db, u, tales, bodies);
    case EventNotice(events) => EventsStayTrue(db, events, tales, bodies);
  }

  /** Rows come from the stream, with their own content. */
  lemma {:induction false} RowsAreTold(us: seq<Update>, tales: Tales, bodies: Bodies)
    requires forall n :: 0 <= n < |us| ==> Steady(us[n], tales, bodies)
    ensures TrueRows(Run(EMPTY_DB, us).db, tales, bodies) && RowsTold(us, Run(EMPTY_DB, us).db)
    decreases |us|
  {
    if us == [] {
    } else {
      var init, u := us[..|us| - 1], us[|us| - 1];
      assert us == init + [u];
      RowsAreTold(init, tales, bodies);
      var a := Run(EMPTY_DB, init);
      if a.ok {
        UpdateCarries(a.db, u, tales, bodies);
        EventsTold(init, u, a.db, Ingest(a.db, u).db);
        VersionsTold(init, u, a.db, Ingest(a.db, u).db);
      } else {
        EventsTold(init, u, a.db, a.db);
        VersionsTold(init, u, a.db, a.db);
      }
    }
  }

  lemma EventsTold(init: seq<Update>, u: Update, a: Db, b: Db)
    requires RowsTold(init, a) && Carries(a, b, u)
    ensures forall k :: k in b.events ==> ToldEvent(init + [u], k, b.events[k].commitment)
  {
    var us := init + [u];
    forall k | k in b.events ensures ToldEvent(us, k, b.events[k].commitment) {
      if TellsEvent(u, k, b.events[k].commitment) {
        assert TellsEvent(us[|init|], k, b.events[k].commitment);
      } else {
        var n :| 0 <= n < |init| && TellsEvent(init[n], k, a.events[k].commitment);
        assert TellsEvent(us[n], k, b.events[k].commitment);
      }
    }
  }

  lemma VersionsTold(init: seq<Update>, u: Update, a: Db, b: Db)
    requires RowsTold(init, a) && Carries(a, b, u)
    ensures forall v :: v in b.raw ==> ToldVersion(init + [u], v, b.raw[v].commitment)
  {
    var us := init + [u];
    forall v | v in b.raw ensures ToldVersion(us, v, b.raw[v].commitment) {
      if TellsVersion(u, v, b.raw[v].commitment) {
        assert TellsVersion(us[|init|], v, b.raw[v].commitment);
      } else {
        var n :| 0 <= n < |init| && TellsVersion(init[n], v, a.raw[v].commitment);
        assert TellsVersion(us[n], v, b.raw[v].commitment);
      }
    }
  }

  /** The event is stored as the stream told it, finalized exactly when its slot is. */
  predicate EventStored(db: Db, e: Event) {
    && e.key in db.events && db.events[e.key].content == e.content && db.events[e.key].slot == e.slot
    && (db.events[e.key].commitment.Finalized? <==> FinalizedAt(db.slots, e.slot))
  }

  /**
   * After an error-free stream that never contradicts itself, every event of the stream whose slot is not dead is
   * stored under its key with its own content and slot, finalized exactly when its slot is, and every stored event
   * comes from the stream.
   */
  lemma EventsAreStored(us: seq<Update>, parents: Parents, homes: Homes, tales: Tales, bodies: Bodies)
    requires Stream(us, parents, homes) && forall n :: 0 <= n < |us| ==> Steady(us[n], tales, bodies)
    ensures var db := Run(EMPTY_DB, us).db;
            && (forall n, i :: 0 <= n < |us| && us[n].EventNotice? && 0 <= i < |us[n].events| ==>
                  DeadAt(db.slots, us[n].events[i].slot) || EventStored(db, us[n].events[i]))
            && RowsTold(us, db)
  {
    var db := Run(EMPTY_DB, us).db;
    AllAbsorbed(us, parents, homes);
    RowsAreTold(us, tales, bodies);
    forall n, i | 0 <= n < |us| && us[n].EventNotice? && 0 <= i < |us[n].events|
      ensures DeadAt(db.slots, us[n].events[i].slot) || EventStored(db, us[n].events[i])
    {
      var e := us[n].events[i];
      assert Absorbed(db, us[n]) && Consistent(us[n], parents, homes) && Steady(us[n], tales, bodies);
      assert EventAbsorbed(db, e);
    }
  }

  predicate VersionStored(db: Db, u: Update)
    requires u.AccountNotice?
  {
    && u.key in db.raw && db.raw[u.key].content == u.content
    && (db.raw[u.key].commitment.Finalized? <==> FinalizedAt(db.slots, u.key.slot))
  }

  /** The same for account versions. */
  lemma VersionsAreStored(us: seq<Update>, parents: Parents, homes: Homes, tales: Tales, bodies: Bodies)
    requires Stream(us, parents, homes) && forall n :: 0 <= n < |us| ==> Steady(us[n], tales, bodies)
    ensures var db := Run(EMPTY_DB, us).db;
            && (forall n :: 0 <= n < |us| && us[n].AccountNotice? ==>
                  DeadAt(db.slots, us[n].key.slot) || VersionStored(db, us[n]))
            && RowsTold(us, db)
  {
    var db := Run(EMPTY_DB, us).db;
    AllAbsorbed(us, parents, homes);
    RowsAreTold(us, tales, bodies);
    forall n | 0 <= n < |us| && us[n].AccountNotice?
      ensures DeadAt(db.slots, us[n].key.slot) || VersionStored(db, us[n])
    {
      assert Absorbed(db, us[n]) && Steady(us[n], tales, bodies);
    }
  }

  // ---- Slots and checkpoints ----

  predicate TellsSlot(u: Update, s: nat, status: Commitment) {
    u.SlotNotice? && u.slot == s && u.status == status
  }

  ghost predicate ToldSlot(us: seq<Update>, s: nat, status: Commitment) {
    exists n :: 0 <= n < |us| && TellsSlot(us[n], s, status)
  }

  /** Stored statuses and checkpoints were all told. */
  ghost predicate SlotsTold(us: seq<Update>, db: Db) {
    && (forall s :: s in db.slots ==> ToldSlot(us, s, db.slots[s].status))
    && (db.finalizedSlot == 0 || ToldSlot(us, db.finalizedSlot, Finalized))
    && (db.processedSlot == 0 || exists c: Commitment :: !c.Dead? && ToldSlot(us, db.processedSlot, c))
  }

  lemma ToldStays(us: seq<Update>, u: Update, s: nat, status: Commitment)
    requires ToldSlot(us, s, status)
    ensures ToldSlot(us + [u], s, status)
  {
    var n :| 0 <= n < |us| && TellsSlot(us[n], s, status);
    assert TellsSlot((us + [u])[n], s, status);
  }

  lemma FinalMoves(db: Db, slot: nat, parent: Option<nat>)
    ensures var out := Ingest(db, SlotNotice(slot, parent, Finalized)).db;
            && (forall s :: s in out.slots ==>
                  (s in db.slots && out.slots[s].status == db.slots[s].status) || (s == slot && out.slots[s].status.Finalized?))
            && (out.finalizedSlot == db.finalizedSlot || out.finalizedSlot == slot)
            && (out.processedSlot == db.processedSlot || out.processedSlot == slot)
  {
    if UpsertSlot(db, slot, parent, Finalized).ok {
      FinalizedUpsert(db, slot, parent);
    }
  }

  /** What one update does to slots and checkpoints. */
  lemma SlotsMove(db: Db, u: Update)
    ensures var out := Ingest(db, u).db;
            && (forall s :: s in out.slots ==>
                  (s in db.slots && out.slots[s].status == db.slots[s].status) || TellsSlot(u, s, out.slots[s].status))
            && (out.finalizedSlot == db.finalizedSlot || TellsSlot(u, out.finalizedSlot, Finalized))
            && (out.processedSlot == db.processedSlot || (u.SlotNotice? && !u.status.Dead? && out.processedSlot == u.slot))
  {
    match u
    case SlotNotice(slot, parent, status) =>
      if status.Finalized? {
        FinalMoves(db, slot, parent);
      } else {
        PutSlotFrame(db, slot, parent, status);
      }
    case AccountNotice(_, _, _, _) =>
    case EventNotice(events) => EventsKeepTables(db, events);
  }

  lemma {:induction false} EventsKeepTables(db: Db, events: seq<Event>)
    ensures var out := InsertEvents(db, events).db; out == db.(events := out.events)
    decreases |events|
  {
    if events == [] {
    } else {
      EventsKeepTables(db, events[..|events| - 1]);
    }
  }

  lemma {:induction false} SlotsAreTold(us: seq<Update>)
    ensures SlotsTold(us, Run(EMPTY_DB, us).db)
    decreases |us|
  {
    if us == [] {
    } else {
      var init, u := us[..|us| - 1], us[|us| - 1];
      assert us == init + [u];
      SlotsAreTold(init);
      var a, b := Run(EMPTY_DB, init), Run(EMPTY_DB, us);
      SlotsMove(a.db, u);
      assert forall s, c :: TellsSlot(u, s, c) ==> TellsSlot(us[|us| - 1], s, c);
      forall s | s in b.db.slots ensures ToldSlot(us, s, b.db.slots[s].status) {
        if s in a.db.slots && b.db.slots[s].status == a.db.slots[s].status {
          ToldStays(init, u, s, a.db.slots[s].status);
        } else {
          assert TellsSlot(us[|us| - 1], s, b.db.slots[s].status);
        }
      }
      CheckpointsAreTold(init, u, a.db, b.db);
    }
  }

  lemma CheckpointsAreTold(init: seq<Update>, u: Update, a: Db, b: Db)
    requires SlotsTold(init, a)
    requires b.finalizedSlot == a.finalizedSlot || TellsSlot(u, b.finalizedSlot, Finalized)
    requires b.processedSlot == a.processedSlot || (u.SlotNotice? && !u.status.Dead? && b.processedSlot == u.slot)
    ensures var us := init + [u];
            && (b.finalizedSlot == 0 || ToldSlot(us, b.finalizedSlot, Finalized))
            && (b.processedSlot == 0 || exists c: Commitment :: !c.Dead? && ToldSlot(us, b.processedSlot, c))
  {
    var us := init + [u];
    if b.finalizedSlot != 0 {
      if b.finalizedSlot == a.finalizedSlot {
        ToldStays(init, u, b.finalizedSlot, Finalized);
      } else {
        assert TellsSlot(us[|init|], b.finalizedSlot, Finalized);
      }
    }
    if b.processedSlot != 0 {
      if b.processedSlot == a.processedSlot {
        var c: Commitment :| !c.Dead? && ToldSlot(init, a.processedSlot, c);
        ToldStays(init, u, b.processedSlot, c);
      } else {
        assert TellsSlot(us[|init|], b.processedSlot, u.status);
      }
    }
  }

  /**
   * After an error-free stream each slot the stream named is stored with its own parent and a status that was told of
   * it and that every notice of it agrees with; nothing else is stored; and the finalized checkpoint is the highest
   * slot told finalized.
   */
  lemma SlotsAreStored(us: seq<Update>, parents: Parents, homes: Homes)
    requires Stream(us, parents, homes)
    ensures var db := Run(EMPTY_DB, us).db;
            && (forall s :: s in db.slots ==> db.slots[s].parent == parents(s) && ToldSlot(us, s, db.slots[s].status))
            && (forall n :: 0 <= n < |us| && us[n].SlotNotice? ==>
                  us[n].slot in db.slots && Covers(db.slots[us[n].slot].status, us[n].status))
            && (forall n :: 0 <= n < |us| && us[n].SlotNotice? && us[n].status.Finalized? ==> us[n].slot <= db.finalizedSlot)
            && (db.finalizedSlot == 0 || ToldSlot(us, db.finalizedSlot, Finalized))
            && (db.processedSlot == 0 || exists c: Commitment :: !c.Dead? && ToldSlot(us, db.processedSlot, c))
  {
    var db := Run(EMPTY_DB, us).db;
    AllAbsorbed(us, parents, homes);
    SlotsAreTold(us);
    forall n | 0 <= n < |us| && us[n].SlotNotice?
      ensures us[n].slot in db.slots && Covers(db.slots[us[n].slot].status, us[n].status)
      ensures us[n].status.Finalized? ==> us[n].slot <= db.finalizedSlot
    {
      assert Absorbed(db, us[n]);
    }
  }

  // ---- Refusals ----

  const MAX: int := 9_223_372_036_854_775_807

  /** An update the tables take: numbers fit the signed columns, and nothing contradicts what is stored. */
  predicate Takes(db: Db, u: Update) {
    match u
    case SlotNotice(slot, parent, status) =>
      && slot <= MAX && parent != Some(slot) && (parent.Some? ==> parent.value <= MAX)
      && (slot in db.slots ==>
            var row := db.slots[slot];
            && (row.parent.Some? || row.status.Finalized? ==> parent == row.parent)
            && !(row.status.Finalized? && status.Dead?) && !(row.status.Dead? && status.Finalized?))
    case AccountNotice(key, _, c, _) =>
      key.slot <= MAX && key.writeVersion <= MAX && (c.Dead? ==> FinalizedAt(db.slots, key.slot))
    case EventNotice(events) =>
      forall i :: 0 <= i < |events| ==> events[i].slot <= MAX && (events[i].commitment.Dead? ==> FinalizedAt(db.slots, events[i].slot))
  }

  lemma {:induction false} TakesEvents(db: Db, events: seq<Event>)
    ensures InsertEvents(db, events).ok <==> Takes(db, EventNotice(events))
    ensures InsertEvents(db, events).db.slots == db.slots
    decreases |events|
  {
    if events == [] {
    } else {
      var init, last := events[..|events| - 1], events[|events| - 1];
      TakesEvents(db, init);
      if Takes(db, EventNotice(events)) {
        assert forall i :: 0 <= i < |init| ==> init[i] == events[i];
      }
      if InsertEvents(db, events).ok {
        forall i | 0 <= i < |events|
          ensures events[i].slot <= MAX && (events[i].commitment.Dead? ==> FinalizedAt(db.slots, events[i].slot))
        {
          if i < |init| {
            assert init[i] == events[i];
          }
        }
      }
    }
  }

  /** Exactly when one update is accepted. */
  lemma AcceptedIff(db: Db, u: Update)
    ensures Ingest(db, u).ok <==> Takes(db, u)
  {
    match u
    case SlotNotice(slot, parent, status) =>
      if status.Finalized? && UpsertSlot(db, slot, parent, Finalized).ok {
        FinalizedUpsert(db, slot, parent);
      }
    case AccountNotice(_, _, _, _) =>
    case EventNotice(events) => TakesEvents(db, events);
  }

  /** The numbers of an update fit the signed columns, and no slot is its own parent. */
  predicate InRange(u: Update) {
    match u
    case SlotNotice(slot, parent, _) => slot <= MAX && parent != Some(slot) && (parent.Some? ==> parent.value <= MAX)
    case AccountNotice(key, _, _, _) => key.slot <= MAX && key.writeVersion <= MAX
    case EventNotice(events) => forall i :: 0 <= i < |events| ==> events[i].slot <= MAX
  }

  /** The stream reports a slot both finalized and dead. */
  ghost predicate Torn(us: seq<Update>) {
    exists s :: ToldSlot(us, s, Finalized) && ToldSlot(us, s, Dead)
  }

  lemma TornStays(us: seq<Update>, u: Update)
    requires Torn(us)
    ensures Torn(us + [u])
  {
    var s :| ToldSlot(us, s, Finalized) && ToldSlot(us, s, Dead);
    ToldStays(us, u, s, Finalized);
    ToldStays(us, u, s, Dead);
  }

  lemma {:induction false} WholeIsAccepted(us: seq<Update>, parents: Parents, homes: Homes)
    requires AllFromSource(us) && !Torn(us)
    requires forall n :: 0 <= n < |us| ==> Consistent(us[n], parents, homes) && InRange(us[n])
    ensures Run(EMPTY_DB, us).ok
    decreases |us|
  {
    if us == [] {
    } else {
      var init, u := us[..|us| - 1], us[|us| - 1];
      assert us == init + [u];
      if Torn(init) {
        TornStays(init, u);
      }
      WholeIsAccepted(init, parents, homes);
      NextIsTaken(init, u, parents, homes);
    }
  }

  lemma NextIsTaken(init: seq<Update>, u: Update, parents: Parents, homes: Homes)
    requires Stream(init, parents, homes) && Consistent(u, parents, homes) && InRange(u) && FromSource(u)
    requires !Torn(init + [u])
    ensures Ingest(Run(EMPTY_DB, init).db, u).ok
  {
    var db := Run(EMPTY_DB, init).db;
    AllAbsorbed(init, parents, homes);
    SlotsAreTold(init);
    if u.SlotNotice? && u.slot in db.slots {
      var status := db.slots[u.slot].status;
      ToldStays(init, u, u.slot, status);
      assert TellsSlot((init + [u])[|init|], u.slot, u.status);
      assert ToldSlot(init + [u], u.slot, u.status);
    }
    AcceptedIff(db, u);
  }

  /**
   * A stream that never contradicts itself about parents is taken without error if and only if its numbers fit the
   * signed columns, no slot is its own parent, and no slot is reported both finalized and dead.
   */
  lemma StreamIsAcceptedIff(us: seq<Update>, parents: Parents, homes: Homes)
    requires AllFromSource(us) && forall n :: 0 <= n < |us| ==> Consistent(us[n], parents, homes)
    ensures Run(EMPTY_DB, us).ok <==> (forall n :: 0 <= n < |us| ==> InRange(us[n])) && !Torn(us)
  {
    if Run(EMPTY_DB, us).ok {
      AllAbsorbed(us, parents, homes);
      var db := Run(EMPTY_DB, us).db;
      forall n | 0 <= n < |us| ensures InRange(us[n]) {
        assert Absorbed(db, us[n]);
        AbsorbedInRange(db, us[n]);
      }
      forall s, status | ToldSlot(us, s, status) ensures s in db.slots && Covers(db.slots[s].status, status) {
        var n :| 0 <= n < |us| && TellsSlot(us[n], s, status);
        assert Absorbed(db, us[n]);
      }
    } else if (forall n :: 0 <= n < |us| ==> InRange(us[n])) && !Torn(us) {
      WholeIsAccepted(us, parents, homes);
    }
  }

  lemma AbsorbedInRange(db: Db, u: Update)
    requires Absorbed(db, u)
    ensures InRange(u)
  {
    if u.EventNotice? {
      forall i | 0 <= i < |u.events| ensures u.events[i].slot <= MAX {
        assert EventAbsorbed(db, u.events[i]);
      }
    }
  }

  // ---- Finalizations and deaths ----

  /** Finalizing marks the slot and all its rows, empties its staging, and raises both checkpoints to it. */
  lemma FinalizationMarks(db: Db, slot: nat)
    requires FinalizeSlot(db, slot).ok
    ensures var out := FinalizeSlot(db, slot).db;
            && out.slots == db.slots[slot := SlotRow(Finalized, db.slots[slot].parent)]
            && out.raw == (map v | v in db.raw :: RawRow(db.raw[v].content, if v.slot == slot then Finalized else db.raw[v].commitment))
            && out.events.Keys == db.events.Keys
            && (forall k :: k in db.events ==>
                  out.events[k] == EventRow(db.events[k].slot, db.events[k].content,
                                            if db.events[k].slot == slot then Finalized else db.events[k].commitment))
            && (forall v :: v in out.staged <==> v in db.staged && v.slot != slot)
            && (forall v :: v in out.staged ==> out.staged[v] == db.staged[v])
            && out.finalizedSlot == (if db.finalizedSlot < slot then slot else db.finalizedSlot)
            && out.processedSlot == (if db.processedSlot < slot then slot else db.processedSlot)
  {
  }

  /** Whatever the tables hold, a death spares rows that are marked finalized. */
  lemma DeathSparesFinalized(db: Db, slot: nat, parent: Option<nat>)
    requires Ingest(db, SlotNotice(slot, parent, Dead)).ok
    ensures var out := Ingest(db, SlotNotice(slot, parent, Dead)).db;
            && (forall v :: v in db.raw && db.raw[v].commitment.Finalized? ==> v in out.raw && out.raw[v] == db.raw[v])
            && (forall k :: k in db.events && db.events[k].commitment.Finalized? ==> k in out.events && out.events[k] == db.events[k])
  {
  }

  /** When a slot dies nothing of it remains, and nothing of any other slot is lost or changed. */
  lemma DeathClearsTheSlot(db: Db, slot: nat, parent: Option<nat>)
    requires ForkInv(db) && !DeadAt(db.slots, slot) && Ingest(db, SlotNotice(slot, parent, Dead)).ok
    ensures var out := Ingest(db, SlotNotice(slot, parent, Dead)).db;
            && DeadAt(out.slots, slot) && out.proj == db.proj
            && (forall v: Version :: v in out.raw <==> v in db.raw && v.slot != slot)
            && (forall v: Version :: v in out.staged <==> v in db.staged && v.slot != slot)
            && (forall k :: k in out.events <==> k in db.events && db.events[k].slot != slot)
            && (forall v :: v in out.raw ==> out.raw[v] == db.raw[v])
            && (forall v :: v in out.staged ==> out.staged[v] == db.staged[v])
            && (forall k :: k in out.events ==> out.events[k] == db.events[k])
  {
    PutSlotFrame(db, slot, parent, Dead);
  }
}
