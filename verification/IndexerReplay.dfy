/** Replaying a whole update stream over the tables it produced changes nothing. */
module IndexerReplay {
  import opened Limits
  import opened Options
  import opened IndexerModel
  import opened IndexerForks

  /** The parent each slot reports, and the slot each event belongs to. */
  type Parents = nat -> Option<nat>
  type Homes = EventKey -> nat

  /** The stream never contradicts itself about parents or about where an event happened. */
  predicate Consistent(u: Update, parents: Parents, homes: Homes) {
    match u
    case SlotNotice(s, p, _) => p == parents(s)
    case AccountNotice(_, _, _, _) => true
    case EventNotice(events) => forall i :: 0 <= i < |events| ==> events[i].slot == homes(events[i].key)
  }

  ghost predicate Homed(db: Db, parents: Parents, homes: Homes) {
    && (forall s :: s in db.slots ==> db.slots[s].parent == parents(s))
    && (forall k :: k in db.events ==> db.events[k].slot == homes(k))
  }

  /** The stored status already says at least what the notice says. */
  predicate Covers(status: Commitment, notice: Commitment) {
    match notice
    case Processed => true
    case Confirmed => !status.Processed?
    case Finalized => status.Finalized?
    case Dead => status.Dead?
  }

  predicate EventAbsorbed(db: Db, e: Event) {
    e.slot <= I64_MAX && (DeadAt(db.slots, e.slot) || e.key in db.events)
  }

  /** The update has left its trace, except for rows of slots that died. */
  predicate Absorbed(db: Db, u: Update) {
    match u
    case SlotNotice(s, p, c) =>
      && s <= I64_MAX && p != Some(s) && (p.Some? ==> p.value <= I64_MAX)
      && s in db.slots && Covers(db.slots[s].status, c)
    case AccountNotice(key, _, _, _) =>
      && key.slot <= I64_MAX && key.writeVersion <= I64_MAX
      && (DeadAt(db.slots, key.slot) || key in db.raw)
    case EventNotice(events) => forall i :: 0 <= i < |events| ==> EventAbsorbed(db, events[i])
  }

  /** Rows are only ever lost to a dead slot. */
  ghost predicate Grows(a: Db, b: Db, homes: Homes) {
    && SlotsAdvance(a.slots, b.slots)
    && (forall v :: v in a.raw ==> v in b.raw || DeadAt(b.slots, v.slot))
    && (forall k :: k in a.events ==> k in b.events || DeadAt(b.slots, homes(k)))
  }

  lemma AbsorbedStays(a: Db, b: Db, u: Update, parents: Parents, homes: Homes)
    requires Absorbed(a, u) && Grows(a, b, homes) && Consistent(u, parents, homes)
    ensures Absorbed(b, u)
  {
    match u
    case SlotNotice(s, _, c) =>
      assert CanUpgrade(a.slots[s].status, b.slots[s].status);
    case AccountNotice(_, _, _, _) =>
    case EventNotice(events) =>
      forall i | 0 <= i < |events| ensures EventAbsorbed(b, events[i]) {
        assert EventAbsorbed(a, events[i]);
      }
  }

  // ---- One ingest of the first run ----

  lemma DeathGrows(db: Db, u: Update, parents: Parents, homes: Homes)
    requires Homed(db, parents, homes) && u.SlotNotice? && Consistent(u, parents, homes)
    requires u.status.Dead?
    ensures var out := PutSlot(db, u.slot, u.parent, Dead);
            && Homed(out, parents, homes)
            && (forall v :: v in db.raw ==> v in out.raw || DeadAt(out.slots, v.slot))
            && (forall k :: k in db.events ==> k in out.events || DeadAt(out.slots, homes(k)))
  {
    PutSlotFrame(db, u.slot, u.parent, Dead);
  }

  lemma LiveGrows(db: Db, u: Update, parents: Parents, homes: Homes)
    requires Homed(db, parents, homes) && u.SlotNotice? && Consistent(u, parents, homes) && Ingest(db, u).ok
    requires !u.status.Dead?
    ensures var out := Ingest(db, u).db;
            && Homed(out, parents, homes)
            && out.raw.Keys == db.raw.Keys && out.events.Keys == db.events.Keys
  {
    PutSlotFrame(db, u.slot, u.parent, u.status);
    if u.status.Finalized? {
      FinalizedUpsert(db, u.slot, u.parent);
    }
  }

  lemma NoticeAbsorbed(db: Db, u: Update)
    requires u.SlotNotice? && Ingest(db, u).ok
    ensures Absorbed(Ingest(db, u).db, u)
  {
    PutSlotFrame(db, u.slot, u.parent, u.status);
    if u.status.Finalized? {
      FinalizedUpsert(db, u.slot, u.parent);
    }
  }

  lemma SlotGrows(db: Db, u: Update, parents: Parents, homes: Homes)
    requires ForkInv(db) && Homed(db, parents, homes) && u.SlotNotice? && Consistent(u, parents, homes) && Ingest(db, u).ok
    ensures var out := Ingest(db, u).db;
            Grows(db, out, homes) && Homed(out, parents, homes) && Absorbed(out, u)
  {
    SlotNoticeKeeps(db, u.slot, u.parent, u.status);
    NoticeAbsorbed(db, u);
    if u.status.Dead? {
      DeathGrows(db, u, parents, homes);
    } else {
      LiveGrows(db, u, parents, homes);
    }
  }

  lemma AccountGrows(db: Db, u: Update, parents: Parents, homes: Homes)
    requires Homed(db, parents, homes) && u.AccountNotice? && Ingest(db, u).ok
    ensures var out := Ingest(db, u).db;
            Grows(db, out, homes) && Homed(out, parents, homes) && Absorbed(out, u)
  {
  }

  lemma EventGrows(db: Db, e: Event, parents: Parents, homes: Homes)
    requires Homed(db, parents, homes) && e.slot == homes(e.key) && InsertEvent(db, e).ok
    ensures var out := InsertEvent(db, e).db;
            && out == db.(events := out.events) && db.events.Keys <= out.events.Keys
            && Homed(out, parents, homes) && EventAbsorbed(out, e)
  {
  }

  lemma {:induction false} EventsGrow(db: Db, events: seq<Event>, parents: Parents, homes: Homes)
    requires Homed(db, parents, homes) && Consistent(EventNotice(events), parents, homes) && InsertEvents(db, events).ok
    ensures var out := InsertEvents(db, events).db;
            && out == db.(events := out.events) && db.events.Keys <= out.events.Keys
            && Homed(out, parents, homes) && Absorbed(out, EventNotice(events))
    decreases |events|
  {
    if events == [] {
    } else {
      var init, last := events[..|events| - 1], events[|events| - 1];
      EventsGrow(db, init, parents, homes);
      var mid, out := InsertEvents(db, init).db, InsertEvents(db, events).db;
      EventGrows(mid, last, parents, homes);
      forall i | 0 <= i < |events| ensures EventAbsorbed(out, events[i]) {
        if i < |events| - 1 {
          assert EventAbsorbed(mid, init[i]);
        }
      }
    }
  }

  lemma IngestGrows(db: Db, u: Update, parents: Parents, homes: Homes)
    requires ForkInv(db) && Homed(db, parents, homes) && Consistent(u, parents, homes) && Ingest(db, u).ok
    ensures var out := Ingest(db, u).db;
            Grows(db, out, homes) && Homed(out, parents, homes) && Absorbed(out, u)
  {
    match u
    case SlotNotice(_, _, _) => SlotGrows(db, u, parents, homes);
    case AccountNotice(_, _, _, _) => AccountGrows(db, u, parents, homes);
    case EventNotice(events) => EventsGrow(db, events, parents, homes);
  }

  ghost predicate Stream(us: seq<Update>, parents: Parents, homes: Homes) {
    && AllFromSource(us) && Run(EMPTY_DB, us).ok
    && forall i :: 0 <= i < |us| ==> Consistent(us[i], parents, homes)
  }

  /** Slots the stream reported dead. */
  function Killed(us: seq<Update>): set<nat> {
    if us == [] then {}
    else
      var u := us[|us| - 1];
      Killed(us[..|us| - 1]) + (if u.SlotNotice? && u.status.Dead? then {u.slot} else {})
  }

  lemma PrefixStream(us: seq<Update>, parents: Parents, homes: Homes)
    requires us != [] && Stream(us, parents, homes)
    ensures Stream(us[..|us| - 1], parents, homes)
  {
  }

  /** After an error-free run every update is absorbed, and exactly the slots reported dead are dead. */
  lemma {:induction false} AllAbsorbed(us: seq<Update>, parents: Parents, homes: Homes)
    requires Stream(us, parents, homes)
    ensures var db := Run(EMPTY_DB, us).db;
            && ForkInv(db) && Homed(db, parents, homes)
            && (forall i :: 0 <= i < |us| ==> Absorbed(db, us[i]))
            && (forall s :: s in Killed(us) <==> DeadAt(db.slots, s))
    decreases |us|
  {
    if us == [] {
      assert Killed(us) == {};
    } else {
      var init, u := us[..|us| - 1], us[|us| - 1];
      PrefixStream(us, parents, homes);
      AllAbsorbed(init, parents, homes);
      var a, b := Run(EMPTY_DB, init).db, Run(EMPTY_DB, us).db;
      IngestGrows(a, u, parents, homes);
      IngestKeeps(a, u);
      forall i | 0 <= i < |us| ensures Absorbed(b, us[i]) {
        if i < |us| - 1 {
          assert Absorbed(a, init[i]);
          AbsorbedStays(a, b, us[i], parents, homes);
        }
      }
      DeathsReported(a, u, parents, homes);
    }
  }

  lemma DeathsReported(db: Db, u: Update, parents: Parents, homes: Homes)
    requires ForkInv(db) && Homed(db, parents, homes) && Consistent(u, parents, homes) && Ingest(db, u).ok
    ensures forall s :: DeadAt(Ingest(db, u).db.slots, s) <==>
              DeadAt(db.slots, s) || (u.SlotNotice? && u.status.Dead? && u.slot == s)
  {
    match u
    case SlotNotice(slot, parent, status) =>
      PutSlotFrame(db, slot, parent, status);
      if status.Finalized? {
        FinalizedUpsert(db, slot, parent);
      }
    case AccountNotice(_, _, _, _) =>
    case EventNotice(events) => EventsGrow(db, events, parents, homes);
  }

  // ---- The second run ----

  predicate SameAt<K, V(==)>(a: map<K, V>, b: map<K, V>, k: K) {
    (k in a <==> k in b) && (k in a ==> a[k] == b[k])
  }

  /**
   * `e` is the replay so far, `c` the first run at the same point, `d` the first run's final tables. The replay
   * shows `d`, except in dead slots, where it shows `c` once the slot has been reported dead again.
   */
  ghost predicate Mirrors(e: Db, c: Db, d: Db, killed: set<nat>, homes: Homes) {
    && e == d.(raw := e.raw, staged := e.staged, events := e.events)
    && (forall s :: s in killed ==> DeadAt(d.slots, s))
    && VersionsMirror(e, c, d, killed) && HappeningsMirror(e, c, d, killed, homes)
  }

  ghost predicate VersionsMirror(e: Db, c: Db, d: Db, killed: set<nat>) {
    && (forall v: Version :: !DeadAt(d.slots, v.slot) ==> SameAt(e.raw, d.raw, v) && SameAt(e.staged, d.staged, v))
    && (forall v: Version :: v.slot in killed ==> SameAt(e.raw, c.raw, v) && SameAt(e.staged, c.staged, v))
  }

  ghost predicate HappeningsMirror(e: Db, c: Db, d: Db, killed: set<nat>, homes: Homes) {
    && (forall k :: !DeadAt(d.slots, homes(k)) ==> SameAt(e.events, d.events, k))
    && (forall k :: homes(k) in killed ==> SameAt(e.events, c.events, k))
  }

  /** What the first run's final tables know about all earlier points. */
  ghost predicate LeadsTo(c: Db, d: Db, parents: Parents, homes: Homes) {
    && ForkInv(c) && Homed(c, parents, homes) && ForkInv(d) && Homed(d, parents, homes)
    && SlotsAdvance(c.slots, d.slots)
  }

  /** Reporting a slot again that is neither new nor dead changes nothing. */
  lemma NoticeIsNoOp(e: Db, u: Update, parents: Parents, homes: Homes)
    requires ForkInv(e) && Homed(e, parents, homes) && u.SlotNotice? && Consistent(u, parents, homes) && Absorbed(e, u)
    requires !u.status.Dead?
    ensures Ingest(e, u) == Outcome(e, true)
  {
    var s := u.slot;
    if CanUpgrade(e.slots[s].status, u.status) {
      assert e.slots[s].status == u.status;
      PutSlotFrame(e, s, u.parent, u.status);
      assert e.slots[s] == SlotRow(u.status, u.parent);
      assert e.slots[s := e.slots[s]] == e.slots;
      assert PutSlot(e, s, u.parent, u.status) == e;
      if u.status.Finalized? {
        RepublishIsNoOp(e, s);
      }
    }
  }

  lemma RepublishIsNoOp(e: Db, s: nat)
    requires ForkInv(e) && FinalizedAt(e.slots, s)
    ensures Publish(e, s) == e
  {
    NoStagedRows(e.staged, s);
    var out := Publish(e, s);
    assert out.slots == e.slots;
    assert out.raw == e.raw;
    assert out.events == e.events;
    assert out.staged == e.staged;
  }

  /** Reporting a death again clears the slot in the replay as it did in the first run. */
  lemma DeathMirrors(e: Db, c: Db, d: Db, u: Update, killed: set<nat>, parents: Parents, homes: Homes)
    requires Mirrors(e, c, d, killed, homes) && ForkInv(e) && Homed(e, parents, homes) && LeadsTo(c, d, parents, homes)
    requires u.SlotNotice? && u.status.Dead? && Consistent(u, parents, homes) && Absorbed(d, u) && Ingest(c, u).ok
    ensures Ingest(e, u).ok && Mirrors(Ingest(e, u).db, Ingest(c, u).db, d, killed + {u.slot}, homes)
  {
    var s := u.slot;
    assert e.slots[s] == SlotRow(Dead, parents(s));
    DeathAgain(e, s, u.parent);
    assert !FinalizedAt(c.slots, s);
    FirstDeath(c, s, u.parent);
    var c' := Ingest(c, u).db;
    CleanupMirrors(e, c, d, c', s, killed, parents, homes);
  }

  lemma DeathAgain(e: Db, s: nat, parent: Option<nat>)
    requires s <= I64_MAX && parent != Some(s) && (parent.Some? ==> parent.value <= I64_MAX)
    requires s in e.slots && e.slots[s] == SlotRow(Dead, parent)
    ensures Ingest(e, SlotNotice(s, parent, Dead)) == Outcome(CleanupDead(e, s), true)
  {
    assert e.slots[s := e.slots[s]] == e.slots;
    assert e.(slots := e.slots) == e;
  }

  lemma FirstDeath(c: Db, s: nat, parent: Option<nat>)
    requires Ingest(c, SlotNotice(s, parent, Dead)).ok && !FinalizedAt(c.slots, s)
    ensures var out := Ingest(c, SlotNotice(s, parent, Dead)).db;
            out.raw == CleanupDead(c, s).raw && out.staged == CleanupDead(c, s).staged && out.events == CleanupDead(c, s).events
  {
    PutSlotFrame(c, s, parent, Dead);
  }

  lemma CleanupMirrors(e: Db, c: Db, d: Db, c': Db, s: nat, killed: set<nat>, parents: Parents, homes: Homes)
    requires Mirrors(e, c, d, killed, homes) && ForkInv(e) && Homed(e, parents, homes)
    requires ForkInv(c) && Homed(c, parents, homes) && !FinalizedAt(c.slots, s) && DeadAt(d.slots, s)
    requires c'.raw == CleanupDead(c, s).raw && c'.staged == CleanupDead(c, s).staged && c'.events == CleanupDead(c, s).events
    ensures Mirrors(CleanupDead(e, s), c', d, killed + {s}, homes)
  {
    CleanupVersions(e, c, d, c', s, killed);
    CleanupHappenings(e, c, d, c', s, killed, parents, homes);
  }

  lemma CleanupVersions(e: Db, c: Db, d: Db, c': Db, s: nat, killed: set<nat>)
    requires VersionsMirror(e, c, d, killed) && MarksOk(e) && MarksOk(c)
    requires !FinalizedAt(e.slots, s) && !FinalizedAt(c.slots, s) && DeadAt(d.slots, s)
    requires c'.raw == CleanupDead(c, s).raw && c'.staged == CleanupDead(c, s).staged
    ensures VersionsMirror(CleanupDead(e, s), c', d, killed + {s})
  {
    var e' := CleanupDead(e, s);
    forall v: Version | !DeadAt(d.slots, v.slot) ensures SameAt(e'.raw, d.raw, v) && SameAt(e'.staged, d.staged, v) {
      CleanedAt(e, s, v);
    }
    forall v: Version | v.slot in killed + {s} ensures SameAt(e'.raw, c'.raw, v) && SameAt(e'.staged, c'.staged, v) {
      CleanedAt(e, s, v);
      CleanedAt(c, s, v);
    }
  }

  /** In a slot without finalized marks the cleanup empties it and leaves all others. */
  lemma CleanedAt(db: Db, s: nat, v: Version)
    requires MarksOk(db) && !FinalizedAt(db.slots, s)
    ensures var out := CleanupDead(db, s);
            if v.slot == s then v !in out.raw && v !in out.staged
            else SameAt(out.raw, db.raw, v) && SameAt(out.staged, db.staged, v)
  {
  }

  lemma CleanupHappenings(e: Db, c: Db, d: Db, c': Db, s: nat, killed: set<nat>, parents: Parents, homes: Homes)
    requires HappeningsMirror(e, c, d, killed, homes) && MarksOk(e) && MarksOk(c) && Homed(e, parents, homes) && Homed(c, parents, homes)
    requires !FinalizedAt(e.slots, s) && !FinalizedAt(c.slots, s) && DeadAt(d.slots, s)
    requires c'.events == CleanupDead(c, s).events
    ensures HappeningsMirror(CleanupDead(e, s), c', d, killed + {s}, homes)
  {
    var e' := CleanupDead(e, s);
    forall k ensures if homes(k) == s then k !in e'.events && k !in c'.events
                     else SameAt(e'.events, e.events, k) && SameAt(c'.events, c.events, k) {
    }
  }

  lemma NoticeFrame(c: Db, u: Update, killed: set<nat>, parents: Parents, homes: Homes)
    requires Homed(c, parents, homes) && u.SlotNotice? && !u.status.Dead? && Ingest(c, u).ok
    requires u.status.Finalized? ==> u.slot !in killed
    ensures var c' := Ingest(c, u).db;
            && (forall v: Version :: v.slot in killed ==> SameAt(c.raw, c'.raw, v) && SameAt(c.staged, c'.staged, v))
            && (forall k :: homes(k) in killed ==> SameAt(c.events, c'.events, k))
  {
    PutSlotFrame(c, u.slot, u.parent, u.status);
    if u.status.Finalized? {
      FinalizedUpsert(c, u.slot, u.parent);
    }
  }

  /** A live slot notice in the first run does not touch the rows of slots that end dead. */
  lemma NoticeMirrors(e: Db, c: Db, d: Db, u: Update, killed: set<nat>, parents: Parents, homes: Homes)
    requires Mirrors(e, c, d, killed, homes) && ForkInv(e) && Homed(e, parents, homes) && LeadsTo(c, d, parents, homes)
    requires u.SlotNotice? && !u.status.Dead? && Consistent(u, parents, homes) && Absorbed(d, u) && Ingest(c, u).ok
    ensures Ingest(e, u).ok && Mirrors(Ingest(e, u).db, Ingest(c, u).db, d, killed, homes)
  {
    assert Absorbed(e, u);
    NoticeIsNoOp(e, u, parents, homes);
    if u.status.Finalized? {
      assert u.slot !in killed;
    }
    NoticeFrame(c, u, killed, parents, homes);
    MirrorsOn(e, c, Ingest(c, u).db, d, killed, homes);
  }

  /** The replay is compared with the first run only in the slots reported dead. */
  lemma MirrorsOn(e: Db, c: Db, c': Db, d: Db, killed: set<nat>, homes: Homes)
    requires Mirrors(e, c, d, killed, homes)
    requires forall v: Version :: v.slot in killed ==> SameAt(c.raw, c'.raw, v) && SameAt(c.staged, c'.staged, v)
    requires forall k :: homes(k) in killed ==> SameAt(c.events, c'.events, k)
    ensures Mirrors(e, c', d, killed, homes)
  {
    forall v: Version | v.slot in killed ensures SameAt(e.raw, c'.raw, v) && SameAt(e.staged, c'.staged, v) {
      assert SameAt(c.raw, c'.raw, v);
    }
    forall k | homes(k) in killed ensures SameAt(e.events, c'.events, k) {
      assert SameAt(c.events, c'.events, k);
    }
  }

  lemma OnlyAtKey(db: Db, u: Update, v: Version)
    requires u.AccountNotice? && v != u.key
    ensures SameAt(Ingest(db, u).db.raw, db.raw, v) && SameAt(Ingest(db, u).db.staged, db.staged, v)
  {
  }

  /** What an insertion into a slot that is not finalized leaves at its own key. */
  lemma InsertedAtKey(db: Db, u: Update)
    requires u.AccountNotice? && FromSource(u) && u.key.slot <= I64_MAX && u.key.writeVersion <= I64_MAX
    requires !FinalizedAt(db.slots, u.key.slot)
    ensures var out := Ingest(db, u).db;
            if u.key in db.raw then out == db
            else
              && out.raw == db.raw[u.key := RawRow(u.content, u.commitment)]
              && out.staged == if u.projection.Some? then db.staged[u.key := u.projection.value] else db.staged
  {
  }

  lemma SameInsert(e: Db, c: Db, e': Db, c': Db, u: Update)
    requires u.AccountNotice? && FromSource(u) && u.key.slot <= I64_MAX && u.key.writeVersion <= I64_MAX
    requires !FinalizedAt(e.slots, u.key.slot) && !FinalizedAt(c.slots, u.key.slot)
    requires SameAt(e.raw, c.raw, u.key) && SameAt(e.staged, c.staged, u.key)
    requires e' == Ingest(e, u).db && c' == Ingest(c, u).db
    ensures SameAt(e'.raw, c'.raw, u.key) && SameAt(e'.staged, c'.staged, u.key)
  {
    InsertedAtKey(e, u);
    InsertedAtKey(c, u);
  }

  /** The same insertion into both runs, in a slot that ends dead. */
  lemma InsertMirrors(e: Db, c: Db, d: Db, u: Update, killed: set<nat>)
    requires VersionsMirror(e, c, d, killed) && u.AccountNotice? && FromSource(u)
    requires u.key.slot <= I64_MAX && u.key.writeVersion <= I64_MAX
    requires DeadAt(d.slots, u.key.slot) && !FinalizedAt(e.slots, u.key.slot) && !FinalizedAt(c.slots, u.key.slot)
    ensures VersionsMirror(Ingest(e, u).db, Ingest(c, u).db, d, killed)
  {
    var e', c' := Ingest(e, u).db, Ingest(c, u).db;
    forall v: Version | !DeadAt(d.slots, v.slot) ensures SameAt(e'.raw, d.raw, v) && SameAt(e'.staged, d.staged, v) {
      OnlyAtKey(e, u, v);
    }
    forall v: Version | v.slot in killed ensures SameAt(e'.raw, c'.raw, v) && SameAt(e'.staged, c'.staged, v) {
      if v == u.key {
        SameInsert(e, c, e', c', u);
      } else {
        OnlyAtKey(e, u, v);
        OnlyAtKey(c, u, v);
      }
    }
  }

  /** An insertion of the first run alone, in a slot that lives on, moves nothing the replay is compared with. */
  lemma ForeignInsert(e: Db, c: Db, d: Db, u: Update, killed: set<nat>)
    requires VersionsMirror(e, c, d, killed) && u.AccountNotice? && u.key.slot !in killed
    ensures VersionsMirror(e, Ingest(c, u).db, d, killed)
  {
    var c' := Ingest(c, u).db;
    forall v: Version | v.slot in killed ensures SameAt(e.raw, c'.raw, v) && SameAt(e.staged, c'.staged, v) {
      OnlyAtKey(c, u, v);
    }
  }

  lemma AccountMirrors(e: Db, c: Db, d: Db, u: Update, killed: set<nat>, homes: Homes)
    requires Mirrors(e, c, d, killed, homes) && SlotsAdvance(c.slots, d.slots)
    requires u.AccountNotice? && FromSource(u) && Absorbed(d, u)
    ensures Ingest(e, u).ok && Mirrors(Ingest(e, u).db, Ingest(c, u).db, d, killed, homes)
  {
    AccountFrame(e, u);
    AccountFrame(c, u);
    if DeadAt(d.slots, u.key.slot) {
      assert u.key.slot in c.slots ==> CanUpgrade(c.slots[u.key.slot].status, Dead);
      InsertMirrors(e, c, d, u, killed);
    } else {
      assert SameAt(e.raw, d.raw, u.key);
      ForeignInsert(e, c, d, u, killed);
    }
  }

  lemma EventMirrors(e: Db, c: Db, d: Db, ev: Event, killed: set<nat>, homes: Homes)
    requires Mirrors(e, c, d, killed, homes) && SlotsAdvance(c.slots, d.slots)
    requires ev.slot == homes(ev.key) && (ev.commitment.Processed? || ev.commitment.Confirmed?)
    requires EventAbsorbed(d, ev)
    ensures InsertEvent(e, ev).ok && Mirrors(InsertEvent(e, ev).db, InsertEvent(c, ev).db, d, killed, homes)
  {
    var e', c' := InsertEvent(e, ev).db, InsertEvent(c, ev).db;
    assert e' == e.(events := e'.events) && c' == c.(events := c'.events);
    if DeadAt(d.slots, ev.slot) {
      assert ev.slot in c.slots ==> CanUpgrade(c.slots[ev.slot].status, Dead);
    } else {
      assert SameAt(e.events, d.events, ev.key);
      assert e' == e;
    }
    forall k | !DeadAt(d.slots, homes(k)) ensures SameAt(e'.events, d.events, k) {
      assert SameAt(e.events, d.events, k);
    }
    forall k | homes(k) in killed ensures SameAt(e'.events, c'.events, k) {
      assert SameAt(e.events, c.events, k);
    }
  }

  lemma {:induction false} EventsMirror(e: Db, c: Db, d: Db, events: seq<Event>, killed: set<nat>, homes: Homes)
    requires Mirrors(e, c, d, killed, homes) && SlotsAdvance(c.slots, d.slots)
    requires FromSource(EventNotice(events)) && Absorbed(d, EventNotice(events)) && InsertEvents(c, events).ok
    requires forall i :: 0 <= i < |events| ==> events[i].slot == homes(events[i].key)
    ensures InsertEvents(e, events).ok && InsertEvents(c, events).db.slots == c.slots
    ensures Mirrors(InsertEvents(e, events).db, InsertEvents(c, events).db, d, killed, homes)
    decreases |events|
  {
    if events == [] {
    } else {
      var init, last := events[..|events| - 1], events[|events| - 1];
      assert forall i :: 0 <= i < |init| ==> init[i] == events[i];
      EventsMirror(e, c, d, init, killed, homes);
      assert EventAbsorbed(d, last);
      EventMirrors(InsertEvents(e, init).db, InsertEvents(c, init).db, d, last, killed, homes);
    }
  }

  lemma IngestMirrors(e: Db, c: Db, d: Db, u: Update, killed: set<nat>, parents: Parents, homes: Homes)
    requires Mirrors(e, c, d, killed, homes) && ForkInv(e) && Homed(e, parents, homes) && LeadsTo(c, d, parents, homes)
    requires FromSource(u) && Consistent(u, parents, homes) && Absorbed(d, u) && Ingest(c, u).ok
    ensures Ingest(e, u).ok
    ensures Mirrors(Ingest(e, u).db, Ingest(c, u).db, d,
                    killed + (if u.SlotNotice? && u.status.Dead? then {u.slot} else {}), homes)
  {
    assert killed + {} == killed;
    match u
    case SlotNotice(_, _, status) =>
      if status.Dead? {
        DeathMirrors(e, c, d, u, killed, parents, homes);
      } else {
        NoticeMirrors(e, c, d, u, killed, parents, homes);
      }
    case AccountNotice(_, _, _, _) => AccountMirrors(e, c, d, u, killed, homes);
    case EventNotice(events) => EventsMirror(e, c, d, events, killed, homes);
  }

  /** The replay of any prefix mirrors the first run. */
  lemma {:induction false} ReplayPrefix(us: seq<Update>, n: nat, parents: Parents, homes: Homes)
    requires Stream(us, parents, homes) && n <= |us|
    ensures var d := Run(EMPTY_DB, us).db;
            && Run(d, us[..n]).ok && Run(EMPTY_DB, us[..n]).ok
            && ForkInv(Run(d, us[..n]).db) && Homed(Run(d, us[..n]).db, parents, homes)
            && Mirrors(Run(d, us[..n]).db, Run(EMPTY_DB, us[..n]).db, d, Killed(us[..n]), homes)
    decreases n
  {
    var d := Run(EMPTY_DB, us).db;
    AllAbsorbed(us, parents, homes);
    if n == 0 {
      assert us[..0] == [];
    } else {
      ReplayPrefix(us, n - 1, parents, homes);
      var init, u := us[..n - 1], us[n - 1];
      assert us[..n][..n - 1] == init && us[..n][n - 1] == u;
      PointOfRun(us, n - 1, parents, homes);
      PointOfRun(us, n, parents, homes);
      var e, c := Run(d, init).db, Run(EMPTY_DB, init).db;
      IngestMirrors(e, c, d, u, Killed(init), parents, homes);
      IngestKeeps(e, u);
      IngestGrows(e, u, parents, homes);
    }
  }

  /** Every point of the first run is good and leads to its end. */
  lemma {:induction false} PointOfRun(us: seq<Update>, n: nat, parents: Parents, homes: Homes)
    requires Stream(us, parents, homes) && n <= |us|
    ensures Stream(us[..n], parents, homes)
    ensures LeadsTo(Run(EMPTY_DB, us[..n]).db, Run(EMPTY_DB, us).db, parents, homes)
    decreases |us| - n
  {
    AllAbsorbed(us, parents, homes);
    if n == |us| {
      assert us[..n] == us;
    } else {
      PointOfRun(us, n + 1, parents, homes);
      var next := us[..n + 1];
      assert next[..n] == us[..n];
      PrefixStream(next, parents, homes);
      AllAbsorbed(us[..n], parents, homes);
      IngestKeeps(Run(EMPTY_DB, us[..n]).db, us[n]);
      AdvanceTransitive(Run(EMPTY_DB, us[..n]).db.slots, Run(EMPTY_DB, next).db.slots, Run(EMPTY_DB, us).db.slots);
    }
  }

  /**
   * Replay is idempotent: feeding the whole update list of an error-free run again succeeds and leaves slots,
   * raw rows, staged rows, projections, events and checkpoints as they are.
   */
  lemma ReplayChangesNothing(us: seq<Update>, parents: Parents, homes: Homes)
    requires Stream(us, parents, homes)
    ensures Run(Run(EMPTY_DB, us).db, us) == Outcome(Run(EMPTY_DB, us).db, true)
  {
    var d := Run(EMPTY_DB, us).db;
    ReplayPrefix(us, |us|, parents, homes);
    AllAbsorbed(us, parents, homes);
    assert us[..|us|] == us;
    var e := Run(d, us).db;
    forall v: Version ensures SameAt(e.raw, d.raw, v) && SameAt(e.staged, d.staged, v) {
      if DeadAt(d.slots, v.slot) {
        assert v.slot in Killed(us);
      }
    }
    forall k ensures SameAt(e.events, d.events, k) {
      if DeadAt(d.slots, homes(k)) {
        assert homes(k) in Killed(us);
      }
    }
    SameEverywhere(e.raw, d.raw);
    SameEverywhere(e.staged, d.staged);
    SameEverywhere(e.events, d.events);
  }

  lemma SameEverywhere<K(!new), V(!new)>(a: map<K, V>, b: map<K, V>)
    requires forall k :: SameAt(a, b, k)
    ensures a == b
  {
    assert forall k :: k in a <==> k in b by {
      forall k ensures k in a <==> k in b {
        assert SameAt(a, b, k);
      }
    }
    forall k | k in a ensures a[k] == b[k] {
      assert SameAt(a, b, k);
    }
  }
}
