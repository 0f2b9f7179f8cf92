/** The public tables against a simple reference: the last finalized version wins, nothing after a tombstone. */
module IndexerReference {
  import opened Limits
  import opened Options
  import opened IndexerModel
  import opened IndexerForks

  /** All account versions accepted so far, with what they decode to. */
  type History = map<Version, Projection>

  predicate Relevant(p: Projection, kind: Kind) {
    p.Tombstone? || p.kind == kind
  }

  predicate Newer(a: Version, b: Version) {
    a.slot > b.slot || (a.slot == b.slot && a.writeVersion > b.writeVersion)
  }

  /** A finalized version that says something about the cell. */
  predicate Published(slots: map<nat, SlotRow>, h: History, v: Version, c: Cell) {
    v in h && v.address == c.address && Relevant(h[v], c.kind) && FinalizedAt(slots, v.slot)
  }

  ghost predicate Latest(slots: map<nat, SlotRow>, h: History, v: Version, c: Cell) {
    Published(slots, h, v, c) && forall x :: Published(slots, h, x, c) ==> !Newer(x, v)
  }

  function CellOf(proj: PublicTables, c: Cell): Option<PublicRow> {
    if c in proj then Some(proj[c]) else None
  }

  function Effect(p: Projection, slot: nat): Option<PublicRow> {
    match p
    case Tombstone => None
    case Row(_, body) => Some(PublicRow(slot, body))
  }

  /** The cell shows what the latest finalized version says, and nothing if there is none. */
  ghost predicate Agrees(db: Db, h: History, c: Cell) {
    && (forall v :: Latest(db.slots, h, v, c) ==> CellOf(db.proj, c) == Effect(h[v], v.slot))
    && ((forall v :: !Published(db.slots, h, v, c)) ==> CellOf(db.proj, c) == None)
  }

  /** The history is exactly what is staged, in slots neither finalized nor dead. */
  ghost predicate HistoryOk(db: Db, h: History) {
    && (forall v :: v in h ==> v in db.raw || DeadAt(db.slots, v.slot))
    && (forall v :: v in h && !FinalizedAt(db.slots, v.slot) && !DeadAt(db.slots, v.slot) ==>
          v in db.staged && db.staged[v] == h[v])
    && (forall v :: v in db.staged && !DeadAt(db.slots, v.slot) ==> v in h && h[v] == db.staged[v])
  }

  function Record(db: Db, h: History, u: Update): History {
    if u.AccountNotice? && u.projection.Some? && u.key !in db.raw && InsertAccount(db, u.key, u.content, u.commitment, u.projection).ok
    then h[u.key := u.projection.value] else h
  }

  // ---- A reference exists and is unique ----

  lemma {:induction false} NewestOf(s: set<Version>, a: nat) returns (m: Version)
    requires s != {} && forall v :: v in s ==> v.address == a
    ensures m in s && forall v :: v in s ==> !Newer(v, m)
    decreases s
  {
    var x :| x in s;
    m := x;
    var rest := s - {x};
    if rest == {} {
      assert s == {x};
    } else {
      var r := NewestOf(rest, a);
      if Newer(r, x) {
        m := r;
      }
      forall v | v in s ensures !Newer(v, m) {
        if v != x {
          assert v in rest;
        }
      }
    }
  }

  /** Agreement leaves no choice: it fixes the cell from the history and the finalized slots alone. */
  lemma AgreementDetermines(a: Db, b: Db, h: History, c: Cell)
    requires Agrees(a, h, c) && Agrees(b, h, c)
    requires forall s :: FinalizedAt(a.slots, s) <==> FinalizedAt(b.slots, s)
    ensures CellOf(a.proj, c) == CellOf(b.proj, c)
  {
    var s := set v | v in h && Published(a.slots, h, v, c);
    if s == {} {
      forall v ensures !Published(a.slots, h, v, c) && !Published(b.slots, h, v, c) {
        assert v !in s;
      }
    } else {
      var m := NewestOf(s, c.address);
      forall x | Published(a.slots, h, x, c) ensures !Newer(x, m) {
        assert x in s;
      }
      assert Latest(a.slots, h, m, c);
      assert Latest(b.slots, h, m, c);
    }
  }

  // ---- Publishing one slot, seen from one cell ----

  predicate Touches(v: Version, p: Projection, c: Cell) {
    v.address == c.address && Relevant(p, c.kind)
  }

  /** Index of the last row that says something about the cell, or -1. */
  function LastTouch(rows: seq<Version>, staged: map<Version, Projection>, c: Cell): (i: int)
    requires forall k :: 0 <= k < |rows| ==> rows[k] in staged
    ensures -1 <= i < |rows|
    ensures i >= 0 ==> Touches(rows[i], staged[rows[i]], c)
    ensures forall j :: i < j < |rows| ==> !Touches(rows[j], staged[rows[j]], c)
  {
    if rows == [] then -1
    else if Touches(rows[|rows| - 1], staged[rows[|rows| - 1]], c) then |rows| - 1
    else LastTouch(rows[..|rows| - 1], staged, c)
  }

  /** What the loop does to a cell: a newer row stays, otherwise the last relevant version decides. */
  lemma {:induction false} PublishCell(proj: PublicTables, rows: seq<Version>, staged: map<Version, Projection>, slot: nat, c: Cell)
    requires forall i :: 0 <= i < |rows| ==> rows[i] in staged && rows[i].slot == slot
    ensures var i := LastTouch(rows, staged, c);
            CellOf(PublishAll(proj, rows, staged), c)
            == if i < 0 || (c in proj && proj[c].asOf > slot) then CellOf(proj, c) else Effect(staged[rows[i]], slot)
    decreases |rows|
  {
    if rows == [] {
    } else {
      var init, last := rows[..|rows| - 1], rows[|rows| - 1];
      PublishCell(proj, init, staged, slot, c);
      ApplyOne(PublishAll(proj, init, staged), last, staged[last], c);
    }
  }

  lemma ApplyOne(proj: PublicTables, v: Version, p: Projection, c: Cell)
    ensures var out := ApplyProjection(proj, v, p);
            if v.address == c.address && Relevant(p, c.kind) && !(c in proj && proj[c].asOf > v.slot)
            then CellOf(out, c) == Effect(p, v.slot)
            else CellOf(out, c) == CellOf(proj, c)
  {
  }

  /** The newest version a slot has for a cell. */
  ghost predicate LastOfSlot(h: History, slot: nat, l: Version, c: Cell) {
    && l in h && l.slot == slot && l.address == c.address && Relevant(h[l], c.kind)
    && forall x :: x in h && x.slot == slot && x.address == c.address && Relevant(h[x], c.kind) ==> !Newer(x, l)
  }

  /** The cell after publishing a live slot, in terms of the history. */
  lemma PublishedCell(db: Db, h: History, slot: nat, c: Cell)
    requires HistoryOk(db, h) && !DeadAt(db.slots, slot) && !FinalizedAt(db.slots, slot)
    ensures var out := PublishAll(db.proj, StagedRows(db.staged, slot), db.staged);
            && (c in db.proj && db.proj[c].asOf > slot ==> CellOf(out, c) == CellOf(db.proj, c))
            && ((forall l :: !LastOfSlot(h, slot, l, c)) ==>
                  CellOf(out, c) == CellOf(db.proj, c)
                  && forall v :: v in h && v.slot == slot && v.address == c.address ==> !Relevant(h[v], c.kind))
            && (forall l :: LastOfSlot(h, slot, l, c) && !(c in db.proj && db.proj[c].asOf > slot) ==>
                  CellOf(out, c) == Effect(h[l], slot))
  {
    var rows := StagedRows(db.staged, slot);
    PublishCell(db.proj, rows, db.staged, slot, c);
    var i := LastTouch(rows, db.staged, c);
    forall x | x in h && x.slot == slot && x.address == c.address && Relevant(h[x], c.kind)
      ensures i >= 0 && !Newer(x, rows[i])
    {
      assert x in rows;
      var k :| 0 <= k < |rows| && rows[k] == x;
      assert Touches(rows[k], db.staged[rows[k]], c);
      assert k <= i;
      if k < i {
        assert Before(rows[k], rows[i]);
      }
    }
    if i >= 0 {
      assert LastOfSlot(h, slot, rows[i], c);
      forall l | LastOfSlot(h, slot, l, c) ensures l == rows[i] {
      }
    }
  }

  // ---- Finalization keeps agreement, exactly when it revives nothing ----

  /** A newer tombstone is already public history, and this slot would put an older row back. */
  ghost predicate Revives(db: Db, h: History, slot: nat, c: Cell) {
    exists t, l :: Latest(db.slots, h, t, c) && h[t].Tombstone? && t.slot > slot
                   && LastOfSlot(h, slot, l, c) && h[l].Row?
  }

  /** Finalizing a slot that has nothing for the cell changes neither side. */
  lemma NothingNew(db: Db, out: Db, h: History, slot: nat, c: Cell)
    requires Agrees(db, h, c) && CellOf(out.proj, c) == CellOf(db.proj, c)
    requires forall s :: FinalizedAt(out.slots, s) <==> FinalizedAt(db.slots, s) || s == slot
    requires !FinalizedAt(db.slots, slot)
    requires forall v :: v in h && v.slot == slot && v.address == c.address ==> !Relevant(h[v], c.kind)
    ensures Agrees(out, h, c)
  {
    forall v ensures Published(out.slots, h, v, c) <==> Published(db.slots, h, v, c) {
    }
    forall v | Latest(out.slots, h, v, c) ensures CellOf(out.proj, c) == Effect(h[v], v.slot) {
      assert Latest(db.slots, h, v, c);
    }
  }

  /** An older latest version gives way to the newest one of the slot. */
  lemma NewLatest(db: Db, out: Db, h: History, slot: nat, c: Cell, l: Version)
    requires forall s :: FinalizedAt(out.slots, s) <==> FinalizedAt(db.slots, s) || s == slot
    requires LastOfSlot(h, slot, l, c)
    requires forall v :: Published(db.slots, h, v, c) ==> v.slot < slot
    requires CellOf(out.proj, c) == Effect(h[l], slot)
    ensures Agrees(out, h, c)
  {
    assert Latest(out.slots, h, l, c);
    forall v | Latest(out.slots, h, v, c) ensures v == l {
      assert Published(out.slots, h, l, c);
    }
  }

  /** A newer latest version stays the latest. */
  lemma OldLatest(db: Db, out: Db, h: History, slot: nat, c: Cell, t: Version)
    requires Latest(db.slots, h, t, c) && t.slot > slot
    requires forall s :: FinalizedAt(out.slots, s) <==> FinalizedAt(db.slots, s) || s == slot
    ensures forall v :: Latest(out.slots, h, v, c) <==> v == t
  {
    assert Latest(out.slots, h, t, c);
  }

  /** The latest version, when anything at all has been published for the cell. */
  lemma SomeLatest(slots: map<nat, SlotRow>, h: History, c: Cell) returns (found: bool, t: Version)
    ensures found ==> Latest(slots, h, t, c)
    ensures !found ==> forall v :: !Published(slots, h, v, c)
  {
    var s := set v | v in h && Published(slots, h, v, c);
    found, t := s != {}, Version(0, 0, 0);
    if found {
      t := NewestOf(s, c.address);
      forall x | Published(slots, h, x, c) ensures !Newer(x, t) {
        assert x in s;
      }
    } else {
      forall v ensures !Published(slots, h, v, c) {
        assert v !in s;
      }
    }
  }

  ghost predicate Finalizes(db: Db, out: Db, slot: nat) {
    && (forall s :: FinalizedAt(out.slots, s) <==> FinalizedAt(db.slots, s) || s == slot)
    && out.proj == PublishAll(db.proj, StagedRows(db.staged, slot), db.staged)
  }

  /** The exact condition: publishing a slot keeps the cell right if and only if it revives nothing. */
  lemma FinalizeAgreesIff(db: Db, out: Db, h: History, slot: nat, c: Cell)
    requires HistoryOk(db, h) && Agrees(db, h, c) && Finalizes(db, out, slot)
    requires !DeadAt(db.slots, slot) && !FinalizedAt(db.slots, slot)
    ensures Agrees(out, h, c) <==> !Revives(db, h, slot, c)
  {
    PublishedCell(db, h, slot, c);
    if l :| LastOfSlot(h, slot, l, c) {
      var found, t := SomeLatest(db.slots, h, c);
      if found && t.slot > slot {
        OldLatest(db, out, h, slot, c, t);
        assert Published(out.slots, h, t, c);
        if h[t].Tombstone? {
          if h[l].Row? {
            assert Revives(db, h, slot, c);
          } else {
            forall t', l' | Latest(db.slots, h, t', c) && LastOfSlot(h, slot, l', c) ensures l' == l {
            }
          }
        } else {
          forall t' | Latest(db.slots, h, t', c) ensures t' == t {
          }
        }
      } else {
        NewLatest(db, out, h, slot, c, l);
        forall t' | Latest(db.slots, h, t', c) ensures t'.slot <= slot {
        }
      }
    } else {
      NothingNew(db, out, h, slot, c);
    }
  }

  // ---- Every update keeps the history and the agreement ----

  lemma PublishHistory(db: Db, up: Db, h: History, slot: nat)
    requires HistoryOk(db, h) && AboutToPublish(db, up, slot) && !DeadAt(db.slots, slot)
    ensures HistoryOk(Publish(up, slot), h)
  {
  }

  lemma DeadHistory(db: Db, h: History, slot: nat, parent: Option<nat>)
    requires HistoryOk(db, h)
    ensures HistoryOk(PutSlot(db, slot, parent, Dead), h)
  {
  }

  lemma LiveHistory(db: Db, h: History, slot: nat, parent: Option<nat>, status: Commitment)
    requires HistoryOk(db, h) && !FinalizedAt(db.slots, slot) && !DeadAt(db.slots, slot) && (status.Processed? || status.Confirmed?)
    ensures HistoryOk(PutSlot(db, slot, parent, status), h)
  {
    PutSlotFrame(db, slot, parent, status);
  }

  lemma SlotHistory(db: Db, h: History, slot: nat, parent: Option<nat>, status: Commitment)
    requires HistoryOk(db, h)
    ensures HistoryOk(Ingest(db, SlotNotice(slot, parent, status)).db, h)
  {
    if status.Finalized? {
      if UpsertSlot(db, slot, parent, status).ok {
        FinalizedUpsert(db, slot, parent);
        PublishHistory(db, UpsertSlot(db, slot, parent, status).db, h, slot);
      }
    } else if status.Dead? {
      DeadHistory(db, h, slot, parent);
    } else if !FinalizedAt(db.slots, slot) && !DeadAt(db.slots, slot) {
      LiveHistory(db, h, slot, parent, status);
    }
  }

  lemma AccountHistory(db: Db, h: History, u: Update)
    requires StagedOk(db) && HistoryOk(db, h) && u.AccountNotice? && FromSource(u)
    ensures HistoryOk(Ingest(db, u).db, Record(db, h, u))
  {
    var out, h' := Ingest(db, u).db, Record(db, h, u);
    if out != db {
      NewVersion(db, u);
      forall v | v in h' ensures v in out.raw || DeadAt(out.slots, v.slot) {
        assert v != u.key ==> v in h;
      }
    }
  }

  /** What a new version changes. */
  lemma NewVersion(db: Db, u: Update)
    requires u.AccountNotice? && FromSource(u) && Ingest(db, u).db != db
    ensures var out := Ingest(db, u).db;
            && out.slots == db.slots && u.key !in db.raw && out.raw.Keys == db.raw.Keys + {u.key}
            && out.staged == if u.projection.None? then db.staged
                             else if FinalizedAt(db.slots, u.key.slot) then db.staged - {u.key}
                             else db.staged[u.key := u.projection.value]
  {
  }

  lemma KeepHistory(db: Db, h: History, u: Update)
    requires ForkInv(db) && HistoryOk(db, h) && FromSource(u)
    ensures HistoryOk(Ingest(db, u).db, Record(db, h, u))
  {
    match u
    case SlotNotice(slot, parent, status) => SlotHistory(db, h, slot, parent, status);
    case AccountNotice(_, _, _, _) => AccountHistory(db, h, u);
    case EventNotice(events) => EventsKeep(db, events);
  }

  /** Neither side of the agreement moves. */
  lemma SameSides(db: Db, out: Db, h: History, h': History, c: Cell)
    requires Agrees(db, h, c) && CellOf(out.proj, c) == CellOf(db.proj, c)
    requires forall v :: Published(out.slots, h', v, c) <==> Published(db.slots, h, v, c)
    requires forall v :: Published(db.slots, h, v, c) ==> v in h' && h'[v] == h[v]
    ensures Agrees(out, h', c)
  {
    forall v | Latest(out.slots, h', v, c) ensures CellOf(out.proj, c) == Effect(h'[v], v.slot) {
      assert Latest(db.slots, h, v, c);
    }
  }

  /** Finalizing notices: the exact condition, seen from one cell. */
  lemma FinalizedNoticeIff(db: Db, h: History, slot: nat, parent: Option<nat>, c: Cell)
    requires ForkInv(db) && HistoryOk(db, h) && Agrees(db, h, c)
    requires UpsertSlot(db, slot, parent, Finalized).ok
    ensures Agrees(Ingest(db, SlotNotice(slot, parent, Finalized)).db, h, c)
            <==> FinalizedAt(db.slots, slot) || !Revives(db, h, slot, c)
  {
    FinalizedUpsert(db, slot, parent);
    var up := UpsertSlot(db, slot, parent, Finalized).db;
    var out := Publish(up, slot);
    assert Finalizes(db, out, slot);
    if FinalizedAt(db.slots, slot) {
      NoStagedRows(db.staged, slot);
      SameSides(db, out, h, h, c);
    } else {
      FinalizeAgreesIff(db, out, h, slot, c);
    }
  }

  // ---- Late versions ----

  /** A version of a finalized slot that is new to the tables; it is applied at once. */
  predicate Late(db: Db, u: Update) {
    && u.AccountNotice? && FinalizedAt(db.slots, u.key.slot) && u.key !in db.raw && u.projection.Some?
    && u.key.slot <= I64_MAX && u.key.writeVersion <= I64_MAX
  }

  /**
   * A newer version is already public, and applying the late one hides it: an older row after a tombstone, or a
   * different content within one slot, where write versions are not compared.
   */
  ghost predicate LateBreaks(db: Db, h: History, v: Version, p: Projection, c: Cell) {
    exists t :: Latest(db.slots, h, t, c) && Touches(v, p, c) && Newer(t, v) &&
      ((t.slot > v.slot && h[t].Tombstone? && p.Row?)
       || (t.slot == v.slot && Effect(h[t], t.slot) != Effect(p, v.slot)))
  }

  lemma LateIsLatest(slots: map<nat, SlotRow>, h: History, h': History, v: Version, p: Projection, c: Cell)
    requires h' == h[v := p] && v !in h && Touches(v, p, c) && FinalizedAt(slots, v.slot)
    requires forall x :: Published(slots, h, x, c) ==> !Newer(x, v)
    ensures forall y :: Latest(slots, h', y, c) <==> y == v
  {
    assert Published(slots, h', v, c);
    forall x | Published(slots, h', x, c) ensures x == v || Published(slots, h, x, c) {
    }
  }

  lemma LateIsOlder(slots: map<nat, SlotRow>, h: History, h': History, v: Version, p: Projection, c: Cell, t: Version)
    requires h' == h[v := p] && v !in h && Touches(v, p, c) && FinalizedAt(slots, v.slot) && Latest(slots, h, t, c) && Newer(t, v)
    ensures forall y :: Latest(slots, h', y, c) <==> y == t
  {
    assert Published(slots, h', t, c) && h'[t] == h[t];
    forall x | Published(slots, h', x, c) ensures x == v || Published(slots, h, x, c) {
    }
  }

  /** The exact condition for a late version. */
  lemma LateAgreesIff(db: Db, out: Db, h: History, v: Version, p: Projection, c: Cell)
    requires Agrees(db, h, c) && v !in h && FinalizedAt(db.slots, v.slot)
    requires out.slots == db.slots && out.proj == ApplyProjection(db.proj, v, p)
    ensures Agrees(out, h[v := p], c) <==> !LateBreaks(db, h, v, p, c)
  {
    var h' := h[v := p];
    ApplyOne(db.proj, v, p, c);
    if !Touches(v, p, c) {
      SameSides(db, out, h, h', c);
    } else {
      assert Published(out.slots, h', v, c);
      var found, t := SomeLatest(db.slots, h, c);
      if found && Newer(t, v) {
        LateIsOlder(db.slots, h, h', v, p, c, t);
        forall t' | Latest(db.slots, h, t', c) ensures t' == t {
        }
      } else {
        LateIsLatest(db.slots, h, h', v, p, c);
        if found {
          forall t' | Latest(db.slots, h, t', c) ensures t' == t {
          }
        }
      }
    }
  }

  lemma LateIsUnknown(db: Db, h: History, u: Update)
    requires HistoryOk(db, h) && Late(db, u)
    ensures u.key !in h && Ingest(db, u).ok && Record(db, h, u) == h[u.key := u.projection.value]
    ensures Ingest(db, u).db.slots == db.slots
    ensures Ingest(db, u).db.proj == ApplyProjection(db.proj, u.key, u.projection.value)
  {
  }

  lemma NotLateIsQuiet(db: Db, h: History, u: Update, c: Cell)
    requires Agrees(db, h, c) && u.AccountNotice? && FromSource(u) && !Late(db, u)
    ensures Agrees(Ingest(db, u).db, Record(db, h, u), c)
  {
    SameSides(db, Ingest(db, u).db, h, Record(db, h, u), c);
  }

  // ---- The exact condition for every update ----

  /** The update revives nothing and hides nothing. */
  ghost predicate KeepsRight(db: Db, h: History, u: Update, c: Cell) {
    && (NewlyFinalizes(db, u) ==> !Revives(db, h, u.slot, c))
    && (Late(db, u) ==> !LateBreaks(db, h, u.key, u.projection.value, c))
  }

  lemma SlotAgreesIff(db: Db, h: History, u: Update, c: Cell)
    requires ForkInv(db) && HistoryOk(db, h) && Agrees(db, h, c) && u.SlotNotice?
    ensures Agrees(Ingest(db, u).db, h, c) <==> KeepsRight(db, h, u, c)
  {
    if UpsertSlot(db, u.slot, u.parent, u.status).ok && u.status.Finalized? {
      FinalizedNoticeIff(db, h, u.slot, u.parent, c);
    } else {
      UnfinalizedNotice(db, u);
      SameSides(db, Ingest(db, u).db, h, h, c);
    }
  }

  lemma UnfinalizedNotice(db: Db, u: Update)
    requires u.SlotNotice? && !(UpsertSlot(db, u.slot, u.parent, u.status).ok && u.status.Finalized?)
    ensures var out := Ingest(db, u).db;
            out.proj == db.proj && forall s :: FinalizedAt(out.slots, s) <==> FinalizedAt(db.slots, s)
  {
    PutSlotFrame(db, u.slot, u.parent, u.status);
  }

  /** Any update keeps a cell equal to the reference if and only if it revives nothing and hides nothing. */
  lemma AgreesIff(db: Db, h: History, u: Update, c: Cell)
    requires ForkInv(db) && HistoryOk(db, h) && Agrees(db, h, c) && FromSource(u)
    ensures Agrees(Ingest(db, u).db, Record(db, h, u), c) <==> KeepsRight(db, h, u, c)
  {
    match u
    case SlotNotice(_, _, _) => SlotAgreesIff(db, h, u, c);
    case AccountNotice(_, _, _, _) =>
      if Late(db, u) {
        LateIsUnknown(db, h, u);
        LateAgreesIff(db, Ingest(db, u).db, h, u.key, u.projection.value, c);
      } else {
        NotLateIsQuiet(db, h, u, c);
      }
    case EventNotice(events) =>
      EventsKeep(db, events);
      SameSides(db, Ingest(db, u).db, h, h, c);
  }

  /** No account version arrives after its slot was finalized. */
  predicate NotLate(db: Db, u: Update) {
    u.AccountNotice? ==> !FinalizedAt(db.slots, u.key.slot)
  }

  // ---- Whole runs ----

  ghost function HistoryOf(us: seq<Update>): History {
    if us == [] then map[]
    else
      var init := us[..|us| - 1];
      if Run(EMPTY_DB, init).ok then Record(Run(EMPTY_DB, init).db, HistoryOf(init), us[|us| - 1]) else HistoryOf(init)
  }

  ghost function At(us: seq<Update>, k: nat): Db requires k <= |us| {
    Run(EMPTY_DB, us[..k]).db
  }

  ghost predicate NothingLate(us: seq<Update>) {
    forall k :: 0 <= k < |us| ==> NotLate(At(us, k), us[k])
  }

  /** A newly finalized slot is above all finalized before it. */
  predicate StepInOrder(db: Db, u: Update) {
    u.SlotNotice? && u.status.Finalized? && !FinalizedAt(db.slots, u.slot) ==>
      forall s :: s in db.slots && db.slots[s].status.Finalized? ==> s < u.slot
  }

  ghost predicate InOrder(us: seq<Update>) {
    forall k :: 0 <= k < |us| ==> StepInOrder(At(us, k), us[k])
  }

  lemma PrefixPremises(us: seq<Update>)
    requires us != []
    ensures AllFromSource(us) ==> AllFromSource(us[..|us| - 1])
    ensures NothingLate(us) ==> NothingLate(us[..|us| - 1])
    ensures InOrder(us) ==> InOrder(us[..|us| - 1])
  {
    var init := us[..|us| - 1];
    forall k | 0 <= k <= |init| ensures At(us, k) == At(init, k) {
      assert init[..k] == us[..k];
    }
  }

  lemma {:induction false} RunHistory(us: seq<Update>)
    requires AllFromSource(us)
    ensures ForkInv(Run(EMPTY_DB, us).db) && HistoryOk(Run(EMPTY_DB, us).db, HistoryOf(us))
    decreases |us|
  {
    RunKeeps(EMPTY_DB, us);
    if us == [] {
    } else {
      var init := us[..|us| - 1];
      RunHistory(init);
      if Run(EMPTY_DB, init).ok {
        KeepHistory(Run(EMPTY_DB, init).db, HistoryOf(init), us[|us| - 1]);
      }
    }
  }

  /** At this point of the stream the cell shows what the reference says. */
  ghost predicate RightAt(us: seq<Update>, n: nat, c: Cell)
    requires n <= |us|
  {
    Agrees(At(us, n), HistoryOf(us[..n]), c)
  }

  /** The k-th update revives nothing and hides nothing. */
  ghost predicate StaysRight(us: seq<Update>, k: nat, c: Cell)
    requires k < |us|
  {
    Run(EMPTY_DB, us[..k]).ok ==> KeepsRight(At(us, k), HistoryOf(us[..k]), us[k], c)
  }

  lemma RightStepIff(us: seq<Update>, k: nat, c: Cell)
    requires AllFromSource(us) && k < |us| && RightAt(us, k, c)
    ensures RightAt(us, k + 1, c) <==> StaysRight(us, k, c)
  {
    assert us[..k + 1][..k] == us[..k];
    RunHistory(us[..k]);
    if Run(EMPTY_DB, us[..k]).ok {
      AgreesIff(At(us, k), HistoryOf(us[..k]), us[k], c);
    }
  }

  lemma {:induction false} RightUpTo(us: seq<Update>, n: nat, c: Cell)
    requires AllFromSource(us) && n <= |us| && forall k :: 0 <= k < n ==> StaysRight(us, k, c)
    ensures RightAt(us, n, c)
    decreases n
  {
    if n == 0 {
      assert us[..0] == [];
    } else {
      RightUpTo(us, n - 1, c);
      RightStepIff(us, n - 1, c);
    }
  }

  /**
   * Over any stream, in any order and with late versions: a public cell equals the reference at every point if and
   * only if no update puts an older row back after a tombstone or hides a newer version of its slot.
   */
  lemma AlwaysRightIff(us: seq<Update>, c: Cell)
    requires AllFromSource(us)
    ensures (forall n :: 0 <= n <= |us| ==> RightAt(us, n, c)) <==> (forall k :: 0 <= k < |us| ==> StaysRight(us, k, c))
  {
    if forall k :: 0 <= k < |us| ==> StaysRight(us, k, c) {
      forall n | 0 <= n <= |us| ensures RightAt(us, n, c) {
        RightUpTo(us, n, c);
      }
    }
    if forall n :: 0 <= n <= |us| ==> RightAt(us, n, c) {
      forall k | 0 <= k < |us| ensures StaysRight(us, k, c) {
        assert RightAt(us, k, c) && RightAt(us, k + 1, c);
        RightStepIff(us, k, c);
      }
    }
  }

  /**
   * When slots finalize in increasing order and nothing arrives late, every public cell equals the reference:
   * the last version by (slot, write version) among finalized slots, absent after a tombstone.
   */
  lemma {:induction false} InOrderIsReference(us: seq<Update>, c: Cell)
    requires AllFromSource(us) && NothingLate(us) && InOrder(us)
    ensures Agrees(Run(EMPTY_DB, us).db, HistoryOf(us), c)
    decreases |us|
  {
    if us == [] {
    } else {
      var init := us[..|us| - 1];
      PrefixPremises(us);
      InOrderIsReference(init, c);
      RunHistory(init);
      if Run(EMPTY_DB, init).ok {
        var db, h, u := Run(EMPTY_DB, init).db, HistoryOf(init), us[|us| - 1];
        assert At(us, |us| - 1) == db;
        if u.SlotNotice? && u.status.Finalized? && !FinalizedAt(db.slots, u.slot) {
          forall t | Latest(db.slots, h, t, c) ensures t.slot < u.slot {
            assert FinalizedAt(db.slots, t.slot);
          }
        }
        AgreesIff(db, h, u, c);
      }
    }
  }

  /** The address never ends. */
  predicate NeverTombstoned(us: seq<Update>, address: nat) {
    forall k :: 0 <= k < |us| && us[k].AccountNotice? && us[k].key.address == address ==> us[k].projection != Some(Tombstone)
  }

  /** For an address that is never tombstoned, the order of finalization does not matter. */
  lemma {:induction false} AnyOrderWithoutTombstones(us: seq<Update>, c: Cell)
    requires AllFromSource(us) && NothingLate(us) && NeverTombstoned(us, c.address)
    ensures Agrees(Run(EMPTY_DB, us).db, HistoryOf(us), c)
    ensures forall v :: v in HistoryOf(us) && v.address == c.address ==> !HistoryOf(us)[v].Tombstone?
    decreases |us|
  {
    if us == [] {
    } else {
      var init := us[..|us| - 1];
      PrefixPremises(us);
      AnyOrderWithoutTombstones(init, c);
      RunHistory(init);
      if Run(EMPTY_DB, init).ok {
        var db, h, u := Run(EMPTY_DB, init).db, HistoryOf(init), us[|us| - 1];
        assert At(us, |us| - 1) == db;
        AgreesIff(db, h, u, c);
      }
    }
  }

  /** So two streams with the same versions and the same finalized slots show the same cell, in whatever order. */
  lemma OrderDoesNotMatter(us: seq<Update>, vs: seq<Update>, c: Cell)
    requires AllFromSource(us) && NothingLate(us) && NeverTombstoned(us, c.address)
    requires AllFromSource(vs) && NothingLate(vs) && NeverTombstoned(vs, c.address)
    requires HistoryOf(us) == HistoryOf(vs)
    requires forall s :: FinalizedAt(Run(EMPTY_DB, us).db.slots, s) <==> FinalizedAt(Run(EMPTY_DB, vs).db.slots, s)
    ensures CellOf(Run(EMPTY_DB, us).db.proj, c) == CellOf(Run(EMPTY_DB, vs).db.proj, c)
  {
    AnyOrderWithoutTombstones(us, c);
    AnyOrderWithoutTombstones(vs, c);
    AgreementDetermines(Run(EMPTY_DB, us).db, Run(EMPTY_DB, vs).db, HistoryOf(us), c);
  }

  // ---- A stream that goes wrong ----

  const LIFE := Version(7, 1, 0)
  const DEATH := Version(7, 2, 0)

  /** An account that lives in slot 1 and ends in slot 2, with slot 2 finalized first. */
  const BIRTH_NOTICE := AccountNotice(LIFE, 0, Processed, Some(Row(JobTable, 5)))
  const DEATH_NOTICE := AccountNotice(DEATH, 0, Processed, Some(Tombstone))
  const DEATH_FINAL := SlotNotice(2, None, Finalized)
  const DEATH_FIRST: seq<Update> := [BIRTH_NOTICE, DEATH_NOTICE, DEATH_FINAL]
  const SHORT_LIFE: History := map[LIFE := Row(JobTable, 5), DEATH := Tombstone]

  lemma HistorySnoc(us: seq<Update>, u: Update)
    ensures HistoryOf(us + [u])
            == if Run(EMPTY_DB, us).ok then Record(Run(EMPTY_DB, us).db, HistoryOf(us), u) else HistoryOf(us)
  {
    assert (us + [u])[..|us|] == us;
  }

  lemma TwoNotices()
    ensures var us := [BIRTH_NOTICE, DEATH_NOTICE];
            && Run(EMPTY_DB, us).ok && Run(EMPTY_DB, us).db.slots == map[] && HistoryOf(us) == SHORT_LIFE
            && Run(EMPTY_DB, us[..1]).db.slots == map[]
  {
    RunSnoc(EMPTY_DB, [], BIRTH_NOTICE);
    HistorySnoc([], BIRTH_NOTICE);
    assert [] + [BIRTH_NOTICE] == [BIRTH_NOTICE];
    RunSnoc(EMPTY_DB, [BIRTH_NOTICE], DEATH_NOTICE);
    HistorySnoc([BIRTH_NOTICE], DEATH_NOTICE);
    assert [BIRTH_NOTICE] + [DEATH_NOTICE] == [BIRTH_NOTICE, DEATH_NOTICE];
    assert [BIRTH_NOTICE, DEATH_NOTICE][..1] == [BIRTH_NOTICE];
  }

  lemma DeathFirstRun()
    ensures Run(EMPTY_DB, DEATH_FIRST).ok && HistoryOf(DEATH_FIRST) == SHORT_LIFE
    ensures Run(EMPTY_DB, DEATH_FIRST).db.slots == map[2 := SlotRow(Finalized, None)]
  {
    TwoNotices();
    var us := [BIRTH_NOTICE, DEATH_NOTICE];
    RunSnoc(EMPTY_DB, us, DEATH_FINAL);
    HistorySnoc(us, DEATH_FINAL);
    assert us + [DEATH_FINAL] == DEATH_FIRST;
    EngineSkipsAncestry(Run(EMPTY_DB, us).db, 2, None);
    FinalizedUpsert(Run(EMPTY_DB, us).db, 2, None);
  }

  lemma DeathFirstIsFine(c: Cell)
    ensures AllFromSource(DEATH_FIRST) && NothingLate(DEATH_FIRST) && InOrder(DEATH_FIRST)
    ensures Agrees(Run(EMPTY_DB, DEATH_FIRST).db, SHORT_LIFE, c)
  {
    TwoNotices();
    DeathFirstRun();
    assert DEATH_FIRST[..0] == [] && DEATH_FIRST[..1] == [BIRTH_NOTICE] && DEATH_FIRST[..2] == [BIRTH_NOTICE, DEATH_NOTICE];
    assert [BIRTH_NOTICE, DEATH_NOTICE][..1] == [BIRTH_NOTICE];
    InOrderIsReference(DEATH_FIRST, c);
  }

  lemma LifeWouldReturn(db: Db, c: Cell)
    requires db.slots == map[2 := SlotRow(Finalized, None)] && c == Cell(JobTable, 7)
    ensures Revives(db, SHORT_LIFE, 1, c)
  {
    assert Latest(db.slots, SHORT_LIFE, DEATH, c);
    assert LastOfSlot(SHORT_LIFE, 1, LIFE, c);
  }

  lemma FinalizingLife(db: Db, h: History, c: Cell)
    requires ForkInv(db) && HistoryOk(db, h) && Agrees(db, h, c) && Revives(db, h, 1, c) && 1 !in db.slots
    ensures var last := SlotNotice(1, None, Finalized);
            Ingest(db, last).ok && Record(db, h, last) == h && !Agrees(Ingest(db, last).db, h, c)
  {
    EngineSkipsAncestry(db, 1, None);
    SlotAgreesIff(db, h, SlotNotice(1, None, Finalized), c);
  }

  /**
   * A tombstone leaves no row behind: a stream that was right brings the account back when it finalizes the older
   * slot, without any late version.
   */
  lemma OutOfOrderRevives()
    ensures var c, us := Cell(JobTable, 7), DEATH_FIRST + [SlotNotice(1, None, Finalized)];
            && Agrees(Run(EMPTY_DB, DEATH_FIRST).db, HistoryOf(DEATH_FIRST), c)
            && Run(EMPTY_DB, us).ok && !Agrees(Run(EMPTY_DB, us).db, HistoryOf(us), c)
  {
    var c, db, last := Cell(JobTable, 7), Run(EMPTY_DB, DEATH_FIRST).db, SlotNotice(1, None, Finalized);
    DeathFirstRun();
    DeathFirstIsFine(c);
    RunHistory(DEATH_FIRST);
    LifeWouldReturn(db, c);
    FinalizingLife(db, SHORT_LIFE, c);
    RunSnoc(EMPTY_DB, DEATH_FIRST, last);
    HistorySnoc(DEATH_FIRST, last);
  }
}
