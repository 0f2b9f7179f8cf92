/** The projection repository: tables changed in place, each method proved against its function. */
module IndexerRepo {
  import opened Limits
  import opened Options
  import opened IndexerModel
  import opened Ancestry

  /** Strictly ordered lists of the same elements are the same list. */
  lemma {:induction false} SameListing(a: seq<Version>, b: seq<Version>)
    requires forall i, j :: 0 <= i < j < |a| ==> Before(a[i], a[j])
    requires forall i, j :: 0 <= i < j < |b| ==> Before(b[i], b[j])
    requires forall v :: v in a <==> v in b
    ensures a == b
    decreases |a|
  {
    if a == [] {
      if |b| > 0 {
        FirstIn(b);
        assert false;
      }
    } else {
      var x := a[|a| - 1];
      assert x in b;
      var y := b[|b| - 1];
      assert y in a;
      assert x == y;
      var a', b' := a[..|a| - 1], b[..|b| - 1];
      forall v ensures v in a' <==> v in b' {
        if v in a' {
          var i :| 0 <= i < |a'| && a'[i] == v;
          assert Before(a[i], x);
          assert v in b;
          var j :| 0 <= j < |b| && b[j] == v;
          assert b'[j] == v;
        }
        if v in b' {
          var i :| 0 <= i < |b'| && b'[i] == v;
          assert Before(b[i], y);
          assert v in a;
          var j :| 0 <= j < |a| && a[j] == v;
          assert a'[j] == v;
        }
      }
      SameListing(a', b');
    }
  }

  lemma FirstIn(b: seq<Version>)
    requires |b| > 0
    ensures b[0] in b
  {
  }

  lemma ListsUnique(rows: seq<Version>, staged: map<Version, Projection>, slot: nat)
    requires Lists(rows, staged, slot)
    ensures rows == StagedRows(staged, slot)
  {
    var other := StagedRows(staged, slot);
    forall v ensures v in rows <==> v in other {
      if v in rows {
        var i :| 0 <= i < |rows| && rows[i] == v;
      }
      if v in other {
        var i :| 0 <= i < |other| && other[i] == v;
      }
    }
    SameListing(rows, other);
  }

  class ProjectionRepo {
    var slots: map<nat, SlotRow>
    var raw: map<Version, RawRow>
    var staged: map<Version, Projection>
    var proj: PublicTables
    var events: map<EventKey, EventRow>
    var finalizedSlot: nat
    var processedSlot: nat

    ghost function View(): Db
      reads this
    {
      Db(slots, raw, staged, proj, events, finalizedSlot, processedSlot)
    }

    constructor ()
      ensures View() == EMPTY_DB
    {
      slots, raw, staged, proj, events := map[], map[], map[], map[], map[];
      finalizedSlot, processedSlot := 0, 0;
    }

    method UpsertSlot(slot: nat, parent: Option<nat>, status: Commitment) returns (ok: bool)
      modifies this
      ensures Outcome(View(), ok) == IndexerModel.UpsertSlot(old(View()), slot, parent, status)
    {
      if parent == Some(slot) || slot > I64_MAX || (parent.Some? && parent.value > I64_MAX) {
        return false;
      }
      if slot in slots {
        var current := slots[slot];
        if !ParentReconciles(current.parent, parent, current.status) {
          return false;
        }
        if (current.status.Finalized? && status.Dead?) || (current.status.Dead? && status.Finalized?) {
          return false;
        }
        if !CanUpgrade(current.status, status) {
          return true;
        }
        slots := slots[slot := SlotRow(status, if current.parent.Some? then current.parent else parent)];
      } else {
        slots := slots[slot := SlotRow(status, parent)];
      }
      if status.Dead? {
        CleanupDeadSlot(slot);
      } else {
        processedSlot := Max(processedSlot, slot);
      }
      return true;
    }

    method CleanupDeadSlot(slot: nat)
      modifies `raw, `events, `staged
      ensures View() == CleanupDead(old(View()), slot)
    {
      raw := map v | v in raw && !(v.slot == slot && !raw[v].commitment.Finalized?) :: raw[v];
      events := map k | k in events && !(events[k].slot == slot && !events[k].commitment.Finalized?) :: events[k];
      staged := map v | v in staged && v.slot != slot :: staged[v];
    }

    /** A tombstone clears the address from all five tables; a row goes to its own, newest slot winning. */
    method ApplyProjection(v: Version, p: Projection)
      modifies `proj
      ensures proj == IndexerModel.ApplyProjection(old(proj), v, p)
    {
      match p {
        case Tombstone =>
          var tables := [JobTable, ProviderTable, BondTable, ChallengeTable, ConfigTable];
          assert forall k: Kind :: k in tables by {
            forall k: Kind ensures k in tables {
              match k
              case JobTable => assert tables[0] == k;
              case ProviderTable => assert tables[1] == k;
              case BondTable => assert tables[2] == k;
              case ChallengeTable => assert tables[3] == k;
              case ConfigTable => assert tables[4] == k;
            }
          }
          for i := 0 to |tables|
            invariant forall c :: c in proj <==>
              c in old(proj) && !(c.address == v.address && old(proj)[c].asOf <= v.slot && c.kind in tables[..i])
            invariant forall c :: c in proj ==> proj[c] == old(proj)[c]
          {
            var c := Cell(tables[i], v.address);
            if c in proj && proj[c].asOf <= v.slot {
              proj := proj - {c};
            }
          }
          assert tables[..|tables|] == tables;
        case Row(kind, body) =>
          var c := Cell(kind, v.address);
          if c !in proj || proj[c].asOf <= v.slot {
            proj := proj[c := PublicRow(v.slot, body)];
          }
      }
    }

    /** The ordered query over the staged rows of a slot. */
    method SelectStaged(slot: nat) returns (rows: seq<Version>)
      ensures rows == StagedRows(staged, slot)
    {
      var todo := set v | v in staged && v.slot == slot;
      rows := [];
      while todo != {}
        invariant forall v :: v in todo ==> v in staged && v.slot == slot
        invariant forall i, j :: 0 <= i < j < |rows| ==> Before(rows[i], rows[j])
        invariant forall i, v :: 0 <= i < |rows| && v in todo ==> Before(rows[i], v)
        invariant forall i :: 0 <= i < |rows| ==> rows[i] in staged && rows[i].slot == slot
        invariant forall v :: v in staged && v.slot == slot ==> v in rows || v in todo
        decreases todo
      {
        var least := SmallestExists(todo, slot);
        var m :| m in todo && forall v :: v in todo && v != m ==> Before(m, v);
        rows := rows + [m];
        todo := todo - {m};
      }
      ListsUnique(rows, staged, slot);
    }

    method FinalizeSlot(slot: nat) returns (ok: bool)
      modifies this
      ensures Outcome(View(), ok) == IndexerModel.FinalizeSlot(old(View()), slot)
    {
      if slot > I64_MAX || slot !in slots || slots[slot].status.Dead? {
        return false;
      }
      if !slots[slot].status.Finalized? {
        ok := AssertAncestry(slots, slot);
        if !ok {
          return false;
        }
      }
      var rows := SelectStaged(slot);
      slots := slots[slot := slots[slot].(status := Finalized)];
      raw := map v | v in raw :: if v.slot == slot then raw[v].(commitment := Finalized) else raw[v];
      events := map k | k in events ::
        if events[k].slot == slot then events[k].(commitment := Finalized) else events[k];
      PublishRows(rows);
      staged := map v | v in staged && v.slot != slot :: staged[v];
      finalizedSlot := Max(finalizedSlot, slot);
      processedSlot := Max(processedSlot, slot);
      return true;
    }

    method PublishRows(rows: seq<Version>)
      requires forall i :: 0 <= i < |rows| ==> rows[i] in staged
      modifies `proj
      ensures proj == PublishAll(old(proj), rows, staged)
    {
      for i := 0 to |rows|
        invariant proj == PublishAll(old(proj), rows[..i], staged)
      {
        assert rows[..i + 1][..i] == rows[..i];
        ApplyProjection(rows[i], staged[rows[i]]);
      }
      assert rows[..|rows|] == rows;
    }

    method InsertAccountWithProjection(key: Version, content: nat, claimed: Commitment, projection: Option<Projection>) returns (ok: bool)
      modifies this
      ensures Outcome(View(), ok) == InsertAccount(old(View()), key, content, claimed, projection)
    {
      if key.slot > I64_MAX || key.writeVersion > I64_MAX {
        return false;
      }
      var applyNow := (key.slot in slots && slots[key.slot].status.Finalized?) || claimed.Finalized?;
      var commitment := if applyNow then Finalized else claimed;
      if commitment.Dead? {
        return false;
      }
      if key in raw {
        return true;
      }
      raw := raw[key := RawRow(content, commitment)];
      if projection.Some? {
        ghost var staged0 := staged;
        staged := staged[key := projection.value];
        if applyNow {
          ApplyProjection(key, projection.value);
          staged := staged - {key};
          assert staged == staged0 - {key};
        }
      }
      return true;
    }

    method InsertEvent(e: Event) returns (ok: bool)
      modifies this
      ensures Outcome(View(), ok) == IndexerModel.InsertEvent(old(View()), e)
    {
      if e.slot > I64_MAX {
        return false;
      }
      var commitment := if e.slot in slots && slots[e.slot].status.Finalized? then Finalized else e.commitment;
      if commitment.Dead? {
        return false;
      }
      if e.key !in events {
        events := events[e.key := EventRow(e.slot, e.content, commitment)];
      }
      return true;
    }

    /** The database side of one stream update. */
    method IngestUpdate(u: Update) returns (ok: bool)
      modifies this
      ensures Outcome(View(), ok) == Ingest(old(View()), u)
    {
      match u {
        case SlotNotice(slot, parent, status) =>
          ok := UpsertSlot(slot, parent, status);
          if ok && status.Finalized? {
            ok := FinalizeSlot(slot);
          }
        case AccountNotice(key, content, commitment, projection) =>
          ok := InsertAccountWithProjection(key, content, commitment, projection);
        case EventNotice(evs) =>
          ok := true;
          var i := 0;
          while i < |evs|
            invariant 0 <= i <= |evs| && ok
            invariant Outcome(View(), ok) == InsertEvents(old(View()), evs[..i])
          {
            assert evs[..i + 1][..i] == evs[..i];
            ok := InsertEvent(evs[i]);
            if !ok {
              EventsStop(old(View()), evs, i + 1);
              return;
            }
            i := i + 1;
          }
          assert evs[..|evs|] == evs;
      }
    }
  }

  /** A failed event ends its notice. */
  lemma {:induction false} EventsStop(db: Db, evs: seq<Event>, n: nat)
    requires n <= |evs| && !InsertEvents(db, evs[..n]).ok
    ensures InsertEvents(db, evs) == InsertEvents(db, evs[..n])
    decreases |evs| - n
  {
    if n == |evs| {
      assert evs[..n] == evs;
    } else {
      assert evs[..n + 1][..n] == evs[..n];
      EventsStop(db, evs, n + 1);
    }
  }
}
