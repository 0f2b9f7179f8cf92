/** What the engine itself guarantees about parents, given that its finalizations skip the ancestry check. */
module IndexerParents {
  import opened Options
  import opened IndexerModel
  import opened IndexerForks

  /** Every finalized slot has no parent or a finalized one. */
  ghost predicate ParentsFinal(slots: map<nat, SlotRow>) {
    forall s :: FinalizedAt(slots, s) ==> ReadyParent(slots, slots[s].parent)
  }

  predicate ReadyParent(slots: map<nat, SlotRow>, parent: Option<nat>) {
    parent.None? || FinalizedAt(slots, parent.value)
  }

  /** Finalized rows stay as they are, and at most the slot of a newly finalizing notice joins them. */
  lemma FinalizedRows(db: Db, u: Update)
    ensures var out := Ingest(db, u).db.slots;
            && (forall s :: FinalizedAt(db.slots, s) ==> FinalizedAt(out, s) && out[s] == db.slots[s])
            && (NewlyFinalizes(db, u) ==> u.parent != Some(u.slot) && FinalizedAt(out, u.slot) && out[u.slot].parent == u.parent)
            && (forall s :: FinalizedAt(out, s) ==> FinalizedAt(db.slots, s) || (NewlyFinalizes(db, u) && s == u.slot))
  {
    match u
    case SlotNotice(slot, parent, status) =>
      if status.Finalized? {
        FinalizedRowsOnFinal(db, slot, parent);
      } else {
        PutSlotFrame(db, slot, parent, status);
      }
    case AccountNotice(_, _, _, _) =>
    case EventNotice(events) => EventsKeepSlots(db, events);
  }

  lemma FinalizedRowsOnFinal(db: Db, slot: nat, parent: Option<nat>)
    ensures var out := Ingest(db, SlotNotice(slot, parent, Finalized)).db.slots;
            if UpsertSlot(db, slot, parent, Finalized).ok
            then out == db.slots[slot := SlotRow(Finalized, parent)] && parent != Some(slot)
                 && (FinalizedAt(db.slots, slot) ==> db.slots[slot] == SlotRow(Finalized, parent))
            else out == db.slots
  {
    if UpsertSlot(db, slot, parent, Finalized).ok {
      FinalizedUpsert(db, slot, parent);
      PutSlotFrame(db, slot, parent, Finalized);
    }
  }

  lemma {:induction false} EventsKeepSlots(db: Db, events: seq<Event>)
    ensures InsertEvents(db, events).db.slots == db.slots
    decreases |events|
  {
    if events == [] {
    } else {
      EventsKeepSlots(db, events[..|events| - 1]);
    }
  }

  /** One update keeps the property if and only if it finalizes no slot over a parent that is not finalized. */
  lemma StepKeepsParentsIff(db: Db, u: Update)
    requires ParentsFinal(db.slots)
    ensures ParentsFinal(Ingest(db, u).db.slots) <==> (NewlyFinalizes(db, u) ==> ReadyParent(db.slots, u.parent))
  {
    FinalizedRows(db, u);
    var out := Ingest(db, u).db.slots;
    if NewlyFinalizes(db, u) && u.parent.Some? {
      assert FinalizedAt(out, u.parent.value) <==> FinalizedAt(db.slots, u.parent.value);
    }
  }

  // ---- Whole runs ----

  ghost function Point(us: seq<Update>, k: nat): Outcome
    requires k <= |us|
  {
    Run(EMPTY_DB, us[..k])
  }

  lemma PointStep(us: seq<Update>, k: nat)
    requires k < |us|
    ensures Point(us, k + 1) == if Point(us, k).ok then Ingest(Point(us, k).db, us[k]) else Point(us, k)
  {
    assert us[..k + 1][..k] == us[..k];
  }

  /** The k-th update finalizes only over a finalized parent, if it finalizes anything. */
  ghost predicate InLine(us: seq<Update>, k: nat)
    requires k < |us|
  {
    Point(us, k).ok && NewlyFinalizes(Point(us, k).db, us[k]) ==> ReadyParent(Point(us, k).db.slots, us[k].parent)
  }

  lemma {:induction false} ParentsUpTo(us: seq<Update>, n: nat)
    requires n <= |us| && forall k :: 0 <= k < n ==> InLine(us, k)
    ensures ParentsFinal(Point(us, n).db.slots)
    decreases n
  {
    if n == 0 {
      assert us[..0] == [];
    } else {
      ParentsUpTo(us, n - 1);
      PointStep(us, n - 1);
      assert InLine(us, n - 1);
      StepKeepsParentsIff(Point(us, n - 1).db, us[n - 1]);
    }
  }

  /**
   * Over any stream: at every point each finalized slot has no parent or a finalized one, if and only if no update
   * of the stream finalizes a slot before its parent.
   */
  lemma EngineKeepsParentsIff(us: seq<Update>)
    ensures (forall n :: 0 <= n <= |us| ==> ParentsFinal(Point(us, n).db.slots))
            <==> (forall k :: 0 <= k < |us| ==> InLine(us, k))
  {
    if forall k :: 0 <= k < |us| ==> InLine(us, k) {
      forall n | 0 <= n <= |us| ensures ParentsFinal(Point(us, n).db.slots) {
        ParentsUpTo(us, n);
      }
    }
    if forall n :: 0 <= n <= |us| ==> ParentsFinal(Point(us, n).db.slots) {
      forall k | 0 <= k < |us| ensures InLine(us, k) {
        assert ParentsFinal(Point(us, k).db.slots) && ParentsFinal(Point(us, k + 1).db.slots);
        PointStep(us, k);
        StepKeepsParentsIff(Point(us, k).db, us[k]);
      }
    }
  }

  // ---- Whole ancestries ----

  /** A chain of finalized slots from `s` to a root. */
  ghost predicate FinalChain(slots: map<nat, SlotRow>, s: nat, chain: seq<nat>) {
    IsChain(slots, chain) && chain[0] == s && forall i :: 0 <= i < |chain| ==> FinalizedAt(slots, chain[i])
  }

  ghost predicate HasRoot(slots: map<nat, SlotRow>, s: nat) {
    exists chain :: FinalChain(slots, s, chain)
  }

  ghost predicate Rooted(slots: map<nat, SlotRow>) {
    forall s {:trigger HasRoot(slots, s)} :: FinalizedAt(slots, s) ==> HasRoot(slots, s)
  }

  lemma ChainStays(old': map<nat, SlotRow>, new': map<nat, SlotRow>, s: nat, chain: seq<nat>)
    requires FinalChain(old', s, chain)
    requires forall x :: FinalizedAt(old', x) ==> FinalizedAt(new', x) && new'[x] == old'[x]
    ensures FinalChain(new', s, chain)
  {
    forall i | 0 <= i < |chain| ensures FinalizedAt(new', chain[i]) && new'[chain[i]] == old'[chain[i]] {
      assert FinalizedAt(old', chain[i]);
    }
  }

  lemma ChainGrows(slots: map<nat, SlotRow>, s: nat, p: nat, chain: seq<nat>)
    requires FinalChain(slots, p, chain) && FinalizedAt(slots, s) && slots[s].parent == Some(p)
    ensures FinalChain(slots, s, [s] + chain)
  {
    var longer := [s] + chain;
    forall i | 0 <= i < |longer| ensures FinalizedAt(slots, longer[i]) {
      assert i > 0 ==> longer[i] == chain[i - 1];
    }
  }

  lemma StepKeepsRooted(db: Db, u: Update)
    requires Rooted(db.slots) && (NewlyFinalizes(db, u) ==> ReadyParent(db.slots, u.parent))
    ensures Rooted(Ingest(db, u).db.slots)
  {
    FinalizedRows(db, u);
    var out := Ingest(db, u).db.slots;
    forall s | FinalizedAt(out, s) ensures HasRoot(out, s) {
      if FinalizedAt(db.slots, s) {
        RootStays(db.slots, out, s);
      } else if u.parent.None? {
        assert FinalChain(out, s, [s]);
      } else {
        RootStays(db.slots, out, u.parent.value);
        RootGrows(out, s, u.parent.value);
      }
    }
  }

  lemma RootStays(old': map<nat, SlotRow>, new': map<nat, SlotRow>, s: nat)
    requires Rooted(old') && FinalizedAt(old', s)
    requires forall x :: FinalizedAt(old', x) ==> FinalizedAt(new', x) && new'[x] == old'[x]
    ensures HasRoot(new', s)
  {
    assert HasRoot(old', s);
    var chain :| FinalChain(old', s, chain);
    ChainStays(old', new', s, chain);
  }

  lemma RootGrows(slots: map<nat, SlotRow>, s: nat, p: nat)
    requires HasRoot(slots, p) && FinalizedAt(slots, s) && slots[s].parent == Some(p)
    ensures HasRoot(slots, s)
  {
    var chain :| FinalChain(slots, p, chain);
    ChainGrows(slots, s, p, chain);
  }

  lemma RootedHasParents(slots: map<nat, SlotRow>)
    requires Rooted(slots)
    ensures ParentsFinal(slots)
  {
    forall s | FinalizedAt(slots, s) ensures ReadyParent(slots, slots[s].parent) {
      assert HasRoot(slots, s);
      var chain :| FinalChain(slots, s, chain);
      if |chain| > 1 {
        assert slots[chain[0]].parent == Some(chain[1]);
        assert FinalizedAt(slots, chain[1]);
      }
    }
  }

  lemma {:induction false} RootedUpTo(us: seq<Update>, n: nat)
    requires n <= |us| && forall k :: 0 <= k < n ==> InLine(us, k)
    ensures Rooted(Point(us, n).db.slots)
    decreases n
  {
    if n == 0 {
      assert us[..0] == [];
    } else {
      RootedUpTo(us, n - 1);
      PointStep(us, n - 1);
      assert InLine(us, n - 1);
      if Point(us, n - 1).ok {
        StepKeepsRooted(Point(us, n - 1).db, us[n - 1]);
      }
    }
  }

  /**
   * The same for whole ancestries: at every point each finalized slot has a chain of finalized slots to a root, so no
   * cycle and no dead ancestor, if and only if no update of the stream finalizes a slot before its parent.
   */
  lemma EngineKeepsAncestryIff(us: seq<Update>)
    ensures (forall n :: 0 <= n <= |us| ==> Rooted(Point(us, n).db.slots))
            <==> (forall k :: 0 <= k < |us| ==> InLine(us, k))
  {
    if forall k :: 0 <= k < |us| ==> InLine(us, k) {
      forall n | 0 <= n <= |us| ensures Rooted(Point(us, n).db.slots) {
        RootedUpTo(us, n);
      }
    }
    if forall n :: 0 <= n <= |us| ==> Rooted(Point(us, n).db.slots) {
      forall n | 0 <= n <= |us| ensures ParentsFinal(Point(us, n).db.slots) {
        RootedHasParents(Point(us, n).db.slots);
      }
      EngineKeepsParentsIff(us);
    }
  }
}
