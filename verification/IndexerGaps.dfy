/** Gap tracking of the indexer's main loop. */
module IndexerGaps {
  import opened Limits
  import opened Options

  newtype u64 = x: int | 0 <= x < 0x1_0000_0000_0000_0000

  /** A recorded range of slots, both ends included. */
  datatype Gap = Gap(from: u64, to: u64)
  {
    predicate Has(slot: u64) {
      from <= slot <= to
    }
  }

  predicate Between(prev: u64, x: u64, slot: u64) {
    prev < x < slot
  }

  /** The slots strictly between two notices; none of the arithmetic can overflow. */
  function DetectForwardGap(prev: u64, slot: u64): (gap: Option<Gap>)
    ensures gap.None? <==> forall x: u64 :: !Between(prev, x, slot)
    ensures gap.Some? ==> forall x: u64 :: gap.value.Has(x) <==> Between(prev, x, slot)
  {
    if prev as int == U64_MAX then None
    else
      var next := prev + 1;
      if slot > next then
        assert Between(prev, next, slot);
        Some(Gap(next, slot - 1))
      else None
  }

  /** The slot a run starts from. */
  function StartingSlot(finalized: u64, processed: u64): Option<u64> {
    if processed > 0 then Some(processed) else if finalized > 0 then Some(finalized) else None
  }

  datatype Tracking = Tracking(last: Option<u64>, gaps: seq<Gap>)

  function Advanced(t: Tracking, slot: u64): Tracking {
    if t.last.Some? && slot <= t.last.value then t
    else
      var gap := if t.last.Some? then DetectForwardGap(t.last.value, slot) else None;
      Tracking(Some(slot), t.gaps + if gap.Some? then [gap.value] else [])
  }

  /** The gaps of a stream of notices. */
  function Tracked(start: Option<u64>, notices: seq<u64>): Tracking {
    if notices == [] then Tracking(start, [])
    else Advanced(Tracked(start, notices[..|notices| - 1]), notices[|notices| - 1])
  }

  /** The gap a notice opens does not fit the signed columns of the gap table. */
  predicate Unrecordable(t: Tracking, slot: u64) {
    && t.last.Some?
    && var gap := DetectForwardGap(t.last.value, slot);
    gap.Some? && gap.value.to as int > I64_MAX
  }

  /** The engine stops at the first notice it cannot store. */
  datatype Watch = Watch(tracking: Tracking, ok: bool)

  function Watched(start: Option<u64>, notices: seq<u64>): Watch {
    if notices == [] then Watch(Tracking(start, []), true)
    else
      var before, slot := Watched(start, notices[..|notices| - 1]), notices[|notices| - 1];
      if !before.ok then before
      else if Unrecordable(before.tracking, slot) then Watch(before.tracking, false)
      else Watch(Advanced(before.tracking, slot), slot as int <= I64_MAX)
  }

  /** The main loop over the slot notices of a stream, gap repairs included as further notices. */
  method TrackSlots(finalized: u64, processed: u64, notices: seq<u64>) returns (w: Watch)
    ensures w == Watched(StartingSlot(finalized, processed), notices)
  {
    var last := StartingSlot(finalized, processed);
    ghost var start := last;
    var gaps: seq<Gap> := [];
    var ok, n := true, 0;
    while ok && n < |notices|
      invariant n <= |notices| && Watch(Tracking(last, gaps), ok) == Watched(start, notices[..n])
    {
      var slot := notices[n];
      assert notices[..n + 1][..n] == notices[..n];
      n := n + 1;
      if last.Some? {
        var gap := DetectForwardGap(last.value, slot);
        if gap.Some? {
          if gap.value.to as int > I64_MAX {
            ok := false;
          } else {
            gaps := gaps + [gap.value];
            last := Some(slot);
          }
        } else if slot > last.value {
          last := Some(slot);
        }
      } else {
        last := Some(slot);
      }
      if slot as int > I64_MAX {
        ok := false;
      }
    }
    if ok {
      assert notices[..n] == notices;
    } else {
      StoppedForGood(start, notices, n);
    }
    w := Watch(Tracking(last, gaps), ok);
  }

  lemma {:induction false} StoppedForGood(start: Option<u64>, notices: seq<u64>, n: nat)
    requires n <= |notices| && !Watched(start, notices[..n]).ok
    ensures Watched(start, notices) == Watched(start, notices[..n])
    decreases |notices|
  {
    if n == |notices| {
      assert notices[..n] == notices;
    } else {
      var init := notices[..|notices| - 1];
      assert init[..n] == notices[..n];
      StoppedForGood(start, init, n);
    }
  }

  /**
   * The loop tracks a prefix of the stream, and all of it if and only if every slot fits the signed columns; what
   * follows about gaps therefore holds of everything the engine took.
   */
  lemma {:induction false} WatchesPrefix(start: Option<u64>, notices: seq<u64>) returns (n: nat)
    ensures n <= |notices| && Watched(start, notices).tracking == Tracked(start, notices[..n])
    ensures Watched(start, notices).ok <==> forall i :: 0 <= i < |notices| ==> notices[i] as int <= I64_MAX
    ensures Watched(start, notices).ok ==> n == |notices|
    decreases |notices|
  {
    if notices == [] {
      n := 0;
    } else {
      var init, slot := notices[..|notices| - 1], notices[|notices| - 1];
      n := WatchesPrefix(start, init);
      assert init[..n] == notices[..n];
      var before := Watched(start, init);
      if before.ok && !Unrecordable(before.tracking, slot) {
        n := |notices|;
        assert notices[..n] == notices && init[..|init|] == init;
      }
      if before.ok && Unrecordable(before.tracking, slot) {
        assert Between(before.tracking.last.value, slot - 1, slot);
      }
    }
  }

  // ---- Coverage ----

  /** The slot from which coverage counts: the checkpoint, or else the first notice. */
  function Origin(start: Option<u64>, notices: seq<u64>): u64
    requires start.Some? || notices != []
  {
    if start.Some? then start.value else notices[0]
  }

  /** Highest slot so far. */
  function Highest(start: Option<u64>, notices: seq<u64>): (h: u64)
    requires start.Some? || notices != []
    ensures h >= Origin(start, notices)
    ensures forall i :: 0 <= i < |notices| ==> notices[i] <= h
    ensures start == Some(h) || h in notices
  {
    if notices == [] then start.value
    else
      var n := |notices| - 1;
      if n == 0 && start.None? then notices[0]
      else
        var before := Highest(start, notices[..n]);
        if notices[n] > before then notices[n] else before
  }

  ghost predicate InGap(gaps: seq<Gap>, x: u64) {
    exists i :: 0 <= i < |gaps| && gaps[i].Has(x)
  }

  /** `x` was the highest slot so far at the moment it was notified. */
  ghost predicate IsRecord(start: Option<u64>, notices: seq<u64>, x: u64) {
    exists i :: 0 <= i < |notices| && notices[i] == x && Above(start, notices[..i], x)
  }

  predicate Above(start: Option<u64>, notices: seq<u64>, x: u64) {
    (start.Some? ==> start.value < x) && forall i :: 0 <= i < |notices| ==> notices[i] < x
  }

  lemma {:induction false} LastIsHighest(start: Option<u64>, notices: seq<u64>)
    requires start.Some? || notices != []
    ensures Tracked(start, notices).last == Some(Highest(start, notices))
    decreases |notices|
  {
    if notices == [] {
    } else {
      var n := |notices| - 1;
      if n > 0 || start.Some? {
        LastIsHighest(start, notices[..n]);
      } else {
        assert notices[..n] == [];
      }
    }
  }

  /** Gaps in increasing order that never touch, strictly between two slots. */
  ghost predicate Separate(gaps: seq<Gap>, low: u64, high: u64) {
    && (forall i :: 0 <= i < |gaps| ==> low < gaps[i].from <= gaps[i].to < high)
    && (forall i, j :: 0 <= i < j < |gaps| ==> gaps[i].to < gaps[j].from)
  }

  function Skipped(high: u64, slot: u64): seq<Gap> {
    var gap := DetectForwardGap(high, slot);
    if gap.Some? then [gap.value] else []
  }

  lemma OneMoreGap(gaps: seq<Gap>, low: u64, high: u64, slot: u64)
    requires Separate(gaps, low, high) && low <= high < slot
    ensures Separate(gaps + Skipped(high, slot), low, slot)
  {
    var gap := DetectForwardGap(high, slot);
    if gap.Some? {
      assert gap.value.from == high + 1 && gap.value.to == slot - 1;
    }
  }

  /** One notice more: a slot above the highest records what it skips, any other changes nothing. */
  lemma OneMoreNotice(start: Option<u64>, init: seq<u64>, slot: u64, high: u64)
    requires start.Some? || init != []
    requires high == Highest(start, init)
    ensures Tracked(start, init + [slot]).gaps == Tracked(start, init).gaps + if slot > high then Skipped(high, slot) else []
    ensures Highest(start, init + [slot]) == if slot > high then slot else high
    ensures Origin(start, init + [slot]) == Origin(start, init) <= high
  {
    LastIsHighest(start, init);
    assert (init + [slot])[..|init|] == init;
  }

  /** Recorded gaps are ordered and disjoint, above the origin and below the highest slot. */
  lemma {:induction false} GapsAreDisjoint(start: Option<u64>, notices: seq<u64>)
    requires start.Some? || notices != []
    ensures Separate(Tracked(start, notices).gaps, Origin(start, notices), Highest(start, notices))
    decreases |notices|
  {
    if notices == [] {
    } else {
      var init, slot := notices[..|notices| - 1], notices[|notices| - 1];
      assert notices == init + [slot];
      if init != [] || start.Some? {
        var high := Highest(start, init);
        GapsAreDisjoint(start, init);
        OneMoreNotice(start, init, slot, high);
        MoreSeparate(Tracked(start, init).gaps, Origin(start, init), high, slot);
      }
    }
  }

  lemma MoreSeparate(gaps: seq<Gap>, low: u64, high: u64, slot: u64)
    requires Separate(gaps, low, high) && low <= high
    ensures if slot > high then Separate(gaps + Skipped(high, slot), low, slot) else Separate(gaps + [], low, high)
  {
    if slot > high {
      OneMoreGap(gaps, low, high, slot);
    } else {
      assert gaps + [] == gaps;
    }
  }

  lemma RecordGrows(start: Option<u64>, notices: seq<u64>, x: u64)
    requires notices != []
    ensures var n := |notices| - 1;
            IsRecord(start, notices, x) <==> IsRecord(start, notices[..n], x) || (notices[n] == x && Above(start, notices[..n], x))
  {
    var n := |notices| - 1;
    var init := notices[..n];
    if IsRecord(start, notices, x) {
      var i :| 0 <= i < |notices| && notices[i] == x && Above(start, notices[..i], x);
      if i < n {
        assert init[..i] == notices[..i] && init[i] == x;
      }
    }
    if IsRecord(start, init, x) {
      var i :| 0 <= i < |init| && init[i] == x && Above(start, init[..i], x);
      assert init[..i] == notices[..i] && notices[i] == x;
    }
    if notices[n] == x && Above(start, init, x) {
      assert notices[..n] == init;
    }
  }

  lemma InGapAppend(gaps: seq<Gap>, g: Gap, x: u64)
    ensures InGap(gaps + [g], x) <==> InGap(gaps, x) || g.Has(x)
  {
    var all := gaps + [g];
    if InGap(gaps, x) {
      var i :| 0 <= i < |gaps| && gaps[i].Has(x);
      assert all[i].Has(x);
    }
    if g.Has(x) {
      assert all[|gaps|].Has(x);
    }
  }

  /**
   * Gaps and new-highest notices partition what lies above the origin: each slot up to the highest seen was either
   * notified as a new highest or lies in a recorded gap, never both, and nothing else is in a gap.
   */
  lemma {:induction false} GapsPartition(start: Option<u64>, notices: seq<u64>, x: u64)
    requires start.Some? || notices != []
    ensures InGap(Tracked(start, notices).gaps, x) <==>
              Origin(start, notices) < x <= Highest(start, notices) && !IsRecord(start, notices, x)
    decreases |notices|
  {
    if notices == [] {
    } else {
      var n := |notices| - 1;
      var init, slot := notices[..n], notices[n];
      RecordGrows(start, notices, x);
      assert notices == init + [slot];
      if n > 0 || start.Some? {
        GapsPartition(start, init, x);
        LastIsHighest(start, init);
        RecordIsBounded(start, init, x);
        var h := Highest(start, init);
        assert Origin(start, init) == Origin(start, notices);
        if slot > h {
          assert Above(start, init, slot);
          NewHighest(start, init, slot, h, x);
        } else {
          NotAbove(start, init, slot, h);
        }
      } else {
        assert init == [];
      }
    }
  }

  /** A new highest slot records exactly the slots it skips. */
  lemma NewHighest(start: Option<u64>, init: seq<u64>, slot: u64, h: u64, x: u64)
    requires Tracked(start, init).last == Some(h) && slot > h
    ensures InGap(Tracked(start, init + [slot]).gaps, x) <==> InGap(Tracked(start, init).gaps, x) || h < x < slot
    ensures Tracked(start, init + [slot]).last == Some(slot)
  {
    assert (init + [slot])[..|init|] == init;
    var gap := DetectForwardGap(h, slot);
    if gap.Some? {
      InGapAppend(Tracked(start, init).gaps, gap.value, x);
    } else {
      assert !Between(h, x, slot);
      assert Tracked(start, init).gaps + [] == Tracked(start, init).gaps;
    }
  }

  lemma RecordIsBounded(start: Option<u64>, notices: seq<u64>, x: u64)
    requires start.Some? || notices != []
    ensures IsRecord(start, notices, x) ==> x <= Highest(start, notices)
  {
  }

  lemma NotAbove(start: Option<u64>, notices: seq<u64>, slot: u64, h: u64)
    requires start.Some? || notices != []
    requires h == Highest(start, notices) && slot <= h
    ensures !Above(start, notices, slot)
  {
    if start != Some(h) {
      assert h in notices;
    }
  }

  /** Every slot from the origin to the highest seen is notified or inside a recorded gap. */
  lemma EverySlotIsCovered(start: Option<u64>, notices: seq<u64>, x: u64)
    requires start.Some? || notices != []
    requires Origin(start, notices) < x <= Highest(start, notices)
    ensures x in notices || InGap(Tracked(start, notices).gaps, x)
  {
    GapsPartition(start, notices, x);
  }

  /**
   * After a restart tracking goes on from the processed checkpoint, or from the finalized one if there is no other:
   * the first notice beyond the next slot records everything between.
   */
  lemma RestartRecordsTheGap(finalized: u64, processed: u64, slot: u64)
    requires slot as int <= I64_MAX + 1
    ensures processed > 0 && slot as int > processed as int + 1 ==>
              Watched(StartingSlot(finalized, processed), [slot]).tracking.gaps == [Gap(processed + 1, slot - 1)]
    ensures processed == 0 && finalized > 0 && slot as int > finalized as int + 1 ==>
              Watched(StartingSlot(finalized, processed), [slot]).tracking.gaps == [Gap(finalized + 1, slot - 1)]
    ensures processed == 0 && finalized == 0 ==> Watched(StartingSlot(finalized, processed), [slot]).tracking.gaps == []
  {
    var start := StartingSlot(finalized, processed);
    assert [slot][..0] == [];
    assert Watched(start, []) == Watch(Tracking(start, []), true);
    if start.Some? && slot as int > start.value as int + 1 {
      assert Between(start.value, start.value + 1, slot) && Between(start.value, slot - 1, slot);
    }
  }
}
