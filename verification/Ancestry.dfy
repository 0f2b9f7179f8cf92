/** The bounded ancestry walk: its step-by-step form, and that it accepts exactly the good parent chains. */
module Ancestry {
  import opened Options
  import opened IndexerModel

  /** The walk without its visited set, with `fuel` slots still to look at. */
  predicate Walk(slots: map<nat, SlotRow>, current: nat, fuel: nat)
    decreases fuel
  {
    && fuel > 0 && current in slots
    && match slots[current].parent
       case None => true
       case Some(p) => p in slots && !slots[p].status.Dead? && Walk(slots, p, fuel - 1)
  }

  /** Each slot of `path` is present and names the next one as its parent. */
  ghost predicate IsPath(slots: map<nat, SlotRow>, path: seq<nat>) {
    && 0 < |path|
    && forall i :: 0 <= i < |path| - 1 ==> path[i] in slots && slots[path[i]].parent == Some(path[i + 1])
  }

  lemma {:induction false} WalkToChain(slots: map<nat, SlotRow>, current: nat, fuel: nat) returns (chain: seq<nat>)
    requires Walk(slots, current, fuel)
    ensures IsChain(slots, chain) && |chain| <= fuel && chain[0] == current
    decreases fuel
  {
    match slots[current].parent
    case None => chain := [current];
    case Some(p) =>
      var rest := WalkToChain(slots, p, fuel - 1);
      chain := [current] + rest;
      forall i | 1 <= i < |chain| ensures !slots[chain[i]].status.Dead? {
        assert chain[i] == rest[i - 1];
      }
  }

  lemma {:induction false} ChainToWalk(slots: map<nat, SlotRow>, chain: seq<nat>, fuel: nat)
    requires IsChain(slots, chain) && |chain| <= fuel
    ensures Walk(slots, chain[0], fuel)
    decreases |chain|
  {
    if |chain| == 1 {
    } else {
      var rest := chain[1..];
      assert forall i :: 0 <= i < |rest| ==> rest[i] == chain[i + 1];
      ChainToWalk(slots, rest, fuel - 1);
      assert slots[chain[0]].parent == Some(chain[1]);
    }
  }

  /** The walk accepts a slot exactly when a good chain of at most 256 slots starts there. */
  lemma WalkIsAncestry(slots: map<nat, SlotRow>, slot: nat)
    ensures Walk(slots, slot, MAX_ANCESTRY_DEPTH) <==> AncestryAccepted(slots, slot)
  {
    if Walk(slots, slot, MAX_ANCESTRY_DEPTH) {
      var chain := WalkToChain(slots, slot, MAX_ANCESTRY_DEPTH);
    }
    if AncestryAccepted(slots, slot) {
      var chain :| IsChain(slots, chain) && |chain| <= MAX_ANCESTRY_DEPTH && chain[0] == slot;
      ChainToWalk(slots, chain, MAX_ANCESTRY_DEPTH);
    }
  }

  /** An accepted walk follows every path from its start, spending one unit of fuel per hop. */
  lemma {:induction false} WalkAlong(slots: map<nat, SlotRow>, path: seq<nat>, fuel: nat)
    requires IsPath(slots, path) && Walk(slots, path[0], fuel)
    ensures |path| - 1 < fuel && Walk(slots, path[|path| - 1], fuel - (|path| - 1))
    decreases |path|
  {
    if |path| == 1 {
    } else {
      var rest := path[1..];
      assert forall i :: 0 <= i < |rest| ==> rest[i] == path[i + 1];
      assert slots[path[0]].parent == Some(path[1]);
      WalkAlong(slots, rest, fuel - 1);
    }
  }

  /** A slot on a parent cycle is never accepted, whatever the bound. */
  lemma {:induction false} CycleRefused(slots: map<nat, SlotRow>, cycle: seq<nat>, fuel: nat)
    requires IsPath(slots, cycle) && |cycle| > 1 && cycle[0] == cycle[|cycle| - 1]
    ensures !Walk(slots, cycle[0], fuel)
    decreases fuel
  {
    if Walk(slots, cycle[0], fuel) {
      WalkAlong(slots, cycle, fuel);
      CycleRefused(slots, cycle, fuel - (|cycle| - 1));
    }
  }

  /** A slot whose ancestry runs into a cycle is refused as well. */
  lemma CyclicAncestryRefused(slots: map<nat, SlotRow>, path: seq<nat>, cycle: seq<nat>)
    requires IsPath(slots, path)
    requires IsPath(slots, cycle) && |cycle| > 1 && cycle[0] == cycle[|cycle| - 1] == path[|path| - 1]
    ensures !AncestryAccepted(slots, path[0])
  {
    WalkIsAncestry(slots, path[0]);
    if Walk(slots, path[0], MAX_ANCESTRY_DEPTH) {
      WalkAlong(slots, path, MAX_ANCESTRY_DEPTH);
      CycleRefused(slots, cycle, MAX_ANCESTRY_DEPTH - (|path| - 1));
    }
  }

  /** A path that comes back to a slot it has passed ends on a cycle. */
  lemma Revisited(slots: map<nat, SlotRow>, path: seq<nat>, i: nat, fuel: nat)
    requires IsPath(slots, path) && i < |path| - 1 && path[i] == path[|path| - 1]
    ensures !Walk(slots, path[i], fuel)
  {
    var cycle := path[i..];
    assert forall k :: 0 <= k < |cycle| ==> cycle[k] == path[i + k];
    CycleRefused(slots, cycle, fuel);
  }

  lemma OwnParent(slots: map<nat, SlotRow>, slot: nat, fuel: nat)
    requires slot in slots && slots[slot].parent == Some(slot)
    ensures !Walk(slots, slot, fuel)
  {
    CycleRefused(slots, [slot, slot], fuel);
  }

  method AssertAncestry(slots: map<nat, SlotRow>, slot: nat) returns (ok: bool)
    ensures ok <==> AncestryAccepted(slots, slot)
  {
    ok := WalkAncestors(slots, slot);
    WalkIsAncestry(slots, slot);
  }

  /** The loop: a visited set, one query for the parent, one for the parent's status. */
  method WalkAncestors(slots: map<nat, SlotRow>, slot: nat) returns (ok: bool)
    ensures ok <==> Walk(slots, slot, MAX_ANCESTRY_DEPTH)
  {
    var current, visited := slot, {};
    ghost var path := [slot];
    var round := 0;
    while round < MAX_ANCESTRY_DEPTH
      invariant 0 <= round <= MAX_ANCESTRY_DEPTH
      invariant |path| == round + 1 && path[round] == current && IsPath(slots, path)
      invariant forall s :: s in visited ==> s in path[..round]
      invariant Walk(slots, slot, MAX_ANCESTRY_DEPTH) == Walk(slots, current, MAX_ANCESTRY_DEPTH - round)
    {
      if current in visited {
        ghost var i :| 0 <= i < round && path[i] == current;
        Revisited(slots, path, i, MAX_ANCESTRY_DEPTH - round);
        return false;
      }
      visited := visited + {current};
      if current !in slots {
        return false;
      }
      if slots[current].parent.None? {
        return true;
      }
      var parent := slots[current].parent.value;
      if parent == current {
        OwnParent(slots, current, MAX_ANCESTRY_DEPTH - round);
        return false;
      }
      if parent !in slots || slots[parent].status.Dead? {
        return false;
      }
      assert path[..round + 1] == path[..round] + [current];
      path := path + [parent];
      assert path[..round + 1] == path[..round] + [current];
      current := parent;
      round := round + 1;
    }
    return false;
  }

  /** A slot has at most one parent chain. */
  lemma {:induction false} ChainsAgree(slots: map<nat, SlotRow>, a: seq<nat>, b: seq<nat>)
    requires IsChain(slots, a) && IsChain(slots, b) && a[0] == b[0]
    ensures a == b
    decreases |a|
  {
    assert |b| > 1 ==> slots[b[0]].parent == Some(b[1]);
    if |a| == 1 {
      assert a == [a[0]] && b == [b[0]];
    } else {
      assert slots[a[0]].parent == Some(a[1]);
      if |b| > 1 {
        ChainTail(slots, a);
        ChainTail(slots, b);
        ChainsAgree(slots, a[1..], b[1..]);
        assert a == [a[0]] + a[1..] && b == [b[0]] + b[1..];
      }
    }
  }

  lemma ChainTail(slots: map<nat, SlotRow>, a: seq<nat>)
    requires IsChain(slots, a) && |a| > 1
    ensures IsChain(slots, a[1..])
  {
    var tail := a[1..];
    assert forall i :: 0 <= i < |tail| ==> tail[i] == a[i + 1];
  }

  /** The bound in numbers: a good chain is accepted up to 256 slots, and no longer one is. */
  lemma ChainBound(slots: map<nat, SlotRow>, chain: seq<nat>)
    requires IsChain(slots, chain)
    ensures AncestryAccepted(slots, chain[0]) <==> |chain| <= 256
  {
    if AncestryAccepted(slots, chain[0]) {
      var other :| IsChain(slots, other) && |other| <= MAX_ANCESTRY_DEPTH && other[0] == chain[0];
      ChainsAgree(slots, chain, other);
    }
  }
}
