/** A provider's execution keys: a fixed array with a count that behaves as a set. */
module ExecutionKeys {
  import EscrowModel
  import EscrowSpec

  type Key = EscrowModel.Key

  const MAX_EXECUTION_KEYS: nat := EscrowSpec.MAX_KEYS

  datatype Change = Add(key: Key) | Revoke(key: Key)

  datatype Reply = Done | InvalidPubkey | ProviderInactive | DuplicateExecutionKey | ExecutionKeyLimit | ExecutionKeyNotFound

  // ---- The array as a value ----

  datatype KeyArray = KeyArray(keys: seq<Key>, count: nat)
  {
    /** Room for four; the used part distinct and non-zero, the rest zero. */
    predicate Good() {
      && |keys| == MAX_EXECUTION_KEYS && count <= MAX_EXECUTION_KEYS
      && (forall i :: 0 <= i < count ==> keys[i] != 0)
      && (forall i, j :: 0 <= i < j < count ==> keys[i] != keys[j])
      && (forall i :: count <= i < |keys| ==> keys[i] == 0)
    }

    ghost function Set(): set<Key>
      requires count <= |keys|
    {
      set i | 0 <= i < count :: keys[i]
    }
  }

  const EMPTY: KeyArray := KeyArray([0, 0, 0, 0], 0)

  /** Position of a key in the used part, or the count. */
  function Position(keys: seq<Key>, count: nat, key: Key): (i: nat)
    requires count <= |keys|
    ensures i <= count && (i < count ==> keys[i] == key) && forall k :: 0 <= k < i ==> keys[k] != key
  {
    if count == 0 then 0
    else
      var i := Position(keys, count - 1, key);
      if i < count - 1 then i else if keys[count - 1] == key then count - 1 else count
  }

  function Answer(a: KeyArray, c: Change): Reply
    requires a.count <= |a.keys|
  {
    var found := Position(a.keys, a.count, c.key) < a.count;
    match c
    case Add(key) =>
      if key == 0 then InvalidPubkey
      else if found then DuplicateExecutionKey
      else if a.count >= MAX_EXECUTION_KEYS then ExecutionKeyLimit
      else Done
    case Revoke(_) => if found then Done else ExecutionKeyNotFound
  }

  function Changed(a: KeyArray, c: Change): KeyArray
    requires a.Good()
  {
    if Answer(a, c) != Done then a
    else
      match c
      case Add(key) => KeyArray(a.keys[a.count := key], a.count + 1)
      case Revoke(key) =>
        var last := a.count - 1;
        KeyArray(a.keys[Position(a.keys, a.count, key) := a.keys[last]][last := 0], last)
  }

  // ---- The set it stands for ----

  predicate Allowed(s: set<Key>, c: Change) {
    match c
    case Add(key) => key != 0 && key !in s && |s| < MAX_EXECUTION_KEYS
    case Revoke(key) => key in s
  }

  function SetAfter(s: set<Key>, c: Change): set<Key> {
    if !Allowed(s, c) then s
    else
      match c
      case Add(key) => s + {key}
      case Revoke(key) => s - {key}
  }

  lemma {:induction false} SizeIsCount(keys: seq<Key>, count: nat)
    requires count <= |keys| && forall i, j :: 0 <= i < j < count ==> keys[i] != keys[j]
    ensures |KeyArray(keys, count).Set()| == count
    decreases count
  {
    var s := KeyArray(keys, count).Set();
    if count == 0 {
      assert s == {};
    } else {
      SizeIsCount(keys, count - 1);
      assert s == KeyArray(keys, count - 1).Set() + {keys[count - 1]};
    }
  }

  lemma AddActsAsInsert(a: KeyArray, key: Key)
    requires a.Good() && Answer(a, Add(key)) == Done
    ensures Changed(a, Add(key)).Good() && Changed(a, Add(key)).Set() == a.Set() + {key}
  {
    var b := Changed(a, Add(key));
    forall x ensures x in b.Set() <==> x in a.Set() + {key} {
      if x in a.Set() {
        var i :| 0 <= i < a.count && a.keys[i] == x;
        assert b.keys[i] == x;
      }
      if x == key {
        assert b.keys[a.count] == x;
      }
    }
  }

  /** Moving the last key into the hole removes one key and keeps the others. */
  lemma RevokeActsAsRemove(a: KeyArray, key: Key)
    requires a.Good() && Answer(a, Revoke(key)) == Done
    ensures Changed(a, Revoke(key)).Good() && Changed(a, Revoke(key)).Set() == a.Set() - {key}
  {
    var b, hole, last := Changed(a, Revoke(key)), Position(a.keys, a.count, key), a.count - 1;
    forall x ensures x in b.Set() <==> x in a.Set() - {key} {
      if x in a.Set() && x != key {
        var i :| 0 <= i < a.count && a.keys[i] == x;
        assert b.keys[if i == last then hole else i] == x;
      }
      if x in b.Set() {
        var i :| 0 <= i < b.count && b.keys[i] == x;
        assert a.keys[if i == hole then last else i] == x;
      }
    }
  }

  /** One change of the array is one change of the set, refused in the same cases. */
  lemma ChangeRefines(a: KeyArray, c: Change)
    requires a.Good()
    ensures Changed(a, c).Good() && Changed(a, c).Set() == SetAfter(a.Set(), c)
    ensures Answer(a, c) == Done <==> Allowed(a.Set(), c)
  {
    SizeIsCount(a.keys, a.count);
    var p := Position(a.keys, a.count, c.key);
    assert p < a.count <==> c.key in a.Set();
    if Answer(a, c) == Done {
      match c
      case Add(key) => AddActsAsInsert(a, key);
      case Revoke(key) => RevokeActsAsRemove(a, key);
    }
  }

  function Run(a: KeyArray, cs: seq<Change>): (b: KeyArray)
    requires a.Good()
    ensures b.Good()
  {
    if cs == [] then a
    else
      var before := Run(a, cs[..|cs| - 1]);
      ChangeRefines(before, cs[|cs| - 1]);
      Changed(before, cs[|cs| - 1])
  }

  function RunSet(s: set<Key>, cs: seq<Change>): set<Key> {
    if cs == [] then s else SetAfter(RunSet(s, cs[..|cs| - 1]), cs[|cs| - 1])
  }

  /** Any sequence of adds and revokes on the array is the same sequence on a set. */
  lemma {:induction false} ArrayRefinesSet(cs: seq<Change>)
    ensures Run(EMPTY, cs).Good() && Run(EMPTY, cs).Set() == RunSet({}, cs)
    decreases |cs|
  {
    if cs == [] {
      assert EMPTY.Set() == {};
    } else {
      ArrayRefinesSet(cs[..|cs| - 1]);
      ChangeRefines(Run(EMPTY, cs[..|cs| - 1]), cs[|cs| - 1]);
    }
  }

  /** The escrow protocol's set of keys per provider takes the same changes. */
  lemma EscrowAgreesOnAdd(w: EscrowModel.World, authority: Key, a: KeyArray, key: Key)
    requires a.Good() && authority in w.providers && w.providers[authority] == a.Set()
    ensures var step := EscrowModel.AddExecutionKey(authority, key);
            && (EscrowSpec.CanAddKey(w, step) <==> Answer(a, Add(key)) == Done)
            && EscrowSpec.Apply(w, step) == w.(providers := w.providers[authority := Changed(a, Add(key)).Set()])
  {
    ChangeRefines(a, Add(key));
    Unchanged(w, authority);
  }

  lemma EscrowAgreesOnRevoke(w: EscrowModel.World, authority: Key, a: KeyArray, key: Key)
    requires a.Good() && authority in w.providers && w.providers[authority] == a.Set()
    ensures var step := EscrowModel.RevokeExecutionKey(authority, key);
            && (EscrowSpec.CanRevokeKey(w, step) <==> Answer(a, Revoke(key)) == Done)
            && EscrowSpec.Apply(w, step) == w.(providers := w.providers[authority := Changed(a, Revoke(key)).Set()])
  {
    ChangeRefines(a, Revoke(key));
    Unchanged(w, authority);
  }

  lemma Unchanged(w: EscrowModel.World, authority: Key)
    requires authority in w.providers
    ensures w.(providers := w.providers[authority := w.providers[authority]]) == w
  {
    assert w.providers[authority := w.providers[authority]] == w.providers;
  }

  // ---- The account ----

  class ProviderAccount {
    var executionKeys: array<Key>
    var count: nat
    var active: bool

    ghost predicate Valid()
      reads this, executionKeys
    {
      count <= executionKeys.Length && View().Good()
    }

    ghost function View(): KeyArray
      reads this, executionKeys
    {
      KeyArray(executionKeys[..], count)
    }

    constructor ()
      ensures Valid() && fresh(executionKeys) && active && View() == EMPTY
    {
      executionKeys := new Key[4](_ => 0);
      count, active := 0, true;
      new;
      assert executionKeys[..] == [0, 0, 0, 0];
    }

    method ContainsExecutionKey(key: Key) returns (found: bool)
      requires Valid()
      ensures found <==> key in View().Set()
      ensures found <==> Position(executionKeys[..], count, key) < count
    {
      for i := 0 to count
        invariant forall k :: 0 <= k < i ==> executionKeys[k] != key
      {
        if executionKeys[i] == key {
          assert executionKeys[..][i] == key;
          return true;
        }
      }
      found := false;
    }

    method AddExecutionKey(key: Key) returns (reply: Reply)
      requires Valid()
      modifies this, executionKeys
      ensures Valid() && executionKeys == old(executionKeys) && active == old(active)
      ensures reply == if key != 0 && !active then ProviderInactive else Answer(old(View()), Add(key))
      ensures View() == if reply == Done then Changed(old(View()), Add(key)) else old(View())
    {
      if key == 0 {
        return InvalidPubkey;
      }
      if !active {
        return ProviderInactive;
      }
      var known := ContainsExecutionKey(key);
      if known {
        return DuplicateExecutionKey;
      }
      if count >= MAX_EXECUTION_KEYS {
        return ExecutionKeyLimit;
      }
      ghost var before := View();
      ChangeRefines(before, Add(key));
      executionKeys[count] := key;
      count := count + 1;
      assert View() == Changed(before, Add(key));
      reply := Done;
    }

    method RevokeExecutionKey(key: Key) returns (reply: Reply)
      requires Valid()
      modifies this, executionKeys
      ensures Valid() && executionKeys == old(executionKeys) && active == old(active)
      ensures reply == Answer(old(View()), Revoke(key))
      ensures View() == Changed(old(View()), Revoke(key))
    {
      ghost var before := View();
      var index := 0;
      while index < count && executionKeys[index] != key
        invariant 0 <= index <= count
        invariant forall k :: 0 <= k < index ==> executionKeys[k] != key
      {
        index := index + 1;
      }
      if index == count {
        return ExecutionKeyNotFound;
      }
      assert index == Position(before.keys, before.count, key);
      ChangeRefines(before, Revoke(key));
      var last := count - 1;
      if index != last {
        executionKeys[index] := executionKeys[last];
      }
      executionKeys[last] := 0;
      count := count - 1;
      assert View() == Changed(before, Revoke(key));
      reply := Done;
    }
  }
}
