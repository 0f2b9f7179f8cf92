/** Once a settled entry is at risk the in-process store can serve its digest again with any other result. */
module SettlementForgets {
  import opened Options
  import opened SettlementModel
  import opened SettlementProtocol
  import opened SettlementMemory

  /** A stretch of a run. */
  ghost predicate Leads(run: seq<System>, s: System, t: System) {
    && |run| > 0 && run[0] == s && run[|run| - 1] == t
    && forall i :: 0 <= i < |run| - 1 ==> StepAt(run, i)
  }

  /** Two stretches in a row. */
  lemma LeadsOn(a: seq<System>, b: seq<System>, s: System, t: System, u: System)
    requires Leads(a, s, t) && Leads(b, t, u)
    ensures Leads(a + b[1..], s, u)
  {
    var run := a + b[1..];
    forall i | 0 <= i < |run| - 1 ensures StepAt(run, i) {
      if i < |a| - 1 {
        assert StepAt(a, i);
      } else {
        assert run[i] == b[i - |a| + 1] && run[i + 1] == b[i - |a| + 2];
        assert StepAt(b, i - |a| + 1);
      }
    }
  }

  // ---- Something new always exists ----

  lemma {:induction false} FreshNumber(used: set<nat>) returns (n: nat)
    ensures forall k :: k in used ==> k < n
    decreases used
  {
    if used == {} {
      n := 0;
    } else {
      var x :| x in used;
      var m := FreshNumber(used - {x});
      n := if m > x then m else x + 1;
      forall k | k in used ensures k < n {
        assert k == x || k in used - {x};
      }
    }
  }

  lemma FreshDigest(used: set<Digest>) returns (d: Digest)
    ensures d !in used
  {
    var lengths := set x | x in used :: |x|;
    var n := FreshNumber(lengths);
    d := seq(n, _ => 'x');
    forall k | k in used ensures k != d {
      assert |k| in lengths;
    }
  }

  // ---- Serving one request ----

  /** A new worker arrives and is granted a lease, with the given room made for it. */
  lemma Grab(s: System, w: nat, d: Digest, b: Binding, token: Token, room: Entries) returns (t: System, run: seq<System>)
    requires s.store.Memory? && w !in s.workers && token !in s.used
    requires d !in Evicted(s.store.entries, s.clock) && MakesRoom(Evicted(s.store.entries, s.clock), room)
    ensures Leads(run, s, t) && forall i :: 0 <= i < |run| ==> run[i].clock == s.clock
    ensures t == Granted(Put(s, w, Reading(d, b)).(store := Memory(room[d := Settling(b, token, s.clock)])), w, d, b, token)
  {
    var mid := Put(s, w, Reading(d, b));
    assert Next(s, mid, Arrive(w, d, b));
    t := Granted(mid.(store := Memory(room[d := Settling(b, token, s.clock)])), w, d, b, token);
    assert Begins(mid.store, t.store, Some(Acquired(token)), d, b, s.clock, token);
    assert Next(mid, t, Read(w, token, Some(Acquired(token))));
    assert Steps(s, mid) && Steps(mid, t);
    run := [s, mid, t];
  }

  /** The holder of a recorded lease finishes with a result of its choice. */
  lemma Conclude(s: System, w: nat, r: PaidResult) returns (t: System, run: seq<System>)
    requires s.store.Memory? && At(s, w).Holding?
    requires Matches(s.store, At(s, w).digest, At(s, w).binding, At(s, w).lease)
    ensures Leads(run, s, t) && forall i :: 0 <= i < |run| ==> run[i].clock == s.clock
    ensures var x := At(s, w);
            && t.responses == s.responses + {Response(x.digest, x.binding, r)}
            && t.store == Memory(s.store.entries[x.digest := Settled(x.binding, r, s.clock)])
  {
    var x := At(s, w);
    var mid := Put(s, w, x.(verified := true));
    assert Next(s, mid, Verify(w));
    t := Put(mid, w, Idle).(store := Memory(s.store.entries[x.digest := Settled(x.binding, r, s.clock)]),
                            responses := s.responses + {Response(x.digest, x.binding, r)});
    assert Next(mid, t, Finish(w, r, true));
    assert Steps(s, mid) && Steps(mid, t);
    run := [s, mid, t];
  }

  /** A digest the store does not know is served with any result. */
  lemma Serve(s: System, d: Digest, b: Binding, r: PaidResult) returns (t: System, run: seq<System>)
    requires s.store.Memory? && d !in Evicted(s.store.entries, s.clock)
    ensures Leads(run, s, t) && forall i :: 0 <= i < |run| ==> run[i].clock == s.clock
    ensures t.store.Memory? && t.responses == s.responses + {Response(d, b, r)}
    ensures exists room :: MakesRoom(Evicted(s.store.entries, s.clock), room)
                           && t.store.entries == room[d := Settled(b, r, s.clock)]
  {
    var w := FreshNumber(s.workers.Keys);
    var token := FreshNumber(s.used);
    var room := SomeRoom(Evicted(s.store.entries, s.clock));
    var mid, first := Grab(s, w, d, b, token, room);
    var last;
    t, last := Conclude(mid, w, r);
    LeadsOn(first, last, s, mid, t);
    run := first + last[1..];
    assert t.store.entries == room[d := Settled(b, r, s.clock)];
  }

  /**
   * The other direction of agreement: when a settled entry is at risk, the run can go on so that its digest is
   * answered with any other binding and result.
   */
  lemma RiskBreaksAgreement(s: System, w: nat, d: Digest, b: Binding, r: PaidResult) returns (t: System, run: seq<System>)
    requires SettledAt(s, d) && At(s, w).Reading? && AtRisk(s, w, d)
    ensures Leads(run, s, t) && t.store.Memory? && s.responses + {Response(d, b, r)} <= t.responses
    ensures forall i :: 0 <= i < |run| ==> run[i].clock == s.clock
  {
    if TooOld(s, d) {
      t, run := Serve(s, d, b, r);
    } else {
      var token := FreshNumber(s.used);
      var lost, reply := LostAtRisk(s, w, token, d);
      assert Next(s, lost, Read(w, token, reply));
      assert Steps(s, lost);
      var rest;
      t, rest := Serve(lost, d, b, r);
      LeadsOn([s, lost], rest, s, lost, t);
      run := [s, lost] + rest[1..];
    }
  }

  // ---- Two ways to be forgotten ----

  const START := System(Memory(map[]), 0, map[], {}, map[], {})

  /** After two minutes. */
  lemma ForgetsWhenOld(d: Digest, b: Binding, p: PaidResult, q: PaidResult) returns (run: seq<System>)
    ensures IsRun(run) && run[|run| - 1].store.Memory?
    ensures Response(d, b, p) in run[|run| - 1].responses && Response(d, b, q) in run[|run| - 1].responses
  {
    var s, first := Serve(START, d, b, p);
    var later := s.(clock := ENTRY_TTL + 1);
    assert Next(s, later, Tick);
    assert Steps(s, later);
    var t, second := Serve(later, d, b, q);
    LeadsOn(first, [s, later], START, s, later);
    LeadsOn(first + [s, later][1..], second, START, later, t);
    run := first + [s, later][1..] + second[1..];
  }

  /** One settled entry among entries in flight, all of this instant. */
  ghost predicate Crowded(s: System, d: Digest) {
    && SettledAt(s, d)
    && forall k :: k in s.store.entries ==> s.store.entries[k].Stamp() == s.clock && (k != d ==> s.store.entries[k].Settling?)
  }

  lemma CrowdedKeepsAll(s: System, d: Digest)
    requires Crowded(s, d)
    ensures Evicted(s.store.entries, s.clock) == s.store.entries
  {
  }

  /** New digests arrive until the map is full. */
  lemma {:induction false} FillUp(s: System, d: Digest, b: Binding) returns (t: System, run: seq<System>)
    requires Crowded(s, d) && |s.store.entries| <= MAX_ENTRIES
    ensures Leads(run, s, t) && forall i :: 0 <= i < |run| ==> run[i].clock == s.clock
    ensures Crowded(t, d) && |t.store.entries| == MAX_ENTRIES && t.responses == s.responses
    decreases MAX_ENTRIES - |s.store.entries|
  {
    if |s.store.entries| == MAX_ENTRIES {
      t, run := s, [s];
    } else {
      CrowdedKeepsAll(s, d);
      var w := FreshNumber(s.workers.Keys);
      var token := FreshNumber(s.used);
      var x := FreshDigest(s.store.entries.Keys);
      var mid, first := Grab(s, w, x, b, token, s.store.entries);
      assert mid.store.entries.Keys == s.store.entries.Keys + {x};
      var rest;
      t, rest := FillUp(mid, d, b);
      LeadsOn(first, rest, s, mid, t);
      run := first + rest[1..];
    }
  }

  /** A full map makes room for one more digest by dropping the settled entry. */
  lemma Overflow(s: System, d: Digest, b: Binding, q: PaidResult) returns (t: System, run: seq<System>)
    requires Crowded(s, d) && |s.store.entries| == MAX_ENTRIES
    ensures Leads(run, s, t) && forall i :: 0 <= i < |run| ==> run[i].clock == s.clock
    ensures t.store.Memory? && s.responses + {Response(d, b, q)} <= t.responses
  {
    CrowdedKeepsAll(s, d);
    var w := FreshNumber(s.workers.Keys);
    var x := FreshDigest(s.store.entries.Keys);
    var reading := Put(s, w, Reading(x, b));
    assert Next(s, reading, Arrive(w, x, b));
    assert Steps(s, reading);
    assert IsVictim(s.store.entries, d);
    var last;
    t, last := RiskBreaksAgreement(reading, w, d, b, q);
    LeadsOn([s, reading], last, s, reading, t);
    run := [s, reading] + last[1..];
  }

  /** At once, when the map is full: no time passes in this run. */
  lemma ForgetsWhenFull(d: Digest, b: Binding, p: PaidResult, q: PaidResult) returns (run: seq<System>)
    ensures IsRun(run) && run[|run| - 1].store.Memory? && forall i :: 0 <= i < |run| ==> run[i].clock == 0
    ensures Response(d, b, p) in run[|run| - 1].responses && Response(d, b, q) in run[|run| - 1].responses
  {
    var s, first := Serve(START, d, b, p);
    assert s.store.entries == map[d := Settled(b, p, 0)];
    var full, filling := FillUp(s, d, b);
    LeadsOn(first, filling, START, s, full);
    var t, last := Overflow(full, d, b, q);
    LeadsOn(first + filling[1..], last, START, full, t);
    run := first + filling[1..] + last[1..];
  }
}
