/** What the in-process store promises: exactly when it forgets a settled result, and agreement until then. */
module SettlementMemory {
  import opened Options
  import opened SettlementModel
  import opened SettlementProtocol

  // ---- One step ----

  predicate SettledAt(s: System, d: Digest) {
    s.store.Memory? && d in s.store.entries && s.store.entries[d].Settled?
  }

  predicate Keeps(s: System, t: System, d: Digest)
    requires SettledAt(s, d)
  {
    t.store.Memory? && d in t.store.entries && t.store.entries[d] == s.store.entries[d]
  }

  predicate TooOld(s: System, d: Digest)
    requires SettledAt(s, d)
  {
    s.clock - s.store.entries[d].completed > ENTRY_TTL
  }

  /** A read of a new digest finds the map full. */
  predicate NeedsRoom(s: System, w: nat) {
    && s.store.Memory? && At(s, w).Reading?
    && var kept := Evicted(s.store.entries, s.clock);
    At(s, w).digest !in kept && |kept| >= MAX_ENTRIES
  }

  /** The step is a read that drops the entry: for its age, or to make room. */
  predicate Evicts(s: System, t: System, a: Action, d: Digest)
    requires SettledAt(s, d)
  {
    && a.Read? && At(s, a.w).Reading?
    && (TooOld(s, d)
        || (NeedsRoom(s, a.w)
            && t.store == Memory((Evicted(s.store.entries, s.clock) - {d})[At(s, a.w).digest :=
                                   Settling(At(s, a.w).binding, a.token, s.clock)])))
  }

  lemma ReadSurvivesIff(s: System, t: System, w: nat, token: Token, reply: Option<Reply>, d: Digest)
    requires SettledAt(s, d) && Reads(s, t, w, token, reply)
    ensures Keeps(s, t, d) <==> !Evicts(s, t, Read(w, token, reply), d)
  {
    var x, kept := At(s, w), Evicted(s.store.entries, s.clock);
    if x.digest !in kept {
      var room :| MakesRoom(kept, room) && t.store.entries == room[x.digest := Settling(x.binding, token, s.clock)];
      if !TooOld(s, d) {
        assert d in kept && kept[d] == s.store.entries[d];
        if room == kept {
          assert Keeps(s, t, d);
        } else {
          var v :| IsVictim(kept, v) && room == kept - {v};
        }
      }
    }
  }

  /** A settled entry survives a step if and only if the step is not a read that evicts it. */
  lemma SettledSurvivesIff(s: System, t: System, a: Action, d: Digest)
    requires SettledAt(s, d) && Next(s, t, a)
    ensures Keeps(s, t, d) <==> !Evicts(s, t, a, d)
  {
    if a.Read? {
      ReadSurvivesIff(s, t, a.w, a.token, a.reply, d);
    } else {
      assert Keeps(s, t, d);
    }
  }

  /** What a caller can see before a read: the entry is too old, or the map is full and it is a victim. */
  predicate AtRisk(s: System, w: nat, d: Digest)
    requires SettledAt(s, d)
  {
    TooOld(s, d) || (NeedsRoom(s, w) && IsVictim(Evicted(s.store.entries, s.clock), d))
  }

  /** An entry not at risk survives every read. */
  lemma SafeWithoutRisk(s: System, t: System, w: nat, token: Token, reply: Option<Reply>, d: Digest)
    requires SettledAt(s, d) && Reads(s, t, w, token, reply) && !AtRisk(s, w, d)
    ensures Keeps(s, t, d)
  {
    var x, kept := At(s, w), Evicted(s.store.entries, s.clock);
    assert d in kept && kept[d] == s.store.entries[d];
    if x.digest !in kept {
      var room :| MakesRoom(kept, room) && t.store.entries == room[x.digest := Settling(x.binding, token, s.clock)];
      if room != kept {
        var v :| IsVictim(kept, v) && room == kept - {v};
        assert v != d;
      }
    }
  }

  /** An entry at risk is lost by some read: by every read when it is too old, else by the choice of victim. */
  lemma LostAtRisk(s: System, w: nat, token: Token, d: Digest) returns (t: System, reply: Option<Reply>)
    requires SettledAt(s, d) && At(s, w).Reading? && token !in s.used && AtRisk(s, w, d) && !TooOld(s, d)
    ensures Reads(s, t, w, token, reply) && !Keeps(s, t, d)
  {
    var x, kept := At(s, w), Evicted(s.store.entries, s.clock);
    var room := kept - {d};
    assert IsVictim(kept, d);
    assert MakesRoom(kept, room);
    var store := Memory(room[x.digest := Settling(x.binding, token, s.clock)]);
    reply := Some(Acquired(token));
    t := Granted(s.(store := store), w, x.digest, x.binding, token);
    assert Begins(s.store, t.store, reply, x.digest, x.binding, s.clock, token);
  }

  /** A read is always possible. */
  lemma SomeRead(s: System, w: nat, token: Token) returns (t: System, reply: Option<Reply>)
    requires s.store.Memory? && At(s, w).Reading? && token !in s.used
    ensures Reads(s, t, w, token, reply)
  {
    var x, kept := At(s, w), Evicted(s.store.entries, s.clock);
    var store;
    if x.digest in kept {
      reply := Some(EntryAnswer(kept[x.digest], x.binding, s.clock, token));
      store := Memory(if reply.value.Grants() then kept[x.digest := Settling(x.binding, token, s.clock)] else kept);
    } else {
      reply := Some(Acquired(token));
      var room := SomeRoom(kept);
      store := Memory(room[x.digest := Settling(x.binding, token, s.clock)]);
    }
    t := AfterRead(s.(store := store), w, x.digest, x.binding, token, reply);
    assert Begins(s.store, t.store, reply, x.digest, x.binding, s.clock, token);
  }

  lemma SomeRoom(entries: Entries) returns (room: Entries)
    ensures MakesRoom(entries, room)
  {
    room := entries;
    if |entries| >= MAX_ENTRIES && exists d :: IsVictim(entries, d) {
      var d :| IsVictim(entries, d);
      room := entries - {d};
    }
  }

  /** The condition is exact: a read can lose the entry if and only if it is at risk. */
  lemma LosableIff(s: System, w: nat, token: Token, d: Digest)
    requires SettledAt(s, d) && At(s, w).Reading? && token !in s.used
    ensures AtRisk(s, w, d) <==> exists t, reply :: Reads(s, t, w, token, reply) && !Keeps(s, t, d)
  {
    if TooOld(s, d) {
      var t, reply := SomeRead(s, w, token);
      ReadSurvivesIff(s, t, w, token, reply, d);
    } else if AtRisk(s, w, d) {
      var t, reply := LostAtRisk(s, w, token, d);
    } else {
      forall t, reply | Reads(s, t, w, token, reply) ensures Keeps(s, t, d) {
        SafeWithoutRisk(s, t, w, token, reply, d);
      }
    }
  }

  // ---- Whole runs ----

  /** At this point of the run no read could evict a settled entry of `d`. */
  ghost predicate Secure(s: System, d: Digest) {
    SettledAt(s, d) ==> !TooOld(s, d) && forall w :: !AtRisk(s, w, d)
  }

  predicate Shows(s: System, r: Response)
    requires s.store.Memory?
  {
    && r.digest in s.store.entries && s.store.entries[r.digest].Settled?
    && s.store.entries[r.digest].binding == r.binding && s.store.entries[r.digest].result == r.result
  }

  /** Every response for `d` that reached a caller is the one the store still shows. */
  ghost predicate AnswersShown(s: System, d: Digest) {
    s.store.Memory? ==> forall r :: r in s.responses && r.digest == d ==> Shows(s, r)
  }

  lemma SettledSurvives(s: System, t: System, a: Action, d: Digest)
    requires SettledAt(s, d) && Next(s, t, a) && Secure(s, d)
    ensures Keeps(s, t, d)
  {
    SettledSurvivesIff(s, t, a, d);
    if a.Read? {
      SafeWithoutRisk(s, t, a.w, a.token, a.reply, d);
    }
  }

  lemma NewAnswerShown(s: System, t: System, a: Action, r: Response)
    requires Next(s, t, a) && s.store.Memory? && t.store.Memory? && r in t.responses && r !in s.responses
    ensures Shows(t, r)
  {
  }

  lemma StepShowsAnswers(s: System, t: System, a: Action, d: Digest)
    requires AnswersShown(s, d) && Secure(s, d) && Next(s, t, a) && s.store.Memory? == t.store.Memory?
    ensures AnswersShown(t, d)
  {
    if t.store.Memory? {
      forall r | r in t.responses && r.digest == d ensures Shows(t, r) {
        if r in s.responses {
          SettledSurvives(s, t, a, d);
        } else {
          NewAnswerShown(s, t, a, r);
        }
      }
    }
  }

  lemma SameStore(s: System, t: System, a: Action)
    requires Next(s, t, a)
    ensures s.store.Memory? == t.store.Memory?
  {
  }

  lemma {:induction false} RunShowsAnswers(run: seq<System>, i: nat, d: Digest)
    requires IsRun(run) && i < |run| && forall k :: 0 <= k < i ==> Secure(run[k], d)
    ensures AnswersShown(run[i], d)
  {
    if i == 0 {
    } else {
      RunShowsAnswers(run, i - 1, d);
      assert StepAt(run, i - 1);
      var a :| Next(run[i - 1], run[i], a);
      SameStore(run[i - 1], run[i], a);
      StepShowsAnswers(run[i - 1], run[i], a, d);
    }
  }

  /**
   * As long as the settled entry of a digest is never at risk, all responses for that digest carry the same result
   * and the same binding.
   */
  lemma MemoryResponsesAgree(run: seq<System>, i: nat, p: Response, q: Response)
    requires IsRun(run) && i < |run| && run[i].store.Memory?
    requires p in run[i].responses && q in run[i].responses && p.digest == q.digest
    requires forall k :: 0 <= k < i ==> Secure(run[k], p.digest)
    ensures p == q
  {
    RunShowsAnswers(run, i, p.digest);
    assert Shows(run[i], p) && Shows(run[i], q);
  }

  /** In particular while the map has room and every settled entry is young. */
  ghost predicate Calm(s: System) {
    s.store.Memory? ==> |s.store.entries| < MAX_ENTRIES && forall d :: SettledAt(s, d) ==> !TooOld(s, d)
  }

  lemma CalmIsSecure(s: System, d: Digest)
    requires Calm(s)
    ensures Secure(s, d)
  {
    if SettledAt(s, d) {
      var kept := Evicted(s.store.entries, s.clock);
      FewerKeys(kept, s.store.entries);
    }
  }

  lemma FewerKeys(a: Entries, b: Entries)
    requires a.Keys <= b.Keys
    ensures |a| <= |b|
  {
    assert |a| == |a.Keys| && |b| == |b.Keys|;
    FewerElements(a.Keys, b.Keys);
  }

  lemma {:induction false} FewerElements(a: set<Digest>, b: set<Digest>)
    requires a <= b
    ensures |a| <= |b|
    decreases a
  {
    if a == {} {
    } else {
      var x :| x in a;
      FewerElements(a - {x}, b - {x});
    }
  }

  lemma CalmResponsesAgree(run: seq<System>, i: nat, p: Response, q: Response)
    requires IsRun(run) && i < |run| && run[i].store.Memory?
    requires p in run[i].responses && q in run[i].responses && p.digest == q.digest
    requires forall k :: 0 <= k < i ==> Calm(run[k])
    ensures p == q
  {
    forall k | 0 <= k < i ensures Secure(run[k], p.digest) {
      CalmIsSecure(run[k], p.digest);
    }
    MemoryResponsesAgree(run, i, p, q);
  }
}
