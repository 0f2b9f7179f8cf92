/** What the database store promises over whole runs: one answer per digest, no stuck digest, an atomic `begin`. */
module SettlementTheorems {
  import opened Options
  import opened SettlementModel
  import opened SettlementProtocol

  // ---- Rows over time ----

  /** Rows stay, keep their binding, and a settled row never changes again. */
  predicate RowAdvances(before: Row, after: Row) {
    after.binding == before.binding && (before.state.RowSettled? ==> after == before)
  }

  ghost predicate RowsAdvance(s: Store, t: Store) {
    s.Postgres? ==>
      t.Postgres? && forall d :: d in s.rows ==> d in t.rows && RowAdvances(s.rows[d], t.rows[d])
  }

  lemma StepAdvancesRows(s: System, t: System, a: Action)
    requires Next(s, t, a)
    ensures RowsAdvance(s.store, t.store)
  {
  }

  lemma RowsTransitive(a: Store, b: Store, c: Store)
    requires RowsAdvance(a, b) && RowsAdvance(b, c)
    ensures RowsAdvance(a, c)
  {
    if a.Postgres? {
      forall d | d in a.rows ensures d in c.rows && RowAdvances(a.rows[d], c.rows[d]) {
        assert RowAdvances(a.rows[d], b.rows[d]) && RowAdvances(b.rows[d], c.rows[d]);
      }
    }
  }

  /** Settled is absorbing and bindings never change, from any point of a run to any later one. */
  lemma {:induction false} RunAdvancesRows(run: seq<System>, i: nat, j: nat)
    requires IsRun(run) && i <= j < |run|
    ensures RowsAdvance(run[i].store, run[j].store)
    decreases j
  {
    if i == j {
    } else {
      RunAdvancesRows(run, i, j - 1);
      assert StepAt(run, j - 1);
      var a :| Next(run[j - 1], run[j], a);
      StepAdvancesRows(run[j - 1], run[j], a);
      RowsTransitive(run[i].store, run[j - 1].store, run[j].store);
    }
  }

  // ---- Responses ----

  predicate Backed(r: Response, rows: map<Digest, Row>) {
    && r.digest in rows && rows[r.digest].state.RowSettled? && rows[r.digest].binding == r.binding
    && rows[r.digest].body == Some(r.result.body) && rows[r.digest].header == Some(r.result.header)
  }

  /** Every response that reached a caller is the one stored for its digest. */
  ghost predicate ResponsesOk(s: System) {
    s.store.Postgres? ==> forall r :: r in s.responses ==> Backed(r, s.store.rows)
  }

  lemma NewResponse(s: System, t: System, a: Action, r: Response)
    requires Next(s, t, a) && s.store.Postgres? && t.store.Postgres? && r in t.responses && r !in s.responses
    ensures Backed(r, t.store.rows)
  {
  }

  lemma StepBacksResponses(s: System, t: System, a: Action)
    requires ResponsesOk(s) && Next(s, t, a)
    ensures ResponsesOk(t)
  {
    StepAdvancesRows(s, t, a);
    if t.store.Postgres? {
      SameKind(s, t, a);
      forall r | r in t.responses ensures Backed(r, t.store.rows) {
        if r in s.responses {
          assert Backed(r, s.store.rows);
        } else {
          NewResponse(s, t, a, r);
        }
      }
    }
  }

  lemma SameKind(s: System, t: System, a: Action)
    requires Next(s, t, a)
    ensures s.store.Postgres? == t.store.Postgres?
  {
  }

  lemma {:induction false} RunBacksResponses(run: seq<System>, i: nat)
    requires IsRun(run) && i < |run|
    ensures ResponsesOk(run[i])
  {
    if i == 0 {
    } else {
      RunBacksResponses(run, i - 1);
      assert StepAt(run, i - 1);
      var a :| Next(run[i - 1], run[i], a);
      StepBacksResponses(run[i - 1], run[i], a);
    }
  }

  /**
   * Under every interleaving, with crashes, expired leases and lost acknowledgements, all successful responses for
   * one digest carry the same result and the same binding.
   */
  lemma ResponsesAgree(run: seq<System>, i: nat, p: Response, q: Response)
    requires IsRun(run) && i < |run| && run[i].store.Postgres?
    requires p in run[i].responses && q in run[i].responses && p.digest == q.digest
    ensures p == q
  {
    RunBacksResponses(run, i);
    assert Backed(p, run[i].store.rows) && Backed(q, run[i].store.rows);
  }

  // ---- The insert race ----

  /** `begin` as one indivisible operation on the table. */
  function AtomicRows(rows: map<Digest, Row>, d: Digest, b: Binding, now: int, token: Token): map<Digest, Row> {
    if !ValidRequest(d, b) then rows
    else if d in rows then rows[d := Answered(rows[d], b, now, token)]
    else rows[d := NewRow(b, now, token)]
  }

  function AtomicReply(rows: map<Digest, Row>, d: Digest, b: Binding, now: int, token: Token): Reply {
    if !ValidRequest(d, b) then Refused(Internal)
    else if d in rows then Answer(rows[d], b, now, token)
    else Acquired(token)
  }

  ghost predicate InsertersValid(s: System) {
    forall w :: At(s, w).Inserting? ==> ValidRequest(At(s, w).digest, At(s, w).binding)
  }

  lemma StepKeepsInserters(s: System, t: System, a: Action)
    requires InsertersValid(s) && Next(s, t, a)
    ensures InsertersValid(t)
  {
    forall w | At(t, w).Inserting? ensures ValidRequest(At(t, w).digest, At(t, w).binding) {
      if At(s, w) == At(t, w) {
        assert At(s, w).Inserting?;
      }
    }
  }

  lemma {:induction false} RunKeepsInserters(run: seq<System>, i: nat)
    requires IsRun(run) && i < |run|
    ensures InsertersValid(run[i])
  {
    if i == 0 {
    } else {
      RunKeepsInserters(run, i - 1);
      assert StepAt(run, i - 1);
      var a :| Next(run[i - 1], run[i], a);
      StepKeepsInserters(run[i - 1], run[i], a);
    }
  }

  /**
   * Each statement of the racing `begin` either leaves the table alone and the worker inside `begin`, or is the
   * atomic `begin` performed at that instant.
   */
  lemma BeginIsAtomic(run: seq<System>, i: nat, a: Action)
    requires IsRun(run) && i + 1 < |run| && Next(run[i], run[i + 1], a) && run[i].store.Postgres?
    requires a.Read? || a.Insert?
    ensures var s, t, x := run[i], run[i + 1], At(run[i], a.w);
            if At(t, a.w).Reading? || At(t, a.w).Inserting? then t.store == s.store
            else
              && t.store == Postgres(AtomicRows(s.store.rows, x.digest, x.binding, s.clock, a.token))
              && t == AfterRead(s.(store := t.store), a.w, x.digest, x.binding, a.token,
                                Some(AtomicReply(s.store.rows, x.digest, x.binding, s.clock, a.token)))
  {
    RunKeepsInserters(run, i);
  }

  /** A lost insert race is followed by at most one more read: from then on every read of that digest is answered. */
  lemma RetryEnds(run: seq<System>, i: nat, j: nat, w: nat, token: Token, v: nat, token': Token, reply: Option<Reply>)
    requires IsRun(run) && i < j && j + 1 < |run|
    requires Inserts(run[i], run[i + 1], w, token) && At(run[i + 1], w).Reading?
    requires Reads(run[j], run[j + 1], v, token', reply) && At(run[j], v).digest == At(run[i], w).digest
    ensures reply.Some? && !At(run[j + 1], v).Inserting?
  {
    RunAdvancesRows(run, i, j);
    SameDigest(run[i], run[i + 1], w, token);
  }

  lemma SameDigest(s: System, t: System, w: nat, token: Token)
    requires Inserts(s, t, w, token) && At(t, w).Reading?
    ensures At(s, w).digest in s.store.rows
  {
  }

  // ---- No digest is stuck ----

  predicate TimelyRow(row: Row, clock: int) {
    && (row.leaseExpiresAt.Some? ==> row.leaseExpiresAt.value <= clock + LEASE)
    && (row.failedAt.Some? ==> row.failedAt.value <= clock)
  }

  ghost predicate Timely(s: System) {
    s.store.Postgres? ==> forall d :: d in s.store.rows ==> TimelyRow(s.store.rows[d], s.clock)
  }

  lemma StepKeepsTimely(s: System, t: System, a: Action)
    requires Timely(s) && Next(s, t, a)
    ensures Timely(t)
  {
    SameKind(s, t, a);
    if t.store.Postgres? {
      forall d | d in t.store.rows ensures TimelyRow(t.store.rows[d], t.clock) {
        assert d in s.store.rows ==> TimelyRow(s.store.rows[d], s.clock);
      }
    }
  }

  lemma {:induction false} RunKeepsTimely(run: seq<System>, i: nat)
    requires IsRun(run) && i < |run|
    ensures Timely(run[i])
  {
    if i == 0 {
    } else {
      RunKeepsTimely(run, i - 1);
      assert StepAt(run, i - 1);
      var a :| Next(run[i - 1], run[i], a);
      StepKeepsTimely(run[i - 1], run[i], a);
    }
  }

  /**
   * Whatever crashed, a request with the right binding is answered with a lease or the stored result at every time
   * later than thirty seconds after the digest was last touched.
   */
  lemma NoDigestIsStuck(run: seq<System>, i: nat, d: Digest, later: int, token: Token)
    requires IsRun(run) && i < |run| && run[i].store.Postgres? && d in run[i].store.rows
    requires later > run[i].clock + LEASE
    ensures !Answer(run[i].store.rows[d], run[i].store.rows[d].binding, later, token).Refused?
  {
    RunKeepsTimely(run, i);
    RunKeepsLeases(run, i);
    assert TimelyRow(run[i].store.rows[d], run[i].clock);
  }
}
