/** The two settlement stores as objects, and the request handler that drives the database store. */
module SettlementStores {
  import opened Options
  import opened SettlementModel
  import opened SettlementProtocol
  import opened SettlementTheorems

  type Table = map<Digest, Row>

  /** What the transactions of other workers do to the table at each pause between two statements of this one. */
  type Others = (nat, Table) -> Table

  ghost predicate Advances(before: Table, after: Table) {
    RowsAdvance(Postgres(before), Postgres(after))
  }

  /** Nobody else is active. */
  ghost predicate Alone(others: Others) {
    forall pause, rows :: others(pause, rows) == rows
  }

  ghost predicate Polite(others: Others) {
    forall pause, rows :: Advances(rows, others(pause, rows))
  }

  lemma AdvancesTransitive(a: Table, b: Table, c: Table)
    requires Advances(a, b) && Advances(b, c)
    ensures Advances(a, c)
  {
  }

  /** What a statement reads from the clock and draws as its token. */
  datatype Draw = Draw(now: int, token: Token)
  type Draws = nat -> Draw

  /** Which draw an undisturbed `begin` uses: the first if it reads a row, the second if it inserts one. */
  function SoloDraw(rows: Table, d: Digest, b: Binding, round: nat): nat {
    if ValidRequest(d, b) && d !in rows then round + 1 else round
  }

  class PgSettlementStore {
    var rows: Table

    constructor ()
      ensures rows == map[]
    {
      rows := map[];
    }

    /** The read path: lock the row if there is one, and answer from it. */
    method SelectForUpdate(d: Digest, b: Binding, now: int, token: Token) returns (reply: Option<Reply>)
      modifies this
      ensures Begins(Postgres(old(rows)), Postgres(rows), reply, d, b, now, token)
    {
      if !ValidRequest(d, b) {
        return Some(Refused(Internal));
      }
      if d !in rows {
        return None;
      }
      var row := rows[d];
      if row.binding != b {
        assert rows[d := row] == rows;
        return Some(Refused(BindingMismatch));
      }
      var prior := row.state;
      if prior.RowSettled? {
        assert rows[d := row] == rows;
        if row.body.None? || row.header.None? {
          return Some(Refused(Internal));
        }
        return Some(Cached(PaidResult(row.body.value, row.header.value)));
      }
      if prior.RowSettling? {
        var expired := row.leaseExpiresAt.None? || row.leaseExpiresAt.value < now;
        if !expired {
          assert rows[d := row] == rows;
          return Some(Refused(SettlementInProgress));
        }
      } else {
        var ready := row.failedAt.None? || row.failedAt.value + FAIL_RETRY <= now;
        if !ready {
          assert rows[d := row] == rows;
          return Some(Refused(SettlementInProgress));
        }
      }
      rows := rows[d := row.(state := RowSettling, lease := Some(token), leaseExpiresAt := Some(now + LEASE),
                             failedAt := None, binding := b)];
      reply := Some(if prior.RowSettling? then RecoveredStale(token) else Acquired(token));
    }

    method InsertRow(d: Digest, b: Binding, now: int, token: Token) returns (inserted: bool)
      modifies this
      ensures rows == Inserted(old(rows), d, b, now, token) && inserted == (d !in old(rows))
    {
      inserted := d !in rows;
      if inserted {
        rows := rows[d := Row(RowSettling, b, Some(token), Some(now + LEASE), None, None, None)];
      }
    }

    /**
     * The racing `begin` with its recursive retry; each statement reads the clock and draws a token anew. It
     * terminates, and answers as one atomic `begin` with one of these draws would on some table `at` reached from
     * the one it started with.
     */
    method Begin(d: Digest, b: Binding, draws: Draws, round: nat, others: Others, pause: nat)
      returns (reply: Reply, next: nat, ghost at: Table, ghost drawn: nat)
      requires Polite(others)
      modifies this
      ensures Advances(old(rows), at) && Advances(at, rows) && drawn >= round
      ensures rows == AtomicRows(at, d, b, draws(drawn).now, draws(drawn).token)
      ensures reply == AtomicReply(at, d, b, draws(drawn).now, draws(drawn).token)
      ensures Alone(others) ==> at == old(rows) && drawn == SoloDraw(at, d, b, round)
      decreases if d in rows then 0 else 1
    {
      at, drawn, next := rows, round, pause;
      var draw := draws(round);
      var read := SelectForUpdate(d, b, draw.now, draw.token);
      if read.Some? {
        return read.value, next, at, drawn;
      }
      rows := others(pause, rows);
      assert Advances(old(rows), rows);
      at, drawn, next := rows, round + 1, pause + 1;
      draw := draws(round + 1);
      var inserted := InsertRow(d, b, draw.now, draw.token);
      if inserted {
        return Acquired(draw.token), next, at, drawn;
      }
      ghost var before := rows;
      rows := others(pause + 1, rows);
      AdvancesTransitive(old(rows), before, rows);
      ghost var retried := rows;
      reply, next, at, drawn := Begin(d, b, draws, round + 2, others, pause + 2);
      AdvancesTransitive(old(rows), retried, at);
    }

    method Complete(d: Digest, b: Binding, lease: Token, result: PaidResult) returns (problem: Option<Problem>)
      modifies this
      ensures forall now :: Postgres(rows) == SettlementModel.Complete(Postgres(old(rows)), d, b, lease, result, now)
      ensures problem.None? == Completes(Postgres(old(rows)), d, b, lease, result)
      ensures problem.Some? ==> problem.value == if Fits(result) then LeaseMismatch else Internal
    {
      if |result.body| > MAX_RESULT_JSON || |result.header| > MAX_HEADER {
        return Some(Internal);
      }
      if d !in rows || !Held(rows[d], b, lease) {
        return Some(LeaseMismatch);
      }
      rows := rows[d := rows[d].(state := RowSettled, body := Some(result.body), header := Some(result.header),
                                 lease := None, leaseExpiresAt := None)];
      problem := None;
    }

    method Fail(d: Digest, b: Binding, lease: Token, now: int) returns (problem: Option<Problem>)
      modifies this
      ensures Postgres(rows) == SettlementModel.Fail(Postgres(old(rows)), d, b, lease, now)
      ensures problem == if Matches(Postgres(old(rows)), d, b, lease) then None else Some(LeaseMismatch)
    {
      if d !in rows || !Held(rows[d], b, lease) {
        return Some(LeaseMismatch);
      }
      rows := rows[d := rows[d].(state := RowFailed, failedAt := Some(now), lease := None, leaseExpiresAt := None)];
      problem := None;
    }
  }

  // ---- The request handler ----

  /** The replies of the payment facilitator to one request. */
  datatype Facilitator = Facilitator(verify: Option<bool>, settle: Option<bool>, result: PaidResult)

  /** The table after a request that nobody disturbs. */
  function SoloRows(rows: Table, d: Digest, b: Binding, now: int, token: Token, done: int, f: Facilitator): Table {
    var begun := AtomicRows(rows, d, b, now, token);
    if !AtomicReply(rows, d, b, now, token).Grants() then begun
    else if f.verify != Some(true) || f.settle != Some(true) then begun[d := FailedRow(begun[d], done)]
    else if Fits(f.result) then begun[d := SettledRow(begun[d], f.result)]
    else begun
  }

  function SoloResult(rows: Table, d: Digest, b: Binding, now: int, token: Token, f: Facilitator): Option<PaidResult> {
    var reply := AtomicReply(rows, d, b, now, token);
    if reply.Cached? then Some(reply.result)
    else if reply.Grants() && f.verify == Some(true) && f.settle == Some(true) && Fits(f.result) then Some(f.result)
    else None
  }

  /**
   * One paid request with other workers active at every pause. Its own effect is again polite, and a result it
   * returns is the settled one of that digest, bound to this request. Undisturbed, it does what `SoloRows` says.
   */
  method InvokePaidDemo(store: PgSettlementStore, d: Digest, b: Binding, draws: Draws, done: int,
                        facilitator: Facilitator, others: Others) returns (paid: Option<PaidResult>)
    requires Polite(others)
    modifies store
    ensures Advances(old(store.rows), store.rows)
    ensures paid.Some? ==> Backed(Response(d, b, paid.value), store.rows)
    ensures Alone(others) ==>
              var draw := draws(SoloDraw(old(store.rows), d, b, 0));
              && store.rows == SoloRows(old(store.rows), d, b, draw.now, draw.token, done, facilitator)
              && paid == SoloResult(old(store.rows), d, b, draw.now, draw.token, facilitator)
  {
    ghost var at, drawn;
    var reply, pause;
    reply, pause, at, drawn := store.Begin(d, b, draws, 0, others, 0);
    AdvancesTransitive(old(store.rows), at, store.rows);
    if reply.Cached? {
      return Some(reply.result);
    }
    if reply.Refused? {
      return None;
    }
    ghost var begun := store.rows;
    paid := PayAndRecord(store, d, b, reply.lease, done, facilitator, others, pause);
    AdvancesTransitive(old(store.rows), begun, store.rows);
  }

  /** Everything after a lease was granted. */
  method PayAndRecord(store: PgSettlementStore, d: Digest, b: Binding, lease: Token, done: int,
                      facilitator: Facilitator, others: Others, pause: nat) returns (paid: Option<PaidResult>)
    requires Polite(others)
    modifies store
    ensures Advances(old(store.rows), store.rows)
    ensures paid.Some? ==> Backed(Response(d, b, paid.value), store.rows)
    ensures Alone(others) ==>
              var rows, settles := old(store.rows), facilitator.verify == Some(true) && facilitator.settle == Some(true);
              && Postgres(store.rows) == (if settles then SettlementModel.Complete(Postgres(rows), d, b, lease, facilitator.result, done)
                                          else SettlementModel.Fail(Postgres(rows), d, b, lease, done))
              && paid == if settles && Completes(Postgres(rows), d, b, lease, facilitator.result)
                         then Some(facilitator.result) else None
  {
    store.rows := others(pause, store.rows);
    if facilitator.verify != Some(true) {
      var _ := store.Fail(d, b, lease, done);
      return None;
    }
    ghost var before := store.rows;
    store.rows := others(pause + 1, store.rows);
    AdvancesTransitive(old(store.rows), before, store.rows);
    before := store.rows;
    if facilitator.settle != Some(true) {
      var _ := store.Fail(d, b, lease, done);
      AdvancesTransitive(old(store.rows), before, store.rows);
      return None;
    }
    var problem := store.Complete(d, b, lease, facilitator.result);
    assert Postgres(store.rows) == SettlementModel.Complete(Postgres(before), d, b, lease, facilitator.result, done);
    AdvancesTransitive(old(store.rows), before, store.rows);
    if problem.Some? {
      return None;
    }
    paid := Some(facilitator.result);
  }

  // ---- The in-process store ----

  class MemorySettlementStore {
    var entries: Entries

    constructor ()
      ensures entries == map[]
    {
      entries := map[];
    }

    method Evict(now: int)
      modifies this
      ensures entries == Evicted(old(entries), now)
    {
      entries := map d | d in entries && now - entries[d].Stamp() <= ENTRY_TTL :: entries[d];
    }

    /** Removes the oldest entry that is not in flight, if there is one. */
    method EvictOneTargeted()
      modifies this
      ensures if exists d :: IsVictim(old(entries), d)
              then exists d :: IsVictim(old(entries), d) && entries == old(entries) - {d}
              else entries == old(entries)
    {
      var oldest: Option<Digest> := None;
      var todo := entries.Keys;
      while todo != {}
        invariant todo <= entries.Keys
        invariant oldest.None? ==> forall k :: k in entries && k !in todo ==> entries[k].Settling?
        invariant oldest.Some? ==>
                    && oldest.value in entries && !entries[oldest.value].Settling?
                    && forall k :: k in entries && k !in todo && !entries[k].Settling? ==>
                         entries[oldest.value].Stamp() <= entries[k].Stamp()
        decreases todo
      {
        var k :| k in todo;
        todo := todo - {k};
        if !entries[k].Settling? && (oldest.None? || entries[k].Stamp() <= entries[oldest.value].Stamp()) {
          oldest := Some(k);
        }
      }
      if oldest.Some? {
        assert IsVictim(entries, oldest.value);
        entries := entries - {oldest.value};
      }
    }

    method Begin(d: Digest, b: Binding, now: int, token: Token) returns (reply: Reply)
      modifies this
      ensures Begins(Memory(old(entries)), Memory(entries), Some(reply), d, b, now, token)
    {
      Evict(now);
      ghost var kept := entries;
      if d in entries {
        var e := entries[d];
        if e.binding != b {
          return Refused(BindingMismatch);
        }
        if e.Settled? {
          return Cached(e.result);
        } else if e.Settling? {
          if now - e.started <= LEASE {
            return Refused(SettlementInProgress);
          }
          entries := entries[d := Settling(b, token, now)];
          return RecoveredStale(token);
        } else {
          if now - e.failedAt < FAIL_RETRY {
            return Refused(SettlementInProgress);
          }
          entries := entries[d := Settling(b, token, now)];
          return Acquired(token);
        }
      }
      if |entries| >= MAX_ENTRIES {
        EvictOneTargeted();
      }
      assert MakesRoom(kept, entries);
      entries := entries[d := Settling(b, token, now)];
      reply := Acquired(token);
    }

    method Complete(d: Digest, b: Binding, lease: Token, result: PaidResult, now: int) returns (problem: Option<Problem>)
      modifies this
      ensures Memory(entries) == SettlementModel.Complete(Memory(old(entries)), d, b, lease, result, now)
      ensures problem == if Matches(Memory(old(entries)), d, b, lease) then None
                         else if d in old(entries) && old(entries)[d].Settling? then Some(LeaseMismatch)
                         else Some(InvalidChallenge)
    {
      if d in entries && EntryHeld(entries[d], b, lease) {
        entries := entries[d := Settled(b, result, now)];
        return None;
      }
      problem := Some(if d in entries && entries[d].Settling? then LeaseMismatch else InvalidChallenge);
    }

    method Fail(d: Digest, b: Binding, lease: Token, now: int) returns (problem: Option<Problem>)
      modifies this
      ensures Memory(entries) == SettlementModel.Fail(Memory(old(entries)), d, b, lease, now)
      ensures problem == if !Matches(Memory(old(entries)), d, b, lease) && d in old(entries) && old(entries)[d].Settling?
                         then Some(LeaseMismatch) else None
    {
      if d in entries && EntryHeld(entries[d], b, lease) {
        entries := entries[d := Failed(b, now)];
        return None;
      }
      problem := if d in entries && entries[d].Settling? then Some(LeaseMismatch) else None;
    }
  }
}
