/** What a request is answered, said through what happened to its digest before, in seconds. */
module SettlementLaws {
  import opened Options
  import opened SettlementModel
  import opened SettlementProtocol
  import opened SettlementTheorems

  /** The request a worker is reading for. */
  predicate Asks(s: System, v: nat, d: Digest, b: Binding) {
    At(s, v) == Reading(d, b)
  }

  /** The entry of the digest is as it was; the database table is as it was altogether. */
  predicate Untouched(s: Store, t: Store, d: Digest) {
    if s.Postgres? then t == s else t.Memory? && d in s.entries && d in t.entries && t.entries[d] == s.entries[d]
  }

  // ---- Only valid requests reach the table ----

  ghost predicate OnlyValid(s: System) {
    && (s.store.Postgres? ==> forall d :: d in s.store.rows ==> ValidRequest(d, s.store.rows[d].binding))
    && InsertersValid(s)
  }

  lemma StepKeepsValid(s: System, t: System, a: Action)
    requires OnlyValid(s) && Next(s, t, a)
    ensures OnlyValid(t)
  {
    StepKeepsInserters(s, t, a);
    SameKind(s, t, a);
    if t.store.Postgres? {
      forall d | d in t.store.rows ensures ValidRequest(d, t.store.rows[d].binding) {
        if d in s.store.rows {
          StepAdvancesRows(s, t, a);
          assert RowAdvances(s.store.rows[d], t.store.rows[d]);
        } else {
          NewRowIsValid(s, t, a, d);
        }
      }
    }
  }

  lemma NewRowIsValid(s: System, t: System, a: Action, d: Digest)
    requires InsertersValid(s) && Next(s, t, a) && s.store.Postgres? && t.store.Postgres?
    requires d in t.store.rows && d !in s.store.rows
    ensures ValidRequest(d, t.store.rows[d].binding)
  {
    assert a.Insert?;
    assert At(s, a.w).Inserting?;
  }

  lemma {:induction false} RunKeepsValid(run: seq<System>, i: nat)
    requires IsRun(run) && i < |run|
    ensures OnlyValid(run[i])
  {
    if i == 0 {
    } else {
      RunKeepsValid(run, i - 1);
      assert StepAt(run, i - 1);
      var a :| Next(run[i - 1], run[i], a);
      StepKeepsValid(run[i - 1], run[i], a);
    }
  }

  predicate HexOf(s: string, n: nat) {
    |s| == n && forall i :: 0 <= i < n ==> s[i] in "0123456789abcdefABCDEF"
  }

  /** No run stores a row whose digest, input digest or memo is not hexadecimal of the right length. */
  lemma RowsAreHex(run: seq<System>, i: nat, d: Digest)
    requires IsRun(run) && i < |run| && run[i].store.Postgres? && d in run[i].store.rows
    ensures HexOf(d, 64) && HexOf(run[i].store.rows[d].binding.inputDigest, 64)
    ensures HexOf(run[i].store.rows[d].binding.challengeMemo, 32)
  {
    RunKeepsValid(run, i);
    HexIs(d);
    HexIs(run[i].store.rows[d].binding.inputDigest);
    HexIs(run[i].store.rows[d].binding.challengeMemo);
  }

  lemma HexIs(s: string)
    ensures IsHex(s) <==> HexOf(s, |s|)
  {
    forall i | 0 <= i < |s|
      ensures ('0' <= s[i] <= '9' || 'a' <= s[i] <= 'f' || 'A' <= s[i] <= 'F') <==> s[i] in "0123456789abcdefABCDEF"
    {
      HexChar(s[i]);
    }
  }

  lemma HexChar(c: char)
    ensures ('0' <= c <= '9' || 'a' <= c <= 'f' || 'A' <= c <= 'F') <==> c in "0123456789abcdefABCDEF"
  {
    var all := "0123456789abcdefABCDEF";
    if '0' <= c <= '9' {
      assert all[c as int - '0' as int] == c;
    } else if 'a' <= c <= 'f' {
      assert all[10 + (c as int - 'a' as int)] == c;
    } else if 'A' <= c <= 'F' {
      assert all[16 + (c as int - 'A' as int)] == c;
    }
  }

  // ---- Unknown digests and other bindings ----

  /** Nothing is recorded of the digest that a read would see. */
  predicate Unknown(s: System, d: Digest) {
    match s.store
    case Postgres(rows) => d !in rows
    case Memory(entries) => d in entries ==> s.clock - entries[d].Stamp() > 120_000_000
  }

  /** An unknown digest is granted for thirty seconds: at once, or in the database by the insert that follows. */
  lemma UnknownIsGranted(s: System, t: System, v: nat, token: Token, reply: Option<Reply>, d: Digest, b: Binding)
    requires Asks(s, v, d, b) && Reads(s, t, v, token, reply) && Unknown(s, d)
    requires s.store.Postgres? ==> HexOf(d, 64) && HexOf(b.inputDigest, 64) && HexOf(b.challengeMemo, 32)
    ensures if s.store.Postgres? then reply == None && t.store == s.store && At(t, v) == Inserting(d, b)
            else reply == Some(Acquired(token)) && InFlight(t.store, d) == Some(Grant(token, s.clock + 30_000_000, b))
  {
    if s.store.Postgres? {
      HexIs(d);
      HexIs(b.inputDigest);
      HexIs(b.challengeMemo);
    } else {
      BeginGrants(s.store, t.store, reply, d, b, s.clock, token);
    }
  }

  lemma InsertGrants(s: System, t: System, v: nat, token: Token)
    requires Inserts(s, t, v, token) && At(s, v).digest !in s.store.rows
    ensures var x := At(s, v);
            && InFlight(t.store, x.digest) == Some(Grant(token, s.clock + 30_000_000, x.binding))
            && At(t, v) == Holding(x.digest, x.binding, token, s.clock + 30_000_000, false)
  {
  }

  /** What is recorded of the digest belongs to another binding. */
  predicate OtherBinding(s: System, d: Digest, b: Binding) {
    match s.store
    case Postgres(rows) => d in rows && rows[d].binding != b
    case Memory(entries) => d in entries && entries[d].binding != b && s.clock - entries[d].Stamp() <= 120_000_000
  }

  /** A digest recorded for one binding is refused to any other, and the record stays. */
  lemma OtherBindingIsRefused(s: System, t: System, v: nat, token: Token, reply: Option<Reply>, d: Digest, b: Binding)
    requires Asks(s, v, d, b) && Reads(s, t, v, token, reply) && OtherBinding(s, d, b)
    requires s.store.Postgres? ==> ValidRequest(d, b)
    ensures reply == Some(Refused(BindingMismatch)) && Untouched(s.store, t.store, d)
  {
    if s.store.Postgres? {
      assert s.store.rows[d := s.store.rows[d]] == s.store.rows;
    }
  }

  /** A malformed request is an error and changes nothing; so is one for a row marked settled that holds no result. */
  lemma MalformedIsRefused(s: System, t: System, v: nat, token: Token, reply: Option<Reply>, d: Digest, b: Binding)
    requires Asks(s, v, d, b) && Reads(s, t, v, token, reply) && s.store.Postgres?
    ensures !(HexOf(d, 64) && HexOf(b.inputDigest, 64) && HexOf(b.challengeMemo, 32)) ==>
              reply == Some(Refused(Internal)) && t.store == s.store
    ensures ValidRequest(d, b) && d in s.store.rows && s.store.rows[d].binding == b && s.store.rows[d].state.RowSettled?
            && (s.store.rows[d].body.None? || s.store.rows[d].header.None?) ==>
              reply == Some(Refused(Internal)) && t.store == s.store
  {
    HexIs(d);
    HexIs(b.inputDigest);
    HexIs(b.challengeMemo);
    if d in s.store.rows {
      assert s.store.rows[d := s.store.rows[d]] == s.store.rows;
    }
  }

  // ---- Rows and entries ----

  /** A granted read rewrites the lease columns of its own row and forgets its failure; the result columns stay. */
  lemma GrantedRow(s: System, t: System, v: nat, token: Token, reply: Option<Reply>, d: Digest, b: Binding)
    requires Asks(s, v, d, b) && Reads(s, t, v, token, reply) && s.store.Postgres? && reply.Some? && reply.value.Grants()
    ensures d in s.store.rows
    ensures var row := s.store.rows[d];
            t.store == Postgres(s.store.rows[d :=
              Row(RowSettling, b, Some(token), Some(s.clock + 30_000_000), row.body, row.header, None)])
  {
  }

  lemma InsertedRow(s: System, t: System, v: nat, token: Token)
    requires Inserts(s, t, v, token)
    ensures var x := At(s, v);
            t.store == if x.digest in s.store.rows then s.store
                       else Postgres(s.store.rows[x.digest :=
                              Row(RowSettling, x.binding, Some(token), Some(s.clock + 30_000_000), None, None, None)])
  {
  }

  /** Completing and failing end exactly the grant with this lease and binding, and touch no other record. */
  lemma EndsItsOwn(s: Store, d: Digest, b: Binding, lease: Token, r: PaidResult, now: int)
    requires StoreOk(s)
    ensures var mine := InFlight(s, d).Some? && InFlight(s, d).value.lease == lease && InFlight(s, d).value.binding == b;
            && Fail(s, d, b, lease, now)
               == (if !mine then s
                   else match s
                     case Postgres(rows) =>
                       Postgres(rows[d := Row(RowFailed, b, None, None, rows[d].body, rows[d].header, Some(now))])
                     case Memory(entries) => Memory(entries[d := Failed(b, now)]))
            && Complete(s, d, b, lease, r, now)
               == (if !mine || (s.Postgres? && (|r.body| > 16_384 || |r.header| > 8_192)) then s
                   else match s
                     case Postgres(rows) =>
                       Postgres(rows[d := Row(RowSettled, b, None, None, Some(r.body), Some(r.header), rows[d].failedAt)])
                     case Memory(entries) => Memory(entries[d := Settled(b, r, now)]))
  {
  }

  /** Entries no older than two minutes. */
  predicate Young(e: Entry, now: int) {
    now - (match e case Settling(_, _, time) => time case Settled(_, _, time) => time case Failed(_, time) => time) <= 120_000_000
  }

  /** One entry not in flight goes, and no other such entry is older. */
  predicate Oldest(entries: Entries, k: Digest) {
    && k in entries && !entries[k].Settling?
    && forall m :: m in entries && !entries[m].Settling? ==> entries[k].Stamp() <= entries[m].Stamp()
  }

  /**
   * What a read leaves of the other entries in the in-process map: all that are not older than two minutes, but for one
   * oldest entry not in flight if the digest is new, 512 entries are left and there is such an entry.
   */
  lemma EntriesLeft(s: System, t: System, v: nat, token: Token, reply: Option<Reply>, d: Digest, b: Binding)
    requires Asks(s, v, d, b) && Reads(s, t, v, token, reply) && s.store.Memory?
    ensures var kept := map k | k in s.store.entries && Young(s.store.entries[k], s.clock) :: s.store.entries[k];
            && t.store.Memory?
            && (d in kept || |kept| < 512 || (forall k :: k in kept ==> kept[k].Settling?) ==> t.store.entries - {d} == kept - {d})
            && (d !in kept && |kept| >= 512 && (exists k :: k in kept && !kept[k].Settling?) ==>
                  exists k :: Oldest(kept, k) && t.store.entries - {d} == kept - {k})
            && (d in t.store.entries && t.store.entries[d] == if reply.value.Grants() then Settling(b, token, s.clock) else kept[d])
  {
    var kept := map k | k in s.store.entries && Young(s.store.entries[k], s.clock) :: s.store.entries[k];
    assert kept == Evicted(s.store.entries, s.clock);
    if d !in kept {
      var room :| MakesRoom(kept, room) && t.store.entries == room[d := Settling(b, token, s.clock)];
      if exists k :: k in kept && !kept[k].Settling? {
        var k :| k in kept && !kept[k].Settling?;
        var m := OldestExists(kept, k);
        assert IsVictim(kept, m);
        if |kept| >= 512 {
          var out :| IsVictim(kept, out) && room == kept - {out};
          assert Oldest(kept, out);
          assert t.store.entries - {d} == kept - {out};
        }
      }
    }
  }

  lemma OldestExists(entries: Entries, k: Digest) returns (m: Digest)
    requires k in entries && !entries[k].Settling?
    ensures Oldest(entries, m)
  {
    m := OldestOf(entries, (set x | x in entries && !entries[x].Settling?), k);
  }

  lemma {:induction false} OldestOf(entries: Entries, among: set<Digest>, k: Digest) returns (m: Digest)
    requires k in among && forall x :: x in among ==> x in entries
    ensures m in among && forall x :: x in among ==> entries[m].Stamp() <= entries[x].Stamp()
    decreases among
  {
    m := k;
    var rest := among - {k};
    assert forall y :: y in among ==> y == k || y in rest;
    if rest != {} {
      var x :| x in rest;
      var r := OldestOf(entries, rest, x);
      if entries[r].Stamp() < entries[k].Stamp() {
        m := r;
      }
    }
  }

  // ---- Thirty seconds ----

  /** A grant made by a step lasts thirty seconds from then. */
  lemma GrantLasts(s: System, t: System, a: Action, d: Digest)
    requires LeasesOk(s) && Next(s, t, a) && InFlight(t.store, d).Some? && InFlight(t.store, d).value.lease !in s.used
    ensures InFlight(t.store, d).value.deadline == s.clock + 30_000_000
  {
    assert GrantOk(s, d);
    if a.Read? {
      var x := At(s, a.w);
      BeginGrants(s.store, t.store, a.reply, x.digest, x.binding, s.clock, a.token);
    } else if a.GiveUp? || a.Finish? {
      var x := At(s, a.w);
      EndGrants(s.store, t.store, x.digest, x.binding, x.lease, if a.Finish? then a.result else PaidResult("", ""), s.clock);
    }
  }

  lemma UsedGrows(s: System, t: System, a: Action)
    requires Next(s, t, a)
    ensures s.used <= t.used
  {
  }

  /** A recorded grant is the old one or one with a token never used before. */
  lemma GrantIsOldOrNew(s: System, t: System, a: Action, d: Digest)
    requires Next(s, t, a) && InFlight(t.store, d).Some?
    ensures InFlight(t.store, d) == InFlight(s.store, d) || InFlight(t.store, d).value.lease !in s.used
  {
    if a.Read? {
      var x := At(s, a.w);
      BeginGrants(s.store, t.store, a.reply, x.digest, x.binding, s.clock, a.token);
    } else if a.GiveUp? || a.Finish? {
      var x := At(s, a.w);
      EndGrants(s.store, t.store, x.digest, x.binding, x.lease, if a.Finish? then a.result else PaidResult("", ""), s.clock);
    }
  }

  /** While its token is recorded a grant is exactly as it was made. */
  lemma {:induction false} GrantStays(run: seq<System>, i: nat, j: nat, d: Digest)
    requires IsRun(run) && i <= j < |run| && InFlight(run[i].store, d).Some? && InFlight(run[j].store, d).Some?
    requires InFlight(run[i].store, d).value.lease in run[i].used
    requires InFlight(run[j].store, d).value.lease == InFlight(run[i].store, d).value.lease
    ensures InFlight(run[j].store, d) == InFlight(run[i].store, d) && run[i].used <= run[j].used
    decreases j
  {
    if i == j {
    } else {
      UsedOverRun(run, i, j - 1);
      assert StepAt(run, j - 1);
      var a :| Next(run[j - 1], run[j], a);
      UsedGrows(run[j - 1], run[j], a);
      GrantIsOldOrNew(run[j - 1], run[j], a, d);
      GrantStays(run, i, j - 1, d);
    }
  }

  lemma {:induction false} UsedOverRun(run: seq<System>, i: nat, j: nat)
    requires IsRun(run) && i <= j < |run|
    ensures run[i].used <= run[j].used
    decreases j
  {
    if i == j {
    } else {
      UsedOverRun(run, i, j - 1);
      assert StepAt(run, j - 1);
      var a :| Next(run[j - 1], run[j], a);
      UsedGrows(run[j - 1], run[j], a);
    }
  }

  /** Answers to a digest in flight, by its deadline. */
  lemma InFlightAnswer(s: System, t: System, v: nat, token: Token, reply: Option<Reply>, d: Digest)
    requires InFlight(s.store, d).Some? && Asks(s, v, d, InFlight(s.store, d).value.binding) && Reads(s, t, v, token, reply)
    requires OnlyValid(s) && (s.store.Memory? ==> s.clock <= InFlight(s.store, d).value.deadline + 90_000_000)
    ensures if s.clock <= InFlight(s.store, d).value.deadline
            then reply == Some(Refused(SettlementInProgress)) && Untouched(s.store, t.store, d)
            else reply == Some(RecoveredStale(token))
                 && InFlight(t.store, d) == Some(Grant(token, s.clock + 30_000_000, InFlight(s.store, d).value.binding))
  {
    if s.store.Postgres? {
      assert s.store.rows[d := s.store.rows[d]] == s.store.rows;
    }
  }

  lemma GrantIsUsed(run: seq<System>, i: nat, d: Digest)
    requires IsRun(run) && i < |run| && InFlight(run[i].store, d).Some?
    ensures InFlight(run[i].store, d).value.lease in run[i].used
  {
    RunKeepsLeases(run, i);
    assert GrantOk(run[i], d);
  }

  lemma NewGrant(run: seq<System>, i: nat, d: Digest)
    requires IsRun(run) && i + 1 < |run|
    requires InFlight(run[i + 1].store, d).Some? && InFlight(run[i + 1].store, d).value.lease !in run[i].used
    ensures InFlight(run[i + 1].store, d).value.deadline == run[i].clock + 30_000_000
    ensures InFlight(run[i + 1].store, d).value.lease in run[i + 1].used
  {
    GrantIsUsed(run, i + 1, d);
    RunKeepsLeases(run, i);
    assert StepAt(run, i);
    var a :| Next(run[i], run[i + 1], a);
    GrantLasts(run[i], run[i + 1], a, d);
  }

  /**
   * A digest granted at time t is refused to every request with its binding up to and including t + 30 seconds, and
   * recovered by the first one after that, while the grant is recorded.
   */
  lemma LeaseLastsThirtySeconds(run: seq<System>, i: nat, j: nat, v: nat, token: Token, reply: Option<Reply>, d: Digest)
    requires IsRun(run) && i + 1 <= j && j + 1 < |run|
    requires InFlight(run[i + 1].store, d).Some? && InFlight(run[i + 1].store, d).value.lease !in run[i].used
    requires InFlight(run[j].store, d).Some? && InFlight(run[j].store, d).value.lease == InFlight(run[i + 1].store, d).value.lease
    requires Asks(run[j], v, d, InFlight(run[i + 1].store, d).value.binding) && Reads(run[j], run[j + 1], v, token, reply)
    requires run[j].store.Memory? ==> run[j].clock <= run[i].clock + 120_000_000
    ensures if run[j].clock <= run[i].clock + 30_000_000
            then reply == Some(Refused(SettlementInProgress)) && Untouched(run[j].store, run[j + 1].store, d)
            else reply == Some(RecoveredStale(token))
                 && InFlight(run[j + 1].store, d)
                    == Some(Grant(token, run[j].clock + 30_000_000, InFlight(run[i + 1].store, d).value.binding))
  {
    NewGrant(run, i, d);
    GrantStays(run, i + 1, j, d);
    RunKeepsValid(run, j);
    InFlightAnswer(run[j], run[j + 1], v, token, reply, d);
  }

  // ---- Two seconds ----

  /** The digest failed at the given time, and nothing has been recorded since. */
  predicate FailedAt(store: Store, d: Digest, b: Binding, time: int) {
    match store
    case Postgres(rows) => d in rows && rows[d].state.RowFailed? && rows[d].failedAt == Some(time) && rows[d].binding == b
    case Memory(entries) => d in entries ==> entries[d] == Failed(b, time)
  }

  lemma FailureIsRecorded(s: System, t: System, w: nat)
    requires GivesUp(s, t, w) && Matches(s.store, At(s, w).digest, At(s, w).binding, At(s, w).lease)
    ensures FailedAt(t.store, At(s, w).digest, At(s, w).binding, s.clock)
    ensures t.store.Memory? ==> At(s, w).digest in t.store.entries
  {
  }

  lemma FailureStays(s: System, t: System, a: Action, d: Digest, b: Binding, time: int)
    requires FailedAt(s.store, d, b, time) && Next(s, t, a) && StoreOk(t.store) && InFlight(t.store, d).None?
    ensures FailedAt(t.store, d, b, time)
  {
    if a.Read? {
      FailureStaysOnRead(s, t, a.w, a.token, a.reply, d, b, time);
    }
  }

  lemma FailureStaysOnRead(s: System, t: System, w: nat, token: Token, reply: Option<Reply>, d: Digest, b: Binding, time: int)
    requires FailedAt(s.store, d, b, time) && Reads(s, t, w, token, reply) && StoreOk(t.store) && InFlight(t.store, d).None?
    ensures FailedAt(t.store, d, b, time)
  {
    var x := At(s, w);
    if s.store.Memory? {
      var kept := Evicted(s.store.entries, s.clock);
      if x.digest !in kept {
        var room :| MakesRoom(kept, room) && t.store.entries == room[x.digest := Settling(x.binding, token, s.clock)];
        assert d != x.digest;
      }
    }
  }

  lemma StoreIsOk(run: seq<System>, i: nat)
    requires IsRun(run) && i < |run|
    ensures StoreOk(run[i].store)
  {
    RunKeepsLeases(run, i);
  }

  lemma {:induction false} FailureStaysOverRun(run: seq<System>, i: nat, j: nat, d: Digest, b: Binding, time: int)
    requires IsRun(run) && i <= j < |run| && FailedAt(run[i].store, d, b, time)
    requires forall k :: i <= k <= j ==> InFlight(run[k].store, d).None?
    ensures FailedAt(run[j].store, d, b, time)
    decreases j
  {
    if i == j {
    } else {
      FailureStaysOverRun(run, i, j - 1, d, b, time);
      StoreIsOk(run, j);
      assert StepAt(run, j - 1);
      var a :| Next(run[j - 1], run[j], a);
      FailureStays(run[j - 1], run[j], a, d, b, time);
    }
  }

  lemma FailedAnswer(s: System, t: System, v: nat, token: Token, reply: Option<Reply>, d: Digest, b: Binding, time: int)
    requires FailedAt(s.store, d, b, time) && Asks(s, v, d, b) && Reads(s, t, v, token, reply) && OnlyValid(s)
    requires s.store.Memory? ==> d in s.store.entries && s.clock <= time + 120_000_000
    ensures if s.clock < time + 2_000_000
            then reply == Some(Refused(SettlementInProgress)) && Untouched(s.store, t.store, d)
            else reply == Some(Acquired(token)) && InFlight(t.store, d) == Some(Grant(token, s.clock + 30_000_000, b))
  {
    if s.store.Postgres? {
      assert s.store.rows[d := s.store.rows[d]] == s.store.rows;
    }
  }

  /**
   * After a failure recorded at time t, while nobody has been granted the digest since and the failure is still
   * recorded, every request with its binding is refused before t + 2 seconds and changes nothing of it, and is granted
   * from then on. Holds of both stores; the in-process one drops the record after two minutes or to make room.
   */
  lemma FailureDelaysTwoSeconds(run: seq<System>, i: nat, j: nat, w: nat, v: nat, token: Token, reply: Option<Reply>)
    requires IsRun(run) && i < j && j + 1 < |run|
    requires GivesUp(run[i], run[i + 1], w)
    requires Matches(run[i].store, At(run[i], w).digest, At(run[i], w).binding, At(run[i], w).lease)
    requires forall k :: i + 1 <= k <= j ==> InFlight(run[k].store, At(run[i], w).digest).None?
    requires run[j].store.Memory? ==>
               At(run[i], w).digest in run[j].store.entries && run[j].clock <= run[i].clock + 120_000_000
    requires Asks(run[j], v, At(run[i], w).digest, At(run[i], w).binding) && Reads(run[j], run[j + 1], v, token, reply)
    ensures var x := At(run[i], w);
            if run[j].clock < run[i].clock + 2_000_000
            then reply == Some(Refused(SettlementInProgress)) && Untouched(run[j].store, run[j + 1].store, x.digest)
            else reply == Some(Acquired(token))
                 && InFlight(run[j + 1].store, x.digest) == Some(Grant(token, run[j].clock + 30_000_000, x.binding))
  {
    var x := At(run[i], w);
    FailureIsRecorded(run[i], run[i + 1], w);
    FailureStaysOverRun(run, i + 1, j, x.digest, x.binding, run[i].clock);
    RunKeepsValid(run, j);
    FailedAnswer(run[j], run[j + 1], v, token, reply, x.digest, x.binding, run[i].clock);
  }

  // ---- Settled ----

  predicate SettledWith(store: Store, d: Digest, b: Binding, r: PaidResult) {
    match store
    case Postgres(rows) => Backed(Response(d, b, r), rows)
    case Memory(entries) => d in entries && entries[d].Settled? && entries[d].binding == b && entries[d].result == r
  }

  /** Finishing under the recorded lease settles the digest with the result, if the database can hold it. */
  lemma FinishSettles(s: System, t: System, w: nat, r: PaidResult, acknowledged: bool)
    requires Finishes(s, t, w, r, acknowledged)
    ensures var x := At(s, w);
            if Matches(s.store, x.digest, x.binding, x.lease) && (s.store.Postgres? ==> |r.body| <= 16_384 && |r.header| <= 8_192)
            then SettledWith(t.store, x.digest, x.binding, r)
                 && (acknowledged ==> Response(x.digest, x.binding, r) in t.responses)
            else t.store == s.store && t.responses == s.responses
  {
  }

  /** From then on the database answers every request with its binding with that result, and changes nothing. */
  lemma SettledIsAnswered(run: seq<System>, i: nat, j: nat, v: nat, token: Token, reply: Option<Reply>, d: Digest, b: Binding, r: PaidResult)
    requires IsRun(run) && i <= j && j + 1 < |run| && run[i].store.Postgres? && SettledWith(run[i].store, d, b, r)
    requires Asks(run[j], v, d, b) && Reads(run[j], run[j + 1], v, token, reply)
    ensures reply == Some(Cached(r)) && run[j + 1].store == run[j].store
    ensures Response(d, b, r) in run[j + 1].responses
  {
    RunAdvancesRows(run, i, j);
    RunKeepsValid(run, j);
    var rows := run[j].store.rows;
    assert RowAdvances(run[i].store.rows[d], rows[d]);
    assert rows[d := rows[d]] == rows;
  }

  /** The in-process store does so for two minutes, while it has kept the entry. */
  lemma KeptIsAnswered(s: System, t: System, v: nat, token: Token, reply: Option<Reply>, d: Digest, b: Binding, r: PaidResult)
    requires s.store.Memory? && SettledWith(s.store, d, b, r) && s.clock <= s.store.entries[d].completed + 120_000_000
    requires Asks(s, v, d, b) && Reads(s, t, v, token, reply)
    ensures reply == Some(Cached(r)) && Untouched(s.store, t.store, d)
  {
  }
}
