/**
 * Any number of workers driving one settlement store, one statement at a time, with crashes between any two
 * statements and lost acknowledgements.
 */
module SettlementProtocol {
  import opened Options
  import opened SettlementModel

  /** Where a request handler stands. `Holding` remembers what it was granted. */
  datatype Worker =
    | Idle
    | Reading(digest: Digest, binding: Binding)
    | Inserting(digest: Digest, binding: Binding)
    | Holding(digest: Digest, binding: Binding, lease: Token, deadline: int, verified: bool)

  /** A successful paid response that reached the caller. */
  datatype Response = Response(digest: Digest, binding: Binding, result: PaidResult)

  /** `used`, `latest` and `responses` are history; no worker reads them. */
  datatype System = System(
    store: Store, clock: int, workers: map<nat, Worker>,
    used: set<Token>, latest: map<Digest, Token>, responses: set<Response>)

  function At(s: System, w: nat): Worker {
    if w in s.workers then s.workers[w] else Idle
  }

  function Put(s: System, w: nat, x: Worker): System {
    s.(workers := s.workers[w := x])
  }

  function Granted(s: System, w: nat, d: Digest, b: Binding, token: Token): System {
    Put(s, w, Holding(d, b, token, s.clock + LEASE, false)).(used := s.used + {token}, latest := s.latest[d := token])
  }

  datatype Action =
    | Tick
    | Arrive(w: nat, digest: Digest, binding: Binding)
    | Read(w: nat, token: Token, reply: Option<Reply>)
    | Insert(w: nat, token: Token)
    | Verify(w: nat)
    | GiveUp(w: nat)
    | Finish(w: nat, result: PaidResult, acknowledged: bool)
    | Crash(w: nat)

  /** What a worker does with the outcome of the first statement of `begin`. */
  function AfterRead(s: System, w: nat, d: Digest, b: Binding, token: Token, reply: Option<Reply>): System {
    match reply
    case None => Put(s, w, Inserting(d, b))
    case Some(Cached(result)) => Put(s, w, Idle).(responses := s.responses + {Response(d, b, result)})
    case Some(Refused(_)) => Put(s, w, Idle)
    case Some(_) => Granted(s, w, d, b, token)
  }

  ghost predicate Reads(s: System, t: System, w: nat, token: Token, reply: Option<Reply>) {
    var x := At(s, w);
    && x.Reading? && token !in s.used
    && Begins(s.store, t.store, reply, x.digest, x.binding, s.clock, token)
    && t == AfterRead(s.(store := t.store), w, x.digest, x.binding, token, reply)
  }

  predicate Inserts(s: System, t: System, w: nat, token: Token) {
    var x := At(s, w);
    && x.Inserting? && token !in s.used && s.store.Postgres?
    && t == if x.digest in s.store.rows then Put(s, w, Reading(x.digest, x.binding))
            else Granted(s.(store := Postgres(Inserted(s.store.rows, x.digest, x.binding, s.clock, token))),
                         w, x.digest, x.binding, token)
  }

  predicate Finishes(s: System, t: System, w: nat, result: PaidResult, acknowledged: bool) {
    var x := At(s, w);
    && x.Holding? && x.verified
    && t == Put(s, w, Idle).(
         store := Complete(s.store, x.digest, x.binding, x.lease, result, s.clock),
         responses := if acknowledged && Completes(s.store, x.digest, x.binding, x.lease, result)
                      then s.responses + {Response(x.digest, x.binding, result)} else s.responses)
  }

  predicate GivesUp(s: System, t: System, w: nat) {
    var x := At(s, w);
    && x.Holding?
    && t == Put(s, w, Idle).(store := Fail(s.store, x.digest, x.binding, x.lease, s.clock))
  }

  ghost predicate Next(s: System, t: System, a: Action) {
    match a
    case Tick => s.clock <= t.clock && t == s.(clock := t.clock)
    case Arrive(w, d, b) => At(s, w).Idle? && t == Put(s, w, Reading(d, b))
    case Read(w, token, reply) => Reads(s, t, w, token, reply)
    case Insert(w, token) => Inserts(s, t, w, token)
    case Verify(w) => At(s, w).Holding? && t == Put(s, w, At(s, w).(verified := true))
    case GiveUp(w) => GivesUp(s, t, w)
    case Finish(w, result, acknowledged) => Finishes(s, t, w, result, acknowledged)
    case Crash(w) => t == Put(s, w, Idle)
  }

  predicate Init(s: System) {
    && (s.store == Postgres(map[]) || s.store == Memory(map[]))
    && s.workers == map[] && s.used == {} && s.latest == map[] && s.responses == {}
  }

  ghost predicate Steps(s: System, t: System) {
    exists a :: Next(s, t, a)
  }

  ghost predicate StepAt(run: seq<System>, i: nat)
    requires i + 1 < |run|
  {
    Steps(run[i], run[i + 1])
  }

  /** A run: any initial system, then any actions. */
  ghost predicate IsRun(run: seq<System>) {
    && |run| > 0 && Init(run[0])
    && forall i :: 0 <= i < |run| - 1 ==> StepAt(run, i)
  }

  // ---- What each store operation does to grants ----

  /** A grant may only be dropped once it has run out. */
  ghost predicate KeepsLive(s: Store, t: Store, now: int, except: Digest) {
    forall d :: d != except ==> InFlight(t, d) == InFlight(s, d) || (InFlight(t, d).None? && !Live(InFlight(s, d), now))
  }

  lemma RoomKeepsGrants(entries: Entries, room: Entries, d: Digest)
    requires MakesRoom(entries, room)
    ensures InFlight(Memory(room), d) == InFlight(Memory(entries), d)
  {
  }

  /** `begin` keeps live grants, grants only what nobody holds, and records the new grant. */
  lemma BeginGrants(s: Store, t: Store, reply: Option<Reply>, d: Digest, b: Binding, now: int, token: Token)
    requires Begins(s, t, reply, d, b, now, token)
    ensures s.Postgres? == t.Postgres? && KeepsLive(s, t, now, d) && (StoreOk(s) ==> StoreOk(t))
    ensures s.Postgres? ==> forall k :: k != d ==> InFlight(t, k) == InFlight(s, k)
    ensures if reply.Some? && reply.value.Grants()
            then !Live(InFlight(s, d), now) && InFlight(t, d) == Some(Grant(token, now + LEASE, b)) && reply.value.lease == token
            else InFlight(t, d) == InFlight(s, d) || (s.Memory? && InFlight(t, d).None? && !Live(InFlight(s, d), now))
  {
    if s.Memory? {
      var kept := Evicted(s.entries, now);
      if d !in kept {
        var room :| MakesRoom(kept, room) && t.entries == room[d := Settling(b, token, now)];
        forall k | k != d ensures InFlight(t, k) == InFlight(Memory(kept), k) {
          RoomKeepsGrants(kept, room, k);
        }
      }
    }
  }

  /** `complete` and `fail` end exactly the grant they name. */
  lemma EndGrants(s: Store, t: Store, d: Digest, b: Binding, lease: Token, result: PaidResult, now: int)
    requires t == Complete(s, d, b, lease, result, now) || t == Fail(s, d, b, lease, now)
    ensures forall k :: k != d ==> InFlight(t, k) == InFlight(s, k)
    ensures s.Postgres? == t.Postgres? && (StoreOk(s) ==> StoreOk(t))
    ensures t == s || (Matches(s, d, b, lease) && InFlight(t, d).None?)
  {
  }

  // ---- Leases ----

  /** A worker holding a grant: it was drawn once, and while it lives the store still records it. */
  ghost predicate HolderOk(s: System, w: nat) {
    At(s, w).Holding? ==>
      var x := At(s, w);
      && x.lease in s.used
      && (s.clock <= x.deadline ==> InFlight(s.store, x.digest) == Some(Grant(x.lease, x.deadline, x.binding)))
      && (s.store.Postgres? && x.digest in s.latest && s.latest[x.digest] == x.lease ==>
            InFlight(s.store, x.digest) == Some(Grant(x.lease, x.deadline, x.binding)))
  }

  ghost predicate GrantOk(s: System, d: Digest) {
    InFlight(s.store, d).Some? ==> d in s.latest && s.latest[d] == InFlight(s.store, d).value.lease
  }

  ghost predicate LeasesOk(s: System) {
    && (forall w :: HolderOk(s, w))
    && (forall d :: GrantOk(s, d))
    && (forall d :: d in s.latest ==> s.latest[d] in s.used)
    && (forall v, w :: v != w ==> Apart(s, v, w))
    && StoreOk(s.store)
  }

  ghost predicate Apart(s: System, v: nat, w: nat) {
    At(s, v).Holding? && At(s, w).Holding? ==> At(s, v).lease != At(s, w).lease
  }

  /** Every row has the columns its state needs. */
  ghost predicate StoreOk(store: Store) {
    store.Postgres? ==> forall d :: d in store.rows ==> RowOk(store.rows[d])
  }

  predicate RowOk(row: Row) {
    match row.state
    case RowSettling => row.lease.Some? && row.leaseExpiresAt.Some?
    case RowSettled => row.body.Some? && row.header.Some?
    case RowFailed => row.failedAt.Some?
  }

  lemma GrantKeepsLeases(s: System, t: System, w: nat, d: Digest, b: Binding, token: Token)
    requires LeasesOk(s) && token !in s.used && !Live(InFlight(s.store, d), s.clock)
    requires t == Granted(s.(store := t.store), w, d, b, token)
    requires InFlight(t.store, d) == Some(Grant(token, s.clock + LEASE, b))
    requires s.store.Postgres? == t.store.Postgres? && KeepsLive(s.store, t.store, s.clock, d)
    requires s.store.Postgres? ==> forall k :: k != d ==> InFlight(t.store, k) == InFlight(s.store, k)
    requires StoreOk(t.store)
    ensures LeasesOk(t)
  {
    forall v ensures HolderOk(t, v) {
      assert HolderOk(s, v);
    }
    forall k ensures GrantOk(t, k) {
      assert GrantOk(s, k);
    }
    forall v, u | v != u ensures Apart(t, v, u) {
      assert HolderOk(s, v) && HolderOk(s, u) && Apart(s, v, u);
    }
  }

  /** A step that puts one worker to rest, or only reads, and drops no live grant. */
  lemma QuietKeepsLeases(s: System, t: System, w: nat)
    requires LeasesOk(s) && !At(t, w).Holding?
    requires t == Put(s, w, At(t, w)).(store := t.store, responses := t.responses)
    requires s.store.Postgres? == t.store.Postgres?
    requires forall d :: InFlight(t.store, d) == InFlight(s.store, d)
               || (s.store.Memory? && InFlight(t.store, d).None? && !Live(InFlight(s.store, d), s.clock))
    requires StoreOk(t.store)
    ensures LeasesOk(t)
  {
    forall v ensures HolderOk(t, v) {
      assert HolderOk(s, v);
    }
    forall k ensures GrantOk(t, k) {
      assert GrantOk(s, k);
    }
    forall v, u | v != u ensures Apart(t, v, u) {
      assert Apart(s, v, u);
    }
  }

  lemma ReadKeepsLeases(s: System, t: System, w: nat, token: Token, reply: Option<Reply>)
    requires LeasesOk(s) && Reads(s, t, w, token, reply)
    ensures LeasesOk(t)
  {
    var x := At(s, w);
    BeginGrants(s.store, t.store, reply, x.digest, x.binding, s.clock, token);
    if reply.Some? && reply.value.Grants() {
      GrantKeepsLeases(s, t, w, x.digest, x.binding, token);
    } else {
      QuietKeepsLeases(s, t, w);
    }
  }

  lemma InsertKeepsLeases(s: System, t: System, w: nat, token: Token)
    requires LeasesOk(s) && Inserts(s, t, w, token)
    ensures LeasesOk(t)
  {
    var x := At(s, w);
    if x.digest in s.store.rows {
      QuietKeepsLeases(s, t, w);
    } else {
      GrantKeepsLeases(s, t, w, x.digest, x.binding, token);
    }
  }

  /** Ending a grant touches nobody else's: leases are drawn once. */
  lemma EndKeepsLeases(s: System, t: System, w: nat, result: PaidResult)
    requires LeasesOk(s) && At(s, w).Holding? && At(t, w).Idle?
    requires t == Put(s, w, Idle).(store := t.store, responses := t.responses)
    requires var x := At(s, w);
             || t.store == Complete(s.store, x.digest, x.binding, x.lease, result, s.clock)
             || t.store == Fail(s.store, x.digest, x.binding, x.lease, s.clock)
    ensures LeasesOk(t)
  {
    var x := At(s, w);
    EndGrants(s.store, t.store, x.digest, x.binding, x.lease, result, s.clock);
    forall v ensures HolderOk(t, v) {
      assert HolderOk(s, v);
      if v != w {
        assert Apart(s, v, w);
      }
    }
    forall k ensures GrantOk(t, k) {
      assert GrantOk(s, k);
    }
    forall v, u | v != u ensures Apart(t, v, u) {
      assert Apart(s, v, u);
    }
  }

  lemma SameGrantsKeepLeases(s: System, t: System)
    requires LeasesOk(s) && s.clock <= t.clock && t.store == s.store && t.used == s.used && t.latest == s.latest
    requires forall w :: At(t, w) == At(s, w) || (At(s, w).Holding? && At(t, w) == At(s, w).(verified := true))
    ensures LeasesOk(t)
  {
    forall v ensures HolderOk(t, v) {
      assert HolderOk(s, v);
    }
    forall k ensures GrantOk(t, k) {
      assert GrantOk(s, k);
    }
    forall v, u | v != u ensures Apart(t, v, u) {
      assert Apart(s, v, u);
    }
  }

  lemma StepKeepsLeases(s: System, t: System, a: Action)
    requires LeasesOk(s) && Next(s, t, a)
    ensures LeasesOk(t)
  {
    match a
    case Tick => SameGrantsKeepLeases(s, t);
    case Arrive(w, _, _) => QuietKeepsLeases(s, t, w);
    case Read(w, token, reply) => ReadKeepsLeases(s, t, w, token, reply);
    case Insert(w, token) => InsertKeepsLeases(s, t, w, token);
    case Verify(_) => SameGrantsKeepLeases(s, t);
    case GiveUp(w) => EndKeepsLeases(s, t, w, PaidResult("", ""));
    case Finish(w, result, _) => EndKeepsLeases(s, t, w, result);
    case Crash(w) => QuietKeepsLeases(s, t, w);
  }

  /** In every state of every run, with either store, the leases are in order. */
  lemma {:induction false} RunKeepsLeases(run: seq<System>, i: nat)
    requires IsRun(run) && i < |run|
    ensures LeasesOk(run[i])
  {
    if i == 0 {
    } else {
      RunKeepsLeases(run, i - 1);
      assert StepAt(run, i - 1);
      var a :| Next(run[i - 1], run[i], a);
      StepKeepsLeases(run[i - 1], run[i], a);
    }
  }

  /** No two workers hold unexpired leases for one digest, whatever else happens. */
  lemma LeaseIsExclusive(run: seq<System>, i: nat, v: nat, w: nat)
    requires IsRun(run) && i < |run| && v != w
    requires At(run[i], v).Holding? && At(run[i], w).Holding? && At(run[i], v).digest == At(run[i], w).digest
    ensures At(run[i], v).deadline < run[i].clock || At(run[i], w).deadline < run[i].clock
  {
    RunKeepsLeases(run, i);
    assert HolderOk(run[i], v) && HolderOk(run[i], w) && Apart(run[i], v, w);
  }

  /** A live lease is still the one the store records: eviction and other workers cannot take it away. */
  lemma LiveLeaseIsRecorded(run: seq<System>, i: nat, w: nat)
    requires IsRun(run) && i < |run| && At(run[i], w).Holding? && run[i].clock <= At(run[i], w).deadline
    ensures var x := At(run[i], w); Matches(run[i].store, x.digest, x.binding, x.lease)
  {
    RunKeepsLeases(run, i);
    assert HolderOk(run[i], w);
  }

  /** Only the latest lease of a digest completes or fails; in the database it always does, even after its deadline. */
  lemma OnlyTheLatestLeaseEnds(run: seq<System>, i: nat, w: nat)
    requires IsRun(run) && i < |run| && At(run[i], w).Holding?
    ensures var x := At(run[i], w);
            Matches(run[i].store, x.digest, x.binding, x.lease) ==>
              x.digest in run[i].latest && run[i].latest[x.digest] == x.lease
    ensures var x := At(run[i], w);
            run[i].store.Postgres? && x.digest in run[i].latest && run[i].latest[x.digest] == x.lease ==>
              Matches(run[i].store, x.digest, x.binding, x.lease)
  {
    RunKeepsLeases(run, i);
    assert HolderOk(run[i], w) && GrantOk(run[i], At(run[i], w).digest);
  }
}
