/** The two settlement stores as values: rows of the database table, entries of the in-process map. */
module SettlementModel {
  import opened Options

  type Digest = string

  /** A lease token; every grant draws a new one. */
  type Token = nat

  /** What one payment is for. */
  datatype Binding = Binding(serviceId: string, resourceUrl: string, inputDigest: string, challengeMemo: string)

  /** The paid response; `body` is the serialised JSON. */
  datatype PaidResult = PaidResult(body: string, header: string)

  datatype Problem = BindingMismatch | SettlementInProgress | LeaseMismatch | InvalidChallenge | Internal

  datatype Reply =
    | Cached(result: PaidResult)
    | Acquired(lease: Token)
    | RecoveredStale(lease: Token)
    | Refused(problem: Problem)
  {
    predicate Grants() {
      Acquired? || RecoveredStale?
    }
  }

  /** Times are in microseconds. */
  const SECOND: int := 1_000_000
  const LEASE: int := 30 * SECOND
  const FAIL_RETRY: int := 2 * SECOND
  const ENTRY_TTL: int := 120 * SECOND
  const MAX_ENTRIES: nat := 512
  const MAX_RESULT_JSON: nat := 16_384
  const MAX_HEADER: nat := 8_192

  // ---- The database table ----

  datatype RowState = RowSettling | RowSettled | RowFailed

  datatype Row = Row(
    state: RowState, binding: Binding,
    lease: Option<Token>, leaseExpiresAt: Option<int>,
    body: Option<string>, header: Option<string>, failedAt: Option<int>)

  predicate IsHex(s: string) {
    forall i :: 0 <= i < |s| ==> '0' <= s[i] <= '9' || 'a' <= s[i] <= 'f' || 'A' <= s[i] <= 'F'
  }

  predicate ValidRequest(d: Digest, b: Binding) {
    && |d| == 64 && IsHex(d)
    && |b.inputDigest| == 64 && IsHex(b.inputDigest)
    && |b.challengeMemo| == 32 && IsHex(b.challengeMemo)
  }

  function Leased(row: Row, b: Binding, now: int, token: Token): Row {
    row.(state := RowSettling, lease := Some(token), leaseExpiresAt := Some(now + LEASE), failedAt := None, binding := b)
  }

  function NewRow(b: Binding, now: int, token: Token): Row {
    Row(RowSettling, b, Some(token), Some(now + LEASE), None, None, None)
  }

  /** What `begin` answers to a request that finds a row. */
  function Answer(row: Row, b: Binding, now: int, token: Token): Reply {
    if row.binding != b then Refused(BindingMismatch)
    else
      match row.state
      case RowSettled =>
        if row.body.None? || row.header.None? then Refused(Internal)
        else Cached(PaidResult(row.body.value, row.header.value))
      case RowSettling =>
        if row.leaseExpiresAt.Some? && row.leaseExpiresAt.value >= now then Refused(SettlementInProgress)
        else RecoveredStale(token)
      case RowFailed =>
        if row.failedAt.Some? && row.failedAt.value + FAIL_RETRY > now then Refused(SettlementInProgress)
        else Acquired(token)
  }

  /** The row after that answer. */
  function Answered(row: Row, b: Binding, now: int, token: Token): Row {
    if Answer(row, b, now, token).Grants() then Leased(row, b, now, token) else row
  }

  /** The rows that `complete` and `fail` update. */
  predicate Held(row: Row, b: Binding, lease: Token) {
    row.state.RowSettling? && row.lease == Some(lease) && row.binding == b
  }

  function SettledRow(row: Row, result: PaidResult): Row {
    row.(state := RowSettled, body := Some(result.body), header := Some(result.header), lease := None, leaseExpiresAt := None)
  }

  function FailedRow(row: Row, now: int): Row {
    row.(state := RowFailed, failedAt := Some(now), lease := None, leaseExpiresAt := None)
  }

  predicate Fits(result: PaidResult) {
    |result.body| <= MAX_RESULT_JSON && |result.header| <= MAX_HEADER
  }

  // ---- The in-process map ----

  datatype Entry =
    | Settling(binding: Binding, lease: Token, started: int)
    | Settled(binding: Binding, result: PaidResult, completed: int)
    | Failed(binding: Binding, failedAt: int)
  {
    function Stamp(): int {
      match this
      case Settling(_, _, t) => t
      case Settled(_, _, t) => t
      case Failed(_, t) => t
    }
  }

  type Entries = map<Digest, Entry>

  function Evicted(entries: Entries, now: int): Entries {
    map d | d in entries && now - entries[d].Stamp() <= ENTRY_TTL :: entries[d]
  }

  /** The entries that may make room: the oldest of those not in flight. */
  predicate IsVictim(entries: Entries, d: Digest) {
    && d in entries && !entries[d].Settling?
    && forall k :: k in entries && !entries[k].Settling? ==> entries[d].Stamp() <= entries[k].Stamp()
  }

  /** A full map loses one victim if it has any. */
  ghost predicate MakesRoom(entries: Entries, out: Entries) {
    if |entries| < MAX_ENTRIES then out == entries
    else if exists d :: IsVictim(entries, d) then exists d :: IsVictim(entries, d) && out == entries - {d}
    else out == entries
  }

  function EntryAnswer(e: Entry, b: Binding, now: int, token: Token): Reply {
    if e.binding != b then Refused(BindingMismatch)
    else
      match e
      case Settled(_, result, _) => Cached(result)
      case Settling(_, _, started) =>
        if now - started > LEASE then RecoveredStale(token) else Refused(SettlementInProgress)
      case Failed(_, failedAt) =>
        if now - failedAt < FAIL_RETRY then Refused(SettlementInProgress) else Acquired(token)
  }

  predicate EntryHeld(e: Entry, b: Binding, lease: Token) {
    e.Settling? && e.binding == b && e.lease == lease
  }

  // ---- Either store ----

  datatype Store = Postgres(rows: map<Digest, Row>) | Memory(entries: Entries)

  /** An unsettled grant as the store records it. */
  datatype Grant = Grant(lease: Token, deadline: int, binding: Binding)

  function InFlight(store: Store, d: Digest): Option<Grant> {
    match store
    case Postgres(rows) =>
      if d in rows && rows[d].state.RowSettling? && rows[d].lease.Some? && rows[d].leaseExpiresAt.Some?
      then Some(Grant(rows[d].lease.value, rows[d].leaseExpiresAt.value, rows[d].binding))
      else None
    case Memory(entries) =>
      if d in entries && entries[d].Settling?
      then Some(Grant(entries[d].lease, entries[d].started + LEASE, entries[d].binding))
      else None
  }

  /** A grant is good up to and including its deadline. */
  predicate Live(g: Option<Grant>, now: int) {
    g.Some? && now <= g.value.deadline
  }

  /** The first statement of `begin`: `None` means that there is no row and an insert follows. */
  ghost predicate Begins(store: Store, out: Store, reply: Option<Reply>, d: Digest, b: Binding, now: int, token: Token) {
    match store
    case Postgres(rows) =>
      if !ValidRequest(d, b) then out == store && reply == Some(Refused(Internal))
      else if d in rows then
        && reply == Some(Answer(rows[d], b, now, token))
        && out == Postgres(rows[d := Answered(rows[d], b, now, token)])
      else out == store && reply == None
    case Memory(entries) =>
      var kept := Evicted(entries, now);
      && reply.Some? && out.Memory?
      && if d in kept then
           && reply.value == EntryAnswer(kept[d], b, now, token)
           && out.entries == if reply.value.Grants() then kept[d := Settling(b, token, now)] else kept
         else
           && reply.value == Acquired(token)
           && exists room :: MakesRoom(kept, room) && out.entries == room[d := Settling(b, token, now)]
  }

  /** `INSERT .. ON CONFLICT DO NOTHING` and its row count. */
  function Inserted(rows: map<Digest, Row>, d: Digest, b: Binding, now: int, token: Token): map<Digest, Row> {
    if d in rows then rows else rows[d := NewRow(b, now, token)]
  }

  /** Whether `complete` or `fail` finds its lease in place. */
  predicate Matches(store: Store, d: Digest, b: Binding, lease: Token) {
    match store
    case Postgres(rows) => d in rows && Held(rows[d], b, lease)
    case Memory(entries) => d in entries && EntryHeld(entries[d], b, lease)
  }

  function Complete(store: Store, d: Digest, b: Binding, lease: Token, result: PaidResult, now: int): Store {
    if !Matches(store, d, b, lease) then store
    else
      match store
      case Postgres(rows) => if Fits(result) then Postgres(rows[d := SettledRow(rows[d], result)]) else store
      case Memory(entries) => Memory(entries[d := Settled(b, result, now)])
  }

  predicate Completes(store: Store, d: Digest, b: Binding, lease: Token, result: PaidResult) {
    Matches(store, d, b, lease) && (store.Postgres? ==> Fits(result))
  }

  function Fail(store: Store, d: Digest, b: Binding, lease: Token, now: int): Store {
    if !Matches(store, d, b, lease) then store
    else
      match store
      case Postgres(rows) => Postgres(rows[d := FailedRow(rows[d], now)])
      case Memory(entries) => Memory(entries[d := Failed(b, now)])
  }
}
