/** Tables of the indexer database and its operations as functions on them. */
module IndexerModel {
  import opened Limits
  import opened Options

  datatype Commitment = Processed | Confirmed | Finalized | Dead

  predicate CanUpgrade(current: Commitment, next: Commitment) {
    || current == next
    || (current.Confirmed? && (next.Finalized? || next.Dead?))
    || (current.Processed? && (next.Confirmed? || next.Finalized? || next.Dead?))
  }

  datatype SlotRow = SlotRow(status: Commitment, parent: Option<nat>)

  /** Primary key of the raw and the staged account tables. Addresses are ordered as their bytes are. */
  datatype Version = Version(address: nat, slot: nat, writeVersion: nat)

  /** The five public tables. */
  datatype Kind = ConfigTable | ProviderTable | BondTable | JobTable | ChallengeTable

  /** What an account version decodes to: the row of one public table, or the end of the account. */
  datatype Projection = Tombstone | Row(kind: Kind, body: nat)

  datatype RawRow = RawRow(content: nat, commitment: Commitment)

  /** A place in the public tables: one row at most per table and address. */
  datatype Cell = Cell(kind: Kind, address: nat)

  datatype PublicRow = PublicRow(asOf: nat, body: nat)

  datatype EventKey = EventKey(signature: nat, index: nat)

  datatype EventRow = EventRow(slot: nat, content: nat, commitment: Commitment)

  type PublicTables = map<Cell, PublicRow>

  datatype Db = Db(
    slots: map<nat, SlotRow>,
    raw: map<Version, RawRow>,
    staged: map<Version, Projection>,
    proj: PublicTables,
    events: map<EventKey, EventRow>,
    finalizedSlot: nat,
    processedSlot: nat)

  const EMPTY_DB := Db(map[], map[], map[], map[], map[], 0, 0)

  datatype Event = Event(key: EventKey, slot: nat, content: nat, commitment: Commitment)

  /** What a chain source delivers. */
  datatype Update =
    | SlotNotice(slot: nat, parent: Option<nat>, status: Commitment)
    | AccountNotice(key: Version, content: nat, commitment: Commitment, projection: Option<Projection>)
    | EventNotice(events: seq<Event>)

  /** The tables after an operation, and whether it reported success. */
  datatype Outcome = Outcome(db: Db, ok: bool)

  function Max(a: nat, b: nat): nat {
    if a < b then b else a
  }

  predicate FinalizedAt(slots: map<nat, SlotRow>, slot: nat) {
    slot in slots && slots[slot].status.Finalized?
  }

  predicate DeadAt(slots: map<nat, SlotRow>, slot: nat) {
    slot in slots && slots[slot].status.Dead?
  }

  // ---- Slots ----

  predicate ParentReconciles(stored: Option<nat>, incoming: Option<nat>, current: Commitment) {
    match (stored, incoming)
    case (Some(a), Some(b)) => a == b
    case (Some(_), None) => false
    case (None, Some(_)) => !current.Finalized?
    case (None, None) => true
  }

  /** Drops everything of a dead slot that was never finalized. */
  function CleanupDead(db: Db, slot: nat): Db {
    db.(raw := map v | v in db.raw && !(v.slot == slot && !db.raw[v].commitment.Finalized?) :: db.raw[v],
        events := map k | k in db.events && !(db.events[k].slot == slot && !db.events[k].commitment.Finalized?)
                       :: db.events[k],
        staged := map v | v in db.staged && v.slot != slot :: db.staged[v])
  }

  function PutSlot(db: Db, slot: nat, parent: Option<nat>, status: Commitment): Db {
    var kept := if slot in db.slots && db.slots[slot].parent.Some? then db.slots[slot].parent else parent;
    var put := db.(slots := db.slots[slot := SlotRow(status, kept)]);
    if status.Dead? then CleanupDead(put, slot)
    else put.(processedSlot := Max(db.processedSlot, slot))
  }

  function UpsertSlot(db: Db, slot: nat, parent: Option<nat>, status: Commitment): Outcome {
    if parent == Some(slot) || slot > I64_MAX || (parent.Some? && parent.value > I64_MAX) then Outcome(db, false)
    else if slot in db.slots then
      var current := db.slots[slot];
      if !ParentReconciles(current.parent, parent, current.status) then Outcome(db, false)
      else if current.status.Finalized? && status.Dead? then Outcome(db, false)
      else if current.status.Dead? && status.Finalized? then Outcome(db, false)
      else if !CanUpgrade(current.status, status) then Outcome(db, true)
      else Outcome(PutSlot(db, slot, parent, status), true)
    else Outcome(PutSlot(db, slot, parent, status), true)
  }

  // ---- Ancestry ----

  /** A parent chain from its first slot to a root, every slot present and no proper ancestor dead. */
  ghost predicate IsChain(slots: map<nat, SlotRow>, chain: seq<nat>) {
    && 0 < |chain|
    && (forall i :: 0 <= i < |chain| ==> chain[i] in slots)
    && (forall i :: 0 <= i < |chain| - 1 ==> slots[chain[i]].parent == Some(chain[i + 1]))
    && (forall i :: 1 <= i < |chain| ==> !slots[chain[i]].status.Dead?)
    && slots[chain[|chain| - 1]].parent.None?
  }

  const MAX_ANCESTRY_DEPTH: nat := 256

  ghost predicate AncestryAccepted(slots: map<nat, SlotRow>, slot: nat) {
    exists chain :: IsChain(slots, chain) && |chain| <= MAX_ANCESTRY_DEPTH && chain[0] == slot
  }

  // ---- Publishing ----

  function ApplyProjection(proj: PublicTables, v: Version, p: Projection): PublicTables {
    match p
    case Tombstone => map c | c in proj && !(c.address == v.address && proj[c].asOf <= v.slot) :: proj[c]
    case Row(kind, body) =>
      var c := Cell(kind, v.address);
      if c in proj && proj[c].asOf > v.slot then proj else proj[c := PublicRow(v.slot, body)]
  }

  /** Order of the rows of one slot: by address, then by write version. */
  predicate Before(a: Version, b: Version) {
    a.address < b.address || (a.address == b.address && a.writeVersion < b.writeVersion)
  }

  /** `rows` lists the staged versions of `slot` in publishing order. */
  ghost predicate Lists(rows: seq<Version>, staged: map<Version, Projection>, slot: nat) {
    && (forall i, j :: 0 <= i < j < |rows| ==> Before(rows[i], rows[j]))
    && (forall i :: 0 <= i < |rows| ==> rows[i] in staged && rows[i].slot == slot)
    && (forall v :: v in staged && v.slot == slot ==> v in rows)
  }

  function PublishAll(proj: PublicTables, rows: seq<Version>, staged: map<Version, Projection>): PublicTables
    requires forall i :: 0 <= i < |rows| ==> rows[i] in staged
  {
    if rows == [] then proj
    else
      var last := rows[|rows| - 1];
      ApplyProjection(PublishAll(proj, rows[..|rows| - 1], staged), last, staged[last])
  }

  lemma {:induction false} SmallestExists(s: set<Version>, slot: nat) returns (m: Version)
    requires s != {} && forall v :: v in s ==> v.slot == slot
    ensures m in s && forall v :: v in s && v != m ==> Before(m, v)
    decreases s
  {
    var x :| x in s;
    m := x;
    var rest := s - {x};
    if rest == {} {
      assert s == {x};
    } else {
      var r := SmallestExists(rest, slot);
      if Before(r, x) {
        m := r;
      }
      forall v | v in s && v != m ensures Before(m, v) {
        if v != x {
          assert v in rest;
        }
      }
    }
  }

  lemma {:induction false} ListingExists(staged: map<Version, Projection>, slot: nat, s: set<Version>) returns (rows: seq<Version>)
    requires forall v :: v in s ==> v in staged && v.slot == slot
    ensures forall i, j :: 0 <= i < j < |rows| ==> Before(rows[i], rows[j])
    ensures forall v :: v in rows <==> v in s
    decreases s
  {
    if s == {} {
      rows := [];
    } else {
      var m := SmallestExists(s, slot);
      var tail := ListingExists(staged, slot, s - {m});
      rows := [m] + tail;
      forall i, j | 0 <= i < j < |rows| ensures Before(rows[i], rows[j]) {
        assert rows[j] == tail[j - 1];
        assert rows[j] in tail;
        if i > 0 {
          assert rows[i] == tail[i - 1];
        }
      }
    }
  }

  lemma ListsSome(staged: map<Version, Projection>, slot: nat)
    ensures exists rows :: Lists(rows, staged, slot)
  {
    var s := set v | v in staged && v.slot == slot;
    var rows := ListingExists(staged, slot, s);
    forall i | 0 <= i < |rows| ensures rows[i] in staged && rows[i].slot == slot {
      assert rows[i] in rows;
    }
    assert Lists(rows, staged, slot);
  }

  /** The staged rows of a slot as the ordered query returns them. */
  ghost function StagedRows(staged: map<Version, Projection>, slot: nat): (rows: seq<Version>)
    ensures Lists(rows, staged, slot)
  {
    ListsSome(staged, slot);
    var rows :| Lists(rows, staged, slot); rows
  }

  /** Nothing staged, nothing listed. */
  lemma NoStagedRows(staged: map<Version, Projection>, slot: nat)
    requires forall v :: v in staged ==> v.slot != slot
    ensures StagedRows(staged, slot) == []
  {
    var rows := StagedRows(staged, slot);
    if |rows| > 0 {
      FirstRow(rows, staged, slot);
      assert false;
    }
  }

  lemma FirstRow(rows: seq<Version>, staged: map<Version, Projection>, slot: nat)
    requires Lists(rows, staged, slot) && |rows| > 0
    ensures rows[0] in staged && rows[0].slot == slot
  {
  }

  ghost function Publish(db: Db, slot: nat): Db
    requires slot in db.slots
  {
    db.(slots := db.slots[slot := db.slots[slot].(status := Finalized)],
        raw := map v | v in db.raw ::
                 if v.slot == slot then db.raw[v].(commitment := Finalized) else db.raw[v],
        events := map k | k in db.events ::
                    if db.events[k].slot == slot then db.events[k].(commitment := Finalized) else db.events[k],
        proj := PublishAll(db.proj, StagedRows(db.staged, slot), db.staged),
        staged := map v | v in db.staged && v.slot != slot :: db.staged[v],
        finalizedSlot := Max(db.finalizedSlot, slot),
        processedSlot := Max(db.processedSlot, slot))
  }

  ghost function FinalizeSlot(db: Db, slot: nat): Outcome {
    if slot > I64_MAX || slot !in db.slots || db.slots[slot].status.Dead? then Outcome(db, false)
    else if !db.slots[slot].status.Finalized? && !AncestryAccepted(db.slots, slot) then Outcome(db, false)
    else Outcome(Publish(db, slot), true)
  }

  // ---- Accounts and events ----

  /** The commitment a row is stored with: finalized as soon as its slot is. */
  function StoredAs(slots: map<nat, SlotRow>, slot: nat, claimed: Commitment): Commitment {
    if FinalizedAt(slots, slot) then Finalized else claimed
  }

  function InsertAccount(db: Db, key: Version, content: nat, claimed: Commitment, projection: Option<Projection>): Outcome {
    var commitment := StoredAs(db.slots, key.slot, claimed);
    if key.slot > I64_MAX || key.writeVersion > I64_MAX || commitment.Dead? then Outcome(db, false)
    else if key in db.raw then Outcome(db, true)
    else
      var stored := db.(raw := db.raw[key := RawRow(content, commitment)]);
      if projection.None? then Outcome(stored, true)
      else if commitment.Finalized? then
        Outcome(stored.(proj := ApplyProjection(db.proj, key, projection.value), staged := db.staged - {key}), true)
      else Outcome(stored.(staged := db.staged[key := projection.value]), true)
  }

  function InsertEvent(db: Db, e: Event): Outcome {
    var commitment := StoredAs(db.slots, e.slot, e.commitment);
    if e.slot > I64_MAX || commitment.Dead? then Outcome(db, false)
    else if e.key in db.events then Outcome(db, true)
    else Outcome(db.(events := db.events[e.key := EventRow(e.slot, e.content, commitment)]), true)
  }

  function InsertEvents(db: Db, events: seq<Event>): Outcome {
    if events == [] then Outcome(db, true)
    else
      var first := InsertEvents(db, events[..|events| - 1]);
      if first.ok then InsertEvent(first.db, events[|events| - 1]) else first
  }

  // ---- The engine ----

  /** One update of the stream; two transactions when a slot is reported finalized. */
  ghost function Ingest(db: Db, u: Update): Outcome {
    match u
    case SlotNotice(slot, parent, status) =>
      var upserted := UpsertSlot(db, slot, parent, status);
      if upserted.ok && status.Finalized? then FinalizeSlot(upserted.db, slot) else upserted
    case AccountNotice(key, content, commitment, projection) => InsertAccount(db, key, content, commitment, projection)
    case EventNotice(events) => InsertEvents(db, events)
  }

  /** The engine stops at the first error. */
  ghost function Run(db: Db, us: seq<Update>): Outcome {
    if us == [] then Outcome(db, true)
    else
      var before := Run(db, us[..|us| - 1]);
      if before.ok then Ingest(before.db, us[|us| - 1]) else before
  }

  /** Sources report account and event data as processed or confirmed, never as finalized or dead. */
  predicate FromSource(u: Update) {
    match u
    case SlotNotice(_, _, _) => true
    case AccountNotice(_, _, c, _) => c.Processed? || c.Confirmed?
    case EventNotice(events) =>
      forall i :: 0 <= i < |events| ==> events[i].commitment.Processed? || events[i].commitment.Confirmed?
  }
}
