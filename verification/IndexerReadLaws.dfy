/** What the read queries return, said through the rows of the tables. */
module IndexerReadLaws {
  import opened Limits
  import opened Options
  import opened Text
  import opened Paging
  import opened IndexerModel
  import opened IndexerForks
  import opened IndexerReads

  // ---- One page ----

  /** The rows a request asks for from a place on. */
  predicate Asked(text: AddressText, q: JobQuery, place: Option<nat>, r: JobRow) {
    && (q.state.Some? ==> r.state == q.state.value)
    && (q.buyer.Some? ==> text.parse(q.buyer.value) == Some(r.buyer))
    && (q.provider.Some? ==> text.parse(q.provider.value) == Some(r.provider))
    && (place.Some? ==> place.value < r.address)
  }

  /** The first rows of those asked for, at most `limit`, in the order of their addresses. */
  ghost predicate FirstOnes(items: seq<JobRow>, table: seq<JobRow>, text: AddressText, q: JobQuery, place: Option<nat>) {
    && |items| <= q.limit && InOrder(items)
    && (forall r :: r in items ==> r in table && Asked(text, q, place, r))
    && (forall r :: r in table && Asked(text, q, place, r) && r !in items ==>
          |items| == q.limit && forall i :: 0 <= i < |items| ==> items[i].address < r.address)
  }

  predicate Unreadable(text: AddressText, address: Option<string>) {
    address.Some? && text.parse(address.value).None?
  }

  /** A request is refused for its arguments exactly when one of them is out of range or unreadable. */
  lemma JobRefusals(text: AddressText, table: seq<JobRow>, checkpoint: nat, q: JobQuery, cursor: Option<string>)
    ensures JobPage(text, table, checkpoint, q, cursor) == Err(Validation) <==>
              || q.limit < 1 || q.limit > 100
              || (q.state.Some? && q.state.value !in
                    {"Created", "Funded", "Accepted", "Submitted", "Challenged", "Settled", "Refunded", "Expired", "Slashed",
                     "Closed"})
              || Unreadable(text, cursor) || Unreadable(text, q.buyer) || Unreadable(text, q.provider)
  {
  }

  /**
   * Otherwise the page holds the first rows asked for, with the address of its last row as the cursor exactly if rows
   * are left over; it is refused exactly if one of those very rows is newer than the checkpoint.
   */
  lemma JobPageIsRight(text: AddressText, table: seq<JobRow>, checkpoint: nat, q: JobQuery, cursor: Option<string>)
    returns (items: seq<JobRow>)
    requires InOrder(table) && JobPage(text, table, checkpoint, q, cursor) != Err(Validation)
    ensures FirstOnes(items, table, text, q, text.Argument(cursor).value)
    ensures var left := exists r :: r in table && Asked(text, q, text.Argument(cursor).value, r) && r !in items;
            if exists i :: 0 <= i < |items| && items[i].asOf > checkpoint
            then JobPage(text, table, checkpoint, q, cursor) == Err(Conflict)
            else && (left ==> |items| == q.limit)
                 && JobPage(text, table, checkpoint, q, cursor)
                    == Ok(Page(items, if left then Some(text.show(items[q.limit - 1].address)) else None))
  {
    var f, place := Filtering(text, q).value, text.Argument(cursor).value;
    var page := PageOf(Selected(table, f), AddressOf, Below, place, q.limit);
    items := page.items;
    SelectedPage(text, table, q, f, place);
    var left := exists r :: r in table && Asked(text, q, place, r) && r !in items;
    assert Printed(text.AsCursors(), page)
        == Page(items, if left then Some(text.show(items[q.limit - 1].address)) else None);
  }

  lemma SelectedRows(text: AddressText, table: seq<JobRow>, q: JobQuery, f: JobFilter, place: Option<nat>)
    requires Filtering(text, q) == Some(f)
    ensures forall r :: r in Selected(table, f) && Past(Below, place, AddressOf(r)) <==> r in table && Asked(text, q, place, r)
  {
    forall r ensures r in Selected(table, f) && Past(Below, place, AddressOf(r)) <==> r in table && Asked(text, q, place, r) {
      FilterIsExact(table, (x: JobRow) => f.Admits(x), r);
    }
  }

  lemma SelectedPage(text: AddressText, table: seq<JobRow>, q: JobQuery, f: JobFilter, place: Option<nat>)
    requires InOrder(table) && Filtering(text, q) == Some(f)
    ensures var page := PageOf(Selected(table, f), AddressOf, Below, place, q.limit);
            && FirstOnes(page.items, table, text, q, place)
            && (page.next.Some? <==> exists r :: r in table && Asked(text, q, place, r) && r !in page.items)
            && (page.next.Some? ==> |page.items| == q.limit && page.next == Some(page.items[q.limit - 1].address))
  {
    assert Sorted(table, AddressOf, Below);
    FilterSorted(table, (r: JobRow) => f.Admits(r), AddressOf, Below);
    assert StrictOrder(Below);
    SelectedRows(text, table, q, f, place);
    PageIsRight(Selected(table, f), AddressOf, Below, place, q.limit);
    var page := PageOf(Selected(table, f), AddressOf, Below, place, q.limit);
    assert FirstPast(page.items, Selected(table, f), AddressOf, Below, place, q.limit);
  }

  // ---- Event cursors ----

  /** Decimal digits with an optional sign. */
  predicate NumberText(t: string, v: int) {
    var digits := if t != [] && t[0] in "+-" then t[1..] else t;
    digits != [] && AllDigits(digits) && v == if t[0] == '-' then 0 - Value(digits) else Value(digits)
  }

  ghost predicate ReadsAs(c: string, p: EventPlace) {
    exists t :: c == p.signature + ":" + t && p.signature != "" && NumberText(t, p.index) && 0 <= p.index <= 2_147_483_647
  }

  lemma NumbersHaveNoColon(t: string, v: int)
    requires NumberText(t, v)
    ensures ':' !in t
  {
    forall i | 0 <= i < |t| ensures t[i] != ':' {
      if t[0] in "+-" && i > 0 {
        assert t[i] == t[1..][i - 1];
      }
    }
  }

  lemma NumbersParse(t: string, v: int)
    requires NumberText(t, v) && I32_MIN <= v <= I32_MAX
    ensures ParseSigned(t, I32_MIN, I32_MAX) == Some(v)
  {
  }

  lemma WrittenIsRead(c: string, p: EventPlace, t: string)
    requires c == p.signature + ":" + t && p.signature != "" && NumberText(t, p.index) && 0 <= p.index <= 2_147_483_647
    ensures ParseEventCursor(Some(c)) == Ok(Some(p))
  {
    NumbersHaveNoColon(t, p.index);
    FindLastBefore(p.signature, ':', t);
    assert c == p.signature + [':'] + t;
    assert c[|p.signature| + 1..] == t && c[..|p.signature|] == p.signature;
    NumbersParse(t, p.index);
  }

  lemma ParsedIsNumber(t: string)
    requires ParseSigned(t, I32_MIN, I32_MAX).Some?
    ensures NumberText(t, ParseSigned(t, I32_MIN, I32_MAX).value)
  {
  }

  lemma CutAtColon(c: string, i: nat)
    requires i < |c| && c[i] == ':'
    ensures c == c[..i] + ":" + c[i + 1..]
  {
  }

  lemma ReadIsWritten(c: string, p: EventPlace)
    requires ParseEventCursor(Some(c)) == Ok(Some(p))
    ensures ReadsAs(c, p)
  {
    var colon := FindLast(c, ':').value;
    CutAtColon(c, colon);
    ParsedIsNumber(c[colon + 1..]);
    assert c == p.signature + ":" + c[colon + 1..];
  }

  /** An event cursor is read exactly if it is a signature, a colon and a non-negative 32-bit number, and as these. */
  lemma CursorsReadAs(c: string, p: EventPlace)
    ensures ParseEventCursor(Some(c)) == Ok(Some(p)) <==> ReadsAs(c, p)
    ensures ParseEventCursor(None) == Ok(None) && ParseEventCursor(Some(c)) != Ok(None)
  {
    if ReadsAs(c, p) {
      var t :| c == p.signature + ":" + t && NumberText(t, p.index);
      WrittenIsRead(c, p, t);
    }
    if ParseEventCursor(Some(c)) == Ok(Some(p)) {
      ReadIsWritten(c, p);
    }
  }

  // ---- One page of a job's history ----

  predicate AskedOf(less: Less<EventPlace>, subject: nat, place: Option<EventPlace>, r: HistoryRow) {
    r.subject == subject && r.finalized && (place.Some? ==> less(place.value, r.place))
  }

  ghost predicate FirstEvents(items: seq<HistoryRow>, events: seq<HistoryRow>, less: Less<EventPlace>, subject: nat,
                              place: Option<EventPlace>, limit: int) {
    && |items| <= limit && Sorted(items, PlaceOf, less)
    && (forall r :: r in items ==> r in events && AskedOf(less, subject, place, r))
    && (forall r :: r in events && AskedOf(less, subject, place, r) && r !in items ==>
          |items| == limit && forall i :: 0 <= i < |items| ==> less(items[i].place, r.place))
  }

  /** A history request is refused exactly for a limit out of range, an unreadable address or an unreadable cursor. */
  lemma HistoryRefusals(text: AddressText, events: seq<HistoryRow>, address: string, less: Less<EventPlace>, limit: int,
                        cursor: Option<string>)
    ensures HistoryPage(text, events, address, less, limit, cursor).Err? <==>
              || limit < 1 || limit > 100 || text.parse(address).None?
              || (cursor.Some? && forall p :: !ReadsAs(cursor.value, p))
  {
    if cursor.Some? {
      forall p ensures ParseEventCursor(cursor) == Ok(Some(p)) <==> ReadsAs(cursor.value, p) {
        CursorsReadAs(cursor.value, p);
      }
      var parsed := ParseEventCursor(cursor);
      assert parsed.Ok? && parsed.value.Some? ==> ReadsAs(cursor.value, parsed.value.value);
    }
  }

  /** Otherwise it returns the first finalized events of the job past the cursor, and a cursor exactly if more follow. */
  lemma HistoryPageIsRight(text: AddressText, events: seq<HistoryRow>, address: string, less: Less<EventPlace>, limit: int,
                           cursor: Option<string>)
    returns (items: seq<HistoryRow>)
    requires StrictOrder(less) && Sorted(events, PlaceOf, less)
    requires HistoryPage(text, events, address, less, limit, cursor).Ok?
    ensures var subject, place := text.parse(address).value, ParseEventCursor(cursor).value;
            && FirstEvents(items, events, less, subject, place, limit)
            && var left := exists r :: r in events && AskedOf(less, subject, place, r) && r !in items;
            && (left ==> |items| == limit)
            && HistoryPage(text, events, address, less, limit, cursor)
               == Ok(Page(items, if left then Some(PrintCursor(items[limit - 1].place)) else None))
  {
    var subject, place := text.parse(address).value, ParseEventCursor(cursor).value;
    var rows := HistoryOf(events, subject);
    FilterSorted(events, (r: HistoryRow) => r.subject == subject && r.finalized, PlaceOf, less);
    PageIsRight(rows, PlaceOf, less, place, limit);
    items := PageOf(rows, PlaceOf, less, place, limit).items;
    forall r ensures r in rows && Past(less, place, PlaceOf(r)) <==> r in events && AskedOf(less, subject, place, r) {
      FilterIsExact(events, (x: HistoryRow) => x.subject == subject && x.finalized, r);
    }
  }

  // ---- Whole walks ----

  /** A row is returned by a walk if and only if it is in the table with the state, buyer and provider asked for. */
  lemma JobWalkRows(pages: seq<Page<JobRow, string>>, text: AddressText, table: seq<JobRow>, checkpoint: nat, q: JobQuery, r: JobRow)
    requires InOrder(table) && text.RoundTrips() && Filtering(text, q).Some?
    requires IsWalk(pages, JobFetch(text, table, checkpoint, q), None)
    ensures r in Items(pages) <==>
              && r in table
              && (q.state.Some? ==> r.state == q.state.value)
              && (q.buyer.Some? ==> text.parse(q.buyer.value) == Some(r.buyer))
              && (q.provider.Some? ==> text.parse(q.provider.value) == Some(r.provider))
  {
    var f := Filtering(text, q).value;
    JobWalk(pages, text, table, checkpoint, q);
    FilterIsExact(table, (x: JobRow) => f.Admits(x), r);
  }

  /** How the columns of stored events read: the signature's text, and the job the content names. */
  datatype EventText = EventText(signature: nat -> string, subject: nat -> nat)

  function RowOf(e: EventText, k: EventKey, row: EventRow): HistoryRow {
    HistoryRow(EventPlace(e.signature(k.signature), k.index), e.subject(row.content), row.slot, row.commitment.Finalized?, row.content)
  }

  predicate IsRowOf(e: EventText, db: Db, k: EventKey, r: HistoryRow) {
    k in db.events && r == RowOf(e, k, db.events[k])
  }

  /** The event table as rows. */
  ghost predicate ShowsEvents(events: seq<HistoryRow>, db: Db, e: EventText) {
    forall r :: r in events <==> exists k :: IsRowOf(e, db, k, r)
  }

  /** The row is a stored event about the job, in a finalized slot. */
  ghost predicate FinalizedEventOf(e: EventText, db: Db, subject: nat, r: HistoryRow) {
    exists k :: IsRowOf(e, db, k, r) && e.subject(db.events[k].content) == subject && FinalizedAt(db.slots, db.events[k].slot)
  }

  lemma RowsOfHistory(events: seq<HistoryRow>, db: Db, e: EventText, subject: nat, r: HistoryRow)
    requires MarksOk(db) && ShowsEvents(events, db, e)
    ensures r in events && r.subject == subject && r.finalized <==> FinalizedEventOf(e, db, subject, r)
  {
    if r in events && r.subject == subject && r.finalized {
      var k :| IsRowOf(e, db, k, r);
      assert FinalizedAt(db.slots, db.events[k].slot);
    }
  }

  /**
   * After any stream, a walk over a job's history returns exactly the stored events about that job whose slot is
   * finalized.
   */
  lemma HistoryShowsFinalized(us: seq<Update>, pages: seq<Page<HistoryRow, string>>, e: EventText, text: AddressText,
                              events: seq<HistoryRow>, address: string, less: Less<EventPlace>, limit: int, r: HistoryRow)
    requires AllFromSource(us) && ShowsEvents(events, Run(EMPTY_DB, us).db, e)
    requires StrictOrder(less) && Sorted(events, PlaceOf, less) && ValidLimit(limit) && text.parse(address).Some?
    requires forall i :: 0 <= i < |events| ==> events[i].place.Storable()
    requires IsWalk(pages, HistoryFetch(text, events, address, less, limit), None)
    ensures r in Items(pages) <==> FinalizedEventOf(e, Run(EMPTY_DB, us).db, text.parse(address).value, r)
  {
    var subject := text.parse(address).value;
    RunKeeps(EMPTY_DB, us);
    HistoryWalk(pages, text, events, address, less, limit);
    FilterIsExact(events, (x: HistoryRow) => x.subject == subject && x.finalized, r);
    RowsOfHistory(events, Run(EMPTY_DB, us).db, e, subject, r);
  }
}
