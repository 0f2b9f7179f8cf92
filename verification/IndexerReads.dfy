/** The paged read queries over the public tables, and their cursors. */
module IndexerReads {
  import opened Limits
  import opened Options
  import opened Text
  import opened Paging
  import opened IndexerModel
  import opened IndexerForks

  datatype Problem = Validation | Conflict
  datatype Result<T> = Ok(value: T) | Err(problem: Problem)

  predicate ValidLimit(limit: int) {
    1 <= limit <= 100
  }

  // ---- Jobs ----

  datatype JobRow = JobRow(address: nat, asOf: nat, buyer: nat, provider: nat, amount: nat, nonce: nat, state: string)

  datatype JobFilter = JobFilter(state: Option<string>, buyer: Option<nat>, provider: Option<nat>)
  {
    predicate Admits(r: JobRow) {
      && (state.None? || state.value == r.state)
      && (buyer.None? || buyer.value == r.buyer)
      && (provider.None? || provider.value == r.provider)
    }
  }

  const JOB_STATES: set<string> :=
    {"Created", "Funded", "Accepted", "Submitted", "Challenged", "Settled", "Refunded", "Expired", "Slashed", "Closed"}

  function AddressOf(r: JobRow): nat {
    r.address
  }

  predicate Below(a: nat, b: nat) {
    a < b
  }

  function Selected(table: seq<JobRow>, f: JobFilter): seq<JobRow> {
    Filter(table, (r: JobRow) => f.Admits(r))
  }

  predicate InOrder(table: seq<JobRow>) {
    forall i, j :: 0 <= i < j < |table| ==> table[i].address < table[j].address
  }

  function First<R>(rows: seq<R>, n: nat): seq<R> {
    if |rows| <= n then rows else rows[..n]
  }

  /** Addresses in text. */
  datatype AddressText = AddressText(show: nat -> string, parse: string -> Option<nat>)
  {
    ghost predicate RoundTrips() {
      forall a: nat :: parse(show(a)) == Some(a)
    }

    /** An optional argument: absent, an address, or unreadable. */
    function Argument(text: Option<string>): Option<Option<nat>> {
      if text.None? then Some(None)
      else if parse(text.value).None? then None
      else Some(parse(text.value))
    }

    function AsCursors(): Cursors<nat> {
      Cursors(show, (text: Option<string>) => Argument(text))
    }
  }

  /** A request as it comes in. */
  datatype JobQuery = JobQuery(limit: int, state: Option<string>, buyer: Option<string>, provider: Option<string>)

  /** The filter of a request, unless it is invalid. */
  function Filtering(text: AddressText, q: JobQuery): Option<JobFilter> {
    var buyer, provider := text.Argument(q.buyer), text.Argument(q.provider);
    if !ValidLimit(q.limit) || (q.state.Some? && q.state.value !in JOB_STATES) || buyer.None? || provider.None? then None
    else Some(JobFilter(q.state, buyer.value, provider.value))
  }

  /** What a request for one page of jobs returns. */
  function JobPage(text: AddressText, table: seq<JobRow>, checkpoint: nat, q: JobQuery, cursor: Option<string>)
    : Result<Page<JobRow, string>>
  {
    var f, place := Filtering(text, q), text.Argument(cursor);
    if f.None? || place.None? then Err(Validation)
    else
      var page := PageOf(Selected(table, f.value), AddressOf, Below, place.value, q.limit);
      if exists i :: 0 <= i < |page.items| && page.items[i].asOf > checkpoint then Err(Conflict)
      else Ok(Printed(text.AsCursors(), page))
  }

  method ListJobs(text: AddressText, table: seq<JobRow>, checkpoint: nat, q: JobQuery, cursor: Option<string>)
    returns (r: Result<Page<JobRow, string>>)
    ensures r == JobPage(text, table, checkpoint, q, cursor)
  {
    if !ValidLimit(q.limit) {
      return Err(Validation);
    }
    if q.state.Some? && q.state.value !in JOB_STATES {
      return Err(Validation);
    }
    var place := text.Argument(cursor);
    if place.None? {
      return Err(Validation);
    }
    var buyer := text.Argument(q.buyer);
    if buyer.None? {
      return Err(Validation);
    }
    var provider := text.Argument(q.provider);
    if provider.None? {
      return Err(Validation);
    }
    r := FetchJobs(text, Selected(table, JobFilter(q.state, buyer.value, provider.value)), checkpoint, q.limit, place.value);
  }

  /** One row more than asked for tells whether there are more. */
  lemma FirstPage<R, K>(rows: seq<R>, key: R -> K, less: Less<K>, cursor: Option<K>, limit: nat)
    requires limit > 0
    ensures var page, fetched := PageOf(rows, key, less, cursor, limit), First(After(rows, key, less, cursor), limit + 1);
            && page.items == First(fetched, limit)
            && page.next == if |fetched| > limit then Some(key(fetched[limit - 1])) else None
  {
  }

  method FetchJobs(text: AddressText, selected: seq<JobRow>, checkpoint: nat, limit: nat, cursor: Option<nat>)
    returns (r: Result<Page<JobRow, string>>)
    requires limit > 0
    ensures var page := PageOf(selected, AddressOf, Below, cursor, limit);
            r == if exists i :: 0 <= i < |page.items| && page.items[i].asOf > checkpoint then Err(Conflict)
                 else Ok(Printed(text.AsCursors(), page))
  {
    ghost var page := PageOf(selected, AddressOf, Below, cursor, limit);
    var rows := First(After(selected, AddressOf, Below, cursor), limit + 1);
    FirstPage(selected, AddressOf, Below, cursor, limit);
    var hasMore := |rows| > limit;
    var checked := CopyFresh(First(rows, limit), checkpoint);
    if checked.None? {
      return Err(Conflict);
    }
    var items := checked.value;
    var next := if hasMore then Some(text.show(items[|items| - 1].address)) else None;
    r := Ok(Page(items, next));
  }

  /** The loop over the rows of a page; it stops at a row newer than the checkpoint. */
  method CopyFresh(rows: seq<JobRow>, checkpoint: nat) returns (items: Option<seq<JobRow>>)
    ensures items == if exists i :: 0 <= i < |rows| && rows[i].asOf > checkpoint then None else Some(rows)
  {
    var copied: seq<JobRow> := [];
    for i := 0 to |rows|
      invariant copied == rows[..i]
      invariant forall k :: 0 <= k < i ==> rows[k].asOf <= checkpoint
    {
      if rows[i].asOf > checkpoint {
        return None;
      }
      assert rows[..i + 1] == rows[..i] + [rows[i]];
      copied := copied + [rows[i]];
    }
    assert rows[..|rows|] == rows;
    items := Some(copied);
  }

  // ---- Walking the jobs ----

  function Answer<T>(r: Result<T>): Option<T> {
    if r.Ok? then Some(r.value) else None
  }

  function JobFetch(text: AddressText, table: seq<JobRow>, checkpoint: nat, q: JobQuery): Fetch<JobRow> {
    (cursor: Option<string>) => Answer(JobPage(text, table, checkpoint, q, cursor))
  }

  lemma JobsAreHonest(text: AddressText, table: seq<JobRow>, checkpoint: nat, q: JobQuery)
    requires InOrder(table) && text.RoundTrips() && Filtering(text, q).Some?
    ensures var rows := Selected(table, Filtering(text, q).value);
            && Sorted(rows, AddressOf, Below) && Readable(rows, AddressOf, text.AsCursors())
            && Honest(JobFetch(text, table, checkpoint, q), rows, AddressOf, Below, q.limit, text.AsCursors())
  {
    var f := Filtering(text, q).value;
    assert Sorted(table, AddressOf, Below);
    FilterSorted(table, (r: JobRow) => f.Admits(r), AddressOf, Below);
  }

  /** Any walk over printed cursors, for every valid filter and limit, returns exactly the filtered table. */
  lemma JobWalk(pages: seq<Page<JobRow, string>>, text: AddressText, table: seq<JobRow>, checkpoint: nat, q: JobQuery)
    requires InOrder(table) && text.RoundTrips() && Filtering(text, q).Some?
    requires IsWalk(pages, JobFetch(text, table, checkpoint, q), None)
    ensures Items(pages) == Selected(table, Filtering(text, q).value)
  {
    var rows := Selected(table, Filtering(text, q).value);
    JobsAreHonest(text, table, checkpoint, q);
    assert StrictOrder(Below);
    WalkIsComplete(pages, JobFetch(text, table, checkpoint, q), rows, AddressOf, Below, q.limit, text.AsCursors());
  }

  /** With no row newer than the checkpoint such a walk exists. */
  lemma JobWalkExists(text: AddressText, table: seq<JobRow>, checkpoint: nat, q: JobQuery) returns (pages: seq<Page<JobRow, string>>)
    requires InOrder(table) && text.RoundTrips() && Filtering(text, q).Some?
    requires forall i :: 0 <= i < |table| ==> table[i].asOf <= checkpoint
    ensures IsWalk(pages, JobFetch(text, table, checkpoint, q), None)
  {
    var f := Filtering(text, q).value;
    var rows := Selected(table, f);
    JobsAreHonest(text, table, checkpoint, q);
    forall cursor | text.Argument(cursor).Some? ensures JobPage(text, table, checkpoint, q, cursor).Ok? {
      FreshPage(table, f, checkpoint, text.Argument(cursor).value, q.limit);
    }
    assert StrictOrder(Below);
    pages := WalkExists(JobFetch(text, table, checkpoint, q), rows, AddressOf, Below, q.limit, text.AsCursors(), None, None);
  }

  lemma FreshPage(table: seq<JobRow>, f: JobFilter, checkpoint: nat, place: Option<nat>, limit: nat)
    requires limit > 0 && forall i :: 0 <= i < |table| ==> table[i].asOf <= checkpoint
    ensures var page := PageOf(Selected(table, f), AddressOf, Below, place, limit);
            forall i :: 0 <= i < |page.items| ==> page.items[i].asOf <= checkpoint
  {
    var rows := Selected(table, f);
    var page := PageOf(rows, AddressOf, Below, place, limit);
    forall i | 0 <= i < |page.items| ensures page.items[i].asOf <= checkpoint {
      AfterIsPart(rows, AddressOf, Below, place);
      assert page.items[i] in rows;
      FilterIsExact(table, (r: JobRow) => f.Admits(r), page.items[i]);
      assert page.items[i] in table;
    }
  }

  /** The rows of the public job table. */
  ghost predicate Shows(table: seq<JobRow>, db: Db) {
    forall i :: 0 <= i < |table| ==>
      Cell(JobTable, table[i].address) in db.proj && db.proj[Cell(JobTable, table[i].address)].asOf == table[i].asOf
  }

  /** Between completed ingests no row is newer than the checkpoint, so a job page never reports a conflict. */
  lemma NeverConflict(us: seq<Update>, text: AddressText, table: seq<JobRow>, q: JobQuery, cursor: Option<string>)
    requires AllFromSource(us) && Shows(table, Run(EMPTY_DB, us).db)
    ensures JobPage(text, table, Run(EMPTY_DB, us).db.finalizedSlot, q, cursor) != Err(Conflict)
  {
    RunKeeps(EMPTY_DB, us);
    if Filtering(text, q).Some? && text.Argument(cursor).Some? {
      FreshPage(table, Filtering(text, q).value, Run(EMPTY_DB, us).db.finalizedSlot, text.Argument(cursor).value, q.limit);
    }
  }

  // ---- Event cursors ----

  datatype EventPlace = EventPlace(signature: string, index: int)
  {
    predicate Storable() {
      signature != "" && 0 <= index <= I32_MAX
    }
  }

  function PrintCursor(p: EventPlace): string {
    p.signature + ":" + PrintSigned(p.index)
  }

  function ParseEventCursor(cursor: Option<string>): Result<Option<EventPlace>> {
    if cursor.None? then Ok(None)
    else
      var c := cursor.value;
      var colon := FindLast(c, ':');
      if colon.None? then Err(Validation)
      else
        var index := ParseSigned(c[colon.value + 1..], I32_MIN, I32_MAX);
        if index.None? || colon.value == 0 || index.value < 0 then Err(Validation)
        else Ok(Some(EventPlace(c[..colon.value], index.value)))
  }

  /** Cursors parse back to the place that printed them, whatever the signature contains. */
  lemma CursorRoundTrip(p: EventPlace)
    requires p.Storable()
    ensures ParseEventCursor(Some(PrintCursor(p))) == Ok(Some(p))
  {
    var digits := Print(p.index);
    assert forall i :: 0 <= i < |digits| ==> IsDigit(digits[i]);
    FindLastBefore(p.signature, ':', digits);
    SignedRoundTrip(p.index, I32_MIN, I32_MAX);
    var c := PrintCursor(p);
    assert c == p.signature + [':'] + digits;
    assert c[|p.signature| + 1..] == digits && c[..|p.signature|] == p.signature;
  }

  // ---- Job history ----

  datatype HistoryRow = HistoryRow(place: EventPlace, subject: nat, slot: nat, finalized: bool, content: nat)

  function PlaceOf(r: HistoryRow): EventPlace {
    r.place
  }

  /** The finalized events of one job, in the order of the given comparison of (signature, index). */
  function HistoryOf(events: seq<HistoryRow>, subject: nat): seq<HistoryRow> {
    Filter(events, (r: HistoryRow) => r.subject == subject && r.finalized)
  }

  function PlaceCursors(): Cursors<EventPlace> {
    Cursors(PrintCursor, (text: Option<string>) => Answer(ParseEventCursor(text)))
  }

  function HistoryPage(text: AddressText, events: seq<HistoryRow>, address: string, less: Less<EventPlace>, limit: int,
                       cursor: Option<string>): Result<Page<HistoryRow, string>> {
    var subject, place := text.parse(address), ParseEventCursor(cursor);
    if !ValidLimit(limit) || subject.None? || place.Err? then Err(Validation)
    else Ok(Printed(PlaceCursors(), PageOf(HistoryOf(events, subject.value), PlaceOf, less, place.value, limit)))
  }

  method JobHistory(text: AddressText, events: seq<HistoryRow>, address: string, less: Less<EventPlace>, limit: int,
                    cursor: Option<string>) returns (r: Result<Page<HistoryRow, string>>)
    ensures r == HistoryPage(text, events, address, less, limit, cursor)
  {
    if !ValidLimit(limit) {
      return Err(Validation);
    }
    var subject := text.parse(address);
    if subject.None? {
      return Err(Validation);
    }
    var place := ParseEventCursor(cursor);
    if place.Err? {
      return Err(Validation);
    }
    var page := FetchHistory(HistoryOf(events, subject.value), less, place.value, limit);
    r := Ok(page);
  }

  method FetchHistory(history: seq<HistoryRow>, less: Less<EventPlace>, place: Option<EventPlace>, limit: nat)
    returns (page: Page<HistoryRow, string>)
    requires limit > 0
    ensures page == Printed(PlaceCursors(), PageOf(history, PlaceOf, less, place, limit))
  {
    var rows := First(After(history, PlaceOf, less, place), limit + 1);
    FirstPage(history, PlaceOf, less, place, limit);
    var hasMore := |rows| > limit;
    var items: seq<HistoryRow> := [];
    var shown := First(rows, limit);
    for i := 0 to |shown|
      invariant items == shown[..i]
    {
      assert shown[..i + 1] == shown[..i] + [shown[i]];
      items := items + [shown[i]];
    }
    assert shown[..|shown|] == shown;
    var next := if hasMore then Some(PrintCursor(items[|items| - 1].place)) else None;
    page := Page(items, next);
  }

  function HistoryFetch(text: AddressText, events: seq<HistoryRow>, address: string, less: Less<EventPlace>, limit: int)
    : Fetch<HistoryRow>
  {
    (cursor: Option<string>) => Answer(HistoryPage(text, events, address, less, limit, cursor))
  }

  lemma HistoryIsHonest(text: AddressText, events: seq<HistoryRow>, address: string, less: Less<EventPlace>, limit: int)
    requires Sorted(events, PlaceOf, less) && ValidLimit(limit) && text.parse(address).Some?
    requires forall i :: 0 <= i < |events| ==> events[i].place.Storable()
    ensures var rows := HistoryOf(events, text.parse(address).value);
            && Sorted(rows, PlaceOf, less) && Readable(rows, PlaceOf, PlaceCursors())
            && Honest(HistoryFetch(text, events, address, less, limit), rows, PlaceOf, less, limit, PlaceCursors())
  {
    var subject := text.parse(address).value;
    var keep := (r: HistoryRow) => r.subject == subject && r.finalized;
    FilterSorted(events, keep, PlaceOf, less);
    PlacesReadable(events, subject);
  }

  lemma PlacesReadable(events: seq<HistoryRow>, subject: nat)
    requires forall i :: 0 <= i < |events| ==> events[i].place.Storable()
    ensures Readable(HistoryOf(events, subject), PlaceOf, PlaceCursors())
  {
    var rows := HistoryOf(events, subject);
    forall i | 0 <= i < |rows|
      ensures PlaceCursors().parse(Some(PlaceCursors().show(PlaceOf(rows[i])))) == Some(Some(PlaceOf(rows[i])))
    {
      FilterIsExact(events, (r: HistoryRow) => r.subject == subject && r.finalized, rows[i]);
      CursorRoundTrip(rows[i].place);
    }
  }

  /** Any walk over printed cursors returns the job's finalized events, each once and in order. */
  lemma HistoryWalk(pages: seq<Page<HistoryRow, string>>, text: AddressText, events: seq<HistoryRow>, address: string,
                    less: Less<EventPlace>, limit: int)
    requires StrictOrder(less) && Sorted(events, PlaceOf, less) && ValidLimit(limit) && text.parse(address).Some?
    requires forall i :: 0 <= i < |events| ==> events[i].place.Storable()
    requires IsWalk(pages, HistoryFetch(text, events, address, less, limit), None)
    ensures Items(pages) == HistoryOf(events, text.parse(address).value)
  {
    HistoryIsHonest(text, events, address, less, limit);
    WalkIsComplete(pages, HistoryFetch(text, events, address, less, limit), HistoryOf(events, text.parse(address).value),
                   PlaceOf, less, limit, PlaceCursors());
  }

  /** Such a walk exists. */
  lemma HistoryWalkExists(text: AddressText, events: seq<HistoryRow>, address: string, less: Less<EventPlace>, limit: int)
    returns (pages: seq<Page<HistoryRow, string>>)
    requires StrictOrder(less) && Sorted(events, PlaceOf, less) && ValidLimit(limit) && text.parse(address).Some?
    requires forall i :: 0 <= i < |events| ==> events[i].place.Storable()
    ensures IsWalk(pages, HistoryFetch(text, events, address, less, limit), None)
  {
    HistoryIsHonest(text, events, address, less, limit);
    pages := WalkExists(HistoryFetch(text, events, address, less, limit), HistoryOf(events, text.parse(address).value),
                        PlaceOf, less, limit, PlaceCursors(), None, None);
  }
}
