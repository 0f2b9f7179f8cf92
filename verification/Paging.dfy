/** Keyset pagination: following cursors walks a sorted table without gaps or repeats. */
module Paging {
  import opened Options

  /** A page of a query: its items, and where to go on if there are more. */
  datatype Page<R, K> = Page(items: seq<R>, next: Option<K>)

  type Less<!K> = (K, K) -> bool

  ghost predicate StrictOrder<K(!new)>(less: Less<K>) {
    && (forall a :: !less(a, a))
    && (forall a, b, c :: less(a, b) && less(b, c) ==> less(a, c))
  }

  /** Rows in index order, no key twice. */
  ghost predicate Sorted<R, K>(rows: seq<R>, key: R -> K, less: Less<K>) {
    forall i, j :: 0 <= i < j < |rows| ==> less(key(rows[i]), key(rows[j]))
  }

  function Filter<R>(rows: seq<R>, keep: R -> bool): seq<R> {
    if rows == [] then []
    else (if keep(rows[0]) then [rows[0]] else []) + Filter(rows[1..], keep)
  }

  predicate Past<K>(less: Less<K>, cursor: Option<K>, k: K) {
    cursor.None? || less(cursor.value, k)
  }

  /** The rows a query with this cursor can return. */
  function After<R, K>(rows: seq<R>, key: R -> K, less: Less<K>, cursor: Option<K>): seq<R> {
    if rows == [] then []
    else
      var rest := After(rows[1..], key, less, cursor);
      if Past(less, cursor, key(rows[0])) then [rows[0]] + rest else rest
  }

  /** One page: fetch one row more than asked for, to learn whether there are more. */
  function PageOf<R, K>(rows: seq<R>, key: R -> K, less: Less<K>, cursor: Option<K>, limit: nat): Page<R, K>
    requires limit > 0
  {
    var after := After(rows, key, less, cursor);
    if |after| > limit then Page(after[..limit], Some(key(after[limit - 1]))) else Page(after, None)
  }

  // ---- Facts about filters ----

  /** A filter keeps exactly the rows it admits. */
  lemma {:induction false} FilterIsExact<R>(rows: seq<R>, keep: R -> bool, r: R)
    ensures r in Filter(rows, keep) <==> r in rows && keep(r)
    decreases |rows|
  {
    if rows == [] {
    } else {
      FilterIsExact(rows[1..], keep, r);
      assert rows == [rows[0]] + rows[1..];
    }
  }

  lemma SortedBehind<R, K>(first: R, rest: seq<R>, key: R -> K, less: Less<K>)
    requires Sorted(rest, key, less) && forall i :: 0 <= i < |rest| ==> less(key(first), key(rest[i]))
    ensures Sorted([first] + rest, key, less)
  {
  }

  lemma {:induction false} FilterSorted<R, K>(rows: seq<R>, keep: R -> bool, key: R -> K, less: Less<K>)
    requires Sorted(rows, key, less)
    ensures Sorted(Filter(rows, keep), key, less)
    decreases |rows|
  {
    if rows == [] {
    } else {
      var tail := rows[1..];
      FilterSorted(tail, keep, key, less);
      var rest := Filter(tail, keep);
      forall i | 0 <= i < |rest| ensures less(key(rows[0]), key(rest[i])) {
        FilterIsExact(tail, keep, rest[i]);
        var k :| 0 <= k < |tail| && tail[k] == rest[i];
        assert rows[k + 1] == rest[i];
      }
      SortedBehind(rows[0], rest, key, less);
    }
  }

  lemma {:induction false} AllAfter<R, K>(rows: seq<R>, key: R -> K, less: Less<K>, cursor: Option<K>)
    requires forall i :: 0 <= i < |rows| ==> Past(less, cursor, key(rows[i]))
    ensures After(rows, key, less, cursor) == rows
    decreases |rows|
  {
    if rows == [] {
    } else {
      AllAfter(rows[1..], key, less, cursor);
    }
  }

  /** Whatever the cursor, a query sees the rest of the table from some row on. */
  lemma {:induction false} AfterIsSuffix<R, K(!new)>(rows: seq<R>, key: R -> K, less: Less<K>, cursor: Option<K>) returns (q: nat)
    requires StrictOrder(less) && Sorted(rows, key, less)
    ensures q <= |rows| && After(rows, key, less, cursor) == rows[q..]
    decreases |rows|
  {
    if rows == [] {
      q := 0;
    } else if Past(less, cursor, key(rows[0])) {
      q := 0;
      AllAfter(rows, key, less, cursor);
    } else {
      var k := AfterIsSuffix(rows[1..], key, less, cursor);
      q := k + 1;
    }
  }

  /** What lies after the p-th row is the rest of the table. */
  lemma {:induction false} AfterRow<R, K(!new)>(rows: seq<R>, key: R -> K, less: Less<K>, p: nat)
    requires StrictOrder(less) && Sorted(rows, key, less) && p < |rows|
    ensures After(rows, key, less, Some(key(rows[p]))) == rows[p + 1..]
    decreases |rows|
  {
    var cursor, tail := Some(key(rows[p])), rows[1..];
    if p == 0 {
      AllAfter(tail, key, less, cursor);
    } else {
      assert less(key(rows[0]), key(rows[p]));
      AfterRow(tail, key, less, p - 1);
      assert tail[p - 1] == rows[p];
    }
  }

  /** The cursor of a page leads to exactly what the page left out. */
  lemma CursorLeadsOn<R, K(!new)>(rows: seq<R>, key: R -> K, less: Less<K>, cursor: Option<K>, limit: nat)
    requires StrictOrder(less) && Sorted(rows, key, less) && 0 < limit < |After(rows, key, less, cursor)|
    ensures var after := After(rows, key, less, cursor);
            After(rows, key, less, Some(key(after[limit - 1]))) == after[limit..]
  {
    var q := AfterIsSuffix(rows, key, less, cursor);
    AfterRow(rows, key, less, q + limit - 1);
  }

  // ---- What a page holds ----

  lemma {:induction false} AfterIsExact<R, K>(rows: seq<R>, key: R -> K, less: Less<K>, cursor: Option<K>, r: R)
    ensures r in After(rows, key, less, cursor) <==> r in rows && Past(less, cursor, key(r))
    decreases |rows|
  {
    if rows == [] {
    } else {
      AfterIsExact(rows[1..], key, less, cursor, r);
      assert rows == [rows[0]] + rows[1..];
    }
  }

  /** `items` are the first rows past the cursor, in order, at most `limit`. */
  ghost predicate FirstPast<R, K>(items: seq<R>, rows: seq<R>, key: R -> K, less: Less<K>, cursor: Option<K>, limit: nat) {
    && |items| <= limit && Sorted(items, key, less)
    && (forall r :: r in items ==> r in rows && Past(less, cursor, key(r)))
    && (forall r :: r in rows && Past(less, cursor, key(r)) && r !in items ==>
          |items| == limit && forall i :: 0 <= i < |items| ==> less(key(items[i]), key(r)))
  }

  lemma {:induction false} AfterSorted<R, K(!new)>(rows: seq<R>, key: R -> K, less: Less<K>, cursor: Option<K>)
    requires StrictOrder(less) && Sorted(rows, key, less)
    ensures Sorted(After(rows, key, less, cursor), key, less)
  {
    var q := AfterIsSuffix(rows, key, less, cursor);
  }

  /** Cutting a sorted list: what is left out lies behind everything kept, and is not repeated in it. */
  lemma CutSorted<R, K(!new)>(after: seq<R>, key: R -> K, less: Less<K>, limit: nat)
    requires StrictOrder(less) && Sorted(after, key, less) && 0 < limit < |after|
    ensures after[limit] !in after[..limit] && Sorted(after[..limit], key, less)
    ensures forall r, i :: r in after && r !in after[..limit] && 0 <= i < limit ==> less(key(after[i]), key(r))
  {
    assert after == after[..limit] + after[limit..];
    forall r, i | r in after && r !in after[..limit] && 0 <= i < limit ensures less(key(after[i]), key(r)) {
      assert r in after[limit..];
    }
    forall k | 0 <= k < limit ensures after[k] != after[limit] {
      assert less(key(after[k]), key(after[limit])) && !less(key(after[limit]), key(after[limit]));
    }
  }

  /** A page holds those, and names its last row exactly if rows are left over. */
  lemma PageIsRight<R, K(!new)>(rows: seq<R>, key: R -> K, less: Less<K>, cursor: Option<K>, limit: nat)
    requires StrictOrder(less) && Sorted(rows, key, less) && limit > 0
    ensures var page := PageOf(rows, key, less, cursor, limit);
            && FirstPast(page.items, rows, key, less, cursor, limit)
            && (page.next.Some? <==> exists r :: r in rows && Past(less, cursor, key(r)) && r !in page.items)
            && (page.next.Some? ==> |page.items| == limit && page.next == Some(key(page.items[limit - 1])))
  {
    var after := After(rows, key, less, cursor);
    AfterSorted(rows, key, less, cursor);
    AfterMembers(rows, key, less, cursor);
    if |after| > limit {
      CutSorted(after, key, less, limit);
      var out := after[limit];
      assert out in rows && Past(less, cursor, key(out)) && out !in PageOf(rows, key, less, cursor, limit).items;
    }
  }

  lemma AfterMembers<R, K>(rows: seq<R>, key: R -> K, less: Less<K>, cursor: Option<K>)
    ensures forall r :: r in After(rows, key, less, cursor) ==> r in rows && Past(less, cursor, key(r))
    ensures forall r :: r in rows && Past(less, cursor, key(r)) ==> r in After(rows, key, less, cursor)
  {
    var after := After(rows, key, less, cursor);
    forall r | r in after ensures r in rows && Past(less, cursor, key(r)) {
      AfterIsExact(rows, key, less, cursor, r);
    }
    forall r | r in rows && Past(less, cursor, key(r)) ensures r in after {
      AfterIsExact(rows, key, less, cursor, r);
    }
  }

  // ---- Cursors in text ----

  /** How cursors are written and read; no cursor at all reads as the start. */
  datatype Cursors<!K> = Cursors(show: K -> string, parse: Option<string> -> Option<Option<K>>)

  function Printed<R, K>(cursors: Cursors<K>, page: Page<R, K>): Page<R, string> {
    Page(page.items, if page.next.Some? then Some(cursors.show(page.next.value)) else None)
  }

  /** One request: a page, or a refusal. */
  type Fetch<!R> = Option<string> -> Option<Page<R, string>>

  /** Whatever is answered to a readable cursor is the page it names. */
  ghost predicate Honest<R, K>(fetch: Fetch<R>, rows: seq<R>, key: R -> K, less: Less<K>, limit: nat, cursors: Cursors<K>)
    requires limit > 0
  {
    forall s :: cursors.parse(s).Some? && fetch(s).Some? ==>
      fetch(s).value == Printed(cursors, PageOf(rows, key, less, cursors.parse(s).value, limit))
  }

  /** The cursors of all rows can be read back. */
  ghost predicate Readable<R, K>(rows: seq<R>, key: R -> K, cursors: Cursors<K>) {
    forall i :: 0 <= i < |rows| ==> cursors.parse(Some(cursors.show(key(rows[i])))) == Some(Some(key(rows[i])))
  }

  /** The pages a client gets that follows each printed cursor until there is none. */
  ghost predicate IsWalk<R>(pages: seq<Page<R, string>>, fetch: Fetch<R>, start: Option<string>)
    decreases |pages|
  {
    && |pages| > 0 && fetch(start) == Some(pages[0])
    && if |pages| == 1 then pages[0].next.None? else pages[0].next.Some? && IsWalk(pages[1..], fetch, pages[0].next)
  }

  function Items<R>(pages: seq<Page<R, string>>): seq<R> {
    if pages == [] then [] else pages[0].items + Items(pages[1..])
  }

  lemma {:induction false} AfterIsPart<R, K>(rows: seq<R>, key: R -> K, less: Less<K>, cursor: Option<K>)
    ensures forall i :: 0 <= i < |After(rows, key, less, cursor)| ==> After(rows, key, less, cursor)[i] in rows
    decreases |rows|
  {
    if rows == [] {
    } else {
      AfterIsPart(rows[1..], key, less, cursor);
    }
  }

  lemma NextCursor<R, K(!new)>(rows: seq<R>, key: R -> K, less: Less<K>, limit: nat, cursors: Cursors<K>, place: Option<K>)
    requires StrictOrder(less) && Sorted(rows, key, less) && limit > 0 && Readable(rows, key, cursors)
    requires PageOf(rows, key, less, place, limit).next.Some?
    ensures var page := PageOf(rows, key, less, place, limit);
            && cursors.parse(Printed(cursors, page).next) == Some(page.next)
            && page.items + After(rows, key, less, page.next) == After(rows, key, less, place)
  {
    AfterIsPart(rows, key, less, place);
    assert After(rows, key, less, place)[limit - 1] in rows;
    CursorLeadsOn(rows, key, less, place, limit);
  }

  lemma {:induction false} WalkFrom<R, K(!new)>(pages: seq<Page<R, string>>, fetch: Fetch<R>, rows: seq<R>, key: R -> K,
      less: Less<K>, limit: nat, cursors: Cursors<K>, start: Option<string>, place: Option<K>)
    requires StrictOrder(less) && Sorted(rows, key, less) && limit > 0 && Readable(rows, key, cursors)
    requires Honest(fetch, rows, key, less, limit, cursors)
    requires IsWalk(pages, fetch, start) && cursors.parse(start) == Some(place)
    ensures Items(pages) == After(rows, key, less, place)
    decreases |pages|
  {
    var page := PageOf(rows, key, less, place, limit);
    assert pages[0] == Printed(cursors, page);
    if page.next.None? {
      assert pages[1..] == [];
    } else {
      NextCursor(rows, key, less, limit, cursors, place);
      WalkFrom(pages[1..], fetch, rows, key, less, limit, cursors, pages[0].next, page.next);
    }
  }

  /** Any walk from the start over printed cursors returns all rows, each once and in order. */
  lemma WalkIsComplete<R, K(!new)>(pages: seq<Page<R, string>>, fetch: Fetch<R>, rows: seq<R>, key: R -> K,
      less: Less<K>, limit: nat, cursors: Cursors<K>)
    requires StrictOrder(less) && Sorted(rows, key, less) && limit > 0 && Readable(rows, key, cursors)
    requires Honest(fetch, rows, key, less, limit, cursors) && cursors.parse(None) == Some(None)
    requires IsWalk(pages, fetch, None)
    ensures Items(pages) == rows
  {
    WalkFrom(pages, fetch, rows, key, less, limit, cursors, None, None);
    AllAfter(rows, key, less, None);
  }

  /** If readable cursors are never refused there is such a walk: the cursors run out. */
  lemma {:induction false} WalkExists<R, K(!new)>(fetch: Fetch<R>, rows: seq<R>, key: R -> K,
      less: Less<K>, limit: nat, cursors: Cursors<K>, start: Option<string>, place: Option<K>) returns (pages: seq<Page<R, string>>)
    requires StrictOrder(less) && Sorted(rows, key, less) && limit > 0 && Readable(rows, key, cursors)
    requires Honest(fetch, rows, key, less, limit, cursors)
    requires forall s :: cursors.parse(s).Some? ==> fetch(s).Some?
    requires cursors.parse(start) == Some(place)
    ensures IsWalk(pages, fetch, start)
    decreases |After(rows, key, less, place)|
  {
    var page := PageOf(rows, key, less, place, limit);
    var first := Printed(cursors, page);
    assert fetch(start) == Some(first);
    if page.next.None? {
      pages := [first];
    } else {
      NextCursor(rows, key, less, limit, cursors, place);
      var rest := WalkExists(fetch, rows, key, less, limit, cursors, first.next, page.next);
      pages := [first] + rest;
      assert pages[1..] == rest;
    }
  }
}
