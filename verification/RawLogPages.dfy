// Raw-log pages: the fetch, filter and refetch loop, and the walk over all
// pages while other clients insert and expire rows
// (src/core/agent_log_analysis/raw_log_service.py).
module RawLogPages {

  import opened Wrappers
  import opened PyText
  import opened SqlModel
  import opened SqlBuilder
  import opened Cursors
  import opened RawLogStore

  datatype ValidatedRawLogQuery = ValidatedRawLogQuery(
    storeParams: RawLogQueryParams,
    eventId: Option<string>,
    level: Option<string>,
    source: Option<string>)

  // The table as each store query finds it: query number k runs on history(k).
  type History = nat -> Table

  ghost predicate LegalHistory(h: History)
  {
    && (forall k: nat :: ValidTable(h(k)))
    && (forall k: nat :: Evolves(h(k), h(k + 1)))
  }

  lemma {:induction false} HistoryEvolves(h: History, i: nat, j: nat)
    requires LegalHistory(h) && i <= j
    ensures Evolves(h(i), h(j))
    decreases j - i
  {
    if i < j {
      HistoryEvolves(h, i, j - 1);
      assert Evolves(h(j - 1), h(j - 1 + 1));
      EvolvesTransitive(h(i), h(j - 1), h(j));
    }
  }

  // A log id names the same row whenever it is seen.
  lemma WriteOnce(h: History, i: nat, r: Row, j: nat, s: Row)
    requires LegalHistory(h) && r in h(i).rows && s in h(j).rows && r.id == s.id
    ensures r == s
  {
    var lo, hi := if i <= j then i else j, if i <= j then j else i;
    HistoryEvolves(h, lo, hi);
    assert ValidTable(h(lo)) && ValidTable(h(hi));
    var a, b := if i <= j then r else s, if i <= j then s else r;
    assert b in h(lo).rows;
  }

  // ---------- what a caller asks for ----------

  predicate ServiceKeeps(q: ValidatedRawLogQuery, r: Row)
  {
    && OptionalColumn(r, "event_id", q.eventId)
    && OptionalColumn(r, "level", q.level)
    && OptionalColumn(r, "source", q.source)
  }

  predicate Wanted(q: ValidatedRawLogQuery, r: Row)
  {
    InScope(q.storeParams, r) && ServiceKeeps(q, r)
  }

  function WantedSelector(q: ValidatedRawLogQuery): Row -> bool
  {
    r => Wanted(q, r) && AfterCursor(Cursor(q.storeParams), r)
  }

  // Every condition of a request, those of the store and those of the service.
  predicate LogMatches(q: ValidatedRawLogQuery, r: Row)
  {
    && RowMatches(q.storeParams, r)
    && !Excluded(r, "event_id", q.eventId) && !Excluded(r, "level", q.level) && !Excluded(r, "source", q.source)
  }

  lemma WantedMeaning(q: ValidatedRawLogQuery, r: Row)
    ensures WantedSelector(q)(r) <==> LogMatches(q, r)
  {
    SelectorMeaning(q.storeParams, r);
  }

  ghost predicate Seen(h: History, first: nat, last: nat, r: Row)
  {
    exists k: nat :: first <= k < last && r in h(k).rows
  }

  ghost predicate PresentThroughout(h: History, first: nat, last: nat, r: Row)
  {
    forall k: nat :: first <= k < last ==> r in h(k).rows
  }

  // r comes after the last row of a page.
  predicate BeyondPage(page: seq<Row>, r: Row)
  {
    page != [] && Below(KeyOf(r), KeyOf(page[|page| - 1]))
  }

  // ---------- one round of the loop ----------

  // One optional filter of the service: rows without the column never match.
  function Narrow(rows: seq<Row>, col: string, text: Option<string>): seq<Row>
  {
    if text.Some? then Filter(r => ColumnEquals(r, col, text.value), rows) else rows
  }

  lemma NarrowMeaning(rows: seq<Row>, col: string, text: Option<string>)
    requires Descending(rows)
    ensures Descending(Narrow(rows, col, text))
    ensures forall r :: r in Narrow(rows, col, text) <==> r in rows && OptionalColumn(r, col, text)
  {
    if text.Some? {
      FilterDescending(r => ColumnEquals(r, col, text.value), rows);
    }
  }

  function ApplyFilters(rows: seq<Row>, q: ValidatedRawLogQuery): seq<Row>
  {
    Narrow(Narrow(Narrow(rows, "event_id", q.eventId), "level", q.level), "source", q.source)
  }

  lemma ApplyFiltersMeaning(rows: seq<Row>, q: ValidatedRawLogQuery)
    requires Descending(rows)
    ensures Descending(ApplyFilters(rows, q))
    ensures forall r :: r in ApplyFilters(rows, q) <==> r in rows && ServiceKeeps(q, r)
  {
    var a := Narrow(rows, "event_id", q.eventId);
    var b := Narrow(a, "level", q.level);
    NarrowMeaning(rows, "event_id", q.eventId);
    NarrowMeaning(a, "level", q.level);
    NarrowMeaning(b, "source", q.source);
  }

  lemma {:induction false} FilterDescending(p: Row -> bool, rows: seq<Row>)
    requires Descending(rows)
    ensures Descending(Filter(p, rows))
    ensures forall r :: r in Filter(p, rows) <==> r in rows && p(r)
  {
    FilterElements(p, rows);
    if rows != [] {
      FilterDescending(p, rows[1..]);
      FilterElements(p, rows[1..]);
      var tail := Filter(p, rows[1..]);
      forall j | 0 <= j < |tail|
        ensures Below(KeyOf(tail[j]), KeyOf(rows[0]))
      {
        assert tail[j] in rows[1..];
      }
    }
  }

  // A page of a listing: what is in it and what it may have left for later.
  lemma PageMeaning(p: RawLogQueryParams, rows: seq<Row>)
    requires UniqueIds(rows)
    ensures var page := Take(Listing(Selector(p), rows), p.limit);
            && Descending(page)
            && (forall r :: r in page ==> r in rows && Selector(p)(r))
            && (forall r :: r in rows && Selector(p)(r) ==>
                  r in page || (|page| == p.limit && (p.limit > 0 ==> BeyondPage(page, r))))
  {
    var all := Listing(Selector(p), rows);
    ListingMeaning(Selector(p), rows);
    TakeMeaning(all, p.limit);
  }

  lemma TakeMeaning(all: seq<Row>, n: nat)
    requires Descending(all)
    ensures Descending(Take(all, n))
    ensures forall r :: r in Take(all, n) ==> r in all
    ensures forall r :: r in all ==> r in Take(all, n) || (|Take(all, n)| == n && (n > 0 ==> BeyondPage(Take(all, n), r)))
  {
    var page := Take(all, n);
    forall r | r in all
      ensures r in page || (|page| == n && (n > 0 ==> BeyondPage(page, r)))
    {
      var i :| 0 <= i < |all| && all[i] == r;
      if i < |page| {
        assert page[i] == r;
      }
    }
  }

  // Appending rows that all lie below the ones collected so far.
  lemma AppendDescending(done: seq<Row>, more: seq<Row>)
    requires Descending(done) && Descending(more)
    requires forall x, y :: x in more && y in done ==> Below(KeyOf(x), KeyOf(y))
    ensures Descending(done + more)
  {
    forall i, j | 0 <= i < j < |done + more|
      ensures Below(KeyOf((done + more)[j]), KeyOf((done + more)[i]))
    {
      if i < |done| && j >= |done| {
        assert done[i] in done && more[j - |done|] in more;
      }
    }
  }

  lemma AboveTransitive(x: Row, c: Key, y: Row)
    requires Below(KeyOf(x), c) && !Below(KeyOf(y), c)
    ensures Below(KeyOf(x), KeyOf(y))
  {
    BelowTotal(KeyOf(y), c);
    if c != KeyOf(y) {
      BelowTransitive(KeyOf(x), c, KeyOf(y));
    }
  }

  function BuildNextCursor(clock: Clock, rows: seq<Row>, limit: nat): Option<string>
  {
    if rows == [] || |rows| < limit then None
    else
      var last := rows[|rows| - 1];
      Some(CursorText(clock, last.occurredAt, PrintNat(if last.id.Int? && last.id.num >= 0 then last.id.num else 0)))
  }

  // ---------- what one call collects ----------

  // The rows are in order, all wanted, and all were in the table when read.
  ghost predicate Sound(h: History, first: nat, last: nat, q: ValidatedRawLogQuery, rows: seq<Row>)
  {
    && Descending(rows)
    && forall r :: r in rows ==> WantedSelector(q)(r) && Seen(h, first, last, r)
  }

  // A wanted row that stayed in the table is returned, unless it lies beyond a
  // full page.
  ghost predicate Complete(h: History, first: nat, last: nat, q: ValidatedRawLogQuery, rows: seq<Row>)
  {
    forall r :: WantedSelector(q)(r) && PresentThroughout(h, first, last, r) ==>
      r in rows || (|rows| == q.storeParams.limit && BeyondPage(rows, r))
  }

  // Everything at or above the scan cursor has been dealt with.
  ghost predicate ScannedTo(
      h: History, first: nat, last: nat, q: ValidatedRawLogQuery, rows: seq<Row>, cursor: Option<Key>)
  {
    && (forall r :: r in rows ==> !Beneath(cursor, r))
    && (forall r :: WantedSelector(q)(r) && PresentThroughout(h, first, last, r) && !Beneath(cursor, r) ==>
          r in rows || (|rows| == q.storeParams.limit && BeyondPage(rows, r)))
  }

  // Not yet scanned: with no cursor moved, nothing has been.
  predicate Beneath(cursor: Option<Key>, r: Row)
  {
    cursor.None? || Below(KeyOf(r), cursor.value)
  }

  // p is the base query continued strictly below the scan cursor.
  ghost predicate AtScan(base: RawLogQueryParams, p: RawLogQueryParams, scan: Option<Key>)
  {
    && p == base.(cursorOccurredAt := p.cursorOccurredAt, cursorLogId := p.cursorLogId)
    && (forall r :: Selector(p)(r) <==> Selector(base)(r) && Beneath(scan, r))
    && (scan.Some? ==> scan.value.time >= base.since && scan.value.id.Int? && scan.value.id.num >= 1)
  }

  function MoveCursor(p: RawLogQueryParams, tail: Row): RawLogQueryParams
    requires tail.id.Int?
  {
    p.(cursorOccurredAt := Some(tail.occurredAt), cursorLogId := Some(tail.id.num))
  }

  // Moving the cursor to a row found below it continues the same query.
  lemma AdvanceScan(base: RawLogQueryParams, p: RawLogQueryParams, scan: Option<Key>, tail: Row)
    requires AtScan(base, p, scan)
    requires Selector(p)(tail) && tail.id.Int? && tail.id.num >= 1
    ensures AtScan(base, MoveCursor(p, tail), Some(KeyOf(tail)))
    ensures Beneath(scan, tail)
  {
    var moved := MoveCursor(p, tail);
    forall r
      ensures Selector(moved)(r) <==> Selector(base)(r) && Below(KeyOf(r), KeyOf(tail))
    {
      if Below(KeyOf(r), KeyOf(tail)) && Cursor(base).Some? {
        assert Selector(base)(tail);
        BelowTransitive(KeyOf(r), KeyOf(tail), Cursor(base).value);
      }
    }
  }

  // One store page folded into what was collected so far.
  lemma FoldPage(
      h: History, first: nat, k: nat, q: ValidatedRawLogQuery, done: seq<Row>, scan: Option<Key>,
      p: RawLogQueryParams, page: seq<Row>, out: seq<Row>)
    requires first <= k && ValidTable(h(k)) && |done| < q.storeParams.limit
    requires Sound(h, first, k, q, done) && ScannedTo(h, first, k, q, done, scan)
    requires AtScan(q.storeParams, p, scan)
    requires page == Take(Listing(Selector(p), h(k).rows), p.limit)
    requires out == done + Take(ApplyFilters(page, q), q.storeParams.limit - |done|)
    ensures |out| <= q.storeParams.limit
    ensures Sound(h, first, k + 1, q, out)
    ensures |page| < p.limit ==> Complete(h, first, k + 1, q, out)
    ensures |page| == p.limit ==> ScannedTo(h, first, k + 1, q, out, Some(KeyOf(page[|page| - 1])))
  {
    var kept := ApplyFilters(page, q);
    StorePage(h(k).rows, q, scan, p, page);
    FoldSound(h, first, k, q, done, scan, page, kept, out);
    FoldCovered(h, first, k, q, done, scan, page, kept, out);
    if |page| == p.limit {
      FoldAbove(h(k).rows, q, done, scan, page, kept, out);
      CoveredScanned(h, first, k + 1, q, page, out);
    } else {
      CoveredComplete(h, first, k + 1, q, page, out);
    }
  }

  // A wanted row that stayed is collected, beyond a full answer, or beyond a
  // full page.
  ghost predicate Covered(h: History, first: nat, last: nat, q: ValidatedRawLogQuery, page: seq<Row>, out: seq<Row>)
  {
    forall r :: WantedSelector(q)(r) && PresentThroughout(h, first, last, r) ==>
      || r in out
      || (|out| == q.storeParams.limit && BeyondPage(out, r))
      || (|page| == q.storeParams.limit && BeyondPage(page, r))
  }

  lemma FoldCovered(
      h: History, first: nat, k: nat, q: ValidatedRawLogQuery, done: seq<Row>, scan: Option<Key>,
      page: seq<Row>, kept: seq<Row>, out: seq<Row>)
    requires first <= k && |done| < q.storeParams.limit
    requires ScannedTo(h, first, k, q, done, scan)
    requires PageBelow(h(k).rows, q, scan, page, kept)
    requires out == done + Take(kept, q.storeParams.limit - |done|)
    ensures Covered(h, first, k + 1, q, page, out)
  {
    forall r | WantedSelector(q)(r) && PresentThroughout(h, first, k + 1, r)
      ensures || r in out
              || (|out| == q.storeParams.limit && BeyondPage(out, r))
              || (|page| == q.storeParams.limit && BeyondPage(page, r))
    {
      FoldCovers(h, first, k, q, done, scan, page, kept, out, r);
    }
  }

  lemma CoveredComplete(h: History, first: nat, last: nat, q: ValidatedRawLogQuery, page: seq<Row>, out: seq<Row>)
    requires Covered(h, first, last, q, page, out) && |page| < q.storeParams.limit
    ensures Complete(h, first, last, q, out)
  {
  }

  lemma CoveredScanned(h: History, first: nat, last: nat, q: ValidatedRawLogQuery, page: seq<Row>, out: seq<Row>)
    requires Covered(h, first, last, q, page, out) && page != []
    requires forall r :: r in out ==> !Beneath(Some(KeyOf(page[|page| - 1])), r)
    ensures ScannedTo(h, first, last, q, out, Some(KeyOf(page[|page| - 1])))
  {
  }

  lemma StorePage(rows: seq<Row>, q: ValidatedRawLogQuery, scan: Option<Key>, p: RawLogQueryParams, page: seq<Row>)
    requires UniqueIds(rows) && q.storeParams.limit > 0
    requires AtScan(q.storeParams, p, scan)
    requires page == Take(Listing(Selector(p), rows), p.limit)
    ensures PageBelow(rows, q, scan, page, ApplyFilters(page, q))
  {
    PageMeaning(p, rows);
    ApplyFiltersMeaning(page, q);
  }

  lemma FoldAbove(
    rows: seq<Row>, q: ValidatedRawLogQuery, done: seq<Row>, scan: Option<Key>, page: seq<Row>, kept: seq<Row>,
    out: seq<Row>)
    requires |done| < q.storeParams.limit && page != []
    requires forall r :: r in done ==> !Beneath(scan, r)
    requires PageBelow(rows, q, scan, page, kept)
    requires out == done + Take(kept, q.storeParams.limit - |done|)
    ensures forall r :: r in out ==> !Beneath(Some(KeyOf(page[|page| - 1])), r)
  {
    var added := Take(kept, q.storeParams.limit - |done|);
    TakeMeaning(kept, q.storeParams.limit - |done|);
    forall r | r in out
      ensures !Beneath(Some(KeyOf(page[|page| - 1])), r)
    {
      LastIsLeast(page, done, added, scan, r);
    }
  }

  // The facts about one store page that the fold needs.
  ghost predicate PageBelow(rows: seq<Row>, q: ValidatedRawLogQuery, scan: Option<Key>, page: seq<Row>, kept: seq<Row>)
  {
    && Descending(page) && Descending(kept)
    && (forall r :: r in page ==> r in rows && Selector(q.storeParams)(r) && Beneath(scan, r))
    && (forall r :: r in rows && Selector(q.storeParams)(r) && Beneath(scan, r) ==>
          r in page || (|page| == q.storeParams.limit && BeyondPage(page, r)))
    && (forall r :: r in kept <==> r in page && ServiceKeeps(q, r))
  }

  lemma FoldSound(
      h: History, first: nat, k: nat, q: ValidatedRawLogQuery, done: seq<Row>, scan: Option<Key>,
      page: seq<Row>, kept: seq<Row>, out: seq<Row>)
    requires first <= k && |done| < q.storeParams.limit
    requires Sound(h, first, k, q, done) && forall r :: r in done ==> !Beneath(scan, r)
    requires PageBelow(h(k).rows, q, scan, page, kept)
    requires out == done + Take(kept, q.storeParams.limit - |done|)
    ensures Sound(h, first, k + 1, q, out)
  {
    var added := Take(kept, q.storeParams.limit - |done|);
    TakeMeaning(kept, q.storeParams.limit - |done|);
    forall x, y | x in added && y in done
      ensures Below(KeyOf(x), KeyOf(y))
    {
      AboveTransitive(x, scan.value, y);
    }
    AppendDescending(done, added);
    SeenGrows(h, first, k, done);
    forall r | r in added
      ensures WantedSelector(q)(r) && Seen(h, first, k + 1, r)
    {
      assert r in h(k).rows;
    }
  }

  lemma SeenGrows(h: History, first: nat, k: nat, rows: seq<Row>)
    ensures forall r :: r in rows && Seen(h, first, k, r) ==> Seen(h, first, k + 1, r)
  {
  }

  lemma FoldCovers(
      h: History, first: nat, k: nat, q: ValidatedRawLogQuery, done: seq<Row>, scan: Option<Key>,
      page: seq<Row>, kept: seq<Row>, out: seq<Row>, r: Row)
    requires first <= k && |done| < q.storeParams.limit
    requires ScannedTo(h, first, k, q, done, scan)
    requires PageBelow(h(k).rows, q, scan, page, kept)
    requires out == done + Take(kept, q.storeParams.limit - |done|)
    requires WantedSelector(q)(r) && PresentThroughout(h, first, k + 1, r)
    ensures || r in out
            || (|out| == q.storeParams.limit && BeyondPage(out, r))
            || (|page| == q.storeParams.limit && BeyondPage(page, r))
  {
    assert PresentThroughout(h, first, k, r);
    if !Beneath(scan, r) {
      assert r in done;
    } else {
      assert r in h(k).rows;
      if r in page {
        TakeMeaning(kept, q.storeParams.limit - |done|);
        var added := Take(kept, q.storeParams.limit - |done|);
        if r !in added {
          assert out[|out| - 1] == added[|added| - 1];
        }
      }
    }
  }

  lemma LastIsLeast(page: seq<Row>, done: seq<Row>, added: seq<Row>, scan: Option<Key>, r: Row)
    requires page != [] && Descending(page)
    requires forall x :: x in added ==> x in page
    requires forall x :: x in page ==> Beneath(scan, x)
    requires forall x :: x in done ==> !Beneath(scan, x)
    requires r in done + added
    ensures !Below(KeyOf(r), KeyOf(page[|page| - 1]))
  {
    var last := page[|page| - 1];
    assert last in page;
    if r in done {
      AboveTransitive(last, scan.value, r);
      BelowTotal(KeyOf(last), KeyOf(r));
    } else {
      var i :| 0 <= i < |page| && page[i] == r;
      BelowTotal(KeyOf(last), KeyOf(r));
    }
  }

  // ---------- the service call ----------

  // What a call answers when its store queries are numbers first .. last - 1.
  ghost predicate Answers(h: History, first: nat, last: nat, q: ValidatedRawLogQuery, items: seq<Row>)
  {
    && |items| <= q.storeParams.limit
    && Sound(h, first, last, q, items)
    && Complete(h, first, last, q, items)
    // On a table that does not change meanwhile: filter everything, sort, take.
    && ((forall k: nat :: first <= k < last ==> h(k) == h(first)) ==>
          items == Take(Listing(WantedSelector(q), h(first).rows), q.storeParams.limit))
  }

  // The loop's state between store queries.
  ghost predicate Scanning(
      h: History, first: nat, last: nat, q: ValidatedRawLogQuery, items: seq<Row>, p: RawLogQueryParams, scan: Option<Key>)
  {
    && |items| <= q.storeParams.limit
    && Sound(h, first, last, q, items)
    && ScannedTo(h, first, last, q, items, scan)
    && AtScan(q.storeParams, p, scan)
    && (first < last <==> scan.Some?)
  }

  lemma StartScan(h: History, first: nat, q: ValidatedRawLogQuery)
    ensures Scanning(h, first, first, q, [], q.storeParams, None)
  {
  }

  lemma Round(
      h: History, first: nat, k: nat, q: ValidatedRawLogQuery, done: seq<Row>, p: RawLogQueryParams, scan: Option<Key>,
      page: seq<Row>, out: seq<Row>)
    requires first <= k && ValidTable(h(first)) && ValidTable(h(k)) && |done| < q.storeParams.limit
    requires Scanning(h, first, k, q, done, p, scan)
    requires page == Take(Listing(Selector(p), h(k).rows), p.limit)
    requires out == done + Take(ApplyFilters(page, q), q.storeParams.limit - |done|)
    ensures |page| < p.limit ==> Answers(h, first, k + 1, q, out)
    ensures |page| == p.limit ==>
              var tail := page[|page| - 1];
              && tail.id.Int? && tail.id.num >= 1 && Beneath(scan, tail)
              && Scanning(h, first, k + 1, q, out, MoveCursor(p, tail), Some(KeyOf(tail)))
  {
    FoldPage(h, first, k, q, done, scan, p, page, out);
    if |page| < p.limit {
      StaticPage(h, first, k + 1, q, out);
    } else {
      PageRow(h, k, p, page);
      AdvanceScan(q.storeParams, p, scan, page[|page| - 1]);
    }
  }

  lemma FullPage(
      h: History, first: nat, last: nat, q: ValidatedRawLogQuery, items: seq<Row>, p: RawLogQueryParams, scan: Option<Key>)
    requires ValidTable(h(first)) && 0 < |items| == q.storeParams.limit
    requires Scanning(h, first, last, q, items, p, scan)
    ensures first < last && Answers(h, first, last, q, items)
  {
    assert items[0] in items;
    ScanIsComplete(h, first, last, q, items, scan);
    StaticPage(h, first, last, q, items);
  }

  // get_agent_raw_logs, with the table changing freely between store queries.
  // It always terminates: every query starts strictly below the previous page.
  method GetAgentRawLogs(clock: Clock, h: History, first: nat, q: ValidatedRawLogQuery)
      returns (items: seq<Row>, next: Option<string>, last: nat)
    requires q.storeParams.limit > 0
    requires forall k: nat :: ValidTable(h(k))
    ensures first < last && Answers(h, first, last, q, items)
    ensures next == BuildNextCursor(clock, items, q.storeParams.limit)
    ensures forall r :: WantedSelector(q)(r) <==> LogMatches(q, r)
  {
    forall r
      ensures WantedSelector(q)(r) <==> LogMatches(q, r)
    {
      WantedMeaning(q, r);
    }
    var limit := q.storeParams.limit;
    var params := q.storeParams;
    items, last := [], first;
    ghost var scan: Option<Key> := None;
    StartScan(h, first, q);
    while |items| < limit
      invariant first <= last && Scanning(h, first, last, q, items, params, scan)
      decreases scan.None?,
                if scan.Some? then scan.value.time - params.since else 0,
                if scan.Some? then scan.value.id.num else 0
    {
      // An empty page is the shortest of the short pages that end the scan.
      var rows := QueryRawLogs(h(last), params);
      ghost var before := items;
      items := items + Take(ApplyFilters(rows, q), limit - |items|);
      Round(h, first, last, q, before, params, scan, rows, items);
      last := last + 1;
      if |rows| < params.limit {
        next := BuildNextCursor(clock, items, limit);
        return;
      }
      var tail := rows[|rows| - 1];
      params, scan := MoveCursor(params, tail), Some(KeyOf(tail));
    }
    FullPage(h, first, last, q, items, params, scan);
    next := BuildNextCursor(clock, items, limit);
  }

  method QueryRawLogs(t: Table, p: RawLogQueryParams) returns (rows: seq<Row>)
    ensures rows == Take(Listing(Selector(p), t.rows), p.limit)
  {
    var statement, values := BuildRawLogQuery(p);
    rows := Execute(statement, values, t.rows, []).value;
  }

  lemma PageRow(h: History, k: nat, p: RawLogQueryParams, rows: seq<Row>)
    requires ValidTable(h(k)) && rows != []
    requires rows == Take(Listing(Selector(p), h(k).rows), p.limit)
    ensures var tail := rows[|rows| - 1];
            Selector(p)(tail) && tail.id.Int? && tail.id.num >= 1
  {
    PageMeaning(p, h(k).rows);
    assert rows[|rows| - 1] in rows;
  }

  lemma ScanIsComplete(h: History, first: nat, last: nat, q: ValidatedRawLogQuery, rows: seq<Row>, scan: Option<Key>)
    requires rows != [] && |rows| == q.storeParams.limit && scan.Some?
    requires ScannedTo(h, first, last, q, rows, scan)
    ensures Complete(h, first, last, q, rows)
  {
    var tail := rows[|rows| - 1];
    assert tail in rows;
    forall r | Beneath(scan, r)
      ensures BeyondPage(rows, r)
    {
      AboveTransitive(r, scan.value, tail);
    }
  }

  // On an unchanging table a sound and complete page is the head of the sorted,
  // filtered table.
  lemma StaticPage(h: History, first: nat, last: nat, q: ValidatedRawLogQuery, rows: seq<Row>)
    requires first < last && ValidTable(h(first)) && |rows| <= q.storeParams.limit
    requires Sound(h, first, last, q, rows) && Complete(h, first, last, q, rows)
    ensures (forall k: nat :: first <= k < last ==> h(k) == h(first)) ==>
              rows == Take(Listing(WantedSelector(q), h(first).rows), q.storeParams.limit)
  {
    if forall k: nat :: first <= k < last ==> h(k) == h(first) {
      var all := Listing(WantedSelector(q), h(first).rows);
      ListingMeaning(WantedSelector(q), h(first).rows);
      forall r
        ensures r in rows ==> r in all
        ensures r in all ==> r in rows || (|rows| == q.storeParams.limit && BeyondPage(rows, r))
      {
        if r in all {
          assert PresentThroughout(h, first, last, r);
        }
      }
      HeadOfListing(rows, all, q.storeParams.limit);
    }
  }

  lemma NonemptyWithin(a: seq<Row>, b: seq<Row>)
    requires forall r :: r in a ==> r in b
    ensures a != [] ==> b != []
  {
    if a != [] {
      assert a[0] in b;
    }
  }

  lemma {:induction false} HeadOfListing(rows: seq<Row>, all: seq<Row>, limit: nat)
    requires Descending(rows) && Descending(all) && |rows| <= limit
    requires forall r :: r in rows ==> r in all
    requires forall r :: r in all ==> r in rows || (|rows| == limit && BeyondPage(rows, r))
    ensures rows == Take(all, limit)
  {
    if rows == [] {
      NonemptyWithin(all, rows);
    } else {
      assert rows[0] in rows && rows[0] in all;
      assert all[0] in all;
      HeadIsGreatest(all, rows[0]);
      if all[0] in rows {
        HeadIsGreatest(rows, all[0]);
      } else {
        var tail := rows[|rows| - 1];
        if |rows| > 1 {
          BelowTransitive(KeyOf(all[0]), KeyOf(tail), KeyOf(rows[0]));
        }
      }
      BelowTotal(KeyOf(rows[0]), KeyOf(all[0]));
      assert rows[0] == all[0];
      forall r
        ensures r in rows[1..] ==> r in all[1..]
        ensures r in all[1..] ==> r in rows[1..] || (|rows[1..]| == limit - 1 && (rows[1..] != [] ==> BeyondPage(rows[1..], r)))
      {
        TailMembers(rows, r);
        TailMembers(all, r);
      }
      if limit > 1 {
        HeadOfListing(rows[1..], all[1..], limit - 1);
      }
      assert rows == [rows[0]] + rows[1..] && all == [all[0]] + all[1..];
    }
  }

  // ---------- the walk over pages ----------

  // What the pages read so far add up to; scan is the last row of the last page.
  ghost predicate Collected(h: History, last: nat, q: ValidatedRawLogQuery, all: seq<Row>, scan: Option<Key>)
  {
    && Sound(h, 0, last, q, all)
    && (forall r :: r in all ==> !Beneath(scan, r))
    && (forall r :: WantedSelector(q)(r) && PresentThroughout(h, 0, last, r) && !Beneath(scan, r) ==> r in all)
  }

  ghost predicate FullyCollected(h: History, last: nat, q: ValidatedRawLogQuery, all: seq<Row>)
  {
    && Sound(h, 0, last, q, all)
    && forall r :: WantedSelector(q)(r) && PresentThroughout(h, 0, last, r) ==> r in all
  }

  // A page read at the cursor extends what was collected before it.
  lemma CollectPage(
      h: History, first: nat, last: nat, q: ValidatedRawLogQuery, all: seq<Row>, scan: Option<Key>,
      at: ValidatedRawLogQuery, items: seq<Row>)
    requires first < last && Collected(h, first, q, all, scan)
    requires at == q.(storeParams := at.storeParams) && AtScan(q.storeParams, at.storeParams, scan)
    requires Sound(h, first, last, at, items) && Complete(h, first, last, at, items)
    requires |items| <= q.storeParams.limit
    ensures Sound(h, 0, last, q, all + items)
    ensures |items| < q.storeParams.limit ==> FullyCollected(h, last, q, all + items)
    ensures items != [] && |items| == q.storeParams.limit ==>
              Collected(h, last, q, all + items, Some(KeyOf(items[|items| - 1])))
  {
    forall r
      ensures WantedSelector(at)(r) <==> WantedSelector(q)(r) && Beneath(scan, r)
    {
      assert Selector(at.storeParams)(r) <==> Selector(q.storeParams)(r) && Beneath(scan, r);
    }
    forall x, y | x in items && y in all
      ensures Below(KeyOf(x), KeyOf(y))
    {
      AboveTransitive(x, scan.value, y);
    }
    AppendDescending(all, items);
    forall r | r in all + items
      ensures Seen(h, 0, last, r)
    {
      if r in all {
        assert Seen(h, 0, first, r);
      } else {
        assert Seen(h, first, last, r);
      }
    }
    forall r | WantedSelector(q)(r) && PresentThroughout(h, 0, last, r)
      ensures r in all + items || (|items| == q.storeParams.limit && BeyondPage(items, r))
    {
      assert PresentThroughout(h, 0, first, r) && PresentThroughout(h, first, last, r);
    }
    if items != [] {
      forall r | r in all + items
        ensures !Below(KeyOf(r), KeyOf(items[|items| - 1]))
      {
        LastIsLeast(items, all, items, scan, r);
      }
    }
  }

  // A client that feeds every next_cursor back until there is none, while other
  // clients insert and expire rows between any two store queries, never sees a
  // row twice and sees every matching row that stayed in the table.
  method WalkRawLogs(clock: Clock, h: History, q: ValidatedRawLogQuery) returns (all: seq<Row>, last: nat)
    requires Faithful(clock) && LegalHistory(h) && q.storeParams.limit > 0
    ensures UniqueIds(all) && Descending(all)
    ensures forall r :: r in all ==> WantedSelector(q)(r) && Seen(h, 0, last, r)
    ensures forall r :: WantedSelector(q)(r) && PresentThroughout(h, 0, last, r) ==> r in all
    ensures forall r :: r in all ==> LogMatches(q, r)
    ensures forall r :: LogMatches(q, r) && PresentThroughout(h, 0, last, r) ==> r in all
    ensures forall i, j :: 0 <= i < j < |all| ==> all[i].occurredAt >= all[j].occurredAt
  {
    forall r
      ensures WantedSelector(q)(r) <==> LogMatches(q, r)
    {
      WantedMeaning(q, r);
    }
    all, last := [], 0;
    var at := q;
    ghost var scan: Option<Key> := None;
    while true
      invariant at == q.(storeParams := at.storeParams) && AtScan(q.storeParams, at.storeParams, scan)
      invariant Collected(h, last, q, all, scan)
      decreases scan.None?,
                if scan.Some? then scan.value.time - q.storeParams.since else 0,
                if scan.Some? then scan.value.id.num else 0
    {
      var first := last;
      var items, next;
      items, next, last := GetAgentRawLogs(clock, h, first, at);
      CollectPage(h, first, last, q, all, scan, at, items);
      all := all + items;
      if next.None? {
        WalkedIdsUnique(h, last, all);
        return;
      }
      NextScan(clock, h, first, last, q, at, scan, items);
      var cursor := ParseRawLogCursor(clock, OptionalText(next.value)).value;
      at := at.(storeParams := at.storeParams.(cursorOccurredAt := cursor.0, cursorLogId := cursor.1));
      scan := Some(KeyOf(items[|items| - 1]));
    }
  }

  // The cursor text of a full page, parsed, continues the query below its last row.
  lemma NextScan(
      clock: Clock, h: History, first: nat, last: nat, q: ValidatedRawLogQuery, at: ValidatedRawLogQuery,
      scan: Option<Key>, items: seq<Row>)
    requires Faithful(clock) && LegalHistory(h) && items != [] && Sound(h, first, last, at, items)
    requires AtScan(q.storeParams, at.storeParams, scan) && BuildNextCursor(clock, items, q.storeParams.limit).Some?
    ensures var tail := items[|items| - 1];
            && tail.id.Int? && tail.id.num >= 1 && Beneath(scan, tail)
            && ParseRawLogCursor(clock, OptionalText(BuildNextCursor(clock, items, q.storeParams.limit).value))
               == Ok((Some(tail.occurredAt), Some(tail.id.num)))
            && AtScan(q.storeParams, MoveCursor(at.storeParams, tail), Some(KeyOf(tail)))
  {
    var tail := items[|items| - 1];
    ReturnedRow(h, first, last, at, items);
    RawLogCursorRoundTrip(clock, tail.occurredAt, tail.id.num);
    AdvanceScan(q.storeParams, at.storeParams, scan, tail);
  }

  lemma ReturnedRow(h: History, first: nat, last: nat, q: ValidatedRawLogQuery, items: seq<Row>)
    requires LegalHistory(h) && items != [] && Sound(h, first, last, q, items)
    ensures var tail := items[|items| - 1];
            Selector(q.storeParams)(tail) && tail.id.Int? && tail.id.num >= 1
  {
    var tail := items[|items| - 1];
    assert tail in items;
    var k: nat :| first <= k < last && tail in h(k).rows;
    assert ValidTable(h(k));
  }

  lemma WalkedIdsUnique(h: History, last: nat, rows: seq<Row>)
    requires LegalHistory(h) && Descending(rows)
    requires forall r :: r in rows ==> Seen(h, 0, last, r)
    ensures UniqueIds(rows)
  {
    forall i, j | 0 <= i < j < |rows|
      ensures rows[i].id != rows[j].id
    {
      assert rows[i] in rows && rows[j] in rows;
      var a: nat :| 0 <= a < last && rows[i] in h(a).rows;
      var b: nat :| 0 <= b < last && rows[j] in h(b).rows;
      if rows[i].id == rows[j].id {
        WriteOnce(h, a, rows[i], b, rows[j]);
        BelowTotal(KeyOf(rows[i]), KeyOf(rows[j]));
      }
    }
  }
}
