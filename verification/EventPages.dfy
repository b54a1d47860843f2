// Cursor-paginated event queries and the walk over all their pages
// (event_query_service.py, event_query_service_support.py).
module EventPages {

  import opened Wrappers
  import opened PyText
  import opened SqlModel
  import opened EventQuerySql
  import opened Cursors

  // Ingest stores event ids stripped and non-empty.
  predicate StoredEvents(rows: seq<Row>)
  {
    && UniqueIds(rows)
    && forall r :: r in rows ==> r.id.Text? && r.id.text != "" && Trimmed(r.id.text)
  }

  function BuildNextCursor(clock: Clock, rows: seq<Row>, limit: nat): Option<string>
  {
    if rows == [] || |rows| < limit then None
    else
      var last := rows[|rows| - 1];
      Some(CursorText(clock, last.occurredAt, if last.id.Text? then last.id.text else ""))
  }

  // One page of the query, compiled and executed against the two tables.
  method QueryAgentEvents(clock: Clock, rows: seq<Row>, labels: seq<Label>, p: EventQueryParams)
      returns (items: seq<Row>, next: Option<string>)
    requires UniqueLabels(labels)
    ensures items == Take(Listing(Selector(p, labels), rows), p.limit)
    ensures next == BuildNextCursor(clock, items, p.limit)
  {
    var statement, values := BuildEventQuery(p);
    items := Execute(statement, values, rows, labels).value;
    next := BuildNextCursor(clock, items, p.limit);
  }

  function AtCursor(p: EventQueryParams, time: int, id: string): EventQueryParams
  {
    p.(cursorOccurredAt := Some(time), cursorEventId := Some(id))
  }

  // Below the last row of a page: the query continued from that row.
  lemma CursorSelects(p: EventQueryParams, labels: seq<Label>, last: Row, r: Row)
    requires last.id.Text? && Selector(p, labels)(last)
    ensures Selector(AtCursor(p, last.occurredAt, last.id.text), labels)(r)
            <==> Selector(p, labels)(r) && Below(KeyOf(r), KeyOf(last))
  {
    if Below(KeyOf(r), KeyOf(last)) && Cursor(p).Some? {
      BelowTransitive(KeyOf(r), KeyOf(last), Cursor(p).value);
    }
  }

  // Moving the cursor to the last row of a full page leaves exactly the rest.
  lemma AdvanceCursor(p: EventQueryParams, rows: seq<Row>, labels: seq<Label>)
    requires StoredEvents(rows) && p.limit > 0
    requires |Listing(Selector(p, labels), rows)| >= p.limit
    ensures var all := Listing(Selector(p, labels), rows);
            var last := all[p.limit - 1];
            last.id.Text? && last in rows &&
            Listing(Selector(AtCursor(p, last.occurredAt, last.id.text), labels), rows) == all[p.limit..]
  {
    var sel := Selector(p, labels);
    var all := Listing(sel, rows);
    ListingMeaning(sel, rows);
    var last := all[p.limit - 1];
    assert last in all;
    ListingBelow(sel, rows, p.limit);
    var below := (r: Row) => sel(r) && Below(KeyOf(r), KeyOf(Listing(sel, rows)[p.limit - 1]));
    var next := Selector(AtCursor(p, last.occurredAt, last.id.text), labels);
    forall r | r in rows
      ensures next(r) == below(r)
    {
      CursorSelects(p, labels, last, r);
    }
    FilterSame(next, below, rows);
  }

  // What remains to be listed, after the rows gathered so far.
  ghost predicate Gathered(all: seq<Row>, q: EventQueryParams, p: EventQueryParams, rows: seq<Row>, labels: seq<Label>)
  {
    all + Listing(Selector(q, labels), rows) == Listing(Selector(p, labels), rows)
  }

  // A full page: the query continued from its last row lists what is left.
  lemma FullPage(
      rows: seq<Row>, labels: seq<Label>, p: EventQueryParams, q: EventQueryParams, all: seq<Row>, items: seq<Row>)
    requires StoredEvents(rows) && q.limit > 0 && |items| == q.limit
    requires Gathered(all, q, p, rows, labels)
    requires items == Take(Listing(Selector(q, labels), rows), q.limit)
    ensures var last := items[|items| - 1];
            && last in rows && last.id.Text?
            && Gathered(all + items, AtCursor(q, last.occurredAt, last.id.text), p, rows, labels)
            && |Listing(Selector(AtCursor(q, last.occurredAt, last.id.text), labels), rows)|
               < |Listing(Selector(q, labels), rows)|
  {
    var rest := Listing(Selector(q, labels), rows);
    AdvanceCursor(q, rows, labels);
    assert rest == items + rest[|items|..];
    assert all + rest == (all + items) + rest[|items|..];
  }

  lemma NextPage(
      clock: Clock, rows: seq<Row>, labels: seq<Label>, p: EventQueryParams, q: EventQueryParams,
      all: seq<Row>, items: seq<Row>)
    requires Faithful(clock) && StoredEvents(rows) && q.limit > 0
    requires Gathered(all, q, p, rows, labels)
    requires items == Take(Listing(Selector(q, labels), rows), q.limit)
    ensures var next := BuildNextCursor(clock, items, q.limit);
            match next
            case None => all + items == Listing(Selector(p, labels), rows)
            case Some(text) =>
              var last := items[|items| - 1];
              && last.id.Text?
              && ParseEventCursor(clock, OptionalText(text)) == Ok((Some(last.occurredAt), Some(last.id.text)))
              && Gathered(all + items, AtCursor(q, last.occurredAt, last.id.text), p, rows, labels)
              && |Listing(Selector(AtCursor(q, last.occurredAt, last.id.text), labels), rows)|
                 < |Listing(Selector(q, labels), rows)|
  {
    if |items| == q.limit {
      FullPage(rows, labels, p, q, all, items);
      var last := items[|items| - 1];
      EventCursorRoundTrip(clock, last.occurredAt, last.id.text);
    }
  }

  lemma WholeListing(p: EventQueryParams, rows: seq<Row>, labels: seq<Label>)
    requires UniqueIds(rows)
    ensures var all := Listing(Selector(p, labels), rows);
            NewestFirst(all) && forall r :: r in all <==> r in rows && EventMatches(p, labels, r)
  {
    ListingMeaning(Selector(p, labels), rows);
    forall r
      ensures Selector(p, labels)(r) <==> EventMatches(p, labels, r)
    {
      SelectorMeaning(p, labels, r);
    }
  }

  // A client that feeds every next_cursor back until there is none collects the
  // whole filtered list, newest first: nothing missing, nothing twice.
  method WalkEvents(clock: Clock, rows: seq<Row>, labels: seq<Label>, p: EventQueryParams) returns (all: seq<Row>)
    requires Faithful(clock) && StoredEvents(rows) && UniqueLabels(labels) && p.limit > 0
    ensures all == Listing(Selector(p, labels), rows)
    ensures NewestFirst(all) && forall r :: r in all <==> r in rows && EventMatches(p, labels, r)
  {
    WholeListing(p, rows, labels);
    all := [];
    var q := p;
    while true
      invariant q.limit == p.limit && Gathered(all, q, p, rows, labels)
      decreases |Listing(Selector(q, labels), rows)|
    {
      var items, next := QueryAgentEvents(clock, rows, labels, q);
      NextPage(clock, rows, labels, p, q, all, items);
      all := all + items;
      if next.None? {
        return;
      }
      var cursor := ParseEventCursor(clock, OptionalText(next.value)).value;
      q := AtCursor(q, cursor.0.value, cursor.1.value);
    }
  }
}
