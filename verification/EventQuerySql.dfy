// Compilation of an event query into parameterised SQL
// (src/core/agent_log_analysis/store_query_sql.py).
module EventQuerySql {

  import opened Wrappers
  import opened PyText
  import opened SqlModel
  import opened SqlBuilder

  const ALLOWED_FILTERS: set<string> := {
    "run_id", "thread_id", "correlation_id", "event_type", "status", "request_kind",
    "action_kind", "target_name", "target_agent_slug", "provider_name", "model_name"
  }

  // A Python dict is its items in insertion order.
  datatype EventQueryParams = EventQueryParams(
    agentSlug: string,
    since: int,
    until: int,
    limit: nat,
    cursorOccurredAt: Option<int>,
    cursorEventId: Option<string>,
    filters: seq<(string, string)>,
    labelFilters: seq<(string, string)>)

  // ---------- what a query asks for ----------

  predicate InScope(p: EventQueryParams, r: Row)
  {
    ColumnEquals(r, "agent_slug", p.agentSlug) && p.since <= r.occurredAt <= p.until
  }

  // Half a cursor is no cursor.
  function Cursor(p: EventQueryParams): Option<Key>
  {
    if p.cursorOccurredAt.Some? && p.cursorEventId.Some?
    then Some(Key(p.cursorOccurredAt.value, Text(p.cursorEventId.value)))
    else None
  }

  // A filter on a column that is not allowed is ignored.
  predicate FiltersHold(filters: seq<(string, string)>, r: Row)
  {
    forall f :: f in filters && f.0 in ALLOWED_FILTERS ==> ColumnEquals(r, f.0, f.1)
  }

  predicate HasLabel(labels: seq<Label>, r: Row, f: (string, string))
  {
    r.id.Text? && Label(r.id.text, f.0, f.1) in labels
  }

  predicate LabelsHold(fs: seq<(string, string)>, labels: seq<Label>, r: Row)
  {
    forall f :: f in fs ==> HasLabel(labels, r, f)
  }

  function LabelSelector(fs: seq<(string, string)>, labels: seq<Label>): Row -> bool
  {
    r => LabelsHold(fs, labels, r)
  }

  // The direct reading of a query: which events it selects.
  function Selector(p: EventQueryParams, labels: seq<Label>): Row -> bool
  {
    r => InScope(p, r) && AfterCursor(Cursor(p), r) && FiltersHold(p.filters, r) && LabelsHold(p.labelFilters, labels, r)
  }

  // PRIMARY KEY (event_id, label_key)
  predicate UniqueLabels(labels: seq<Label>)
  {
    forall i, j :: 0 <= i < j < |labels| ==>
      labels[i].eventId != labels[j].eventId || labels[i].key != labels[j].key
  }

  // ---------- evaluation facts ----------

  lemma {:induction false} JoinAllStable(
    js: seq<LabelJoin>, values: seq<Value>, more: seq<Value>, rows: seq<Row>, labels: seq<Label>)
    requires JoinsBound(js, |values|)
    ensures JoinsBound(js, |values + more|)
    ensures JoinAll(js, values + more, rows, labels) == JoinAll(js, values, rows, labels)
  {
    assert forall j :: j in js && JoinBound(j, |values|) ==> JoinBound(j, |values + more|);
    if js != [] {
      var j := js[|js| - 1];
      assert JoinBound(j, |values|);
      JoinAllStable(js[..|js| - 1], values, more, rows, labels);
    }
  }

  lemma {:induction false} LabelCountIsMembership(labels: seq<Label>, r: Row, f: (string, string))
    requires UniqueLabels(labels)
    ensures LabelCount(labels, r, Text(f.0), Text(f.1)) == if HasLabel(labels, r, f) then 1 else 0
  {
    if labels != [] {
      var head, tail := labels[0], labels[1..];
      assert labels == [head] + tail;
      LabelCountIsMembership(tail, r, f);
      assert forall i :: 0 <= i < |tail| ==> tail[i] == labels[i + 1];
    }
  }

  // Joining on one label is filtering by it, because a label key occurs at
  // most once per event.
  lemma {:induction false} JoinIsFilter(rows: seq<Row>, labels: seq<Label>, f: (string, string), sel: Row -> bool)
    requires UniqueLabels(labels)
    requires forall r :: sel(r) == HasLabel(labels, r, f)
    ensures JoinLabels(rows, labels, Text(f.0), Text(f.1)) == Filter(sel, rows)
  {
    if rows != [] {
      LabelCountIsMembership(labels, rows[0], f);
      JoinIsFilter(rows[1..], labels, f, sel);
    }
  }

  // One more join narrows the rows by one more label.
  lemma JoinStep(
      js: seq<LabelJoin>, j: LabelJoin, values: seq<Value>, f: (string, string), fs: seq<(string, string)>,
      rows: seq<Row>, labels: seq<Label>)
    requires JoinsBound(js, |values|)
    requires UniqueLabels(labels)
    requires JoinAll(js, values, rows, labels) == Filter(LabelSelector(fs, labels), rows)
    requires j.keyPh == |values| + 1 && j.valuePh == |values| + 2
    ensures var all := values + [Text(f.0), Text(f.1)];
            JoinsBound(js + [j], |all|) &&
            JoinAll(js + [j], all, rows, labels) == Filter(LabelSelector(fs + [f], labels), rows)
  {
    var all := values + [Text(f.0), Text(f.1)];
    assert forall x :: x in js && JoinBound(x, |values|) ==> JoinBound(x, |all|);
    assert (js + [j])[..|js|] == js;
    JoinAllStable(js, values, [Text(f.0), Text(f.1)], rows, labels);
    var one := (r: Row) => HasLabel(labels, r, f);
    var before := LabelSelector(fs, labels);
    JoinIsFilter(Filter(before, rows), labels, f, one);
    FilterTwice(one, before, rows);
    FilterSame(r => before(r) && one(r), LabelSelector(fs + [f], labels), rows);
  }

  // ---------- the builder ----------

  lemma {:induction false} KeepAll(p: Row -> bool, rows: seq<Row>)
    requires forall r :: r in rows ==> p(r)
    ensures Filter(p, rows) == rows
  {
    if rows != [] {
      KeepAll(p, rows[1..]);
    }
  }

  // ---------- the query in full ----------

  // The eleven columns that may be filtered on.
  predicate IsFilterColumn(col: string)
  {
    || col == "run_id" || col == "thread_id" || col == "correlation_id" || col == "event_type" || col == "status"
    || col == "request_kind" || col == "action_kind" || col == "target_name" || col == "target_agent_slug"
    || col == "provider_name" || col == "model_name"
  }

  // A row satisfies a list of filters when each one of them on such a column
  // finds its text there; any other filter changes nothing.
  ghost predicate SatisfiesFilters(filters: seq<(string, string)>, r: Row)
  {
    forall i :: 0 <= i < |filters| && IsFilterColumn(filters[i].0) ==>
      filters[i].0 in r.cols && r.cols[filters[i].0] == Text(filters[i].1)
  }

  // The cursor lies above the row: later, or at the same time with a greater id.
  ghost predicate UnderCursor(p: EventQueryParams, r: Row)
  {
    p.cursorOccurredAt.Some? && p.cursorEventId.Some? ==>
      || r.occurredAt < p.cursorOccurredAt.value
      || (r.occurredAt == p.cursorOccurredAt.value
          && (r.id.Int? || (r.id.Text? && TextLess(r.id.text, p.cursorEventId.value))))
  }

  ghost predicate LabelledAs(labels: seq<Label>, r: Row, key: string, value: string)
  {
    exists l :: l in labels && r.id == Text(l.eventId) && l.key == key && l.value == value
  }

  ghost predicate SatisfiesLabels(fs: seq<(string, string)>, labels: seq<Label>, r: Row)
  {
    forall i :: 0 <= i < |fs| ==> LabelledAs(labels, r, fs[i].0, fs[i].1)
  }

  // Every condition of the request, column by column.
  ghost predicate EventMatches(p: EventQueryParams, labels: seq<Label>, r: Row)
  {
    && "agent_slug" in r.cols && r.cols["agent_slug"] == Text(p.agentSlug)
    && p.since <= r.occurredAt <= p.until
    && UnderCursor(p, r)
    && SatisfiesFilters(p.filters, r)
    && SatisfiesLabels(p.labelFilters, labels, r)
  }

  lemma FilterColumns(col: string)
    ensures col in ALLOWED_FILTERS <==> IsFilterColumn(col)
  {
  }

  lemma FiltersMeaning(filters: seq<(string, string)>, r: Row)
    ensures FiltersHold(filters, r) <==> SatisfiesFilters(filters, r)
  {
    forall i | 0 <= i < |filters|
      ensures filters[i].0 in ALLOWED_FILTERS <==> IsFilterColumn(filters[i].0)
    {
      FilterColumns(filters[i].0);
    }
    if FiltersHold(filters, r) {
      assert forall i :: 0 <= i < |filters| ==> filters[i] in filters;
    }
  }

  lemma LabelsMeaning(fs: seq<(string, string)>, labels: seq<Label>, r: Row)
    ensures LabelsHold(fs, labels, r) <==> SatisfiesLabels(fs, labels, r)
  {
    forall i | 0 <= i < |fs|
      ensures HasLabel(labels, r, fs[i]) <==> LabelledAs(labels, r, fs[i].0, fs[i].1)
    {
      if HasLabel(labels, r, fs[i]) {
        assert Label(r.id.text, fs[i].0, fs[i].1) in labels;
      }
    }
    if LabelsHold(fs, labels, r) {
      assert forall i :: 0 <= i < |fs| ==> fs[i] in fs;
    }
  }

  // A query selects exactly the events that match it in full.
  lemma SelectorMeaning(p: EventQueryParams, labels: seq<Label>, r: Row)
    ensures Selector(p, labels)(r) <==> EventMatches(p, labels, r)
  {
    FiltersMeaning(p.filters, r);
    LabelsMeaning(p.labelFilters, labels, r);
  }

  // Newest first; events of the same time by descending id.
  ghost predicate NewestFirst(rows: seq<Row>)
  {
    forall i, j :: 0 <= i < j < |rows| ==>
      || rows[i].occurredAt > rows[j].occurredAt
      || (rows[i].occurredAt == rows[j].occurredAt
          && (rows[i].id.Text? && rows[j].id.Text? ==> TextLess(rows[j].id.text, rows[i].id.text)))
  }

  // What a page holds: matching events, newest first, and the newest of them.
  ghost predicate IsPage(p: EventQueryParams, rows: seq<Row>, labels: seq<Label>, page: seq<Row>)
  {
    && |page| <= p.limit && NewestFirst(page)
    && (forall r :: r in page ==> r in rows && EventMatches(p, labels, r))
    && (forall r :: r in rows && EventMatches(p, labels, r) && r !in page ==>
          |page| == p.limit && forall i :: 0 <= i < |page| ==> page[i].occurredAt >= r.occurredAt)
  }

  lemma ListingIsPage(p: EventQueryParams, rows: seq<Row>, labels: seq<Label>)
    requires UniqueIds(rows)
    ensures IsPage(p, rows, labels, Take(Listing(Selector(p, labels), rows), p.limit))
  {
    var all := Listing(Selector(p, labels), rows);
    ListingMeaning(Selector(p, labels), rows);
    forall r
      ensures Selector(p, labels)(r) <==> EventMatches(p, labels, r)
    {
      SelectorMeaning(p, labels, r);
    }
    var page := Take(all, p.limit);
    forall r | r in all && r !in page
      ensures |page| == p.limit && forall i :: 0 <= i < |page| ==> page[i].occurredAt >= r.occurredAt
    {
      var j :| 0 <= j < |all| && all[j] == r;
      assert j >= |page|;
    }
  }

  method AppendColumnFilters(b: StatementBuilder, idx: nat, filters: seq<(string, string)>) returns (next: nat)
    requires b.Valid() && idx == |b.values| + 1
    modifies b
    ensures b.Valid() && next == |b.values| + 1
    ensures forall r :: b.Accepts(r) <==> old(b.Accepts(r)) && FiltersHold(filters, r)
    ensures forall r :: FiltersHold(filters, r) <==> SatisfiesFilters(filters, r)
  {
    next := idx;
    for i := 0 to |filters|
      invariant b.Valid() && next == |b.values| + 1
      invariant forall r :: b.Accepts(r) <==> old(b.Accepts(r)) && FiltersHold(filters[..i], r)
    {
      var f := filters[i];
      assert filters[..i + 1] == filters[..i] + [f];
      if f.0 in ALLOWED_FILTERS {
        next := b.AppendColumn(next, f.0, f.1);
      }
    }
    assert filters[..|filters|] == filters;
    forall r
      ensures FiltersHold(filters, r) <==> SatisfiesFilters(filters, r)
    {
      FiltersMeaning(filters, r);
    }
  }

  // Joins are written apart from the WHERE clauses, so they only add parameters.
  method ApplyLabels(b: StatementBuilder, idx: nat, labelFilters: seq<(string, string)>) returns (joins: seq<LabelJoin>)
    requires b.Valid() && idx == |b.values| + 1
    modifies b`values
    ensures b.Valid() && JoinsBound(joins, |b.values|) && AliasesDistinct(joins)
    ensures forall r :: b.Accepts(r) <==> old(b.Accepts(r))
    ensures forall rows, labels | UniqueLabels(labels) ::
              JoinAll(joins, b.values, rows, labels) == Filter(LabelSelector(labelFilters, labels), rows)
  {
    joins := [];
    var next := idx;
    forall rows, labels: seq<Label>
      ensures Filter(LabelSelector([], labels), rows) == rows
    {
      KeepAll(LabelSelector([], labels), rows);
    }
    for i := 0 to |labelFilters|
      invariant b.Valid() && next == |b.values| + 1
      invariant JoinsBound(joins, |b.values|)
      invariant |joins| == i && forall k :: 0 <= k < i ==> joins[k].alias == k
      invariant forall r :: b.Accepts(r) <==> old(b.Accepts(r))
      invariant forall rows, labels | UniqueLabels(labels) ::
                  JoinAll(joins, b.values, rows, labels) == Filter(LabelSelector(labelFilters[..i], labels), rows)
    {
      var f := labelFilters[i];
      assert labelFilters[..i + 1] == labelFilters[..i] + [f];
      ghost var js, vs := joins, b.values;
      var j := LabelJoin(i, next, next + 1);
      joins := joins + [j];
      b.values := b.values + [Text(f.0), Text(f.1)];
      next := next + 2;
      forall r
        ensures b.Valid() && (b.Accepts(r) <==> AllHold(b.clauses, vs, r))
      {
        AllHoldStable(b.clauses, vs, [Text(f.0), Text(f.1)], r);
      }
      forall rows, labels | UniqueLabels(labels)
        ensures JoinAll(joins, b.values, rows, labels) == Filter(LabelSelector(labelFilters[..i + 1], labels), rows)
      {
        JoinStep(js, j, vs, f, labelFilters[..i], rows, labels);
      }
    }
    assert labelFilters[..|labelFilters|] == labelFilters;
  }

  // The compiled statement is accepted by the server and, on every event table
  // and every label table, returns exactly the page the query asks for.
  method BuildEventQuery(p: EventQueryParams) returns (statement: Statement, values: seq<Value>)
    ensures Accepted(statement, values)
    ensures forall rows, labels | UniqueLabels(labels) ::
              Execute(statement, values, rows, labels) == Some(Take(Listing(Selector(p, labels), rows), p.limit))
    ensures forall rows, labels | UniqueLabels(labels) && UniqueIds(rows) ::
              && Execute(statement, values, rows, labels).Some?
              && IsPage(p, rows, labels, Execute(statement, values, rows, labels).value)
  {
    var b := new StatementBuilder(SCOPE_CLAUSES, [Text(p.agentSlug), Int(p.since), Int(p.until)]);
    forall r
      ensures b.Valid() && (b.Accepts(r) <==> InScope(p, r))
    {
      ScopeClauses(p.agentSlug, p.since, p.until, r);
    }
    var idx := b.AppendCursor(4, Cursor(p));
    idx := AppendColumnFilters(b, idx, p.filters);
    var joins := ApplyLabels(b, idx, p.labelFilters);
    ghost var vs := b.values;
    var limitPh := b.AppendLimit(p.limit);
    statement, values := Statement(joins, b.clauses, limitPh), b.values;
    forall r
      ensures ClausesBound(statement.clauses, |values|)
      ensures AllHold(statement.clauses, values, r) <==> InScope(p, r) && AfterCursor(Cursor(p), r) && FiltersHold(p.filters, r)
    {
      AllHoldStable(b.clauses, vs, [Int(p.limit)], r);
    }
    JoinAllStable(joins, vs, [Int(p.limit)], [], []);
    forall rows, labels | UniqueLabels(labels)
      ensures Execute(statement, values, rows, labels) == Some(Take(Listing(Selector(p, labels), rows), p.limit))
    {
      JoinAllStable(joins, vs, [Int(p.limit)], rows, labels);
      WhereAfterJoin(statement, values, rows, labels, p);
    }
    forall rows, labels | UniqueLabels(labels) && UniqueIds(rows)
      ensures IsPage(p, rows, labels, Take(Listing(Selector(p, labels), rows), p.limit))
    {
      ListingIsPage(p, rows, labels);
    }
  }

  lemma WhereAfterJoin(s: Statement, values: seq<Value>, rows: seq<Row>, labels: seq<Label>, p: EventQueryParams)
    requires Accepted(s, values) && values[s.limitPh - 1] == Int(p.limit)
    requires JoinAll(s.joins, values, rows, labels) == Filter(LabelSelector(p.labelFilters, labels), rows)
    requires forall r ::
               AllHold(s.clauses, values, r) <==> InScope(p, r) && AfterCursor(Cursor(p), r) && FiltersHold(p.filters, r)
    ensures Execute(s, values, rows, labels) == Some(Take(Listing(Selector(p, labels), rows), p.limit))
  {
    var where := (r: Row) => ClausesBound(s.clauses, |values|) && AllHold(s.clauses, values, r);
    var lab := LabelSelector(p.labelFilters, labels);
    FilterTwice(where, lab, rows);
    FilterSame(r => lab(r) && where(r), Selector(p, labels), rows);
    assert Filter(where, JoinAll(s.joins, values, rows, labels)) == Filter(Selector(p, labels), rows);
  }

  // Each event is returned at most once, however many labels it carries.
  lemma PageHasNoDuplicates(p: EventQueryParams, rows: seq<Row>, labels: seq<Label>)
    requires UniqueIds(rows)
    ensures UniqueIds(Take(Listing(Selector(p, labels), rows), p.limit))
    ensures forall r :: r in Take(Listing(Selector(p, labels), rows), p.limit) ==> r in rows && Selector(p, labels)(r)
  {
    var all := Listing(Selector(p, labels), rows);
    ListingMeaning(Selector(p, labels), rows);
    forall i, j | 0 <= i < j < |all|
      ensures all[i].id != all[j].id
    {
      BelowTotal(KeyOf(all[i]), KeyOf(all[j]));
      assert all[i] in rows && all[j] in rows && all[i] != all[j];
    }
  }
}
