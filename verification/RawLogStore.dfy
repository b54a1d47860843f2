// The raw-log table: inserts, expiry and the compiled page query
// (src/core/agent_log_analysis/store_raw_logs.py, schema.sql).
module RawLogStore {

  import opened Wrappers
  import opened SqlModel
  import opened SqlBuilder

  datatype RawLogQueryParams = RawLogQueryParams(
    agentSlug: string,
    since: int,
    until: int,
    limit: nat,
    cursorOccurredAt: Option<int>,
    cursorLogId: Option<int>,
    runId: Option<string>,
    threadId: Option<string>,
    correlationId: Option<string>)

  // log_id is BIGSERIAL: ids are handed out in increasing order from 1.
  datatype Table = Table(rows: seq<Row>, nextId: int)

  ghost predicate ValidTable(t: Table)
  {
    && t.nextId >= 1
    && UniqueIds(t.rows)
    && forall r :: r in t.rows ==> r.id.Int? && 1 <= r.id.num < t.nextId
  }

  // What any number of inserts and expiry deletes can do to the table: rows
  // never change, and new rows carry ids not handed out before.
  ghost predicate Evolves(a: Table, b: Table)
  {
    && a.nextId <= b.nextId
    && forall r :: r in b.rows ==> r in a.rows || (r.id.Int? && a.nextId <= r.id.num)
  }

  lemma EvolvesTransitive(a: Table, b: Table, c: Table)
    requires Evolves(a, b) && Evolves(b, c)
    ensures Evolves(a, c)
  {
  }

  // ---------- what a store query asks for ----------

  function Cursor(p: RawLogQueryParams): Option<Key>
  {
    if p.cursorOccurredAt.Some? && p.cursorLogId.Some?
    then Some(Key(p.cursorOccurredAt.value, Int(p.cursorLogId.value)))
    else None
  }

  predicate OptionalColumn(r: Row, col: string, text: Option<string>)
  {
    text.Some? ==> ColumnEquals(r, col, text.value)
  }

  predicate InScope(p: RawLogQueryParams, r: Row)
  {
    && ColumnEquals(r, "agent_slug", p.agentSlug)
    && p.since <= r.occurredAt <= p.until
    && OptionalColumn(r, "run_id", p.runId)
    && OptionalColumn(r, "thread_id", p.threadId)
    && OptionalColumn(r, "correlation_id", p.correlationId)
  }

  function Selector(p: RawLogQueryParams): Row -> bool
  {
    r => InScope(p, r) && AfterCursor(Cursor(p), r)
  }

  // A column is asked for and holds another text, or none.
  predicate Excluded(r: Row, col: string, text: Option<string>)
  {
    text.Some? && !(col in r.cols && r.cols[col] == Text(text.value))
  }

  // Every condition of a store query, column by column.
  predicate RowMatches(p: RawLogQueryParams, r: Row)
  {
    && "agent_slug" in r.cols && r.cols["agent_slug"] == Text(p.agentSlug)
    && p.since <= r.occurredAt && r.occurredAt <= p.until
    && !Excluded(r, "run_id", p.runId) && !Excluded(r, "thread_id", p.threadId)
    && !Excluded(r, "correlation_id", p.correlationId)
    && (p.cursorOccurredAt.Some? && p.cursorLogId.Some? ==>
          || r.occurredAt < p.cursorOccurredAt.value
          || (r.occurredAt == p.cursorOccurredAt.value && r.id.Int? && r.id.num < p.cursorLogId.value))
  }

  lemma SelectorMeaning(p: RawLogQueryParams, r: Row)
    ensures Selector(p)(r) <==> RowMatches(p, r)
  {
  }

  function OptionalFilters(p: RawLogQueryParams): seq<(string, string)>
  {
    (if p.runId.Some? then [("run_id", p.runId.value)] else [])
    + (if p.threadId.Some? then [("thread_id", p.threadId.value)] else [])
    + (if p.correlationId.Some? then [("correlation_id", p.correlationId.value)] else [])
  }

  predicate AllColumns(filters: seq<(string, string)>, r: Row)
  {
    forall f :: f in filters ==> ColumnEquals(r, f.0, f.1)
  }

  method AppendOptional(b: StatementBuilder, idx: nat, p: RawLogQueryParams) returns (next: nat)
    requires b.Valid() && idx == |b.values| + 1
    modifies b
    ensures b.Valid() && next == |b.values| + 1
    ensures forall r :: b.Accepts(r) <==> old(b.Accepts(r)) && AllColumns(OptionalFilters(p), r)
  {
    next := idx;
    var filters := OptionalFilters(p);
    for i := 0 to |filters|
      invariant b.Valid() && next == |b.values| + 1
      invariant forall r :: b.Accepts(r) <==> old(b.Accepts(r)) && AllColumns(filters[..i], r)
    {
      assert filters[..i + 1] == filters[..i] + [filters[i]];
      next := b.AppendColumn(next, filters[i].0, filters[i].1);
    }
    assert filters[..|filters|] == filters;
  }

  // The compiled statement returns, on every table, the page the parameters describe.
  method BuildRawLogQuery(p: RawLogQueryParams) returns (statement: Statement, values: seq<Value>)
    ensures Accepted(statement, values)
    ensures forall rows :: Execute(statement, values, rows, []) == Some(Take(Listing(Selector(p), rows), p.limit))
    ensures forall r :: Selector(p)(r) <==> RowMatches(p, r)
  {
    forall r
      ensures Selector(p)(r) <==> RowMatches(p, r)
    {
      SelectorMeaning(p, r);
    }
    var b := new StatementBuilder(SCOPE_CLAUSES, [Text(p.agentSlug), Int(p.since), Int(p.until)]);
    forall r
      ensures b.Valid() && (b.Accepts(r) <==> ColumnEquals(r, "agent_slug", p.agentSlug) && p.since <= r.occurredAt <= p.until)
    {
      ScopeClauses(p.agentSlug, p.since, p.until, r);
    }
    var idx := b.AppendCursor(4, Cursor(p));
    idx := AppendOptional(b, idx, p);
    ghost var vs := b.values;
    var limitPh := b.AppendLimit(p.limit);
    statement, values := Statement([], b.clauses, limitPh), b.values;
    forall r
      ensures ClausesBound(statement.clauses, |values|)
      ensures AllHold(statement.clauses, values, r) <==> Selector(p)(r)
    {
      AllHoldStable(b.clauses, vs, [Int(p.limit)], r);
      OptionalFiltersMeaning(p, r);
    }
    forall rows
      ensures Execute(statement, values, rows, []) == Some(Take(Listing(Selector(p), rows), p.limit))
    {
      FilterSame(r => ClausesBound(statement.clauses, |values|) && AllHold(statement.clauses, values, r), Selector(p), rows);
    }
  }

  lemma OptionalFiltersMeaning(p: RawLogQueryParams, r: Row)
    ensures AllColumns(OptionalFilters(p), r) <==>
            && OptionalColumn(r, "run_id", p.runId)
            && OptionalColumn(r, "thread_id", p.threadId)
            && OptionalColumn(r, "correlation_id", p.correlationId)
  {
    var fs := OptionalFilters(p);
    assert p.runId.Some? ==> ("run_id", p.runId.value) in fs;
    assert p.threadId.Some? ==> ("thread_id", p.threadId.value) in fs;
    assert p.correlationId.Some? ==> ("correlation_id", p.correlationId.value) in fs;
  }

  // ---------- the store ----------

  class RawLogTable {
    var rows: seq<Row>
    var nextId: int

    constructor ()
      ensures Valid() && State() == Table([], 1)
    {
      rows, nextId := [], 1;
    }

    ghost function State(): Table
      reads this
    {
      Table(rows, nextId)
    }

    ghost predicate Valid()
      reads this
    {
      ValidTable(State())
    }

    method InsertRawLog(occurredAt: int, cols: map<string, Value>) returns (logId: int)
      requires Valid()
      modifies this
      ensures Valid() && Evolves(old(State()), State())
      ensures rows == old(rows) + [Row(occurredAt, Int(logId), cols)]
      ensures forall r :: r in old(rows) ==> r.id != Int(logId)
    {
      logId := nextId;
      rows := rows + [Row(occurredAt, Int(logId), cols)];
      nextId := nextId + 1;
    }

    // DELETE ... WHERE occurred_at < cutoff; returns how many rows went.
    method DeleteExpiredRawLogs(cutoff: int) returns (deleted: nat)
      requires Valid()
      modifies this
      ensures Valid() && Evolves(old(State()), State())
      ensures forall r :: r in rows <==> r in old(rows) && r.occurredAt >= cutoff
      ensures deleted + |rows| == |old(rows)|
    {
      var unexpired := (r: Row) => r.occurredAt >= cutoff;
      var kept := Filter(unexpired, rows);
      FilterElements(unexpired, rows);
      FilterShrinks(unexpired, rows);
      deleted := |rows| - |kept|;
      rows := kept;
    }

    method QueryRawLogs(p: RawLogQueryParams) returns (page: seq<Row>)
      ensures page == Take(Listing(Selector(p), rows), p.limit)
    {
      var statement, values := BuildRawLogQuery(p);
      page := Execute(statement, values, rows, []).value;
    }
  }

  lemma {:induction false} FilterShrinks(p: Row -> bool, rows: seq<Row>)
    ensures |Filter(p, rows)| <= |rows|
  {
    if rows != [] {
      FilterShrinks(p, rows[1..]);
    }
  }
}
