// A small relational model: rows, parameterised statements with $n
// placeholders, and an evaluator for the SELECTs the log store sends.
// Timestamps are integers (microseconds); text compares by code point.
module SqlModel {

  import opened Wrappers
  import opened PyText

  datatype Value = Text(text: string) | Int(num: int)

  // occurred_at and the primary key are NOT NULL; every other column lives in
  // cols, where an absent column is NULL.
  datatype Row = Row(occurredAt: int, id: Value, cols: map<string, Value>)

  datatype Key = Key(time: int, id: Value)

  datatype Label = Label(eventId: string, key: string, value: string)

  function KeyOf(r: Row): Key
  {
    Key(r.occurredAt, r.id)
  }

  // ---------- the order of keys ----------

  predicate ValueLess(a: Value, b: Value)
  {
    match (a, b)
    case (Int(x), Int(y)) => x < y
    case (Text(x), Text(y)) => TextLess(x, y)
    case (Int(_), Text(_)) => true
    case (Text(_), Int(_)) => false
  }

  // The row comparison (occurred_at, id) < (occurred_at, id).
  predicate Below(a: Key, b: Key)
  {
    a.time < b.time || (a.time == b.time && ValueLess(a.id, b.id))
  }

  lemma BelowTotal(a: Key, b: Key)
    ensures !(Below(a, b) && Below(b, a))
    ensures a == b <==> !Below(a, b) && !Below(b, a)
  {
    if a.id.Text? && b.id.Text? {
      TextLessTotal(a.id.text, b.id.text);
    }
  }

  lemma BelowTransitive(a: Key, b: Key, c: Key)
    requires Below(a, b) && Below(b, c)
    ensures Below(a, c)
  {
    if a.id.Text? && b.id.Text? && c.id.Text? && TextLess(a.id.text, b.id.text) && TextLess(b.id.text, c.id.text) {
      TextLessTransitive(a.id.text, b.id.text, c.id.text);
    }
  }

  // ---------- statements ----------

  // $n is written as the number n, counted from 1 as in PostgreSQL.
  datatype Clause =
    | TimeFrom(ph: nat)                    // occurred_at >= $ph
    | TimeTo(ph: nat)                      // occurred_at <= $ph
    | KeyBelow(timePh: nat, idPh: nat)     // (occurred_at, id) < ($timePh, $idPh)
    | ColumnIs(col: string, ph: nat)       // col = $ph

  // JOIN labels lbl<alias> ON lbl<alias>.event_id = e.event_id
  //   AND lbl<alias>.label_key = $keyPh AND lbl<alias>.label_value = $valuePh
  datatype LabelJoin = LabelJoin(alias: nat, keyPh: nat, valuePh: nat)

  // SELECT e.* FROM ... WHERE ... ORDER BY occurred_at DESC, id DESC LIMIT $limitPh
  datatype Statement = Statement(joins: seq<LabelJoin>, clauses: seq<Clause>, limitPh: nat)

  predicate InRange(ph: nat, n: nat)
  {
    1 <= ph <= n
  }

  predicate ClauseBound(c: Clause, n: nat)
  {
    match c
    case TimeFrom(ph) => InRange(ph, n)
    case TimeTo(ph) => InRange(ph, n)
    case KeyBelow(p, q) => InRange(p, n) && InRange(q, n)
    case ColumnIs(_, ph) => InRange(ph, n)
  }

  predicate JoinBound(j: LabelJoin, n: nat)
  {
    InRange(j.keyPh, n) && InRange(j.valuePh, n)
  }

  predicate ClausesBound(cs: seq<Clause>, n: nat)
  {
    forall c :: c in cs ==> ClauseBound(c, n)
  }

  predicate JoinsBound(js: seq<LabelJoin>, n: nat)
  {
    forall j :: j in js ==> JoinBound(j, n)
  }

  // Two joined tables may not share an alias.
  predicate AliasesDistinct(js: seq<LabelJoin>)
  {
    forall i, k :: 0 <= i < k < |js| ==> js[i].alias != js[k].alias
  }

  // The server accepts the statement with these parameters.
  predicate Accepted(s: Statement, values: seq<Value>)
  {
    && ClausesBound(s.clauses, |values|)
    && JoinsBound(s.joins, |values|)
    && AliasesDistinct(s.joins)
    && InRange(s.limitPh, |values|)
    && values[s.limitPh - 1].Int?
    && values[s.limitPh - 1].num >= 0
  }

  // A comparison with NULL, or with a parameter of the wrong type, does not hold.
  predicate ClauseHolds(c: Clause, values: seq<Value>, r: Row)
    requires ClauseBound(c, |values|)
  {
    match c
    case TimeFrom(ph) => values[ph - 1].Int? && r.occurredAt >= values[ph - 1].num
    case TimeTo(ph) => values[ph - 1].Int? && r.occurredAt <= values[ph - 1].num
    case KeyBelow(p, q) => values[p - 1].Int? && Below(KeyOf(r), Key(values[p - 1].num, values[q - 1]))
    case ColumnIs(col, ph) => col in r.cols && r.cols[col] == values[ph - 1]
  }

  predicate AllHold(cs: seq<Clause>, values: seq<Value>, r: Row)
    requires ClausesBound(cs, |values|)
  {
    forall c :: c in cs ==> ClauseHolds(c, values, r)
  }

  // ---------- evaluation ----------

  function Filter(p: Row -> bool, rows: seq<Row>): seq<Row>
  {
    if rows == [] then []
    else (if p(rows[0]) then [rows[0]] else []) + Filter(p, rows[1..])
  }

  predicate LabelMatches(l: Label, r: Row, key: Value, value: Value)
  {
    Text(l.eventId) == r.id && Text(l.key) == key && Text(l.value) == value
  }

  function LabelCount(labels: seq<Label>, r: Row, key: Value, value: Value): nat
  {
    if labels == [] then 0
    else (if LabelMatches(labels[0], r, key, value) then 1 else 0) + LabelCount(labels[1..], r, key, value)
  }

  // An inner join yields one copy of e.* for every label row that matches.
  function JoinLabels(rows: seq<Row>, labels: seq<Label>, key: Value, value: Value): seq<Row>
  {
    if rows == [] then []
    else seq(LabelCount(labels, rows[0], key, value), _ => rows[0]) + JoinLabels(rows[1..], labels, key, value)
  }

  function JoinAll(js: seq<LabelJoin>, values: seq<Value>, rows: seq<Row>, labels: seq<Label>): seq<Row>
    requires JoinsBound(js, |values|)
  {
    if js == [] then rows
    else
      var j := js[|js| - 1];
      assert j in js && JoinBound(j, |values|);
      JoinLabels(JoinAll(js[..|js| - 1], values, rows, labels), labels, values[j.keyPh - 1], values[j.valuePh - 1])
  }

  function Insert(x: Row, s: seq<Row>): seq<Row>
  {
    if s == [] then [x]
    else if Below(KeyOf(x), KeyOf(s[0])) then [s[0]] + Insert(x, s[1..])
    else [x] + s
  }

  // ORDER BY occurred_at DESC, id DESC
  function SortDesc(rows: seq<Row>): seq<Row>
  {
    if rows == [] then [] else Insert(rows[0], SortDesc(rows[1..]))
  }

  function Take(rows: seq<Row>, n: nat): (r: seq<Row>)
    ensures |r| <= n
  {
    if |rows| <= n then rows else rows[..n]
  }

  function Execute(s: Statement, values: seq<Value>, rows: seq<Row>, labels: seq<Label>): Option<seq<Row>>
  {
    if !Accepted(s, values) then None
    else
      var matching := Filter(r => ClausesBound(s.clauses, |values|) && AllHold(s.clauses, values, r),
                             JoinAll(s.joins, values, rows, labels));
      Some(Take(SortDesc(matching), values[s.limitPh - 1].num))
  }

  // ---------- sorted listings ----------

  predicate Descending(rows: seq<Row>)
  {
    forall i, j :: 0 <= i < j < |rows| ==> Below(KeyOf(rows[j]), KeyOf(rows[i]))
  }

  // The primary key makes the keys of distinct rows distinct.
  predicate UniqueIds(rows: seq<Row>)
  {
    forall i, j :: 0 <= i < j < |rows| ==> rows[i].id != rows[j].id
  }

  ghost predicate SameRows(a: seq<Row>, b: seq<Row>)
  {
    forall r :: r in a <==> r in b
  }

  lemma {:induction false} FilterElements(p: Row -> bool, rows: seq<Row>)
    ensures forall r :: r in Filter(p, rows) <==> r in rows && p(r)
    ensures UniqueIds(rows) ==> UniqueIds(Filter(p, rows))
  {
    if rows != [] {
      FilterElements(p, rows[1..]);
      var tail := Filter(p, rows[1..]);
      assert rows == [rows[0]] + rows[1..];
      if UniqueIds(rows) && p(rows[0]) {
        forall i, j | 0 <= i < j < |Filter(p, rows)|
          ensures Filter(p, rows)[i].id != Filter(p, rows)[j].id
        {
          assert Filter(p, rows)[j] == tail[j - 1] && tail[j - 1] in rows[1..];
        }
      }
    }
  }

  lemma {:induction false} FilterSame(p: Row -> bool, q: Row -> bool, rows: seq<Row>)
    requires forall r :: r in rows ==> p(r) == q(r)
    ensures Filter(p, rows) == Filter(q, rows)
  {
    if rows != [] {
      FilterSame(p, q, rows[1..]);
    }
  }

  lemma {:induction false} FilterTwice(p: Row -> bool, q: Row -> bool, rows: seq<Row>)
    ensures Filter(p, Filter(q, rows)) == Filter(r => q(r) && p(r), rows)
  {
    if rows != [] {
      FilterTwice(p, q, rows[1..]);
      var t := Filter(q, rows[1..]);
      if q(rows[0]) {
        assert ([rows[0]] + t)[1..] == t;
      } else {
        assert [] + t == t;
      }
    }
  }

  lemma {:induction false} FilterSplit(p: Row -> bool, a: seq<Row>, b: seq<Row>)
    ensures Filter(p, a + b) == Filter(p, a) + Filter(p, b)
  {
    if a == [] {
      assert a + b == b;
    } else {
      assert (a + b)[1..] == a[1..] + b;
      FilterSplit(p, a[1..], b);
    }
  }

  lemma {:induction false} InsertSorted(x: Row, s: seq<Row>)
    requires Descending(s)
    requires forall r :: r in s ==> KeyOf(r) != KeyOf(x)
    ensures Descending(Insert(x, s))
    ensures forall r :: r in Insert(x, s) <==> r == x || r in s
  {
    if s != [] {
      assert s == [s[0]] + s[1..];
      if Below(KeyOf(x), KeyOf(s[0])) {
        InsertSorted(x, s[1..]);
        var t := Insert(x, s[1..]);
        forall i, j | 0 <= i < j < |[s[0]] + t|
          ensures Below(KeyOf(([s[0]] + t)[j]), KeyOf(([s[0]] + t)[i]))
        {
          if i == 0 {
            assert t[j - 1] in t;
          }
        }
      } else {
        BelowTotal(KeyOf(x), KeyOf(s[0]));
        forall j | 0 <= j < |s|
          ensures Below(KeyOf(s[j]), KeyOf(x))
        {
          if j > 0 {
            BelowTransitive(KeyOf(s[j]), KeyOf(s[0]), KeyOf(x));
          }
        }
      }
    }
  }

  // Sorting a table with a primary key lists exactly its rows, strictly descending.
  lemma {:induction false} SortIsListing(rows: seq<Row>)
    requires UniqueIds(rows)
    ensures Descending(SortDesc(rows))
    ensures SameRows(SortDesc(rows), rows)
  {
    if rows != [] {
      SortIsListing(rows[1..]);
      assert rows == [rows[0]] + rows[1..];
      forall r | r in SortDesc(rows[1..])
        ensures KeyOf(r) != KeyOf(rows[0])
      {
        var i :| 0 <= i < |rows[1..]| && rows[1..][i] == r;
        assert rows[i + 1].id != rows[0].id;
      }
      InsertSorted(rows[0], SortDesc(rows[1..]));
    }
  }

  lemma SameRowsNonempty(a: seq<Row>, b: seq<Row>)
    requires SameRows(a, b)
    ensures a != [] ==> b != []
  {
    if a != [] {
      assert a[0] in b;
    }
  }

  // A strictly descending listing is determined by the rows in it.
  lemma {:induction false} ListingUnique(a: seq<Row>, b: seq<Row>)
    requires Descending(a) && Descending(b) && SameRows(a, b)
    ensures a == b
  {
    if a == [] {
      SameRowsNonempty(b, a);
    } else {
      SameRowsNonempty(a, b);
      assert a[0] in b && b[0] in a;
      HeadIsGreatest(a, b[0]);
      HeadIsGreatest(b, a[0]);
      BelowTotal(KeyOf(a[0]), KeyOf(b[0]));
      assert a[0] == b[0];
      forall r
        ensures r in a[1..] <==> r in b[1..]
      {
        TailMembers(a, r);
        TailMembers(b, r);
        assert r in a <==> r in b;
      }
      ListingUnique(a[1..], b[1..]);
      assert a == [a[0]] + a[1..] && b == [b[0]] + b[1..];
    }
  }

  lemma HeadIsGreatest(a: seq<Row>, r: Row)
    requires Descending(a) && r in a
    ensures r == a[0] || Below(KeyOf(r), KeyOf(a[0]))
  {
  }

  lemma TailMembers(a: seq<Row>, r: Row)
    requires Descending(a) && a != []
    ensures r in a[1..] <==> r in a && r != a[0]
  {
    assert a == [a[0]] + a[1..];
    if a[0] in a[1..] {
      BelowTotal(KeyOf(a[0]), KeyOf(a[0]));
    }
  }

  // ---------- the listing a query denotes ----------

  // Every row satisfying p, newest first.
  function Listing(p: Row -> bool, rows: seq<Row>): seq<Row>
  {
    SortDesc(Filter(p, rows))
  }

  lemma ListingMeaning(p: Row -> bool, rows: seq<Row>)
    requires UniqueIds(rows)
    ensures Descending(Listing(p, rows))
    ensures forall r :: r in Listing(p, rows) <==> r in rows && p(r)
  {
    FilterElements(p, rows);
    SortIsListing(Filter(p, rows));
  }

  // Restricting a listing to the keys below its n-th row drops its first n rows.
  lemma ListingBelow(p: Row -> bool, rows: seq<Row>, n: nat)
    requires UniqueIds(rows)
    requires 0 < n <= |Listing(p, rows)|
    ensures Listing(r => p(r) && Below(KeyOf(r), KeyOf(Listing(p, rows)[n - 1])), rows) == Listing(p, rows)[n..]
  {
    var all := Listing(p, rows);
    var q := (r: Row) => p(r) && Below(KeyOf(r), KeyOf(all[n - 1]));
    ListingMeaning(p, rows);
    ListingMeaning(q, rows);
    forall r
      ensures r in Listing(q, rows) <==> r in all[n..]
    {
      if r in all[n..] {
        var i :| 0 <= i < |all[n..]| && all[n..][i] == r;
        assert r == all[n + i];
      }
      if r in Listing(q, rows) {
        var i :| 0 <= i < |all| && all[i] == r;
        if i <= n - 1 {
          BelowTotal(KeyOf(all[i]), KeyOf(all[n - 1]));
        }
        assert all[n..][i - n] == r;
      }
    }
    assert Descending(all[n..]);
    ListingUnique(Listing(q, rows), all[n..]);
  }
}
