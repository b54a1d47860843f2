// Facts about bound clauses, and the lists the query builders append to.
module SqlBuilder {

  import opened Wrappers
  import opened SqlModel

  predicate ColumnEquals(r: Row, col: string, text: string)
  {
    col in r.cols && r.cols[col] == Text(text)
  }

  predicate AfterCursor(cursor: Option<Key>, r: Row)
  {
    cursor.Some? ==> Below(KeyOf(r), cursor.value)
  }

  lemma AllHoldAppend(cs: seq<Clause>, c: Clause, values: seq<Value>, r: Row)
    requires ClausesBound(cs, |values|) && ClauseBound(c, |values|)
    ensures ClausesBound(cs + [c], |values|)
    ensures AllHold(cs + [c], values, r) <==> AllHold(cs, values, r) && ClauseHolds(c, values, r)
  {
    assert c in cs + [c];
    assert forall x :: x in cs ==> x in cs + [c];
  }

  // Appending parameters never changes what an already bound clause means.
  lemma AllHoldStable(cs: seq<Clause>, values: seq<Value>, more: seq<Value>, r: Row)
    requires ClausesBound(cs, |values|)
    ensures ClausesBound(cs, |values + more|)
    ensures AllHold(cs, values + more, r) == AllHold(cs, values, r)
  {
    var all := values + more;
    assert forall k :: 0 <= k < |values| ==> all[k] == values[k];
    forall c | c in cs
      ensures ClauseBound(c, |all|) && ClauseHolds(c, all, r) == ClauseHolds(c, values, r)
    {
      assert ClauseBound(c, |values|);
    }
  }

  // The clauses and values lists that the Python helpers share and grow.
  class StatementBuilder {
    var clauses: seq<Clause>
    var values: seq<Value>

    constructor (clauses: seq<Clause>, values: seq<Value>)
      ensures this.clauses == clauses && this.values == values
    {
      this.clauses, this.values := clauses, values;
    }

    ghost predicate Valid()
      reads this
    {
      ClausesBound(clauses, |values|)
    }

    // The WHERE clause as written so far.
    ghost predicate Accepts(r: Row)
      reads this
      requires Valid()
    {
      AllHold(clauses, values, r)
    }

    method AppendCursor(idx: nat, cursor: Option<Key>) returns (next: nat)
      requires Valid() && idx == |values| + 1
      modifies this
      ensures Valid() && next == |values| + 1
      ensures forall r :: Accepts(r) <==> old(Accepts(r)) && AfterCursor(cursor, r)
    {
      next := idx;
      if cursor.Some? {
        ghost var cs, vs := clauses, values;
        var added := [Int(cursor.value.time), cursor.value.id];
        clauses := clauses + [KeyBelow(idx, idx + 1)];
        values := values + added;
        next := idx + 2;
        forall r
          ensures Accepts(r) <==> AllHold(cs, vs, r) && AfterCursor(cursor, r)
        {
          AllHoldStable(cs, vs, added, r);
          AllHoldAppend(cs, KeyBelow(idx, idx + 1), values, r);
        }
      }
    }

    method AppendColumn(idx: nat, col: string, text: string) returns (next: nat)
      requires Valid() && idx == |values| + 1
      modifies this
      ensures Valid() && next == |values| + 1
      ensures forall r :: Accepts(r) <==> old(Accepts(r)) && ColumnEquals(r, col, text)
    {
      ghost var cs, vs := clauses, values;
      clauses := clauses + [ColumnIs(col, idx)];
      values := values + [Text(text)];
      next := idx + 1;
      forall r
        ensures Accepts(r) <==> AllHold(cs, vs, r) && ColumnEquals(r, col, text)
      {
        AllHoldStable(cs, vs, [Text(text)], r);
        AllHoldAppend(cs, ColumnIs(col, idx), values, r);
      }
    }

    method AppendLimit(limit: nat) returns (limitPh: nat)
      modifies this`values
      ensures limitPh == |values| && values == old(values) + [Int(limit)]
    {
      limitPh := |values| + 1;
      values := values + [Int(limit)];
    }
  }

  // The fixed first three clauses: agent_slug = $1, occurred_at >= $2, occurred_at <= $3.
  const SCOPE_CLAUSES: seq<Clause> := [ColumnIs("agent_slug", 1), TimeFrom(2), TimeTo(3)]

  lemma ScopeClauses(slug: string, since: int, until: int, r: Row)
    ensures ClausesBound(SCOPE_CLAUSES, 3)
    ensures AllHold(SCOPE_CLAUSES, [Text(slug), Int(since), Int(until)], r) <==>
            ColumnEquals(r, "agent_slug", slug) && since <= r.occurredAt <= until
  {
    var cs := SCOPE_CLAUSES;
    assert cs[0] in cs && cs[1] in cs && cs[2] in cs;
  }
}
