/**
 The database side of the query builder: rows, predicates and the select, order and page that
 sqlgraph runs.  A row holds the columns it has a value for; an absent column is NULL.
 */
module Rows {
  import opened Options

  datatype Value = Null | Int(i: int) | Text(s: string)

  type Row = map<string, Value>

  /** A nullable integer column, as a *int64 field. */
  function RefOf(row: Row, column: string): Option<int> {
    if column in row && row[column].Int? then Some(row[column].i) else None
  }

  /** An integer column, as an int64 field: NULL scans to zero. */
  function IntOf(row: Row, column: string): int {
    if column in row && row[column].Int? then row[column].i else 0
  }

  const ID: string := "id"

  datatype Pred =
    | Custom(f: Row -> bool)
    | In(column: string, keys: seq<int>)

  predicate Holds(p: Pred, row: Row) {
    match p
    case Custom(f) => f(row)
    case In(column, keys) => RefOf(row, column).Some? && RefOf(row, column).value in keys
  }

  predicate Matches(ps: seq<Pred>, row: Row) {
    forall i | 0 <= i < |ps| :: Holds(ps[i], row)
  }

  /** What a builder hands to sqlgraph.  A zero limit is no limit, as in sqlgraph.QuerySpec. */
  datatype Spec = Spec(
    fields: seq<string>,
    preds: seq<Pred>,
    rank: Row -> int,
    offset: nat,
    limit: nat,
    modifiers: seq<string>)

  function Filter(rows: seq<Row>, ps: seq<Pred>): seq<Row> {
    if rows == [] then []
    else if Matches(ps, rows[0]) then [rows[0]] + Filter(rows[1..], ps)
    else Filter(rows[1..], ps)
  }

  /** Before the first row of the same or a higher rank. */
  function Insert(row: Row, sorted: seq<Row>, rank: Row -> int): seq<Row> {
    if sorted == [] || rank(row) <= rank(sorted[0]) then [row] + sorted
    else [sorted[0]] + Insert(row, sorted[1..], rank)
  }

  /** ORDER BY rank; rows of one rank stay in table order. */
  function Sort(rows: seq<Row>, rank: Row -> int): seq<Row> {
    if rows == [] then [] else Insert(rows[0], Sort(rows[1..], rank), rank)
  }

  function Page(rows: seq<Row>, offset: nat, limit: nat): seq<Row> {
    var rest := if offset <= |rows| then rows[offset..] else [];
    if limit == 0 || |rest| <= limit then rest else rest[..limit]
  }

  function Select(rows: seq<Row>, spec: Spec): seq<Row> {
    Page(Sort(Filter(rows, spec.preds), spec.rank), spec.offset, spec.limit)
  }

  /** query.Where(p) */
  function Where(spec: Spec, p: Pred): Spec {
    spec.(preds := spec.preds + [p])
  }

  /** ctx.AppendFieldOnce, done only when fields were selected at all. */
  function KeepField(spec: Spec, column: string): Spec {
    if spec.fields == [] || column in spec.fields then spec else spec.(fields := spec.fields + [column])
  }

  // ----- membership through select -----------------------------------------------------------------------

  lemma {:induction false} InFilter(rows: seq<Row>, ps: seq<Pred>, row: Row)
    ensures row in Filter(rows, ps) <==> row in rows && Matches(ps, row)
  {
    if rows != [] {
      InFilter(rows[1..], ps, row);
    }
  }

  lemma {:induction false} InInsert(r: Row, sorted: seq<Row>, rank: Row -> int, row: Row)
    ensures row in Insert(r, sorted, rank) <==> row == r || row in sorted
  {
    if sorted != [] && rank(r) > rank(sorted[0]) {
      InInsert(r, sorted[1..], rank, row);
    }
  }

  lemma {:induction false} InSort(rows: seq<Row>, rank: Row -> int, row: Row)
    ensures row in Sort(rows, rank) <==> row in rows
  {
    if rows != [] {
      InSort(rows[1..], rank, row);
      InInsert(rows[0], Sort(rows[1..], rank), rank, row);
    }
  }

  /** A selected row is a row of the table that meets every predicate. */
  lemma {:induction false} InSelect(rows: seq<Row>, spec: Spec, row: Row)
    requires row in Select(rows, spec)
    ensures row in rows && Matches(spec.preds, row)
  {
    InSort(Filter(rows, spec.preds), spec.rank, row);
    InFilter(rows, spec.preds, row);
  }

  lemma {:induction false} SelectedIn(rows: seq<Row>, spec: Spec, p: Pred, row: Row)
    requires row in Select(rows, Where(spec, p))
    ensures Holds(p, row)
  {
    InSelect(rows, Where(spec, p), row);
    var ps := spec.preds + [p];
    assert ps[|spec.preds|] == p;
  }

  // ----- filters commute with the order --------------------------------------------------------------------

  predicate Sorted(rows: seq<Row>, rank: Row -> int) {
    forall i, j | 0 <= i < j < |rows| :: rank(rows[i]) <= rank(rows[j])
  }

  lemma {:induction false} InsertSorted(row: Row, sorted: seq<Row>, rank: Row -> int)
    requires Sorted(sorted, rank)
    ensures Sorted(Insert(row, sorted, rank), rank)
  {
    if sorted != [] && rank(row) > rank(sorted[0]) {
      InsertSorted(row, sorted[1..], rank);
      var rest := Insert(row, sorted[1..], rank);
      forall j | 0 <= j < |rest| ensures rank(sorted[0]) <= rank(rest[j]) {
        InInsert(row, sorted[1..], rank, rest[j]);
      }
    }
  }

  lemma {:induction false} SortSorted(rows: seq<Row>, rank: Row -> int)
    ensures Sorted(Sort(rows, rank), rank)
  {
    if rows != [] {
      SortSorted(rows[1..], rank);
      InsertSorted(rows[0], Sort(rows[1..], rank), rank);
    }
  }

  lemma {:induction false} InsertFirst(row: Row, sorted: seq<Row>, rank: Row -> int)
    requires forall j | 0 <= j < |sorted| :: rank(row) <= rank(sorted[j])
    ensures Insert(row, sorted, rank) == [row] + sorted
  {
  }

  lemma {:induction false} FilterInsert(row: Row, sorted: seq<Row>, rank: Row -> int, ps: seq<Pred>)
    requires Sorted(sorted, rank)
    ensures Filter(Insert(row, sorted, rank), ps)
         == if Matches(ps, row) then Insert(row, Filter(sorted, ps), rank) else Filter(sorted, ps)
  {
    if sorted == [] || rank(row) <= rank(sorted[0]) {
      assert ([row] + sorted)[1..] == sorted;
      forall j | 0 <= j < |Filter(sorted, ps)| ensures rank(row) <= rank(Filter(sorted, ps)[j]) {
        InFilter(sorted, ps, Filter(sorted, ps)[j]);
      }
      InsertFirst(row, Filter(sorted, ps), rank);
    } else {
      FilterInsert(row, sorted[1..], rank, ps);
      var rest := Insert(row, sorted[1..], rank);
      assert ([sorted[0]] + rest)[1..] == rest;
      if Matches(ps, sorted[0]) {
        var kept := Filter(sorted[1..], ps);
        assert Filter(sorted, ps) == [sorted[0]] + kept;
        assert ([sorted[0]] + kept)[1..] == kept;
      } else if Matches(ps, row) {
        FilterSkipsHead(row, sorted, rank, ps);
      }
    }
  }

  lemma {:induction false} FilterSkipsHead(row: Row, sorted: seq<Row>, rank: Row -> int, ps: seq<Pred>)
    requires sorted != [] && !Matches(ps, sorted[0])
    ensures Insert(row, Filter(sorted, ps), rank) == Insert(row, Filter(sorted[1..], ps), rank)
  {
  }

  lemma {:induction false} FilterSort(rows: seq<Row>, rank: Row -> int, ps: seq<Pred>)
    ensures Filter(Sort(rows, rank), ps) == Sort(Filter(rows, ps), rank)
  {
    if rows != [] {
      FilterSort(rows[1..], rank, ps);
      SortSorted(rows[1..], rank);
      FilterInsert(rows[0], Sort(rows[1..], rank), rank, ps);
      if Matches(ps, rows[0]) {
        assert ([rows[0]] + Filter(rows[1..], ps))[1..] == Filter(rows[1..], ps);
      }
    }
  }

  lemma MatchesConcat(ps: seq<Pred>, qs: seq<Pred>, row: Row)
    ensures Matches(ps + qs, row) <==> Matches(ps, row) && Matches(qs, row)
  {
    if Matches(ps + qs, row) {
      assert forall i | 0 <= i < |ps| :: ps[i] == (ps + qs)[i];
      assert forall i | 0 <= i < |qs| :: qs[i] == (ps + qs)[|ps| + i];
    }
  }

  lemma {:induction false} FilterTwice(rows: seq<Row>, ps: seq<Pred>, qs: seq<Pred>)
    ensures Filter(rows, ps + qs) == Filter(Filter(rows, ps), qs)
  {
    if rows != [] {
      FilterTwice(rows[1..], ps, qs);
      MatchesConcat(ps, qs, rows[0]);
      if Matches(ps, rows[0]) {
        assert ([rows[0]] + Filter(rows[1..], ps))[1..] == Filter(rows[1..], ps);
      }
    }
  }

  /** Without paging, one more predicate filters the selected rows and keeps their order. */
  lemma {:induction false} SelectWhere(rows: seq<Row>, spec: Spec, p: Pred)
    requires spec.offset == 0 && spec.limit == 0
    ensures Select(rows, Where(spec, p)) == Filter(Select(rows, spec), [p])
  {
    FilterTwice(rows, spec.preds, [p]);
    FilterSort(Filter(rows, spec.preds), spec.rank, [p]);
    var all := Sort(Filter(rows, spec.preds), spec.rank);
    assert all[0..] == all;
    var some := Sort(Filter(rows, spec.preds + [p]), spec.rank);
    assert some[0..] == some;
  }

  lemma {:induction false} FilterSame(rows: seq<Row>, ps: seq<Pred>, qs: seq<Pred>)
    requires forall row | row in rows :: Matches(ps, row) <==> Matches(qs, row)
    ensures Filter(rows, ps) == Filter(rows, qs)
  {
    if rows != [] {
      FilterSame(rows[1..], ps, qs);
    }
  }

  /** A predicate that is already there selects nothing away. */
  lemma {:induction false} SelectAgain(rows: seq<Row>, spec: Spec, p: Pred)
    requires p in spec.preds
    ensures Select(rows, Where(spec, p)) == Select(rows, spec)
  {
    forall row | row in rows ensures Matches(spec.preds + [p], row) <==> Matches(spec.preds, row) {
      MatchesConcat(spec.preds, [p], row);
      if Matches(spec.preds, row) {
        var k :| 0 <= k < |spec.preds| && spec.preds[k] == p;
        assert Holds(spec.preds[k], row);
      }
    }
    FilterSame(rows, spec.preds + [p], spec.preds);
  }
}
